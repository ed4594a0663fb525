/**
 The messages of the reverse-tunnel protocol and their bincode form: the index of the variant as a
 32-bit little-endian number, then its fields in order; numbers are fixed-width little-endian, texts
 and byte strings carry a 64-bit length, an option carries a tag octet.
 */
module TunnelMessages {
  import opened Base

  /** A text as its UTF-8 octets. */
  type Text = Bytes

  datatype Message =
    | Ping(timestamp: nat)
    | Pong(timestamp: nat)
    | Disconnect(reason: Text)
    | AgentRegister(agentId: Text, authToken: Text, target: Text, hostname: Text, platform: Text, version: Text,
                    location: Option<Text>)
    | AgentRegistered(agentId: Text)
    | AgentRejected(reason: Text)
    | ValidateAgentToken(token: Option<Text>)
    | ValidateAgentTokenOk
    | ValidateAgentTokenReject(reason: Text)
    | ForwardRequest(localupId: Text, streamId: nat, remoteAddress: Text, agentToken: Option<Text>)
    | ForwardAccept(localupId: Text, streamId: nat)
    | ForwardReject(localupId: Text, streamId: nat, reason: Text)
    | ReverseData(localupId: Text, streamId: nat, data: Bytes)
    | ReverseClose(localupId: Text, streamId: nat, closeReason: Option<Text>)

  // ----- numbers

  function Pow256(k: nat): (r: nat)
    ensures r > 0
  {
    if k == 0 then 1 else 256 * Pow256(k - 1)
  }

  function PutLE(n: nat, k: nat): (s: Bytes)
    ensures |s| == k
    decreases k
  {
    if k == 0 then [] else [n % 256] + PutLE(n / 256, k - 1)
  }

  function GetLE(s: Bytes, k: nat): Option<(nat, Bytes)> {
    if k == 0 then Some((0, s))
    else if s == [] then None
    else match GetLE(s[1..], k - 1)
      case None => None
      case Some((n, rest)) => Some((s[0] + 256 * n, rest))
  }

  lemma {:induction false} LERoundTrip(n: nat, k: nat, rest: Bytes)
    requires n < Pow256(k)
    ensures GetLE(PutLE(n, k) + rest, k) == Some((n, rest))
    decreases k
  {
    var s := PutLE(n, k) + rest;
    if k == 0 {
      assert s == rest;
    } else {
      LERoundTrip(n / 256, k - 1, rest);
      assert s[1..] == PutLE(n / 256, k - 1) + rest;
    }
  }

  // ----- fields

  datatype Item = Num64(n: nat) | Num32(n: nat) | Octets(s: Bytes) | Maybe(o: Option<Bytes>)

  datatype Kind = KNum64 | KNum32 | KOctets | KMaybe

  function KindOf(i: Item): Kind {
    match i case Num64(_) => KNum64 case Num32(_) => KNum32 case Octets(_) => KOctets case Maybe(_) => KMaybe
  }

  /** Numbers within their width and texts within their length field. */
  predicate Fits(i: Item) {
    match i
    case Num64(n) => n < Pow256(8)
    case Num32(n) => n < Pow256(4)
    case Octets(s) => |s| < Pow256(8)
    case Maybe(o) => o.Some? ==> |o.value| < Pow256(8)
  }

  function PutItem(i: Item): Bytes {
    match i
    case Num64(n) => PutLE(n, 8)
    case Num32(n) => PutLE(n, 4)
    case Octets(s) => PutLE(|s|, 8) + s
    case Maybe(None) => [0]
    case Maybe(Some(s)) => [1] + (PutLE(|s|, 8) + s)
  }

  /** A byte string behind a length of `k` octets. */
  function GetOctets(s: Bytes, k: nat): Option<(Bytes, Bytes)> {
    match GetLE(s, k)
    case None => None
    case Some((n, rest)) => if n <= |rest| then Some((rest[..n], rest[n..])) else None
  }

  function GetMaybe(s: Bytes, k: nat): Option<(Option<Bytes>, Bytes)> {
    if s == [] then None
    else if s[0] == 0 then Some((None, s[1..]))
    else if s[0] == 1 then
      (match GetOctets(s[1..], k) case None => None case Some((t, rest)) => Some((Some(t), rest)))
    else None
  }

  function GetItem(kind: Kind, s: Bytes): Option<(Item, Bytes)> {
    match kind
    case KNum64 => (match GetLE(s, 8) case None => None case Some((n, rest)) => Some((Num64(n), rest)))
    case KNum32 => (match GetLE(s, 4) case None => None case Some((n, rest)) => Some((Num32(n), rest)))
    case KOctets => (match GetOctets(s, 8) case None => None case Some((t, rest)) => Some((Octets(t), rest)))
    case KMaybe => (match GetMaybe(s, 8) case None => None case Some((o, rest)) => Some((Maybe(o), rest)))
  }

  lemma OctetsRoundTrip(t: Bytes, k: nat, rest: Bytes)
    requires |t| < Pow256(k)
    ensures GetOctets(PutLE(|t|, k) + t + rest, k) == Some((t, rest))
  {
    LERoundTrip(|t|, k, t + rest);
    assert PutLE(|t|, k) + t + rest == PutLE(|t|, k) + (t + rest);
    assert (t + rest)[..|t|] == t && (t + rest)[|t|..] == rest;
  }

  lemma TaggedReads(body: Bytes, k: nat, rest: Bytes)
    ensures GetMaybe([1] + body + rest, k) ==
            match GetOctets(body + rest, k) case None => None case Some((t, after)) => Some((Some(t), after))
  {
    assert ([1] + body + rest)[1..] == body + rest;
  }

  lemma SomeRoundTrip(t: Bytes, k: nat, rest: Bytes)
    requires |t| < Pow256(k)
    ensures GetMaybe([1] + (PutLE(|t|, k) + t) + rest, k) == Some((Some(t), rest))
  {
    OctetsRoundTrip(t, k, rest);
    TaggedReads(PutLE(|t|, k) + t, k, rest);
  }

  lemma ItemRoundTrip(i: Item, rest: Bytes)
    requires Fits(i)
    ensures GetItem(KindOf(i), PutItem(i) + rest) == Some((i, rest))
  {
    match i
    case Num64(n) => LERoundTrip(n, 8, rest);
    case Num32(n) => LERoundTrip(n, 4, rest);
    case Octets(s) => OctetsRoundTrip(s, 8, rest);
    case Maybe(None) => assert ([0] + rest)[1..] == rest;
    case Maybe(Some(s)) => SomeRoundTrip(s, 8, rest);
  }

  function PutItems(items: seq<Item>): Bytes {
    if items == [] then [] else PutItem(items[0]) + PutItems(items[1..])
  }

  function GetItems(kinds: seq<Kind>, s: Bytes): Option<seq<Item>> {
    if kinds == [] then Some([])
    else match GetItem(kinds[0], s)
      case None => None
      case Some((i, rest)) =>
        match GetItems(kinds[1..], rest)
        case None => None
        case Some(items) => Some([i] + items)
  }

  function Kinds(items: seq<Item>): seq<Kind> {
    seq(|items|, k requires 0 <= k < |items| => KindOf(items[k]))
  }

  lemma {:induction false} ItemsRoundTrip(items: seq<Item>)
    requires forall i | i in items :: Fits(i)
    ensures GetItems(Kinds(items), PutItems(items)) == Some(items)
    decreases |items|
  {
    if items != [] {
      assert items[0] in items;
      ItemRoundTrip(items[0], PutItems(items[1..]));
      ItemsRoundTrip(items[1..]);
      assert Kinds(items)[1..] == Kinds(items[1..]);
      assert [items[0]] + items[1..] == items;
    }
  }

  lemma KindsHead(items: seq<Item>, more: seq<Kind>)
    requires items != []
    ensures Kinds(items) + more == [KindOf(items[0])] + (Kinds(items[1..]) + more)
  {
  }

  lemma GetItemsFails(kinds: seq<Kind>, s: Bytes, i: Item, rest: Bytes)
    requires kinds != [] && GetItem(kinds[0], s) == Some((i, rest)) && GetItems(kinds[1..], rest).None?
    ensures GetItems(kinds, s).None?
  {
  }

  /** A field that was left out makes the reader run out of input. */
  lemma {:induction false} MissingFieldFails(items: seq<Item>, missing: Kind)
    requires forall i | i in items :: Fits(i)
    ensures GetItems(Kinds(items) + [missing], PutItems(items)).None?
    decreases |items|
  {
    if items == [] {
      assert Kinds(items) + [missing] == [missing];
    } else {
      assert items[0] in items;
      ItemRoundTrip(items[0], PutItems(items[1..]));
      MissingFieldFails(items[1..], missing);
      KindsHead(items, [missing]);
      GetItemsFails(Kinds(items) + [missing], PutItems(items), items[0], PutItems(items[1..]));
    }
  }

  // ----- messages

  function Tag(m: Message): nat {
    match m
    case Ping(_) => 0
    case Pong(_) => 1
    case Disconnect(_) => 4
    case AgentRegister(_, _, _, _, _, _, _) => 18
    case AgentRegistered(_) => 19
    case AgentRejected(_) => 20
    case ValidateAgentToken(_) => 25
    case ValidateAgentTokenOk => 26
    case ValidateAgentTokenReject(_) => 27
    case ForwardRequest(_, _, _, _) => 28
    case ForwardAccept(_, _) => 29
    case ForwardReject(_, _, _) => 30
    case ReverseData(_, _, _) => 31
    case ReverseClose(_, _, _) => 32
  }

  /** The declared fields of a message. */
  function Items(m: Message): seq<Item> {
    match m
    case Ping(t) => [Num64(t)]
    case Pong(t) => [Num64(t)]
    case Disconnect(r) => [Octets(r)]
    case AgentRegister(a, t, g, h, p, v, l) =>
      [Octets(a), Octets(t), Octets(g), Octets(h), Octets(p), Octets(v), Maybe(l)]
    case AgentRegistered(a) => [Octets(a)]
    case AgentRejected(r) => [Octets(r)]
    case ValidateAgentToken(t) => [Maybe(t)]
    case ValidateAgentTokenOk => []
    case ValidateAgentTokenReject(r) => [Octets(r)]
    case ForwardRequest(l, s, a, t) => [Octets(l), Num32(s), Octets(a), Maybe(t)]
    case ForwardAccept(l, s) => [Octets(l), Num32(s)]
    case ForwardReject(l, s, r) => [Octets(l), Num32(s), Octets(r)]
    case ReverseData(l, s, d) => [Octets(l), Num32(s), Octets(d)]
    case ReverseClose(l, s, r) => [Octets(l), Num32(s), Maybe(r)]
  }

  /** The fields that are written: `skip_serializing_if` leaves out an absent close reason. */
  function WrittenItems(m: Message): seq<Item> {
    if m.ReverseClose? && m.closeReason.None? then Items(m)[..2] else Items(m)
  }

  /** The fields that the reader expects. */
  function Expected(tag: nat): Option<seq<Kind>> {
    match tag
    case 0 => Some([KNum64])
    case 1 => Some([KNum64])
    case 4 => Some([KOctets])
    case 18 => Some([KOctets, KOctets, KOctets, KOctets, KOctets, KOctets, KMaybe])
    case 19 => Some([KOctets])
    case 20 => Some([KOctets])
    case 25 => Some([KMaybe])
    case 26 => Some([])
    case 27 => Some([KOctets])
    case 28 => Some([KOctets, KNum32, KOctets, KMaybe])
    case 29 => Some([KOctets, KNum32])
    case 30 => Some([KOctets, KNum32, KOctets])
    case 31 => Some([KOctets, KNum32, KOctets])
    case 32 => Some([KOctets, KNum32, KMaybe])
    case _ => None
  }

  function Num(i: Item): nat {
    if i.Num64? || i.Num32? then i.n else 0
  }

  function Txt(i: Item): Bytes {
    if i.Octets? then i.s else []
  }

  function Opt(i: Item): Option<Bytes> {
    if i.Maybe? then i.o else None
  }

  function Build(tag: nat, f: seq<Item>): Option<Message>
    requires Expected(tag).Some? && |f| == |Expected(tag).value|
  {
    match tag
    case 0 => Some(Ping(Num(f[0])))
    case 1 => Some(Pong(Num(f[0])))
    case 4 => Some(Disconnect(Txt(f[0])))
    case 18 => Some(AgentRegister(Txt(f[0]), Txt(f[1]), Txt(f[2]), Txt(f[3]), Txt(f[4]), Txt(f[5]), Opt(f[6])))
    case 19 => Some(AgentRegistered(Txt(f[0])))
    case 20 => Some(AgentRejected(Txt(f[0])))
    case 25 => Some(ValidateAgentToken(Opt(f[0])))
    case 26 => Some(ValidateAgentTokenOk)
    case 27 => Some(ValidateAgentTokenReject(Txt(f[0])))
    case 28 => Some(ForwardRequest(Txt(f[0]), Num(f[1]), Txt(f[2]), Opt(f[3])))
    case 29 => Some(ForwardAccept(Txt(f[0]), Num(f[1])))
    case 30 => Some(ForwardReject(Txt(f[0]), Num(f[1]), Txt(f[2])))
    case 31 => Some(ReverseData(Txt(f[0]), Num(f[1]), Txt(f[2])))
    case 32 => Some(ReverseClose(Txt(f[0]), Num(f[1]), Opt(f[2])))
    case _ => None
  }

  /** `bincode::serialize`. */
  function Serialize(m: Message): Bytes {
    PutLE(Tag(m), 4) + PutItems(WrittenItems(m))
  }

  lemma {:induction false} GetItemsLength(kinds: seq<Kind>, s: Bytes)
    ensures GetItems(kinds, s).Some? ==> |GetItems(kinds, s).value| == |kinds|
    decreases |kinds|
  {
    if kinds != [] && GetItem(kinds[0], s).Some? {
      GetItemsLength(kinds[1..], GetItem(kinds[0], s).value.1);
    }
  }

  /** `bincode::deserialize`, which ignores what follows the last field. */
  function Deserialize(s: Bytes): Option<Message> {
    match GetLE(s, 4)
    case None => None
    case Some((tag, rest)) =>
      match Expected(tag)
      case None => None
      case Some(kinds) =>
        GetItemsLength(kinds, rest);
        match GetItems(kinds, rest)
        case None => None
        case Some(items) => Build(tag, items)
  }

  predicate WellSized(m: Message) {
    forall i | i in Items(m) :: Fits(i)
  }

  /** A close without a reason, which is the close that the forwarder sends. */
  predicate LosesField(m: Message) {
    m.ReverseClose? && m.closeReason.None?
  }

  lemma ExpectedKinds(m: Message)
    ensures Expected(Tag(m)) == Some(Kinds(Items(m)))
  {
    var kinds := Expected(Tag(m)).value;
    assert |kinds| == |Items(m)|;
    assert forall k | 0 <= k < |kinds| :: kinds[k] == KindOf(Items(m)[k]);
    assert kinds == Kinds(Items(m));
  }

  lemma BuildInverts(m: Message)
    ensures Expected(Tag(m)) == Some(Kinds(Items(m)))
    ensures Build(Tag(m), Items(m)) == Some(m)
  {
    ExpectedKinds(m);
  }

  lemma TagRead(m: Message, rest: Bytes)
    ensures GetLE(PutLE(Tag(m), 4) + rest, 4) == Some((Tag(m), rest))
  {
    assert Tag(m) < 256;
    assert Pow256(4) >= 256 by {
      assert Pow256(1) == 256;
      assert Pow256(2) == 256 * Pow256(1);
      assert Pow256(3) == 256 * Pow256(2);
    }
    LERoundTrip(Tag(m), 4, rest);
  }

  lemma ClosePayloadFails(m: Message)
    requires WellSized(m) && LosesField(m)
    ensures Deserialize(Serialize(m)).None?
  {
    var items := [Octets(m.localupId), Num32(m.streamId)];
    assert Items(m) == items + [Maybe(None)];
    assert WrittenItems(m) == items;
    assert forall i | i in items :: i in Items(m);
    CloseFails(m, items);
  }

  lemma CloseFails(m: Message, items: seq<Item>)
    requires Serialize(m) == PutLE(Tag(m), 4) + PutItems(items) && Items(m) == items + [Maybe(None)]
    requires forall i | i in items :: Fits(i)
    ensures Deserialize(Serialize(m)).None?
  {
    TagRead(m, PutItems(items));
    MissingFieldFails(items, KMaybe);
    ExpectedKinds(m);
    assert Kinds(items + [Maybe(None)]) == Kinds(items) + [KMaybe];
  }

  /** A message survives serialization exactly when it is not a ReverseClose without a reason. */
  lemma SurvivesIff(m: Message)
    requires WellSized(m)
    ensures Deserialize(Serialize(m)) == Some(m) <==> !LosesField(m)
    ensures LosesField(m) ==> Deserialize(Serialize(m)).None?
  {
    if LosesField(m) {
      ClosePayloadFails(m);
    } else {
      TagRead(m, PutItems(Items(m)));
      ItemsRoundTrip(Items(m));
      BuildInverts(m);
    }
  }

  // ----- the layout

  function Small(n: Byte): Bytes {
    [n, 0, 0, 0]
  }

  function Length(n: Byte): Bytes {
    [n, 0, 0, 0, 0, 0, 0, 0]
  }

  lemma SmallNumbers(n: Byte)
    ensures PutLE(n, 4) == Small(n) && PutLE(n, 8) == Length(n)
  {
    assert PutLE(0, 3) == [0] + PutLE(0, 2) == [0, 0, 0];
    assert PutLE(0, 7) == [0] + PutLE(0, 6) == [0, 0, 0, 0] + PutLE(0, 3);
    assert n % 256 == n && n / 256 == 0;
  }

  lemma OneItem(a: Item)
    ensures PutItems([a]) == PutItem(a)
  {
    assert [a][1..] == [];
  }

  lemma TwoItems(a: Item, b: Item)
    ensures PutItems([a, b]) == PutItem(a) + PutItem(b)
  {
    assert [a, b][1..] == [b];
    OneItem(b);
  }

  lemma ThreeItems(a: Item, b: Item, c: Item)
    ensures PutItems([a, b, c]) == PutItem(a) + (PutItem(b) + PutItem(c))
  {
    assert [a, b, c][1..] == [b, c];
    TwoItems(b, c);
  }

  /** The octets of the heartbeat messages and of the messages that carry the data of a stream, written out. */
  lemma WireLayout(t: Byte, id: Byte, stream: Byte, x: Byte)
    ensures Serialize(Ping(t)) == Small(0) + Length(t) && Serialize(Pong(t)) == Small(1) + Length(t)
    ensures Serialize(ForwardAccept([id], stream)) == Small(29) + (Length(1) + [id] + Small(stream))
    ensures Serialize(ReverseData([id], stream, [x]))
            == Small(31) + (Length(1) + [id] + (Small(stream) + (Length(1) + [x])))
    ensures Serialize(ReverseClose([id], stream, None)) == Small(32) + (Length(1) + [id] + Small(stream))
    ensures Serialize(ReverseClose([id], stream, Some([x])))
            == Small(32) + (Length(1) + [id] + (Small(stream) + ([1] + (Length(1) + [x]))))
  {
    forall n: Byte ensures PutLE(n, 4) == Small(n) && PutLE(n, 8) == Length(n) {
      SmallNumbers(n);
    }
    OneItem(Num64(t));
    TwoItems(Octets([id]), Num32(stream));
    ThreeItems(Octets([id]), Num32(stream), Octets([x]));
    ThreeItems(Octets([id]), Num32(stream), Maybe(Some([x])));
    assert Items(ReverseClose([id], stream, None))[..2] == [Octets([id]), Num32(stream)];
  }
}
