/**
 The agent's data streams: `handle_stream` for any number of concurrent streams that share one
 connection table. Stream numbers come from the requests and may collide; the table can be cleared at
 any time, as it is when the agent stops while streams are still running.
 */
module AgentStreams {
  import opened Base
  import opened TunnelMessages

  // ----- the connection table

  datatype ConnectionInfo = ConnectionInfo(localupId: Text, streamId: nat, remoteAddress: Text)

  type Table = map<nat, ConnectionInfo>

  /** The calls that change the table. */
  datatype Call = Add(streamId: nat, info: ConnectionInfo) | Remove(streamId: nat) | RemoveAll

  function TableStep(table: Table, call: Call): Table {
    match call
    case Add(n, info) => table[n := info]
    case Remove(n) => table - {n}
    case RemoveAll => map[]
  }

  function Lookup(table: Table, n: nat): Option<ConnectionInfo> {
    if n in table then Some(table[n]) else None
  }

  /** What the last call that concerns `n` left under that number. */
  function LastEntry(calls: seq<Call>, n: nat): Option<ConnectionInfo> {
    if calls == [] then None
    else match calls[|calls| - 1]
      case Add(m, info) => if m == n then Some(info) else LastEntry(calls[..|calls| - 1], n)
      case Remove(m) => if m == n then None else LastEntry(calls[..|calls| - 1], n)
      case RemoveAll => None
  }

  /** The table holds, under each number, what the last call for that number left. */
  ghost predicate Reflects(table: Table, calls: seq<Call>) {
    forall n: nat :: Lookup(table, n) == LastEntry(calls, n)
  }

  lemma StepReflects(table: Table, calls: seq<Call>, call: Call)
    requires Reflects(table, calls)
    ensures Reflects(TableStep(table, call), calls + [call])
  {
    assert (calls + [call])[..|calls|] == calls;
    forall n: nat ensures Lookup(TableStep(table, call), n) == LastEntry(calls + [call], n) {
      assert Lookup(table, n) == LastEntry(calls, n);
    }
  }

  lemma ReflectsOne(t1: Table, t2: Table, calls: seq<Call>)
    requires Reflects(t1, calls) && Reflects(t2, calls)
    ensures t1 == t2
  {
    forall n: nat ensures Lookup(t1, n) == Lookup(t2, n) {
      assert Lookup(t1, n) == LastEntry(calls, n) == Lookup(t2, n);
    }
    forall n: nat ensures (n in t1 <==> n in t2) && (n in t1 ==> t1[n] == t2[n]) {
      assert Lookup(t1, n) == Lookup(t2, n);
    }
  }

  class ConnectionManager {
    var connections: Table
    ghost var calls: seq<Call>

    ghost predicate Valid()
      reads this
    {
      Reflects(connections, calls)
    }

    constructor ()
      ensures Valid() && calls == []
    {
      connections, calls := map[], [];
    }

    method Register(streamId: nat, info: ConnectionInfo)
      requires Valid()
      modifies this
      ensures Valid() && calls == old(calls) + [Add(streamId, info)]
    {
      StepReflects(connections, calls, Add(streamId, info));
      connections := connections[streamId := info];
      calls := calls + [Add(streamId, info)];
    }

    method Unregister(streamId: nat)
      requires Valid()
      modifies this
      ensures Valid() && calls == old(calls) + [Remove(streamId)]
    {
      StepReflects(connections, calls, Remove(streamId));
      if streamId in connections {
        connections := connections - {streamId};
      } else {
        assert connections == connections - {streamId};
      }
      calls := calls + [Remove(streamId)];
    }

    method Get(streamId: nat) returns (info: Option<ConnectionInfo>)
      requires Valid()
      ensures info == LastEntry(calls, streamId)
    {
      assert Lookup(connections, streamId) == LastEntry(calls, streamId);
      info := if streamId in connections then Some(connections[streamId]) else None;
    }

    method Count() returns (n: nat)
      requires Valid()
      ensures exists ids: set<nat> :: n == |ids| && forall m: nat :: m in ids <==> LastEntry(calls, m).Some?
    {
      n := |connections|;
      forall m: nat ensures m in connections.Keys <==> LastEntry(calls, m).Some? {
        assert Lookup(connections, m) == LastEntry(calls, m);
      }
    }

    method Clear()
      requires Valid()
      modifies this
      ensures Valid() && calls == old(calls) + [RemoveAll]
    {
      StepReflects(connections, calls, RemoveAll);
      connections := map[];
      calls := calls + [RemoveAll];
    }
  }

  // ----- one stream

  /** The agent's configuration: the address it forwards to and, with a secret, which tokens are valid. */
  datatype Agent = Agent(target: Text, checksTokens: bool, valid: Text -> bool)

  predicate Authorised(a: Agent, token: Option<Text>) {
    !a.checksTokens || (token.Some? && a.valid(token.value))
  }

  datatype Pc =
    | Opened
    | Checking(request: Message)
    | Rejecting(request: Message)
    | Accepting(request: Message)
    | Accepted(request: Message)
    | Dialling(request: Message)
    | Forwarding(request: Message)
    | Unregistering(request: Message)
    | Closed

  /** History: what the stream received, what it answered and which addresses it connected to. */
  datatype Stream = Stream(pc: Pc, received: Option<Message>, replies: seq<Message>, dialled: seq<Text>)

  type StreamKey = nat

  datatype State = State(streams: map<StreamKey, Stream>, table: Table)

  const INITIAL := State(map[], map[])

  datatype Event =
    | Open(k: StreamKey)
    | Receive(k: StreamKey, m: Option<Message>)
    | Check(k: StreamKey)
    | Reply(k: StreamKey, ok: bool)
    | Register(k: StreamKey)
    | Dial(k: StreamKey, ok: bool)
    | ForwardEnds(k: StreamKey)
    | Unregister(k: StreamKey)
    | Clear

  function Goto(s: State, k: StreamKey, pc: Pc): State
    requires k in s.streams
  {
    s.(streams := s.streams[k := s.streams[k].(pc := pc)])
  }

  function Answered(s: State, k: StreamKey, pc: Pc, reply: Message): State
    requires k in s.streams
  {
    s.(streams := s.streams[k := s.streams[k].(pc := pc, replies := s.streams[k].replies + [reply])])
  }

  /** One step of one stream; None when the stream is not at that point. */
  function Apply(a: Agent, s: State, e: Event): Option<State> {
    if e.Clear? then Some(s.(table := TableStep(s.table, RemoveAll)))
    else if e.Open? then
      if e.k in s.streams then None else Some(s.(streams := s.streams[e.k := Stream(Opened, None, [], [])]))
    else if e.k !in s.streams then None
    else match (e, s.streams[e.k].pc)
      case (Receive(k, m), Opened) =>
        var pc := if m.Some? && m.value.ForwardRequest? then Checking(m.value) else Closed;
        Some(s.(streams := s.streams[k := s.streams[k].(pc := pc, received := m)]))
      case (Check(k), Checking(ForwardRequest(l, n, address, token))) =>
        var request := ForwardRequest(l, n, address, token);
        Some(Goto(s, k, if Authorised(a, token) && address == a.target then Accepting(request) else Rejecting(request)))
      case (Reply(k, ok), Rejecting(ForwardRequest(l, n, _, _))) =>
        Some(if ok then Answered(s, k, Closed, ForwardReject(l, n, [])) else Goto(s, k, Closed))
      case (Reply(k, ok), Accepting(ForwardRequest(l, n, address, token))) =>
        var request := ForwardRequest(l, n, address, token);
        Some(if ok then Answered(s, k, Accepted(request), ForwardAccept(l, n)) else Goto(s, k, Closed))
      case (Register(k), Accepted(ForwardRequest(l, n, address, token))) =>
        Some(Goto(s, k, Dialling(ForwardRequest(l, n, address, token)))
             .(table := TableStep(s.table, Add(n, ConnectionInfo(l, n, address)))))
      case (Dial(k, ok), Dialling(ForwardRequest(l, n, address, token))) =>
        var request := ForwardRequest(l, n, address, token);
        var pc := if ok then Forwarding(request) else Unregistering(request);
        Some(s.(streams := s.streams[k := s.streams[k].(pc := pc, dialled := s.streams[k].dialled + [address])]))
      case (ForwardEnds(k), Forwarding(request)) => Some(Goto(s, k, Unregistering(request)))
      case (Unregister(k), Unregistering(ForwardRequest(_, n, _, _))) =>
        Some(Goto(s, k, Closed).(table := TableStep(s.table, Remove(n))))
      case _ => None
  }

  ghost predicate IsRun(a: Agent, ss: seq<State>, es: seq<Event>) {
    && |ss| == |es| + 1 && ss[0] == INITIAL
    && forall i | 0 <= i < |es| :: Apply(a, ss[i], es[i]) == Some(ss[i + 1])
  }

  // ----- what one stream keeps

  /** A request that may be served. */
  predicate Servable(a: Agent, m: Message) {
    m.ForwardRequest? && Authorised(a, m.agentToken) && m.remoteAddress == a.target
  }

  predicate Accepts(m: Message, request: Message) {
    m.ForwardAccept? && request.ForwardRequest? && m.streamId == request.streamId && m.localupId == request.localupId
  }

  predicate HasAccepted(t: Stream, request: Message) {
    |t.replies| == 1 && Accepts(t.replies[0], request)
  }

  /** Only the target is dialled, only after an Accept, and a stream answers at most once. */
  ghost predicate StreamOk(a: Agent, t: Stream) {
    && |t.replies| <= 1
    && (t.dialled != [] ==> t.dialled == [a.target] && |t.replies| == 1 && t.replies[0].ForwardAccept?)
    && match t.pc
       case Opened => t.replies == [] && t.dialled == []
       case Checking(m) => m.ForwardRequest? && t.replies == [] && t.dialled == []
       case Rejecting(m) => m.ForwardRequest? && !Servable(a, m) && t.replies == [] && t.dialled == []
       case Accepting(m) => Servable(a, m) && t.replies == [] && t.dialled == []
       case Accepted(m) => Servable(a, m) && HasAccepted(t, m) && t.dialled == []
       case Dialling(m) => Servable(a, m) && HasAccepted(t, m) && t.dialled == []
       case Forwarding(m) => Servable(a, m) && HasAccepted(t, m) && t.dialled == [a.target]
       case Unregistering(m) => Servable(a, m) && HasAccepted(t, m) && t.dialled == [a.target]
       case Closed => true
  }

  ghost predicate StreamsOk(a: Agent, s: State) {
    forall k | k in s.streams :: StreamOk(a, s.streams[k])
  }

  lemma StepKeepsStreams(a: Agent, s: State, e: Event)
    requires StreamsOk(a, s) && Apply(a, s, e).Some?
    ensures StreamsOk(a, Apply(a, s, e).value)
  {
    var s' := Apply(a, s, e).value;
    if !e.Clear? && !e.Open? {
      assert StreamOk(a, s.streams[e.k]);
      assert StreamOk(a, s'.streams[e.k]);
    }
  }

  /**
   In every reachable state, every address dialled is the configured target and follows an Accept, and no
   stream answers twice.
   */
  lemma {:induction false} RunKeepsStreams(a: Agent, ss: seq<State>, es: seq<Event>, i: nat)
    requires IsRun(a, ss, es) && i < |ss|
    ensures StreamsOk(a, ss[i])
  {
    if i > 0 {
      RunKeepsStreams(a, ss, es, i - 1);
      assert Apply(a, ss[i - 1], es[i - 1]) == Some(ss[i - 1 + 1]);
      StepKeepsStreams(a, ss[i - 1], es[i - 1]);
    }
  }

  // ----- who is served

  /** A request that the agent has to serve: for its target and, with a secret, carrying a valid token. */
  ghost predicate Entitled(a: Agent, m: Message) {
    && m.ForwardRequest? && m.remoteAddress == a.target
    && (a.checksTokens ==> m.agentToken.Some? && a.valid(m.agentToken.value))
  }

  /** The answer that a request gets. */
  ghost predicate Due(a: Agent, m: Message, reply: Message) {
    && m.ForwardRequest?
    && if Entitled(a, m) then reply == ForwardAccept(m.localupId, m.streamId)
       else reply.ForwardReject? && reply.localupId == m.localupId && reply.streamId == m.streamId
  }

  /** An entitled request is never rejected; any other is never accepted, registered or dialled. */
  ghost predicate Decided(a: Agent, t: Stream) {
    && (forall r | r in t.replies :: t.received.Some? && Due(a, t.received.value, r))
    && (t.dialled != [] ==> t.received.Some? && Entitled(a, t.received.value))
    && match t.pc
       case Opened => t.received.None?
       case Checking(m) => t.received == Some(m) && m.ForwardRequest?
       case Rejecting(m) => t.received == Some(m) && m.ForwardRequest? && !Entitled(a, m)
       case Closed => true
       case _ => t.received == Some(t.pc.request) && Entitled(a, t.pc.request)
  }

  lemma StepKeepsDecided(a: Agent, s: State, e: Event, k: StreamKey)
    requires Apply(a, s, e).Some? && k in Apply(a, s, e).value.streams
    requires k in s.streams ==> Decided(a, s.streams[k])
    ensures Decided(a, Apply(a, s, e).value.streams[k])
  {
  }

  lemma {:induction false} RunKeepsDecided(a: Agent, ss: seq<State>, es: seq<Event>, i: nat, k: StreamKey)
    requires IsRun(a, ss, es) && i < |ss| && k in ss[i].streams
    ensures Decided(a, ss[i].streams[k])
  {
    if i > 0 {
      assert Apply(a, ss[i - 1], es[i - 1]) == Some(ss[i - 1 + 1]);
      if k in ss[i - 1].streams {
        RunKeepsDecided(a, ss, es, i - 1, k);
      }
      StepKeepsDecided(a, ss[i - 1], es[i - 1], k);
    }
  }

  lemma StepReceives(a: Agent, s: State, e: Event, k: StreamKey, m: Message)
    requires Apply(a, s, e).Some? && k in s.streams && Decided(a, s.streams[k])
    ensures k in Apply(a, s, e).value.streams
    ensures Apply(a, s, e).value.streams[k].received == Some(m)
            <==> s.streams[k].received == Some(m) || e == Receive(k, Some(m))
  {
  }

  /** The message that a stream has received, read off the events. */
  lemma {:induction false} ReceivedIs(a: Agent, ss: seq<State>, es: seq<Event>, i: nat, k: StreamKey, m: Message)
    requires IsRun(a, ss, es) && i < |ss| && k in ss[i].streams
    ensures ss[i].streams[k].received == Some(m) <==> Receive(k, Some(m)) in es[..i]
  {
    if i > 0 {
      var s, e := ss[i - 1], es[i - 1];
      assert Apply(a, ss[i - 1], es[i - 1]) == Some(ss[i - 1 + 1]);
      assert es[..i] == es[..i - 1] + [e];
      if k in s.streams {
        ReceivedIs(a, ss, es, i - 1, k, m);
        RunKeepsDecided(a, ss, es, i - 1, k);
        StepReceives(a, s, e, k, m);
      } else {
        NotYetOpen(a, ss, es, i - 1, k, m);
      }
    }
  }

  lemma {:induction false} NotYetOpen(a: Agent, ss: seq<State>, es: seq<Event>, i: nat, k: StreamKey, m: Message)
    requires IsRun(a, ss, es) && i < |ss| && k !in ss[i].streams
    ensures Receive(k, Some(m)) !in es[..i]
  {
    if i > 0 {
      assert Apply(a, ss[i - 1], es[i - 1]) == Some(ss[i - 1 + 1]);
      assert es[..i] == es[..i - 1] + [es[i - 1]];
      NotYetOpen(a, ss, es, i - 1, k, m);
    }
  }

  /**
   In every run, a stream that has dialled or answered had received a request before: one for the target and,
   with a secret, with a valid token, if it dialled or sent an Accept; and any other got a Reject with its ids.
   */
  lemma OnlyEntitledServed(a: Agent, ss: seq<State>, es: seq<Event>, i: nat, k: StreamKey) returns (m: Message)
    requires IsRun(a, ss, es) && i < |ss| && k in ss[i].streams
    requires ss[i].streams[k].replies != [] || ss[i].streams[k].dialled != []
    ensures Receive(k, Some(m)) in es[..i]
    ensures ss[i].streams[k].dialled != [] ==> Entitled(a, m)
    ensures forall r | r in ss[i].streams[k].replies :: Due(a, m, r)
  {
    RunKeepsDecided(a, ss, es, i, k);
    var t := ss[i].streams[k];
    if t.replies != [] {
      assert t.replies[0] in t.replies;
    }
    m := t.received.value;
    ReceivedIs(a, ss, es, i, k, m);
  }

  /** Conversely, a stream that received an entitled request is never about to reject it. */
  lemma EntitledNeverRejected(a: Agent, ss: seq<State>, es: seq<Event>, i: nat, k: StreamKey, m: Message)
    requires IsRun(a, ss, es) && i < |ss| && k in ss[i].streams && Receive(k, Some(m)) in es[..i] && Entitled(a, m)
    ensures !ss[i].streams[k].pc.Rejecting?
    ensures forall r | r in ss[i].streams[k].replies :: r == ForwardAccept(m.localupId, m.streamId)
  {
    RunKeepsDecided(a, ss, es, i, k);
    ReceivedIs(a, ss, es, i, k, m);
  }

  /** After event `e` the stream stands at `pc`, with the given answers and dialled addresses. */
  ghost predicate LeadsTo(
    a: Agent, s: State, e: Event, k: StreamKey, pc: Pc, replies: seq<Message>, dialled: seq<Text>)
    requires k in s.streams
  {
    && Apply(a, s, e).Some? && k in Apply(a, s, e).value.streams
    && var t := Apply(a, s, e).value.streams[k];
       t.pc == pc && t.replies == s.streams[k].replies + replies && t.dialled == s.streams[k].dialled + dialled
  }

  /** A request that was received is checked, and goes on as its answer says. */
  lemma RequestIsAnswered(a: Agent, s: State, k: StreamKey)
    requires k in s.streams && Decided(a, s.streams[k])
    ensures var t := s.streams[k];
            match t.pc
            case Opened =>
              forall m: Message | m.ForwardRequest? :: LeadsTo(a, s, Receive(k, Some(m)), k, Checking(m), [], [])
            case Checking(m) =>
              LeadsTo(a, s, Check(k), k, if Entitled(a, m) then Accepting(m) else Rejecting(m), [], [])
            case Accepting(m) =>
              LeadsTo(a, s, Reply(k, true), k, Accepted(m), [ForwardAccept(m.localupId, m.streamId)], [])
            case Rejecting(m) =>
              exists reply :: Due(a, m, reply) && LeadsTo(a, s, Reply(k, true), k, Closed, [reply], [])
            case _ => true
  {
    var t := s.streams[k];
    match t.pc
    case Rejecting(m) =>
      var reply := ForwardReject(m.localupId, m.streamId, []);
      assert Due(a, m, reply) && LeadsTo(a, s, Reply(k, true), k, Closed, [reply], []);
    case _ =>
  }

  /** An accepted request is registered, dialled at the target, forwarded and unregistered. */
  lemma AcceptedIsForwarded(a: Agent, s: State, k: StreamKey)
    requires k in s.streams && Decided(a, s.streams[k])
    ensures var t := s.streams[k];
            match t.pc
            case Accepted(m) =>
              && LeadsTo(a, s, Register(k), k, Dialling(m), [], [])
              && Lookup(Apply(a, s, Register(k)).value.table, m.streamId)
                 == Some(ConnectionInfo(m.localupId, m.streamId, a.target))
            case Dialling(m) =>
              && LeadsTo(a, s, Dial(k, true), k, Forwarding(m), [], [a.target])
              && LeadsTo(a, s, Dial(k, false), k, Unregistering(m), [], [a.target])
            case Forwarding(m) => LeadsTo(a, s, ForwardEnds(k), k, Unregistering(m), [], [])
            case Unregistering(m) =>
              && LeadsTo(a, s, Unregister(k), k, Closed, [], [])
              && Lookup(Apply(a, s, Unregister(k)).value.table, m.streamId) == None
            case _ => true
  {
  }

  // ----- the table

  /** The stream number under which a stream is registered, from registration to unregistration. */
  function LiveId(t: Stream): Option<nat> {
    match t.pc
    case Dialling(ForwardRequest(_, n, _, _)) => Some(n)
    case Forwarding(ForwardRequest(_, n, _, _)) => Some(n)
    case Unregistering(ForwardRequest(_, n, _, _)) => Some(n)
    case _ => None
  }

  predicate Live(s: State, k: StreamKey, n: nat) {
    k in s.streams && LiveId(s.streams[k]) == Some(n)
  }

  ghost predicate SomeLive(s: State, n: nat) {
    exists k :: Live(s, k, n)
  }

  /** Every entry belongs to a live stream. */
  ghost predicate TableOk(a: Agent, s: State) {
    forall n | n in s.table :: SomeLive(s, n) && s.table[n].remoteAddress == a.target && s.table[n].streamId == n
  }

  /** A step other than Unregister takes nothing out of the live streams. */
  lemma LiveStays(a: Agent, s: State, e: Event, k: StreamKey, n: nat)
    requires Apply(a, s, e).Some? && Live(s, k, n) && !(e.Unregister? && e.k == k)
    ensures Live(Apply(a, s, e).value, k, n)
  {
  }

  /** The call that a step makes on the connection manager. */
  function CallOf(s: State, e: Event): Option<Call>
    requires e.Register? || e.Unregister? ==> e.k in s.streams
  {
    match e
    case Clear => Some(RemoveAll)
    case Register(k) =>
      (match s.streams[k].pc
       case Accepted(ForwardRequest(l, n, address, _)) => Some(Add(n, ConnectionInfo(l, n, address)))
       case _ => None)
    case Unregister(k) =>
      (match LiveId(s.streams[k]) case Some(n) => Some(Remove(n)) case None => None)
    case _ => None
  }

  function TableAfter(s: State, e: Event): Table
    requires e.Register? || e.Unregister? ==> e.k in s.streams
  {
    match CallOf(s, e) case Some(call) => TableStep(s.table, call) case None => s.table
  }

  lemma TableEffect(a: Agent, s: State, e: Event)
    requires Apply(a, s, e).Some?
    ensures e.Register? || e.Unregister? ==> e.k in s.streams
    ensures Apply(a, s, e).value.table == TableAfter(s, e)
    ensures e.Register? ==> s.streams[e.k].pc.Accepted? && s.streams[e.k].pc.request.ForwardRequest?
                            && Live(Apply(a, s, e).value, e.k, s.streams[e.k].pc.request.streamId)
    ensures e.Unregister? ==> LiveId(s.streams[e.k]).Some?
  {
  }

  lemma StepKeepsTable(a: Agent, s: State, e: Event)
    requires StreamsOk(a, s) && TableOk(a, s) && Apply(a, s, e).Some?
    ensures TableOk(a, Apply(a, s, e).value)
  {
    var s' := Apply(a, s, e).value;
    TableEffect(a, s, e);
    forall n | n in s'.table
      ensures SomeLive(s', n) && s'.table[n].remoteAddress == a.target && s'.table[n].streamId == n
    {
      if e.Register? && n == s.streams[e.k].pc.request.streamId {
        assert StreamOk(a, s.streams[e.k]);
        assert Live(s', e.k, n);
      } else {
        assert SomeLive(s, n);
        var k :| Live(s, k, n);
        if e.Unregister? && e.k == k {
          assert false;
        }
        LiveStays(a, s, e, k, n);
      }
    }
  }

  /**
   Table keys are always numbers of live streams, so when no stream is live the table is empty, whatever was
   cleared or failed.
   */
  lemma {:induction false} TableWithinLive(a: Agent, ss: seq<State>, es: seq<Event>, i: nat)
    requires IsRun(a, ss, es) && i < |ss|
    ensures TableOk(a, ss[i])
    ensures (forall k, n :: !Live(ss[i], k, n)) ==> ss[i].table == map[]
  {
    if i > 0 {
      TableWithinLive(a, ss, es, i - 1);
      RunKeepsStreams(a, ss, es, i - 1);
      assert Apply(a, ss[i - 1], es[i - 1]) == Some(ss[i - 1 + 1]);
      StepKeepsTable(a, ss[i - 1], es[i - 1]);
    }
    if forall k, n :: !Live(ss[i], k, n) {
      assert forall n | n in ss[i].table :: SomeLive(ss[i], n);
      assert ss[i].table.Keys == {};
    }
  }

  /** When all streams have finished the table is empty. */
  lemma AllClosedTableEmpty(a: Agent, ss: seq<State>, es: seq<Event>, i: nat)
    requires IsRun(a, ss, es) && i < |ss|
    requires forall k | k in ss[i].streams :: ss[i].streams[k].pc.Closed?
    ensures ss[i].table == map[]
  {
    TableWithinLive(a, ss, es, i);
    forall k, n ensures !Live(ss[i], k, n) {
    }
  }

  /** The calls made on the connection manager in the first `i` steps of a run. */
  ghost function CallsOf(a: Agent, ss: seq<State>, es: seq<Event>, i: nat): seq<Call>
    requires IsRun(a, ss, es) && i < |ss|
  {
    if i == 0 then []
    else
      assert Apply(a, ss[i - 1], es[i - 1]) == Some(ss[i - 1 + 1]);
      TableEffect(a, ss[i - 1], es[i - 1]);
      CallsOf(a, ss, es, i - 1) + match CallOf(ss[i - 1], es[i - 1]) case Some(call) => [call] case None => []
  }

  lemma {:induction false} TableReflectsCalls(a: Agent, ss: seq<State>, es: seq<Event>, i: nat)
    requires IsRun(a, ss, es) && i < |ss|
    ensures Reflects(ss[i].table, CallsOf(a, ss, es, i))
  {
    if i > 0 {
      TableReflectsCalls(a, ss, es, i - 1);
      var s, e := ss[i - 1], es[i - 1];
      assert Apply(a, ss[i - 1], es[i - 1]) == Some(ss[i - 1 + 1]);
      TableEffect(a, s, e);
      var before := CallsOf(a, ss, es, i - 1);
      match CallOf(s, e) {
        case Some(call) => StepReflects(s.table, before, call);
        case None => assert before + [] == before;
      }
    }
  }

  /**
   A connection manager that has served the calls of a run knows only live streams, all with the target as
   address, and knows none once all streams have finished.
   */
  lemma ManagerKnowsLiveStreams(a: Agent, ss: seq<State>, es: seq<Event>, i: nat, manager: ConnectionManager)
    requires IsRun(a, ss, es) && i < |ss| && manager.Valid() && manager.calls == CallsOf(a, ss, es, i)
    ensures manager.connections == ss[i].table
    ensures forall n | n in manager.connections ::
              SomeLive(ss[i], n) && manager.connections[n].remoteAddress == a.target
    ensures (forall k | k in ss[i].streams :: ss[i].streams[k].pc.Closed?) ==> manager.connections == map[]
  {
    TableReflectsCalls(a, ss, es, i);
    ReflectsOne(manager.connections, ss[i].table, manager.calls);
    TableWithinLive(a, ss, es, i);
    if forall k | k in ss[i].streams :: ss[i].streams[k].pc.Closed? {
      AllClosedTableEmpty(a, ss, es, i);
    }
  }

  ghost predicate DistinctIds(s: State) {
    forall k1, k2, n | Live(s, k1, n) && Live(s, k2, n) :: k1 == k2
  }

  ghost predicate TableExact(s: State) {
    forall n :: n in s.table <==> SomeLive(s, n)
  }

  /** With distinct stream numbers and no clear, the table holds exactly the live streams. */
  lemma {:induction false} TableIsExact(a: Agent, ss: seq<State>, es: seq<Event>, i: nat)
    requires IsRun(a, ss, es) && i < |ss|
    requires forall j | 0 <= j <= i :: DistinctIds(ss[j])
    requires forall j | 0 <= j < i :: !es[j].Clear?
    ensures TableExact(ss[i])
  {
    TableWithinLive(a, ss, es, i);
    if i > 0 {
      TableIsExact(a, ss, es, i - 1);
      var s, e, s' := ss[i - 1], es[i - 1], ss[i];
      assert Apply(a, ss[i - 1], es[i - 1]) == Some(ss[i - 1 + 1]);
      TableEffect(a, s, e);
      forall n | SomeLive(s', n) ensures n in s'.table {
        var k :| Live(s', k, n);
        NewlyLive(a, s, e, k, n);
        if Live(s, k, n) {
          assert SomeLive(s, n) && DistinctIds(s);
          if e.Unregister? {
            assert Live(s, e.k, LiveId(s.streams[e.k]).value);
          }
        }
      }
    }
  }

  lemma NewlyLive(a: Agent, s: State, e: Event, k: StreamKey, n: nat)
    requires Apply(a, s, e).Some? && Live(Apply(a, s, e).value, k, n)
    ensures (Live(s, k, n) && !(e.Unregister? && e.k == k))
            || (e.Register? && e.k == k && k in s.streams && s.streams[k].pc.Accepted?
                && s.streams[k].pc.request.ForwardRequest? && s.streams[k].pc.request.streamId == n)
  {
  }
}
