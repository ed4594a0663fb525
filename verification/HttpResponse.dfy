/**
 The response that the client proxy prints back to the tunnel, and how a peer frames it by sections 4,
 5 and 6.3 of RFC 9112.
 */
module HttpResponse {
  import opened Base

  /** Status codes that the HTTP library can represent. */
  type StatusCode = s: int | 100 <= s < 1000 witness 200

  datatype Field = Field(name: Bytes, value: Bytes)

  const CR: Byte := 13
  const LF: Byte := 10
  const SP: Byte := 32
  const HTAB: Byte := 9
  const COLON: Byte := 58
  const CRLF: Bytes := [CR, LF]

  /** ASCII text of the literals. */
  const HTTP11: Bytes := [72, 84, 84, 80, 47, 49, 46, 49, 32]  // "HTTP/1.1 "
  const OK_TEXT: Bytes := [79, 75]  // "OK"
  const TRANSFER_ENCODING: Bytes := [116, 114, 97, 110, 115, 102, 101, 114, 45, 101, 110, 99, 111, 100, 105, 110, 103]
  const CONTENT_LENGTH: Bytes := [99, 111, 110, 116, 101, 110, 116, 45, 108, 101, 110, 103, 116, 104]
  const CONTENT_TYPE: Bytes := [99, 111, 110, 116, 101, 110, 116, 45, 116, 121, 112, 101]
  const BAD_GATEWAY: Bytes := [66, 97, 100, 32, 71, 97, 116, 101, 119, 97, 121]  // "Bad Gateway"
  const CONTENT_LENGTH_TITLE: Bytes := [67, 111, 110, 116, 101, 110, 116, 45, 76, 101, 110, 103, 116, 104]
  const CONTENT_TYPE_TITLE: Bytes := [67, 111, 110, 116, 101, 110, 116, 45, 84, 121, 112, 101]
  const TEXT_PLAIN: Bytes := [116, 101, 120, 116, 47, 112, 108, 97, 105, 110]  // "text/plain"

  function Code(c: char): Byte {
    if c as int < 0x80 then c as int else 63
  }

  function Ascii(text: string): Bytes {
    seq(|text|, i requires 0 <= i < |text| => Code(text[i]))
  }

  lemma LiteralsSpell()
    ensures HTTP11 == Ascii("HTTP/1.1 ") && OK_TEXT == Ascii("OK") && BAD_GATEWAY == Ascii("Bad Gateway")
    ensures TRANSFER_ENCODING == Ascii("transfer-encoding") && CONTENT_LENGTH == Ascii("content-length")
    ensures CONTENT_TYPE == Ascii("content-type") && CONTENT_LENGTH_TITLE == Ascii("Content-Length")
    ensures CONTENT_TYPE_TITLE == Ascii("Content-Type") && TEXT_PLAIN == Ascii("text/plain")
  {
  }

  // ----- characters

  function LowerByte(b: Byte): Byte {
    if 65 <= b <= 90 then b + 32 else b
  }

  /** `eq_ignore_ascii_case`. */
  predicate SameName(a: Bytes, b: Bytes) {
    |a| == |b| && forall i | 0 <= i < |a| :: LowerByte(a[i]) == LowerByte(b[i])
  }

  /** `tchar` of RFC 9110, the characters of a field name. */
  predicate IsTchar(b: Byte) {
    || 48 <= b <= 57 || 65 <= b <= 90 || 97 <= b <= 122
    || b in {33, 35, 36, 37, 38, 39, 42, 43, 45, 46, 94, 95, 96, 124, 126}
  }

  predicate IsToken(name: Bytes) {
    name != [] && forall b | b in name :: IsTchar(b)
  }

  /** What `to_str` accepts in a header value. */
  predicate IsVisible(b: Byte) {
    32 <= b <= 126 || b == HTAB
  }

  /** `value.to_str().unwrap_or("")`. */
  function ToStr(value: Bytes): Bytes {
    if forall b | b in value :: IsVisible(b) then value else []
  }

  // ----- decimal numbers

  function Dec(n: nat): (d: Bytes)
    ensures d != [] && forall b | b in d :: 48 <= b <= 57
  {
    if n < 10 then [48 + n] else Dec(n / 10) + [48 + n % 10]
  }

  /** 1*DIGIT. */
  function ParseDec(d: Bytes): Option<nat> {
    if d == [] then None
    else
      var last := d[|d| - 1];
      if !(48 <= last <= 57) then None
      else if |d| == 1 then Some(last - 48)
      else match ParseDec(d[..|d| - 1])
        case None => None
        case Some(n) => Some(10 * n + (last - 48))
  }

  lemma {:induction false} ParsePrintsBack(n: nat)
    ensures ParseDec(Dec(n)) == Some(n)
  {
    if n >= 10 {
      ParsePrintsBack(n / 10);
      var d := Dec(n);
      assert d[..|d| - 1] == Dec(n / 10);
    }
  }

  lemma ThreeDigits(s: StatusCode)
    ensures |Dec(s)| == 3
  {
    assert 1 <= s / 100 <= 9;
    assert |Dec(s / 100)| == 1;
    assert s / 10 / 10 == s / 100;
    assert |Dec(s / 10)| == 2;
  }

  // ----- the printer

  /** Headers that are passed on: the framing headers of the local server are dropped. */
  predicate Survives(h: Field) {
    !SameName(h.name, TRANSFER_ENCODING) && !SameName(h.name, CONTENT_LENGTH)
  }

  function Surviving(headers: seq<Field>): seq<Field> {
    if headers == [] then []
    else
      var rest := Surviving(headers[..|headers| - 1]);
      var h := headers[|headers| - 1];
      if Survives(h) then rest + [Field(h.name, ToStr(h.value))] else rest
  }

  function SentFields(headers: seq<Field>, body: Bytes): seq<Field> {
    Surviving(headers) + [Field(CONTENT_LENGTH, Dec(|body|))]
  }

  function PrintField(h: Field): Bytes {
    h.name + [COLON, SP] + h.value + CRLF
  }

  function PrintFields(fields: seq<Field>): Bytes {
    if fields == [] then [] else PrintField(fields[0]) + PrintFields(fields[1..])
  }

  function Print(status: StatusCode, reason: Bytes, fields: seq<Field>, body: Bytes): Bytes {
    HTTP11 + Dec(status) + [SP] + reason + CRLF + PrintFields(fields) + CRLF + body
  }

  // ----- what is passed on

  /** The printed header has the server's name and value; a value that is not visible text is emptied. */
  ghost predicate KeepsHeader(given: Field, sent: Field) {
    && sent.name == given.name
    && sent.value == if forall b | b in given.value :: 32 <= b <= 126 || b == 9 then given.value else []
  }

  ghost predicate IsKept(headers: seq<Field>, k: nat) {
    k < |headers| && !SameName(headers[k].name, CONTENT_LENGTH) && !SameName(headers[k].name, TRANSFER_ENCODING)
  }

  /** Positions of all headers but the framing ones, in order. */
  ghost predicate Selects(headers: seq<Field>, at: seq<nat>) {
    && (forall i, j | 0 <= i < j < |at| :: at[i] < at[j])
    && (forall k: nat :: k in at <==> IsKept(headers, k))
  }

  ghost predicate Copies(headers: seq<Field>, at: seq<nat>, kept: seq<Field>) {
    |kept| == |at| && forall k | 0 <= k < |at| :: at[k] < |headers| && KeepsHeader(headers[at[k]], kept[k])
  }

  ghost predicate CarriedAt(headers: seq<Field>, at: seq<nat>, kept: seq<Field>) {
    Selects(headers, at) && Copies(headers, at, kept)
  }

  /** Every header but the framing ones is kept, in order and with repetitions. */
  ghost predicate Carried(headers: seq<Field>, kept: seq<Field>) {
    exists at :: CarriedAt(headers, at, kept)
  }

  lemma SelectsMore(front: seq<Field>, h: Field, before: seq<nat>)
    requires Selects(front, before)
    ensures Selects(front + [h], if IsKept([h], 0) then before + [|front|] else before)
  {
    var headers, at := front + [h], if IsKept([h], 0) then before + [|front|] else before;
    forall k: nat ensures k in at <==> IsKept(headers, k) {
      assert k in before <==> IsKept(front, k);
      if k < |front| {
        assert headers[k] == front[k];
      }
    }
    forall i, j | 0 <= i < j < |at| ensures at[i] < at[j] {
      assert before[i] in before;
    }
  }

  lemma CopiesMore(front: seq<Field>, h: Field, before: seq<nat>, kept: seq<Field>)
    requires Copies(front, before, kept)
    ensures Copies(front + [h], before, kept)
    ensures Copies(front + [h], before + [|front|], kept + [Field(h.name, ToStr(h.value))])
  {
    var headers := front + [h];
    forall k | 0 <= k < |before| ensures before[k] < |headers| && KeepsHeader(headers[before[k]], kept[k]) {
      assert headers[before[k]] == front[before[k]];
    }
    assert KeepsHeader(h, Field(h.name, ToStr(h.value)));
  }

  lemma {:induction false} SurvivingCarried(headers: seq<Field>) returns (at: seq<nat>)
    ensures CarriedAt(headers, at, Surviving(headers))
    decreases |headers|
  {
    if headers == [] {
      at := [];
    } else {
      var front, h := headers[..|headers| - 1], headers[|headers| - 1];
      var before := SurvivingCarried(front);
      assert headers == front + [h];
      assert IsKept([h], 0) <==> Survives(h);
      SelectsMore(front, h, before);
      CopiesMore(front, h, before, Surviving(front));
      at := if IsKept([h], 0) then before + [|front|] else before;
    }
  }

  /** The printed headers: those of the server without the framing headers, and the length of the body. */
  ghost predicate SentAs(headers: seq<Field>, body: Bytes, fields: seq<Field>) {
    exists kept :: Carried(headers, kept) && fields == kept + [Field(CONTENT_LENGTH, Dec(|body|))]
  }

  lemma SentCarried(headers: seq<Field>, body: Bytes)
    ensures SentAs(headers, body, SentFields(headers, body))
  {
    var at := SurvivingCarried(headers);
    assert Carried(headers, Surviving(headers));
  }

  /** The last content-type header decides whether the body is captured for the metrics. */
  function TextBody(headers: seq<Field>, isText: Bytes -> bool): bool {
    if headers == [] then false
    else
      var h := headers[|headers| - 1];
      if SameName(h.name, CONTENT_TYPE) && Survives(h) then isText(ToStr(h.value))
      else TextBody(headers[..|headers| - 1], isText)
  }

  /** The body is captured for the metrics exactly when the last content-type names a text of at most 512 KiB. */
  lemma {:induction false} TextBodyIff(headers: seq<Field>, isText: Bytes -> bool)
    ensures TextBody(headers, isText) <==>
            exists i | 0 <= i < |headers| :: LastOf(headers, CONTENT_TYPE, i) && isText(ToStr(headers[i].value))
    decreases |headers|
  {
    if headers != [] {
      var front, h := headers[..|headers| - 1], headers[|headers| - 1];
      TextBodyIff(front, isText);
      assert |CONTENT_TYPE| != |CONTENT_LENGTH| && |CONTENT_TYPE| != |TRANSFER_ENCODING|;
      if SameName(h.name, CONTENT_TYPE) {
        assert LastOf(headers, CONTENT_TYPE, |headers| - 1);
      } else {
        forall i | 0 <= i < |front| ensures LastOf(headers, CONTENT_TYPE, i) <==> LastOf(front, CONTENT_TYPE, i) {
        }
      }
    }
  }

  ghost predicate LastOf(headers: seq<Field>, name: Bytes, i: nat) {
    i < |headers| && SameName(headers[i].name, name) && forall j | i < j < |headers| :: !SameName(headers[j].name, name)
  }

  lemma {:induction false} PrintFieldsAppend(fields: seq<Field>, h: Field)
    ensures PrintFields(fields + [h]) == PrintFields(fields) + PrintField(h)
  {
    if fields == [] {
      assert fields + [h] == [h];
      assert PrintFields([h][1..]) == [];
    } else {
      PrintFieldsAppend(fields[1..], h);
      assert (fields + [h])[1..] == fields[1..] + [h];
      Regroup(PrintField(fields[0]), PrintFields(fields[1..]), PrintField(h));
    }
  }

  /** The loop over the server's headers. */
  method CollectHeaders(headers: seq<Field>, isText: Bytes -> bool) returns (fields: seq<Field>, isTextContent: bool)
    ensures fields == Surviving(headers) && isTextContent == TextBody(headers, isText)
  {
    fields, isTextContent := [], false;
    for i := 0 to |headers|
      invariant fields == Surviving(headers[..i])
      invariant isTextContent == TextBody(headers[..i], isText)
    {
      assert headers[..i + 1][..i] == headers[..i];
      var name, value := headers[i].name, ToStr(headers[i].value);
      if SameName(name, TRANSFER_ENCODING) {
        continue;
      }
      if SameName(name, CONTENT_LENGTH) {
        continue;
      }
      if SameName(name, CONTENT_TYPE) {
        isTextContent := isText(value);
      }
      fields := fields + [Field(name, value)];
    }
    assert headers[..|headers|] == headers;
  }

  /** `serialize_response` after the body was collected. */
  method SerializeResponse(
    status: StatusCode, reason: Option<Bytes>, headers: seq<Field>, body: Bytes, isText: Bytes -> bool)
    returns (fields: seq<Field>, raw: Bytes, captured: Option<Bytes>)
    ensures fields == SentFields(headers, body) && SentAs(headers, body, fields)
    ensures raw == Print(status, if reason.Some? then reason.value else OK_TEXT, fields, body)
    ensures captured == if TextBody(headers, isText) && |body| <= 512 * 1024 then Some(body) else None
  {
    var statusText := if reason.Some? then reason.value else OK_TEXT;
    var isTextContent;
    fields, isTextContent := CollectHeaders(headers, isText);
    fields := fields + [Field(CONTENT_LENGTH, Dec(|body|))];

    raw := HTTP11 + Dec(status) + [SP] + statusText + CRLF;
    ghost var statusLine := raw;
    for i := 0 to |fields|
      invariant raw == statusLine + PrintFields(fields[..i])
    {
      raw := raw + PrintField(fields[i]);
      PrintFieldsAppend(fields[..i], fields[i]);
      assert fields[..i + 1] == fields[..i] + [fields[i]];
    }
    assert fields[..|fields|] == fields;
    raw := raw + CRLF;
    raw := raw + body;
    captured := if isTextContent && |body| <= 512 * 1024 then Some(body) else None;
    SentCarried(headers, body);
  }

  // ----- the reader

  /** The first line and what follows it. */
  function ReadLine(s: Bytes): Option<(Bytes, Bytes)> {
    if |s| < 2 then None
    else if s[0] == CR && s[1] == LF then Some(([], s[2..]))
    else match ReadLine(s[1..])
      case None => None
      case Some((line, rest)) => Some(([s[0]] + line, rest))
  }

  /** status-line = HTTP-version SP status-code SP [ reason-phrase ]. */
  function ParseStatusLine(line: Bytes): Option<(nat, Bytes)> {
    if |line| < 13 || line[..9] != HTTP11 || line[12] != SP then None
    else match ParseDec(line[9..12]) case None => None case Some(status) => Some((status, line[13..]))
  }

  predicate IsOws(b: Byte) {
    b == SP || b == HTAB
  }

  function TrimLeft(v: Bytes): Bytes {
    if v != [] && IsOws(v[0]) then TrimLeft(v[1..]) else v
  }

  function TrimRight(v: Bytes): Bytes {
    if v != [] && IsOws(v[|v| - 1]) then TrimRight(v[..|v| - 1]) else v
  }

  /** OWS around a field value is not part of it. */
  function Trim(v: Bytes): Bytes {
    TrimRight(TrimLeft(v))
  }

  function FindColon(line: Bytes): (i: nat)
    ensures i <= |line|
  {
    if line == [] || line[0] == COLON then 0 else 1 + FindColon(line[1..])
  }

  /** field-line = field-name ":" OWS field-value OWS, with no space before the colon and no folding. */
  function ParseField(line: Bytes): Option<Field> {
    var c := FindColon(line);
    if c == |line| || !IsToken(line[..c]) then None else Some(Field(line[..c], Trim(line[c + 1..])))
  }

  function ParseFields(s: Bytes): Option<(seq<Field>, Bytes)>
    decreases |s|
  {
    match ReadLine(s)
    case None => None
    case Some((line, rest)) =>
      if line == [] then Some(([], rest))
      else if |rest| >= |s| then None
      else match ParseField(line)
        case None => None
        case Some(h) =>
          match ParseFields(rest)
          case None => None
          case Some((hs, after)) => Some(([h] + hs, after))
  }

  datatype RequestMethod = Head | Connect | Other

  /** Responses without content whatever their headers say. */
  predicate NoContent(m: RequestMethod, status: nat) {
    m.Head? || 100 <= status < 200 || status == 204 || status == 304 || (m.Connect? && 200 <= status < 300)
  }

  function ValuesOf(fields: seq<Field>, name: Bytes): seq<Bytes> {
    if fields == [] then []
    else (if SameName(fields[0].name, name) then [fields[0].value] else []) + ValuesOf(fields[1..], name)
  }

  datatype Parsed =
    | Message(status: nat, reason: Bytes, fields: seq<Field>, body: Bytes, rest: Bytes)
    | Coded  // framed by a transfer coding
    | UntilClose
    | Invalid
    | Truncated

  /** Section 6.3. */
  function ParseBody(m: RequestMethod, status: nat, reason: Bytes, fields: seq<Field>, s: Bytes): Parsed {
    var lengths := ValuesOf(fields, CONTENT_LENGTH);
    if NoContent(m, status) then Message(status, reason, fields, [], s)
    else if ValuesOf(fields, TRANSFER_ENCODING) != [] then Coded
    else if lengths == [] then UntilClose
    else if exists v | v in lengths :: v != lengths[0] then Invalid
    else match ParseDec(lengths[0])
      case None => Invalid
      case Some(n) => if n <= |s| then Message(status, reason, fields, s[..n], s[n..]) else Truncated
  }

  function Parse(m: RequestMethod, s: Bytes): Parsed {
    match ReadLine(s)
    case None => Truncated
    case Some((line, rest)) =>
      match ParseStatusLine(line)
      case None => Invalid
      case Some((status, reason)) =>
        match ParseFields(rest)
        case None => Invalid
        case Some((fields, after)) => ParseBody(m, status, reason, fields, after)
  }

  // ----- the reader inverts the printer

  lemma {:induction false} ReadLineInverts(line: Bytes, rest: Bytes)
    requires CR !in line
    ensures ReadLine(line + CRLF + rest) == Some((line, rest))
  {
    var s := line + CRLF + rest;
    if line == [] {
      assert s[2..] == rest;
    } else {
      ReadLineInverts(line[1..], rest);
      assert s[1..] == line[1..] + CRLF + rest;
      assert [line[0]] + line[1..] == line;
    }
  }

  lemma {:induction false} FindColonAfter(name: Bytes, rest: Bytes)
    requires COLON !in name
    ensures FindColon(name + [COLON] + rest) == |name|
  {
    var line := name + [COLON] + rest;
    if name != [] {
      FindColonAfter(name[1..], rest);
      assert line[1..] == name[1..] + [COLON] + rest;
    }
  }

  /** A field that may be printed: a token and a value on one line. */
  predicate Printable(h: Field) {
    IsToken(h.name) && CR !in h.value
  }

  lemma ParseFieldInverts(h: Field)
    requires Printable(h)
    ensures ParseField(h.name + [COLON, SP] + h.value) == Some(Field(h.name, Trim(h.value)))
  {
    var after := [SP] + h.value;
    var line := h.name + [COLON] + after;
    assert h.name + [COLON, SP] + h.value == line;
    assert !IsTchar(COLON);
    FindColonAfter(h.name, after);
    assert line[..|h.name|] == h.name;
    assert line[|h.name| + 1..] == after;
    assert after[1..] == h.value;
    assert TrimLeft(after) == TrimLeft(h.value);
  }

  function Trimmed(fields: seq<Field>): seq<Field> {
    seq(|fields|, i requires 0 <= i < |fields| => Field(fields[i].name, Trim(fields[i].value)))
  }

  lemma FieldLineHasNoCr(h: Field)
    requires Printable(h)
    ensures CR !in h.name + [COLON, SP] + h.value
  {
    assert !IsTchar(CR);
  }

  lemma {:induction false} ParseFieldsInverts(fields: seq<Field>, rest: Bytes)
    requires forall h | h in fields :: Printable(h)
    ensures ParseFields(PrintFields(fields) + CRLF + rest) == Some((Trimmed(fields), rest))
    decreases |fields|
  {
    var s := PrintFields(fields) + CRLF + rest;
    if fields == [] {
      ReadLineInverts([], rest);
      assert s == [] + CRLF + rest;
    } else {
      var h := fields[0];
      var line := h.name + [COLON, SP] + h.value;
      var more := PrintFields(fields[1..]) + CRLF + rest;
      assert s == line + CRLF + more;
      FieldLineHasNoCr(h);
      ReadLineInverts(line, more);
      ParseFieldInverts(h);
      ParseFieldsInverts(fields[1..], rest);
      assert Trimmed(fields) == [Field(h.name, Trim(h.value))] + Trimmed(fields[1..]);
    }
  }

  lemma ParseStatusLineInverts(status: StatusCode, reason: Bytes)
    ensures ParseStatusLine(HTTP11 + Dec(status) + [SP] + reason) == Some((status, reason))
  {
    var line := HTTP11 + Dec(status) + [SP] + reason;
    ThreeDigits(status);
    ParsePrintsBack(status);
    assert line[..9] == HTTP11;
    assert line[9..12] == Dec(status);
    assert line[12] == SP;
    assert line[13..] == reason;
  }

  /** Everything up to the body is read back, whatever follows. */
  lemma ParseInverts(m: RequestMethod, status: StatusCode, reason: Bytes, fields: seq<Field>, after: Bytes)
    requires CR !in reason && forall h | h in fields :: Printable(h)
    ensures Parse(m, Print(status, reason, fields, after)) == ParseBody(m, status, reason, Trimmed(fields), after)
  {
    var line := HTTP11 + Dec(status) + [SP] + reason;
    var rest := PrintFields(fields) + CRLF + after;
    assert Print(status, reason, fields, after) == line + CRLF + rest;
    assert CR !in Dec(status);
    ReadLineInverts(line, rest);
    ParseStatusLineInverts(status, reason);
    ParseFieldsInverts(fields, after);
  }

  // ----- the framing headers

  /** Names of valid header fields and a reason phrase on one line; the HTTP library guarantees both. */
  predicate FromLibrary(reason: Bytes, headers: seq<Field>) {
    CR !in reason && forall h | h in headers :: IsToken(h.name)
  }

  lemma {:induction false} SurvivingAre(headers: seq<Field>, h: Field)
    requires (forall x | x in headers :: IsToken(x.name)) && h in Surviving(headers)
    ensures Printable(h) && Survives(h)
    decreases |headers|
  {
    var front, last := headers[..|headers| - 1], headers[|headers| - 1];
    if h in Surviving(front) {
      SurvivingAre(front, h);
    } else {
      assert h == Field(last.name, ToStr(last.value));
      assert !IsVisible(CR);
    }
  }

  lemma {:induction false} ValuesOfNone(fields: seq<Field>, name: Bytes)
    requires forall h | h in fields :: !SameName(h.name, name)
    ensures ValuesOf(fields, name) == []
  {
    if fields != [] {
      ValuesOfNone(fields[1..], name);
    }
  }

  lemma {:induction false} ValuesOfLast(fields: seq<Field>, h: Field, name: Bytes)
    requires forall x | x in fields :: !SameName(x.name, name)
    requires SameName(h.name, name)
    ensures ValuesOf(fields + [h], name) == [h.value]
  {
    if fields == [] {
      assert fields + [h] == [h];
      assert ValuesOf([h][1..], name) == [];
    } else {
      ValuesOfLast(fields[1..], h, name);
      assert (fields + [h])[1..] == fields[1..] + [h];
    }
  }

  lemma {:induction false} ValuesOfAppend(fields: seq<Field>, h: Field, name: Bytes)
    ensures ValuesOf(fields + [h], name) == ValuesOf(fields, name) + if SameName(h.name, name) then [h.value] else []
    decreases |fields|
  {
    if fields == [] {
      assert fields + [h] == [h];
      assert ValuesOf([h][1..], name) == [];
    } else {
      ValuesOfAppend(fields[1..], h, name);
      assert (fields + [h])[1..] == fields[1..] + [h];
    }
  }

  function TrimmedTexts(values: seq<Bytes>): seq<Bytes> {
    seq(|values|, i requires 0 <= i < |values| => Trim(ToStr(values[i])))
  }

  lemma {:induction false} SurvivingValues(headers: seq<Field>, name: Bytes)
    requires !SameName(name, CONTENT_LENGTH) && !SameName(name, TRANSFER_ENCODING)
    ensures ValuesOf(Trimmed(Surviving(headers)), name) == TrimmedTexts(ValuesOf(headers, name))
    decreases |headers|
  {
    if headers != [] {
      var front, h := headers[..|headers| - 1], headers[|headers| - 1];
      SurvivingValues(front, name);
      assert headers == front + [h];
      ValuesOfAppend(front, h, name);
      if Survives(h) {
        var sent := Field(h.name, Trim(ToStr(h.value)));
        assert Trimmed(Surviving(headers)) == Trimmed(Surviving(front)) + [sent];
        ValuesOfAppend(Trimmed(Surviving(front)), sent, name);
      } else {
        FramingIsOther(h.name, name);
      }
    }
  }

  lemma FramingIsOther(framing: Bytes, name: Bytes)
    requires SameName(framing, CONTENT_LENGTH) || SameName(framing, TRANSFER_ENCODING)
    requires !SameName(name, CONTENT_LENGTH) && !SameName(name, TRANSFER_ENCODING)
    ensures !SameName(framing, name)
  {
  }

  /** The peer reads, under every name but the framing ones, the server's values in order and with repetitions. */
  lemma HeaderValuesKept(headers: seq<Field>, body: Bytes, name: Bytes)
    requires !SameName(name, CONTENT_LENGTH) && !SameName(name, TRANSFER_ENCODING)
    ensures ValuesOf(Trimmed(SentFields(headers, body)), name) == TrimmedTexts(ValuesOf(headers, name))
  {
    var own := Field(CONTENT_LENGTH, Trim(Dec(|body|)));
    SurvivingValues(headers, name);
    assert Trimmed(SentFields(headers, body)) == Trimmed(Surviving(headers)) + [own];
    ValuesOfAppend(Trimmed(Surviving(headers)), own, name);
    assert SameName(CONTENT_LENGTH, CONTENT_LENGTH);
    FramingIsOther(CONTENT_LENGTH, name);
  }

  /** Trimming takes spaces and tabs from both ends, and nothing else. */
  lemma {:induction false} TrimMeaning(v: Bytes) returns (left: Bytes, right: Bytes)
    ensures v == left + Trim(v) + right
    ensures (forall b | b in left :: b == 32 || b == 9) && (forall b | b in right :: b == 32 || b == 9)
    ensures Trim(v) != [] ==> Trim(v)[0] !in {32, 9} && Trim(v)[|Trim(v)| - 1] !in {32, 9}
    decreases |v|
  {
    if v != [] && IsOws(v[0]) {
      left, right := TrimMeaning(v[1..]);
      left := [v[0]] + left;
    } else {
      left := [];
      right := TrimRightMeaning(v);
    }
  }

  lemma {:induction false} TrimRightMeaning(v: Bytes) returns (right: Bytes)
    ensures v == TrimRight(v) + right
    ensures forall b | b in right :: b == 32 || b == 9
    ensures TrimRight(v) != [] ==> TrimRight(v)[|TrimRight(v)| - 1] !in {32, 9}
    decreases |v|
  {
    if v != [] && IsOws(v[|v| - 1]) {
      right := TrimRightMeaning(v[..|v| - 1]);
      right := right + [v[|v| - 1]];
    } else {
      right := [];
    }
  }

  lemma DigitsTrim(n: nat)
    ensures Trim(Dec(n)) == Dec(n)
  {
    var d := Dec(n);
    assert d[0] in d && d[|d| - 1] in d;
    assert TrimLeft(d) == d;
    assert TrimRight(d) == d;
  }

  lemma LengthIsNotCoding()
    ensures !SameName(CONTENT_LENGTH, TRANSFER_ENCODING) && SameName(CONTENT_LENGTH, CONTENT_LENGTH)
  {
    assert |CONTENT_LENGTH| != |TRANSFER_ENCODING|;
  }

  lemma LengthIsToken()
    ensures IsToken(CONTENT_LENGTH)
  {
  }

  lemma NumberIsPrintable(name: Bytes, n: nat)
    requires IsToken(name)
    ensures Printable(Field(name, Dec(n)))
  {
    assert CR !in Dec(n);
  }

  /** Trimming values keeps names. */
  lemma TrimmedNames(fields: seq<Field>, name: Bytes)
    requires forall h | h in fields :: !SameName(h.name, name)
    ensures forall h | h in Trimmed(fields) :: !SameName(h.name, name)
  {
    forall x | x in Trimmed(fields) ensures !SameName(x.name, name) {
      var i :| 0 <= i < |fields| && Trimmed(fields)[i] == x;
      assert fields[i] in fields;
    }
  }

  /** One length field at the end, and no coding field. */
  lemma OneLengthField(kept: seq<Field>, own: Field, length: Bytes, coding: Bytes)
    requires forall h | h in kept :: !SameName(h.name, length) && !SameName(h.name, coding)
    requires SameName(own.name, length) && !SameName(own.name, coding) && Trim(own.value) == own.value
    ensures ValuesOf(Trimmed(kept + [own]), length) == [own.value]
    ensures ValuesOf(Trimmed(kept + [own]), coding) == []
  {
    assert Trimmed(kept + [own]) == Trimmed(kept) + [own];
    TrimmedNames(kept, length);
    TrimmedNames(kept, coding);
    ValuesOfLast(Trimmed(kept), own, length);
    ValuesOfNone(Trimmed(kept) + [own], coding);
  }

  /** What the peer sees as headers: exactly one content-length, the length of the body, and no transfer-encoding. */
  lemma FramingHeaders(headers: seq<Field>, body: Bytes)
    requires forall h | h in headers :: IsToken(h.name)
    ensures var seen := Trimmed(SentFields(headers, body));
            && ValuesOf(seen, CONTENT_LENGTH) == [Dec(|body|)]
            && ValuesOf(seen, TRANSFER_ENCODING) == []
    ensures forall h | h in SentFields(headers, body) :: Printable(h)
  {
    var kept, own := Surviving(headers), Field(CONTENT_LENGTH, Dec(|body|));
    forall h | h in kept ensures Printable(h) && Survives(h) {
      SurvivingAre(headers, h);
    }
    LengthIsToken();
    NumberIsPrintable(CONTENT_LENGTH, |body|);
    DigitsTrim(|body|);
    LengthIsNotCoding();
    OneLengthField(kept, own, CONTENT_LENGTH, TRANSFER_ENCODING);
  }

  lemma LengthFramesBody(
    m: RequestMethod, status: StatusCode, reason: Bytes, seen: seq<Field>, body: Bytes, trailing: Bytes)
    requires ValuesOf(seen, CONTENT_LENGTH) == [Dec(|body|)] && ValuesOf(seen, TRANSFER_ENCODING) == []
    ensures ParseBody(m, status, reason, seen, body + trailing) == Message(status, reason, seen, body, trailing)
            <==> (NoContent(m, status) ==> body == [])
  {
    ParsePrintsBack(|body|);
    assert (body + trailing)[..|body|] == body;
    assert (body + trailing)[|body|..] == trailing;
    if body == [] {
      assert body + trailing == trailing;
    }
  }

  lemma PrintWithTrailing(status: StatusCode, reason: Bytes, fields: seq<Field>, body: Bytes, trailing: Bytes)
    ensures Print(status, reason, fields, body) + trailing == Print(status, reason, fields, body + trailing)
  {
    var head := HTTP11 + Dec(status) + [SP] + reason + CRLF + PrintFields(fields) + CRLF;
    assert head + body + trailing == head + (body + trailing);
  }

  /**
   Round trip: a peer reading the printed response, followed by anything, recovers the status, the reason, the
   body and the untouched remainder, exactly when the response may carry the body it carries: to HEAD, to a
   successful CONNECT, and with 1xx, 204 and 304, the body must be empty. The headers it reads are those of the
   server without the framing headers, in order, and the content-length.
   */
  lemma ResponseRoundTrip(
    m: RequestMethod, status: StatusCode, reason: Bytes, headers: seq<Field>, body: Bytes, trailing: Bytes)
    requires FromLibrary(reason, headers)
    ensures Parse(m, Print(status, reason, SentFields(headers, body), body) + trailing)
            == Message(status, reason, Trimmed(SentFields(headers, body)), body, trailing)
            <==> (NoContent(m, status) ==> body == [])
    ensures SentAs(headers, body, SentFields(headers, body))
    ensures forall name | !SameName(name, CONTENT_LENGTH) && !SameName(name, TRANSFER_ENCODING) ::
              ValuesOf(Trimmed(SentFields(headers, body)), name) == TrimmedTexts(ValuesOf(headers, name))
  {
    var fields := SentFields(headers, body);
    FramingHeaders(headers, body);
    PrintWithTrailing(status, reason, fields, body, trailing);
    ParseInverts(m, status, reason, fields, body + trailing);
    LengthFramesBody(m, status, reason, Trimmed(fields), body, trailing);
    SentCarried(headers, body);
    forall name | !SameName(name, CONTENT_LENGTH) && !SameName(name, TRANSFER_ENCODING)
      ensures ValuesOf(Trimmed(fields), name) == TrimmedTexts(ValuesOf(headers, name))
    {
      HeaderValuesKept(headers, body, name);
    }
  }

  // ----- the 502 answer

  function ErrorFields(error: Bytes): seq<Field> {
    [Field(CONTENT_TYPE_TITLE, TEXT_PLAIN), Field(CONTENT_LENGTH_TITLE, Dec(|error|))]
  }

  /** The answer of `forward_request_safe` when forwarding failed. */
  function ErrorResponse(error: Bytes): Bytes {
    Print(502, BAD_GATEWAY, ErrorFields(error), error)
  }

  lemma ErrorHeaders(error: Bytes)
    ensures BAD_GATEWAY == Ascii("Bad Gateway")
    ensures ErrorFields(error) == [Field(Ascii("Content-Type"), Ascii("text/plain")),
                                   Field(Ascii("Content-Length"), Dec(|error|))]
  {
    LiteralsSpell();
  }

  lemma ErrorNames()
    ensures IsToken(CONTENT_TYPE_TITLE) && IsToken(CONTENT_LENGTH_TITLE)
    ensures !SameName(CONTENT_TYPE_TITLE, CONTENT_LENGTH) && SameName(CONTENT_LENGTH_TITLE, CONTENT_LENGTH)
    ensures !SameName(CONTENT_TYPE_TITLE, TRANSFER_ENCODING) && !SameName(CONTENT_LENGTH_TITLE, TRANSFER_ENCODING)
  {
    assert |CONTENT_TYPE_TITLE| != |CONTENT_LENGTH|;
    assert |CONTENT_TYPE_TITLE| != |TRANSFER_ENCODING| && |CONTENT_LENGTH_TITLE| != |TRANSFER_ENCODING|;
  }

  lemma PlainTextValue()
    ensures Trim(TEXT_PLAIN) == TEXT_PLAIN && CR !in TEXT_PLAIN
  {
    assert TrimLeft(TEXT_PLAIN) == TEXT_PLAIN;
  }

  lemma TwoFieldsSeen(kind: Field, own: Field, length: Bytes, coding: Bytes)
    requires !SameName(kind.name, length) && !SameName(kind.name, coding) && Trim(kind.value) == kind.value
    requires SameName(own.name, length) && !SameName(own.name, coding) && Trim(own.value) == own.value
    ensures Trimmed([kind, own]) == [kind, own]
    ensures ValuesOf([kind, own], length) == [own.value] && ValuesOf([kind, own], coding) == []
  {
    assert [kind] + [own] == [kind, own];
    OneLengthField([kind], own, length, coding);
  }

  lemma ErrorFieldsSeen(error: Bytes)
    ensures Trimmed(ErrorFields(error)) == ErrorFields(error)
    ensures ValuesOf(ErrorFields(error), CONTENT_LENGTH) == [Dec(|error|)]
    ensures ValuesOf(ErrorFields(error), TRANSFER_ENCODING) == []
  {
    ErrorNames();
    PlainTextValue();
    DigitsTrim(|error|);
    TwoFieldsSeen(Field(CONTENT_TYPE_TITLE, TEXT_PLAIN), Field(CONTENT_LENGTH_TITLE, Dec(|error|)),
                  CONTENT_LENGTH, TRANSFER_ENCODING);
  }

  lemma ErrorFieldsPrintable(error: Bytes)
    ensures forall h | h in ErrorFields(error) :: Printable(h)
  {
    ErrorNames();
    PlainTextValue();
    NumberIsPrintable(CONTENT_LENGTH_TITLE, |error|);
  }

  /** Every error text, whatever bytes it holds, comes back as the body, except a nonempty one in answer to HEAD. */
  lemma ErrorResponseFramed(m: RequestMethod, error: Bytes, trailing: Bytes)
    ensures Parse(m, ErrorResponse(error) + trailing) == Message(502, BAD_GATEWAY, ErrorFields(error), error, trailing)
            <==> (m.Head? ==> error == [])
  {
    ErrorFieldsSeen(error);
    ErrorFieldsPrintable(error);
    PrintWithTrailing(502, BAD_GATEWAY, ErrorFields(error), error, trailing);
    ParseInverts(m, 502, BAD_GATEWAY, ErrorFields(error), error + trailing);
    LengthFramesBody(m, 502, BAD_GATEWAY, ErrorFields(error), error, trailing);
  }
}
