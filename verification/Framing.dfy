/**
 `TunnelCodec` and the receive loop of `QuicRecvHalf`: messages behind a 32-bit big-endian length, read
 from a byte stream that arrives in arbitrary chunks.
 */
module Framing {
  import opened Base
  import opened TunnelMessages

  const MAX_MESSAGE_SIZE := 16 * 1024 * 1024

  // ----- the codec

  function PutBE(n: nat, k: nat): (s: Bytes)
    ensures |s| == k
    decreases k
  {
    if k == 0 then [] else PutBE(n / 256, k - 1) + [n % 256]
  }

  function GetBE(s: Bytes): nat {
    if s == [] then 0 else 256 * GetBE(s[..|s| - 1]) + s[|s| - 1]
  }

  lemma {:induction false} BERoundTrip(n: nat, k: nat)
    requires n < Pow256(k)
    ensures GetBE(PutBE(n, k)) == n
    decreases k
  {
    if k > 0 {
      BERoundTrip(n / 256, k - 1);
      var s := PutBE(n, k);
      assert s[..|s| - 1] == PutBE(n / 256, k - 1);
    }
  }

  function Frame(payload: Bytes): Bytes {
    PutBE(|payload|, 4) + payload
  }

  /** The bytes of one message. */
  function Wire(m: Message): Bytes {
    Frame(Serialize(m))
  }

  /** `encode`; None is the "message too large" error. */
  function Encode(m: Message): Option<Bytes> {
    if |Serialize(m)| > MAX_MESSAGE_SIZE then None else Some(Wire(m))
  }

  datatype Decoded =
    | More
    | Got(msg: Message, rest: Bytes)
    | TooLarge
    | Malformed

  /** `decode` on the bytes received so far. */
  function Decode(buf: Bytes): Decoded {
    if |buf| < 4 then More
    else
      var length := GetBE(buf[..4]);
      if length > MAX_MESSAGE_SIZE then TooLarge
      else if |buf| < 4 + length then More
      else match Deserialize(buf[4..4 + length])
        case Some(m) => Got(m, buf[4 + length..])
        case None => Malformed
  }

  lemma LengthFits()
    ensures MAX_MESSAGE_SIZE < Pow256(4)
  {
    assert Pow256(2) == 256 * Pow256(1) == 65536;
    assert Pow256(3) == 256 * Pow256(2);
    assert Pow256(4) == 256 * Pow256(3);
  }

  /** Reading a frame back, whatever follows it. */
  lemma DecodeFrame(payload: Bytes, rest: Bytes)
    requires |payload| <= MAX_MESSAGE_SIZE
    ensures Decode(Frame(payload) + rest) ==
            match Deserialize(payload) case Some(m) => Got(m, rest) case None => Malformed
  {
    var buf := Frame(payload) + rest;
    LengthFits();
    BERoundTrip(|payload|, 4);
    assert buf[..4] == PutBE(|payload|, 4);
    assert buf[4..4 + |payload|] == payload;
    assert buf[4 + |payload|..] == rest;
  }

  predicate Sendable(m: Message) {
    WellSized(m) && |Serialize(m)| <= MAX_MESSAGE_SIZE
  }

  /** An encoded message decodes to itself exactly when it is not a ReverseClose without a reason. */
  lemma DecodeEncodedIff(m: Message, rest: Bytes)
    requires Sendable(m)
    ensures Encode(m) == Some(Wire(m))
    ensures Decode(Wire(m) + rest) == Got(m, rest) <==> !LosesField(m)
    ensures LosesField(m) ==> Decode(Wire(m) + rest) == Malformed
  {
    SurvivesIff(m);
    DecodeFrame(Serialize(m), rest);
  }

  /** Once a result is known, later bytes only lengthen the rest. */
  lemma DecodeStable(buf: Bytes, more: Bytes)
    requires Decode(buf) != More
    ensures Decode(buf + more) ==
            match Decode(buf) case Got(m, rest) => Got(m, rest + more) case other => other
  {
    assert (buf + more)[..4] == buf[..4];
    var length := GetBE(buf[..4]);
    if length <= MAX_MESSAGE_SIZE {
      assert (buf + more)[4..4 + length] == buf[4..4 + length];
      assert (buf + more)[4 + length..] == buf[4 + length..] + more;
    }
  }

  // ----- the receive loop

  /** Outcomes of successive reads from the QUIC stream. */
  datatype Read = Chunk(data: Bytes) | Fin | Lost | Failed

  /** What the chunks up to the end of the stream hold. */
  function Arriving(inbox: seq<Read>): Bytes {
    if inbox == [] || !inbox[0].Chunk? then [] else inbox[0].data + Arriving(inbox[1..])
  }

  function StreamEnd(inbox: seq<Read>): Option<Read> {
    if inbox == [] then None else if inbox[0].Chunk? then StreamEnd(inbox[1..]) else Some(inbox[0])
  }

  /** `Waiting` stands for a read that has not returned yet. */
  datatype Received = Message(msg: TunnelMessages.Message) | EndOfStream | Error | Waiting

  /** What a receiver answers, as a function of the bytes alone. */
  function Answer(bytes: Bytes, end: Option<Read>): Received {
    match Decode(bytes)
    case Got(m, _) => Message(m)
    case TooLarge => Error
    case Malformed => Error
    case More => if end.None? then Waiting else if end.value.Fin? then EndOfStream else Error
  }

  class RecvHalf {
    var buffer: Bytes
    var closed: bool
    var inbox: seq<Read>

    constructor (inbox: seq<Read>)
      ensures buffer == [] && !closed && this.inbox == inbox
    {
      buffer, closed, this.inbox := [], false, inbox;
    }

    /** All bytes that were received and not decoded yet, or will arrive. */
    function Pending(): Bytes
      reads this
    {
      buffer + Arriving(inbox)
    }

    /** `recv_message`: the answer, and what is left, do not depend on how the bytes are cut into chunks. */
    method RecvMessage() returns (r: Received)
      modifies this
      ensures old(closed) ==> r == EndOfStream && unchanged(this)
      ensures !old(closed) ==> r == Answer(old(Pending()), StreamEnd(old(inbox)))
      ensures r.EndOfStream? ==> closed
      ensures !old(closed) && r.Message? ==>
                Decode(old(Pending())) == Got(r.msg, Pending()) && !closed && StreamEnd(inbox) == StreamEnd(old(inbox))
    {
      if closed {
        return EndOfStream;
      }
      while true
        invariant !closed && Pending() == old(Pending()) && StreamEnd(inbox) == StreamEnd(old(inbox))
        decreases |inbox|
      {
        var decoded := Decode(buffer);
        if decoded != More {
          DecodeStable(buffer, Arriving(inbox));
          match decoded {
            case Got(m, rest) =>
              buffer := rest;
              return Message(m);
            case _ =>
              return Error;
          }
        }
        if inbox == [] {
          assert Pending() == buffer;
          return Waiting;
        }
        match inbox[0] {
          case Chunk(data) =>
            assert buffer + (data + Arriving(inbox[1..])) == buffer + data + Arriving(inbox[1..]);
            buffer := buffer + data;
            inbox := inbox[1..];
          case Fin =>
            assert Pending() == buffer;
            closed := true;
            return EndOfStream;
          case Lost =>
            assert Pending() == buffer;
            closed := true;
            return Error;
          case Failed =>
            assert Pending() == buffer;
            inbox := inbox[1..];
            return Error;
        }
      }
    }
  }

  // ----- streams of messages

  function Frames(ms: seq<TunnelMessages.Message>): Bytes {
    if ms == [] then [] else Wire(ms[0]) + Frames(ms[1..])
  }

  lemma {:induction false} FramesAppend(ms: seq<TunnelMessages.Message>, m: TunnelMessages.Message)
    ensures Frames(ms + [m]) == Frames(ms) + Wire(m)
    decreases |ms|
  {
    if ms == [] {
      assert ms + [m] == [m] && Frames([m][1..]) == [];
    } else {
      FramesAppend(ms[1..], m);
      assert (ms + [m])[1..] == ms[1..] + [m];
      Regroup(Wire(ms[0]), Frames(ms[1..]), Wire(m));
    }
  }

  /** All answers up to the first one that is not a message. */
  function Answers(bytes: Bytes, end: Option<Read>): seq<Received>
    decreases |bytes|
  {
    match Decode(bytes)
    case Got(m, rest) => [Message(m)] + Answers(rest, end)
    case _ => [Answer(bytes, end)]
  }

  function Messages(ms: seq<TunnelMessages.Message>): seq<Received> {
    seq(|ms|, i requires 0 <= i < |ms| => Message(ms[i]))
  }

  /** The frame is read back as `m`. */
  ghost predicate ReadsAs(frame: Bytes, m: TunnelMessages.Message) {
    forall rest: Bytes :: Decode(frame + rest) == Got(m, rest)
  }

  ghost predicate Decodes(m: TunnelMessages.Message) {
    ReadsAs(Wire(m), m)
  }

  lemma AllDecode(ms: seq<TunnelMessages.Message>)
    requires forall m | m in ms :: Sendable(m) && !LosesField(m)
    ensures forall m | m in ms :: Decodes(m)
  {
    forall m, rest: Bytes | m in ms ensures Decode(Wire(m) + rest) == Got(m, rest) {
      DecodeEncodedIff(m, rest);
    }
  }

  lemma AnswersStep(bytes: Bytes, m: TunnelMessages.Message, rest: Bytes, end: Option<Read>)
    requires Decode(bytes) == Got(m, rest)
    ensures Answers(bytes, end) == [Message(m)] + Answers(rest, end)
  {
  }

  /** Prepending one decodable frame prepends one answer. */
  lemma AnswersFrame(frame: Bytes, m: TunnelMessages.Message, rest: Bytes, tail: Bytes, end: Option<Read>)
    requires ReadsAs(frame, m)
    ensures Answers(frame + rest + tail, end) == [Message(m)] + Answers(rest + tail, end)
  {
    Regroup(frame, rest, tail);
    AnswersStep(frame + (rest + tail), m, rest + tail, end);
  }

  lemma AnswersMessage(m: TunnelMessages.Message, rest: Bytes, tail: Bytes, end: Option<Read>)
    requires Decodes(m)
    ensures Answers(Wire(m) + rest + tail, end) == [Message(m)] + Answers(rest + tail, end)
  {
    AnswersFrame(Wire(m), m, rest, tail, end);
  }

  lemma PrependMessage(m: TunnelMessages.Message, ms: seq<TunnelMessages.Message>, after: seq<Received>)
    ensures [Message(m)] + (Messages(ms) + after) == Messages([m] + ms) + after
  {
  }

  lemma {:induction false} FramesAnswers(ms: seq<TunnelMessages.Message>, tail: Bytes, end: Option<Read>)
    requires forall m | m in ms :: Decodes(m)
    ensures Answers(Frames(ms) + tail, end) == Messages(ms) + Answers(tail, end)
    decreases |ms|
  {
    if ms == [] {
      assert Frames(ms) + tail == tail;
      assert Messages(ms) == [];
    } else {
      var m, rest := ms[0], ms[1..];
      FramesAnswers(rest, tail, end);
      AnswersMessage(m, Frames(rest), tail, end);
      PrependMessage(m, rest, Answers(tail, end));
      assert [m] + rest == ms;
    }
  }

  /**
   `recv_message` called until it answers with something other than a message. The answers depend on the
   bytes and the end of the stream alone, not on the chunks.
   */
  method ReceiveAll(h: RecvHalf) returns (rs: seq<Received>)
    requires !h.closed
    modifies h
    ensures rs == Answers(old(h.Pending()), StreamEnd(old(h.inbox)))
  {
    ghost var all, end := h.Pending(), StreamEnd(h.inbox);
    rs := [];
    while true
      invariant !h.closed && StreamEnd(h.inbox) == end
      invariant Answers(all, end) == rs + Answers(h.Pending(), end)
      decreases |h.Pending()|
    {
      ghost var before := rs;
      var r := h.RecvMessage();
      rs := rs + [r];
      if !r.Message? {
        return;
      }
      Regroup(before, [r], Answers(h.Pending(), end));
    }
  }

  /** The answers to the calls on a fresh receiver, for the reads that the QUIC stream will return. */
  function AnswersTo(inbox: seq<Read>): seq<Received> {
    Answers(Arriving(inbox), StreamEnd(inbox))
  }

  method ReceiveFresh(inbox: seq<Read>) returns (rs: seq<Received>)
    ensures rs == AnswersTo(inbox)
  {
    var h := new RecvHalf(inbox);
    assert h.Pending() == Arriving(inbox);
    rs := ReceiveAll(h);
  }

  /** Every message sent is received once and in order, whatever the chunks and whatever follows. */
  lemma StreamRoundTrip(ms: seq<TunnelMessages.Message>, tail: Bytes, inbox: seq<Read>)
    requires forall m | m in ms :: Sendable(m) && !LosesField(m)
    requires Arriving(inbox) == Frames(ms) + tail
    ensures AnswersTo(inbox) == Messages(ms) + Answers(tail, StreamEnd(inbox))
  {
    AllDecode(ms);
    FramesAnswers(ms, tail, StreamEnd(inbox));
  }

  /** A stream that ends after its last frame is received as its messages and the end, whatever the chunks. */
  lemma WholeStreamRoundTrip(ms: seq<TunnelMessages.Message>, inbox: seq<Read>)
    requires forall m | m in ms :: Sendable(m) && !LosesField(m)
    requires Arriving(inbox) == Frames(ms) && StreamEnd(inbox) == Some(Fin)
    ensures AnswersTo(inbox) == Messages(ms) + [EndOfStream]
  {
    StreamRoundTrip(ms, [], inbox);
  }

  /** A close without a reason ends the answers with an error, after everything sent before it and whatever follows. */
  lemma BareCloseIsAnError(
    ms: seq<TunnelMessages.Message>, close: TunnelMessages.Message, tail: Bytes, inbox: seq<Read>)
    requires forall m | m in ms :: Sendable(m) && !LosesField(m)
    requires Sendable(close) && LosesField(close)
    requires Arriving(inbox) == Frames(ms) + (Wire(close) + tail)
    ensures AnswersTo(inbox) == Messages(ms) + [Error]
  {
    DecodeEncodedIff(close, tail);
    StreamRoundTrip(ms, Wire(close) + tail, inbox);
  }

  // ----- sizes and streams that break off

  /** `encode` refuses exactly the messages of more than 16 MiB, and puts the length in four octets in front. */
  lemma EncodeIff(m: TunnelMessages.Message)
    ensures Encode(m).Some? <==> |Serialize(m)| <= 16777216
    ensures Encode(m).Some? ==>
              var n := |Serialize(m)|;
              Encode(m).value == [n / 16777216 % 256, n / 65536 % 256, n / 256 % 256, n % 256] + Serialize(m)
  {
    BigEndian(|Serialize(m)|);
  }

  lemma BigEndian(n: nat)
    ensures PutBE(n, 4) == [n / 16777216 % 256, n / 65536 % 256, n / 256 % 256, n % 256]
  {
    var a, b, c := n / 256, n / 65536, n / 16777216;
    assert n / 256 / 256 == b && b / 256 == c;
    assert PutBE(c, 1) == PutBE(c / 256, 0) + [c % 256] == [c % 256];
    assert PutBE(b, 2) == PutBE(c, 1) + [b % 256];
    assert PutBE(a, 3) == PutBE(b, 2) + [a % 256];
    assert PutBE(n, 4) == PutBE(a, 3) + [n % 256];
  }

  /** A length of more than 16 MiB is an error at once, whatever has arrived behind it. */
  lemma OversizedIsAnError(n: nat, rest: Bytes, end: Option<Read>)
    requires 16777216 < n < Pow256(4)
    ensures Answers(PutBE(n, 4) + rest, end) == [Error]
  {
    BERoundTrip(n, 4);
    assert (PutBE(n, 4) + rest)[..4] == PutBE(n, 4);
  }

  /** What is answered when the stream ends inside a frame. */
  function BreaksOff(end: Option<Read>): Received {
    match end
    case None => Waiting
    case Some(Fin) => EndOfStream
    case _ => Error
  }

  lemma CutFrameIsMore(payload: Bytes, cut: nat)
    requires |payload| <= MAX_MESSAGE_SIZE && cut < |Frame(payload)|
    ensures Decode(Frame(payload)[..cut]) == More
  {
    var buf := Frame(payload)[..cut];
    if cut >= 4 {
      LengthFits();
      BERoundTrip(|payload|, 4);
      assert buf[..4] == PutBE(|payload|, 4);
    }
  }

  /**
   A stream that ends inside a frame gives all messages before it; then a finished stream is an end without an
   error, a lost or failed one is an error, and an open one keeps the reader waiting.
   */
  lemma CutStream(ms: seq<TunnelMessages.Message>, m: TunnelMessages.Message, cut: nat, inbox: seq<Read>)
    requires forall x | x in ms :: Sendable(x) && !LosesField(x)
    requires Sendable(m) && cut < |Wire(m)| && Arriving(inbox) == Frames(ms) + Wire(m)[..cut]
    ensures AnswersTo(inbox) == Messages(ms) + [BreaksOff(StreamEnd(inbox))]
  {
    CutFrameIsMore(Serialize(m), cut);
    StreamRoundTrip(ms, Wire(m)[..cut], inbox);
    EndIsNoChunk(inbox);
  }

  lemma {:induction false} EndIsNoChunk(inbox: seq<Read>)
    ensures StreamEnd(inbox).Some? ==> !StreamEnd(inbox).value.Chunk?
    decreases |inbox|
  {
    if inbox != [] && inbox[0].Chunk? {
      EndIsNoChunk(inbox[1..]);
    }
  }
}
