/**
 `TcpForwarder::copy_bidirectional`: one half writes the data of received messages to the remote
 connection, the other sends what it reads from the remote connection as messages. The two halves run
 concurrently and share nothing.
 */
module Forwarder {
  import opened Base
  import opened TunnelMessages
  import opened Framing

  const BUFFER_SIZE := 16384

  datatype HalfResult = Finished(total: nat) | TransportError | IoError

  // ----- tunnel to remote

  /** Outcome of the k-th write: complete, or an error after some octets. */
  type Writes = nat -> Option<nat>

  datatype Inbound = Inbound(
    rest: seq<Received>, written: Bytes, total: nat, writes: nat, shut: bool, done: Option<HalfResult>)

  function StartInbound(answers: seq<Received>): Inbound {
    Inbound(answers, [], 0, 0, false, None)
  }

  function Stop(h: Inbound): Inbound {
    h.(shut := true, done := Some(Finished(h.total)))
  }

  /** One iteration of the receive loop. */
  function InboundStep(h: Inbound, writes: Writes): Inbound
    requires h.done.None? && h.rest != []
  {
    var next := h.(rest := h.rest[1..]);
    match h.rest[0]
    case Message(ReverseData(_, _, data)) =>
      if data == [] then Stop(next)
      else (match writes(h.writes)
            case None => next.(written := h.written + data, total := h.total + |data|, writes := h.writes + 1)
            case Some(n) =>
              next.(written := h.written + data[..if n < |data| then n else |data|], done := Some(IoError)))
    case Message(ReverseClose(_, _, _)) => Stop(next)
    case EndOfStream => Stop(next)
    case Error => next.(done := Some(TransportError))
    case _ => next
  }

  predicate InboundActive(h: Inbound) {
    h.done.None? && h.rest != []
  }

  /** The half run to its end, or until it waits for more messages. */
  function InboundEnd(h: Inbound, writes: Writes): Inbound
    decreases |h.rest|
  {
    if InboundActive(h) then InboundEnd(InboundStep(h, writes), writes) else h
  }

  /** The loop of the source. */
  method PumpToRemote(answers: seq<Received>, writes: Writes) returns (h: Inbound)
    ensures h == InboundEnd(StartInbound(answers), writes)
  {
    var written: Bytes, total: nat, count: nat, i := [], 0, 0, 0;
    while i < |answers|
      invariant 0 <= i <= |answers|
      invariant InboundEnd(StartInbound(answers), writes)
                == InboundEnd(Inbound(answers[i..], written, total, count, false, None), writes)
    {
      var answer := answers[i];
      assert answers[i..][1..] == answers[i + 1..];
      i := i + 1;
      match answer {
        case Message(ReverseData(_, _, data)) =>
          if data == [] {
            return Inbound(answers[i..], written, total, count, true, Some(Finished(total)));
          }
          match writes(count) {
            case None =>
              written := written + data;
              total := total + |data|;
              count := count + 1;
            case Some(n) =>
              written := written + data[..if n < |data| then n else |data|];
              return Inbound(answers[i..], written, total, count, false, Some(IoError));
          }
        case Message(ReverseClose(_, _, _)) =>
          return Inbound(answers[i..], written, total, count, true, Some(Finished(total)));
        case EndOfStream =>
          return Inbound(answers[i..], written, total, count, true, Some(Finished(total)));
        case Error =>
          return Inbound(answers[i..], written, total, count, false, Some(TransportError));
        case _ =>
      }
    }
    assert answers[i..] == [];
    h := Inbound([], written, total, count, false, None);
  }

  /** The data of a message sequence up to whatever ends it. */
  function Delivered(answers: seq<Received>): Bytes {
    if answers == [] then []
    else match answers[0]
      case Message(ReverseData(_, _, data)) => if data == [] then [] else data + Delivered(answers[1..])
      case Message(ReverseClose(_, _, _)) => []
      case EndOfStream => []
      case Error => []
      case _ => Delivered(answers[1..])
  }

  /** How the message sequence ends: cleanly, in an error, or not yet. */
  function Ending(answers: seq<Received>): Option<bool> {
    if answers == [] then None
    else match answers[0]
      case Message(ReverseData(_, _, data)) => if data == [] then Some(true) else Ending(answers[1..])
      case Message(ReverseClose(_, _, _)) => Some(true)
      case EndOfStream => Some(true)
      case Error => Some(false)
      case _ => Ending(answers[1..])
  }

  ghost predicate AllWritten(writes: Writes) {
    forall k: nat :: writes(k).None?
  }

  /** What one iteration that does not end the half adds. */
  function Added(h: Inbound): Bytes
    requires h.rest != []
  {
    match h.rest[0] case Message(ReverseData(_, _, data)) => data case _ => []
  }

  lemma StepGoesOn(h: Inbound, writes: Writes)
    requires InboundActive(h) && InboundStep(h, writes).done.None? && h.total == |h.written| && !h.shut
    ensures var next := InboundStep(h, writes);
            && next.written == h.written + Added(h) && next.total == |next.written| && !next.shut
            && next.rest == h.rest[1..]
            && Delivered(h.rest) == Added(h) + Delivered(next.rest) && Ending(h.rest) == Ending(next.rest)
  {
    if Added(h) == [] {
      assert Added(h) + Delivered(h.rest[1..]) == Delivered(h.rest[1..]);
      assert h.written + Added(h) == h.written;
    }
  }

  lemma StepEnds(h: Inbound, writes: Writes)
    requires InboundActive(h) && InboundStep(h, writes).done.Some? && h.total == |h.written| && !h.shut
    ensures var end := InboundStep(h, writes);
            && h.written <= end.written <= h.written + Delivered(h.rest)
            && (end.shut <==> end.done.value.Finished?)
            && (end.done.value.Finished? ==>
                  Delivered(h.rest) == [] && end.written == h.written && end.done.value.total == |h.written|)
            && (AllWritten(writes) ==>
                  && Delivered(h.rest) == [] && end.written == h.written
                  && Ending(h.rest).Some?
                  && end.done.value == if Ending(h.rest).value then Finished(|h.written|) else TransportError)
  {
    match h.rest[0]
    case Message(ReverseData(_, _, data)) =>
      if data != [] {
        var d := Delivered(h.rest[1..]);
        assert data + d == Delivered(h.rest);
        var n := InboundStep(h, writes).written;
        assert n <= h.written + data <= h.written + (data + d);
      }
    case _ =>
  }

  /** Where the remote side stands when the half has ended, relative to where it stood at `h`. */
  ghost predicate DeliversFrom(h: Inbound, end: Inbound, writes: Writes) {
    && h.written <= end.written <= h.written + Delivered(h.rest)
    && (end.shut <==> end.done.Some? && end.done.value.Finished?)
    && (end.shut ==> end.written == h.written + Delivered(h.rest) && end.done.value.total == |end.written|)
    && (AllWritten(writes) ==>
          && end.written == h.written + Delivered(h.rest)
          && end.done == (match Ending(h.rest)
                          case None => None
                          case Some(clean) => Some(if clean then Finished(|end.written|) else TransportError)))
  }

  /**
   The remote side gets exactly the delivered data when no write fails, a prefix of it otherwise; the
   returned count is the delivered length, and the write side is shut down exactly on a clean end.
   */
  lemma {:induction false} InboundDelivers(h: Inbound, writes: Writes)
    requires h.done.None? && h.total == |h.written| && !h.shut
    ensures DeliversFrom(h, InboundEnd(h, writes), writes)
    decreases |h.rest|
  {
    if h.rest == [] {
      assert h.written + [] == h.written;
    } else {
      var next := InboundStep(h, writes);
      if next.done.None? {
        StepGoesOn(h, writes);
        InboundDelivers(next, writes);
        Regroup(h.written, Added(h), Delivered(next.rest));
      } else {
        StepEnds(h, writes);
        assert h.written + [] == h.written;
      }
    }
  }

  // ----- remote to tunnel

  /** One read from the remote connection; no octets means that it was closed. */
  datatype RemoteRead = Incoming(data: Bytes) | ReadError

  ghost predicate FitsBuffer(r: RemoteRead) {
    r.Incoming? ==> |r.data| <= BUFFER_SIZE
  }

  datatype Outbound = Outbound(
    rest: seq<RemoteRead>, sent: seq<TunnelMessages.Message>, total: nat, done: Option<HalfResult>)

  function StartOutbound(remote: seq<RemoteRead>): Outbound {
    Outbound(remote, [], 0, None)
  }

  function DataMessage(stream: nat, data: Bytes): TunnelMessages.Message {
    ReverseData([], stream, data)
  }

  function CloseMessage(stream: nat): TunnelMessages.Message {
    ReverseClose([], stream, None)
  }

  /** One iteration of the read loop; `sends` says whether the send of the k-th message succeeds. */
  function OutboundStep(h: Outbound, stream: nat, sends: nat -> bool): Outbound
    requires h.done.None? && h.rest != []
  {
    var next := h.(rest := h.rest[1..]);
    match h.rest[0]
    case Incoming(data) =>
      if data == [] then
        next.(sent := h.sent + (if sends(|h.sent|) then [CloseMessage(stream)] else []),
              done := Some(Finished(h.total)))
      else if sends(|h.sent|) then next.(sent := h.sent + [DataMessage(stream, data)], total := h.total + |data|)
      else next.(done := Some(TransportError))
    case ReadError => next.(done := Some(IoError))
  }

  predicate OutboundActive(h: Outbound) {
    h.done.None? && h.rest != []
  }

  function OutboundEnd(h: Outbound, stream: nat, sends: nat -> bool): Outbound
    decreases |h.rest|
  {
    if OutboundActive(h) then OutboundEnd(OutboundStep(h, stream, sends), stream, sends) else h
  }

  /** A read fills the front of the reused buffer and leaves old octets behind it. */
  method ReadInto(buffer: array<Byte>, data: Bytes) returns (n: nat)
    requires |data| <= buffer.Length
    modifies buffer
    ensures n == |data| && buffer[..n] == data
  {
    n := 0;
    while n < |data|
      invariant n <= |data| && buffer[..n] == data[..n]
    {
      buffer[n] := data[n];
      n := n + 1;
    }
  }

  /** The loop of the source. */
  method PumpToTunnel(remote: seq<RemoteRead>, stream: nat, sends: nat -> bool) returns (h: Outbound)
    requires forall r | r in remote :: FitsBuffer(r)
    ensures h == OutboundEnd(StartOutbound(remote), stream, sends)
  {
    var buffer := new Byte[BUFFER_SIZE](_ => 0);
    var sent: seq<TunnelMessages.Message>, total: nat, i := [], 0, 0;
    while i < |remote|
      invariant 0 <= i <= |remote|
      invariant OutboundEnd(StartOutbound(remote), stream, sends)
                == OutboundEnd(Outbound(remote[i..], sent, total, None), stream, sends)
    {
      var r := remote[i];
      assert remote[i..][1..] == remote[i + 1..];
      i := i + 1;
      match r {
        case Incoming(data) =>
          assert FitsBuffer(r);
          var n := ReadInto(buffer, data);
          if n == 0 {
            if sends(|sent|) {
              return Outbound(remote[i..], sent + [CloseMessage(stream)], total, Some(Finished(total)));
            }
            return Outbound(remote[i..], sent + [], total, Some(Finished(total)));
          }
          if !sends(|sent|) {
            return Outbound(remote[i..], sent, total, Some(TransportError));
          }
          sent := sent + [DataMessage(stream, buffer[..n])];
          total := total + n;
        case ReadError =>
          return Outbound(remote[i..], sent, total, Some(IoError));
      }
    }
    assert remote[i..] == [];
    h := Outbound([], sent, total, None);
  }

  // ----- the two halves together

  datatype Pair = Pair(inbound: Inbound, outbound: Outbound)

  /** `tokio::join!` lets either half go on at any time; a half that waits or is done stays as it is. */
  function Turn(s: Pair, inbound: bool, stream: nat, writes: Writes, sends: nat -> bool): Pair {
    if inbound && InboundActive(s.inbound) then s.(inbound := InboundStep(s.inbound, writes))
    else if !inbound && OutboundActive(s.outbound) then s.(outbound := OutboundStep(s.outbound, stream, sends))
    else s
  }

  function Schedule(s: Pair, order: seq<bool>, stream: nat, writes: Writes, sends: nat -> bool): Pair
    decreases |order|
  {
    if order == [] then s
    else Schedule(Turn(s, order[0], stream, writes, sends), order[1..], stream, writes, sends)
  }

  /** Whatever the interleaving, each half ends where it would end alone; neither truncates the other. */
  lemma {:induction false} InterleavingIrrelevant(
    s: Pair, order: seq<bool>, stream: nat, writes: Writes, sends: nat -> bool)
    ensures var s' := Schedule(s, order, stream, writes, sends);
            && InboundEnd(s'.inbound, writes) == InboundEnd(s.inbound, writes)
            && OutboundEnd(s'.outbound, stream, sends) == OutboundEnd(s.outbound, stream, sends)
            && (s'.inbound.done.Some? ==> s'.inbound == InboundEnd(s.inbound, writes))
            && (s'.outbound.done.Some? ==> s'.outbound == OutboundEnd(s.outbound, stream, sends))
    decreases |order|
  {
    if order != [] {
      InterleavingIrrelevant(Turn(s, order[0], stream, writes, sends), order[1..], stream, writes, sends);
    }
  }

  predicate Finishes(s: Pair) {
    s.inbound.done.Some? && s.outbound.done.Some?
  }

  /** The result of the pair: the error of the inbound half comes first. */
  function JoinResult(s: Pair): Result<(nat, nat), HalfResult>
    requires Finishes(s)
  {
    if !s.inbound.done.value.Finished? then Err(s.inbound.done.value)
    else if !s.outbound.done.value.Finished? then Err(s.outbound.done.value)
    else Ok((s.inbound.done.value.total, s.outbound.done.value.total))
  }

  // ----- what the outbound half sends

  function Flat(chunks: seq<Bytes>): Bytes {
    if chunks == [] then [] else chunks[0] + Flat(chunks[1..])
  }

  /** Reads of a byte stream cut into the given chunks, and its end. */
  function Reading(chunks: seq<Bytes>): seq<RemoteRead> {
    seq(|chunks|, i requires 0 <= i < |chunks| => Incoming(chunks[i])) + [Incoming([])]
  }

  function DataMessages(stream: nat, chunks: seq<Bytes>): seq<TunnelMessages.Message> {
    seq(|chunks|, i requires 0 <= i < |chunks| => DataMessage(stream, chunks[i]))
  }

  ghost predicate Chunking(chunks: seq<Bytes>) {
    forall c | c in chunks :: 1 <= |c| <= BUFFER_SIZE
  }

  lemma ChunkingTail(chunks: seq<Bytes>)
    requires Chunking(chunks) && chunks != []
    ensures Chunking(chunks[1..]) && 1 <= |chunks[0]| <= BUFFER_SIZE
  {
    assert chunks[0] in chunks;
  }

  lemma MessagesRegroup(sent: seq<TunnelMessages.Message>, stream: nat, chunks: seq<Bytes>)
    requires chunks != []
    ensures sent + [DataMessage(stream, chunks[0])] + DataMessages(stream, chunks[1..])
            == sent + DataMessages(stream, chunks)
  {
    assert DataMessages(stream, chunks) == [DataMessage(stream, chunks[0])] + DataMessages(stream, chunks[1..]);
  }

  ghost predicate AllSent(sends: nat -> bool) {
    forall k: nat :: sends(k)
  }

  lemma {:induction false} OutboundSends(h: Outbound, chunks: seq<Bytes>, stream: nat, sends: nat -> bool)
    requires h.done.None? && h.rest == Reading(chunks) && Chunking(chunks) && AllSent(sends)
    ensures var end := OutboundEnd(h, stream, sends);
            && end.sent == h.sent + DataMessages(stream, chunks) + [CloseMessage(stream)]
            && end.done == Some(Finished(h.total + |Flat(chunks)|))
    decreases |chunks|
  {
    if chunks == [] {
      assert DataMessages(stream, chunks) == [];
      assert h.rest[0] == Incoming([]);
      assert sends(|h.sent|);
    } else {
      var c := chunks[0];
      assert c in chunks && h.rest[0] == Incoming(c) && sends(|h.sent|);
      var next := OutboundStep(h, stream, sends);
      assert next.rest == Reading(chunks[1..]);
      OutboundSends(next, chunks[1..], stream, sends);
      MessagesRegroup(h.sent, stream, chunks);
    }
  }

  /** Reads of the given chunks, and then the end of the stream or an error. */
  function ReadingThen(chunks: seq<Bytes>, last: RemoteRead): seq<RemoteRead> {
    seq(|chunks|, i requires 0 <= i < |chunks| => Incoming(chunks[i])) + [last]
  }

  /** The sends succeed up to the `k`-th message, which fails if it is a data message. */
  ghost predicate SendsUpTo(sends: nat -> bool, first: nat, k: nat, count: nat) {
    k <= count && (forall i: nat | first <= i < first + k :: sends(i)) && (k < count ==> !sends(first + k))
  }

  /**
   The outbound half when reads or sends fail: it has sent the chunks before the failure in order, and ends in a
   transport error where a data message could not be sent, in an I/O error where a read failed, and otherwise with
   the length of the stream, also if the close could not be sent.
   */
  lemma {:induction false} OutboundStops(
    h: Outbound, chunks: seq<Bytes>, last: RemoteRead, k: nat, stream: nat, sends: nat -> bool)
    requires h.done.None? && h.rest == ReadingThen(chunks, last) && Chunking(chunks)
    requires last.ReadError? || last == Incoming([])
    requires SendsUpTo(sends, |h.sent|, k, |chunks|)
    ensures StopsAt(h, chunks, last, k, stream, sends, OutboundEnd(h, stream, sends))
    decreases |chunks|
  {
    if chunks == [] {
      LastRead(h, last, stream, sends);
    } else if k == 0 {
      SendFails(h, chunks, last, stream, sends);
    } else {
      assert sends(|h.sent|);
      var next := SendsOne(h, chunks, last, stream, sends);
      SendsShift(sends, |h.sent|, k, |chunks|);
      OutboundStops(next, chunks[1..], last, k - 1, stream, sends);
      StopsLater(h, next, chunks, last, k, stream, sends, OutboundEnd(h, stream, sends));
    }
  }

  /** What was sent and how it ended, with `k` data messages sent. */
  ghost predicate StopsAt(h: Outbound, chunks: seq<Bytes>, last: RemoteRead, k: nat, stream: nat,
                          sends: nat -> bool, end: Outbound)
    requires k <= |chunks|
  {
    var closes := k == |chunks| && last.Incoming? && sends(|h.sent| + k);
    && end.sent == h.sent + DataMessages(stream, chunks[..k]) + (if closes then [CloseMessage(stream)] else [])
    && end.done == Some(if k < |chunks| then TransportError
                        else if last.ReadError? then IoError
                        else Finished(h.total + |Flat(chunks)|))
  }

  lemma LastRead(h: Outbound, last: RemoteRead, stream: nat, sends: nat -> bool)
    requires h.done.None? && h.rest == ReadingThen([], last) && (last.ReadError? || last == Incoming([]))
    ensures StopsAt(h, [], last, 0, stream, sends, OutboundEnd(h, stream, sends))
  {
    assert h.rest == [last];
    var end := OutboundStep(h, stream, sends);
    assert OutboundEnd(end, stream, sends) == end;
    assert DataMessages(stream, []) == [];
  }

  lemma SendFails(h: Outbound, chunks: seq<Bytes>, last: RemoteRead, stream: nat, sends: nat -> bool)
    requires h.done.None? && h.rest == ReadingThen(chunks, last) && Chunking(chunks) && chunks != []
    requires !sends(|h.sent|)
    ensures StopsAt(h, chunks, last, 0, stream, sends, OutboundEnd(h, stream, sends))
  {
    assert chunks[0] in chunks && h.rest[0] == Incoming(chunks[0]);
    var end := OutboundStep(h, stream, sends);
    assert OutboundEnd(end, stream, sends) == end;
    assert DataMessages(stream, chunks[..0]) == [];
  }

  lemma SendsOne(h: Outbound, chunks: seq<Bytes>, last: RemoteRead, stream: nat, sends: nat -> bool)
    returns (next: Outbound)
    requires h.done.None? && h.rest == ReadingThen(chunks, last) && Chunking(chunks) && chunks != []
    requires sends(|h.sent|)
    ensures next.rest == ReadingThen(chunks[1..], last) && next.done.None? && next.total == h.total + |chunks[0]|
    ensures next.sent == h.sent + [DataMessage(stream, chunks[0])]
    ensures OutboundEnd(h, stream, sends) == OutboundEnd(next, stream, sends)
  {
    assert chunks[0] in chunks && h.rest[0] == Incoming(chunks[0]);
    next := OutboundStep(h, stream, sends);
    assert next.rest == ReadingThen(chunks[1..], last);
  }

  lemma StopsLater(h: Outbound, next: Outbound, chunks: seq<Bytes>, last: RemoteRead, k: nat, stream: nat,
                   sends: nat -> bool, end: Outbound)
    requires 0 < k <= |chunks| && StopsAt(next, chunks[1..], last, k - 1, stream, sends, end)
    requires next.sent == h.sent + [DataMessage(stream, chunks[0])] && next.total == h.total + |chunks[0]|
    ensures StopsAt(h, chunks, last, k, stream, sends, end)
  {
    assert chunks[..k][1..] == chunks[1..][..k - 1];
    MessagesRegroup(h.sent, stream, chunks[..k]);
  }

  lemma SendsShift(sends: nat -> bool, first: nat, k: nat, count: nat)
    requires k > 0 && SendsUpTo(sends, first, k, count)
    ensures SendsUpTo(sends, first + 1, k - 1, count - 1)
  {
  }

  /** Every message but the last is nonempty data, and the last is the only close. */
  lemma OneCloseComesLast(chunks: seq<Bytes>, stream: nat, i: nat)
    requires Chunking(chunks) && i <= |chunks|
    ensures var sent := DataMessages(stream, chunks) + [CloseMessage(stream)];
            && (sent[i].ReverseClose? <==> i == |sent| - 1)
            && (i < |chunks| ==> sent[i] == ReverseData([], stream, chunks[i]) && 1 <= |sent[i].data| <= 16384)
            && (i == |chunks| ==> sent[i] == ReverseClose([], stream, None))
  {
    if i < |chunks| {
      assert chunks[i] in chunks;
    }
  }

  // ----- round trips

  lemma DeliveredHead(stream: nat, data: Bytes, rest: seq<Received>)
    requires data != []
    ensures Delivered([Message(DataMessage(stream, data))] + rest) == data + Delivered(rest)
    ensures Ending([Message(DataMessage(stream, data))] + rest) == Ending(rest)
  {
    assert ([Message(DataMessage(stream, data))] + rest)[1..] == rest;
  }

  lemma MessagesHead(stream: nat, chunks: seq<Bytes>, tail: seq<Received>)
    requires chunks != []
    ensures Messages(DataMessages(stream, chunks)) + tail
            == [Message(DataMessage(stream, chunks[0]))] + (Messages(DataMessages(stream, chunks[1..])) + tail)
  {
  }

  lemma {:induction false} DeliveredData(stream: nat, chunks: seq<Bytes>, tail: seq<Received>)
    requires Chunking(chunks)
    ensures Delivered(Messages(DataMessages(stream, chunks)) + tail) == Flat(chunks) + Delivered(tail)
    ensures Ending(Messages(DataMessages(stream, chunks)) + tail) == Ending(tail)
    decreases |chunks|
  {
    if chunks == [] {
      assert Messages(DataMessages(stream, chunks)) + tail == tail;
      assert [] + Delivered(tail) == Delivered(tail);
    } else {
      assert chunks[0] in chunks;
      DeliveredData(stream, chunks[1..], tail);
      MessagesHead(stream, chunks, tail);
      DeliveredHead(stream, chunks[0], Messages(DataMessages(stream, chunks[1..])) + tail);
      Regroup(chunks[0], Flat(chunks[1..]), Delivered(tail));
    }
  }

  /** What the outbound half has sent when it is done, whatever the other half did meanwhile. */
  lemma ScheduledSends(s: Pair, order: seq<bool>, chunks: seq<Bytes>, stream: nat, writes: Writes, sends: nat -> bool)
    requires Chunking(chunks) && AllSent(sends) && s.outbound == StartOutbound(Reading(chunks))
    requires Schedule(s, order, stream, writes, sends).outbound.done.Some?
    ensures var out := Schedule(s, order, stream, writes, sends).outbound;
            && out.sent == DataMessages(stream, chunks) + [CloseMessage(stream)]
            && out.done == Some(Finished(|Flat(chunks)|))
  {
    InterleavingIrrelevant(s, order, stream, writes, sends);
    OutboundSends(s.outbound, chunks, stream, sends);
    assert [] + DataMessages(stream, chunks) == DataMessages(stream, chunks);
  }

  /** What the inbound half has written when it is done, whatever the other half did meanwhile. */
  lemma ScheduledDelivers(s: Pair, order: seq<bool>, answers: seq<Received>, stream: nat, writes: Writes,
                          sends: nat -> bool)
    requires AllWritten(writes) && s.inbound == StartInbound(answers)
    requires Schedule(s, order, stream, writes, sends).inbound.done.Some?
    ensures var got := Schedule(s, order, stream, writes, sends).inbound;
            && got.written == Delivered(answers) && Ending(answers).Some?
            && got.done == Some(if Ending(answers).value then Finished(|got.written|) else TransportError)
            && (got.shut <==> Ending(answers).value)
  {
    InterleavingIrrelevant(s, order, stream, writes, sends);
    InboundDelivers(s.inbound, writes);
    assert [] + Delivered(answers) == Delivered(answers);
  }

  /**
   `copy_bidirectional` under every interleaving: when both halves are done and no write or send failed,
   all data of the messages was written, all data read was sent in order behind one another and closed
   once, and the result is the pair of the two lengths.
   */
  lemma BidirectionalCopy(order: seq<bool>, answers: seq<Received>, chunks: seq<Bytes>, stream: nat, writes: Writes,
                          sends: nat -> bool)
    requires Chunking(chunks) && AllSent(sends) && AllWritten(writes)
    requires Finishes(
               Schedule(Pair(StartInbound(answers), StartOutbound(Reading(chunks))), order, stream, writes, sends))
    ensures var s :=
              Schedule(Pair(StartInbound(answers), StartOutbound(Reading(chunks))), order, stream, writes, sends);
            && s.inbound.written == Delivered(answers)
            && s.outbound.sent == DataMessages(stream, chunks) + [CloseMessage(stream)]
            && Ending(answers).Some? && (s.inbound.shut <==> Ending(answers).value)
            && JoinResult(s) == if Ending(answers).value then Ok((|Delivered(answers)|, |Flat(chunks)|))
                                else Err(TransportError)
  {
    var s := Pair(StartInbound(answers), StartOutbound(Reading(chunks)));
    ScheduledSends(s, order, chunks, stream, writes, sends);
    ScheduledDelivers(s, order, answers, stream, writes, sends);
  }

  /** The result when reads or sends fail: the error of the inbound half, then that of the outbound half. */
  lemma BidirectionalFailure(
    order: seq<bool>, answers: seq<Received>, chunks: seq<Bytes>, last: RemoteRead, k: nat, stream: nat,
    writes: Writes, sends: nat -> bool)
    requires Chunking(chunks) && (last.ReadError? || last == Incoming([])) && SendsUpTo(sends, 0, k, |chunks|)
    requires AllWritten(writes)
    requires Finishes(Schedule(Pair(StartInbound(answers), StartOutbound(ReadingThen(chunks, last))),
                               order, stream, writes, sends))
    ensures var s := Schedule(Pair(StartInbound(answers), StartOutbound(ReadingThen(chunks, last))),
                              order, stream, writes, sends);
            && s.inbound.written == Delivered(answers) && Ending(answers).Some?
            && DataMessages(stream, chunks[..k]) <= s.outbound.sent
            && JoinResult(s) == if !Ending(answers).value then Err(TransportError)
                                else if k < |chunks| then Err(TransportError)
                                else if last.ReadError? then Err(IoError)
                                else Ok((|Delivered(answers)|, |Flat(chunks)|))
  {
    var s := Pair(StartInbound(answers), StartOutbound(ReadingThen(chunks, last)));
    InterleavingIrrelevant(s, order, stream, writes, sends);
    ScheduledDelivers(s, order, answers, stream, writes, sends);
    OutboundStops(s.outbound, chunks, last, k, stream, sends);
    assert [] + DataMessages(stream, chunks[..k]) == DataMessages(stream, chunks[..k]);
  }

  function Turns(order: seq<bool>, half: bool): nat {
    if order == [] then 0 else (if order[0] == half then 1 else 0) + Turns(order[1..], half)
  }

  lemma {:induction false} EnoughTurns(s: Pair, order: seq<bool>, stream: nat, writes: Writes, sends: nat -> bool)
    ensures var s' := Schedule(s, order, stream, writes, sends);
            && (Turns(order, true) >= |s.inbound.rest| ==> !InboundActive(s'.inbound))
            && (Turns(order, false) >= |s.outbound.rest| ==> !OutboundActive(s'.outbound))
    decreases |order|
  {
    if order != [] {
      var next := Turn(s, order[0], stream, writes, sends);
      EnoughTurns(next, order[1..], stream, writes, sends);
      if order[0] && !InboundActive(s.inbound) {
        InboundRests(s, order, stream, writes, sends);
      }
      if !order[0] && !OutboundActive(s.outbound) {
        OutboundRests(s, order, stream, writes, sends);
      }
    }
  }

  lemma {:induction false} InboundRests(s: Pair, order: seq<bool>, stream: nat, writes: Writes, sends: nat -> bool)
    requires !InboundActive(s.inbound)
    ensures Schedule(s, order, stream, writes, sends).inbound == s.inbound
    decreases |order|
  {
    if order != [] {
      InboundRests(Turn(s, order[0], stream, writes, sends), order[1..], stream, writes, sends);
    }
  }

  lemma {:induction false} OutboundRests(s: Pair, order: seq<bool>, stream: nat, writes: Writes, sends: nat -> bool)
    requires !OutboundActive(s.outbound)
    ensures Schedule(s, order, stream, writes, sends).outbound == s.outbound
    decreases |order|
  {
    if order != [] {
      OutboundRests(Turn(s, order[0], stream, writes, sends), order[1..], stream, writes, sends);
    }
  }

  /** Once each half has had a turn for everything it reads, both are done. */
  lemma CopyFinishes(order: seq<bool>, answers: seq<Received>, chunks: seq<Bytes>, stream: nat, writes: Writes,
                     sends: nat -> bool)
    requires Chunking(chunks) && AllSent(sends) && AllWritten(writes) && Ending(answers).Some?
    requires Turns(order, true) >= |answers| && Turns(order, false) > |chunks|
    ensures Finishes(
              Schedule(Pair(StartInbound(answers), StartOutbound(Reading(chunks))), order, stream, writes, sends))
  {
    var s := Pair(StartInbound(answers), StartOutbound(Reading(chunks)));
    EnoughTurns(s, order, stream, writes, sends);
    InterleavingIrrelevant(s, order, stream, writes, sends);
    InboundDelivers(s.inbound, writes);
    OutboundSends(s.outbound, chunks, stream, sends);
  }

  /**
   The messages one forwarder sends, handed to another as messages, reproduce the byte stream and its
   length, whatever else either forwarder does and however its halves interleave.
   */
  lemma MessageRoundTrip(a: Pair, orderA: seq<bool>, b: Pair, orderB: seq<bool>, chunks: seq<Bytes>,
                         streamA: nat, streamB: nat, writesA: Writes, writesB: Writes,
                         sendsA: nat -> bool, sendsB: nat -> bool)
    requires Chunking(chunks) && AllSent(sendsA) && AllWritten(writesB)
    requires a.outbound == StartOutbound(Reading(chunks))
    requires var sender := Schedule(a, orderA, streamA, writesA, sendsA);
             && sender.outbound.done.Some?
             && b.inbound == StartInbound(Messages(sender.outbound.sent))
    requires Schedule(b, orderB, streamB, writesB, sendsB).inbound.done.Some?
    ensures var got := Schedule(b, orderB, streamB, writesB, sendsB).inbound;
            got.written == Flat(chunks) && got.done == Some(Finished(|Flat(chunks)|)) && got.shut
  {
    var sent := DataMessages(streamA, chunks) + [CloseMessage(streamA)];
    ScheduledSends(a, orderA, chunks, streamA, writesA, sendsA);
    var tail := [Message(CloseMessage(streamA))];
    assert Messages(sent) == Messages(DataMessages(streamA, chunks)) + tail;
    DeliveredData(streamA, chunks, tail);
    assert Flat(chunks) + [] == Flat(chunks);
    ScheduledDelivers(b, orderB, Messages(sent), streamB, writesB, sendsB);
  }

  /** The octets that reach the remote side when a write stops after `n` of them. */
  function Part(data: Bytes, n: nat): Bytes {
    if n < |data| then data[..n] else data
  }

  /** Data messages with the given chunks, and what follows them. */
  function DataThen(stream: nat, chunks: seq<Bytes>, rest: seq<Received>): seq<Received> {
    if chunks == [] then rest else [Message(DataMessage(stream, chunks[0]))] + DataThen(stream, chunks[1..], rest)
  }

  lemma {:induction false} DataThenIs(stream: nat, chunks: seq<Bytes>, rest: seq<Received>)
    ensures DataThen(stream, chunks, rest) == Messages(DataMessages(stream, chunks)) + rest
    decreases |chunks|
  {
    if chunks == [] {
      assert Messages(DataMessages(stream, chunks)) == [];
    } else {
      DataThenIs(stream, chunks[1..], rest);
      MessagesHead(stream, chunks, rest);
    }
  }

  /** The half waits with the chunks queued, and the write of chunk `k` is the first to fail. */
  ghost predicate WillBreak(
    h: Inbound, stream: nat, chunks: seq<Bytes>, k: nat, at: nat, n: nat, rest: seq<Received>, writes: Writes)
  {
    && h.done.None? && !h.shut && h.rest == DataThen(stream, chunks, rest) && Chunking(chunks)
    && k < |chunks| && at == h.writes + k && WriteStops(writes, h.writes, at, n)
  }

  lemma {:induction false} WritesBreak(
    h: Inbound, stream: nat, chunks: seq<Bytes>, k: nat, at: nat, n: nat, rest: seq<Received>, writes: Writes)
    requires WillBreak(h, stream, chunks, k, at, n, rest, writes)
    ensures k < |chunks| && BreaksAt(h, chunks, k, n, InboundEnd(h, writes))
    decreases k
  {
    if k == 0 {
      StopsNow(h, stream, chunks, at, n, rest, writes);
    } else {
      var next := StopsLaterBy(h, stream, chunks, k, at, n, rest, writes);
      WritesBreak(next, stream, chunks[1..], k - 1, at, n, rest, writes);
      BreaksLater(h, next, chunks, k, n, InboundEnd(next, writes));
    }
  }

  lemma StopsNow(h: Inbound, stream: nat, chunks: seq<Bytes>, at: nat, n: nat, rest: seq<Received>,
                 writes: Writes)
    requires WillBreak(h, stream, chunks, 0, at, n, rest, writes)
    ensures BreaksAt(h, chunks, 0, n, InboundEnd(h, writes))
  {
    ChunkingTail(chunks);
    WriteFails(h, stream, chunks[0], DataThen(stream, chunks[1..], rest), n, writes);
    BreaksAtOnce(h, chunks, n, InboundEnd(h, writes));
  }

  lemma StopsLaterBy(
    h: Inbound, stream: nat, chunks: seq<Bytes>, k: nat, at: nat, n: nat, rest: seq<Received>, writes: Writes)
    returns (next: Inbound)
    requires k > 0 && WillBreak(h, stream, chunks, k, at, n, rest, writes)
    ensures WillBreak(next, stream, chunks[1..], k - 1, at, n, rest, writes)
    ensures next.written == h.written + chunks[0] && InboundEnd(h, writes) == InboundEnd(next, writes)
  {
    ChunkingTail(chunks);
    WriteStopsLater(writes, h.writes, at, n);
    next := WritesOne(h, stream, chunks[0], DataThen(stream, chunks[1..], rest), writes);
  }

  /** Write number `at` fails after `n` octets, and those from `first` to there succeed. */
  ghost predicate WriteStops(writes: Writes, first: nat, at: nat, n: nat) {
    writes(at) == Some(n) && forall i: nat | first <= i < at :: writes(i).None?
  }

  lemma WriteStopsLater(writes: Writes, first: nat, at: nat, n: nat)
    requires first < at && WriteStops(writes, first, at, n)
    ensures WriteStops(writes, first + 1, at, n) && writes(first).None?
  {
  }

  ghost predicate BreaksAt(h: Inbound, chunks: seq<Bytes>, k: nat, n: nat, end: Inbound)
    requires k < |chunks|
  {
    && end.done == Some(IoError) && !end.shut
    && end.written == h.written + Flat(chunks[..k]) + Part(chunks[k], n)
  }

  lemma BreaksAtOnce(h: Inbound, chunks: seq<Bytes>, n: nat, end: Inbound)
    requires chunks != [] && end.done == Some(IoError) && !end.shut && end.written == h.written + Part(chunks[0], n)
    ensures BreaksAt(h, chunks, 0, n, end)
  {
    assert Flat(chunks[..0]) == [] && h.written + [] == h.written;
  }

  lemma BreaksLater(h: Inbound, next: Inbound, chunks: seq<Bytes>, k: nat, n: nat, end: Inbound)
    requires 0 < k < |chunks| && BreaksAt(next, chunks[1..], k - 1, n, end) && next.written == h.written + chunks[0]
    ensures BreaksAt(h, chunks, k, n, end)
  {
    assert chunks[..k][1..] == chunks[1..][..k - 1];
    Regroup(h.written, chunks[0], Flat(chunks[1..][..k - 1]));
  }

  lemma WriteFails(h: Inbound, stream: nat, data: Bytes, tail: seq<Received>, n: nat, writes: Writes)
    requires h.done.None? && !h.shut && data != [] && writes(h.writes) == Some(n)
    requires h.rest == [Message(DataMessage(stream, data))] + tail
    ensures var end := InboundEnd(h, writes);
            end.done == Some(IoError) && !end.shut && end.written == h.written + Part(data, n)
  {
    var end := InboundStep(h, writes);
    assert data[..|data|] == data;
    assert InboundEnd(end, writes) == end;
  }

  lemma WritesOne(h: Inbound, stream: nat, data: Bytes, tail: seq<Received>, writes: Writes) returns (next: Inbound)
    requires h.done.None? && !h.shut && data != [] && writes(h.writes).None?
    requires h.rest == [Message(DataMessage(stream, data))] + tail
    ensures next.rest == tail && next.done.None? && !next.shut && next.writes == h.writes + 1
    ensures next.written == h.written + data && InboundEnd(h, writes) == InboundEnd(next, writes)
  {
    next := InboundStep(h, writes);
    assert next.rest == tail;
  }

  /** A failed write ends the inbound half in an I/O error, with everything before it and a part of its data written. */
  lemma InboundStops(
    h: Inbound, stream: nat, chunks: seq<Bytes>, k: nat, n: nat, rest: seq<Received>, writes: Writes)
    requires h.done.None? && !h.shut && h.rest == Messages(DataMessages(stream, chunks)) + rest && Chunking(chunks)
    requires k < |chunks| && WriteStops(writes, h.writes, h.writes + k, n)
    ensures BreaksAt(h, chunks, k, n, InboundEnd(h, writes))
  {
    DataThenIs(stream, chunks, rest);
    WritesBreak(h, stream, chunks, k, h.writes + k, n, rest, writes);
  }

  /** What ends a stream of data: a close, an empty data message and the end of the stream cleanly, an error not. */
  lemma EndingMeans(stream: nat, chunks: seq<Bytes>, last: Received, rest: seq<Received>)
    requires Chunking(chunks)
    ensures var answers := Messages(DataMessages(stream, chunks)) + ([last] + rest);
            && (last == EndOfStream || last == Error || (last.Message? && last.msg.ReverseClose?)
                || (last.Message? && last.msg.ReverseData? && last.msg.data == []) ==>
                  Delivered(answers) == Flat(chunks) && Ending(answers) == Some(last != Error))
            && (last.Message? && !last.msg.ReverseClose? && !last.msg.ReverseData? ==>
                  Delivered(answers) == Flat(chunks) + Delivered(rest) && Ending(answers) == Ending(rest))
  {
    DeliveredData(stream, chunks, [last] + rest);
    assert ([last] + rest)[1..] == rest;
    assert Flat(chunks) + [] == Flat(chunks);
  }

  // ----- over the wire

  lemma SmallPowers()
    ensures Pow256(4) == 0x1_0000_0000 && Pow256(8) > 0x1_0000_0000
  {
    assert Pow256(2) == 65536;
    assert Pow256(4) == 256 * (256 * Pow256(2));
    assert Pow256(6) == 256 * (256 * Pow256(4));
    assert Pow256(8) == 256 * (256 * Pow256(6));
  }

  lemma DataSendable(stream: nat, data: Bytes)
    requires stream < 0x1_0000_0000 && 1 <= |data| <= BUFFER_SIZE
    ensures Sendable(DataMessage(stream, data)) && !LosesField(DataMessage(stream, data))
  {
    SmallPowers();
    ThreeItems(Item.Octets([]), Num32(stream), Item.Octets(data));
  }

  lemma CloseSendable(stream: nat)
    requires stream < 0x1_0000_0000
    ensures Sendable(CloseMessage(stream)) && LosesField(CloseMessage(stream))
  {
    SmallPowers();
    var a, b := Item.Octets([]), Num32(stream);
    assert Items(CloseMessage(stream))[..2] == [a, b];
    TwoItems(a, b);
  }

  lemma WireAnswers(chunks: seq<Bytes>, stream: nat, tail: Bytes, inbox: seq<Read>)
    requires Chunking(chunks) && stream < 0x1_0000_0000
    requires Arriving(inbox) == Frames(DataMessages(stream, chunks) + [CloseMessage(stream)]) + tail
    ensures AnswersTo(inbox) == Messages(DataMessages(stream, chunks)) + [Error]
  {
    var ms, close := DataMessages(stream, chunks), CloseMessage(stream);
    forall m | m in ms ensures Sendable(m) && !LosesField(m) {
      var i :| 0 <= i < |ms| && ms[i] == m;
      assert chunks[i] in chunks;
      DataSendable(stream, chunks[i]);
    }
    CloseSendable(stream);
    FramesAppend(ms, close);
    Regroup(Frames(ms), Wire(close), tail);
    BareCloseIsAnError(ms, close, tail, inbox);
  }

  /**
   End to end, for every cut of the remote stream into reads, of the QUIC stream into chunks, and every
   interleaving in either forwarder: what one sends, put on the wire and read by another, arrives exactly
   and in order, but the close behind it cannot be decoded, so whatever follows, the receiving half ends in a
   transport error and does not shut its write side down.
   */
  lemma WireRoundTrip(a: Pair, orderA: seq<bool>, b: Pair, orderB: seq<bool>, chunks: seq<Bytes>,
                      tail: Bytes, inbox: seq<Read>, streamA: nat, streamB: nat, writesA: Writes, writesB: Writes,
                      sendsA: nat -> bool, sendsB: nat -> bool)
    requires Chunking(chunks) && streamA < 0x1_0000_0000 && AllSent(sendsA) && AllWritten(writesB)
    requires a.outbound == StartOutbound(Reading(chunks))
    requires b.inbound == StartInbound(AnswersTo(inbox))
    requires var sender := Schedule(a, orderA, streamA, writesA, sendsA);
             sender.outbound.done.Some? && Arriving(inbox) == Frames(sender.outbound.sent) + tail
    requires Schedule(b, orderB, streamB, writesB, sendsB).inbound.done.Some?
    ensures var got := Schedule(b, orderB, streamB, writesB, sendsB).inbound;
            got.written == Flat(chunks) && got.done == Some(TransportError) && !got.shut
  {
    var ms := DataMessages(streamA, chunks);
    ScheduledSends(a, orderA, chunks, streamA, writesA, sendsA);
    WireAnswers(chunks, streamA, tail, inbox);
    DeliveredData(streamA, chunks, [Error]);
    assert Flat(chunks) + [] == Flat(chunks);
    ScheduledDelivers(b, orderB, AnswersTo(inbox), streamB, writesB, sendsB);
  }
}
