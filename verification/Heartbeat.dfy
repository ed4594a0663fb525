/**
 The control stream between an agent and the agent-server: registration, then the agent's pings and
 the server's echo, over two FIFO directions (section 2.2 of RFC 9000), in any interleaving.
 */
module Heartbeat {
  import opened Base
  import opened TunnelMessages

  datatype AgentPhase = Registering | Up | AgentDown

  datatype ServerPhase = AwaitingFirst | Echoing | ServerDown

  /** `pings` and `pongs` are what the agent sent and received; `lost` is a ping whose pong could not be sent. */
  datatype State = State(
    agent: AgentPhase, server: ServerPhase, toServer: seq<Message>, toAgent: seq<Message>,
    pings: seq<nat>, pongs: seq<nat>, lost: seq<nat>)

  /** The agent has opened the control stream and sent its registration. */
  function Opened(register: Message): State {
    State(Registering, AwaitingFirst, [register], [], [], [], [])
  }

  /** Environment: the clock, the running flag, whether a send succeeds, access control, and token validity. */
  datatype Event =
    | Tick(timestamp: nat, running: bool, ok: bool)
    | AgentReceives(ok: bool)
    | ServerReceives(allowed: bool, ok: bool)
    | AgentBreaks
    | ServerBreaks

  // ----- the agent

  /** The answer to the relay's token question; what it is depends on the configured secret. */
  function TokenAnswer(token: Option<Text>, valid: Option<Text> -> bool): Message {
    if valid(token) then ValidateAgentTokenOk else ValidateAgentTokenReject([])
  }

  function AgentAnswers(s: State, reply: Message, ok: bool): State {
    if ok then s.(toServer := s.toServer + [reply]) else s.(agent := AgentDown)
  }

  /** The agent takes the next message of the control stream. */
  function AgentTakes(s: State, m: Message, ok: bool, valid: Option<Text> -> bool): State {
    match s.agent
    case Registering => s.(agent := if m.AgentRegistered? then Up else AgentDown)
    case Up => (
      match m
      case Ping(t) => AgentAnswers(s, Pong(t), ok)
      case Pong(t) => s.(pongs := s.pongs + [t])
      case ValidateAgentToken(token) => AgentAnswers(s, TokenAnswer(token, valid), ok)
      case Disconnect(_) => s.(agent := AgentDown)
      case _ => s)
    case AgentDown => s
  }

  // ----- the server

  function ServerTakes(s: State, m: Message, allowed: bool, ok: bool): State {
    match s.server
    case AwaitingFirst =>
      if m.AgentRegister? && allowed then
        if ok then s.(server := Echoing, toAgent := s.toAgent + [AgentRegistered(m.agentId)])
        else s.(server := ServerDown)
      else
        s.(server := ServerDown, toAgent := s.toAgent + if ok then [AgentRejected([])] else [])
    case Echoing => (
      match m
      case Ping(t) =>
        if ok then s.(toAgent := s.toAgent + [Pong(t)]) else s.(server := ServerDown, lost := s.lost + [t])
      case Disconnect(_) => s.(server := ServerDown)
      case _ => s)
    case ServerDown => s
  }

  /** One step; None when it is not enabled. */
  function Apply(s: State, e: Event, valid: Option<Text> -> bool): Option<State> {
    match e
    case Tick(t, running, ok) =>
      if !s.agent.Up? then None
      else if !running then Some(s.(agent := AgentDown))
      else if ok then Some(s.(toServer := s.toServer + [Ping(t)], pings := s.pings + [t]))
      else Some(s.(agent := AgentDown))
    case AgentReceives(ok) =>
      if s.agent.AgentDown? || s.toAgent == [] then None
      else Some(AgentTakes(s.(toAgent := s.toAgent[1..]), s.toAgent[0], ok, valid))
    case ServerReceives(allowed, ok) =>
      if s.server.ServerDown? || s.toServer == [] then None
      else Some(ServerTakes(s.(toServer := s.toServer[1..]), s.toServer[0], allowed, ok))
    case AgentBreaks => Some(s.(agent := AgentDown))
    case ServerBreaks => Some(s.(server := ServerDown))
  }

  ghost predicate IsRun(ss: seq<State>, es: seq<Event>, valid: Option<Text> -> bool) {
    && |ss| == |es| + 1
    && (exists m: Message :: m.AgentRegister? && ss[0] == Opened(m))
    && forall i | 0 <= i < |es| :: Apply(ss[i], es[i], valid) == Some(ss[i + 1])
  }

  // ----- invariant

  function PingTimes(ms: seq<Message>): seq<nat> {
    if ms == [] then [] else (if ms[0].Ping? then [ms[0].timestamp] else []) + PingTimes(ms[1..])
  }

  function PongTimes(ms: seq<Message>): seq<nat> {
    if ms == [] then [] else (if ms[0].Pong? then [ms[0].timestamp] else []) + PongTimes(ms[1..])
  }

  predicate AllPings(ms: seq<Message>) {
    forall m | m in ms :: m.Ping?
  }

  predicate AllPongs(ms: seq<Message>) {
    forall m | m in ms :: m.Pong?
  }

  /** What each direction can hold at each stage of the session. */
  ghost predicate InStep(s: State) {
    && (s.agent.Up? ==> AllPongs(s.toAgent) && !s.server.AwaitingFirst?)
    && (s.server.Echoing? ==> AllPings(s.toServer))
    && (s.server.AwaitingFirst? ==>
          !s.agent.Up? && s.toAgent == [] && s.pings == [] && |s.toServer| == 1 && s.toServer[0].AgentRegister?)
    && (s.agent.Registering? ==>
          && s.pings == [] && s.pongs == []
          && |s.toAgent| <= 1
          && (forall m | m in s.toAgent :: m.AgentRegistered? || m.AgentRejected?)
          && (s.server.Echoing? ==> |s.toAgent| == 1 && s.toAgent[0].AgentRegistered?))
    && (s.agent.Up? && s.server.Echoing? ==> s.lost == [])
    && (s.lost != [] ==> s.server.ServerDown?)
  }

  /** Pongs received, pongs in flight, a ping lost with the session and pings in flight are the pings sent, in order. */
  ghost predicate Conserved(s: State) {
    s.pongs + PongTimes(s.toAgent) + s.lost + PingTimes(s.toServer) == s.pings
  }

  ghost predicate Inv(s: State) {
    InStep(s) && Conserved(s)
  }

  lemma {:induction false} PingTimesAppend(ms: seq<Message>, m: Message)
    ensures PingTimes(ms + [m]) == PingTimes(ms) + if m.Ping? then [m.timestamp] else []
  {
    if ms == [] {
      assert ms + [m] == [m] && PingTimes([m][1..]) == [];
    } else {
      PingTimesAppend(ms[1..], m);
      assert (ms + [m])[1..] == ms[1..] + [m];
    }
  }

  lemma {:induction false} PongTimesAppend(ms: seq<Message>, m: Message)
    ensures PongTimes(ms + [m]) == PongTimes(ms) + if m.Pong? then [m.timestamp] else []
  {
    if ms == [] {
      assert ms + [m] == [m] && PongTimes([m][1..]) == [];
    } else {
      PongTimesAppend(ms[1..], m);
      assert (ms + [m])[1..] == ms[1..] + [m];
    }
  }

  lemma TickKeepsInv(s: State, e: Event, valid: Option<Text> -> bool)
    requires Inv(s) && e.Tick? && Apply(s, e, valid).Some?
    ensures Inv(Apply(s, e, valid).value)
  {
    PingTimesAppend(s.toServer, Ping(e.timestamp));
    var before := s.pongs + PongTimes(s.toAgent) + s.lost;
    assert before + (PingTimes(s.toServer) + [e.timestamp]) == before + PingTimes(s.toServer) + [e.timestamp];
  }

  /** Moving the head of a queue of pongs to the received ones keeps their concatenation. */
  lemma TakePong(pongs: seq<nat>, ms: seq<Message>)
    requires ms != [] && ms[0].Pong?
    ensures pongs + [ms[0].timestamp] + PongTimes(ms[1..]) == pongs + PongTimes(ms)
  {
  }

  lemma AgentTakesInStep(s: State, e: Event, valid: Option<Text> -> bool)
    requires InStep(s) && e.AgentReceives? && Apply(s, e, valid).Some?
    ensures InStep(Apply(s, e, valid).value)
  {
    assert s.toAgent[0] in s.toAgent;
  }

  lemma AgentReceivesKeepsInv(s: State, e: Event, valid: Option<Text> -> bool)
    requires Inv(s) && e.AgentReceives? && Apply(s, e, valid).Some?
    ensures Inv(Apply(s, e, valid).value)
  {
    AgentTakesInStep(s, e, valid);
    assert s.toAgent[0] in s.toAgent;
    if s.agent.Up? {
      TakePong(s.pongs, s.toAgent);
    } else {
      assert PongTimes(s.toAgent) == PongTimes(s.toAgent[1..]);
    }
  }

  lemma EchoConserves(s: State, ok: bool)
    requires Inv(s) && s.server.Echoing? && s.toServer != []
    ensures Conserved(ServerTakes(s.(toServer := s.toServer[1..]), s.toServer[0], true, ok))
  {
    assert s.toServer[0] in s.toServer;
    var t := s.toServer[0].timestamp;
    PongTimesAppend(s.toAgent, Pong(t));
    assert s.lost == [];
    var got, rest := s.pongs + PongTimes(s.toAgent), PingTimes(s.toServer[1..]);
    assert got + [] + ([t] + rest) == got + [t] + [] + rest;
    assert got + [] + ([t] + rest) == got + ([] + [t]) + rest;
    assert s.pongs + (PongTimes(s.toAgent) + [t]) == got + [t];
  }

  lemma ServerReceivesKeepsInv(s: State, e: Event, valid: Option<Text> -> bool)
    requires Inv(s) && e.ServerReceives? && Apply(s, e, valid).Some?
    ensures Inv(Apply(s, e, valid).value)
  {
    assert s.toServer[0] in s.toServer;
    if s.server.Echoing? {
      EchoConserves(s, e.ok);
    } else {
      PongTimesAppend(s.toAgent, AgentRejected([]));
      PongTimesAppend(s.toAgent, AgentRegistered(s.toServer[0].agentId));
      assert s.toServer[1..] == [];
    }
  }

  lemma StepKeepsInv(s: State, e: Event, valid: Option<Text> -> bool)
    requires Inv(s) && Apply(s, e, valid).Some?
    ensures Inv(Apply(s, e, valid).value)
  {
    match e
    case Tick(_, _, _) => TickKeepsInv(s, e, valid);
    case AgentReceives(_) => AgentReceivesKeepsInv(s, e, valid);
    case ServerReceives(_, _) => ServerReceivesKeepsInv(s, e, valid);
    case AgentBreaks =>
    case ServerBreaks =>
  }

  lemma {:induction false} RunKeepsInv(ss: seq<State>, es: seq<Event>, valid: Option<Text> -> bool, i: nat)
    requires IsRun(ss, es, valid) && i < |ss|
    ensures Inv(ss[i])
  {
    if i > 0 {
      RunKeepsInv(ss, es, valid, i - 1);
      assert Apply(ss[i - 1], es[i - 1], valid) == Some(ss[i - 1 + 1]);
      StepKeepsInv(ss[i - 1], es[i - 1], valid);
    }
  }

  // ----- main results

  /**
   While both ends are up, in every interleaving, the pongs received, then the pongs in flight, then the
   pings in flight, are exactly the pings sent: every pong carries the right timestamp in order, and none
   is lost or duplicated.
   */
  lemma EchoIsExact(ss: seq<State>, es: seq<Event>, valid: Option<Text> -> bool, i: nat)
    requires IsRun(ss, es, valid) && i < |ss| && ss[i].agent.Up? && ss[i].server.Echoing?
    ensures ss[i].pongs + PongTimes(ss[i].toAgent) + PingTimes(ss[i].toServer) == ss[i].pings
    ensures |ss[i].pongs| + |ss[i].toAgent| + |ss[i].toServer| == |ss[i].pings|
  {
    RunKeepsInv(ss, es, valid, i);
    var s := ss[i];
    assert s.pongs + PongTimes(s.toAgent) + [] == s.pongs + PongTimes(s.toAgent);
    AllPongsCounted(s.toAgent);
    AllPingsCounted(s.toServer);
  }

  lemma {:induction false} AllPongsCounted(ms: seq<Message>)
    requires AllPongs(ms)
    ensures |PongTimes(ms)| == |ms|
  {
    if ms != [] {
      assert ms[0] in ms;
      AllPongsCounted(ms[1..]);
    }
  }

  lemma {:induction false} AllPingsCounted(ms: seq<Message>)
    requires AllPings(ms)
    ensures |PingTimes(ms)| == |ms|
  {
    if ms != [] {
      assert ms[0] in ms;
      AllPingsCounted(ms[1..]);
    }
  }

  /** Whatever breaks and whenever, the pongs the agent has received are a prefix of the pings it sent. */
  lemma PongsArePrefix(ss: seq<State>, es: seq<Event>, valid: Option<Text> -> bool, i: nat)
    requires IsRun(ss, es, valid) && i < |ss|
    ensures ss[i].pongs <= ss[i].pings
  {
    RunKeepsInv(ss, es, valid, i);
    var s := ss[i];
    var rest := PongTimes(s.toAgent) + s.lost + PingTimes(s.toServer);
    assert s.pings == s.pongs + rest;
  }

  /** Neither end ever meets a message it would call unexpected once the session is up. */
  lemma NothingUnexpected(ss: seq<State>, es: seq<Event>, valid: Option<Text> -> bool, i: nat)
    requires IsRun(ss, es, valid) && i < |ss|
    ensures ss[i].agent.Up? && ss[i].toAgent != [] ==> ss[i].toAgent[0].Pong?
    ensures ss[i].server.Echoing? && ss[i].toServer != [] ==> ss[i].toServer[0].Ping?
    ensures ss[i].server.AwaitingFirst? && ss[i].toServer != [] ==> ss[i].toServer[0].AgentRegister?
  {
    RunKeepsInv(ss, es, valid, i);
    assert ss[i].toAgent != [] ==> ss[i].toAgent[0] in ss[i].toAgent;
    assert ss[i].toServer != [] ==> ss[i].toServer[0] in ss[i].toServer;
  }

  /** A registration that is allowed and whose answer gets through brings both ends up. */
  lemma AllowedComesUp(register: Message, valid: Option<Text> -> bool)
    requires register.AgentRegister?
    ensures var s1 := Apply(Opened(register), ServerReceives(true, true), valid);
            && s1.Some? && s1.value.toAgent == [AgentRegistered(register.agentId)]
            && var s2 := Apply(s1.value, AgentReceives(true), valid);
               s2.Some? && s2.value.agent.Up? && s2.value.server.Echoing?
  {
  }

  /** Every tick of a running agent that can send puts one ping with its time on the way. */
  lemma TickSendsPing(s: State, t: nat, valid: Option<Text> -> bool)
    requires s.agent.Up?
    ensures Apply(s, Tick(t, true, true), valid) == Some(s.(toServer := s.toServer + [Ping(t)], pings := s.pings + [t]))
  {
  }

  /** The server takes the registration at step `j`, allows it, and its answer goes out. */
  ghost predicate Admits(ss: seq<State>, es: seq<Event>, j: nat) {
    j < |es| && j < |ss| && ss[j].server.AwaitingFirst? && es[j] == ServerReceives(true, true)
  }

  ghost predicate AdmittedBefore(ss: seq<State>, es: seq<Event>, i: nat) {
    exists j: nat | j < i :: Admits(ss, es, j)
  }

  /** Traces of an admission. */
  ghost predicate Admitted(s: State) {
    s.server.Echoing? || s.agent.Up? || (exists m | m in s.toAgent :: m.AgentRegistered?)
  }

  lemma AdmittedBy(s: State, e: Event, valid: Option<Text> -> bool)
    requires Apply(s, e, valid).Some? && Admitted(Apply(s, e, valid).value) && !Admitted(s)
    ensures s.server.AwaitingFirst? && e == ServerReceives(true, true)
  {
    if s.toAgent != [] {
      assert s.toAgent[0] in s.toAgent;
    }
  }

  /** Only a registration that was allowed, and whose answer could be sent, brings the session up on either end. */
  lemma {:induction false} UpOnlyIfAllowed(ss: seq<State>, es: seq<Event>, valid: Option<Text> -> bool, i: nat)
    requires IsRun(ss, es, valid) && i < |ss| && Admitted(ss[i])
    ensures AdmittedBefore(ss, es, i)
  {
    if i > 0 {
      assert Apply(ss[i - 1], es[i - 1], valid) == Some(ss[i - 1 + 1]);
      if Admitted(ss[i - 1]) {
        UpOnlyIfAllowed(ss, es, valid, i - 1);
        var j: nat :| j < i - 1 && Admits(ss, es, j);
        assert j < i;
      } else {
        AdmittedBy(ss[i - 1], es[i - 1], valid);
        assert Admits(ss, es, i - 1);
      }
    }
  }

  /** A registration that is not allowed never brings either end up. */
  lemma RefusedNeverUp(ss: seq<State>, es: seq<Event>, valid: Option<Text> -> bool, j: nat, i: nat)
    requires IsRun(ss, es, valid) && j < i < |ss|
    requires ss[j].server.AwaitingFirst? && es[j].ServerReceives? && !es[j].allowed
    ensures !ss[i].server.Echoing? && !ss[i].agent.Up?
  {
    if ss[i].server.Echoing? || ss[i].agent.Up? {
      UpOnlyIfAllowed(ss, es, valid, i);
      var k: nat :| k < i && Admits(ss, es, k);
      OneFirst(ss, es, valid, if j < k then j else k, if j < k then k else j);
      assert false;
    }
  }

  /** The server leaves its first phase with the first message that it takes. */
  lemma {:induction false} OneFirst(ss: seq<State>, es: seq<Event>, valid: Option<Text> -> bool, j: nat, k: nat)
    requires IsRun(ss, es, valid) && j <= k < |es| && es[j].ServerReceives?
    ensures j < k ==> !ss[k].server.AwaitingFirst?
    decreases k
  {
    if j < k {
      OneFirst(ss, es, valid, j, k - 1);
      assert Apply(ss[k - 1], es[k - 1], valid) == Some(ss[k - 1 + 1]);
    }
  }
}
