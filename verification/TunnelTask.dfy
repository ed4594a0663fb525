/**
 `run_tunnel`: the reconnect loop of one tunnel task, cut at its awaits. The environment decides how
 a connect ends, when a connection is lost, and when the cancel message is queued; the tunnel task's own
 branches follow the loop.
 */
module TunnelTask {
  import opened Base
  import opened Backoff

  datatype TunnelError =
    | ConnectionError(msg: string)
    | ConfigError(msg: string)
    | AuthenticationFailed(msg: string)
    | NetworkError(msg: string)
    | ProtocolError(msg: string)
    | TunnelClosed(msg: string)

  predicate NonRecoverable(e: TunnelError) {
    e.AuthenticationFailed? || e.ConfigError?
  }

  datatype Status =
    | Starting
    | Connected(publicUrl: Option<string>)
    | Reconnecting(attempt: nat)
    | Failed(error: TunnelError)
    | Stopped

  datatype Pc =
    | Top
    | SetReconnecting
    | Sleeping
    | CheckCancel
    | ReadyToConnect
    | Connecting
    | SetConnected(url: Option<string>)
    | Waiting
    | Disconnecting
    | SetFailed(error: TunnelError)
    | AfterFailed(error: TunnelError)
    | CheckAfterFail
    | SetStopped
    | Done

  const U32_SIZE := 0x1_0000_0000

  /**
   One task. `queued` is its capacity-1 cancel channel. The rest is history: how many messages were
   ever sent, whether one was received, the failed connects since the last success and those before it,
   the connects begun after a message was sent, whether a connect ended in a non-recoverable error, and how the
   last connect ended.
   */
  datatype Run = Run(
    name: string, pc: Pc, attempt: nat, queued: bool,
    sent: nat, consumed: bool, fails: nat, prior: nat, late: nat, fatal: bool,
    last: Option<Input>)

  function NewRun(name: string): Run {
    Run(name, Top, 0, false, 0, false, 0, 0, 0, false, None)
  }

  /** What the environment contributes to a step. */
  datatype Input = Go | ConnectOk(url: Option<string>) | ConnectErr(error: TunnelError) | Lost | CancelWins

  datatype Effect = Effect(run: Run, status: Option<Status>)

  /** The cancel message arrives; a finished task has dropped its receiver. */
  function Send(r: Run): Run {
    if r.pc.Done? then r.(sent := r.sent + 1) else r.(queued := true, sent := r.sent + 1)
  }

  predicate HasRoom(r: Run) {
    r.pc.Done? || !r.queued
  }

  /** `try_recv`: takes the message if there is one. */
  function TryRecv(r: Run, ifTaken: Pc, ifEmpty: Pc): Run {
    if r.queued then r.(pc := ifTaken, queued := false, consumed := true) else r.(pc := ifEmpty)
  }

  /** One step of the tunnel task; None when the input does not fit. A step with a status updates the shared map. */
  function Act(r: Run, input: Input): Option<Effect> {
    match (r.pc, input)
    case (Top, Go) => Some(Effect(r.(pc := if Delay(r.attempt) > 0 then SetReconnecting else CheckCancel), None))
    case (SetReconnecting, Go) => Some(Effect(r.(pc := Sleeping), Some(Reconnecting(r.attempt))))
    case (Sleeping, Go) => Some(Effect(r.(pc := CheckCancel), None))
    case (CheckCancel, Go) => Some(Effect(TryRecv(r, SetStopped, ReadyToConnect), None))
    case (ReadyToConnect, Go) =>
      Some(Effect(r.(pc := Connecting, late := if r.sent > 0 then r.late + 1 else r.late), None))
    case (Connecting, ConnectOk(url)) =>
      Some(Effect(r.(pc := SetConnected(url), attempt := 0, fails := 0, prior := r.fails, last := Some(input)), None))
    case (Connecting, ConnectErr(e)) =>
      Some(Effect(r.(pc := SetFailed(e), fails := r.fails + 1, fatal := r.fatal || NonRecoverable(e),
                     last := Some(input)), None))
    case (SetConnected(url), Go) => Some(Effect(r.(pc := Waiting), Some(Connected(url))))
    case (Waiting, Lost) => Some(Effect(r.(pc := Top), None))
    case (Waiting, CancelWins) => if r.queued then Some(Effect(TryRecv(r, Disconnecting, Waiting), None)) else None
    case (Disconnecting, Go) => Some(Effect(r.(pc := SetStopped), None))
    case (SetFailed(e), Go) => Some(Effect(r.(pc := AfterFailed(e)), Some(Failed(e))))
    case (AfterFailed(e), Go) =>
      Some(Effect(if NonRecoverable(e) then r.(pc := Done)
                  else r.(pc := CheckAfterFail, attempt := (r.attempt + 1) % U32_SIZE), None))
    case (CheckAfterFail, Go) => Some(Effect(TryRecv(r, SetStopped, Top), None))
    case (SetStopped, Go) => Some(Effect(r.(pc := Done), Some(Stopped)))
    case _ => None
  }

  /** Connect attempts begin at this step. */
  predicate BeginsConnect(r: Run, input: Input) {
    r.pc.ReadyToConnect? && input.Go?
  }

  // ----- invariants of one task

  ghost predicate CancelOk(r: Run) {
    && r.sent <= 1
    && (r.queued ==> r.sent == 1 && !r.consumed)
    && (r.sent == 1 && !r.queued ==> r.consumed || r.pc.Done?)
    && (r.consumed ==> r.sent == 1)
    && (r.consumed ==> r.pc.Disconnecting? || r.pc.SetStopped? || r.pc.Done?)
    && (r.pc.Disconnecting? || r.pc.SetStopped? ==> r.consumed)
    && r.late <= 1
    && (r.late == 1 ==> r.sent == 1 && !r.pc.ReadyToConnect?)
  }

  ghost predicate FatalOk(r: Run) {
    match r.pc
    case SetFailed(e) => r.fatal == NonRecoverable(e) && r.last == Some(ConnectErr(e))
    case AfterFailed(e) => r.fatal == NonRecoverable(e) && r.last == Some(ConnectErr(e))
    case SetConnected(url) => !r.fatal && r.last == Some(ConnectOk(url))
    case Done => r.consumed != r.fatal
    case _ => !r.fatal
  }

  /** Failed connects that `reconnect_attempt` has yet to count. */
  function Uncounted(pc: Pc): nat {
    if pc.SetFailed? || pc.AfterFailed? then 1 else 0
  }

  /** `reconnect_attempt` counts the failed connects since the last success, in u32. */
  ghost predicate AttemptOk(r: Run) {
    r.fails >= Uncounted(r.pc) && (!r.pc.Done? ==> r.attempt == (r.fails - Uncounted(r.pc)) % U32_SIZE)
  }

  ghost predicate CountOk(r: Run) {
    && AttemptOk(r)
    && (r.pc.SetConnected? || r.pc.Waiting? || r.pc.Disconnecting? ==> r.fails == 0)
    && (r.pc.CheckAfterFail? ==> r.fails > 0)
    && (r.pc.SetReconnecting? || r.pc.Sleeping? ==> Delay(r.attempt) > 0)
  }

  ghost predicate Good(r: Run) {
    CancelOk(r) && FatalOk(r) && CountOk(r)
  }

  lemma NewRunGood(name: string)
    ensures Good(NewRun(name))
  {
  }

  lemma NextAttempt(fails: nat)
    ensures (fails % U32_SIZE + 1) % U32_SIZE == (fails + 1) % U32_SIZE
  {
  }

  /** Only two steps change the count: a success resets it, and a recoverable failure adds one. */
  lemma ActKeepsAttempt(r: Run, input: Input)
    requires AttemptOk(r) && Act(r, input).Some?
    ensures AttemptOk(Act(r, input).value.run)
  {
    var r' := Act(r, input).value.run;
    if r.pc.AfterFailed? {
      NextAttempt(r.fails - 1);
    } else if input.ConnectOk? {
      assert r'.attempt == 0 == r'.fails;
    } else {
      assert r'.attempt == r.attempt && r'.fails - Uncounted(r'.pc) == r.fails - Uncounted(r.pc);
    }
  }

  lemma ActKeepsCount(r: Run, input: Input)
    requires CountOk(r) && Act(r, input).Some?
    ensures CountOk(Act(r, input).value.run)
  {
    ActKeepsAttempt(r, input);
  }

  lemma ActKeepsCancel(r: Run, input: Input)
    requires CancelOk(r) && Act(r, input).Some?
    ensures CancelOk(Act(r, input).value.run)
  {
  }

  lemma ActKeepsGood(r: Run, input: Input)
    requires Good(r) && Act(r, input).Some?
    ensures Good(Act(r, input).value.run)
  {
    ActKeepsCancel(r, input);
    ActKeepsCount(r, input);
  }

  lemma SendKeepsGood(r: Run)
    requires Good(r) && r.sent == 0
    ensures Good(Send(r))
  {
  }

  // ----- the status a task has left in its handle

  /** The statuses that may stand in the handle of a task at a given point. */
  ghost predicate Fits(r: Run, status: Status) {
    FitsPoint(r, status) && FitsOutcome(r, status)
  }

  /** A URL or an error in the handle is that of the last connect, once its outcome has been stored. */
  ghost predicate FitsOutcome(r: Run, status: Status) {
    !r.pc.SetConnected? && !r.pc.SetFailed? ==>
      && (status.Connected? ==> r.last == Some(ConnectOk(status.publicUrl)))
      && (status.Failed? ==> r.last == Some(ConnectErr(status.error)))
  }

  ghost predicate FitsPoint(r: Run, status: Status) {
    match r.pc
    case Top => if r.fails == 0 then status.Starting? || status.Connected? else status.Failed?
    case SetReconnecting => status.Failed?
    case Sleeping => status == Reconnecting(r.attempt)
    case CheckCancel => Resting(r, status)
    case ReadyToConnect => Resting(r, status)
    case Connecting => Resting(r, status)
    case SetConnected(_) => !status.Stopped? && Shows(status, r.prior)
    case Waiting => status.Connected?
    case Disconnecting => status.Connected?
    case SetFailed(_) => !status.Stopped? && r.fails >= 1 && Shows(status, r.fails - 1)
    case AfterFailed(_) => status.Failed?
    case CheckAfterFail => status.Failed?
    case SetStopped => !status.Stopped? && Shows(status, r.fails)
    case Done => if r.consumed then status.Stopped? else status.Failed?
  }

  /** A Reconnecting status shows `n` failures in u32, and was set before a wait. */
  ghost predicate Shows(status: Status, n: nat) {
    status.Reconnecting? ==> status.attempt == n % U32_SIZE && Delay(status.attempt) > 0
  }

  /** From the end of the wait to the end of the connect. */
  ghost predicate Resting(r: Run, status: Status) {
    if r.fails == 0 then status.Starting? || status.Connected?
    else if Delay(r.attempt) > 0 then status == Reconnecting(r.attempt)
    else status.Failed?
  }

  function After(status: Status, update: Option<Status>): Status {
    if update.Some? then update.value else status
  }

  lemma ActKeepsOutcome(r: Run, input: Input, status: Status)
    requires FatalOk(r) && Fits(r, status) && Act(r, input).Some?
    ensures FitsOutcome(Act(r, input).value.run, After(status, Act(r, input).value.status))
  {
  }

  lemma ActKeepsPoint(r: Run, input: Input, status: Status)
    requires Good(r) && FitsPoint(r, status) && Act(r, input).Some?
    ensures FitsPoint(Act(r, input).value.run, After(status, Act(r, input).value.status))
    ensures Act(r, input).value.status.Some? && Act(r, input).value.status.value.Reconnecting? ==> status.Failed?
  {
    WaitsIff(r.attempt);
  }

  lemma ActKeepsFits(r: Run, input: Input, status: Status)
    requires Good(r) && Fits(r, status) && Act(r, input).Some?
    ensures Fits(Act(r, input).value.run, After(status, Act(r, input).value.status))
    ensures Act(r, input).value.status.Some? && Act(r, input).value.status.value.Reconnecting? ==> status.Failed?
  {
    ActKeepsOutcome(r, input, status);
    ActKeepsPoint(r, input, status);
  }

  /**
   The failed connects in a row before the connect that a tunnel task is waiting for or in, or that has just
   ended and whose outcome is not in the handle yet.
   */
  function FailuresBefore(r: Run): nat
    requires Good(r)
  {
    match r.pc
    case SetFailed(_) => r.fails - 1
    case SetConnected(_) => r.prior
    case _ => r.fails
  }

  /**
   Wherever a Reconnecting status can stand, it carries the number of connects that had failed in a row
   (in u32, so modulo 2^32), is only ever set for 1 to 64 failures, and the wait is the capped power of two.
   */
  lemma ReconnectingCountsFailures(r: Run, status: Status)
    requires Good(r) && Fits(r, status) && status.Reconnecting?
    ensures r.pc.Sleeping? || r.pc.CheckCancel? || r.pc.ReadyToConnect? || r.pc.Connecting? || r.pc.SetFailed?
            || r.pc.SetConnected? || r.pc.SetStopped?
    ensures status.attempt == FailuresBefore(r) % U32_SIZE && 1 <= status.attempt <= 64
    ensures FailuresBefore(r) < U32_SIZE ==>
              && status.attempt == FailuresBefore(r)
              && Delay(status.attempt) == if Pow2(FailuresBefore(r) - 1) < 30 then Pow2(FailuresBefore(r) - 1) else 30
  {
    WaitsIff(status.attempt);
    if FailuresBefore(r) < U32_SIZE {
      DelayIsCappedPowerIff(status.attempt);
    }
  }

  // ----- whole runs of one task

  datatype Event = Stepped(input: Input) | CancelQueued

  /** One event of a task's life; a cancel message is queued at most once (proved of the daemon). */
  ghost predicate Happens(r: Run, e: Event, r': Run) {
    match e
    case Stepped(input) => Act(r, input).Some? && r' == Act(r, input).value.run
    case CancelQueued => r.sent == 0 && r' == Send(r)
  }

  ghost predicate IsLife(runs: seq<Run>, events: seq<Event>) {
    && |runs| == |events| + 1
    && runs[0] == NewRun(runs[0].name)
    && forall i | 0 <= i < |events| :: Happens(runs[i], events[i], runs[i + 1])
  }

  lemma {:induction false} LifeGood(runs: seq<Run>, events: seq<Event>, i: nat)
    requires IsLife(runs, events) && i < |runs|
    ensures Good(runs[i])
  {
    if i == 0 {
      NewRunGood(runs[0].name);
    } else {
      LifeGood(runs, events, i - 1);
      assert Happens(runs[i - 1], events[i - 1], runs[i]);
      match events[i - 1] {
        case Stepped(input) => ActKeepsGood(runs[i - 1], input);
        case CancelQueued => SendKeepsGood(runs[i - 1]);
      }
    }
  }

  predicate Begins(runs: seq<Run>, events: seq<Event>, i: nat)
    requires i < |events| && i < |runs|
  {
    events[i].Stepped? && BeginsConnect(runs[i], events[i].input)
  }

  lemma {:induction false} HistoryGrows(runs: seq<Run>, events: seq<Event>, i: nat, j: nat)
    requires IsLife(runs, events) && i <= j < |runs|
    ensures runs[i].sent <= runs[j].sent && runs[i].late <= runs[j].late
    ensures runs[i].fatal ==> runs[j].fatal
    ensures runs[i].consumed ==> runs[j].consumed
    decreases j
  {
    if i < j {
      HistoryGrows(runs, events, i, j - 1);
      assert Happens(runs[j - 1], events[j - 1], runs[j]);
    }
  }

  /** Over any run, at most one connect begins after the cancel message was queued. */
  lemma AtMostOneLateConnect(runs: seq<Run>, events: seq<Event>, c: nat, i: nat, j: nat)
    requires IsLife(runs, events) && c < i < |events| && c < j < |events| && events[c].CancelQueued?
    requires Begins(runs, events, i) && Begins(runs, events, j)
    ensures i == j
  {
    if i != j {
      var first, second := if i < j then i else j, if i < j then j else i;
      assert Happens(runs[c], events[c], runs[c + 1]);
      HistoryGrows(runs, events, c + 1, first);
      assert Happens(runs[first], events[first], runs[first + 1]);
      HistoryGrows(runs, events, first + 1, second);
      LifeGood(runs, events, second);
      assert false;
    }
  }

  /** No connect begins after a consumed cancel message or a non-recoverable error; both end the tunnel task. */
  lemma NoConnectAfterEnd(runs: seq<Run>, events: seq<Event>, i: nat, j: nat)
    requires IsLife(runs, events) && i <= j < |events|
    requires runs[i].consumed || runs[i].fatal
    ensures !Begins(runs, events, j)
  {
    HistoryGrows(runs, events, i, j);
    LifeGood(runs, events, j);
  }

  /** No connect begins after one that ended in an authentication or configuration error. */
  lemma NoConnectAfterFatalError(runs: seq<Run>, events: seq<Event>, i: nat, j: nat)
    requires IsLife(runs, events) && i < j < |events|
    requires events[i].Stepped? && events[i].input.ConnectErr? && NonRecoverable(events[i].input.error)
    ensures !Begins(runs, events, j)
  {
    assert Happens(runs[i], events[i], runs[i + 1]);
    NoConnectAfterEnd(runs, events, i + 1, j);
  }

  // ----- when a task ends, and when it goes on

  /** A connect that ended in an authentication or configuration error. */
  ghost predicate FatalError(e: Event) {
    && e.Stepped? && e.input.ConnectErr?
    && (e.input.error.AuthenticationFailed? || e.input.error.ConfigError?)
  }

  lemma {:induction false} HistoryHasCause(runs: seq<Run>, events: seq<Event>, j: nat)
    requires IsLife(runs, events) && j < |runs|
    ensures runs[j].sent > 0 ==> exists c | 0 <= c < j :: events[c].CancelQueued?
    ensures runs[j].fatal ==> exists i | 0 <= i < j :: FatalError(events[i])
  {
    if j > 0 {
      HistoryHasCause(runs, events, j - 1);
      assert Happens(runs[j - 1], events[j - 1], runs[j]);
      if events[j - 1].CancelQueued? || FatalError(events[j - 1]) {
        assert 0 <= j - 1 < j;
      }
    }
  }

  /** A task ends only if it was told to or a connect ended in an authentication or configuration error. */
  lemma EndsOnlyIf(runs: seq<Run>, events: seq<Event>, j: nat)
    requires IsLife(runs, events) && j < |runs| && runs[j].pc.Done?
    ensures (exists c | 0 <= c < j :: events[c].CancelQueued?) || (exists i | 0 <= i < j :: FatalError(events[i]))
  {
    LifeGood(runs, events, j);
    HistoryHasCause(runs, events, j);
  }

  /** `n` steps on a tunnel's own account. */
  function GoOn(r: Run, n: nat): Option<Run>
    decreases n
  {
    if n == 0 then Some(r)
    else match Act(r, Go) case Some(effect) => GoOn(effect.run, n - 1) case None => None
  }

  lemma {:induction false} GoOnAdd(r: Run, a: nat, b: nat)
    requires GoOn(r, a).Some?
    ensures GoOn(r, a + b) == GoOn(GoOn(r, a).value, b)
    decreases a
  {
    if a > 0 {
      GoOnAdd(Act(r, Go).value.run, a - 1, b);
    }
  }

  lemma GoOnOne(r: Run)
    requires Act(r, Go).Some?
    ensures GoOn(r, 1) == Some(Act(r, Go).value.run)
  {
    assert GoOn(Act(r, Go).value.run, 0) == Some(Act(r, Go).value.run);
  }

  /** Within the next `n` steps it sleeps. */
  ghost predicate Sleeps(r: Run, n: nat) {
    exists k: nat | k <= n :: GoOn(r, k).Some? && GoOn(r, k).value.pc.Sleeping?
  }

  lemma SleepsAdd(r: Run, a: nat, b: nat)
    requires GoOn(r, a).Some?
    ensures Sleeps(r, a + b) <==> Sleeps(r, a) || Sleeps(GoOn(r, a).value, b)
  {
    forall k: nat | k <= b ensures GoOn(r, a + k) == GoOn(GoOn(r, a).value, k) {
      GoOnAdd(r, a, k);
    }
    forall k: nat | a <= k <= a + b ensures GoOn(r, k) == GoOn(GoOn(r, a).value, k - a) {
      GoOnAdd(r, a, k - a);
    }
  }

  /** From the top of the loop, with nothing queued, a task connects, after a wait or without one. */
  lemma TopConnects(r: Run)
    requires r.pc.Top? && !r.queued
    ensures var n := if Delay(r.attempt) > 0 then 4 else 2;
            && GoOn(r, n) == Some(r.(pc := ReadyToConnect))
            && (Sleeps(r, n) <==> Delay(r.attempt) > 0)
  {
    assert GoOn(r, 0) == Some(r);
    GoOnOne(r);
    if Delay(r.attempt) > 0 {
      GoOnAdd(r, 1, 1);
      GoOnOne(r.(pc := SetReconnecting));
      GoOnAdd(r, 2, 1);
      GoOnOne(r.(pc := Sleeping));
      GoOnAdd(r, 3, 1);
      GoOnOne(r.(pc := CheckCancel));
      assert GoOn(r, 2).value.pc.Sleeping?;
    } else {
      GoOnAdd(r, 1, 1);
      GoOnOne(r.(pc := CheckCancel));
    }
  }

  /** A connect that failed and may be tried again brings the tunnel back to the top with the failure counted. */
  lemma FailedReachesTop(r: Run, e: TunnelError)
    requires Good(r) && r.pc.Connecting? && !r.queued && !e.AuthenticationFailed? && !e.ConfigError?
    ensures Act(r, ConnectErr(e)).Some?
    ensures var failed := Act(r, ConnectErr(e)).value.run;
            && GoOn(failed, 3) == Some(failed.(pc := Top, attempt := (r.fails + 1) % U32_SIZE))
            && failed.fails == r.fails + 1 && !failed.queued && !Sleeps(failed, 3)
  {
    var failed := Act(r, ConnectErr(e)).value.run;
    var after := failed.(pc := AfterFailed(e));
    var check := failed.(pc := CheckAfterFail, attempt := (r.fails + 1) % U32_SIZE);
    NextAttempt(r.fails);
    assert GoOn(failed, 0) == Some(failed);
    GoOnOne(failed);
    GoOnAdd(failed, 1, 1);
    GoOnOne(after);
    GoOnAdd(failed, 2, 1);
    GoOnOne(check);
  }

  /**
   After a connect error that is neither of authentication nor of configuration, with nothing queued, a tunnel
   connects again with the failure counted, and waits before it exactly after 1 to 64 failures in a row (in u32).
   */
  lemma RecoverableErrorReconnects(r: Run, e: TunnelError)
    requires Good(r) && r.pc.Connecting? && !r.queued && !e.AuthenticationFailed? && !e.ConfigError?
    ensures Act(r, ConnectErr(e)).Some?
    ensures var failed, n := Act(r, ConnectErr(e)).value.run, (r.fails + 1) % U32_SIZE;
            var steps := if 1 <= n <= 64 then 7 else 5;
            && GoOn(failed, steps) == Some(failed.(pc := ReadyToConnect, attempt := n))
            && (Sleeps(failed, steps) <==> 1 <= n <= 64)
  {
    var failed, n := Act(r, ConnectErr(e)).value.run, (r.fails + 1) % U32_SIZE;
    var top := failed.(pc := Top, attempt := n);
    var rest := if 1 <= n <= 64 then 4 else 2;
    FailedReachesTop(r, e);
    WaitsIff(n);
    TopConnects(top);
    GoOnAdd(failed, 3, rest);
    SleepsAdd(failed, 3, rest);
  }

  /** After a lost connection, with nothing queued, a tunnel connects again at once. */
  lemma LostReconnects(r: Run)
    requires Good(r) && r.pc.Waiting? && !r.queued
    ensures Act(r, Lost).Some?
    ensures var lost := Act(r, Lost).value.run;
            GoOn(lost, 2) == Some(lost.(pc := ReadyToConnect)) && lost.attempt == 0 && !Sleeps(lost, 2)
  {
    WaitsIff(0);
    TopConnects(Act(r, Lost).value.run);
  }

  /** An authentication or configuration error ends a tunnel in two steps, with Failed as its last status. */
  lemma FatalErrorEnds(r: Run, e: TunnelError)
    requires r.pc.Connecting? && (e.AuthenticationFailed? || e.ConfigError?)
    ensures Act(r, ConnectErr(e)).Some?
    ensures var failed := Act(r, ConnectErr(e)).value.run;
            && GoOn(failed, 2).Some? && GoOn(failed, 2).value.pc.Done?
            && Act(failed, Go).value.status == Some(Failed(e))
  {
    var failed := Act(r, ConnectErr(e)).value.run;
    GoOnOne(failed);
    GoOnAdd(failed, 1, 1);
    GoOnOne(failed.(pc := AfterFailed(e)));
  }

  /** Wherever a tunnel looks for a cancel message, a queued one is taken. */
  lemma QueuedCancelIsTaken(r: Run, input: Input)
    requires r.queued && Act(r, input).Some?
    requires r.pc.CheckCancel? || r.pc.CheckAfterFail? || (r.pc.Waiting? && input.CancelWins?)
    ensures Act(r, input).value.run.consumed && !Act(r, input).value.run.queued
  {
  }

  /** Steps a task still takes once a cancel message was consumed. */
  function StepsToEnd(pc: Pc): nat {
    match pc
    case Disconnecting => 2
    case SetStopped => 1
    case _ => 0
  }

  /** A consumed cancel message ends the tunnel task: the only steps left lead to Done. */
  lemma ConsumedCancelEnds(r: Run, input: Input)
    requires Good(r) && r.consumed && !r.pc.Done?
    ensures Act(r, Go).Some?
    ensures Act(r, input).Some? ==> StepsToEnd(Act(r, input).value.run.pc) == StepsToEnd(r.pc) - 1
  {
  }
}
