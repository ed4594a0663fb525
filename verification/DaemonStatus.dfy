/** Cancel channels, statuses and progress of the command loop, in every reachable state of the daemon. */
module DaemonStatus {
  import opened Base
  import opened TunnelTask
  import opened Daemon
  import opened DaemonTasks

  // ----- invariants

  /** A task has been sent its cancel message only if the loop has come to it while stopping it. */
  ghost predicate Unsent(d: State, id: TaskId) {
    id in d.tasks ==> d.tasks[id].sent == 0
  }

  ghost predicate ChannelsOk(d: State) {
    && (forall id | id in d.tasks :: Good(d.tasks[id]))
    && (forall n | n in d.tunnels :: Unsent(d, d.tunnels[n].chan))
    && (forall i | 0 <= i < |Victims(d.work)| && (d.work.Cancelling? || i > 0) :: Unsent(d, Victims(d.work)[i].chan))
  }

  /** The uptime is kept exactly while the status says Connected, and the status is one its task can have left. */
  ghost predicate HandleStatusOk(h: Handle, tasks: map<TaskId, Run>) {
    && (h.status.Connected? <==> h.connectedAt.Some?)
    && (if h.chan in tasks then Fits(tasks[h.chan], h.status) else h.status.Starting?)
  }

  ghost predicate StatusesOk(d: State) {
    forall n | n in d.tunnels :: HandleStatusOk(d.tunnels[n], d.tasks)
  }

  ghost predicate Healthy(d: State) {
    Structured(d) && ChannelsOk(d) && StatusesOk(d)
  }

  // ----- they are kept

  lemma ActKeepsSent(r: Run, input: Input)
    requires Act(r, input).Some?
    ensures Act(r, input).value.run.sent == r.sent
  {
  }

  lemma UpdateKeepsUptime(h: Handle, status: Status, now: int)
    requires h.status.Connected? <==> h.connectedAt.Some?
    requires status.Reconnecting? ==> !h.status.Connected?
    ensures UpdateStatus(h, status, now).status.Connected? <==> UpdateStatus(h, status, now).connectedAt.Some?
  {
  }

  lemma TaskStepChannels(d: State, id: TaskId, input: Input, now: int, d': State)
    requires Healthy(d) && TaskStep(d, id, input, now, d')
    ensures ChannelsOk(d')
  {
    ActKeepsGood(d.tasks[id], input);
    ActKeepsSent(d.tasks[id], input);
    TaskStepShape(d, id, input, now, d');
    forall n | n in d'.tunnels ensures Unsent(d', d'.tunnels[n].chan) {
      assert Unsent(d, d.tunnels[n].chan);
    }
    forall i | 0 <= i < |Victims(d'.work)| && (d'.work.Cancelling? || i > 0)
      ensures Unsent(d', Victims(d'.work)[i].chan)
    {
      assert Unsent(d, Victims(d.work)[i].chan);
    }
  }

  /** The handle of the stepping task. */
  lemma OwnHandleStatus(d: State, id: TaskId, input: Input, now: int, n: string)
    requires Healthy(d) && id in d.tasks && Act(d.tasks[id], input).Some?
    requires n in d.tunnels && d.tunnels[n].chan == id
    ensures var effect := Act(d.tasks[id], input).value;
            && d.tasks[id].name == n
            && HandleStatusOk(Updated(d.tunnels, n, effect.status, now)[n], d.tasks[id := effect.run])
  {
    var h := d.tunnels[n];
    assert HandleOk(d, n) && HandleStatusOk(h, d.tasks);
    ActKeepsFits(d.tasks[id], input, h.status);
    var effect := Act(d.tasks[id], input).value;
    if effect.status.Some? {
      UpdateKeepsUptime(h, effect.status.value, now);
    }
  }

  lemma TaskStepStatuses(d: State, id: TaskId, input: Input, now: int, d': State)
    requires Healthy(d) && TaskStep(d, id, input, now, d')
    ensures StatusesOk(d')
  {
    var effect := Act(d.tasks[id], input).value;
    var name := d.tasks[id].name;
    if effect.status.Some? {
      LiveTaskOwnsItsHandle(d, id);
    }
    forall n | n in d'.tunnels ensures HandleStatusOk(d'.tunnels[n], d'.tasks) {
      assert HandleStatusOk(d.tunnels[n], d.tasks);
      if d.tunnels[n].chan == id {
        OwnHandleStatus(d, id, input, now, n);
      } else if effect.status.Some? {
        assert n != name;
      }
    }
  }

  lemma TaskStepHealthy(d: State, id: TaskId, input: Input, now: int, d': State)
    requires Healthy(d) && TaskStep(d, id, input, now, d')
    ensures Healthy(d')
  {
    TaskStepShape(d, id, input, now, d');
    ShapeStructured(d, d');
    TaskStepChannels(d, id, input, now, d');
    TaskStepStatuses(d, id, input, now, d');
  }

  lemma StopBeginHealthy(d: State, name: string)
    requires Healthy(d) && d.work.Ready? && d.phase.Serving? && name in d.tunnels
    ensures Healthy(Begin(d, Stop(name)))
  {
    var d' := Begin(d, Stop(name));
    BeginStructured(d, Stop(name));
    assert Unsent(d, d.tunnels[name].chan);
    forall n | n in d'.tunnels ensures Unsent(d', d'.tunnels[n].chan) && HandleStatusOk(d'.tunnels[n], d'.tasks) {
      assert Unsent(d, d.tunnels[n].chan) && HandleStatusOk(d.tunnels[n], d.tasks);
    }
  }

  lemma QuietHealthy(d: State, d': State)
    requires Healthy(d) && Structured(d')
    requires d'.tunnels == d.tunnels && d'.tasks == d.tasks && Victims(d'.work) == []
    ensures Healthy(d')
  {
    forall n | n in d'.tunnels ensures Unsent(d', d'.tunnels[n].chan) && HandleStatusOk(d'.tunnels[n], d'.tasks) {
      assert Unsent(d, d.tunnels[n].chan) && HandleStatusOk(d.tunnels[n], d.tasks);
    }
  }

  lemma ReadyHealthy(d: State)
    requires Healthy(d) && d.work.Ready? && d.todo != []
    ensures Healthy(MainStep(d).value)
  {
    MainStepStructured(d);
    var popped := d.(todo := d.todo[1..]);
    assert Structured(popped) by {
      forall n | n in d.tunnels ensures HandleOk(popped, n) {
        assert HandleOk(d, n);
      }
    }
    QuietHealthy(d, popped);
    if d.todo[0].Stop? && d.todo[0].name in d.tunnels {
      StopBeginHealthy(popped, d.todo[0].name);
    } else {
      QuietHealthy(popped, MainStep(d).value);
    }
  }

  /** One handle across a step that builds a tunnel. */
  lemma BuildHandle(d: State, d': State, n: string)
    requires Healthy(d) && (d.work.Inserting? || d.work.Spawning? || d.work.Installing?)
    requires MainStep(d) == Some(d') && Structured(d') && n in d'.tunnels
    ensures Unsent(d', d'.tunnels[n].chan) && HandleStatusOk(d'.tunnels[n], d'.tasks)
  {
    assert HandleOk(d', n);
    if n in d.tunnels {
      assert HandleOk(d, n) && Unsent(d, d.tunnels[n].chan) && HandleStatusOk(d.tunnels[n], d.tasks);
    }
  }

  lemma BuildTasks(d: State)
    requires Healthy(d) && (d.work.Inserting? || d.work.Spawning? || d.work.Installing?)
    ensures forall id | id in MainStep(d).value.tasks :: Good(MainStep(d).value.tasks[id])
    ensures Victims(MainStep(d).value.work) == []
  {
    NewRunGood(d.work.name);
  }

  lemma BuildHealthy(d: State)
    requires Healthy(d) && (d.work.Inserting? || d.work.Spawning? || d.work.Installing?)
    ensures Healthy(MainStep(d).value)
  {
    MainStepStructured(d);
    BuildTasks(d);
    var d' := MainStep(d).value;
    forall n | n in d'.tunnels ensures Unsent(d', d'.tunnels[n].chan) && HandleStatusOk(d'.tunnels[n], d'.tasks) {
      BuildHandle(d, d', n);
    }
  }

  lemma CancelHealthy(d: State)
    requires Healthy(d) && d.work.Cancelling? && MainStep(d).Some?
    ensures Healthy(MainStep(d).value)
  {
    MainStepStructured(d);
    var d' := MainStep(d).value;
    var vs := d.work.victims;
    if vs != [] {
      var id := vs[0].chan;
      assert Unsent(d, id);
      SendKeepsGood(d.tasks[id]);
      assert id in VictimIds(d.work);
      forall i | 0 < i < |vs| ensures Unsent(d', vs[i].chan) {
        assert Unsent(d, vs[i].chan);
      }
    }
    forall n | n in d'.tunnels ensures Unsent(d', d'.tunnels[n].chan) && HandleStatusOk(d'.tunnels[n], d'.tasks) {
      assert Unsent(d, d.tunnels[n].chan) && HandleStatusOk(d.tunnels[n], d.tasks);
      assert d.tunnels[n].chan in MapIds(d.tunnels);
    }
  }

  lemma AbortHealthy(d: State)
    requires Healthy(d) && d.work.Aborting?
    ensures Healthy(MainStep(d).value)
  {
    MainStepStructured(d);
    var d' := MainStep(d).value;
    var vs := d.work.victims;
    forall i | 0 <= i < |vs| - 1 ensures Unsent(d', vs[1..][i].chan) {
      assert Unsent(d, vs[i + 1].chan);
    }
    forall n | n in d'.tunnels ensures Unsent(d', d'.tunnels[n].chan) && HandleStatusOk(d'.tunnels[n], d'.tasks) {
      assert Unsent(d, d.tunnels[n].chan) && HandleStatusOk(d.tunnels[n], d.tasks);
    }
  }

  lemma MainStepHealthy(d: State)
    requires Healthy(d) && MainStep(d).Some?
    ensures Healthy(MainStep(d).value)
  {
    match d.work
    case Ready => ReadyHealthy(d);
    case Cancelling(_) => CancelHealthy(d);
    case Aborting(_) => AbortHealthy(d);
    case _ => BuildHealthy(d);
  }

  lemma DrainHealthy(d: State, names: seq<string>)
    requires Healthy(d) && AtCommand(d) && Lists(names, d.tunnels.Keys)
    ensures Healthy(Drained(d, names))
  {
    DrainStructured(d, names);
    var d' := Drained(d, names);
    forall i | 0 <= i < |Victims(d'.work)| ensures Unsent(d', Victims(d'.work)[i].chan) {
      assert names[i] in d.tunnels;
      assert Unsent(d, d.tunnels[names[i]].chan);
    }
  }

  lemma OtherAccept(d: State, cmd: Command, d': State)
    requires Accept(d, cmd, d') && !cmd.Shutdown?
    ensures d'.tunnels == d.tunnels && d'.tasks == d.tasks && Victims(d'.work) == []
  {
  }

  lemma AcceptHealthy(d: State, cmd: Command, d': State)
    requires Healthy(d) && Accept(d, cmd, d')
    ensures Healthy(d')
  {
    if cmd.Shutdown? {
      var names :| Lists(names, d.tunnels.Keys) && d' == Drained(d, names);
      DrainHealthy(d, names);
    } else {
      AcceptStructured(d, cmd, d');
      OtherAccept(d, cmd, d');
      QuietHealthy(d, d');
    }
  }

  lemma {:induction false} RunHealthy(ds: seq<State>, i: nat)
    requires IsRun(ds) && i < |ds|
    ensures Healthy(ds[i])
  {
    if i == 0 {
      InitStructured(ds[0]);
    } else {
      RunHealthy(ds, i - 1);
      var d, d' := ds[i - 1], ds[i];
      assert Step(ds[i - 1], ds[i - 1 + 1]);
      if MainStep(d) == Some(d') {
        MainStepHealthy(d);
      } else if exists id, input, now :: TaskStep(d, id, input, now, d') {
        var id, input, now :| TaskStep(d, id, input, now, d');
        TaskStepHealthy(d, id, input, now, d');
      } else if AnswerTaken(d, d') {
        StepStructured(d, d');
        QuietHealthy(d, d');
      } else {
        var cmd :| Accept(d, cmd, d');
        AcceptHealthy(d, cmd, d');
      }
    }
  }

  // ----- the cancel channel and the progress of the command loop

  /** No channel ever receives a second message, and no task begins two connects after its message. */
  lemma OneCancelPerTask(ds: seq<State>, i: nat, id: TaskId)
    requires IsRun(ds) && i < |ds| && id in ds[i].tasks
    ensures ds[i].tasks[id].sent <= 1 && ds[i].tasks[id].late <= 1
  {
    RunHealthy(ds, i);
  }

  /** A task is sent its cancel message before it is aborted. */
  ghost predicate Told(d: State) {
    && (forall id | id in d.aborted :: Sent(d.tasks, id))
    && (d.work.Aborting? && d.work.victims != [] ==> Sent(d.tasks, d.work.victims[0].chan))
  }

  predicate Sent(tasks: map<TaskId, Run>, id: TaskId) {
    id in tasks && tasks[id].sent >= 1
  }

  lemma MainStepKeepsSent(d: State, id: TaskId)
    requires Structured(d) && MainStep(d).Some? && Sent(d.tasks, id)
    ensures Sent(MainStep(d).value.tasks, id)
  {
    if d.work.Spawning? {
      assert HandleOk(d, d.work.name);
    }
  }

  /** A task becomes aborted only from the Aborting state, which is entered with its message sent. */
  lemma MainStepAborts(d: State)
    requires VictimsOk(d) && MainStep(d).Some?
    ensures var d' := MainStep(d).value;
            && (forall id | id in d'.aborted :: id in d.aborted || (d.work.Aborting? && id == d.work.victims[0].chan))
            && (d'.work.Aborting? ==> d'.work.victims != [] && Sent(d'.tasks, d'.work.victims[0].chan))
  {
    if d.work.Cancelling? && d.work.victims != [] {
      assert Victims(d.work)[0].chan in d.tasks;
    }
  }

  lemma MainStepTold(d: State)
    requires Structured(d) && Told(d) && MainStep(d).Some?
    ensures Told(MainStep(d).value)
  {
    MainStepAborts(d);
    forall id | id in MainStep(d).value.aborted ensures Sent(MainStep(d).value.tasks, id) {
      assert Sent(d.tasks, id);
      MainStepKeepsSent(d, id);
    }
  }

  lemma TaskStepTold(d: State, id: TaskId, input: Input, now: int, d': State)
    requires Told(d) && TaskStep(d, id, input, now, d')
    ensures Told(d')
  {
    ActKeepsSent(d.tasks[id], input);
  }

  lemma StepTold(d: State, d': State)
    requires Structured(d) && Told(d) && Step(d, d')
    ensures Told(d')
  {
    if MainStep(d) == Some(d') {
      MainStepTold(d);
    } else if exists id, input, now :: TaskStep(d, id, input, now, d') {
      var id, input, now :| TaskStep(d, id, input, now, d');
      TaskStepTold(d, id, input, now, d');
    } else if !AnswerTaken(d, d') {
      var cmd :| Accept(d, cmd, d');
      AcceptKeepsTasks(d, cmd, d');
    }
  }

  lemma NextTold(ds: seq<State>, i: nat)
    requires IsRun(ds) && i < |ds| - 1 && Told(ds[i])
    ensures Told(ds[i + 1])
  {
    RunStructured(ds, i);
    StepTold(ds[i], ds[i + 1]);
  }

  lemma {:induction false} ToldThroughout(ds: seq<State>, i: nat)
    requires i < |ds| && Told(ds[0]) && forall k | 0 <= k < |ds| - 1 && Told(ds[k]) :: Told(ds[k + 1])
    ensures Told(ds[i])
  {
    if i > 0 {
      ToldThroughout(ds, i - 1);
      assert Told(ds[i - 1 + 1]);
    }
  }

  /** In every reachable state, every aborted task had been sent its cancel message. */
  lemma AbortedWereTold(ds: seq<State>, i: nat, id: TaskId)
    requires IsRun(ds) && i < |ds| && id in ds[i].aborted
    ensures id in ds[i].tasks && ds[i].tasks[id].sent == 1
  {
    forall k | 0 <= k < |ds| - 1 && Told(ds[k]) ensures Told(ds[k + 1]) {
      NextTold(ds, k);
    }
    ToldThroughout(ds, i);
    OneCancelPerTask(ds, i, id);
  }

  /**
   The command loop is never stuck: the send made while holding the map's lock finds room in the
   capacity-1 channel, so whatever the tunnel tasks do, the loop waits exactly for the next command or for a
   client to take the answer to GetStatus, and never with the lock held.
   */
  lemma CommandLoopNeverWaits(ds: seq<State>, i: nat)
    requires IsRun(ds) && i < |ds|
    ensures MainStep(ds[i]).None? <==> ds[i].work.Answering? || (ds[i].work.Ready? && ds[i].todo == [])
    ensures MainStep(ds[i]).None? ==> !Locked(ds[i])
  {
    RunHealthy(ds, i);
    var d := ds[i];
    if d.work.Cancelling? && d.work.victims != [] {
      assert Unsent(d, d.work.victims[0].chan);
    }
  }

  function OpCost(op: Op): nat {
    match op case Start(_, _) => 4 case StartIfAbsent(_, _) => 5 case Stop(_) => 4 case Cache(_, _) => 1
  }

  function OpsCost(ops: seq<Op>): nat {
    if ops == [] then 0 else OpCost(ops[0]) + OpsCost(ops[1..])
  }

  function WorkCost(work: Work): nat {
    match work
    case Ready => 0
    case Inserting(_, _) => 3
    case Spawning(_, _) => 2
    case Installing(_, _) => 1
    case Cancelling(vs) => 2 * |vs| + 1
    case Aborting(vs) => 2 * |vs|
    case Answering => 0
  }

  /** Steps the command loop still needs at most. */
  function Cost(d: State): nat {
    WorkCost(d.work) + OpsCost(d.todo)
  }

  /** Every step of the loop brings the command closer to its end. */
  lemma CommandEnds(d: State)
    requires MainStep(d).Some?
    ensures Cost(MainStep(d).value) < Cost(d)
  {
    if d.work.Ready? {
      var op, rest := d.todo[0], d.todo[1..];
      if op.StartIfAbsent? {
        assert ([Start(op.name, op.cfg)] + rest)[1..] == rest;
      }
    }
  }

  /** Steps of the command loop among the steps of `ds`. */
  ghost function LoopSteps(ds: seq<State>): nat {
    if |ds| <= 1 then 0
    else (if MainStep(ds[0]) == Some(ds[1]) then 1 else 0) + LoopSteps(ds[1..])
  }

  ghost predicate WithinCommand(ds: seq<State>) {
    |ds| > 0 && forall i | 0 <= i < |ds| - 1 :: InnerStep(ds[i], ds[i + 1])
  }

  lemma InnerStepCost(d: State, d': State)
    requires InnerStep(d, d')
    ensures Cost(d') + (if MainStep(d) == Some(d') then 1 else 0) <= Cost(d)
  {
    if MainStep(d) == Some(d') {
      CommandEnds(d);
    } else {
      var id, input, now :| TaskStep(d, id, input, now, d');
      TaskStepShape(d, id, input, now, d');
    }
  }

  /**
   A command ends: whatever the tunnel tasks do in between, the loop makes at most Cost steps before it has
   none left, and a run in which it made that many is at the end of the command.
   */
  lemma {:induction false} CommandIsBounded(ds: seq<State>)
    requires WithinCommand(ds)
    ensures LoopSteps(ds) + Cost(ds[|ds| - 1]) <= Cost(ds[0])
    ensures LoopSteps(ds) == Cost(ds[0]) ==> MainStep(ds[|ds| - 1]).None?
    decreases |ds|
  {
    if |ds| > 1 {
      var rest := ds[1..];
      forall i | 0 <= i < |rest| - 1 ensures InnerStep(rest[i], rest[i + 1]) {
        assert InnerStep(ds[i + 1], ds[i + 1 + 1]);
      }
      InnerStepCost(ds[0], ds[1]);
      CommandIsBounded(rest);
    }
    if MainStep(ds[|ds| - 1]).Some? {
      CommandEnds(ds[|ds| - 1]);
    }
  }

  // ----- what `localup status` reports

  datatype Shown = ShownStarting | ShownConnected | ShownReconnecting(attempt: nat) | ShownFailed | ShownStopped

  datatype StatusInfo = StatusInfo(
    name: string, protocol: string, localPort: U16, publicUrl: Option<string>, status: Shown,
    uptime: Option<int>, lastError: Option<TunnelError>)

  /** One entry of the GetStatus answer. */
  function Report(name: string, h: Handle, now: int): StatusInfo {
    var (shown, url, error) := match h.status
      case Starting => (ShownStarting, None, None)
      case Connected(url) => (ShownConnected, url, None)
      case Reconnecting(n) => (ShownReconnecting(n), None, None)
      case Failed(e) => (ShownFailed, None, Some(e))
      case Stopped => (ShownStopped, None, None);
    StatusInfo(name, h.protocol, h.localPort, url, shown,
               if h.connectedAt.Some? then Some(now - h.connectedAt.value) else None, error)
  }

  /** What the five statuses look like, and that nothing else goes into an entry. */
  lemma ReportIs(name: string, h: Handle, now: int)
    ensures var info := Report(name, h, now);
            && info.name == name && info.protocol == h.protocol && info.localPort == h.localPort
            && (info.status == ShownStarting <==> h.status == Starting)
            && (info.status == ShownConnected <==> h.status.Connected?)
            && (forall n :: info.status == ShownReconnecting(n) <==> h.status == Reconnecting(n))
            && (info.status == ShownFailed <==> h.status.Failed?)
            && (info.status == ShownStopped <==> h.status == Stopped)
            && (forall t :: info.uptime == Some(t) <==> h.connectedAt == Some(now - t))
  {
  }

  /** The tunnel task that owns a handle. */
  ghost function Owner(d: State, name: string): (r: Run)
    requires name in d.tunnels
  {
    if d.tunnels[name].chan in d.tasks then d.tasks[d.tunnels[name].chan] else NewRun(name)
  }

  /**
   Uptime is reported iff Connected, an error iff Failed, and a public URL only when Connected; URL and error are
   those of the last connect of the tunnel's task, once it has stored the outcome.
   */
  lemma ReportsAreConsistent(ds: seq<State>, i: nat, name: string, now: int)
    requires IsRun(ds) && i < |ds| && name in ds[i].tunnels
    ensures var info, r := Report(name, ds[i].tunnels[name], now), Owner(ds[i], name);
            && (info.uptime.Some? <==> info.status.ShownConnected?)
            && (info.lastError.Some? <==> info.status.ShownFailed?)
            && (info.publicUrl.Some? ==> info.status.ShownConnected?)
            && (!r.pc.SetConnected? && !r.pc.SetFailed? ==>
                  && (info.status.ShownConnected? ==> r.last == Some(ConnectOk(info.publicUrl)))
                  && (info.lastError.Some? ==> r.last == Some(ConnectErr(info.lastError.value))))
  {
    RunHealthy(ds, i);
    assert HandleStatusOk(ds[i].tunnels[name], ds[i].tasks);
  }

  ghost predicate Connects(d: State, d': State, name: string, id: TaskId, input: Input, now: int) {
    && TaskStep(d, id, input, now, d') && d.tasks[id].name == name
    && Act(d.tasks[id], input).value.status.Some? && Act(d.tasks[id], input).value.status.value.Connected?
  }

  /** The step in which the tunnel's own task stores that it is connected, with `t` as the only reading of the clock. */
  ghost predicate ConnectsAt(d: State, d': State, name: string, id: TaskId, t: int) {
    exists input ::
      Connects(d, d', name, id, input, t) && forall now | Connects(d, d', name, id, input, now) :: now == t
  }

  /** The same tunnel, connected since the same time. */
  ghost predicate SameSince(d: State, d': State, name: string) {
    && name in d.tunnels && name in d'.tunnels
    && d.tunnels[name].chan == d'.tunnels[name].chan && d.tunnels[name].connectedAt == d'.tunnels[name].connectedAt
  }

  ghost predicate Starts(d: State, d': State, name: string) {
    && name in d'.tunnels && d'.tunnels[name].connectedAt.Some?
    && ConnectsAt(d, d', name, d'.tunnels[name].chan, d'.tunnels[name].connectedAt.value)
  }

  lemma TaskConnects(d: State, id: TaskId, input: Input, now: int, d': State, name: string)
    requires Healthy(d) && TaskStep(d, id, input, now, d') && name in d'.tunnels
    requires d'.tunnels[name].connectedAt.Some?
    ensures SameSince(d, d', name) || Starts(d, d', name)
  {
    var effect := Act(d.tasks[id], input).value;
    if effect.status.Some? && d.tasks[id].name == name {
      LiveTaskOwnsItsHandle(d, id);
      if effect.status.value.Connected? {
        assert Connects(d, d', name, id, input, now);
        assert ConnectsAt(d, d', name, id, now);
      }
    }
  }

  lemma ConnectedSince(d: State, d': State, name: string)
    requires Healthy(d) && Step(d, d') && name in d'.tunnels && d'.tunnels[name].connectedAt.Some?
    ensures SameSince(d, d', name) || Starts(d, d', name)
  {
    if MainStep(d) == Some(d') {
      MainStepKeepsUptime(d, name);
    } else if exists id, input, now :: TaskStep(d, id, input, now, d') {
      var id, input, now :| TaskStep(d, id, input, now, d');
      TaskConnects(d, id, input, now, d', name);
    } else if !AnswerTaken(d, d') {
      var cmd :| Accept(d, cmd, d');
      AcceptKeepsHandles(d, cmd, d');
    }
  }

  lemma MainStepKeepsUptime(d: State, name: string)
    requires MainStep(d).Some? && name in MainStep(d).value.tunnels
    ensures var h := MainStep(d).value.tunnels[name];
            || (name in d.tunnels && d.tunnels[name].chan == h.chan && d.tunnels[name].connectedAt == h.connectedAt)
            || h.connectedAt.None?
  {
  }

  lemma AcceptKeepsHandles(d: State, cmd: Command, d': State)
    requires Accept(d, cmd, d')
    ensures d'.tunnels == d.tunnels || d'.tunnels == map[]
  {
  }

  predicate Running(d: State, name: string) {
    name in d.tunnels && d.tunnels[name].connectedAt.Some?
  }

  ghost predicate HasStart(ds: seq<State>, name: string, i: nat) {
    0 < i < |ds| && Running(ds[i], name) ==> SameSince(ds[i - 1], ds[i], name) || Starts(ds[i - 1], ds[i], name)
  }

  lemma {:induction false} LastStart(ds: seq<State>, i: nat, name: string) returns (j: nat)
    requires i < |ds| && Running(ds[i], name) && !Running(ds[0], name)
    requires forall k | 0 <= k < |ds| :: HasStart(ds, name, k)
    ensures j < i && Starts(ds[j], ds[j + 1], name)
    ensures forall k | j < k <= i :: SameSince(ds[k], ds[i], name)
    decreases i
  {
    assert HasStart(ds, name, i);
    if SameSince(ds[i - 1], ds[i], name) {
      j := LastStart(ds, i - 1, name);
    } else {
      j := i - 1;
    }
  }

  /** The uptime counts from the step in which the tunnel's own task stored that it was connected. */
  lemma UptimeStart(ds: seq<State>, i: nat, name: string, now: int) returns (j: nat, t: int)
    requires IsRun(ds) && i < |ds| && name in ds[i].tunnels && Report(name, ds[i].tunnels[name], now).uptime.Some?
    ensures j < i && ConnectsAt(ds[j], ds[j + 1], name, ds[i].tunnels[name].chan, t)
    ensures Report(name, ds[i].tunnels[name], now).uptime == Some(now - t)
    ensures forall k | j < k <= i :: SameSince(ds[k], ds[i], name)
  {
    forall k | 0 <= k < |ds| ensures HasStart(ds, name, k) {
      StartsInRun(ds, k, name);
    }
    assert ds[0].tunnels == map[];
    j := LastStart(ds, i, name);
    t := ds[i].tunnels[name].connectedAt.value;
    assert SameSince(ds[j + 1], ds[i], name);
  }

  lemma StartsInRun(ds: seq<State>, k: nat, name: string)
    requires IsRun(ds) && k < |ds|
    ensures HasStart(ds, name, k)
  {
    if k > 0 && Running(ds[k], name) {
      RunHealthy(ds, k - 1);
      assert Step(ds[k - 1], ds[k - 1 + 1]);
      ConnectedSince(ds[k - 1], ds[k], name);
    }
  }

  /**
   A reported reconnect number is the number of connects that had failed in a row, at every point where the
   tunnel task can stand, and it is between 1 and 64.
   */
  lemma ReportedAttemptCountsFailures(ds: seq<State>, i: nat, name: string, now: int)
    requires IsRun(ds) && i < |ds| && name in ds[i].tunnels
    requires Report(name, ds[i].tunnels[name], now).status.ShownReconnecting?
    ensures ds[i].tunnels[name].chan in ds[i].tasks
    ensures var n := Report(name, ds[i].tunnels[name], now).status.attempt;
            var r := ds[i].tasks[ds[i].tunnels[name].chan];
            && Good(r) && n == FailuresBefore(r) % U32_SIZE && 1 <= n <= 64
            && (r.pc.Sleeping? || r.pc.CheckCancel? || r.pc.ReadyToConnect? || r.pc.Connecting? || r.pc.SetFailed?
                || r.pc.SetConnected? || r.pc.SetStopped?)
  {
    RunHealthy(ds, i);
    var h := ds[i].tunnels[name];
    assert HandleStatusOk(h, ds[i].tasks);
    ReconnectingCountsFailures(ds[i].tasks[h.chan], h.status);
  }

  /** The tunnel task took its cancel message or met a non-recoverable error. */
  predicate Ended(d: State, id: TaskId) {
    id in d.tasks && (d.tasks[id].consumed || d.tasks[id].fatal)
  }

  lemma ActKeepsEnd(r: Run, input: Input)
    requires Act(r, input).Some? && (r.consumed || r.fatal)
    ensures Act(r, input).value.run.consumed || Act(r, input).value.run.fatal
  {
  }

  lemma MainStepKeepsEnd(d: State, id: TaskId)
    requires Structured(d) && MainStep(d).Some? && Ended(d, id)
    ensures Ended(MainStep(d).value, id)
  {
    if d.work.Spawning? {
      assert HandleOk(d, d.work.name);
    }
  }

  lemma AcceptKeepsTasks(d: State, cmd: Command, d': State)
    requires Accept(d, cmd, d')
    ensures d'.tasks == d.tasks && d'.aborted == d.aborted && !d'.work.Aborting?
  {
  }

  lemma StepKeepsEnd(d: State, d': State, id: TaskId)
    requires Structured(d) && Step(d, d') && Ended(d, id)
    ensures Ended(d', id)
  {
    if MainStep(d) == Some(d') {
      MainStepKeepsEnd(d, id);
    } else if exists other, input, now :: TaskStep(d, other, input, now, d') {
      var other, input, now :| TaskStep(d, other, input, now, d');
      if other == id {
        ActKeepsEnd(d.tasks[id], input);
      }
    } else if !AnswerTaken(d, d') {
      var cmd :| Accept(d, cmd, d');
      AcceptKeepsTasks(d, cmd, d');
    }
  }

  lemma NextKeepsEnd(ds: seq<State>, i: nat, id: TaskId)
    requires IsRun(ds) && i < |ds| - 1 && Ended(ds[i], id)
    ensures Ended(ds[i + 1], id)
  {
    RunStructured(ds, i);
    StepKeepsEnd(ds[i], ds[i + 1], id);
  }

  ghost predicate EndsLast(ds: seq<State>, id: TaskId) {
    forall i | 0 <= i < |ds| - 1 && Ended(ds[i], id) :: Ended(ds[i + 1], id)
  }

  lemma {:induction false} EndStays(ds: seq<State>, i: nat, j: nat, id: TaskId)
    requires EndsLast(ds, id) && i <= j < |ds| && Ended(ds[i], id)
    ensures Ended(ds[j], id)
    decreases j - i
  {
    if i < j {
      EndStays(ds, i + 1, j, id);
    }
  }

  /** In every run of the daemon, a task that has ended begins no connect any more. */
  lemma EndedTaskConnectsNoMore(ds: seq<State>, i: nat, j: nat, id: TaskId, input: Input)
    requires IsRun(ds) && i <= j < |ds| && Ended(ds[i], id)
    ensures id in ds[j].tasks && !BeginsConnect(ds[j].tasks[id], input)
  {
    forall k | 0 <= k < |ds| - 1 && Ended(ds[k], id) ensures Ended(ds[k + 1], id) {
      NextKeepsEnd(ds, k, id);
    }
    EndStays(ds, i, j, id);
    RunHealthy(ds, j);
    assert Good(ds[j].tasks[id]);
  }
}
