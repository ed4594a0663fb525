/** What the commands that concern one tunnel leave behind, whatever the tunnel tasks do meanwhile. */
module DaemonCommands {
  import opened Base
  import opened TunnelTask
  import opened Daemon
  import opened DaemonTasks
  import opened DaemonReload
  import PC = ProjectConfig

  /** A command from the moment it is accepted to the moment the loop is ready for the next one. */
  ghost predicate IsCommand(ds: seq<State>, cmd: Command) {
    && |ds| >= 2 && Reachable(ds[0]) && Accept(ds[0], cmd, ds[1])
    && (forall i | 1 <= i < |ds| - 1 :: InnerStep(ds[i], ds[i + 1]))
    && AtCommand(ds[|ds| - 1])
  }

  /** What a command means to do with its tunnel. */
  datatype Plan =
    | Nothing(name: string)
    | StartOnly(name: string, cfg: PC.TunnelConfig)
    | StopOnly(name: string)
    | Restart(name: string, cfg: PC.TunnelConfig)

  function OpsOf(p: Plan): seq<Op> {
    match p
    case Nothing(_) => []
    case StartOnly(name, cfg) => [Start(name, cfg)]
    case StopOnly(name) => [Stop(name)]
    case Restart(name, cfg) => [Cache(name, cfg), Stop(name), Start(name, cfg)]
  }

  // ----- the invariant of such a command, with `k` of its operations begun

  predicate StopBegun(p: Plan, k: nat) {
    (p.StopOnly? && k >= 1) || (p.Restart? && k >= 2)
  }

  predicate StartBegun(p: Plan, k: nat) {
    (p.StartOnly? && k >= 1) || (p.Restart? && k >= 3)
  }

  /** Tunnels of other names keep their tasks. */
  ghost predicate OthersKept(d0: State, name: string, d: State) {
    forall n | n != name :: (n in d.tunnels <==> n in d0.tunnels)
                            && (n in d0.tunnels ==> d.tunnels[n].chan == d0.tunnels[n].chan)
  }

  ghost predicate SameTask(d0: State, name: string, d: State) {
    && (name in d.tunnels <==> name in d0.tunnels)
    && (name in d0.tunnels ==> d.tunnels[name].chan == d0.tunnels[name].chan)
  }

  /** A task that did not exist before, showing the configuration. */
  ghost predicate Renewed(d0: State, p: Plan, d: State) {
    && (p.StartOnly? || p.Restart?) && p.name in d.tunnels
    && d.tunnels[p.name].chan >= d0.next && Displays(d.tunnels[p.name], Some(p.cfg))
  }

  ghost predicate OldTaskLeaves(d0: State, name: string, d: State) {
    name in d0.tunnels ==> d0.tunnels[name].chan in VictimIds(d.work) || d0.tunnels[name].chan in d.aborted
  }

  ghost predicate OwnTunnel(d0: State, p: Plan, k: nat, d: State) {
    && (StopBegun(p, k) ==> OldTaskLeaves(d0, p.name, d))
    && if StartBegun(p, k) && (p.Restart? || p.name !in d0.tunnels) then
         (Renewed(d0, p, d) && !d.work.Inserting?) || (d.work == Inserting(p.name, p.cfg) && p.name !in d.tunnels)
       else if StopBegun(p, k) then p.name !in d.tunnels && !d.work.Inserting?
       else SameTask(d0, p.name, d) && d.work.Ready?
  }

  ghost predicate CacheKept(d0: State, p: Plan, k: nat, d: State) {
    d.cache == if p.Restart? && k >= 1 then d0.cache[p.name := p.cfg] else d0.cache
  }

  ghost predicate Stage(d0: State, p: Plan, k: nat, d: State) {
    && Structured(d) && k <= |OpsOf(p)| && d.todo == OpsOf(p)[k..] && d.next >= d0.next
    && OthersKept(d0, p.name, d) && OwnTunnel(d0, p, k, d) && CacheKept(d0, p, k, d)
  }

  lemma ShapeOthers(d0: State, name: string, d: State, d': State)
    requires OthersKept(d0, name, d) && SameShape(d, d')
    ensures OthersKept(d0, name, d')
  {
  }

  lemma ShapeOwn(d0: State, p: Plan, k: nat, d: State, d': State)
    requires OwnTunnel(d0, p, k, d) && SameShape(d, d')
    ensures OwnTunnel(d0, p, k, d')
  {
    if p.name in d.tunnels {
      assert d'.tunnels[p.name].chan == d.tunnels[p.name].chan;
    }
  }

  lemma ShapeStage(d0: State, p: Plan, k: nat, d: State, d': State)
    requires Stage(d0, p, k, d) && SameShape(d, d')
    ensures Stage(d0, p, k, d')
  {
    ShapeStructured(d, d');
    ShapeOthers(d0, p.name, d, d');
    ShapeOwn(d0, p, k, d, d');
  }

  /** Beginning a Stop moves the tunnel to the victims. */
  lemma BeginStopStage(d0: State, p: Plan, k: nat, d: State)
    requires Stage(d0, p, k, d) && d.work.Ready? && d.todo != [] && d.todo[0] == Stop(p.name)
    ensures Stage(d0, p, k + 1, MainStep(d).value)
  {
    MainStepStructured(d);
    var d' := MainStep(d).value;
    assert d'.todo == OpsOf(p)[k + 1..];
    if p.name in d0.tunnels {
      assert d'.work == Cancelling([d.tunnels[p.name]]);
      assert Victims(d'.work)[0].chan == d0.tunnels[p.name].chan;
    }
  }

  lemma BeginOtherStage(d0: State, p: Plan, k: nat, d: State)
    requires Stage(d0, p, k, d) && d.work.Ready? && d.todo != [] && !d.todo[0].Stop?
    ensures Stage(d0, p, k + 1, MainStep(d).value)
  {
    MainStepStructured(d);
    assert MainStep(d).value.todo == OpsOf(p)[k + 1..];
    assert VictimIds(MainStep(d).value.work) == VictimIds(d.work);
  }

  /** A step inside an operation adds at most the tunnel that is being inserted. */
  lemma WorkAdds(d: State, n: string)
    requires !d.work.Ready? && MainStep(d).Some? && n in MainStep(d).value.tunnels && n !in d.tunnels
    ensures d.work.Inserting? && d.work.name == n
    ensures MainStep(d).value.tunnels[n] == NewHandle(d.next, d.work.cfg)
  {
  }

  lemma WorkOthers(d0: State, p: Plan, k: nat, d: State)
    requires Structured(d) && OthersKept(d0, p.name, d) && OwnTunnel(d0, p, k, d)
    requires !d.work.Ready? && MainStep(d).Some?
    ensures OthersKept(d0, p.name, MainStep(d).value)
  {
    var d' := MainStep(d).value;
    forall n | n != p.name
      ensures (n in d'.tunnels <==> n in d0.tunnels) && (n in d0.tunnels ==> d'.tunnels[n].chan == d0.tunnels[n].chan)
    {
      if n in d.tunnels {
        WorkKeepsOthers(d, n);
      } else if n in d'.tunnels {
        WorkAdds(d, n);
      }
    }
  }

  lemma WorkOwn(d0: State, p: Plan, k: nat, d: State)
    requires Structured(d) && OwnTunnel(d0, p, k, d) && d.next >= d0.next
    requires !d.work.Ready? && MainStep(d).Some?
    ensures OwnTunnel(d0, p, k, MainStep(d).value) && MainStep(d).value.next >= d0.next
  {
    var d' := MainStep(d).value;
    if StopBegun(p, k) && p.name in d0.tunnels && d0.tunnels[p.name].chan in VictimIds(d.work) {
      VictimAdvances(d, d0.tunnels[p.name].chan);
    }
    if p.name in d.tunnels {
      WorkKeepsOthers(d, p.name);
    } else if p.name in d'.tunnels {
      WorkAdds(d, p.name);
    }
  }

  lemma WorkKeepsQueue(d: State)
    requires !d.work.Ready? && MainStep(d).Some?
    ensures MainStep(d).value.todo == d.todo && MainStep(d).value.cache == d.cache
  {
  }

  lemma WorkStage(d0: State, p: Plan, k: nat, d: State)
    requires Stage(d0, p, k, d) && !d.work.Ready? && MainStep(d).Some?
    ensures Stage(d0, p, k, MainStep(d).value)
  {
    MainStepStructured(d);
    WorkOthers(d0, p, k, d);
    WorkOwn(d0, p, k, d);
    WorkKeepsQueue(d);
  }

  lemma InnerStage(d0: State, p: Plan, k: nat, d: State, d': State) returns (k': nat)
    requires Stage(d0, p, k, d) && InnerStep(d, d')
    ensures Stage(d0, p, k', d')
  {
    k' := k;
    if MainStep(d) == Some(d') {
      if !d.work.Ready? {
        WorkStage(d0, p, k, d);
      } else {
        k' := k + 1;
        if d.todo[0].Stop? {
          BeginStopStage(d0, p, k, d);
        } else {
          BeginOtherStage(d0, p, k, d);
        }
      }
    } else {
      var id, input, now :| TaskStep(d, id, input, now, d');
      TaskStepShape(d, id, input, now, d');
      ShapeStage(d0, p, k, d, d');
    }
  }

  ghost predicate Carries(cmd: Command, d0: State, p: Plan) {
    match cmd
    case StartTunnel(name, stored) =>
      p == if name in d0.cache then StartOnly(name, d0.cache[name])
           else if stored.Some? then StartOnly(name, stored.value) else Nothing(name)
    case StopTunnel(name) => p == StopOnly(name)
    case ReloadTunnel(name, file) =>
      p == if file.Some? && name in file.value && file.value[name].Some? then Restart(name, file.value[name].value)
           else Nothing(name)
    case _ => false
  }

  lemma {:induction false} StageThroughout(ds: seq<State>, cmd: Command, p: Plan, i: nat) returns (k: nat)
    requires IsCommand(ds, cmd) && Carries(cmd, ds[0], p) && 1 <= i < |ds|
    ensures Stage(ds[0], p, k, ds[i])
  {
    if i == 1 {
      ReachableStructured(ds[0]);
      AcceptStructured(ds[0], cmd, ds[1]);
      assert OpsOf(p)[0..] == OpsOf(p);
      k := 0;
    } else {
      k := StageThroughout(ds, cmd, p, i - 1);
      assert InnerStep(ds[i - 1], ds[i - 1 + 1]);
      k := InnerStage(ds[0], p, k, ds[i - 1], ds[i]);
    }
  }

  lemma CommandEnded(ds: seq<State>, cmd: Command, p: Plan)
    requires IsCommand(ds, cmd) && Carries(cmd, ds[0], p)
    ensures Stage(ds[0], p, |OpsOf(p)|, ds[|ds| - 1]) && VictimIds(ds[|ds| - 1].work) == {}
  {
    var k := StageThroughout(ds, cmd, p, |ds| - 1);
    assert OpsOf(p)[k..] == [];
  }

  // ----- main results

  lemma NewTask(d0: State, p: Plan, d: State)
    requires Structured(d0) && Structured(d) && d.work.Ready? && Renewed(d0, p, d)
    ensures d.tunnels[p.name].chan !in d0.tasks && d.tunnels[p.name].chan in d.tasks
  {
    assert HandleOk(d, p.name);
  }

  /**
   A tunnel that is not running is started from the cached configuration if there is one and from the stored one
   otherwise, with a new task; a running tunnel keeps its task, and so does every other tunnel.
   */
  lemma StartTunnelEnds(ds: seq<State>, name: string, stored: Option<PC.TunnelConfig>)
    requires IsCommand(ds, StartTunnel(name, stored))
    ensures var d0, d := ds[0], ds[|ds| - 1];
            var cfg := if name in d0.cache then Some(d0.cache[name]) else stored;
            && OthersKept(d0, name, d) && d.cache == d0.cache
            && if name in d0.tunnels || cfg.None? then SameTask(d0, name, d)
               else
                 && name in d.tunnels && Displays(d.tunnels[name], cfg)
                 && d.tunnels[name].chan !in d0.tasks && d.tunnels[name].chan in d.tasks
  {
    var d0, d := ds[0], ds[|ds| - 1];
    var p := if name in d0.cache then StartOnly(name, d0.cache[name])
             else if stored.Some? then StartOnly(name, stored.value) else Nothing(name);
    CommandEnded(ds, StartTunnel(name, stored), p);
    ReachableStructured(d0);
    if p.StartOnly? && name !in d0.tunnels {
      NewTask(d0, p, d);
    }
  }

  /** A stopped tunnel is gone and its task aborted; every other tunnel keeps its task. */
  lemma StopTunnelEnds(ds: seq<State>, name: string)
    requires IsCommand(ds, StopTunnel(name))
    ensures var d0, d := ds[0], ds[|ds| - 1];
            && d.tunnels.Keys == d0.tunnels.Keys - {name} && OthersKept(d0, name, d) && d.cache == d0.cache
            && (name in d0.tunnels ==> d0.tunnels[name].chan in d.aborted)
  {
    CommandEnded(ds, StopTunnel(name), StopOnly(name));
    var d0, d := ds[0], ds[|ds| - 1];
    forall n ensures n in d.tunnels <==> n in d0.tunnels && n != name {
    }
  }

  /**
   A tunnel that the file has, enabled and convertible, runs with a new task that shows the file's configuration,
   its old task is aborted, and the configuration is cached; otherwise nothing changes.
   */
  lemma ReloadTunnelEnds(ds: seq<State>, name: string, file: Option<Loaded>)
    requires IsCommand(ds, ReloadTunnel(name, file))
    ensures var d0, d := ds[0], ds[|ds| - 1];
            && OthersKept(d0, name, d)
            && if file.Some? && name in file.value && file.value[name].Some? then
                 && name in d.tunnels && Displays(d.tunnels[name], file.value[name])
                 && d.tunnels[name].chan !in d0.tasks && d.tunnels[name].chan in d.tasks
                 && (name in d0.tunnels ==> d0.tunnels[name].chan in d.aborted)
                 && d.cache == d0.cache[name := file.value[name].value]
               else SameTask(d0, name, d) && d.cache == d0.cache
  {
    var d0, d := ds[0], ds[|ds| - 1];
    ReachableStructured(d0);
    if file.Some? && name in file.value && file.value[name].Some? {
      var p := Restart(name, file.value[name].value);
      CommandEnded(ds, ReloadTunnel(name, file), p);
      NewTask(d0, p, d);
    } else {
      CommandEnded(ds, ReloadTunnel(name, file), Nothing(name));
    }
  }
}
