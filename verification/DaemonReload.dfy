/** `Reload` brings the running tunnels to the enabled tunnels of the file, whatever the tunnel tasks do meanwhile. */
module DaemonReload {
  import opened Base
  import opened TunnelTask
  import opened Daemon
  import opened DaemonTasks
  import PC = ProjectConfig

  ghost predicate Reachable(d: State) {
    exists run: seq<State> :: IsRun(run) && run[|run| - 1] == d
  }

  lemma ReachableStructured(d: State)
    requires Reachable(d)
    ensures Structured(d)
  {
    var run: seq<State> :| IsRun(run) && run[|run| - 1] == d;
    RunStructured(run, |run| - 1);
  }

  /** A Reload from the moment it is accepted to the moment the loop is ready for the next command. */
  ghost predicate IsReload(ds: seq<State>, file: Loaded) {
    && |ds| >= 2 && Reachable(ds[0]) && Accept(ds[0], Reload(Some(file)), ds[1])
    && (forall i | 1 <= i < |ds| - 1 :: InnerStep(ds[i], ds[i + 1]))
    && AtCommand(ds[|ds| - 1])
  }

  ghost predicate AllConvert(file: Loaded) {
    forall n | n in file :: file[n].Some?
  }

  // ----- the operations a Reload queues

  lemma {:induction false} StartOpsAre(file: Loaded, names: seq<string>, op: Op)
    requires (forall n | n in names :: n in file) && op in StartOps(file, names)
    ensures (op.Cache? || op.StartIfAbsent?) && op.name in names && file[op.name] == Some(op.cfg)
    decreases |names|
  {
    if op in StartOps(file, names[1..]) {
      StartOpsAre(file, names[1..], op);
    }
  }

  lemma {:induction false} StartOpsCover(file: Loaded, names: seq<string>, n: string)
    requires (forall m | m in names :: m in file) && n in names && file[n].Some?
    ensures StartIfAbsent(n, file[n].value) in StartOps(file, names)
    decreases |names|
  {
    if n != names[0] {
      StartOpsCover(file, names[1..], n);
    } else {
      assert [Cache(n, file[n].value), StartIfAbsent(n, file[n].value)][1] in StartOps(file, names);
    }
  }

  lemma StopOpsAre(names: seq<string>, op: Op)
    ensures op in StopOps(names) <==> op.Stop? && op.name in names
  {
    if op.Stop? && op.name in names {
      var i :| 0 <= i < |names| && names[i] == op.name;
      assert StopOps(names)[i] == op;
    }
  }

  // ----- the invariant of a Reload in progress

  ghost predicate Planned(file: Loaded, op: Op) {
    if op.Stop? then op.name !in file else op.name in file && file[op.name] == Some(op.cfg)
  }

  predicate WillStart(d: State, n: string) {
    || (d.work.Inserting? && d.work.name == n)
    || exists op | op in d.todo :: (op.Start? || op.StartIfAbsent?) && op.name == n
  }

  ghost predicate PlanOk(file: Loaded, d: State) {
    && (forall op | op in d.todo :: Planned(file, op))
    && (d.work.Inserting? ==> d.work.name in file && file[d.work.name] == Some(d.work.cfg))
    && (forall n | n in file :: n in d.tunnels || WillStart(d, n))
    && (forall n | n in d.tunnels :: n in file || Stop(n) in d.todo)
  }

  ghost predicate Kept(d0: State, file: Loaded, d: State) {
    forall n | n in d0.tunnels && n in file :: n in d.tunnels && d.tunnels[n].chan == d0.tunnels[n].chan
  }

  ghost predicate Leaves(d0: State, d: State, n: string)
    requires n in d0.tunnels
  {
    var id := d0.tunnels[n].chan;
    (n in d.tunnels && d.tunnels[n].chan == id) || id in VictimIds(d.work) || id in d.aborted
  }

  /** The handle displays the protocol and port of the configuration. */
  predicate Displays(h: Handle, cfg: Option<PC.TunnelConfig>) {
    cfg.Some? && h.protocol == ProtocolName(cfg.value.protocol) && h.localPort == cfg.value.protocol.localPort
  }

  ghost predicate IsNew(d0: State, file: Loaded, n: string, h: Handle) {
    h.chan >= d0.next && n in file && Displays(h, file[n])
  }

  ghost predicate Tracked(d0: State, file: Loaded, d: State) {
    && Kept(d0, file, d)
    && (forall n | n in d0.tunnels && n !in file :: Leaves(d0, d, n))
    && (forall n | n in d.tunnels && n !in d0.tunnels :: IsNew(d0, file, n, d.tunnels[n]))
    && d.next >= d0.next
  }

  ghost predicate Reloading(d0: State, file: Loaded, d: State) {
    Structured(d) && PlanOk(file, d) && Tracked(d0, file, d)
  }

  lemma AcceptedReloading(d0: State, file: Loaded, d: State)
    requires Structured(d0) && Accept(d0, Reload(Some(file)), d) && AllConvert(file)
    ensures Reloading(d0, file, d)
  {
    AcceptStructured(d0, Reload(Some(file)), d);
    var gone, kept :| Lists(gone, d0.tunnels.Keys - file.Keys) && Lists(kept, file.Keys)
                      && d == d0.(todo := StopOps(gone) + StartOps(file, kept));
    forall op | op in d.todo ensures Planned(file, op) {
      if op in StopOps(gone) {
        StopOpsAre(gone, op);
      } else {
        StartOpsAre(file, kept, op);
      }
    }
    forall n | n in file ensures WillStart(d, n) {
      StartOpsCover(file, kept, n);
      var op := StartIfAbsent(n, file[n].value);
      assert op in d.todo;
    }
    forall n | n in d.tunnels && n !in file ensures Stop(n) in d.todo {
      StopOpsAre(gone, Stop(n));
    }
  }

  lemma ShapeReloading(d0: State, file: Loaded, d: State, d': State)
    requires Reloading(d0, file, d) && SameShape(d, d')
    ensures Reloading(d0, file, d')
  {
    ShapeStructured(d, d');
    forall n | n in file ensures n in d'.tunnels || WillStart(d', n) {
      assert n in d.tunnels || WillStart(d, n);
    }
    forall n | n in d0.tunnels && n !in file ensures Leaves(d0, d', n) {
      assert Leaves(d0, d, n);
    }
    forall n | n in d'.tunnels && n !in d0.tunnels ensures IsNew(d0, file, n, d'.tunnels[n]) {
      assert IsNew(d0, file, n, d.tunnels[n]);
    }
  }

  /** Popping the head of the queue leaves every other queued operation. */
  lemma OtherOpsRemain(todo: seq<Op>, op: Op)
    requires todo != [] && op in todo && op != todo[0]
    ensures op in todo[1..]
  {
    assert todo == [todo[0]] + todo[1..];
  }

  lemma BeginPlan(file: Loaded, d: State)
    requires PlanOk(file, d) && d.work.Ready? && d.todo != []
    ensures PlanOk(file, MainStep(d).value)
  {
    var d' := MainStep(d).value;
    var op := d.todo[0];
    assert Planned(file, op);
    forall o | o in d'.todo ensures Planned(file, o) {
      if o !in d.todo {
        assert op.StartIfAbsent? && o == Start(op.name, op.cfg);
      }
    }
    forall n | n in file ensures n in d'.tunnels || WillStart(d', n) {
      assert n in d.tunnels || WillStart(d, n);
      if n !in d.tunnels {
        var o :| o in d.todo && (o.Start? || o.StartIfAbsent?) && o.name == n;
        if o != op {
          OtherOpsRemain(d.todo, o);
          assert o in d'.todo;
        } else if op.StartIfAbsent? {
          assert d'.todo[0] == Start(n, op.cfg);
        }
      }
    }
    forall n | n in d'.tunnels ensures n in file || Stop(n) in d'.todo {
      if n !in file {
        assert Stop(n) in d.todo;
        assert Stop(n) != op;
        OtherOpsRemain(d.todo, Stop(n));
      }
    }
  }

  /** Beginning an operation moves no handle, except the stopped one to the victims. */
  lemma BeginMoves(d: State, n: string)
    requires d.work.Ready? && d.todo != [] && n in d.tunnels
    ensures var d' := MainStep(d).value;
            || (n in d'.tunnels && d'.tunnels[n] == d.tunnels[n])
            || (d.todo[0] == Stop(n) && d'.work == Cancelling([d.tunnels[n]]))
  {
  }

  lemma BeginKeepsRest(d: State)
    requires d.work.Ready? && d.todo != []
    ensures var d' := MainStep(d).value;
            && d'.next == d.next && d'.aborted == d.aborted
            && (forall n | n in d'.tunnels :: n in d.tunnels && d'.tunnels[n] == d.tunnels[n])
  {
  }

  lemma BeginTracked(d0: State, file: Loaded, d: State)
    requires Reloading(d0, file, d) && d.work.Ready? && d.todo != []
    ensures Tracked(d0, file, MainStep(d).value)
  {
    var d' := MainStep(d).value;
    assert Planned(file, d.todo[0]);
    BeginKeepsRest(d);
    forall n | n in d0.tunnels && n in file ensures n in d'.tunnels && d'.tunnels[n].chan == d0.tunnels[n].chan {
      BeginMoves(d, n);
    }
    forall n | n in d0.tunnels && n !in file ensures Leaves(d0, d', n) {
      assert Leaves(d0, d, n);
      assert VictimIds(d.work) == {};
      if n in d.tunnels && d.tunnels[n].chan == d0.tunnels[n].chan {
        BeginMoves(d, n);
        assert d'.work == Cancelling([d.tunnels[n]]) ==> Victims(d'.work)[0].chan == d0.tunnels[n].chan;
      }
    }
  }

  lemma WorkPlan(file: Loaded, d: State)
    requires PlanOk(file, d) && !d.work.Ready? && MainStep(d).Some?
    ensures PlanOk(file, MainStep(d).value)
  {
    var d' := MainStep(d).value;
    forall n | n in file ensures n in d'.tunnels || WillStart(d', n) {
      assert n in d.tunnels || WillStart(d, n);
    }
  }

  /** A task being stopped stays with the loop until it is aborted. */
  lemma VictimAdvances(d: State, id: TaskId)
    requires VictimsOk(d) && id in VictimIds(d.work) && MainStep(d).Some?
    ensures id in VictimIds(MainStep(d).value.work) || id in MainStep(d).value.aborted
  {
    var d' := MainStep(d).value;
    var vs := d.work.victims;
    var i :| 0 <= i < |vs| && vs[i].chan == id;
    if d.work.Cancelling? {
      assert d'.work.victims[i].chan == id;
    } else if i > 0 {
      assert d'.work.victims[i - 1].chan == id;
    }
  }

  lemma WorkKeepsOthers(d: State, n: string)
    requires Structured(d) && !d.work.Ready? && MainStep(d).Some? && n in d.tunnels
    ensures n in MainStep(d).value.tunnels
    ensures MainStep(d).value.tunnels[n] == d.tunnels[n].(task := MainStep(d).value.tunnels[n].task)
    ensures MainStep(d).value.next >= d.next && d.aborted <= MainStep(d).value.aborted
  {
  }

  lemma WorkTracked(d0: State, file: Loaded, d: State)
    requires Reloading(d0, file, d) && !d.work.Ready? && MainStep(d).Some?
    ensures Tracked(d0, file, MainStep(d).value)
  {
    var d' := MainStep(d).value;
    forall n | n in d0.tunnels && n in file ensures n in d'.tunnels && d'.tunnels[n].chan == d0.tunnels[n].chan {
      WorkKeepsOthers(d, n);
    }
    forall n | n in d0.tunnels && n !in file ensures Leaves(d0, d', n) {
      assert Leaves(d0, d, n);
      var id := d0.tunnels[n].chan;
      if id in VictimIds(d.work) {
        VictimAdvances(d, id);
      } else if n in d.tunnels {
        WorkKeepsOthers(d, n);
      }
    }
    forall n | n in d'.tunnels && n !in d0.tunnels ensures IsNew(d0, file, n, d'.tunnels[n]) {
      if n in d.tunnels {
        assert IsNew(d0, file, n, d.tunnels[n]);
        WorkKeepsOthers(d, n);
      }
    }
  }

  lemma InnerReloading(d0: State, file: Loaded, d: State, d': State)
    requires Reloading(d0, file, d) && InnerStep(d, d')
    ensures Reloading(d0, file, d')
  {
    if MainStep(d) == Some(d') {
      MainStepStructured(d);
      if d.work.Ready? {
        BeginPlan(file, d);
        BeginTracked(d0, file, d);
      } else {
        WorkPlan(file, d);
        WorkTracked(d0, file, d);
      }
    } else {
      var id, input, now :| TaskStep(d, id, input, now, d');
      TaskStepShape(d, id, input, now, d');
      ShapeReloading(d0, file, d, d');
    }
  }

  lemma {:induction false} ReloadingThroughout(ds: seq<State>, file: Loaded, i: nat)
    requires IsReload(ds, file) && AllConvert(file) && 1 <= i < |ds|
    ensures Reloading(ds[0], file, ds[i])
  {
    if i == 1 {
      ReachableStructured(ds[0]);
      AcceptedReloading(ds[0], file, ds[1]);
    } else {
      ReloadingThroughout(ds, file, i - 1);
      assert InnerStep(ds[i - 1], ds[i - 1 + 1]);
      InnerReloading(ds[0], file, ds[i - 1], ds[i]);
    }
  }

  // ----- main results

  /**
   Convergence: after a Reload the tunnels in the map are exactly those of the file, tunnels that were
   running and stay keep their task, tunnels that left the file have theirs aborted, and every other
   tunnel runs a task that did not exist before and shows the protocol and port of the file.
   */
  lemma ReloadConverges(ds: seq<State>, file: Loaded)
    requires IsReload(ds, file) && AllConvert(file)
    ensures var d0, d := ds[0], ds[|ds| - 1];
            && d.tunnels.Keys == file.Keys
            && (forall n | n in d0.tunnels && n in file :: d.tunnels[n].chan == d0.tunnels[n].chan)
            && (forall n | n in d0.tunnels && n !in file :: d0.tunnels[n].chan in d.aborted)
            && (forall n | n in file && n !in d0.tunnels ::
                  && d.tunnels[n].chan !in d0.tasks && d.tunnels[n].chan in d.tasks
                  && Displays(d.tunnels[n], file[n]))
  {
    var d0, d := ds[0], ds[|ds| - 1];
    ReachableStructured(d0);
    ReloadingThroughout(ds, file, |ds| - 1);
    assert forall n | n in file :: n in d.tunnels || WillStart(d, n);
    assert d.tunnels.Keys == file.Keys;
    forall n | n in d0.tunnels && n !in file ensures d0.tunnels[n].chan in d.aborted {
      assert Leaves(d0, d, n);
    }
    forall n | n in file && n !in d0.tunnels
      ensures d.tunnels[n].chan !in d0.tasks && d.tunnels[n].chan in d.tasks && Displays(d.tunnels[n], file[n])
    {
      assert HandleOk(d, n) && IsNew(d0, file, n, d.tunnels[n]);
    }
  }

  // ----- the cache

  /** Every tunnel of the file has its new configuration cached, or queued to be. */
  ghost predicate CachePlan(file: Loaded, d: State) {
    && (forall op | op in d.todo && op.Cache? :: Planned(file, op))
    && (forall n | n in file :: Cached(file, d, n))
  }

  ghost predicate Cached(file: Loaded, d: State, n: string)
    requires n in file
  {
    (n in d.cache && file[n] == Some(d.cache[n])) || (file[n].Some? && Cache(n, file[n].value) in d.todo)
  }

  lemma {:induction false} StartOpsCache(file: Loaded, names: seq<string>, n: string)
    requires (forall m | m in names :: m in file) && n in names && file[n].Some?
    ensures Cache(n, file[n].value) in StartOps(file, names)
    decreases |names|
  {
    if n != names[0] {
      StartOpsCache(file, names[1..], n);
    } else {
      assert [Cache(n, file[n].value), StartIfAbsent(n, file[n].value)][0] in StartOps(file, names);
    }
  }

  lemma AcceptedCachePlan(d0: State, file: Loaded, d: State)
    requires Accept(d0, Reload(Some(file)), d) && AllConvert(file)
    ensures CachePlan(file, d)
  {
    var gone, kept :| Lists(gone, d0.tunnels.Keys - file.Keys) && Lists(kept, file.Keys)
                      && d == d0.(todo := StopOps(gone) + StartOps(file, kept));
    forall op | op in d.todo && op.Cache? ensures Planned(file, op) {
      StopOpsAre(gone, op);
      StartOpsAre(file, kept, op);
    }
    forall n | n in file ensures Cached(file, d, n) {
      StartOpsCache(file, kept, n);
    }
  }

  /** Beginning an operation queues no other Cache, and runs the one it takes. */
  lemma BeginCaches(d: State, cfg: PC.TunnelConfig, n: string)
    requires d.work.Ready? && d.todo != []
    ensures var d' := MainStep(d).value;
            && (forall o | o in d'.todo && o.Cache? :: o in d.todo)
            && (Cache(n, cfg) in d.todo ==>
                  Cache(n, cfg) in d'.todo || (d.todo[0] == Cache(n, cfg) && n in d'.cache && d'.cache[n] == cfg))
            && (n in d.cache ==> n in d'.cache && (d'.cache[n] == d.cache[n] || d.todo[0] == Cache(n, d'.cache[n])))
  {
    if Cache(n, cfg) in d.todo && Cache(n, cfg) != d.todo[0] {
      OtherOpsRemain(d.todo, Cache(n, cfg));
    }
  }

  lemma MainStepCached(file: Loaded, d: State, n: string)
    requires CachePlan(file, d) && MainStep(d).Some? && n in file
    ensures Cached(file, MainStep(d).value, n)
  {
    assert Cached(file, d, n);
    if d.work.Ready? {
      assert d.todo[0] in d.todo;
      BeginCaches(d, file[n].value, n);
    }
  }

  lemma MainStepCachePlan(file: Loaded, d: State)
    requires CachePlan(file, d) && MainStep(d).Some?
    ensures CachePlan(file, MainStep(d).value)
  {
    forall n | n in file ensures Cached(file, MainStep(d).value, n) {
      MainStepCached(file, d, n);
    }
    assert forall o | o in MainStep(d).value.todo && o.Cache? :: o in d.todo;
  }

  lemma {:induction false} CachePlanThroughout(ds: seq<State>, file: Loaded, i: nat)
    requires IsReload(ds, file) && AllConvert(file) && 1 <= i < |ds|
    ensures CachePlan(file, ds[i])
  {
    if i == 1 {
      AcceptedCachePlan(ds[0], file, ds[1]);
    } else {
      CachePlanThroughout(ds, file, i - 1);
      var d, d' := ds[i - 1], ds[i];
      assert InnerStep(ds[i - 1], ds[i - 1 + 1]);
      if MainStep(d) == Some(d') {
        MainStepCachePlan(file, d);
      } else {
        var id, input, now :| TaskStep(d, id, input, now, d');
        forall n | n in file ensures Cached(file, d', n) {
          assert Cached(file, d, n);
        }
      }
    }
  }

  /** After a Reload a start command uses the configuration of the file, also for a tunnel that kept its old task. */
  lemma ReloadCachesFile(ds: seq<State>, file: Loaded)
    requires IsReload(ds, file) && AllConvert(file)
    ensures forall n | n in file :: n in ds[|ds| - 1].cache && file[n] == Some(ds[|ds| - 1].cache[n])
  {
    CachePlanThroughout(ds, file, |ds| - 1);
    assert forall n | n in file :: Cached(file, ds[|ds| - 1], n);
  }

  // ----- idempotence

  /** With every running tunnel in the file and every tunnel of the file running, a Reload touches no task. */
  ghost predicate Steady(d0: State, d: State) {
    && d.tunnels.Keys == d0.tunnels.Keys && d.tasks.Keys == d0.tasks.Keys
    && (forall n | n in d0.tunnels ::
          d.tunnels[n].chan == d0.tunnels[n].chan && d.tunnels[n].task == d0.tunnels[n].task)
    && d.aborted == d0.aborted && d.next == d0.next && d.work.Ready?
    && (forall op | op in d.todo :: op.Cache? || (op.StartIfAbsent? && op.name in d0.tunnels))
  }

  lemma SteadyStep(d0: State, d: State, d': State)
    requires Steady(d0, d) && InnerStep(d, d')
    ensures Steady(d0, d')
  {
    if MainStep(d) == Some(d') {
      assert d.todo[0] in d.todo;
      assert forall op | op in d'.todo :: op in d.todo;
    } else {
      var id, input, now :| TaskStep(d, id, input, now, d');
      TaskStepShape(d, id, input, now, d');
    }
  }

  lemma {:induction false} SteadyThroughout(ds: seq<State>, file: Loaded, i: nat)
    requires IsReload(ds, file) && ds[0].tunnels.Keys == file.Keys && i < |ds|
    ensures Steady(ds[0], ds[i])
  {
    if i == 1 {
      var gone, kept :| Lists(gone, ds[0].tunnels.Keys - file.Keys) && Lists(kept, file.Keys)
                        && ds[1] == ds[0].(todo := StopOps(gone) + StartOps(file, kept));
      forall op | op in ds[1].todo ensures op.Cache? || (op.StartIfAbsent? && op.name in ds[0].tunnels) {
        if op in StopOps(gone) {
          StopOpsAre(gone, op);
          assert false;
        } else {
          StartOpsAre(file, kept, op);
        }
      }
    } else if i > 1 {
      SteadyThroughout(ds, file, i - 1);
      assert InnerStep(ds[i - 1], ds[i - 1 + 1]);
      SteadyStep(ds[0], ds[i - 1], ds[i]);
    }
  }

  /**
   Idempotence: a second Reload of a file with the same enabled names starts, stops and aborts nothing,
   whatever it converts them to now.
   */
  lemma SecondReloadChangesNoTask(first: seq<State>, second: seq<State>, file: Loaded, file2: Loaded)
    requires IsReload(first, file) && AllConvert(file) && file2.Keys == file.Keys
    requires IsReload(second, file2) && second[0] == first[|first| - 1]
    ensures var d0, d := second[0], second[|second| - 1];
            && d.tunnels.Keys == d0.tunnels.Keys && d.tasks.Keys == d0.tasks.Keys && d.aborted == d0.aborted
            && (forall n | n in d0.tunnels ::
                  d.tunnels[n].chan == d0.tunnels[n].chan && d.tunnels[n].task == d0.tunnels[n].task)
  {
    ReloadConverges(first, file);
    SteadyThroughout(second, file2, |second| - 1);
  }

  /**
   For every validated configuration, the running tunnels after a Reload are exactly its enabled tunnels, and a new
   one shows the protocol and port that the file says.
   */
  lemma ValidatedReloadConverges(ds: seq<State>, host: PC.Host, config: PC.Config)
    requires PC.Valid(host, config.tunnels)
    requires IsReload(ds, PC.NewTunnels(host, config.tunnels, config.defaults))
    ensures ds[|ds| - 1].tunnels.Keys == PC.EnabledNames(config.tunnels)
    ensures forall t | t in config.tunnels && t.enabled && t.name !in ds[0].tunnels ::
              && ds[|ds| - 1].tunnels[t.name].localPort == t.port
              && ds[|ds| - 1].tunnels[t.name].protocol == host.lower(t.protocol)
  {
    var file := PC.NewTunnels(host, config.tunnels, config.defaults);
    PC.ValidatedConfigConverts(host, config);
    ReloadConverges(ds, file);
    var d := ds[|ds| - 1];
    forall t | t in config.tunnels && t.enabled && t.name !in ds[0].tunnels
      ensures t.name in d.tunnels
      ensures d.tunnels[t.name].localPort == t.port && d.tunnels[t.name].protocol == host.lower(t.protocol)
    {
      DisplaysFile(host, t, config.defaults, d.tunnels[t.name]);
    }
  }

  /** A handle that displays a converted tunnel shows what the file says. */
  lemma DisplaysFile(host: PC.Host, t: PC.Tunnel, defaults: PC.Defaults, h: Handle)
    requires Displays(h, PC.ToTunnelConfig(host, t, defaults))
    ensures h.localPort == t.port && h.protocol == host.lower(t.protocol)
  {
    PC.ConvertsIff(host, t, defaults);
  }
}
