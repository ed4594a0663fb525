/** Every tunnel task is in the map or aborted, in every reachable state of the daemon. */
module DaemonTasks {
  import opened Base
  import opened TunnelTask
  import opened Daemon

  // ----- structure of reachable states

  function Victims(work: Work): seq<Handle> {
    if work.Cancelling? || work.Aborting? then work.victims else []
  }

  function VictimIds(work: Work): set<TaskId> {
    set h | h in Victims(work) :: h.chan
  }

  /** The tasks of the tunnels in the map. */
  function MapIds(tunnels: map<string, Handle>): set<TaskId> {
    set name | name in tunnels :: tunnels[name].chan
  }

  /** The one tunnel whose real task is not installed yet. */
  predicate UnderConstruction(work: Work, name: string) {
    (work.Spawning? || work.Installing?) && work.name == name
  }

  ghost predicate HandleOk(d: State, name: string)
    requires name in d.tunnels
  {
    var h := d.tunnels[name];
    && h.chan < d.next && h.chan !in d.aborted
    && (if UnderConstruction(d.work, name) then h.chan == d.work.id && h.task.None? else h.task == Some(h.chan))
    && (h.chan in d.tasks <==> !(d.work.Spawning? && d.work.name == name))
    && (h.chan in d.tasks ==> d.tasks[h.chan].name == name)
  }

  ghost predicate VictimsOk(d: State) {
    var vs := Victims(d.work);
    && (forall i | 0 <= i < |vs| :: vs[i].task == Some(vs[i].chan) && vs[i].chan in d.tasks && vs[i].chan !in d.aborted)
    && (forall i, j | 0 <= i < j < |vs| :: vs[i].chan != vs[j].chan)
    && (d.work.Aborting? ==> vs != [])
  }

  ghost predicate WorkOk(d: State) {
    && (d.work.Inserting? ==> d.work.name !in d.tunnels)
    && (d.work.Spawning? || d.work.Installing? ==> d.work.name in d.tunnels)
    && (!d.phase.Serving? ==> d.tunnels == map[] && d.todo == [] && (d.work.Ready? || Locked(d)))
    && (d.phase.Exited? ==> d.work.Ready?)
  }

  ghost predicate Distinct(tunnels: map<string, Handle>) {
    forall a, b | a in tunnels && b in tunnels && a != b :: tunnels[a].chan != tunnels[b].chan
  }

  /** Spawned tasks are those in the map, those being stopped and those aborted; the three are disjoint. */
  ghost predicate Conserved(d: State) {
    && (forall id | id in d.tasks :: id < d.next)
    && (forall id | id in d.aborted :: id in d.tasks)
    && MapIds(d.tunnels) !! VictimIds(d.work)
    && (forall id | id in d.tasks :: id in MapIds(d.tunnels) || id in VictimIds(d.work) || id in d.aborted)
  }

  ghost predicate Structured(d: State) {
    && (forall name | name in d.tunnels :: HandleOk(d, name))
    && Distinct(d.tunnels) && VictimsOk(d) && WorkOk(d) && Conserved(d)
  }

  // ----- it is kept

  lemma InitStructured(d: State)
    requires IsInit(d)
    ensures Structured(d)
  {
  }

  lemma MapIdsInsert(tunnels: map<string, Handle>, name: string, h: Handle)
    ensures MapIds(tunnels[name := h]) == MapIds(tunnels - {name}) + {h.chan}
    ensures name in tunnels && Distinct(tunnels) ==> MapIds(tunnels - {name}) == MapIds(tunnels) - {tunnels[name].chan}
    ensures name !in tunnels ==> tunnels - {name} == tunnels
  {
    var after := tunnels[name := h];
    assert name in after && after[name].chan == h.chan;
    forall id | id in MapIds(tunnels - {name}) ensures id in MapIds(after) {
      var n :| n in tunnels - {name} && (tunnels - {name})[n].chan == id;
      assert after[n].chan == id;
    }
    forall id | id in MapIds(after) ensures id in MapIds(tunnels - {name}) + {h.chan} {
      var n :| n in after && after[n].chan == id;
      if n != name {
        assert n in tunnels - {name};
      }
    }
    if name in tunnels && Distinct(tunnels) {
      forall id | id in MapIds(tunnels) - {tunnels[name].chan} ensures id in MapIds(tunnels - {name}) {
        var n :| n in tunnels && tunnels[n].chan == id;
        assert n in tunnels - {name};
      }
    }
  }

  /** Replacing a handle by one with the same channel changes no task. */
  lemma SameChannel(tunnels: map<string, Handle>, name: string, h: Handle)
    requires name in tunnels && h.chan == tunnels[name].chan && Distinct(tunnels)
    ensures MapIds(tunnels[name := h]) == MapIds(tunnels) && Distinct(tunnels[name := h])
  {
    MapIdsInsert(tunnels, name, h);
  }

  /** What a task step cannot change: which tunnels there are, whose tasks they own, and the command loop. */
  ghost predicate SameShape(d: State, d': State) {
    && d'.tunnels.Keys == d.tunnels.Keys && d'.tasks.Keys == d.tasks.Keys
    && (forall n | n in d.tunnels :: d'.tunnels[n].chan == d.tunnels[n].chan && d'.tunnels[n].task == d.tunnels[n].task)
    && (forall n | n in d.tunnels ::
          d'.tunnels[n].protocol == d.tunnels[n].protocol && d'.tunnels[n].localPort == d.tunnels[n].localPort)
    && (forall id | id in d.tasks :: d'.tasks[id].name == d.tasks[id].name)
    && d'.aborted == d.aborted && d'.next == d.next && d'.cache == d.cache
    && d'.todo == d.todo && d'.work == d.work && d'.phase == d.phase
  }

  lemma ActKeepsName(r: Run, input: Input)
    requires Act(r, input).Some?
    ensures Act(r, input).value.run.name == r.name
  {
  }

  lemma TaskStepShape(d: State, id: TaskId, input: Input, now: int, d': State)
    requires TaskStep(d, id, input, now, d')
    ensures SameShape(d, d')
  {
    ActKeepsName(d.tasks[id], input);
  }

  lemma ShapeMapIds(d: State, d': State)
    requires SameShape(d, d')
    ensures MapIds(d'.tunnels) == MapIds(d.tunnels)
  {
    forall id | id in MapIds(d.tunnels) ensures id in MapIds(d'.tunnels) {
      var n :| n in d.tunnels && d.tunnels[n].chan == id;
      assert d'.tunnels[n].chan == id;
    }
  }

  lemma ShapeStructured(d: State, d': State)
    requires Structured(d) && SameShape(d, d')
    ensures Structured(d')
  {
    ShapeMapIds(d, d');
    forall n | n in d'.tunnels ensures HandleOk(d', n) {
      assert HandleOk(d, n);
    }
  }

  /** The parts of a stop: the handles that stay, and where the tasks are. */
  lemma StopBeginHandles(d: State, name: string, n: string)
    requires Structured(d) && d.work.Ready? && name in d.tunnels && n in d.tunnels && n != name
    ensures n in Begin(d, Stop(name)).tunnels && HandleOk(Begin(d, Stop(name)), n)
  {
    assert HandleOk(d, n);
  }

  lemma StopBeginConserved(d: State, name: string)
    requires Structured(d) && d.work.Ready? && name in d.tunnels
    ensures Conserved(Begin(d, Stop(name))) && VictimsOk(Begin(d, Stop(name)))
  {
    var h := d.tunnels[name];
    MapIdsInsert(d.tunnels, name, h);
    assert HandleOk(d, name);
    assert VictimIds(Begin(d, Stop(name)).work) == {h.chan};
    assert VictimIds(d.work) == {};
  }

  lemma StopBeginStructured(d: State, name: string)
    requires Structured(d) && d.work.Ready? && name in d.tunnels && d.phase.Serving?
    ensures Structured(Begin(d, Stop(name)))
  {
    var d' := Begin(d, Stop(name));
    StopBeginConserved(d, name);
    forall n | n in d'.tunnels ensures HandleOk(d', n) {
      StopBeginHandles(d, name, n);
    }
  }

  lemma BeginStructured(d: State, op: Op)
    requires Structured(d) && d.work.Ready? && d.phase.Serving?
    ensures Structured(Begin(d, op))
  {
    if op.Stop? && op.name in d.tunnels {
      StopBeginStructured(d, op.name);
    } else {
      var d' := Begin(d, op);
      forall n | n in d'.tunnels ensures HandleOk(d', n) {
        assert HandleOk(d, n);
      }
    }
  }

  lemma InsertStructured(d: State)
    requires Structured(d) && d.work.Inserting?
    ensures Structured(MainStep(d).value)
  {
    var d' := MainStep(d).value;
    MapIdsInsert(d.tunnels, d.work.name, d'.tunnels[d.work.name]);
    forall n | n in d'.tunnels ensures HandleOk(d', n) {
      if n != d.work.name {
        assert HandleOk(d, n);
      }
    }
  }

  lemma SpawnStructured(d: State)
    requires Structured(d) && d.work.Spawning?
    ensures Structured(MainStep(d).value)
  {
    var d' := MainStep(d).value;
    assert HandleOk(d, d.work.name);
    assert d.tunnels[d.work.name].chan in MapIds(d.tunnels);
    forall n | n in d'.tunnels ensures HandleOk(d', n) {
      assert HandleOk(d, n);
    }
  }

  lemma InstallStructured(d: State)
    requires Structured(d) && d.work.Installing?
    ensures Structured(MainStep(d).value)
  {
    var d' := MainStep(d).value;
    assert HandleOk(d, d.work.name);
    SameChannel(d.tunnels, d.work.name, d'.tunnels[d.work.name]);
    forall n | n in d'.tunnels ensures HandleOk(d', n) {
      assert HandleOk(d, n);
    }
  }

  lemma CancelStructured(d: State)
    requires Structured(d) && d.work.Cancelling? && MainStep(d).Some?
    ensures Structured(MainStep(d).value)
  {
    var d' := MainStep(d).value;
    forall n | n in d'.tunnels ensures HandleOk(d', n) {
      assert HandleOk(d, n);
    }
    if d.work.victims != [] {
      assert VictimIds(d'.work) == VictimIds(d.work);
    } else {
      assert VictimIds(d'.work) == VictimIds(d.work) == {};
    }
  }

  lemma AbortStructured(d: State)
    requires Structured(d) && d.work.Aborting?
    ensures Structured(MainStep(d).value)
  {
    var vs := d.work.victims;
    var d' := MainStep(d).value;
    var id := vs[0].chan;
    assert VictimIds(d.work) == VictimIds(d'.work) + {id} by {
      assert vs == [vs[0]] + vs[1..];
    }
    forall n | n in d'.tunnels ensures HandleOk(d', n) {
      assert HandleOk(d, n);
      assert d.tunnels[n].chan in MapIds(d.tunnels);
    }
    assert forall i | 0 <= i < |vs| - 1 :: vs[1..][i] == vs[i + 1];
  }

  lemma MainStepStructured(d: State)
    requires Structured(d) && MainStep(d).Some?
    ensures Structured(MainStep(d).value)
  {
    match d.work
    case Ready =>
      var popped := d.(todo := d.todo[1..]);
      assert Structured(popped) by {
        forall n | n in d.tunnels ensures HandleOk(popped, n) {
          assert HandleOk(d, n);
        }
      }
      BeginStructured(popped, d.todo[0]);
    case Inserting(_, _) => InsertStructured(d);
    case Spawning(_, _) => SpawnStructured(d);
    case Installing(_, _) => InstallStructured(d);
    case Cancelling(_) => CancelStructured(d);
    case Aborting(_) => AbortStructured(d);
  }

  lemma DrainStructured(d: State, names: seq<string>)
    requires Structured(d) && AtCommand(d) && Lists(names, d.tunnels.Keys)
    ensures Structured(Drained(d, names))
  {
    var d' := Drained(d, names);
    var vs := d'.work.victims;
    forall i | 0 <= i < |vs|
      ensures vs[i].task == Some(vs[i].chan) && vs[i].chan in d.tasks && vs[i].chan !in d.aborted
    {
      assert names[i] in d.tunnels;
      assert HandleOk(d, names[i]);
    }
    forall i, j | 0 <= i < j < |vs| ensures vs[i].chan != vs[j].chan {
      assert names[i] != names[j];
    }
    forall id | id in MapIds(d.tunnels) ensures id in VictimIds(d'.work) {
      var n :| n in d.tunnels && d.tunnels[n].chan == id;
      var i :| 0 <= i < |names| && names[i] == n;
      assert vs[i].chan == id;
    }
  }

  lemma AcceptStructured(d: State, cmd: Command, d': State)
    requires Structured(d) && Accept(d, cmd, d')
    ensures Structured(d')
  {
    if cmd.Shutdown? {
      var names :| Lists(names, d.tunnels.Keys) && d' == Drained(d, names);
      DrainStructured(d, names);
    } else {
      forall n | n in d'.tunnels ensures HandleOk(d', n) {
        assert HandleOk(d, n);
      }
    }
  }

  lemma StepStructured(d: State, d': State)
    requires Structured(d) && Step(d, d')
    ensures Structured(d')
  {
    if MainStep(d) == Some(d') {
      MainStepStructured(d);
    } else if exists id, input, now :: TaskStep(d, id, input, now, d') {
      var id, input, now :| TaskStep(d, id, input, now, d');
      TaskStepShape(d, id, input, now, d');
      ShapeStructured(d, d');
    } else if AnswerTaken(d, d') {
      forall n | n in d'.tunnels ensures HandleOk(d', n) {
        assert HandleOk(d, n);
      }
    } else {
      var cmd :| Accept(d, cmd, d');
      AcceptStructured(d, cmd, d');
    }
  }

  lemma {:induction false} RunStructured(ds: seq<State>, i: nat)
    requires IsRun(ds) && i < |ds|
    ensures Structured(ds[i])
  {
    if i == 0 {
      InitStructured(ds[0]);
    } else {
      RunStructured(ds, i - 1);
      assert Step(ds[i - 1], ds[i - 1 + 1]);
      StepStructured(ds[i - 1], ds[i]);
    }
  }

  // ----- main results

  /**
   Task conservation. Between commands the spawned tasks are the disjoint union of the tasks in the map
   and the aborted ones, every handle owns its own real task, and no placeholder is left; once the loop
   has exited the map is empty and every task ever spawned was aborted.
   */
  lemma TasksConserved(ds: seq<State>, i: nat)
    requires IsRun(ds) && i < |ds|
    ensures AtCommand(ds[i]) ==>
              && ds[i].tasks.Keys == MapIds(ds[i].tunnels) + ds[i].aborted && MapIds(ds[i].tunnels) !! ds[i].aborted
              && (forall n | n in ds[i].tunnels :: ds[i].tunnels[n].task == Some(ds[i].tunnels[n].chan))
    ensures ds[i].phase.Exited? ==> ds[i].tunnels == map[] && ds[i].tasks.Keys == ds[i].aborted
  {
    var d := ds[i];
    RunStructured(ds, i);
    if d.work.Ready? {
      assert VictimIds(d.work) == {};
      forall id | id in MapIds(d.tunnels) ensures id in d.tasks && id !in d.aborted {
        var n :| n in d.tunnels && d.tunnels[n].chan == id;
        assert HandleOk(d, n);
      }
      assert forall n | n in d.tunnels :: HandleOk(d, n);
      assert d.tasks.Keys == MapIds(d.tunnels) + d.aborted;
      if d.tunnels == map[] {
        assert MapIds(d.tunnels) == {};
      }
    }
  }

  /** No handle, and so no task, is ever overwritten: a tunnel is inserted only under a name that is not in the map. */
  lemma NoHandleOverwritten(ds: seq<State>, i: nat)
    requires IsRun(ds) && i < |ds| && ds[i].work.Inserting?
    ensures ds[i].work.name !in ds[i].tunnels && ds[i].next !in ds[i].tasks
  {
    RunStructured(ds, i);
  }

  /** A task that can still update the map finds its own handle under its name. */
  lemma LiveTaskOwnsItsHandle(d: State, id: TaskId)
    requires Structured(d) && id in d.tasks && id !in d.aborted && !Locked(d)
    ensures d.tasks[id].name in d.tunnels && d.tunnels[d.tasks[id].name].chan == id
  {
    assert VictimIds(d.work) == {};
    var n :| n in d.tunnels && d.tunnels[n].chan == id;
    assert HandleOk(d, n);
  }
}
