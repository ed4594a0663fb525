/**
 The allocator under threads. `allocate` and `cleanup_expired` lock the available ports and then the
 allocated ports, and release them in the opposite order; `deallocate` and `get_allocated_port` lock
 the allocated ports only. Inside the locks the tables change one access at a time, so between two
 accesses a port can be in neither table. A panic inside the locks poisons both while it unwinds, and a
 call that takes a poisoned lock panics. The history (`pools`, `ops`) records each call where it releases
 the allocated ports, or where it is refused.
 */
module PortLocks {
  import opened Base
  import opened PortSpec
  import opened PortRuns

  datatype Call =
    | CallAllocate(id: string, requested: Option<U16>)
    | CallDeallocate(id: string)
    | CallCleanup
    | CallLookup(id: string)

  predicate NeedsBoth(call: Call) {
    call.CallAllocate? || call.CallCleanup?
  }

  /** Progress of a call between two table accesses. */
  datatype Work =
    | Enter
    | Scanning
    | Carrying(port: U16)
    | Sweeping(now: int, left: set<string>)
    | Returning(now: int, left: set<string>, owner: string, port: U16)
    | Finished(op: Op)

  datatype Pc =
    | Idle
    | WaitFree(call: Call)
    | WaitLeases(call: Call)
    | Inside(call: Call, entry: Pool, work: Work)
    | Leaving

  type Thread = nat

  datatype Sys = Sys(
    pool: Pool,
    freeOwner: Option<Thread>,
    leasesOwner: Option<Thread>,
    pcs: map<Thread, Pc>,
    pools: seq<Pool>,
    ops: seq<Op>)

  function InitSys(cfg: Config, threads: set<Thread>): Sys {
    Sys(Init(cfg), None, None, map t | t in threads :: Idle, [Init(cfg)], [])
  }

  // ----- steps

  /** One access to the tables by a call that holds its locks. */
  ghost predicate WorkStep(cfg: Config, call: Call, s: Pool, work: Work, s': Pool, work': Work) {
    match call
    case CallAllocate(id, requested) => AllocateWork(cfg, id, requested, s, work, s', work')
    case CallDeallocate(id) =>
      exists now :: work.Enter? && s' == Deallocated(cfg, s, id, now) && work' == Finished(Deallocate(id, now))
    case CallCleanup => CleanupWork(s, work, s', work')
    case CallLookup(id) =>
      work.Enter? && s' == s &&
      work' == Finished(Lookup(id, if id in s.leases then Some(s.leases[id].port) else None))
  }

  ghost predicate AllocateWork(
    cfg: Config, id: string, requested: Option<U16>, s: Pool, work: Work, s': Pool, work': Work)
  {
    match work
    case Enter =>
      if id in s.leases then
        && s' == s.(leases := s.leases[id := s.leases[id].(hold := Active)])
        && work' == Finished(Allocate(id, requested, Ok(s.leases[id].port)))
      else if requested.None? then
        if Hashable(cfg) then s' == s && work' == Scanning
        else s' == s.(poisoned := true) && work' == Finished(Faulted(id))
      else
        var p := requested.value;
        || (p in s.free && s' == s.(free := s.free - {p}) && work' == Carrying(p))
        || (p in s.free && s' == Drop(s, {p}) && work' == Finished(Allocate(id, requested, Err(InUse(p)))))
        || (s' == s && work' == Finished(Allocate(id, requested, Err(OutsideRange(p)))))
    case Scanning =>
      || (s.free == {} && s' == s && work' == Finished(Allocate(id, requested, Err(NoPorts))))
      || (work' == Scanning && exists p :: p in s.free && s' == Drop(s, {p}))
      || (work'.Carrying? && work'.port in s.free && s' == s.(free := s.free - {work'.port}))
    case Carrying(p) =>
      && s' == s.(leases := s.leases[id := Lease(p, Active)])
      && work' == Finished(Allocate(id, requested, Ok(p)))
    case _ => false
  }

  ghost predicate CleanupWork(s: Pool, work: Work, s': Pool, work': Work) {
    match work
    case Enter => s' == s && work'.Sweeping? && work'.left == ExpiredIds(s.leases, work'.now)
    case Sweeping(now, left) =>
      if left == {} then s' == s && work' == Finished(Cleanup(now))
      else
        && work'.Returning? && work'.owner in left && work'.owner in s.leases
        && s' == s.(leases := s.leases - {work'.owner})
        && work' == Returning(now, left - {work'.owner}, work'.owner, s.leases[work'.owner].port)
    case Returning(now, left, _, port) =>
      s' == s.(free := s.free + {port}) && work' == Sweeping(now, left)
    case _ => false
  }

  function Goto(y: Sys, t: Thread, pc: Pc): Sys {
    y.(pcs := y.pcs[t := pc])
  }

  /** A thread that is not in a call starts one. */
  ghost predicate Begin(y: Sys, t: Thread, y': Sys) {
    && t in y.pcs && y.pcs[t].Idle?
    && exists call :: y' == Goto(y, t, if NeedsBoth(call) then WaitFree(call) else WaitLeases(call))
  }

  /** The call panics on a poisoned lock, and lets go of a lock that it holds. */
  function Refuse(y: Sys, t: Thread): Sys {
    Goto(y, t, if t in y.pcs && HoldsFree(y.pcs[t]) then Leaving else Idle)
    .(pools := y.pools + [y.pool], ops := y.ops + [Refused])
  }

  /** A thread in a call makes one step; a thread whose lock is taken has none. */
  ghost predicate Advance(cfg: Config, y: Sys, t: Thread, y': Sys) {
    && t in y.pcs
    && match y.pcs[t]
       case Idle => false
       case WaitFree(call) =>
         && y.freeOwner.None?
         && y' == if y.pool.poisoned then Refuse(y, t) else Goto(y, t, WaitLeases(call)).(freeOwner := Some(t))
       case WaitLeases(call) =>
         && y.leasesOwner.None?
         && y' == if y.pool.poisoned then Refuse(y, t)
                  else Goto(y, t, Inside(call, y.pool, Enter)).(leasesOwner := Some(t))
       case Inside(call, entry, Finished(op)) =>
         y' == Goto(y, t, if NeedsBoth(call) then Leaving else Idle)
               .(leasesOwner := None, pools := y.pools + [y.pool], ops := y.ops + [op])
       case Inside(call, entry, work) =>
         exists work' :: WorkStep(cfg, call, y.pool, work, y'.pool, work')
                         && y' == Goto(y, t, Inside(call, entry, work')).(pool := y'.pool)
       case Leaving => y' == Goto(y, t, Idle).(freeOwner := None)
  }

  ghost predicate Next(cfg: Config, y: Sys, y': Sys) {
    exists t :: Begin(y, t, y') || Advance(cfg, y, t, y')
  }

  ghost predicate IsExecution(cfg: Config, ys: seq<Sys>, threads: set<Thread>) {
    && |ys| > 0 && ys[0] == InitSys(cfg, threads)
    && forall i | 0 <= i < |ys| - 1 :: Next(cfg, ys[i], ys[i + 1])
  }

  // ----- the invariant

  /** How far a call has come since it entered with the tables `entry`. */
  ghost predicate Progress(cfg: Config, call: Call, entry: Pool, work: Work, s: Pool) {
    && !entry.poisoned
    && match work
       case Enter => s == entry
       case Scanning =>
         && call.CallAllocate? && call.requested.None? && call.id !in entry.leases && Hashable(cfg)
         && s.free <= entry.free && s == Drop(entry, entry.free - s.free)
       case Carrying(p) =>
         && call.CallAllocate? && call.id !in entry.leases && p in entry.free
         && s.free <= entry.free - {p}
         && s == Drop(entry, entry.free - {p} - s.free).(free := s.free)
         && ((call.requested.None? && Hashable(cfg)) || (call.requested == Some(p) && s.free == entry.free - {p}))
       case Sweeping(now, left) =>
         && call.CallCleanup? && left <= ExpiredIds(entry.leases, now)
         && s == Removed(entry, ExpiredIds(entry.leases, now) - left)
       case Returning(now, left, owner, port) =>
         var all := ExpiredIds(entry.leases, now);
         && call.CallCleanup? && left <= all && owner in all && owner !in left && port == entry.leases[owner].port
         && s == Removed(entry, all - left - {owner}).(leases := entry.leases - (all - left))
       case Finished(op) => Step(cfg, entry, op, s) && (op.Faulted? ==> call.CallAllocate?)
  }

  predicate HoldsFree(pc: Pc) {
    match pc
    case Idle => false
    case WaitFree(_) => false
    case WaitLeases(call) => NeedsBoth(call)
    case Inside(call, _, _) => NeedsBoth(call)
    case Leaving => true
  }

  ghost predicate Owners(y: Sys) {
    && (forall t | t in y.pcs :: HoldsFree(y.pcs[t]) <==> y.freeOwner == Some(t))
    && (forall t | t in y.pcs :: y.pcs[t].Inside? <==> y.leasesOwner == Some(t))
    && (y.freeOwner.Some? ==> y.freeOwner.value in y.pcs)
    && (y.leasesOwner.Some? ==> y.leasesOwner.value in y.pcs)
    && (forall t | t in y.pcs && y.pcs[t].WaitFree? :: NeedsBoth(y.pcs[t].call))
  }

  ghost predicate Inv(cfg: Config, y: Sys) {
    && Owners(y)
    && IsRun(cfg, y.pools, y.ops)
    && var settled := y.pools[|y.pools| - 1];
       if y.leasesOwner.None? then y.pool == settled
       else var pc := y.pcs[y.leasesOwner.value];
            pc.Inside? && pc.entry == settled && Progress(cfg, pc.call, settled, pc.work, y.pool)
  }

  // ----- proofs

  lemma CleanupProgress(cfg: Config, call: Call, entry: Pool, work: Work, s: Pool, work': Work, s': Pool)
    requires call.CallCleanup? && Progress(cfg, call, entry, work, s) && CleanupWork(s, work, s', work')
    ensures Progress(cfg, call, entry, work', s')
  {
    match work
    case Enter =>
      var all := ExpiredIds(entry.leases, work'.now);
      assert all - all == {};
      RemovedNone(entry);
    case Sweeping(now, left) =>
      var all := ExpiredIds(entry.leases, now);
      if left == {} {
        assert all - left == all;
      } else {
        var owner := work'.owner;
        assert all - work'.left - {owner} == all - left;
        RemovedOneMore(entry, all - left, owner);
        assert all - left + {owner} == all - work'.left;
      }
    case Returning(now, left, owner, port) =>
      var all := ExpiredIds(entry.leases, now);
      RemovedOneMore(entry, all - left - {owner}, owner);
      assert all - left - {owner} + {owner} == all - left;
    case _ =>
  }

  lemma WorkProgress(cfg: Config, call: Call, entry: Pool, work: Work, s: Pool, work': Work, s': Pool)
    requires Progress(cfg, call, entry, work, s) && WorkStep(cfg, call, s, work, s', work')
    ensures Progress(cfg, call, entry, work', s')
  {
    if call.CallCleanup? {
      CleanupProgress(cfg, call, entry, work, s, work', s');
    } else if call.CallAllocate? && work.Scanning? {
      if work'.Scanning? {
        var p :| p in s.free && s' == Drop(s, {p});
        assert entry.free - s.free + {p} == entry.free - s'.free;
      } else if work'.Carrying? {
        assert entry.free - {work'.port} - s'.free == entry.free - s.free;
      } else {
        assert entry.free - s.free == entry.free;
      }
    } else if call.CallAllocate? && work.Carrying? {
      AllocateFinishes(cfg, call, entry, work.port, s, s');
    }
  }

  lemma AllocateFinishes(cfg: Config, call: Call, entry: Pool, p: U16, s: Pool, s': Pool)
    requires call.CallAllocate? && Progress(cfg, call, entry, Carrying(p), s)
    requires s' == s.(leases := s.leases[call.id := Lease(p, Active)])
    ensures Step(cfg, entry, Allocate(call.id, call.requested, Ok(p)), s')
  {
    if call.requested.None? {
      assert Drop(entry, entry.free - {p} - s.free).free - {p} == s.free;
    } else {
      assert entry.free - {p} - s.free == {};
      assert entry.dropped + {} == entry.dropped;
    }
  }

  lemma {:induction false} RunExtends(cfg: Config, pools: seq<Pool>, ops: seq<Op>, op: Op, s: Pool)
    requires IsRun(cfg, pools, ops) && Step(cfg, pools[|pools| - 1], op, s)
    ensures IsRun(cfg, pools + [s], ops + [op])
  {
    var pools', ops' := pools + [s], ops + [op];
    forall i | 0 <= i < |ops'| ensures Step(cfg, pools'[i], ops'[i], pools'[i + 1]) {
      if i < |ops| {
        assert Step(cfg, pools[i], ops[i], pools[i + 1]);
      }
    }
  }

  lemma BeginKeepsInv(cfg: Config, y: Sys, t: Thread, y': Sys)
    requires Inv(cfg, y) && Begin(y, t, y')
    ensures Inv(cfg, y')
  {
  }

  lemma AdvanceKeepsOwners(cfg: Config, y: Sys, t: Thread, y': Sys)
    requires Owners(y) && Advance(cfg, y, t, y')
    ensures Owners(y')
  {
  }

  /** A refused call finds the tables settled. */
  lemma RefuseKeepsInv(cfg: Config, y: Sys, t: Thread)
    requires Inv(cfg, y) && t in y.pcs && y.pool.poisoned
    requires (y.pcs[t].WaitFree? && y.freeOwner.None?) || (y.pcs[t].WaitLeases? && y.leasesOwner.None?)
    requires Owners(Refuse(y, t))
    ensures Inv(cfg, Refuse(y, t))
  {
    if y.leasesOwner.Some? {
      var pc := y.pcs[y.leasesOwner.value];
      assert HoldsFree(pc);
    }
    RunExtends(cfg, y.pools, y.ops, Refused, y.pool);
  }

  lemma AdvanceKeepsInv(cfg: Config, y: Sys, t: Thread, y': Sys)
    requires Inv(cfg, y) && Advance(cfg, y, t, y')
    ensures Inv(cfg, y')
  {
    AdvanceKeepsOwners(cfg, y, t, y');
    match y.pcs[t]
    case Inside(call, entry, Finished(op)) =>
      RunExtends(cfg, y.pools, y.ops, op, y.pool);
    case Inside(call, entry, work) =>
      var work' :| WorkStep(cfg, call, y.pool, work, y'.pool, work')
                   && y' == Goto(y, t, Inside(call, entry, work')).(pool := y'.pool);
      WorkProgress(cfg, call, entry, work, y.pool, work', y'.pool);
    case Leaving =>
    case _ =>
      if y.pool.poisoned {
        RefuseKeepsInv(cfg, y, t);
      }
  }

  lemma {:induction false} ExecutionKeepsInv(cfg: Config, ys: seq<Sys>, threads: set<Thread>, i: nat)
    requires IsExecution(cfg, ys, threads) && i < |ys|
    ensures Inv(cfg, ys[i])
  {
    if i > 0 {
      ExecutionKeepsInv(cfg, ys, threads, i - 1);
      assert Next(cfg, ys[i - 1], ys[i - 1 + 1]);
      var t :| Begin(ys[i - 1], t, ys[i]) || Advance(cfg, ys[i - 1], t, ys[i]);
      if Begin(ys[i - 1], t, ys[i]) {
        BeginKeepsInv(cfg, ys[i - 1], t, ys[i]);
      } else {
        AdvanceKeepsInv(cfg, ys[i - 1], t, ys[i]);
      }
    }
  }

  // ----- main results

  /**
   Atomicity: whenever the allocated ports are unlocked, the tables of a concurrent execution are the
   last state of a sequential run of the completed calls, so everything proved of runs holds under threads.
   */
  lemma ConcurrentIsSequential(cfg: Config, ys: seq<Sys>, threads: set<Thread>, i: nat)
    requires IsExecution(cfg, ys, threads) && i < |ys|
    ensures IsRun(cfg, ys[i].pools, ys[i].ops)
    ensures ys[i].leasesOwner.None? ==>
              ys[i].pool == ys[i].pools[|ys[i].pools| - 1] && Partition(cfg, ys[i].pool)
  {
    ExecutionKeepsInv(cfg, ys, threads, i);
    RunKeepsPartition(cfg, ys[i].pools, ys[i].ops, |ys[i].pools| - 1);
  }

  /** A call that holds its locks always has a next table access. */
  lemma WorkEnabled(cfg: Config, call: Call, entry: Pool, work: Work, s: Pool) returns (s': Pool, work': Work)
    requires Progress(cfg, call, entry, work, s) && !work.Finished?
    ensures WorkStep(cfg, call, s, work, s', work')
  {
    match call
    case CallAllocate(id, requested) =>
      match work {
        case Enter =>
          if id in s.leases {
            s', work' := s.(leases := s.leases[id := s.leases[id].(hold := Active)]),
                         Finished(Allocate(id, requested, Ok(s.leases[id].port)));
          } else if requested.None? && Hashable(cfg) {
            s', work' := s, Scanning;
          } else if requested.None? {
            s', work' := s.(poisoned := true), Finished(Faulted(id));
          } else {
            s', work' := s, Finished(Allocate(id, requested, Err(OutsideRange(requested.value))));
          }
        case Scanning =>
          if s.free == {} {
            s', work' := s, Finished(Allocate(id, requested, Err(NoPorts)));
          } else {
            var p :| p in s.free;
            s', work' := s.(free := s.free - {p}), Carrying(p);
          }
        case Carrying(p) =>
          s', work' := s.(leases := s.leases[id := Lease(p, Active)]), Finished(Allocate(id, requested, Ok(p)));
        case _ => assert false;
      }
    case CallDeallocate(id) =>
      s', work' := Deallocated(cfg, s, id, 0), Finished(Deallocate(id, 0));
    case CallCleanup =>
      match work {
        case Enter => s', work' := s, Sweeping(0, ExpiredIds(s.leases, 0));
        case Sweeping(now, left) =>
          if left == {} {
            s', work' := s, Finished(Cleanup(now));
          } else {
            var id :| id in left;
            assert id in s.leases;
            s', work' := s.(leases := s.leases - {id}), Returning(now, left - {id}, id, s.leases[id].port);
          }
        case Returning(now, left, _, port) =>
          s', work' := s.(free := s.free + {port}), Sweeping(now, left);
        case _ => assert false;
      }
    case CallLookup(id) =>
      s', work' := s, Finished(Lookup(id, if id in s.leases then Some(s.leases[id].port) else None));
  }

  /** The thread that holds the allocated ports can go on. */
  lemma InsideCanStep(cfg: Config, y: Sys, t: Thread) returns (y': Sys)
    requires Inv(cfg, y) && t in y.pcs && y.pcs[t].Inside?
    ensures Advance(cfg, y, t, y')
  {
    var pc := y.pcs[t];
    if pc.work.Finished? {
      y' := Goto(y, t, if NeedsBoth(pc.call) then Leaving else Idle)
            .(leasesOwner := None, pools := y.pools + [y.pool], ops := y.ops + [pc.work.op]);
    } else {
      var s', work' := WorkEnabled(cfg, pc.call, pc.entry, pc.work, y.pool);
      y' := Goto(y, t, Inside(pc.call, pc.entry, work')).(pool := s');
    }
  }

  /** No deadlock: while any call is unfinished, some thread in a call can step. */
  lemma NoDeadlock(cfg: Config, ys: seq<Sys>, threads: set<Thread>, i: nat, waiting: Thread)
    returns (t: Thread, y': Sys)
    requires IsExecution(cfg, ys, threads) && i < |ys|
    requires waiting in ys[i].pcs && !ys[i].pcs[waiting].Idle?
    ensures Advance(cfg, ys[i], t, y')
  {
    var y := ys[i];
    ExecutionKeepsInv(cfg, ys, threads, i);
    if y.leasesOwner.Some? {
      t := y.leasesOwner.value;
      y' := InsideCanStep(cfg, y, t);
    } else if y.freeOwner.Some? {
      t := y.freeOwner.value;
      match y.pcs[t] {
        case WaitLeases(call) =>
          y' := if y.pool.poisoned then Refuse(y, t)
                else Goto(y, t, Inside(call, y.pool, Enter)).(leasesOwner := Some(t));
        case Leaving =>
          y' := Goto(y, t, Idle).(freeOwner := None);
        case _ => assert false;
      }
    } else {
      t := waiting;
      match y.pcs[t] {
        case WaitFree(call) =>
          y' := if y.pool.poisoned then Refuse(y, t)
                else Goto(y, t, WaitLeases(call)).(freeOwner := Some(t));
        case WaitLeases(call) =>
          y' := if y.pool.poisoned then Refuse(y, t)
                else Goto(y, t, Inside(call, y.pool, Enter)).(leasesOwner := Some(t));
        case _ => assert false;
      }
    }
  }
}
