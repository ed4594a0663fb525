/**
 Whole runs of the allocator: any sequence of operations by any tunnels, with any answers from the
 operating system and any clock readings.
 */
module PortRuns {
  import opened Base
  import opened PortSpec

  /** `pools[i]` is the pool before `ops[i]`. */
  ghost predicate IsRun(cfg: Config, pools: seq<Pool>, ops: seq<Op>) {
    && |pools| == |ops| + 1
    && pools[0] == Init(cfg)
    && forall i | 0 <= i < |ops| :: Step(cfg, pools[i], ops[i], pools[i + 1])
  }

  /** The partition holds in every reachable state, with its sizes. */
  lemma {:induction false} RunKeepsPartition(cfg: Config, pools: seq<Pool>, ops: seq<Op>, i: nat)
    requires IsRun(cfg, pools, ops) && i < |pools|
    ensures Partition(cfg, pools[i])
    ensures |pools[i].free| + |pools[i].leases| + |pools[i].dropped| == RangeCount(cfg)
  {
    if i == 0 {
      InitPartition(cfg);
    } else {
      RunKeepsPartition(cfg, pools, ops, i - 1);
      StepKeepsPartition(cfg, pools[i - 1], ops[i - 1], pools[i]);
    }
    PartitionSizes(cfg, pools[i]);
  }

  /** Two tunnels never hold the same port, at any point of any run. */
  lemma NoSharedPort(cfg: Config, pools: seq<Pool>, ops: seq<Op>, i: nat, a: string, b: string)
    requires IsRun(cfg, pools, ops) && i < |pools|
    requires a in pools[i].leases && b in pools[i].leases && pools[i].leases[a].port == pools[i].leases[b].port
    ensures a == b
  {
    RunKeepsPartition(cfg, pools, ops, i);
  }

  // ----- dropped ports

  lemma {:induction false} DroppedGrows(cfg: Config, pools: seq<Pool>, ops: seq<Op>, i: nat, j: nat)
    requires IsRun(cfg, pools, ops) && i <= j < |pools|
    ensures pools[i].dropped <= pools[j].dropped
    decreases j
  {
    if i < j {
      DroppedGrows(cfg, pools, ops, i, j - 1);
      assert Step(cfg, pools[j - 1], ops[j - 1], pools[j]);
    }
  }

  /** A port dropped as busy stays out of the pool and of every tunnel's hands, and no later call answers with it. */
  lemma DroppedNeverIssued(cfg: Config, pools: seq<Pool>, ops: seq<Op>, i: nat, j: nat, p: U16)
    requires IsRun(cfg, pools, ops) && i <= j < |ops| && p in pools[i].dropped
    ensures p !in pools[j].free && p !in Held(pools[j].leases)
    ensures ops[j].Allocate? ==> ops[j].result != Ok(p)
    ensures ops[j].Lookup? ==> ops[j].found != Some(p)
  {
    DroppedGrows(cfg, pools, ops, i, j);
    RunKeepsPartition(cfg, pools, ops, j);
    assert Step(cfg, pools[j], ops[j], pools[j + 1]);
    assert forall id | id in pools[j].leases :: pools[j].leases[id].port in Held(pools[j].leases);
  }

  // ----- leases as a function of one tunnel's own history

  /** When the tunnel was first released since its last allocation, read off the operations alone. */
  function ReleasedAt(ops: seq<Op>, id: string): Option<int> {
    if ops == [] then None
    else
      var before := ReleasedAt(ops[..|ops| - 1], id);
      match ops[|ops| - 1]
      case Allocate(i, _, _) => if i == id then None else before
      case Deallocate(i, now) => if i == id && before.None? then Some(now) else before
      case _ => before
  }

  /** A cleanup strictly after the first release plus the reservation time. */
  predicate Expires(cfg: Config, ops: seq<Op>, id: string, k: nat)
    requires k < |ops|
  {
    && ops[k].Cleanup?
    && ReleasedAt(ops[..k], id).Some?
    && ReleasedAt(ops[..k], id).value + cfg.ttl < ops[k].now
  }

  function HoldOf(cfg: Config, released: Option<int>): Hold {
    if released.None? then Active else Reserved(released.value + cfg.ttl)
  }

  /** What a tunnel's own history says about its lease; repeated releases do not move the deadline. */
  lemma {:induction false} HoldFollowsHistory(cfg: Config, pools: seq<Pool>, ops: seq<Op>, id: string, i: nat)
    requires IsRun(cfg, pools, ops) && i < |pools| && id in pools[i].leases
    ensures pools[i].leases[id].hold == HoldOf(cfg, ReleasedAt(ops[..i], id))
  {
    assert i > 0;
    var s, op := pools[i - 1], ops[i - 1];
    assert Step(cfg, s, op, pools[i]);
    assert ops[..i][..i - 1] == ops[..i - 1];
    if id in s.leases {
      HoldFollowsHistory(cfg, pools, ops, id, i - 1);
    }
  }

  /** One operation keeps a tunnel's lease and port unless it is an expiring cleanup, which frees the port. */
  lemma OneStepSticks(cfg: Config, pools: seq<Pool>, ops: seq<Op>, id: string, k: nat)
    requires IsRun(cfg, pools, ops) && k < |ops| && id in pools[k].leases
    ensures Expires(cfg, ops, id, k) <==> id !in pools[k + 1].leases
    ensures id in pools[k + 1].leases ==> pools[k + 1].leases[id].port == pools[k].leases[id].port
    ensures Expires(cfg, ops, id, k) ==> pools[k].leases[id].port in pools[k + 1].free
  {
    HoldFollowsHistory(cfg, pools, ops, id, k);
    assert Step(cfg, pools[k], ops[k], pools[k + 1]);
    if ops[k].Cleanup? && Expires(cfg, ops, id, k) {
      var gone := ExpiredIds(pools[k].leases, ops[k].now);
      assert id in gone;
      assert pools[k].leases[id].port in LeasedPorts(pools[k].leases, gone);
    }
  }

  /**
   Stickiness over whole runs. A tunnel that holds port p at step i still holds p at every step up to
   j exactly when no cleanup in between came strictly after its first release plus the reservation
   time; nothing that other tunnels do, and no repeated release, matters.
   */
  lemma {:induction false} PortSticks(cfg: Config, pools: seq<Pool>, ops: seq<Op>, id: string, i: nat, j: nat)
    requires IsRun(cfg, pools, ops) && i <= j < |pools| && id in pools[i].leases
    ensures (forall k | i <= k <= j :: id in pools[k].leases && pools[k].leases[id].port == pools[i].leases[id].port)
            <==> (forall k | i <= k < j :: !Expires(cfg, ops, id, k))
    decreases j
  {
    if i < j {
      PortSticks(cfg, pools, ops, id, i, j - 1);
      if id in pools[j - 1].leases {
        OneStepSticks(cfg, pools, ops, id, j - 1);
      }
    }
  }

  /** So reconnecting gives the same port back, whatever port is asked for. */
  lemma ReallocationReturnsSamePort(cfg: Config, pools: seq<Pool>, ops: seq<Op>, id: string, i: nat, j: nat)
    requires IsRun(cfg, pools, ops) && i < j < |ops|
    requires ops[i].Allocate? && ops[i].id == id && ops[i].result.Ok?
    requires ops[j].Allocate? && ops[j].id == id
    requires forall k | i < k < j :: !Expires(cfg, ops, id, k)
    ensures ops[j].result == ops[i].result
  {
    assert Step(cfg, pools[i], ops[i], pools[i + 1]);
    assert Step(cfg, pools[j], ops[j], pools[j + 1]);
    PortSticks(cfg, pools, ops, id, i + 1, j);
  }

  // ----- the fault of the hash

  /**
   A range that can be hashed never faults. In any other range the first allocation without a requested
   port for a tunnel that holds none panics, and no call completes after it.
   */
  lemma {:induction false} FaultIsForever(cfg: Config, pools: seq<Pool>, ops: seq<Op>, i: nat, j: nat)
    requires IsRun(cfg, pools, ops) && i <= j < |ops|
    ensures Hashable(cfg) ==> !ops[j].Faulted? && !ops[j].Refused?
    ensures ops[i].Faulted? && i < j ==> ops[j].Refused? && pools[j].leases == pools[i].leases
    ensures !Hashable(cfg) ==> !(ops[j].Allocate? && NeedsHash(pools[j], ops[j].id, ops[j].requested))
    ensures ops[j].Refused? <==> pools[j].poisoned
    ensures pools[j + 1].poisoned ==> !Hashable(cfg)
    decreases j
  {
    assert Step(cfg, pools[j], ops[j], pools[j + 1]);
    if j > 0 {
      assert Step(cfg, pools[j - 1], ops[j - 1], pools[j - 1 + 1]);
      FaultIsForever(cfg, pools, ops, if i < j then i else i - 1, j - 1);
    }
  }
}
