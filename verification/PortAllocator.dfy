/**
 `PortAllocator` itself: the tables it updates in place, the searches it runs over them, and what an
 allocation without a requested port computes.
 */
module PortAllocation {
  import opened Base
  import opened PortSpec

  /** Answers of the operating system: outcome of the n-th bind attempt of one call, made on a given port. */
  type Probe = (nat, U16) -> bool

  /** The operating system does not change its mind during the call. */
  ghost predicate Stable(os: Probe) {
    forall n: nat, p: U16 :: os(n, p) == os(0, p)
  }

  /** `saturating_add` and `saturating_sub` on u16. */
  function SatAdd(p: U16, offset: nat): U16 {
    if p + offset > 0xFFFF then 0xFFFF else p + offset
  }

  function SatSub(p: U16, offset: nat): U16 {
    if p < offset then 0 else p - offset
  }

  /** A call on the allocator returns or panics. */
  datatype Outcome<+T> = Returns(value: T) | Panics

  // ----- the reference: nearest usable port, ties upward

  /** Orders ports by distance from the preferred one, the higher of two equally near ports first. */
  function Rank(preferred: U16, p: U16): nat {
    if preferred <= p then 2 * (p - preferred) else 2 * (preferred - p) + 1
  }

  /** Within 10 of the preferred port. */
  predicate Near(preferred: U16, p: U16) {
    Rank(preferred, p) <= 21
  }

  function Away(p: U16, q: U16): nat {
    if p <= q then q - p else p - q
  }

  /** A smaller rank means nearer, or as near and higher; near means at most 10 away. */
  lemma RankMeaning(preferred: U16, p: U16, q: U16)
    ensures Rank(preferred, p) < Rank(preferred, q) <==>
            Away(preferred, p) < Away(preferred, q) || (Away(preferred, p) == Away(preferred, q) && p > q)
    ensures Near(preferred, p) <==> preferred - 10 <= p <= preferred + 10
  {
  }

  predicate Usable(free: set<U16>, os: Probe, p: U16) {
    p in free && os(0, p)
  }

  ghost predicate Nearest(free: set<U16>, os: Probe, preferred: U16, q: U16) {
    && Usable(free, os, q) && Near(preferred, q)
    && forall p: U16 | Usable(free, os, p) :: Rank(preferred, q) <= Rank(preferred, p)
  }

  /**
   The simple specification of an unrequested allocation under a stable operating system: the nearest
   usable port when one lies within 10 of the preferred port, otherwise any usable port, and failure
   exactly when no free port is usable. Only busy ports leave the pool, and exactly the ones nearer
   than the chosen port when that one is near.
   */
  ghost predicate NearestSpec(free: set<U16>, os: Probe, preferred: U16, r: Result<U16, AllocError>, free': set<U16>) {
    && (r.Ok? <==> exists p: U16 :: Usable(free, os, p))
    && (r.Ok? ==> Usable(free, os, r.value))
    && ((exists p: U16 :: Usable(free, os, p) && Near(preferred, p)) ==>
          && r.Ok? && Nearest(free, os, preferred, r.value)
          && free' == set p | p in free && Rank(preferred, p) > Rank(preferred, r.value))
    && (forall p: U16 | Usable(free, os, p) && r != Ok(p) :: p in free')
    && (r.Err? ==> r == Err(NoPorts) && free' == {})
  }

  lemma NearestUnique(free: set<U16>, os: Probe, preferred: U16, q1: U16, q2: U16)
    requires Nearest(free, os, preferred, q1) && Nearest(free, os, preferred, q2)
    ensures q1 == q2
  {
  }

  /** Whenever a usable port lies within 10, the specification determines the answer and the ports left. */
  lemma NearestSpecDetermines(
    free: set<U16>, os: Probe, preferred: U16, p: U16,
    r1: Result<U16, AllocError>, left1: set<U16>, r2: Result<U16, AllocError>, left2: set<U16>)
    requires NearestSpec(free, os, preferred, r1, left1) && NearestSpec(free, os, preferred, r2, left2)
    requires Usable(free, os, p) && Near(preferred, p)
    ensures r1 == r2 && left1 == left2
  {
    NearestUnique(free, os, preferred, r1.value, r2.value);
  }

  // ----- progress of the search

  /** Ports of rank `rank` and above. */
  function Beyond(free: set<U16>, preferred: U16, rank: nat): set<U16> {
    set p | p in free && Rank(preferred, p) >= rank
  }

  /** Every free port below `rank` was probed, found busy and removed. */
  ghost predicate Searched(free: set<U16>, os: Probe, preferred: U16, rank: nat, left: set<U16>) {
    && left == Beyond(free, preferred, rank)
    && forall p: U16 | Usable(free, os, p) :: Rank(preferred, p) >= rank
  }

  ghost predicate AnyUsable(before: set<U16>, os: Probe, found: Option<U16>, after: set<U16>) {
    match found
    case Some(q) => Usable(before, os, q) && forall p: U16 | Usable(before, os, p) && p != q :: p in after
    case None => after == {} && forall p: U16 :: !Usable(before, os, p)
  }

  /** Saturation is harmless: a clamped candidate is a port that the search has already passed. */
  lemma CandidateRank(free: set<U16>, preferred: U16, offset: nat, k: nat, port: U16)
    requires 1 <= offset <= 10 && k < 2
    requires port == if k == 0 then SatAdd(preferred, offset) else SatSub(preferred, offset)
    ensures Beyond(free, preferred, 2 * offset + k) - {port} == Beyond(free, preferred, 2 * offset + k + 1)
    ensures port in Beyond(free, preferred, 2 * offset + k) ==> Rank(preferred, port) == 2 * offset + k
  {
  }

  lemma FoundNearest(free: set<U16>, os: Probe, preferred: U16, rank: nat, q: U16, left: set<U16>, left': set<U16>)
    requires Searched(free, os, preferred, rank, left) && rank <= 21
    requires Usable(free, os, q) && Rank(preferred, q) == rank && left' == left - {q}
    ensures NearestSpec(free, os, preferred, Ok(q), left')
  {
    assert left' == set p | p in free && Rank(preferred, p) > rank;
  }

  lemma FoundAny(free: set<U16>, os: Probe, preferred: U16, far: set<U16>, found: Option<U16>, left: set<U16>)
    requires Searched(free, os, preferred, 22, far) && AnyUsable(far, os, found, left)
    ensures NearestSpec(free, os, preferred, if found.Some? then Ok(found.value) else Err(NoPorts), left)
  {
    forall p: U16 ensures Usable(free, os, p) <==> Usable(far, os, p) {
    }
    if found.Some? {
      assert Usable(far, os, found.value);
      assert Usable(free, os, found.value);
    }
  }

  /** How a call of `allocate` appears in the history of the pool. */
  function AllocateOp(
    id: string, requested: Option<U16>, r: Outcome<Result<U16, AllocError>>, poisoned: bool): Op
  {
    if r.Returns? then PortSpec.Allocate(id, requested, r.value) else if poisoned then Refused else Faulted(id)
  }

  class PortAllocator {
    const cfg: Config
    const hasher: string -> nat
    var availablePorts: set<U16>
    var allocatedPorts: map<string, Lease>
    var poisoned: bool
    ghost var dropped: set<U16>

    ghost function View(): Pool
      reads this
    {
      Pool(availablePorts, allocatedPorts, dropped, poisoned)
    }

    ghost predicate Valid()
      reads this
    {
      Partition(cfg, View())
    }

    function Preferred(id: string): (p: U16)
      requires Hashable(cfg)
      ensures CountsTo(cfg, hasher(id), p)
    {
      HashPortDefined(cfg, hasher(id));
      HashToPort(cfg, hasher(id)).value
    }

    constructor (cfg: Config, hasher: string -> nat)
      ensures Valid() && View() == Init(cfg)
      ensures this.cfg == cfg && this.hasher == hasher
    {
      this.cfg, this.hasher := cfg, hasher;
      var pool: set<U16> := {};
      var port: int := cfg.start;
      while port <= cfg.end
        invariant cfg.start <= port && (port == cfg.start || port <= cfg.end + 1)
        invariant pool == set p: U16 | p in Ports(cfg) && p < port
      {
        pool := pool + {port};
        port := port + 1;
      }
      availablePorts, allocatedPorts, dropped, poisoned := pool, map[], {}, false;
      assert pool == Ports(cfg);
    }

    /** Hands out a free port. */
    method Issue(id: string, port: U16)
      requires port in availablePorts
      modifies this
      ensures View() == Grant(old(View()), id, port)
    {
      availablePorts := availablePorts - {port};
      allocatedPorts := allocatedPorts[id := Lease(port, Active)];
    }

    /** Removes a port that another process has bound. */
    method Discard(port: U16)
      requires port in availablePorts
      modifies this
      ensures View() == Drop(old(View()), {port})
    {
      availablePorts := availablePorts - {port};
      dropped := dropped + {port};
    }

    /** The ports dropped since the pool was `was` are exactly those missing from it. */
    ghost predicate DroppedSince(was: Pool)
      reads this
    {
      availablePorts <= was.free && View() == Drop(was, was.free - availablePorts)
    }

    /** Probes one port of the pool and issues it or discards it. */
    method TryPort(id: string, port: U16, os: Probe, n: nat, ghost was: Pool) returns (taken: bool)
      requires port in availablePorts && DroppedSince(was)
      modifies this
      ensures taken == os(n, port) && availablePorts == old(availablePorts) - {port}
      ensures if taken then ScanStep(was, id, Ok(port), View()) else DroppedSince(was)
    {
      taken := os(n, port);
      if taken {
        Issue(id, port);
      } else {
        Discard(port);
      }
    }

    /**
     Ports 1 to 10 away, nearest first and upward first; `stable` is set when the search is to be compared
     with NearestSpec.
     */
    method TryNearby(id: string, preferred: U16, os: Probe, n: nat, ghost was: Pool, ghost stable: bool)
      returns (found: Option<U16>, n': nat)
      requires DroppedSince(was) && availablePorts <= Ports(cfg)
      requires stable ==> Stable(os) && Searched(was.free, os, preferred, 2, availablePorts)
      modifies this
      ensures found.None? ==> DroppedSince(was)
      ensures found.Some? ==> ScanStep(was, id, Ok(found.value), View())
      ensures stable && found.None? ==> Searched(was.free, os, preferred, 22, availablePorts)
      ensures stable && found.Some? ==> NearestSpec(was.free, os, preferred, Ok(found.value), availablePorts)
    {
      n' := n;
      for offset := 1 to 11
        invariant DroppedSince(was) && availablePorts <= Ports(cfg)
        invariant stable ==> Searched(was.free, os, preferred, 2 * offset, availablePorts)
      {
        var candidates := [SatAdd(preferred, offset), SatSub(preferred, offset)];
        for k := 0 to 2
          invariant DroppedSince(was) && availablePorts <= Ports(cfg)
          invariant stable ==> Searched(was.free, os, preferred, 2 * offset + k, availablePorts)
        {
          var port := candidates[k];
          ghost var before := availablePorts;
          CandidateRank(was.free, preferred, offset, k, port);
          if cfg.start <= port <= cfg.end && port in availablePorts {
            var taken := TryPort(id, port, os, n', was);
            n' := n' + 1;
            if taken {
              if stable {
                FoundNearest(was.free, os, preferred, 2 * offset + k, port, before, availablePorts);
              }
              return Some(port), n';
            }
          }
        }
      }
      found := None;
    }

    /** Any remaining port, in whatever order the set is iterated. */
    method TryAny(id: string, os: Probe, n: nat, ghost was: Pool) returns (found: Option<U16>)
      requires DroppedSince(was)
      modifies this
      ensures found.None? ==> View() == Drop(was, was.free)
      ensures found.Some? ==> ScanStep(was, id, Ok(found.value), View())
      ensures Stable(os) ==> AnyUsable(old(availablePorts), os, found, availablePorts)
    {
      var pending := availablePorts;
      var tried := n;
      while pending != {}
        invariant pending == availablePorts <= old(availablePorts) && DroppedSince(was)
        invariant Stable(os) ==> forall p | p in old(availablePorts) - availablePorts :: !os(0, p)
        decreases |pending|
      {
        var port :| port in pending;
        pending := pending - {port};
        var taken := TryPort(id, port, os, tried, was);
        tried := tried + 1;
        if taken {
          return Some(port);
        }
      }
      found := None;
    }

    /**
     `allocate`: every outcome is a step of the pool, and under a stable operating system the answer is the
     specified one. It panics exactly on poisoned locks or when it needs a hash that is not defined.
     */
    method Allocate(id: string, requested: Option<U16>, os: Probe) returns (r: Outcome<Result<U16, AllocError>>)
      requires Valid()
      modifies this
      ensures Valid()
      ensures r.Panics? <==> old(poisoned) || (NeedsHash(old(View()), id, requested) && !Hashable(cfg))
      ensures Step(cfg, old(View()), AllocateOp(id, requested, r, old(poisoned)), View())
      ensures allocatedPorts ==
              if r.Returns? && r.value.Ok? then old(allocatedPorts)[id := Lease(r.value.value, Active)]
              else old(allocatedPorts)
      ensures r.Returns? && id in old(allocatedPorts) ==>
                r.value == Ok(old(allocatedPorts)[id].port) && availablePorts == old(availablePorts)
      ensures r.Returns? && Stable(os) && id !in old(allocatedPorts) && requested.Some? ==>
                r.value == if requested.value !in old(availablePorts) then Err(OutsideRange(requested.value))
                           else if os(0, requested.value) then Ok(requested.value) else Err(InUse(requested.value))
      ensures r.Returns? && Stable(os) && id !in old(allocatedPorts) && requested.Some? ==>
                availablePorts == old(availablePorts) - {requested.value}
      ensures r.Returns? && Stable(os) && id !in old(allocatedPorts) && requested.None? ==>
                Hashable(cfg) && NearestSpec(old(availablePorts), os, Preferred(id), r.value, availablePorts)
    {
      ghost var was := View();
      if poisoned {
        return Panics;
      }
      if id in allocatedPorts {
        allocatedPorts := allocatedPorts[id := allocatedPorts[id].(hold := Active)];
        r := Returns(Ok(allocatedPorts[id].port));
      } else if requested.Some? {
        var port := requested.value;
        if port in availablePorts && os(0, port) {
          Issue(id, port);
          r := Returns(Ok(port));
        } else if port in availablePorts && !os(1, port) {
          Discard(port);
          r := Returns(Err(InUse(port)));
        } else {
          r := Returns(Err(OutsideRange(port)));
        }
      } else if HashToPort(cfg, hasher(id)).None? {
        HashPortDefined(cfg, hasher(id));
        poisoned := true;
        r := Panics;
      } else {
        HashPortDefined(cfg, hasher(id));
        var found := Search(id, os);
        r := Returns(found);
      }
      StepKeepsPartition(cfg, was, AllocateOp(id, requested, r, was.poisoned), View());
    }

    method Search(id: string, os: Probe) returns (r: Result<U16, AllocError>)
      requires Hashable(cfg) && availablePorts <= Ports(cfg)
      modifies this
      ensures ScanStep(old(View()), id, r, View())
      ensures Stable(os) ==> NearestSpec(old(availablePorts), os, Preferred(id), r, availablePorts)
    {
      ghost var was := View();
      var preferred := Preferred(id);
      if preferred in availablePorts && os(0, preferred) {
        Issue(id, preferred);
        if Stable(os) {
          FoundNearest(was.free, os, preferred, 0, preferred, was.free, availablePorts);
        }
        return Ok(preferred);
      } else if preferred in availablePorts && !os(1, preferred) {
        Discard(preferred);
      }
      var found, n := TryNearby(id, preferred, os, 2, was, Stable(os));
      if found.Some? {
        return Ok(found.value);
      }
      ghost var far := availablePorts;
      found := TryAny(id, os, n, was);
      r := if found.Some? then Ok(found.value) else Err(NoPorts);
      if Stable(os) {
        FoundAny(was.free, os, preferred, far, found, availablePorts);
      }
    }

    /** `deallocate`. */
    method Deallocate(id: string, now: int) returns (r: Outcome<()>)
      requires Valid()
      modifies this
      ensures Valid() && (r.Panics? <==> old(poisoned))
      ensures View() == if r.Panics? then old(View()) else Deallocated(cfg, old(View()), id, now)
    {
      ghost var was := View();
      if poisoned {
        return Panics;
      }
      if id in allocatedPorts && allocatedPorts[id].hold.Active? {
        allocatedPorts := allocatedPorts[id := allocatedPorts[id].(hold := Reserved(now + cfg.ttl))];
      }
      StepKeepsPartition(cfg, was, PortSpec.Deallocate(id, now), View());
      r := Returns(());
    }

    /** Removes the given leases one by one, returning each port to the pool. */
    method RemoveAll(ids: set<string>)
      requires ids <= allocatedPorts.Keys
      modifies this
      ensures View() == Removed(old(View()), ids)
    {
      var pending := ids;
      ghost var was, gone: set<string> := View(), {};
      RemovedNone(was);
      while pending != {}
        invariant gone <= ids && pending == ids - gone
        invariant View() == Removed(was, gone)
        decreases |pending|
      {
        var id :| id in pending;
        RemovedOneMore(was, gone, id);
        pending, gone := pending - {id}, gone + {id};
        availablePorts := availablePorts + {allocatedPorts[id].port};
        allocatedPorts := allocatedPorts - {id};
      }
      assert gone == ids;
    }

    /** `cleanup_expired`: the expired reservations are collected first, then removed one by one. */
    method CleanupExpired(now: int) returns (r: Outcome<()>)
      requires Valid()
      modifies this
      ensures Valid() && (r.Panics? <==> old(poisoned))
      ensures View() == if r.Panics? then old(View()) else Cleaned(old(View()), now)
    {
      if poisoned {
        return Panics;
      }
      RemoveAll(ExpiredIds(allocatedPorts, now));
      StepKeepsPartition(cfg, old(View()), PortSpec.Cleanup(now), View());
      r := Returns(());
    }

    /** `get_allocated_port`. */
    method GetAllocatedPort(id: string) returns (r: Outcome<Option<U16>>)
      requires Valid()
      ensures r.Panics? <==> poisoned
      ensures r.Returns? ==> Step(cfg, View(), Lookup(id, r.value), View())
      ensures r.Returns? ==> r.value == if id in allocatedPorts then Some(allocatedPorts[id].port) else None
      ensures r.Returns? && r.value.Some? ==>
                r.value.value in Ports(cfg) && r.value.value !in availablePorts && r.value.value !in dropped
    {
      if poisoned {
        r := Panics;
      } else if id in allocatedPorts {
        assert allocatedPorts[id].port in Held(allocatedPorts);
        r := Returns(Some(allocatedPorts[id].port));
      } else {
        r := Returns(None);
      }
    }
  }
}
