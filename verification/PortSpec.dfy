/**
 The port pool as a value: what the two mutex-protected tables of `PortAllocator` hold, what every
 operation may do to them, and the partition that all operations keep.
 */
module PortSpec {
  import opened Base

  /** The configuration an allocator is created with. Times are instants on one clock, `ttl` is in its unit. */
  datatype Config = Config(start: U16, end: U16, ttl: int)

  datatype Hold = Active | Reserved(until: int)

  datatype Lease = Lease(port: U16, hold: Hold)

  /**
   `dropped` collects the ports removed from the pool because the operating system had them in use; `poisoned`
   says that a call has panicked with both locks held.
   */
  datatype Pool = Pool(free: set<U16>, leases: map<string, Lease>, dropped: set<U16>, poisoned: bool)

  datatype AllocError = InUse(port: U16) | OutsideRange(port: U16) | NoPorts

  predicate InRange(cfg: Config, p: int) {
    cfg.start <= p <= cfg.end
  }

  function Ports(cfg: Config): set<U16> {
    set p: U16 | cfg.start <= p <= cfg.end && InRange(cfg, p)
  }

  function Held(leases: map<string, Lease>): set<U16> {
    set id | id in leases :: leases[id].port
  }

  // ----- the hash-preferred port

  /** `range_end - range_start + 1` in u16. */
  function RangeSize(cfg: Config): U16 {
    (cfg.end - cfg.start + 1) % 0x1_0000
  }

  /** None stands for the fault of a remainder by zero. */
  function HashToPort(cfg: Config, hash: nat): Option<U16> {
    if RangeSize(cfg) == 0 then None
    else Some((cfg.start + hash % RangeSize(cfg)) % 0x1_0000)
  }

  /** Neither 0-65535 nor a range that ends right before its start. */
  predicate Hashable(cfg: Config) {
    (cfg.end + 1) % 0x1_0000 != cfg.start
  }

  /** The ports from start to end, going on at 0 after 65535 when the range is inverted. */
  predicate InSpan(cfg: Config, p: U16) {
    if cfg.start <= cfg.end then InRange(cfg, p) else cfg.start <= p || p <= cfg.end
  }

  /** How far a port is from the start, going upward. */
  function Distance(cfg: Config, p: U16): nat {
    if cfg.start <= p then p - cfg.start else p + 0x1_0000 - cfg.start
  }

  /** How many ports the span has. */
  function SpanSize(cfg: Config): nat {
    cfg.end - cfg.start + 1 + if cfg.start <= cfg.end then 0 else 0x1_0000
  }

  /** The hash, counted off round and round over the ports of the span, ends at `p`. */
  ghost predicate CountsTo(cfg: Config, hash: nat, p: U16) {
    InSpan(cfg, p) && exists k: nat :: hash == k * SpanSize(cfg) + Distance(cfg, p)
  }

  /**
   The preferred port exists exactly when the range is hashable, and is the one where counting the hash off over
   the range (of an inverted range, over the wrapped one) ends; so every port of the range is somebody's.
   */
  lemma HashPortDefined(cfg: Config, hash: nat)
    ensures HashToPort(cfg, hash).Some? <==> Hashable(cfg)
    ensures Hashable(cfg) ==> CountsTo(cfg, hash, HashToPort(cfg, hash).value)
    ensures Hashable(cfg) ==> forall p: U16 | InSpan(cfg, p) :: HashToPort(cfg, Distance(cfg, p)) == Some(p)
  {
    SizeOfSpan(cfg);
    if Hashable(cfg) {
      var size: nat := RangeSize(cfg);
      Remainder(hash, size);
      Wrap(cfg.start + hash % size);
      assert Distance(cfg, HashToPort(cfg, hash).value) == hash % size;
      assert hash == (hash / size) * SpanSize(cfg) + Distance(cfg, HashToPort(cfg, hash).value);
      forall p: U16 | InSpan(cfg, p) ensures HashToPort(cfg, Distance(cfg, p)) == Some(p) {
        SmallMod(Distance(cfg, p), size);
        Wrap(cfg.start + Distance(cfg, p));
      }
    }
  }

  lemma SizeOfSpan(cfg: Config)
    ensures RangeSize(cfg) == 0 <==> !Hashable(cfg)
    ensures Hashable(cfg) ==> RangeSize(cfg) == SpanSize(cfg)
  {
    Wrap(cfg.end + 1);
    Wrap(cfg.end - cfg.start + 1);
  }

  lemma Wrap(a: int)
    ensures 0 <= a < 0x1_0000 ==> a % 0x1_0000 == a
    ensures 0x1_0000 <= a < 0x2_0000 ==> a % 0x1_0000 == a - 0x1_0000
    ensures -0x1_0000 <= a < 0 ==> a % 0x1_0000 == a + 0x1_0000
  {
  }

  lemma Remainder(a: nat, m: nat)
    requires m > 0
    ensures 0 <= a % m < m && a == (a / m) * m + a % m && a / m >= 0
  {
  }

  lemma SmallMod(a: nat, m: nat)
    requires a < m
    ensures a % m == a
  {
  }

  // ----- the operations

  function Init(cfg: Config): Pool {
    Pool(Ports(cfg), map[], {}, false)
  }

  /** Moves `busy` out of the pool for good. */
  function Drop(s: Pool, busy: set<U16>): Pool {
    s.(free := s.free - busy, dropped := s.dropped + busy)
  }

  function Grant(s: Pool, id: string, port: U16): Pool {
    s.(free := s.free - {port}, leases := s.leases[id := Lease(port, Active)])
  }

  /** `allocate` computes the hash-preferred port. */
  predicate NeedsHash(s: Pool, id: string, requested: Option<U16>) {
    id !in s.leases && requested.None?
  }

  /**
   What `allocate` may answer and leave behind, whatever the operating system says to each probe.
   A requested port that is free is granted, dropped as busy, or refused unchanged when its two
   probes disagree.
   */
  ghost predicate AllocateStep(s: Pool, id: string, requested: Option<U16>, r: Result<U16, AllocError>, s': Pool) {
    if id in s.leases then
      r == Ok(s.leases[id].port) && s' == s.(leases := s.leases[id := s.leases[id].(hold := Active)])
    else
      match requested
      case Some(p) =>
        || (p in s.free && r == Ok(p) && s' == Grant(s, id, p))
        || (p in s.free && r == Err(InUse(p)) && s' == Drop(s, {p}))
        || (r == Err(OutsideRange(p)) && s' == s)
      case None => ScanStep(s, id, r, s')
  }

  /** The scan takes one free port and drops some of the others, or drops every one of them and fails. */
  ghost predicate ScanStep(s: Pool, id: string, r: Result<U16, AllocError>, s': Pool) {
    || (r.Ok? && r.value in s.free && s'.free <= s.free - {r.value}
        && s' == Grant(Drop(s, s.free - {r.value} - s'.free), id, r.value))
    || (r == Err(NoPorts) && s' == Drop(s, s.free))
  }

  /** Only the first deallocation of an active lease sets its deadline. */
  function Deallocated(cfg: Config, s: Pool, id: string, now: int): Pool {
    if id in s.leases && s.leases[id].hold.Active? then
      s.(leases := s.leases[id := s.leases[id].(hold := Reserved(now + cfg.ttl))])
    else s
  }

  predicate Expired(lease: Lease, now: int) {
    lease.hold.Reserved? && lease.hold.until < now
  }

  function ExpiredIds(leases: map<string, Lease>, now: int): set<string> {
    set id | id in leases && Expired(leases[id], now)
  }

  function LeasedPorts(leases: map<string, Lease>, ids: set<string>): set<U16>
    requires ids <= leases.Keys
  {
    set id | id in ids :: leases[id].port
  }

  /** Returns the ports of the tunnels `gone` to the pool. */
  function Removed(s: Pool, gone: set<string>): Pool
    requires gone <= s.leases.Keys
  {
    s.(free := s.free + LeasedPorts(s.leases, gone), leases := s.leases - gone)
  }

  function Cleaned(s: Pool, now: int): Pool {
    Removed(s, ExpiredIds(s.leases, now))
  }

  lemma RemovedNone(s: Pool)
    ensures Removed(s, {}) == s
  {
    assert LeasedPorts(s.leases, {}) == {};
    assert s.leases - {} == s.leases;
  }

  lemma RemovedOneMore(s: Pool, gone: set<string>, id: string)
    requires gone <= s.leases.Keys && id in s.leases && id !in gone
    ensures var r := Removed(s, gone);
            && id in r.leases && r.leases[id] == s.leases[id]
            && Removed(s, gone + {id}) == r.(free := r.free + {r.leases[id].port}, leases := r.leases - {id})
  {
    forall p | p in LeasedPorts(s.leases, gone) ensures p in LeasedPorts(s.leases, gone + {id}) {
      var k :| k in gone && s.leases[k].port == p;
      assert k in gone + {id};
    }
    assert id in gone + {id};
    assert LeasedPorts(s.leases, gone + {id}) == LeasedPorts(s.leases, gone) + {s.leases[id].port};
    assert s.leases - (gone + {id}) == s.leases - gone - {id};
  }

  /**
   `Faulted` is an allocation that panics in the hash; the locks it held stay poisoned, and every later call
   panics when it takes its first lock, which is `Refused`.
   */
  datatype Op =
    | Faulted(id: string)
    | Refused
    | Allocate(id: string, requested: Option<U16>, result: Result<U16, AllocError>)
    | Deallocate(id: string, now: int)
    | Cleanup(now: int)
    | Lookup(id: string, found: Option<U16>)

  ghost predicate Step(cfg: Config, s: Pool, op: Op, s': Pool) {
    match op
    case Faulted(id) => !s.poisoned && NeedsHash(s, id, None) && !Hashable(cfg) && s' == s.(poisoned := true)
    case Refused => s.poisoned && s' == s
    case Allocate(id, requested, r) =>
      !s.poisoned && (NeedsHash(s, id, requested) ==> Hashable(cfg)) && AllocateStep(s, id, requested, r, s')
    case Deallocate(id, now) => !s.poisoned && s' == Deallocated(cfg, s, id, now)
    case Cleanup(now) => !s.poisoned && s' == Cleaned(s, now)
    case Lookup(id, found) =>
      !s.poisoned && s' == s && found == (if id in s.leases then Some(s.leases[id].port) else None)
  }

  // ----- the partition

  ghost predicate Injective(leases: map<string, Lease>) {
    forall a, b | a in leases && b in leases && a != b :: leases[a].port != leases[b].port
  }

  /** Every port of the range is free, held by exactly one tunnel, or dropped, and never two of these. */
  ghost predicate Partition(cfg: Config, s: Pool) {
    && Injective(s.leases)
    && s.free !! Held(s.leases) !! s.dropped
    && s.free + Held(s.leases) + s.dropped == Ports(cfg)
  }

  lemma HeldInsert(leases: map<string, Lease>, id: string, lease: Lease)
    requires id !in leases
    ensures Held(leases[id := lease]) == Held(leases) + {lease.port}
  {
    var after := leases[id := lease];
    assert after[id].port in Held(after);
    forall p | p in Held(leases) ensures p in Held(after) {
      var k :| k in leases && leases[k].port == p;
      assert after[k].port == p;
    }
  }

  lemma HeldRehold(leases: map<string, Lease>, id: string, hold: Hold)
    requires id in leases
    ensures Held(leases[id := leases[id].(hold := hold)]) == Held(leases)
  {
    var after := leases[id := leases[id].(hold := hold)];
    forall p | p in Held(leases) ensures p in Held(after) {
      var k :| k in leases && leases[k].port == p;
      assert after[k].port == p;
    }
  }

  lemma HeldRemove(leases: map<string, Lease>, gone: set<string>)
    requires Injective(leases) && gone <= leases.Keys
    ensures Held(leases - gone) == Held(leases) - LeasedPorts(leases, gone)
  {
    var after := leases - gone;
    forall p | p in Held(leases) && p !in LeasedPorts(leases, gone) ensures p in Held(after) {
      var k :| k in leases && leases[k].port == p;
      assert k !in gone;
      assert after[k].port == p;
    }
  }

  lemma InitPartition(cfg: Config)
    ensures Partition(cfg, Init(cfg))
  {
  }

  /** Every operation, with any answers from the operating system and any clock reading, keeps the partition. */
  lemma StepKeepsPartition(cfg: Config, s: Pool, op: Op, s': Pool)
    requires Partition(cfg, s) && Step(cfg, s, op, s')
    ensures Partition(cfg, s')
  {
    match op
    case Allocate(id, requested, r) =>
      if id in s.leases {
        HeldRehold(s.leases, id, Active);
      } else if r.Ok? {
        HeldInsert(s.leases, id, Lease(r.value, Active));
        assert r.value !in Held(s.leases);
      }
    case Deallocate(id, now) =>
      if id in s.leases {
        HeldRehold(s.leases, id, Reserved(now + cfg.ttl));
      }
    case Cleanup(now) =>
      HeldRemove(s.leases, ExpiredIds(s.leases, now));
    case _ =>
  }

  /** An inverted range is empty. */
  function RangeCount(cfg: Config): nat {
    if cfg.start <= cfg.end then cfg.end - cfg.start + 1 else 0
  }

  lemma {:induction false} PortsSize(cfg: Config)
    ensures |Ports(cfg)| == RangeCount(cfg)
    decreases RangeCount(cfg)
  {
    if cfg.start > cfg.end {
      assert Ports(cfg) == {};
    } else if cfg.start == cfg.end {
      assert Ports(cfg) == {cfg.start};
    } else {
      var rest := cfg.(start := cfg.start + 1);
      PortsSize(rest);
      assert Ports(cfg) == Ports(rest) + {cfg.start};
    }
  }

  lemma {:induction false} HeldSize(leases: map<string, Lease>)
    requires Injective(leases)
    ensures |Held(leases)| == |leases|
    decreases |leases|
  {
    if leases == map[] {
      assert Held(leases) == {};
    } else {
      var id :| id in leases;
      var rest := leases - {id};
      assert leases == rest[id := leases[id]];
      HeldSize(rest);
      HeldInsert(rest, id, leases[id]);
    }
  }

  /** The three sizes add up to the size of the range. */
  lemma PartitionSizes(cfg: Config, s: Pool)
    requires Partition(cfg, s)
    ensures |s.free| + |s.leases| + |s.dropped| == RangeCount(cfg)
  {
    PortsSize(cfg);
    HeldSize(s.leases);
    assert |s.free + Held(s.leases)| == |s.free| + |Held(s.leases)|;
  }
}
