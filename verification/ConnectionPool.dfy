/** The connection pool of the client proxy, and any interleaving of requests that share it. */
module ConnectionPool {
  import opened Base

  const MAX_POOL_SIZE := 10

  /** A connection to the local server, named by the order of its creation. */
  type Conn = nat

  // ----- the pool operations

  /** How many entries from the end are not ready. */
  function Stale(pool: seq<Conn>, ready: Conn -> bool): (n: nat)
    ensures n <= |pool|
    ensures forall i | |pool| - n <= i < |pool| :: !ready(pool[i])
    ensures n < |pool| ==> ready(pool[|pool| - n - 1])
  {
    if pool == [] || ready(pool[|pool| - 1]) then 0 else 1 + Stale(pool[..|pool| - 1], ready)
  }

  /** The most recently pooled connection that is ready; the stale ones above it are discarded. */
  function Popped(pool: seq<Conn>, ready: Conn -> bool): (Option<Conn>, seq<Conn>) {
    var n := Stale(pool, ready);
    if n < |pool| then (Some(pool[|pool| - n - 1]), pool[..|pool| - n - 1]) else (None, [])
  }

  function Pushed(pool: seq<Conn>, c: Conn): seq<Conn> {
    if |pool| < MAX_POOL_SIZE then pool + [c] else pool
  }

  class HttpProxy {
    var pool: seq<Conn>

    constructor ()
      ensures pool == []
    {
      pool := [];
    }

    /** The pooled half of `get_connection`, made under the pool's lock; None means a new connection is dialled. */
    method TakePooled(ready: Conn -> bool) returns (c: Option<Conn>)
      modifies this
      ensures (c, pool) == Popped(old(pool), ready)
      ensures c.Some? ==> ready(c.value)
    {
      ghost var all := pool;
      while |pool| > 0
        invariant pool <= all
        invariant forall i | |pool| <= i < |all| :: !ready(all[i])
      {
        var conn := pool[|pool| - 1];
        pool := pool[..|pool| - 1];
        if ready(conn) {
          assert conn == all[|pool|] && Stale(all, ready) == |all| - |pool| - 1;
          assert pool == all[..|pool|];
          return Some(conn);
        }
      }
      c := None;
    }

    /** `return_connection`. */
    method ReturnConnection(c: Conn, isReady: bool)
      modifies this
      ensures pool == if isReady then Pushed(old(pool), c) else old(pool)
    {
      if !isReady {
        return;
      }
      if |pool| < MAX_POOL_SIZE {
        pool := pool + [c];
      }
    }
  }

  // ----- concurrent requests

  type Request = nat

  datatype Pc =
    | Begun
    | Dialling
    | Holding(conn: Conn)
    | Answered(conn: Conn)
    | Returning(conn: Conn)
    | Finished

  /** `failed` collects the connections on which a send failed. */
  datatype State = State(
    pool: seq<Conn>, requests: map<Request, Pc>, created: nat, failed: set<Conn>)

  datatype Event =
    | Arrive(r: Request)
    | Take(r: Request, ready: Conn -> bool)
    | Dial(r: Request, ok: bool)
    | SendOk(r: Request)
    | SendFailed(r: Request)
    | CheckReady(r: Request, isReady: bool)
    | Return(r: Request)

  const INITIAL := State([], map[], 0, {})

  predicate At(s: State, r: Request, pc: Pc) {
    r in s.requests && s.requests[r] == pc
  }

  function Goto(s: State, r: Request, pc: Pc): State {
    s.(requests := s.requests[r := pc])
  }

  /** One step of one request; None when it is not at that point. The pool is accessed under its lock. */
  function Apply(s: State, e: Event): Option<State> {
    if e.Arrive? then
      if e.r in s.requests then None else Some(Goto(s, e.r, Begun))
    else if e.r !in s.requests then None
    else match (e, s.requests[e.r])
      case (Take(r, ready), Begun) =>
        var (c, rest) := Popped(s.pool, ready);
        Some(Goto(s, r, if c.Some? then Holding(c.value) else Dialling).(pool := rest))
      case (Dial(r, ok), Dialling) =>
        if ok then Some(Goto(s, r, Holding(s.created)).(created := s.created + 1)) else Some(Goto(s, r, Finished))
      case (SendOk(r), Holding(c)) => Some(Goto(s, r, Answered(c)))
      case (SendFailed(r), Holding(c)) => Some(Goto(s, r, Finished).(failed := s.failed + {c}))
      case (CheckReady(r, isReady), Answered(c)) => Some(Goto(s, r, if isReady then Returning(c) else Finished))
      case (Return(r), Returning(c)) => Some(Goto(s, r, Finished).(pool := Pushed(s.pool, c)))
      case _ => None
  }

  function InUse(pc: Pc): Option<Conn> {
    if pc.Holding? || pc.Answered? || pc.Returning? then Some(pc.conn) else None
  }

  predicate Uses(s: State, r: Request, c: Conn) {
    r in s.requests && InUse(s.requests[r]) == Some(c)
  }

  /** Every connection is pooled once, in use by one request, or gone; a failed one is gone. */
  ghost predicate Inv(s: State) {
    && |s.pool| <= MAX_POOL_SIZE
    && (forall i, j | 0 <= i < j < |s.pool| :: s.pool[i] != s.pool[j])
    && (forall i | 0 <= i < |s.pool| :: s.pool[i] < s.created && s.pool[i] !in s.failed)
    && (forall r, c: Conn | Uses(s, r, c) :: c < s.created && c !in s.failed && c !in s.pool)
    && (forall r1, r2, c: Conn | Uses(s, r1, c) && Uses(s, r2, c) :: r1 == r2)
    && (forall c | c in s.failed :: c < s.created)
  }

  lemma PoppedDisjoint(pool: seq<Conn>, ready: Conn -> bool)
    requires forall i, j | 0 <= i < j < |pool| :: pool[i] != pool[j]
    ensures var (c, rest) := Popped(pool, ready);
            && rest <= pool && |rest| <= |pool|
            && (c.Some? ==> c.value in pool && c.value !in rest && ready(c.value))
  {
  }

  lemma TakeKeepsInv(s: State, e: Event)
    requires Inv(s) && e.Take? && Apply(s, e).Some?
    ensures Inv(Apply(s, e).value)
  {
    PoppedDisjoint(s.pool, e.ready);
    var s' := Apply(s, e).value;
    forall r, c: Conn | Uses(s', r, c) ensures c < s'.created && c !in s'.failed && c !in s'.pool {
      if r != e.r {
        assert Uses(s, r, c);
      }
    }
    forall r1, r2, c: Conn | Uses(s', r1, c) && Uses(s', r2, c) ensures r1 == r2 {
      if r1 != e.r {
        assert Uses(s, r1, c);
      }
      if r2 != e.r {
        assert Uses(s, r2, c);
      }
    }
  }

  lemma OtherKeepsInv(s: State, e: Event)
    requires Inv(s) && !e.Take? && Apply(s, e).Some?
    ensures Inv(Apply(s, e).value)
  {
    var s' := Apply(s, e).value;
    forall r, c: Conn | Uses(s', r, c)
      ensures c < s'.created && c !in s'.failed && c !in s'.pool
      ensures r != e.r ==> Uses(s, r, c)
      ensures r == e.r ==> Uses(s, r, c) || c == s.created
    {
      if r != e.r {
        assert Uses(s, r, c);
      }
      if e.r in s.requests && InUse(s.requests[e.r]).Some? {
        assert Uses(s, e.r, s.requests[e.r].conn);
      }
    }
    if e.r in s.requests && InUse(s.requests[e.r]).Some? {
      assert Uses(s, e.r, s.requests[e.r].conn);
    }
  }

  // ----- whole runs

  ghost predicate IsRun(ss: seq<State>, es: seq<Event>) {
    && |ss| == |es| + 1 && ss[0] == INITIAL
    && forall i | 0 <= i < |es| :: Apply(ss[i], es[i]) == Some(ss[i + 1])
  }

  /**
   Pool safety under any interleaving: at most 10 entries, and no connection pooled twice, shared, or both
   pooled and in use.
   */
  lemma {:induction false} PoolSafe(ss: seq<State>, es: seq<Event>, i: nat)
    requires IsRun(ss, es) && i < |ss|
    ensures Inv(ss[i]) && |ss[i].pool| <= 10
  {
    if i > 0 {
      PoolSafe(ss, es, i - 1);
      assert Apply(ss[i - 1], es[i - 1]) == Some(ss[i - 1 + 1]);
      if es[i - 1].Take? {
        TakeKeepsInv(ss[i - 1], es[i - 1]);
      } else {
        OtherKeepsInv(ss[i - 1], es[i - 1]);
      }
    }
  }

  lemma {:induction false} FailedGrows(ss: seq<State>, es: seq<Event>, i: nat, j: nat)
    requires IsRun(ss, es) && i <= j < |ss|
    ensures ss[i].failed <= ss[j].failed
    decreases j
  {
    if i < j {
      FailedGrows(ss, es, i, j - 1);
      assert Apply(ss[j - 1], es[j - 1]) == Some(ss[j - 1 + 1]);
    }
  }

  /** A connection whose send failed never re-enters the pool and is never handed out again. */
  lemma FailedNeverReturns(ss: seq<State>, es: seq<Event>, i: nat, j: nat, r: Request, c: Conn)
    requires IsRun(ss, es) && i < j < |ss|
    requires es[i] == SendFailed(r) && At(ss[i], r, Holding(c))
    ensures c !in ss[j].pool && forall q :: !Uses(ss[j], q, c)
  {
    assert Apply(ss[i], es[i]) == Some(ss[i + 1]);
    FailedGrows(ss, es, i + 1, j);
    PoolSafe(ss, es, j);
  }

  ghost predicate OnlyUser(s: State, r: Request, c: Conn) {
    forall q | Uses(s, q, c) :: q == r
  }

  /** A connection handed out from the pool was ready when it was popped, and nobody else had it. */
  lemma ReusedWasReady(ss: seq<State>, es: seq<Event>, i: nat, c: Conn)
    requires IsRun(ss, es) && i < |es| && es[i].Take? && At(ss[i + 1], es[i].r, Holding(c))
    ensures es[i].ready(c) && c in ss[i].pool && c !in ss[i + 1].pool
    ensures OnlyUser(ss[i + 1], es[i].r, c)
  {
    PoolSafe(ss, es, i);
    PoolSafe(ss, es, i + 1);
    assert Apply(ss[i], es[i]) == Some(ss[i + 1]);
    PoppedDisjoint(ss[i].pool, es[i].ready);
    assert Uses(ss[i + 1], es[i].r, c);
  }

  ghost predicate FoundReady(ss: seq<State>, es: seq<Event>, j: nat, r: Request, c: Conn) {
    j < |es| && j < |ss| && es[j] == CheckReady(r, true) && At(ss[j], r, Answered(c))
  }

  /** Only a connection that was found ready after its response is on its way back to the pool. */
  lemma {:induction false} ReturnedWasReady(ss: seq<State>, es: seq<Event>, i: nat, r: Request, c: Conn)
    returns (j: nat)
    requires IsRun(ss, es) && i < |ss| && At(ss[i], r, Returning(c))
    ensures j < i && FoundReady(ss, es, j, r, c)
  {
    assert i > 0;
    assert Apply(ss[i - 1], es[i - 1]) == Some(ss[i - 1 + 1]);
    if At(ss[i - 1], r, Returning(c)) {
      j := ReturnedWasReady(ss, es, i - 1, r, c);
    } else {
      j := i - 1;
    }
  }

  // ----- reuse

  /** A connection returned below the limit is the next one taken, while it stays ready. */
  lemma ReturnedIsNext(pool: seq<Conn>, c: Conn, ready: Conn -> bool)
    requires |pool| < 10 && ready(c)
    ensures Popped(Pushed(pool, c), ready) == (Some(c), pool)
  {
    assert (pool + [c])[..|pool|] == pool;
  }

  predicate TouchesPool(e: Event) {
    e.Take? || e.Return?
  }

  lemma {:induction false} PoolRests(ss: seq<State>, es: seq<Event>, i: nat, j: nat)
    requires IsRun(ss, es) && i <= j < |ss| && forall k | i <= k < j :: !TouchesPool(es[k])
    ensures ss[j].pool == ss[i].pool
    decreases j
  {
    if i < j {
      PoolRests(ss, es, i, j - 1);
      assert Apply(ss[j - 1], es[j - 1]) == Some(ss[j - 1 + 1]);
      assert !TouchesPool(es[j - 1]);
    }
  }

  /** In every run: returned at step `i` below the limit and still ready at the next take, the connection is reused. */
  lemma ReturnedIsReused(ss: seq<State>, es: seq<Event>, i: nat, j: nat, c: Conn)
    requires IsRun(ss, es) && i < j < |es| && es[i].Return? && At(ss[i], es[i].r, Returning(c)) && |ss[i].pool| < 10
    requires es[j].Take? && es[j].ready(c) && forall k | i < k < j :: !TouchesPool(es[k])
    ensures At(ss[j + 1], es[j].r, Holding(c))
  {
    assert Apply(ss[i], es[i]) == Some(ss[i + 1]);
    assert Apply(ss[j], es[j]) == Some(ss[j + 1]);
    PoolRests(ss, es, i + 1, j);
    ReturnedIsNext(ss[i].pool, c, es[j].ready);
  }

  /** A new connection is dialled only if no pooled one is ready. */
  lemma DialsOnlyIfNoneReady(ss: seq<State>, es: seq<Event>, i: nat)
    requires IsRun(ss, es) && i < |es| && es[i].Take? && At(ss[i + 1], es[i].r, Dialling)
    ensures forall c | c in ss[i].pool :: !es[i].ready(c)
  {
    assert Apply(ss[i], es[i]) == Some(ss[i + 1]);
  }
}
