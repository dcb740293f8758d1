/** The expiring lock around every scheduled job (backend/app/workers/scheduler.py, _with_lock):
    SET NX EX, run the job, DELETE whatever is there.  Any number of workers interleave. */
module WorkerLock {
  import opened Wrappers

  /** The lock key; `setBy` is not stored by the program, whose value is always "1". */
  datatype Lock = Lock(setBy: nat, expiresAt: int)

  /** `inside` maps each worker that is running its job to the time it acquired the lock. */
  datatype World = World(now: int, key: Option<Lock>, inside: map<nat, int>)

  datatype Event = Tick(t: int) | Acquire(w: nat) | Finish(w: nat)

  predicate Alive(s: World) {
    s.key.Some? && s.now < s.key.value.expiresAt
  }

  predicate Enabled(s: World, e: Event) {
    match e
    case Tick(t) => s.now <= t
    case Acquire(w) => w !in s.inside
    case Finish(w) => w in s.inside
  }

  function Next(s: World, ttl: int, e: Event): World
    requires Enabled(s, e)
  {
    match e
    case Tick(t) => s.(now := t)
    case Acquire(w) =>
      if Alive(s) then s else s.(key := Some(Lock(w, s.now + ttl)), inside := s.inside[w := s.now])
    case Finish(w) => s.(key := None, inside := s.inside - {w})
  }

  /** No job has been running for a whole TTL. */
  predicate Timely(s: World, ttl: int) {
    forall w :: w in s.inside ==> s.now < s.inside[w] + ttl
  }

  predicate AtMostOneInside(s: World) {
    forall v, w :: v in s.inside && w in s.inside ==> v == w
  }

  /** A finishing worker deletes its own lock and nobody else's. */
  predicate DeletesOwnLock(s: World, w: nat) {
    s.key.Some? && s.key.value.setBy == w
  }

  /** Whoever is inside set the key that is there, and it is the only one inside. */
  ghost predicate Guarded(s: World, ttl: int) {
    forall w :: w in s.inside ==> s.key == Some(Lock(w, s.inside[w] + ttl))
  }

  predicate Possible(s: World, ttl: int, es: seq<Event>)
    decreases |es|
  {
    es == [] || (Enabled(s, es[0]) && Possible(Next(s, ttl, es[0]), ttl, es[1..]))
  }

  function End(s: World, ttl: int, es: seq<Event>): World
    requires Possible(s, ttl, es)
    decreases |es|
  {
    if es == [] then s else End(Next(s, ttl, es[0]), ttl, es[1..])
  }

  /** Every job of the run finishes before its TTL: no state on the way has an overdue job. */
  predicate AlwaysTimely(s: World, ttl: int, es: seq<Event>)
    requires Possible(s, ttl, es)
    decreases |es|
  {
    Timely(s, ttl) && (es == [] || AlwaysTimely(Next(s, ttl, es[0]), ttl, es[1..]))
  }

  lemma {:induction false} TimelyRunsAreGuarded(s: World, ttl: int, es: seq<Event>)
    requires Guarded(s, ttl) && Possible(s, ttl, es) && AlwaysTimely(s, ttl, es)
    ensures Guarded(End(s, ttl, es), ttl) && Timely(End(s, ttl, es), ttl)
    decreases |es|
  {
    if es != [] {
      TimelyRunsAreGuarded(Next(s, ttl, es[0]), ttl, es[1..]);
    }
  }

  /** If every job finishes before its TTL, then in every interleaving of any number of workers at most
      one is inside, and each deletion removes the worker's own lock. */
  lemma LockIsSafe(s: World, ttl: int, es: seq<Event>)
    requires s.inside == map[] && Possible(s, ttl, es) && AlwaysTimely(s, ttl, es)
    ensures AtMostOneInside(End(s, ttl, es))
    ensures forall w :: w in End(s, ttl, es).inside ==> DeletesOwnLock(End(s, ttl, es), w)
  {
    TimelyRunsAreGuarded(s, ttl, es);
    var z := End(s, ttl, es);
    forall v, w | v in z.inside && w in z.inside ensures v == w {
      assert z.key == Some(Lock(v, z.inside[v] + ttl)) && z.key == Some(Lock(w, z.inside[w] + ttl));
    }
  }

  /** The condition is exact: while a job runs, a second worker that tries at time t gets in
      if and only if the first has by then run for a whole TTL. */
  lemma SecondWorkerEntersIffOverdue(s: World, ttl: int, w: nat, v: nat, t: int)
    requires Guarded(s, ttl) && w in s.inside && v !in s.inside && s.now <= t
    ensures var z := Next(Next(s, ttl, Tick(t)), ttl, Acquire(v));
            (v in z.inside <==> s.inside[w] + ttl <= t) && w in z.inside
  {
    assert s.key == Some(Lock(w, s.inside[w] + ttl));
  }

  /** After an overrun the late worker deletes the other's lock, and a third worker gets in beside it. */
  lemma OverrunCascades(s: World, ttl: int, u: nat, v: nat, w: nat)
    requires 0 < ttl && Guarded(s, ttl) && w in s.inside && s.now <= s.inside[w] + ttl
    requires u != v && u !in s.inside && v !in s.inside
    ensures var late := Next(Next(s, ttl, Tick(s.inside[w] + ttl)), ttl, Acquire(v));
            && !DeletesOwnLock(late, w)
            && var z := Next(Next(late, ttl, Finish(w)), ttl, Acquire(u));
               u in z.inside && v in z.inside && !AtMostOneInside(z)
  {
    assert s.key == Some(Lock(w, s.inside[w] + ttl));
    var late := Next(Next(s, ttl, Tick(s.inside[w] + ttl)), ttl, Acquire(v));
    assert late.key == Some(Lock(v, s.inside[w] + ttl + ttl));
    var z := Next(Next(late, ttl, Finish(w)), ttl, Acquire(u));
    assert u in z.inside && v in z.inside;
  }
}
