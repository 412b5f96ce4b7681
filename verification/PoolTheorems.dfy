// What pruning does, and safety of the pool for every interleaving of any number of threads.
module PoolTheorems {
  import opened Ordering
  import opened Lists
  import opened Connection
  import opened PoolSpec

  // ---- pruning -----------------------------------------------------------------------------------

  ghost predicate FreeAndFresh(p: Pool, j: nat, now: int)
    requires j < |p.storage| && p.storage[j] in p.released
  {
    p.storage[j] in p.available && now - p.released[p.storage[j]] <= p.idleTimeout
  }

  // Only free and expired connections go, from both containers, and the rest keeps its order.
  ghost predicate OnlyExpiredRemoved(p: Pool, r: Pool, now: int)
    requires forall c | c in p.storage :: c in p.released
  {
    && r == p.(storage := r.storage, available := r.available)
    && r.storage == Filter(p.storage, Members(r.storage))
    && r.available == Filter(p.available, Members(r.storage))
    && (forall c | c in p.storage && c !in r.storage :: c in p.available && now - p.released[c] > p.idleTimeout)
    && (forall c | c in p.available :: c in r.storage <==> c in r.available)
    && (forall c | c in r.available :: c in p.available)
    && (forall c | c in r.storage :: c in p.storage)
  }

  // Why pruning stopped.
  ghost predicate Stopped(r: Pool, now: int)
    requires forall c | c in r.storage :: c in r.released
  {
    || |r.storage| <= 1
    || r.available == []
    || exists k: nat :: NewestFree(r, k) && FreeAndFresh(r, k, now)
  }

  lemma FilterDiscarded(p: Pool, i: nat, r: Pool)
    requires PoolOk(p) && i < |p.storage| && p.storage[i] in p.available && p.storage[i] !in r.storage
    requires r.storage == Filter(Discard(p, i).storage, Members(r.storage))
    requires r.available == Filter(Discard(p, i).available, Members(r.storage))
    ensures r.storage == Filter(p.storage, Members(r.storage))
    ensures r.available == Filter(p.available, Members(r.storage))
  {
    FilterRemoved(p.storage, i, Members(r.storage));
    FilterRemoved(p.available, IndexOf(p.available, p.storage[i]), Members(r.storage));
  }

  lemma NothingRemoved(p: Pool, now: int)
    requires PoolOk(p)
    ensures OnlyExpiredRemoved(p, p, now)
  {
    FilterAll(p.storage, Members(p.storage));
    FilterAll(p.available, Members(p.storage));
  }

  lemma DiscardedThenPruned(p: Pool, i: nat, r: Pool, now: int)
    requires PoolOk(p) && i < |p.storage| && p.storage[i] in p.available && Expired(p, p.storage[i], now)
    requires PoolOk(Discard(p, i)) && OnlyExpiredRemoved(Discard(p, i), r, now)
    ensures OnlyExpiredRemoved(p, r, now)
  {
    var p1 := Discard(p, i);
    DiscardKeepsOk(p, i);
    FilterDiscarded(p, i, r);
    forall c | c in p.storage && c !in r.storage ensures c in p.available && Expired(p, c, now) {
      if c != p.storage[i] { assert c in p1.available && Expired(p1, c, now); }
    }
  }

  ghost predicate PruneOutcome(p: Pool, r: Pool, now: int)
    requires PoolOk(p)
  {
    PoolOk(r) && OnlyExpiredRemoved(p, r, now) && Stopped(r, now) && (p.storage != [] ==> r.storage != [])
  }

  lemma PruneStopsAt(p: Pool, i: nat, now: int)
    requires PoolOk(p) && i < |p.storage| && FreeAndFresh(p, i, now)
    requires forall j | i < j < |p.storage| :: p.storage[j] !in p.available
    ensures PruneOutcome(p, p, now)
  {
    NothingRemoved(p, now);
    assert NewestFree(p, i);
  }

  lemma PruneGoesOn(p: Pool, i: nat, r: Pool, now: int)
    requires PoolOk(p) && i < |p.storage| && |p.storage| > MIN_LIMIT
    requires p.storage[i] in p.available && Expired(p, p.storage[i], now)
    requires PoolOk(Discard(p, i)) && PruneOutcome(Discard(p, i), r, now)
    ensures PruneOutcome(p, r, now)
  {
    assert Discard(p, i).storage != [];
    DiscardedThenPruned(p, i, r, now);
  }

  lemma {:induction false} PruneFromMeaning(p: Pool, i: int, now: int)
    requires PoolOk(p) && i < |p.storage|
    requires forall j | Max(i, -1) < j < |p.storage| :: p.storage[j] !in p.available
    ensures PruneOutcome(p, PruneFrom(p, i, now), now)
    decreases i
  {
    if i < 0 || |p.storage| <= MIN_LIMIT {
      NothingRemoved(p, now);
    } else if p.storage[i] !in p.available {
      PruneFromMeaning(p, i - 1, now);
    } else if Expired(p, p.storage[i], now) {
      DiscardKeepsOk(p, i);
      PruneFromMeaning(Discard(p, i), i - 1, now);
      PruneGoesOn(p, i, PruneFrom(p, i, now), now);
    } else {
      PruneStopsAt(p, i, now);
    }
  }

  lemma PruneMeaning(p: Pool, now: int)
    requires PoolOk(p)
    ensures PoolOk(Prune(p, now)) && OnlyExpiredRemoved(p, Prune(p, now), now)
    ensures Stopped(Prune(p, now), now)
    ensures p.storage != [] ==> Prune(p, now).storage != []
  {
    if p.available == [] {
      NothingRemoved(p, now);
    } else {
      PruneFromMeaning(p, |p.storage| - 1, now);
    }
  }

  // A free connection that is not expired shields itself and everything older.
  lemma {:induction false} FreshShieldsOlder(p: Pool, i: int, now: int, a: nat, b: nat)
    requires PoolOk(p) && i < |p.storage| && a <= b <= i
    requires FreeAndFresh(p, b, now)
    ensures p.storage[a] in PruneFrom(p, i, now).storage
    decreases i
  {
    if |p.storage| > MIN_LIMIT && p.storage[i] !in p.available {
      FreshShieldsOlder(p, i - 1, now, a, b);
    } else if |p.storage| > MIN_LIMIT && Expired(p, p.storage[i], now) {
      OlderStays(p, i, now, a, b);
      FreshShieldsOlder(Discard(p, i), i - 1, now, a, b);
    }
  }

  // Discarding a newer connection leaves the older ones where they are.
  lemma OlderStays(p: Pool, i: nat, now: int, a: nat, b: nat)
    requires PoolOk(p) && i < |p.storage| && p.storage[i] in p.available && Expired(p, p.storage[i], now)
    requires a <= b <= i && FreeAndFresh(p, b, now)
    ensures var q := Discard(p, i);
            PoolOk(q) && b < i <= |q.storage| && q.storage[a] == p.storage[a] && FreeAndFresh(q, b, now)
  {
    var q := Discard(p, i);
    DiscardKeepsOk(p, i);
    assert q.storage[b] == p.storage[b] && q.storage[a] == p.storage[a];
    assert Differ(p.storage, b, i);
  }

  // ---- threads -----------------------------------------------------------------------------------

  datatype Phase = Waiting | Holding(conn: Conn)

  // Threads inside acquire or holding a connection; all others are idle.
  datatype Sys = Sys(pool: Pool, threads: map<nat, Phase>, clock: nat)

  datatype Event =
    | Tick(d: nat)
    | Enter(thread: nat)                     // acquire: lock, prune, take or start waiting
    | Wake(thread: nat)                      // notified or spurious wake-up
    | TimeOut(thread: nat, connects: bool)   // wait_for timed out; does opening a connection succeed?
    | Release(thread: nat)

  function Init(hardLimit: nat, idleTimeout: nat): Sys {
    Sys(Pool(hardLimit, idleTimeout, [0], [0], map[0 := 0], 1), map[], 0)
  }

  predicate Enabled(s: Sys, e: Event) {
    match e
    case Tick(_) => true
    case Enter(t) => t !in s.threads
    case Wake(t) => t in s.threads && s.threads[t].Waiting?
    case TimeOut(t, _) => t in s.threads && s.threads[t].Waiting?
    case Release(t) => t in s.threads && s.threads[t].Holding?
  }

  // The top of the while(true) loop: take the front of the queue or wait.
  function TakeOrWait(s: Sys, t: nat): Sys {
    if s.pool.available != [] then
      s.(pool := s.pool.(available := s.pool.available[1..]),
         threads := s.threads[t := Holding(s.pool.available[0])])
    else s.(threads := s.threads[t := Waiting])
  }

  function Grow(s: Sys, t: nat): Sys {
    var c := s.pool.nextConn;
    s.(pool := Added(s.pool), threads := s.threads[t := Holding(c)])
  }

  function Next(s: Sys, e: Event): Sys
    requires Enabled(s, e) && forall c | c in s.pool.storage :: c in s.pool.released
  {
    match e
    case Tick(d) => s.(clock := s.clock + d)
    case Enter(t) => TakeOrWait(s.(pool := Prune(s.pool, s.clock)), t)
    case Wake(t) => TakeOrWait(s, t)
    case TimeOut(t, connects) =>
      if |s.pool.storage| >= s.pool.hardLimit then TakeOrWait(s, t)
      else if connects then Grow(s, t)
      else s.(threads := s.threads - {t})
    case Release(t) =>
      s.(pool := GiveBack(s.pool, s.threads[t].conn, s.clock), threads := s.threads - {t})
  }

  // storage is the disjoint union of available and the held connections, no two threads hold the
  // same one, the size is within its bounds, and no stamp lies in the future.
  ghost predicate Safe(s: Sys) {
    && PoolOk(s.pool)
    && (forall t | t in s.threads && s.threads[t].Holding? ::
          s.threads[t].conn in s.pool.storage && s.threads[t].conn !in s.pool.available)
    && (forall t, u | t in s.threads && u in s.threads && t != u && s.threads[t].Holding? ::
          s.threads[t] != s.threads[u])
    && (forall c | c in s.pool.storage :: c in s.pool.available || Holding(c) in s.threads.Values)
    && (forall c | c in s.pool.storage :: s.pool.released[c] <= s.clock)
    && 1 <= |s.pool.storage| <= Max(1, s.pool.hardLimit)
  }

  lemma InitSafe(hardLimit: nat, idleTimeout: nat)
    ensures Safe(Init(hardLimit, idleTimeout))
  {}

  lemma FilterShorter(s: seq<Conn>, keep: set<Conn>)
    ensures |Filter(s, keep)| <= |s|
  {}

  lemma PruneSafe(s: Sys)
    requires Safe(s)
    ensures Safe(s.(pool := Prune(s.pool, s.clock)))
  {
    PruneMeaning(s.pool, s.clock);
    FilterShorter(s.pool.storage, Members(Prune(s.pool, s.clock).storage));
  }

  lemma TakeOrWaitSafe(s: Sys, t: nat)
    requires Safe(s) && (t in s.threads ==> s.threads[t].Waiting?)
    ensures Safe(TakeOrWait(s, t))
  {
    var r := TakeOrWait(s, t);
    HoldersRemain(s, r, t);
    assert t in r.threads.Keys && r.threads[t] in r.threads.Values;
    if s.pool.available != [] { TakeOk(s.pool); }
  }

  // Changing what one waiting or idle thread does loses no holder.
  lemma HoldersRemain(s: Sys, r: Sys, t: nat)
    requires t in s.threads ==> s.threads[t].Waiting?
    requires forall u | u in s.threads && u != t :: u in r.threads && r.threads[u] == s.threads[u]
    ensures forall c | Holding(c) in s.threads.Values :: Holding(c) in r.threads.Values
  {
    forall c | Holding(c) in s.threads.Values ensures Holding(c) in r.threads.Values {
      var u :| u in s.threads && s.threads[u] == Holding(c);
      assert r.threads[u] == Holding(c);
    }
  }

  lemma GrowSafe(s: Sys, t: nat)
    requires Safe(s) && t in s.threads && s.threads[t].Waiting? && |s.pool.storage| < s.pool.hardLimit
    ensures Safe(Grow(s, t))
  {
    var r, c := Grow(s, t), s.pool.nextConn;
    GrowOk(s.pool);
    HoldersRemain(s, r, t);
    assert t in r.threads.Keys && r.threads[t] in r.threads.Values;
  }

  lemma GiveUpSafe(s: Sys, t: nat)
    requires Safe(s) && t in s.threads && s.threads[t].Waiting?
    ensures Safe(s.(threads := s.threads - {t}))
  {
    HoldersRemain(s, s.(threads := s.threads - {t}), t);
  }

  lemma ReleaseSafe(s: Sys, t: nat)
    requires Safe(s) && t in s.threads && s.threads[t].Holding?
    ensures Safe(Next(s, Release(t)))
  {
    var r, c := Next(s, Release(t)), s.threads[t].conn;
    GiveBackOk(s.pool, c, s.clock);
    assert r.pool.available[|s.pool.available|] == c;
    forall d | d in r.pool.storage ensures d in r.pool.available || Holding(d) in r.threads.Values {
      if d in s.pool.available {
        var j :| 0 <= j < |s.pool.available| && s.pool.available[j] == d;
        assert r.pool.available[j] == d;
      } else if d != c {
        var u :| u in s.threads && s.threads[u] == Holding(d);
        assert r.threads[u] == Holding(d);
      }
    }
  }

  lemma NextSafe(s: Sys, e: Event)
    requires Safe(s) && Enabled(s, e)
    ensures Safe(Next(s, e))
  {
    match e
    case Tick(d) =>
      assert forall c | c in s.pool.storage :: s.pool.released[c] <= s.clock + d;
    case Enter(t) =>
      PruneSafe(s);
      TakeOrWaitSafe(s.(pool := Prune(s.pool, s.clock)), t);
    case Wake(t) => TakeOrWaitSafe(s, t);
    case TimeOut(t, connects) =>
      if |s.pool.storage| >= s.pool.hardLimit { TakeOrWaitSafe(s, t); }
      else if connects { GrowSafe(s, t); }
      else { GiveUpSafe(s, t); }
    case Release(t) => ReleaseSafe(s, t);
  }

  // s' is reached from s by the events, each of them possible when it happens.
  ghost predicate Reaches(s: Sys, events: seq<Event>, s': Sys)
    requires Safe(s)
    decreases |events|
  {
    if events == [] then s == s'
    else Enabled(s, events[0]) && (NextSafe(s, events[0]); Reaches(Next(s, events[0]), events[1..], s'))
  }

  ghost predicate FromStart(hardLimit: nat, idleTimeout: nat, events: seq<Event>, s: Sys) {
    InitSafe(hardLimit, idleTimeout);
    Reaches(Init(hardLimit, idleTimeout), events, s)
  }

  lemma {:induction false} SafeAlways(s: Sys, events: seq<Event>, s': Sys)
    requires Safe(s) && Reaches(s, events, s')
    ensures Safe(s')
    decreases |events|
  {
    if events != [] {
      NextSafe(s, events[0]);
      SafeAlways(Next(s, events[0]), events[1..], s');
    }
  }

  lemma PoolIsSafe(hardLimit: nat, idleTimeout: nat, events: seq<Event>, s: Sys)
    requires FromStart(hardLimit, idleTimeout, events, s)
    ensures Safe(s)
  {
    InitSafe(hardLimit, idleTimeout);
    SafeAlways(Init(hardLimit, idleTimeout), events, s);
  }

  // ---- single steps --------------------------------------------------------------------------------

  // Going round the loop takes the front of the queue, or waits and changes nothing else.
  lemma WakeEffect(s: Sys, t: nat)
    requires Safe(s) && Enabled(s, Wake(t))
    ensures var r := Next(s, Wake(t));
            && r.clock == s.clock && r.pool.storage == s.pool.storage && r.pool.released == s.pool.released
            && (s.pool.available == [] ==> r == s)
            && (s.pool.available != [] ==>
                  && r.pool.available == s.pool.available[1..]
                  && r.threads == s.threads[t := Holding(s.pool.available[0])])
  {
    if s.pool.available == [] { assert s.threads[t := Waiting] == s.threads; }
  }

  // The pool grows exactly when a wait times out under the hard limit and the connection can be
  // opened; the new connection goes straight to the thread that waited.
  lemma GrowsIff(s: Sys, e: Event)
    requires Safe(s) && Enabled(s, e)
    ensures |Next(s, e).pool.storage| > |s.pool.storage| <==>
            e.TimeOut? && e.connects && |s.pool.storage| < s.pool.hardLimit
    ensures |Next(s, e).pool.storage| > |s.pool.storage| ==>
              var c, r := s.pool.nextConn, Next(s, e);
              && r.pool.storage == s.pool.storage + [c] && c !in s.pool.storage && c !in r.pool.available
              && r.pool.available == s.pool.available && r.threads == s.threads[e.thread := Holding(c)]
  {
    if e.Enter? {
      PruneMeaning(s.pool, s.clock);
      FilterShorter(s.pool.storage, Members(Prune(s.pool, s.clock).storage));
    }
  }

  // A timed out wait at the hard limit goes round the loop; one whose connection cannot be opened
  // ends the call and leaves the pool alone.
  lemma TimeOutEffect(s: Sys, t: nat, connects: bool)
    requires Safe(s) && Enabled(s, TimeOut(t, connects))
    ensures |s.pool.storage| >= s.pool.hardLimit ==> Next(s, TimeOut(t, connects)) == Next(s, Wake(t))
    ensures |s.pool.storage| < s.pool.hardLimit && !connects ==>
              Next(s, TimeOut(t, connects)) == s.(threads := s.threads - {t})
  {}

  // A release stamps the connection with the time and queues it last.
  lemma ReleaseEffect(s: Sys, t: nat)
    requires Safe(s) && Enabled(s, Release(t))
    ensures var r, c := Next(s, Release(t)), s.threads[t].conn;
            && r.pool.storage == s.pool.storage && r.pool.available == s.pool.available + [c]
            && r.pool.released == s.pool.released[c := s.clock] && r.threads == s.threads - {t} && r.clock == s.clock
  {}

  // Whatever acquire takes from the queue has been idle longest among the free connections.
  lemma TakesLongestIdle(s: Sys, t: nat)
    requires Safe(s) && s.pool.available != []
    ensures var c := TakeOrWait(s, t).threads[t].conn;
            c in s.pool.available && forall d | d in s.pool.available :: s.pool.released[c] <= s.pool.released[d]
  {
    forall d | d in s.pool.available ensures s.pool.released[s.pool.available[0]] <= s.pool.released[d] {
      var j :| 0 <= j < |s.pool.available| && s.pool.available[j] == d;
      if j > 0 { assert InOrder(s.pool, 0, j); }
    }
  }

  // acquire returns without waiting exactly when some free connection is not expired, or nothing at
  // all is held. A free but expired connection does not help while another one is held: pruning
  // closes it first.
  lemma EnterTakesIff(s: Sys, t: nat)
    requires Safe(s) && Enabled(s, Enter(t))
    ensures Next(s, Enter(t)).threads[t].Holding? <==>
            || (exists j: nat | j < |s.pool.storage| :: FreeAndFresh(s.pool, j, s.clock))
            || (forall c | c in s.pool.storage :: c in s.pool.available)
  {
    var p, r := s.pool, Prune(s.pool, s.clock);
    PruneMeaning(p, s.clock);
    if j: nat :| j < |p.storage| && FreeAndFresh(p, j, s.clock) {
      assert p.available != [];
      FreshShieldsOlder(p, |p.storage| - 1, s.clock, j, j);
      assert p.storage[j] in r.available;
    } else if forall c | c in p.storage :: c in p.available {
      assert r.storage[0] in r.available by { assert r.storage[0] in p.storage; }
    } else {
      var c :| c in p.storage && c !in p.available;
      StoppedWithNoneFree(p, r, s.clock, c);
    }
  }

  // With a connection held, pruning ends with nothing free unless something free is not expired.
  lemma StoppedWithNoneFree(p: Pool, r: Pool, now: int, c: Conn)
    requires PoolOk(p) && PoolOk(r) && OnlyExpiredRemoved(p, r, now) && Stopped(r, now)
    requires c in p.storage && c !in p.available
    ensures r.available == [] || exists j: nat | j < |p.storage| :: FreeAndFresh(p, j, now)
  {
    assert c in r.storage && c !in r.available;
    assert r.available != [] ==> r.available[0] in r.available && r.available[0] in r.storage;
    if k: nat :| NewestFree(r, k) && FreeAndFresh(r, k, now) {
      var f := r.storage[k];
      assert f in p.storage;
      var j :| 0 <= j < |p.storage| && p.storage[j] == f;
      assert FreeAndFresh(p, j, now);
    }
  }
}
