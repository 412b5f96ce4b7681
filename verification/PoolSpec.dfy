// The connection pool as a state machine. Between two releases of the mutex the code runs without
// interference, so a step is: enter acquire (prune, then take or start waiting), wake up, time out,
// or release.
module PoolSpec {
  import opened Lists
  import opened Connection

  datatype Pool = Pool(
    hardLimit: nat,
    idleTimeout: nat,
    storage: seq<Conn>,            // oldest first
    available: seq<Conn>,          // next to be handed out first
    released: map<Conn, int>,      // last_released_time
    nextConn: Conn
  )

  const MIN_LIMIT: nat := 1

  // ---- what remains of a list ------------------------------------------------------------------

  // The elements of s that are in keep, in order.
  ghost function Filter(s: seq<Conn>, keep: set<Conn>): seq<Conn> {
    if s == [] then [] else (if s[0] in keep then [s[0]] else []) + Filter(s[1..], keep)
  }

  lemma {:induction false} FilterAll(s: seq<Conn>, keep: set<Conn>)
    requires forall c | c in s :: c in keep
    ensures Filter(s, keep) == s
  {
    if s != [] { FilterAll(s[1..], keep); }
  }

  lemma {:induction false} FilterRemoved(s: seq<Conn>, i: nat, keep: set<Conn>)
    requires i < |s| && s[i] !in keep
    ensures Filter(RemoveAt(s, i), keep) == Filter(s, keep)
  {
    if i == 0 {
      assert RemoveAt(s, 0) == s[1..];
    } else {
      FilterRemoved(s[1..], i - 1, keep);
      assert RemoveAt(s, i)[1..] == RemoveAt(s[1..], i - 1);
    }
  }

  // ---- the invariant of the pool itself ----------------------------------------------------------

  ghost predicate InOrder(p: Pool, i: nat, j: nat)
    requires i < |p.available| && j < |p.available|
    requires p.available[i] in p.released && p.available[j] in p.released
  {
    p.released[p.available[i]] <= p.released[p.available[j]]
  }

  // The queue is sorted by release time, so its front has been idle the longest.
  ghost predicate Sorted(p: Pool)
    requires forall c | c in p.available :: c in p.released
  {
    forall i: nat, j: nat {:trigger InOrder(p, i, j)} | i < j < |p.available| :: InOrder(p, i, j)
  }

  ghost predicate PoolOk(p: Pool) {
    && NoDup(p.storage) && NoDup(p.available)
    && (forall c | c in p.available :: c in p.storage)
    && (forall c | c in p.storage :: c in p.released && c < p.nextConn)
    && Sorted(p)
  }

  predicate Expired(p: Pool, c: Conn, now: int)
    requires c in p.released
  {
    now - p.released[c] > p.idleTimeout
  }

  // ---- pruning -----------------------------------------------------------------------------------

  function Discard(p: Pool, i: nat): Pool
    requires i < |p.storage| && p.storage[i] in p.available
  {
    p.(storage := RemoveAt(p.storage, i), available := RemoveAt(p.available, IndexOf(p.available, p.storage[i])))
  }

  lemma DiscardKeepsOk(p: Pool, i: nat)
    requires PoolOk(p) && i < |p.storage| && p.storage[i] in p.available
    ensures PoolOk(Discard(p, i))
    ensures forall c :: c in Discard(p, i).storage <==> c in p.storage && c != p.storage[i]
    ensures forall c :: c in Discard(p, i).available <==> c in p.available && c != p.storage[i]
  {
    var k, r := IndexOf(p.available, p.storage[i]), Discard(p, i);
    RemovedMembers(p.storage, i);
    RemovedMembers(p.available, k);
    forall a: nat, b: nat | a < b < |r.available| ensures InOrder(r, a, b) {
      assert InOrder(p, if a < k then a else a + 1, if b < k then b else b + 1);
    }
  }

  // From index i of storage downwards.
  function PruneFrom(p: Pool, i: int, now: int): (r: Pool)
    requires i < |p.storage|
    requires forall c | c in p.storage :: c in p.released
    decreases i
  {
    if i < 0 || |p.storage| <= MIN_LIMIT then p
    else if p.storage[i] !in p.available then PruneFrom(p, i - 1, now)
    else if Expired(p, p.storage[i], now) then
      var p1 := Discard(p, i);
      assert forall c | c in p1.storage :: c in p.storage;
      PruneFrom(p1, i - 1, now)
    else p
  }

  function Prune(p: Pool, now: int): Pool
    requires forall c | c in p.storage :: c in p.released
  {
    if p.available == [] then p else PruneFrom(p, |p.storage| - 1, now)
  }

  // The newest free connection is the one with the largest index in storage.
  ghost predicate NewestFree(p: Pool, i: nat) {
    && i < |p.storage| && p.storage[i] in p.available
    && forall j | i < j < |p.storage| :: p.storage[j] !in p.available
  }

  // ---- taking, adding and giving back ------------------------------------------------------------

  lemma TakeOk(p: Pool)
    requires PoolOk(p) && p.available != []
    ensures PoolOk(p.(available := p.available[1..]))
    ensures forall c :: c in p.available[1..] <==> c in p.available && c != p.available[0]
  {
    var r := p.(available := p.available[1..]);
    assert r.available == RemoveAt(p.available, 0);
    RemovedMembers(p.available, 0);
    forall a: nat, b: nat | a < b < |r.available| ensures InOrder(r, a, b) {
      assert InOrder(p, a + 1, b + 1);
    }
  }

  function Added(p: Pool): Pool {
    p.(storage := p.storage + [p.nextConn], released := p.released[p.nextConn := 0], nextConn := p.nextConn + 1)
  }

  lemma GrowOk(p: Pool)
    requires PoolOk(p)
    ensures PoolOk(Added(p))
  {
    AppendNoDup(p.storage, p.nextConn);
    forall a: nat, b: nat | a < b < |p.available| ensures InOrder(Added(p), a, b) {
      assert InOrder(p, a, b);
    }
  }

  function GiveBack(p: Pool, c: Conn, now: int): Pool {
    p.(released := p.released[c := now], available := p.available + [c])
  }

  lemma GiveBackOk(p: Pool, c: Conn, now: int)
    requires PoolOk(p) && c in p.storage && c !in p.available
    requires forall d | d in p.storage :: p.released[d] <= now
    ensures PoolOk(GiveBack(p, c, now))
  {
    var r := GiveBack(p, c, now);
    AppendNoDup(p.available, c);
    forall a: nat, b: nat | a < b < |r.available| ensures InOrder(r, a, b) {
      if b < |p.available| { assert InOrder(p, a, b); }
    }
  }
}
