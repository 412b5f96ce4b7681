// Theorems about the cache that need several calls: put followed by get, and where every stored
// value ends up.
module ArcTheorems {
  import opened Ordering
  import opened ArcSpec
  import opened ArcRuns

  // ---- put then get ----------------------------------------------------------------------------

  lemma EvictFront<T>(s: State<T>)
    requires Struct(s) && s.lru != [] && |s.vals| >= 2
    ensures Victim(s) == s.lru[0] <==> |s.lru| == 1 && |Lfu(s)| == 1
    ensures Victim(s) != s.lru[0] ==>
              var r := Evict(s); r.lru != [] && r.lru[0] == s.lru[0] && (Lfu(r) == {} <==> Lfu(s) == {})
  {
    SidesPartition(s);
    EvictRemovesOne(s);
    WithoutMembers(s.lru, Victim(s));
    if |Lfu(s)| > |s.lru| {
      LfuVictim(s);
      assert Lfu(Evict(s)) == Lfu(s) - {Victim(s)};
    } else {
      assert Lfu(Evict(s)) == Lfu(s);
    }
  }

  // trim spares the front of the LRU list exactly when it is not cutting down to a single entry
  // with something on the LFU side.
  lemma {:induction false} TrimFront<T>(s: State<T>)
    requires Struct(s) && s.lru != [] && s.soft >= 1
    ensures s.lru[0] in Trim(s).vals <==> |s.vals| <= s.soft || s.soft >= 2 || Lfu(s) == {}
    decreases |s.vals|
  {
    if |s.vals| > s.soft {
      SidesPartition(s);
      EvictRemovesOne(s);
      EvictFront(s);
      if Victim(s) != s.lru[0] {
        TrimFront(Evict(s));
      } else {
        TrimKeepsEntries(Evict(s));
      }
    }
  }

  // The access about to be counted closes a window that shrinks the cache to one entry.
  ghost predicate ShrinksToOne<T>(s: State<T>) {
    WindowFull(s) && s.soft > 1 && Resized(s.(total := s.total + 1)) == 1
  }

  lemma ShrunkFront<T>(s: State<T>)
    requires Inv(s) && s.lru != [] && Struct(Shrunk(s)) && 1 <= Shrunk(s).soft < s.soft
    ensures s.lru[0] in Trim(Shrunk(s)).vals <==> Shrunk(s).soft >= 2 || Lfu(s) == {}
  {
    SidesPartition(s);
    assert Lfu(Shrunk(s)) == Lfu(s);
    TrimFront(Shrunk(s));
  }

  // What is at the LRU front is found by get unless the get itself shrinks the cache to one entry
  // while the LFU side is occupied.
  lemma FrontIsFoundIff<T>(s: State<T>)
    requires Inv(s) && s.lru != []
    ensures Found(s, s.lru[0]) ==
            if ShrinksToOne(s) && Lfu(s) != {} then None else Some(s.vals[s.lru[0]])
  {
    SampledKeepsInv(s);
    SampledShape(s);
    if WindowFull(s) && Shrunk(s).soft < s.soft { ShrunkFront(s); }
  }

  // put(k) then get(k): the hit or miss is decided by a test on the state between the two calls.
  lemma PutThenGet<T>(s: State<T>, k: string, v: T)
    requires Inv(s)
    ensures Inv(Put(s, k, v))
    ensures var s1 := Put(s, k, v);
            Found(s1, k) == if ShrinksToOne(s1) && Lfu(s1) != {} then None else Some(v)
  {
    PutKeepsInv(s, k, v);
    PutEffect(s, k, v);
    FrontIsFoundIff(Put(s, k, v));
  }

  // With minLimit >= 2 (hard limits from 20 up) the key is always found.
  lemma PutThenGetHitsFromTwenty<T>(s: State<T>, k: string, v: T)
    requires Inv(s) && s.hard >= 20
    ensures Inv(Put(s, k, v)) && Found(Put(s, k, v), k) == Some(v)
  {
    PutThenGet(s, k, v);
  }

  // ---- the miss is reachable -------------------------------------------------------------------

  function Misses(k: string, n: nat): seq<Op<nat>> { seq(n, i => OpGet(k)) }

  lemma {:induction false} RunAppend<T>(hard: int, ops: seq<Op<T>>, op: Op<T>)
    ensures Run(hard, ops + [op]) == Do(Run(hard, ops), op)
  {
    assert (ops + [op])[..|ops|] == ops;
  }

  // n misses on an empty cache inside one window.
  lemma {:induction false} MissesOnEmpty(n: nat)
    requires n < 10
    ensures Run(15, Misses("b", n)) == Init<nat>(15).(total := n)
  {
    if n > 0 {
      MissesOnEmpty(n - 1);
      assert Misses("b", n) == Misses("b", n - 1) + [OpGet("b")];
      RunAppend(15, Misses("b", n - 1), OpGet("b"));
    }
  }

  ghost function Warm(n: nat): seq<Op<nat>> {
    Misses("b", 10) + [OpPut("a", 7)] + seq(n, i => OpGet("a"))
  }

  lemma WarmNext(n: nat)
    ensures Warm(n + 1) == Warm(n) + [OpGet("a")]
  {}

  // "a" stored once and read n times under a limit of 2.
  ghost function Reading(n: nat): State<nat> {
    State(15, map["a" := 7], map["a" := n + 1], if n < 2 then ["a"] else [], 2, n, n, [])
  }

  lemma ReadingHolds(n: nat)
    requires n < 20
    ensures Inv(Reading(n))
  {
    var s := Reading(n);
    assert s.vals.Keys == {"a"} && |s.vals| == |s.vals.Keys| == 1;
  }

  lemma ReadOnce(n: nat)
    requires n < 19
    ensures Inv(Reading(n)) && Get(Reading(n), "a") == Reading(n + 1)
  {
    var s := Reading(n);
    ReadingHolds(n);
    assert Sampled(s) == s.(total := n + 1);
    assert Without(["a"], "a") == [];
  }

  lemma ColdStart()
    ensures Run(15, Misses("b", 10) + [OpPut("a", 7)]) == Reading(0)
  {
    MissesOnEmpty(9);
    assert Misses("b", 10) == Misses("b", 9) + [OpGet("b")];
    RunAppend(15, Misses("b", 9), OpGet("b"));
    assert Run(15, Misses("b", 10)) == Init<nat>(15).(soft := 2);
    RunAppend(15, Misses("b", 10), OpPut("a", 7));
  }

  // After one cold window the limit is 2; then "a" is stored and read n times.
  lemma {:induction false} WarmState(n: nat)
    requires n < 20
    ensures Run(15, Warm(n)) == Reading(n)
  {
    if n == 0 {
      ColdStart();
      assert Warm(0) == Misses("b", 10) + [OpPut("a", 7)];
    } else {
      WarmState(n - 1);
      WarmNext(n - 1);
      RunAppend(15, Warm(n - 1), OpGet("a"));
      ReadOnce(n - 1);
    }
  }

  // With the pool's own limit of 15 a value can be put and be gone at the very next get.
  lemma FreshKeyCanBeLost()
    ensures var s := Run(15, Warm(19) + [OpPut("b", 8)]);
            s.vals == map["a" := 7, "b" := 8] && Found(s, "b") == None
  {
    WarmState(19);
    RunAppend(15, Warm(19), OpPut("b", 8));
    LostAfterPut();
  }

  lemma LostAfterPut()
    ensures Inv(Reading(19)) && Inv(Put(Reading(19), "b", 8))
    ensures Put(Reading(19), "b", 8).vals == map["a" := 7, "b" := 8]
    ensures Found(Put(Reading(19), "b", 8), "b") == None
  {
    var s := Reading(19);
    OneEntry(s.vals);
    var s1 := Insert(s, "b", 8);
    assert Put(s, "b", 8) == s1;
    assert s1.uses["a"] == 20 && "a" in s1.vals;
    assert "a" in Lfu(s1);
    assert s1.total == 19 && s1.hits == 19 && s1.soft == 2;
    assert ShrinksToOne(s1);
    PutThenGet(s, "b", 8);
  }

  lemma OneEntry(m: map<string, nat>)
    requires m.Keys == {"a"}
    ensures |m| == 1
  {
    assert |m| == |m.Keys|;
  }

  // ---- every value put is destroyed once or still resident ---------------------------------------

  ghost function Bag<T>(m: map<string, T>): multiset<T> {
    if m == map[] then multiset{}
    else multiset{m[Pick(m)]} + Bag(m - {Pick(m)})
  }

  ghost function Pick<T>(m: map<string, T>): (k: string)
    requires m != map[]
    ensures k in m
  {
    var k :| k in m; k
  }

  function Remove<T>(m: map<string, T>, k: string): (r: map<string, T>)
    requires k in m
    ensures r == m - {k} && r.Keys == m.Keys - {k} && |r| == |m| - 1
    ensures forall x | x in r :: r[x] == m[x]
  {
    assert |m| == |m.Keys|;
    var r := m - {k};
    assert r.Keys == m.Keys - {k};
    assert |r| == |r.Keys|;
    r
  }

  lemma CommuteRemove<T>(m: map<string, T>, c: string, k: string)
    ensures m - {c} - {k} == m - {k} - {c}
  {}

  lemma {:induction false} BagTakesOut<T>(m: map<string, T>, k: string)
    requires k in m
    ensures Bag(m) == multiset{m[k]} + Bag(m - {k})
    decreases |m|
  {
    var c := Pick(m);
    if c != k {
      var withoutC, withoutK := Remove(m, c), Remove(m, k);
      CommuteRemove(m, c, k);
      BagTakesOut(withoutC, k);
      BagTakesOut(withoutK, c);
      assert Bag(m) == multiset{m[c]} + Bag(withoutC);
    }
  }

  ghost function Stored<T>(s: State<T>): multiset<T> {
    multiset(s.destroyed) + Bag(s.vals)
  }

  lemma DropConserves<T>(s: State<T>, k: string)
    requires k in s.vals
    ensures Stored(Drop(s, k)) == Stored(s)
  {
    BagTakesOut(s.vals, k);
  }

  lemma {:induction false} TrimConserves<T>(s: State<T>)
    requires Struct(s) && s.soft >= 0
    ensures Stored(Trim(s)) == Stored(s)
    decreases |s.vals|
  {
    EvictRemovesOne(s);
    if |s.vals| > s.soft {
      DropConserves(s, Victim(s));
      TrimConserves(Evict(s));
    }
  }

  lemma InsertConserves<T>(s: State<T>, k: string, v: T)
    requires k !in s.vals
    ensures Stored(Insert(s, k, v)) == Stored(s) + multiset{v}
  {
    BagTakesOut(s.vals[k := v], k);
    assert s.vals[k := v] - {k} == s.vals;
  }

  lemma PutConserves<T>(s: State<T>, k: string, v: T)
    requires Inv(s)
    ensures Stored(Put(s, k, v)) == Stored(s) + multiset{v}
  {
    var s1 := Forget(s, k);
    if k in s.vals { DropConserves(s, k); }
    if s1.vals != map[] { DropConserves(s1, Victim(s1)); }
    assert k !in MakeRoom(s1).vals;
    InsertConserves(MakeRoom(s1), k, v);
  }

  lemma GetConserves<T>(s: State<T>, k: string)
    requires Inv(s)
    ensures Stored(Get(s, k)) == Stored(s)
  {
    SampledKeepsInv(s);
    SampledShape(s);
    if WindowFull(s) && Shrunk(s).soft < s.soft { TrimConserves(Shrunk(s)); }
    assert Get(s, k).vals == Sampled(s).vals && Get(s, k).destroyed == Sampled(s).destroyed;
  }

  ghost function PutValues<T>(ops: seq<Op<T>>): multiset<T> {
    if ops == [] then multiset{}
    else PutValues(ops[..|ops| - 1])
         + match ops[|ops| - 1] case OpPut(_, v) => multiset{v} case OpGet(_) => multiset{}
  }

  lemma {:induction false} ValuesAreConserved<T>(hard: int, ops: seq<Op<T>>)
    ensures PutValues(ops) == multiset(Run(hard, ops).destroyed) + Bag(Run(hard, ops).vals)
  {
    if ops != [] {
      var s := Run(hard, ops[..|ops| - 1]);
      ValuesAreConserved(hard, ops[..|ops| - 1]);
      match ops[|ops| - 1]
      case OpPut(k, v) => PutConserves(s, k, v);
      case OpGet(k) => GetConserves(s, k);
    }
  }
}
