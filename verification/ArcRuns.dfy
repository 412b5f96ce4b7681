// Properties of the cache over every run of put and get, starting from the constructor.
module ArcRuns {
  import opened Ordering
  import opened Lists
  import opened ArcSpec

  datatype Op<T> = OpPut(key: string, value: T) | OpGet(key: string)

  // ---- one call --------------------------------------------------------------------------------

  lemma InitHolds<T>(hard: int)
    ensures Inv(Init<T>(hard))
  {}

  lemma InsertKeepsStruct<T>(s: State<T>, k: string, v: T)
    requires Struct(s) && k !in s.vals
    ensures Struct(Insert(s, k, v))
    ensures |Insert(s, k, v).vals| == |s.vals| + 1
  {
    var r := Insert(s, k, v);
    PrependNoDup(k, s.lru);
    assert r.vals.Keys == s.vals.Keys + {k};
    forall x | x in r.vals && r.uses[x] <= Threshold(r.hard) ensures x in r.lru {
      assert r.lru[0] == k;
      if x != k { assert x in s.lru; }
    }
  }

  lemma PutKeepsInv<T>(s: State<T>, k: string, v: T)
    requires Inv(s)
    ensures Inv(Put(s, k, v))
  {
    var s1 := Forget(s, k);
    if k in s.vals { DropKeepsStruct(s, k); }
    EvictRemovesOne(s1);
    InsertKeepsStruct(MakeRoom(s1), k, v);
  }

  // A put always leaves its key resident with its value; with an old entry under the key no other
  // entry goes, otherwise at most the victim does, and only from a full cache.
  lemma PutEffect<T>(s: State<T>, k: string, v: T)
    requires Inv(s)
    ensures k in Put(s, k, v).vals && Put(s, k, v).vals[k] == v
    ensures k in s.vals ==> Put(s, k, v).vals == s.vals[k := v]
    ensures k !in s.vals && |s.vals| < s.soft ==> Put(s, k, v).vals == s.vals[k := v]
    ensures k !in s.vals && |s.vals| == s.soft ==> Put(s, k, v).vals == (s.vals - {Victim(s)})[k := v]
    ensures Put(s, k, v).lru != [] && Put(s, k, v).lru[0] == k
  {
    var s1 := Forget(s, k);
    if k in s.vals {
      DropKeepsStruct(s, k);
      assert (s.vals - {k})[k := v] == s.vals[k := v];
    }
  }

  lemma TrimKeepsEntries<T>(s: State<T>)
    requires Struct(s) && s.soft >= 0
    ensures forall k | k in Trim(s).vals :: k in s.vals && Trim(s).vals[k] == s.vals[k]
    decreases |s.vals|
  {
    EvictRemovesOne(s);
    if |s.vals| > s.soft { TrimKeepsEntries(Evict(s)); }
  }

  ghost function Shrunk<T>(s: State<T>): State<T> {
    var s1 := s.(total := s.total + 1);
    s1.(soft := Resized(s1))
  }

  // The counters and the limit play no part in the structure.
  lemma StructOfEntries<T>(s: State<T>, r: State<T>)
    requires Struct(s) && r.vals == s.vals && r.uses == s.uses && r.lru == s.lru && r.hard == s.hard
    ensures Struct(r)
  {}

  lemma ShrunkLimits<T>(s: State<T>)
    requires Inv(s)
    ensures 1 <= MinLimit(s.hard) <= Shrunk(s).soft <= Max(MinLimit(s.hard), s.hard)
  {}

  lemma ClosedWindow<T>(s: State<T>)
    requires Inv(s) && WindowFull(s) && Struct(Shrunk(s)) && Shrunk(s).soft >= 1
    ensures Sampled(s) == (if Shrunk(s).soft < s.soft then Trim(Shrunk(s)) else Shrunk(s)).(hits := 0, total := 0)
  {
    StructOfEntries(s, s.(total := s.total + 1));
  }

  // The entries after the sampling step: trimmed if the window closed and the limit went down.
  lemma SampledShape<T>(s: State<T>)
    requires Inv(s)
    ensures Struct(Shrunk(s)) && 1 <= MinLimit(s.hard) <= Shrunk(s).soft <= Max(MinLimit(s.hard), s.hard)
    ensures Sampled(s) == if !WindowFull(s) then s.(total := s.total + 1)
                          else if Shrunk(s).soft < s.soft then Trim(Shrunk(s)).(hits := 0, total := 0)
                          else Shrunk(s).(hits := 0, total := 0)
  {
    StructOfEntries(s, Shrunk(s));
    ShrunkLimits(s);
    if WindowFull(s) { ClosedWindow(s); }
  }

  lemma SampledKeepsInv<T>(s: State<T>)
    requires Inv(s)
    ensures Struct(Sampled(s)) && Sampled(s).hard == s.hard
    ensures MinLimit(s.hard) <= Sampled(s).soft <= Max(MinLimit(s.hard), s.hard)
    ensures |Sampled(s).vals| <= Sampled(s).soft
    ensures 0 <= Sampled(s).total < 10 * Sampled(s).soft
    ensures 0 <= Sampled(s).hits <= Sampled(s).total
    ensures forall k | k in Sampled(s).vals :: k in s.vals && Sampled(s).vals[k] == s.vals[k]
  {
    SampledShape(s);
    if WindowFull(s) && Shrunk(s).soft < s.soft { TrimKeepsEntries(Shrunk(s)); }
  }

  lemma GetKeepsInv<T>(s: State<T>, k: string)
    requires Inv(s)
    ensures Inv(Get(s, k))
  {
    SampledKeepsInv(s);
    var s1 := Sampled(s);
    if k in s1.vals {
      var r := Touch(s1, k);
      WithoutMembers(s1.lru, k);
      PrependNoDup(k, Without(s1.lru, k));
      assert r.uses.Keys == s1.uses.Keys;
      forall x | x in r.vals && r.uses[x] <= Threshold(r.hard) ensures x in r.lru {
        if x != k { assert x in Without(s1.lru, k); }
        else { assert r.lru[0] == k; }
      }
    }
  }

  // adjust_size runs with exactly 10 * softLimit accesses counted and a rate in [0, 1], although
  // the access that triggers it credits its own hit to the next window.
  lemma AdjustSeesFullWindow<T>(s: State<T>)
    requires Inv(s) && WindowFull(s)
    ensures var s1 := s.(total := s.total + 1); s1.total == 10 * s.soft && 0 <= s1.hits <= s1.total
    ensures Sampled(s).total == 0 && Sampled(s).hits == 0
  {}

  // ---- runs ------------------------------------------------------------------------------------

  ghost function Do<T>(s: State<T>, op: Op<T>): (r: State<T>)
    requires Inv(s)
    ensures Inv(r)
  {
    match op
    case OpPut(k, v) => PutKeepsInv(s, k, v); Put(s, k, v)
    case OpGet(k) => GetKeepsInv(s, k); Get(s, k)
  }

  ghost function Run<T>(hard: int, ops: seq<Op<T>>): (s: State<T>)
    ensures Inv(s)
  {
    if ops == [] then InitHolds<T>(hard); Init(hard) else Do(Run(hard, ops[..|ops| - 1]), ops[|ops| - 1])
  }

  // The unbounded map the cache is compared with.
  function Written<T>(ops: seq<Op<T>>): map<string, T> {
    if ops == [] then map[]
    else
      var m := Written(ops[..|ops| - 1]);
      match ops[|ops| - 1] case OpPut(k, v) => m[k := v] case OpGet(_) => m
  }

  // When a key was last named by a call; 0 for never.
  function LastAccess<T>(ops: seq<Op<T>>, k: string): (n: nat)
    ensures n <= |ops|
  {
    if ops == [] then 0
    else if ops[|ops| - 1].key == k then |ops|
    else LastAccess(ops[..|ops| - 1], k)
  }

  lemma DoKeepsEntries<T>(s: State<T>, op: Op<T>)
    requires Inv(s)
    ensures forall k | k in Do(s, op).vals && !(op.OpPut? && k == op.key) ::
              k in s.vals && Do(s, op).vals[k] == s.vals[k]
    ensures op.OpPut? ==> op.key in Do(s, op).vals && Do(s, op).vals[op.key] == op.value
  {
    match op
    case OpPut(k, v) => PutEffect(s, k, v);
    case OpGet(k) => SampledKeepsInv(s);
  }

  // Refinement of an unbounded map: whatever is resident is what was written last.
  lemma {:induction false} ResidentIsLastWritten<T>(hard: int, ops: seq<Op<T>>)
    ensures forall k | k in Run(hard, ops).vals :: k in Written(ops) && Run(hard, ops).vals[k] == Written(ops)[k]
  {
    if ops != [] {
      var before := ops[..|ops| - 1];
      ResidentIsLastWritten(hard, before);
      DoKeepsEntries(Run(hard, before), ops[|ops| - 1]);
    }
  }

  // get returns nothing or the latest value put under the key.
  lemma GetRefinesMap<T>(hard: int, ops: seq<Op<T>>, k: string)
    ensures var r := Found(Run(hard, ops), k);
            r.None? || (k in Written(ops) && r.value == Written(ops)[k])
  {
    ResidentIsLastWritten(hard, ops);
    SampledKeepsInv(Run(hard, ops));
  }

  // ---- recency ---------------------------------------------------------------------------------

  // Strictly ordered by last access, the latest first.
  ghost predicate OrderedBy<T>(lru: seq<string>, ops: seq<Op<T>>) {
    forall i, j | 0 <= i < j < |lru| :: LastAccess(ops, lru[i]) > LastAccess(ops, lru[j])
  }

  lemma WithoutKeepsOrder<T>(lru: seq<string>, k: string, ops: seq<Op<T>>)
    requires OrderedBy(lru, ops)
    ensures OrderedBy(Without(lru, k), ops)
  {}

  lemma {:induction false} TrimKeepsOrder<T>(s: State<T>, ops: seq<Op<T>>)
    requires Struct(s) && s.soft >= 0 && OrderedBy(s.lru, ops)
    ensures OrderedBy(Trim(s).lru, ops)
    decreases |s.vals|
  {
    EvictRemovesOne(s);
    if |s.vals| > s.soft { TrimKeepsOrder(Evict(s), ops); }
  }

  // Naming k as the latest access changes no comparison between other keys.
  lemma OrderAfterAccess<T>(lru: seq<string>, ops: seq<Op<T>>, op: Op<T>)
    requires OrderedBy(lru, ops) && op.key !in lru
    ensures OrderedBy(lru, ops + [op]) && OrderedBy([op.key] + lru, ops + [op])
  {
    assert (ops + [op])[..|ops|] == ops;
    forall i | 0 <= i < |lru| ensures LastAccess(ops + [op], lru[i]) == LastAccess(ops, lru[i]) <= |ops| {}
    assert LastAccess(ops + [op], op.key) == |ops| + 1;
  }

  lemma MakeRoomKeepsOrder<T>(s: State<T>, before: seq<Op<T>>, k: string)
    requires Struct(s) && OrderedBy(s.lru, before) && k !in s.lru
    ensures OrderedBy(MakeRoom(s).lru, before) && k !in MakeRoom(s).lru
  {
    if s.vals != map[] {
      WithoutMembers(s.lru, Victim(s));
      WithoutKeepsOrder(s.lru, Victim(s), before);
    }
  }

  lemma PutKeepsOrder<T>(s: State<T>, before: seq<Op<T>>, k: string, v: T)
    requires Inv(s) && OrderedBy(s.lru, before)
    ensures OrderedBy(Put(s, k, v).lru, before + [OpPut(k, v)])
  {
    WithoutMembers(s.lru, k);
    WithoutKeepsOrder(s.lru, k, before);
    MakeRoomKeepsOrder(Forget(s, k), before, k);
    OrderAfterAccess(MakeRoom(Forget(s, k)).lru, before, OpPut(k, v));
  }

  lemma SampledKeepsOrder<T>(s: State<T>, before: seq<Op<T>>)
    requires Inv(s) && OrderedBy(s.lru, before)
    ensures OrderedBy(Sampled(s).lru, before)
  {
    SampledShape(s);
    if WindowFull(s) && Shrunk(s).soft < s.soft { TrimKeepsOrder(Shrunk(s), before); }
  }

  lemma GetKeepsOrder<T>(s: State<T>, before: seq<Op<T>>, k: string)
    requires Inv(s) && OrderedBy(s.lru, before)
    ensures OrderedBy(Get(s, k).lru, before + [OpGet(k)])
  {
    SampledKeepsInv(s);
    SampledKeepsOrder(s, before);
    var lru := Sampled(s).lru;
    WithoutMembers(lru, k);
    WithoutKeepsOrder(lru, k, before);
    OrderAfterAccess(Without(lru, k), before, OpGet(k));
  }

  // lru_keys is strictly ordered by last access in every reachable state, so the LRU victim is the
  // least recently used key of that side.
  lemma {:induction false} LruIsOrderedByLastAccess<T>(hard: int, ops: seq<Op<T>>)
    ensures OrderedBy(Run(hard, ops).lru, ops)
  {
    if ops != [] {
      var before, op := ops[..|ops| - 1], ops[|ops| - 1];
      LruIsOrderedByLastAccess(hard, before);
      assert before + [op] == ops;
      match op
      case OpPut(k, v) => PutKeepsOrder(Run(hard, before), before, k, v);
      case OpGet(k) => GetKeepsOrder(Run(hard, before), before, k);
    }
  }

  lemma LfuVictim<T>(s: State<T>)
    requires Struct(s) && s.vals != map[] && |Lfu(s)| > |s.lru|
    ensures Victim(s) in Lfu(s)
    ensures forall k | k in Lfu(s) && k != Victim(s) :: PairLess((s.uses[Victim(s)], Victim(s)), (s.uses[k], k))
  {
    SidesPartition(s);
    var pairs := LfuPairs(s);
    forall k | k in Lfu(s) ensures (s.uses[k], k) in pairs {}
    var some :| some in Lfu(s);
    assert (s.uses[some], some) in pairs;
    assert IsLeast(pairs, Least(pairs));
  }

  // Both rules for the victim, in terms of what the callers did.
  lemma VictimIsColdest<T>(hard: int, ops: seq<Op<T>>)
    requires Run(hard, ops).vals != map[]
    ensures var s := Run(hard, ops);
            if |Lfu(s)| > |s.lru| then
              Victim(s) in Lfu(s)
              && forall k | k in Lfu(s) && k != Victim(s) ::
                   s.uses[Victim(s)] < s.uses[k] || (s.uses[Victim(s)] == s.uses[k] && StrLess(Victim(s), k))
            else
              Victim(s) in s.lru
              && forall k | k in s.lru && k != Victim(s) :: LastAccess(ops, Victim(s)) < LastAccess(ops, k)
  {
    var s := Run(hard, ops);
    LruIsOrderedByLastAccess(hard, ops);
    SidesPartition(s);
    if |Lfu(s)| > |s.lru| { LfuVictim(s); }
  }
}
