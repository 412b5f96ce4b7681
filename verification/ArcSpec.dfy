// What AdaptiveReplacementCache computes, without iterators, flags or the ordered set: a map of
// values, a use count per key, and the recency list. The LFU side is not stored: it is the set of
// keys whose use count has passed the threshold.
module ArcSpec {
  import opened Ordering
  import opened Lists

  datatype State<T> = State(
    hard: int,
    vals: map<string, T>,
    uses: map<string, nat>,
    lru: seq<string>,       // most recently used first
    soft: int,
    total: int,
    hits: int,
    destroyed: seq<T>       // values whose destructor has run, oldest first
  )

  function MinLimit(hard: int): int { Max(1, hard / 10) }

  function StepOf(hard: int): int { Max(1, hard / 10) }

  function Threshold(hard: int): int { Max(2, hard / 20) }

  function Init<T>(hard: int): State<T> {
    State(hard, map[], map[], [], MinLimit(hard), 0, 0, [])
  }

  // ---- structure -------------------------------------------------------------------------------

  function Lfu<T>(s: State<T>): set<string>
    requires s.uses.Keys == s.vals.Keys
  {
    set k | k in s.vals && s.uses[k] > Threshold(s.hard)
  }

  function LfuPairs<T>(s: State<T>): set<(nat, string)>
    requires s.uses.Keys == s.vals.Keys
  {
    set k | k in Lfu(s) :: (s.uses[k], k)
  }

  // The two sides partition the keys.
  ghost predicate Struct<T>(s: State<T>) {
    && s.uses.Keys == s.vals.Keys
    && NoDup(s.lru)
    && (forall k | k in s.vals && s.uses[k] <= Threshold(s.hard) :: k in s.lru)
    && (forall k | k in s.lru :: k in s.vals && s.uses[k] <= Threshold(s.hard))
  }

  // What holds between any two calls.
  ghost predicate Inv<T>(s: State<T>) {
    && Struct(s)
    && MinLimit(s.hard) <= s.soft <= Max(MinLimit(s.hard), s.hard)
    && |s.vals| <= s.soft
    && 0 <= s.total < 10 * s.soft
    && 0 <= s.hits <= s.total + 1
  }

  // ---- the recency list ------------------------------------------------------------------------

  function Without(s: seq<string>, k: string): seq<string> {
    if k in s then RemoveAt(s, IndexOf(s, k)) else s
  }

  lemma WithoutMembers(s: seq<string>, k: string)
    requires NoDup(s)
    ensures NoDup(Without(s, k))
    ensures forall x :: x in Without(s, k) <==> x in s && x != k
    ensures |Without(s, k)| == if k in s then |s| - 1 else |s|
  {
    if k in s { RemovedMembers(s, IndexOf(s, k)); }
  }

  // ---- eviction --------------------------------------------------------------------------------

  function Drop<T>(s: State<T>, k: string): State<T>
    requires k in s.vals
  {
    s.(vals := s.vals - {k}, uses := s.uses - {k}, lru := Without(s.lru, k),
       destroyed := s.destroyed + [s.vals[k]])
  }

  // The key that goes next: the least (useCount, key) of the LFU side when that side is strictly
  // larger, the least recently used key of the LRU side otherwise.
  ghost function Victim<T>(s: State<T>): (k: string)
    requires Struct(s) && s.vals != map[]
    ensures k in s.vals
  {
    SidesPartition(s);
    if |Lfu(s)| > |s.lru| then
      assert LfuPairs(s) != {} by { var k :| k in Lfu(s); assert (s.uses[k], k) in LfuPairs(s); }
      Least(LfuPairs(s)).1
    else
      s.lru[|s.lru| - 1]
  }

  ghost function Evict<T>(s: State<T>): (r: State<T>)
    requires Struct(s)
  {
    if s.vals == map[] then s else Drop(s, Victim(s))
  }

  lemma SidesPartition<T>(s: State<T>)
    requires Struct(s)
    ensures |s.vals| == |s.lru| + |Lfu(s)|
    ensures s.vals.Keys == Lfu(s) + set k | k in s.lru
    ensures s.vals != map[] ==> |s.vals| > 0
  {
    NoDupCardinality(s.lru);
    var lruSet := set k | k in s.lru;
    assert s.vals.Keys == Lfu(s) + lruSet && Lfu(s) !! lruSet;
    assert |s.vals| == |s.vals.Keys|;
  }

  lemma DropKeepsStruct<T>(s: State<T>, k: string)
    requires Struct(s) && k in s.vals
    ensures Struct(Drop(s, k))
    ensures |Drop(s, k).vals| == |s.vals| - 1
  {
    WithoutMembers(s.lru, k);
    assert Drop(s, k).vals.Keys == s.vals.Keys - {k};
  }

  // evict on a non-empty cache removes exactly one entry, whichever side it picks.
  lemma EvictRemovesOne<T>(s: State<T>)
    requires Struct(s)
    ensures Struct(Evict(s))
    ensures s.vals != map[] ==> |Evict(s).vals| == |s.vals| - 1
    ensures s.vals != map[] ==> Evict(s).vals.Keys == s.vals.Keys - {Victim(s)}
  {
    if s.vals != map[] { DropKeepsStruct(s, Victim(s)); }
  }

  ghost function Trim<T>(s: State<T>): (r: State<T>)
    requires Struct(s) && s.soft >= 0
    ensures Struct(r) && r.hard == s.hard && r.soft == s.soft && r.total == s.total && r.hits == s.hits
    ensures |r.vals| == if |s.vals| > s.soft then s.soft else |s.vals|
    decreases |s.vals|
  {
    EvictRemovesOne(s);
    if |s.vals| > s.soft then Trim(Evict(s)) else s
  }

  // ---- the public operations -------------------------------------------------------------------

  // The new soft limit after a sampling window, comparing the rate hits/total as integers.
  function Resized<T>(s: State<T>): int {
    if 2 * s.hits < s.total && s.soft < s.hard then Min(s.soft + StepOf(s.hard), s.hard)
    else if 10 * s.hits > 9 * s.total && s.soft > MinLimit(s.hard) then
      Max(s.soft - StepOf(s.hard), MinLimit(s.hard))
    else s.soft
  }

  ghost function Adjust<T>(s: State<T>): State<T>
    requires Struct(s) && s.soft >= 1
  {
    var r := if Resized(s) < s.soft then Trim(s.(soft := Resized(s))) else s.(soft := Resized(s));
    r.(hits := 0, total := 0)
  }

  ghost predicate WindowFull<T>(s: State<T>) {
    s.total + 1 >= 10 * s.soft
  }

  // The state in which `get` looks its key up.
  ghost function Sampled<T>(s: State<T>): State<T>
    requires Struct(s) && s.soft >= 1
  {
    var s1 := s.(total := s.total + 1);
    if WindowFull(s) then Adjust(s1) else s1
  }

  function Touch<T>(s: State<T>, k: string): State<T>
    requires k in s.vals && s.uses.Keys == s.vals.Keys
  {
    var n := s.uses[k] + 1;
    s.(uses := s.uses[k := n], hits := s.hits + 1,
       lru := if k !in s.lru then s.lru
              else if n > Threshold(s.hard) then Without(s.lru, k)
              else [k] + Without(s.lru, k))
  }

  ghost function Get<T>(s: State<T>, k: string): State<T>
    requires Struct(s) && s.soft >= 1
  {
    var s1 := Sampled(s);
    if k in s1.vals && s1.uses.Keys == s1.vals.Keys then Touch(s1, k) else s1
  }

  ghost function Found<T>(s: State<T>, k: string): Option<T>
    requires Struct(s) && s.soft >= 1
  {
    var s1 := Sampled(s);
    if k in s1.vals then Some(s1.vals[k]) else None
  }

  function Insert<T>(s: State<T>, k: string, v: T): State<T> {
    s.(vals := s.vals[k := v], uses := s.uses[k := 1], lru := [k] + s.lru)
  }

  ghost function Put<T>(s: State<T>, k: string, v: T): State<T>
    requires Struct(s)
  {
    Insert(MakeRoom(Forget(s, k)), k, v)
  }

  // An old entry under the same key is removed first.
  ghost function Forget<T>(s: State<T>, k: string): (r: State<T>)
    requires Struct(s)
    ensures Struct(r)
  {
    if k in s.vals then DropKeepsStruct(s, k); Drop(s, k) else s
  }

  ghost function MakeRoom<T>(s: State<T>): State<T>
    requires Struct(s)
  {
    if |s.vals| >= s.soft then Evict(s) else s
  }
}
