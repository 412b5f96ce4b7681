// AdaptiveReplacementCache as written: a hash map of entries holding iterators into a list and
// into an ordered set, all updated in place. Each method is proved to do what ArcSpec says.
module ArcCache {
  import opened Ordering
  import opened Lists
  import opened ArcSpec
  import opened ArcRuns

  // A list iterator is the identity of its node, a set iterator the element it points at.
  datatype LruNode = LruNode(id: nat, key: string)

  datatype CacheEntry<T> = CacheEntry(value: T, useCount: nat, inLfu: bool, lruIt: nat, lfuIt: (nat, string))

  function Keys(nodes: seq<LruNode>): (r: seq<string>)
    ensures |r| == |nodes|
    ensures forall i | 0 <= i < |r| :: r[i] == nodes[i].key
  {
    seq(|nodes|, i requires 0 <= i < |nodes| => nodes[i].key)
  }

  // ---- the representation ----------------------------------------------------------------------

  ghost predicate Apart(nodes: seq<LruNode>, i: nat, j: nat)
    requires i < |nodes| && j < |nodes|
  {
    nodes[i].key != nodes[j].key && nodes[i].id != nodes[j].id
  }

  ghost predicate AllApart(nodes: seq<LruNode>) {
    forall i: nat, j: nat {:trigger Apart(nodes, i, j)} | i < j < |nodes| :: Apart(nodes, i, j)
  }

  ghost predicate LruLinked<T>(cache: map<string, CacheEntry<T>>, lru: seq<LruNode>, nextNode: nat) {
    && AllApart(lru)
    && (forall i | 0 <= i < |lru| :: lru[i].id < nextNode && lru[i].key in cache
          && !cache[lru[i].key].inLfu && cache[lru[i].key].lruIt == lru[i].id)
    && (forall k | k in cache && !cache[k].inLfu :: LruNode(cache[k].lruIt, k) in lru)
  }

  ghost predicate LfuLinked<T>(cache: map<string, CacheEntry<T>>, lfu: set<(nat, string)>) {
    && (forall k | k in cache && cache[k].inLfu :: cache[k].lfuIt == (cache[k].useCount, k) && cache[k].lfuIt in lfu)
    && (forall p | p in lfu :: p.1 in cache && cache[p.1].inLfu && cache[p.1].lfuIt == p)
  }

  ghost predicate FlagsRight<T>(cache: map<string, CacheEntry<T>>, threshold: int) {
    forall k | k in cache :: cache[k].inLfu <==> cache[k].useCount > threshold
  }

  ghost function Values<T>(cache: map<string, CacheEntry<T>>): map<string, T> {
    map k | k in cache :: cache[k].value
  }

  ghost function Counts<T>(cache: map<string, CacheEntry<T>>): map<string, nat> {
    map k | k in cache :: cache[k].useCount
  }

  // Erasing by iterator.
  function NodeAt(nodes: seq<LruNode>, id: nat): (i: nat)
    requires exists j | 0 <= j < |nodes| :: nodes[j].id == id
    ensures i < |nodes| && nodes[i].id == id
  {
    if nodes[0].id == id then 0 else 1 + NodeAt(nodes[1..], id)
  }

  lemma ErasedKeys(nodes: seq<LruNode>, i: nat)
    requires i < |nodes| && AllApart(nodes)
    ensures Keys(RemoveAt(nodes, i)) == Without(Keys(nodes), nodes[i].key)
  {
    assert Keys(nodes)[i] == nodes[i].key;
    var j := IndexOf(Keys(nodes), nodes[i].key);
    assert i < j ==> Apart(nodes, i, j);
    assert j < i ==> Apart(nodes, j, i);
  }

  // The four updates of the linked structures; every method is a composition of them.
  ghost predicate Linked<T>(cache: map<string, CacheEntry<T>>, lru: seq<LruNode>, lfu: set<(nat, string)>,
                            nextNode: nat) {
    LruLinked(cache, lru, nextNode) && LfuLinked(cache, lfu)
  }

  lemma FindNode<T>(cache: map<string, CacheEntry<T>>, lru: seq<LruNode>, nextNode: nat, key: string)
    requires LruLinked(cache, lru, nextNode) && key in cache && !cache[key].inLfu
    ensures exists j | 0 <= j < |lru| :: lru[j].id == cache[key].lruIt
    ensures lru[NodeAt(lru, cache[key].lruIt)] == LruNode(cache[key].lruIt, key)
  {
    var j :| 0 <= j < |lru| && lru[j] == LruNode(cache[key].lruIt, key);
    assert lru[j].id == cache[key].lruIt;
    var i := NodeAt(lru, cache[key].lruIt);
    assert i < j ==> Apart(lru, i, j);
    assert j < i ==> Apart(lru, j, i);
  }

  lemma EraseNode<T>(cache: map<string, CacheEntry<T>>, lru: seq<LruNode>, nextNode: nat, i: nat)
    requires LruLinked(cache, lru, nextNode) && i < |lru|
    ensures LruLinked(cache - {lru[i].key}, RemoveAt(lru, i), nextNode)
  {
    var key, rest := lru[i].key, RemoveAt(lru, i);
    forall a: nat, b: nat | a < b < |rest| ensures Apart(rest, a, b) {
      assert Apart(lru, if a < i then a else a + 1, if b < i then b else b + 1);
    }
    forall j | 0 <= j < |rest| ensures rest[j].key != key {
      assert j < i ==> Apart(lru, j, i);
      assert j >= i ==> Apart(lru, i, j + 1);
    }
    forall k | k in cache - {key} && !cache[k].inLfu ensures LruNode(cache[k].lruIt, k) in rest {
      var m :| 0 <= m < |lru| && lru[m] == LruNode(cache[k].lruIt, k);
      assert rest[if m < i then m else m - 1] == lru[m];
    }
  }

  lemma UnlinkLru<T>(cache: map<string, CacheEntry<T>>, lru: seq<LruNode>, lfu: set<(nat, string)>, nextNode: nat,
                     key: string)
    requires Linked(cache, lru, lfu, nextNode) && key in cache && !cache[key].inLfu
    ensures exists j | 0 <= j < |lru| :: lru[j].id == cache[key].lruIt
    ensures var rest := RemoveAt(lru, NodeAt(lru, cache[key].lruIt));
            && Linked(cache - {key}, rest, lfu, nextNode)
            && Keys(rest) == Without(Keys(lru), key)
            && key in Keys(lru)
  {
    FindNode(cache, lru, nextNode, key);
    var i := NodeAt(lru, cache[key].lruIt);
    EraseNode(cache, lru, nextNode, i);
    ErasedKeys(lru, i);
    assert Keys(lru)[i] == key;
  }

  lemma UnlinkLfu<T>(cache: map<string, CacheEntry<T>>, lru: seq<LruNode>, lfu: set<(nat, string)>, nextNode: nat,
                     key: string)
    requires Linked(cache, lru, lfu, nextNode) && key in cache && cache[key].inLfu
    ensures Linked(cache - {key}, lru, lfu - {cache[key].lfuIt}, nextNode)
    ensures key !in Keys(lru)
  {}

  lemma LinkLru<T>(cache: map<string, CacheEntry<T>>, lru: seq<LruNode>, lfu: set<(nat, string)>, nextNode: nat,
                   key: string, e: CacheEntry<T>)
    requires Linked(cache, lru, lfu, nextNode) && key !in cache && !e.inLfu && e.lruIt == nextNode
    ensures Linked(cache[key := e], [LruNode(nextNode, key)] + lru, lfu, nextNode + 1)
    ensures Keys([LruNode(nextNode, key)] + lru) == [key] + Keys(lru)
  {
    var r := [LruNode(nextNode, key)] + lru;
    assert r[0] == LruNode(nextNode, key);
    forall a: nat, b: nat | a < b < |r| ensures Apart(r, a, b) {
      assert a > 0 ==> Apart(lru, a - 1, b - 1);
    }
    forall k | k in cache && !cache[k].inLfu ensures LruNode(cache[k].lruIt, k) in r {
      assert LruNode(cache[k].lruIt, k) in lru;
    }
  }

  lemma LinkLfu<T>(cache: map<string, CacheEntry<T>>, lru: seq<LruNode>, lfu: set<(nat, string)>, nextNode: nat,
                   key: string, e: CacheEntry<T>)
    requires Linked(cache, lru, lfu, nextNode) && key !in cache && e.inLfu && e.lfuIt == (e.useCount, key)
    ensures Linked(cache[key := e], lru, lfu + {e.lfuIt}, nextNode)
  {}

  lemma RemovedIsDrop<T>(hard: int, cache: map<string, CacheEntry<T>>, keys: seq<string>, soft: int,
                         total: int, hits: int, destroyed: seq<T>, key: string)
    requires key in cache
    ensures AbsOf(hard, cache - {key}, Without(keys, key), soft, total, hits, destroyed + [cache[key].value])
            == Drop(AbsOf(hard, cache, keys, soft, total, hits, destroyed), key)
  {
    AbsUpdates(cache, key, cache[key]);
  }

  lemma AddedIsInsert<T>(s: State<T>, cache: map<string, CacheEntry<T>>, key: string, e: CacheEntry<T>)
    requires s.vals == Values(cache) && s.uses == Counts(cache) && e.useCount == 1
    ensures Insert(s, key, e.value) ==
            s.(vals := Values(cache[key := e]), uses := Counts(cache[key := e]), lru := [key] + s.lru)
  {
    AbsUpdates(cache, key, e);
  }

  lemma CountedIsTouch<T>(s: State<T>, cache: map<string, CacheEntry<T>>, key: string, e: CacheEntry<T>)
    requires s.vals == Values(cache) && s.uses == Counts(cache) && key in cache
    requires e.useCount == cache[key].useCount + 1 && e.value == cache[key].value
    ensures Values(cache[key := e]) == s.vals
    ensures Touch(s, key).uses == Counts(cache[key := e])
  {
    AbsUpdates(cache, key, e);
  }

  lemma AbsUpdates<T>(cache: map<string, CacheEntry<T>>, key: string, e: CacheEntry<T>)
    ensures Values(cache - {key}) == Values(cache) - {key} && Counts(cache - {key}) == Counts(cache) - {key}
    ensures Values(cache[key := e]) == Values(cache)[key := e.value]
    ensures Counts(cache[key := e]) == Counts(cache)[key := e.useCount]
    ensures (cache - {key})[key := e] == cache[key := e]
  {}

  // get on the LRU side: the node is replaced by a new one at the front.
  lemma MoveFront<T>(cache: map<string, CacheEntry<T>>, lru: seq<LruNode>, lfu: set<(nat, string)>, nextNode: nat,
                     key: string, e: CacheEntry<T>, i: nat)
    requires Linked(cache, lru, lfu, nextNode) && key in cache && !cache[key].inLfu
    requires i < |lru| && lru[i] == LruNode(cache[key].lruIt, key)
    requires !e.inLfu && e.lruIt == nextNode
    ensures Linked(cache[key := e], [LruNode(nextNode, key)] + RemoveAt(lru, i), lfu, nextNode + 1)
    ensures Keys([LruNode(nextNode, key)] + RemoveAt(lru, i)) == [key] + Without(Keys(lru), key)
  {
    EraseNode(cache, lru, nextNode, i);
    ErasedKeys(lru, i);
    LinkLru(cache - {key}, RemoveAt(lru, i), lfu, nextNode, key, e);
    assert (cache - {key})[key := e] == cache[key := e];
  }

  lemma WithoutFirst(key: string, keys: seq<string>)
    ensures Without([key] + keys, key) == keys
  {
    var r := [key] + keys;
    assert r[0] == key && IndexOf(r, key) == 0;
    assert RemoveAt(r, 0) == keys;
  }

  // get on the LFU side: the element is erased and inserted again with its new count.
  lemma Recount<T>(cache: map<string, CacheEntry<T>>, lru: seq<LruNode>, lfu: set<(nat, string)>, nextNode: nat,
                   key: string, e: CacheEntry<T>)
    requires Linked(cache, lru, lfu, nextNode) && key in cache && cache[key].inLfu
    requires e.inLfu && e.lfuIt == (e.useCount, key)
    ensures key !in Keys(lru)
    ensures Linked(cache[key := e], lru, lfu - {cache[key].lfuIt} + {e.lfuIt}, nextNode)
  {
    UnlinkLfu(cache, lru, lfu, nextNode, key);
    LinkLfu(cache - {key}, lru, lfu - {cache[key].lfuIt}, nextNode, key, e);
    assert (cache - {key})[key := e] == cache[key := e];
  }

  lemma UpdateTwice<T>(cache: map<string, CacheEntry<T>>, key: string, e: CacheEntry<T>, f: CacheEntry<T>)
    ensures cache[key := e][key := f] == cache[key := f]
  {}

  lemma FlagsAfter<T>(cache: map<string, CacheEntry<T>>, key: string, e: CacheEntry<T>, threshold: int)
    requires FlagsRight(cache, threshold) && (e.inLfu <==> e.useCount > threshold)
    ensures FlagsRight(cache[key := e], threshold)
  {}

  ghost function AbsOf<T>(hard: int, cache: map<string, CacheEntry<T>>, keys: seq<string>, soft: int,
                          total: int, hits: int, destroyed: seq<T>): State<T> {
    State(hard, Values(cache), Counts(cache), keys, soft, total, hits, destroyed)
  }

  ghost predicate Shows<T>(s: State<T>, cache: map<string, CacheEntry<T>>, lru: seq<LruNode>) {
    s.vals == Values(cache) && s.uses == Counts(cache) && s.lru == Keys(lru)
  }

  lemma LinkedIsStruct<T>(s: State<T>, cache: map<string, CacheEntry<T>>, lru: seq<LruNode>, lfu: set<(nat, string)>,
                          nextNode: nat)
    requires Linked(cache, lru, lfu, nextNode) && FlagsRight(cache, Threshold(s.hard)) && Shows(s, cache, lru)
    ensures Struct(s) && |cache| == |s.vals|
  {
    forall i: nat, j: nat | i < j < |s.lru| ensures Differ(s.lru, i, j) {
      assert Apart(lru, i, j);
    }
    forall k | k in cache && cache[k].useCount <= Threshold(s.hard) ensures k in s.lru {
      var i :| 0 <= i < |lru| && lru[i] == LruNode(cache[k].lruIt, k);
      assert s.lru[i] == k;
    }
    assert s.vals.Keys == cache.Keys && |s.vals| == |s.vals.Keys| && |cache| == |cache.Keys|;
  }

  lemma LinkedPairs<T>(s: State<T>, cache: map<string, CacheEntry<T>>, lru: seq<LruNode>, lfu: set<(nat, string)>,
                       nextNode: nat)
    requires Linked(cache, lru, lfu, nextNode) && FlagsRight(cache, Threshold(s.hard)) && Shows(s, cache, lru)
    requires s.uses.Keys == s.vals.Keys
    ensures LfuPairs(s) == lfu && |lfu| == |Lfu(s)|
  {
    forall p | p in lfu ensures p in LfuPairs(s) {
      assert p.1 in Lfu(s) && p == (s.uses[p.1], p.1);
    }
    PairsCount(Lfu(s), lfu);
  }

  lemma PairsCount(keys: set<string>, pairs: set<(nat, string)>)
    requires forall p | p in pairs :: p.1 in keys
    requires forall k | k in keys :: exists p | p in pairs :: p.1 == k
    requires forall p, q | p in pairs && q in pairs && p.1 == q.1 :: p == q
    ensures |pairs| == |keys|
  {
    if keys == {} {
      assert pairs == {};
    } else {
      var k :| k in keys;
      var p :| p in pairs && p.1 == k;
      PairsCount(keys - {k}, pairs - {p});
    }
  }

  lemma SampledCases<T>(s: State<T>)
    requires Struct(s) && s.soft >= 1
    ensures Struct(s.(total := s.total + 1))
    ensures Sampled(s) == if WindowFull(s) then Adjust(s.(total := s.total + 1)) else s.(total := s.total + 1)
  {
    StructOfEntries(s, s.(total := s.total + 1));
  }

  class AdaptiveReplacementCache<T> {
    var cache: map<string, CacheEntry<T>>
    var lruKeys: seq<LruNode>
    var lfuKeys: set<(nat, string)>
    var softLimit: int
    const hardLimit: int
    const lfuThreshold: int
    const minLimit: int
    var totalAccesses: int
    var hits: int
    var nextNode: nat            // identity of the next list node
    var destroyed: seq<T>        // destructors that have run

    // The state the specification talks about.
    ghost function Abs(): State<T>
      reads this
    {
      AbsOf(hardLimit, cache, Keys(lruKeys), softLimit, totalAccesses, hits, destroyed)
    }

    // Map, list and set agree, and every stored iterator denotes its own key.
    ghost predicate Rep()
      reads this
    {
      && Linked(cache, lruKeys, lfuKeys, nextNode)
      && FlagsRight(cache, lfuThreshold)
      && minLimit == MinLimit(hardLimit) && lfuThreshold == Threshold(hardLimit)
      && softLimit >= 1
    }

    ghost predicate Valid()
      reads this
    {
      Rep() && Inv(Abs())
    }

    lemma RepIsStruct()
      requires Rep()
      ensures Struct(Abs()) && LfuPairs(Abs()) == lfuKeys
      ensures |lfuKeys| == |Lfu(Abs())| && |cache| == |Abs().vals|
    {
      LinkedIsStruct(Abs(), cache, lruKeys, lfuKeys, nextNode);
      LinkedPairs(Abs(), cache, lruKeys, lfuKeys, nextNode);
    }

    constructor (hard: int)
      ensures Valid() && Abs() == Init<T>(hard)
      ensures cache == map[] && softLimit == Max(1, hard / 10) && totalAccesses == 0 && hits == 0 && destroyed == []
    {
      hardLimit := hard;
      minLimit := Max(1, hard / 10);
      softLimit := Max(1, hard / 10);
      lfuThreshold := Max(2, hard / 20);
      cache, lruKeys, lfuKeys, destroyed := map[], [], {}, [];
      totalAccesses, hits, nextNode := 0, 0, 0;
      new;
      assert Abs().vals == map[];
    }

    method RemoveEntry(key: string)
      requires Linked(cache, lruKeys, lfuKeys, nextNode) && key in cache
      modifies this`cache, this`lruKeys, this`lfuKeys, this`destroyed
      ensures Linked(cache, lruKeys, lfuKeys, nextNode)
      ensures cache == old(cache) - {key} && Keys(lruKeys) == Without(old(Keys(lruKeys)), key)
      ensures destroyed == old(destroyed) + [old(cache)[key].value]
    {
      var entry := cache[key];
      destroyed := destroyed + [entry.value];
      if entry.inLfu {
        UnlinkLfu(cache, lruKeys, lfuKeys, nextNode, key);
        lfuKeys := lfuKeys - {entry.lfuIt};
        cache := cache - {key};
      } else {
        UnlinkLru(cache, lruKeys, lfuKeys, nextNode, key);
        lruKeys := RemoveAt(lruKeys, NodeAt(lruKeys, entry.lruIt));
        cache := cache - {key};
      }
    }

    method EvictFromLru()
      requires Rep()
      modifies this
      ensures Rep()
      ensures Abs() == if old(lruKeys) == [] then old(Abs())
                       else Drop(old(Abs()), old(Abs()).lru[|old(lruKeys)| - 1])
    {
      if |lruKeys| == 0 { return; }
      var keyToEvict := lruKeys[|lruKeys| - 1].key;
      assert Keys(lruKeys)[|lruKeys| - 1] == keyToEvict;
      if keyToEvict in cache {
        RemovedIsDrop(hardLimit, cache, Keys(lruKeys), softLimit, totalAccesses, hits, destroyed, keyToEvict);
        RemoveEntry(keyToEvict);
      }
    }

    method EvictFromLfu()
      requires Rep()
      modifies this
      ensures Rep()
      ensures Abs() == if old(lfuKeys) == {} then old(Abs()) else Drop(old(Abs()), Least(old(lfuKeys)).1)
    {
      if |lfuKeys| == 0 { return; }
      LeastIsUnique(lfuKeys);
      var first :| first in lfuKeys && forall p | p in lfuKeys && p != first :: PairLess(first, p);
      assert IsLeast(lfuKeys, first);
      if first.1 in cache {
        RemovedIsDrop(hardLimit, cache, Keys(lruKeys), softLimit, totalAccesses, hits, destroyed, first.1);
        RemoveEntry(first.1);
      }
    }

    method Evict()
      requires Rep()
      modifies this
      ensures Rep() && Struct(old(Abs())) && Abs() == ArcSpec.Evict(old(Abs()))
    {
      RepIsStruct();
      SidesPartition(Abs());
      assert lfuKeys == {} && lruKeys == [] ==> Abs().vals == map[];
      if |lfuKeys| > |lruKeys| && |lfuKeys| != 0 {
        EvictFromLfu();
      } else {
        EvictFromLru();
      }
    }

    method Trim()
      requires Rep()
      modifies this
      ensures Rep() && Struct(old(Abs())) && Abs() == ArcSpec.Trim(old(Abs()))
    {
      RepIsStruct();
      while |cache| > softLimit
        invariant Rep() && Struct(Abs())
        invariant |cache| == |Abs().vals|
        invariant Abs().soft == old(Abs()).soft
        invariant ArcSpec.Trim(Abs()) == ArcSpec.Trim(old(Abs()))
        decreases |cache|
      {
        EvictRemovesOne(Abs());
        Evict();
        RepIsStruct();
      }
    }

    method AdjustSize()
      requires Rep()
      modifies this
      ensures Rep() && Struct(old(Abs())) && Abs() == Adjust(old(Abs()))
    {
      ghost var before := Abs();
      RepIsStruct();
      var decreased := MoveLimit();
      RepIsStruct();
      if decreased && |cache| > softLimit {
        Trim();
      }
      assert Abs() == if decreased then ArcSpec.Trim(before.(soft := Resized(before)))
                      else before.(soft := Resized(before));
      hits := 0;
      totalAccesses := 0;
    }

    // The first half of adjust_size.
    method MoveLimit() returns (decreased: bool)
      requires Rep()
      modifies this`softLimit
      ensures Rep() && softLimit == Resized(old(Abs()))
      ensures decreased <==> softLimit < old(softLimit)
    {
      decreased := false;
      if 2 * hits < totalAccesses && softLimit < hardLimit {
        softLimit := softLimit + Max(1, hardLimit / 10);
        softLimit := Min(softLimit, hardLimit);
      } else if 10 * hits > 9 * totalAccesses && softLimit > minLimit {
        var oldLimit := softLimit;
        softLimit := softLimit - Max(1, hardLimit / 10);
        softLimit := Max(softLimit, minLimit);
        if softLimit < oldLimit {
          decreased := true;
        }
      }
    }

    // Called for an entry whose count has just passed the threshold: everything is linked, only
    // this entry's flag is behind.
    method MoveToLfu(key: string)
      requires Linked(cache, lruKeys, lfuKeys, nextNode) && key in cache && !cache[key].inLfu
      modifies this`cache, this`lruKeys, this`lfuKeys
      ensures Linked(cache, lruKeys, lfuKeys, nextNode)
      ensures cache == old(cache)[key := old(cache)[key].(inLfu := true, lfuIt := (old(cache)[key].useCount, key))]
      ensures Keys(lruKeys) == Without(old(Keys(lruKeys)), key)
    {
      var entry := cache[key];
      UnlinkLru(cache, lruKeys, lfuKeys, nextNode, key);
      lruKeys := RemoveAt(lruKeys, NodeAt(lruKeys, entry.lruIt));
      entry := entry.(lfuIt := (entry.useCount, key), inLfu := true);
      LinkLfu(cache - {key}, lruKeys, lfuKeys, nextNode, key, entry);
      AbsUpdates(cache, key, entry);
      lfuKeys := lfuKeys + {entry.lfuIt};
      cache := cache[key := entry];
    }

    method Put(key: string, value: T) returns (stored: T)
      requires Valid()
      modifies this
      ensures Valid() && Inv(old(Abs())) && Abs() == ArcSpec.Put(old(Abs()), key, value)
      ensures key in cache && stored == cache[key].value == value
    {
      PutKeepsInv(Abs(), key, value);
      if key in cache {
        RemovedIsDrop(hardLimit, cache, Keys(lruKeys), softLimit, totalAccesses, hits, destroyed, key);
        RemoveEntry(key);
      }
      assert Abs() == Forget(old(Abs()), key);
      RepIsStruct();
      if |cache| >= softLimit {
        Evict();
      }
      assert Abs() == MakeRoom(Forget(old(Abs()), key));
      stored := AddEntry(key, value);
    }

    // The second half of put: the key is absent and there is room.
    method AddEntry(key: string, value: T) returns (stored: T)
      requires Rep() && key !in cache
      modifies this`cache, this`lruKeys, this`nextNode
      ensures Rep() && Abs() == Insert(old(Abs()), key, value)
      ensures key in cache && stored == cache[key].value == value
    {
      var newEntry := CacheEntry(value, 1, false, nextNode, (0, ""));
      LinkLru(cache, lruKeys, lfuKeys, nextNode, key, newEntry);
      AddedIsInsert(Abs(), cache, key, newEntry);
      lruKeys := [LruNode(nextNode, key)] + lruKeys;
      nextNode := nextNode + 1;
      cache := cache[key := newEntry];
      stored := cache[key].value;
    }

    method Get(key: string) returns (found: Option<T>)
      requires Valid()
      modifies this
      ensures Valid() && Inv(old(Abs())) && Abs() == ArcSpec.Get(old(Abs()), key)
      ensures found == Found(old(Abs()), key)
    {
      ghost var before := Abs();
      CountAccess();
      RepIsStruct();
      found := Lookup(key);
      assert Abs() == ArcSpec.Get(before, key);
      GetKeepsInv(before, key);
    }

    // What get does once the access is counted.
    method Lookup(key: string) returns (found: Option<T>)
      requires Rep() && Struct(Abs())
      modifies this`cache, this`lruKeys, this`lfuKeys, this`nextNode, this`hits
      ensures Rep() && Struct(old(Abs()))
      ensures found == if key in old(cache) then Some(old(cache)[key].value) else None
      ensures Abs() == if key in old(cache) then Touch(old(Abs()), key) else old(Abs())
    {
      if key !in cache {
        return None;
      }
      found := Some(cache[key].value);
      TouchEntry(key);
    }

    // The first half of get: count the access and resize at the end of a window.
    method CountAccess()
      requires Valid()
      modifies this
      ensures Rep() && Struct(old(Abs())) && Abs() == Sampled(old(Abs()))
    {
      ghost var before := Abs();
      SampledCases(before);
      totalAccesses := totalAccesses + 1;
      assert Abs() == before.(total := before.total + 1);
      var adjustmentInterval := softLimit * 10;
      if totalAccesses >= adjustmentInterval && adjustmentInterval > 0 {
        AdjustSize();
      }
    }

    // The second half of get, for a key that is there.
    method TouchEntry(key: string)
      requires Rep() && key in cache
      modifies this`cache, this`lruKeys, this`lfuKeys, this`nextNode, this`hits
      ensures Rep() && Counts(old(cache)).Keys == Values(old(cache)).Keys
      ensures Abs() == Touch(old(Abs()), key)
    {
      ghost var before, oldCache := Abs(), cache;
      assert Counts(cache).Keys == cache.Keys == Values(cache).Keys;
      hits := hits + 1;
      CountUse(key);
      CountedIsTouch(before, oldCache, key, cache[key]);
      assert Abs().lru == Touch(before, key).lru;
    }

    method CountUse(key: string)
      requires Rep() && key in cache
      modifies this`cache, this`lruKeys, this`lfuKeys, this`nextNode
      ensures Rep() && key in cache && cache == old(cache)[key := cache[key]]
      ensures cache[key].value == old(cache)[key].value && cache[key].useCount == old(cache)[key].useCount + 1
      ensures Keys(lruKeys) == if key !in old(Keys(lruKeys)) then old(Keys(lruKeys))
                               else if cache[key].useCount > lfuThreshold then Without(old(Keys(lruKeys)), key)
                               else [key] + Without(old(Keys(lruKeys)), key)
    {
      if cache[key].inLfu {
        TouchCounted(key);
      } else {
        TouchRecent(key);
      }
      FlagsAfter(old(cache), key, cache[key], lfuThreshold);
    }

    method TouchCounted(key: string)
      requires Linked(cache, lruKeys, lfuKeys, nextNode) && key in cache && cache[key].inLfu
      modifies this`cache, this`lfuKeys
      ensures Linked(cache, lruKeys, lfuKeys, nextNode) && key !in Keys(lruKeys)
      ensures key in cache && cache == old(cache)[key := cache[key]]
      ensures cache[key].value == old(cache)[key].value && cache[key].useCount == old(cache)[key].useCount + 1
      ensures cache[key].inLfu
    {
      var entry := cache[key].(useCount := cache[key].useCount + 1);
      entry := entry.(lfuIt := (entry.useCount, key));
      Recount(cache, lruKeys, lfuKeys, nextNode, key, entry);
      lfuKeys := lfuKeys - {cache[key].lfuIt};
      lfuKeys := lfuKeys + {entry.lfuIt};
      cache := cache[key := entry];
    }

    method TouchRecent(key: string)
      requires Linked(cache, lruKeys, lfuKeys, nextNode) && key in cache && !cache[key].inLfu
      modifies this`cache, this`lruKeys, this`lfuKeys, this`nextNode
      ensures Linked(cache, lruKeys, lfuKeys, nextNode) && key in old(Keys(lruKeys))
      ensures key in cache && cache == old(cache)[key := cache[key]]
      ensures cache[key].value == old(cache)[key].value && cache[key].useCount == old(cache)[key].useCount + 1
      ensures cache[key].inLfu <==> cache[key].useCount > lfuThreshold
      ensures Keys(lruKeys) == if cache[key].inLfu then Without(old(Keys(lruKeys)), key)
                               else [key] + Without(old(Keys(lruKeys)), key)
    {
      var useCount := PushFront(key);
      if useCount > lfuThreshold {
        ghost var pushed := cache[key];
        MoveToLfu(key);
        UpdateTwice(old(cache), key, pushed, cache[key]);
      }
    }

    method PushFront(key: string) returns (useCount: nat)
      requires Linked(cache, lruKeys, lfuKeys, nextNode) && key in cache && !cache[key].inLfu
      modifies this`cache, this`lruKeys, this`nextNode
      ensures Linked(cache, lruKeys, lfuKeys, nextNode) && key in old(Keys(lruKeys))
      ensures cache == old(cache)[key := old(cache)[key].(useCount := useCount, lruIt := old(nextNode))]
      ensures useCount == old(cache)[key].useCount + 1
      ensures Keys(lruKeys) == [key] + Without(old(Keys(lruKeys)), key)
      ensures Without(Keys(lruKeys), key) == Without(old(Keys(lruKeys)), key)
    {
      useCount := cache[key].useCount + 1;
      var entry := cache[key].(useCount := useCount, lruIt := nextNode);
      FindNode(cache, lruKeys, nextNode, key);
      var i := NodeAt(lruKeys, cache[key].lruIt);
      MoveFront(cache, lruKeys, lfuKeys, nextNode, key, entry, i);
      assert Keys(lruKeys)[i] == key;
      WithoutFirst(key, Without(Keys(lruKeys), key));
      lruKeys := RemoveAt(lruKeys, i);
      lruKeys := [LruNode(nextNode, key)] + lruKeys;
      nextNode := nextNode + 1;
      cache := cache[key := entry];
    }
  }
}
