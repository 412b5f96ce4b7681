// Sequences: taking them apart, and those in which nothing occurs twice, such as the recency list,
// the pool and its queue.
module Lists {

  ghost function Members<T(!new)>(s: seq<T>): set<T> { set x | x in s }

  lemma LastApart<T>(p: seq<T>, x: T, q: seq<T>, y: T)
    requires p + [x] == q + [y]
    ensures p == q && x == y
  {
    assert |p| == |q|;
    assert p == (p + [x])[..|p|] && q == (q + [y])[..|q|];
    assert (p + [x])[|p|] == (q + [y])[|q|];
  }

  lemma ConcatAssociates<T>(a: seq<T>, b: seq<T>, c: seq<T>)
    ensures a + (b + c) == (a + b) + c
  {}

  // Instantiated by naming Differ, so that proofs choose the pairs of positions they compare.
  ghost predicate Differ<T>(s: seq<T>, i: nat, j: nat)
    requires i < |s| && j < |s|
  {
    s[i] != s[j]
  }

  ghost predicate NoDup<T>(s: seq<T>) {
    forall i: nat, j: nat {:trigger Differ(s, i, j)} | i < j < |s| :: Differ(s, i, j)
  }

  function RemoveAt<T>(s: seq<T>, i: nat): (r: seq<T>)
    requires i < |s|
    ensures |r| == |s| - 1
    ensures forall j {:trigger r[j]} | 0 <= j < |r| :: r[j] == if j < i then s[j] else s[j + 1]
  {
    s[..i] + s[i + 1..]
  }

  function IndexOf<T(==)>(s: seq<T>, x: T): (i: nat)
    requires x in s
    ensures i < |s| && s[i] == x
  {
    if s[0] == x then 0 else 1 + IndexOf(s[1..], x)
  }

  lemma RemovedMembers<T>(s: seq<T>, i: nat)
    requires NoDup(s) && i < |s|
    ensures NoDup(RemoveAt(s, i))
    ensures forall x :: x in RemoveAt(s, i) <==> x in s && x != s[i]
  {
    var r := RemoveAt(s, i);
    forall a: nat, b: nat | a < b < |r| ensures Differ(r, a, b) {
      assert Differ(s, if a < i then a else a + 1, if b < i then b else b + 1);
    }
    forall j | 0 <= j < |r| ensures r[j] != s[i] {
      assert j < i ==> Differ(s, j, i);
      assert j >= i ==> Differ(s, i, j + 1);
    }
    forall x | x in s && x != s[i] ensures x in r {
      var j :| 0 <= j < |s| && s[j] == x;
      assert r[if j < i then j else j - 1] == x;
    }
  }

  lemma PrependNoDup<T>(x: T, s: seq<T>)
    requires NoDup(s) && x !in s
    ensures NoDup([x] + s)
  {
    forall a: nat, b: nat | a < b < |s| + 1 ensures Differ([x] + s, a, b) {
      if a > 0 { assert Differ(s, a - 1, b - 1); }
    }
  }

  lemma AppendNoDup<T>(s: seq<T>, x: T)
    requires NoDup(s) && x !in s
    ensures NoDup(s + [x])
  {
    forall a: nat, b: nat | a < b < |s| + 1 ensures Differ(s + [x], a, b) {
      if b < |s| { assert Differ(s, a, b); }
    }
  }

  lemma {:induction false} NoDupCardinality<T(!new)>(s: seq<T>)
    requires NoDup(s)
    ensures |set x | x in s| == |s|
  {
    if s != [] {
      forall a: nat, b: nat | a < b < |s| - 1 ensures Differ(s[1..], a, b) {
        assert Differ(s, a + 1, b + 1);
      }
      forall j: nat | 0 < j < |s| ensures s[0] != s[j] {
        assert Differ(s, 0, j);
      }
      NoDupCardinality(s[1..]);
      assert (set x | x in s) == {s[0]} + set x | x in s[1..];
    }
  }
}
