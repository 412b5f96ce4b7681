// Orders used by the ordered containers of the original program: std::map keyed by strings and
// std::set of (count, key) pairs iterate from their least element.
module Ordering {

  datatype Option<+T> = None | Some(value: T)

  function Max(a: int, b: int): int { if a < b then b else a }

  function Min(a: int, b: int): int { if a < b then a else b }

  // std::string's operator<: lexicographic, a proper prefix comes first.
  predicate StrLess(a: string, b: string)
    decreases |a|
  {
    && b != []
    && (a == [] || a[0] < b[0] || (a[0] == b[0] && StrLess(a[1..], b[1..])))
  }

  // std::pair's operator<.
  predicate PairLess(a: (nat, string), b: (nat, string)) {
    a.0 < b.0 || (a.0 == b.0 && StrLess(a.1, b.1))
  }

  lemma {:induction false} StrLessTransitive(a: string, b: string, c: string)
    requires StrLess(a, b) && StrLess(b, c)
    ensures StrLess(a, c)
    decreases |a|
  {
    if a != [] && a[0] == b[0] && b[0] == c[0] {
      StrLessTransitive(a[1..], b[1..], c[1..]);
    }
  }

  lemma {:induction false} StrLessTrichotomy(a: string, b: string)
    ensures StrLess(a, b) || a == b || StrLess(b, a)
    ensures !(StrLess(a, b) && (a == b || StrLess(b, a)))
    decreases |a|
  {
    if a != [] && b != [] && a[0] == b[0] {
      StrLessTrichotomy(a[1..], b[1..]);
      assert a == [a[0]] + a[1..] && b == [b[0]] + b[1..];
    }
  }

  // At position k, the first where the texts differ, a has ended or holds the smaller character.
  ghost predicate LessAt(a: string, b: string, k: nat) {
    && k <= |a| && k <= |b| && a[..k] == b[..k]
    && ((k == |a| && k < |b|) || (k < |a| && k < |b| && a[k] < b[k]))
  }

  lemma SameStart(a: string, b: string, k: nat)
    requires LessAt(a, b, k)
    ensures k > 0 ==> a != [] && b != [] && a[0] == b[0]
  {
    if k > 0 { assert a[..k][0] == b[..k][0]; }
  }

  // The dictionary order: the first difference decides, and a proper prefix comes first.
  lemma {:induction false} StrLessMeans(a: string, b: string)
    ensures StrLess(a, b) <==> exists k: nat :: LessAt(a, b, k)
    decreases |a|
  {
    if a == [] || b == [] || a[0] != b[0] {
      if StrLess(a, b) { assert LessAt(a, b, 0); }
      forall k: nat | LessAt(a, b, k) ensures k == 0 { SameStart(a, b, k); }
    } else {
      StrLessMeans(a[1..], b[1..]);
      if k: nat :| LessAt(a[1..], b[1..], k) {
        assert a[..k + 1] == [a[0]] + a[1..][..k] && b[..k + 1] == [b[0]] + b[1..][..k];
        assert LessAt(a, b, k + 1);
      }
      if k: nat :| LessAt(a, b, k) {
        assert k > 0 && a[1..][..k - 1] == a[..k][1..] && b[1..][..k - 1] == b[..k][1..];
        assert LessAt(a[1..], b[1..], k - 1);
      }
    }
  }

  ghost predicate IsLeast(s: set<(nat, string)>, m: (nat, string)) {
    m in s && forall p | p in s && p != m :: PairLess(m, p)
  }

  // Every non-empty ordered set has exactly one first element.
  lemma {:induction false} LeastIsUnique(s: set<(nat, string)>)
    requires s != {}
    ensures exists m :: IsLeast(s, m)
    ensures forall p, q | IsLeast(s, p) && IsLeast(s, q) :: p == q
  {
    var x :| x in s;
    var m := x;
    if s != {x} {
      LeastIsUnique(s - {x});
      var rest :| IsLeast(s - {x}, rest);
      StrLessTrichotomy(x.1, rest.1);
      m := if PairLess(x, rest) then x else rest;
      forall p | p in s && p != m ensures PairLess(m, p) {
        if p != x && p != rest {
          assert p in s - {x} && PairLess(rest, p);
          if m == x && x.0 == rest.0 == p.0 {
            StrLessTransitive(x.1, rest.1, p.1);
          }
        }
      }
    }
    assert IsLeast(s, m);
    forall p, q | IsLeast(s, p) && IsLeast(s, q) ensures p == q {
      StrLessTrichotomy(p.1, q.1);
    }
  }

  ghost function Least(s: set<(nat, string)>): (m: (nat, string))
    requires s != {}
    ensures IsLeast(s, m)
  {
    LeastIsUnique(s);
    var m :| IsLeast(s, m);
    m
  }
}
