// Character-level helpers: decimal numerals as printed by std::to_string, and the characters the
// parameter scanner accepts in a name.
module Text {
  import opened Lists

  function Digit(d: nat): (c: char)
    requires d < 10
    ensures '0' <= c <= '9' && c as int == '0' as int + d
  {
    '0' + d as char
  }

  // std::to_string of a non-negative number.
  function Dec(n: nat): (s: string)
    ensures s != [] && forall i | 0 <= i < |s| :: '0' <= s[i] <= '9'
    ensures n >= 10 ==> |s| >= 2
  {
    if n < 10 then [Digit(n)] else Dec(n / 10) + [Digit(n % 10)]
  }

  // The number a numeral stands for in base ten.
  function Value(s: string): int {
    if s == "" then 0 else 10 * Value(s[..|s| - 1]) + (s[|s| - 1] as int - '0' as int)
  }

  // Reading the digits back gives the number, and there is no leading zero but in "0" itself.
  lemma {:induction false} DecReadsBack(n: nat)
    ensures Value(Dec(n)) == n
    ensures Dec(n)[0] == '0' <==> n == 0
    ensures n == 0 ==> Dec(n) == "0"
  {
    if n < 10 {
      assert Dec(n)[..0] == "" && Value("") == 0;
      assert Value(Dec(n)) == 10 * Value(Dec(n)[..0]) + (Dec(n)[0] as int - '0' as int);
    } else {
      DecReadsBack(n / 10);
      var d := Dec(n);
      assert d[..|d| - 1] == Dec(n / 10);
    }
  }

  // Two numbers never print alike.
  lemma {:induction false} DecInjective(m: nat, n: nat)
    requires Dec(m) == Dec(n)
    ensures m == n
  {
    if m >= 10 && n >= 10 {
      LastApart(Dec(m / 10), Digit(m % 10), Dec(n / 10), Digit(n % 10));
      DecInjective(m / 10, n / 10);
    }
  }

  lemma PrefixInjective(p: string, a: string, b: string)
    requires p + a == p + b
    ensures a == b
  {
    assert a == (p + a)[|p|..] && b == (p + b)[|p|..];
  }

  // std::isalnum in the "C" locale, or an underscore.
  predicate IsNameChar(c: char) {
    'a' <= c <= 'z' || 'A' <= c <= 'Z' || '0' <= c <= '9' || c == '_'
  }

  predicate IsName(s: string) {
    forall i | 0 <= i < |s| :: IsNameChar(s[i])
  }

  lemma DecIsName(n: nat)
    ensures IsName(Dec(n))
  {}

  // ---- splitting at a character --------------------------------------------------------------------

  function Join(parts: seq<string>, c: char): string
    requires parts != []
  {
    if |parts| == 1 then parts[0] else parts[0] + [c] + Join(parts[1..], c)
  }

  // The position of the first c, or the length.
  function First(s: string, c: char): (i: nat)
    ensures i <= |s| && (forall j | 0 <= j < i :: s[j] != c) && (i < |s| ==> s[i] == c)
  {
    if s == [] || s[0] == c then 0 else 1 + First(s[1..], c)
  }

  function Split(s: string, c: char): (parts: seq<string>)
    ensures parts != []
    decreases |s|
  {
    var i := First(s, c);
    if i == |s| then [s] else [s[..i]] + Split(s[i + 1..], c)
  }

  lemma {:induction false} JoinSplit(s: string, c: char)
    ensures Join(Split(s, c), c) == s
    ensures forall p | p in Split(s, c) :: c !in p
    decreases |s|
  {
    var i := First(s, c);
    if i < |s| {
      JoinSplit(s[i + 1..], c);
      assert Split(s, c)[1..] == Split(s[i + 1..], c);
      assert s == s[..i] + [c] + s[i + 1..];
    }
  }

  lemma {:induction false} SplitJoin(parts: seq<string>, c: char)
    requires parts != [] && forall p | p in parts :: c !in p
    ensures Split(Join(parts, c), c) == parts
  {
    var head := parts[0];
    assert head in parts;
    if |parts| > 1 {
      var rest := Join(parts[1..], c);
      var s := head + [c] + rest;
      FirstAfter(head, rest, c);
      assert s[..|head|] == head && s[|head| + 1..] == rest;
      SplitJoin(parts[1..], c);
    } else {
      NoneFound(head, c);
    }
  }

  lemma {:induction false} NoneFound(s: string, c: char)
    requires c !in s
    ensures First(s, c) == |s|
  {
    if s != [] { NoneFound(s[1..], c); }
  }

  lemma FirstAfter(head: string, rest: string, c: char)
    requires c !in head
    ensures First(head + [c] + rest, c) == |head|
  {
    var s := head + [c] + rest;
    assert s[|head|] == c;
    forall j | 0 <= j < |head| ensures s[j] != c { assert s[j] == head[j]; }
  }
}
