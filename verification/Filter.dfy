// FilterParser: one filter string such as ">100|20:30" becomes a parenthesised disjunction and its
// parameters.
module Filter {
  import opened Ordering
  import opened Text
  import opened Sql

  // ---- the filter language ---------------------------------------------------------------------------

  // The alternatives of a filter string: the non-empty pieces between bars.
  function Segments(value: string): seq<string> { NonEmpty(Split(value, '|')) }

  function NonEmpty(parts: seq<string>): seq<string> {
    if parts == [] then [] else (if parts[0] == "" then [] else [parts[0]]) + NonEmpty(parts[1..])
  }

  // What one alternative says about a value: unequal, above, below, in a range, or beginning with.
  predicate SegmentHolds(v: string, seg: string)
    requires seg != ""
  {
    if "!=" <= seg then v != seg[2..]
    else if seg[0] == '>' then StrLess(seg[1..], v)
    else if seg[0] == '<' then StrLess(v, seg[1..])
    else if ':' in seg then
      var pos := First(seg, ':');
      pos < |seg| && !StrLess(v, seg[..pos]) && !StrLess(seg[pos + 1..], v)
    else LikeMatch(v, seg + "%")
  }

  // The four signs, on any operands.
  lemma SegmentSays(v: string, x: string, y: string)
    ensures SegmentHolds(v, "!=" + x) <==> v != x
    ensures SegmentHolds(v, ">" + x) <==> StrLess(x, v)
    ensures SegmentHolds(v, "<" + x) <==> StrLess(v, x)
    ensures ':' !in x && !("!=" <= x) && (x == "" || (x[0] != '>' && x[0] != '<')) ==>
              (SegmentHolds(v, x + ":" + y) <==> !StrLess(v, x) && !StrLess(y, v))
  {
    assert ("!=" + x)[2..] == x && (">" + x)[1..] == x && ("<" + x)[1..] == x;
    if ':' !in x && !("!=" <= x) && (x == "" || (x[0] != '>' && x[0] != '<')) { RangeSays(v, x, y); }
  }

  lemma RangeSays(v: string, x: string, y: string)
    requires ':' !in x && !("!=" <= x) && (x == "" || (x[0] != '>' && x[0] != '<'))
    ensures SegmentHolds(v, x + ":" + y) <==> !StrLess(v, x) && !StrLess(y, v)
  {
    var seg := x + [':'] + y;
    FirstAfter(x, y, ':');
    assert seg[|x|] == ':' && seg[..|x|] == x && seg[|x| + 1..] == y;
    assert x + ":" + y == seg;
    if x != "" { assert seg[0] == x[0]; }
  }

  // Texts without bars, written with bars between them, are the alternatives but for empty ones.
  lemma BarsSeparate(parts: seq<string>)
    requires parts != [] && forall p | p in parts :: '|' !in p
    ensures Segments(Text.Join(parts, '|')) == NonEmpty(parts)
  {
    SplitJoin(parts, '|');
  }

  // Its operands, in the order their placeholders appear.
  function Operands(seg: string): seq<string>
    requires seg != ""
  {
    if "!=" <= seg then [seg[2..]]
    else if seg[0] == '>' || seg[0] == '<' then [seg[1..]]
    else if First(seg, ':') < |seg| then [seg[..First(seg, ':')], seg[First(seg, ':') + 1..]]
    else [seg + "%"]
  }

  ghost predicate AllNonEmpty(segs: seq<string>) {
    forall i | 0 <= i < |segs| :: segs[i] != ""
  }

  function AllOperands(segs: seq<string>): seq<string>
    requires AllNonEmpty(segs)
  {
    if segs == [] then [] else AllOperands(segs[..|segs| - 1]) + Operands(segs[|segs| - 1])
  }

  // A segment that is a range takes two placeholders, any other one.
  predicate IsRange(seg: string) {
    seg != "" && !("!=" <= seg) && seg[0] != '>' && seg[0] != '<' && ':' in seg
  }

  function Ranges(segs: seq<string>): nat {
    if segs == [] then 0 else Ranges(segs[..|segs| - 1]) + if IsRange(segs[|segs| - 1]) then 1 else 0
  }

  lemma ColonFound(seg: string)
    ensures ':' in seg <==> First(seg, ':') < |seg|
  {
    if ':' !in seg { NoneFound(seg, ':'); }
  }

  lemma {:induction false} OperandCount(segs: seq<string>)
    requires AllNonEmpty(segs)
    ensures |AllOperands(segs)| == |segs| + Ranges(segs)
  {
    if segs != [] {
      OperandCount(segs[..|segs| - 1]);
      ColonFound(segs[|segs| - 1]);
    }
  }

  lemma {:induction false} NonEmptyParts(parts: seq<string>)
    ensures AllNonEmpty(NonEmpty(parts))
  {
    if parts != [] { NonEmptyParts(parts[1..]); }
  }

  lemma {:induction false} NonEmptyConcat(a: seq<string>, b: seq<string>)
    ensures NonEmpty(a + b) == NonEmpty(a) + NonEmpty(b)
    decreases |a|
  {
    if a == [] {
      assert a + b == b;
    } else {
      assert (a + b)[1..] == a[1..] + b;
      NonEmptyConcat(a[1..], b);
    }
  }

  // ---- the generated clause ----------------------------------------------------------------------------

  function FName(i: nat): string { "f_" + Dec(i) }

  lemma FNameInjective(i: nat, j: nat)
    requires FName(i) == FName(j)
    ensures i == j
  {
    PrefixInjective("f_", Dec(i), Dec(j));
    DecInjective(i, j);
  }

  function AtomNames(a: Atom): seq<string> {
    match a
    case Ne(p) => [p]
    case Gt(p) => [p]
    case Lt(p) => [p]
    case Between(lo, hi) => [lo, hi]
    case Like(p) => [p]
  }

  function Names(atoms: seq<Atom>): seq<string> {
    if atoms == [] then [] else Names(atoms[..|atoms| - 1]) + AtomNames(atoms[|atoms| - 1])
  }

  function FNames(n: nat): seq<string> { seq(n, i requires 0 <= i => FName(i)) }

  // The operator for a segment whose first placeholder is number k.
  function AtomFor(seg: string, k: nat): Atom
    requires seg != ""
  {
    if "!=" <= seg then Ne(FName(k))
    else if seg[0] == '>' then Gt(FName(k))
    else if seg[0] == '<' then Lt(FName(k))
    else if First(seg, ':') < |seg| then Between(FName(k), FName(k + 1))
    else Like(FName(k))
  }

  function AtomsFor(segs: seq<string>): seq<Atom>
    requires AllNonEmpty(segs)
  {
    if segs == [] then []
    else AtomsFor(segs[..|segs| - 1]) + [AtomFor(segs[|segs| - 1], |AllOperands(segs[..|segs| - 1])|)]
  }

  // f_0 .. f_{n-1} bound to the operands in order, and nothing else.
  function OperandMap(operands: seq<string>): Params {
    if operands == [] then map[]
    else OperandMap(operands[..|operands| - 1])[FName(|operands| - 1) := operands[|operands| - 1]]
  }

  ghost predicate Binds(params: Params, operands: seq<string>) {
    forall i: nat {:trigger BoundAt(params, operands, i)} | i < |operands| :: BoundAt(params, operands, i)
  }

  ghost predicate BoundAt(params: Params, operands: seq<string>, i: nat)
    requires i < |operands|
  {
    Param(params, FName(i)) == Str(operands[i])
  }

  lemma {:induction false} OperandMapBinds(operands: seq<string>, i: nat)
    ensures Param(OperandMap(operands), FName(i)) == if i < |operands| then Str(operands[i]) else Null
  {
    if operands != [] {
      OperandMapBinds(operands[..|operands| - 1], i);
      if FName(i) == FName(|operands| - 1) { FNameInjective(i, |operands| - 1); }
    }
  }

  class FilterParser {
    var atoms: seq<Atom>           // the clause between the parentheses
    var params: Params
    var counter: nat

    ghost predicate Built(segs: seq<string>)
      reads this
    {
      && AllNonEmpty(segs)
      && atoms == AtomsFor(segs)
      && counter == |AllOperands(segs)|
      && params == OperandMap(AllOperands(segs))
    }

    constructor (value: string)
      ensures Built(Segments(value))
    {
      atoms, params, counter := [], map[], 0;
      new;
      Parse(value);
    }

    method Parse(value: string)
      requires Built([])
      modifies this
      ensures Built(Segments(value))
    {
      var rest, more := value, true;
      ghost var done: seq<string> := [];
      while more
        invariant more ==> done + Split(rest, '|') == Split(value, '|')
        invariant !more ==> done == Split(value, '|')
        invariant Built(NonEmpty(done))
        decreases more, |rest|
      {
        var pos := First(rest, '|');
        var segment := rest[..pos];
        SplitStep(done, rest);
        NextSegment(done, segment);
        if segment != "" { AddSegment(segment, NonEmpty(done)); }
        done := done + [segment];
        if pos < |rest| {
          rest := rest[pos + 1..];
        } else {
          more := false;
        }
      }
    }

    // One alternative: choose the operator and bind its operands under the next names.
    method AddSegment(segment: string, ghost segs: seq<string>)
      requires Built(segs) && segment != ""
      modifies this
      ensures Built(segs + [segment])
    {
      ghost var all := segs + [segment];
      assert all[..|segs|] == segs;
      assert AllOperands(all) == AllOperands(segs) + Operands(segment);
      var atom := Operator(segment, AllOperands(segs));
      atoms := atoms + [atom];
      assert AtomsFor(all) == AtomsFor(segs) + [AtomFor(segment, |AllOperands(segs)|)];
    }

    method Operator(segment: string, ghost operands: seq<string>) returns (atom: Atom)
      requires segment != "" && params == OperandMap(operands) && counter == |operands|
      modifies this`params, this`counter
      ensures atom == AtomFor(segment, old(counter))
      ensures params == OperandMap(operands + Operands(segment)) && counter == |operands + Operands(segment)|
    {
      var name := FName(counter);
      if "!=" <= segment {
        atom := Ne(name);
        Bind(segment[2..], operands);
      } else if segment[0] == '>' {
        atom := Gt(name);
        Bind(segment[1..], operands);
      } else if segment[0] == '<' {
        atom := Lt(name);
        Bind(segment[1..], operands);
      } else {
        var pos := First(segment, ':');
        if pos < |segment| {
          atom := Between(name, FName(counter + 1));
          Bind(segment[..pos], operands);
          Bind(segment[pos + 1..], operands + [segment[..pos]]);
          assert operands + [segment[..pos]] + [segment[pos + 1..]] == operands + Operands(segment);
        } else {
          atom := Like(name);
          Bind(segment + "%", operands);
        }
      }
    }

    method Bind(operand: string, ghost operands: seq<string>)
      requires params == OperandMap(operands) && counter == |operands|
      modifies this`params, this`counter
      ensures counter == old(counter) + 1
      ensures params == OperandMap(operands + [operand])
    {
      assert (operands + [operand])[..|operands|] == operands;
      params := params[FName(counter) := operand];
      counter := counter + 1;
    }
  }

  // The parts of a text are the one before the first bar and those behind it.
  lemma SplitStep(done: seq<string>, rest: string)
    ensures var pos := First(rest, '|');
            done + Split(rest, '|') ==
            if pos < |rest| then done + [rest[..pos]] + Split(rest[pos + 1..], '|') else done + [rest[..pos]]
  {
    var pos := First(rest, '|');
    if pos < |rest| {
      assert Split(rest, '|') == [rest[..pos]] + Split(rest[pos + 1..], '|');
    } else {
      assert rest[..pos] == rest;
    }
  }

  lemma NextSegment(done: seq<string>, segment: string)
    ensures NonEmpty(done + [segment]) == if segment == "" then NonEmpty(done) else NonEmpty(done) + [segment]
  {
    NonEmptyConcat(done, [segment]);
  }

  // ---- what the clause means ---------------------------------------------------------------------------

  // What an alternative tests when its placeholders carry the given operands, its own or others.
  predicate OperatorHolds(v: string, seg: string, ops: seq<string>)
    requires seg != "" && |ops| == |Operands(seg)|
  {
    if "!=" <= seg then v != ops[0]
    else if seg[0] == '>' then StrLess(ops[0], v)
    else if seg[0] == '<' then StrLess(v, ops[0])
    else if First(seg, ':') < |seg| then !StrLess(v, ops[0]) && !StrLess(ops[1], v)
    else LikeMatch(v, ops[0])
  }

  lemma OwnOperands(v: string, seg: string)
    requires seg != ""
    ensures OperatorHolds(v, seg, Operands(seg)) <==> SegmentHolds(v, seg)
  {
    ColonFound(seg);
  }

  lemma AtomTestsOperands(v: string, seg: string, k: nat, params: Params, ops: seq<string>)
    requires seg != "" && |ops| == |Operands(seg)|
    requires forall i: nat | i < |ops| :: Param(params, FName(k + i)) == Str(ops[i])
    ensures AtomHolds(Str(v), AtomFor(seg, k), params) <==> OperatorHolds(v, seg, ops)
  {
    assert Param(params, FName(k + 0)) == Str(ops[0]);
    if |ops| == 2 { assert Param(params, FName(k + 1)) == Str(ops[1]); }
  }

  // With its operands bound from number k on, the atom tests exactly what the segment says.
  lemma AtomTestsSegment(v: string, seg: string, k: nat, params: Params)
    requires seg != ""
    requires forall i: nat | i < |Operands(seg)| :: Param(params, FName(k + i)) == Str(Operands(seg)[i])
    ensures AtomHolds(Str(v), AtomFor(seg, k), params) <==> SegmentHolds(v, seg)
  {
    AtomTestsOperands(v, seg, k, params, Operands(seg));
    OwnOperands(v, seg);
  }

  lemma {:induction false} AnyAtomSnoc(v: Value, atoms: seq<Atom>, a: Atom, params: Params)
    ensures AnyAtom(v, atoms + [a], params) <==> AnyAtom(v, atoms, params) || AtomHolds(v, a, params)
    decreases |atoms|
  {
    if atoms == [] {
      assert [a][1..] == [];
    } else {
      assert (atoms + [a])[1..] == atoms[1..] + [a];
      AnyAtomSnoc(v, atoms[1..], a, params);
    }
  }

  ghost predicate AnySegment(v: string, segs: seq<string>)
    requires AllNonEmpty(segs)
  {
    exists i :: 0 <= i < |segs| && SegmentHolds(v, segs[i])
  }

  lemma AnySegmentSnoc(v: string, init: seq<string>, seg: string)
    requires AllNonEmpty(init) && seg != ""
    ensures AllNonEmpty(init + [seg])
    ensures AnySegment(v, init + [seg]) <==> AnySegment(v, init) || SegmentHolds(v, seg)
  {
    var segs := init + [seg];
    assert segs[|init|] == seg;
    if i :| 0 <= i < |init| && SegmentHolds(v, init[i]) {
      assert segs[i] == init[i];
    }
  }

  lemma OperandsBound(params: Params, operands: seq<string>, k: nat)
    requires Binds(params, operands) && k <= |operands|
    ensures forall i: nat {:trigger operands[k..][i]} | i < |operands[k..]| ::
              Param(params, FName(k + i)) == Str(operands[k..][i])
  {
    var own := operands[k..];
    forall i: nat {:trigger own[i]} | i < |own| ensures Param(params, FName(k + i)) == Str(own[i]) {
      assert BoundAt(params, operands, k + i);
    }
  }

  // Some alternative holds when the operands are handed out from left to right.
  ghost predicate AnyOperator(v: string, segs: seq<string>, ops: seq<string>)
    requires AllNonEmpty(segs) && |ops| == |AllOperands(segs)|
    decreases |segs|
  {
    segs != [] && (
      var k := |AllOperands(segs[..|segs| - 1])|;
      AnyOperator(v, segs[..|segs| - 1], ops[..k]) || OperatorHolds(v, segs[|segs| - 1], ops[k..]))
  }

  lemma BindsPrefix(params: Params, ops: seq<string>, k: nat)
    requires Binds(params, ops) && k <= |ops|
    ensures Binds(params, ops[..k])
  {
    forall i: nat | i < k ensures BoundAt(params, ops[..k], i) { assert BoundAt(params, ops, i); }
  }

  // The clause means the disjunction of the alternatives with whatever operands are bound.
  lemma {:induction false} ClauseMeansOperators(v: string, segs: seq<string>, params: Params, ops: seq<string>)
    requires AllNonEmpty(segs) && |ops| == |AllOperands(segs)| && Binds(params, ops)
    ensures AnyAtom(Str(v), AtomsFor(segs), params) <==> AnyOperator(v, segs, ops)
    decreases |segs|
  {
    if segs != [] {
      var init, seg := segs[..|segs| - 1], segs[|segs| - 1];
      var k := |AllOperands(init)|;
      BindsPrefix(params, ops, k);
      ClauseMeansOperators(v, init, params, ops[..k]);
      OperandsBound(params, ops, k);
      AtomTestsOperands(v, seg, k, params, ops[k..]);
      AnyAtomSnoc(Str(v), AtomsFor(init), AtomFor(seg, k), params);
    }
  }

  lemma {:induction false} OwnOperators(v: string, segs: seq<string>)
    requires AllNonEmpty(segs)
    ensures AnyOperator(v, segs, AllOperands(segs)) <==> AnySegment(v, segs)
    decreases |segs|
  {
    if segs != [] {
      var init, seg := segs[..|segs| - 1], segs[|segs| - 1];
      var ops, k := AllOperands(segs), |AllOperands(init)|;
      assert ops[..k] == AllOperands(init) && ops[k..] == Operands(seg);
      OwnOperators(v, init);
      OwnOperands(v, seg);
      AnySegmentSnoc(v, init, seg);
      assert segs == init + [seg];
    }
  }

  // With its own operands bound the clause means the disjunction of the segments.
  lemma ClauseMeansSegments(v: string, segs: seq<string>, params: Params)
    requires AllNonEmpty(segs) && Binds(params, AllOperands(segs))
    ensures AnyAtom(Str(v), AtomsFor(segs), params) <==> AnySegment(v, segs)
  {
    ClauseMeansOperators(v, segs, params, AllOperands(segs));
    OwnOperators(v, segs);
  }

  lemma FNamesGrow(seg: string, k: nat)
    requires seg != ""
    ensures FNames(k) + AtomNames(AtomFor(seg, k)) == FNames(k + |Operands(seg)|)
  {
    ColonFound(seg);
    assert FNames(k + 1) == FNames(k) + [FName(k)];
    assert FNames(k + 2) == FNames(k + 1) + [FName(k + 1)];
  }

  // The placeholders of the clause are f_0, f_1, ... from left to right, one for every operand.
  lemma {:induction false} PlaceholdersInOrder(segs: seq<string>)
    requires AllNonEmpty(segs)
    ensures Names(AtomsFor(segs)) == FNames(|AllOperands(segs)|)
    ensures |AllOperands(segs)| == |segs| + Ranges(segs)
    decreases |segs|
  {
    OperandCount(segs);
    if segs != [] {
      var init, seg := segs[..|segs| - 1], segs[|segs| - 1];
      var k := |AllOperands(init)|;
      PlaceholdersInOrder(init);
      NamesSnoc(AtomsFor(init), AtomFor(seg, k));
      FNamesGrow(seg, k);
    }
  }

  lemma NamesSnoc(atoms: seq<Atom>, a: Atom)
    ensures Names(atoms + [a]) == Names(atoms) + AtomNames(a)
  {
    assert (atoms + [a])[..|atoms|] == atoms;
  }

  // A plain text without wildcards asks for values that begin with it.
  lemma {:induction false} PlainTextIsPrefix(v: string, s: string)
    requires forall c | c in s :: c != '%' && c != '_'
    ensures LikeMatch(v, s + "%") <==> s <= v
    decreases |s|
  {
    if s == "" {
      MatchesAll(v);
      assert s + "%" == "%";
    } else {
      assert (s + "%")[1..] == s[1..] + "%" && (s + "%")[0] == s[0];
      assert s[0] in s;
      forall c | c in s[1..] ensures c != '%' && c != '_' { assert c in s; }
      if v != "" {
        PlainTextIsPrefix(v[1..], s[1..]);
        assert s == [s[0]] + s[1..] && v == [v[0]] + v[1..];
      }
    }
  }

  // One piece of the text for every character of the pattern: any piece for %, one character for _, the
  // character itself otherwise.
  ghost predicate Fits(pieces: seq<string>, pattern: string) {
    && |pieces| == |pattern|
    && forall i {:trigger pieces[i]} | 0 <= i < |pattern| ::
         pattern[i] == '%' || (pattern[i] == '_' && |pieces[i]| == 1) || pieces[i] == [pattern[i]]
  }

  function Glued(pieces: seq<string>): string {
    if pieces == [] then "" else pieces[0] + Glued(pieces[1..])
  }

  ghost predicate SplitsBy(v: string, pattern: string, pieces: seq<string>) {
    Fits(pieces, pattern) && Glued(pieces) == v
  }

  // LIKE holds exactly when the text can be cut into pieces that fit the pattern.
  lemma {:induction false} LikeMeans(v: string, pattern: string)
    ensures LikeMatch(v, pattern) <==> exists pieces :: SplitsBy(v, pattern, pieces)
  {
    if LikeMatch(v, pattern) { var pieces := LikePieces(v, pattern); }
    if pieces :| SplitsBy(v, pattern, pieces) { PiecesMatch(pieces, pattern); }
  }

  lemma {:induction false} LikePieces(v: string, pattern: string) returns (pieces: seq<string>)
    requires LikeMatch(v, pattern)
    ensures SplitsBy(v, pattern, pieces)
    decreases |pattern|, |v|
  {
    if pattern == "" {
      pieces := [];
    } else if pattern[0] == '%' && !LikeMatch(v, pattern[1..]) {
      var rest := LikePieces(v[1..], pattern);
      pieces := [[v[0]] + rest[0]] + rest[1..];
      assert Glued(rest) == rest[0] + Glued(rest[1..]) && pieces[1..] == rest[1..];
      assert forall i | 1 <= i < |pieces| :: pieces[i] == rest[i];
    } else {
      var head := if pattern[0] == '%' then "" else [v[0]];
      var rest := LikePieces(v[|head|..], pattern[1..]);
      pieces := [head] + rest;
      assert pieces[1..] == rest;
      assert forall i | 1 <= i < |pieces| :: pieces[i] == rest[i - 1] && pattern[i] == pattern[1..][i - 1];
    }
  }

  lemma {:induction false} PiecesMatch(pieces: seq<string>, pattern: string)
    requires Fits(pieces, pattern)
    ensures LikeMatch(Glued(pieces), pattern)
  {
    if pieces != [] {
      assert forall i | 0 <= i < |pattern| - 1 :: pieces[1..][i] == pieces[i + 1];
      PiecesMatch(pieces[1..], pattern[1..]);
      if pattern[0] == '%' {
        PercentTakes(pieces[0], Glued(pieces[1..]), pattern);
      } else {
        assert Glued(pieces)[1..] == Glued(pieces[1..]);
      }
    }
  }

  lemma {:induction false} PercentTakes(piece: string, rest: string, pattern: string)
    requires pattern != "" && pattern[0] == '%' && LikeMatch(rest, pattern[1..])
    ensures LikeMatch(piece + rest, pattern)
    decreases |piece|
  {
    if piece == "" {
      assert piece + rest == rest;
    } else {
      PercentTakes(piece[1..], rest, pattern);
      assert (piece + rest)[1..] == piece[1..] + rest;
    }
  }

  lemma {:induction false} MatchesAll(v: string)
    ensures LikeMatch(v, "%")
    decreases |v|
  {
    assert "%"[1..] == "";
    if v != "" { MatchesAll(v[1..]); }
  }

  // ---- several filters ---------------------------------------------------------------------------------

  // Every parser starts again at f_0, and inserting into the common map keeps what is there, so the
  // first filter with enough operands decides each name.
  function Merge(lists: seq<seq<string>>): Params {
    if lists == [] then map[]
    else OperandMap(lists[|lists| - 1]) + Merge(lists[..|lists| - 1])
  }

  // The operand of the first filter that has one at the position.
  function FirstAt(lists: seq<seq<string>>, i: nat): Option<string> {
    if lists == [] then None else if i < |lists[0]| then Some(lists[0][i]) else FirstAt(lists[1..], i)
  }

  lemma {:induction false} FirstAtSnoc(lists: seq<seq<string>>, last: seq<string>, i: nat)
    ensures FirstAt(lists + [last], i) ==
            if FirstAt(lists, i).Some? then FirstAt(lists, i) else if i < |last| then Some(last[i]) else None
    decreases |lists|
  {
    if lists == [] {
      assert [last][1..] == [];
    } else {
      assert (lists + [last])[1..] == lists[1..] + [last];
      FirstAtSnoc(lists[1..], last, i);
    }
  }

  lemma {:induction false} FirstAtListed(lists: seq<seq<string>>, i: nat)
    ensures FirstAt(lists, i).None? ==> forall j | 0 <= j < |lists| :: i >= |lists[j]|
    ensures FirstAt(lists, i).Some? ==>
              exists j | 0 <= j < |lists| :: i < |lists[j]| && lists[j][i] == FirstAt(lists, i).value
  {
    if lists != [] && i >= |lists[0]| {
      FirstAtListed(lists[1..], i);
      if FirstAt(lists, i).Some? {
        var j :| 0 <= j < |lists[1..]| && i < |lists[1..][j]| && lists[1..][j][i] == FirstAt(lists, i).value;
        assert lists[j + 1] == lists[1..][j];
      } else {
        forall j | 0 <= j < |lists| ensures i >= |lists[j]| { if j > 0 { assert lists[j] == lists[1..][j - 1]; } }
      }
    }
  }

  lemma {:induction false} MergeIsFirst(lists: seq<seq<string>>, i: nat)
    ensures Param(Merge(lists), FName(i)) == match FirstAt(lists, i) case Some(v) => Str(v) case None => Null
  {
    if lists != [] {
      var init, last := lists[..|lists| - 1], lists[|lists| - 1];
      MergeIsFirst(init, i);
      OperandMapBinds(last, i);
      FirstAtSnoc(init, last, i);
      assert lists == init + [last];
    }
  }

  // What filter j finds under its own names: at every position the first filter's operand.
  function Received(lists: seq<seq<string>>, j: nat): (ops: seq<string>)
    requires j < |lists|
    ensures |ops| == |lists[j]|
  {
    seq(|lists[j]|, i requires 0 <= i => match FirstAt(lists, i) case Some(v) => v case None => "")
  }

  function AllReceived(lists: seq<seq<string>>): seq<seq<string>> {
    seq(|lists|, j requires 0 <= j < |lists| => Received(lists, j))
  }

  // Whatever the filters, this is what their placeholders carry.
  lemma ReceivedIsBound(lists: seq<seq<string>>)
    ensures AllBound(Merge(lists), AllReceived(lists))
  {
    forall j | 0 <= j < |lists| ensures Binds(Merge(lists), AllReceived(lists)[j]) {
      forall i: nat | i < |lists[j]| ensures BoundAt(Merge(lists), Received(lists, j), i) {
        MergeIsFirst(lists, i);
        FirstAtListed(lists, i);
      }
    }
  }

  // The filters agree on the operands that share a position.
  ghost predicate OperandsAgree(lists: seq<seq<string>>) {
    forall j: nat, k: nat, i: nat {:trigger AgreeAt(lists, j, k, i)}
      | j < |lists| && k < |lists| && i < |lists[j]| && i < |lists[k]| :: AgreeAt(lists, j, k, i)
  }

  ghost predicate AgreeAt(lists: seq<seq<string>>, j: nat, k: nat, i: nat)
    requires j < |lists| && k < |lists| && i < |lists[j]| && i < |lists[k]|
  {
    lists[j][i] == lists[k][i]
  }

  ghost predicate AllBound(params: Params, lists: seq<seq<string>>) {
    forall j {:trigger Binds(params, lists[j])} | 0 <= j < |lists| :: Binds(params, lists[j])
  }

  lemma SameReceived(lists: seq<seq<string>>)
    ensures AllReceived(lists) == lists <==> OperandsAgree(lists)
  {
    if AllReceived(lists) == lists {
      forall j: nat, k: nat, i: nat | j < |lists| && k < |lists| && i < |lists[j]| && i < |lists[k]|
        ensures AgreeAt(lists, j, k, i)
      {
        assert lists[j] == Received(lists, j) && lists[k] == Received(lists, k);
      }
    }
    if OperandsAgree(lists) {
      forall j: nat | j < |lists| ensures Received(lists, j) == lists[j] {
        forall i: nat | i < |lists[j]| ensures Received(lists, j)[i] == lists[j][i] {
          FirstAtListed(lists, i);
          var m: nat :| m < |lists| && i < |lists[m]| && lists[m][i] == FirstAt(lists, i).value;
          assert AgreeAt(lists, m, j, i);
        }
      }
    }
  }

  lemma BoundOnce(params: Params, a: seq<string>, b: seq<string>)
    requires Binds(params, a) && Binds(params, b) && |a| == |b|
    ensures a == b
  {
    forall i: nat | i < |a| ensures a[i] == b[i] { assert BoundAt(params, a, i) && BoundAt(params, b, i); }
  }

  // Every filter keeps its own operands exactly when no two of them differ at a shared position.
  lemma FiltersKeepOperandsIff(lists: seq<seq<string>>)
    ensures AllBound(Merge(lists), lists) <==> OperandsAgree(lists)
    ensures AllReceived(lists) == lists <==> OperandsAgree(lists)
  {
    var received := AllReceived(lists);
    ReceivedIsBound(lists);
    SameReceived(lists);
    if AllBound(Merge(lists), lists) {
      forall j | 0 <= j < |lists| ensures received[j] == lists[j] {
        assert Binds(Merge(lists), received[j]) && Binds(Merge(lists), lists[j]);
        BoundOnce(Merge(lists), received[j], lists[j]);
      }
      assert received == lists;
    }
  }
}
