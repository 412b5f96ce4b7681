// What a list of filters selects, and the parameters their query is executed with.
module FilterTheorems {
  import opened Ordering
  import opened Text
  import opened QTree
  import opened Sql
  import opened Navigation
  import opened Schedule
  import opened QueryMeaning
  import F = Filter
  import G = SqlGenius
  import opened Tokens
  import opened Statements

  lemma InitBound(params: Params, lists: seq<seq<string>>, last: seq<string>)
    requires F.AllBound(params, lists + [last])
    ensures F.AllBound(params, lists) && F.Binds(params, last)
  {
    var all := lists + [last];
    assert all[|lists|] == last && F.Binds(params, all[|lists|]);
    forall j | 0 <= j < |lists| ensures F.Binds(params, lists[j]) { assert F.Binds(params, all[j]); }
  }

  // What the user asked for: the value is there and one alternative accepts it.
  ghost predicate Accepts(v: Value, f: G.FilterSpec) {
    F.NonEmptyParts(Split(f.value, '|'));
    v.Str? && F.AnySegment(v.s, F.Segments(f.value))
  }

  lemma {:induction false} NullFails(atoms: seq<Atom>, params: Params)
    ensures !AnyAtom(Null, atoms, params)
  {
    if atoms != [] { NullFails(atoms[1..], params); }
  }

  // What the clause accepts when its placeholders carry the given operands.
  ghost predicate AcceptsWith(v: Value, f: G.FilterSpec, ops: seq<string>)
    requires |ops| == |G.OperandsOf(f)|
  {
    F.NonEmptyParts(Split(f.value, '|'));
    v.Str? && F.AnyOperator(v.s, F.Segments(f.value), ops)
  }

  lemma ClauseAccepts(v: Value, f: G.FilterSpec, ops: seq<string>, params: Params)
    requires |ops| == |G.OperandsOf(f)| && F.Binds(params, ops)
    ensures AnyAtom(v, G.Compile(f).atoms, params) <==> AcceptsWith(v, f, ops)
  {
    F.NonEmptyParts(Split(f.value, '|'));
    match v
    case Null => NullFails(G.Compile(f).atoms, params);
    case Str(s) => F.ClauseMeansOperators(s, F.Segments(f.value), params, ops);
  }

  lemma AcceptsOwn(v: Value, f: G.FilterSpec)
    ensures AcceptsWith(v, f, G.OperandsOf(f)) <==> Accepts(v, f)
  {
    F.NonEmptyParts(Split(f.value, '|'));
    if v.Str? { F.OwnOperators(v.s, F.Segments(f.value)); }
  }

  lemma {:induction false} PassesSnoc(db: Db, cx: Context, row: Row, fs: seq<FieldClause>, f: FieldClause,
                                      params: Params)
    requires ContextOk(cx) && G.Indexed(cx, fs) && f.qf.table < |cx.tree|
    ensures G.Indexed(cx, fs + [f])
    ensures Passes(db, cx, row, fs + [f], params)
            <==> Passes(db, cx, row, fs, params) && AnyAtom(NavField(db, cx, row, f.qf), f.atoms, params)
  {
    if fs == [] {
      assert [f][1..] == [];
    } else {
      assert (fs + [f])[1..] == fs[1..] + [f];
      PassesSnoc(db, cx, row, fs[1..], f, params);
    }
  }

  // One operand list for every filter.
  ghost predicate Fits(filters: seq<G.FilterSpec>, lists: seq<seq<string>>) {
    && |lists| == |filters|
    && forall i: nat {:trigger FitsAt(filters, lists, i)} | i < |filters| :: FitsAt(filters, lists, i)
  }

  ghost predicate FitsAt(filters: seq<G.FilterSpec>, lists: seq<seq<string>>, i: nat)
    requires i < |filters| && i < |lists|
  {
    |lists[i]| == |G.OperandsOf(filters[i])|
  }

  // Every filter accepts the value navigation reads for its field, given those operands.
  ghost predicate AcceptedWith(db: Db, cx: Context, row: Row, filters: seq<G.FilterSpec>, lists: seq<seq<string>>)
    requires ContextOk(cx) && (forall f | f in filters :: f.qf.table < |cx.tree|) && Fits(filters, lists)
    decreases |filters|
  {
    filters == [] || (
      var k := |filters| - 1;
      var f := filters[k];
      FitsInit(filters, lists);
      && f.qf.table < |cx.tree|
      && AcceptedWith(db, cx, row, filters[..k], lists[..k])
      && AcceptsWith(NavField(db, cx, row, f.qf), f, lists[k]))
  }

  ghost predicate AcceptedByAll(db: Db, cx: Context, row: Row, filters: seq<G.FilterSpec>)
    requires ContextOk(cx) && forall f | f in filters :: f.qf.table < |cx.tree|
  {
    forall f | f in filters :: Accepts(NavField(db, cx, row, f.qf), f)
  }

  lemma FitsInit(filters: seq<G.FilterSpec>, lists: seq<seq<string>>)
    requires Fits(filters, lists) && filters != []
    ensures var k := |filters| - 1; Fits(filters[..k], lists[..k]) && FitsAt(filters, lists, k) && filters[k] in filters
  {
    var k := |filters| - 1;
    assert FitsAt(filters, lists, k);
    forall i: nat | i < k ensures FitsAt(filters[..k], lists[..k], i) { assert FitsAt(filters, lists, i); }
  }

  lemma FitsSnoc(filters: seq<G.FilterSpec>, lists: seq<seq<string>>, f: G.FilterSpec, ops: seq<string>)
    requires Fits(filters, lists) && |ops| == |G.OperandsOf(f)|
    ensures Fits(filters + [f], lists + [ops])
  {
    forall i: nat | i < |filters| + 1 ensures FitsAt(filters + [f], lists + [ops], i) {
      if i < |filters| { assert FitsAt(filters, lists, i); }
    }
  }

  lemma OwnLists(filters: seq<G.FilterSpec>, f: G.FilterSpec)
    ensures G.OperandLists(filters + [f]) == G.OperandLists(filters) + [G.OperandsOf(f)]
  {
    assert (filters + [f])[..|filters|] == filters;
  }

  lemma {:induction false} OwnFits(filters: seq<G.FilterSpec>)
    ensures Fits(filters, G.OperandLists(filters))
  {
    if filters != [] {
      var init, f := filters[..|filters| - 1], filters[|filters| - 1];
      assert filters == init + [f];
      OwnLists(init, f);
      OwnFits(init);
      FitsSnoc(init, G.OperandLists(init), f, G.OperandsOf(f));
    }
  }

  lemma ReceivedFits(filters: seq<G.FilterSpec>)
    ensures Fits(filters, F.AllReceived(G.OperandLists(filters)))
  {
    OwnFits(filters);
    forall i: nat | i < |filters| ensures FitsAt(filters, F.AllReceived(G.OperandLists(filters)), i) {
      assert FitsAt(filters, G.OperandLists(filters), i);
    }
  }

  lemma {:induction false} PassesMeans(db: Db, cx: Context, row: Row, filters: seq<G.FilterSpec>,
                                       lists: seq<seq<string>>, params: Params)
    requires ContextOk(cx) && (forall f | f in filters :: f.qf.table < |cx.tree|)
    requires Fits(filters, lists) && F.AllBound(params, lists)
    ensures G.Indexed(cx, G.Compiled(filters))
    ensures Passes(db, cx, row, G.Compiled(filters), params) <==> AcceptedWith(db, cx, row, filters, lists)
    decreases |filters|
  {
    if filters != [] {
      var k := |filters| - 1;
      var init, f := filters[..k], filters[k];
      FitsInit(filters, lists);
      assert lists == lists[..k] + [lists[k]];
      InitBound(params, lists[..k], lists[k]);
      PassesMeans(db, cx, row, init, lists[..k], params);
      PassesSnoc(db, cx, row, G.Compiled(init), G.Compile(f), params);
      ClauseAccepts(NavField(db, cx, row, f.qf), f, lists[k], params);
    }
  }

  lemma AcceptedSnoc(db: Db, cx: Context, row: Row, filters: seq<G.FilterSpec>, lists: seq<seq<string>>,
                     f: G.FilterSpec, ops: seq<string>)
    requires ContextOk(cx) && (forall g | g in filters :: g.qf.table < |cx.tree|) && f.qf.table < |cx.tree|
    requires Fits(filters, lists) && |ops| == |G.OperandsOf(f)|
    ensures Fits(filters + [f], lists + [ops])
    ensures AcceptedWith(db, cx, row, filters + [f], lists + [ops])
            <==> AcceptedWith(db, cx, row, filters, lists) && AcceptsWith(NavField(db, cx, row, f.qf), f, ops)
  {
    var all, given := filters + [f], lists + [ops];
    FitsSnoc(filters, lists, f, ops);
    assert all[..|filters|] == filters && given[..|filters|] == lists;
  }

  lemma {:induction false} OwnAccepted(db: Db, cx: Context, row: Row, filters: seq<G.FilterSpec>)
    requires ContextOk(cx) && (forall f | f in filters :: f.qf.table < |cx.tree|)
    ensures Fits(filters, G.OperandLists(filters))
    ensures AcceptedWith(db, cx, row, filters, G.OperandLists(filters)) <==> AcceptedByAll(db, cx, row, filters)
    decreases |filters|
  {
    OwnFits(filters);
    if filters != [] {
      var k := |filters| - 1;
      var init, f := filters[..k], filters[k];
      assert filters == init + [f];
      OwnLists(init, f);
      OwnFits(init);
      OwnAccepted(db, cx, row, init);
      AcceptsOwn(NavField(db, cx, row, f.qf), f);
      AcceptedSnoc(db, cx, row, init, G.OperandLists(init), f, G.OperandsOf(f));
    }
  }

  // Any list of filters: the query selects the rows that every clause accepts with the operands it
  // receives, at each position those of the first filter that has one there.
  lemma FiltersSelectReceived(db: Db, cx: Context, row: Row, filters: seq<G.FilterSpec>)
    requires ContextOk(cx) && (forall f | f in filters :: f.qf.table < |cx.tree|)
    ensures G.Indexed(cx, G.Compiled(filters)) && Fits(filters, F.AllReceived(G.OperandLists(filters)))
    ensures Passes(db, cx, row, G.Compiled(filters), F.Merge(G.OperandLists(filters)))
            <==> AcceptedWith(db, cx, row, filters, F.AllReceived(G.OperandLists(filters)))
  {
    var lists := G.OperandLists(filters);
    ReceivedFits(filters);
    F.ReceivedIsBound(lists);
    PassesMeans(db, cx, row, filters, F.AllReceived(lists), F.Merge(lists));
  }

  // So filters that agree on the operands they share select the rows each of them accepts; that is
  // the case for any single filter.
  lemma FiltersSelect(db: Db, cx: Context, row: Row, filters: seq<G.FilterSpec>)
    requires ContextOk(cx) && (forall f | f in filters :: f.qf.table < |cx.tree|)
    requires F.OperandsAgree(G.OperandLists(filters))
    ensures G.Indexed(cx, G.Compiled(filters))
    ensures Passes(db, cx, row, G.Compiled(filters), F.Merge(G.OperandLists(filters)))
            <==> AcceptedByAll(db, cx, row, filters)
  {
    F.FiltersKeepOperandsIff(G.OperandLists(filters));
    FiltersSelectReceived(db, cx, row, filters);
    OwnAccepted(db, cx, row, filters);
  }

  // Two fields, a filter on each, and a row.
  function TwoFields(): Context {
    Context(map["t" := map["id" := None, "a" := None, "b" := None]], [QTable("t", MASTER, None, "")], [])
  }

  function TwoFilters(): seq<G.FilterSpec> {
    [G.FilterSpec(QField(0, "a"), ">1"), G.FilterSpec(QField(0, "b"), ">2")]
  }

  function TwoTwos(): Row { Row("7", map["a" := Str("2"), "b" := Str("2")]) }

  // Two filters are enough to select a row wrongly. Asked for a above "1" and b above "2", the query
  // compares b with "1" as well and lets a row with b = "2" through.
  lemma SecondFilterLosesOperand()
    ensures var db, cx, row, filters := map["t" := [TwoTwos()]], TwoFields(), TwoTwos(), TwoFilters();
            && ContextOk(cx) && G.Indexed(cx, G.Compiled(filters))
            && Passes(db, cx, row, G.Compiled(filters), F.Merge(G.OperandLists(filters)))
            && !AcceptedByAll(db, cx, row, filters)
  {
    var f, g := TwoFilters()[0], TwoFilters()[1];
    TwoFieldsRead();
    TwoComparisons(map["t" := [TwoTwos()]], TwoFields(), TwoTwos(), f, g, "2", "2");
    TwoAndOne();
  }

  lemma TwoFieldsRead()
    ensures var db, cx, row := map["t" := [TwoTwos()]], TwoFields(), TwoTwos();
            ContextOk(cx) && forall qf | qf in {QField(0, "a"), QField(0, "b")} :: NavField(db, cx, row, qf) == Str("2")
  {}

  lemma TwoAndOne()
    ensures StrLess("1", "2") && !StrLess("2", "2")
  {}

  // Of two comparisons the second is made with the operand of the first.
  lemma TwoComparisons(db: Db, cx: Context, row: Row, f: G.FilterSpec, g: G.FilterSpec, v: string, w: string)
    requires ContextOk(cx) && f.qf.table < |cx.tree| && g.qf.table < |cx.tree|
    requires f.value != "" && f.value[0] == '>' && '|' !in f.value
    requires g.value != "" && g.value[0] == '>' && '|' !in g.value
    requires NavField(db, cx, row, f.qf) == Str(v) && NavField(db, cx, row, g.qf) == Str(w)
    ensures G.Indexed(cx, G.Compiled([f, g]))
    ensures Passes(db, cx, row, G.Compiled([f, g]), F.Merge(G.OperandLists([f, g])))
            <==> StrLess(f.value[1..], v) && StrLess(f.value[1..], w)
    ensures AcceptedByAll(db, cx, row, [f, g]) <==> StrLess(f.value[1..], v) && StrLess(g.value[1..], w)
  {
    var a := f.value[1..];
    Tests(v, f, a);
    Tests(w, g, a);
    FiltersSelectReceived(db, cx, row, [f, g]);
    ReceivedByTwo(f, g);
    AcceptedTwo(db, cx, row, f, g, [a], [a]);
    AcceptedByBoth(db, cx, row, f, g);
    Tests(w, g, g.value[1..]);
    AcceptsOwn(Str(v), f);
    AcceptsOwn(Str(w), g);
  }

  lemma AcceptedByBoth(db: Db, cx: Context, row: Row, f: G.FilterSpec, g: G.FilterSpec)
    requires ContextOk(cx) && f.qf.table < |cx.tree| && g.qf.table < |cx.tree|
    ensures AcceptedByAll(db, cx, row, [f, g])
            <==> Accepts(NavField(db, cx, row, f.qf), f) && Accepts(NavField(db, cx, row, g.qf), g)
  {
    assert [f, g][0] == f && [f, g][1] == g;
  }

  lemma AcceptedTwo(db: Db, cx: Context, row: Row, f: G.FilterSpec, g: G.FilterSpec, x: seq<string>, y: seq<string>)
    requires ContextOk(cx) && f.qf.table < |cx.tree| && g.qf.table < |cx.tree|
    requires |x| == |G.OperandsOf(f)| && |y| == |G.OperandsOf(g)|
    ensures Fits([f, g], [x, y])
    ensures AcceptedWith(db, cx, row, [f, g], [x, y])
            <==> AcceptsWith(NavField(db, cx, row, f.qf), f, x) && AcceptsWith(NavField(db, cx, row, g.qf), g, y)
  {
    AcceptedSnoc(db, cx, row, [], [], f, x);
    AcceptedSnoc(db, cx, row, [f], [x], g, y);
    assert [] + [f] == [f] && [] + [x] == [x] && [f] + [g] == [f, g] && [x] + [y] == [x, y];
  }

  lemma ReceivedByTwo(f: G.FilterSpec, g: G.FilterSpec)
    requires f.value != "" && f.value[0] == '>' && '|' !in f.value
    requires g.value != "" && g.value[0] == '>' && '|' !in g.value
    ensures F.AllReceived(G.OperandLists([f, g])) == [[f.value[1..]], [f.value[1..]]]
  {
    Tests("", f, "");
    Tests("", g, "");
    TwoLists(f, g);
    ReceivedOfTwo(f.value[1..], g.value[1..]);
  }

  // A comparison without bars is one segment with one operand.
  lemma OneSegment(value: string)
    requires value != "" && value[0] == '>' && '|' !in value
    ensures F.Segments(value) == [value] && F.Operands(value) == [value[1..]]
    ensures F.AllNonEmpty([value]) && F.AllOperands([value]) == [value[1..]]
  {
    NoneFound(value, '|');
    assert "!="[0] == '!' && !("!=" <= value);
    assert [value][1..] == [] && [value][..0] == [];
    assert F.NonEmpty([value]) == [value] + F.NonEmpty([]);
    assert F.AllOperands([value]) == F.AllOperands([]) + F.Operands(value);
  }

  lemma Tests(v: string, f: G.FilterSpec, op: string)
    requires f.value != "" && f.value[0] == '>' && '|' !in f.value
    ensures G.OperandsOf(f) == [f.value[1..]]
    ensures AcceptsWith(Str(v), f, [op]) <==> StrLess(op, v)
  {
    OneSegment(f.value);
    assert "!="[0] == '!' && !("!=" <= f.value);
    assert [f.value][..0] == [] && [op][0..] == [op] && [op][..0] == [];
    assert F.AnyOperator(v, [f.value], [op]) <==> F.OperatorHolds(v, f.value, [op]);
  }

  lemma TwoLists(f: G.FilterSpec, g: G.FilterSpec)
    ensures G.OperandLists([f, g]) == [G.OperandsOf(f), G.OperandsOf(g)]
  {
    assert [f, g][..1] == [f] && [f][..0] == [];
    assert G.OperandLists([f]) == G.OperandLists([]) + [G.OperandsOf(f)];
  }

  lemma ReceivedOfTwo(a: string, b: string)
    ensures F.AllReceived([[a], [b]]) == [[a], [a]]
  {
    var lists := [[a], [b]];
    assert F.FirstAt(lists, 0) == Some(a);
    assert F.Received(lists, 0) == [a] && F.Received(lists, 1) == [a];
  }

  lemma OneFilterAgrees(f: G.FilterSpec)
    ensures F.OperandsAgree(G.OperandLists([f]))
  {
    G.CompiledLength([f]);
  }

  // ---- filters that ask for nothing ------------------------------------------------------------------------

  predicate BarsOnly(value: string) { forall c | c in value :: c == '|' }

  lemma {:induction false} NoSegmentsIff(value: string)
    ensures F.Segments(value) == [] <==> BarsOnly(value)
    decreases |value|
  {
    var i := First(value, '|');
    if i == |value| {
      assert F.NonEmpty([value]) == if value == "" then [] else [value];
      assert value != "" ==> value[0] in value;
    } else {
      var head, rest := value[..i], value[i + 1..];
      NoSegmentsIff(rest);
      BarsBehind(value, i);
      assert Split(value, '|') == [head] + Split(rest, '|');
      F.NonEmptyConcat([head], Split(rest, '|'));
      assert F.NonEmpty([head]) == if head == "" then [] else [head];
    }
  }

  lemma BarsBehind(value: string, i: nat)
    requires i < |value| && value[i] == '|' && forall j | 0 <= j < i :: value[j] != '|'
    ensures BarsOnly(value) <==> i == 0 && BarsOnly(value[i + 1..])
  {
    if i > 0 {
      assert value[0] in value && value[0] != '|';
    } else {
      var rest := value[1..];
      assert value == ['|'] + rest && value[i + 1..] == rest;
      assert forall c :: c in ['|'] + rest <==> c == '|' || c in rest;
    }
  }

  // The printed clause of every filter holds an alternative exactly when no filter is empty or made
  // of bars; such a filter would print as "()", which is not SQL.
  lemma {:induction false} ClausesPrintableIff(cx: Context, filters: seq<G.FilterSpec>)
    requires forall f | f in filters :: f.qf.table < |cx.tree|
    ensures G.Indexed(cx, G.Compiled(filters))
    ensures (forall c | c in ClausesOf(cx, G.Compiled(filters)) :: c.atoms != [])
            <==> forall f | f in filters :: !BarsOnly(f.value)
  {
    if filters != [] {
      var init, f := filters[..|filters| - 1], filters[|filters| - 1];
      assert filters == init + [f];
      ClausesPrintableIff(cx, init);
      G.ClausesSnoc(cx, G.Compiled(init), G.Compile(f));
      NoSegmentsIff(f.value);
      var last := Clause(FieldColumn(cx, f.qf), G.Compile(f).atoms);
      assert ClausesOf(cx, G.Compiled(filters)) == ClausesOf(cx, G.Compiled(init)) + [last];
      assert last in ClausesOf(cx, G.Compiled(filters)) && f in filters;
      assert last.atoms == [] <==> BarsOnly(f.value);
    }
  }

  // ---- executed parameters ---------------------------------------------------------------------------------

  function Flat(lists: seq<seq<string>>): seq<string> {
    if lists == [] then [] else Flat(lists[..|lists| - 1]) + lists[|lists| - 1]
  }

  lemma {:induction false} ClauseValues(cx: Context, filters: seq<G.FilterSpec>, lists: seq<seq<string>>,
                                        params: Params)
    requires (forall f | f in filters :: f.qf.table < |cx.tree|) && Fits(filters, lists) && F.AllBound(params, lists)
    ensures G.Indexed(cx, G.Compiled(filters))
    ensures Collect(ClauseNames(ClausesOf(cx, G.Compiled(filters))), params) == Ok(Flat(lists))
    decreases |filters|
  {
    if filters != [] {
      var k := |filters| - 1;
      var init, f := filters[..k], filters[k];
      FitsInit(filters, lists);
      assert lists == lists[..k] + [lists[k]];
      InitBound(params, lists[..k], lists[k]);
      ClauseValues(cx, init, lists[..k], params);
      G.ClausesSnoc(cx, G.Compiled(init), G.Compile(f));
      var clauses, c := ClausesOf(cx, G.Compiled(init)), Clause(FieldColumn(cx, f.qf), G.Compile(f).atoms);
      assert (clauses + [c])[..|clauses|] == clauses;
      OperandValues(f, lists[k], params);
      CollectConcat(ClauseNames(clauses), F.Names(c.atoms), params);
    }
  }

  // Scanning one clause gives the operands bound for it from left to right.
  lemma OperandValues(f: G.FilterSpec, ops: seq<string>, params: Params)
    requires |ops| == |G.OperandsOf(f)| && F.Binds(params, ops)
    ensures Collect(F.Names(G.Compile(f).atoms), params) == Ok(ops)
  {
    F.NonEmptyParts(Split(f.value, '|'));
    F.PlaceholdersInOrder(F.Segments(f.value));
    forall i | 0 <= i < |ops| ensures Param(params, F.FNames(|ops|)[i]) == Str(ops[i]) {
      assert F.BoundAt(params, ops, i);
    }
    CollectBound(F.FNames(|ops|), ops, params);
  }

  lemma {:induction false} PlainAtoms(segs: seq<string>)
    requires F.AllNonEmpty(segs)
    ensures forall i | 0 <= i < |F.AtomsFor(segs)| :: PlainAtom(F.AtomsFor(segs)[i])
  {
    if segs != [] {
      var k := |F.AllOperands(segs[..|segs| - 1])|;
      PlainAtoms(segs[..|segs| - 1]);
      FNameIsGood(k);
      FNameIsGood(k + 1);
    }
  }

  lemma FNameIsGood(i: nat)
    ensures GoodParam(F.FName(i))
  {
    DecIsName(i);
  }

  lemma {:induction false} PlainClauses(cx: Context, filters: seq<G.FilterSpec>)
    requires PlainContext(cx) && (forall f | f in filters :: f.qf.table < |cx.tree| && IsName(f.qf.field))
    ensures G.Indexed(cx, G.Compiled(filters))
    ensures forall i | 0 <= i < |ClausesOf(cx, G.Compiled(filters))| ::
              PlainClause(ClausesOf(cx, G.Compiled(filters))[i])
  {
    if filters != [] {
      var init, f := filters[..|filters| - 1], filters[|filters| - 1];
      assert f in filters;
      PlainClauses(cx, init);
      G.ClausesSnoc(cx, G.Compiled(init), G.Compile(f));
      F.NonEmptyParts(Split(f.value, '|'));
      PlainAtoms(F.Segments(f.value));
    }
  }

  // A count or ids query is executed with the edited values in join order, then the operands the
  // filters receive, then the page.
  lemma FilterQueryParams(select: string, cx: Context, q: Query, params: Params, order: seq<nat>,
                          filters: seq<G.FilterSpec>)
    requires G.FilterQuery(cx, q, params, order, filters) && Plain(select)
    requires PlainContext(cx) && (forall f | f in filters :: f.qf.table < |cx.tree| && IsName(f.qf.field))
    requires forall i | 0 <= i < |q.order| :: PlainColumn(q.order[i].column)
    ensures var values := SmartValues(cx, order) + Flat(F.AllReceived(G.OperandLists(filters)));
            && (!q.paged ==> Ordered(Render(select, q), params) == Ok(values))
            && (forall limit: nat, offset: nat | q.paged && PageAsked(params, limit, offset) ::
                  Ordered(Render(select, q), params) == Ok(values + [Dec(limit), Dec(offset)]))
  {
    var values := SmartValues(cx, order) + Flat(F.AllReceived(G.OperandLists(filters)));
    FilterQueryScans(select, cx, q, params, order, filters);
    ScannerReadsPlaceholders(Render(select, q), params);
    FrontValues(cx, q, params, order, filters);
    var front := JoinNames(q.joins) + WhereNames(q.where_);
    if !q.paged { assert front + [] == front; }
    forall limit: nat, offset: nat | q.paged && PageAsked(params, limit, offset)
      ensures Ordered(Render(select, q), params) == Ok(values + [Dec(limit), Dec(offset)])
    {
      PageValues(params, limit, offset);
      CollectConcat(front, PageNames(q), params);
    }
  }

  // The statement of gen_select_count.
  lemma CountQueryParams(cx: Context, q: Query, params: Params, order: seq<nat>, filters: seq<G.FilterSpec>)
    requires G.FilterQuery(cx, q, params, order, filters) && q.order == [] && !q.paged
    requires PlainContext(cx) && (forall f | f in filters :: f.qf.table < |cx.tree| && IsName(f.qf.field))
    ensures Ordered(Render(SelectCount(), q), params)
            == Ok(SmartValues(cx, order) + Flat(F.AllReceived(G.OperandLists(filters))))
  {
    FilterQueryParams(SelectCount(), cx, q, params, order, filters);
  }

  // The statement of gen_select_ids.
  lemma IdsQueryParams(cx: Context, q: Query, params: Params, order: seq<nat>, filters: seq<G.FilterSpec>,
                       sorts: seq<G.SortSpec>, limit: nat, offset: nat)
    requires G.FilterQuery(cx, q, params, order, filters) && q.paged && PageAsked(params, limit, offset)
    requires PlainContext(cx) && (forall f | f in filters :: f.qf.table < |cx.tree| && IsName(f.qf.field))
    requires (forall s | s in sorts :: s.qf.table < |cx.tree| && IsName(s.qf.field)) && q.order == G.SortKeys(cx, sorts)
    ensures Ordered(Render(SelectIds(), q), params)
            == Ok(SmartValues(cx, order) + Flat(F.AllReceived(G.OperandLists(filters))) + [Dec(limit), Dec(offset)])
  {
    PlainKeys(cx, sorts);
    FilterQueryParams(SelectIds(), cx, q, params, order, filters);
  }

  // ---- cached text ------------------------------------------------------------------------------------------

  // A load that reuses the text of an earlier one scans it with no parameters bound.
  lemma CollectUnbound(names: seq<string>)
    ensures Collect(names, map[]) == if names == [] then Ok([]) else NotFound(names[0])
  {}

  // The ids text always has the placeholders of its page, so reusing it always fails.
  lemma CachedIdsTextFails(cx: Context, q: Query, params: Params, order: seq<nat>, filters: seq<G.FilterSpec>,
                           sorts: seq<G.SortSpec>)
    requires G.FilterQuery(cx, q, params, order, filters) && q.paged
    requires PlainContext(cx) && (forall f | f in filters :: f.qf.table < |cx.tree| && IsName(f.qf.field))
    requires (forall s | s in sorts :: s.qf.table < |cx.tree| && IsName(s.qf.field)) && q.order == G.SortKeys(cx, sorts)
    ensures Ordered(Render(SelectIds(), q), map[]).NotFound?
  {
    PlainKeys(cx, sorts);
    FilterQueryScans(SelectIds(), cx, q, params, order, filters);
    ScannerReadsPlaceholders(Render(SelectIds(), q), map[]);
    CollectUnbound(NamesOf(Render(SelectIds(), q)));
  }

  // The count text can be reused exactly when none of its joins is on an edited link and no filter has
  // an alternative.
  lemma CachedCountTextIff(cx: Context, q: Query, params: Params, order: seq<nat>, filters: seq<G.FilterSpec>)
    requires G.FilterQuery(cx, q, params, order, filters) && q.order == [] && !q.paged
    requires PlainContext(cx) && (forall f | f in filters :: f.qf.table < |cx.tree| && IsName(f.qf.field))
    ensures Ordered(Render(SelectCount(), q), map[]).Ok? <==>
            NoneEdited(cx, order) && forall f | f in filters :: BarsOnly(f.value)
  {
    FilterQueryScans(SelectCount(), cx, q, params, order, filters);
    ScannerReadsPlaceholders(Render(SelectCount(), q), map[]);
    CollectUnbound(NamesOf(Render(SelectCount(), q)));
    NoJoinNamesIff(cx, order);
    FilterWhereNames(cx, G.Compiled(filters));
    NoClauseNamesIff(cx, filters);
  }

  // No table is joined on an edited link.
  ghost predicate NoneEdited(cx: Context, order: seq<nat>)
    requires ContextOk(cx) && InTree(cx, order)
  {
    forall i {:trigger LinkUnedited(cx, order[i])} | 0 <= i < |order| :: LinkUnedited(cx, order[i])
  }

  ghost predicate LinkUnedited(cx: Context, n: nat)
    requires ContextOk(cx) && 1 <= n < |cx.tree|
  {
    Edited(cx.rfields, QField(cx.tree[n].parent.value, cx.tree[n].fk)).None?
  }

  lemma {:induction false} NoJoinNamesIff(cx: Context, order: seq<nat>)
    requires ContextOk(cx) && InTree(cx, order)
    ensures JoinNames(JoinsOf(cx, order)) == [] <==> NoneEdited(cx, order)
    decreases |order|
  {
    if order != [] {
      var init, n := order[..|order| - 1], order[|order| - 1];
      assert order == init + [n];
      NoJoinNamesIff(cx, init);
      NoneEditedSnoc(cx, init, n);
      NoNameOfJoin(cx, init, n);
    }
  }

  lemma NoNameOfJoin(cx: Context, order: seq<nat>, n: nat)
    requires ContextOk(cx) && InTree(cx, order) && 1 <= n < |cx.tree|
    ensures InTree(cx, order + [n])
    ensures JoinNames(JoinsOf(cx, order + [n])) == [] <==> JoinNames(JoinsOf(cx, order)) == [] && LinkUnedited(cx, n)
  {
    assert (order + [n])[..|order|] == order;
    assert JoinsOf(cx, order + [n]) == JoinsOf(cx, order) + [JoinOf(cx, n)];
    JoinNamesSnoc(JoinsOf(cx, order), JoinOf(cx, n));
  }

  lemma JoinNamesSnoc(joins: seq<Join>, j: Join)
    ensures JoinNames(joins + [j]) == [] <==> JoinNames(joins) == [] && j.on.OnColumn?
  {
    assert (joins + [j])[..|joins|] == joins;
  }

  lemma NoneEditedSnoc(cx: Context, order: seq<nat>, n: nat)
    requires ContextOk(cx) && InTree(cx, order) && 1 <= n < |cx.tree|
    ensures InTree(cx, order + [n])
    ensures NoneEdited(cx, order + [n]) <==> NoneEdited(cx, order) && LinkUnedited(cx, n)
  {
    var all := order + [n];
    assert all[|order|] == n;
    forall i | 0 <= i < |order| ensures all[i] == order[i] {}
    if NoneEdited(cx, all) {
      assert LinkUnedited(cx, all[|order|]);
      forall i | 0 <= i < |order| ensures LinkUnedited(cx, order[i]) { assert LinkUnedited(cx, all[i]); }
    }
  }

  lemma {:induction false} NoClauseNamesIff(cx: Context, filters: seq<G.FilterSpec>)
    requires forall f | f in filters :: f.qf.table < |cx.tree|
    ensures G.Indexed(cx, G.Compiled(filters))
    ensures ClauseNames(ClausesOf(cx, G.Compiled(filters))) == [] <==> forall f | f in filters :: BarsOnly(f.value)
  {
    if filters != [] {
      var init, f := filters[..|filters| - 1], filters[|filters| - 1];
      assert filters == init + [f];
      NoClauseNamesIff(cx, init);
      G.ClausesSnoc(cx, G.Compiled(init), G.Compile(f));
      var clauses, c := ClausesOf(cx, G.Compiled(init)), Clause(FieldColumn(cx, f.qf), G.Compile(f).atoms);
      assert (clauses + [c])[..|clauses|] == clauses;
      NoSegmentsIff(f.value);
      F.NonEmptyParts(Split(f.value, '|'));
      F.PlaceholdersInOrder(F.Segments(f.value));
    }
  }

  lemma {:induction false} PlainKeys(cx: Context, sorts: seq<G.SortSpec>)
    requires PlainContext(cx) && forall s | s in sorts :: s.qf.table < |cx.tree| && IsName(s.qf.field)
    ensures forall i | 0 <= i < |G.SortKeys(cx, sorts)| :: PlainColumn(G.SortKeys(cx, sorts)[i].column)
  {
    if sorts != [] {
      assert sorts[|sorts| - 1] in sorts;
      PlainKeys(cx, sorts[..|sorts| - 1]);
    }
  }

  // When no operand is lost these are the operands of the filters as written.
  lemma OperandsAsWritten(filters: seq<G.FilterSpec>)
    ensures F.AllReceived(G.OperandLists(filters)) == G.OperandLists(filters)
            <==> F.OperandsAgree(G.OperandLists(filters))
  {
    F.FiltersKeepOperandsIff(G.OperandLists(filters));
  }

  lemma PageValues(params: Params, limit: nat, offset: nat)
    requires PageAsked(params, limit, offset)
    ensures Collect(["pg_limit", "pg_offset"], params) == Ok([Dec(limit), Dec(offset)])
  {
    CollectBound(["pg_limit", "pg_offset"], [Dec(limit), Dec(offset)], params);
  }

  lemma FilterQueryScans(select: string, cx: Context, q: Query, params: Params, order: seq<nat>,
                         filters: seq<G.FilterSpec>)
    requires G.FilterQuery(cx, q, params, order, filters) && Plain(select)
    requires PlainContext(cx) && (forall f | f in filters :: f.qf.table < |cx.tree| && IsName(f.qf.field))
    requires forall i | 0 <= i < |q.order| :: PlainColumn(q.order[i].column)
    ensures Scannable(Render(select, q))
    ensures NamesOf(Render(select, q)) == JoinNames(q.joins) + WhereNames(q.where_) + PageNames(q)
  {
    PlainJoins(cx, order);
    PlainClauses(cx, filters);
    assert cx.tree[0].alias == MASTER;
    StatementScans(select, q);
  }

  lemma FrontValues(cx: Context, q: Query, params: Params, order: seq<nat>, filters: seq<G.FilterSpec>)
    requires G.FilterQuery(cx, q, params, order, filters) && forall f | f in filters :: f.qf.table < |cx.tree|
    ensures Collect(JoinNames(q.joins) + WhereNames(q.where_), params)
            == Ok(SmartValues(cx, order) + Flat(F.AllReceived(G.OperandLists(filters))))
  {
    SmartIsBound(cx, order, params);
    JoinValues(cx, order, params);
    WhereValues(cx, params, order, filters);
    CollectConcat(JoinNames(q.joins), WhereNames(q.where_), params);
  }

  lemma WhereValues(cx: Context, params: Params, order: seq<nat>, filters: seq<G.FilterSpec>)
    requires ContextOk(cx) && InTree(cx, order) && G.CarriesFilters(cx, params, order, filters)
    requires G.Indexed(cx, G.Compiled(filters)) && (forall f | f in filters :: f.qf.table < |cx.tree|)
    ensures Collect(WhereNames(FilterWhere(cx, G.Compiled(filters))), params)
            == Ok(Flat(F.AllReceived(G.OperandLists(filters))))
  {
    ReceivedFits(filters);
    CarriedBound(cx, params, order, filters);
    ClauseValues(cx, filters, F.AllReceived(G.OperandLists(filters)), params);
    FilterWhereNames(cx, G.Compiled(filters));
  }

  lemma FilterWhereNames(cx: Context, fs: seq<FieldClause>)
    requires G.Indexed(cx, fs)
    ensures WhereNames(FilterWhere(cx, fs)) == ClauseNames(ClausesOf(cx, fs))
  {}

  lemma CarriedBound(cx: Context, params: Params, order: seq<nat>, filters: seq<G.FilterSpec>)
    requires ContextOk(cx) && InTree(cx, order) && G.CarriesFilters(cx, params, order, filters)
    ensures F.AllBound(params, F.AllReceived(G.OperandLists(filters)))
  {
    var lists := G.OperandLists(filters);
    var received := F.AllReceived(lists);
    F.ReceivedIsBound(lists);
    forall j | 0 <= j < |received| ensures F.Binds(params, received[j]) {
      assert F.Binds(F.Merge(lists), received[j]);
      BindsSame(params, F.Merge(lists), received[j]);
    }
  }

  lemma BindsSame(params: Params, merged: Params, operands: seq<string>)
    requires F.Binds(merged, operands)
    requires forall i: nat :: Param(params, F.FName(i)) == Param(merged, F.FName(i))
    ensures F.Binds(params, operands)
  {
    forall i: nat | i < |operands| ensures F.BoundAt(params, operands, i) { assert F.BoundAt(merged, operands, i); }
  }
}
