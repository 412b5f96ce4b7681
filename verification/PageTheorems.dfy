// From a page of ids to the records shown for it: the two queries of a record set agree row by row.
module PageTheorems {
  import opened Ordering
  import opened Lists
  import opened QTree
  import opened Sql
  import opened Navigation
  import opened Schedule
  import opened QueryMeaning
  import opened SortTheorems
  import F = Filter
  import G = SqlGenius

  ghost function Keep(rows: seq<Row>, p: Row -> bool): seq<Row> {
    if rows == [] then [] else if p(rows[0]) then [rows[0]] + Keep(rows[1..], p) else Keep(rows[1..], p)
  }

  function HasId(ids: seq<string>): Row -> bool { (r: Row) => r.id in ids }

  ghost function PassesAll(db: Db, cx: Context, filters: seq<FieldClause>, params: Params): Row -> bool
    requires ContextOk(cx) && forall f | f in filters :: f.qf.table < |cx.tree|
  {
    (r: Row) => Passes(db, cx, r, filters, params)
  }

  lemma {:induction false} KeepConcat(a: seq<Row>, b: seq<Row>, p: Row -> bool)
    ensures Keep(a + b, p) == Keep(a, p) + Keep(b, p)
    decreases |a|
  {
    if a == [] {
      assert a + b == b;
    } else {
      assert (a + b)[1..] == a[1..] + b;
      KeepConcat(a[1..], b, p);
    }
  }

  lemma {:induction false} KeepMembers(rows: seq<Row>, p: Row -> bool)
    ensures forall r :: r in Keep(rows, p) <==> r in rows && p(r)
  {
    if rows != [] {
      KeepMembers(rows[1..], p);
      assert rows == [rows[0]] + rows[1..];
    }
  }

  lemma {:induction false} KeepAll(rows: seq<Row>, p: Row -> bool)
    requires AllHold(rows, p)
    ensures Keep(rows, p) == rows
  {
    if rows != [] {
      assert rows[0] in rows;
      KeepAll(rows[1..], p);
    }
  }

  lemma {:induction false} KeepNone(rows: seq<Row>, p: Row -> bool)
    requires NoneHolds(rows, p)
    ensures Keep(rows, p) == []
  {
    if rows != [] {
      assert rows[0] in rows;
      KeepNone(rows[1..], p);
    }
  }

  lemma {:induction false} KeepTwice(rows: seq<Row>, p: Row -> bool, q: Row -> bool)
    requires forall r | r in rows && q(r) :: p(r)
    ensures Keep(Keep(rows, p), q) == Keep(rows, q)
  {
    if rows != [] {
      assert rows[0] in rows;
      KeepTwice(rows[1..], p, q);
      if p(rows[0]) { assert ([rows[0]] + Keep(rows[1..], p))[1..] == Keep(rows[1..], p); }
    }
  }

  lemma {:induction false} PassingIsKeep(db: Db, cx: Context, rows: seq<Row>, filters: seq<FieldClause>, params: Params)
    requires ContextOk(cx) && forall f | f in filters :: f.qf.table < |cx.tree|
    ensures Passing(db, cx, rows, filters, params) == Keep(rows, PassesAll(db, cx, filters, params))
  {
    if rows != [] { PassingIsKeep(db, cx, rows[1..], filters, params); }
  }

  lemma {:induction false} WithIdsIsKeep(rows: seq<Row>, ids: seq<string>)
    ensures G.WithIds(rows, ids) == Keep(rows, HasId(ids))
  {
    if rows != [] { WithIdsIsKeep(rows[1..], ids); }
  }

  // ---- sorting and selecting commute ---------------------------------------------------------------------

  lemma {:induction false} InsertKeep(db: Db, cx: Context, r: Row, rows: seq<Row>, sorts: seq<G.SortSpec>,
                                      p: Row -> bool)
    requires SortsIn(cx, sorts) && Ranked(db, cx, rows, sorts)
    ensures Keep(InsertRow(db, cx, r, rows, sorts), p)
            == if p(r) then InsertRow(db, cx, r, Keep(rows, p), sorts) else Keep(rows, p)
    decreases |rows|
  {
    if rows == [] {
      assert [r][1..] == [];
    } else if RowBefore(db, cx, r, rows[0], sorts) {
      assert ([r] + rows)[1..] == rows;
      KeepMembers(rows, p);
      forall x | x in rows ensures RowBefore(db, cx, r, x, sorts) {
        var j :| 0 <= j < |rows| && rows[j] == x;
        if j > 0 && !RowBefore(db, cx, r, x, sorts) { RowChain(db, cx, rows[0], x, r, sorts); }
      }
      var kept := Keep(rows, p);
      if kept != [] { assert kept[0] in kept; }
    } else {
      var rest := InsertRow(db, cx, r, rows[1..], sorts);
      InsertKeep(db, cx, r, rows[1..], sorts, p);
      assert ([rows[0]] + rest)[1..] == rest;
      if p(rows[0]) { assert ([rows[0]] + Keep(rows[1..], p))[1..] == Keep(rows[1..], p); }
    }
  }

  lemma KeepSnoc(rows: seq<Row>, r: Row, p: Row -> bool)
    ensures Keep(rows + [r], p) == if p(r) then Keep(rows, p) + [r] else Keep(rows, p)
  {
    KeepConcat(rows, [r], p);
    assert [r][1..] == [] && Keep([r], p) == if p(r) then [r] else [];
  }

  lemma SortSnoc(db: Db, cx: Context, rows: seq<Row>, r: Row, sorts: seq<G.SortSpec>)
    requires SortsIn(cx, sorts)
    ensures SortRows(db, cx, rows + [r], sorts) == InsertRow(db, cx, r, SortRows(db, cx, rows, sorts), sorts)
  {
    assert (rows + [r])[..|rows|] == rows;
  }

  lemma {:induction false} SortKeep(db: Db, cx: Context, rows: seq<Row>, sorts: seq<G.SortSpec>, p: Row -> bool)
    requires SortsIn(cx, sorts)
    ensures SortRows(db, cx, Keep(rows, p), sorts) == Keep(SortRows(db, cx, rows, sorts), p)
    decreases |rows|
  {
    if rows != [] {
      var init, last := rows[..|rows| - 1], rows[|rows| - 1];
      assert rows == init + [last];
      KeepSnoc(init, last, p);
      SortKeep(db, cx, init, sorts, p);
      SortRowsRanks(db, cx, init, sorts);
      SortSnoc(db, cx, init, last, sorts);
      SortSnoc(db, cx, Keep(init, p), last, sorts);
      InsertKeep(db, cx, last, SortRows(db, cx, init, sorts), sorts, p);
    }
  }

  // ---- unique ids ----------------------------------------------------------------------------------------

  lemma TailUnique(rows: seq<Row>)
    requires UniqueIds(rows) && rows != []
    ensures UniqueIds(rows[1..]) && forall x | x in rows[1..] :: x.id != rows[0].id
  {
    forall i: nat, j: nat | i < j < |rows| - 1 ensures DifferentIds(rows[1..], i, j) {
      assert DifferentIds(rows, i + 1, j + 1);
    }
    forall x | x in rows[1..] ensures x.id != rows[0].id {
      var j :| 0 <= j < |rows| - 1 && rows[1..][j] == x;
      assert DifferentIds(rows, 0, j + 1);
    }
  }

  lemma ConsUnique(r: Row, rows: seq<Row>)
    requires UniqueIds(rows) && forall x | x in rows :: x.id != r.id
    ensures UniqueIds([r] + rows)
  {
    forall i: nat, j: nat | i < j < |rows| + 1 ensures DifferentIds([r] + rows, i, j) {
      if i > 0 { assert DifferentIds(rows, i - 1, j - 1); } else { assert rows[j - 1] in rows; }
    }
  }

  lemma {:induction false} KeepUnique(rows: seq<Row>, p: Row -> bool)
    requires UniqueIds(rows)
    ensures UniqueIds(Keep(rows, p))
  {
    if rows != [] {
      TailUnique(rows);
      KeepUnique(rows[1..], p);
      KeepMembers(rows[1..], p);
      if p(rows[0]) { ConsUnique(rows[0], Keep(rows[1..], p)); } else { assert Keep(rows, p) == Keep(rows[1..], p); }
    }
  }

  lemma {:induction false} InsertUnique(db: Db, cx: Context, r: Row, rows: seq<Row>, sorts: seq<G.SortSpec>)
    requires SortsIn(cx, sorts) && UniqueIds(rows) && forall x | x in rows :: x.id != r.id
    ensures UniqueIds(InsertRow(db, cx, r, rows, sorts))
    decreases |rows|
  {
    if rows == [] || RowBefore(db, cx, r, rows[0], sorts) {
      ConsUnique(r, rows);
    } else {
      TailUnique(rows);
      InsertUnique(db, cx, r, rows[1..], sorts);
      InsertRowKeeps(db, cx, r, rows[1..], sorts);
      ConsUnique(rows[0], InsertRow(db, cx, r, rows[1..], sorts));
    }
  }

  lemma InitUnique(rows: seq<Row>)
    requires UniqueIds(rows) && rows != []
    ensures var k := |rows| - 1; UniqueIds(rows[..k]) && forall x | x in rows[..k] :: x.id != rows[k].id
  {
    var k := |rows| - 1;
    forall i: nat, j: nat | i < j < k ensures DifferentIds(rows[..k], i, j) { assert DifferentIds(rows, i, j); }
    forall x | x in rows[..k] ensures x.id != rows[k].id {
      var i :| 0 <= i < k && rows[..k][i] == x;
      assert DifferentIds(rows, i, k);
    }
  }

  lemma {:induction false} SortUnique(db: Db, cx: Context, rows: seq<Row>, sorts: seq<G.SortSpec>)
    requires SortsIn(cx, sorts) && UniqueIds(rows)
    ensures UniqueIds(SortRows(db, cx, rows, sorts))
    ensures forall x :: x in SortRows(db, cx, rows, sorts) <==> x in rows
    decreases |rows|
  {
    SortRowsRanks(db, cx, rows, sorts);
    SameMembers(SortRows(db, cx, rows, sorts), rows);
    if rows != [] {
      InitUnique(rows);
      SortUnique(db, cx, rows[..|rows| - 1], sorts);
      InsertUnique(db, cx, rows[|rows| - 1], SortRows(db, cx, rows[..|rows| - 1], sorts), sorts);
    }
  }

  lemma SameMembers(a: seq<Row>, b: seq<Row>)
    requires multiset(a) == multiset(b)
    ensures forall x :: x in a <==> x in b
  {
    forall x ensures x in a <==> x in b { assert x in a <==> x in multiset(a); assert x in b <==> x in multiset(b); }
  }

  lemma SameIdSameRow(rows: seq<Row>, r: Row, s: Row)
    requires UniqueIds(rows) && r in rows && s in rows && r.id == s.id
    ensures r == s
  {
    var i: nat :| i < |rows| && rows[i] == r;
    var j: nat :| j < |rows| && rows[j] == s;
    if i < j { assert DifferentIds(rows, i, j); }
    if j < i { assert DifferentIds(rows, j, i); }
  }

  lemma {:induction false} LookupListed(rows: seq<Row>, r: Row)
    requires UniqueIds(rows) && r in rows
    ensures Lookup(rows, Str(r.id)) == Some(r)
  {
    TailUnique(rows);
    if rows[0] != r {
      assert rows == [rows[0]] + rows[1..];
      LookupListed(rows[1..], r);
    }
  }

  // ---- a page and its rows -------------------------------------------------------------------------------

  function IdsOf(rows: seq<Row>): seq<string> { seq(|rows|, i requires 0 <= i < |rows| => rows[i].id) }

  lemma InIds(rows: seq<Row>, id: string)
    ensures id in IdsOf(rows) <==> exists r | r in rows :: r.id == id
  {
    if id in IdsOf(rows) {
      var i :| 0 <= i < |rows| && IdsOf(rows)[i] == id;
      assert rows[i] in rows;
    }
    if r :| r in rows && r.id == id {
      var i :| 0 <= i < |rows| && rows[i] == r;
      assert IdsOf(rows)[i] == id;
    }
  }

  ghost predicate AllHold(rows: seq<Row>, p: Row -> bool) { forall r | r in rows :: p(r) }

  ghost predicate NoneHolds(rows: seq<Row>, p: Row -> bool) { forall r | r in rows :: !p(r) }

  // Choosing by the ids of a slice gives the slice.
  lemma KeepSlice(rows: seq<Row>, a: nat, b: nat)
    requires UniqueIds(rows) && a <= b <= |rows|
    ensures Keep(rows, HasId(IdsOf(rows[a..b]))) == rows[a..b]
  {
    var x, y, z := rows[..a], rows[a..b], rows[b..];
    var p := HasId(IdsOf(y));
    Inside(y);
    OutsideSlice(rows, a, b);
    KeepMiddle(x, y, z, p);
    ThreeParts(rows, a, b);
  }

  lemma ThreeParts(rows: seq<Row>, a: nat, b: nat)
    requires a <= b <= |rows|
    ensures rows[..a] + (rows[a..b] + rows[b..]) == rows
  {
    assert rows[a..b] + rows[b..] == rows[a..];
  }

  lemma Inside(rows: seq<Row>)
    ensures AllHold(rows, HasId(IdsOf(rows)))
  {
    forall r | r in rows ensures HasId(IdsOf(rows))(r) { InIds(rows, r.id); }
  }

  lemma OutsideSlice(rows: seq<Row>, a: nat, b: nat)
    requires UniqueIds(rows) && a <= b <= |rows|
    ensures NoneHolds(rows[..a], HasId(IdsOf(rows[a..b]))) && NoneHolds(rows[b..], HasId(IdsOf(rows[a..b])))
  {
    forall r | r in rows[..a] ensures !HasId(IdsOf(rows[a..b]))(r) { Outside(rows, a, b, r.id, r); }
    forall r | r in rows[b..] ensures !HasId(IdsOf(rows[a..b]))(r) { Outside(rows, a, b, r.id, r); }
  }

  lemma KeepMiddle(x: seq<Row>, y: seq<Row>, z: seq<Row>, p: Row -> bool)
    requires NoneHolds(x, p) && AllHold(y, p) && NoneHolds(z, p)
    ensures Keep(x + (y + z), p) == y
  {
    KeepNone(x, p);
    KeepAll(y, p);
    KeepNone(z, p);
    KeepConcat(x, y + z, p);
    KeepConcat(y, z, p);
  }

  lemma Outside(rows: seq<Row>, a: nat, b: nat, id: string, r: Row)
    requires UniqueIds(rows) && a <= b <= |rows| && r.id == id && (r in rows[..a] || r in rows[b..])
    ensures id !in IdsOf(rows[a..b])
  {
    InIds(rows[a..b], id);
    var i: nat :| i < |rows| && (i < a || b <= i) && rows[i] == r;
    forall j | a <= j < b ensures rows[j].id != id {
      if i < j { assert DifferentIds(rows, i, j); } else { assert DifferentIds(rows, j, i); }
    }
  }

  // The rows with the ids of a page, sorted again, are the page.
  lemma PageAgain(db: Db, cx: Context, rows: seq<Row>, sorts: seq<G.SortSpec>,
                  p: Row -> bool, a: nat, b: nat, page: seq<Row>)
    requires SortsIn(cx, sorts) && UniqueIds(rows)
    requires a <= b <= |SortRows(db, cx, Keep(rows, p), sorts)| && page == SortRows(db, cx, Keep(rows, p), sorts)[a..b]
    ensures SortRows(db, cx, G.WithIds(rows, IdsOf(page)), sorts) == page
  {
    var all := SortRows(db, cx, rows, sorts);
    var q := HasId(IdsOf(page));
    WithIdsIsKeep(rows, IdsOf(page));
    SortKeep(db, cx, rows, sorts, p);
    SortKeep(db, cx, rows, sorts, q);
    SortUnique(db, cx, rows, sorts);
    KeepUnique(all, p);
    PageRowsPass(all, p, a, b);
    KeepTwice(all, p, q);
    KeepSlice(Keep(all, p), a, b);
  }

  lemma PageRowsPass(all: seq<Row>, p: Row -> bool, a: nat, b: nat)
    requires UniqueIds(all) && a <= b <= |Keep(all, p)|
    ensures forall r | r in all && HasId(IdsOf(Keep(all, p)[a..b]))(r) :: p(r)
  {
    var page := Keep(all, p)[a..b];
    KeepMembers(all, p);
    forall r | r in all && HasId(IdsOf(page))(r) ensures p(r) {
      InIds(page, r.id);
      var s :| s in page && s.id == r.id;
      assert s in Keep(all, p);
      SameIdSameRow(all, r, s);
    }
  }

  lemma {:induction false} IdRowsAt(rows: seq<Row>, i: nat)
    ensures |G.IdRows(rows)| == |rows|
    ensures i < |rows| ==> G.IdRows(rows)[i] == [Str(rows[i].id)]
  {
    if rows != [] { IdRowsAt(rows[1..], if i == 0 then 0 else i - 1); }
  }

  lemma {:induction false} AnswersAt(db: Db, cx: Context, rows: seq<Row>, fields: seq<QField>, i: nat)
    requires ContextOk(cx) && forall f | f in fields :: f.table < |cx.tree|
    ensures |Answers(db, cx, rows, fields)| == |rows|
    ensures i < |rows| ==> Answers(db, cx, rows, fields)[i] == Answer(db, cx, rows[i], fields)
    decreases |rows|
  {
    if rows != [] { AnswersAt(db, cx, rows[1..], fields, if i == 0 then 0 else i - 1); }
  }

  // The answer of the by-ids query when its sort columns are in scope: the rows with the ids, ranked.
  lemma RowsComeRanked(db: Db, cx: Context, q: Query, params: Params, order: seq<nat>, fields: seq<QField>,
                       ids: seq<string>, sorts: seq<G.SortSpec>)
    requires DbOk(db) && SortsIn(cx, sorts) && G.FieldsIn(cx.tree, fields)
    requires G.ByIdsShape(cx, q, params, order, fields, ids) && q.order == G.SortKeys(cx, sorts) && Scoped(q)
    ensures Eval(db, q, params) == Answers(db, cx, SortRows(db, cx, G.WithIds(Rows(db, q.table), ids), sorts), fields)
  {
    var rows := Rows(db, q.table);
    G.RowsAreRight(cx, q, params, order, fields, ids, sorts);
    G.ByIdsSmartBound(cx, order, params, ids);
    forall i: nat | i < |ids| ensures Param(params, G.IdName(i)) == Str(ids[i]) {
      G.IdParamsAt(SmartParams(cx, order), ids, i);
    }
    ResultIs(db, cx, q, order, params);
    G.KeptByIds(db, cx, order, params, ids, rows);
    forall s | s in sorts ensures s.qf.table == 0 || s.qf.table in order {
      assert s.qf.table in G.Chains(cx.tree, fields) + {0};
      if s.qf.table != 0 { assert s.qf.table in Members(order); }
    }
    SortedEnvironments(db, cx, G.WithIds(rows, ids), order, sorts);
    ProjectAllIsAnswers(db, cx, SortRows(db, cx, G.WithIds(rows, ids), sorts), order, fields);
  }

  lemma PageIdAt(rows: seq<Row>, limit: nat, offset: nat, i: nat)
    requires i < |Page(rows, limit, offset)|
    ensures |Page(G.IdRows(rows), limit, offset)| == |Page(rows, limit, offset)|
    ensures Page(G.IdRows(rows), limit, offset)[i] == [Str(Page(rows, limit, offset)[i].id)]
  {
    IdRowsAt(rows, Min(offset, |rows|) + i);
  }

  lemma PageOfIds(rows: seq<Row>, limit: nat, offset: nat, page: seq<seq<Value>>, ids: seq<string>)
    requires page == Page(G.IdRows(rows), limit, offset)
    requires |ids| == |page| && forall i | 0 <= i < |ids| :: page[i] == [Str(ids[i])]
    ensures IdsOf(Page(rows, limit, offset)) == ids
  {
    IdRowsAt(rows, 0);
    var shown := Page(rows, limit, offset);
    assert |shown| == |page|;
    forall i | 0 <= i < |ids| ensures shown[i].id == ids[i] {
      PageIdAt(rows, limit, offset, i);
      assert [Str(ids[i])][0] == [Str(shown[i].id)][0];
    }
  }

  // The rows of a page: a slice of the passing rows, ranked.
  ghost function Shown(db: Db, cx: Context, filters: seq<G.FilterSpec>, sorts: seq<G.SortSpec>, limit: nat,
                       offset: nat): seq<Row>
    requires SortsIn(cx, sorts) && G.Indexed(cx, G.Compiled(filters))
  {
    Page(SortRows(db, cx, G.PassingRows(db, cx, filters), sorts), limit, offset)
  }

  // The ids fetched for a page are those of its rows.
  lemma PageIds(db: Db, cx: Context, q: Query, params: Params, order: seq<nat>, filters: seq<G.FilterSpec>,
                sorts: seq<G.SortSpec>, limit: nat, offset: nat, page: seq<seq<Value>>, ids: seq<string>)
    requires DbOk(db) && G.FilterQuery(cx, q, params, order, filters) && Scoped(q)
    requires SortsIn(cx, sorts) && q.order == G.SortKeys(cx, sorts)
    requires q.paged && PageAsked(params, limit, offset) && Fetches(db, q, params, page)
    requires |ids| == |page| && forall i | 0 <= i < |ids| :: page[i] == [Str(ids[i])]
    ensures ids == IdsOf(Shown(db, cx, filters, sorts, limit, offset))
  {
    IdsComeRanked(db, cx, q, params, order, filters, sorts);
    G.FetchesThePage(db, q, params, limit, offset, page);
    PageOfIds(SortRows(db, cx, G.PassingRows(db, cx, filters), sorts), limit, offset, page, ids);
  }

  lemma AnswersOfPage(db: Db, cx: Context, rows: seq<Row>, shown: seq<Row>, fields: seq<QField>, i: nat)
    requires ContextOk(cx) && G.FieldsIn(cx.tree, fields)
    requires UniqueIds(rows) && i < |shown| && shown[i] in rows
    ensures Lookup(rows, Str(IdsOf(shown)[i])) == Some(shown[i])
    ensures |Answers(db, cx, shown, fields)| == |shown|
    ensures Answers(db, cx, shown, fields)[i] == Answer(db, cx, shown[i], fields)
  {
    LookupListed(rows, shown[i]);
    AnswersAt(db, cx, shown, fields, i);
  }

  ghost function PassingTest(db: Db, cx: Context, filters: seq<G.FilterSpec>): Row -> bool
    requires ContextOk(cx) && G.Indexed(cx, G.Compiled(filters))
  {
    PassesAll(db, cx, G.Compiled(filters), F.Merge(G.OperandLists(filters)))
  }

  lemma PassingRowsKept(db: Db, cx: Context, filters: seq<G.FilterSpec>)
    requires ContextOk(cx) && G.Indexed(cx, G.Compiled(filters))
    ensures G.PassingRows(db, cx, filters) == Keep(Rows(db, cx.tree[0].table), PassingTest(db, cx, filters))
  {
    PassingIsKeep(db, cx, Rows(db, cx.tree[0].table), G.Compiled(filters), F.Merge(G.OperandLists(filters)));
  }

  // The ids of a page fetch its rows again in order.
  lemma PageShown(db: Db, cx: Context, filters: seq<G.FilterSpec>, sorts: seq<G.SortSpec>, limit: nat, offset: nat)
    requires DbOk(db) && SortsIn(cx, sorts) && G.Indexed(cx, G.Compiled(filters))
    ensures var shown := Shown(db, cx, filters, sorts, limit, offset);
            SortRows(db, cx, G.WithIds(Rows(db, cx.tree[0].table), IdsOf(shown)), sorts) == shown
  {
    var rows := Rows(db, cx.tree[0].table);
    var sorted := SortRows(db, cx, G.PassingRows(db, cx, filters), sorts);
    var from := Min(offset, |sorted|);
    assert UniqueIds(rows);
    PassingRowsKept(db, cx, filters);
    PageAgain(db, cx, rows, sorts, PassingTest(db, cx, filters), from, Min(from + limit, |sorted|),
              Page(sorted, limit, offset));
  }

  // And they are rows of the table.
  lemma PageListed(db: Db, cx: Context, filters: seq<G.FilterSpec>, sorts: seq<G.SortSpec>, limit: nat, offset: nat,
                   i: nat)
    requires DbOk(db) && SortsIn(cx, sorts) && G.Indexed(cx, G.Compiled(filters))
    requires i < |Shown(db, cx, filters, sorts, limit, offset)|
    ensures Shown(db, cx, filters, sorts, limit, offset)[i] in Rows(db, cx.tree[0].table)
  {
    var passing := G.PassingRows(db, cx, filters);
    var sorted := SortRows(db, cx, passing, sorts);
    PassingRowsKept(db, cx, filters);
    KeepMembers(Rows(db, cx.tree[0].table), PassingTest(db, cx, filters));
    SortRowsRanks(db, cx, passing, sorts);
    SameMembers(sorted, passing);
    assert sorted[Min(offset, |sorted|) + i] in sorted;
  }

  // Row i of the by-ids answer is the record with the i-th id of the page: the pairing by position that
  // a record set relies on is right whenever the sort columns are in scope.
  lemma PageLoadsInOrder(db: Db, cx: Context, filters: seq<G.FilterSpec>, sorts: seq<G.SortSpec>, limit: nat,
                         offset: nat, ids: seq<string>, fields: seq<QField>, q: Query, params: Params, order: seq<nat>)
    requires DbOk(db) && SortsIn(cx, sorts) && G.FieldsIn(cx.tree, fields) && G.Indexed(cx, G.Compiled(filters))
    requires ids == IdsOf(Shown(db, cx, filters, sorts, limit, offset))
    requires G.ByIdsShape(cx, q, params, order, fields, ids) && q.order == G.SortKeys(cx, sorts) && Scoped(q)
    ensures |Eval(db, q, params)| == |ids|
    ensures forall i | 0 <= i < |ids| ::
              var found := Lookup(Rows(db, cx.tree[0].table), Str(ids[i]));
              found.Some? && Eval(db, q, params)[i] == Answer(db, cx, found.value, fields)
  {
    var rows := Rows(db, cx.tree[0].table);
    var shown := Shown(db, cx, filters, sorts, limit, offset);
    RowsComeRanked(db, cx, q, params, order, fields, ids, sorts);
    PageShown(db, cx, filters, sorts, limit, offset);
    AnswersAt(db, cx, shown, fields, 0);
    assert UniqueIds(rows);
    forall i | 0 <= i < |ids|
      ensures Lookup(rows, Str(ids[i])) == Some(shown[i])
      ensures Eval(db, q, params)[i] == Answer(db, cx, shown[i], fields)
    {
      PageListed(db, cx, filters, sorts, limit, offset, i);
      AnswersOfPage(db, cx, rows, shown, fields, i);
    }
  }
}
