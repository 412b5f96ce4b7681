// What the generated statements say when they are read back word by word.
module ReadBack {
  import opened Ordering
  import opened Text
  import opened QTree
  import opened Sql
  import opened Navigation
  import opened QueryMeaning
  import opened Editing
  import G = SqlGenius
  import opened Tokens
  import opened Statements
  import FT = FilterTheorems
  import opened Lexing
  import opened Reading
  import opened StatementText

  // ---- queries ---------------------------------------------------------------------------------------------

  // All names of the model are identifiers, and none is empty.
  predicate NamedContext(cx: Context) {
    forall i | 0 <= i < |cx.tree| :: GoodName(cx.tree[i].table) && GoodName(cx.tree[i].alias) && GoodName(cx.tree[i].fk)
  }

  predicate NamedFields(fields: seq<QField>) { forall f | f in fields :: GoodName(f.field) }

  lemma FieldIsGood(cx: Context, qf: QField)
    requires NamedContext(cx) && qf.table < |cx.tree| && GoodName(qf.field)
    ensures GoodColumn(FieldColumn(cx, qf))
  {}

  lemma {:induction false} GoodColumns(cx: Context, fields: seq<QField>)
    requires NamedContext(cx) && NamedFields(fields) && G.FieldsIn(cx.tree, fields)
    ensures |Columns(cx, fields)| == |fields| && forall i | 0 <= i < |fields| :: GoodColumn(Columns(cx, fields)[i])
  {
    if fields != [] {
      assert fields[0] in fields;
      FieldIsGood(cx, fields[0]);
      GoodColumns(cx, fields[1..]);
    }
  }

  lemma JoinIsGood(cx: Context, n: nat)
    requires NamedContext(cx) && 1 <= n < |cx.tree| && cx.tree[n].parent.Some? && cx.tree[n].parent.value < n
    ensures GoodJoin(JoinOf(cx, n))
  {
    FieldIsGood(cx, QField(cx.tree[n].parent.value, cx.tree[n].fk));
  }

  lemma {:induction false} GoodJoins(cx: Context, order: seq<nat>)
    requires ContextOk(cx) && NamedContext(cx) && InTree(cx, order)
    ensures forall i | 0 <= i < |JoinsOf(cx, order)| :: GoodJoin(JoinsOf(cx, order)[i])
    decreases |order|
  {
    if order != [] {
      GoodJoins(cx, order[..|order| - 1]);
      JoinIsGood(cx, order[|order| - 1]);
    }
  }

  // gen_select_one says: these columns of these tables, joined on these columns or edited links, of the row
  // with the id.
  lemma SelectOneIsRead(cx: Context, q: Query, params: Params, order: seq<nat>, fields: seq<QField>, id: string)
    requires ContextOk(cx) && NamedContext(cx) && NamedFields(fields) && G.FieldsIn(cx.tree, fields) && fields != []
    requires G.SelectOneShape(cx, q, params, order, fields, id)
    ensures ReadSelect(Lex(Print(Render(SelectFields(q), q)))) == Some(Said(Fields(q.columns), q))
  {
    GoodColumns(cx, fields);
    GoodJoins(cx, order);
    assert GoodName(cx.tree[0].table) && GoodName(cx.tree[0].alias) && cx.tree[0].alias == MASTER;
    FieldsAreRead(q);
  }

  // gen_select_by_ids says: the same columns and joins, of the rows with the ids, in the order of the sorts.
  lemma SelectByIdsIsRead(cx: Context, q: Query, params: Params, order: seq<nat>, fields: seq<QField>,
                          ids: seq<string>)
    requires ContextOk(cx) && NamedContext(cx) && NamedFields(fields) && G.FieldsIn(cx.tree, fields) && fields != []
    requires G.ByIdsShape(cx, q, params, order, fields, ids) && ids != []
    requires forall i | 0 <= i < |q.order| :: GoodColumn(q.order[i].column)
    ensures ReadSelect(Lex(Print(Render(SelectFields(q), q)))) == Some(Said(Fields(q.columns), q))
  {
    GoodColumns(cx, fields);
    GoodJoins(cx, order);
    GoodIdNames(|ids|);
    assert GoodName(cx.tree[0].table) && GoodName(cx.tree[0].alias) && cx.tree[0].alias == MASTER;
    FieldsAreRead(q);
  }

  // No filter is empty or made of bars, and every filtered field has a name.
  predicate NamedFilters(cx: Context, filters: seq<G.FilterSpec>) {
    forall f | f in filters :: f.qf.table < |cx.tree| && GoodName(f.qf.field) && !FT.BarsOnly(f.value)
  }

  lemma {:induction false} ClauseColumns(cx: Context, clauses: seq<FieldClause>)
    requires NamedContext(cx) && forall c | c in clauses :: c.qf.table < |cx.tree| && GoodName(c.qf.field)
    ensures forall i | 0 <= i < |ClausesOf(cx, clauses)| :: GoodColumn(ClausesOf(cx, clauses)[i].column)
  {
    if clauses != [] {
      assert clauses[0] in clauses;
      FieldIsGood(cx, clauses[0].qf);
      ClauseColumns(cx, clauses[1..]);
    }
  }

  lemma {:induction false} CompiledNames(cx: Context, filters: seq<G.FilterSpec>)
    requires NamedFilters(cx, filters)
    ensures forall c | c in G.Compiled(filters) :: c.qf.table < |cx.tree| && GoodName(c.qf.field)
  {
    if filters != [] {
      assert filters[|filters| - 1] in filters;
      CompiledNames(cx, filters[..|filters| - 1]);
    }
  }

  lemma GoodClauses(cx: Context, filters: seq<G.FilterSpec>)
    requires NamedContext(cx) && NamedFilters(cx, filters)
    ensures G.Indexed(cx, G.Compiled(filters))
    ensures GoodWhere(FilterWhere(cx, G.Compiled(filters))) && PlainWhere(FilterWhere(cx, G.Compiled(filters)))
  {
    FT.ClausesPrintableIff(cx, filters);
    CompiledNames(cx, filters);
    ClauseColumns(cx, G.Compiled(filters));
    FT.PlainClauses(cx, filters);
  }

  lemma FilterQueryIsGood(sel: Selection, cx: Context, q: Query, params: Params, order: seq<nat>,
                          filters: seq<G.FilterSpec>)
    requires G.FilterQuery(cx, q, params, order, filters) && NamedContext(cx) && NamedFilters(cx, filters)
    requires GoodSelection(sel) && forall i | 0 <= i < |q.order| :: GoodColumn(q.order[i].column)
    ensures GoodSelect(Said(sel, q)) && PlainQuery(q)
  {
    GoodJoins(cx, order);
    GoodClauses(cx, filters);
    assert GoodName(cx.tree[0].table) && GoodName(cx.tree[0].alias) && cx.tree[0].alias == MASTER;
    assert GoodColumn(IdColumn());
  }

  // gen_select_count says: the number of master rows that pass every filter.
  lemma CountIsReadBack(cx: Context, q: Query, params: Params, order: seq<nat>, filters: seq<G.FilterSpec>)
    requires G.FilterQuery(cx, q, params, order, filters) && q.order == []
    requires NamedContext(cx) && NamedFilters(cx, filters)
    ensures ReadSelect(Lex(Print(Render(SelectCount(), q)))) == Some(Said(CountOf(IdColumn()), q))
  {
    FilterQueryIsGood(CountOf(IdColumn()), cx, q, params, order, filters);
    CountIsRead(q);
  }

  lemma {:induction false} GoodKeys(cx: Context, sorts: seq<G.SortSpec>)
    requires NamedContext(cx) && forall s | s in sorts :: s.qf.table < |cx.tree| && GoodName(s.qf.field)
    ensures forall i | 0 <= i < |G.SortKeys(cx, sorts)| :: GoodColumn(G.SortKeys(cx, sorts)[i].column)
  {
    if sorts != [] {
      assert sorts[|sorts| - 1] in sorts;
      GoodKeys(cx, sorts[..|sorts| - 1]);
      FieldIsGood(cx, sorts[|sorts| - 1].qf);
    }
  }

  // gen_select_ids says: the ids of those rows, in the order of the sorts, by pages.
  lemma IdsAreReadBack(cx: Context, q: Query, params: Params, order: seq<nat>, filters: seq<G.FilterSpec>,
                       sorts: seq<G.SortSpec>)
    requires G.FilterQuery(cx, q, params, order, filters) && NamedContext(cx) && NamedFilters(cx, filters)
    requires forall s | s in sorts :: s.qf.table < |cx.tree| && GoodName(s.qf.field)
    requires q.order == G.SortKeys(cx, sorts)
    ensures ReadSelect(Lex(Print(Render(SelectIds(), q)))) == Some(Said(Just(IdColumn()), q))
  {
    GoodKeys(cx, sorts);
    FilterQueryIsGood(Just(IdColumn()), cx, q, params, order, filters);
    IdsAreRead(q);
  }

  // ---- changes ---------------------------------------------------------------------------------------------

  // The columns a statement assigns, each with the name of the placeholder that stands for its value.
  function PairsOf(c: ChangeStatement): seq<Assignment> {
    match c
    case Inserts(_, columns, names) => Zip(columns, names)
    case Updates(_, pairs, _, _) => pairs
    case Deletes(_, _) => []
  }

  function Zip(columns: seq<string>, names: seq<string>): seq<Assignment> {
    if columns == [] || names == [] then []
    else [Assignment(columns[0], names[0])] + Zip(columns[1..], names[1..])
  }

  function Stores(pairs: seq<Assignment>, params: Params): map<string, Value> {
    if pairs == [] then map[]
    else
      var last := pairs[|pairs| - 1];
      Stores(pairs[..|pairs| - 1], params)[last.column := Param(params, last.name)]
  }

  lemma {:induction false} ZipAt(columns: seq<string>)
    ensures |Zip(columns, columns)| == |columns|
    ensures forall i | 0 <= i < |columns| :: Zip(columns, columns)[i] == Assignment(columns[i], columns[i])
  {
    if columns != [] { ZipAt(columns[1..]); }
  }

  lemma {:induction false} StoresAssigned(columns: seq<string>, params: Params)
    ensures Stores(SamePairs(columns), params) == Assigned(columns, params)
  {
    if columns != [] {
      var init, c := columns[..|columns| - 1], columns[|columns| - 1];
      StoresAssigned(init, params);
      assert columns == init + [c];
      SamePairsSnoc(init, c);
      StoresSnoc(SamePairs(init), Assignment(c, c), params);
      AssignedSnoc(init, c, params);
    }
  }

  lemma StoresSnoc(pairs: seq<Assignment>, a: Assignment, params: Params)
    ensures Stores(pairs + [a], params) == Stores(pairs, params)[a.column := Param(params, a.name)]
  {
    assert (pairs + [a])[..|pairs|] == pairs;
  }

  lemma AssignedSnoc(columns: seq<string>, c: string, params: Params)
    ensures Assigned(columns + [c], params) == Assigned(columns, params)[c := Param(params, c)]
  {
    assert forall x :: x in columns + [c] <==> x in columns || x == c;
  }

  // Every column of the INSERT gets the value edited for it.
  lemma InsertStoresSets(cx: Context)
    requires RecordOk(cx) && PlainRecord(cx.rfields) && GoodName(cx.tree[0].table) && Sets(cx, cx.rfields) != map[]
    ensures var c := ReadChange(Lex(Print(RenderInsert(cx.tree[0].table, WrittenColumns(cx, cx.rfields)))));
            && c.Some? && c.value.Inserts? && c.value.table == cx.tree[0].table
            && |c.value.columns| == |c.value.names|
            && Stores(PairsOf(c.value), AssignedParams(cx, cx.rfields)) == Sets(cx, cx.rfields)
  {
    var columns := WrittenColumns(cx, cx.rfields);
    RecordColumnsApart(cx);
    WrittenAreBound(cx, cx.rfields);
    AssignedAreSets(cx, cx.rfields);
    InsertIsRead(cx.tree[0].table, columns);
    ZipAt(columns);
    assert Zip(columns, columns) == SamePairs(columns);
    StoresAssigned(columns, AssignedParams(cx, cx.rfields));
  }

  // Every column of the UPDATE gets the value edited for it, in the row whose id is given.
  lemma UpdateStoresSets(cx: Context, id: string)
    requires RecordOk(cx) && PlainRecord(cx.rfields) && GoodName(cx.tree[0].table) && Sets(cx, cx.rfields) != map[]
    ensures var c := ReadChange(Lex(Print(RenderUpdate(cx.tree[0].table, WrittenColumns(cx, cx.rfields)))));
            var params := AssignedParams(cx, cx.rfields)["id" := id];
            && c.Some? && c.value.Updates? && c.value.table == cx.tree[0].table && c.value.alias == MASTER
            && Param(params, c.value.id) == Str(id)
            && Stores(PairsOf(c.value), params) == Sets(cx, cx.rfields)
  {
    var columns, params := WrittenColumns(cx, cx.rfields), AssignedParams(cx, cx.rfields)["id" := id];
    RecordColumnsApart(cx);
    WrittenAreBound(cx, cx.rfields);
    AssignedAreSets(cx, cx.rfields);
    UpdateIsRead(cx.tree[0].table, columns);
    StoresAssigned(columns, params);
    assert Assigned(columns, params) == Assigned(columns, AssignedParams(cx, cx.rfields));
  }

  // The DELETE names the rows with the given ids, in order.
  lemma DeleteNamesIds(table: string, ids: seq<string>)
    requires GoodName(table) && ids != []
    ensures var c := ReadChange(Lex(Print(DeleteByIds(table, ids))));
            && c.Some? && c.value.Deletes? && c.value.table == table && |c.value.names| == |ids|
            && forall i: nat | i < |ids| :: Param(G.IdParams(map[], ids), c.value.names[i]) == Str(ids[i])
  {
    DeleteIsRead(table, ids);
    GoodIdNames(|ids|);
    forall i: nat | i < |ids| ensures Param(G.IdParams(map[], ids), G.IdNames(|ids|)[i]) == Str(ids[i]) {
      G.IdParamsAt(map[], ids, i);
    }
  }
}
