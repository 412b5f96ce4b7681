// SqlGenius as written: used_tables and namedParams are filled and emptied in place while the
// clauses are put together.
module SqlGenius {
  import opened Ordering
  import opened Lists
  import opened Text
  import opened QTree
  import opened Sql
  import opened Navigation
  import opened Schedule
  import opened QueryMeaning
  import opened Editing
  import F = Filter

  datatype FilterSpec = FilterSpec(qf: QField, value: string)

  datatype SortSpec = SortSpec(qf: QField, desc: bool)

  // The part of a Recordset that queries depend on.
  datatype Recordset = Recordset(filters: seq<FilterSpec>, sorts: seq<SortSpec>, limit: nat, offset: nat)

  datatype Gen = Sql(q: Query) | Write(change: Change) | NoText | NotARecordset | NoId

  predicate FieldsIn(tree: Tree, fields: seq<QField>) {
    forall f | f in fields :: f.table < |tree|
  }

  predicate RecordsetIn(tree: Tree, rs: Recordset) {
    && (forall f | f in rs.filters :: f.qf.table < |tree|)
    && (forall s | s in rs.sorts :: s.qf.table < |tree|)
  }

  // What FilterParser makes of a filter.
  function Compile(f: FilterSpec): FieldClause {
    F.NonEmptyParts(Split(f.value, '|'));
    FieldClause(f.qf, F.AtomsFor(F.Segments(f.value)))
  }

  function OperandsOf(f: FilterSpec): seq<string> {
    F.NonEmptyParts(Split(f.value, '|'));
    F.AllOperands(F.Segments(f.value))
  }

  function Compiled(fs: seq<FilterSpec>): seq<FieldClause> {
    if fs == [] then [] else Compiled(fs[..|fs| - 1]) + [Compile(fs[|fs| - 1])]
  }

  function OperandLists(fs: seq<FilterSpec>): seq<seq<string>> {
    if fs == [] then [] else OperandLists(fs[..|fs| - 1]) + [OperandsOf(fs[|fs| - 1])]
  }

  function SortKeys(cx: Context, sorts: seq<SortSpec>): seq<SortKey>
    requires forall s | s in sorts :: s.qf.table < |cx.tree|
  {
    if sorts == [] then []
    else SortKeys(cx, sorts[..|sorts| - 1]) + [SortKey(FieldColumn(cx, sorts[|sorts| - 1].qf), sorts[|sorts| - 1].desc)]
  }

  ghost function Chains(tree: Tree, fields: seq<QField>): (r: set<nat>)
    requires Shaped(tree) && FieldsIn(tree, fields)
    ensures Closed(tree, r)
    ensures forall f | f in fields :: f.table in r
  {
    if fields == [] then {} else
      assert fields == fields[..|fields| - 1] + [fields[|fields| - 1]];
      Chains(tree, fields[..|fields| - 1]) + Chain(tree, fields[|fields| - 1].table)
  }

  class SqlGenius {
    const cx: Context
    const recordset: Option<Recordset>
    const id: Option<string>                 // rkey.srcRField, None when absent or null
    var namedParams: Params
    var usedTables: map<string, nat>
    var joins: seq<Join>                     // the FROM clause so far
    ghost var pending: set<nat>              // the tables in usedTables
    ghost var order: seq<nat>                // the tables joined so far

    ghost predicate Fixed()
    {
      ContextOk(cx) && (recordset.Some? ==> RecordsetIn(cx.tree, recordset.value))
    }

    constructor (cx: Context, recordset: Option<Recordset>, id: Option<string>)
      requires ContextOk(cx) && (recordset.Some? ==> RecordsetIn(cx.tree, recordset.value))
      ensures Fixed() && this.cx == cx && this.recordset == recordset && this.id == id
    {
      this.cx, this.recordset, this.id := cx, recordset, id;
      namedParams, usedTables, joins := map[], map[], [];
      pending, order := {}, [];
    }

    // ---- collecting tables -----------------------------------------------------------------------------

    // used_tables.try_emplace(pqt->alias, pqt)
    method AddTable(n: nat)
      requires Fixed() && Holds(cx.tree, usedTables, pending) && n < |cx.tree|
      modifies this`usedTables, this`pending
      ensures Holds(cx.tree, usedTables, pending) && pending == old(pending) + {n}
    {
      HoldsAdded(cx.tree, usedTables, pending, n);
      if cx.tree[n].alias !in usedTables {
        usedTables := usedTables[cx.tree[n].alias := n];
      }
      pending := pending + {n};
    }

    // while (pqt) { try_emplace; pqt = pqt->ppqt; }
    method AddChain(n: nat)
      requires Fixed() && Holds(cx.tree, usedTables, pending) && n < |cx.tree|
      modifies this`usedTables, this`pending
      ensures Holds(cx.tree, usedTables, pending) && pending == old(pending) + Chain(cx.tree, n)
    {
      var cur: nat := n;
      while cur != 0
        invariant cur <= n && Holds(cx.tree, usedTables, pending)
        invariant pending + Chain(cx.tree, cur) == old(pending) + Chain(cx.tree, n)
        decreases cur
      {
        AddTable(cur);
        cur := cx.tree[cur].parent.value;
      }
      AddTable(cur);
    }

    method AddFields(fields: seq<QField>)
      requires Fixed() && Holds(cx.tree, usedTables, pending) && FieldsIn(cx.tree, fields)
      modifies this`usedTables, this`pending
      ensures Holds(cx.tree, usedTables, pending) && pending == old(pending) + Chains(cx.tree, fields)
    {
      for i := 0 to |fields|
        invariant Holds(cx.tree, usedTables, pending) && FieldsIn(cx.tree, fields[..i])
        invariant pending == old(pending) + Chains(cx.tree, fields[..i])
      {
        AddChain(fields[i].table);
        assert fields[..i + 1][..i] == fields[..i];
      }
      assert fields[..|fields|] == fields;
    }

    // The master table alone; namedParams.clear() comes first in every generator.
    method Start()
      requires Fixed()
      modifies this
      ensures Holds(cx.tree, usedTables, pending) && pending == {0} && namedParams == map[]
    {
      namedParams := map[];
      usedTables, pending := map[], {};
      AddTable(0);
    }

    // ---- FROM ------------------------------------------------------------------------------------------

    // The recursive helper build_joins: ancestors first, then this table if it still waits.
    method BuildJoins(n: nat, ghost base: Params, ghost all: set<nat>)
      requires Joining(cx, base, all, pending, order, joins, namedParams) && Holds(cx.tree, usedTables, pending)
      requires n in all
      modifies this`namedParams, this`usedTables, this`joins, this`pending, this`order
      ensures Joining(cx, base, all, pending, order, joins, namedParams) && Holds(cx.tree, usedTables, pending)
      ensures n !in pending && pending <= old(pending) && usedTables.Keys <= old(usedTables).Keys
      ensures cx.tree[n].alias !in usedTables
      decreases n
    {
      var p := cx.tree[n].parent.value;
      if p != 0 {
        BuildJoins(p, base, all);
      }
      assert p != 0 ==> p in Members(order);
      HoldsAdded(cx.tree, usedTables, pending, n);
      if cx.tree[n].alias !in usedTables { return; }
      WriteJoin(n, base, all);
    }

    method WriteJoin(n: nat, ghost base: Params, ghost all: set<nat>)
      requires Joining(cx, base, all, pending, order, joins, namedParams) && Holds(cx.tree, usedTables, pending)
      requires n in pending && ParentJoined(cx, order, n)
      modifies this`namedParams, this`usedTables, this`joins, this`pending, this`order
      ensures Joining(cx, base, all, pending, order, joins, namedParams) && Holds(cx.tree, usedTables, pending)
      ensures pending == old(pending) - {n} && usedTables == old(usedTables) - {cx.tree[n].alias}
    {
      JoinWritten(cx, base, all, pending, order, joins, namedParams, n);
      HoldsErased(cx.tree, usedTables, pending, n);
      joins := joins + [JoinOf(cx, n)];
      var edited := Edited(cx.rfields, QField(cx.tree[n].parent.value, cx.tree[n].fk));
      if edited.Some? {
        namedParams := namedParams[SmartName(cx.tree[n].alias) := edited.value];
      }
      usedTables := usedTables - {cx.tree[n].alias};
      pending := pending - {n};
      order := order + [n];
    }

    // sql_clause_from: take the first alias of the map until it is empty.
    method ClauseFrom()
      requires Fixed() && Holds(cx.tree, usedTables, pending) && 0 in pending && Closed(cx.tree, pending)
      modifies this`namedParams, this`usedTables, this`joins, this`pending, this`order
      ensures InTree(cx, order) && Scheduled(cx, order) && Members(order) == old(pending) - {0}
      ensures joins == JoinsOf(cx, order) && namedParams == old(namedParams) + SmartParams(cx, order)
    {
      ghost var base, all := namedParams, pending - {0};
      HoldsErased(cx.tree, usedTables, pending, 0);
      usedTables := usedTables - {cx.tree[0].alias};
      pending := pending - {0};
      joins, order := [], [];
      assert all + {0} == old(pending);
      assert base + map[] == base;
      while usedTables != map[]
        invariant Joining(cx, base, all, pending, order, joins, namedParams) && Holds(cx.tree, usedTables, pending)
        decreases usedTables.Keys
      {
        LeastAlias(usedTables);
        var first :| first in usedTables && forall a | a in usedTables && a != first :: StrLess(first, a);
        BuildJoins(usedTables[first], base, all);
      }
      NothingHeld(cx.tree, pending);
    }

    // sql_clause_where_filters: one parser per filter, its parameters inserted where still free.
    method WhereFilters(filters: seq<FilterSpec>) returns (w: Where)
      requires Fixed() && forall f | f in filters :: f.qf.table < |cx.tree|
      modifies this`namedParams
      ensures Indexed(cx, Compiled(filters)) && w == FilterWhere(cx, Compiled(filters))
      ensures namedParams == F.Merge(OperandLists(filters)) + old(namedParams)
    {
      var clauses: seq<Clause> := [];
      assert map[] + namedParams == namedParams;
      for i := 0 to |filters|
        invariant Indexed(cx, Compiled(filters[..i])) && clauses == ClausesOf(cx, Compiled(filters[..i]))
        invariant namedParams == F.Merge(OperandLists(filters[..i])) + old(namedParams)
      {
        var parser := new F.FilterParser(filters[i].value);
        AddedFilter(cx, filters, i);
        MergedFirst(parser.params, F.Merge(OperandLists(filters[..i])), old(namedParams));
        clauses := clauses + [Clause(FieldColumn(cx, filters[i].qf), parser.atoms)];
        namedParams := parser.params + namedParams;
      }
      assert filters[..|filters|] == filters;
      CompiledLength(filters);
      w := if |filters| == 0 then Everything else All(clauses);
    }

    // ---- the generators --------------------------------------------------------------------------------

    method GenSelectOne(fields: seq<QField>) returns (r: Gen)
      requires Fixed() && FieldsIn(cx.tree, fields)
      modifies this
      ensures r.NoText? <==> fields == []
      ensures r.NoId? <==> fields != [] && id == None
      ensures fields != [] && id.Some? ==> r.Sql?
      ensures r.Sql? ==> Scoped(r.q) && LoadsRecord(cx, r.q, namedParams, fields, id.value)
      ensures r.Sql? ==> SelectOneShape(cx, r.q, namedParams, order, fields, id.value)
    {
      if |fields| == 0 { return NoText; }
      FromFields(fields);
      if id == None { return NoId; }
      var q := Query(Columns(cx, fields), cx.tree[0].table, MASTER, joins, IdIs(MASTER, "id"), [], false);
      namedParams := namedParams["id" := id.value];
      SelectOneLoads(cx, q, namedParams, order, fields, id.value);
      r := Sql(q);
    }

    // build_clauses_from_fields and sql_clause_from.
    method FromFields(fields: seq<QField>)
      requires Fixed() && FieldsIn(cx.tree, fields)
      modifies this
      ensures FromShape(cx, joins, order, Chains(cx.tree, fields) - {0}) && namedParams == SmartParams(cx, order)
      ensures forall f | f in fields :: f.table == 0 || f.table in order
    {
      Start();
      AddFields(fields);
      ClauseFrom();
      assert map[] + SmartParams(cx, order) == SmartParams(cx, order);
      assert {0} + Chains(cx.tree, fields) - {0} == Chains(cx.tree, fields) - {0};
      FieldsReached(cx, fields, order);
    }

    // The number of master rows that pass the filters; only the filter tables are joined.
    method GenSelectCount() returns (r: Gen)
      requires Fixed()
      modifies this
      ensures r == NotARecordset <==> recordset.None?
      ensures recordset.Some? ==> r.Sql?
      ensures r.Sql? ==> Scoped(r.q) && CountsPassing(cx, r.q, namedParams, recordset.value.filters)
      ensures r.Sql? ==> FilterQuery(cx, r.q, namedParams, order, recordset.value.filters)
      ensures r.Sql? ==> !r.q.paged && r.q.order == []
    {
      if recordset == None { return NotARecordset; }
      var rs := recordset.value;
      var w := FromAndWhere(rs, FilterFields(rs.filters));
      var q := Query([Column(MASTER, "id")], cx.tree[0].table, MASTER, joins, w, [], false);
      CountIsRight(cx, q, namedParams, order, rs.filters);
      r := Sql(q);
    }

    // Everything up to the WHERE clause, for the filter tables and possibly others.
    method FromAndWhere(rs: Recordset, fields: seq<QField>) returns (w: Where)
      requires Fixed() && recordset == Some(rs) && FieldsIn(cx.tree, fields) && FilterFields(rs.filters) <= fields
      modifies this
      ensures FilterQuery(cx, Query([Column(MASTER, "id")], cx.tree[0].table, MASTER, joins, w, [], false),
                          namedParams, order, rs.filters)
      ensures forall f | f in fields :: f.table == 0 || f.table in order
    {
      FromFields(fields);
      w := WhereFilters(rs.filters);
      CarriesBoth(cx, order, rs.filters);
      forall f | f in FilterFields(rs.filters) ensures f in fields {}
      FiltersReached(rs.filters, order);
      CompiledIndexed(cx, rs.filters, order);
    }

    // The ids of the master rows that pass, in the order asked for, one page of them.
    method GenSelectIds() returns (r: Gen)
      requires Fixed()
      modifies this
      ensures r == NotARecordset <==> recordset.None?
      ensures recordset.Some? ==> r.Sql?
      ensures r.Sql? ==> Scoped(r.q) && ListsPassing(cx, r.q, namedParams, recordset.value.filters)
      ensures r.Sql? ==> FilterQuery(cx, r.q, namedParams, order, recordset.value.filters)
      ensures r.Sql? ==> r.q.paged && PageAsked(namedParams, recordset.value.limit, recordset.value.offset)
      ensures r.Sql? ==> r.q.order == SortKeys(cx, recordset.value.sorts)
    {
      if recordset == None { return NotARecordset; }
      var rs := recordset.value;
      var w := FromAndWhere(rs, FilterFields(rs.filters) + SortFields(rs.sorts));
      var keys := ClauseSort(rs.sorts);
      ghost var front := namedParams;
      namedParams := namedParams["pg_limit" := Dec(rs.limit)];
      namedParams := namedParams["pg_offset" := Dec(rs.offset)];
      SortsReached(rs.sorts, order);
      PagedQuery(cx, Query([Column(MASTER, "id")], cx.tree[0].table, MASTER, joins, w, [], false), front, order, rs);
      r := Sql(Query([Column(MASTER, "id")], cx.tree[0].table, MASTER, joins, w, keys, true));
    }

    method ClauseSort(sorts: seq<SortSpec>) returns (keys: seq<SortKey>)
      requires Fixed() && forall s | s in sorts :: s.qf.table < |cx.tree|
      ensures keys == SortKeys(cx, sorts)
    {
      keys := [];
      for i := 0 to |sorts|
        invariant keys == SortKeys(cx, sorts[..i])
      {
        keys := keys + [SortKey(FieldColumn(cx, sorts[i].qf), sorts[i].desc)];
        assert sorts[..i + 1][..i] == sorts[..i];
      }
      assert sorts[..|sorts|] == sorts;
    }

    // The data of the rows with the given ids. Its ORDER BY mentions the sort tables without having
    // joined them for its sake.
    method GenSelectByIds(fields: seq<QField>, ids: seq<string>) returns (r: Gen)
      requires Fixed() && FieldsIn(cx.tree, fields)
      modifies this
      ensures r.NoText? <==> fields == [] || ids == []
      ensures fields != [] && ids != [] ==> r.Sql?
      ensures r.Sql? ==> LoadsRows(cx, r.q, namedParams, fields, ids)
      ensures r.Sql? ==> ByIdsShape(cx, r.q, namedParams, order, fields, ids)
      ensures r.Sql? ==> r.q.order == SortKeys(cx, if recordset.Some? then recordset.value.sorts else [])
      ensures r.Sql? ==> (Scoped(r.q) <==>
                forall s | recordset.Some? && s in recordset.value.sorts :: s.qf.table in Chains(cx.tree, fields) + {0})
    {
      if |ids| == 0 || |fields| == 0 { return NoText; }
      FromFields(fields);
      var names := BindIds(ids);
      var sorts := if recordset.Some? then recordset.value.sorts else [];
      var keys := ClauseSort(sorts);
      var q := Query(Columns(cx, fields), cx.tree[0].table, MASTER, joins, IdIn(MASTER, names), keys, false);
      RowsAreRight(cx, q, namedParams, order, fields, ids, sorts);
      r := Sql(q);
    }

    // ---- writing -----------------------------------------------------------------------------------------

    // The INSERT of the edited master fields, or no text when there are none.
    method GenInsert() returns (r: Gen)
      requires Fixed()
      modifies this
      ensures r.NoText? <==> Sets(cx, cx.rfields) == map[]
      ensures !r.NoText? ==> r == Write(InsertInto(cx.tree[0].table, WrittenColumns(cx, cx.rfields)))
      ensures !r.NoText? ==> Assigned(r.change.columns, namedParams) == Sets(cx, cx.rfields)
      ensures namedParams == AssignedParams(cx, cx.rfields)
    {
      AssignedAreSets(cx, cx.rfields);
      var columns := Assignments();
      if |columns| == 0 { return NoText; }
      r := Write(InsertInto(cx.tree[0].table, columns));
    }

    // The UPDATE of the edited master fields of the row with the id.
    method GenUpdate() returns (r: Gen)
      requires Fixed()
      modifies this
      ensures r.NoText? <==> Sets(cx, cx.rfields) == map[]
      ensures r.NoId? <==> !r.NoText? && id == None
      ensures r.Write? <==> !r.NoText? && id.Some?
      ensures r.Write? ==> r.change == UpdateById(cx.tree[0].table, WrittenColumns(cx, cx.rfields))
      ensures r.Write? ==> Assigned(r.change.columns, namedParams) == Sets(cx, cx.rfields)
      ensures r.Write? ==> namedParams == AssignedParams(cx, cx.rfields)["id" := id.value]
    {
      AssignedAreSets(cx, cx.rfields);
      var columns := Assignments();
      if |columns| == 0 { return NoText; }
      if id == None { return NoId; }
      AssignedWithId(columns, namedParams, id.value);
      namedParams := namedParams["id" := id.value];
      r := Write(UpdateById(cx.tree[0].table, columns));
    }

    // The loop both share: columns and parameters of the fields that are written.
    method Assignments() returns (columns: seq<string>)
      requires Fixed()
      modifies this`namedParams
      ensures columns == WrittenColumns(cx, cx.rfields) && namedParams == AssignedParams(cx, cx.rfields)
    {
      var rfields := cx.rfields;
      namedParams, columns := map[], [];
      for i := 0 to |rfields|
        invariant columns == WrittenColumns(cx, rfields[..i]) && namedParams == AssignedParams(cx, rfields[..i])
      {
        assert rfields[..i + 1][..i] == rfields[..i];
        if rfields[i].qf.table != 0 || !rfields[i].isModified || rfields[i].qf.field == "id" { continue; }
        var column := ColumnOf(cx, rfields[i]);
        columns := columns + [column];
        namedParams := namedParams[column := rfields[i].val];
      }
      assert rfields[..|rfields|] == rfields;
    }

    // The DELETE of the rows with the given ids, or no text when there are none.
    method GenDeleteByIds(ids: seq<string>) returns (r: Gen)
      requires Fixed()
      modifies this`namedParams
      ensures r.NoText? <==> ids == []
      ensures ids != [] ==> r == Write(DeleteIn(cx.tree[0].table, IdNames(|ids|)))
      ensures ids != [] ==> namedParams == IdParams(map[], ids)
      ensures ids != [] ==> DeletesExactly(r.change, namedParams, ids)
      ensures ids == [] ==> namedParams == old(namedParams)
    {
      if |ids| == 0 { return NoText; }
      namedParams := map[];
      var names := BindIds(ids);
      BoundIdsDelete(cx.tree[0].table, ids);
      r := Write(DeleteIn(cx.tree[0].table, names));
    }

    // namedParams["id_" + i] = ids[i], and the placeholders in order.
    method BindIds(ids: seq<string>) returns (names: seq<string>)
      modifies this`namedParams
      ensures names == IdNames(|ids|) && namedParams == IdParams(old(namedParams), ids)
    {
      names := [];
      for i := 0 to |ids|
        invariant names == IdNames(i) && namedParams == IdParams(old(namedParams), ids[..i])
      {
        names := names + [IdName(i)];
        namedParams := namedParams[IdName(i) := ids[i]];
        assert ids[..i + 1][..i] == ids[..i];
      }
      assert ids[..|ids|] == ids;
    }
  }

  ghost predicate FromShape(cx: Context, joins: seq<Join>, order: seq<nat>, nodes: set<nat>) {
    && ContextOk(cx) && InTree(cx, order) && Scheduled(cx, order)
    && Members(order) == nodes && joins == JoinsOf(cx, order)
  }

  function FilterFields(filters: seq<FilterSpec>): seq<QField> {
    seq(|filters|, i requires 0 <= i < |filters| => filters[i].qf)
  }

  function SortFields(sorts: seq<SortSpec>): seq<QField> { seq(|sorts|, i requires 0 <= i < |sorts| => sorts[i].qf) }

  function IdName(i: nat): string { "id_" + Dec(i) }

  lemma IdNameInjective(i: nat, j: nat)
    requires IdName(i) == IdName(j)
    ensures i == j
  {
    PrefixInjective("id_", Dec(i), Dec(j));
    DecInjective(i, j);
  }

  function IdNames(n: nat): seq<string> { if n == 0 then [] else IdNames(n - 1) + [IdName(n - 1)] }

  function IdParams(base: Params, ids: seq<string>): Params {
    if ids == [] then base else IdParams(base, ids[..|ids| - 1])[IdName(|ids| - 1) := ids[|ids| - 1]]
  }

  // ---- loading one record --------------------------------------------------------------------------------

  // The clauses and parameters of gen_select_one, given the order in which the tables were joined.
  ghost predicate SelectOneShape(cx: Context, q: Query, params: Params, order: seq<nat>, fields: seq<QField>,
                                 id: string)
    requires ContextOk(cx) && FieldsIn(cx.tree, fields)
  {
    && InTree(cx, order) && Scheduled(cx, order)
    && (forall f | f in fields :: f.table == 0 || f.table in order)
    && q == Query(Columns(cx, fields), cx.tree[0].table, MASTER, JoinsOf(cx, order), IdIs(MASTER, "id"), [], false)
    && params == SmartParams(cx, order)["id" := id]
  }

  // On every database: exactly the row with the id, each column what navigation reads with the
  // edited links replaced, and nothing if there is no such row.
  ghost predicate LoadsRecord(cx: Context, q: Query, params: Params, fields: seq<QField>, id: string)
    requires ContextOk(cx) && FieldsIn(cx.tree, fields)
  {
    forall db {:trigger DbOk(db)} | DbOk(db) ::
      Eval(db, q, params) == match Lookup(Rows(db, cx.tree[0].table), Str(id))
                             case Some(row) => [Answer(db, cx, row, fields)]
                             case None => []
  }

  lemma SelectOneLoads(cx: Context, q: Query, params: Params, order: seq<nat>, fields: seq<QField>, id: string)
    requires ContextOk(cx) && FieldsIn(cx.tree, fields) && SelectOneShape(cx, q, params, order, fields, id)
    ensures Scoped(q) && LoadsRecord(cx, q, params, fields, id)
  {
    SmartParamsNames(cx, order);
    SmartIsBound(cx, order, params);
    InAliases(cx, order, 0);
    QueryScoped(cx, q, order, fields);
    forall db | DbOk(db) ensures Eval(db, q, params) == match Lookup(Rows(db, cx.tree[0].table), Str(id))
                                                        case Some(row) => [Answer(db, cx, row, fields)]
                                                        case None => []
    {
      SelectOneMeans(db, cx, q, order, params, fields, id);
    }
  }

  // ---- filters: counting and listing -----------------------------------------------------------------------

  // namedParams after the FROM and WHERE clauses, up to names that neither of them uses.
  ghost predicate CarriesFilters(cx: Context, params: Params, order: seq<nat>, filters: seq<FilterSpec>)
    requires ContextOk(cx) && InTree(cx, order)
  {
    && (forall p | p in SmartParams(cx, order) :: p in params && params[p] == SmartParams(cx, order)[p])
    && (forall i: nat :: Param(params, F.FName(i)) == Param(F.Merge(OperandLists(filters)), F.FName(i)))
  }

  lemma CarriesBoth(cx: Context, order: seq<nat>, filters: seq<FilterSpec>)
    requires ContextOk(cx) && InTree(cx, order)
    ensures CarriesFilters(cx, F.Merge(OperandLists(filters)) + SmartParams(cx, order), order, filters)
  {
    SmartParamsNames(cx, order);
    forall i: nat ensures F.FName(i) !in SmartParams(cx, order) { assert F.FName(i)[0] == 'f'; }
  }

  lemma CarriesPage(cx: Context, params: Params, order: seq<nat>, filters: seq<FilterSpec>, limit: string,
                    offset: string)
    requires ContextOk(cx) && InTree(cx, order) && CarriesFilters(cx, params, order, filters)
    ensures CarriesFilters(cx, params["pg_limit" := limit]["pg_offset" := offset], order, filters)
  {
    SmartParamsNames(cx, order);
    forall i: nat ensures F.FName(i) != "pg_limit" && F.FName(i) != "pg_offset" { assert F.FName(i)[0] == 'f'; }
    assert "pg_limit"[0] == 'p' && "pg_offset"[0] == 'p';
  }

  // The master rows whose navigated values pass every filter.
  ghost function PassingRows(db: Db, cx: Context, filters: seq<FilterSpec>): seq<Row>
    requires ContextOk(cx) && Indexed(cx, Compiled(filters))
  {
    Passing(db, cx, Rows(db, cx.tree[0].table), Compiled(filters), F.Merge(OperandLists(filters)))
  }

  ghost predicate CountsOn(db: Db, cx: Context, q: Query, params: Params, filters: seq<FilterSpec>)
    requires ContextOk(cx) && Indexed(cx, Compiled(filters))
  {
    Count(Result(db, q, params), Column(MASTER, "id")) == |PassingRows(db, cx, filters)|
  }

  ghost predicate ListsOn(db: Db, cx: Context, q: Query, params: Params, filters: seq<FilterSpec>)
    requires ContextOk(cx) && Indexed(cx, Compiled(filters))
  {
    && multiset(Eval(db, q, params)) == multiset(IdRows(PassingRows(db, cx, filters)))
    && |Eval(db, q, params)| == |PassingRows(db, cx, filters)|
  }

  // On every database the query counts them.
  ghost predicate CountsPassing(cx: Context, q: Query, params: Params, filters: seq<FilterSpec>)
    requires ContextOk(cx)
  {
    && Indexed(cx, Compiled(filters))
    && forall db {:trigger CountsOn(db, cx, q, params, filters)} | DbOk(db) :: CountsOn(db, cx, q, params, filters)
  }

  // On every database the query lists their ids.
  ghost predicate ListsPassing(cx: Context, q: Query, params: Params, filters: seq<FilterSpec>)
    requires ContextOk(cx)
  {
    && Indexed(cx, Compiled(filters))
    && forall db {:trigger ListsOn(db, cx, q, params, filters)} | DbOk(db) :: ListsOn(db, cx, q, params, filters)
  }

  function IdRows(rows: seq<Row>): seq<seq<Value>> {
    if rows == [] then [] else [[Str(rows[0].id)]] + IdRows(rows[1..])
  }

  lemma {:induction false} FilterNames(fs: seq<FilterSpec>)
    ensures forall f | f in Compiled(fs) :: forall p | p in AtomParams(f.atoms) :: exists i: nat :: p == F.FName(i)
  {
    if fs != [] {
      var f := fs[|fs| - 1];
      FilterNames(fs[..|fs| - 1]);
      F.NonEmptyParts(Split(f.value, '|'));
      AtomNamesAreF(F.Segments(f.value));
    }
  }

  lemma {:induction false} AtomParamsSnoc(atoms: seq<Atom>, a: Atom)
    ensures AtomParams(atoms + [a]) == AtomParams(atoms) + ParamsOf(a)
  {
    if atoms == [] {
      assert [a][1..] == [];
    } else {
      assert (atoms + [a])[1..] == atoms[1..] + [a];
      AtomParamsSnoc(atoms[1..], a);
    }
  }

  lemma {:induction false} AtomNamesAreF(segs: seq<string>)
    requires F.AllNonEmpty(segs)
    ensures forall p | p in AtomParams(F.AtomsFor(segs)) :: exists i: nat :: p == F.FName(i)
  {
    if segs != [] {
      var init, seg := segs[..|segs| - 1], segs[|segs| - 1];
      var k := |F.AllOperands(init)|;
      AtomNamesAreF(init);
      AtomParamsSnoc(F.AtomsFor(init), F.AtomFor(seg, k));
    }
  }

  lemma {:induction false} CompiledIndexed(cx: Context, fs: seq<FilterSpec>, order: seq<nat>)
    requires forall f | f in fs :: f.qf.table < |cx.tree|
    requires forall f | f in fs :: f.qf.table == 0 || f.qf.table in order
    ensures Indexed(cx, Compiled(fs)) && Reached(order, Compiled(fs))
  {
    if fs != [] {
      assert fs[|fs| - 1] in fs;
      CompiledIndexed(cx, fs[..|fs| - 1], order);
    }
  }

  lemma PassingSame(db: Db, cx: Context, rows: seq<Row>, order: seq<nat>, filters: seq<FilterSpec>, params: Params)
    requires ContextOk(cx) && InTree(cx, order) && CarriesFilters(cx, params, order, filters)
    requires Indexed(cx, Compiled(filters))
    ensures Passing(db, cx, rows, Compiled(filters), params)
            == Passing(db, cx, rows, Compiled(filters), F.Merge(OperandLists(filters)))
  {
    FilterNames(filters);
    SamePassing(db, cx, rows, Compiled(filters), params, F.Merge(OperandLists(filters)));
  }

  ghost predicate FilterQuery(cx: Context, q: Query, params: Params, order: seq<nat>, filters: seq<FilterSpec>) {
    && ContextOk(cx) && InTree(cx, order) && Scheduled(cx, order) && CarriesFilters(cx, params, order, filters)
    && Indexed(cx, Compiled(filters)) && Reached(order, Compiled(filters))
    && q.columns == [Column(MASTER, "id")] && q.table == cx.tree[0].table && q.alias == MASTER
    && q.joins == JoinsOf(cx, order) && q.where_ == FilterWhere(cx, Compiled(filters))
  }

  lemma {:induction false} FilterWhereScoped(cx: Context, fs: seq<FieldClause>, order: seq<nat>)
    requires ContextOk(cx) && InTree(cx, order) && Indexed(cx, fs) && Reached(order, fs)
    ensures forall c | c in ClausesOf(cx, fs) :: c.column.alias in AliasesOf(cx, order)
  {
    if fs != [] {
      InAliases(cx, order, fs[0].qf.table);
      FilterWhereScoped(cx, fs[1..], order);
    }
  }

  lemma WhereIsScoped(cx: Context, fs: seq<FieldClause>, order: seq<nat>)
    requires ContextOk(cx) && InTree(cx, order) && Indexed(cx, fs) && Reached(order, fs)
    ensures WhereScoped(FilterWhere(cx, fs), AliasesOf(cx, order))
  {
    FilterWhereScoped(cx, fs, order);
  }

  lemma ScopedUpToOrder(q: Query, bound: set<string>)
    requires Bound(q.alias, q.joins) == bound && JoinsScoped(q.alias, q.joins) && WhereScoped(q.where_, bound)
    requires forall c | c in q.columns :: c.alias in bound
    ensures Scoped(q) <==> forall k | k in q.order :: k.column.alias in bound
  {}

  lemma FilterQueryScoped(cx: Context, q: Query, params: Params, order: seq<nat>, filters: seq<FilterSpec>)
    requires FilterQuery(cx, q, params, order, filters)
    ensures Scoped(q) <==> forall k | k in q.order :: k.column.alias in AliasesOf(cx, order)
  {
    WhereIsScoped(cx, Compiled(filters), order);
    InAliases(cx, order, 0);
    JoinsAreScoped(cx, order);
    ScopedUpToOrder(q, AliasesOf(cx, order));
  }

  lemma JoinsAreScoped(cx: Context, order: seq<nat>)
    requires ContextOk(cx) && InTree(cx, order) && Scheduled(cx, order)
    ensures JoinsScoped(MASTER, JoinsOf(cx, order)) && Bound(MASTER, JoinsOf(cx, order)) == AliasesOf(cx, order)
  {
    ScheduledIsScoped(cx, order);
    BoundIsAliases(cx, order);
  }

  lemma CountIsRight(cx: Context, q: Query, params: Params, order: seq<nat>, filters: seq<FilterSpec>)
    requires FilterQuery(cx, q, params, order, filters) && q.order == []
    ensures Scoped(q) && CountsPassing(cx, q, params, filters)
  {
    FilterQueryScoped(cx, q, params, order, filters);
    SmartIsBound(cx, order, params);
    forall db | DbOk(db) ensures CountsOn(db, cx, q, params, filters) {
      CountMeans(db, cx, q, order, params, Compiled(filters));
      PassingSame(db, cx, Rows(db, q.table), order, filters, params);
    }
  }

  lemma {:induction false} ProjectInsert(e: Env, sorted: seq<Env>, order: seq<SortKey>, columns: seq<Column>)
    ensures multiset(ProjectAll(Insert(e, sorted, order), columns))
            == multiset(ProjectAll(sorted, columns)) + multiset{Project(e, columns)}
  {
    if !(sorted == [] || Before(e, sorted[0], order)) {
      ProjectInsert(e, sorted[1..], order, columns);
      var rest := Insert(e, sorted[1..], order);
      assert Insert(e, sorted, order)[1..] == rest;
    } else {
      assert ([e] + sorted)[1..] == sorted;
    }
  }

  lemma {:induction false} ProjectAllSnoc(envs: seq<Env>, e: Env, columns: seq<Column>)
    ensures ProjectAll(envs + [e], columns) == ProjectAll(envs, columns) + [Project(e, columns)]
  {
    if envs == [] {
      assert [e][1..] == [];
    } else {
      assert (envs + [e])[1..] == envs[1..] + [e];
      ProjectAllSnoc(envs[1..], e, columns);
    }
  }

  lemma {:induction false} ProjectSorted(envs: seq<Env>, order: seq<SortKey>, columns: seq<Column>)
    ensures multiset(ProjectAll(Sorted(envs, order), columns)) == multiset(ProjectAll(envs, columns))
  {
    if envs != [] {
      var init, last := envs[..|envs| - 1], envs[|envs| - 1];
      ProjectSorted(init, order, columns);
      ProjectInsert(last, Sorted(init, order), order, columns);
      ProjectAllSnoc(init, last, columns);
      assert envs == init + [last];
    }
  }

  lemma OneColumn(env: Env, c: Column)
    ensures Project(env, [c]) == [Cell(env, c)]
  {
    assert [c][1..] == [];
    assert Project(env, [c]) == [Cell(env, c)] + Project(env, []);
  }

  lemma {:induction false} ProjectIds(db: Db, cx: Context, order: seq<nat>, rows: seq<Row>)
    requires ContextOk(cx) && InTree(cx, order)
    ensures ProjectAll(Environments(db, cx, order, rows), [Column(MASTER, "id")]) == IdRows(rows)
    decreases |rows|
  {
    if rows != [] {
      var env, rest := Bindings(db, cx, rows[0], order), Environments(db, cx, order, rows[1..]);
      MasterId(db, cx, rows[0], order);
      OneColumn(env, Column(MASTER, "id"));
      ProjectIds(db, cx, order, rows[1..]);
      assert ([env] + rest)[1..] == rest;
    }
  }

  lemma {:induction false} SortKeysScoped(cx: Context, sorts: seq<SortSpec>, order: seq<nat>)
    requires ContextOk(cx) && InTree(cx, order) && forall s | s in sorts :: s.qf.table < |cx.tree|
    ensures (forall k | k in SortKeys(cx, sorts) :: k.column.alias in AliasesOf(cx, order))
            <==> forall s | s in sorts :: s.qf.table == 0 || s.qf.table in order
  {
    if sorts != [] {
      var init, last := sorts[..|sorts| - 1], sorts[|sorts| - 1];
      SortKeysScoped(cx, init, order);
      InAliases(cx, order, last.qf.table);
      var keys, key := SortKeys(cx, init), SortKey(FieldColumn(cx, last.qf), last.desc);
      assert sorts == init + [last] && SortKeys(cx, sorts) == keys + [key];
      assert forall k :: k in keys + [key] <==> k in keys || k == key;
      assert forall s :: s in init + [last] <==> s in init || s == last;
    }
  }

  lemma IdsAreRight(cx: Context, q: Query, params: Params, order: seq<nat>, filters: seq<FilterSpec>,
                    sorts: seq<SortSpec>)
    requires FilterQuery(cx, q, params, order, filters)
    requires (forall s | s in sorts :: s.qf.table < |cx.tree|) && q.order == SortKeys(cx, sorts)
    requires forall s | s in sorts :: s.qf.table == 0 || s.qf.table in order
    ensures Scoped(q) && ListsPassing(cx, q, params, filters)
  {
    FilterQueryScoped(cx, q, params, order, filters);
    SortKeysScoped(cx, sorts, order);
    SmartIsBound(cx, order, params);
    forall db | DbOk(db) ensures ListsOn(db, cx, q, params, filters) {
      var rows := Rows(db, q.table);
      var passing := Passing(db, cx, rows, Compiled(filters), params);
      PassingSame(db, cx, rows, order, filters, params);
      CountMeans(db, cx, q, order, params, Compiled(filters));
      ResultIs(db, cx, q, order, params);
      KeptIsPassing(db, cx, order, Compiled(filters), params, rows);
      ProjectSorted(Environments(db, cx, order, passing), q.order, q.columns);
      ProjectIds(db, cx, order, passing);
      ProjectAllLength(Result(db, q, params), q.columns);
    }
  }

  // From the FROM and WHERE clauses to the whole ids query.
  lemma PagedQuery(cx: Context, front: Query, params: Params, order: seq<nat>, rs: Recordset)
    requires FilterQuery(cx, front, params, order, rs.filters)
    requires forall s | s in rs.sorts :: s.qf.table < |cx.tree| && (s.qf.table == 0 || s.qf.table in order)
    ensures var q := front.(order := SortKeys(cx, rs.sorts), paged := true);
            var params' := params["pg_limit" := Dec(rs.limit)]["pg_offset" := Dec(rs.offset)];
            && FilterQuery(cx, q, params', order, rs.filters) && PageAsked(params', rs.limit, rs.offset)
            && Scoped(q) && ListsPassing(cx, q, params', rs.filters)
  {
    var q := front.(order := SortKeys(cx, rs.sorts), paged := true);
    var params' := params["pg_limit" := Dec(rs.limit)]["pg_offset" := Dec(rs.offset)];
    CarriesPage(cx, params, order, rs.filters, Dec(rs.limit), Dec(rs.offset));
    assert FilterQuery(cx, q, params', order, rs.filters);
    IdsAreRight(cx, q, params', order, rs.filters, rs.sorts);
  }

  lemma FiltersReached(filters: seq<FilterSpec>, order: seq<nat>)
    requires forall f | f in FilterFields(filters) :: f.table == 0 || f.table in order
    ensures forall f | f in filters :: f.qf.table == 0 || f.qf.table in order
  {
    forall f | f in filters ensures f.qf.table == 0 || f.qf.table in order {
      var i :| 0 <= i < |filters| && filters[i] == f;
      assert FilterFields(filters)[i] in FilterFields(filters);
    }
  }

  lemma SortsReached(sorts: seq<SortSpec>, order: seq<nat>)
    requires forall f | f in SortFields(sorts) :: f.table == 0 || f.table in order
    ensures forall s | s in sorts :: s.qf.table == 0 || s.qf.table in order
  {
    forall s | s in sorts ensures s.qf.table == 0 || s.qf.table in order {
      var i :| 0 <= i < |sorts| && sorts[i] == s;
      assert SortFields(sorts)[i] in SortFields(sorts);
    }
  }

  // ---- rows by ids -----------------------------------------------------------------------------------------

  function WithIds(rows: seq<Row>, ids: seq<string>): seq<Row> {
    if rows == [] then [] else (if rows[0].id in ids then [rows[0]] else []) + WithIds(rows[1..], ids)
  }

  // On every database: the rows whose id is in the list, each column what navigation reads.
  ghost predicate LoadsRows(cx: Context, q: Query, params: Params, fields: seq<QField>, ids: seq<string>)
    requires ContextOk(cx) && FieldsIn(cx.tree, fields)
  {
    forall db {:trigger DbOk(db)} | DbOk(db) ::
      multiset(Eval(db, q, params)) == multiset(Answers(db, cx, WithIds(Rows(db, cx.tree[0].table), ids), fields))
  }

  ghost predicate ByIdsShape(cx: Context, q: Query, params: Params, order: seq<nat>, fields: seq<QField>,
                             ids: seq<string>)
    requires ContextOk(cx) && FieldsIn(cx.tree, fields)
  {
    && FromShape(cx, q.joins, order, Chains(cx.tree, fields) - {0})
    && (forall f | f in fields :: f.table == 0 || f.table in order)
    && q.columns == Columns(cx, fields) && q.table == cx.tree[0].table && q.alias == MASTER
    && q.where_ == IdIn(MASTER, IdNames(|ids|)) && !q.paged
    && params == IdParams(SmartParams(cx, order), ids)
  }

  lemma {:induction false} IdParamsAt(base: Params, ids: seq<string>, i: nat)
    requires i < |ids|
    ensures Param(IdParams(base, ids), IdName(i)) == Str(ids[i])
  {
    if i < |ids| - 1 {
      IdParamsAt(base, ids[..|ids| - 1], i);
      if IdName(i) == IdName(|ids| - 1) { IdNameInjective(i, |ids| - 1); }
    }
  }

  lemma {:induction false} IdParamsKeep(base: Params, ids: seq<string>, p: string)
    requires p in base && (p == "" || p[0] != 'i')
    ensures p in IdParams(base, ids) && IdParams(base, ids)[p] == base[p]
  {
    if ids != [] {
      IdParamsKeep(base, ids[..|ids| - 1], p);
      assert IdName(|ids| - 1)[0] == 'i';
    }
  }

  lemma {:induction false} IdNamesAt(n: nat)
    ensures |IdNames(n)| == n && forall i: nat | i < n :: IdNames(n)[i] == IdName(i)
  {
    if n > 0 { IdNamesAt(n - 1); }
  }

  lemma InList(params: Params, ids: seq<string>, id: string)
    requires forall i: nat | i < |ids| :: Param(params, IdName(i)) == Str(ids[i])
    ensures (exists p | p in IdNames(|ids|) :: Str(id) == Param(params, p)) <==> id in ids
  {
    IdNamesAt(|ids|);
    if id in ids {
      var i: nat :| i < |ids| && ids[i] == id;
      assert IdNames(|ids|)[i] in IdNames(|ids|) && IdNames(|ids|)[i] == IdName(i);
      assert Param(params, IdName(i)) == Str(id);
    }
    if p :| p in IdNames(|ids|) && Str(id) == Param(params, p) {
      var i: nat :| i < |ids| && IdNames(|ids|)[i] == p;
      assert Param(params, IdName(i)) == Str(ids[i]);
    }
  }

  lemma {:induction false} KeptByIds(db: Db, cx: Context, order: seq<nat>, params: Params, ids: seq<string>,
                                     rows: seq<Row>)
    requires ContextOk(cx) && InTree(cx, order)
    requires forall i: nat | i < |ids| :: Param(params, IdName(i)) == Str(ids[i])
    ensures Kept(db, cx, order, IdIn(MASTER, IdNames(|ids|)), params, rows) == WithIds(rows, ids)
    decreases |rows|
  {
    if rows != [] {
      MasterId(db, cx, rows[0], order);
      InList(params, ids, rows[0].id);
      assert WhereHolds(Bindings(db, cx, rows[0], order), IdIn(MASTER, IdNames(|ids|)), params) <==> rows[0].id in ids;
      KeptByIds(db, cx, order, params, ids, rows[1..]);
    }
  }

  function WithoutIds(rows: seq<Row>, ids: seq<string>): seq<Row> {
    if rows == [] then [] else (if rows[0].id in ids then [] else [rows[0]]) + WithoutIds(rows[1..], ids)
  }

  // On every database the statement leaves exactly the rows with none of the ids, in place, and every
  // other table.
  ghost predicate DeletesExactly(change: Change, params: Params, ids: seq<string>)
    requires change.DeleteIn?
  {
    forall db: Db {:trigger DeletesFrom(db, change.table, change.names, params, ids)} ::
      DeletesFrom(db, change.table, change.names, params, ids)
  }

  ghost predicate DeletesFrom(db: Db, table: string, names: seq<string>, params: Params, ids: seq<string>) {
    var after := Deleted(db, table, names, params);
    && Rows(after, table) == WithoutIds(Rows(db, table), ids)
    && forall t | t != table :: Rows(after, t) == Rows(db, t)
  }

  lemma {:induction false} LeftByIds(rows: seq<Row>, ids: seq<string>, params: Params)
    requires forall i: nat | i < |ids| :: Param(params, IdName(i)) == Str(ids[i])
    ensures Left(rows, IdNames(|ids|), params) == WithoutIds(rows, ids)
  {
    if rows != [] {
      InList(params, ids, rows[0].id);
      LeftByIds(rows[1..], ids, params);
    }
  }

  lemma BoundIdsDelete(table: string, ids: seq<string>)
    ensures DeletesExactly(DeleteIn(table, IdNames(|ids|)), IdParams(map[], ids), ids)
  {
    forall db: Db ensures DeletesFrom(db, table, IdNames(|ids|), IdParams(map[], ids), ids) {
      BoundIdsDeleteFrom(db, table, ids);
    }
  }

  lemma BoundIdsDeleteFrom(db: Db, table: string, ids: seq<string>)
    ensures DeletesFrom(db, table, IdNames(|ids|), IdParams(map[], ids), ids)
  {
    var params := IdParams(map[], ids);
    forall i: nat | i < |ids| ensures Param(params, IdName(i)) == Str(ids[i]) { IdParamsAt(map[], ids, i); }
    LeftByIds(Rows(db, table), ids, params);
  }

  // What is deleted and what is left are the rows there were.
  lemma {:induction false} DeletedOrLeft(rows: seq<Row>, ids: seq<string>)
    ensures multiset(rows) == multiset(WithIds(rows, ids)) + multiset(WithoutIds(rows, ids))
    ensures forall r | r in WithoutIds(rows, ids) :: r in rows && r.id !in ids
    ensures forall r | r in WithIds(rows, ids) :: r in rows && r.id in ids
  {
    if rows != [] {
      DeletedOrLeft(rows[1..], ids);
      assert rows == [rows[0]] + rows[1..];
    }
  }

  lemma ByIdsSmartBound(cx: Context, order: seq<nat>, params: Params, ids: seq<string>)
    requires ContextOk(cx) && InTree(cx, order) && params == IdParams(SmartParams(cx, order), ids)
    ensures SmartBound(cx, order, params)
  {
    SmartParamsNames(cx, order);
    forall p | p in SmartParams(cx, order) ensures p in params && params[p] == SmartParams(cx, order)[p] {
      IdParamsKeep(SmartParams(cx, order), ids, p);
    }
    SmartIsBound(cx, order, params);
  }

  lemma RowsLoad(cx: Context, q: Query, params: Params, order: seq<nat>, fields: seq<QField>, ids: seq<string>)
    requires ContextOk(cx) && FieldsIn(cx.tree, fields) && ByIdsShape(cx, q, params, order, fields, ids)
    ensures LoadsRows(cx, q, params, fields, ids)
  {
    ByIdsSmartBound(cx, order, params, ids);
    forall i: nat | i < |ids| ensures Param(params, IdName(i)) == Str(ids[i]) {
      IdParamsAt(SmartParams(cx, order), ids, i);
    }
    forall db | DbOk(db)
      ensures multiset(Eval(db, q, params))
              == multiset(Answers(db, cx, WithIds(Rows(db, cx.tree[0].table), ids), fields))
    {
      var rows := Rows(db, q.table);
      ResultIs(db, cx, q, order, params);
      KeptByIds(db, cx, order, params, ids, rows);
      ProjectSorted(Environments(db, cx, order, WithIds(rows, ids)), q.order, q.columns);
      ProjectAllIsAnswers(db, cx, WithIds(rows, ids), order, fields);
    }
  }

  // gen_select_by_ids is well scoped exactly when every sort table was joined for the fields anyway.
  lemma RowsAreRight(cx: Context, q: Query, params: Params, order: seq<nat>, fields: seq<QField>, ids: seq<string>,
                     sorts: seq<SortSpec>)
    requires ContextOk(cx) && FieldsIn(cx.tree, fields) && ByIdsShape(cx, q, params, order, fields, ids)
    requires (forall s | s in sorts :: s.qf.table < |cx.tree|) && q.order == SortKeys(cx, sorts)
    ensures LoadsRows(cx, q, params, fields, ids)
    ensures Scoped(q) <==> forall s | s in sorts :: s.qf.table in Chains(cx.tree, fields) + {0}
  {
    RowsLoad(cx, q, params, order, fields, ids);
    InAliases(cx, order, 0);
    QueryScoped(cx, q, order, fields);
    SortKeysScoped(cx, sorts, order);
    forall s | s in sorts
      ensures s.qf.table in Chains(cx.tree, fields) + {0} <==> s.qf.table == 0 || s.qf.table in order
    {
      assert s.qf.table in order <==> s.qf.table in Members(order);
    }
  }

  // ---- count and pages agree -------------------------------------------------------------------------------

  // A book sorted by the name of its author while only the title is loaded: the author was not joined.
  lemma SortTableNotJoined()
    ensures var book: TableDef := map["id" := None, "title" := None, "author" := Some("person")];
            var person: TableDef := map["id" := None, "name" := None];
            var tree := [QTable("book", MASTER, None, ""), QTable("person", "t1", Some(0), "author")];
            var cx := Context(map["book" := book, "person" := person], tree, []);
            var fields, sorts, ids := [QField(0, "title")], [SortSpec(QField(1, "name"), false)], ["5"];
            && ContextOk(cx) && FieldsIn(tree, fields)
            && var q := Query(Columns(cx, fields), "book", MASTER, [], IdIn(MASTER, IdNames(1)), SortKeys(cx, sorts),
                              false);
               ByIdsShape(cx, q, IdParams(map[], ids), [], fields, ids) && !Scoped(q)
  {
    var book: TableDef := map["id" := None, "title" := None, "author" := Some("person")];
    var person: TableDef := map["id" := None, "name" := None];
    var tree := [QTable("book", MASTER, None, ""), QTable("person", "t1", Some(0), "author")];
    var cx := Context(map["book" := book, "person" := person], tree, []);
    var fields, sorts, ids := [QField(0, "title")], [SortSpec(QField(1, "name"), false)], ["5"];
    assert MASTER[0] == 'm' && "t1"[0] == 't';
    assert forall i: nat, j: nat {:trigger AliasesApart(tree, i, j)} | i < j < 2 :: AliasesApart(tree, i, j);
    assert Shaped(tree);
    assert fields[..0] == [] && Chains(tree, []) == {};
    assert Chains(tree, fields) == {0};
    var q := Query(Columns(cx, fields), "book", MASTER, [], IdIn(MASTER, IdNames(1)), SortKeys(cx, sorts), false);
    RowsAreRight(cx, q, IdParams(map[], ids), [], fields, ids, sorts);
    assert sorts[0] in sorts;
  }

  // The page asked for is the page the server sends.
  lemma FetchesThePage(db: Db, q: Query, params: Params, limit: nat, offset: nat, rows: seq<seq<Value>>)
    requires q.paged && PageAsked(params, limit, offset) && Fetches(db, q, params, rows)
    ensures rows == Page(Eval(db, q, params), limit, offset)
    ensures |rows| == Min(limit, Max(0, |Eval(db, q, params)| - offset))
  {
    var l: nat, o: nat :| PageAsked(params, l, o) && rows == Page(Eval(db, q, params), l, o);
    DecInjective(l, limit);
    DecInjective(o, offset);
  }

  // A page of a list has min(limit, max(0, length - offset)) entries, and the pages of a positive size
  // partition the list.
  ghost predicate PagesWell(rows: seq<seq<Value>>, total: nat, limit: nat, offset: nat) {
    && |rows| == total
    && |Page(rows, limit, offset)| == Min(limit, Max(0, total - offset))
    && PagesComplete(rows, limit)
  }

  lemma ListPagesWell(rows: seq<seq<Value>>, limit: nat, offset: nat)
    ensures PagesWell(rows, |rows|, limit, offset)
  {
    PagesOf(rows, limit, offset);
  }

  // The count is the length of the list of ids, although that query joins more tables, and so it says
  // how the list falls into pages.
  lemma CountAndPagesAgree(db: Db, cx: Context, count: Query, params: Params, ids: Query, params': Params,
                           filters: seq<FilterSpec>, limit: nat, offset: nat)
    requires ContextOk(cx) && DbOk(db)
    requires CountsPassing(cx, count, params, filters) && ListsPassing(cx, ids, params', filters)
    ensures PagesWell(Eval(db, ids, params'), Count(Result(db, count, params), Column(MASTER, "id")), limit, offset)
  {
    assert CountsOn(db, cx, count, params, filters) && ListsOn(db, cx, ids, params', filters);
    ListPagesWell(Eval(db, ids, params'), limit, offset);
  }

  // ---- lemmas of the generators --------------------------------------------------------------------------

  ghost predicate Indexed(cx: Context, fs: seq<FieldClause>) {
    forall f | f in fs :: f.qf.table < |cx.tree|
  }

  lemma {:induction false} ClausesSnoc(cx: Context, fs: seq<FieldClause>, f: FieldClause)
    requires Indexed(cx, fs) && f.qf.table < |cx.tree|
    ensures Indexed(cx, fs + [f])
    ensures ClausesOf(cx, fs + [f]) == ClausesOf(cx, fs) + [Clause(FieldColumn(cx, f.qf), f.atoms)]
  {
    if fs == [] {
      assert [f][1..] == [];
    } else {
      assert (fs + [f])[1..] == fs[1..] + [f];
      ClausesSnoc(cx, fs[1..], f);
    }
  }

  lemma CompiledSnoc(filters: seq<FilterSpec>, i: nat)
    requires i < |filters|
    ensures Compiled(filters[..i + 1]) == Compiled(filters[..i]) + [Compile(filters[i])]
    ensures OperandLists(filters[..i + 1]) == OperandLists(filters[..i]) + [OperandsOf(filters[i])]
  {
    var s := filters[..i + 1];
    assert s[..i] == filters[..i] && s[i] == filters[i];
  }

  lemma MergeSnoc(lists: seq<seq<string>>, l: seq<string>)
    ensures F.Merge(lists + [l]) == F.OperandMap(l) + F.Merge(lists)
  {
    assert (lists + [l])[..|lists|] == lists;
  }

  lemma AddedFilter(cx: Context, filters: seq<FilterSpec>, i: nat)
    requires i < |filters| && (forall f | f in filters :: f.qf.table < |cx.tree|)
    requires Indexed(cx, Compiled(filters[..i]))
    ensures Indexed(cx, Compiled(filters[..i + 1]))
    ensures ClausesOf(cx, Compiled(filters[..i + 1]))
            == ClausesOf(cx, Compiled(filters[..i]))
               + [Clause(FieldColumn(cx, filters[i].qf), Compile(filters[i]).atoms)]
    ensures F.Merge(OperandLists(filters[..i + 1]))
            == F.OperandMap(OperandsOf(filters[i])) + F.Merge(OperandLists(filters[..i]))
  {
    CompiledSnoc(filters, i);
    assert filters[i] in filters;
    ClausesSnoc(cx, Compiled(filters[..i]), Compile(filters[i]));
    MergeSnoc(OperandLists(filters[..i]), OperandsOf(filters[i]));
  }

  lemma MergedFirst(p: Params, m: Params, base: Params)
    ensures p + (m + base) == (p + m) + base
  {}

  lemma {:induction false} CompiledLength(filters: seq<FilterSpec>)
    ensures |Compiled(filters)| == |filters| == |OperandLists(filters)|
  {
    if filters != [] { CompiledLength(filters[..|filters| - 1]); }
  }

  lemma FieldsReached(cx: Context, fields: seq<QField>, order: seq<nat>)
    requires ContextOk(cx) && FieldsIn(cx.tree, fields) && Members(order) >= Chains(cx.tree, fields) - {0}
    ensures forall f | f in fields :: f.table == 0 || f.table in order
  {
    forall f | f in fields && f.table != 0 ensures f.table in order {
      assert f.table in Members(order);
    }
  }

  lemma {:induction false} ColumnsScoped(cx: Context, fields: seq<QField>, order: seq<nat>)
    requires ContextOk(cx) && InTree(cx, order) && FieldsIn(cx.tree, fields)
    requires forall f | f in fields :: f.table == 0 || f.table in order
    ensures forall c | c in Columns(cx, fields) :: c.alias in AliasesOf(cx, order)
  {
    if fields != [] {
      InAliases(cx, order, fields[0].table);
      ColumnsScoped(cx, fields[1..], order);
    }
  }

  lemma QueryScoped(cx: Context, q: Query, order: seq<nat>, fields: seq<QField>)
    requires ContextOk(cx) && InTree(cx, order) && Scheduled(cx, order) && FieldsIn(cx.tree, fields)
    requires forall f | f in fields :: f.table == 0 || f.table in order
    requires q.columns == Columns(cx, fields) && q.alias == MASTER && q.joins == JoinsOf(cx, order)
    requires WhereScoped(q.where_, AliasesOf(cx, order))
    ensures Scoped(q) <==> forall k | k in q.order :: k.column.alias in AliasesOf(cx, order)
  {
    ScheduledIsScoped(cx, order);
    BoundIsAliases(cx, order);
    ColumnsScoped(cx, fields, order);
  }
}
