// What the queries of SqlGenius answer, in terms of navigation.
module QueryMeaning {
  import opened Ordering
  import opened QTree
  import opened Sql
  import opened Navigation

  // ---- rows that survive WHERE -------------------------------------------------------------------------

  ghost function Kept(db: Db, cx: Context, order: seq<nat>, w: Where, params: Params, rows: seq<Row>): seq<Row>
    requires ContextOk(cx) && InTree(cx, order)
  {
    if rows == [] then []
    else (if WhereHolds(Bindings(db, cx, rows[0], order), w, params) then [rows[0]] else [])
         + Kept(db, cx, order, w, params, rows[1..])
  }

  lemma {:induction false} SelectKeeps(db: Db, cx: Context, order: seq<nat>, w: Where, params: Params, rows: seq<Row>)
    requires ContextOk(cx) && InTree(cx, order)
    ensures Select(Environments(db, cx, order, rows), w, params)
            == Environments(db, cx, order, Kept(db, cx, order, w, params, rows))
    decreases |rows|
  {
    if rows != [] {
      SelectKeeps(db, cx, order, w, params, rows[1..]);
      var rest := Kept(db, cx, order, w, params, rows[1..]);
      assert Environments(db, cx, order, rows)[1..] == Environments(db, cx, order, rows[1..]);
      if WhereHolds(Bindings(db, cx, rows[0], order), w, params) {
        assert ([rows[0]] + rest)[1..] == rest;
      } else {
        assert [] + rest == rest;
      }
    }
  }

  lemma {:induction false} EnvironmentCount(db: Db, cx: Context, order: seq<nat>, rows: seq<Row>)
    requires ContextOk(cx) && InTree(cx, order)
    ensures |Environments(db, cx, order, rows)| == |rows|
    ensures Count(Environments(db, cx, order, rows), Column(MASTER, "id")) == |rows|
    decreases |rows|
  {
    if rows != [] {
      EnvironmentCount(db, cx, order, rows[1..]);
      CellIsNavField(db, cx, rows[0], order, QField(0, "id"));
      BindingsHold(db, cx, rows[0], order, 0);
    }
  }

  // ---- selecting by id -----------------------------------------------------------------------------------

  lemma MasterId(db: Db, cx: Context, row: Row, order: seq<nat>)
    requires ContextOk(cx) && InTree(cx, order)
    ensures Cell(Bindings(db, cx, row, order), Column(MASTER, "id")) == Str(row.id)
  {
    BindingsHold(db, cx, row, order, 0);
  }

  lemma {:induction false} KeptById(db: Db, cx: Context, order: seq<nat>, params: Params, p: string, v: string,
                                    rows: seq<Row>)
    requires ContextOk(cx) && InTree(cx, order) && Param(params, p) == Str(v)
    ensures Kept(db, cx, order, IdIs(MASTER, p), params, rows) == Matching(rows, Str(v))
    decreases |rows|
  {
    if rows != [] {
      MasterId(db, cx, rows[0], order);
      KeptById(db, cx, order, params, p, v, rows[1..]);
    }
  }

  lemma {:induction false} SortedByNothing(envs: seq<Env>)
    ensures Sorted(envs, []) == envs
  {
    if envs != [] {
      SortedByNothing(envs[..|envs| - 1]);
      InsertLast(envs[|envs| - 1], envs[..|envs| - 1]);
    }
  }

  lemma {:induction false} InsertLast(e: Env, sorted: seq<Env>)
    ensures Insert(e, sorted, []) == sorted + [e]
  {
    if sorted != [] { InsertLast(e, sorted[1..]); }
  }

  // ---- projecting ----------------------------------------------------------------------------------------

  function Columns(cx: Context, fields: seq<QField>): seq<Column>
    requires forall f | f in fields :: f.table < |cx.tree|
  {
    if fields == [] then [] else [FieldColumn(cx, fields[0])] + Columns(cx, fields[1..])
  }

  // Field by field what navigation from the row reads.
  ghost function Answer(db: Db, cx: Context, row: Row, fields: seq<QField>): seq<Value>
    requires ContextOk(cx) && forall f | f in fields :: f.table < |cx.tree|
  {
    if fields == [] then [] else [NavField(db, cx, row, fields[0])] + Answer(db, cx, row, fields[1..])
  }

  lemma {:induction false} AnswerAt(db: Db, cx: Context, row: Row, fields: seq<QField>, i: nat)
    requires ContextOk(cx) && (forall f | f in fields :: f.table < |cx.tree|) && i < |fields|
    ensures |Answer(db, cx, row, fields)| == |fields|
    ensures Answer(db, cx, row, fields)[i] == NavField(db, cx, row, fields[i])
  {
    AnswerLength(db, cx, row, fields);
    if i > 0 { AnswerAt(db, cx, row, fields[1..], i - 1); }
  }

  lemma {:induction false} AnswerLength(db: Db, cx: Context, row: Row, fields: seq<QField>)
    requires ContextOk(cx) && (forall f | f in fields :: f.table < |cx.tree|)
    ensures |Answer(db, cx, row, fields)| == |fields|
  {
    if fields != [] { AnswerLength(db, cx, row, fields[1..]); }
  }

  lemma {:induction false} ProjectIsAnswer(db: Db, cx: Context, row: Row, order: seq<nat>, fields: seq<QField>)
    requires ContextOk(cx) && InTree(cx, order)
    requires forall f | f in fields :: f.table == 0 || f.table in order
    ensures forall f | f in fields :: f.table < |cx.tree|
    ensures Project(Bindings(db, cx, row, order), Columns(cx, fields)) == Answer(db, cx, row, fields)
    decreases |fields|
  {
    if fields != [] {
      CellIsNavField(db, cx, row, order, fields[0]);
      ProjectIsAnswer(db, cx, row, order, fields[1..]);
    }
  }

  ghost function Answers(db: Db, cx: Context, rows: seq<Row>, fields: seq<QField>): seq<seq<Value>>
    requires ContextOk(cx) && forall f | f in fields :: f.table < |cx.tree|
  {
    if rows == [] then [] else [Answer(db, cx, rows[0], fields)] + Answers(db, cx, rows[1..], fields)
  }

  lemma {:induction false} ProjectAllIsAnswers(db: Db, cx: Context, rows: seq<Row>, order: seq<nat>,
                                               fields: seq<QField>)
    requires ContextOk(cx) && InTree(cx, order)
    requires forall f | f in fields :: f.table == 0 || f.table in order
    ensures forall f | f in fields :: f.table < |cx.tree|
    ensures ProjectAll(Environments(db, cx, order, rows), Columns(cx, fields)) == Answers(db, cx, rows, fields)
    decreases |rows|
  {
    forall f | f in fields ensures f.table < |cx.tree| {
      if f.table != 0 {
        var i :| 0 <= i < |order| && order[i] == f.table;
      }
    }
    if rows != [] {
      ProjectIsAnswer(db, cx, rows[0], order, fields);
      ProjectAllIsAnswers(db, cx, rows[1..], order, fields);
    }
  }

  // The rows of a query before projection.
  lemma ResultIs(db: Db, cx: Context, q: Query, order: seq<nat>, params: Params)
    requires ContextOk(cx) && DbOk(db) && Scheduled(cx, order) && SmartBound(cx, order, params) && InTree(cx, order)
    requires q.table == cx.tree[0].table && q.alias == MASTER && q.joins == JoinsOf(cx, order)
    ensures var rows := Rows(db, q.table);
            Result(db, q, params)
            == Sorted(Environments(db, cx, order, Kept(db, cx, order, q.where_, params, rows)), q.order)
  {
    FromNavigates(db, cx, params, order, Rows(db, q.table));
    SelectKeeps(db, cx, order, q.where_, params, Rows(db, q.table));
  }

  // Loading one record: the row with the id, every column the field navigation reaches with edited
  // links replaced; no row when there is none with that id.
  lemma SelectOneMeans(db: Db, cx: Context, q: Query, order: seq<nat>, params: Params, fields: seq<QField>, id: string)
    requires ContextOk(cx) && DbOk(db) && Scheduled(cx, order) && SmartBound(cx, order, params) && InTree(cx, order)
    requires forall f | f in fields :: f.table == 0 || f.table in order
    requires (forall f | f in fields :: f.table < |cx.tree|) && Param(params, "id") == Str(id)
    requires q == Query(Columns(cx, fields), cx.tree[0].table, MASTER, JoinsOf(cx, order), IdIs(MASTER, "id"), [],
                        false)
    ensures Eval(db, q, params) == match Lookup(Rows(db, q.table), Str(id))
                                   case Some(row) => [Answer(db, cx, row, fields)]
                                   case None => []
  {
    var rows := Rows(db, q.table);
    var kept := Matching(rows, Str(id));
    ResultIs(db, cx, q, order, params);
    KeptById(db, cx, order, params, "id", id, rows);
    SortedByNothing(Environments(db, cx, order, kept));
    ProjectAllIsAnswers(db, cx, kept, order, fields);
    MatchingIsLookup(rows, Str(id));
    match Lookup(rows, Str(id))
    case Some(row) =>
      assert Answers(db, cx, [row], fields) == [Answer(db, cx, row, fields)] + Answers(db, cx, [], fields);
    case None =>
  }

  // ---- filters, counting and paging ------------------------------------------------------------------------

  // A compiled filter: the field it is about and its alternatives.
  datatype FieldClause = FieldClause(qf: QField, atoms: seq<Atom>)

  function ClausesOf(cx: Context, filters: seq<FieldClause>): seq<Clause>
    requires forall f | f in filters :: f.qf.table < |cx.tree|
  {
    if filters == [] then []
    else [Clause(FieldColumn(cx, filters[0].qf), filters[0].atoms)] + ClausesOf(cx, filters[1..])
  }

  // A master row passes when every filter accepts the value navigation reads for its field.
  ghost predicate Passes(db: Db, cx: Context, row: Row, filters: seq<FieldClause>, params: Params)
    requires ContextOk(cx) && forall f | f in filters :: f.qf.table < |cx.tree|
  {
    filters == [] || (
      && AnyAtom(NavField(db, cx, row, filters[0].qf), filters[0].atoms, params)
      && Passes(db, cx, row, filters[1..], params))
  }

  ghost function Passing(db: Db, cx: Context, rows: seq<Row>, filters: seq<FieldClause>, params: Params): seq<Row>
    requires ContextOk(cx) && forall f | f in filters :: f.qf.table < |cx.tree|
  {
    if rows == [] then []
    else (if Passes(db, cx, rows[0], filters, params) then [rows[0]] else [])
         + Passing(db, cx, rows[1..], filters, params)
  }

  ghost predicate Reached(order: seq<nat>, filters: seq<FieldClause>) {
    forall i | 0 <= i < |filters| :: filters[i].qf.table == 0 || filters[i].qf.table in order
  }

  lemma {:induction false} ClausesArePasses(db: Db, cx: Context, row: Row, order: seq<nat>, filters: seq<FieldClause>,
                                            params: Params)
    requires ContextOk(cx) && InTree(cx, order) && Reached(order, filters)
    requires forall f | f in filters :: f.qf.table < |cx.tree|
    ensures AllClauses(Bindings(db, cx, row, order), ClausesOf(cx, filters), params)
            <==> Passes(db, cx, row, filters, params)
    decreases |filters|
  {
    if filters != [] {
      CellIsNavField(db, cx, row, order, filters[0].qf);
      ClausesArePasses(db, cx, row, order, filters[1..], params);
    }
  }

  ghost function FilterWhere(cx: Context, filters: seq<FieldClause>): Where
    requires forall f | f in filters :: f.qf.table < |cx.tree|
  {
    if filters == [] then Everything else All(ClausesOf(cx, filters))
  }

  lemma {:induction false} KeptIsPassing(db: Db, cx: Context, order: seq<nat>, filters: seq<FieldClause>,
                                         params: Params, rows: seq<Row>)
    requires ContextOk(cx) && InTree(cx, order) && Reached(order, filters)
    requires forall f | f in filters :: f.qf.table < |cx.tree|
    ensures Kept(db, cx, order, FilterWhere(cx, filters), params, rows) == Passing(db, cx, rows, filters, params)
    decreases |rows|
  {
    if rows != [] {
      ClausesArePasses(db, cx, rows[0], order, filters, params);
      KeptIsPassing(db, cx, order, filters, params, rows[1..]);
    }
  }

  // The query counts the master rows that pass, whatever else is joined.
  lemma CountMeans(db: Db, cx: Context, q: Query, order: seq<nat>, params: Params, filters: seq<FieldClause>)
    requires ContextOk(cx) && DbOk(db) && Scheduled(cx, order) && SmartBound(cx, order, params) && InTree(cx, order)
    requires Reached(order, filters) && forall f | f in filters :: f.qf.table < |cx.tree|
    requires q.table == cx.tree[0].table && q.alias == MASTER && q.joins == JoinsOf(cx, order)
    requires q.where_ == FilterWhere(cx, filters)
    ensures |Result(db, q, params)| == |Passing(db, cx, Rows(db, q.table), filters, params)|
    ensures q.order == [] ==>
              Count(Result(db, q, params), Column(MASTER, "id"))
              == |Passing(db, cx, Rows(db, q.table), filters, params)|
    ensures multiset(Result(db, q, params))
            == multiset(Environments(db, cx, order, Passing(db, cx, Rows(db, q.table), filters, params)))
  {
    var rows := Rows(db, q.table);
    var kept := Passing(db, cx, rows, filters, params);
    ResultIs(db, cx, q, order, params);
    KeptIsPassing(db, cx, order, filters, params, rows);
    SortedKeeps(Environments(db, cx, order, kept), q.order);
    EnvironmentCount(db, cx, order, kept);
    if q.order == [] { SortedByNothing(Environments(db, cx, order, kept)); }
  }

  lemma {:induction false} ProjectAllLength(envs: seq<Env>, columns: seq<Column>)
    ensures |ProjectAll(envs, columns)| == |envs|
  {
    if envs != [] { ProjectAllLength(envs[1..], columns); }
  }

  // COUNT agrees with the unpaged list of ids although that query joins more tables.
  lemma CountAgreesWithIds(db: Db, cx: Context, count: Query, ids: Query, order: seq<nat>, order': seq<nat>,
                           params: Params, params': Params, filters: seq<FieldClause>)
    requires ContextOk(cx) && DbOk(db)
    requires Scheduled(cx, order) && SmartBound(cx, order, params) && InTree(cx, order) && Reached(order, filters)
    requires Scheduled(cx, order') && SmartBound(cx, order', params') && InTree(cx, order') && Reached(order', filters)
    requires forall f | f in filters :: f.qf.table < |cx.tree|
    requires count.table == ids.table == cx.tree[0].table && count.alias == ids.alias == MASTER
    requires count.where_ == ids.where_ == FilterWhere(cx, filters) && count.order == []
    requires count.joins == JoinsOf(cx, order) && ids.joins == JoinsOf(cx, order')
    requires forall f | f in filters :: forall p | p in AtomParams(f.atoms) :: Param(params, p) == Param(params', p)
    ensures Count(Result(db, count, params), Column(MASTER, "id")) == |Eval(db, ids, params')|
  {
    CountMeans(db, cx, count, order, params, filters);
    CountMeans(db, cx, ids, order', params', filters);
    SamePassing(db, cx, Rows(db, ids.table), filters, params, params');
    ProjectAllLength(Result(db, ids, params'), ids.columns);
  }

  function ParamsOf(a: Atom): set<string> {
    match a
    case Ne(p) => {p}
    case Gt(p) => {p}
    case Lt(p) => {p}
    case Between(lo, hi) => {lo, hi}
    case Like(p) => {p}
  }

  function AtomParams(atoms: seq<Atom>): set<string> {
    if atoms == [] then {} else ParamsOf(atoms[0]) + AtomParams(atoms[1..])
  }

  lemma {:induction false} SameAtoms(v: Value, atoms: seq<Atom>, params: Params, params': Params)
    requires forall p | p in AtomParams(atoms) :: Param(params, p) == Param(params', p)
    ensures AnyAtom(v, atoms, params) <==> AnyAtom(v, atoms, params')
  {
    if atoms != [] {
      assert forall p | p in ParamsOf(atoms[0]) :: p in AtomParams(atoms);
      SameAtoms(v, atoms[1..], params, params');
    }
  }

  lemma {:induction false} SamePasses(db: Db, cx: Context, row: Row, filters: seq<FieldClause>, params: Params,
                                      params': Params)
    requires ContextOk(cx) && forall f | f in filters :: f.qf.table < |cx.tree|
    requires forall f | f in filters :: forall p | p in AtomParams(f.atoms) :: Param(params, p) == Param(params', p)
    ensures Passes(db, cx, row, filters, params) <==> Passes(db, cx, row, filters, params')
  {
    if filters != [] {
      assert filters[0] in filters;
      SameAtoms(NavField(db, cx, row, filters[0].qf), filters[0].atoms, params, params');
      SamePasses(db, cx, row, filters[1..], params, params');
    }
  }

  lemma {:induction false} SamePassing(db: Db, cx: Context, rows: seq<Row>, filters: seq<FieldClause>, params: Params,
                                       params': Params)
    requires ContextOk(cx) && forall f | f in filters :: f.qf.table < |cx.tree|
    requires forall f | f in filters :: forall p | p in AtomParams(f.atoms) :: Param(params, p) == Param(params', p)
    ensures Passing(db, cx, rows, filters, params) == Passing(db, cx, rows, filters, params')
  {
    if rows != [] {
      SamePasses(db, cx, rows[0], filters, params, params');
      SamePassing(db, cx, rows[1..], filters, params, params');
    }
  }

  // The first m pages of a positive size, one after another.
  function FirstPages<T>(s: seq<T>, limit: nat, m: nat): seq<T> {
    if m == 0 then [] else FirstPages(s, limit, m - 1) + Page(s, limit, (m - 1) * limit)
  }

  // Successive pages partition the list: none lost, none repeated, order kept.
  lemma PagesPartition<T>(s: seq<T>, limit: nat, m: nat)
    ensures FirstPages(s, limit, m) == s[..Min(m * limit, |s|)]
    ensures m * limit >= |s| ==> FirstPages(s, limit, m) == s
  {
    PagesReach(s, limit, m, m * limit);
    assert s[..|s|] == s;
  }

  // Enough pages give the whole list.
  ghost predicate PagesComplete<T>(s: seq<T>, limit: nat) {
    forall m: nat {:trigger EnoughPages(s, limit, m)} :: EnoughPages(s, limit, m)
  }

  ghost predicate EnoughPages<T>(s: seq<T>, limit: nat, m: nat) {
    m * limit >= |s| ==> FirstPages(s, limit, m) == s
  }

  lemma PagesCover<T>(s: seq<T>, limit: nat)
    ensures PagesComplete(s, limit)
  {
    forall m: nat ensures EnoughPages(s, limit, m) { PagesPartition(s, limit, m); }
  }

  lemma PagesOf<T>(s: seq<T>, limit: nat, offset: nat)
    ensures |Page(s, limit, offset)| == Min(limit, Max(0, |s| - offset)) && PagesComplete(s, limit)
  {
    PagesCover(s, limit);
  }

  lemma {:induction false} PagesReach<T>(s: seq<T>, limit: nat, m: nat, end: nat)
    requires end == m * limit
    ensures FirstPages(s, limit, m) == s[..Min(end, |s|)]
    decreases m
  {
    if m > 0 {
      var offset := end - limit;
      assert offset == (m - 1) * limit >= 0;
      PagesReach(s, limit, m - 1, offset);
      NextPage(s, limit, offset);
    }
  }

  lemma NextPage<T>(s: seq<T>, limit: nat, offset: nat)
    ensures s[..Min(offset, |s|)] + Page(s, limit, offset) == s[..Min(offset + limit, |s|)]
  {
    var from, to := Min(offset, |s|), Min(offset + limit, |s|);
    assert s[..from] + s[from..to] == s[..to];
  }
}
