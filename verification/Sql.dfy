// The clauses SqlGenius emits, as data, and what they mean on a database.
module Sql {
  import opened Ordering
  import opened Text

  // ---- data ----------------------------------------------------------------------------------------

  datatype Value = Null | Str(s: string)

  datatype Row = Row(id: string, cols: map<string, Value>)

  type Db = map<string, seq<Row>>

  function Rows(db: Db, table: string): seq<Row> {
    if table in db then db[table] else []
  }

  function Read(r: Row, column: string): Value {
    if column == "id" then Str(r.id) else if column in r.cols then r.cols[column] else Null
  }

  // id is the primary key of every table.
  ghost predicate DifferentIds(rows: seq<Row>, i: nat, j: nat)
    requires i < |rows| && j < |rows|
  {
    rows[i].id != rows[j].id
  }

  ghost predicate UniqueIds(rows: seq<Row>) {
    forall i: nat, j: nat {:trigger DifferentIds(rows, i, j)} | i < j < |rows| :: DifferentIds(rows, i, j)
  }

  ghost predicate DbOk(db: Db) {
    forall t :: UniqueIds(Rows(db, t))
  }

  // ---- clauses -------------------------------------------------------------------------------------

  datatype Column = Column(alias: string, name: string)

  datatype On = OnColumn(c: Column) | OnParam(name: string)

  datatype Join = Join(table: string, alias: string, on: On)

  // The operators a filter can ask for; operands are parameter names.
  datatype Atom = Ne(p: string) | Gt(p: string) | Lt(p: string) | Between(lo: string, hi: string) | Like(p: string)

  datatype Clause = Clause(column: Column, atoms: seq<Atom>)     // (a OR b OR ...)

  datatype Where =
    | Everything
    | IdIs(alias: string, p: string)
    | IdIn(alias: string, ps: seq<string>)
    | All(clauses: seq<Clause>)

  datatype SortKey = SortKey(column: Column, desc: bool)

  datatype Query = Query(
    columns: seq<Column>,
    table: string,
    alias: string,
    joins: seq<Join>,
    where_: Where,
    order: seq<SortKey>,
    paged: bool              // LIMIT $pg_limit OFFSET $pg_offset
  )

  type Params = map<string, string>

  function Param(params: Params, name: string): Value {
    if name in params then Str(params[name]) else Null
  }

  // ---- FROM and LEFT JOIN --------------------------------------------------------------------------

  // What each alias stands for; None is the row of NULLs of an unmatched LEFT JOIN.
  type Env = map<string, Option<Row>>

  function Cell(env: Env, c: Column): Value {
    if c.alias in env && env[c.alias].Some? then Read(env[c.alias].value, c.name) else Null
  }

  function OnValue(on: On, env: Env, params: Params): Value {
    match on
    case OnColumn(c) => Cell(env, c)
    case OnParam(p) => Param(params, p)
  }

  // All rows whose id equals the value; NULL equals nothing.
  function Matching(rows: seq<Row>, v: Value): seq<Row> {
    if rows == [] then []
    else (if Str(rows[0].id) == v then [rows[0]] else []) + Matching(rows[1..], v)
  }

  function Bind(env: Env, alias: string, rows: seq<Row>): seq<Env> {
    if rows == [] then [] else [env[alias := Some(rows[0])]] + Bind(env, alias, rows[1..])
  }

  function LeftJoin(db: Db, j: Join, params: Params, env: Env): seq<Env> {
    var matches := Matching(Rows(db, j.table), OnValue(j.on, env, params));
    if matches == [] then [env[j.alias := None]] else Bind(env, j.alias, matches)
  }

  function JoinAll(db: Db, j: Join, params: Params, envs: seq<Env>): seq<Env> {
    if envs == [] then [] else LeftJoin(db, j, params, envs[0]) + JoinAll(db, j, params, envs[1..])
  }

  function EvalJoins(db: Db, joins: seq<Join>, params: Params, envs: seq<Env>): seq<Env> {
    if joins == [] then envs
    else EvalJoins(db, joins[1..], params, JoinAll(db, joins[0], params, envs))
  }

  lemma {:induction false} EvalJoinsSnoc(db: Db, joins: seq<Join>, j: Join, params: Params, envs: seq<Env>)
    ensures EvalJoins(db, joins + [j], params, envs) == JoinAll(db, j, params, EvalJoins(db, joins, params, envs))
    decreases |joins|
  {
    if joins == [] {
      assert [j][1..] == [];
    } else {
      assert (joins + [j])[1..] == joins[1..] + [j];
      EvalJoinsSnoc(db, joins[1..], j, params, JoinAll(db, joins[0], params, envs));
    }
  }

  lemma {:induction false} JoinAllConcat(db: Db, j: Join, params: Params, a: seq<Env>, b: seq<Env>)
    ensures JoinAll(db, j, params, a + b) == JoinAll(db, j, params, a) + JoinAll(db, j, params, b)
    decreases |a|
  {
    if a == [] {
      assert a + b == b;
    } else {
      assert (a + b)[1..] == a[1..] + b;
      JoinAllConcat(db, j, params, a[1..], b);
    }
  }

  // The joins work on every row of the FROM table separately.
  lemma {:induction false} EvalJoinsConcat(db: Db, joins: seq<Join>, params: Params, a: seq<Env>, b: seq<Env>)
    ensures EvalJoins(db, joins, params, a + b) == EvalJoins(db, joins, params, a) + EvalJoins(db, joins, params, b)
    decreases |joins|
  {
    if joins != [] {
      JoinAllConcat(db, joins[0], params, a, b);
      EvalJoinsConcat(db, joins[1..], params, JoinAll(db, joins[0], params, a), JoinAll(db, joins[0], params, b));
    }
  }

  function FromRows(alias: string, rows: seq<Row>): seq<Env> {
    if rows == [] then [] else [map[alias := Some(rows[0])]] + FromRows(alias, rows[1..])
  }

  // ---- WHERE ---------------------------------------------------------------------------------------

  // LIKE: % stands for any text, _ for one character.
  predicate LikeMatch(s: string, pattern: string)
    decreases |pattern|, |s|
  {
    if pattern == [] then s == []
    else if pattern[0] == '%' then LikeMatch(s, pattern[1..]) || (s != [] && LikeMatch(s[1..], pattern))
    else s != [] && (pattern[0] == '_' || pattern[0] == s[0]) && LikeMatch(s[1..], pattern[1..])
  }

  // Comparisons with NULL are unknown, and unknown selects no row.
  predicate AtomHolds(v: Value, a: Atom, params: Params) {
    && v.Str?
    && match a
       case Ne(p) => Param(params, p).Str? && v.s != params[p]
       case Gt(p) => Param(params, p).Str? && StrLess(params[p], v.s)
       case Lt(p) => Param(params, p).Str? && StrLess(v.s, params[p])
       case Between(lo, hi) => Param(params, lo).Str? && Param(params, hi).Str?
                               && !StrLess(v.s, params[lo]) && !StrLess(params[hi], v.s)
       case Like(p) => Param(params, p).Str? && LikeMatch(v.s, params[p])
  }

  predicate AnyAtom(v: Value, atoms: seq<Atom>, params: Params) {
    atoms != [] && (AtomHolds(v, atoms[0], params) || AnyAtom(v, atoms[1..], params))
  }

  predicate AllClauses(env: Env, clauses: seq<Clause>, params: Params) {
    clauses == [] || (
      && AnyAtom(Cell(env, clauses[0].column), clauses[0].atoms, params)
      && AllClauses(env, clauses[1..], params))
  }

  predicate WhereHolds(env: Env, w: Where, params: Params) {
    match w
    case Everything => true
    case IdIs(alias, p) => Cell(env, Column(alias, "id")).Str? && Cell(env, Column(alias, "id")) == Param(params, p)
    case IdIn(alias, ps) =>
      Cell(env, Column(alias, "id")).Str? && exists p | p in ps :: Cell(env, Column(alias, "id")) == Param(params, p)
    case All(clauses) => AllClauses(env, clauses, params)
  }

  function Select(envs: seq<Env>, w: Where, params: Params): seq<Env> {
    if envs == [] then []
    else (if WhereHolds(envs[0], w, params) then [envs[0]] else []) + Select(envs[1..], w, params)
  }

  // ---- ORDER BY ------------------------------------------------------------------------------------

  // NULLs sort last, or first when descending, as in PostgreSQL.
  predicate ValueBefore(a: Value, b: Value) {
    match (a, b)
    case (Null, _) => false
    case (Str(_), Null) => true
    case (Str(x), Str(y)) => StrLess(x, y)
  }

  predicate Before(a: Env, b: Env, order: seq<SortKey>) {
    && order != []
    && var x, y := Cell(a, order[0].column), Cell(b, order[0].column);
       if x == y then Before(a, b, order[1..])
       else if order[0].desc then ValueBefore(y, x)
       else ValueBefore(x, y)
  }

  function Insert(e: Env, sorted: seq<Env>, order: seq<SortKey>): seq<Env> {
    if sorted == [] || Before(e, sorted[0], order) then [e] + sorted
    else [sorted[0]] + Insert(e, sorted[1..], order)
  }

  // A fixed order: by the keys, ties left as they came.
  function Sorted(envs: seq<Env>, order: seq<SortKey>): seq<Env> {
    if envs == [] then [] else Insert(envs[|envs| - 1], Sorted(envs[..|envs| - 1], order), order)
  }

  lemma {:induction false} InsertKeeps(e: Env, sorted: seq<Env>, order: seq<SortKey>)
    ensures multiset(Insert(e, sorted, order)) == multiset(sorted) + multiset{e}
    ensures |Insert(e, sorted, order)| == |sorted| + 1
  {
    if !(sorted == [] || Before(e, sorted[0], order)) {
      InsertKeeps(e, sorted[1..], order);
      assert sorted == [sorted[0]] + sorted[1..];
    }
  }

  // Sorting loses and repeats nothing.
  lemma {:induction false} SortedKeeps(envs: seq<Env>, order: seq<SortKey>)
    ensures multiset(Sorted(envs, order)) == multiset(envs)
    ensures |Sorted(envs, order)| == |envs|
  {
    if envs != [] {
      var init, last := envs[..|envs| - 1], envs[|envs| - 1];
      SortedKeeps(init, order);
      InsertKeeps(last, Sorted(init, order), order);
      assert envs == init + [last];
    }
  }

  // ---- whole queries -------------------------------------------------------------------------------

  function Result(db: Db, q: Query, params: Params): seq<Env> {
    Sorted(Select(EvalJoins(db, q.joins, params, FromRows(q.alias, Rows(db, q.table))), q.where_, params), q.order)
  }

  function Project(env: Env, columns: seq<Column>): seq<Value> {
    if columns == [] then [] else [Cell(env, columns[0])] + Project(env, columns[1..])
  }

  function ProjectAll(envs: seq<Env>, columns: seq<Column>): seq<seq<Value>> {
    if envs == [] then [] else [Project(envs[0], columns)] + ProjectAll(envs[1..], columns)
  }

  function Eval(db: Db, q: Query, params: Params): seq<seq<Value>> {
    ProjectAll(Result(db, q, params), q.columns)
  }

  // SELECT COUNT(c) counts the rows on which c is not NULL.
  function Count(envs: seq<Env>, c: Column): nat {
    if envs == [] then 0 else (if Cell(envs[0], c).Str? then 1 else 0) + Count(envs[1..], c)
  }

  // LIMIT and OFFSET.
  function Page<T>(s: seq<T>, limit: nat, offset: nat): (r: seq<T>)
    ensures |r| == Min(limit, Max(0, |s| - offset))
  {
    var from := Min(offset, |s|);
    s[from..Min(from + limit, |s|)]
  }

  // What the server sends for a query: all rows, or the page its parameters ask for.
  ghost predicate Fetches(db: Db, q: Query, params: Params, rows: seq<seq<Value>>) {
    if q.paged then
      exists limit: nat, offset: nat ::
        PageAsked(params, limit, offset) && rows == Page(Eval(db, q, params), limit, offset)
    else rows == Eval(db, q, params)
  }

  ghost predicate PageAsked(params: Params, limit: nat, offset: nat) {
    Param(params, "pg_limit") == Str(Dec(limit)) && Param(params, "pg_offset") == Str(Dec(offset))
  }
}
