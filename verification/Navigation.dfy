// Plain navigation along references, and the theorem that the emitted joins compute it.
module Navigation {
  import opened Ordering
  import opened QTree
  import opened Sql

  // The part of an RField that SQL generation looks at. val is "" when the field is null.
  datatype RField = RField(qf: QField, val: string, isNull: bool, isModified: bool)

  // Record::getRField(pqt, pf): the first field of the record with this table and field.
  function FindRField(rfields: seq<RField>, qf: QField): Option<RField> {
    if rfields == [] then None
    else if rfields[0].qf == qf then Some(rfields[0])
    else FindRField(rfields[1..], qf)
  }

  // The in-memory value that replaces a link, if the field behind it has been modified.
  function Edited(rfields: seq<RField>, qf: QField): Option<string> {
    match FindRField(rfields, qf)
    case Some(rf) => if rf.isModified then Some(rf.val) else None
    case None => None
  }

  // What the program works on; fixed during one query.
  datatype Context = Context(schema: Schema, tree: Tree, rfields: seq<RField>)

  ghost predicate ContextOk(cx: Context) {
    Shaped(cx.tree)
  }

  function LinkColumn(cx: Context, n: nat): string
    requires 1 <= n < |cx.tree| && cx.tree[n].parent.Some? && cx.tree[n].parent.value < n
  {
    SqlName(cx.schema, cx.tree[cx.tree[n].parent.value].table, cx.tree[n].fk)
  }

  // ---- navigation ----------------------------------------------------------------------------------

  function Lookup(rows: seq<Row>, v: Value): Option<Row> {
    if rows == [] then None else if Str(rows[0].id) == v then Some(rows[0]) else Lookup(rows[1..], v)
  }

  // Following the links from the master row to table n, with edited links replaced; a NULL or
  // dangling link leads nowhere.
  ghost function Nav(db: Db, cx: Context, row: Row, n: nat): Option<Row>
    requires ContextOk(cx) && n < |cx.tree|
    decreases n
  {
    if n == 0 then Some(row)
    else
      var p := cx.tree[n].parent.value;
      Lookup(Rows(db, cx.tree[n].table), LinkValue(cx, n, Nav(db, cx, row, p)))
  }

  function LinkValue(cx: Context, n: nat, parent: Option<Row>): Value
    requires 1 <= n < |cx.tree| && cx.tree[n].parent.Some? && cx.tree[n].parent.value < n
  {
    match Edited(cx.rfields, QField(cx.tree[n].parent.value, cx.tree[n].fk))
    case Some(v) => Str(v)
    case None => if parent.Some? then Read(parent.value, LinkColumn(cx, n)) else Null
  }

  function FieldColumn(cx: Context, qf: QField): Column
    requires qf.table < |cx.tree|
  {
    Column(cx.tree[qf.table].alias, SqlName(cx.schema, cx.tree[qf.table].table, qf.field))
  }

  ghost function NavField(db: Db, cx: Context, row: Row, qf: QField): Value
    requires ContextOk(cx) && qf.table < |cx.tree|
  {
    var r := Nav(db, cx, row, qf.table);
    if r.Some? then Read(r.value, FieldColumn(cx, qf).name) else Null
  }

  // ---- the joins -----------------------------------------------------------------------------------

  function SmartName(alias: string): string { "smart_join_" + alias }

  // The join build_joins writes for table n.
  function JoinOf(cx: Context, n: nat): Join
    requires 1 <= n < |cx.tree| && cx.tree[n].parent.Some? && cx.tree[n].parent.value < n
  {
    var p := cx.tree[n].parent.value;
    Join(cx.tree[n].table, cx.tree[n].alias,
         if Edited(cx.rfields, QField(p, cx.tree[n].fk)).Some? then OnParam(SmartName(cx.tree[n].alias))
         else OnColumn(Column(cx.tree[p].alias, LinkColumn(cx, n))))
  }

  ghost predicate InTree(cx: Context, order: seq<nat>) {
    forall i | 0 <= i < |order| :: 1 <= order[i] < |cx.tree|
  }

  ghost function JoinsOf(cx: Context, order: seq<nat>): seq<Join>
    requires ContextOk(cx) && InTree(cx, order)
  {
    if order == [] then [] else JoinsOf(cx, order[..|order| - 1]) + [JoinOf(cx, order[|order| - 1])]
  }

  // A join is written once for every table in the list, after the join of its parent.
  ghost predicate Scheduled(cx: Context, order: seq<nat>)
    requires ContextOk(cx)
  {
    forall i: nat {:trigger JoinedAfterParent(cx, order, i)} | i < |order| :: JoinedAfterParent(cx, order, i)
  }

  ghost predicate JoinedAfterParent(cx: Context, order: seq<nat>, i: nat)
    requires ContextOk(cx) && i < |order|
  {
    && 1 <= order[i] < |cx.tree|
    && order[i] !in order[..i]
    && (cx.tree[order[i]].parent.value == 0 || cx.tree[order[i]].parent.value in order[..i])
  }

  lemma ScheduledPrefix(cx: Context, order: seq<nat>)
    requires ContextOk(cx) && Scheduled(cx, order) && order != []
    ensures Scheduled(cx, order[..|order| - 1])
    ensures InTree(cx, order)
    ensures JoinedAfterParent(cx, order, |order| - 1)
  {
    var init := order[..|order| - 1];
    forall i: nat | i < |init| ensures JoinedAfterParent(cx, init, i) {
      assert JoinedAfterParent(cx, order, i) && init[..i] == order[..i];
    }
    forall i | 0 <= i < |order| ensures 1 <= order[i] < |cx.tree| {
      assert JoinedAfterParent(cx, order, i);
    }
    assert JoinedAfterParent(cx, order, |order| - 1);
  }

  lemma ScheduledMembers(cx: Context, order: seq<nat>)
    requires ContextOk(cx) && Scheduled(cx, order)
    ensures InTree(cx, order)
  {
    if order != [] { ScheduledPrefix(cx, order); }
  }

  // Every edited link among the joined tables has its value bound under its own name.
  ghost predicate SmartBound(cx: Context, order: seq<nat>, params: Params)
    requires ContextOk(cx)
  {
    forall n | n in order && 1 <= n < |cx.tree| ::
      var e := Edited(cx.rfields, QField(cx.tree[n].parent.value, cx.tree[n].fk));
      e.Some? ==> Param(params, SmartName(cx.tree[n].alias)) == Str(e.value)
  }

  // The bindings navigation predicts.
  ghost function Bindings(db: Db, cx: Context, row: Row, order: seq<nat>): Env
    requires ContextOk(cx) && InTree(cx, order)
  {
    if order == [] then map[MASTER := Some(row)]
    else
      var n := order[|order| - 1];
      Bindings(db, cx, row, order[..|order| - 1])[cx.tree[n].alias := Nav(db, cx, row, n)]
  }

  lemma {:induction false} BindingsHold(db: Db, cx: Context, row: Row, order: seq<nat>, n: nat)
    requires ContextOk(cx) && InTree(cx, order)
    requires n == 0 || n in order
    ensures n < |cx.tree|
    ensures cx.tree[n].alias in Bindings(db, cx, row, order)
    ensures Bindings(db, cx, row, order)[cx.tree[n].alias] == Nav(db, cx, row, n)
    decreases |order|
  {
    if order != [] {
      var init, last := order[..|order| - 1], order[|order| - 1];
      if n != last {
        BindingsHold(db, cx, row, init, n);
        if n < last { assert AliasesApart(cx.tree, n, last); } else { assert AliasesApart(cx.tree, last, n); }
      }
    }
  }

  lemma {:induction false} NothingMatches(rows: seq<Row>, v: Value)
    requires forall i | 0 <= i < |rows| :: Str(rows[i].id) != v
    ensures Matching(rows, v) == []
  {
    if rows != [] { NothingMatches(rows[1..], v); }
  }

  // With unique ids at most one row matches, and it is the one a lookup finds.
  lemma {:induction false} MatchingIsLookup(rows: seq<Row>, v: Value)
    requires UniqueIds(rows)
    ensures Matching(rows, v) == match Lookup(rows, v) case Some(r) => [r] case None => []
  {
    if rows != [] {
      var rest := rows[1..];
      if Str(rows[0].id) == v {
        forall i | 0 <= i < |rest| ensures Str(rest[i].id) != v { assert DifferentIds(rows, 0, i + 1); }
        NothingMatches(rest, v);
      } else {
        forall i: nat, j: nat | i < j < |rest| ensures DifferentIds(rest, i, j) {
          assert DifferentIds(rows, i + 1, j + 1);
        }
        MatchingIsLookup(rest, v);
      }
    }
  }

  // One join extends the single environment by the row navigation reaches.
  lemma JoinBindsNav(db: Db, cx: Context, params: Params, row: Row, order: seq<nat>)
    requires ContextOk(cx) && DbOk(db) && order != [] && Scheduled(cx, order) && SmartBound(cx, order, params)
    ensures InTree(cx, order)
    ensures JoinAll(db, JoinOf(cx, order[|order| - 1]), params, [Bindings(db, cx, row, order[..|order| - 1])])
            == [Bindings(db, cx, row, order)]
  {
    ScheduledPrefix(cx, order);
    var init, n := order[..|order| - 1], order[|order| - 1];
    var p, env, j := cx.tree[n].parent.value, Bindings(db, cx, row, init), JoinOf(cx, n);
    BindingsHold(db, cx, row, init, p);
    assert n in order;
    assert OnValue(j.on, env, params) == LinkValue(cx, n, Nav(db, cx, row, p));
    MatchingIsLookup(Rows(db, j.table), OnValue(j.on, env, params));
    var found := Nav(db, cx, row, n);
    if found.Some? {
      assert Bind(env, j.alias, [found.value]) == [env[j.alias := found]];
    }
    assert LeftJoin(db, j, params, env) == [env[j.alias := found]];
    assert JoinAll(db, j, params, [env]) == LeftJoin(db, j, params, env) + JoinAll(db, j, params, []);
  }

  // FROM ... LEFT JOIN ... on a master row gives exactly one environment, in which every alias is
  // bound to the row navigation reaches, in whatever order the tables were joined.
  lemma {:induction false} JoinsNavigate(db: Db, cx: Context, params: Params, row: Row, order: seq<nat>)
    requires ContextOk(cx) && DbOk(db) && Scheduled(cx, order) && SmartBound(cx, order, params)
    ensures InTree(cx, order)
    ensures EvalJoins(db, JoinsOf(cx, order), params, [map[MASTER := Some(row)]]) == [Bindings(db, cx, row, order)]
    decreases |order|
  {
    ScheduledMembers(cx, order);
    if order != [] {
      var init := order[..|order| - 1];
      ScheduledPrefix(cx, order);
      JoinsNavigate(db, cx, params, row, init);
      JoinBindsNav(db, cx, params, row, order);
      EvalJoinsSnoc(db, JoinsOf(cx, init), JoinOf(cx, order[|order| - 1]), params, [map[MASTER := Some(row)]]);
    }
  }

  // The environments of the whole FROM clause, one per master row.
  ghost function Environments(db: Db, cx: Context, order: seq<nat>, rows: seq<Row>): seq<Env>
    requires ContextOk(cx) && InTree(cx, order)
  {
    if rows == [] then [] else [Bindings(db, cx, rows[0], order)] + Environments(db, cx, order, rows[1..])
  }

  lemma {:induction false} FromNavigates(db: Db, cx: Context, params: Params, order: seq<nat>, rows: seq<Row>)
    requires ContextOk(cx) && DbOk(db) && Scheduled(cx, order) && SmartBound(cx, order, params)
    ensures InTree(cx, order)
    ensures EvalJoins(db, JoinsOf(cx, order), params, FromRows(MASTER, rows)) == Environments(db, cx, order, rows)
    decreases |rows|
  {
    ScheduledMembers(cx, order);
    if rows == [] {
      NoRows(db, JoinsOf(cx, order), params);
    } else {
      JoinsNavigate(db, cx, params, rows[0], order);
      FromNavigates(db, cx, params, order, rows[1..]);
      EvalJoinsConcat(db, JoinsOf(cx, order), params, [map[MASTER := Some(rows[0])]], FromRows(MASTER, rows[1..]));
    }
  }

  lemma {:induction false} NoRows(db: Db, joins: seq<Join>, params: Params)
    ensures EvalJoins(db, joins, params, []) == []
    decreases |joins|
  {
    if joins != [] { NoRows(db, joins[1..], params); }
  }

  // A cell of the environment is the field navigation reaches.
  lemma CellIsNavField(db: Db, cx: Context, row: Row, order: seq<nat>, qf: QField)
    requires ContextOk(cx) && InTree(cx, order)
    requires qf.table == 0 || qf.table in order
    ensures qf.table < |cx.tree|
    ensures Cell(Bindings(db, cx, row, order), FieldColumn(cx, qf)) == NavField(db, cx, row, qf)
  {
    BindingsHold(db, cx, row, order, qf.table);
  }

  // ---- edited links --------------------------------------------------------------------------------

  // No link from the master table down to n has been edited.
  ghost predicate Untouched(cx: Context, n: nat)
    requires ContextOk(cx) && n < |cx.tree|
    decreases n
  {
    n == 0 || (
      && Edited(cx.rfields, QField(cx.tree[n].parent.value, cx.tree[n].fk)) == None
      && Untouched(cx, cx.tree[n].parent.value))
  }

  // Paths that pass through no edited link read what is stored.
  lemma {:induction false} UntouchedPathsReadStored(db: Db, cx: Context, row: Row, n: nat)
    requires ContextOk(cx) && n < |cx.tree| && Untouched(cx, n)
    ensures Nav(db, cx, row, n) == Nav(db, cx.(rfields := []), row, n)
    decreases n
  {
    if n > 0 { UntouchedPathsReadStored(db, cx, row, cx.tree[n].parent.value); }
  }

  // An edited link decides by itself, even below a parent that is not there; a link edited to null
  // reaches no row, since no row has the empty id.
  lemma EditedLinkDecides(db: Db, cx: Context, row: Row, n: nat, v: string)
    requires ContextOk(cx) && 1 <= n < |cx.tree|
    requires Edited(cx.rfields, QField(cx.tree[n].parent.value, cx.tree[n].fk)) == Some(v)
    ensures Nav(db, cx, row, n) == Lookup(Rows(db, cx.tree[n].table), Str(v))
    ensures v == "" && (forall r | r in Rows(db, cx.tree[n].table) :: r.id != "") ==> Nav(db, cx, row, n) == None
  {
    if v == "" && forall r | r in Rows(db, cx.tree[n].table) :: r.id != "" {
      NoEmptyId(Rows(db, cx.tree[n].table));
    }
  }

  lemma {:induction false} NoEmptyId(rows: seq<Row>)
    requires forall r | r in rows :: r.id != ""
    ensures Lookup(rows, Str("")) == None
  {
    if rows != [] {
      assert rows[0] in rows;
      NoEmptyId(rows[1..]);
    }
  }
}
