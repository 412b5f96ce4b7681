// The statements as text pieces, and the ordered parameter list each of them is executed with.
module Statements {
  import opened Text
  import opened QTree
  import opened Sql
  import opened Navigation
  import opened Schedule
  import opened QueryMeaning
  import opened Editing
  import F = Filter
  import G = SqlGenius
  import opened Tokens

  // ---- text without placeholders -------------------------------------------------------------------------

  predicate Plain(s: string) { '$' !in s }

  lemma NameIsPlain(s: string)
    requires IsName(s)
    ensures Plain(s)
  {}

  // ---- rendering -----------------------------------------------------------------------------------------

  function Col(c: Column): string { c.alias + "." + c.name }

  function ColumnList(columns: seq<Column>): string {
    if columns == [] then ""
    else
      var init, c := columns[..|columns| - 1], columns[|columns| - 1];
      ColumnList(init) + (if init == [] then "" else ", ") + Col(c) + " AS " + c.alias + "_" + c.name
  }

  function SortList(order: seq<SortKey>): string {
    if order == [] then ""
    else
      var init, k := order[..|order| - 1], order[|order| - 1];
      SortList(init) + (if init == [] then "" else ", ") + Col(k.column) + (if k.desc then " DESC" else "")
  }

  function JoinToks(j: Join): seq<Tok> {
    match j.on
    case OnParam(p) => [Txt(JoinHead(j)), Par(p)]
    case OnColumn(c) => [Txt(JoinHead(j)), Txt(Col(c))]
  }

  function JoinsToks(joins: seq<Join>): seq<Tok> {
    if joins == [] then [] else JoinsToks(joins[..|joins| - 1]) + JoinToks(joins[|joins| - 1])
  }

  function Separator(head: string, names: seq<string>): string {
    if |names| == 1 then head else ", "
  }

  function ListToks(head: string, names: seq<string>): seq<Tok> {
    if names == [] then []
    else ListToks(head, names[..|names| - 1]) + [Txt(Separator(head, names)), Par(names[|names| - 1])]
  }

  function AtomToks(head: string, a: Atom): seq<Tok> {
    match a
    case Ne(p) => [Txt(head + " != "), Par(p)]
    case Gt(p) => [Txt(head + " > "), Par(p)]
    case Lt(p) => [Txt(head + " < "), Par(p)]
    case Between(lo, hi) => [Txt(head + " BETWEEN "), Par(lo)] + [Txt(" AND "), Par(hi)]
    case Like(p) => [Txt(head + " LIKE "), Par(p)]
  }

  function AtomsToks(column: Column, atoms: seq<Atom>): seq<Tok> {
    if atoms == [] then []
    else AtomsToks(column, atoms[..|atoms| - 1])
         + AtomToks((if |atoms| == 1 then "" else " OR ") + Col(column), atoms[|atoms| - 1])
  }

  function ClausesToks(clauses: seq<Clause>): seq<Tok> {
    if clauses == [] then []
    else
      var c := clauses[|clauses| - 1];
      ClausesToks(clauses[..|clauses| - 1])
      + ClauseToks(ClauseHead(clauses), c)
  }

  function ClauseHead(clauses: seq<Clause>): string { if |clauses| == 1 then "\nWHERE " else " AND " }

  function ClauseToks(head: string, c: Clause): seq<Tok> {
    [Txt(head + "(")] + AtomsToks(c.column, c.atoms) + [Txt(")")]
  }

  function WhereToks(w: Where): seq<Tok> {
    match w
    case Everything => []
    case IdIs(a, p) => [Txt("\nWHERE " + a + ".id = "), Par(p)]
    case IdIn(a, ps) => ListToks("\nWHERE " + a + ".id IN (", ps) + [Txt(")")]
    case All(clauses) => ClausesToks(clauses)
  }

  function OrderToks(order: seq<SortKey>): seq<Tok> {
    if order == [] then [] else [Txt("\nORDER BY " + SortList(order))]
  }

  function LimitToks(): seq<Tok> {
    [Txt("\nLIMIT "), Par("pg_limit"), Txt(" OFFSET "), Par("pg_offset")]
  }

  function TailToks(q: Query): seq<Tok> {
    OrderToks(q.order) + (if q.paged then LimitToks() else []) + [Txt(";")]
  }

  // select is "SELECT ..." up to FROM.
  function Render(select: string, q: Query): seq<Tok> {
    [Txt(select)] + ([Txt(FromHead(q))] + JoinsToks(q.joins) + WhereToks(q.where_) + TailToks(q))
  }

  function FromHead(q: Query): string { "\nFROM " + q.table + " AS " + q.alias }

  function SelectFields(q: Query): string { "SELECT " + ColumnList(q.columns) }

  function SelectCount(): string { "SELECT COUNT(" + MASTER + ".id)" }

  function SelectIds(): string { "SELECT " + MASTER + ".id" }

  function DeleteByIds(table: string, ids: seq<string>): seq<Tok> {
    [Txt(DeleteHead(table))] + (ListToks(IdInHead(), G.IdNames(|ids|)) + [Txt(DeleteEnd())])
  }

  function DeleteHead(table: string): string { "DELETE FROM " + table }

  function DeleteEnd(): string { ");" }

  function IdInHead(): string { "\nWHERE id IN (" }

  // ---- which placeholders ----------------------------------------------------------------------------------

  function JoinNames(joins: seq<Join>): seq<string> {
    if joins == [] then []
    else JoinNames(joins[..|joins| - 1])
         + match joins[|joins| - 1].on case OnParam(p) => [p] case OnColumn(_) => []
  }

  function ClauseNames(clauses: seq<Clause>): seq<string> {
    if clauses == [] then [] else ClauseNames(clauses[..|clauses| - 1]) + F.Names(clauses[|clauses| - 1].atoms)
  }

  function WhereNames(w: Where): seq<string> {
    match w
    case Everything => []
    case IdIs(_, p) => [p]
    case IdIn(_, ps) => ps
    case All(clauses) => ClauseNames(clauses)
  }

  function PageNames(q: Query): seq<string> { if q.paged then ["pg_limit", "pg_offset"] else [] }

  // A run of pieces that can follow anything.
  predicate Piece(toks: seq<Tok>) { Scannable(toks) && Stops(toks) }

  lemma PieceConcat(a: seq<Tok>, b: seq<Tok>)
    requires Piece(a) && Piece(b)
    ensures Piece(a + b) && NamesOf(a + b) == NamesOf(a) + NamesOf(b)
  {
    ScannableConcat(a, b);
    NamesConcat(a, b);
    if a != [] { assert (a + b)[0] == a[0]; } else { assert a + b == b; }
  }

  predicate GoodParam(p: string) { p != "" && IsName(p) }

  // A text that may stand before a placeholder or after one.
  predicate Head(s: string) { Plain(s) && s != "" && !IsNameChar(s[0]) }

  lemma HeadConcat(a: string, b: string)
    requires Head(a) && Plain(b)
    ensures Head(a + b)
  {}

  lemma TextPiece(s: string)
    requires Head(s)
    ensures Piece([Txt(s)]) && NamesOf([Txt(s)]) == []
  {
    var t := [Txt(s)];
    assert t[1..] == [];
    assert NamesOf(t) == NamesOf(t[1..]);
  }

  lemma TwoTexts(s: string, r: string)
    requires Head(s) && Plain(r)
    ensures Piece([Txt(s), Txt(r)]) && NamesOf([Txt(s), Txt(r)]) == []
  {
    var t := [Txt(s), Txt(r)];
    assert t[1..] == [Txt(r)] && t[1..][1..] == [];
    assert Scannable(t[1..]);
    assert NamesOf(t[1..]) == NamesOf(t[1..][1..]);
    assert NamesOf(t) == NamesOf(t[1..]);
  }

  lemma LeadScans(s: string, p: string)
    requires Plain(s) && GoodParam(p)
    ensures Scannable([Txt(s), Par(p)]) && NamesOf([Txt(s), Par(p)]) == [p]
  {
    var t := [Txt(s), Par(p)];
    assert t[1..] == [Par(p)] && t[1..][1..] == [];
    assert Scannable(t[1..]);
    assert NamesOf(t[1..]) == [p] + NamesOf(t[1..][1..]);
    assert NamesOf(t) == [] + NamesOf(t[1..]);
  }

  lemma OnePiece(s: string, p: string)
    requires Head(s) && GoodParam(p)
    ensures Piece([Txt(s), Par(p)]) && NamesOf([Txt(s), Par(p)]) == [p]
  {
    LeadScans(s, p);
  }

  // ---- the pieces of a statement ---------------------------------------------------------------------------

  predicate PlainColumn(c: Column) { IsName(c.alias) && IsName(c.name) }

  predicate PlainJoin(j: Join) {
    && IsName(j.table) && IsName(j.alias)
    && match j.on case OnParam(p) => GoodParam(p) case OnColumn(c) => PlainColumn(c)
  }

  lemma PlainCol(c: Column)
    requires PlainColumn(c)
    ensures Plain(Col(c))
  {
    NameIsPlain(c.alias);
    NameIsPlain(c.name);
  }

  function JoinHead(j: Join): string {
    "\nLEFT JOIN " + j.table + " AS " + j.alias + " ON " + j.alias + ".id = "
  }

  lemma JoinHeadIsHead(j: Join)
    requires IsName(j.table) && IsName(j.alias)
    ensures Head(JoinHead(j))
  {
    NameIsPlain(j.table);
    NameIsPlain(j.alias);
  }

  lemma JoinPiece(j: Join)
    requires PlainJoin(j)
    ensures Piece(JoinToks(j))
    ensures NamesOf(JoinToks(j)) == match j.on case OnParam(p) => [p] case OnColumn(_) => []
  {
    JoinHeadIsHead(j);
    match j.on
    case OnParam(p) => OnePiece(JoinHead(j), p);
    case OnColumn(c) =>
      PlainCol(c);
      TwoTexts(JoinHead(j), Col(c));
  }

  lemma {:induction false} JoinsPiece(joins: seq<Join>)
    requires forall i | 0 <= i < |joins| :: PlainJoin(joins[i])
    ensures Piece(JoinsToks(joins)) && NamesOf(JoinsToks(joins)) == JoinNames(joins)
  {
    if joins != [] {
      JoinsPiece(joins[..|joins| - 1]);
      JoinPiece(joins[|joins| - 1]);
      PieceConcat(JoinsToks(joins[..|joins| - 1]), JoinToks(joins[|joins| - 1]));
    }
  }

  lemma {:induction false} ListPiece(head: string, names: seq<string>)
    requires Head(head)
    requires forall i | 0 <= i < |names| :: GoodParam(names[i])
    ensures Piece(ListToks(head, names)) && NamesOf(ListToks(head, names)) == names
  {
    if names != [] {
      var init, last := names[..|names| - 1], names[|names| - 1];
      var sep := Separator(head, names);
      ListPiece(head, init);
      SeparatorIsHead(head, names);
      OnePiece(sep, last);
      PieceConcat(ListToks(head, init), [Txt(sep), Par(last)]);
      assert names == init + [last];
    }
  }

  lemma SeparatorIsHead(head: string, names: seq<string>)
    requires Head(head)
    ensures Head(Separator(head, names))
  {}

  predicate PlainAtom(a: Atom) {
    match a
    case Ne(p) => GoodParam(p)
    case Gt(p) => GoodParam(p)
    case Lt(p) => GoodParam(p)
    case Between(lo, hi) => GoodParam(lo) && GoodParam(hi)
    case Like(p) => GoodParam(p)
  }

  // Text that a placeholder may follow; it need not be one that can follow a placeholder.
  predicate Lead(s: string) { Plain(s) && s != "" }

  lemma AtomScans(head: string, a: Atom)
    requires PlainAtom(a) && Lead(head)
    ensures Scannable(AtomToks(head, a)) && NamesOf(AtomToks(head, a)) == F.AtomNames(a)
    ensures AtomToks(head, a)[0].Txt? && head <= AtomToks(head, a)[0].s
  {
    match a
    case Ne(p) => LeadScans(head + " != ", p);
    case Gt(p) => LeadScans(head + " > ", p);
    case Lt(p) => LeadScans(head + " < ", p);
    case Between(lo, hi) =>
      LeadScans(head + " BETWEEN ", lo);
      OnePiece(" AND ", hi);
      ScannableConcat([Txt(head + " BETWEEN "), Par(lo)], [Txt(" AND "), Par(hi)]);
      NamesConcat([Txt(head + " BETWEEN "), Par(lo)], [Txt(" AND "), Par(hi)]);
    case Like(p) => LeadScans(head + " LIKE ", p);
  }

  lemma {:induction false} AtomsScan(column: Column, atoms: seq<Atom>)
    requires PlainColumn(column) && forall i | 0 <= i < |atoms| :: PlainAtom(atoms[i])
    ensures Scannable(AtomsToks(column, atoms)) && NamesOf(AtomsToks(column, atoms)) == F.Names(atoms)
  {
    if atoms != [] {
      var init, last := atoms[..|atoms| - 1], atoms[|atoms| - 1];
      var head := (if |atoms| == 1 then "" else " OR ") + Col(column);
      PlainCol(column);
      assert "." <= Col(column)[|column.alias|..];
      AtomsScan(column, init);
      AtomScans(head, last);
      if |atoms| == 1 {
        assert AtomsToks(column, init) + AtomToks(head, last) == AtomToks(head, last);
      } else {
        assert head[0] == ' ' && Stops(AtomToks(head, last));
        ScannableConcat(AtomsToks(column, init), AtomToks(head, last));
      }
      NamesConcat(AtomsToks(column, init), AtomToks(head, last));
    }
  }

  predicate PlainClause(c: Clause) {
    PlainColumn(c.column) && forall i | 0 <= i < |c.atoms| :: PlainAtom(c.atoms[i])
  }

  lemma ClausePiece(head: string, c: Clause)
    requires PlainClause(c) && Head(head)
    ensures Piece(ClauseToks(head, c)) && NamesOf(ClauseToks(head, c)) == F.Names(c.atoms)
  {
    HeadConcat(head, "(");
    TextPiece(head + "(");
    TextPiece(")");
    AtomsScan(c.column, c.atoms);
    BracketPiece([Txt(head + "(")], AtomsToks(c.column, c.atoms), [Txt(")")]);
  }

  lemma BracketPiece(open: seq<Tok>, toks: seq<Tok>, close: seq<Tok>)
    requires Piece(open) && open != [] && open[|open| - 1].Txt? && Scannable(toks) && Piece(close)
    ensures Piece(open + toks + close) && NamesOf(open + toks + close) == NamesOf(open) + NamesOf(toks) + NamesOf(close)
  {
    ScannableConcat(open, toks);
    NamesConcat(open, toks);
    PieceConcat(open + toks, close);
  }

  lemma {:induction false} ClausesPiece(clauses: seq<Clause>)
    requires forall i | 0 <= i < |clauses| :: PlainClause(clauses[i])
    ensures Piece(ClausesToks(clauses)) && NamesOf(ClausesToks(clauses)) == ClauseNames(clauses)
  {
    if clauses != [] {
      var init, c := clauses[..|clauses| - 1], clauses[|clauses| - 1];
      ClausesPiece(init);
      ClauseHeadIsHead(clauses);
      ClausePiece(ClauseHead(clauses), c);
      PieceConcat(ClausesToks(init), ClauseToks(ClauseHead(clauses), c));
    }
  }

  lemma ClauseHeadIsHead(clauses: seq<Clause>)
    ensures Head(ClauseHead(clauses))
  {}

  predicate PlainWhere(w: Where) {
    match w
    case Everything => true
    case IdIs(a, p) => IsName(a) && GoodParam(p)
    case IdIn(a, ps) => IsName(a) && forall i | 0 <= i < |ps| :: GoodParam(ps[i])
    case All(clauses) => forall i | 0 <= i < |clauses| :: PlainClause(clauses[i])
  }

  lemma WherePiece(w: Where)
    requires PlainWhere(w)
    ensures Piece(WhereToks(w)) && NamesOf(WhereToks(w)) == WhereNames(w)
  {
    match w
    case Everything =>
    case IdIs(a, p) =>
      NameIsPlain(a);
      OnePiece("\nWHERE " + a + ".id = ", p);
    case IdIn(a, ps) =>
      NameIsPlain(a);
      var head := "\nWHERE " + a + ".id IN (";
      ListPiece(head, ps);
      TextPiece(")");
      PieceConcat(ListToks(head, ps), [Txt(")")]);
    case All(clauses) => ClausesPiece(clauses);
  }

  lemma {:induction false} SortListPlain(order: seq<SortKey>)
    requires forall i | 0 <= i < |order| :: PlainColumn(order[i].column)
    ensures Plain(SortList(order))
  {
    if order != [] {
      SortListPlain(order[..|order| - 1]);
      PlainCol(order[|order| - 1].column);
    }
  }

  lemma {:induction false} ColumnListPlain(columns: seq<Column>)
    requires forall i | 0 <= i < |columns| :: PlainColumn(columns[i])
    ensures Plain(ColumnList(columns))
  {
    if columns != [] {
      ColumnListPlain(columns[..|columns| - 1]);
      PlainCol(columns[|columns| - 1]);
      NameIsPlain(columns[|columns| - 1].alias);
      NameIsPlain(columns[|columns| - 1].name);
    }
  }

  lemma OrderPiece(order: seq<SortKey>)
    requires forall i | 0 <= i < |order| :: PlainColumn(order[i].column)
    ensures Piece(OrderToks(order)) && NamesOf(OrderToks(order)) == []
  {
    SortListPlain(order);
    if order != [] {
      HeadConcat("\nORDER BY ", SortList(order));
      TextPiece("\nORDER BY " + SortList(order));
    }
  }

  lemma LimitPiece()
    ensures Piece(LimitToks()) && NamesOf(LimitToks()) == ["pg_limit", "pg_offset"]
  {
    var x, y := [Txt("\nLIMIT "), Par("pg_limit")], [Txt(" OFFSET "), Par("pg_offset")];
    OnePiece("\nLIMIT ", "pg_limit");
    OnePiece(" OFFSET ", "pg_offset");
    PieceConcat(x, y);
    assert LimitToks() == x + y;
  }

  lemma TailPiece(q: Query)
    requires forall i | 0 <= i < |q.order| :: PlainColumn(q.order[i].column)
    ensures Piece(TailToks(q)) && NamesOf(TailToks(q)) == PageNames(q)
  {
    var limit: seq<Tok> := if q.paged then LimitToks() else [];
    OrderPiece(q.order);
    LimitPiece();
    TextPiece(";");
    PieceConcat(OrderToks(q.order), limit);
    PieceConcat(OrderToks(q.order) + limit, [Txt(";")]);
  }

  // Every name that ends up in the text is an identifier.
  predicate PlainQuery(q: Query) {
    && IsName(q.table) && IsName(q.alias)
    && (forall i | 0 <= i < |q.columns| :: PlainColumn(q.columns[i]))
    && (forall i | 0 <= i < |q.joins| :: PlainJoin(q.joins[i]))
    && PlainWhere(q.where_)
    && (forall i | 0 <= i < |q.order| :: PlainColumn(q.order[i].column))
  }

  lemma FirstText(s: string, rest: seq<Tok>)
    requires Plain(s) && Scannable(rest)
    ensures Scannable([Txt(s)] + rest) && NamesOf([Txt(s)] + rest) == NamesOf(rest)
  {
    assert ([Txt(s)] + rest)[1..] == rest;
    assert NamesOf([Txt(s)] + rest) == [] + NamesOf(rest);
  }

  lemma FromIsHead(q: Query)
    requires IsName(q.table) && IsName(q.alias)
    ensures Head(FromHead(q))
  {
    NameIsPlain(q.table);
    NameIsPlain(q.alias);
  }

  // The placeholders of a statement: those of the joins, then of WHERE, then of the page.
  lemma StatementScans(select: string, q: Query)
    requires PlainQuery(q) && Plain(select)
    ensures Scannable(Render(select, q))
    ensures NamesOf(Render(select, q)) == JoinNames(q.joins) + WhereNames(q.where_) + PageNames(q)
  {
    FromIsHead(q);
    TextPiece(FromHead(q));
    JoinsPiece(q.joins);
    WherePiece(q.where_);
    TailPiece(q);
    FourPieces([Txt(FromHead(q))], JoinsToks(q.joins), WhereToks(q.where_), TailToks(q));
    FirstText(select, [Txt(FromHead(q))] + JoinsToks(q.joins) + WhereToks(q.where_) + TailToks(q));
    assert [] + JoinNames(q.joins) == JoinNames(q.joins);
  }

  lemma FourPieces(a: seq<Tok>, b: seq<Tok>, c: seq<Tok>, d: seq<Tok>)
    requires Piece(a) && Piece(b) && Piece(c) && Piece(d)
    ensures Piece(a + b + c + d) && NamesOf(a + b + c + d) == NamesOf(a) + NamesOf(b) + NamesOf(c) + NamesOf(d)
  {
    PieceConcat(a, b);
    PieceConcat(a + b, c);
    PieceConcat(a + b + c, d);
  }

  // ---- executed parameters ---------------------------------------------------------------------------------

  // What getOrderedParams makes of the printed statement.
  function Ordered(toks: seq<Tok>, params: Params): Result {
    Finish(Steps(Scanning(false, "", []), Print(toks), params), params)
  }

  lemma {:induction false} CollectBound(names: seq<string>, values: seq<string>, params: Params)
    requires |names| == |values| && forall i | 0 <= i < |names| :: Param(params, names[i]) == Str(values[i])
    ensures Collect(names, params) == Ok(values)
  {
    if names != [] {
      assert Param(params, names[0]) == Str(values[0]);
      CollectBound(names[1..], values[1..], params);
    }
  }

  // Join placeholders carry the edited values, in join order.
  lemma {:induction false} JoinValues(cx: Context, order: seq<nat>, params: Params)
    requires ContextOk(cx) && InTree(cx, order) && SmartBound(cx, order, params)
    ensures Collect(JoinNames(JoinsOf(cx, order)), params) == Ok(SmartValues(cx, order))
    decreases |order|
  {
    if order != [] {
      var init, n := order[..|order| - 1], order[|order| - 1];
      var js := JoinsOf(cx, order);
      JoinValues(cx, init, params);
      assert js[..|js| - 1] == JoinsOf(cx, init) && js[|js| - 1] == JoinOf(cx, n);
      assert n in order;
      var e := Edited(cx.rfields, QField(cx.tree[n].parent.value, cx.tree[n].fk));
      match e
      case Some(v) =>
        var name := SmartName(cx.tree[n].alias);
        CollectBound([name], [v], params);
        CollectConcat(JoinNames(JoinsOf(cx, init)), [name], params);
      case None =>
        assert JoinNames(js) == JoinNames(JoinsOf(cx, init));
    }
  }

  // All names of the model are identifiers.
  predicate PlainContext(cx: Context) {
    && (forall i | 0 <= i < |cx.tree| :: IsName(cx.tree[i].table) && IsName(cx.tree[i].alias) && IsName(cx.tree[i].fk))
  }

  predicate PlainFields(fields: seq<QField>) { forall f | f in fields :: IsName(f.field) }

  lemma {:induction false} PlainColumns(cx: Context, fields: seq<QField>)
    requires PlainContext(cx) && PlainFields(fields) && G.FieldsIn(cx.tree, fields)
    ensures |Columns(cx, fields)| == |fields| && forall i | 0 <= i < |fields| :: PlainColumn(Columns(cx, fields)[i])
  {
    if fields != [] {
      assert fields[0] in fields;
      PlainColumns(cx, fields[1..]);
    }
  }

  lemma {:induction false} PlainJoins(cx: Context, order: seq<nat>)
    requires ContextOk(cx) && PlainContext(cx) && InTree(cx, order)
    ensures forall i | 0 <= i < |JoinsOf(cx, order)| :: PlainJoin(JoinsOf(cx, order)[i])
    decreases |order|
  {
    if order != [] { PlainJoins(cx, order[..|order| - 1]); }
  }

  lemma SelectOneNames(cx: Context, q: Query, params: Params, order: seq<nat>, fields: seq<QField>, id: string)
    requires ContextOk(cx) && PlainContext(cx) && PlainFields(fields) && G.FieldsIn(cx.tree, fields)
    requires G.SelectOneShape(cx, q, params, order, fields, id)
    ensures Scannable(Render(SelectFields(q), q))
    ensures NamesOf(Render(SelectFields(q), q)) == JoinNames(q.joins) + ["id"]
  {
    PlainColumns(cx, fields);
    PlainJoins(cx, order);
    ColumnListPlain(q.columns);
    assert cx.tree[0].alias == MASTER;
    StatementScans(SelectFields(q), q);
  }

  // gen_select_one is executed with the edited values in join order, then the id.
  lemma SelectOneParams(cx: Context, q: Query, params: Params, order: seq<nat>, fields: seq<QField>, id: string)
    requires ContextOk(cx) && PlainContext(cx) && PlainFields(fields) && G.FieldsIn(cx.tree, fields)
    requires G.SelectOneShape(cx, q, params, order, fields, id)
    ensures Ordered(Render(SelectFields(q), q), params) == Ok(SmartValues(cx, order) + [id])
  {
    SelectOneNames(cx, q, params, order, fields, id);
    ScannerReadsPlaceholders(Render(SelectFields(q), q), params);
    SmartParamsNames(cx, order);
    SmartIsBound(cx, order, params);
    JoinValues(cx, order, params);
    CollectBound(["id"], [id], params);
    CollectConcat(JoinNames(q.joins), ["id"], params);
  }

  lemma GoodIdNames(n: nat)
    ensures |G.IdNames(n)| == n && forall i: nat | i < n :: G.IdNames(n)[i] == G.IdName(i) && GoodParam(G.IdNames(n)[i])
  {
    G.IdNamesAt(n);
    forall i: nat | i < n ensures GoodParam(G.IdName(i)) { DecIsName(i); }
  }

  // gen_select_by_ids is executed with the edited values in join order, then the ids as given.
  lemma SelectByIdsParams(cx: Context, q: Query, params: Params, order: seq<nat>, fields: seq<QField>, ids: seq<string>)
    requires ContextOk(cx) && PlainContext(cx) && PlainFields(fields) && G.FieldsIn(cx.tree, fields)
    requires G.ByIdsShape(cx, q, params, order, fields, ids)
    requires forall i | 0 <= i < |q.order| :: PlainColumn(q.order[i].column)
    ensures Ordered(Render(SelectFields(q), q), params) == Ok(SmartValues(cx, order) + ids)
  {
    PlainColumns(cx, fields);
    PlainJoins(cx, order);
    ColumnListPlain(q.columns);
    GoodIdNames(|ids|);
    assert cx.tree[0].alias == MASTER;
    StatementScans(SelectFields(q), q);
    ScannerReadsPlaceholders(Render(SelectFields(q), q), params);
    G.ByIdsSmartBound(cx, order, params, ids);
    JoinValues(cx, order, params);
    forall i | 0 <= i < |ids| ensures Param(params, G.IdNames(|ids|)[i]) == Str(ids[i]) {
      G.IdParamsAt(SmartParams(cx, order), ids, i);
    }
    CollectBound(G.IdNames(|ids|), ids, params);
    CollectConcat(JoinNames(q.joins), G.IdNames(|ids|), params);
    assert NamesOf(Render(SelectFields(q), q)) == JoinNames(q.joins) + G.IdNames(|ids|);
  }

  lemma DeleteHeads(table: string)
    requires IsName(table)
    ensures Head(IdInHead()) && Head(DeleteEnd()) && Plain(DeleteHead(table))
  {
    NameIsPlain(table);
  }

  lemma DeletePiece(table: string, ids: seq<string>)
    requires IsName(table)
    ensures Scannable(DeleteByIds(table, ids)) && NamesOf(DeleteByIds(table, ids)) == G.IdNames(|ids|)
  {
    var names := G.IdNames(|ids|);
    var list, end := ListToks(IdInHead(), names), [Txt(DeleteEnd())];
    DeleteHeads(table);
    GoodIdNames(|ids|);
    ListPiece(IdInHead(), names);
    TextPiece(DeleteEnd());
    PieceConcat(list, end);
    FirstText(DeleteHead(table), list + end);
    assert names + [] == names;
  }

  // gen_delete_by_ids is executed with exactly the ids it was given, in order.
  lemma DeleteByIdsParams(table: string, ids: seq<string>)
    requires IsName(table)
    ensures Ordered(DeleteByIds(table, ids), G.IdParams(map[], ids)) == Ok(ids)
  {
    var params := G.IdParams(map[], ids);
    DeletePiece(table, ids);
    ScannerReadsPlaceholders(DeleteByIds(table, ids), params);
    GoodIdNames(|ids|);
    forall i | 0 <= i < |ids| ensures Param(params, G.IdNames(|ids|)[i]) == Str(ids[i]) {
      G.IdParamsAt(map[], ids, i);
    }
    CollectBound(G.IdNames(|ids|), ids, params);
  }

  // ---- writing ---------------------------------------------------------------------------------------------

  function AssignToks(columns: seq<string>): seq<Tok> {
    if columns == [] then []
    else
      var c := columns[|columns| - 1];
      AssignToks(columns[..|columns| - 1]) + [Txt(Separator(" ", columns) + c + " = "), Par(c)]
  }

  function ColumnNames(columns: seq<string>): string {
    if columns == [] then ""
    else
      var init, c := columns[..|columns| - 1], columns[|columns| - 1];
      ColumnNames(init) + (if init == [] then "" else ", ") + c
  }

  function RenderUpdate(table: string, columns: seq<string>): seq<Tok> {
    [Txt("UPDATE " + table + " SET")] + (AssignToks(columns) + IdIsToks() + [Txt(";")])
  }

  function IdIsToks(): seq<Tok> { [Txt("\nWHERE " + MASTER + ".id = "), Par("id")] }

  function RenderInsert(table: string, columns: seq<string>): seq<Tok> {
    [Txt("INSERT INTO " + table + " (" + ColumnNames(columns) + ") VALUES")]
    + (ListToks(" (", columns) + [Txt(ReturningId())])
  }

  function ReturningId(): string { ") RETURNING id;" }

  lemma {:induction false} AssignPiece(columns: seq<string>)
    requires forall i | 0 <= i < |columns| :: GoodParam(columns[i])
    ensures Piece(AssignToks(columns)) && NamesOf(AssignToks(columns)) == columns
  {
    if columns != [] {
      var init, c := columns[..|columns| - 1], columns[|columns| - 1];
      var sep := Separator(" ", columns);
      AssignPiece(init);
      SeparatorIsHead(" ", columns);
      NameIsPlain(c);
      HeadConcat(sep, c);
      HeadConcat(sep + c, " = ");
      OnePiece(sep + c + " = ", c);
      PieceConcat(AssignToks(init), [Txt(sep + c + " = "), Par(c)]);
      assert columns == init + [c];
    }
  }

  lemma {:induction false} ColumnNamesPlain(columns: seq<string>)
    requires forall i | 0 <= i < |columns| :: GoodParam(columns[i])
    ensures Plain(ColumnNames(columns))
  {
    if columns != [] {
      ColumnNamesPlain(columns[..|columns| - 1]);
      NameIsPlain(columns[|columns| - 1]);
    }
  }

  lemma IdIsPiece()
    ensures Piece(IdIsToks()) && NamesOf(IdIsToks()) == ["id"]
  {
    NameIsPlain(MASTER);
    OnePiece("\nWHERE " + MASTER + ".id = ", "id");
  }

  lemma UpdateScans(table: string, columns: seq<string>)
    requires IsName(table) && forall i | 0 <= i < |columns| :: GoodParam(columns[i])
    ensures Scannable(RenderUpdate(table, columns)) && NamesOf(RenderUpdate(table, columns)) == columns + ["id"]
  {
    NameIsPlain(table);
    AssignPiece(columns);
    IdIsPiece();
    TextPiece(";");
    PieceConcat(AssignToks(columns), IdIsToks());
    PieceConcat(AssignToks(columns) + IdIsToks(), [Txt(";")]);
    FirstText("UPDATE " + table + " SET", AssignToks(columns) + IdIsToks() + [Txt(";")]);
  }

  lemma InsertScans(table: string, columns: seq<string>)
    requires IsName(table) && forall i | 0 <= i < |columns| :: GoodParam(columns[i])
    ensures Scannable(RenderInsert(table, columns)) && NamesOf(RenderInsert(table, columns)) == columns
  {
    NameIsPlain(table);
    ColumnNamesPlain(columns);
    ListPiece(" (", columns);
    TextPiece(ReturningId());
    PieceConcat(ListToks(" (", columns), [Txt(ReturningId())]);
    FirstText("INSERT INTO " + table + " (" + ColumnNames(columns) + ") VALUES",
              ListToks(" (", columns) + [Txt(ReturningId())]);
    assert columns + [] == columns;
  }

  // The names of the record's fields are identifiers, and no two stand for one column.
  predicate PlainRecord(rfields: seq<RField>) {
    forall i | 0 <= i < |rfields| :: IsName(rfields[i].qf.field) && rfields[i].qf.field != ""
  }

  lemma {:induction false} WrittenAreBound(cx: Context, rfields: seq<RField>)
    requires cx.tree != [] && ColumnsApart(cx, rfields) && PlainRecord(rfields)
    ensures |WrittenColumns(cx, rfields)| == |WrittenValues(rfields)|
    ensures forall i | 0 <= i < |WrittenColumns(cx, rfields)| ::
              && GoodParam(WrittenColumns(cx, rfields)[i])
              && Param(AssignedParams(cx, rfields), WrittenColumns(cx, rfields)[i]) == Str(WrittenValues(rfields)[i])
  {
    if rfields != [] {
      var k := |rfields| - 1;
      var init, rf := rfields[..k], rfields[k];
      forall a: nat, b: nat | a < b < k ensures ApartAt(cx, init, a, b) { assert ApartAt(cx, rfields, a, b); }
      WrittenAreBound(cx, init);
      if Written(rf) {
        ColumnIsGood(cx, rf);
        forall i | 0 <= i < |WrittenColumns(cx, init)| ensures WrittenColumns(cx, init)[i] != ColumnOf(cx, rf) {
          NotYetWritten(cx, rfields, k, WrittenColumns(cx, init)[i]);
        }
      }
    }
  }

  lemma ColumnIsGood(cx: Context, rf: RField)
    requires cx.tree != [] && IsName(rf.qf.field) && rf.qf.field != ""
    ensures GoodParam(ColumnOf(cx, rf))
  {}

  lemma NotYetWritten(cx: Context, rfields: seq<RField>, k: nat, c: string)
    requires cx.tree != [] && ColumnsApart(cx, rfields) && k < |rfields| && Written(rfields[k])
    requires c in WrittenColumns(cx, rfields[..k])
    ensures c != ColumnOf(cx, rfields[k])
  {
    var init := rfields[..k];
    AssignedAreSets(cx, init);
    SetsNames(cx, init);
    assert c in Assigned(WrittenColumns(cx, init), AssignedParams(cx, init));
    var i :| 0 <= i < |init| && init[i].qf.table == 0 && ColumnOf(cx, init[i]) == c;
    assert rfields[i] == init[i];
    assert ApartAt(cx, rfields, i, k);
  }

  // gen_insert is executed with the edited values in field order.
  lemma InsertParams(cx: Context)
    requires RecordOk(cx) && PlainRecord(cx.rfields) && IsName(cx.tree[0].table)
    ensures Ordered(RenderInsert(cx.tree[0].table, WrittenColumns(cx, cx.rfields)), AssignedParams(cx, cx.rfields))
            == Ok(WrittenValues(cx.rfields))
  {
    var columns := WrittenColumns(cx, cx.rfields);
    RecordColumnsApart(cx);
    WrittenAreBound(cx, cx.rfields);
    InsertScans(cx.tree[0].table, columns);
    ScannerReadsPlaceholders(RenderInsert(cx.tree[0].table, columns), AssignedParams(cx, cx.rfields));
    CollectBound(columns, WrittenValues(cx.rfields), AssignedParams(cx, cx.rfields));
  }

  // gen_update is executed with the edited values in field order, then the id.
  lemma UpdateParams(cx: Context, id: string)
    requires RecordOk(cx) && PlainRecord(cx.rfields) && IsName(cx.tree[0].table)
    ensures Ordered(RenderUpdate(cx.tree[0].table, WrittenColumns(cx, cx.rfields)),
                    AssignedParams(cx, cx.rfields)["id" := id])
            == Ok(WrittenValues(cx.rfields) + [id])
  {
    var columns, params := WrittenColumns(cx, cx.rfields), AssignedParams(cx, cx.rfields)["id" := id];
    RecordColumnsApart(cx);
    WrittenAreBound(cx, cx.rfields);
    AssignedAreSets(cx, cx.rfields);
    UpdateScans(cx.tree[0].table, columns);
    ScannerReadsPlaceholders(RenderUpdate(cx.tree[0].table, columns), params);
    CollectBound(columns, WrittenValues(cx.rfields), params);
    CollectBound(["id"], [id], params);
    CollectConcat(columns, ["id"], params);
  }
}
