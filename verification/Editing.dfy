// Field state, stored rows and what saving and loading do to them, as functions.
module Editing {
  import opened Ordering
  import opened QTree
  import opened Sql
  import opened Navigation

  // ---- RField --------------------------------------------------------------------------------------------

  function TextOf(v: Value): string { if v.Str? then v.s else "" }

  // set: a value from the database, not an edit.
  function SetFrom(rf: RField, v: Value): RField {
    rf.(val := TextOf(v), isNull := v.Null?, isModified := false)
  }

  // modify: an edit by the user.
  function Modified(rf: RField, v: Value): RField {
    rf.(val := TextOf(v), isNull := v.Null?, isModified := true)
  }

  function Flushed(rf: RField): RField {
    rf.(val := "", isNull := true, isModified := false)
  }

  // ---- writing -------------------------------------------------------------------------------------------

  // The assignments of an INSERT or UPDATE: modified fields of the master table other than the id.
  predicate Written(rf: RField) { rf.qf.table == 0 && rf.isModified && rf.qf.field != "id" }

  function ColumnOf(cx: Context, rf: RField): string
    requires cx.tree != []
  {
    SqlName(cx.schema, cx.tree[0].table, rf.qf.field)
  }

  function Sets(cx: Context, rfields: seq<RField>): map<string, Value>
    requires cx.tree != []
  {
    if rfields == [] then map[]
    else
      var init, rf := Sets(cx, rfields[..|rfields| - 1]), rfields[|rfields| - 1];
      if Written(rf) then init[ColumnOf(cx, rf) := Str(rf.val)] else init
  }

  // The statement as generated: the columns in field order, each with a placeholder of the same name.
  datatype Change =
    | InsertInto(table: string, columns: seq<string>)
    | UpdateById(table: string, columns: seq<string>)
    | DeleteIn(table: string, names: seq<string>)      // the placeholders of id IN (...)

  function WrittenColumns(cx: Context, rfields: seq<RField>): seq<string>
    requires cx.tree != []
  {
    if rfields == [] then []
    else
      var init, rf := WrittenColumns(cx, rfields[..|rfields| - 1]), rfields[|rfields| - 1];
      if Written(rf) then init + [ColumnOf(cx, rf)] else init
  }

  function WrittenValues(rfields: seq<RField>): seq<string> {
    if rfields == [] then []
    else
      var init, rf := WrittenValues(rfields[..|rfields| - 1]), rfields[|rfields| - 1];
      if Written(rf) then init + [rf.val] else init
  }

  function AssignedParams(cx: Context, rfields: seq<RField>): Params
    requires cx.tree != []
  {
    if rfields == [] then map[]
    else
      var init, rf := AssignedParams(cx, rfields[..|rfields| - 1]), rfields[|rfields| - 1];
      if Written(rf) then init[ColumnOf(cx, rf) := rf.val] else init
  }

  // What the server assigns: to each column the value of its placeholder.
  function Assigned(columns: seq<string>, params: Params): map<string, Value> {
    map c | c in columns :: Param(params, c)
  }

  // The generated statement assigns exactly the edited fields; the parameter id cannot collide.
  lemma {:induction false} AssignedAreSets(cx: Context, rfields: seq<RField>)
    requires cx.tree != []
    ensures "id" !in WrittenColumns(cx, rfields)
    ensures Assigned(WrittenColumns(cx, rfields), AssignedParams(cx, rfields)) == Sets(cx, rfields)
    ensures forall c | c in WrittenColumns(cx, rfields) :: c in AssignedParams(cx, rfields)
    ensures WrittenColumns(cx, rfields) == [] <==> Sets(cx, rfields) == map[]
  {
    if rfields != [] {
      var init, rf := rfields[..|rfields| - 1], rfields[|rfields| - 1];
      AssignedAreSets(cx, init);
      if Written(rf) {
        var c := ColumnOf(cx, rf);
        NotId(cx, rf);
        assert c in WrittenColumns(cx, rfields) && c in Sets(cx, rfields);
        assert forall x :: x in WrittenColumns(cx, rfields) <==> x in WrittenColumns(cx, init) || x == c;
      }
    }
  }

  // With an id bound beside them the assignments are the same.
  lemma AssignedWithId(columns: seq<string>, params: Params, id: string)
    requires "id" !in columns
    ensures Assigned(columns, params["id" := id]) == Assigned(columns, params)
  {}

  function UpdateRow(r: Row, id: string, sets: map<string, Value>): Row {
    if r.id == id then r.(cols := r.cols + sets) else r
  }

  function UpdateRows(rows: seq<Row>, id: string, sets: map<string, Value>): seq<Row> {
    seq(|rows|, i requires 0 <= i < |rows| => UpdateRow(rows[i], id, sets))
  }

  // UPDATE table SET ... WHERE id = ...
  function Updated(db: Db, table: string, id: string, sets: map<string, Value>): Db {
    if table in db then db[table := UpdateRows(db[table], id, sets)] else db
  }

  // INSERT INTO table ... RETURNING id
  function Inserted(db: Db, table: string, id: string, sets: map<string, Value>): Db {
    db[table := Rows(db, table) + [Row(id, sets)]]
  }

  // DELETE FROM table WHERE id IN (names)
  function Deleted(db: Db, table: string, names: seq<string>, params: Params): Db {
    if table in db then db[table := Left(db[table], names, params)] else db
  }

  function Left(rows: seq<Row>, names: seq<string>, params: Params): seq<Row> {
    if rows == [] then []
    else
      (if exists p | p in names :: Str(rows[0].id) == Param(params, p) then [] else [rows[0]])
      + Left(rows[1..], names, params)
  }

  // ---- loading -------------------------------------------------------------------------------------------

  // The listed fields take what navigation reads from the row, the others stay.
  ghost function LoadedFrom(db: Db, cx: Context, row: Row, chosen: set<nat>): seq<RField>
    requires ContextOk(cx) && FieldsInTree(cx)
  {
    seq(|cx.rfields|, i requires 0 <= i < |cx.rfields| =>
      if i in chosen then SetFrom(cx.rfields[i], NavField(db, cx, row, cx.rfields[i].qf)) else cx.rfields[i])
  }

  ghost predicate FieldsInTree(cx: Context) {
    forall i | 0 <= i < |cx.rfields| :: cx.rfields[i].qf.table < |cx.tree|
  }

  // doLoad: nothing changes when there is no row with the id.
  ghost function AfterLoad(db: Db, cx: Context, id: string, chosen: set<nat>): seq<RField>
    requires ContextOk(cx) && FieldsInTree(cx)
  {
    match Lookup(Rows(db, cx.tree[0].table), Str(id))
    case Some(row) => LoadedFrom(db, cx, row, chosen)
    case None => cx.rfields
  }

  // ---- what a save does to the database ------------------------------------------------------------------

  // Exactly the assigned columns of exactly the row with the id change.
  lemma SaveWritesOnlyItsFields(db: Db, table: string, id: string, sets: map<string, Value>)
    requires "id" !in sets
    ensures forall t | t != table :: Rows(Updated(db, table, id, sets), t) == Rows(db, t)
    ensures var before, after := Rows(db, table), Rows(Updated(db, table, id, sets), table);
            && |after| == |before|
            && forall i, c | 0 <= i < |before| ::
                 Read(after[i], c) == if before[i].id == id && c in sets then sets[c] else Read(before[i], c)
  {}

  // An insert adds one row, with the id and exactly the assigned columns, and changes nothing else.
  lemma InsertAddsOneRow(db: Db, table: string, id: string, sets: map<string, Value>)
    requires "id" !in sets
    ensures forall t | t != table :: Rows(Inserted(db, table, id, sets), t) == Rows(db, t)
    ensures var before, after := Rows(db, table), Rows(Inserted(db, table, id, sets), table);
            && |after| == |before| + 1 && after[..|before|] == before && after[|before|].id == id
            && forall c | c != "id" :: Read(after[|before|], c) == if c in sets then sets[c] else Null
  {}

  lemma UpdateKeepsDb(db: Db, table: string, id: string, sets: map<string, Value>)
    requires DbOk(db)
    ensures DbOk(Updated(db, table, id, sets))
  {
    forall t ensures UniqueIds(Rows(Updated(db, table, id, sets), t)) {
      var before, after := Rows(db, t), Rows(Updated(db, table, id, sets), t);
      forall i: nat, j: nat | i < j < |after| ensures DifferentIds(after, i, j) {
        assert UniqueIds(before) && DifferentIds(before, i, j);
      }
    }
  }

  // Two saves with disjoint columns commute, whatever rows they are about, and both survive.
  lemma SavesCommute(db: Db, table: string, id: string, a: map<string, Value>, id': string, b: map<string, Value>)
    requires a.Keys !! b.Keys
    ensures Updated(Updated(db, table, id, a), table, id', b) == Updated(Updated(db, table, id', b), table, id, a)
    ensures table in db ==> forall i | 0 <= i < |db[table]| && db[table][i].id == id == id' ::
              Updated(Updated(db, table, id, a), table, id', b)[table][i].cols == db[table][i].cols + a + b
  {
    if table in db {
      var rows := db[table];
      forall i | 0 <= i < |rows|
        ensures UpdateRow(UpdateRow(rows[i], id, a), id', b) == UpdateRow(UpdateRow(rows[i], id', b), id, a)
      {
        assert rows[i].cols + a + b == rows[i].cols + b + a;
      }
      assert UpdateRows(UpdateRows(rows, id, a), id', b) == UpdateRows(UpdateRows(rows, id', b), id, a);
    }
  }

  lemma FieldsHaveColumns(cx: Context, f: string, g: string)
    requires RecordOk(cx) && f in Master(cx) && g in Master(cx) && f != g
    ensures Stored(cx, f) != Stored(cx, g)
  {}

  // Two records of one table with no edited field in common: whichever is saved first, both survive.
  lemma RecordSavesCommute(db: Db, a: Context, id: string, b: Context, id': string)
    requires RecordOk(a) && RecordOk(b) && a.schema == b.schema && a.tree[0].table == b.tree[0].table
    requires forall i, j
               | 0 <= i < |a.rfields| && 0 <= j < |b.rfields| && Written(a.rfields[i]) && Written(b.rfields[j]) ::
               a.rfields[i].qf.field != b.rfields[j].qf.field
    ensures var table, x, y := a.tree[0].table, Sets(a, a.rfields), Sets(b, b.rfields);
            && Updated(Updated(db, table, id, x), table, id', y) == Updated(Updated(db, table, id', y), table, id, x)
            && (table in db ==> forall i | 0 <= i < |db[table]| && db[table][i].id == id == id' ::
                  Updated(Updated(db, table, id, x), table, id', y)[table][i].cols == db[table][i].cols + x + y)
  {
    var x, y := Sets(a, a.rfields), Sets(b, b.rfields);
    SetsNames(a, a.rfields);
    SetsNames(b, b.rfields);
    forall i, j | 0 <= i < |a.rfields| && 0 <= j < |b.rfields| && Written(a.rfields[i]) && Written(b.rfields[j])
      ensures ColumnOf(a, a.rfields[i]) != ColumnOf(b, b.rfields[j])
    {
      FieldsHaveColumns(a, a.rfields[i].qf.field, b.rfields[j].qf.field);
    }
    assert forall c | c in x :: c !in y;
    SavesCommute(db, a.tree[0].table, id, x, id', y);
  }

  lemma {:induction false} SetsNames(cx: Context, rfields: seq<RField>)
    requires cx.tree != []
    ensures "id" !in Sets(cx, rfields)
    ensures forall c | c in Sets(cx, rfields) ::
              exists i | 0 <= i < |rfields| ::
                && rfields[i].qf.table == 0 && rfields[i].isModified && rfields[i].qf.field != "id"
                && ColumnOf(cx, rfields[i]) == c
  {
    if rfields != [] {
      var init, rf := rfields[..|rfields| - 1], rfields[|rfields| - 1];
      SetsNames(cx, init);
      if Written(rf) { NotId(cx, rf); }
      forall c | c in Sets(cx, rfields)
        ensures exists i | 0 <= i < |rfields| :: Written(rfields[i]) && ColumnOf(cx, rfields[i]) == c
      {
        if c in Sets(cx, init) {
          var i :| 0 <= i < |init| && Written(init[i]) && ColumnOf(cx, init[i]) == c;
          assert rfields[i] == init[i];
        }
      }
    }
  }

  lemma NotId(cx: Context, rf: RField)
    requires cx.tree != [] && rf.qf.field != "id"
    ensures ColumnOf(cx, rf) != "id"
  {
    assert |rf.qf.field + "_id"| >= 3;
  }

  // Two fields of the record never stand for one column.
  ghost predicate ColumnsApart(cx: Context, rfields: seq<RField>)
    requires cx.tree != []
  {
    forall i: nat, j: nat {:trigger ApartAt(cx, rfields, i, j)} | i < j < |rfields| :: ApartAt(cx, rfields, i, j)
  }

  ghost predicate ApartAt(cx: Context, rfields: seq<RField>, i: nat, j: nat)
    requires cx.tree != [] && i < |rfields| && j < |rfields|
  {
    rfields[i].qf.table == 0 && rfields[j].qf.table == 0 ==> ColumnOf(cx, rfields[i]) != ColumnOf(cx, rfields[j])
  }

  // Every modified master field but the id is among the assignments, with its value.
  lemma {:induction false} SetsHold(cx: Context, rfields: seq<RField>, i: nat)
    requires cx.tree != [] && ColumnsApart(cx, rfields) && i < |rfields|
    requires rfields[i].qf.table == 0 && rfields[i].isModified && rfields[i].qf.field != "id"
    ensures ColumnOf(cx, rfields[i]) in Sets(cx, rfields)
    ensures Sets(cx, rfields)[ColumnOf(cx, rfields[i])] == Str(rfields[i].val)
  {
    var k := |rfields| - 1;
    var init := rfields[..k];
    if i < k {
      forall a: nat, b: nat | a < b < |init| ensures ApartAt(cx, init, a, b) { assert ApartAt(cx, rfields, a, b); }
      SetsHold(cx, init, i);
      assert ApartAt(cx, rfields, i, k);
    }
  }

  // ---- read after write ------------------------------------------------------------------------------------

  lemma {:induction false} LookupUpdated(rows: seq<Row>, id: string, sets: map<string, Value>, v: Value)
    ensures Lookup(UpdateRows(rows, id, sets), v) == match Lookup(rows, v)
                                                     case Some(r) => Some(UpdateRow(r, id, sets))
                                                     case None => None
  {
    if rows != [] {
      LookupUpdated(rows[1..], id, sets, v);
      assert UpdateRows(rows, id, sets)[1..] == UpdateRows(rows[1..], id, sets);
    }
  }

  lemma {:induction false} LookupId(rows: seq<Row>, v: Value)
    ensures Lookup(rows, v).Some? ==> Str(Lookup(rows, v).value.id) == v
  {
    if rows != [] { LookupId(rows[1..], v); }
  }

  // ---- the smart join previews the save ------------------------------------------------------------------

  // Below the master table the path to n does not come back to the master row itself.
  ghost predicate Leaves(db: Db, cx: Context, row: Row, n: nat)
    requires ContextOk(cx) && n < |cx.tree|
    decreases n
  {
    n == 0 || (
      && Leaves(db, cx, row, cx.tree[n].parent.value)
      && (cx.tree[n].table == cx.tree[0].table && Nav(db, cx, row, n).Some? ==> Nav(db, cx, row, n).value.id != row.id))
  }

  lemma {:induction false} FoundIsListed(rfields: seq<RField>, qf: QField)
    ensures var r := FindRField(rfields, qf);
            r.Some? ==> exists i | 0 <= i < |rfields| :: rfields[i] == r.value && rfields[i].qf == qf
  {
    if rfields != [] && rfields[0].qf != qf {
      FoundIsListed(rfields[1..], qf);
      var r := FindRField(rfields[1..], qf);
      if r.Some? {
        var i :| 0 <= i < |rfields| - 1 && rfields[1..][i] == r.value && rfields[1..][i].qf == qf;
        assert rfields[i + 1] == r.value;
      }
    }
  }

  lemma {:induction false} NotFoundIsUnwritten(rfields: seq<RField>, qf: QField)
    requires FindRField(rfields, qf).None?
    ensures forall i | 0 <= i < |rfields| :: rfields[i].qf != qf
  {
    if rfields != [] { NotFoundIsUnwritten(rfields[1..], qf); }
  }

  // What getRField and the schema give: one RField per qualified field, one column per field, and
  // references never named id.
  ghost predicate RecordOk(cx: Context) {
    && ContextOk(cx) && FieldsInTree(cx) && cx.tree[0].table in cx.schema
    && (forall f, g | f in Master(cx) && g in Master(cx) && Stored(cx, f) == Stored(cx, g) :: f == g)
    && (forall i | 0 <= i < |cx.rfields| && cx.rfields[i].qf.table == 0 :: cx.rfields[i].qf.field in Master(cx))
    && (forall i: nat, j: nat {:trigger OtherField(cx, i, j)} | i < j < |cx.rfields| :: OtherField(cx, i, j))
    && (forall n | 1 <= n < |cx.tree| && cx.tree[n].parent == Some(0) ::
          cx.tree[n].fk in Master(cx) && cx.tree[n].fk != "id")
  }

  function Master(cx: Context): TableDef
    requires cx.tree != [] && cx.tree[0].table in cx.schema
  {
    cx.schema[cx.tree[0].table]
  }

  function Stored(cx: Context, field: string): string
    requires cx.tree != []
  {
    SqlName(cx.schema, cx.tree[0].table, field)
  }

  ghost predicate OtherField(cx: Context, i: nat, j: nat)
    requires i < |cx.rfields| && j < |cx.rfields|
  {
    cx.rfields[i].qf != cx.rfields[j].qf
  }

  lemma RecordColumnsApart(cx: Context)
    requires RecordOk(cx)
    ensures ColumnsApart(cx, cx.rfields)
  {
    forall i: nat, j: nat | i < j < |cx.rfields| ensures ApartAt(cx, cx.rfields, i, j) {
      assert OtherField(cx, i, j);
      if cx.rfields[i].qf.table == 0 && cx.rfields[j].qf.table == 0 {
        assert cx.rfields[i].qf.field != cx.rfields[j].qf.field;
      }
    }
  }

  lemma EditedLinkSaved(cx: Context, qf: QField)
    requires RecordOk(cx) && qf.table == 0 && qf.field != "id" && Edited(cx.rfields, qf).Some?
    ensures Stored(cx, qf.field) in Sets(cx, cx.rfields)
    ensures Sets(cx, cx.rfields)[Stored(cx, qf.field)] == Str(Edited(cx.rfields, qf).value)
  {
    RecordColumnsApart(cx);
    FoundIsListed(cx.rfields, qf);
    var i :| 0 <= i < |cx.rfields| && cx.rfields[i] == FindRField(cx.rfields, qf).value && cx.rfields[i].qf == qf;
    SetsHold(cx, cx.rfields, i);
  }

  lemma OtherLinkKept(cx: Context, qf: QField)
    requires RecordOk(cx) && qf.table == 0 && qf.field in Master(cx) && Edited(cx.rfields, qf).None?
    ensures Stored(cx, qf.field) !in Sets(cx, cx.rfields)
  {
    SetsNames(cx, cx.rfields);
    forall i | 0 <= i < |cx.rfields| && Written(cx.rfields[i])
      ensures ColumnOf(cx, cx.rfields[i]) != Stored(cx, qf.field)
    {
      OnlyOne(cx, i);
      if cx.rfields[i].qf != qf { FieldsHaveColumns(cx, cx.rfields[i].qf.field, qf.field); }
    }
  }

  // On the master row a link edited in memory is the link stored after the save.
  lemma MasterLinkSaved(cx: Context, row: Row, n: nat)
    requires RecordOk(cx) && 1 <= n < |cx.tree| && cx.tree[n].parent.value == 0
    ensures LinkValue(cx, n, Some(row))
            == LinkValue(cx.(rfields := []), n, Some(UpdateRow(row, row.id, Sets(cx, cx.rfields))))
  {
    var qf := QField(0, cx.tree[n].fk);
    NotId(cx, RField(qf, "", true, false));
    if Edited(cx.rfields, qf).Some? { EditedLinkSaved(cx, qf); } else { OtherLinkKept(cx, qf); }
  }

  lemma {:induction false} FirstFound(rfields: seq<RField>, i: nat)
    requires i < |rfields| && forall j | 0 <= j < i :: rfields[j].qf != rfields[i].qf
    ensures FindRField(rfields, rfields[i].qf) == Some(rfields[i])
  {
    if i > 0 { FirstFound(rfields[1..], i - 1); }
  }

  lemma OnlyOne(cx: Context, i: nat)
    requires RecordOk(cx) && i < |cx.rfields|
    ensures FindRField(cx.rfields, cx.rfields[i].qf) == Some(cx.rfields[i])
  {
    forall j | 0 <= j < i ensures cx.rfields[j].qf != cx.rfields[i].qf { assert OtherField(cx, j, i); }
    FirstFound(cx.rfields, i);
  }

  // A path has an edited value exactly when its field is modified, and it is the value of that field.
  lemma EditedMeans(cx: Context, qf: QField, v: string)
    requires RecordOk(cx)
    ensures Edited(cx.rfields, qf) == Some(v) <==>
            exists i | 0 <= i < |cx.rfields| ::
              cx.rfields[i].qf == qf && cx.rfields[i].isModified && cx.rfields[i].val == v
  {
    FoundIsListed(cx.rfields, qf);
    forall i | 0 <= i < |cx.rfields| && cx.rfields[i].qf == qf
      ensures FindRField(cx.rfields, qf) == Some(cx.rfields[i])
    {
      OnlyOne(cx, i);
    }
  }

  // Plain navigation after the save.
  ghost function NavSaved(db: Db, cx: Context, row: Row, n: nat): Option<Row>
    requires ContextOk(cx) && n < |cx.tree|
  {
    var sets := Sets(cx, cx.rfields);
    Nav(Updated(db, cx.tree[0].table, row.id, sets), cx.(rfields := []), UpdateRow(row, row.id, sets), n)
  }

  // Everywhere on the path to n the query with edited links already shows what the save will bring.
  ghost predicate PathPreviewed(db: Db, cx: Context, row: Row, n: nat)
    requires ContextOk(cx) && n < |cx.tree|
    decreases n
  {
    n == 0 || (PathPreviewed(db, cx, row, cx.tree[n].parent.value) && NavSaved(db, cx, row, n) == Nav(db, cx, row, n))
  }

  // Nothing on the path to n spoils the preview: where it comes back to the record's own row, that row
  // already holds what is to be saved, and a link edited below the master table, which no save writes,
  // leads to the same row as the stored one.
  ghost predicate Harmless(db: Db, cx: Context, row: Row, n: nat)
    requires ContextOk(cx) && n < |cx.tree|
    decreases n
  {
    n == 0 || (
      && Harmless(db, cx, row, cx.tree[n].parent.value)
      && LinkStays(db, cx, row, n)
      && (OwnRow(db, cx, row, n) ==>
            Nav(db, cx, row, n).value.cols + Sets(cx, cx.rfields) == Nav(db, cx, row, n).value.cols))
  }

  ghost predicate OwnRow(db: Db, cx: Context, row: Row, n: nat)
    requires ContextOk(cx) && n < |cx.tree|
  {
    cx.tree[n].table == cx.tree[0].table && Nav(db, cx, row, n).Some? && Nav(db, cx, row, n).value.id == row.id
  }

  function LinkField(cx: Context, n: nat): QField
    requires 1 <= n < |cx.tree| && cx.tree[n].parent.Some?
  {
    QField(cx.tree[n].parent.value, cx.tree[n].fk)
  }

  ghost predicate DeepEdit(cx: Context, n: nat)
    requires ContextOk(cx) && 1 <= n < |cx.tree|
  {
    cx.tree[n].parent.value != 0 && Edited(cx.rfields, LinkField(cx, n)).Some?
  }

  // Where the link stored in the parent's row leads.
  ghost function StoredTarget(db: Db, cx: Context, row: Row, n: nat): Option<Row>
    requires ContextOk(cx) && 1 <= n < |cx.tree|
  {
    Lookup(Rows(db, cx.tree[n].table), LinkValue(cx.(rfields := []), n, Nav(db, cx, row, cx.tree[n].parent.value)))
  }

  ghost predicate LinkStays(db: Db, cx: Context, row: Row, n: nat)
    requires ContextOk(cx) && 1 <= n < |cx.tree|
  {
    DeepEdit(cx, n) ==> StoredTarget(db, cx, row, n) == Nav(db, cx, row, n)
  }

  // The row found under w once the own row is saved is the row found under v now exactly when both
  // find the same row now and saving does not change it.
  lemma SavedRowSame(rows: seq<Row>, id: string, sets: map<string, Value>, v: Value, w: Value)
    ensures Lookup(UpdateRows(rows, id, sets), w) == Lookup(rows, v) <==>
            Lookup(rows, w) == Lookup(rows, v)
            && (Lookup(rows, v).Some? && Lookup(rows, v).value.id == id ==>
                  Lookup(rows, v).value.cols + sets == Lookup(rows, v).value.cols)
  {
    LookupUpdated(rows, id, sets, w);
    LookupId(rows, v);
    LookupId(rows, w);
  }

  // If the parent is previewed, so is the node when its link stays and the own row is not changed.
  lemma RowPreviewed(db: Db, cx: Context, row: Row, n: nat)
    requires RecordOk(cx) && 1 <= n < |cx.tree|
    requires var p := cx.tree[n].parent.value; p == 0 || NavSaved(db, cx, row, p) == Nav(db, cx, row, p)
    ensures NavSaved(db, cx, row, n) == Nav(db, cx, row, n) <==>
            LinkStays(db, cx, row, n)
            && (OwnRow(db, cx, row, n) ==>
                  Nav(db, cx, row, n).value.cols + Sets(cx, cx.rfields) == Nav(db, cx, row, n).value.cols)
  {
    var table, sets, p := cx.tree[0].table, Sets(cx, cx.rfields), cx.tree[n].parent.value;
    var v := LinkValue(cx, n, Nav(db, cx, row, p));
    var w := LinkValue(cx.(rfields := []), n, NavSaved(db, cx, row, p));
    if p == 0 { MasterLinkSaved(cx, row, n); }
    SavedRowSame(Rows(db, table), row.id, sets, v, w);
  }

  // Before the save, a query with edited links reaches the related rows that plain navigation reaches
  // after it, all along a path, exactly when the path is harmless.
  lemma {:induction false} PreviewIsRightIff(db: Db, cx: Context, row: Row, n: nat)
    requires RecordOk(cx) && n < |cx.tree|
    ensures PathPreviewed(db, cx, row, n) <==> Harmless(db, cx, row, n)
    decreases n
  {
    if n > 0 {
      var p := cx.tree[n].parent.value;
      PreviewIsRightIff(db, cx, row, p);
      if PathPreviewed(db, cx, row, p) { RowPreviewed(db, cx, row, n); }
    }
  }

  // No link on the path has been edited except on the record itself.
  ghost predicate NoDeepEdits(cx: Context, n: nat)
    requires ContextOk(cx) && n < |cx.tree|
    decreases n
  {
    n == 0 || (NoDeepEdits(cx, cx.tree[n].parent.value) && !DeepEdit(cx, n))
  }

  // In particular along every path with no edited link below the record that does not come back to the
  // record's own row.
  lemma SmartJoinPreviewsSave(db: Db, cx: Context, row: Row, n: nat)
    requires RecordOk(cx) && 1 <= n < |cx.tree| && Leaves(db, cx, row, n) && NoDeepEdits(cx, n)
    ensures NavSaved(db, cx, row, n) == Nav(db, cx, row, n)
  {
    LeavingIsHarmless(db, cx, row, n);
    PreviewIsRightIff(db, cx, row, n);
  }

  lemma {:induction false} LeavingIsHarmless(db: Db, cx: Context, row: Row, n: nat)
    requires ContextOk(cx) && n < |cx.tree| && Leaves(db, cx, row, n) && NoDeepEdits(cx, n)
    ensures Harmless(db, cx, row, n)
    decreases n
  {
    if n > 0 { LeavingIsHarmless(db, cx, row, cx.tree[n].parent.value); }
  }

  // ---- the reload after a save -----------------------------------------------------------------------------

  // The record's own edited links are stored in the row.
  ghost predicate LinksStored(cx: Context, row: Row)
    requires ContextOk(cx)
  {
    forall n {:trigger LinkStored(cx, row, n)} | 1 <= n < |cx.tree| && cx.tree[n].parent == Some(0) ::
      LinkStored(cx, row, n)
  }

  ghost predicate LinkStored(cx: Context, row: Row, n: nat)
    requires ContextOk(cx) && 1 <= n < |cx.tree|
  {
    LinkValue(cx, n, Some(row)) == LinkValue(cx.(rfields := []), n, Some(row))
  }

  // Everywhere on the path to n a query with edited links shows what is stored.
  ghost predicate ShowsStored(db: Db, cx: Context, row: Row, n: nat)
    requires ContextOk(cx) && n < |cx.tree|
    decreases n
  {
    n == 0 || (
      && ShowsStored(db, cx, row, cx.tree[n].parent.value)
      && Nav(db, cx, row, n) == Nav(db, cx.(rfields := []), row, n))
  }

  // Every link edited below the record leads where the stored one does.
  ghost predicate DeepLinksStay(db: Db, cx: Context, row: Row, n: nat)
    requires ContextOk(cx) && n < |cx.tree|
    decreases n
  {
    n == 0 || (DeepLinksStay(db, cx, row, cx.tree[n].parent.value) && LinkStays(db, cx, row, n))
  }

  // A load navigates with the edited links still in place. Once the record's own links are stored it
  // shows what is stored, all along a path, exactly when the links edited further down stay.
  lemma {:induction false} ReloadShowsStoredIff(db: Db, cx: Context, row: Row, n: nat)
    requires ContextOk(cx) && LinksStored(cx, row) && n < |cx.tree|
    ensures ShowsStored(db, cx, row, n) <==> DeepLinksStay(db, cx, row, n)
    decreases n
  {
    if n > 0 {
      var p := cx.tree[n].parent.value;
      ReloadShowsStoredIff(db, cx, row, p);
      if ShowsStored(db, cx, row, p) { StoredStep(db, cx, row, n); }
    }
  }

  lemma StoredStep(db: Db, cx: Context, row: Row, n: nat)
    requires ContextOk(cx) && LinksStored(cx, row) && 1 <= n < |cx.tree|
    requires Nav(db, cx, row, cx.tree[n].parent.value) == Nav(db, cx.(rfields := []), row, cx.tree[n].parent.value)
    ensures Nav(db, cx, row, n) == Nav(db, cx.(rfields := []), row, n) <==> LinkStays(db, cx, row, n)
  {
    if cx.tree[n].parent.value == 0 { assert LinkStored(cx, row, n); }
    assert Nav(db, cx.(rfields := []), row, n) == StoredTarget(db, cx, row, n);
  }

  // So a field whose path has no such link is read as stored.
  lemma FieldShowsStored(db: Db, cx: Context, row: Row, qf: QField)
    requires ContextOk(cx) && LinksStored(cx, row) && qf.table < |cx.tree| && DeepLinksStay(db, cx, row, qf.table)
    ensures NavField(db, cx, row, qf) == NavField(db, cx.(rfields := []), row, qf)
  {
    ReloadShowsStoredIff(db, cx, row, qf.table);
  }

  lemma LinksStoredByUpdate(cx: Context, row: Row)
    requires RecordOk(cx)
    ensures LinksStored(cx, UpdateRow(row, row.id, Sets(cx, cx.rfields)))
  {
    var row' := UpdateRow(row, row.id, Sets(cx, cx.rfields));
    forall n | 1 <= n < |cx.tree| && cx.tree[n].parent == Some(0) ensures LinkStored(cx, row', n) {
      OwnLinkStored(cx, row', n);
    }
  }

  lemma LinksStoredByInsert(cx: Context, id: string)
    requires RecordOk(cx)
    ensures LinksStored(cx, Row(id, Sets(cx, cx.rfields)))
  {
    var row := Row(id, Sets(cx, cx.rfields));
    forall n | 1 <= n < |cx.tree| && cx.tree[n].parent == Some(0) ensures LinkStored(cx, row, n) {
      OwnLinkStored(cx, row, n);
    }
  }

  lemma OwnLinkStored(cx: Context, row: Row, n: nat)
    requires RecordOk(cx) && 1 <= n < |cx.tree| && cx.tree[n].parent == Some(0)
    requires forall c | c in Sets(cx, cx.rfields) :: c in row.cols && row.cols[c] == Sets(cx, cx.rfields)[c]
    ensures LinkStored(cx, row, n)
  {
    var qf := LinkField(cx, n);
    NotId(cx, RField(qf, "", true, false));
    if Edited(cx.rfields, qf).Some? { EditedLinkSaved(cx, qf); }
  }

  // A record that becomes its own boss: the preview still shows the stored boss of the boss.
  lemma PreviewOfOwnRowDiffers()
    ensures var schema: Schema := map["emp" := map["boss" := Some("emp"), "id" := None]];
            var tree := [QTable("emp", MASTER, None, ""), QTable("emp", "t1", Some(0), "boss")];
            var edited := [RField(QField(0, "boss"), "1", false, true)];
            var cx := Context(schema, tree, edited);
            var row := Row("1", map["boss_id" := Str("2")]);
            var db: Db := map["emp" := [row]];
            var sets := Sets(cx, edited);
            && ContextOk(cx)
            && NavField(db, cx, row, QField(1, "boss")) == Str("2")
            && NavField(Updated(db, "emp", "1", sets), cx.(rfields := []), UpdateRow(row, "1", sets), QField(1, "boss"))
               == Str("1")
  {
    var schema: Schema := map["emp" := map["boss" := Some("emp"), "id" := None]];
    var tree := [QTable("emp", MASTER, None, ""), QTable("emp", "t1", Some(0), "boss")];
    var edited := [RField(QField(0, "boss"), "1", false, true)];
    var cx := Context(schema, tree, edited);
    var row := Row("1", map["boss_id" := Str("2")]);
    var sets := Sets(cx, edited);
    assert "boss" + "_id" == "boss_id";
    assert edited[..0] == [] && Sets(cx, []) == map[];
    assert sets == map["boss_id" := Str("1")];
    assert MASTER[0] == 'm' && "t1"[0] == 't';
    assert forall i: nat, j: nat {:trigger AliasesApart(tree, i, j)} | i < j < 2 :: AliasesApart(tree, i, j);
    assert Shaped(tree);
    var row' := UpdateRow(row, "1", sets);
    assert UpdateRows([row], "1", sets) == [row'];
    assert Lookup([row], Str("1")) == Some(row) && Lookup([row'], Str("1")) == Some(row');
    assert Edited(edited, QField(0, "boss")) == Some("1");
  }

  // A book whose title and whose author's city are edited.
  function Library(): Schema {
    map["book" := map["id" := None, "title" := None, "author" := Some("person")],
        "person" := map["id" := None, "city" := Some("city")],
        "city" := map["id" := None]]
  }

  function CityOfAuthor(): Context {
    Context(Library(),
            [QTable("book", MASTER, None, ""), QTable("person", "t1", Some(0), "author"),
             QTable("city", "t2", Some(1), "city")],
            [RField(QField(0, "title"), "New", false, true), RField(QField(1, "city"), "9", false, true)])
  }

  function Book(): Row { Row("5", map["title" := Str("Old"), "author_id" := Str("1")]) }

  function Shelf(): Db {
    map["book" := [Book()], "person" := [Row("1", map["city_id" := Str("3")])],
        "city" := [Row("3", map[]), Row("9", map[])]]
  }

  lemma CitySets()
    ensures Sets(CityOfAuthor(), CityOfAuthor().rfields) == map["title" := Str("New")]
  {
    var cx := CityOfAuthor();
    var rfields := cx.rfields;
    assert rfields[..1] == [rfields[0]] && [rfields[0]][..0] == [];
    assert Sets(cx, []) == map[] && Sets(cx, [rfields[0]]) == map["title" := Str("New")];
  }

  lemma CityTreeShaped()
    ensures Shaped(CityOfAuthor().tree)
  {
    var tree := CityOfAuthor().tree;
    assert MASTER[0] == 'm' && "t1"[0] == 't' && "t1"[1] != "t2"[1];
    forall i: nat, j: nat | i < j < |tree| ensures AliasesApart(tree, i, j) {}
  }

  lemma CityOfAuthorOk()
    ensures RecordOk(CityOfAuthor())
  {
    var cx := CityOfAuthor();
    CityTreeShaped();
    assert "title"[0] == 't' && "author_id"[0] == 'a' && "id"[0] == 'i' && "author" + "_id" == "author_id";
    forall i: nat, j: nat | i < j < |cx.rfields| ensures OtherField(cx, i, j) {}
  }

  // The path does not come back to the book, yet the preview shows the edited city, which no save
  // writes: after the save the stored city is still there, and the reload goes on showing the edited one.
  lemma PreviewOfDeepEditDiffers()
    ensures var db, cx, row := Shelf(), CityOfAuthor(), Book();
            && RecordOk(cx) && Leaves(db, cx, row, 2)
            && Nav(db, cx, row, 2) == Some(Row("9", map[]))
            && NavSaved(db, cx, row, 2) == Some(Row("3", map[]))
            && var sets := Sets(cx, cx.rfields);
               Nav(Updated(db, "book", row.id, sets), cx, UpdateRow(row, row.id, sets), 2) == Some(Row("9", map[]))
  {
    CityOfAuthorOk();
    CitySets();
    CityStored();
    var sets := map["title" := Str("New")];
    CityEdited(Shelf(), Book());
    CityEdited(Updated(Shelf(), "book", "5", sets), UpdateRow(Book(), "5", sets));
  }

  // With the edit in place any book leads to the city "9".
  lemma CityEdited(db: Db, row: Row)
    requires Rows(db, "city") == [Row("3", map[]), Row("9", map[])]
    ensures ContextOk(CityOfAuthor()) && Nav(db, CityOfAuthor(), row, 2) == Some(Row("9", map[]))
  {
    CityTreeShaped();
    assert Nav(db, CityOfAuthor(), row, 2) == Lookup(Rows(db, "city"), Str("9"));
  }

  lemma CityStored()
    ensures ContextOk(CityOfAuthor())
    ensures var sets := map["title" := Str("New")];
            Nav(Updated(Shelf(), "book", "5", sets), CityOfAuthor().(rfields := []), UpdateRow(Book(), "5", sets), 2)
            == Some(Row("3", map[]))
  {
    CityTreeShaped();
    var cx, sets := CityOfAuthor().(rfields := []), map["title" := Str("New")];
    var db, row := Updated(Shelf(), "book", "5", sets), UpdateRow(Book(), "5", sets);
    assert "author" + "_id" == "author_id" && "city" + "_id" == "city_id" && "title"[0] != "author_id"[0];
    assert Nav(db, cx, row, 1) == Lookup(Rows(db, "person"), Str("1"));
    assert Nav(db, cx, row, 2) == Lookup(Rows(db, "city"), Str("3"));
  }

  // What an edited field is once its value has been stored and loaded again: the value edited in, with
  // null turned into the empty text.
  function Reloaded(rf: RField): RField { rf.(isNull := false, isModified := false) }

  // After saving an existing record, loading any choice of fields gives every saved one among them the
  // value that was edited in.
  lemma ReadAfterWrite(db: Db, cx: Context, id: string, chosen: set<nat>, i: nat)
    requires RecordOk(cx) && i in chosen
    requires i < |cx.rfields| && Written(cx.rfields[i])
    requires Lookup(Rows(db, cx.tree[0].table), Str(id)).Some?
    ensures AfterLoad(Updated(db, cx.tree[0].table, id, Sets(cx, cx.rfields)), cx, id, chosen)[i]
            == Reloaded(cx.rfields[i])
  {
    var table, sets := cx.tree[0].table, Sets(cx, cx.rfields);
    RecordColumnsApart(cx);
    SetsHold(cx, cx.rfields, i);
    NotId(cx, cx.rfields[i]);
    LookupUpdated(Rows(db, table), id, sets, Str(id));
    LookupId(Rows(db, table), Str(id));
  }

  // And so does a new record.
  lemma ReadAfterInsert(db: Db, cx: Context, id: string, chosen: set<nat>, i: nat)
    requires RecordOk(cx) && i in chosen
    requires i < |cx.rfields| && Written(cx.rfields[i])
    requires DbOk(Inserted(db, cx.tree[0].table, id, Sets(cx, cx.rfields)))
    ensures AfterLoad(Inserted(db, cx.tree[0].table, id, Sets(cx, cx.rfields)), cx, id, chosen)[i]
            == Reloaded(cx.rfields[i])
  {
    var table, sets := cx.tree[0].table, Sets(cx, cx.rfields);
    RecordColumnsApart(cx);
    SetsHold(cx, cx.rfields, i);
    NotId(cx, cx.rfields[i]);
    var after := Inserted(db, table, id, sets);
    assert UniqueIds(Rows(after, table));
    LookupAppended(Rows(db, table), Row(id, sets));
  }

  lemma {:induction false} LookupAppended(rows: seq<Row>, r: Row)
    requires UniqueIds(rows + [r])
    ensures Lookup(rows + [r], Str(r.id)) == Some(r)
  {
    if rows != [] {
      var all, rest := rows + [r], rows[1..] + [r];
      assert all[1..] == rest && DifferentIds(all, 0, |rows|);
      forall i: nat, j: nat | i < j < |rest| ensures DifferentIds(rest, i, j) {
        assert DifferentIds(all, i + 1, j + 1);
      }
      LookupAppended(rows[1..], r);
    }
  }

  // ---- one more edit ---------------------------------------------------------------------------------------

  // The edit replaces exactly one link of the queries to come.
  lemma {:induction false} EditsAfter(rfields: seq<RField>, i: nat, m: RField, qf: QField)
    requires i < |rfields| && m.qf == rfields[i].qf && m.isModified
    requires forall j | 0 <= j < i :: rfields[j].qf != m.qf
    ensures Edited(rfields[i := m], qf) == if qf == m.qf then Some(m.val) else Edited(rfields, qf)
  {
    var after := rfields[i := m];
    if i == 0 {
      assert after[1..] == rfields[1..];
    } else {
      assert after[1..] == rfields[1..][i - 1 := m];
      EditsAfter(rfields[1..], i - 1, m, qf);
    }
  }

  lemma {:induction false} SetsOfTree(cx: Context, cx': Context, rfields: seq<RField>)
    requires cx.tree != [] && cx'.tree == cx.tree && cx'.schema == cx.schema
    ensures Sets(cx', rfields) == Sets(cx, rfields)
  {
    if rfields != [] { SetsOfTree(cx, cx', rfields[..|rfields| - 1]); }
  }

  // And exactly one assignment of the save to come, if it is one a save writes.
  lemma {:induction false} SetsAfter(cx: Context, rfields: seq<RField>, i: nat, m: RField)
    requires cx.tree != [] && ColumnsApart(cx, rfields) && i < |rfields| && m.qf == rfields[i].qf && m.isModified
    ensures Sets(cx, rfields[i := m]) ==
            if Written(m) then Sets(cx, rfields)[ColumnOf(cx, m) := Str(m.val)] else Sets(cx, rfields)
  {
    var k, after := |rfields| - 1, rfields[i := m];
    var init := rfields[..k];
    if i == k {
      assert after[..k] == init;
    } else {
      assert after[..k] == init[i := m] && after[k] == rfields[k];
      forall a: nat, b: nat | a < b < |init| ensures ApartAt(cx, init, a, b) { assert ApartAt(cx, rfields, a, b); }
      SetsAfter(cx, init, i, m);
      assert ApartAt(cx, rfields, i, k);
    }
  }

  // What modify means for a record: its own field, the links of queries and the columns of a save.
  lemma ModifiedRecord(cx: Context, i: nat, v: Value)
    requires RecordOk(cx) && i < |cx.rfields|
    ensures var m := Modified(cx.rfields[i], v);
            var cx' := cx.(rfields := cx.rfields[i := m]);
            && RecordOk(cx')
            && (forall qf :: Edited(cx'.rfields, qf) == if qf == m.qf then Some(m.val) else Edited(cx.rfields, qf))
            && Sets(cx', cx'.rfields) == if Written(m) then Sets(cx, cx.rfields)[ColumnOf(cx, m) := Str(m.val)]
                                         else Sets(cx, cx.rfields)
  {
    var m := Modified(cx.rfields[i], v);
    var after := cx.rfields[i := m];
    var cx' := cx.(rfields := after);
    forall a: nat, b: nat | a < b < |after| ensures OtherField(cx', a, b) { assert OtherField(cx, a, b); }
    forall j: nat | j < i ensures cx.rfields[j].qf != m.qf { assert OtherField(cx, j, i); }
    forall qf ensures Edited(after, qf) == if qf == m.qf then Some(m.val) else Edited(cx.rfields, qf) {
      EditsAfter(cx.rfields, i, m, qf);
    }
    RecordColumnsApart(cx);
    SetsAfter(cx, cx.rfields, i, m);
    SetsOfTree(cx, cx', after);
  }
}
