// Record: fields edited in memory, loaded from and saved to the database.
module Record {
  import opened Ordering
  import opened QTree
  import opened Sql
  import opened Navigation
  import opened QueryMeaning
  import opened Editing
  import G = SqlGenius

  datatype Outcome = Done | NoId | InsertFailed

  class Database {
    var tables: Db

    constructor (tables: Db)
      ensures this.tables == tables
    {
      this.tables := tables;
    }

    method Query(q: Query, params: Params) returns (rows: seq<seq<Value>>)
      ensures rows == Eval(tables, q, params)
    {
      rows := Eval(tables, q, params);
    }

    // An UPDATE of the row with the id bound under "id".
    method Update(change: Change, params: Params)
      requires change.UpdateById? && "id" in params
      modifies this
      ensures tables == Updated(old(tables), change.table, params["id"], Assigned(change.columns, params))
    {
      tables := Updated(tables, change.table, params["id"], Assigned(change.columns, params));
    }

    method Insert(change: Change, params: Params, newId: string)
      requires change.InsertInto?
      modifies this
      ensures tables == Inserted(old(tables), change.table, newId, Assigned(change.columns, params))
    {
      tables := Inserted(tables, change.table, newId, Assigned(change.columns, params));
    }
  }

  function Chosen(fields: seq<nat>): set<nat> { set i | i in fields }

  class Record {
    const schema: Schema
    const tree: Tree
    var rfields: seq<RField>
    var visible: seq<nat>          // positions in rfields
    var isNew: bool
    var id: Option<string>         // the value of rkey.srcRField

    ghost predicate Valid()
      reads this
    {
      ContextOk(Cx()) && FieldsInTree(Cx()) && InRange(visible)
    }

    function Cx(): Context
      reads this
    {
      Context(schema, tree, rfields)
    }

    predicate InRange(fields: seq<nat>)
      reads this
    {
      forall i | 0 <= i < |fields| :: fields[i] < |rfields|
    }

    constructor (schema: Schema, tree: Tree, rfields: seq<RField>, id: Option<string>)
      requires ContextOk(Context(schema, tree, rfields)) && FieldsInTree(Context(schema, tree, rfields))
      ensures Valid() && Cx() == Context(schema, tree, rfields) && this.id == id && visible == []
    {
      this.schema, this.tree, this.rfields, this.id := schema, tree, rfields, id;
      visible, isNew := [], false;
    }

    // One field takes the value and counts as edited. For the queries to come this replaces exactly the
    // link stored in that field, for the save to come it adds exactly that column, if a save writes it.
    method Modify(i: nat, v: Value)
      requires Valid() && i < |rfields|
      modifies this`rfields
      ensures Valid() && |rfields| == |old(rfields)|
      ensures rfields[i].qf == old(rfields)[i].qf && rfields[i].isModified
      ensures rfields[i].isNull == v.Null? && rfields[i].val == if v.Str? then v.s else ""
      ensures forall j | 0 <= j < |rfields| && j != i :: rfields[j] == old(rfields)[j]
      ensures RecordOk(old(Cx())) ==> RecordOk(Cx())
      ensures RecordOk(old(Cx())) ==>
                forall qf :: Edited(rfields, qf) ==
                             if qf == rfields[i].qf then Some(if v.Str? then v.s else "")
                             else Edited(old(rfields), qf)
      ensures RecordOk(old(Cx())) ==>
                Sets(Cx(), rfields) ==
                if Written(rfields[i]) then
                  Sets(old(Cx()), old(rfields))[ColumnOf(Cx(), rfields[i]) := Str(if v.Str? then v.s else "")]
                else Sets(old(Cx()), old(rfields))
    {
      ghost var before := Cx();
      rfields := rfields[i := Modified(rfields[i], v)];
      if RecordOk(before) { ModifiedRecord(before, i, v); }
    }

    // New: defaults, or nothing, and no edits.
    method New(defaults: map<nat, string>)
      requires Valid()
      modifies this`rfields, this`isNew
      ensures Valid() && isNew && |rfields| == |old(rfields)|
      ensures forall i | 0 <= i < |rfields| :: rfields[i].qf == old(rfields)[i].qf && !rfields[i].isModified
      ensures forall i | 0 <= i < |rfields| ::
                if i in defaults then rfields[i].val == defaults[i] && !rfields[i].isNull
                else rfields[i].val == "" && rfields[i].isNull
    {
      isNew := true;
      for i := 0 to |rfields|
        invariant Valid() && isNew && |rfields| == |old(rfields)|
        invariant forall j | i <= j < |rfields| :: rfields[j] == old(rfields)[j]
        invariant forall j | 0 <= j < i ::
                    rfields[j] ==
                    if j in defaults then Modified(old(rfields)[j], Str(defaults[j])).(isModified := false)
                    else Flushed(old(rfields)[j])
      {
        if i in defaults {
          rfields := rfields[i := Modified(rfields[i], Str(defaults[i]))];
          rfields := rfields[i := rfields[i].(isModified := false)];
        } else {
          rfields := rfields[i := Flushed(rfields[i])];
        }
      }
    }

    // doLoad: one query for the chosen fields; they take its first row if there is one.
    method DoLoad(fields: seq<nat>, db: Database) returns (r: Outcome)
      requires Valid() && InRange(fields) && DbOk(db.tables)
      modifies this`rfields, this`isNew
      ensures Valid()
      ensures r == if fields != [] && id == None then NoId else Done
      ensures fields == [] || id == None ==> rfields == old(rfields) && isNew == old(isNew)
      ensures fields != [] && id.Some? ==>
                && rfields == AfterLoad(db.tables, old(Cx()), id.value, Chosen(fields))
                && FieldsTook(db.tables, old(Cx()), id.value, rfields, fields)
                && isNew == (old(isNew) && Lookup(Rows(db.tables, tree[0].table), Str(id.value)).None?)
    {
      var cx := Cx();
      if id.Some? { AfterLoadTook(db.tables, cx, id.value, fields); }
      var qfields := QFields(rfields, fields);
      var genius := new G.SqlGenius(cx, None, id);
      var gen := genius.GenSelectOne(qfields);
      if !gen.Sql? {
        return if gen.NoId? then NoId else Done;
      }
      var rows := db.Query(gen.q, genius.namedParams);
      assert G.LoadsRecord(cx, gen.q, genius.namedParams, qfields, id.value);
      if |rows| > 0 {
        ghost var row := Lookup(Rows(db.tables, tree[0].table), Str(id.value)).value;
        ValuesAreNav(db.tables, cx, row, fields);
        Fill(fields, rows[0], db.tables, row);
        isNew := false;
      }
      return Done;
    }

    method Fill(fields: seq<nat>, values: seq<Value>, ghost db: Db, ghost row: Row)
      requires Valid() && InRange(fields) && |values| == |fields|
      requires forall i | 0 <= i < |fields| :: values[i] == NavField(db, Cx(), row, rfields[fields[i]].qf)
      modifies this`rfields
      ensures Valid() && rfields == LoadedFrom(db, old(Cx()), row, Chosen(fields))
    {
      ghost var cx := Cx();
      for i := 0 to |fields|
        invariant Valid() && InRange(fields)
        invariant rfields == LoadedFrom(db, cx, row, Chosen(fields[..i]))
      {
        assert Chosen(fields[..i + 1]) == Chosen(fields[..i]) + {fields[i]};
        rfields := rfields[fields[i] := SetFrom(rfields[fields[i]], values[i])];
      }
      assert fields[..|fields|] == fields;
    }

    method Load(db: Database) returns (r: Outcome)
      requires Valid() && DbOk(db.tables)
      modifies this`rfields, this`isNew
      ensures Valid()
      ensures visible == [] || id == None ==> rfields == old(rfields) && isNew == old(isNew)
      ensures visible != [] && id.Some? ==>
                && rfields == AfterLoad(db.tables, old(Cx()), id.value, Chosen(visible))
                && FieldsTook(db.tables, old(Cx()), id.value, rfields, visible)
                && isNew == (old(isNew) && Lookup(Rows(db.tables, tree[0].table), Str(id.value)).None?)
      ensures r == if visible != [] && id == None then NoId else Done
    {
      r := DoLoad(visible, db);
    }

    // Refresh: no edited field is touched; every other one takes what navigation of the current row
    // reads with the edited links in place, if the row is still there.
    method Refresh(db: Database) returns (r: Outcome)
      requires Valid() && DbOk(db.tables)
      modifies this`rfields, this`isNew
      ensures Valid() && |rfields| == |old(rfields)|
      ensures r == if id == None && (exists i | 0 <= i < |rfields| :: !old(rfields)[i].isModified) then NoId else Done
      ensures id == None ==> rfields == old(rfields) && isNew == old(isNew)
      ensures forall i | 0 <= i < |rfields| && old(rfields)[i].isModified :: rfields[i] == old(rfields)[i]
      ensures forall i | 0 <= i < |rfields| && !old(rfields)[i].isModified && id.Some? ::
                match Lookup(Rows(db.tables, tree[0].table), Str(id.value))
                case Some(row) =>
                  Took(rfields[i], old(rfields)[i], NavField(db.tables, old(Cx()), row, old(rfields)[i].qf))
                case None => rfields[i] == old(rfields)[i]
    {
      var fields: seq<nat> := [];
      for i := 0 to |rfields|
        invariant Valid() && rfields == old(rfields) && isNew == old(isNew) && InRange(fields)
        invariant forall j: nat :: j in Chosen(fields) <==> j < i && !rfields[j].isModified
      {
        if !rfields[i].isModified {
          assert Chosen(fields + [i]) == Chosen(fields) + {i};
          fields := fields + [i];
        }
      }
      assert fields == [] ==> Chosen(fields) == {};
      assert fields != [] ==> fields[0] in Chosen(fields);
      r := DoLoad(fields, db);
    }

    // Save: INSERT or UPDATE of the edited master fields, then a reload of the visible fields.
    // returned is the id an INSERT reports, if any. Without edits nothing happens.
    method Save(db: Database, returned: Option<string>) returns (r: Outcome)
      requires Valid() && DbOk(db.tables)
      requires isNew && returned.Some? ==> DbOk(Inserted(db.tables, tree[0].table, returned.value, Sets(Cx(), rfields)))
      modifies this`rfields, this`isNew, this`id, db
      ensures Valid() && DbOk(db.tables)
      ensures Sets(old(Cx()), old(rfields)) == map[] ==>
                && r == Done && db.tables == old(db.tables)
                && rfields == old(rfields) && isNew == old(isNew) && id == old(id)
      ensures Sets(old(Cx()), old(rfields)) != map[] && !old(isNew) ==>
                && id == old(id) && !isNew
                && r == (if id == None then NoId else Done)
                && db.tables == (if id.Some? then
                                   Updated(old(db.tables), tree[0].table, id.value, Sets(old(Cx()), old(rfields)))
                                 else old(db.tables))
                && rfields == Reread(db.tables, old(Cx()), id, visible)
      ensures Sets(old(Cx()), old(rfields)) != map[] && old(isNew) ==>
                if returned == None then
                  && r == InsertFailed && db.tables == old(db.tables)
                  && rfields == old(rfields) && isNew && id == old(id)
                else
                  && id == (if returned.value == "" then None else returned) && !isNew
                  && r == (if id == None && visible != [] then NoId else Done)
                  && db.tables == Inserted(old(db.tables), tree[0].table, returned.value, Sets(old(Cx()), old(rfields)))
                  && rfields == Reread(db.tables, old(Cx()), id, visible)
      ensures r == Done && id.Some? && visible != [] && Sets(old(Cx()), old(rfields)) != map[] ==>
                FieldsTook(db.tables, old(Cx()), id.value, rfields, visible)
      ensures RecordOk(old(Cx())) && r == Done && id.Some?
              && (old(isNew) || Lookup(Rows(old(db.tables), tree[0].table), Str(id.value)).Some?) ==>
                EditsReread(old(rfields), rfields, visible)
      ensures RecordOk(old(Cx())) && r == Done && id.Some? && Sets(old(Cx()), old(rfields)) != map[] ==>
                ShownAsStored(db.tables, old(Cx()), id.value, rfields, visible)
    {
      ghost var before, stored := Cx(), db.tables;
      var stop := WriteOut(db, returned);
      if stop.Some? {
        if RecordOk(before) && stop.value.Done? { NothingWritten(before); }
        return stop.value;
      }
      SavedFields(stored, db.tables, before, id, returned, old(isNew), visible);
      r := Load(db);
    }

    // The first half of save, up to the reload; a value when save ends here.
    method WriteOut(db: Database, returned: Option<string>) returns (stop: Option<Outcome>)
      requires Valid() && DbOk(db.tables)
      requires isNew && returned.Some? ==> DbOk(Inserted(db.tables, tree[0].table, returned.value, Sets(Cx(), rfields)))
      modifies this`isNew, this`id, db
      ensures Valid() && DbOk(db.tables)
      ensures stop == if Sets(Cx(), rfields) == map[] then Some(Done)
                      else if old(isNew) && returned == None then Some(InsertFailed)
                      else if !old(isNew) && id == None then Some(NoId)
                      else None
      ensures stop.Some? ==> db.tables == old(db.tables) && isNew == old(isNew) && id == old(id)
      ensures stop.None? ==>
                && !isNew && id == (if !old(isNew) then old(id) else if returned.value == "" then None else returned)
                && db.tables == SavedDb(old(db.tables), Cx(), old(isNew), id, returned)
    {
      var genius := new G.SqlGenius(Cx(), None, id);
      var gen: G.Gen;
      if isNew { gen := genius.GenInsert(); } else { gen := genius.GenUpdate(); }
      if gen.NoText? { return Some(Done); }
      if gen.NoId? { return Some(NoId); }
      if isNew {
        if returned == None { return Some(InsertFailed); }
        db.Insert(gen.change, genius.namedParams, returned.value);
        id := if returned.value == "" then None else returned;
        isNew := false;
      } else {
        UpdateKeepsDb(db.tables, tree[0].table, id.value, Sets(Cx(), rfields));
        db.Update(gen.change, genius.namedParams);
      }
      return None;
    }
  }

  // The database after a save has written.
  function SavedDb(db: Db, cx: Context, wasNew: bool, id: Option<string>, returned: Option<string>): Db
    requires cx.tree != [] && (if wasNew then returned.Some? else id.Some?)
  {
    if wasNew then Inserted(db, cx.tree[0].table, returned.value, Sets(cx, cx.rfields))
    else Updated(db, cx.tree[0].table, id.value, Sets(cx, cx.rfields))
  }

  // What the reload will find of the edits.
  lemma SavedFields(before: Db, after: Db, cx: Context, id: Option<string>, returned: Option<string>, wasNew: bool,
                    visible: seq<nat>)
    requires ContextOk(cx) && FieldsInTree(cx) && (if wasNew then returned.Some? else id.Some?)
    requires after == SavedDb(before, cx, wasNew, id, returned) && DbOk(after)
    requires wasNew && id.Some? ==> id == returned
    ensures RecordOk(cx) && id.Some? && (wasNew || Lookup(Rows(before, cx.tree[0].table), Str(id.value)).Some?) ==>
              EditsReread(cx.rfields, Reread(after, cx, id, visible), visible)
    ensures RecordOk(cx) && id.Some? ==> ShownAsStored(after, cx, id.value, Reread(after, cx, id, visible), visible)
  {
    if RecordOk(cx) && id.Some? {
      SavedRowHoldsLinks(before, after, cx, id.value, wasNew);
      RereadShowsStored(after, cx, id.value, visible);
      if wasNew {
        InsertedReread(before, cx, id.value, visible);
      } else if Lookup(Rows(before, cx.tree[0].table), Str(id.value)).Some? {
        UpdatedReread(before, cx, id.value, visible);
      }
    }
  }

  // Every visible field, edited or not, shows what plain navigation of the stored row reads, unless a
  // link edited below the record leads its path elsewhere.
  ghost predicate ShownAsStored(db: Db, cx: Context, id: string, after: seq<RField>, visible: seq<nat>)
    requires ContextOk(cx) && FieldsInTree(cx)
  {
    && |after| == |cx.rfields|
    && match Lookup(Rows(db, cx.tree[0].table), Str(id))
       case None => true
       case Some(row) =>
         forall i | i in visible && i < |after| && DeepLinksStay(db, cx, row, cx.rfields[i].qf.table) ::
           Took(after[i], cx.rfields[i], NavField(db, cx.(rfields := []), row, cx.rfields[i].qf))
  }

  lemma SavedRowHoldsLinks(before: Db, after: Db, cx: Context, id: string, wasNew: bool)
    requires RecordOk(cx) && after == SavedDb(before, cx, wasNew, Some(id), Some(id)) && DbOk(after)
    ensures match Lookup(Rows(after, cx.tree[0].table), Str(id))
            case None => true
            case Some(row) => LinksStored(cx, row)
  {
    var rows, sets := Rows(before, cx.tree[0].table), Sets(cx, cx.rfields);
    if wasNew {
      assert UniqueIds(Rows(after, cx.tree[0].table));
      LookupAppended(rows, Row(id, sets));
      LinksStoredByInsert(cx, id);
    } else {
      LookupUpdated(rows, id, sets, Str(id));
      LookupId(rows, Str(id));
      if Lookup(rows, Str(id)).Some? { LinksStoredByUpdate(cx, Lookup(rows, Str(id)).value); }
    }
  }

  lemma RereadShowsStored(db: Db, cx: Context, id: string, visible: seq<nat>)
    requires RecordOk(cx)
    requires match Lookup(Rows(db, cx.tree[0].table), Str(id)) case None => true case Some(row) => LinksStored(cx, row)
    ensures ShownAsStored(db, cx, id, Reread(db, cx, Some(id), visible), visible)
  {
    match Lookup(Rows(db, cx.tree[0].table), Str(id))
    case None =>
    case Some(row) =>
      forall i | i in visible && i < |cx.rfields| && DeepLinksStay(db, cx, row, cx.rfields[i].qf.table)
        ensures Took(Reread(db, cx, Some(id), visible)[i], cx.rfields[i],
                     NavField(db, cx.(rfields := []), row, cx.rfields[i].qf))
      {
        FieldShowsStored(db, cx, row, cx.rfields[i].qf);
      }
  }

  // A field that takes a value from the database: null or the text, and no longer an edit.
  ghost predicate Took(after: RField, before: RField, v: Value) {
    && after.qf == before.qf && !after.isModified
    && (after.isNull <==> v == Null)
    && after.val == match v case Null => "" case Str(text) => text
  }

  // The chosen fields take what navigation reads from the row with the id; the others stay, and all do
  // when there is no such row.
  ghost predicate FieldsTook(db: Db, cx: Context, id: string, after: seq<RField>, fields: seq<nat>)
    requires ContextOk(cx) && FieldsInTree(cx)
  {
    && |after| == |cx.rfields|
    && match Lookup(Rows(db, cx.tree[0].table), Str(id))
       case None => after == cx.rfields
       case Some(row) =>
         forall i | 0 <= i < |after| ::
           if i in fields then Took(after[i], cx.rfields[i], NavField(db, cx, row, cx.rfields[i].qf))
           else after[i] == cx.rfields[i]
  }

  lemma AfterLoadTook(db: Db, cx: Context, id: string, fields: seq<nat>)
    requires ContextOk(cx) && FieldsInTree(cx)
    ensures FieldsTook(db, cx, id, AfterLoad(db, cx, id, Chosen(fields)), fields)
  {}

  // What the reload after a save leaves in the fields.
  ghost function Reread(db: Db, cx: Context, id: Option<string>, visible: seq<nat>): seq<RField>
    requires ContextOk(cx) && FieldsInTree(cx)
  {
    if id.Some? && visible != [] then AfterLoad(db, cx, id.value, Chosen(visible)) else cx.rfields
  }

  lemma NothingWritten(cx: Context)
    requires RecordOk(cx) && Sets(cx, cx.rfields) == map[]
    ensures forall i | 0 <= i < |cx.rfields| :: !Written(cx.rfields[i])
  {
    RecordColumnsApart(cx);
    forall i | 0 <= i < |cx.rfields| ensures !Written(cx.rfields[i]) {
      if Written(cx.rfields[i]) { SetsHold(cx, cx.rfields, i); }
    }
  }

  // Every saved field among the visible ones ends with the value edited in.
  ghost predicate EditsReread(before: seq<RField>, after: seq<RField>, visible: seq<nat>) {
    && |after| == |before|
    && forall i | i in visible && i < |before| && Written(before[i]) :: after[i] == Reloaded(before[i])
  }

  lemma UpdatedReread(db: Db, cx: Context, id: string, visible: seq<nat>)
    requires RecordOk(cx) && Lookup(Rows(db, cx.tree[0].table), Str(id)).Some?
    ensures var saved := Updated(db, cx.tree[0].table, id, Sets(cx, cx.rfields));
            EditsReread(cx.rfields, Reread(saved, cx, Some(id), visible), visible)
  {
    forall i | i in visible && i < |cx.rfields| && Written(cx.rfields[i])
      ensures Reread(Updated(db, cx.tree[0].table, id, Sets(cx, cx.rfields)), cx, Some(id), visible)[i]
              == Reloaded(cx.rfields[i])
    {
      ReadAfterWrite(db, cx, id, Chosen(visible), i);
    }
  }

  lemma InsertedReread(db: Db, cx: Context, id: string, visible: seq<nat>)
    requires RecordOk(cx) && DbOk(Inserted(db, cx.tree[0].table, id, Sets(cx, cx.rfields)))
    ensures var saved := Inserted(db, cx.tree[0].table, id, Sets(cx, cx.rfields));
            EditsReread(cx.rfields, Reread(saved, cx, Some(id), visible), visible)
  {
    forall i | i in visible && i < |cx.rfields| && Written(cx.rfields[i])
      ensures Reread(Inserted(db, cx.tree[0].table, id, Sets(cx, cx.rfields)), cx, Some(id), visible)[i]
              == Reloaded(cx.rfields[i])
    {
      ReadAfterInsert(db, cx, id, Chosen(visible), i);
    }
  }

  function QFields(rfields: seq<RField>, fields: seq<nat>): seq<QField>
    requires forall i | 0 <= i < |fields| :: fields[i] < |rfields|
  {
    seq(|fields|, i requires 0 <= i < |fields| => rfields[fields[i]].qf)
  }

  lemma ValuesAreNav(db: Db, cx: Context, row: Row, fields: seq<nat>)
    requires ContextOk(cx) && FieldsInTree(cx) && forall i | 0 <= i < |fields| :: fields[i] < |cx.rfields|
    ensures G.FieldsIn(cx.tree, QFields(cx.rfields, fields))
    ensures var values := Answer(db, cx, row, QFields(cx.rfields, fields));
            && |values| == |fields|
            && forall i | 0 <= i < |fields| :: values[i] == NavField(db, cx, row, cx.rfields[fields[i]].qf)
  {
    var qfs := QFields(cx.rfields, fields);
    AnswerLength(db, cx, row, qfs);
    forall i | 0 <= i < |fields|
      ensures Answer(db, cx, row, qfs)[i] == NavField(db, cx, row, cx.rfields[fields[i]].qf)
    {
      AnswerAt(db, cx, row, qfs, i);
    }
  }
}
