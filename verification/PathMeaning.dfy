// From dotted names to answers: what a loaded column is, said without the tree, its aliases or the
// order of the joins.
module PathMeaning {
  import opened Ordering
  import opened QTree
  import opened Sql
  import opened Navigation
  import opened QueryMeaning
  import M = QModel
  import G = SqlGenius

  // Unsaved edits, by the path of the edited field.
  type Edits = map<seq<string>, string>

  // The row a chain of references leads to, starting at a row of the master table. An edited
  // reference leads to the row with the edited id, whatever comes before it.
  ghost function Follow(db: Db, schema: Schema, master: string, edits: Edits, row: Row, refs: seq<string>): Option<Row>
    decreases |refs|
  {
    if refs == [] then Some(row)
    else
      var init, f := refs[..|refs| - 1], refs[|refs| - 1];
      match (Target(schema, master, init), Target(schema, master, refs))
      case (Some(from), Some(to)) =>
        var here := Follow(db, schema, master, edits, row, init);
        Lookup(Rows(db, to),
               if refs in edits then Str(edits[refs])
               else if here.Some? then Read(here.value, SqlName(schema, from, f))
               else Null)
      case _ => None
  }

  // The value a dotted name stands for.
  ghost function PathValue(db: Db, schema: Schema, master: string, edits: Edits, row: Row, parts: seq<string>): Value
    requires parts != []
  {
    var refs, f := parts[..|parts| - 1], parts[|parts| - 1];
    match (Follow(db, schema, master, edits, row, refs), Target(schema, master, refs))
    case (Some(r), Some(table)) => Read(r, SqlName(schema, table, f))
    case _ => Null
  }

  ghost predicate EditsIn(tree: Tree, rfields: seq<RField>) {
    forall i | 0 <= i < |rfields| :: rfields[i].qf.table < |tree|
  }

  // The modified fields of a record; the first RField of a field speaks for it.
  ghost function EditsOf(tree: Tree, rfields: seq<RField>): Edits
    requires Shaped(tree) && EditsIn(tree, rfields)
  {
    if rfields == [] then map[]
    else
      var path, rest := M.FullPath(tree, rfields[0].qf), EditsOf(tree, rfields[1..]);
      if rfields[0].isModified then rest[path := rfields[0].val] else rest - {path}
  }

  lemma {:induction false} EditedByPath(tree: Tree, qtables: map<(nat, string), nat>, rfields: seq<RField>, qf: QField)
    requires Shaped(tree) && M.Indexed(tree, qtables) && EditsIn(tree, rfields) && qf.table < |tree|
    ensures var path, edits := M.FullPath(tree, qf), EditsOf(tree, rfields);
            Edited(rfields, qf) == if path in edits then Some(edits[path]) else None
  {
    if rfields != [] {
      M.NameFindsOneField(tree, qtables, rfields[0].qf, qf);
      EditedByPath(tree, qtables, rfields[1..], qf);
    }
  }

  // A tree grown by lookups, and records whose fields lie in it.
  ghost predicate Grown(cx: Context, master: string, qtables: map<(nat, string), nat>, num: nat) {
    && M.TreeOk(cx.schema, master, cx.tree, num) && M.Indexed(cx.tree, qtables) && EditsIn(cx.tree, cx.rfields)
  }

  // Navigation in the tree is following the path of the node.
  lemma {:induction false} NavFollows(db: Db, cx: Context, master: string, qtables: map<(nat, string), nat>, num: nat,
                                      row: Row, n: nat)
    requires Grown(cx, master, qtables, num) && n < |cx.tree|
    ensures Follow(db, cx.schema, master, EditsOf(cx.tree, cx.rfields), row, PathOf(cx.tree, n)) == Nav(db, cx, row, n)
    decreases n
  {
    if n > 0 {
      var p, refs := cx.tree[n].parent.value, PathOf(cx.tree, n);
      NavFollows(db, cx, master, qtables, num, row, p);
      EditedByPath(cx.tree, qtables, cx.rfields, QField(p, cx.tree[n].fk));
      assert refs[..|refs| - 1] == PathOf(cx.tree, p) && refs[|refs| - 1] == cx.tree[n].fk;
      assert M.FullPath(cx.tree, QField(p, cx.tree[n].fk)) == refs;
      assert M.OnTarget(cx.schema, master, cx.tree, n) && M.OnTarget(cx.schema, master, cx.tree, p);
    }
  }

  lemma FieldFollows(db: Db, cx: Context, master: string, qtables: map<(nat, string), nat>, num: nat, row: Row,
                     qf: QField)
    requires Grown(cx, master, qtables, num) && qf.table < |cx.tree|
    ensures NavField(db, cx, row, qf)
            == PathValue(db, cx.schema, master, EditsOf(cx.tree, cx.rfields), row, M.FullPath(cx.tree, qf))
  {
    var parts := M.FullPath(cx.tree, qf);
    NavFollows(db, cx, master, qtables, num, row, qf.table);
    assert parts[..|parts| - 1] == PathOf(cx.tree, qf.table) && parts[|parts| - 1] == qf.field;
    assert M.OnTarget(cx.schema, master, cx.tree, qf.table);
  }

  // Loading fields by their dotted names gives, for the row with the id, the value of every name.
  // Nothing in the answer depends on how the tree was grown, on the aliases or on the join order.
  lemma NamesAreLoaded(db: Db, cx: Context, master: string, qtables: map<(nat, string), nat>, num: nat,
                       q: Query, params: Params, order: seq<nat>, names: seq<string>, fields: seq<QField>, id: string)
    requires Grown(cx, master, qtables, num) && DbOk(db) && G.FieldsIn(cx.tree, fields)
    requires |names| == |fields| && forall i | 0 <= i < |names| :: M.FullPath(cx.tree, fields[i]) == Parts(names[i])
    requires G.SelectOneShape(cx, q, params, order, fields, id)
    ensures match Lookup(Rows(db, master), Str(id))
            case None => Eval(db, q, params) == []
            case Some(row) =>
              && |Eval(db, q, params)| == 1 && |Eval(db, q, params)[0]| == |names|
              && forall i | 0 <= i < |names| ::
                   Parts(names[i]) != []
                   && Eval(db, q, params)[0][i]
                      == PathValue(db, cx.schema, master, EditsOf(cx.tree, cx.rfields), row, Parts(names[i]))
  {
    G.SelectOneLoads(cx, q, params, order, fields, id);
    var found := Lookup(Rows(db, master), Str(id));
    if found.Some? {
      forall i | 0 <= i < |names|
        ensures |Answer(db, cx, found.value, fields)| == |names| && Parts(names[i]) != []
        ensures Answer(db, cx, found.value, fields)[i]
                == PathValue(db, cx.schema, master, EditsOf(cx.tree, cx.rfields), found.value, Parts(names[i]))
      {
        AnswerAt(db, cx, found.value, fields, i);
        FieldFollows(db, cx, master, qtables, num, found.value, fields[i]);
      }
      AnswerLength(db, cx, found.value, fields);
    }
  }
}
