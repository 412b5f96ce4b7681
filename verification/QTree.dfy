// The tree of qualified tables behind one model. A QTable is named by its position: position 0 is
// the master table and a parent always comes before its children.
module QTree {
  import opened Ordering
  import opened Text

  // Field name -> the table it refers to, if it is a reference.
  type TableDef = map<string, Option<string>>
  type Schema = map<string, TableDef>

  datatype QTable = QTable(table: string, alias: string, parent: Option<nat>, fk: string)

  datatype QField = QField(table: nat, field: string)

  type Tree = seq<QTable>

  const MASTER: string := "master"

  // Field::sqlName: reference columns carry the suffix _id.
  function SqlName(schema: Schema, table: string, field: string): string {
    if table in schema && field in schema[table] && schema[table][field].Some? then field + "_id" else field
  }

  function Alias(n: nat): string { "t" + Dec(n) }

  lemma AliasInjective(m: nat, n: nat)
    requires Alias(m) == Alias(n)
    ensures m == n
  {
    PrefixInjective("t", Dec(m), Dec(n));
    DecInjective(m, n);
  }

  ghost predicate AliasesApart(tree: Tree, i: nat, j: nat)
    requires i < |tree| && j < |tree|
  {
    tree[i].alias != tree[j].alias
  }

  ghost predicate ParentsFirst(tree: Tree) {
    && tree != [] && tree[0].parent == None
    && forall i | 1 <= i < |tree| :: tree[i].parent.Some? && tree[i].parent.value < i
  }

  // Parents come first and aliases differ: all that SQL generation needs.
  ghost predicate Shaped(tree: Tree) {
    && ParentsFirst(tree) && tree[0].alias == MASTER
    && (forall i: nat, j: nat {:trigger AliasesApart(tree, i, j)} | i < j < |tree| :: AliasesApart(tree, i, j))
  }

  // The reference fields from the master table down to node n: climbing ppqt and fk_in_parent.
  ghost function PathOf(tree: Tree, n: nat): seq<string>
    requires ParentsFirst(tree) && n < |tree|
    decreases n
  {
    if n == 0 then [] else PathOf(tree, tree[n].parent.value) + [tree[n].fk]
  }

  // svparts_t splits a dotted name at its dots.
  function Parts(name: string): seq<string> { Split(name, '.') }

  // ---- following the schema ------------------------------------------------------------------------

  // Every lookup of this path finds its field, and all but the last are references: what the
  // assertions in getQField demand.
  predicate Resolvable(schema: Schema, table: string, parts: seq<string>)
    decreases |parts|
  {
    && parts != [] && table in schema && parts[0] in schema[table]
    && (|parts| > 1 ==> schema[table][parts[0]].Some? && Resolvable(schema, schema[table][parts[0]].value, parts[1..]))
  }

  // The table a chain of references leads to.
  function Target(schema: Schema, table: string, refs: seq<string>): Option<string>
    decreases |refs|
  {
    if refs == [] then Some(table)
    else if table in schema && refs[0] in schema[table] && schema[table][refs[0]].Some? then
      Target(schema, schema[table][refs[0]].value, refs[1..])
    else None
  }

  lemma {:induction false} TargetSnoc(schema: Schema, table: string, refs: seq<string>, f: string)
    ensures Target(schema, table, refs + [f]) ==
            match Target(schema, table, refs)
            case None => None
            case Some(t) => if t in schema && f in schema[t] then schema[t][f] else None
    decreases |refs|
  {
    if refs == [] {
      assert [f][1..] == [];
    } else {
      assert (refs + [f])[1..] == refs[1..] + [f];
      if table in schema && refs[0] in schema[table] && schema[table][refs[0]].Some? {
        TargetSnoc(schema, schema[table][refs[0]].value, refs[1..], f);
      }
    }
  }
}
