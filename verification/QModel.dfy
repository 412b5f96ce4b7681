// QModel: the memoised tree of qualified tables, grown by lookups of dotted field names.
module QModel {
  import opened Ordering
  import opened Lists
  import opened Text
  import opened QTree

  // The static counter in next_alias, shared by all models.
  class AliasCounter {
    var num: nat
    constructor ()
      ensures num == 1
    {
      num := 1;
    }
  }

  // svparts_t: the queue of the parts of a dotted name.
  method SplitParts(name: string) returns (parts: seq<string>)
    ensures parts == Parts(name)
  {
    parts := [];
    var rest := name;
    var pos := First(rest, '.');
    while pos < |rest|
      invariant parts + Parts(rest) == Parts(name) && pos == First(rest, '.')
      decreases |rest|
    {
      parts := parts + [rest[..pos]];
      rest := rest[pos + 1..];
      pos := First(rest, '.');
    }
    parts := parts + [rest];
  }

  ghost predicate Issued(alias: string, num: nat) {
    exists k: nat | k < num :: alias == Alias(k)
  }

  // ---- the tree ------------------------------------------------------------------------------------

  ghost predicate TreeOk(schema: Schema, master: string, tree: Tree, num: nat) {
    && Shaped(tree)
    && tree[0].table == master
    && (forall i | 1 <= i < |tree| :: Issued(tree[i].alias, num))
    && (forall i: nat {:trigger OnTarget(schema, master, tree, i)} | i < |tree| :: OnTarget(schema, master, tree, i))
  }

  // The node's table is the one its references lead to.
  ghost predicate OnTarget(schema: Schema, master: string, tree: Tree, i: nat)
    requires ParentsFirst(tree) && i < |tree|
  {
    Target(schema, master, PathOf(tree, i)) == Some(tree[i].table)
  }

  // The child maps of all nodes: they hold every non-master node under its parent and key.
  ghost predicate Indexed(tree: Tree, qtables: map<(nat, string), nat>) {
    && (forall k {:trigger EntryOk(tree, qtables, k)} | k in qtables :: EntryOk(tree, qtables, k))
    && (forall i: nat {:trigger NodeOk(tree, qtables, i)} | 1 <= i < |tree| :: NodeOk(tree, qtables, i))
  }

  ghost predicate EntryOk(tree: Tree, qtables: map<(nat, string), nat>, k: (nat, string))
    requires k in qtables
  {
    0 < qtables[k] < |tree| && tree[qtables[k]].parent == Some(k.0) && tree[qtables[k]].fk == k.1
  }

  ghost predicate NodeOk(tree: Tree, qtables: map<(nat, string), nat>, i: nat)
    requires i < |tree|
  {
    && tree[i].parent.Some? && (tree[i].parent.value, tree[i].fk) in qtables
    && qtables[(tree[i].parent.value, tree[i].fk)] == i
  }

  ghost function FullPath(tree: Tree, qf: QField): seq<string>
    requires Shaped(tree) && qf.table < |tree|
  {
    PathOf(tree, qf.table) + [qf.field]
  }

  ghost predicate MemoOk(tree: Tree, memo: map<string, QField>)
    requires Shaped(tree)
  {
    forall name {:trigger MemoEntry(tree, memo, name)} | name in memo :: MemoEntry(tree, memo, name)
  }

  ghost predicate MemoEntry(tree: Tree, memo: map<string, QField>, name: string)
    requires Shaped(tree) && name in memo
  {
    memo[name].table < |tree| && FullPath(tree, memo[name]) == Parts(name)
  }

  // Different nodes lie on different paths, so a path names at most one QTable.
  lemma {:induction false} PathNamesOneTable(tree: Tree, qtables: map<(nat, string), nat>, i: nat, j: nat)
    requires Shaped(tree) && Indexed(tree, qtables) && i < |tree| && j < |tree|
    requires PathOf(tree, i) == PathOf(tree, j)
    ensures i == j
    decreases i
  {
    if i > 0 && j > 0 {
      assert NodeOk(tree, qtables, i) && NodeOk(tree, qtables, j);
      LastApart(PathOf(tree, tree[i].parent.value), tree[i].fk, PathOf(tree, tree[j].parent.value), tree[j].fk);
      PathNamesOneTable(tree, qtables, tree[i].parent.value, tree[j].parent.value);
    }
  }

  // Two fields with the same full name are the same node and field; with a common reference prefix
  // they hang on one QTable.
  lemma NameFindsOneField(tree: Tree, qtables: map<(nat, string), nat>, a: QField, b: QField)
    requires Shaped(tree) && Indexed(tree, qtables) && a.table < |tree| && b.table < |tree|
    ensures FullPath(tree, a) == FullPath(tree, b) <==> a == b
    ensures PathOf(tree, a.table) == PathOf(tree, b.table) <==> a.table == b.table
  {
    if FullPath(tree, a) == FullPath(tree, b) {
      LastApart(PathOf(tree, a.table), a.field, PathOf(tree, b.table), b.field);
    }
    if PathOf(tree, a.table) == PathOf(tree, b.table) {
      PathNamesOneTable(tree, qtables, a.table, b.table);
    }
  }

  // Climbing from a field to the master table rebuilds its dotted name.
  lemma ClimbingRebuildsName(tree: Tree, qf: QField, name: string)
    requires Shaped(tree) && qf.table < |tree| && FullPath(tree, qf) == Parts(name)
    ensures Join(FullPath(tree, qf), '.') == name
  {
    JoinSplit(name, '.');
  }

  // Aliases are identifiers, so generated statements can be scanned for their parameters.
  lemma AliasesAreNames(schema: Schema, master: string, tree: Tree, num: nat)
    requires TreeOk(schema, master, tree, num)
    ensures forall i | 0 <= i < |tree| :: IsName(tree[i].alias)
  {
    forall i | 1 <= i < |tree| ensures IsName(tree[i].alias) {
      assert Issued(tree[i].alias, num);
      var k: nat :| k < num && tree[i].alias == Alias(k);
      DecIsName(k);
    }
  }

  // ---- growing -------------------------------------------------------------------------------------

  lemma {:induction false} PathsPersist(tree: Tree, q: QTable, n: nat)
    requires Shaped(tree) && n < |tree| && q.parent.Some? && q.parent.value < |tree|
    ensures PathOf(tree + [q], n) == PathOf(tree, n)
    decreases n
  {
    if n > 0 { PathsPersist(tree, q, tree[n].parent.value); }
  }

  lemma GrownIsShaped(tree: Tree, q: QTable, num: nat)
    requires Shaped(tree) && forall i | 1 <= i < |tree| :: Issued(tree[i].alias, num)
    requires q.parent.Some? && q.parent.value < |tree| && q.alias == Alias(num)
    ensures Shaped(tree + [q])
    ensures forall i | 1 <= i < |tree| + 1 :: Issued((tree + [q])[i].alias, num + 1)
  {
    var r := tree + [q];
    forall i | 1 <= i < |tree| ensures r[i].alias != q.alias && Issued(r[i].alias, num + 1) {
      assert Issued(tree[i].alias, num);
      var k: nat :| k < num && tree[i].alias == Alias(k);
      if Alias(k) == Alias(num) { AliasInjective(k, num); }
    }
    forall i: nat, j: nat | i < j < |r| ensures AliasesApart(r, i, j) {
      if j < |tree| { assert AliasesApart(tree, i, j); }
      if i == 0 { assert r[0].alias[0] == 'm' && j == |tree| ==> q.alias[0] == 't'; }
    }
    assert Issued(q.alias, num + 1);
  }

  lemma GrownIsOk(schema: Schema, master: string, tree: Tree, q: QTable, num: nat)
    requires TreeOk(schema, master, tree, num)
    requires q.parent.Some? && q.parent.value < |tree| && q.alias == Alias(num)
    requires tree[q.parent.value].table in schema && q.fk in schema[tree[q.parent.value].table]
    requires schema[tree[q.parent.value].table][q.fk] == Some(q.table)
    ensures TreeOk(schema, master, tree + [q], num + 1)
  {
    var r := tree + [q];
    GrownIsShaped(tree, q, num);
    forall i: nat | i < |r| ensures OnTarget(schema, master, r, i) {
      if i < |tree| {
        PathsPersist(tree, q, i);
        assert OnTarget(schema, master, tree, i);
      } else {
        PathsPersist(tree, q, q.parent.value);
        assert OnTarget(schema, master, tree, q.parent.value);
        TargetSnoc(schema, master, PathOf(tree, q.parent.value), q.fk);
      }
    }
  }

  lemma MemoPersists(tree: Tree, q: QTable, memo: map<string, QField>)
    requires Shaped(tree) && Shaped(tree + [q]) && MemoOk(tree, memo) && q.parent.Some? && q.parent.value < |tree|
    ensures MemoOk(tree + [q], memo)
  {
    forall name | name in memo ensures MemoEntry(tree + [q], memo, name) {
      assert MemoEntry(tree, memo, name);
      PathsPersist(tree, q, memo[name].table);
    }
  }

  lemma IndexGrows(tree: Tree, qtables: map<(nat, string), nat>, q: QTable)
    requires Indexed(tree, qtables) && tree != [] && q.parent.Some? && (q.parent.value, q.fk) !in qtables
    ensures Indexed(tree + [q], qtables[(q.parent.value, q.fk) := |tree|])
  {
    var r, m := tree + [q], qtables[(q.parent.value, q.fk) := |tree|];
    forall k | k in m ensures EntryOk(r, m, k) {
      if k in qtables { assert EntryOk(tree, qtables, k); }
    }
    forall i: nat | 1 <= i < |r| ensures NodeOk(r, m, i) {
      if i < |tree| { assert NodeOk(tree, qtables, i); }
    }
  }

  lemma MemoGrows(tree: Tree, memo: map<string, QField>, name: string, qf: QField)
    requires Shaped(tree) && MemoOk(tree, memo) && qf.table < |tree| && FullPath(tree, qf) == Parts(name)
    ensures MemoOk(tree, memo[name := qf])
  {
    var grown := memo[name := qf];
    forall n | n in grown ensures MemoEntry(tree, grown, n) {
      if n != name { assert MemoEntry(tree, memo, n); }
    }
  }

  class QModel {
    const schema: Schema
    const master: string
    const counter: AliasCounter
    var tree: Tree
    var qtables: map<(nat, string), nat>      // QTable::qtables of every node
    var qfields: map<string, QField>          // the model's memo of full names

    ghost predicate Valid()
      reads this, counter
    {
      TreeOk(schema, master, tree, counter.num) && Indexed(tree, qtables) && MemoOk(tree, qfields)
    }

    constructor (schema: Schema, master: string, counter: AliasCounter)
      ensures Valid() && tree == [QTable(master, MASTER, None, "")]
      ensures this.counter == counter && this.schema == schema && this.master == master
    {
      this.schema, this.master, this.counter := schema, master, counter;
      tree := [QTable(master, MASTER, None, "")];
      qtables, qfields := map[], map[];
    }

    method NextAlias() returns (alias: string)
      modifies counter
      ensures alias == Alias(old(counter.num)) == "t" + Dec(old(counter.num)) && counter.num == old(counter.num) + 1
    {
      alias := "t" + Dec(counter.num);
      counter.num := counter.num + 1;
    }

    // get_or_create on the child tables of a node.
    method Child(node: nat, name: string) returns (child: nat)
      requires Valid() && node < |tree|
      requires tree[node].table in schema && name in schema[tree[node].table] && schema[tree[node].table][name].Some?
      modifies this`tree, this`qtables, counter
      ensures Valid() && old(tree) <= tree && old(counter.num) <= counter.num
      ensures node < child < |tree| && tree[child].table == schema[tree[node].table][name].value
      ensures PathOf(tree, child) == PathOf(old(tree), node) + [name]
      ensures (node, name) in old(qtables) ==> tree == old(tree) && child == old(qtables)[(node, name)]
    {
      if (node, name) in qtables {
        child := qtables[(node, name)];
        assert EntryOk(tree, qtables, (node, name));
        assert OnTarget(schema, master, tree, node) && OnTarget(schema, master, tree, child);
        TargetSnoc(schema, master, PathOf(tree, node), name);
      } else {
        var num := counter.num;
        var alias := NextAlias();
        var q := QTable(schema[tree[node].table][name].value, alias, Some(node), name);
        GrownIsOk(schema, master, tree, q, num);
        MemoPersists(tree, q, qfields);
        PathsPersist(tree, q, node);
        IndexGrows(tree, qtables, q);
        child := |tree|;
        tree := tree + [q];
        qtables := qtables[(node, name) := child];
      }
    }

    // QTable::getQField: consume the parts one by one.
    method Walk(node: nat, parts: seq<string>) returns (qf: QField)
      requires Valid() && node < |tree| && Resolvable(schema, tree[node].table, parts)
      modifies this`tree, this`qtables, counter
      ensures Valid() && old(tree) <= tree && old(counter.num) <= counter.num
      ensures qf.table < |tree| && FullPath(tree, qf) == PathOf(old(tree), node) + parts
      decreases |parts|
    {
      var name, rest := parts[0], parts[1..];
      if |rest| != 0 {
        ghost var path := PathOf(tree, node);
        var child := Child(node, name);
        qf := Walk(child, rest);
        assert path + [name] + rest == path + parts;
      } else {
        qf := QField(node, name);
      }
    }

    // QModel::getQField: the memo first, the walk otherwise.
    method GetQField(fullname: string) returns (qf: QField)
      requires Valid() && Resolvable(schema, master, Parts(fullname))
      modifies this, counter
      ensures Valid() && old(tree) <= tree && old(counter.num) <= counter.num
      ensures qf.table < |tree| && FullPath(tree, qf) == Parts(fullname)
      ensures fullname in old(qfields) ==> qf == old(qfields)[fullname] && tree == old(tree)
      ensures qfields == old(qfields)[fullname := qf]
    {
      if fullname in qfields {
        qf := qfields[fullname];
        assert MemoEntry(tree, qfields, fullname);
      } else {
        var parts := SplitParts(fullname);
        qf := Walk(0, parts);
        assert [] + parts == parts;
        MemoGrows(tree, qfields, fullname, qf);
        qfields := qfields[fullname := qf];
      }
    }

    // Any sequence of lookups: in the tree they leave behind, every result still climbs to the name
    // it was asked for, so equal names gave equal results and nothing else did.
    method LookUpAll(names: seq<string>) returns (found: seq<QField>)
      requires Valid() && forall n | n in names :: Resolvable(schema, master, Parts(n))
      modifies this, counter
      ensures Valid() && |found| == |names|
      ensures forall i | 0 <= i < |names| ::
                found[i].table < |tree| && FullPath(tree, found[i]) == Parts(names[i])
                && names[i] in qfields && qfields[names[i]] == found[i]
      ensures forall i, j | 0 <= i < |names| && 0 <= j < |names| :: names[i] == names[j] <==> found[i] == found[j]
    {
      found := [];
      for i := 0 to |names|
        invariant Valid() && |found| == i
        invariant forall j | 0 <= j < i :: names[j] in qfields && qfields[names[j]] == found[j]
      {
        var qf := GetQField(names[i]);
        found := found + [qf];
      }
      forall i | 0 <= i < |names| ensures MemoEntry(tree, qfields, names[i]) {}
      forall i, j | 0 <= i < |names| && 0 <= j < |names| && found[i] == found[j] ensures names[i] == names[j] {
        ClimbingRebuildsName(tree, found[i], names[i]);
        ClimbingRebuildsName(tree, found[j], names[j]);
      }
    }
  }
}
