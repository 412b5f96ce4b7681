// The bookkeeping behind sql_clause_from: which tables still wait for their join, and what one join
// adds.
module Schedule {
  import opened Ordering
  import opened Lists
  import opened Text
  import opened QTree
  import opened Sql
  import opened Navigation

  ghost predicate Closed(tree: Tree, nodes: set<nat>)
    requires Shaped(tree)
  {
    forall n | n in nodes :: n < |tree| && (n > 0 ==> tree[n].parent.value in nodes)
  }

  // A table and everything above it.
  ghost function Chain(tree: Tree, n: nat): (r: set<nat>)
    requires Shaped(tree) && n < |tree|
    ensures n in r && 0 in r && Closed(tree, r)
    decreases n
  {
    if n == 0 then {0} else Chain(tree, tree[n].parent.value) + {n}
  }

  // used_tables: alias -> table, holding exactly the tables in nodes.
  ghost predicate Holds(tree: Tree, used: map<string, nat>, nodes: set<nat>) {
    && (forall n | n in nodes :: n < |tree| && tree[n].alias in used && used[tree[n].alias] == n)
    && (forall a | a in used :: used[a] in nodes && used[a] < |tree| && tree[used[a]].alias == a)
  }

  lemma AliasesDiffer(tree: Tree, m: nat, n: nat)
    requires Shaped(tree) && m < |tree| && n < |tree| && m != n
    ensures tree[m].alias != tree[n].alias
  {
    if m < n { assert AliasesApart(tree, m, n); } else { assert AliasesApart(tree, n, m); }
  }

  lemma HoldsAdded(tree: Tree, used: map<string, nat>, nodes: set<nat>, n: nat)
    requires Shaped(tree) && Holds(tree, used, nodes) && n < |tree|
    ensures tree[n].alias in used ==> n in nodes && nodes + {n} == nodes
    ensures tree[n].alias !in used ==> Holds(tree, used[tree[n].alias := n], nodes + {n})
  {
    if tree[n].alias in used && used[tree[n].alias] != n {
      AliasesDiffer(tree, used[tree[n].alias], n);
    }
  }

  lemma HoldsErased(tree: Tree, used: map<string, nat>, nodes: set<nat>, n: nat)
    requires Shaped(tree) && Holds(tree, used, nodes) && n in nodes
    ensures Holds(tree, used - {tree[n].alias}, nodes - {n})
  {
    forall m | m in nodes - {n} ensures tree[m].alias != tree[n].alias { AliasesDiffer(tree, m, n); }
  }

  lemma NothingHeld(tree: Tree, nodes: set<nat>)
    requires Holds(tree, map[], nodes)
    ensures nodes == {}
  {}

  lemma LeastAlias(used: map<string, nat>)
    requires used != map[]
    ensures exists a :: a in used && forall b | b in used && b != a :: StrLess(a, b)
  {
    var pairs := set a | a in used :: (0, a);
    var some :| some in used;
    assert (0, some) in pairs;
    LeastIsUnique(pairs);
    var m :| IsLeast(pairs, m);
    forall b | b in used && b != m.1 ensures StrLess(m.1, b) { assert (0, b) in pairs; }
  }

  // ---- the state of the loop ---------------------------------------------------------------------------

  ghost function SmartParams(cx: Context, order: seq<nat>): Params
    requires ContextOk(cx) && InTree(cx, order)
  {
    if order == [] then map[]
    else
      var n, rest := order[|order| - 1], SmartParams(cx, order[..|order| - 1]);
      match Edited(cx.rfields, QField(cx.tree[n].parent.value, cx.tree[n].fk))
      case Some(v) => rest[SmartName(cx.tree[n].alias) := v]
      case None => rest
  }

  // The values bound by the joins, in join order.
  ghost function SmartValues(cx: Context, order: seq<nat>): seq<string>
    requires ContextOk(cx) && InTree(cx, order)
  {
    if order == [] then []
    else
      var n := order[|order| - 1];
      SmartValues(cx, order[..|order| - 1]) +
      match Edited(cx.rfields, QField(cx.tree[n].parent.value, cx.tree[n].fk))
      case Some(v) => [v]
      case None => []
  }

  // all are the non-master tables to join, pending those still waiting.
  ghost predicate Joining(cx: Context, base: Params, all: set<nat>, pending: set<nat>, order: seq<nat>,
                          joins: seq<Join>, params: Params) {
    && ContextOk(cx) && 0 !in all && Closed(cx.tree, all + {0})
    && pending <= all && Members(order) == all - pending
    && InTree(cx, order) && Scheduled(cx, order)
    && joins == JoinsOf(cx, order)
    && params == base + SmartParams(cx, order)
  }

  ghost predicate ParentJoined(cx: Context, order: seq<nat>, n: nat)
    requires ContextOk(cx) && 1 <= n < |cx.tree|
  {
    cx.tree[n].parent.value == 0 || cx.tree[n].parent.value in order
  }

  lemma OrderGrows(cx: Context, order: seq<nat>, n: nat)
    requires ContextOk(cx) && InTree(cx, order) && Scheduled(cx, order)
    requires 1 <= n < |cx.tree| && n !in order && ParentJoined(cx, order, n)
    ensures InTree(cx, order + [n]) && Scheduled(cx, order + [n])
    ensures JoinsOf(cx, order + [n]) == JoinsOf(cx, order) + [JoinOf(cx, n)]
  {
    var r := order + [n];
    assert r[..|order|] == order;
    forall i: nat | i < |r| ensures JoinedAfterParent(cx, r, i) {
      if i < |order| {
        assert JoinedAfterParent(cx, order, i);
        assert r[..i] == order[..i];
      }
    }
  }

  // Writing the join of a pending table whose parent is there.
  lemma JoinWritten(cx: Context, base: Params, all: set<nat>, pending: set<nat>, order: seq<nat>, joins: seq<Join>,
                    params: Params, n: nat)
    requires Joining(cx, base, all, pending, order, joins, params)
    requires n in pending && ParentJoined(cx, order, n)
    ensures var e := Edited(cx.rfields, QField(cx.tree[n].parent.value, cx.tree[n].fk));
            Joining(cx, base, all, pending - {n}, order + [n], joins + [JoinOf(cx, n)],
                    if e.Some? then params[SmartName(cx.tree[n].alias) := e.value] else params)
  {
    assert n !in Members(order);
    OrderGrows(cx, order, n);
    assert (order + [n])[..|order|] == order;
    assert Members(order + [n]) == Members(order) + {n};
  }

  // ---- what the parameters say -------------------------------------------------------------------------

  lemma SmartNamesDiffer(cx: Context, m: nat, n: nat)
    requires ContextOk(cx) && m < |cx.tree| && n < |cx.tree| && m != n
    ensures SmartName(cx.tree[m].alias) != SmartName(cx.tree[n].alias)
  {
    AliasesDiffer(cx.tree, m, n);
    if SmartName(cx.tree[m].alias) == SmartName(cx.tree[n].alias) {
      PrefixInjective("smart_join_", cx.tree[m].alias, cx.tree[n].alias);
    }
  }

  lemma {:induction false} SmartParamsBind(cx: Context, order: seq<nat>, n: nat)
    requires ContextOk(cx) && InTree(cx, order) && n in order
    ensures var e := Edited(cx.rfields, QField(cx.tree[n].parent.value, cx.tree[n].fk));
            e.Some? ==> Param(SmartParams(cx, order), SmartName(cx.tree[n].alias)) == Str(e.value)
    decreases |order|
  {
    var init, last := order[..|order| - 1], order[|order| - 1];
    if n != last {
      SmartParamsBind(cx, init, n);
      SmartNamesDiffer(cx, n, last);
    }
  }

  // Only names of smart joins are bound.
  lemma {:induction false} SmartParamsNames(cx: Context, order: seq<nat>)
    requires ContextOk(cx) && InTree(cx, order)
    ensures forall p | p in SmartParams(cx, order) :: p != "" && p[0] == 's'
  {
    if order != [] {
      SmartParamsNames(cx, order[..|order| - 1]);
      assert SmartName(cx.tree[order[|order| - 1]].alias)[0] == 's';
    }
  }

  lemma SmartIsBound(cx: Context, order: seq<nat>, params: Params)
    requires ContextOk(cx) && InTree(cx, order)
    requires forall p | p in SmartParams(cx, order) :: p in params && params[p] == SmartParams(cx, order)[p]
    ensures SmartBound(cx, order, params)
  {
    forall n | n in order && 1 <= n < |cx.tree|
      ensures var e := Edited(cx.rfields, QField(cx.tree[n].parent.value, cx.tree[n].fk));
              e.Some? ==> Param(params, SmartName(cx.tree[n].alias)) == Str(e.value)
    {
      SmartParamsBind(cx, order, n);
    }
  }

  // ---- scope -------------------------------------------------------------------------------------------

  function Bound(alias: string, joins: seq<Join>): set<string> {
    if joins == [] then {alias} else Bound(alias, joins[..|joins| - 1]) + {joins[|joins| - 1].alias}
  }

  // Every alias is new, and an ON clause mentions only what is bound before it.
  predicate JoinsScoped(alias: string, joins: seq<Join>) {
    joins == [] || (
      var init, j := joins[..|joins| - 1], joins[|joins| - 1];
      && JoinsScoped(alias, init)
      && j.alias !in Bound(alias, init)
      && (j.on.OnColumn? ==> j.on.c.alias in Bound(alias, init)))
  }

  predicate WhereScoped(w: Where, bound: set<string>) {
    match w
    case Everything => true
    case IdIs(a, _) => a in bound
    case IdIn(a, _) => a in bound
    case All(clauses) => forall c | c in clauses :: c.column.alias in bound
  }

  // No clause mentions an alias that FROM does not bind.
  predicate Scoped(q: Query) {
    var bound := Bound(q.alias, q.joins);
    && JoinsScoped(q.alias, q.joins)
    && (forall c | c in q.columns :: c.alias in bound)
    && WhereScoped(q.where_, bound)
    && (forall k | k in q.order :: k.column.alias in bound)
  }

  ghost function AliasesOf(cx: Context, order: seq<nat>): set<string>
    requires ContextOk(cx) && InTree(cx, order)
  {
    if order == [] then {MASTER} else AliasesOf(cx, order[..|order| - 1]) + {cx.tree[order[|order| - 1]].alias}
  }

  lemma {:induction false} BoundIsAliases(cx: Context, order: seq<nat>)
    requires ContextOk(cx) && InTree(cx, order)
    ensures Bound(MASTER, JoinsOf(cx, order)) == AliasesOf(cx, order)
    decreases |order|
  {
    if order != [] {
      BoundIsAliases(cx, order[..|order| - 1]);
      var js := JoinsOf(cx, order);
      assert js[..|js| - 1] == JoinsOf(cx, order[..|order| - 1]);
    }
  }

  lemma {:induction false} InAliases(cx: Context, order: seq<nat>, n: nat)
    requires ContextOk(cx) && InTree(cx, order) && n < |cx.tree|
    ensures cx.tree[n].alias in AliasesOf(cx, order) <==> n == 0 || n in order
    decreases |order|
  {
    if order == [] {
      if n != 0 { AliasesDiffer(cx.tree, 0, n); }
    } else {
      var last := order[|order| - 1];
      InAliases(cx, order[..|order| - 1], n);
      if n != last { AliasesDiffer(cx.tree, n, last); }
    }
  }

  // Any schedule that respects parents is well scoped.
  lemma {:induction false} ScheduledIsScoped(cx: Context, order: seq<nat>)
    requires ContextOk(cx) && InTree(cx, order) && Scheduled(cx, order)
    ensures JoinsScoped(MASTER, JoinsOf(cx, order))
    decreases |order|
  {
    if order != [] {
      var init, n := order[..|order| - 1], order[|order| - 1];
      ScheduledPrefix(cx, order);
      ScheduledIsScoped(cx, init);
      var js := JoinsOf(cx, order);
      assert js[..|js| - 1] == JoinsOf(cx, init);
      BoundIsAliases(cx, init);
      InAliases(cx, init, n);
      InAliases(cx, init, cx.tree[n].parent.value);
    }
  }
}
