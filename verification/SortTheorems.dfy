// The order of the listed ids, in terms of navigation: ORDER BY on the joined tables sorts the
// master rows by the values their sort paths reach.
module SortTheorems {
  import opened Ordering
  import opened Sql
  import opened Navigation
  import opened Schedule
  import opened QueryMeaning
  import F = Filter
  import G = SqlGenius

  ghost predicate SortsIn(cx: Context, sorts: seq<G.SortSpec>) {
    ContextOk(cx) && forall s | s in sorts :: s.qf.table < |cx.tree|
  }

  // Row a goes before row b: the first sort path on which they differ decides.
  ghost predicate RowBefore(db: Db, cx: Context, a: Row, b: Row, sorts: seq<G.SortSpec>)
    requires SortsIn(cx, sorts)
    decreases |sorts|
  {
    && sorts != []
    && var x, y := NavField(db, cx, a, sorts[0].qf), NavField(db, cx, b, sorts[0].qf);
       if x == y then RowBefore(db, cx, a, b, sorts[1..])
       else if sorts[0].desc then ValueBefore(y, x)
       else ValueBefore(x, y)
  }

  // No row stands behind one it should go before.
  ghost predicate Ranked(db: Db, cx: Context, rows: seq<Row>, sorts: seq<G.SortSpec>)
    requires SortsIn(cx, sorts)
  {
    forall i, j | 0 <= i < j < |rows| :: !RowBefore(db, cx, rows[j], rows[i], sorts)
  }

  ghost function InsertRow(db: Db, cx: Context, r: Row, rows: seq<Row>, sorts: seq<G.SortSpec>): seq<Row>
    requires SortsIn(cx, sorts)
    decreases |rows|
  {
    if rows == [] || RowBefore(db, cx, r, rows[0], sorts) then [r] + rows
    else [rows[0]] + InsertRow(db, cx, r, rows[1..], sorts)
  }

  ghost function SortRows(db: Db, cx: Context, rows: seq<Row>, sorts: seq<G.SortSpec>): seq<Row>
    requires SortsIn(cx, sorts)
    decreases |rows|
  {
    if rows == [] then []
    else InsertRow(db, cx, rows[|rows| - 1], SortRows(db, cx, rows[..|rows| - 1], sorts), sorts)
  }

  // ---- the order is a strict weak one ------------------------------------------------------------------

  lemma ValueTrichotomy(a: Value, b: Value)
    ensures ValueBefore(a, b) || a == b || ValueBefore(b, a)
    ensures !(ValueBefore(a, b) && (a == b || ValueBefore(b, a)))
  {
    if a.Str? && b.Str? { StrLessTrichotomy(a.s, b.s); }
  }

  lemma ValueTransitive(a: Value, b: Value, c: Value)
    requires ValueBefore(a, b) && ValueBefore(b, c)
    ensures ValueBefore(a, c)
  {
    if c.Str? { StrLessTransitive(a.s, b.s, c.s); }
  }

  lemma {:induction false} RowAsymmetric(db: Db, cx: Context, a: Row, b: Row, sorts: seq<G.SortSpec>)
    requires SortsIn(cx, sorts) && RowBefore(db, cx, a, b, sorts)
    ensures !RowBefore(db, cx, b, a, sorts)
    decreases |sorts|
  {
    var x, y := NavField(db, cx, a, sorts[0].qf), NavField(db, cx, b, sorts[0].qf);
    if x == y { RowAsymmetric(db, cx, a, b, sorts[1..]); } else { ValueTrichotomy(x, y); }
  }

  // Not being behind is transitive.
  lemma {:induction false} RowChain(db: Db, cx: Context, a: Row, b: Row, c: Row, sorts: seq<G.SortSpec>)
    requires SortsIn(cx, sorts) && !RowBefore(db, cx, b, a, sorts) && !RowBefore(db, cx, c, b, sorts)
    ensures !RowBefore(db, cx, c, a, sorts)
    decreases |sorts|
  {
    if sorts != [] {
      var qf := sorts[0].qf;
      var x, y, z := NavField(db, cx, a, qf), NavField(db, cx, b, qf), NavField(db, cx, c, qf);
      if x == y == z {
        RowChain(db, cx, a, b, c, sorts[1..]);
      } else {
        NotBehind(x, y, z, sorts[0].desc);
      }
    }
  }

  lemma NotBehind(x: Value, y: Value, z: Value, desc: bool)
    requires x == y || (if desc then !ValueBefore(x, y) else !ValueBefore(y, x))
    requires y == z || (if desc then !ValueBefore(y, z) else !ValueBefore(z, y))
    requires !(x == y == z)
    ensures x != z && if desc then !ValueBefore(x, z) else !ValueBefore(z, x)
  {
    ValueTrichotomy(x, y);
    ValueTrichotomy(y, z);
    ValueTrichotomy(x, z);
    if x != y && y != z {
      if desc { ValueTransitive(z, y, x); } else { ValueTransitive(x, y, z); }
    }
  }

  // A value comes before NULL and before every text that follows it in the dictionary.
  ghost predicate Below(x: Value, y: Value) {
    x.Str? && (y.Null? || exists k: nat :: LessAt(x.s, y.s, k))
  }

  lemma ValueBeforeMeans(x: Value, y: Value)
    ensures ValueBefore(x, y) <==> Below(x, y)
  {
    if x.Str? && y.Str? { StrLessMeans(x.s, y.s); }
  }

  // Sort path m is the first on which the rows differ, and it puts a before b.
  ghost predicate DecidesAt(db: Db, cx: Context, a: Row, b: Row, sorts: seq<G.SortSpec>, m: nat)
    requires SortsIn(cx, sorts)
  {
    && m < |sorts|
    && (forall l | 0 <= l < m :: NavField(db, cx, a, sorts[l].qf) == NavField(db, cx, b, sorts[l].qf))
    && var x, y := NavField(db, cx, a, sorts[m].qf), NavField(db, cx, b, sorts[m].qf);
       x != y && if sorts[m].desc then Below(y, x) else Below(x, y)
  }

  lemma {:induction false} RowBeforeMeans(db: Db, cx: Context, a: Row, b: Row, sorts: seq<G.SortSpec>)
    requires SortsIn(cx, sorts)
    ensures RowBefore(db, cx, a, b, sorts) <==> exists m: nat :: DecidesAt(db, cx, a, b, sorts, m)
    decreases |sorts|
  {
    if sorts != [] {
      var x, y := NavField(db, cx, a, sorts[0].qf), NavField(db, cx, b, sorts[0].qf);
      ValueBeforeMeans(x, y);
      ValueBeforeMeans(y, x);
      if x != y {
        assert RowBefore(db, cx, a, b, sorts) <==> DecidesAt(db, cx, a, b, sorts, 0);
      } else {
        var rest := sorts[1..];
        RowBeforeMeans(db, cx, a, b, rest);
        if m: nat :| DecidesAt(db, cx, a, b, rest, m) {
          assert forall l | 1 <= l < m + 1 :: sorts[l] == rest[l - 1];
          assert DecidesAt(db, cx, a, b, sorts, m + 1);
        }
        if m: nat :| DecidesAt(db, cx, a, b, sorts, m) {
          assert forall l | 0 <= l < m - 1 :: rest[l] == sorts[l + 1];
          assert m > 0 && DecidesAt(db, cx, a, b, rest, m - 1);
        }
      }
    }
  }

  // No row stands behind one that some sort path puts it before.
  ghost predicate InOrder(db: Db, cx: Context, rows: seq<Row>, sorts: seq<G.SortSpec>)
    requires SortsIn(cx, sorts)
  {
    forall i, j, m: nat | 0 <= i < j < |rows| :: !DecidesAt(db, cx, rows[j], rows[i], sorts, m)
  }

  lemma RankedIsInOrder(db: Db, cx: Context, rows: seq<Row>, sorts: seq<G.SortSpec>)
    requires SortsIn(cx, sorts)
    ensures Ranked(db, cx, rows, sorts) <==> InOrder(db, cx, rows, sorts)
  {
    forall i, j | 0 <= i < j < |rows|
      ensures RowBefore(db, cx, rows[j], rows[i], sorts)
              <==> exists m: nat :: DecidesAt(db, cx, rows[j], rows[i], sorts, m)
    {
      RowBeforeMeans(db, cx, rows[j], rows[i], sorts);
    }
  }

  // ---- sorting ------------------------------------------------------------------------------------------

  lemma {:induction false} InsertRowKeeps(db: Db, cx: Context, r: Row, rows: seq<Row>, sorts: seq<G.SortSpec>)
    requires SortsIn(cx, sorts)
    ensures multiset(InsertRow(db, cx, r, rows, sorts)) == multiset(rows) + multiset{r}
    ensures forall x | x in InsertRow(db, cx, r, rows, sorts) :: x == r || x in rows
    decreases |rows|
  {
    if !(rows == [] || RowBefore(db, cx, r, rows[0], sorts)) {
      InsertRowKeeps(db, cx, r, rows[1..], sorts);
      assert rows == [rows[0]] + rows[1..];
    }
  }

  lemma {:induction false} InsertRowRanked(db: Db, cx: Context, r: Row, rows: seq<Row>, sorts: seq<G.SortSpec>)
    requires SortsIn(cx, sorts) && Ranked(db, cx, rows, sorts)
    ensures Ranked(db, cx, InsertRow(db, cx, r, rows, sorts), sorts)
    decreases |rows|
  {
    if rows != [] {
      if RowBefore(db, cx, r, rows[0], sorts) {
        RowAsymmetric(db, cx, r, rows[0], sorts);
        forall j | 0 < j < |rows| ensures !RowBefore(db, cx, rows[j], r, sorts) {
          RowChain(db, cx, r, rows[0], rows[j], sorts);
        }
      } else {
        var rest := InsertRow(db, cx, r, rows[1..], sorts);
        InsertRowRanked(db, cx, r, rows[1..], sorts);
        InsertRowKeeps(db, cx, r, rows[1..], sorts);
        forall j | 0 <= j < |rest| ensures !RowBefore(db, cx, rest[j], rows[0], sorts) {
          assert rest[j] in rest;
          if rest[j] != r {
            var k :| 0 <= k < |rows[1..]| && rows[1..][k] == rest[j];
            assert rows[k + 1] == rest[j];
          }
        }
      }
    }
  }

  lemma {:induction false} SortRowsRanks(db: Db, cx: Context, rows: seq<Row>, sorts: seq<G.SortSpec>)
    requires SortsIn(cx, sorts)
    ensures Ranked(db, cx, SortRows(db, cx, rows, sorts), sorts)
    ensures multiset(SortRows(db, cx, rows, sorts)) == multiset(rows)
    decreases |rows|
  {
    if rows != [] {
      var init, last := rows[..|rows| - 1], rows[|rows| - 1];
      SortRowsRanks(db, cx, init, sorts);
      InsertRowRanked(db, cx, last, SortRows(db, cx, init, sorts), sorts);
      InsertRowKeeps(db, cx, last, SortRows(db, cx, init, sorts), sorts);
      assert rows == init + [last];
    }
  }

  // ---- the ORDER BY clause sorts by navigation ----------------------------------------------------------

  lemma {:induction false} KeysFromFront(cx: Context, sorts: seq<G.SortSpec>)
    requires SortsIn(cx, sorts) && sorts != []
    ensures G.SortKeys(cx, sorts) == [SortKey(FieldColumn(cx, sorts[0].qf), sorts[0].desc)] + G.SortKeys(cx, sorts[1..])
    decreases |sorts|
  {
    if |sorts| > 1 {
      var init := sorts[..|sorts| - 1];
      KeysFromFront(cx, init);
      assert init[1..] == sorts[1..][..|sorts| - 2];
    }
  }

  lemma {:induction false} BeforeIsRowBefore(db: Db, cx: Context, a: Row, b: Row, order: seq<nat>,
                                             sorts: seq<G.SortSpec>)
    requires SortsIn(cx, sorts) && InTree(cx, order)
    requires forall s | s in sorts :: s.qf.table == 0 || s.qf.table in order
    ensures Before(Bindings(db, cx, a, order), Bindings(db, cx, b, order), G.SortKeys(cx, sorts))
            <==> RowBefore(db, cx, a, b, sorts)
    decreases |sorts|
  {
    if sorts != [] {
      KeysFromFront(cx, sorts);
      CellIsNavField(db, cx, a, order, sorts[0].qf);
      CellIsNavField(db, cx, b, order, sorts[0].qf);
      BeforeIsRowBefore(db, cx, a, b, order, sorts[1..]);
      assert G.SortKeys(cx, sorts)[1..] == G.SortKeys(cx, sorts[1..]);
    }
  }

  lemma {:induction false} InsertedEnvironment(db: Db, cx: Context, r: Row, rows: seq<Row>, order: seq<nat>,
                                               sorts: seq<G.SortSpec>)
    requires SortsIn(cx, sorts) && InTree(cx, order)
    requires forall s | s in sorts :: s.qf.table == 0 || s.qf.table in order
    ensures Insert(Bindings(db, cx, r, order), Environments(db, cx, order, rows), G.SortKeys(cx, sorts))
            == Environments(db, cx, order, InsertRow(db, cx, r, rows, sorts))
    decreases |rows|
  {
    if rows == [] {
      assert [r][1..] == [];
    } else {
      var envs := Environments(db, cx, order, rows);
      assert envs[1..] == Environments(db, cx, order, rows[1..]);
      BeforeIsRowBefore(db, cx, r, rows[0], order, sorts);
      if RowBefore(db, cx, r, rows[0], sorts) {
        assert ([r] + rows)[1..] == rows;
      } else {
        var rest := InsertRow(db, cx, r, rows[1..], sorts);
        InsertedEnvironment(db, cx, r, rows[1..], order, sorts);
        assert ([rows[0]] + rest)[1..] == rest;
      }
    }
  }

  lemma {:induction false} EnvironmentsSnoc(db: Db, cx: Context, order: seq<nat>, rows: seq<Row>, r: Row)
    requires ContextOk(cx) && InTree(cx, order)
    ensures Environments(db, cx, order, rows + [r]) == Environments(db, cx, order, rows) + [Bindings(db, cx, r, order)]
    decreases |rows|
  {
    if rows == [] {
      assert [r][1..] == [];
    } else {
      assert (rows + [r])[1..] == rows[1..] + [r];
      EnvironmentsSnoc(db, cx, order, rows[1..], r);
    }
  }

  lemma {:induction false} SortedEnvironments(db: Db, cx: Context, rows: seq<Row>, order: seq<nat>,
                                              sorts: seq<G.SortSpec>)
    requires SortsIn(cx, sorts) && InTree(cx, order)
    requires forall s | s in sorts :: s.qf.table == 0 || s.qf.table in order
    ensures Sorted(Environments(db, cx, order, rows), G.SortKeys(cx, sorts))
            == Environments(db, cx, order, SortRows(db, cx, rows, sorts))
    decreases |rows|
  {
    if rows != [] {
      var init, last := rows[..|rows| - 1], rows[|rows| - 1];
      var envs := Environments(db, cx, order, init);
      assert rows == init + [last];
      EnvironmentsSnoc(db, cx, order, init, last);
      assert (envs + [Bindings(db, cx, last, order)])[..|envs|] == envs;
      SortedEnvironments(db, cx, init, order, sorts);
      InsertedEnvironment(db, cx, last, SortRows(db, cx, init, sorts), order, sorts);
    }
  }

  // The ids query answers with the ids of exactly the passing rows, ranked by what their sort paths
  // navigate to.
  lemma IdsComeRanked(db: Db, cx: Context, q: Query, params: Params, order: seq<nat>,
                      filters: seq<G.FilterSpec>, sorts: seq<G.SortSpec>)
    requires DbOk(db) && G.FilterQuery(cx, q, params, order, filters)
    requires SortsIn(cx, sorts) && q.order == G.SortKeys(cx, sorts) && Scoped(q)
    ensures var passing := Passing(db, cx, Rows(db, q.table), G.Compiled(filters), F.Merge(G.OperandLists(filters)));
            var ranked := SortRows(db, cx, passing, sorts);
            && Eval(db, q, params) == G.IdRows(ranked)
            && multiset(ranked) == multiset(passing)
            && Ranked(db, cx, ranked, sorts) && InOrder(db, cx, ranked, sorts)
  {
    var rows := Rows(db, q.table);
    var passing := Passing(db, cx, rows, G.Compiled(filters), params);
    G.FilterQueryScoped(cx, q, params, order, filters);
    G.SortKeysScoped(cx, sorts, order);
    SmartIsBound(cx, order, params);
    G.PassingSame(db, cx, rows, order, filters, params);
    ResultIs(db, cx, q, order, params);
    KeptIsPassing(db, cx, order, G.Compiled(filters), params, rows);
    SortedEnvironments(db, cx, passing, order, sorts);
    SortRowsRanks(db, cx, passing, sorts);
    RankedIsInOrder(db, cx, SortRows(db, cx, passing, sorts), sorts);
    G.ProjectIds(db, cx, order, SortRows(db, cx, passing, sorts));
  }
}
