// A connection with its own cache, and the part of SqlDrvPg::query that runs while the connection
// is held: look the text up, prepare and store it on a miss.
module PgConn {
  import opened Ordering
  import opened ArcSpec
  import ArcCache
  import opened Sessions
  import opened Connection
  import PrepStmt

  class PgConn {
    const conn: Conn
    const server: PrepStmt.Server
    const cache: ArcCache.AdaptiveReplacementCache<Stmt>

    ghost predicate Valid()
      reads this, cache, server
    {
      cache.Valid() && Agree(conn, View(), None)
    }

    ghost function View(): Session
      reads this, cache, server
    {
      Session(cache.Abs(), PrepStmt.On(server.open, conn))
    }

    constructor (conn: Conn, server: PrepStmt.Server)
      requires PrepStmt.On(server.open, conn) == map[]
      ensures Valid() && View() == Fresh() && fresh(cache) && this.conn == conn && this.server == server
    {
      this.conn := conn;
      this.server := server;
      cache := new ArcCache.AdaptiveReplacementCache<Stmt>(ARC_HARD_LIMIT);
    }

    // None stands for the exception thrown while preparing.
    method Statement(sql: string, counter: PrepStmt.Counter, accepts: bool) returns (r: Option<Stmt>)
      requires Valid()
      modifies server, cache, counter
      ensures Valid() && OthersKept(conn, old(server.open), server.open)
      ensures r.Some? ==> r.value.conn == conn && Serves(View(), sql, r.value)
      ensures Inv(old(View()).cache)
      ensures var hit := Found(old(View()).cache, sql); var looked := AfterGet(old(View()), sql);
              if hit.Some? then
                r == hit && counter.n == old(counter.n) && View() == looked
              else
                var name := PrepStmt.StmtName(counter.n);
                && counter.n == old(counter.n) + 1
                && (r.Some? <==> sql != "" && accepts && name !in looked.open)
                && (r.None? ==> View() == looked)
                && (r.Some? ==> r.value == Stmt(conn, name) && Inv(looked.cache))
                && (r.Some? ==> View() == AfterPut(AfterPrepare(looked, sql, name), sql, r.value))
    {
      r := LookUp(sql);
      if r.None? {
        r := PrepareAndPut(sql, counter, accepts);
      }
    }

    // cache.get together with the destructors of what it evicted.
    method LookUp(sql: string) returns (r: Option<Stmt>)
      requires Valid()
      modifies server, cache
      ensures Valid() && Inv(old(View()).cache) && OthersKept(conn, old(server.open), server.open)
      ensures r == Found(old(View()).cache, sql) && View() == AfterGet(old(View()), sql)
      ensures r.Some? <==> sql in View().cache.vals
      ensures r.Some? ==> r.value.conn == conn && Serves(View(), sql, r.value)
    {
      ghost var before := View();
      SessionLookedUp(conn, before, sql);
      var mark := |cache.destroyed|;
      r := cache.Get(sql);
      CloseAll(server, conn, cache.destroyed[mark..]);
      assert View() == AfterGet(before, sql);
    }

    // A PgPrepStmt is prepared and moved into the cache, which from then on answers for closing it.
    method PrepareAndPut(sql: string, counter: PrepStmt.Counter, accepts: bool) returns (r: Option<Stmt>)
      requires Valid() && sql !in View().cache.vals
      modifies server, cache, counter
      ensures Valid() && counter.n == old(counter.n) + 1 && OthersKept(conn, old(server.open), server.open)
      ensures r.Some? <==> sql != "" && accepts && PrepStmt.StmtName(counter.n) !in old(View()).open
      ensures r.None? ==> View() == old(View())
      ensures r.Some? ==> r.value == Stmt(conn, PrepStmt.StmtName(counter.n))
      ensures r.Some? ==> Serves(View(), sql, r.value)
      ensures Inv(old(View()).cache)
      ensures r.Some? ==> View() == AfterPut(AfterPrepare(old(View()), sql, r.value.name), sql, r.value)
    {
      ghost var before := View();
      r := PrepareOwned(server, conn, sql, counter, accepts);
      assert cache.Abs() == before.cache;
      if r.None? { return; }
      r := PutOwned(sql, r.value, before);
    }

    // The put, with the destructor of the entry that makes room.
    method PutOwned(sql: string, stmt: Stmt, ghost before: Session) returns (r: Option<Stmt>)
      requires cache.Valid() && Agree(conn, before, None) && sql !in before.cache.vals && stmt.name !in before.open
      requires stmt.conn == conn && View() == AfterPrepare(before, sql, stmt.name)
      modifies server, cache
      ensures Valid() && OthersKept(conn, old(server.open), server.open)
      ensures r == Some(stmt) && View() == AfterPut(AfterPrepare(before, sql, stmt.name), sql, stmt)
      ensures Serves(View(), sql, stmt)
    {
      ghost var after := AfterPut(AfterPrepare(before, sql, stmt.name), sql, stmt);
      StoredSession(conn, before, sql, stmt);
      var gone := StoreEntry(sql, stmt);
      assert cache.Abs() == after.cache;
      CloseAll(server, conn, gone);
      assert View() == after;
      r := Some(stmt);
    }

    // The put up to the destructor: what it destroys is still open.
    method StoreEntry(sql: string, stmt: Stmt) returns (gone: seq<Stmt>)
      requires cache.Valid() && Inv(cache.Abs())
      requires |Put(cache.Abs(), sql, stmt).destroyed| >= |cache.destroyed|
      modifies cache
      ensures cache.Valid() && Inv(old(cache.Abs())) && cache.Abs() == Put(old(cache.Abs()), sql, stmt)
      ensures gone == cache.Abs().destroyed[|old(cache.destroyed)|..]
    {
      var mark := |cache.destroyed|;
      var stored := cache.Put(sql, stmt);
      gone := cache.destroyed[mark..];
    }
  }

  // A new PgPrepStmt and the moves that carry it into the map node; the value names what it owns.
  method PrepareOwned(server: PrepStmt.Server, c: Conn, sql: string, counter: PrepStmt.Counter, accepts: bool)
    returns (r: Option<Stmt>)
    modifies server, counter
    ensures counter.n == old(counter.n) + 1 && OthersKept(c, old(server.open), server.open)
    ensures r.Some? <==> sql != "" && accepts && PrepStmt.StmtName(counter.n) !in old(PrepStmt.On(server.open, c))
    ensures r.None? ==> server.open == old(server.open)
    ensures r.Some? ==> r.value == Stmt(c, PrepStmt.StmtName(counter.n))
    ensures r.Some? ==> PrepStmt.On(server.open, c) == old(PrepStmt.On(server.open, c))[r.value.name := sql]
  {
    var temporary := PrepStmt.PgPrepStmt.Prepare(server, counter, Some(c), sql, accepts);
    if temporary.Err? { return None; }
    var owner := PrepStmt.HandOver(temporary.value, server);
    assert (c, PrepStmt.StmtName(counter.n)) in owner.Owned();
    PrepStmt.OnPrepared(old(server.open), c, owner.stmtName, sql);
    r := Some(Stmt(owner.conn.value, owner.stmtName));
  }

  // The destructors of entries that left the cache close their statements.
  method CloseAll(server: PrepStmt.Server, c: Conn, gone: seq<Stmt>)
    requires AllOn(c, gone)
    modifies server
    ensures PrepStmt.On(server.open, c) == old(PrepStmt.On(server.open, c)) - NamesOf(gone)
    ensures OthersKept(c, old(server.open), server.open)
  {
    for i := 0 to |gone|
      invariant PrepStmt.On(server.open, c) == old(PrepStmt.On(server.open, c)) - NamesOf(gone[..i])
      invariant OthersKept(c, old(server.open), server.open)
    {
      assert gone[..i + 1] == gone[..i] + [gone[i]];
      PrepStmt.OnClosed(server.open, c, gone[i].name);
      server.Close(gone[i].conn, gone[i].name);
    }
    assert gone[..|gone|] == gone;
  }

  // The statement is cached under the text and open on the server with that text.
  ghost predicate Serves(s: Session, sql: string, stmt: Stmt) {
    && sql in s.cache.vals && s.cache.vals[sql] == stmt
    && stmt.name in s.open && s.open[stmt.name] == sql
  }

  ghost predicate AllOn(c: Conn, stmts: seq<Stmt>) {
    forall i | 0 <= i < |stmts| :: stmts[i].conn == c
  }

  // No other connection is touched.
  ghost predicate OthersKept(c: Conn, before: map<(Conn, string), string>, after: map<(Conn, string), string>) {
    forall d | d != c :: PrepStmt.On(after, d) == PrepStmt.On(before, d)
  }

  // What a cache destroys was prepared on its own connection.
  lemma DestroyedOn(c: Conn, s: Session, extra: Option<Stmt>, r: State<Stmt>)
    requires Agree(c, s, extra) && DestroyedLeft(s.cache, r)
    ensures AllOn(c, r.destroyed[|s.cache.destroyed|..])
  {
    var gone := r.destroyed[|s.cache.destroyed|..];
    forall i | 0 <= i < |gone| ensures gone[i].conn == c {
      assert gone[i] in gone;
      var k :| k in s.cache.vals && k !in r.vals && s.cache.vals[k] == gone[i];
      assert CachedOn(c, s, k);
    }
  }

  lemma SessionLookedUp(c: Conn, before: Session, sql: string)
    requires Agree(c, before, None)
    ensures var found, r := Found(before.cache, sql), AfterGet(before, sql);
            && Agree(c, r, None)
            && (found.Some? <==> sql in r.cache.vals)
            && (found.Some? ==> found.value.conn == c && Serves(r, sql, found.value))
            && |r.cache.destroyed| >= |before.cache.destroyed|
            && AllOn(c, r.cache.destroyed[|before.cache.destroyed|..])
            && r.open == before.open - NamesOf(r.cache.destroyed[|before.cache.destroyed|..])
  {
    GetAgrees(c, before, sql);
    GetLeft(before.cache, sql);
    if Found(before.cache, sql).Some? { assert CachedOn(c, AfterGet(before, sql), sql); }
    DestroyedOn(c, before, None, Get(before.cache, sql));
  }

  lemma StoredSession(c: Conn, before: Session, sql: string, stmt: Stmt)
    requires Agree(c, before, None) && sql !in before.cache.vals && stmt.name !in before.open && stmt.conn == c
    ensures var prepared := AfterPrepare(before, sql, stmt.name);
            var r := AfterPut(prepared, sql, stmt);
            && Agree(c, r, None) && Serves(r, sql, stmt)
            && |r.cache.destroyed| >= |before.cache.destroyed|
            && AllOn(c, r.cache.destroyed[|before.cache.destroyed|..])
            && r.open == prepared.open - NamesOf(r.cache.destroyed[|before.cache.destroyed|..])
  {
    var prepared := AfterPrepare(before, sql, stmt.name);
    PrepareAgrees(c, before, sql, stmt.name);
    PutAgrees(c, prepared, sql, stmt);
    assert CachedOn(c, AfterPut(prepared, sql, stmt), sql);
    PutLeft(before.cache, sql, stmt);
    DestroyedOn(c, prepared, Some(stmt), MakeRoom(before.cache));
    assert AfterPut(prepared, sql, stmt).cache.destroyed == MakeRoom(before.cache).destroyed;
  }
}
