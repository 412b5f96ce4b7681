// One connection: its statement cache and the statements open for it on the server.
module Sessions {
  import opened Ordering
  import opened ArcSpec
  import opened ArcRuns
  import opened Connection

  // What a cached PgPrepStmt holds.
  datatype Stmt = Stmt(conn: Conn, name: string)

  datatype Session = Session(cache: State<Stmt>, open: map<string, string>)   // name -> text

  const ARC_HARD_LIMIT: int := 15

  function Fresh(): Session { Session(ArcSpec.Init(ARC_HARD_LIMIT), map[]) }

  function NamesOf(stmts: seq<Stmt>): set<string> { set v | v in stmts :: v.name }

  // The names whose destructors ran between two states of the cache.
  function Closed(s: State<Stmt>, r: State<Stmt>): set<string> {
    if |r.destroyed| < |s.destroyed| then {} else NamesOf(r.destroyed[|s.destroyed|..])
  }

  // Cache entries and open statements correspond one to one: the entry under a text is a statement
  // of this connection prepared from that text. At most one further statement is open, between its
  // preparation and its put; its text is not cached.
  ghost predicate Agree(c: Conn, s: Session, extra: Option<Stmt>) {
    && Inv(s.cache) && s.cache.hard == ARC_HARD_LIMIT
    && (forall k {:trigger CachedOn(c, s, k)} | k in s.cache.vals :: CachedOn(c, s, k))
    && (forall n {:trigger OpenFor(s, n)} | n in s.open && !(extra.Some? && n == extra.value.name) :: OpenFor(s, n))
    && (extra.Some? ==>
          extra.value.conn == c && extra.value.name in s.open && s.open[extra.value.name] !in s.cache.vals)
  }

  // The entry under the text is open on this connection with this text.
  ghost predicate CachedOn(c: Conn, s: Session, k: string)
    requires k in s.cache.vals
  {
    var stmt := s.cache.vals[k];
    stmt.conn == c && stmt.name in s.open && s.open[stmt.name] == k
  }

  // The open statement is the entry under its text.
  ghost predicate OpenFor(s: Session, n: string)
    requires n in s.open
  {
    s.open[n] in s.cache.vals && s.cache.vals[s.open[n]].name == n
  }

  // ---- what is destroyed is what leaves the map ------------------------------------------------

  // Between s and r exactly the values of the keys that left have been destroyed.
  ghost predicate DestroyedLeft<T(!new)>(s: State<T>, r: State<T>) {
    && |r.destroyed| >= |s.destroyed| && r.destroyed[..|s.destroyed|] == s.destroyed
    && (forall k | k in r.vals :: k in s.vals && r.vals[k] == s.vals[k])
    && (forall k | k in s.vals && k !in r.vals :: s.vals[k] in r.destroyed[|s.destroyed|..])
    && (forall v | v in r.destroyed[|s.destroyed|..] :: exists k | k in s.vals && k !in r.vals :: s.vals[k] == v)
  }

  lemma DropLeft<T(!new)>(s: State<T>, k: string)
    requires k in s.vals
    ensures DestroyedLeft(s, Drop(s, k))
  {
    var r := Drop(s, k);
    assert r.destroyed[|s.destroyed|..] == [s.vals[k]];
  }

  lemma LeftTransitive<T(!new)>(s: State<T>, m: State<T>, r: State<T>)
    requires DestroyedLeft(s, m) && DestroyedLeft(m, r)
    ensures DestroyedLeft(s, r)
  {
    var n := |s.destroyed|;
    assert r.destroyed[..n] == r.destroyed[..|m.destroyed|][..n];
    assert r.destroyed[n..] == m.destroyed[n..] + r.destroyed[|m.destroyed|..];
    forall v | v in r.destroyed[n..] ensures exists k | k in s.vals && k !in r.vals :: s.vals[k] == v {
      if v in m.destroyed[n..] {
        var k :| k in s.vals && k !in m.vals && s.vals[k] == v;
      } else {
        var k :| k in m.vals && k !in r.vals && m.vals[k] == v;
      }
    }
  }

  lemma {:induction false} TrimLeft<T(!new)>(s: State<T>)
    requires Struct(s) && s.soft >= 0
    ensures DestroyedLeft(s, Trim(s))
    decreases |s.vals|
  {
    EvictRemovesOne(s);
    if |s.vals| > s.soft {
      DropLeft(s, Victim(s));
      TrimLeft(Evict(s));
      LeftTransitive(s, Evict(s), Trim(s));
    }
  }

  lemma SampledLeft<T(!new)>(s: State<T>)
    requires Inv(s)
    ensures DestroyedLeft(s, Sampled(s))
  {
    SampledShape(s);
    if WindowFull(s) && Shrunk(s).soft < s.soft { TrimLeft(Shrunk(s)); }
  }

  lemma GetLeft<T(!new)>(s: State<T>, k: string)
    requires Inv(s)
    ensures DestroyedLeft(s, Get(s, k))
  {
    SampledKeepsInv(s);
    SampledLeft(s);
  }

  // A put of an absent key first makes room, then adds the entry.
  lemma PutLeft<T(!new)>(s: State<T>, k: string, v: T)
    requires Inv(s) && k !in s.vals
    ensures DestroyedLeft(s, MakeRoom(s)) && k !in MakeRoom(s).vals
    ensures Put(s, k, v) == Insert(MakeRoom(s), k, v)
  {
    if s.vals != map[] { DropLeft(s, Victim(s)); }
  }

  // ---- the three uses of a session ---------------------------------------------------------------

  // A destroyed statement is one whose text has left the cache.
  lemma ClosedTexts(c: Conn, s: Session, extra: Option<Stmt>, r: State<Stmt>)
    requires Agree(c, s, extra) && DestroyedLeft(s.cache, r)
    ensures forall n | n in Closed(s.cache, r) :: n in s.open && s.open[n] in s.cache.vals && s.open[n] !in r.vals
    ensures forall k | k in s.cache.vals && k !in r.vals :: s.cache.vals[k].name in Closed(s.cache, r)
  {
    var gone := r.destroyed[|s.cache.destroyed|..];
    forall n | n in Closed(s.cache, r) ensures n in s.open && s.open[n] in s.cache.vals && s.open[n] !in r.vals {
      var v :| v in gone && v.name == n;
      var k :| k in s.cache.vals && k !in r.vals && s.cache.vals[k] == v;
      assert CachedOn(c, s, k);
    }
    forall k | k in s.cache.vals && k !in r.vals ensures s.cache.vals[k].name in Closed(s.cache, r) {
      assert s.cache.vals[k] in gone;
    }
  }

  lemma EvictionAgrees(c: Conn, s: Session, extra: Option<Stmt>, r: State<Stmt>)
    requires Agree(c, s, extra) && DestroyedLeft(s.cache, r) && Inv(r) && r.hard == s.cache.hard
    ensures Agree(c, Session(r, s.open - Closed(s.cache, r)), extra)
  {
    var after := Session(r, s.open - Closed(s.cache, r));
    ClosedTexts(c, s, extra, r);
    forall k | k in r.vals ensures CachedOn(c, after, k) { assert CachedOn(c, s, k); }
    forall n | n in after.open && !(extra.Some? && n == extra.value.name) ensures OpenFor(after, n) {
      assert OpenFor(s, n);
    }
  }

  ghost function AfterGet(s: Session, sql: string): Session
    requires Inv(s.cache)
  {
    var r := Get(s.cache, sql);
    Session(r, s.open - Closed(s.cache, r))
  }

  lemma GetAgrees(c: Conn, s: Session, sql: string)
    requires Agree(c, s, None)
    ensures Agree(c, AfterGet(s, sql), None)
    ensures Found(s.cache, sql).Some? <==> sql in AfterGet(s, sql).cache.vals
    ensures Found(s.cache, sql).Some? ==> Found(s.cache, sql).value == AfterGet(s, sql).cache.vals[sql]
  {
    GetKeepsInv(s.cache, sql);
    GetLeft(s.cache, sql);
    EvictionAgrees(c, s, None, Get(s.cache, sql));
  }

  function AfterPrepare(s: Session, sql: string, name: string): Session {
    s.(open := s.open[name := sql])
  }

  lemma PrepareAgrees(c: Conn, s: Session, sql: string, name: string)
    requires Agree(c, s, None) && sql !in s.cache.vals && name !in s.open
    ensures Agree(c, AfterPrepare(s, sql, name), Some(Stmt(c, name)))
  {
    var after := AfterPrepare(s, sql, name);
    forall k | k in after.cache.vals ensures CachedOn(c, after, k) { assert CachedOn(c, s, k); }
    forall n | n in after.open && n != name ensures OpenFor(after, n) { assert OpenFor(s, n); }
  }

  ghost function AfterPut(s: Session, sql: string, stmt: Stmt): Session
    requires Inv(s.cache)
  {
    var r := Put(s.cache, sql, stmt);
    Session(r, s.open - Closed(s.cache, r))
  }

  lemma PutAgrees(c: Conn, s: Session, sql: string, stmt: Stmt)
    requires Agree(c, s, Some(stmt)) && s.open[stmt.name] == sql
    ensures Agree(c, AfterPut(s, sql, stmt), None)
    ensures sql in AfterPut(s, sql, stmt).cache.vals && AfterPut(s, sql, stmt).cache.vals[sql] == stmt
  {
    PutKeepsInv(s.cache, sql, stmt);
    PutLeft(s.cache, sql, stmt);
    var m := MakeRoom(s.cache);
    var r := Put(s.cache, sql, stmt);
    assert r.destroyed == m.destroyed;
    RoomAgrees(c, s, stmt, m);
  }

  lemma RoomAgrees(c: Conn, s: Session, stmt: Stmt, m: State<Stmt>)
    requires Agree(c, s, Some(stmt)) && DestroyedLeft(s.cache, m) && m.hard == s.cache.hard
    requires Inv(Insert(m, s.open[stmt.name], stmt)) && s.open[stmt.name] !in m.vals
    ensures Agree(c, Session(Insert(m, s.open[stmt.name], stmt), s.open - Closed(s.cache, m)), None)
  {
    var sql := s.open[stmt.name];
    var after := Session(Insert(m, sql, stmt), s.open - Closed(s.cache, m));
    ClosedTexts(c, s, Some(stmt), m);
    assert stmt.name in after.open;
    forall k | k in after.cache.vals ensures CachedOn(c, after, k) {
      if k != sql { assert k in m.vals && CachedOn(c, s, k); }
    }
    forall n | n in after.open ensures OpenFor(after, n) {
      if n != stmt.name { assert OpenFor(s, n); }
    }
  }

  // ---- counting ----------------------------------------------------------------------------------

  // Between queries the server holds exactly as many statements as the cache; one more while a
  // statement is on its way into it. The cache never exceeds the hard limit.
  lemma OpenCount(c: Conn, s: Session, extra: Option<Stmt>)
    requires Agree(c, s, extra)
    ensures |s.open| == |s.cache.vals| + if extra.Some? then 1 else 0
    ensures |s.cache.vals| <= ARC_HARD_LIMIT
  {
    var names := s.open.Keys - if extra.Some? then {extra.value.name} else {};
    forall n | n in names ensures s.open[n] in s.cache.vals && s.cache.vals[s.open[n]].name == n {
      assert OpenFor(s, n);
    }
    forall k | k in s.cache.vals ensures s.cache.vals[k].name in names && s.open[s.cache.vals[k].name] == k {
      assert CachedOn(c, s, k);
    }
    Bijection(names, s.cache.vals.Keys, s);
    assert |s.open| == |s.open.Keys| && |s.cache.vals| == |s.cache.vals.Keys|;
  }

  lemma {:induction false} Bijection(names: set<string>, keys: set<string>, s: Session)
    requires names <= s.open.Keys && keys <= s.cache.vals.Keys
    requires forall n | n in names :: s.open[n] in keys && s.cache.vals[s.open[n]].name == n
    requires forall k | k in keys :: s.cache.vals[k].name in names && s.open[s.cache.vals[k].name] == k
    ensures |names| == |keys|
  {
    if names == {} {
      assert keys == {};
    } else {
      var n :| n in names;
      Bijection(names - {n}, keys - {s.open[n]}, s);
    }
  }
}
