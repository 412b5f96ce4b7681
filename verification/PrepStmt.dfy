// PgPrepStmt: who owns a prepared statement on the server, through construction, moves and
// destruction.
module PrepStmt {
  import opened Ordering
  import opened Text
  import opened Connection

  datatype Error = NullConnection | EmptyQuery | PrepareFailed

  datatype Result<+T> = Ok(value: T) | Err(error: Error)

  function StmtName(n: nat): string { "pg_prep_stmt_" + Dec(n) }

  lemma StmtNameInjective(m: nat, n: nat)
    requires StmtName(m) == StmtName(n)
    ensures m == n
  {
    PrefixInjective("pg_prep_stmt_", Dec(m), Dec(n));
    DecInjective(m, n);
  }

  // ---- the server -------------------------------------------------------------------------------

  // The statements prepared on one connection: name -> text.
  function On(open: map<(Conn, string), string>, c: Conn): map<string, string> {
    map n | n in NamesOn(open, c) :: open[(c, n)]
  }

  function NamesOn(open: map<(Conn, string), string>, c: Conn): (names: set<string>)
    ensures forall n :: n in names <==> (c, n) in open
  {
    set k | k in open && k.0 == c :: k.1
  }

  lemma OnSame(open: map<(Conn, string), string>, after: map<(Conn, string), string>, c: Conn)
    requires forall n :: (c, n) in open <==> (c, n) in after
    requires forall n | (c, n) in open :: open[(c, n)] == after[(c, n)]
    ensures On(open, c) == On(after, c)
  {
    assert On(open, c).Keys == On(after, c).Keys;
  }

  lemma OnPrepared(open: map<(Conn, string), string>, c: Conn, name: string, text: string)
    ensures On(open[(c, name) := text], c) == On(open, c)[name := text]
    ensures forall d | d != c :: On(open[(c, name) := text], d) == On(open, d)
  {
    var after := open[(c, name) := text];
    assert On(after, c).Keys == On(open, c).Keys + {name};
    forall d | d != c ensures On(after, d) == On(open, d) { OnSame(after, open, d); }
  }

  lemma OnClosed(open: map<(Conn, string), string>, c: Conn, name: string)
    ensures On(open - {(c, name)}, c) == On(open, c) - {name}
    ensures forall d | d != c :: On(open - {(c, name)}, d) == On(open, d)
  {
    var after := open - {(c, name)};
    assert On(after, c).Keys == On(open, c).Keys - {name};
    forall d | d != c ensures On(after, d) == On(open, d) { OnSame(after, open, d); }
  }

  // The statements prepared on each connection and their texts.
  class Server {
    var open: map<(Conn, string), string>

    constructor ()
      ensures open == map[]
    {
      open := map[];
    }

    // PQprepare: a name already in use on the connection is an error, as is a text the server
    // does not accept.
    method Prepare(conn: Conn, name: string, text: string, accepts: bool) returns (ok: bool)
      modifies this
      ensures ok <==> accepts && (conn, name) !in old(open)
      ensures open == if ok then old(open)[(conn, name) := text] else old(open)
    {
      ok := accepts && (conn, name) !in open;
      if ok { open := open[(conn, name) := text]; }
    }

    // PQclosePrepared: closing what is not open is not an error.
    method Close(conn: Conn, name: string)
      modifies this
      ensures open == old(open) - {(conn, name)}
    {
      open := open - {(conn, name)};
    }
  }

  // The static counter behind the statement names.
  class Counter {
    var n: nat
    constructor ()
      ensures n == 0
    {
      n := 0;
    }
  }

  class PgPrepStmt {
    var conn: Option<Conn>       // None is the null pointer
    var stmtName: string

    // What the destructor would close.
    ghost function Owned(): set<(Conn, string)>
      reads this
    {
      if conn.Some? && stmtName != "" then {(conn.value, stmtName)} else {}
    }

    constructor ()
      ensures Owned() == {} && conn == None && stmtName == ""
    {
      conn := None;
      stmtName := "";
    }

    // The preparing constructor. It throws before or after PQprepare; the counter moves regardless,
    // and nothing is left open by a failure.
    static method Prepare(server: Server, counter: Counter, c: Option<Conn>, query: string, accepts: bool)
      returns (r: Result<PgPrepStmt>)
      modifies server, counter
      ensures counter.n == old(counter.n) + 1
      ensures r.Ok? <==> c.Some? && query != "" && accepts && (c.value, StmtName(counter.n)) !in old(server.open)
      ensures c.None? ==> r == Err(NullConnection)
      ensures c.Some? && query == "" ==> r == Err(EmptyQuery)
      ensures r.Ok? ==>
                && fresh(r.value)
                && r.value.stmtName == "pg_prep_stmt_" + Dec(counter.n)
                && r.value.Owned() == {(c.value, StmtName(counter.n))}
                && server.open == old(server.open)[(c.value, StmtName(counter.n)) := query]
      ensures r.Err? ==> server.open == old(server.open)
    {
      counter.n := counter.n + 1;
      var name := StmtName(counter.n);
      if c == None { return Err(NullConnection); }
      if query == "" { return Err(EmptyQuery); }
      var ok := server.Prepare(c.value, name, query, accepts);
      if !ok { return Err(PrepareFailed); }
      var s := new PgPrepStmt();
      s.conn, s.stmtName := c, name;
      return Ok(s);
    }

    // Move construction: the new object owns what other owned.
    constructor Moved(other: PgPrepStmt)
      modifies other
      ensures Owned() == old(other.Owned()) && other.Owned() == {}
      ensures conn == old(other.conn) && stmtName == old(other.stmtName)
    {
      conn := other.conn;
      stmtName := other.stmtName;
      new;
      other.conn := None;
      other.stmtName := "";
    }

    // Move assignment: what this owned is closed first; assigning to itself changes nothing.
    method Assign(other: PgPrepStmt, server: Server)
      modifies this, other, server
      ensures Owned() == old(other.Owned())
      ensures this != other ==> other.Owned() == {} && server.open == old(server.open) - old(Owned())
      ensures this == other ==> server.open == old(server.open)
    {
      if this != other {
        if conn.Some? && stmtName != "" {
          server.Close(conn.value, stmtName);
        }
        conn := other.conn;
        stmtName := other.stmtName;
        other.conn := None;
        other.stmtName := "";
      }
    }

    // The destructor; the object is not used afterwards.
    method Destroy(server: Server)
      modifies server
      ensures server.open == old(server.open) - Owned()
    {
      if conn.Some? && stmtName != "" {
        server.Close(conn.value, stmtName);
      }
    }
  }

  // The way of a value through put: into a default-made entry by move assignment, into the map node
  // by move construction, after which both sources are destroyed. Nothing is closed on the way and
  // exactly the value in the map owns the statement.
  method HandOver(temporary: PgPrepStmt, server: Server) returns (stored: PgPrepStmt)
    modifies temporary, server
    ensures fresh(stored) && stored.Owned() == old(temporary.Owned())
    ensures temporary.Owned() == {}
    ensures server.open == old(server.open)
  {
    var entryValue := new PgPrepStmt();
    entryValue.Assign(temporary, server);
    stored := new PgPrepStmt.Moved(entryValue);
    entryValue.Destroy(server);
    temporary.Destroy(server);
  }

  // A statement lives from its preparation to its destruction in the cache, however often it moves.
  method Lifetime(server: Server, counter: Counter, c: Conn, query: string)
    requires query != "" && (c, StmtName(counter.n + 1)) !in server.open
    modifies server, counter
    ensures server.open == old(server.open)
  {
    var r := PgPrepStmt.Prepare(server, counter, Some(c), query, true);
    var stored := HandOver(r.value, server);
    assert server.open == old(server.open)[(c, StmtName(counter.n)) := query];
    stored.Destroy(server);
  }
}
