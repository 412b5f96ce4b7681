// SqlDrvPg::query run by any number of threads: the pool hands connections out, each connection has
// its own statement cache, and the server keeps the statements prepared on each connection.
module Driver {
  import opened Ordering
  import opened Lists
  import opened ArcSpec
  import opened ArcRuns
  import opened Connection
  import opened PoolSpec
  import PT = PoolTheorems
  import opened Sessions
  import PrepStmt

  // Where a thread is inside query.
  datatype Stage =
    | Acquiring
    | Looking                  // holds a connection, has not asked the cache
    | Missed                   // the cache did not have the text
    | Prepared(stmt: Stmt)     // between PQprepare and put
    | Ready(stmt: Stmt)        // about to execute
    | Done                     // the guard is about to release

  datatype Job = Job(sql: string, stage: Stage)

  datatype Sys = Sys(pool: PT.Sys, sessions: map<Conn, Session>, jobs: map<nat, Job>, counter: nat)

  datatype Event =
    | PoolStep(e: PT.Event, sql: string)   // sql is used by Enter only
    | Lookup(thread: nat)
    | Prepare(thread: nat, accepts: bool)
    | Store(thread: nat)
    | Execute(thread: nat)                 // a result or an exception: either way the guard releases

  function Init(hardLimit: nat, idleTimeout: nat): Sys {
    Sys(PT.Init(hardLimit, idleTimeout), map[0 := Fresh()], map[], 0)
  }

  predicate InStage(s: Sys, t: nat, p: Stage -> bool) {
    t in s.jobs && p(s.jobs[t].stage) && t in s.pool.threads && s.pool.threads[t].Holding?
    && s.pool.threads[t].conn in s.sessions
  }

  predicate Enabled(s: Sys, e: Event) {
    match e
    case PoolStep(pe, _) =>
      PT.Enabled(s.pool, pe) && (pe.Release? ==> pe.thread in s.jobs && s.jobs[pe.thread].stage.Done?)
    case Lookup(t) => InStage(s, t, (g: Stage) => g.Looking?)
    case Prepare(t, _) => InStage(s, t, (g: Stage) => g.Missed?)
    case Store(t) => InStage(s, t, (g: Stage) => g.Prepared?)
    case Execute(t) => InStage(s, t, (g: Stage) => g.Ready?)
  }

  // Closed connections end their sessions, new ones start empty.
  function Resync(sessions: map<Conn, Session>, storage: seq<Conn>): map<Conn, Session> {
    map c | c in storage :: if c in sessions then sessions[c] else Fresh()
  }

  // A thread's job after a pool step of its own: it starts, gets its connection, gives up or ends.
  function AfterPoolStep(jobs: map<nat, Job>, threads: map<nat, PT.Phase>, e: PT.Event, sql: string): map<nat, Job> {
    if e.Tick? then jobs
    else if e.thread !in threads then jobs - {e.thread}
    else
      var text := if e.Enter? || e.thread !in jobs then sql else jobs[e.thread].sql;
      jobs[e.thread := Job(text, if threads[e.thread].Holding? then Looking else Acquiring)]
  }

  // The pool has moved on: sessions and jobs follow it.
  function WithPool(s: Sys, pool: PT.Sys, e: PT.Event, sql: string): Sys {
    Sys(pool, Resync(s.sessions, pool.pool.storage), AfterPoolStep(s.jobs, pool.threads, e, sql), s.counter)
  }

  ghost function Next(s: Sys, e: Event): Sys
    requires Safe(s) && Enabled(s, e)
  {
    match e
    case PoolStep(pe, sql) =>
      WithPool(s, PT.Next(s.pool, pe), pe, sql)
    case Lookup(t) =>
      var c, sql := s.pool.threads[t].conn, s.jobs[t].sql;
      assert CacheOk(s, c);
      var r := AfterGet(s.sessions[c], sql);
      var found := Found(s.sessions[c].cache, sql);
      s.(sessions := s.sessions[c := r],
         jobs := s.jobs[t := Job(sql, if found.Some? then Ready(found.value) else Missed)])
    case Prepare(t, accepts) =>
      var c, sql, n := s.pool.threads[t].conn, s.jobs[t].sql, s.counter + 1;
      if sql != "" && accepts && PrepStmt.StmtName(n) !in s.sessions[c].open then
        s.(sessions := s.sessions[c := AfterPrepare(s.sessions[c], sql, PrepStmt.StmtName(n))],
           jobs := s.jobs[t := Job(sql, Prepared(Stmt(c, PrepStmt.StmtName(n))))], counter := n)
      else
        s.(jobs := s.jobs[t := Job(sql, Done)], counter := n)
    case Store(t) =>
      var c, sql, stmt := s.pool.threads[t].conn, s.jobs[t].sql, s.jobs[t].stage.stmt;
      assert CacheOk(s, c);
      s.(sessions := s.sessions[c := AfterPut(s.sessions[c], sql, stmt)], jobs := s.jobs[t := Job(sql, Ready(stmt))])
    case Execute(t) =>
      s.(jobs := s.jobs[t := Job(s.jobs[t].sql, Done)])
  }

  // ---- the invariant -----------------------------------------------------------------------------

  function Extra(j: Job): Option<Stmt> {
    if j.stage.Prepared? then Some(j.stage.stmt) else None
  }

  ghost predicate StageOk(j: Job, s: Session) {
    match j.stage
    case Acquiring => false
    case Looking => true
    case Missed => j.sql !in s.cache.vals
    case Prepared(stmt) => stmt.name in s.open && s.open[stmt.name] == j.sql
    case Ready(stmt) => j.sql in s.cache.vals && s.cache.vals[j.sql] == stmt
    case Done => true
  }

  ghost predicate Issued(n: string, counter: nat) {
    exists i: nat | 1 <= i <= counter :: n == PrepStmt.StmtName(i)
  }

  ghost predicate NamesIssued(s: Sys) {
    forall c, n | c in s.sessions && n in s.sessions[c].open :: Issued(n, s.counter)
  }

  ghost predicate CacheOk(s: Sys, c: Conn)
    requires c in s.sessions
  {
    Inv(s.sessions[c].cache)
  }

  ghost predicate Quiet(s: Sys, c: Conn) {
    c in s.sessions && Agree(c, s.sessions[c], None)
  }

  ghost predicate Busy(s: Sys, t: nat)
    requires t in s.pool.threads && s.pool.threads[t].Holding?
  {
    var c := s.pool.threads[t].conn;
    && c in s.sessions && t in s.jobs
    && Agree(c, s.sessions[c], Extra(s.jobs[t]))
    && StageOk(s.jobs[t], s.sessions[c])
  }

  // Every statement cached for a connection was prepared on it from the same text; a connection
  // nobody is preparing on has no other open statement.
  ghost predicate Safe(s: Sys) {
    && PT.Safe(s.pool)
    && s.sessions.Keys == Members(s.pool.pool.storage)
    && (forall c {:trigger CacheOk(s, c)} | c in s.sessions :: CacheOk(s, c))
    && (forall c {:trigger Quiet(s, c)} | c in s.pool.pool.available :: Quiet(s, c))
    && (forall t {:trigger Busy(s, t)} | t in s.pool.threads && s.pool.threads[t].Holding? :: Busy(s, t))
    && NamesIssued(s)
  }

  lemma FreshAgrees(c: Conn)
    ensures Agree(c, Fresh(), None)
  {
    InitHolds<Stmt>(ARC_HARD_LIMIT);
  }

  lemma InitSafe(hardLimit: nat, idleTimeout: nat)
    ensures Safe(Init(hardLimit, idleTimeout))
  {
    PT.InitSafe(hardLimit, idleTimeout);
    FreshAgrees(0);
  }

  // ---- steps under a held connection -------------------------------------------------------------

  function Local(s: Sys, t: nat, r: Session, j: Job, counter: nat): Sys
    requires t in s.pool.threads && s.pool.threads[t].Holding?
  {
    s.(sessions := s.sessions[s.pool.threads[t].conn := r], jobs := s.jobs[t := j], counter := counter)
  }

  lemma LocalNames(s: Sys, t: nat, r: Session, j: Job, counter: nat)
    requires t in s.pool.threads && s.pool.threads[t].Holding? && s.pool.threads[t].conn in s.sessions
    requires NamesIssued(s) && counter >= s.counter
    requires forall n | n in r.open && n !in s.sessions[s.pool.threads[t].conn].open ::
               counter >= 1 && n == PrepStmt.StmtName(counter)
    ensures NamesIssued(Local(s, t, r, j, counter))
  {
    var c, s' := s.pool.threads[t].conn, Local(s, t, r, j, counter);
    forall d, n | d in s'.sessions && n in s'.sessions[d].open ensures Issued(n, counter) {
      if d != c || n in s.sessions[c].open {
        assert d in s.sessions && n in s.sessions[d].open;
        assert Issued(n, s.counter);
        var i: nat :| 1 <= i <= s.counter && n == PrepStmt.StmtName(i);
      }
    }
  }

  lemma OthersUntouched(s: Sys, t: nat, r: Session, j: Job, counter: nat, u: nat)
    requires Safe(s) && t in s.pool.threads && s.pool.threads[t].Holding?
    requires u in s.pool.threads && s.pool.threads[u].Holding? && u != t
    ensures Busy(Local(s, t, r, j, counter), u)
  {
    assert Busy(s, u);
    assert s.pool.threads[u] != s.pool.threads[t];
  }

  // One session and one job change; nothing else does.
  lemma LocalStep(s: Sys, t: nat, r: Session, j: Job, counter: nat)
    requires Safe(s) && t in s.pool.threads && s.pool.threads[t].Holding? && counter >= s.counter
    requires s.pool.threads[t].conn in s.sessions
    requires Agree(s.pool.threads[t].conn, r, Extra(j)) && StageOk(j, r)
    requires forall n | n in r.open && n !in s.sessions[s.pool.threads[t].conn].open ::
               counter >= 1 && n == PrepStmt.StmtName(counter)
    ensures Safe(Local(s, t, r, j, counter))
  {
    var c, s' := s.pool.threads[t].conn, Local(s, t, r, j, counter);
    assert s'.sessions.Keys == s.sessions.Keys;
    forall d | d in s'.pool.pool.available ensures Quiet(s', d) { assert Quiet(s, d) && d != c; }
    forall u | u in s'.pool.threads && s'.pool.threads[u].Holding? ensures Busy(s', u) {
      if u != t { OthersUntouched(s, t, r, j, counter, u); }
    }
    LocalNames(s, t, r, j, counter);
  }

  lemma SameSession(s: Sys, t: nat, j: Job, counter: nat)
    requires t in s.pool.threads && s.pool.threads[t].Holding? && s.pool.threads[t].conn in s.sessions
    ensures Local(s, t, s.sessions[s.pool.threads[t].conn], j, counter)
            == s.(jobs := s.jobs[t := j], counter := counter)
  {
    var c := s.pool.threads[t].conn;
    assert s.sessions[c := s.sessions[c]] == s.sessions;
  }

  lemma JobOnly(s: Sys, t: nat, j: Job, counter: nat)
    requires Safe(s) && t in s.pool.threads && s.pool.threads[t].Holding? && counter >= s.counter
    requires Busy(s, t) && Extra(s.jobs[t]) == None && j.stage.Done?
    ensures Safe(s.(jobs := s.jobs[t := j], counter := counter))
  {
    LocalStep(s, t, s.sessions[s.pool.threads[t].conn], j, counter);
    SameSession(s, t, j, counter);
  }

  lemma LookupSafe(s: Sys, t: nat)
    requires Safe(s) && Enabled(s, Lookup(t))
    ensures Safe(Next(s, Lookup(t)))
  {
    assert Busy(s, t);
    var c, sql := s.pool.threads[t].conn, s.jobs[t].sql;
    GetAgrees(c, s.sessions[c], sql);
    var found := Found(s.sessions[c].cache, sql);
    var j := Job(sql, if found.Some? then Ready(found.value) else Missed);
    LocalStep(s, t, AfterGet(s.sessions[c], sql), j, s.counter);
  }

  lemma NameIsNew(s: Sys, c: Conn)
    requires NamesIssued(s) && c in s.sessions
    ensures PrepStmt.StmtName(s.counter + 1) !in s.sessions[c].open
  {
    var n := PrepStmt.StmtName(s.counter + 1);
    forall i: nat | 1 <= i <= s.counter ensures PrepStmt.StmtName(i) != n {
      if PrepStmt.StmtName(i) == n { PrepStmt.StmtNameInjective(i, s.counter + 1); }
    }
    assert n in s.sessions[c].open ==> Issued(n, s.counter);
  }

  // The state after the server has accepted the statement.
  function AfterAccept(s: Sys, t: nat): Sys
    requires t in s.jobs && t in s.pool.threads && s.pool.threads[t].Holding? && s.pool.threads[t].conn in s.sessions
  {
    var c, sql, name := s.pool.threads[t].conn, s.jobs[t].sql, PrepStmt.StmtName(s.counter + 1);
    Local(s, t, AfterPrepare(s.sessions[c], sql, name), Job(sql, Prepared(Stmt(c, name))), s.counter + 1)
  }

  lemma AcceptedSession(c: Conn, e: Session, sql: string, name: string)
    requires Agree(c, e, None) && sql !in e.cache.vals && name !in e.open
    ensures var r, j := AfterPrepare(e, sql, name), Job(sql, Prepared(Stmt(c, name)));
            && Agree(c, r, Extra(j)) && StageOk(j, r)
            && forall n | n in r.open && n !in e.open :: n == name
  {
    PrepareAgrees(c, e, sql, name);
  }

  lemma AcceptSafe(s: Sys, t: nat)
    requires Safe(s) && t in s.pool.threads && s.pool.threads[t].Holding? && s.pool.threads[t].conn in s.sessions
    requires Busy(s, t) && s.jobs[t].stage.Missed?
    requires PrepStmt.StmtName(s.counter + 1) !in s.sessions[s.pool.threads[t].conn].open
    ensures Safe(AfterAccept(s, t))
  {
    var c, sql, name := s.pool.threads[t].conn, s.jobs[t].sql, PrepStmt.StmtName(s.counter + 1);
    AcceptedSession(c, s.sessions[c], sql, name);
    LocalStep(s, t, AfterPrepare(s.sessions[c], sql, name), Job(sql, Prepared(Stmt(c, name))), s.counter + 1);
  }

  lemma PrepareSafe(s: Sys, t: nat, accepts: bool)
    requires Safe(s) && Enabled(s, Prepare(t, accepts))
    ensures Safe(Next(s, Prepare(t, accepts)))
  {
    assert Busy(s, t);
    NameIsNew(s, s.pool.threads[t].conn);
    if s.jobs[t].sql != "" && accepts {
      AcceptSafe(s, t);
      assert Next(s, Prepare(t, accepts)) == AfterAccept(s, t);
    } else {
      JobOnly(s, t, Job(s.jobs[t].sql, Done), s.counter + 1);
    }
  }

  lemma StoreSafe(s: Sys, t: nat)
    requires Safe(s) && Enabled(s, Store(t))
    ensures Safe(Next(s, Store(t)))
  {
    assert Busy(s, t);
    var c, sql, stmt := s.pool.threads[t].conn, s.jobs[t].sql, s.jobs[t].stage.stmt;
    PutAgrees(c, s.sessions[c], sql, stmt);
    LocalStep(s, t, AfterPut(s.sessions[c], sql, stmt), Job(sql, Ready(stmt)), s.counter);
  }

  lemma ExecuteSafe(s: Sys, t: nat)
    requires Safe(s) && Enabled(s, Execute(t))
    ensures Safe(Next(s, Execute(t)))
  {
    assert Busy(s, t);
    JobOnly(s, t, Job(s.jobs[t].sql, Done), s.counter);
  }

  // ---- pool steps --------------------------------------------------------------------------------

  // What a pool step may do to holdings and to the queue.
  ghost predicate PoolChange(p: PT.Sys, q: PT.Sys, e: PT.Event) {
    && (forall u | !(!e.Tick? && u == e.thread) :: (u in q.threads <==> u in p.threads)
          && (u in p.threads ==> q.threads[u] == p.threads[u]))
    && (forall c | c in q.pool.storage :: c in p.pool.storage || c == p.pool.nextConn)
    && (forall c | c in q.pool.available :: c in p.pool.available
          || (e.Release? && e.thread in p.threads && p.threads[e.thread] == PT.Holding(c)))
    && (!e.Tick? && e.thread in q.threads && q.threads[e.thread].Holding? ==>
          var c := q.threads[e.thread].conn; c in p.pool.available || c == p.pool.nextConn)
  }

  lemma TakeChanges(p: PT.Sys, t: nat)
    requires PT.Safe(p)
    ensures var q := PT.TakeOrWait(p, t);
            && q.pool.storage == p.pool.storage
            && (forall c | c in q.pool.available :: c in p.pool.available)
            && (q.threads[t].Holding? ==> q.threads[t].conn in p.pool.available)
  {}

  lemma PoolChanges(p: PT.Sys, e: PT.Event)
    requires PT.Safe(p) && PT.Enabled(p, e)
    ensures PoolChange(p, PT.Next(p, e), e)
  {
    match e
    case Tick(d) =>
    case Enter(t) =>
      PT.PruneMeaning(p.pool, p.clock);
      PT.PruneSafe(p);
      TakeChanges(p.(pool := Prune(p.pool, p.clock)), t);
    case Wake(t) => TakeChanges(p, t);
    case TimeOut(t, connects) => TakeChanges(p, t);
    case Release(t) =>
  }

  lemma QuietAfter(s: Sys, pool: PT.Sys, pe: PT.Event, sql: string, c: Conn)
    requires Safe(s) && Enabled(s, PoolStep(pe, sql)) && PoolChange(s.pool, pool, pe)
    requires c in pool.pool.available && c in pool.pool.storage
    ensures Quiet(WithPool(s, pool, pe, sql), c)
  {
    if c in s.pool.pool.available { assert Quiet(s, c); } else { assert Busy(s, pe.thread); }
  }

  lemma BusySame(s: Sys, s': Sys, t: nat)
    requires t in s.pool.threads && s.pool.threads[t].Holding? && Busy(s, t)
    requires t in s'.pool.threads && s'.pool.threads[t] == s.pool.threads[t]
    requires t in s'.jobs && s'.jobs[t] == s.jobs[t]
    requires s.pool.threads[t].conn in s'.sessions
    requires s'.sessions[s.pool.threads[t].conn] == s.sessions[s.pool.threads[t].conn]
    ensures Busy(s', t)
  {}

  lemma BusyAfter(s: Sys, pool: PT.Sys, pe: PT.Event, sql: string, t: nat)
    requires Safe(s) && Enabled(s, PoolStep(pe, sql)) && PoolChange(s.pool, pool, pe)
    requires t in pool.threads && pool.threads[t].Holding? && pool.threads[t].conn in pool.pool.storage
    ensures Busy(WithPool(s, pool, pe, sql), t)
  {
    var c, s' := pool.threads[t].conn, WithPool(s, pool, pe, sql);
    if pe.Tick? || t != pe.thread {
      assert Busy(s, t);
      assert s'.pool.threads[t] == s.pool.threads[t];
      assert s'.jobs[t] == s.jobs[t];
      BusySame(s, s', t);
    } else if c in s.pool.pool.available {
      assert Quiet(s, c);
    } else {
      FreshAgrees(c);
    }
  }

  lemma NamesAfter(s: Sys, pool: PT.Sys, pe: PT.Event, sql: string)
    requires NamesIssued(s)
    ensures NamesIssued(WithPool(s, pool, pe, sql))
  {
    var s' := WithPool(s, pool, pe, sql);
    forall c, n | c in s'.sessions && n in s'.sessions[c].open ensures Issued(n, s'.counter) {
      assert c in s.sessions && n in s.sessions[c].open;
    }
  }

  lemma CacheAfter(s: Sys, pool: PT.Sys, pe: PT.Event, sql: string, c: Conn)
    requires c in WithPool(s, pool, pe, sql).sessions && (c in s.sessions ==> CacheOk(s, c))
    ensures CacheOk(WithPool(s, pool, pe, sql), c)
  {
    if c !in s.sessions { FreshAgrees(c); }
  }

  lemma PoolStepSafe(s: Sys, pe: PT.Event, sql: string)
    requires Safe(s) && Enabled(s, PoolStep(pe, sql))
    ensures Safe(Next(s, PoolStep(pe, sql)))
  {
    var pool := PT.Next(s.pool, pe);
    var s' := WithPool(s, pool, pe, sql);
    PT.NextSafe(s.pool, pe);
    PoolChanges(s.pool, pe);
    NamesAfter(s, pool, pe, sql);
    forall c | c in s'.sessions ensures CacheOk(s', c) {
      assert c in s.sessions ==> CacheOk(s, c);
      CacheAfter(s, pool, pe, sql, c);
    }
    forall c | c in s'.pool.pool.available ensures Quiet(s', c) {
      QuietAfter(s, pool, pe, sql, c);
    }
    forall t | t in s'.pool.threads && s'.pool.threads[t].Holding? ensures Busy(s', t) {
      BusyAfter(s, pool, pe, sql, t);
    }
  }

  lemma NextSafe(s: Sys, e: Event)
    requires Safe(s) && Enabled(s, e)
    ensures Safe(Next(s, e))
  {
    match e
    case PoolStep(pe, sql) => PoolStepSafe(s, pe, sql);
    case Lookup(t) => LookupSafe(s, t);
    case Prepare(t, accepts) => PrepareSafe(s, t, accepts);
    case Store(t) => StoreSafe(s, t);
    case Execute(t) => ExecuteSafe(s, t);
  }

  // ---- whole runs --------------------------------------------------------------------------------

  ghost predicate Reaches(s: Sys, events: seq<Event>, s': Sys)
    requires Safe(s)
    decreases |events|
  {
    if events == [] then s == s'
    else Enabled(s, events[0]) && (NextSafe(s, events[0]); Reaches(Next(s, events[0]), events[1..], s'))
  }

  ghost predicate FromStart(hardLimit: nat, idleTimeout: nat, events: seq<Event>, s: Sys) {
    InitSafe(hardLimit, idleTimeout);
    Reaches(Init(hardLimit, idleTimeout), events, s)
  }

  lemma {:induction false} SafeAlways(s: Sys, events: seq<Event>, s': Sys)
    requires Safe(s) && Reaches(s, events, s')
    ensures Safe(s')
    decreases |events|
  {
    if events != [] {
      NextSafe(s, events[0]);
      SafeAlways(Next(s, events[0]), events[1..], s');
    }
  }

  // ---- the text of a call --------------------------------------------------------------------------

  // What the events say thread t was last asked to run.
  function Asked(events: seq<Event>, t: nat): Option<string> {
    if events == [] then None
    else
      var e := events[|events| - 1];
      if e.PoolStep? && e.e == PT.Enter(t) then Some(e.sql) else Asked(events[..|events| - 1], t)
  }

  lemma AskedSnoc(events: seq<Event>, e: Event, t: nat)
    ensures Asked(events + [e], t) ==
            if e.PoolStep? && e.e == PT.Enter(t) then Some(e.sql) else Asked(events, t)
  {
    assert (events + [e])[..|events|] == events;
  }

  // Every thread inside acquire or holding a connection is in a call, and works on the text it was
  // called with.
  ghost predicate OnTask(s: Sys, past: seq<Event>) {
    && s.jobs.Keys == s.pool.threads.Keys
    && forall t {:trigger AskedFor(s, past, t)} | t in s.jobs :: AskedFor(s, past, t)
  }

  ghost predicate AskedFor(s: Sys, past: seq<Event>, t: nat)
    requires t in s.jobs
  {
    Asked(past, t) == Some(s.jobs[t].sql)
  }

  lemma PoolStepOnTask(s: Sys, past: seq<Event>, pe: PT.Event, sql: string)
    requires Safe(s) && Enabled(s, PoolStep(pe, sql)) && OnTask(s, past)
    ensures OnTask(Next(s, PoolStep(pe, sql)), past + [PoolStep(pe, sql)])
  {
    var e, pool := PoolStep(pe, sql), PT.Next(s.pool, pe);
    var s' := Next(s, e);
    PoolChanges(s.pool, pe);
    assert s'.jobs == AfterPoolStep(s.jobs, pool.threads, pe, sql);
    TaskKeys(s, pool, pe, sql);
    forall t | t in s'.jobs ensures AskedFor(s', past + [e], t) {
      AskedSnoc(past, e, t);
      if t in s.jobs { assert AskedFor(s, past, t); }
    }
  }

  lemma TaskKeys(s: Sys, pool: PT.Sys, pe: PT.Event, sql: string)
    requires s.jobs.Keys == s.pool.threads.Keys && PoolChange(s.pool, pool, pe)
    requires pe.Tick? ==> pool.threads == s.pool.threads
    ensures AfterPoolStep(s.jobs, pool.threads, pe, sql).Keys == pool.threads.Keys
  {
    var jobs := AfterPoolStep(s.jobs, pool.threads, pe, sql);
    forall t ensures t in jobs <==> t in pool.threads {
      assert (!pe.Tick? && t == pe.thread) || (t in pool.threads <==> t in s.pool.threads);
      assert t in s.jobs <==> t in s.pool.threads;
    }
  }

  lemma LocalOnTask(s: Sys, past: seq<Event>, e: Event)
    requires Safe(s) && Enabled(s, e) && OnTask(s, past) && !e.PoolStep?
    ensures OnTask(Next(s, e), past + [e])
  {
    var s' := Next(s, e);
    assert s'.jobs.Keys == s.jobs.Keys;
    forall t | t in s'.jobs ensures AskedFor(s', past + [e], t) {
      AskedSnoc(past, e, t);
      assert AskedFor(s, past, t);
    }
  }

  lemma {:induction false} OnTaskAlways(s: Sys, past: seq<Event>, events: seq<Event>, s': Sys)
    requires Safe(s) && Reaches(s, events, s') && OnTask(s, past)
    ensures OnTask(s', past + events)
    decreases |events|
  {
    if events == [] {
      assert past + events == past;
    } else {
      var e := events[0];
      NextSafe(s, e);
      if e.PoolStep? { PoolStepOnTask(s, past, e.e, e.sql); } else { LocalOnTask(s, past, e); }
      OnTaskAlways(Next(s, e), past + [e], events[1..], s');
      assert past + [e] + events[1..] == past + events;
    }
  }

  // Every interleaving: a thread in a call works on the text of its latest call.
  lemma WorksOnItsCall(hardLimit: nat, idleTimeout: nat, events: seq<Event>, s: Sys, t: nat)
    requires FromStart(hardLimit, idleTimeout, events, s) && t in s.jobs
    ensures Asked(events, t) == Some(s.jobs[t].sql)
  {
    InitSafe(hardLimit, idleTimeout);
    OnTaskAlways(Init(hardLimit, idleTimeout), [], events, s);
    assert [] + events == events;
    assert AskedFor(s, events, t);
  }

  // Every interleaving: a thread about to execute uses a statement that is open on the connection
  // it holds and was prepared there from exactly the text its call was given.
  lemma ExecutesItsOwnText(hardLimit: nat, idleTimeout: nat, events: seq<Event>, s: Sys, t: nat)
    requires FromStart(hardLimit, idleTimeout, events, s)
    requires Enabled(s, Execute(t))
    ensures var c, stmt := s.pool.threads[t].conn, s.jobs[t].stage.stmt;
            && stmt.conn == c
            && stmt.name in s.sessions[c].open
            && Some(s.sessions[c].open[stmt.name]) == Asked(events, t)
  {
    InitSafe(hardLimit, idleTimeout);
    SafeAlways(Init(hardLimit, idleTimeout), events, s);
    assert Busy(s, t);
    assert CachedOn(s.pool.threads[t].conn, s.sessions[s.pool.threads[t].conn], s.jobs[t].sql);
    WorksOnItsCall(hardLimit, idleTimeout, events, s, t);
  }

  lemma NamesApart(c: Conn, e: Session, extra: Option<Stmt>)
    requires Agree(c, e, extra)
    ensures Distinct(e)
  {
    forall k, m | k in e.cache.vals && m in e.cache.vals && k != m
      ensures e.cache.vals[k].name != e.cache.vals[m].name
    {
      assert CachedOn(c, e, k) && CachedOn(c, e, m);
    }
  }

  ghost predicate Distinct(e: Session) {
    forall k, m | k in e.cache.vals && m in e.cache.vals && k != m :: e.cache.vals[k].name != e.cache.vals[m].name
  }

  // Every interleaving: a free connection has exactly its cache entries open on the server.
  lemma FreeConnectionMatchesCache(hardLimit: nat, idleTimeout: nat, events: seq<Event>, s: Sys, c: Conn)
    requires FromStart(hardLimit, idleTimeout, events, s)
    requires c in s.pool.pool.available
    ensures c in s.sessions && Agree(c, s.sessions[c], None) && Distinct(s.sessions[c])
    ensures |s.sessions[c].open| == |s.sessions[c].cache.vals| <= 15
  {
    InitSafe(hardLimit, idleTimeout);
    SafeAlways(Init(hardLimit, idleTimeout), events, s);
    assert Quiet(s, c);
    OpenCount(c, s.sessions[c], None);
    NamesApart(c, s.sessions[c], None);
  }

  // A held connection has one statement more exactly while its holder is between preparing and
  // storing it.
  lemma HeldConnectionHasAtMostOneMore(hardLimit: nat, idleTimeout: nat, events: seq<Event>, s: Sys, t: nat)
    requires FromStart(hardLimit, idleTimeout, events, s)
    requires t in s.pool.threads && s.pool.threads[t].Holding?
    ensures s.pool.threads[t].conn in s.sessions && t in s.jobs
    ensures var e := s.sessions[s.pool.threads[t].conn];
            Distinct(e) && |e.open| == |e.cache.vals| + (if s.jobs[t].stage.Prepared? then 1 else 0) <= 16
  {
    InitSafe(hardLimit, idleTimeout);
    SafeAlways(Init(hardLimit, idleTimeout), events, s);
    assert Busy(s, t);
    var c := s.pool.threads[t].conn;
    OpenCount(c, s.sessions[c], Extra(s.jobs[t]));
    NamesApart(c, s.sessions[c], Extra(s.jobs[t]));
  }
}
