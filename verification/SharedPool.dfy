/**
  The connection pool shared by every database session of the backend, and the
  programs that borrow from it: `get_db`, `get_platform_db`, `get_tenant_db`
  and the materialized-view refresh job.

  Every program is a list of small steps, one per awaited call. Between two steps of
  one session any other session may run, and every step may fail, with or
  without the server having applied the statement. A commit or rollback gives the
  connection back to the pool, so the next statement may land on a different one.
 */
module SharedPool {
  import opened Common

  /** The search path a name is resolved under. */
  datatype SearchPath = ServerDefault | Public | TenantFirst(schema: string)

  /** A PostgreSQL transaction: the path that a commit makes permanent, the path in
      force now, and whether a statement error has already doomed it. */
  datatype Txn =
    | NoTxn
    | Open(onCommit: SearchPath, effective: SearchPath, aborted: bool)

  /** One server connection. Advisory locks are counted and outlive transactions. */
  datatype Conn = Conn(sessionPath: SearchPath, txn: Txn, locks: multiset<int>)

  const FRESH_CONN := Conn(ServerDefault, NoTxn, multiset{})

  datatype Stmt =
    | SetPath(path: SearchPath)
    | SetLocalPath(path: SearchPath)
    | Select
    | Refresh(schema: string, view: string)
    | TryAdvisoryLock(key: int)
    | AdvisoryUnlock(key: int)

  /** How an awaited call ends: normally, with an error (the server may or may not
      have applied the statement), or with the connection gone. */
  datatype Reply = Done | Error(applied: bool, aborts: bool) | Lost

  datatype Program =
    | PublicDb
    | PlatformDb
    | TenantDb(tenant: string)
    | RefreshJob(target: Option<string>, views: seq<string>)

  datatype Pc =
    | Opening | Body | FinalCommit | Except | ResetSet | ResetCommit
    | Discover | NextSchema | TryLock | LockedSetPath | Refreshing | RefreshCommit
    | UnlockExec | UnlockCommit
    | Closing | Finished

  /** Where an exception was raised. */
  datatype Cause =
    | OpenError | BodyError | CommitError | RollbackError | ResetError | CloseError
    | DiscoverError | NameError | LockError | PathError | ViewError | RefreshError | UnlockError

  /** One session with the local variables of its program. `original` is `original_exc`,
      and in the two programs without that variable the exception in flight; `cleanup` is
      `cleanup_exc`. `errors` lists every exception that was raised, in order, and
      `raised` is the one that leaves the program. `lockedOn` is the connection on which
      the try-lock for the current schema succeeded. */
  datatype Session = Session(
    prog: Program, pc: Pc, conn: Option<nat>,
    original: Option<Cause>, cleanup: Option<Cause>, errors: seq<Cause>, raised: Option<Cause>,
    lockedOn: Option<nat>, todo: seq<string>, view: nat)

  function NewSession(prog: Program, pc: Pc, todo: seq<string>): Session {
    Session(prog, pc, None, None, None, [], None, None, todo, 0)
  }

  /** What an observer of the statements sees, in order. */
  datatype Event =
    | Scoped(sid: nat)
    | Ended(sid: nat)
    | Resolved(sid: nat, path: SearchPath)
    | Refreshed(sid: nat, schema: string, view: string, path: SearchPath)

  datatype World = World(
    conns: map<nat, Conn>, idle: set<nat>, sessions: map<nat, Session>, log: seq<Event>)

  const MATERIALIZED_VIEWS: seq<string> := ["mv_sales_daily"]

  // ---------------------------------------------------------------- connections

  /** The driver opens a transaction before the first statement. */
  function Begin(c: Conn): Conn {
    if c.txn.NoTxn? then c.(txn := Open(c.sessionPath, c.sessionPath, false)) else c
  }

  /** COMMIT of a doomed transaction rolls it back. */
  function Committed(c: Conn): Conn {
    match c.txn
    case NoTxn => c
    case Open(onCommit, _, aborted) =>
      c.(sessionPath := if aborted then c.sessionPath else onCommit, txn := NoTxn)
  }

  function RolledBack(c: Conn): Conn {
    c.(txn := NoTxn)
  }

  /** What a statement that the server accepts does to its connection. */
  function Effect(c: Conn, s: Stmt, lockFree: bool): Conn
    requires c.txn.Open?
  {
    match s
    case SetPath(p) => c.(txn := c.txn.(onCommit := p, effective := p))
    case SetLocalPath(p) => c.(txn := c.txn.(effective := p))
    case Select => c
    case Refresh(_, _) => c
    case TryAdvisoryLock(k) => if lockFree then c.(locks := c.locks + multiset{k}) else c
    case AdvisoryUnlock(k) => c.(locks := c.locks - multiset{k})
  }

  function EventOf(sid: nat, c: Conn, s: Stmt): seq<Event>
    requires c.txn.Open?
  {
    match s
    case SetPath(_) => [Ended(sid)]
    case SetLocalPath(p) => if p.TenantFirst? then [Scoped(sid)] else []
    case Select => [Resolved(sid, c.txn.effective)]
    case Refresh(schema, view) => [Refreshed(sid, schema, view, c.txn.effective)]
    case TryAdvisoryLock(_) => []
    case AdvisoryUnlock(_) => []
  }

  // -------------------------------------------------------------- session calls

  /** No connection other than `id` holds the advisory lock. */
  predicate LockFree(w: World, id: nat, key: int) {
    forall c :: c in w.conns && c != id ==> w.conns[c].locks[key] == 0
  }

  predicate Grants(w: World, id: nat, s: Stmt) {
    s.TryAdvisoryLock? ==> LockFree(w, id, s.key)
  }

  /** Among the sessions, only `sid` may differ, and only in the connection it holds. */
  predicate OnlyConnChanged(w: World, w': World, sid: nat)
    requires sid in w.sessions
  {
    sid in w'.sessions
    && w'.sessions == w.sessions[sid := w.sessions[sid].(conn := w'.sessions[sid].conn)]
  }

  function SetSession(w: World, sid: nat, s: Session): World {
    w.(sessions := w.sessions[sid := s])
  }

  /** Where a connection is after a call. */
  datatype Fate = Held | Returned | Dropped

  /** The call of session `sid` leaves connection `id` in the state `c`: still held by the
      session, back in the pool, or dropped (the server then frees its locks). */
  function Put(w: World, sid: nat, id: nat, c: Conn, fate: Fate, seen: seq<Event>): World
    requires sid in w.sessions
  {
    World(
      if fate.Dropped? then w.conns - {id} else w.conns[id := c],
      if fate.Returned? then w.idle + {id} else w.idle - {id},
      w.sessions[sid := w.sessions[sid].(conn := if fate.Held? then Some(id) else None)],
      w.log + seen)
  }

  predicate HasConn(w: World, sid: nat)
    requires sid in w.sessions
  {
    w.sessions[sid].conn.Some? && w.sessions[sid].conn.value in w.conns
  }

  /** The session keeps the connection it has; otherwise it borrows the idle
      connection `pick`, or opens `pick` if there is no such connection yet. A busy
      `pick` means the checkout timed out. */
  function Checkout(w: World, sid: nat, pick: nat): World
    requires sid in w.sessions
  {
    if w.sessions[sid].conn.Some? then w
    else if pick in w.idle && pick in w.conns then Put(w, sid, pick, w.conns[pick], Held, [])
    else if pick !in w.conns then Put(w, sid, pick, FRESH_CONN, Held, [])
    else w
  }

  /** Runs a statement on the connection the session already holds. */
  function OnConn(w: World, sid: nat, stmt: Stmt, reply: Reply): (r: (World, bool))
    requires sid in w.sessions && HasConn(w, sid)
  {
    var id := w.sessions[sid].conn.value;
    var c := Begin(w.conns[id]);
    var after := Effect(c, stmt, Grants(w, id, stmt));
    match reply
    case Lost => (Put(w, sid, id, c, Dropped, [Ended(sid)]), false)
    case Done =>
      if c.txn.aborted then (w, false)
      else (Put(w, sid, id, after, Held, EventOf(sid, c, stmt)), true)
    case Error(applied, aborts) =>
      if c.txn.aborted then (w, false)
      else if applied then
        (Put(w, sid, id, after.(txn := after.txn.(aborted := aborts)), Held, EventOf(sid, c, stmt)), false)
      else (Put(w, sid, id, c.(txn := c.txn.(aborted := aborts)), Held, []), false)
  }

  /** `session.execute(stmt)`. The flag says whether it returned normally. */
  function Execute(w: World, sid: nat, pick: nat, stmt: Stmt, reply: Reply): (r: (World, bool))
    requires sid in w.sessions
    ensures OnlyConnChanged(w, r.0, sid)
  {
    var held := Checkout(w, sid, pick);
    if HasConn(held, sid) then OnConn(held, sid, stmt, reply) else (held, false)
  }

  /** What `pg_try_advisory_lock` answers. */
  predicate LockGranted(w: World, sid: nat, pick: nat, key: int)
    requires sid in w.sessions
  {
    var held := Checkout(w, sid, pick);
    held.sessions[sid].conn.Some? && LockFree(held, held.sessions[sid].conn.value, key)
  }

  /** Ends the transaction of `sid`, leaving its connection in the state `c`. */
  function EndTxn(w: World, sid: nat, c: Conn, reply: Reply): (r: (World, bool))
    requires sid in w.sessions && HasConn(w, sid)
  {
    var id := w.sessions[sid].conn.value;
    match reply
    case Done => (Put(w, sid, id, c, Returned, [Ended(sid)]), true)
    case Error(applied, _) => (if applied then Put(w, sid, id, c, Held, [Ended(sid)]) else w, false)
    case Lost => (Put(w, sid, id, c, Dropped, [Ended(sid)]), false)
  }

  /** `session.commit()`. */
  function Commit(w: World, sid: nat, reply: Reply): (r: (World, bool))
    requires sid in w.sessions
    ensures OnlyConnChanged(w, r.0, sid)
  {
    if !HasConn(w, sid) then (w, true)
    else EndTxn(w, sid, Committed(w.conns[w.sessions[sid].conn.value]), reply)
  }

  /** `session.rollback()`. */
  function Rollback(w: World, sid: nat, reply: Reply): (r: (World, bool))
    requires sid in w.sessions
    ensures OnlyConnChanged(w, r.0, sid)
  {
    if !HasConn(w, sid) then (w, true)
    else EndTxn(w, sid, RolledBack(w.conns[w.sessions[sid].conn.value]), reply)
  }

  /** `session.close()`: rolls back and returns the connection, or drops it; with the reply
      `Error` it also raises an exception. */
  function Close(w: World, sid: nat, reply: Reply): (r: World)
    requires sid in w.sessions
    ensures OnlyConnChanged(w, r, sid)
  {
    if !HasConn(w, sid) then w
    else
      var id := w.sessions[sid].conn.value;
      Put(w, sid, id, RolledBack(w.conns[id]), if reply.Done? then Returned else Dropped, [Ended(sid)])
  }

  // ------------------------------------------------------------------ programs

  /** What the code between `yield` and the generator's epilogue does next.
      `Rescope` is `_restore_tenant_search_path_after_rollback`. */
  datatype BodyOp = Query | BodyCommit | BodyRollback | Rescope | Return | Raise

  /** The choices of the scheduler and of the environment for one step: the
      connection a checkout gets, how the call ends, what the body does, whether a raised
      exception is outside `Exception`, and the schemas a discovery query finds. */
  datatype Choice = Choice(pick: nat, reply: Reply, op: BodyOp, base: bool, found: seq<string>)

  datatype Action =
    | Spawn(sid: nat, prog: Program)
    | Advance(sid: nat, choice: Choice)
    | Evict(conn: nat)

  predicate IsIdentifierChar(ch: char, first: bool) {
    'a' <= ch <= 'z' || 'A' <= ch <= 'Z' || ch == '_' || (!first && '0' <= ch <= '9')
  }

  /** A letter or underscore, then at most 62 more letters, digits or underscores. */
  predicate PlainIdentifier(name: string) {
    1 <= |name| <= 63
    && IsIdentifierChar(name[0], true)
    && forall i :: 0 < i < |name| ==> IsIdentifierChar(name[i], false)
  }

  /** `validate_identifier` accepts the name. The `$` of its pattern also matches before a
      line feed that ends the text. */
  predicate SafeIdentifier(name: string) {
    PlainIdentifier(name) || (name != "" && name[|name| - 1] == '\n' && PlainIdentifier(name[..|name| - 1]))
  }

  function LockName(schema: string): string { "mv_refresh_" + schema }

  /** The session a program starts with, if it gets as far as opening one. */
  function Started(prog: Program): Option<Session> {
    match prog
    case PublicDb => Some(NewSession(prog, Opening, []))
    case PlatformDb => Some(NewSession(prog, Body, []))
    case TenantDb(t) => if SafeIdentifier(t) then Some(NewSession(prog, Opening, [])) else None
    case RefreshJob(target, _) =>
      if target.Some? && target.value != "" then Some(NewSession(prog, NextSchema, [target.value]))
      else Some(NewSession(prog, Discover, []))
  }

  function Goto(w: World, sid: nat, pc: Pc): World
    requires sid in w.sessions
  {
    SetSession(w, sid, w.sessions[sid].(pc := pc))
  }

  /** An exception is raised; it replaces one that is already in flight. */
  function Fail(w: World, sid: nat, pc: Pc, cause: Cause): World
    requires sid in w.sessions
  {
    var s := w.sessions[sid];
    SetSession(w, sid, s.(pc := pc, original := Some(cause), errors := s.errors + [cause]))
  }

  /** `get_db` and `get_tenant_db` keep the original exception in a variable. */
  predicate Guarded(prog: Program) {
    prog.PublicDb? || prog.TenantDb?
  }

  /** The rollback in the handler fails. */
  function RollbackFail(w: World, sid: nat): World
    requires sid in w.sessions
  {
    var s := w.sessions[sid];
    SetSession(w, sid, s.(pc := Epilogue(s), errors := s.errors + [RollbackError],
                          original := if Guarded(s.prog) then s.original else Some(RollbackError)))
  }

  /** A failing reset is remembered only when no earlier exception is in flight. */
  function CleanupFail(w: World, sid: nat): World
    requires sid in w.sessions
  {
    var s := w.sessions[sid];
    SetSession(w, sid, s.(pc := Closing, errors := s.errors + [ResetError],
                          cleanup := if s.original.None? then Some(ResetError) else s.cleanup))
  }

  /** The exception that leaves the program, given whether `close` raised one. In the guarded
      generators the `finally` around `close` raises the remembered exceptions instead. */
  function Propagated(s: Session, closeRaises: bool): Option<Cause> {
    var closing := if closeRaises then Some(CloseError) else None;
    if Guarded(s.prog) then
      if s.original.Some? then s.original else if s.cleanup.Some? then s.cleanup else closing
    else if closeRaises then closing
    else s.original
  }

  /** Closing the session ends the program. */
  function CloseStep(w: World, sid: nat, reply: Reply): World
    requires sid in w.sessions
  {
    var raises := HasConn(w, sid) && reply.Error?;
    var w1 := Close(w, sid, reply);
    var s := w1.sessions[sid];
    SetSession(w1, sid, s.(pc := Finished, errors := s.errors + if raises then [CloseError] else [],
                           raised := Propagated(s, raises)))
  }

  /** Where an exception inside the `try` of a generator lands. `get_platform_db`
      catches `Exception` only; the other two catch everything. */
  function HandlerOf(s: Session, base: bool): Pc {
    if s.prog.PlatformDb? && base then Closing else Except
  }

  function Epilogue(s: Session): Pc {
    if s.prog.PlatformDb? then Closing else ResetSet
  }

  function OpeningStmt(s: Session): Stmt {
    if s.prog.TenantDb? then SetLocalPath(TenantFirst(s.prog.tenant)) else SetPath(Public)
  }

  /** SET LOCAL to the schema in `session.info`, which is "public" outside tenant sessions. */
  function RescopeStmt(s: Session): Stmt {
    SetLocalPath(if s.prog.TenantDb? then TenantFirst(s.prog.tenant) else Public)
  }

  function BodyStep(w: World, sid: nat, ch: Choice): World
    requires sid in w.sessions
  {
    var s := w.sessions[sid];
    match ch.op
    case Query => Execute(w, sid, ch.pick, Select, ch.reply).0
    case BodyCommit => Commit(w, sid, ch.reply).0
    case BodyRollback => Rollback(w, sid, ch.reply).0
    case Rescope => Execute(w, sid, ch.pick, RescopeStmt(s), ch.reply).0
    case Return => Goto(w, sid, FinalCommit)
    case Raise => Fail(w, sid, HandlerOf(s, ch.base), BodyError)
  }

  /** `get_db`, `get_tenant_db` and `get_platform_db`. */
  function GeneratorStep(w: World, sid: nat, ch: Choice): World
    requires sid in w.sessions
  {
    var s := w.sessions[sid];
    match s.pc
    case Opening =>
      var (w1, ok) := Execute(w, sid, ch.pick, OpeningStmt(s), ch.reply);
      if ok then Goto(w1, sid, Body) else Fail(w1, sid, Except, OpenError)
    case Body => BodyStep(w, sid, ch)
    case FinalCommit =>
      var (w1, ok) := Commit(w, sid, ch.reply);
      if ok then Goto(w1, sid, Epilogue(s)) else Fail(w1, sid, HandlerOf(s, ch.base), CommitError)
    case Except =>
      var (w1, ok) := Rollback(w, sid, ch.reply);
      if ok then Goto(w1, sid, Epilogue(s)) else RollbackFail(w1, sid)
    case ResetSet =>
      var (w1, ok) := Execute(w, sid, ch.pick, SetPath(Public), ch.reply);
      if ok then Goto(w1, sid, ResetCommit) else CleanupFail(w1, sid)
    case ResetCommit =>
      var (w1, ok) := Commit(w, sid, ch.reply);
      if ok then Goto(w1, sid, Closing) else CleanupFail(w1, sid)
    case Closing => CloseStep(w, sid, ch.reply)
    case _ => w
  }

  /** The refresh loop is done with the current schema. */
  function PopSchema(w: World, sid: nat): World
    requires sid in w.sessions && |w.sessions[sid].todo| > 0
  {
    var s := w.sessions[sid];
    SetSession(w, sid, s.(pc := NextSchema, todo := s.todo[1..], view := 0))
  }

  /** `refresh_materialized_views`; `hash` is the server's `hashtext`. */
  function RefreshStep(hash: string -> int, w: World, sid: nat, ch: Choice): World
    requires sid in w.sessions && w.sessions[sid].prog.RefreshJob?
  {
    var s := w.sessions[sid];
    match s.pc
    case Discover =>
      var (w1, ok) := Execute(w, sid, ch.pick, Select, ch.reply);
      if ok then SetSession(w1, sid, w1.sessions[sid].(pc := NextSchema, todo := ch.found))
      else Fail(w1, sid, Closing, DiscoverError)
    case NextSchema =>
      if s.todo == [] then Goto(w, sid, Closing)
      else if SafeIdentifier(s.todo[0]) then Goto(w, sid, TryLock)
      else Fail(w, sid, Closing, NameError)
    case Closing => CloseStep(w, sid, ch.reply)
    case _ =>
      if s.todo == [] then w else CurrentSchemaStep(hash(LockName(s.todo[0])), w, sid, ch)
  }

  /** The part of the loop body that works on the schema `todo[0]`. */
  function CurrentSchemaStep(key: int, w: World, sid: nat, ch: Choice): World
    requires sid in w.sessions && w.sessions[sid].prog.RefreshJob?
    requires w.sessions[sid].todo != []
  {
    var s := w.sessions[sid];
    match s.pc
    case TryLock =>
      var granted := LockGranted(w, sid, ch.pick, key);
      var (w1, ok) := Execute(w, sid, ch.pick, TryAdvisoryLock(key), ch.reply);
      if !ok then Fail(w1, sid, Closing, LockError)
      else if granted then
        SetSession(w1, sid, w1.sessions[sid].(pc := LockedSetPath, lockedOn := w1.sessions[sid].conn))
      else PopSchema(w1, sid)
    case LockedSetPath =>
      var (w1, ok) := Execute(w, sid, ch.pick, SetLocalPath(TenantFirst(s.todo[0])), ch.reply);
      if ok then Goto(w1, sid, Refreshing) else Fail(w1, sid, UnlockExec, PathError)
    case Refreshing =>
      if s.view >= |s.prog.views| then Goto(w, sid, RefreshCommit)
      else if s.prog.views[s.view] !in MATERIALIZED_VIEWS then Fail(w, sid, UnlockExec, ViewError)
      else
        var (w1, ok) := Execute(w, sid, ch.pick, Refresh(s.todo[0], s.prog.views[s.view]), ch.reply);
        if ok then SetSession(w1, sid, w1.sessions[sid].(view := s.view + 1))
        else Fail(w1, sid, UnlockExec, RefreshError)
    case RefreshCommit =>
      var (w1, ok) := Commit(w, sid, ch.reply);
      if ok then Goto(w1, sid, UnlockExec) else Fail(w1, sid, UnlockExec, CommitError)
    case UnlockExec =>
      var (w1, ok) := Execute(w, sid, ch.pick, AdvisoryUnlock(key), ch.reply);
      if ok then Goto(w1, sid, UnlockCommit) else Fail(w1, sid, Closing, UnlockError)
    case UnlockCommit =>
      var (w1, ok) := Commit(w, sid, ch.reply);
      if !ok then Fail(w1, sid, Closing, UnlockError)
      else if s.original.Some? then Goto(w1, sid, Closing)
      else PopSchema(w1, sid)
    case _ => w
  }

  /** One step of the whole system. An action that is not enabled changes nothing. */
  function Step(hash: string -> int, w: World, a: Action): World {
    match a
    case Spawn(sid, prog) =>
      if sid in w.sessions || Started(prog).None? then w
      else SetSession(w, sid, Started(prog).value)
    case Advance(sid, ch) =>
      if sid !in w.sessions then w
      else if w.sessions[sid].prog.RefreshJob? then RefreshStep(hash, w, sid, ch)
      else GeneratorStep(w, sid, ch)
    case Evict(id) =>
      if id in w.idle then w.(conns := w.conns - {id}, idle := w.idle - {id}) else w
  }

  const EMPTY_WORLD := World(map[], {}, map[], [])

  /** The world after a schedule, started with no connection and no session. */
  function Run(hash: string -> int, schedule: seq<Action>): World {
    if schedule == [] then EMPTY_WORLD
    else Step(hash, Run(hash, schedule[..|schedule| - 1]), schedule[|schedule| - 1])
  }

  /** After these events the last thing session `sid` did to its path is a
      SET LOCAL whose transaction is still open. */
  predicate InScope(log: seq<Event>, sid: nat) {
    log != [] &&
    var last := log[|log| - 1];
    if last == Scoped(sid) then true
    else if last == Ended(sid) then false
    else InScope(log[..|log| - 1], sid)
  }
}
