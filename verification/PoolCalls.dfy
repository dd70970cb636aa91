/**
  What the calls of a step can do to locks and to the log: every step makes one call of the
  session at most.
 */
module PoolCalls {
  import opened Common
  import opened SharedPool
  import opened PoolSafety
  import opened LockRelease

  // ------------------------------------------------------------------ one call a step

  datatype Call = Nothing | Statement(stmt: Stmt) | CommitCall | RollbackCall | CloseCall

  /** The call that a request session makes next. */
  function GeneratorCall(s: Session, ch: Choice): Call {
    match s.pc
    case Opening => Statement(OpeningStmt(s))
    case Body =>
      (match ch.op
       case Query => Statement(Select)
       case BodyCommit => CommitCall
       case BodyRollback => RollbackCall
       case Rescope => Statement(RescopeStmt(s))
       case _ => Nothing)
    case FinalCommit => CommitCall
    case Except => RollbackCall
    case ResetSet => Statement(SetPath(Public))
    case ResetCommit => CommitCall
    case Closing => CloseCall
    case _ => Nothing
  }

  /** The call that the refresh job makes next. */
  function JobCall(hash: string -> int, s: Session): Call
    requires s.prog.RefreshJob?
  {
    if s.pc.Discover? then Statement(Select)
    else if s.pc.Closing? then CloseCall
    else if s.pc.NextSchema? || s.todo == [] then Nothing
    else
      var key := hash(LockName(s.todo[0]));
      match s.pc
      case TryLock => Statement(TryAdvisoryLock(key))
      case LockedSetPath => Statement(SetLocalPath(TenantFirst(s.todo[0])))
      case Refreshing =>
        if s.view < |s.prog.views| && s.prog.views[s.view] in MATERIALIZED_VIEWS then
          Statement(Refresh(s.todo[0], s.prog.views[s.view]))
        else Nothing
      case RefreshCommit => CommitCall
      case UnlockExec => Statement(AdvisoryUnlock(key))
      case UnlockCommit => CommitCall
      case _ => Nothing
  }

  function CallOf(hash: string -> int, s: Session, ch: Choice): Call {
    if s.prog.RefreshJob? then JobCall(hash, s) else GeneratorCall(s, ch)
  }

  function After(w: World, sid: nat, ch: Choice, call: Call): World
    requires sid in w.sessions
  {
    match call
    case Nothing => w
    case Statement(stmt) => Execute(w, sid, ch.pick, stmt, ch.reply).0
    case CommitCall => Commit(w, sid, ch.reply).0
    case RollbackCall => Rollback(w, sid, ch.reply).0
    case CloseCall => Close(w, sid, ch.reply)
  }

  /** Connections, pool and log are as that call leaves them. */
  predicate SamePool(w: World, w': World) {
    w.conns == w'.conns && w.idle == w'.idle && w.log == w'.log
  }

  lemma GeneratorMakesOneCall(w: World, sid: nat, ch: Choice)
    requires sid in w.sessions
    ensures SamePool(After(w, sid, ch, GeneratorCall(w.sessions[sid], ch)), GeneratorStep(w, sid, ch))
  {
    hide Execute, Commit, Rollback, Close, OpeningStmt, RescopeStmt;
  }

  lemma JobMakesOneCall(hash: string -> int, w: World, sid: nat, ch: Choice)
    requires sid in w.sessions && w.sessions[sid].prog.RefreshJob?
    ensures SamePool(After(w, sid, ch, JobCall(hash, w.sessions[sid])), RefreshStep(hash, w, sid, ch))
  {
    hide Execute, Commit, Rollback, Close, SafeIdentifier;
  }

  lemma StepMakesOneCall(hash: string -> int, w: World, sid: nat, ch: Choice)
    requires sid in w.sessions
    ensures SamePool(After(w, sid, ch, CallOf(hash, w.sessions[sid], ch)), Step(hash, w, Advance(sid, ch)))
  {
    hide After, GeneratorCall, JobCall, GeneratorStep, RefreshStep, SamePool;
    if w.sessions[sid].prog.RefreshJob? {
      JobMakesOneCall(hash, w, sid, ch);
    } else {
      GeneratorMakesOneCall(w, sid, ch);
    }
  }

  // ------------------------------------------------------------------------- locks

  predicate Unlocks(call: Call, key: int) {
    call == Statement(AdvisoryUnlock(key))
  }

  lemma CheckoutKeepsLocks(w: World, sid: nat, pick: nat, id: nat, key: int)
    requires sid in w.sessions && id in w.conns
    ensures var w1 := Checkout(w, sid, pick); id in w1.conns && w1.conns[id].locks == w.conns[id].locks
  {}

  lemma StatementKeepsLocks(w: World, sid: nat, stmt: Stmt, reply: Reply, id: nat, key: int)
    requires sid in w.sessions && HasConn(w, sid) && id in w.conns && stmt != AdvisoryUnlock(key)
    ensures var w' := OnConn(w, sid, stmt, reply).0;
            id in w'.conns ==> w'.conns[id].locks[key] >= w.conns[id].locks[key]
  {}

  lemma CallKeepsLocks(w: World, sid: nat, ch: Choice, call: Call, id: nat, key: int)
    requires sid in w.sessions && id in w.conns && !Unlocks(call, key)
    ensures var w' := After(w, sid, ch, call);
            id in w'.conns ==> w'.conns[id].locks[key] >= w.conns[id].locks[key]
  {
    if call.Statement? {
      CheckoutKeepsLocks(w, sid, ch.pick, id, key);
      var w1 := Checkout(w, sid, ch.pick);
      if HasConn(w1, sid) { StatementKeepsLocks(w1, sid, call.stmt, ch.reply, id, key); }
    }
  }

  /** Whatever happens, a connection gives up a lock only when it is gone or when a worker at
      its unlock runs it with the lock's key. */
  lemma OnlyUnlocksRelease(hash: string -> int, w: World, a: Action, id: nat, key: int)
    ensures var w' := Step(hash, w, a);
            LockRelease.Held(w', id, key) < LockRelease.Held(w, id, key) ==>
              id !in w'.conns
              || (a.Advance? && a.sid in w.sessions && Unlocks(CallOf(hash, w.sessions[a.sid], a.choice), key))
  {
    if a.Advance? && a.sid in w.sessions && id in w.conns && !Unlocks(CallOf(hash, w.sessions[a.sid], a.choice), key) {
      StepMakesOneCall(hash, w, a.sid, a.choice);
      CallKeepsLocks(w, a.sid, a.choice, CallOf(hash, w.sessions[a.sid], a.choice), id, key);
    }
  }

  // -------------------------------------------------- a try-lock whose answer is lost

  /** The server runs the try-lock and grants it, but its answer is an exception. */
  predicate AnswerIsLost(hash: string -> int, w: World, sid: nat, ch: Choice) {
    && sid in w.sessions && w.sessions[sid].prog.RefreshJob? && w.sessions[sid].pc.TryLock?
    && w.sessions[sid].todo != []
    && ch.reply.Error? && ch.reply.applied
    && LockGranted(w, sid, ch.pick, hash(LockName(w.sessions[sid].todo[0])))
    && var w1 := Checkout(w, sid, ch.pick);
       HasConn(w1, sid) && !Begin(w1.conns[w1.sessions[sid].conn.value]).txn.aborted
  }

  /** The connection that then holds the lock. */
  function LockedConn(w: World, sid: nat, ch: Choice): nat
    requires sid in w.sessions && HasConn(Checkout(w, sid, ch.pick), sid)
  {
    Checkout(w, sid, ch.pick).sessions[sid].conn.value
  }

  lemma LostLock(hash: string -> int, w: World, sid: nat, ch: Choice)
    requires AnswerIsLost(hash, w, sid, ch)
    ensures var (id, key) := (LockedConn(w, sid, ch), hash(LockName(w.sessions[sid].todo[0])));
            var w' := Step(hash, w, Advance(sid, ch));
            && sid in w'.sessions && w'.sessions[sid].prog == w.sessions[sid].prog && w'.sessions[sid].pc.Closing?
            && w'.sessions[sid].original == Some(LockError)
            && w'.sessions[sid].conn == Some(id) && id in w'.conns
            && LockRelease.Held(w', id, key) == LockRelease.Held(Checkout(w, sid, ch.pick), id, key) + 1
  {}

  /** The worker goes straight to its close, which returns the connection with the lock: no
      unlock is ever run for it. From then on only another worker's unlock that lands there,
      or the end of the connection, lowers the count (`OnlyUnlocksRelease`). */
  lemma LostAnswerKeepsTheLock(hash: string -> int, w: World, sid: nat, ch: Choice, close: Choice)
    requires AnswerIsLost(hash, w, sid, ch) && close.reply.Done?
    ensures var (id, key) := (LockedConn(w, sid, ch), hash(LockName(w.sessions[sid].todo[0])));
            var w1 := Step(hash, w, Advance(sid, ch));
            var w2 := Step(hash, w1, Advance(sid, close));
            && sid in w1.sessions && CallOf(hash, w1.sessions[sid], close) == CloseCall
            && sid in w2.sessions && w2.sessions[sid].pc.Finished? && w2.sessions[sid].raised == Some(LockError)
            && id in w2.idle
            && LockRelease.Held(w2, id, key) == LockRelease.Held(Checkout(w, sid, ch.pick), id, key) + 1
  {
    LostLock(hash, w, sid, ch);
    var w1 := Step(hash, w, Advance(sid, ch));
    ClosingReturnsTheLock(hash, w1, sid, close);
  }

  // --------------------------------------------------------------- refreshing a view

  /** The statement `e` is run by a worker that holds the lock of its schema on the very
      connection it runs on, and the name resolves in that schema. */
  predicate UnderItsLock(hash: string -> int, w: World, e: Event) {
    && e.Refreshed? && e.sid in w.sessions && e.path == TenantFirst(e.schema)
    && var s := w.sessions[e.sid];
       && s.prog.RefreshJob? && s.pc.Refreshing? && s.todo != [] && s.todo[0] == e.schema
       && s.lockedOn.Some? && s.conn == s.lockedOn && s.lockedOn.value in w.conns
       && w.conns[s.lockedOn.value].locks[hash(LockName(e.schema))] > 0
  }

  /** Of a call only a REFRESH is logged as one. */
  predicate LogsOnly(w: World, w': World, sid: nat, call: Call) {
    && |w.log| <= |w'.log| && w'.log[..|w.log|] == w.log
    && forall i :: |w.log| <= i < |w'.log| && w'.log[i].Refreshed? ==>
                     call == Statement(Refresh(w'.log[i].schema, w'.log[i].view)) && w'.log[i].sid == sid
  }

  lemma StatementLogs(w: World, sid: nat, stmt: Stmt, reply: Reply)
    requires sid in w.sessions && HasConn(w, sid)
    ensures LogsOnly(w, OnConn(w, sid, stmt, reply).0, sid, Statement(stmt))
  {}

  lemma CallLogs(w: World, sid: nat, ch: Choice, call: Call)
    requires sid in w.sessions
    ensures LogsOnly(w, After(w, sid, ch, call), sid, call)
  {
    if call.Statement? {
      var w1 := Checkout(w, sid, ch.pick);
      if HasConn(w1, sid) { StatementLogs(w1, sid, call.stmt, ch.reply); }
    }
  }

  lemma RefreshIsUnderItsLock(hash: string -> int, w: World, sid: nat, ch: Choice, e: Event)
    requires Inv(hash, w) && sid in w.sessions && e.Refreshed? && e.sid == sid && e.path == TenantFirst(e.schema)
    requires CallOf(hash, w.sessions[sid], ch) == Statement(Refresh(e.schema, e.view))
    ensures UnderItsLock(hash, w, e)
  {
    assert PcOk(hash, w, sid);
    assert w.sessions[sid].pc.Refreshing?;
  }

  lemma NewRefreshes(hash: string -> int, w: World, a: Action)
    requires Inv(hash, w)
    ensures var w' := Step(hash, w, a);
            && |w.log| <= |w'.log| && w'.log[..|w.log|] == w.log
            && forall i :: |w.log| <= i < |w'.log| && w'.log[i].Refreshed? ==> UnderItsLock(hash, w, w'.log[i])
  {
    hide After, CallOf, UnderItsLock;
    var w' := Step(hash, w, a);
    if a.Advance? && a.sid in w.sessions {
      var call := CallOf(hash, w.sessions[a.sid], a.choice);
      StepMakesOneCall(hash, w, a.sid, a.choice);
      CallLogs(w, a.sid, a.choice, call);
      PoolSafety.StepKeeps(hash, w, a);
      forall i | |w.log| <= i < |w'.log| && w'.log[i].Refreshed? ensures UnderItsLock(hash, w, w'.log[i]) {
        assert EventOk(w', i);
        RefreshIsUnderItsLock(hash, w, a.sid, a.choice, w'.log[i]);
      }
    }
  }

  /** Every REFRESH that the server runs, in any schedule, is run by a worker that holds the
      lock of its schema on the connection it took it on, and resolves in that schema. */
  lemma {:induction false} RefreshResolvesWhereItLocked(hash: string -> int, schedule: seq<Action>, i: nat)
    requires i < |Run(hash, schedule).log| && Run(hash, schedule).log[i].Refreshed?
    ensures exists n :: 0 <= n < |schedule| && UnderItsLock(hash, Run(hash, schedule[..n]), Run(hash, schedule).log[i])
  {
    var init, a := schedule[..|schedule| - 1], schedule[|schedule| - 1];
    var w := Run(hash, init);
    PoolSafety.RunKeeps(hash, init);
    NewRefreshes(hash, w, a);
    if i < |w.log| {
      RefreshResolvesWhereItLocked(hash, init, i);
      var n :| 0 <= n < |init| && UnderItsLock(hash, Run(hash, init[..n]), w.log[i]);
      assert init[..n] == schedule[..n];
    } else {
      assert schedule[..|schedule| - 1] == init;
    }
  }
}
