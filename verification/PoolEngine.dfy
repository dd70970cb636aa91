/**
  The pool as the running process has it: maps that the awaited calls update in
  place. Every method is proved to do what `SharedPool` says of the same call, so the
  theorems of `PoolSafety` are about this engine.
 */
module PoolEngine {
  import opened Common
  import opened SharedPool
  import ErrorPropagation
  import PoolSafety

  class Engine {
    const hash: string -> int
    var conns: map<nat, Conn>
    var idle: set<nat>
    var sessions: map<nat, Session>
    var log: seq<Event>

    function View(): World
      reads this
    {
      World(conns, idle, sessions, log)
    }

    /** Pool, locks, scopes and program counters fit together. */
    ghost predicate Valid()
      reads this
    {
      PoolSafety.Inv(hash, View())
    }

    constructor (hash: string -> int)
      ensures View() == EMPTY_WORLD && this.hash == hash && Valid()
    {
      this.hash := hash;
      conns, idle, sessions, log := map[], {}, map[], [];
    }

    method Store(sid: nat, id: nat, c: Conn, fate: Fate, seen: seq<Event>)
      requires sid in sessions
      modifies this
      ensures View() == Put(old(View()), sid, id, c, fate, seen)
    {
      if fate.Dropped? {
        conns := conns - {id};
      } else {
        conns := conns[id := c];
      }
      idle := if fate.Returned? then idle + {id} else idle - {id};
      sessions := sessions[sid := sessions[sid].(conn := if fate.Held? then Some(id) else None)];
      log := log + seen;
    }

    method Borrow(sid: nat, pick: nat)
      requires sid in sessions
      modifies this
      ensures View() == Checkout(old(View()), sid, pick)
    {
      if sessions[sid].conn.None? {
        if pick in idle && pick in conns {
          Store(sid, pick, conns[pick], Held, []);
        } else if pick !in conns {
          Store(sid, pick, FRESH_CONN, Held, []);
        }
      }
    }

    method Exec(sid: nat, pick: nat, stmt: Stmt, reply: Reply) returns (ok: bool)
      requires sid in sessions
      modifies this
      ensures (View(), ok) == Execute(old(View()), sid, pick, stmt, reply)
      ensures ok ==> sessions[sid].conn.Some?
    {
      Borrow(sid, pick);
      ok := false;
      if sessions[sid].conn.Some? && sessions[sid].conn.value in conns {
        var id := sessions[sid].conn.value;
        var c := Begin(conns[id]);
        if reply.Lost? {
          Store(sid, id, c, Dropped, [Ended(sid)]);
        } else if !c.txn.aborted {
          var after := Effect(c, stmt, Grants(View(), id, stmt));
          if reply.Done? {
            Store(sid, id, after, Held, EventOf(sid, c, stmt));
            ok := true;
          } else if reply.applied {
            Store(sid, id, after.(txn := after.txn.(aborted := reply.aborts)), Held, EventOf(sid, c, stmt));
          } else {
            Store(sid, id, c.(txn := c.txn.(aborted := reply.aborts)), Held, []);
          }
        }
      }
    }

    /** Commit and rollback differ only in what they leave on the connection. */
    method Finish(sid: nat, commit: bool, reply: Reply) returns (ok: bool)
      requires sid in sessions
      modifies this
      ensures (View(), ok) ==
              if commit then Commit(old(View()), sid, reply) else Rollback(old(View()), sid, reply)
    {
      ok := true;
      if sessions[sid].conn.Some? && sessions[sid].conn.value in conns {
        var id := sessions[sid].conn.value;
        var c := if commit then Committed(conns[id]) else RolledBack(conns[id]);
        match reply
        case Done => Store(sid, id, c, Returned, [Ended(sid)]);
        case Error(applied, _) =>
          ok := false;
          if applied { Store(sid, id, c, Held, [Ended(sid)]); }
        case Lost =>
          ok := false;
          Store(sid, id, c, Dropped, [Ended(sid)]);
      }
    }

    /** Closing the session; whatever the reply, the connection is given up. */
    method CloseSession(sid: nat, reply: Reply)
      requires sid in sessions
      modifies this
      ensures View() == CloseStep(old(View()), sid, reply)
      ensures sessions[sid].pc.Finished? && !HasConn(View(), sid)
    {
      var raises := false;
      if sessions[sid].conn.Some? && sessions[sid].conn.value in conns {
        var id := sessions[sid].conn.value;
        Store(sid, id, RolledBack(conns[id]), if reply.Done? then Returned else Dropped, [Ended(sid)]);
        raises := reply.Error?;
      }
      var s := sessions[sid];
      var more := if raises then [CloseError] else [];
      sessions := sessions[sid := s.(pc := Finished, errors := s.errors + more, raised := Propagated(s, raises))];
    }

    method Jump(sid: nat, pc: Pc)
      requires sid in sessions
      modifies this`sessions
      ensures View() == Goto(old(View()), sid, pc)
    {
      sessions := sessions[sid := sessions[sid].(pc := pc)];
    }

    method RaiseTo(sid: nat, pc: Pc, cause: Cause)
      requires sid in sessions
      modifies this`sessions
      ensures View() == SharedPool.Fail(old(View()), sid, pc, cause)
    {
      var s := sessions[sid];
      sessions := sessions[sid := s.(pc := pc, original := Some(cause), errors := s.errors + [cause])];
    }

    /** The rollback in the handler raised; only the guarded generators keep the original. */
    method RollbackRaised(sid: nat)
      requires sid in sessions
      modifies this`sessions
      ensures View() == RollbackFail(old(View()), sid)
    {
      var s := sessions[sid];
      s := s.(pc := Epilogue(s), errors := s.errors + [RollbackError]);
      if !Guarded(s.prog) { s := s.(original := Some(RollbackError)); }
      sessions := sessions[sid := s];
    }

    method RememberCleanup(sid: nat)
      requires sid in sessions
      modifies this`sessions
      ensures View() == CleanupFail(old(View()), sid)
    {
      var s := sessions[sid];
      s := s.(pc := Closing, errors := s.errors + [ResetError]);
      if s.original.None? { s := s.(cleanup := Some(ResetError)); }
      sessions := sessions[sid := s];
    }

    method NextOne(sid: nat)
      requires sid in sessions && sessions[sid].todo != []
      modifies this`sessions
      ensures View() == PopSchema(old(View()), sid)
    {
      var s := sessions[sid];
      sessions := sessions[sid := s.(pc := NextSchema, todo := s.todo[1..], view := 0)];
    }

    // The steps of the model keep the invariant.

    lemma BodyKeeps(sid: nat, ch: Choice)
      requires sid in sessions
      ensures Valid() && sessions[sid].pc.Body? && !sessions[sid].prog.RefreshJob? ==>
                PoolSafety.Inv(hash, BodyStep(View(), sid, ch))
    {
      hide PoolSafety.Inv, BodyStep;
      if Valid() && sessions[sid].pc.Body? && !sessions[sid].prog.RefreshJob? {
        PoolSafety.BodyStepKeeps(hash, View(), sid, ch);
      }
    }

    lemma GeneratorKeeps(sid: nat, ch: Choice)
      requires sid in sessions
      ensures Valid() && !sessions[sid].prog.RefreshJob? ==> PoolSafety.Inv(hash, GeneratorStep(View(), sid, ch))
    {
      hide PoolSafety.Inv, GeneratorStep;
      if Valid() && !sessions[sid].prog.RefreshJob? { PoolSafety.GeneratorStepKeeps(hash, View(), sid, ch); }
    }

    lemma SchemaStepKeeps(sid: nat, ch: Choice)
      requires sid in sessions && sessions[sid].prog.RefreshJob? && sessions[sid].todo != []
      ensures Valid() ==>
                PoolSafety.Inv(hash, CurrentSchemaStep(hash(LockName(sessions[sid].todo[0])), View(), sid, ch))
    {
      hide PoolSafety.Inv, CurrentSchemaStep;
      if Valid() { PoolSafety.CurrentSchemaStepKeeps(hash, View(), sid, ch); }
    }

    lemma JobKeeps(sid: nat, ch: Choice)
      requires sid in sessions && sessions[sid].prog.RefreshJob?
      ensures Valid() ==> PoolSafety.Inv(hash, RefreshStep(hash, View(), sid, ch))
    {
      hide PoolSafety.Inv, RefreshStep;
      if Valid() { PoolSafety.RefreshStepKeeps(hash, View(), sid, ch); }
    }

    lemma StepKeeps(a: Action)
      ensures Valid() ==> PoolSafety.Inv(hash, Step(hash, View(), a))
    {
      hide PoolSafety.Inv, Step;
      if Valid() { PoolSafety.StepKeeps(hash, View(), a); }
    }

    /** The code of the request handler, between the `yield` and the epilogue. */
    method RunBody(sid: nat, ch: Choice)
      requires sid in sessions
      modifies this
      ensures View() == BodyStep(old(View()), sid, ch)
      ensures old(Valid() && sessions[sid].pc.Body? && !sessions[sid].prog.RefreshJob?) ==> Valid()
    {
      BodyKeeps(sid, ch);
      var s := sessions[sid];
      match ch.op
      case Query => var _ := Exec(sid, ch.pick, Select, ch.reply);
      case BodyCommit => var _ := Finish(sid, true, ch.reply);
      case BodyRollback => var _ := Finish(sid, false, ch.reply);
      case Rescope => var _ := Exec(sid, ch.pick, RescopeStmt(s), ch.reply);
      case Return => Jump(sid, FinalCommit);
      case Raise => RaiseTo(sid, HandlerOf(s, ch.base), BodyError);
    }

    /** One step of `get_db`, `get_platform_db` or `get_tenant_db`. */
    method Generator(sid: nat, ch: Choice)
      requires sid in sessions
      modifies this
      ensures View() == GeneratorStep(old(View()), sid, ch)
      ensures old(Valid() && !sessions[sid].prog.RefreshJob?) ==> Valid()
    {
      GeneratorKeeps(sid, ch);
      var s := sessions[sid];
      match s.pc
      case Opening =>
        var ok := Exec(sid, ch.pick, OpeningStmt(s), ch.reply);
        if ok { Jump(sid, Body); } else { RaiseTo(sid, Except, OpenError); }
      case Body => RunBody(sid, ch);
      case FinalCommit =>
        var ok := Finish(sid, true, ch.reply);
        if ok { Jump(sid, Epilogue(s)); } else { RaiseTo(sid, HandlerOf(s, ch.base), CommitError); }
      case Except =>
        var ok := Finish(sid, false, ch.reply);
        if ok { Jump(sid, Epilogue(s)); } else { RollbackRaised(sid); }
      case ResetSet =>
        var ok := Exec(sid, ch.pick, SetPath(Public), ch.reply);
        if ok { Jump(sid, ResetCommit); } else { RememberCleanup(sid); }
      case ResetCommit =>
        var ok := Finish(sid, true, ch.reply);
        if ok { Jump(sid, Closing); } else { RememberCleanup(sid); }
      case Closing => CloseSession(sid, ch.reply);
      case _ =>
    }

    /** One step of the loop body of the refresh job, on the schema `todo[0]`. */
    method RefreshOne(sid: nat, ch: Choice)
      requires sid in sessions && sessions[sid].prog.RefreshJob? && sessions[sid].todo != []
      modifies this
      ensures View() == CurrentSchemaStep(hash(LockName(old(sessions)[sid].todo[0])), old(View()), sid, ch)
      ensures old(Valid()) ==> Valid()
    {
      SchemaStepKeeps(sid, ch);
      var s := sessions[sid];
      var key := hash(LockName(s.todo[0]));
      match s.pc
      case TryLock =>
        var granted := LockGranted(View(), sid, ch.pick, key);
        var ok := Exec(sid, ch.pick, TryAdvisoryLock(key), ch.reply);
        if !ok { RaiseTo(sid, Closing, LockError); }
        else if granted {
          sessions := sessions[sid := sessions[sid].(pc := LockedSetPath, lockedOn := sessions[sid].conn)];
        }
        else { NextOne(sid); }
      case LockedSetPath =>
        var ok := Exec(sid, ch.pick, SetLocalPath(TenantFirst(s.todo[0])), ch.reply);
        if ok { Jump(sid, Refreshing); } else { RaiseTo(sid, UnlockExec, PathError); }
      case Refreshing =>
        if s.view >= |s.prog.views| { Jump(sid, RefreshCommit); }
        else if s.prog.views[s.view] !in MATERIALIZED_VIEWS { RaiseTo(sid, UnlockExec, ViewError); }
        else {
          var ok := Exec(sid, ch.pick, Refresh(s.todo[0], s.prog.views[s.view]), ch.reply);
          if ok {
            sessions := sessions[sid := sessions[sid].(view := s.view + 1)];
          } else {
            RaiseTo(sid, UnlockExec, RefreshError);
          }
        }
      case RefreshCommit =>
        var ok := Finish(sid, true, ch.reply);
        if ok { Jump(sid, UnlockExec); } else { RaiseTo(sid, UnlockExec, CommitError); }
      case UnlockExec =>
        var ok := Exec(sid, ch.pick, AdvisoryUnlock(key), ch.reply);
        if ok { Jump(sid, UnlockCommit); } else { RaiseTo(sid, Closing, UnlockError); }
      case UnlockCommit =>
        var ok := Finish(sid, true, ch.reply);
        if !ok { RaiseTo(sid, Closing, UnlockError); }
        else if s.original.Some? { Jump(sid, Closing); }
        else { NextOne(sid); }
      case _ =>
    }

    /** One step of `refresh_materialized_views`. */
    method RefreshViews(sid: nat, ch: Choice)
      requires sid in sessions && sessions[sid].prog.RefreshJob?
      modifies this
      ensures View() == RefreshStep(hash, old(View()), sid, ch)
      ensures old(Valid()) ==> Valid()
    {
      JobKeeps(sid, ch);
      var s := sessions[sid];
      match s.pc
      case Discover =>
        var ok := Exec(sid, ch.pick, Select, ch.reply);
        if ok {
          sessions := sessions[sid := sessions[sid].(pc := NextSchema, todo := ch.found)];
        } else {
          RaiseTo(sid, Closing, DiscoverError);
        }
      case NextSchema =>
        if s.todo == [] { Jump(sid, Closing); }
        else if SafeIdentifier(s.todo[0]) { Jump(sid, TryLock); }
        else { RaiseTo(sid, Closing, NameError); }
      case Closing => CloseSession(sid, ch.reply);
      case _ =>
        if s.todo != [] { RefreshOne(sid, ch); }
    }

    /** One scheduled action. */
    method Act(a: Action)
      modifies this
      ensures View() == Step(hash, old(View()), a)
      ensures old(Valid()) ==> Valid()
    {
      StepKeeps(a);
      match a
      case Spawn(sid, prog) =>
        if sid !in sessions && Started(prog).Some? {
          sessions := sessions[sid := Started(prog).value];
        }
      case Advance(sid, ch) =>
        if sid in sessions {
          if sessions[sid].prog.RefreshJob? { RefreshViews(sid, ch); } else { Generator(sid, ch); }
        }
      case Evict(id) =>
        if id in idle { conns, idle := conns - {id}, idle - {id}; }
    }
  }

  /** What every run of the model promises about its last world. */
  ghost predicate Promises(w: World) {
    && (forall id :: id in w.idle ==>
          id in w.conns && w.conns[id].txn.NoTxn? && !w.conns[id].sessionPath.TenantFirst?)
    && (forall i :: 0 <= i < |w.log| && w.log[i].Resolved? && w.log[i].path.TenantFirst? ==>
          w.log[i].sid in w.sessions && w.sessions[w.log[i].sid].prog == TenantDb(w.log[i].path.schema))
    && (forall sid :: sid in w.sessions && Guarded(w.sessions[sid].prog) && w.sessions[sid].pc.Finished? ==>
          w.sessions[sid].raised == ErrorPropagation.First(w.sessions[sid].errors))
  }

  lemma RunsPromise(hash: string -> int, schedule: seq<Action>)
    ensures Promises(Run(hash, schedule))
  {
    hide Run;
    var w := Run(hash, schedule);
    PoolSafety.PooledConnectionsAreClean(hash, schedule);
    forall i | 0 <= i < |w.log| && w.log[i].Resolved? && w.log[i].path.TenantFirst?
      ensures w.log[i].sid in w.sessions && w.sessions[w.log[i].sid].prog == TenantDb(w.log[i].path.schema)
    {
      PoolSafety.NeverAnotherTenant(hash, schedule, i);
    }
    forall sid | sid in w.sessions && Guarded(w.sessions[sid].prog) && w.sessions[sid].pc.Finished?
      ensures w.sessions[sid].raised == ErrorPropagation.First(w.sessions[sid].errors)
    {
      ErrorPropagation.FirstErrorPropagates(hash, schedule, sid);
    }
  }

  lemma OneMoreAction(hash: string -> int, schedule: seq<Action>, i: nat)
    requires i < |schedule|
    ensures Run(hash, schedule[..i + 1]) == Step(hash, Run(hash, schedule[..i]), schedule[i])
  {
    assert schedule[..i + 1] == schedule[..i] + [schedule[i]];
    PoolSafety.RunSnoc(hash, schedule[..i], schedule[i]);
  }

  /** A whole schedule on a new engine: it ends in the modelled world, and whatever the
      interleaving and the failures, nothing idle carries a tenant, no name was resolved in
      another tenant's schema, and a guarded session that is over raised its first error. */
  method Drive(hash: string -> int, schedule: seq<Action>) returns (e: Engine)
    ensures fresh(e) && e.View() == Run(hash, schedule) && e.Valid() && Promises(e.View())
  {
    hide Step, Promises, PoolSafety.Inv;
    e := new Engine(hash);
    for i := 0 to |schedule|
      invariant fresh(e) && e.hash == hash && e.Valid() && e.View() == Run(hash, schedule[..i])
    {
      OneMoreAction(hash, schedule, i);
      e.Act(schedule[i]);
    }
    assert schedule[..|schedule|] == schedule;
    RunsPromise(hash, schedule);
  }
}
