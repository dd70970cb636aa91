/**
  What the reset at the end of `get_db` and `get_tenant_db` is worth: the connection it hands
  back, and how its failure shows.
 */
module SessionReset {
  import opened Common
  import opened SharedPool
  import opened PoolSafety
  import opened PoolCalls
  import opened CallTraces
  import LockRelease
  import ErrorPropagation

  // ------------------------------------------------- a connection that a session holds

  lemma NotTheirs(w: World, sid: nat, id: nat, other: nat, pick: nat)
    requires PoolOk(w) && Holds(w, sid, id) && other in w.sessions && other != sid
    ensures id in w.conns && !LockRelease.LandsOn(w, other, pick, id) && w.sessions[other].conn != Some(id)
  {
    if w.sessions[other].conn == Some(id) { assert Holds(w, other, id); }
  }

  lemma TheirCallStays(w: World, sid: nat, id: nat, other: nat, ch: Choice, call: Call)
    requires PoolOk(w) && Holds(w, sid, id) && other in w.sessions && other != sid
    ensures var w' := After(w, other, ch, call); id in w'.conns && w'.conns[id] == w.conns[id]
  {
    NotTheirs(w, sid, id, other, ch.pick);
    if call.Statement? {
      LockRelease.OtherCheckoutStays(w, other, ch.pick, id);
      var w1 := Checkout(w, other, ch.pick);
      if HasConn(w1, other) { LockRelease.OtherConnStays(w1, other, call.stmt, ch.reply, id); }
    }
  }

  /** Nobody else touches the connection a session holds. */
  lemma TheirStepStays(hash: string -> int, w: World, sid: nat, id: nat, a: Action)
    requires PoolOk(w) && Holds(w, sid, id) && !(a.Advance? && a.sid == sid)
    ensures var w' := Step(hash, w, a); Holds(w', sid, id) && id in w'.conns && w'.conns[id] == w.conns[id]
  {
    hide After, CallOf, GeneratorStep, RefreshStep;
    OtherStep(hash, w, a, sid);
    if a.Advance? && a.sid in w.sessions {
      StepMakesOneCall(hash, w, a.sid, a.choice);
      TheirCallStays(w, sid, id, a.sid, a.choice, CallOf(hash, w.sessions[a.sid], a.choice));
    }
  }

  // ----------------------------------------------------------------- opening a session

  /** The session holds a connection in whose open transaction names resolve under `path`. */
  predicate On(w: World, sid: nat, path: SearchPath) {
    && sid in w.sessions && HasConn(w, sid)
    && var txn := w.conns[w.sessions[sid].conn.value].txn;
       txn.Open? && !txn.aborted && txn.effective == path
  }

  /** A body starts with the path that its session is for. */
  lemma OpeningSetsThePath(hash: string -> int, w: World, sid: nat, ch: Choice)
    requires sid in w.sessions && Guarded(w.sessions[sid].prog) && w.sessions[sid].pc.Opening?
    ensures var w' := Step(hash, w, Advance(sid, ch));
            && sid in w'.sessions
            && (w'.sessions[sid].pc.Body? ==>
                  On(w', sid, match w.sessions[sid].prog case TenantDb(t) => TenantFirst(t) case _ => Public))
            && (w'.sessions[sid].pc.Body? || (w'.sessions[sid].pc.Except? && w'.sessions[sid].errors != []))
  {}

  // ------------------------------------------------------------- handing back a connection

  /** Between the two calls of the reset. */
  predicate HalfReset(w: World, sid: nat) {
    && sid in w.sessions && HasConn(w, sid)
    && var txn := w.conns[w.sessions[sid].conn.value].txn;
       txn.Open? && !txn.aborted && txn.onCommit.Public?
  }

  ghost predicate ResetsOk(w: World) {
    forall sid :: sid in w.sessions && w.sessions[sid].pc.ResetCommit? ==> HalfReset(w, sid)
  }

  lemma SetHalfResets(w: World, sid: nat, ch: Choice)
    requires sid in w.sessions && w.sessions[sid].pc.ResetSet?
    ensures var w' := GeneratorStep(w, sid, ch);
            sid in w'.sessions && (w'.sessions[sid].pc.ResetCommit? ==> HalfReset(w', sid))
  {}

  lemma OnlySetLeadsThere(w: World, sid: nat, ch: Choice)
    requires sid in w.sessions && !w.sessions[sid].pc.ResetSet? && !w.sessions[sid].pc.ResetCommit?
    ensures var w' := GeneratorStep(w, sid, ch); sid in w'.sessions && !w'.sessions[sid].pc.ResetCommit?
  {
    hide Execute, Commit, Rollback, Close, OpeningStmt, RescopeStmt;
  }

  lemma CommitLeaves(w: World, sid: nat, ch: Choice)
    requires sid in w.sessions && w.sessions[sid].pc.ResetCommit?
    ensures var w' := GeneratorStep(w, sid, ch); sid in w'.sessions && w'.sessions[sid].pc.Closing?
  {
    hide Commit;
  }

  lemma StepKeepsResets(hash: string -> int, w: World, a: Action)
    requires PoolOk(w) && ErrorPropagation.AllErrorsOk(w) && ResetsOk(w)
    ensures ResetsOk(Step(hash, w, a))
  {
    hide Step, PoolOk, HalfReset, ErrorPropagation.ErrorsOk;
    var w' := Step(hash, w, a);
    ErrorPropagation.StepKeeps(hash, w, a);
    forall sid | sid in w'.sessions && w'.sessions[sid].pc.ResetCommit? ensures HalfReset(w', sid) {
      StepKeepsReset(hash, w, a, sid);
    }
  }

  lemma StepKeepsReset(hash: string -> int, w: World, a: Action, sid: nat)
    requires PoolOk(w) && ResetsOk(w)
    requires ErrorPropagation.AllErrorsOk(Step(hash, w, a))
    requires sid in Step(hash, w, a).sessions && Step(hash, w, a).sessions[sid].pc.ResetCommit?
    ensures HalfReset(Step(hash, w, a), sid)
  {
    hide PoolOk, GeneratorStep, RefreshStep;
    var w' := Step(hash, w, a);
    assert ErrorPropagation.ErrorsOk(w'.sessions[sid]);
    if sid !in w.sessions {
      OnlySpawnCreates(hash, w, a, sid);
      assert false;
    } else if a.Advance? && a.sid == sid {
      StaysThere(hash, w, a, sid);
      var pc := w.sessions[sid].pc;
      if pc.ResetSet? {
        SetHalfResets(w, sid, a.choice);
      } else if pc.ResetCommit? {
        CommitLeaves(w, sid, a.choice);
      } else {
        OnlySetLeadsThere(w, sid, a.choice);
      }
    } else {
      OtherStep(hash, w, a, sid);
      assert Holds(w, sid, w.sessions[sid].conn.value);
      TheirStepStays(hash, w, sid, w.sessions[sid].conn.value, a);
    }
  }

  lemma {:induction false} RunKeepsResets(hash: string -> int, schedule: seq<Action>)
    ensures ResetsOk(Run(hash, schedule))
  {
    hide Step, Inv, BaseOk, PoolOk, ErrorPropagation.AllErrorsOk;
    if schedule != [] {
      var init := schedule[..|schedule| - 1];
      RunKeepsResets(hash, init);
      RunKeeps(hash, init);
      InvIsPoolOk(hash, Run(hash, init));
      ErrorPropagation.RunKeepsErrors(hash, init);
      StepKeepsResets(hash, Run(hash, init), schedule[|schedule| - 1]);
    }
  }

  lemma InvIsPoolOk(hash: string -> int, w: World)
    ensures Inv(hash, w) ==> PoolOk(w)
  {}

  // ---------------------------------------------------------------------- main theorems

  /** The action takes a guarded session to its close without an exception. */
  predicate EndsCleanly(hash: string -> int, w: World, a: Action, sid: nat) {
    && a.Advance? && a.sid == sid && sid in w.sessions
    && Guarded(w.sessions[sid].prog) && !w.sessions[sid].pc.Closing?
    && var w' := Step(hash, w, a);
       sid in w'.sessions && w'.sessions[sid].pc.Closing? && w'.sessions[sid].errors == w.sessions[sid].errors
  }

  /** The session gives up the connection it has, and that is idle now with the public path. */
  predicate HandsBackPublic(w: World, w': World, sid: nat) {
    && sid in w.sessions && w.sessions[sid].conn.Some?
    && var id := w.sessions[sid].conn.value;
       id in w'.idle && id in w'.conns && w'.conns[id].txn.NoTxn? && w'.conns[id].sessionPath.Public?
  }

  lemma LastStepHandsBack(w: World, sid: nat, ch: Choice)
    requires HalfReset(w, sid) && w.sessions[sid].pc.ResetCommit?
    ensures var w' := GeneratorStep(w, sid, ch);
            && sid in w'.sessions && w'.sessions[sid].pc.Closing?
            && (w'.sessions[sid].errors == w.sessions[sid].errors ==> HandsBackPublic(w, w', sid))
            && (ResetError in w'.sessions[sid].errors <==>
                  ResetError in w.sessions[sid].errors || w'.sessions[sid].errors != w.sessions[sid].errors)
  {}

  lemma OtherwiseNoClose(w: World, sid: nat, ch: Choice)
    requires sid in w.sessions && Guarded(w.sessions[sid].prog) && !w.sessions[sid].pc.Closing?
    requires !w.sessions[sid].pc.ResetCommit?
    ensures var w' := GeneratorStep(w, sid, ch);
            && sid in w'.sessions
            && (w'.sessions[sid].pc.Closing? ==>
                  w'.sessions[sid].errors == w.sessions[sid].errors + [ResetError] || w.sessions[sid].pc.Finished?)
  {
    hide Execute, Commit, Rollback, Close, OpeningStmt, RescopeStmt;
  }

  lemma CleanEnd(hash: string -> int, w: World, a: Action, sid: nat)
    requires ResetsOk(w) && ErrorPropagation.AllErrorsOk(w)
    requires a.Advance? && a.sid == sid && sid in w.sessions
    requires Guarded(w.sessions[sid].prog) && !w.sessions[sid].pc.Closing? && !w.sessions[sid].pc.Finished?
    ensures var w' := Step(hash, w, a);
            && sid in w'.sessions
            && ResetError !in w.sessions[sid].errors
            && (EndsCleanly(hash, w, a, sid) ==> HandsBackPublic(w, w', sid))
            && (w'.sessions[sid].pc.Closing? ==>
                  (ResetError !in w'.sessions[sid].errors <==> EndsCleanly(hash, w, a, sid)))
  {
    hide GeneratorStep;
    var s := w.sessions[sid];
    assert ErrorPropagation.ErrorsOk(s);
    assert forall i :: 0 <= i < |s.errors| ==> ErrorPropagation.Stage(s.errors[i]) <= ErrorPropagation.StageAt(s.pc);
    if s.pc.ResetCommit? {
      LastStepHandsBack(w, sid, a.choice);
    } else {
      OtherwiseNoClose(w, sid, a.choice);
    }
  }

  /** In every reachable world, a `get_db` or `get_tenant_db` that comes to its close without
      a further exception has just handed back its connection: that is in the pool, without
      a transaction, and its search path is public. */
  lemma CleanEndHandsBackPublic(hash: string -> int, schedule: seq<Action>, a: Action, sid: nat)
    requires EndsCleanly(hash, Run(hash, schedule), a, sid)
    ensures HandsBackPublic(Run(hash, schedule), Step(hash, Run(hash, schedule), a), sid)
  {
    hide Run, Step, HandsBackPublic;
    var w := Run(hash, schedule);
    RunKeepsResets(hash, schedule);
    ErrorPropagation.RunKeepsErrors(hash, schedule);
    if w.sessions[sid].pc.Finished? {
      FinishedStays(hash, w, sid, a.choice);
    }
    CleanEnd(hash, w, a, sid);
  }

  lemma FinishedStays(hash: string -> int, w: World, sid: nat, ch: Choice)
    requires sid in w.sessions && w.sessions[sid].pc.Finished?
    ensures Step(hash, w, Advance(sid, ch)) == w
  {}

  /** The `n`-th action of the schedule resets session `sid`. */
  predicate ResetAt(hash: string -> int, schedule: seq<Action>, n: nat, sid: nat)
    requires n < |schedule|
  {
    var w := Run(hash, schedule[..n]);
    EndsCleanly(hash, w, schedule[n], sid) && HandsBackPublic(w, Step(hash, w, schedule[n]), sid)
  }

  ghost predicate WasReset(hash: string -> int, schedule: seq<Action>, sid: nat) {
    exists n :: 0 <= n < |schedule| && ResetAt(hash, schedule, n, sid)
  }

  lemma WasResetStep(hash: string -> int, schedule: seq<Action>, sid: nat)
    requires schedule != []
    ensures var init := schedule[..|schedule| - 1];
            WasReset(hash, schedule, sid) <==> WasReset(hash, init, sid) || ResetAt(hash, schedule, |init|, sid)
  {
    hide Run, Step, EndsCleanly, HandsBackPublic;
    var init := schedule[..|schedule| - 1];
    forall n | 0 <= n < |init| ensures ResetAt(hash, init, n, sid) <==> ResetAt(hash, schedule, n, sid) {
      assert init[..n] == schedule[..n];
    }
    if WasReset(hash, init, sid) {
      var n :| 0 <= n < |init| && ResetAt(hash, init, n, sid);
      assert ResetAt(hash, schedule, n, sid);
    }
    if WasReset(hash, schedule, sid) && !ResetAt(hash, schedule, |init|, sid) {
      var n :| 0 <= n < |schedule| && ResetAt(hash, schedule, n, sid);
      assert ResetAt(hash, init, n, sid);
    }
  }

  /** Before its close a session has not been reset; from then on it shows in the errors. */
  ghost predicate Shows(hash: string -> int, schedule: seq<Action>, s: Session, sid: nat) {
    if s.pc.Closing? || s.pc.Finished? then ResetError !in s.errors <==> WasReset(hash, schedule, sid)
    else !WasReset(hash, schedule, sid)
  }

  lemma {:induction false} ResetShows(hash: string -> int, schedule: seq<Action>, sid: nat)
    requires sid in Run(hash, schedule).sessions && Guarded(Run(hash, schedule).sessions[sid].prog)
    ensures Shows(hash, schedule, Run(hash, schedule).sessions[sid], sid)
  {
    hide Step, HandsBackPublic, ResetsOk, ErrorPropagation.AllErrorsOk;
    var init, a := schedule[..|schedule| - 1], schedule[|schedule| - 1];
    var w := Run(hash, init);
    WasResetStep(hash, schedule, sid);
    if sid !in w.sessions {
      OnlySpawnCreates(hash, w, a, sid);
      NotYetReset(hash, init, sid);
    } else {
      StaysThere(hash, w, a, sid);
      ResetShows(hash, init, sid);
      if a.Advance? && a.sid == sid {
        RunKeepsResets(hash, init);
        ErrorPropagation.RunKeepsErrors(hash, init);
        OwnStepShows(hash, w, a, sid);
      } else {
        OtherStep(hash, w, a, sid);
      }
    }
  }

  lemma {:induction false} NotYetReset(hash: string -> int, schedule: seq<Action>, sid: nat)
    requires sid !in Run(hash, schedule).sessions
    ensures !WasReset(hash, schedule, sid)
  {
    hide Step, HandsBackPublic;
    if schedule != [] {
      var init, a := schedule[..|schedule| - 1], schedule[|schedule| - 1];
      if sid in Run(hash, init).sessions { StaysThere(hash, Run(hash, init), a, sid); }
      NotYetReset(hash, init, sid);
      WasResetStep(hash, schedule, sid);
    }
  }

  /** One step of the session itself. */
  lemma OwnStepShows(hash: string -> int, w: World, a: Action, sid: nat)
    requires ResetsOk(w) && ErrorPropagation.AllErrorsOk(w)
    requires a.Advance? && a.sid == sid && sid in w.sessions && Guarded(w.sessions[sid].prog)
    ensures var w' := Step(hash, w, a);
            && sid in w'.sessions
            && var (s, s') := (w.sessions[sid], w'.sessions[sid]);
               if s.pc.Closing? || s.pc.Finished? then
                 && !EndsCleanly(hash, w, a, sid) && s'.pc.Finished?
                 && (ResetError in s'.errors <==> ResetError in s.errors)
               else
                 && (EndsCleanly(hash, w, a, sid) ==> HandsBackPublic(w, w', sid)) && !s'.pc.Finished?
                 && (s'.pc.Closing? ==> (ResetError !in s'.errors <==> EndsCleanly(hash, w, a, sid)))
                 && (!s'.pc.Closing? ==> !EndsCleanly(hash, w, a, sid))
  {
    hide HandsBackPublic, ResetsOk, ErrorPropagation.AllErrorsOk;
    var s := w.sessions[sid];
    if s.pc.Finished? {
      FinishedStays(hash, w, sid, a.choice);
    } else if s.pc.Closing? {
      var e := Step(hash, w, a).sessions[sid].errors;
      assert e == s.errors + [] || e == s.errors + [CloseError];
    } else {
      CleanEnd(hash, w, a, sid);
      NotAtOnce(w, sid, a.choice);
    }
  }

  lemma NotAtOnce(w: World, sid: nat, ch: Choice)
    requires sid in w.sessions && !w.sessions[sid].pc.Closing? && !w.sessions[sid].pc.Finished?
    ensures var w' := GeneratorStep(w, sid, ch); sid in w'.sessions && !w'.sessions[sid].pc.Finished?
  {
    hide Execute, Commit, Rollback, Close, OpeningStmt, RescopeStmt;
  }

  /** For every schedule: a finished `get_db` or `get_tenant_db` did not fail in its reset if
      and only if some action of the schedule ended its work by handing back an idle
      connection with the public path. */
  lemma ResetFailedExactlyWhen(hash: string -> int, schedule: seq<Action>, sid: nat)
    requires sid in Run(hash, schedule).sessions
    requires Guarded(Run(hash, schedule).sessions[sid].prog) && Run(hash, schedule).sessions[sid].pc.Finished?
    ensures ResetError !in Run(hash, schedule).sessions[sid].errors <==>
            exists n :: 0 <= n < |schedule| && ResetAt(hash, schedule, n, sid)
  {
    hide Run, Step, ResetAt;
    ResetShows(hash, schedule, sid);
  }
}
