/**
  Which exception leaves a session. `get_db` and `get_tenant_db` remember the first one
  while they clean up; `get_platform_db` and the refresh job do not.
 */
module ErrorPropagation {
  import opened Common
  import opened SharedPool
  import opened PoolSafety

  /** Exceptions come in the order of these stages, at most one in each: work, handler,
      reset, close. */
  function Stage(c: Cause): nat {
    match c
    case RollbackError => 1
    case UnlockError => 1
    case ResetError => 2
    case CloseError => 3
    case _ => 0
  }

  ghost predicate InStages(errors: seq<Cause>) {
    forall i, j :: 0 <= i < j < |errors| ==> Stage(errors[i]) < Stage(errors[j])
  }

  ghost predicate UpTo(errors: seq<Cause>, stage: nat) {
    forall i :: 0 <= i < |errors| ==> Stage(errors[i]) <= stage
  }

  function First(errors: seq<Cause>): Option<Cause> {
    if errors == [] then None else Some(errors[0])
  }

  function Last(errors: seq<Cause>): Option<Cause> {
    if errors == [] then None else Some(errors[|errors| - 1])
  }

  /** What the program will raise if closing raises nothing. */
  function Remembered(s: Session): Option<Cause> {
    Propagated(s, false)
  }

  function Due(s: Session): Option<Cause> {
    if Guarded(s.prog) then First(s.errors) else Last(s.errors)
  }

  /** How far cleaning up has got when the program stands at `pc`. */
  function StageAt(pc: Pc): nat {
    match pc
    case Except => 0
    case UnlockExec => 0
    case UnlockCommit => 0
    case ResetSet => 1
    case ResetCommit => 1
    case _ => 2
  }

  predicate Working(pc: Pc) {
    pc.Opening? || pc.Body? || pc.FinalCommit? || pc.Discover? || pc.NextSchema? || pc.TryLock?
    || pc.LockedSetPath? || pc.Refreshing? || pc.RefreshCommit?
  }

  /** The program counters of each program. */
  predicate PcFits(prog: Program, pc: Pc) {
    match prog
    case RefreshJob(_, _) =>
      pc.Discover? || pc.NextSchema? || pc.TryLock? || pc.LockedSetPath? || pc.Refreshing? || pc.RefreshCommit?
      || pc.UnlockExec? || pc.UnlockCommit? || pc.Closing? || pc.Finished?
    case PlatformDb => pc.Body? || pc.FinalCommit? || pc.Except? || pc.Closing? || pc.Finished?
    case _ =>
      pc.Opening? || pc.Body? || pc.FinalCommit? || pc.Except? || pc.ResetSet? || pc.ResetCommit? || pc.Closing?
      || pc.Finished?
  }

  ghost predicate Pending(s: Session) {
    && UpTo(s.errors, StageAt(s.pc)) && Remembered(s) == Due(s)
    && (s.cleanup.Some? ==> s.pc.Closing?)
    && (Working(s.pc) ==> s.errors == [])
    && (s.errors != [] && !s.pc.Closing? ==> s.original.Some?)
    && (s.pc.Except? ==> s.errors != [])
  }

  ghost predicate ErrorsOk(s: Session) {
    && InStages(s.errors) && PcFits(s.prog, s.pc)
    && (!Guarded(s.prog) ==> ResetError !in s.errors)
    && if s.pc.Finished? then s.raised == Due(s) else Pending(s)
  }

  lemma OneMore(errors: seq<Cause>, c: Cause)
    requires InStages(errors) && forall i :: 0 <= i < |errors| ==> Stage(errors[i]) < Stage(c)
    ensures InStages(errors + [c])
    ensures First(errors + [c]) == if errors == [] then Some(c) else First(errors)
    ensures Last(errors + [c]) == Some(c)
    ensures forall n: nat :: Stage(c) <= n ==> UpTo(errors + [c], n)
  {}

  // ----------------------------------------------------------------- local changes

  /** The two sessions agree in everything that exceptions are about. */
  predicate SameErrors(s: Session, s2: Session) {
    s2.prog == s.prog && s2.original == s.original && s2.cleanup == s.cleanup && s2.errors == s.errors
  }

  lemma Advances(s: Session, s2: Session)
    requires ErrorsOk(s) && SameErrors(s, s2) && PcFits(s2.prog, s2.pc) && !s.pc.Finished? && !s2.pc.Finished?
    requires StageAt(s.pc) <= StageAt(s2.pc) || s.errors == []
    requires (Working(s2.pc) ==> s.errors == []) && (s.pc.Closing? ==> s2.pc.Closing?) && !s2.pc.Except?
    ensures ErrorsOk(s2)
  {}

  /** Work fails, or the unlock does. */
  lemma Raises(s: Session, s2: Session, pc: Pc, c: Cause)
    requires ErrorsOk(s) && PcFits(s.prog, pc) && !s.pc.Finished? && !s.pc.Closing? && !pc.Finished? && !Working(pc)
    requires SameErrors(Failed(s, pc, c), s2) && s2.pc == pc
    requires s.errors == [] || (!Guarded(s.prog) && Stage(c) == 1 && StageAt(s.pc) == 0)
    requires Stage(c) <= StageAt(pc) && !c.ResetError?
    ensures ErrorsOk(s2)
  {
    OneMore(s.errors, c);
  }

  lemma RollbackRaises(s: Session, s2: Session)
    requires ErrorsOk(s) && s.pc.Except? && PcFits(s.prog, Epilogue(s)) && s2.pc == Epilogue(s)
    requires s2.prog == s.prog && s2.cleanup == s.cleanup && s2.errors == s.errors + [RollbackError]
    requires s.errors != []
    requires s2.original == if Guarded(s.prog) then s.original else Some(RollbackError)
    ensures ErrorsOk(s2)
  {
    OneMore(s.errors, RollbackError);
  }

  lemma ResetRaises(s: Session, s2: Session)
    requires ErrorsOk(s) && (s.pc.ResetSet? || s.pc.ResetCommit?) && s2.pc.Closing?
    requires s2.prog == s.prog && s2.original == s.original && s2.errors == s.errors + [ResetError]
    requires s2.cleanup == if s.original.None? then Some(ResetError) else s.cleanup
    ensures ErrorsOk(s2)
  {
    OneMore(s.errors, ResetError);
  }

  lemma Ends(s: Session, s2: Session, raises: bool)
    requires ErrorsOk(s) && s.pc.Closing? && s2.pc.Finished? && s2.prog == s.prog
    requires s2.errors == s.errors + (if raises then [CloseError] else []) && s2.raised == Propagated(s, raises)
    ensures ErrorsOk(s2)
  {
    if raises {
      OneMore(s.errors, CloseError);
    } else {
      assert s2.errors == s.errors;
    }
  }

  // -------------------------------------------------------------------- every step

  lemma BodyKeeps(w: World, sid: nat, ch: Choice)
    requires sid in w.sessions && ErrorsOk(w.sessions[sid]) && w.sessions[sid].pc.Body?
    ensures sid in BodyStep(w, sid, ch).sessions && ErrorsOk(BodyStep(w, sid, ch).sessions[sid])
  {
    var s := w.sessions[sid];
    var s2 := BodyStep(w, sid, ch).sessions[sid];
    if ch.op.Raise? {
      Raises(s, s2, HandlerOf(s, ch.base), BodyError);
    } else {
      Advances(s, s2);
    }
  }

  lemma OpeningKeeps(w: World, sid: nat, ch: Choice)
    requires sid in w.sessions && ErrorsOk(w.sessions[sid]) && w.sessions[sid].pc.Opening?
    ensures sid in GeneratorStep(w, sid, ch).sessions && ErrorsOk(GeneratorStep(w, sid, ch).sessions[sid])
  {
    var s := w.sessions[sid];
    var s2 := GeneratorStep(w, sid, ch).sessions[sid];
    if Execute(w, sid, ch.pick, OpeningStmt(s), ch.reply).1 {
      Advances(s, s2);
    } else {
      Raises(s, s2, Except, OpenError);
    }
  }

  lemma FinalCommitKeeps(w: World, sid: nat, ch: Choice)
    requires sid in w.sessions && ErrorsOk(w.sessions[sid]) && w.sessions[sid].pc.FinalCommit?
    ensures sid in GeneratorStep(w, sid, ch).sessions && ErrorsOk(GeneratorStep(w, sid, ch).sessions[sid])
  {
    var s := w.sessions[sid];
    var s2 := GeneratorStep(w, sid, ch).sessions[sid];
    if Commit(w, sid, ch.reply).1 {
      Advances(s, s2);
    } else {
      Raises(s, s2, HandlerOf(s, ch.base), CommitError);
    }
  }

  lemma ExceptKeeps(w: World, sid: nat, ch: Choice)
    requires sid in w.sessions && ErrorsOk(w.sessions[sid]) && w.sessions[sid].pc.Except?
    ensures sid in GeneratorStep(w, sid, ch).sessions && ErrorsOk(GeneratorStep(w, sid, ch).sessions[sid])
  {
    var s := w.sessions[sid];
    var s2 := GeneratorStep(w, sid, ch).sessions[sid];
    if Rollback(w, sid, ch.reply).1 {
      Advances(s, s2);
    } else {
      RollbackRaises(s, s2);
    }
  }

  lemma ResetKeeps(w: World, sid: nat, ch: Choice)
    requires sid in w.sessions && ErrorsOk(w.sessions[sid])
    requires w.sessions[sid].pc.ResetSet? || w.sessions[sid].pc.ResetCommit?
    ensures sid in GeneratorStep(w, sid, ch).sessions && ErrorsOk(GeneratorStep(w, sid, ch).sessions[sid])
  {
    var s := w.sessions[sid];
    var s2 := GeneratorStep(w, sid, ch).sessions[sid];
    var ok := if s.pc.ResetSet? then Execute(w, sid, ch.pick, SetPath(Public), ch.reply).1
              else Commit(w, sid, ch.reply).1;
    if ok {
      Advances(s, s2);
    } else {
      ResetRaises(s, s2);
    }
  }

  lemma ClosingKeeps(w: World, sid: nat, reply: Reply)
    requires sid in w.sessions && ErrorsOk(w.sessions[sid]) && w.sessions[sid].pc.Closing?
    ensures sid in CloseStep(w, sid, reply).sessions && ErrorsOk(CloseStep(w, sid, reply).sessions[sid])
  {
    Ends(w.sessions[sid], CloseStep(w, sid, reply).sessions[sid], HasConn(w, sid) && reply.Error?);
  }

  lemma GeneratorKeeps(w: World, sid: nat, ch: Choice)
    requires sid in w.sessions && !w.sessions[sid].prog.RefreshJob? && ErrorsOk(w.sessions[sid])
    ensures sid in GeneratorStep(w, sid, ch).sessions && ErrorsOk(GeneratorStep(w, sid, ch).sessions[sid])
  {
    match w.sessions[sid].pc
    case Opening => OpeningKeeps(w, sid, ch);
    case Body => BodyKeeps(w, sid, ch);
    case FinalCommit => FinalCommitKeeps(w, sid, ch);
    case Except => ExceptKeeps(w, sid, ch);
    case ResetSet => ResetKeeps(w, sid, ch);
    case ResetCommit => ResetKeeps(w, sid, ch);
    case Closing => ClosingKeeps(w, sid, ch.reply);
    case _ =>
  }

  lemma DiscoverKeeps(hash: string -> int, w: World, sid: nat, ch: Choice)
    requires sid in w.sessions && w.sessions[sid].prog.RefreshJob? && ErrorsOk(w.sessions[sid])
    requires w.sessions[sid].pc.Discover? || w.sessions[sid].pc.NextSchema?
    ensures sid in RefreshStep(hash, w, sid, ch).sessions && ErrorsOk(RefreshStep(hash, w, sid, ch).sessions[sid])
  {
    var s := w.sessions[sid];
    var s2 := RefreshStep(hash, w, sid, ch).sessions[sid];
    if s.pc.Discover? {
      if Execute(w, sid, ch.pick, Select, ch.reply).1 {
        Advances(s, s2);
      } else {
        Raises(s, s2, Closing, DiscoverError);
      }
    } else if s.todo == [] || SafeIdentifier(s.todo[0]) {
      Advances(s, s2);
    } else {
      Raises(s, s2, Closing, NameError);
    }
  }

  lemma TryLockKeeps(key: int, w: World, sid: nat, ch: Choice)
    requires sid in w.sessions && w.sessions[sid].prog.RefreshJob? && ErrorsOk(w.sessions[sid])
    requires w.sessions[sid].todo != [] && w.sessions[sid].pc.TryLock?
    ensures var w' := CurrentSchemaStep(key, w, sid, ch); sid in w'.sessions && ErrorsOk(w'.sessions[sid])
  {
    var s := w.sessions[sid];
    var s2 := CurrentSchemaStep(key, w, sid, ch).sessions[sid];
    if Execute(w, sid, ch.pick, TryAdvisoryLock(key), ch.reply).1 {
      Advances(s, s2);
    } else {
      Raises(s, s2, Closing, LockError);
    }
  }

  lemma LockedKeeps(key: int, w: World, sid: nat, ch: Choice)
    requires sid in w.sessions && w.sessions[sid].prog.RefreshJob? && ErrorsOk(w.sessions[sid])
    requires w.sessions[sid].todo != [] && (w.sessions[sid].pc.LockedSetPath? || w.sessions[sid].pc.RefreshCommit?)
    ensures var w' := CurrentSchemaStep(key, w, sid, ch); sid in w'.sessions && ErrorsOk(w'.sessions[sid])
  {
    var s := w.sessions[sid];
    var s2 := CurrentSchemaStep(key, w, sid, ch).sessions[sid];
    if s.pc.RefreshCommit? {
      if Commit(w, sid, ch.reply).1 { Advances(s, s2); } else { Raises(s, s2, UnlockExec, CommitError); }
    } else if Execute(w, sid, ch.pick, SetLocalPath(TenantFirst(s.todo[0])), ch.reply).1 {
      Advances(s, s2);
    } else {
      Raises(s, s2, UnlockExec, PathError);
    }
  }

  lemma RefreshingKeeps(key: int, w: World, sid: nat, ch: Choice)
    requires sid in w.sessions && w.sessions[sid].prog.RefreshJob? && ErrorsOk(w.sessions[sid])
    requires w.sessions[sid].todo != [] && w.sessions[sid].pc.Refreshing?
    ensures var w' := CurrentSchemaStep(key, w, sid, ch); sid in w'.sessions && ErrorsOk(w'.sessions[sid])
  {
    var s := w.sessions[sid];
    var s2 := CurrentSchemaStep(key, w, sid, ch).sessions[sid];
    if s.view >= |s.prog.views| {
      Advances(s, s2);
    } else if s.prog.views[s.view] !in MATERIALIZED_VIEWS {
      Raises(s, s2, UnlockExec, ViewError);
    } else if Execute(w, sid, ch.pick, Refresh(s.todo[0], s.prog.views[s.view]), ch.reply).1 {
      Advances(s, s2);
    } else {
      Raises(s, s2, UnlockExec, RefreshError);
    }
  }

  lemma UnlockKeeps(key: int, w: World, sid: nat, ch: Choice)
    requires sid in w.sessions && w.sessions[sid].prog.RefreshJob? && ErrorsOk(w.sessions[sid])
    requires w.sessions[sid].todo != [] && (w.sessions[sid].pc.UnlockExec? || w.sessions[sid].pc.UnlockCommit?)
    ensures var w' := CurrentSchemaStep(key, w, sid, ch); sid in w'.sessions && ErrorsOk(w'.sessions[sid])
  {
    hide Execute, Commit;
    var s := w.sessions[sid];
    var s2 := CurrentSchemaStep(key, w, sid, ch).sessions[sid];
    var ok := if s.pc.UnlockExec? then Execute(w, sid, ch.pick, AdvisoryUnlock(key), ch.reply).1
              else Commit(w, sid, ch.reply).1;
    if ok { Advances(s, s2); } else { Raises(s, s2, Closing, UnlockError); }
  }

  lemma RefreshKeeps(hash: string -> int, w: World, sid: nat, ch: Choice)
    requires sid in w.sessions && w.sessions[sid].prog.RefreshJob? && ErrorsOk(w.sessions[sid])
    ensures sid in RefreshStep(hash, w, sid, ch).sessions && ErrorsOk(RefreshStep(hash, w, sid, ch).sessions[sid])
  {
    var s := w.sessions[sid];
    if s.pc.Discover? || s.pc.NextSchema? {
      DiscoverKeeps(hash, w, sid, ch);
    } else if s.pc.Closing? {
      ClosingKeeps(w, sid, ch.reply);
    } else if s.todo != [] {
      var key := hash(LockName(s.todo[0]));
      if s.pc.TryLock? {
        TryLockKeeps(key, w, sid, ch);
      } else if s.pc.LockedSetPath? || s.pc.RefreshCommit? {
        LockedKeeps(key, w, sid, ch);
      } else if s.pc.Refreshing? {
        RefreshingKeeps(key, w, sid, ch);
      } else if s.pc.UnlockExec? || s.pc.UnlockCommit? {
        UnlockKeeps(key, w, sid, ch);
      }
    }
  }

  // ---------------------------------------------------------------------- every run

  ghost predicate AllErrorsOk(w: World) {
    forall sid :: sid in w.sessions ==> ErrorsOk(w.sessions[sid])
  }

  /** A step changes no other session. */
  lemma GeneratorAlone(w: World, sid: nat, ch: Choice, other: nat)
    requires sid in w.sessions && other != sid
    ensures var w' := GeneratorStep(w, sid, ch);
            (other in w'.sessions <==> other in w.sessions) &&
            (other in w.sessions ==> w'.sessions[other] == w.sessions[other])
  {}

  lemma RefreshAlone(hash: string -> int, w: World, sid: nat, ch: Choice, other: nat)
    requires sid in w.sessions && other != sid && w.sessions[sid].prog.RefreshJob?
    ensures var w' := RefreshStep(hash, w, sid, ch);
            (other in w'.sessions <==> other in w.sessions) &&
            (other in w.sessions ==> w'.sessions[other] == w.sessions[other])
  {}

  lemma StepKeeps(hash: string -> int, w: World, a: Action)
    requires AllErrorsOk(w)
    ensures AllErrorsOk(Step(hash, w, a))
  {
    if a.Advance? && a.sid in w.sessions {
      var w' := Step(hash, w, a);
      var job := w.sessions[a.sid].prog.RefreshJob?;
      if job { RefreshKeeps(hash, w, a.sid, a.choice); } else { GeneratorKeeps(w, a.sid, a.choice); }
      forall other | other in w'.sessions && other != a.sid ensures ErrorsOk(w'.sessions[other]) {
        if job { RefreshAlone(hash, w, a.sid, a.choice, other); } else { GeneratorAlone(w, a.sid, a.choice, other); }
      }
    }
  }

  lemma {:induction false} RunKeepsErrors(hash: string -> int, schedule: seq<Action>)
    ensures AllErrorsOk(Run(hash, schedule))
  {
    if schedule != [] {
      RunKeepsErrors(hash, schedule[..|schedule| - 1]);
      StepKeeps(hash, Run(hash, schedule[..|schedule| - 1]), schedule[|schedule| - 1]);
    }
  }

  /** Whatever fails and in whatever order, a finished `get_db` or `get_tenant_db` raises the
      first exception that occurred, and nothing if none did: failures of the rollback, the
      reset and the close never replace it. */
  lemma FirstErrorPropagates(hash: string -> int, schedule: seq<Action>, sid: nat)
    requires sid in Run(hash, schedule).sessions
    requires Guarded(Run(hash, schedule).sessions[sid].prog) && Run(hash, schedule).sessions[sid].pc.Finished?
    ensures var s := Run(hash, schedule).sessions[sid]; s.raised == First(s.errors)
  {
    RunKeepsErrors(hash, schedule);
  }

  /** A finished `get_platform_db` or refresh job raises the last exception. This is the first
      one if and only if no second call failed after it: neither the rollback or the unlock
      nor the close. */
  lemma LastErrorPropagates(hash: string -> int, schedule: seq<Action>, sid: nat)
    requires sid in Run(hash, schedule).sessions
    requires !Guarded(Run(hash, schedule).sessions[sid].prog) && Run(hash, schedule).sessions[sid].pc.Finished?
    ensures var s := Run(hash, schedule).sessions[sid];
            && s.raised == Last(s.errors)
            && (s.raised == First(s.errors) <==> |s.errors| <= 1)
            && forall i :: 0 < i < |s.errors| ==> s.errors[i] in {RollbackError, UnlockError, CloseError}
  {
    RunKeepsErrors(hash, schedule);
    LastIsFirst(Run(hash, schedule).sessions[sid]);
  }

  lemma LastIsFirst(s: Session)
    requires ErrorsOk(s) && s.pc.Finished? && !Guarded(s.prog)
    ensures s.raised == First(s.errors) <==> |s.errors| <= 1
    ensures forall i :: 0 < i < |s.errors| ==> s.errors[i] in {RollbackError, UnlockError, CloseError}
  {
    if |s.errors| > 1 {
      assert Stage(s.errors[0]) < Stage(s.errors[|s.errors| - 1]);
    }
    forall i | 0 < i < |s.errors| ensures s.errors[i] in {RollbackError, UnlockError, CloseError} {
      assert Stage(s.errors[0]) < Stage(s.errors[i]);
      assert s.errors[i] in s.errors;
    }
  }

  // --------------------------------------------------------------------- an example

  /** A platform session whose body fails on connection 7, and whose rollback fails too. */
  function PlatformWorld(step: nat): World {
    var s := NewSession(PlatformDb, Body, []);
    var c := FRESH_CONN.(txn := Open(ServerDefault, ServerDefault, false));
    var log := [Resolved(0, ServerDefault)];
    match step
    case 0 => World(map[], {}, map[0 := s], [])
    case 1 => World(map[7 := c], {}, map[0 := s.(conn := Some(7))], log)
    case 2 => World(map[7 := c], {}, map[0 := Failed(s.(conn := Some(7)), Except, BodyError)], log)
    case 3 => World(map[7 := c], {},
                    map[0 := Failed(Failed(s.(conn := Some(7)), Except, BodyError), Closing, RollbackError)], log)
    case _ => World(map[7 := FRESH_CONN], {7},
                    map[0 := Failed(Failed(s, Except, BodyError), Closing, RollbackError)
                             .(pc := Finished, raised := Some(RollbackError))],
                    log + [Ended(0)])
  }

  function PlatformAction(step: nat): Action {
    match step
    case 0 => Spawn(0, PlatformDb)
    case 2 => Advance(0, Calm(7, BodyOp.Raise))
    case 3 => Advance(0, Choice(7, Error(false, false), Query, false, []))
    case _ => Advance(0, Calm(7, Query))
  }

  lemma PlatformFails(hash: string -> int, step: nat)
    requires step < 3
    ensures Step(hash, PlatformWorld(step), PlatformAction(step + 1)) == PlatformWorld(step + 1)
  {
    SameWorld(Step(hash, PlatformWorld(step), PlatformAction(step + 1)), PlatformWorld(step + 1));
  }

  lemma PlatformCloses(hash: string -> int)
    ensures Step(hash, PlatformWorld(3), PlatformAction(4)) == PlatformWorld(4)
  {
    var w' := Step(hash, PlatformWorld(3), PlatformAction(4));
    assert w'.sessions[0].errors == PlatformWorld(3).sessions[0].errors;
    SameWorld(w', PlatformWorld(4));
  }

  /** A platform session may end with the rollback's exception in place of the body's. */
  lemma PlatformMayMask(hash: string -> int) returns (schedule: seq<Action>)
    ensures var w := Run(hash, schedule);
            && 0 in w.sessions && w.sessions[0].prog.PlatformDb? && w.sessions[0].pc.Finished?
            && w.sessions[0].errors == [BodyError, RollbackError] && w.sessions[0].raised == Some(RollbackError)
  {
    schedule := [];
    RunSnoc(hash, schedule, PlatformAction(0)); schedule := schedule + [PlatformAction(0)];
    SameWorld(Run(hash, schedule), PlatformWorld(0));
    PlatformFails(hash, 0); RunSnoc(hash, schedule, PlatformAction(1)); schedule := schedule + [PlatformAction(1)];
    PlatformFails(hash, 1); RunSnoc(hash, schedule, PlatformAction(2)); schedule := schedule + [PlatformAction(2)];
    PlatformFails(hash, 2); RunSnoc(hash, schedule, PlatformAction(3)); schedule := schedule + [PlatformAction(3)];
    PlatformCloses(hash); RunSnoc(hash, schedule, PlatformAction(4)); schedule := schedule + [PlatformAction(4)];
  }
}
