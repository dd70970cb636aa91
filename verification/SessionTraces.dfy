/**
  Everything a request session does, from its first call to its last, for every schedule and
  every failure: `get_db` and `get_tenant_db` reset the search path whatever happened before,
  and a connection handed back by a reset that succeeds is idle with the public path.
 */
module SessionTraces {
  import opened Common
  import opened SharedPool
  import opened PoolSafety
  import opened PoolCalls
  import opened CallTraces
  import LockRelease
  import ErrorPropagation

  // ---------------------------------------------------------------- whole sessions

  /** The first statement of `get_db` and of `get_tenant_db`. */
  predicate Opens(prog: Program, call: Call) {
    || (prog.PublicDb? && call == Statement(SetPath(Public)))
    || (prog.TenantDb? && call == Statement(SetLocalPath(TenantFirst(prog.tenant))))
  }

  /** The request handler queries, commits, rolls back, or restores its tenant path. */
  predicate OfBody(prog: Program, i: Item) {
    i.Made? &&
    (|| i.call == Statement(Select) || i.call == CommitCall || i.call == RollbackCall
     || i.call == Statement(SetLocalPath(if prog.TenantDb? then TenantFirst(prog.tenant) else Public)))
  }

  predicate AllOfBody(prog: Program, t: seq<Item>) {
    forall i :: 0 <= i < |t| ==> OfBody(prog, t[i])
  }

  /** The session is open and its body has done some of its work. `get_platform_db` opens
      without a call. */
  predicate Worked(prog: Program, t: seq<Item>) {
    if prog.PlatformDb? then AllOfBody(prog, t)
    else t != [] && t[0].Made? && !t[0].answer.Raised? && Opens(prog, t[0].call) && AllOfBody(prog, t[1..])
  }

  /** An exception of the opening, of the body, or of the commit after it. */
  predicate Broke(prog: Program, t: seq<Item>, errors: seq<Cause>) {
    t != [] &&
    var (init, last) := (Front(t), Last(t));
    || (init == [] && last.Made? && last.answer.Raised? && Opens(prog, last.call) && errors == [OpenError])
    || (Worked(prog, init) && last.Threw? && errors == [BodyError])
    || (Worked(prog, init) && Raises(last, CommitCall) && errors == [CommitError])
  }

  /** The exception that ends `t` is not an `Exception`. */
  predicate Outside(t: seq<Item>) {
    t != [] && (Last(t) == Threw(true) || (Last(t).Made? && Last(t).answer == Raised(true)))
  }

  /** The work is committed or rolled back; only `get_platform_db` leaves out the rollback,
      after an exception that is not an `Exception`. */
  predicate Settled(prog: Program, t: seq<Item>, errors: seq<Cause>) {
    t != [] &&
    var (init, last) := (Front(t), Last(t));
    || (Worked(prog, init) && Succeeded(last, CommitCall) && errors == [])
    || (prog.PlatformDb? && Broke(prog, t, errors) && Outside(t))
    || (last.Made? && last.call == RollbackCall && !(prog.PlatformDb? && Outside(init))
        && var e := Before(errors, last, RollbackError);
           e.Some? && Broke(prog, init, e.value))
  }

  /** `get_db` and `get_tenant_db` then set the public path and, if that succeeds, commit. */
  predicate Reset(prog: Program, t: seq<Item>, errors: seq<Cause>) {
    t != [] &&
    var (init, last) := (Front(t), Last(t));
    if prog.PlatformDb? then Settled(prog, t, errors)
    else
      || (Raises(last, Statement(SetPath(Public)))
          && var e := Before(errors, last, ResetError);
             e.Some? && Settled(prog, init, e.value))
      || (last.Made? && last.call == CommitCall
          && var e := Before(errors, last, ResetError);
             e.Some? && init != [] && Succeeded(Last(init), Statement(SetPath(Public)))
             && Settled(prog, Front(init), e.value))
  }

  /** And closing is the last call. */
  predicate WholeSession(prog: Program, t: seq<Item>, errors: seq<Cause>) {
    t != [] && Last(t).Made? && Last(t).call == CloseCall
    && var e := Before(errors, Last(t), CloseError);
       e.Some? && Reset(prog, Front(t), e.value)
  }

  // ------------------------------------------------------------- every step of a session

  /** The trace of a session that stands at `pc`. */
  predicate SoFar(prog: Program, pc: Pc, t: seq<Item>, errors: seq<Cause>) {
    && !prog.RefreshJob? && (prog.TenantDb? ==> SafeIdentifier(prog.tenant))
    && match pc
       case Opening => !prog.PlatformDb? && t == [] && errors == []
       case Body => Worked(prog, t) && errors == []
       case FinalCommit => Worked(prog, t) && errors == []
       case Except => Broke(prog, t, errors) && !(prog.PlatformDb? && Outside(t))
       case ResetSet => !prog.PlatformDb? && Settled(prog, t, errors)
       case ResetCommit =>
         && !prog.PlatformDb? && t != [] && Succeeded(Last(t), Statement(SetPath(Public)))
         && Settled(prog, Front(t), errors)
       case Closing => Reset(prog, t, errors)
       case Finished => WholeSession(prog, t, errors)
       case _ => false
  }

  predicate Follows(w: World, sid: nat, t: seq<Item>)
    requires sid in w.sessions
  {
    SoFar(w.sessions[sid].prog, w.sessions[sid].pc, t, w.sessions[sid].errors)
  }

  lemma OneMoreOfBody(prog: Program, t: seq<Item>, i: Item)
    requires Worked(prog, t) && OfBody(prog, i)
    ensures Worked(prog, t + [i])
  {
    if !prog.PlatformDb? {
      assert (t + [i])[1..] == t[1..] + [i];
    }
  }

  /** `get_platform_db` leaves its error branch out when the exception is not an `Exception`. */
  predicate BrokeHere(prog: Program, t: seq<Item>, errors: seq<Cause>) {
    if prog.PlatformDb? && Outside(t) then Settled(prog, t, errors) else Broke(prog, t, errors)
  }

  lemma BodyEnds(prog: Program, t: seq<Item>, i: Item)
    requires Worked(prog, t)
    ensures i.Threw? ==> BrokeHere(prog, t + [i], [BodyError])
    ensures Raises(i, CommitCall) ==> BrokeHere(prog, t + [i], [CommitError])
    ensures Succeeded(i, CommitCall) ==> Settled(prog, t + [i], [])
  {
    hide Worked;
    Appended(t, i);
  }

  lemma BodyFollows(hash: string -> int, w: World, sid: nat, ch: Choice, t: seq<Item>)
    requires sid in w.sessions && Follows(w, sid, t) && w.sessions[sid].pc.Body?
    ensures var w' := Step(hash, w, Advance(sid, ch));
            sid in w'.sessions && Follows(w', sid, t + NewItems(hash, w, sid, ch))
  {
    hide Execute, Commit, Rollback, SafeIdentifier, Refreshes, AnswerOf, Worked, Broke, Settled;
    var s := w.sessions[sid];
    var more := NewItems(hash, w, sid, ch);
    if ch.op.Return? {
      assert t + more == t;
    } else if ch.op.Raise? {
      Appended(t, Threw(ch.base));
      BodyEnds(s.prog, t, Threw(ch.base));
      assert [] + [BodyError] == [BodyError];
    } else {
      OneMoreOfBody(s.prog, t, more[0]);
    }
  }

  lemma FirstCall(prog: Program, i: Item)
    requires i.Made? && Opens(prog, i.call)
    ensures !i.answer.Raised? ==> Worked(prog, [i])
    ensures i.answer.Raised? ==> Broke(prog, [i], [OpenError])
  {
    Appended([], i);
    assert [] + [i] == [i];
  }

  lemma OpeningFollows(hash: string -> int, w: World, sid: nat, ch: Choice, t: seq<Item>)
    requires sid in w.sessions && Follows(w, sid, t) && w.sessions[sid].pc.Opening?
    ensures var w' := Step(hash, w, Advance(sid, ch));
            sid in w'.sessions && Follows(w', sid, t + NewItems(hash, w, sid, ch))
  {
    hide Execute, SafeIdentifier, Refreshes, Worked, Broke, RescopeStmt;
    var more := NewItems(hash, w, sid, ch);
    assert t + more == more == [more[0]];
    FirstCall(w.sessions[sid].prog, more[0]);
    assert [] + [OpenError] == [OpenError];
  }

  lemma FinalCommitFollows(hash: string -> int, w: World, sid: nat, ch: Choice, t: seq<Item>)
    requires sid in w.sessions && Follows(w, sid, t) && w.sessions[sid].pc.FinalCommit?
    ensures var w' := Step(hash, w, Advance(sid, ch));
            sid in w'.sessions && Follows(w', sid, t + NewItems(hash, w, sid, ch))
  {
    hide Execute, Commit, Rollback, Close, SafeIdentifier, Refreshes, Worked, Broke, Settled, OpeningStmt, RescopeStmt;
    var s := w.sessions[sid];
    var more := NewItems(hash, w, sid, ch);
    Appended(t, more[0]);
    BodyEnds(s.prog, t, more[0]);
    assert [] + [CommitError] == [CommitError];
  }

  lemma ExceptFollows(hash: string -> int, w: World, sid: nat, ch: Choice, t: seq<Item>)
    requires sid in w.sessions && Follows(w, sid, t) && w.sessions[sid].pc.Except?
    ensures var w' := Step(hash, w, Advance(sid, ch));
            sid in w'.sessions && Follows(w', sid, t + NewItems(hash, w, sid, ch))
  {
    hide Execute, Commit, Rollback, Close, SafeIdentifier, Refreshes, Worked, Broke, OpeningStmt, RescopeStmt;
    var s := w.sessions[sid];
    var more := NewItems(hash, w, sid, ch);
    Appended(t, more[0]);
    Appended(s.errors, RollbackError);
  }

  lemma ResetSetFollows(hash: string -> int, w: World, sid: nat, ch: Choice, t: seq<Item>)
    requires sid in w.sessions && Follows(w, sid, t) && w.sessions[sid].pc.ResetSet?
    ensures var w' := Step(hash, w, Advance(sid, ch));
            sid in w'.sessions && Follows(w', sid, t + NewItems(hash, w, sid, ch))
  {
    hide Execute, Commit, Rollback, Close, SafeIdentifier, Refreshes, Worked, Broke, Settled, OpeningStmt, RescopeStmt;
    var s := w.sessions[sid];
    var more := NewItems(hash, w, sid, ch);
    Appended(t, more[0]);
    Appended(s.errors, ResetError);
  }

  lemma ResetCommitFollows(hash: string -> int, w: World, sid: nat, ch: Choice, t: seq<Item>)
    requires sid in w.sessions && Follows(w, sid, t) && w.sessions[sid].pc.ResetCommit?
    ensures var w' := Step(hash, w, Advance(sid, ch));
            sid in w'.sessions && Follows(w', sid, t + NewItems(hash, w, sid, ch))
  {
    hide Execute, Commit, Rollback, Close, SafeIdentifier, Refreshes, Worked, Broke, Settled, OpeningStmt, RescopeStmt;
    var s := w.sessions[sid];
    var more := NewItems(hash, w, sid, ch);
    Appended(t, more[0]);
    Appended(s.errors, ResetError);
  }

  lemma ClosingFollows(hash: string -> int, w: World, sid: nat, ch: Choice, t: seq<Item>)
    requires sid in w.sessions && Follows(w, sid, t) && w.sessions[sid].pc.Closing?
    ensures var w' := Step(hash, w, Advance(sid, ch));
            sid in w'.sessions && Follows(w', sid, t + NewItems(hash, w, sid, ch))
  {
    hide Execute, Commit, Rollback, Close, SafeIdentifier, Refreshes, Worked, Broke, Settled, Reset;
    hide OpeningStmt, RescopeStmt;
    var s := w.sessions[sid];
    var more := NewItems(hash, w, sid, ch);
    Appended(t, more[0]);
    Appended(s.errors, CloseError);
    assert s.errors + [] == s.errors;
  }

  lemma SessionFollows(hash: string -> int, w: World, sid: nat, ch: Choice, t: seq<Item>)
    requires sid in w.sessions && Follows(w, sid, t)
    ensures var w' := Step(hash, w, Advance(sid, ch));
            sid in w'.sessions && Follows(w', sid, t + NewItems(hash, w, sid, ch))
  {
    hide Step, NewItems, Worked, Broke, Settled, Reset, WholeSession;
    match w.sessions[sid].pc
    case Opening => OpeningFollows(hash, w, sid, ch, t);
    case Body => BodyFollows(hash, w, sid, ch, t);
    case FinalCommit => FinalCommitFollows(hash, w, sid, ch, t);
    case Except => ExceptFollows(hash, w, sid, ch, t);
    case ResetSet => ResetSetFollows(hash, w, sid, ch, t);
    case ResetCommit => ResetCommitFollows(hash, w, sid, ch, t);
    case Closing => ClosingFollows(hash, w, sid, ch, t);
    case Finished => NothingAfterTheEnd(hash, w, sid, ch, t);
    case _ =>
  }

  lemma NothingAfterTheEnd(hash: string -> int, w: World, sid: nat, ch: Choice, t: seq<Item>)
    requires sid in w.sessions && w.sessions[sid].pc.Finished?
    ensures Step(hash, w, Advance(sid, ch)) == w && t + NewItems(hash, w, sid, ch) == t
  {}

  lemma SpawnFollows(prog: Program)
    requires Started(prog).Some? && !prog.RefreshJob?
    ensures var s := Started(prog).value; s.prog == prog && SoFar(prog, s.pc, [], s.errors)
  {
    hide SafeIdentifier;
  }

  /** In every schedule, whatever the other sessions do, the calls and the exceptions of a
      request session so far are the ones that belong to its program counter. */
  lemma {:induction false} SessionsFollow(hash: string -> int, schedule: seq<Action>, sid: nat)
    requires sid in Run(hash, schedule).sessions && !Run(hash, schedule).sessions[sid].prog.RefreshJob?
    ensures Follows(Run(hash, schedule), sid, Trace(hash, schedule, sid))
  {
    hide Step, NewItems, SoFar;
    var init, a := schedule[..|schedule| - 1], schedule[|schedule| - 1];
    var w := Run(hash, init);
    var t := Trace(hash, init, sid);
    assert t + [] == t;
    if sid !in w.sessions {
      NoTraceYet(hash, init, sid);
      OnlySpawnCreates(hash, w, a, sid);
      SpawnFollows(a.prog);
    } else {
      StaysThere(hash, w, a, sid);
      SessionsFollow(hash, init, sid);
      if a.Advance? && a.sid == sid {
        SessionFollows(hash, w, sid, a.choice, t);
      } else {
        OtherStep(hash, w, a, sid);
      }
    }
  }

  /** The call that the request handler asks for. */
  function AskedFor(prog: Program, op: BodyOp): Call {
    match op
    case Query => Statement(Select)
    case BodyCommit => CommitCall
    case BodyRollback => RollbackCall
    case Rescope => Statement(SetLocalPath(if prog.TenantDb? then TenantFirst(prog.tenant) else Public))
    case _ => Nothing
  }

  /** Between `yield` and its end a session does what the request handler asks for: it makes that
      call and goes on, or leaves its body to commit, or with an exception. */
  lemma BodyObeys(hash: string -> int, w: World, sid: nat, ch: Choice)
    requires sid in w.sessions && w.sessions[sid].pc.Body? && !w.sessions[sid].prog.RefreshJob?
    ensures var (s, items, w') := (w.sessions[sid], NewItems(hash, w, sid, ch), Step(hash, w, Advance(sid, ch)));
            && sid in w'.sessions
            && match ch.op
               case Return => items == [] && w'.sessions[sid] == s.(pc := FinalCommit)
               case Raise =>
                 && items == [Threw(ch.base)] && w'.sessions[sid].errors == s.errors + [BodyError]
                 && w'.sessions[sid].pc == if s.prog.PlatformDb? && ch.base then Closing else Except
               case _ =>
                 && w'.sessions[sid].pc.Body? && |items| == 1 && items[0].Made?
                 && items[0].call == AskedFor(s.prog, ch.op)
  {
    hide Execute, Commit, Rollback, Refreshes;
  }

  /** A finished `get_db` or `get_tenant_db` opened with its path and, if that succeeded, did
      its work; committed, or after an exception rolled back; then set the public path and
      committed it; and closed. Nothing is left out and nothing else is called, and the
      exceptions are those of the calls that failed and of the body. */
  lemma SessionsAreWhole(hash: string -> int, schedule: seq<Action>, sid: nat)
    requires sid in Run(hash, schedule).sessions && Run(hash, schedule).sessions[sid].pc.Finished?
    requires !Run(hash, schedule).sessions[sid].prog.RefreshJob?
    ensures var s := Run(hash, schedule).sessions[sid];
            WholeSession(s.prog, Trace(hash, schedule, sid), s.errors)
  {
    SessionsFollow(hash, schedule, sid);
  }
}
