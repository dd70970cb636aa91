/**
  When the refresh job gives its advisory lock back. The unlock runs in a `finally`, but
  after a commit it runs on whatever connection the pool hands out, and in a doomed
  transaction the server refuses it.
 */
module LockRelease {
  import opened Common
  import opened SharedPool
  import opened PoolSafety

  // ---------------------------------------------------------------- exact condition

  /** The worker `sid` is about to unlock, and the lock it took is still where it took it. */
  predicate AboutToUnlock(hash: string -> int, w: World, sid: nat) {
    && sid in w.sessions
    && var s := w.sessions[sid];
       && s.prog.RefreshJob? && s.pc.UnlockExec? && s.todo != []
       && s.lockedOn.Some? && s.lockedOn.value in w.conns
       && w.conns[s.lockedOn.value].locks[hash(LockName(s.todo[0]))] > 0
  }

  /** How often the connection holds the lock; a connection that is gone holds nothing. */
  function Held(w: World, id: nat, key: int): nat {
    if id in w.conns then w.conns[id].locks[key] else 0
  }

  /** The unlock lands on the connection `id`: the session still holds it, or holds none and
      borrows it. */
  predicate LandsOn(w: World, sid: nat, pick: nat, id: nat)
    requires sid in w.sessions
  {
    w.sessions[sid].conn == Some(id) || (w.sessions[sid].conn.None? && pick == id && id in w.idle)
  }

  predicate Doomed(c: Conn) {
    c.txn.Open? && c.txn.aborted
  }

  predicate Applied(reply: Reply) {
    reply.Done? || (reply.Error? && reply.applied)
  }

  lemma UnlockOnConn(w: World, sid: nat, key: int, reply: Reply)
    requires sid in w.sessions && HasConn(w, sid) && w.conns[w.sessions[sid].conn.value].locks[key] > 0
    ensures var id := w.sessions[sid].conn.value;
            var w' := OnConn(w, sid, AdvisoryUnlock(key), reply).0;
            && (reply.Lost? ==> id !in w'.conns)
            && (!reply.Lost? ==> id in w'.conns)
            && (!reply.Lost? && !Doomed(w.conns[id]) && Applied(reply) ==>
                  w'.conns[id].locks[key] == w.conns[id].locks[key] - 1)
            && (!reply.Lost? && !(!Doomed(w.conns[id]) && Applied(reply)) ==>
                  w'.conns[id].locks[key] == w.conns[id].locks[key])
  {}

  lemma OtherConnStays(w: World, sid: nat, stmt: Stmt, reply: Reply, id: nat)
    requires sid in w.sessions && HasConn(w, sid) && w.sessions[sid].conn != Some(id) && id in w.conns
    ensures var w' := OnConn(w, sid, stmt, reply).0;
            id in w'.conns && w'.conns[id] == w.conns[id]
  {}

  lemma OtherCheckoutStays(w: World, sid: nat, pick: nat, id: nat)
    requires PoolOk(w) && sid in w.sessions && id in w.conns && !LandsOn(w, sid, pick, id)
    ensures var w' := Checkout(w, sid, pick);
            && id in w'.conns && w'.conns[id] == w.conns[id]
            && sid in w'.sessions && w'.sessions[sid].conn != Some(id)
  {}

  /** A call on another connection leaves this one's locks alone. */
  lemma UnlockElsewhere(w: World, sid: nat, pick: nat, key: int, reply: Reply, id: nat)
    requires PoolOk(w) && sid in w.sessions && id in w.conns && !LandsOn(w, sid, pick, id)
    ensures var w' := Execute(w, sid, pick, AdvisoryUnlock(key), reply).0;
            id in w'.conns && w'.conns[id].locks == w.conns[id].locks
  {
    var w1 := Checkout(w, sid, pick);
    OtherCheckoutStays(w, sid, pick, id);
    if HasConn(w1, sid) { OtherConnStays(w1, sid, AdvisoryUnlock(key), reply, id); }
  }

  /** While the lock is where it was taken. */
  lemma UnlockOfAHeldLock(hash: string -> int, w: World, sid: nat, ch: Choice, id: nat, key: int)
    requires PoolOk(w) && AboutToUnlock(hash, w, sid)
    requires id == w.sessions[sid].lockedOn.value && key == hash(LockName(w.sessions[sid].todo[0]))
    ensures var w' := Execute(w, sid, ch.pick, AdvisoryUnlock(key), ch.reply).0;
            && (Held(w', id, key) < Held(w, id, key) <==>
                  LandsOn(w, sid, ch.pick, id) && (ch.reply.Lost? || (!Doomed(w.conns[id]) && Applied(ch.reply))))
            && (Held(w', id, key) < Held(w, id, key) && id in w'.conns ==> Held(w', id, key) == Held(w, id, key) - 1)
            && Held(w', id, key) <= Held(w, id, key)
  {
    if LandsOn(w, sid, ch.pick, id) {
      UnlockOnConn(Checkout(w, sid, ch.pick), sid, key, ch.reply);
    } else {
      UnlockElsewhere(w, sid, ch.pick, key, ch.reply, id);
    }
  }

  /** Of the step only the unlock touches connections. */
  lemma UnlockStepHolds(hash: string -> int, w: World, sid: nat, ch: Choice, id: nat, key: int)
    requires AtUnlock(w, sid) && key == hash(LockName(w.sessions[sid].todo[0]))
    ensures Held(Step(hash, w, Advance(sid, ch)), id, key) ==
            Held(Execute(w, sid, ch.pick, AdvisoryUnlock(key), ch.reply).0, id, key)
    ensures Step(hash, w, Advance(sid, ch)).conns ==
            Execute(w, sid, ch.pick, AdvisoryUnlock(key), ch.reply).0.conns
  {
    hide Execute;
  }

  /** An unlock gives no connection a lock. */
  lemma NothingIsTaken(w: World, sid: nat, pick: nat, key: int, reply: Reply, id: nat)
    requires sid in w.sessions && Held(w, id, key) == 0
    ensures Held(Execute(w, sid, pick, AdvisoryUnlock(key), reply).0, id, key) == 0
  {
    var w1 := Checkout(w, sid, pick);
    assert Held(w1, id, key) == 0;
    if HasConn(w1, sid) { NothingIsTakenOnConn(w1, sid, key, reply, id); }
  }

  lemma NothingIsTakenOnConn(w: World, sid: nat, key: int, reply: Reply, id: nat)
    requires sid in w.sessions && HasConn(w, sid) && Held(w, id, key) == 0
    ensures Held(OnConn(w, sid, AdvisoryUnlock(key), reply).0, id, key) == 0
  {}

  /** The worker `sid` is at its unlock. */
  predicate AtUnlock(w: World, sid: nat) {
    && sid in w.sessions && w.sessions[sid].prog.RefreshJob? && w.sessions[sid].pc.UnlockExec?
    && w.sessions[sid].todo != []
  }

  /** In every reachable state, the unlock lowers the count of the lock on the connection
      where the job took it if and only if that connection still holds it, the call lands on
      that connection, and either the connection is lost (the server then frees everything)
      or its transaction is not doomed and the server executed the call. Otherwise the count
      stays. */
  lemma UnlockReleasesExactlyWhen(hash: string -> int, schedule: seq<Action>, sid: nat, ch: Choice)
    requires AtUnlock(Run(hash, schedule), sid)
    ensures var w := Run(hash, schedule);
            var s := w.sessions[sid];
            s.lockedOn.Some? &&
            var (id, key) := (s.lockedOn.value, hash(LockName(s.todo[0])));
            var w' := Step(hash, w, Advance(sid, ch));
            && (Held(w', id, key) < Held(w, id, key) <==>
                  && Held(w, id, key) > 0 && LandsOn(w, sid, ch.pick, id)
                  && (ch.reply.Lost? || (!Doomed(w.conns[id]) && Applied(ch.reply))))
            && (Held(w', id, key) < Held(w, id, key) && id in w'.conns ==> Held(w', id, key) == Held(w, id, key) - 1)
            && Held(w', id, key) <= Held(w, id, key)
  {
    hide Run, Step, Execute;
    RunKeeps(hash, schedule);
    var w := Run(hash, schedule);
    var s := w.sessions[sid];
    assert PcOk(hash, w, sid);
    var (id, key) := (s.lockedOn.value, hash(LockName(s.todo[0])));
    UnlockStepHolds(hash, w, sid, ch, id, key);
    if Held(w, id, key) > 0 {
      UnlockOfAHeldLock(hash, w, sid, ch, id, key);
    } else {
      NothingIsTaken(w, sid, ch.pick, key, ch.reply, id);
    }
  }

  /** At the unlock the worker holds the connection it locked on or none; and if nothing has
      gone wrong it holds none, so that the release depends on what the pool hands out. */
  lemma AfterACommitTheUnlockIsBlind(hash: string -> int, schedule: seq<Action>, sid: nat)
    requires AboutToUnlock(hash, Run(hash, schedule), sid)
    ensures var w := Run(hash, schedule);
            var s := w.sessions[sid];
            && (s.conn.None? || s.conn == s.lockedOn)
            && (s.original.None? ==> s.conn.None?)
            && (s.original.None? ==> forall pick ::
                  LandsOn(w, sid, pick, s.lockedOn.value) <==> pick == s.lockedOn.value && pick in w.idle)
  {
    RunKeeps(hash, schedule);
    assert PcOk(hash, Run(hash, schedule), sid);
  }

  lemma DoomedUnlockFails(hash: string -> int, w: World, sid: nat, ch: Choice)
    requires AboutToUnlock(hash, w, sid) && w.sessions[sid].conn == w.sessions[sid].lockedOn
    requires Doomed(w.conns[w.sessions[sid].lockedOn.value]) && !ch.reply.Lost?
    ensures Step(hash, w, Advance(sid, ch)) == Fail(w, sid, Closing, UnlockError)
  {
    assert HasConn(w, sid) && Checkout(w, sid, ch.pick) == w;
    assert OnConn(w, sid, AdvisoryUnlock(hash(LockName(w.sessions[sid].todo[0]))), ch.reply) == (w, false);
  }

  lemma ClosingReturnsTheLock(hash: string -> int, w: World, sid: nat, ch: Choice)
    requires sid in w.sessions && w.sessions[sid].prog.RefreshJob? && w.sessions[sid].pc.Closing?
    requires HasConn(w, sid) && ch.reply.Done?
    ensures var id := w.sessions[sid].conn.value;
            var w' := Step(hash, w, Advance(sid, ch));
            && sid in w'.sessions && w'.sessions[sid].pc.Finished?
            && w'.sessions[sid].raised == Propagated(w.sessions[sid], false)
            && id in w'.idle && id in w'.conns && w'.conns[id].locks == w.conns[id].locks
  {}

  lemma FailKeepsConn(w: World, sid: nat)
    requires sid in w.sessions && w.sessions[sid].prog.RefreshJob?
    ensures var w1 := Fail(w, sid, Closing, UnlockError);
            && w1.conns == w.conns && sid in w1.sessions
            && w1.sessions[sid].conn == w.sessions[sid].conn && w1.sessions[sid].prog == w.sessions[sid].prog
            && w1.sessions[sid].pc.Closing? && Propagated(w1.sessions[sid], false) == Some(UnlockError)
  {}

  /** After a statement that doomed its transaction, such as a failing REFRESH, the unlock
      cannot succeed, and closing the session returns the connection with the lock. */
  lemma DoomedTransactionKeepsTheLock(hash: string -> int, schedule: seq<Action>, sid: nat,
                                      unlock: Choice, close: Choice)
    requires AboutToUnlock(hash, Run(hash, schedule), sid)
    requires Run(hash, schedule).sessions[sid].conn == Run(hash, schedule).sessions[sid].lockedOn
    requires Doomed(Run(hash, schedule).conns[Run(hash, schedule).sessions[sid].lockedOn.value])
    requires !unlock.reply.Lost? && close.reply.Done?
    ensures var w := Run(hash, schedule);
            var id := w.sessions[sid].lockedOn.value;
            var w' := Step(hash, Step(hash, w, Advance(sid, unlock)), Advance(sid, close));
            && w'.sessions[sid].pc.Finished? && w'.sessions[sid].raised == Some(UnlockError)
            && id in w'.idle && id in w'.conns && w'.conns[id].locks == w.conns[id].locks
  {
    var w := Run(hash, schedule);
    DoomedUnlockFails(hash, w, sid, unlock);
    FailKeepsConn(w, sid);
    ClosingReturnsTheLock(hash, Fail(w, sid, Closing, UnlockError), sid, close);
  }

  // ------------------------------------------------------------------- two schedules

  const VIEW: string := "mv_sales_daily"

  function Job(): Session {
    NewSession(RefreshJob(Some("t_a"), [VIEW]), NextSchema, ["t_a"])
  }

  /** A job for one schema up to its REFRESH, on connection 7. */
  function Before(key: int, step: nat): World {
    var locked := Conn(ServerDefault, NoTxn, multiset{key});
    var s := Job();
    match step
    case 0 => World(map[], {}, map[0 := s], [])
    case 1 => World(map[], {}, map[0 := s.(pc := TryLock)], [])
    case 2 => World(map[7 := locked.(txn := Open(ServerDefault, ServerDefault, false))], {},
                    map[0 := s.(pc := LockedSetPath, conn := Some(7), lockedOn := Some(7))], [])
    case _ => World(map[7 := locked.(txn := Open(ServerDefault, TenantFirst("t_a"), false))], {},
                    map[0 := s.(pc := Refreshing, conn := Some(7), lockedOn := Some(7))], [Scoped(0)])
  }

  /** The REFRESH fails and dooms the transaction. */
  function Failing(key: int): World {
    var w := Before(key, 3);
    var doomed := w.conns[7].(txn := Open(ServerDefault, TenantFirst("t_a"), true));
    World(map[7 := doomed], {}, map[0 := Failed(w.sessions[0], UnlockExec, RefreshError)], w.log)
  }

  /** Or everything goes well: the view is refreshed, the loop over views ends, the commit
      returns connection 7. */
  function Good(key: int, step: nat): World {
    var w := Before(key, 3);
    var log := [Scoped(0), Refreshed(0, "t_a", VIEW, TenantFirst("t_a"))];
    var locked := Conn(ServerDefault, NoTxn, multiset{key});
    match step
    case 0 => World(w.conns, {}, map[0 := w.sessions[0].(view := 1)], log)
    case 1 => World(w.conns, {}, map[0 := w.sessions[0].(view := 1, pc := RefreshCommit)], log)
    case _ => World(map[7 := locked], {7}, map[0 := w.sessions[0].(view := 1, pc := UnlockExec, conn := None)],
                    log + [Ended(0)])
  }

  const NEXT := Advance(0, Calm(7, Query))
  const BREAK := Advance(0, Choice(7, Error(false, true), Query, false, []))

  lemma Starts(hash: string -> int)
    ensures Step(hash, EMPTY_WORLD, Spawn(0, RefreshJob(Some("t_a"), [VIEW]))) == Before(hash(LockName("t_a")), 0)
    ensures Step(hash, Before(hash(LockName("t_a")), 0), NEXT) == Before(hash(LockName("t_a")), 1)
  {
    assert PlainIdentifier("t_a");
    var key := hash(LockName("t_a"));
    SameWorld(Step(hash, EMPTY_WORLD, Spawn(0, RefreshJob(Some("t_a"), [VIEW]))), Before(key, 0));
    SameWorld(Step(hash, Before(key, 0), NEXT), Before(key, 1));
  }

  lemma TakesLock(hash: string -> int)
    ensures Step(hash, Before(hash(LockName("t_a")), 1), NEXT) == Before(hash(LockName("t_a")), 2)
  {
    var key := hash(LockName("t_a"));
    var w' := Step(hash, Before(key, 1), NEXT);
    assert w'.conns[7].locks == multiset{key};
    SameWorld(w', Before(key, 2));
  }

  lemma SetsPath(hash: string -> int)
    ensures Step(hash, Before(hash(LockName("t_a")), 2), NEXT) == Before(hash(LockName("t_a")), 3)
  {
    SameWorld(Step(hash, Before(hash(LockName("t_a")), 2), NEXT), Before(hash(LockName("t_a")), 3));
  }

  lemma RefreshFails(hash: string -> int)
    ensures Step(hash, Before(hash(LockName("t_a")), 3), BREAK) == Failing(hash(LockName("t_a")))
  {
    assert MATERIALIZED_VIEWS[0] == VIEW;
    SameWorld(Step(hash, Before(hash(LockName("t_a")), 3), BREAK), Failing(hash(LockName("t_a"))));
  }

  lemma RefreshSucceeds(hash: string -> int)
    ensures Step(hash, Before(hash(LockName("t_a")), 3), NEXT) == Good(hash(LockName("t_a")), 0)
  {
    assert MATERIALIZED_VIEWS[0] == VIEW;
    SameWorld(Step(hash, Before(hash(LockName("t_a")), 3), NEXT), Good(hash(LockName("t_a")), 0));
  }

  lemma Commits(hash: string -> int)
    ensures Step(hash, Good(hash(LockName("t_a")), 0), NEXT) == Good(hash(LockName("t_a")), 1)
    ensures Step(hash, Good(hash(LockName("t_a")), 1), NEXT) == Good(hash(LockName("t_a")), 2)
  {
    var key := hash(LockName("t_a"));
    SameWorld(Step(hash, Good(key, 0), NEXT), Good(key, 1));
    SameWorld(Step(hash, Good(key, 1), NEXT), Good(key, 2));
  }

  lemma ReachesRefresh(hash: string -> int) returns (schedule: seq<Action>)
    ensures Run(hash, schedule) == Before(hash(LockName("t_a")), 3)
  {
    schedule := [];
    Starts(hash);
    TakesLock(hash);
    SetsPath(hash);
    var spawn := Spawn(0, RefreshJob(Some("t_a"), [VIEW]));
    RunSnoc(hash, schedule, spawn); schedule := schedule + [spawn];
    RunSnoc(hash, schedule, NEXT); schedule := schedule + [NEXT];
    RunSnoc(hash, schedule, NEXT); schedule := schedule + [NEXT];
    RunSnoc(hash, schedule, NEXT); schedule := schedule + [NEXT];
  }

  /** The lock stays behind on both routes. After a failing REFRESH it does so whatever the
      pool hands out to the unlock and whether or not that call is answered; and after a
      job in which nothing failed it does so when the pool hands out another connection. */
  lemma LockMayOutliveItsJob(hash: string -> int) returns (failing: seq<Action>, good: seq<Action>)
    ensures var key := hash(LockName("t_a"));
            && AboutToUnlock(hash, Run(hash, failing), 0)
            && (forall ch: Choice :: !ch.reply.Lost? ==>
                  Held(Step(hash, Run(hash, failing), Advance(0, ch)), 7, key) == 1)
            && AboutToUnlock(hash, Run(hash, good), 0) && Run(hash, good).sessions[0].errors == []
            && (forall ch: Choice :: ch.pick != 7 ==>
                  Held(Step(hash, Run(hash, good), Advance(0, ch)), 7, key) == 1)
  {
    var key := hash(LockName("t_a"));
    var reached := ReachesRefresh(hash);
    RefreshFails(hash);
    RunSnoc(hash, reached, BREAK);
    failing := reached + [BREAK];
    RefreshSucceeds(hash);
    Commits(hash);
    RunSnoc(hash, reached, NEXT); good := reached + [NEXT];
    RunSnoc(hash, good, NEXT); good := good + [NEXT];
    RunSnoc(hash, good, NEXT); good := good + [NEXT];
    forall ch: Choice | !ch.reply.Lost? ensures Held(Step(hash, Run(hash, failing), Advance(0, ch)), 7, key) == 1 {
      StillHeld(hash, failing, ch);
    }
    forall ch: Choice | ch.pick != 7 ensures Held(Step(hash, Run(hash, good), Advance(0, ch)), 7, key) == 1 {
      StillHeld(hash, good, ch);
    }
  }

  lemma StillHeld(hash: string -> int, schedule: seq<Action>, ch: Choice)
    requires var key := hash(LockName("t_a"));
             || (Run(hash, schedule) == Failing(key) && !ch.reply.Lost?)
             || (Run(hash, schedule) == Good(key, 2) && ch.pick != 7)
    ensures Held(Step(hash, Run(hash, schedule), Advance(0, ch)), 7, hash(LockName("t_a"))) == 1
  {
    UnlockReleasesExactlyWhen(hash, schedule, 0, ch);
  }
}
