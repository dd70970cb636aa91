/**
  What every schedule of the shared pool keeps: pooled connections are clean, nobody
  ever resolves a name in another tenant's schema, and two refresh workers are
  never inside the critical section of one schema. The argument is a global invariant, because
  the reset at the end of a session may run on a connection its body never used.
 */
module PoolSafety {
  import opened Common
  import opened SharedPool

  // ----------------------------------------------------------------- invariant

  /** No connection carries a tenant path outside its current transaction. */
  ghost predicate ConnClean(c: Conn) {
    !c.sessionPath.TenantFirst? && (c.txn.Open? ==> !c.txn.onCommit.TenantFirst?)
  }

  predicate Holds(w: World, sid: nat, id: nat) {
    sid in w.sessions && w.sessions[sid].conn == Some(id)
  }

  ghost predicate PoolOk(w: World) {
    && (forall id :: id in w.conns ==> ConnClean(w.conns[id]))
    && (forall id :: id in w.idle ==> id in w.conns && w.conns[id].txn.NoTxn?)
    && (forall sid, id :: Holds(w, sid, id) ==> id in w.conns && id !in w.idle)
    && (forall a, b, id :: Holds(w, a, id) && Holds(w, b, id) ==> a == b)
    && (forall id :: id in w.conns && id !in w.idle ==> exists sid :: Holds(w, sid, id))
  }

  /** An advisory lock is on at most one connection. */
  ghost predicate LocksExclusive(w: World) {
    forall a, b, key ::
      a in w.conns && b in w.conns && w.conns[a].locks[key] > 0 && w.conns[b].locks[key] > 0 ==> a == b
  }

  /** The tenant schema a session is entitled to right now. */
  function Home(s: Session): Option<string> {
    match s.prog
    case TenantDb(t) => Some(t)
    case RefreshJob(_, _) => if s.todo == [] then None else Some(s.todo[0])
    case _ => None
  }

  predicate OnTenantPath(w: World, sid: nat) {
    sid in w.sessions && w.sessions[sid].conn.Some?
    && w.sessions[sid].conn.value in w.conns
    && var txn := w.conns[w.sessions[sid].conn.value].txn;
       txn.Open? && txn.effective.TenantFirst?
  }

  ghost predicate ScopeOk(w: World, sid: nat)
    requires sid in w.sessions
  {
    && (InScope(w.log, sid) <==> OnTenantPath(w, sid))
    && (OnTenantPath(w, sid) ==>
          Home(w.sessions[sid]) == Some(w.conns[w.sessions[sid].conn.value].txn.effective.schema))
  }

  /** Between a successful try-lock and the end of the commit. */
  predicate Critical(s: Session) {
    s.pc.LockedSetPath? || s.pc.Refreshing? || s.pc.RefreshCommit?
  }

  predicate HoldsLock(hash: string -> int, w: World, sid: nat)
    requires sid in w.sessions
  {
    var s := w.sessions[sid];
    s.prog.RefreshJob? && s.todo != [] && s.conn.Some? && s.conn.value in w.conns
    && w.conns[s.conn.value].locks[hash(LockName(s.todo[0]))] > 0
  }

  ghost predicate PcOk(hash: string -> int, w: World, sid: nat)
    requires sid in w.sessions
  {
    var s := w.sessions[sid];
    && (Critical(s) ==> HoldsLock(hash, w, sid) && s.lockedOn == s.conn)
    && (s.pc.Refreshing? || s.pc.RefreshCommit? ==> OnTenantPath(w, sid))
    && (s.prog.RefreshJob? && (s.pc.Discover? || s.pc.NextSchema? || s.pc.TryLock? || s.pc.LockedSetPath?) ==>
          !OnTenantPath(w, sid))
    && (s.pc.Finished? ==> s.conn.None?)
    && (s.pc.UnlockExec? ==>
          s.lockedOn.Some? && (s.conn.None? || s.conn == s.lockedOn) && (s.original.None? ==> s.conn.None?))
    && (s.prog.TenantDb? && s.pc.Body? ==> Scoped(sid) in w.log)
  }

  /** What the log may say about the session of the `i`-th event. */
  ghost predicate EventOk(w: World, i: nat)
    requires i < |w.log|
  {
    w.log[i].sid in w.sessions &&
    match w.log[i]
    case Resolved(sid, path) =>
      && (path.TenantFirst? ==> w.sessions[sid].prog == TenantDb(path.schema))
      && (path.TenantFirst? <==> InScope(w.log[..i], sid))
      && (w.sessions[sid].prog.TenantDb? ==> Scoped(sid) in w.log[..i])
    case Refreshed(sid, schema, view, path) => path == TenantFirst(schema) && view in MATERIALIZED_VIEWS
    case _ => true
  }

  ghost predicate LogOk(w: World) {
    forall i :: 0 <= i < |w.log| ==> EventOk(w, i)
  }

  ghost predicate BaseOk(w: World) {
    && PoolOk(w)
    && LocksExclusive(w)
    && LogOk(w)
    && (forall sid :: sid in w.sessions ==> ScopeOk(w, sid))
  }

  ghost predicate Inv(hash: string -> int, w: World) {
    && BaseOk(w)
    && (forall sid :: sid in w.sessions ==> PcOk(hash, w, sid))
  }

  // --------------------------------------------------------------- frame of a call

  /** A step on behalf of `sid` leaves every other session and its connection alone, and
      the log only grows. */
  ghost predicate Elsewhere(w: World, w': World, sid: nat) {
    w.log <= w'.log &&
    forall other :: other != sid && other in w.sessions ==>
      && other in w'.sessions
      && w'.sessions[other] == w.sessions[other]
      && (w.sessions[other].conn.Some? && w.sessions[other].conn.value in w.conns ==>
            && w.sessions[other].conn.value in w'.conns
            && w'.conns[w.sessions[other].conn.value] == w.conns[w.sessions[other].conn.value])
  }

  /** Appending an event about `sid` keeps the log in order. */
  lemma LogGrows(w: World, w': World, e: Event)
    requires LogOk(w) && w'.log == w.log + [e]
    requires forall s :: s in w.sessions ==> s in w'.sessions && w'.sessions[s].prog == w.sessions[s].prog
    requires EventOk(w', |w.log|)
    ensures LogOk(w')
  {
    forall i | 0 <= i < |w'.log| ensures EventOk(w', i) {
      if i < |w.log| {
        assert w'.log[..i] == w.log[..i];
        assert EventOk(w, i);
      }
    }
  }

  lemma InScopeAppend(log: seq<Event>, e: Event, sid: nat)
    ensures InScope(log + [e], sid) ==
            if e == Scoped(sid) then true else if e == Ended(sid) then false else InScope(log, sid)
  {
    assert (log + [e])[..|log|] == log;
  }

  // ------------------------------------------------- one call keeps the invariant

  /** `sid` may act on connection `id`: it holds it, or holds none and takes a free one. */
  predicate Available(w: World, sid: nat, id: nat)
    requires sid in w.sessions
  {
    Holds(w, sid, id) || (w.sessions[sid].conn.None? && (id in w.idle || id !in w.conns))
  }

  lemma PutKeepsPool(w: World, sid: nat, id: nat, c: Conn, fate: Fate, seen: seq<Event>)
    requires PoolOk(w) && sid in w.sessions && Available(w, sid, id)
    requires ConnClean(c) && (fate.Returned? ==> c.txn.NoTxn?)
    ensures PoolOk(Put(w, sid, id, c, fate, seen))
  {
    var w' := Put(w, sid, id, c, fate, seen);
    assert forall s, k :: Holds(w', s, k) ==> (s == sid && k == id) || (s != sid && Holds(w, s, k));
    forall k | k in w'.conns && k !in w'.idle ensures exists s :: Holds(w', s, k) {
      if k == id {
        assert Holds(w', sid, k);
      } else {
        var s :| Holds(w, s, k);
        assert Holds(w', s, k);
      }
    }
  }

  lemma PutKeepsElsewhere(w: World, sid: nat, id: nat, c: Conn, fate: Fate, seen: seq<Event>)
    requires PoolOk(w) && sid in w.sessions && Available(w, sid, id)
    ensures Elsewhere(w, Put(w, sid, id, c, fate, seen), sid)
  {
    forall other | other != sid && other in w.sessions && w.sessions[other].conn.Some?
      ensures w.sessions[other].conn.value != id
    {
      assert Holds(w, other, w.sessions[other].conn.value);
    }
  }

  lemma PutKeepsLocks(w: World, sid: nat, id: nat, c: Conn, fate: Fate, seen: seq<Event>)
    requires LocksExclusive(w) && sid in w.sessions
    requires forall k :: c.locks[k] > 0 ==> (id in w.conns && w.conns[id].locks[k] > 0) || LockFree(w, id, k)
    ensures LocksExclusive(Put(w, sid, id, c, fate, seen))
  {}

  /** Everything that makes one `Put` safe. */
  ghost predicate Legal(w: World, sid: nat, id: nat, c: Conn, fate: Fate, seen: seq<Event>)
    requires sid in w.sessions
  {
    && Available(w, sid, id)
    && ConnClean(c) && (fate.Returned? ==> c.txn.NoTxn?)
    && (forall k :: c.locks[k] > 0 ==> (id in w.conns && w.conns[id].locks[k] > 0) || LockFree(w, id, k))
    && |seen| <= 1
    && (seen != [] ==> seen[0].sid == sid)
    && (InScope(w.log + seen, sid) <==> fate.Held? && c.txn.Open? && c.txn.effective.TenantFirst?)
    && (fate.Held? && c.txn.Open? && c.txn.effective.TenantFirst? ==>
          Home(w.sessions[sid]) == Some(c.txn.effective.schema))
    && (seen != [] ==> EventOk(Put(w, sid, id, c, fate, seen), |w.log|))
  }

  lemma PutKeepsScopes(w: World, sid: nat, id: nat, c: Conn, fate: Fate, seen: seq<Event>)
    requires BaseOk(w) && sid in w.sessions && Legal(w, sid, id, c, fate, seen)
    ensures var w' := Put(w, sid, id, c, fate, seen);
            forall s :: s in w'.sessions ==> ScopeOk(w', s)
  {
    var w' := Put(w, sid, id, c, fate, seen);
    PutKeepsElsewhere(w, sid, id, c, fate, seen);
    forall s | s in w'.sessions && s != sid ensures ScopeOk(w', s) {
      assert ScopeOk(w, s);
      if seen == [] {
        assert w.log + seen == w.log;
      } else {
        assert seen == [seen[0]];
        InScopeAppend(w.log, seen[0], s);
      }
      assert w.sessions[s].conn.Some? ==> Holds(w, s, w.sessions[s].conn.value);
    }
  }

  lemma PutKeepsLog(w: World, sid: nat, id: nat, c: Conn, fate: Fate, seen: seq<Event>)
    requires BaseOk(w) && sid in w.sessions && Legal(w, sid, id, c, fate, seen)
    ensures LogOk(Put(w, sid, id, c, fate, seen))
  {
    var w' := Put(w, sid, id, c, fate, seen);
    if seen == [] {
      assert w'.log == w.log;
      forall i | 0 <= i < |w'.log| ensures EventOk(w', i) {
        assert EventOk(w, i);
      }
    } else {
      assert seen == [seen[0]];
      LogGrows(w, w', seen[0]);
    }
  }

  lemma PutKeeps(w: World, sid: nat, id: nat, c: Conn, fate: Fate, seen: seq<Event>)
    requires BaseOk(w) && sid in w.sessions && Legal(w, sid, id, c, fate, seen)
    ensures BaseOk(Put(w, sid, id, c, fate, seen))
    ensures Elsewhere(w, Put(w, sid, id, c, fate, seen), sid)
  {
    PutKeepsPool(w, sid, id, c, fate, seen);
    PutKeepsElsewhere(w, sid, id, c, fate, seen);
    PutKeepsLocks(w, sid, id, c, fate, seen);
    PutKeepsScopes(w, sid, id, c, fate, seen);
    PutKeepsLog(w, sid, id, c, fate, seen);
  }

  lemma CheckoutKeeps(w: World, sid: nat, pick: nat)
    requires BaseOk(w) && sid in w.sessions
    ensures var w' := Checkout(w, sid, pick);
            && BaseOk(w') && Elsewhere(w, w', sid)
            && (w.sessions[sid].conn.Some? ==> w' == w)
            && (OnTenantPath(w', sid) <==> OnTenantPath(w, sid))
  {
    var s := w.sessions[sid];
    assert ScopeOk(w, sid);
    assert w.log + [] == w.log;
    if s.conn.None? && pick in w.idle && pick in w.conns {
      PutKeeps(w, sid, pick, w.conns[pick], Held, []);
    } else if s.conn.None? && pick !in w.conns {
      PutKeeps(w, sid, pick, FRESH_CONN, Held, []);
    }
  }

  /** A statement the program may issue in its present state. */
  ghost predicate MayIssue(w: World, sid: nat, stmt: Stmt)
    requires sid in w.sessions
  {
    match stmt
    case SetPath(p) => !p.TenantFirst?
    case SetLocalPath(p) =>
      if p.TenantFirst? then Home(w.sessions[sid]) == Some(p.schema) else Home(w.sessions[sid]).None?
    case Refresh(schema, view) =>
      OnTenantPath(w, sid) && Home(w.sessions[sid]) == Some(schema) && view in MATERIALIZED_VIEWS
    case Select =>
      && (w.sessions[sid].prog.RefreshJob? ==> !OnTenantPath(w, sid))
      && (w.sessions[sid].prog.TenantDb? ==> Scoped(sid) in w.log)
    case _ => true
  }

  lemma AppliedKeeps(w: World, sid: nat, stmt: Stmt, aborts: bool)
    requires BaseOk(w) && sid in w.sessions && HasConn(w, sid) && MayIssue(w, sid, stmt)
    requires !Begin(w.conns[w.sessions[sid].conn.value]).txn.aborted
    ensures var id := w.sessions[sid].conn.value;
            var c := Begin(w.conns[id]);
            var after := Effect(c, stmt, Grants(w, id, stmt));
            var w' := Put(w, sid, id, after.(txn := after.txn.(aborted := aborts)), Held, EventOf(sid, c, stmt));
            BaseOk(w') && Elsewhere(w, w', sid)
  {
    hide Elsewhere;
    var id := w.sessions[sid].conn.value;
    var c := Begin(w.conns[id]);
    var after := Effect(c, stmt, Grants(w, id, stmt));
    var seen := EventOf(sid, c, stmt);
    assert Holds(w, sid, id);
    assert ScopeOk(w, sid);
    assert w.log + [] == w.log;
    if seen != [] {
      InScopeAppend(w.log, seen[0], sid);
      assert seen == [seen[0]];
      assert (w.log + seen)[..|w.log|] == w.log;
    }
    PutKeeps(w, sid, id, after.(txn := after.txn.(aborted := aborts)), Held, seen);
  }

  lemma OnConnKeeps(w: World, sid: nat, stmt: Stmt, reply: Reply)
    requires BaseOk(w) && sid in w.sessions && HasConn(w, sid) && MayIssue(w, sid, stmt)
    ensures var w' := OnConn(w, sid, stmt, reply).0; BaseOk(w') && Elsewhere(w, w', sid)
  {
    var id := w.sessions[sid].conn.value;
    var c := Begin(w.conns[id]);
    assert Holds(w, sid, id);
    assert ScopeOk(w, sid);
    assert w.log + [] == w.log;
    InScopeAppend(w.log, Ended(sid), sid);
    match reply
    case Lost =>
      PutKeeps(w, sid, id, c, Dropped, [Ended(sid)]);
    case Done =>
      if !c.txn.aborted {
        AppliedKeeps(w, sid, stmt, false);
        var after := Effect(c, stmt, Grants(w, id, stmt));
        assert after.(txn := after.txn.(aborted := false)) == after;
      }
    case Error(applied, aborts) =>
      if !c.txn.aborted {
        if applied {
          AppliedKeeps(w, sid, stmt, aborts);
        } else {
          PutKeeps(w, sid, id, c.(txn := c.txn.(aborted := aborts)), Held, []);
        }
      }
  }

  /** Whether the session is on its tenant path after a statement that succeeded. */
  predicate PathAfter(w: World, sid: nat, stmt: Stmt) {
    match stmt
    case SetPath(_) => false
    case SetLocalPath(p) => p.TenantFirst?
    case _ => OnTenantPath(w, sid)
  }

  predicate ConnLocks(w: World, sid: nat, key: int)
    requires sid in w.sessions
  {
    HasConn(w, sid) && w.conns[w.sessions[sid].conn.value].locks[key] > 0
  }

  lemma OnConnEffect(w: World, sid: nat, stmt: Stmt, reply: Reply)
    requires sid in w.sessions && HasConn(w, sid) && MayIssue(w, sid, stmt)
    requires !w.conns[w.sessions[sid].conn.value].sessionPath.TenantFirst?
    ensures var (w', ok) := OnConn(w, sid, stmt, reply);
            ok ==>
              && (OnTenantPath(w', sid) <==> PathAfter(w, sid, stmt))
              && (!stmt.AdvisoryUnlock? ==> forall k :: ConnLocks(w, sid, k) ==> ConnLocks(w', sid, k))
              && (stmt.TryAdvisoryLock? && LockFree(w, w.sessions[sid].conn.value, stmt.key) ==>
                    ConnLocks(w', sid, stmt.key))
  {}

  lemma ExecuteKeeps(w: World, sid: nat, pick: nat, stmt: Stmt, reply: Reply)
    requires BaseOk(w) && sid in w.sessions && MayIssue(w, sid, stmt)
    ensures var w' := Execute(w, sid, pick, stmt, reply).0; BaseOk(w') && Elsewhere(w, w', sid)
  {
    CheckoutKeeps(w, sid, pick);
    var held := Checkout(w, sid, pick);
    if HasConn(held, sid) {
      OnConnKeeps(held, sid, stmt, reply);
      var w' := OnConn(held, sid, stmt, reply).0;
      ElsewhereChains(w, held, w', sid);
    }
  }

  lemma ElsewhereChains(w: World, w1: World, w2: World, sid: nat)
    requires Elsewhere(w, w1, sid) && Elsewhere(w1, w2, sid)
    ensures Elsewhere(w, w2, sid)
  {}

  /** Borrowing a connection changes neither the path nor the locks the session has. */
  lemma CheckoutEffect(w: World, sid: nat, pick: nat, stmt: Stmt)
    requires BaseOk(w) && sid in w.sessions && MayIssue(w, sid, stmt)
    requires HasConn(Checkout(w, sid, pick), sid)
    ensures var held := Checkout(w, sid, pick);
            && MayIssue(held, sid, stmt) && (PathAfter(held, sid, stmt) <==> PathAfter(w, sid, stmt))
            && (forall k :: ConnLocks(w, sid, k) ==> ConnLocks(held, sid, k))
            && !held.conns[held.sessions[sid].conn.value].sessionPath.TenantFirst?
            && (stmt.TryAdvisoryLock? ==>
                  (LockGranted(w, sid, pick, stmt.key) <==> LockFree(held, held.sessions[sid].conn.value, stmt.key)))
  {
    CheckoutKeeps(w, sid, pick);
  }

  lemma ExecuteEffect(w: World, sid: nat, pick: nat, stmt: Stmt, reply: Reply)
    requires BaseOk(w) && sid in w.sessions && MayIssue(w, sid, stmt)
    requires Execute(w, sid, pick, stmt, reply).1
    ensures var w' := Execute(w, sid, pick, stmt, reply).0;
            && (OnTenantPath(w', sid) <==> PathAfter(w, sid, stmt))
            && (!stmt.AdvisoryUnlock? ==> forall k :: ConnLocks(w, sid, k) ==> ConnLocks(w', sid, k))
            && (stmt.TryAdvisoryLock? && LockGranted(w, sid, pick, stmt.key) ==> ConnLocks(w', sid, stmt.key))
  {
    CheckoutEffect(w, sid, pick, stmt);
    OnConnEffect(Checkout(w, sid, pick), sid, stmt, reply);
  }

  /** A call on a held connection keeps that connection or loses it. */
  lemma ExecuteConn(w: World, sid: nat, pick: nat, stmt: Stmt, reply: Reply)
    requires sid in w.sessions && HasConn(w, sid)
    ensures var (w', ok) := Execute(w, sid, pick, stmt, reply);
            && (w'.sessions[sid].conn == w.sessions[sid].conn || w'.sessions[sid].conn.None?)
            && (ok ==> w'.sessions[sid].conn == w.sessions[sid].conn)
  {}

  lemma CommitConn(w: World, sid: nat, reply: Reply)
    requires sid in w.sessions && HasConn(w, sid)
    ensures var (w', ok) := Commit(w, sid, reply);
            && (w'.sessions[sid].conn == w.sessions[sid].conn || w'.sessions[sid].conn.None?)
            && (ok ==> w'.sessions[sid].conn.None?)
  {}

  /** A SET LOCAL to a tenant schema that succeeds is logged. */
  lemma ExecuteLogs(w: World, sid: nat, pick: nat, stmt: Stmt, reply: Reply)
    requires sid in w.sessions && Execute(w, sid, pick, stmt, reply).1
    ensures stmt.SetLocalPath? && stmt.path.TenantFirst? ==> Scoped(sid) in Execute(w, sid, pick, stmt, reply).0.log
  {}

  lemma EndTxnKeeps(w: World, sid: nat, c: Conn, reply: Reply)
    requires BaseOk(w) && sid in w.sessions && HasConn(w, sid)
    requires ConnClean(c) && c.txn.NoTxn? && c.locks == w.conns[w.sessions[sid].conn.value].locks
    ensures var (w', ok) := EndTxn(w, sid, c, reply);
            BaseOk(w') && Elsewhere(w, w', sid) && (ok ==> w'.sessions[sid].conn.None?)
  {
    var id := w.sessions[sid].conn.value;
    assert Holds(w, sid, id);
    InScopeAppend(w.log, Ended(sid), sid);
    match reply
    case Done => PutKeeps(w, sid, id, c, Returned, [Ended(sid)]);
    case Error(applied, _) => if applied { PutKeeps(w, sid, id, c, Held, [Ended(sid)]); }
    case Lost => PutKeeps(w, sid, id, c, Dropped, [Ended(sid)]);
  }

  lemma CommitKeeps(w: World, sid: nat, reply: Reply)
    requires BaseOk(w) && sid in w.sessions
    ensures var (w', ok) := Commit(w, sid, reply);
            BaseOk(w') && Elsewhere(w, w', sid) && (ok ==> w'.sessions[sid].conn.None?)
  {
    if HasConn(w, sid) {
      EndTxnKeeps(w, sid, Committed(w.conns[w.sessions[sid].conn.value]), reply);
    } else {
      assert w.sessions[sid].conn.Some? ==> Holds(w, sid, w.sessions[sid].conn.value);
    }
  }

  lemma RollbackKeeps(w: World, sid: nat, reply: Reply)
    requires BaseOk(w) && sid in w.sessions
    ensures var w' := Rollback(w, sid, reply).0; BaseOk(w') && Elsewhere(w, w', sid)
  {
    if HasConn(w, sid) {
      EndTxnKeeps(w, sid, RolledBack(w.conns[w.sessions[sid].conn.value]), reply);
    }
  }

  lemma CloseKeeps(w: World, sid: nat, reply: Reply)
    requires BaseOk(w) && sid in w.sessions
    ensures var w' := Close(w, sid, reply);
            BaseOk(w') && Elsewhere(w, w', sid) && w'.sessions[sid].conn.None?
  {
    if HasConn(w, sid) {
      var id := w.sessions[sid].conn.value;
      assert Holds(w, sid, id);
      InScopeAppend(w.log, Ended(sid), sid);
      PutKeeps(w, sid, id, RolledBack(w.conns[id]), if reply.Done? then Returned else Dropped, [Ended(sid)]);
    } else {
      assert w.sessions[sid].conn.Some? ==> Holds(w, sid, w.sessions[sid].conn.value);
    }
  }

  // ---------------------------------------------------------------- local changes

  /** Changing program variables of `sid`, not its connection or its program. */
  lemma LocalsKeep(w: World, sid: nat, s: Session)
    requires BaseOk(w) && sid in w.sessions
    requires s.conn == w.sessions[sid].conn && s.prog == w.sessions[sid].prog
    requires OnTenantPath(w, sid) ==> Home(s) == Home(w.sessions[sid])
    ensures var w' := SetSession(w, sid, s); BaseOk(w') && Elsewhere(w, w', sid)
  {
    var w' := SetSession(w, sid, s);
    assert forall t, id :: Holds(w', t, id) <==> Holds(w, t, id);
    forall i | 0 <= i < |w'.log| ensures EventOk(w', i) {
      assert EventOk(w, i);
    }
    forall t | t in w'.sessions ensures ScopeOk(w', t) {
      assert ScopeOk(w, t);
    }
  }

  /** Another session's step does not disturb what this one knows about itself. */
  lemma OthersKeepPc(hash: string -> int, w: World, w': World, sid: nat)
    requires Inv(hash, w) && Elsewhere(w, w', sid)
    ensures forall s :: s != sid && s in w.sessions ==> s in w'.sessions && PcOk(hash, w', s)
  {
    forall s | s != sid && s in w.sessions ensures s in w'.sessions && PcOk(hash, w', s) {
      assert PcOk(hash, w, s);
      assert w.sessions[s].conn.Some? ==> Holds(w, s, w.sessions[s].conn.value);
    }
  }

  // ------------------------------------------------------------- every step keeps it

  /** A call has been made for `sid`; now its program variables become `s`. */
  lemma Seal(hash: string -> int, w: World, w1: World, sid: nat, s: Session)
    requires Inv(hash, w) && sid in w.sessions && BaseOk(w1) && Elsewhere(w, w1, sid)
    requires OnlyConnChanged(w, w1, sid)
    requires s.conn == w1.sessions[sid].conn && s.prog == w1.sessions[sid].prog
    requires OnTenantPath(w1, sid) ==> Home(s) == Home(w1.sessions[sid])
    requires PcOk(hash, SetSession(w1, sid, s), sid)
    ensures Inv(hash, SetSession(w1, sid, s))
  {
    LocalsKeep(w1, sid, s);
    var w2 := SetSession(w1, sid, s);
    ElsewhereChains(w, w1, w2, sid);
    OthersKeepPc(hash, w, w2, sid);
  }

  lemma ElsewhereSelf(w: World, sid: nat)
    ensures Elsewhere(w, w, sid)
  {}

  /** The program variables after an exception. */
  function Failed(s: Session, pc: Pc, cause: Cause): Session {
    s.(pc := pc, original := Some(cause), errors := s.errors + [cause])
  }

  lemma BodyStepKeeps(hash: string -> int, w: World, sid: nat, ch: Choice)
    requires Inv(hash, w) && sid in w.sessions
    requires !w.sessions[sid].prog.RefreshJob? && w.sessions[sid].pc.Body?
    ensures Inv(hash, BodyStep(w, sid, ch))
  {
    hide Execute, Commit, Rollback, PoolOk, LocksExclusive, LogOk, ScopeOk;
    var s := w.sessions[sid];
    var w1 := BodyStep(w, sid, ch);
    assert PcOk(hash, w, sid);
    match ch.op
    case Query =>
      ExecuteKeeps(w, sid, ch.pick, Select, ch.reply);
      OthersKeepPc(hash, w, w1, sid);
    case BodyCommit =>
      CommitKeeps(w, sid, ch.reply);
      OthersKeepPc(hash, w, w1, sid);
    case BodyRollback =>
      RollbackKeeps(w, sid, ch.reply);
      OthersKeepPc(hash, w, w1, sid);
    case Rescope =>
      ExecuteKeeps(w, sid, ch.pick, RescopeStmt(s), ch.reply);
      OthersKeepPc(hash, w, w1, sid);
    case Return =>
      ElsewhereSelf(w, sid);
      Seal(hash, w, w, sid, s.(pc := FinalCommit));
    case Raise =>
      ElsewhereSelf(w, sid);
      Seal(hash, w, w, sid, Failed(s, HandlerOf(s, ch.base), BodyError));
  }

  /** `s` is an acceptable state of the program variables once a call led to `w1`. */
  ghost predicate Resumes(hash: string -> int, w: World, w1: World, sid: nat, s: Session)
    requires sid in w.sessions
  {
    && OnlyConnChanged(w, w1, sid)
    && s.conn == w1.sessions[sid].conn && s.prog == w.sessions[sid].prog
    && (s.todo == w.sessions[sid].todo || !OnTenantPath(w1, sid))
    && PcOk(hash, SetSession(w1, sid, s), sid)
  }

  lemma AfterExecute(hash: string -> int, w: World, sid: nat, pick: nat, stmt: Stmt, reply: Reply, s: Session)
    requires Inv(hash, w) && sid in w.sessions && MayIssue(w, sid, stmt)
    requires Resumes(hash, w, Execute(w, sid, pick, stmt, reply).0, sid, s)
    ensures Inv(hash, SetSession(Execute(w, sid, pick, stmt, reply).0, sid, s))
  {
    ExecuteKeeps(w, sid, pick, stmt, reply);
    Seal(hash, w, Execute(w, sid, pick, stmt, reply).0, sid, s);
  }

  lemma AfterCommit(hash: string -> int, w: World, sid: nat, reply: Reply, s: Session)
    requires Inv(hash, w) && sid in w.sessions
    requires Resumes(hash, w, Commit(w, sid, reply).0, sid, s)
    ensures Inv(hash, SetSession(Commit(w, sid, reply).0, sid, s))
  {
    CommitKeeps(w, sid, reply);
    Seal(hash, w, Commit(w, sid, reply).0, sid, s);
  }

  /** Success of a commit leaves the session without a connection. */
  lemma CommitReleases(hash: string -> int, w: World, sid: nat, reply: Reply)
    requires Inv(hash, w) && sid in w.sessions && Commit(w, sid, reply).1
    ensures !OnTenantPath(Commit(w, sid, reply).0, sid)
  {
    CommitKeeps(w, sid, reply);
  }

  lemma NoCall(hash: string -> int, w: World, sid: nat, s: Session)
    requires Inv(hash, w) && sid in w.sessions
    requires Resumes(hash, w, w, sid, s)
    ensures Inv(hash, SetSession(w, sid, s))
  {
    ElsewhereSelf(w, sid);
    Seal(hash, w, w, sid, s);
  }

  lemma CloseStepKeeps(hash: string -> int, w: World, sid: nat, ch: Choice)
    requires Inv(hash, w) && sid in w.sessions
    ensures Inv(hash, CloseStep(w, sid, ch.reply))
  {
    CloseKeeps(w, sid, ch.reply);
    var w1 := Close(w, sid, ch.reply);
    Seal(hash, w, w1, sid, CloseStep(w, sid, ch.reply).sessions[sid]);
  }

  lemma ExceptStepKeeps(hash: string -> int, w: World, sid: nat, ch: Choice)
    requires Inv(hash, w) && sid in w.sessions && !w.sessions[sid].prog.RefreshJob?
    requires w.sessions[sid].pc.Except?
    ensures Inv(hash, GeneratorStep(w, sid, ch))
  {
    assert PcOk(hash, w, sid);
    RollbackKeeps(w, sid, ch.reply);
    var (w1, ok) := Rollback(w, sid, ch.reply);
    Seal(hash, w, w1, sid, GeneratorStep(w, sid, ch).sessions[sid]);
  }

  lemma OpeningKeeps(hash: string -> int, w: World, sid: nat, ch: Choice)
    requires Inv(hash, w) && sid in w.sessions && !w.sessions[sid].prog.RefreshJob?
    requires w.sessions[sid].pc.Opening?
    ensures Inv(hash, GeneratorStep(w, sid, ch))
  {
    var s := w.sessions[sid];
    var (w1, ok) := Execute(w, sid, ch.pick, OpeningStmt(s), ch.reply);
    if ok { ExecuteLogs(w, sid, ch.pick, OpeningStmt(s), ch.reply); }
    var t := w1.sessions[sid];
    AfterExecute(hash, w, sid, ch.pick, OpeningStmt(s), ch.reply,
                 if ok then t.(pc := Body) else Failed(t, Except, OpenError));
  }

  lemma ResetSetKeeps(hash: string -> int, w: World, sid: nat, ch: Choice)
    requires Inv(hash, w) && sid in w.sessions && !w.sessions[sid].prog.RefreshJob?
    requires w.sessions[sid].pc.ResetSet?
    ensures Inv(hash, GeneratorStep(w, sid, ch))
  {
    var (w1, ok) := Execute(w, sid, ch.pick, SetPath(Public), ch.reply);
    AfterExecute(hash, w, sid, ch.pick, SetPath(Public), ch.reply, GeneratorStep(w, sid, ch).sessions[sid]);
  }

  lemma CommitStepKeeps(hash: string -> int, w: World, sid: nat, ch: Choice)
    requires Inv(hash, w) && sid in w.sessions && !w.sessions[sid].prog.RefreshJob?
    requires w.sessions[sid].pc.FinalCommit? || w.sessions[sid].pc.ResetCommit?
    ensures Inv(hash, GeneratorStep(w, sid, ch))
  {
    AfterCommit(hash, w, sid, ch.reply, GeneratorStep(w, sid, ch).sessions[sid]);
  }

  lemma GeneratorStepKeeps(hash: string -> int, w: World, sid: nat, ch: Choice)
    requires Inv(hash, w) && sid in w.sessions && !w.sessions[sid].prog.RefreshJob?
    ensures Inv(hash, GeneratorStep(w, sid, ch))
  {
    match w.sessions[sid].pc
    case Opening => OpeningKeeps(hash, w, sid, ch);
    case Body => BodyStepKeeps(hash, w, sid, ch);
    case FinalCommit => CommitStepKeeps(hash, w, sid, ch);
    case Except => ExceptStepKeeps(hash, w, sid, ch);
    case ResetSet => ResetSetKeeps(hash, w, sid, ch);
    case ResetCommit => CommitStepKeeps(hash, w, sid, ch);
    case Closing => CloseStepKeeps(hash, w, sid, ch);
    case _ =>
  }

  lemma RefreshStepKeeps(hash: string -> int, w: World, sid: nat, ch: Choice)
    requires Inv(hash, w) && sid in w.sessions && w.sessions[sid].prog.RefreshJob?
    ensures Inv(hash, RefreshStep(hash, w, sid, ch))
  {
    var s := w.sessions[sid];
    match s.pc
    case Discover =>
      DiscoverKeeps(hash, w, sid, ch);
    case NextSchema =>
      assert PcOk(hash, w, sid);
      NoCall(hash, w, sid,
             if s.todo == [] then s.(pc := Closing)
             else if SafeIdentifier(s.todo[0]) then s.(pc := TryLock)
             else Failed(s, Closing, NameError));
    case Closing =>
      CloseStepKeeps(hash, w, sid, ch);
    case _ =>
      if s.todo != [] {
        CurrentSchemaStepKeeps(hash, w, sid, ch);
      }
  }

  lemma DiscoverKeeps(hash: string -> int, w: World, sid: nat, ch: Choice)
    requires Inv(hash, w) && sid in w.sessions && w.sessions[sid].prog.RefreshJob? && w.sessions[sid].pc.Discover?
    ensures Inv(hash, RefreshStep(hash, w, sid, ch))
  {
    assert PcOk(hash, w, sid);
    var (w1, ok) := Execute(w, sid, ch.pick, Select, ch.reply);
    if ok { ExecuteEffect(w, sid, ch.pick, Select, ch.reply); }
    var t := w1.sessions[sid];
    AfterExecute(hash, w, sid, ch.pick, Select, ch.reply,
                 if ok then t.(pc := NextSchema, todo := ch.found) else Failed(t, Closing, DiscoverError));
  }

  lemma CurrentSchemaStepKeeps(hash: string -> int, w: World, sid: nat, ch: Choice)
    requires Inv(hash, w) && sid in w.sessions && w.sessions[sid].prog.RefreshJob? && w.sessions[sid].todo != []
    ensures Inv(hash, CurrentSchemaStep(hash(LockName(w.sessions[sid].todo[0])), w, sid, ch))
  {
    match w.sessions[sid].pc
    case TryLock => TryLockKeeps(hash, w, sid, ch);
    case LockedSetPath => LockedSetPathKeeps(hash, w, sid, ch);
    case Refreshing => RefreshingKeeps(hash, w, sid, ch);
    case RefreshCommit => RefreshCommitKeeps(hash, w, sid, ch);
    case UnlockExec => UnlockExecKeeps(hash, w, sid, ch);
    case UnlockCommit => UnlockCommitKeeps(hash, w, sid, ch);
    case _ =>
  }

  lemma RefreshCommitKeeps(hash: string -> int, w: World, sid: nat, ch: Choice)
    requires Inv(hash, w) && sid in w.sessions && w.sessions[sid].prog.RefreshJob? && w.sessions[sid].todo != []
    requires w.sessions[sid].pc.RefreshCommit?
    ensures Inv(hash, CurrentSchemaStep(hash(LockName(w.sessions[sid].todo[0])), w, sid, ch))
  {
    assert PcOk(hash, w, sid);
    CommitConn(w, sid, ch.reply);
    var (w1, ok) := Commit(w, sid, ch.reply);
    var t := w1.sessions[sid];
    AfterCommit(hash, w, sid, ch.reply, if ok then t.(pc := UnlockExec) else Failed(t, UnlockExec, CommitError));
  }

  lemma UnlockExecKeeps(hash: string -> int, w: World, sid: nat, ch: Choice)
    requires Inv(hash, w) && sid in w.sessions && w.sessions[sid].prog.RefreshJob? && w.sessions[sid].todo != []
    requires w.sessions[sid].pc.UnlockExec?
    ensures Inv(hash, CurrentSchemaStep(hash(LockName(w.sessions[sid].todo[0])), w, sid, ch))
  {
    var stmt := AdvisoryUnlock(hash(LockName(w.sessions[sid].todo[0])));
    var (w1, ok) := Execute(w, sid, ch.pick, stmt, ch.reply);
    var t := w1.sessions[sid];
    if ok {
      AfterExecute(hash, w, sid, ch.pick, stmt, ch.reply, t.(pc := UnlockCommit));
    } else {
      AfterExecute(hash, w, sid, ch.pick, stmt, ch.reply, Failed(t, Closing, UnlockError));
    }
  }

  lemma UnlockCommitKeeps(hash: string -> int, w: World, sid: nat, ch: Choice)
    requires Inv(hash, w) && sid in w.sessions && w.sessions[sid].prog.RefreshJob? && w.sessions[sid].todo != []
    requires w.sessions[sid].pc.UnlockCommit?
    ensures Inv(hash, CurrentSchemaStep(hash(LockName(w.sessions[sid].todo[0])), w, sid, ch))
  {
    var (w1, ok) := Commit(w, sid, ch.reply);
    if ok { CommitReleases(hash, w, sid, ch.reply); }
    var t := w1.sessions[sid];
    AfterCommit(hash, w, sid, ch.reply,
                if !ok then Failed(t, Closing, UnlockError)
                else if w.sessions[sid].original.Some? then t.(pc := Closing)
                else t.(pc := NextSchema, todo := t.todo[1..], view := 0));
  }

  lemma TryLockKeeps(hash: string -> int, w: World, sid: nat, ch: Choice)
    requires Inv(hash, w) && sid in w.sessions && w.sessions[sid].prog.RefreshJob? && w.sessions[sid].todo != []
    requires w.sessions[sid].pc.TryLock?
    ensures Inv(hash, CurrentSchemaStep(hash(LockName(w.sessions[sid].todo[0])), w, sid, ch))
  {
    assert PcOk(hash, w, sid);
    var key := hash(LockName(w.sessions[sid].todo[0]));
    var stmt := TryAdvisoryLock(key);
    var granted := LockGranted(w, sid, ch.pick, key);
    var (w1, ok) := Execute(w, sid, ch.pick, stmt, ch.reply);
    if ok { ExecuteEffect(w, sid, ch.pick, stmt, ch.reply); }
    var t := w1.sessions[sid];
    AfterExecute(hash, w, sid, ch.pick, stmt, ch.reply,
                 if !ok then Failed(t, Closing, LockError)
                 else if granted then t.(pc := LockedSetPath, lockedOn := t.conn)
                 else t.(pc := NextSchema, todo := t.todo[1..], view := 0));
  }

  lemma LockedSetPathKeeps(hash: string -> int, w: World, sid: nat, ch: Choice)
    requires Inv(hash, w) && sid in w.sessions && w.sessions[sid].prog.RefreshJob? && w.sessions[sid].todo != []
    requires w.sessions[sid].pc.LockedSetPath?
    ensures Inv(hash, CurrentSchemaStep(hash(LockName(w.sessions[sid].todo[0])), w, sid, ch))
  {
    assert PcOk(hash, w, sid);
    var s := w.sessions[sid];
    var stmt := SetLocalPath(TenantFirst(s.todo[0]));
    ExecuteConn(w, sid, ch.pick, stmt, ch.reply);
    var (w1, ok) := Execute(w, sid, ch.pick, stmt, ch.reply);
    if ok {
      ExecuteEffect(w, sid, ch.pick, stmt, ch.reply);
      assert ConnLocks(w, sid, hash(LockName(s.todo[0])));
    }
    var t := w1.sessions[sid];
    AfterExecute(hash, w, sid, ch.pick, stmt, ch.reply,
                 if ok then t.(pc := Refreshing) else Failed(t, UnlockExec, PathError));
  }

  lemma RefreshingKeeps(hash: string -> int, w: World, sid: nat, ch: Choice)
    requires Inv(hash, w) && sid in w.sessions && w.sessions[sid].prog.RefreshJob? && w.sessions[sid].todo != []
    requires w.sessions[sid].pc.Refreshing?
    ensures Inv(hash, CurrentSchemaStep(hash(LockName(w.sessions[sid].todo[0])), w, sid, ch))
  {
    hide Execute;
    assert PcOk(hash, w, sid);
    var s := w.sessions[sid];
    if s.view >= |s.prog.views| {
      NoCall(hash, w, sid, s.(pc := RefreshCommit));
    } else if s.prog.views[s.view] !in MATERIALIZED_VIEWS {
      NoCall(hash, w, sid, Failed(s, UnlockExec, ViewError));
    } else {
      RefreshStmtKeeps(hash, w, sid, ch);
    }
  }

  lemma RefreshStmtKeeps(hash: string -> int, w: World, sid: nat, ch: Choice)
    requires Inv(hash, w) && sid in w.sessions && w.sessions[sid].prog.RefreshJob? && w.sessions[sid].todo != []
    requires var s := w.sessions[sid];
             s.pc.Refreshing? && s.view < |s.prog.views| && s.prog.views[s.view] in MATERIALIZED_VIEWS
    ensures Inv(hash, CurrentSchemaStep(hash(LockName(w.sessions[sid].todo[0])), w, sid, ch))
  {
    hide Execute, BaseOk;
    var s := w.sessions[sid];
    var stmt := Refresh(s.todo[0], s.prog.views[s.view]);
    assert PcOk(hash, w, sid);
    ExecuteConn(w, sid, ch.pick, stmt, ch.reply);
    var (w1, ok) := Execute(w, sid, ch.pick, stmt, ch.reply);
    if ok {
      ExecuteEffect(w, sid, ch.pick, stmt, ch.reply);
      assert ConnLocks(w, sid, hash(LockName(s.todo[0])));
    }
    var t := w1.sessions[sid];
    AfterExecute(hash, w, sid, ch.pick, stmt, ch.reply,
                 if ok then t.(view := s.view + 1) else Failed(t, UnlockExec, RefreshError));
  }

  lemma SpawnKeeps(hash: string -> int, w: World, sid: nat, prog: Program)
    requires Inv(hash, w)
    ensures Inv(hash, Step(hash, w, Spawn(sid, prog)))
  {
    var w' := Step(hash, w, Spawn(sid, prog));
    if w' != w {
      assert forall t, id :: Holds(w', t, id) <==> Holds(w, t, id);
      forall i | 0 <= i < |w'.log| ensures EventOk(w', i) {
        assert EventOk(w, i);
      }
      forall i | 0 <= i < |w.log| ensures w.log[i].sid != sid {
        assert EventOk(w, i);
      }
      NoEventsNoScope(w.log, sid);
      forall t | t in w'.sessions ensures ScopeOk(w', t) && PcOk(hash, w', t) {
        if t != sid {
          assert ScopeOk(w, t) && PcOk(hash, w, t);
        }
      }
    }
  }

  /** A session without events is in nobody's scope. */
  lemma {:induction false} NoEventsNoScope(log: seq<Event>, sid: nat)
    requires forall i :: 0 <= i < |log| ==> log[i].sid != sid
    ensures !InScope(log, sid)
  {
    if log != [] {
      NoEventsNoScope(log[..|log| - 1], sid);
    }
  }

  lemma EvictKeeps(hash: string -> int, w: World, id: nat)
    requires Inv(hash, w)
    ensures Inv(hash, Step(hash, w, Evict(id)))
  {
    var w' := Step(hash, w, Evict(id));
    if w' != w {
      assert forall t, k :: Holds(w', t, k) <==> Holds(w, t, k);
      forall i | 0 <= i < |w'.log| ensures EventOk(w', i) {
        assert EventOk(w, i);
      }
      forall t | t in w'.sessions ensures ScopeOk(w', t) && PcOk(hash, w', t) {
        assert ScopeOk(w, t) && PcOk(hash, w, t);
        assert w.sessions[t].conn.Some? ==> Holds(w, t, w.sessions[t].conn.value);
      }
    }
  }

  lemma StepKeeps(hash: string -> int, w: World, a: Action)
    requires Inv(hash, w)
    ensures Inv(hash, Step(hash, w, a))
  {
    match a
    case Spawn(sid, prog) => SpawnKeeps(hash, w, sid, prog);
    case Advance(sid, ch) =>
      if sid in w.sessions {
        if w.sessions[sid].prog.RefreshJob? {
          RefreshStepKeeps(hash, w, sid, ch);
        } else {
          GeneratorStepKeeps(hash, w, sid, ch);
        }
      }
    case Evict(id) => EvictKeeps(hash, w, id);
  }

  /** The invariant holds after every schedule. */
  lemma {:induction false} RunKeeps(hash: string -> int, schedule: seq<Action>)
    ensures Inv(hash, Run(hash, schedule))
  {
    if schedule != [] {
      RunKeeps(hash, schedule[..|schedule| - 1]);
      StepKeeps(hash, Run(hash, schedule[..|schedule| - 1]), schedule[|schedule| - 1]);
    }
  }

  // ---------------------------------------------------------------- main theorems

  /** A connection waiting in the pool has no open transaction and no tenant name in its
      session-level path, and every other connection is held by exactly one
      unfinished session: none is lost, none is shared. */
  lemma PooledConnectionsAreClean(hash: string -> int, schedule: seq<Action>)
    ensures var w := Run(hash, schedule);
            && (forall id :: id in w.idle ==>
                  id in w.conns && w.conns[id].txn.NoTxn? && !w.conns[id].sessionPath.TenantFirst?)
            && (forall id :: id in w.conns && id !in w.idle ==>
                  exists sid :: Holds(w, sid, id) && !w.sessions[sid].pc.Finished?)
            && (forall a, b, id :: Holds(w, a, id) && Holds(w, b, id) ==> a == b && id !in w.idle)
  {
    RunKeeps(hash, schedule);
    var w := Run(hash, schedule);
    forall id | id in w.conns && id !in w.idle
      ensures exists sid :: Holds(w, sid, id) && !w.sessions[sid].pc.Finished?
    {
      var sid :| Holds(w, sid, id);
      assert PcOk(hash, w, sid);
      assert Holds(w, sid, id) && !w.sessions[sid].pc.Finished?;
    }
  }

  /** A transaction of `sid` ended after its latest SET LOCAL. */
  ghost predicate EndedSinceScope(log: seq<Event>, sid: nat) {
    exists j, k :: 0 <= j < k < |log| && LatestScope(log, sid, j) && log[k] == Ended(sid)
  }

  ghost predicate LatestScope(log: seq<Event>, sid: nat, j: nat)
    requires j < |log|
  {
    log[j] == Scoped(sid) && forall m :: j < m < |log| ==> log[m] != Scoped(sid)
  }

  lemma {:induction false} ScopeIsLatest(log: seq<Event>, sid: nat)
    requires Scoped(sid) in log
    ensures InScope(log, sid) <==> !EndedSinceScope(log, sid)
  {
    var last := |log| - 1;
    var init := log[..last];
    if log[last] == Scoped(sid) {
      assert forall j :: 0 <= j < last ==> !LatestScope(log, sid, j);
    } else if log[last] == Ended(sid) {
      var j := LatestScopeAt(log, sid);
      assert LatestScope(log, sid, j) && log[last] == Ended(sid);
    } else {
      assert Scoped(sid) in init by {
        var j :| 0 <= j < |log| && log[j] == Scoped(sid);
        assert init[j] == log[j];
      }
      ScopeIsLatest(init, sid);
      if EndedSinceScope(init, sid) {
        var j, k :| 0 <= j < k < |init| && LatestScope(init, sid, j) && init[k] == Ended(sid);
        assert LatestScope(log, sid, j) && log[k] == Ended(sid);
      }
      if EndedSinceScope(log, sid) {
        var j, k :| 0 <= j < k < |log| && LatestScope(log, sid, j) && log[k] == Ended(sid);
        assert LatestScope(init, sid, j) && init[k] == Ended(sid);
      }
    }
  }

  lemma {:induction false} LatestScopeAt(log: seq<Event>, sid: nat) returns (j: nat)
    requires Scoped(sid) in log
    ensures j < |log| && LatestScope(log, sid, j)
  {
    var last := |log| - 1;
    if log[last] == Scoped(sid) {
      j := last;
    } else {
      var i :| 0 <= i < |log| && log[i] == Scoped(sid);
      assert log[..last][i] == log[i];
      j := LatestScopeAt(log[..last], sid);
    }
  }

  /** No name is ever resolved in another tenant's schema. A statement in the body of a
      session of tenant `t` comes after its SET LOCAL, and it resolves in `t` unless a
      transaction of that session ended after the latest SET LOCAL; then it resolves
      outside all tenant schemas. */
  lemma NeverAnotherTenant(hash: string -> int, schedule: seq<Action>, i: nat)
    requires i < |Run(hash, schedule).log| && Run(hash, schedule).log[i].Resolved?
    ensures var w := Run(hash, schedule);
            var e := w.log[i];
            && e.sid in w.sessions
            && (e.path.TenantFirst? ==> w.sessions[e.sid].prog == TenantDb(e.path.schema))
            && (w.sessions[e.sid].prog.TenantDb? ==>
                  && Scoped(e.sid) in w.log[..i]
                  && (e.path.TenantFirst? <==> !EndedSinceScope(w.log[..i], e.sid)))
  {
    RunKeeps(hash, schedule);
    var w := Run(hash, schedule);
    assert EventOk(w, i);
    var sid := w.log[i].sid;
    if w.sessions[sid].prog.TenantDb? { ScopeIsLatest(w.log[..i], sid); }
  }

  lemma CriticalIsExclusive(hash: string -> int, w: World, a: nat, b: nat)
    requires PoolOk(w) && LocksExclusive(w) && a in w.sessions && b in w.sessions
    requires HoldsLock(hash, w, a) && HoldsLock(hash, w, b)
    requires w.sessions[a].todo[0] == w.sessions[b].todo[0]
    ensures a == b
  {
    var key := hash(LockName(w.sessions[a].todo[0]));
    assert w.conns[w.sessions[a].conn.value].locks[key] > 0 && w.conns[w.sessions[b].conn.value].locks[key] > 0;
    assert Holds(w, a, w.sessions[a].conn.value) && Holds(w, b, w.sessions[a].conn.value);
  }

  /** Between a successful try-lock and the end of its commit a worker holds the lock of
      its schema, and no other worker is there for the same schema, whatever the
      hash function does. */
  lemma RefreshIsExclusive(hash: string -> int, schedule: seq<Action>, a: nat)
    requires a in Run(hash, schedule).sessions && Critical(Run(hash, schedule).sessions[a])
    ensures var w := Run(hash, schedule);
            && HoldsLock(hash, w, a)
            && forall b :: b in w.sessions && Critical(w.sessions[b]) && b != a ==>
                 HoldsLock(hash, w, b) && w.sessions[b].todo[0] != w.sessions[a].todo[0]
  {
    RunKeeps(hash, schedule);
    var w := Run(hash, schedule);
    assert PcOk(hash, w, a);
    forall b | b in w.sessions && Critical(w.sessions[b]) && b != a
      ensures HoldsLock(hash, w, b) && w.sessions[b].todo[0] != w.sessions[a].todo[0]
    {
      assert PcOk(hash, w, b);
      if w.sessions[b].todo[0] == w.sessions[a].todo[0] {
        CriticalIsExclusive(hash, w, a, b);
      }
    }
  }

  // ------------------------------------------------- what is not promised, by example

  lemma RunSnoc(hash: string -> int, schedule: seq<Action>, a: Action)
    ensures Run(hash, schedule + [a]) == Step(hash, Run(hash, schedule), a)
  {
    assert (schedule + [a])[..|schedule|] == schedule;
  }

  function Calm(pick: nat, op: BodyOp): Choice {
    Choice(pick, Done, op, false, [])
  }

  /** A tenant session on connection 7: spawned, in its body, and after a commit there. */
  function TenantWorld(step: nat): World {
    var s := NewSession(TenantDb("t_a"), Body, []);
    match step
    case 0 => World(map[], {}, map[0 := s.(pc := Opening)], [])
    case 1 =>
      World(map[7 := FRESH_CONN.(txn := Open(ServerDefault, TenantFirst("t_a"), false))], {},
            map[0 := s.(conn := Some(7))], [Scoped(0)])
    case _ => World(map[7 := FRESH_CONN], {7}, map[0 := s], [Scoped(0), Ended(0)])
  }

  lemma SameWorld(a: World, b: World)
    requires a.conns == b.conns && a.idle == b.idle && a.sessions == b.sessions && a.log == b.log
    ensures a == b
  {}

  lemma TenantStarts(hash: string -> int)
    ensures Run(hash, [Spawn(0, TenantDb("t_a"))]) == TenantWorld(0)
  {
    assert PlainIdentifier("t_a");
    RunSnoc(hash, [], Spawn(0, TenantDb("t_a")));
    assert [] + [Spawn(0, TenantDb("t_a"))] == [Spawn(0, TenantDb("t_a"))];
    SameWorld(Run(hash, [Spawn(0, TenantDb("t_a"))]), TenantWorld(0));
  }

  lemma TenantOpens(hash: string -> int)
    ensures Step(hash, TenantWorld(0), Advance(0, Calm(7, Query))) == TenantWorld(1)
  {
    SameWorld(Step(hash, TenantWorld(0), Advance(0, Calm(7, Query))), TenantWorld(1));
  }

  lemma TenantCommits(hash: string -> int)
    ensures Step(hash, TenantWorld(1), Advance(0, Calm(7, BodyCommit))) == TenantWorld(2)
  {
    SameWorld(Step(hash, TenantWorld(1), Advance(0, Calm(7, BodyCommit))), TenantWorld(2));
  }

  /** A commit inside the body ends the SET LOCAL: the next query of the tenant session
      resolves outside the tenant schema. */
  lemma CommitInBodyLosesTheTenant(hash: string -> int) returns (schedule: seq<Action>)
    ensures var w := Run(hash, schedule);
            && 0 in w.sessions && w.sessions[0].prog == TenantDb("t_a") && w.sessions[0].pc.Body?
            && w.log == [Scoped(0), Ended(0), Resolved(0, ServerDefault)]
  {
    var query, commit := Advance(0, Calm(7, Query)), Advance(0, Calm(7, BodyCommit));
    schedule := [Spawn(0, TenantDb("t_a"))];
    TenantStarts(hash);
    RunSnoc(hash, schedule, query); schedule := schedule + [query];
    TenantOpens(hash);
    RunSnoc(hash, schedule, commit); schedule := schedule + [commit];
    TenantCommits(hash);
    RunSnoc(hash, schedule, query); schedule := schedule + [query];
  }

}
