/**
  What a list of statements in one transaction amounts to on its connection: which path is in
  force, what a commit and a rollback leave, and how the advisory locks count.
 */
module ServerLaws {
  import opened Common
  import opened SharedPool

  /** The statements of one transaction, none of which fails; `free` says of each whether a lock
      it asks for is free. */
  function Ran(c: Conn, stmts: seq<Stmt>, free: seq<bool>): (r: Conn)
    requires |stmts| == |free|
    ensures r.txn.Open? && r.sessionPath == c.sessionPath
  {
    if stmts == [] then Begin(c)
    else
      var last := |stmts| - 1;
      Effect(Ran(c, stmts[..last], free[..last]), stmts[last], free[last])
  }

  /** The path that statement `n` sets, for the session or for the transaction only. */
  function PathOf(s: Stmt): Option<SearchPath> {
    match s
    case SetPath(p) => Some(p)
    case SetLocalPath(p) => Some(p)
    case _ => None
  }

  predicate Sets(s: Stmt, local: bool) {
    s.SetPath? || (local && s.SetLocalPath?)
  }

  /** `n` is the last statement that sets a path; without `local` only for the session. */
  predicate IsLastSet(stmts: seq<Stmt>, n: nat, local: bool) {
    n < |stmts| && Sets(stmts[n], local) && forall k :: n < k < |stmts| ==> !Sets(stmts[k], local)
  }

  predicate NoSet(stmts: seq<Stmt>, local: bool) {
    forall k :: 0 <= k < |stmts| ==> !Sets(stmts[k], local)
  }

  lemma LastSetOfMore(stmts: seq<Stmt>, s: Stmt, n: nat, local: bool)
    ensures IsLastSet(stmts + [s], n, local) <==>
            if Sets(s, local) then n == |stmts| else IsLastSet(stmts, n, local)
    ensures NoSet(stmts + [s], local) <==> NoSet(stmts, local) && !Sets(s, local)
  {
    var more := stmts + [s];
    assert more[|stmts|] == s;
    assert forall k :: 0 <= k < |stmts| ==> more[k] == stmts[k];
  }

  /** In force is the path that was set last, by SET or by SET LOCAL, else the session's. A
      commit keeps the path of the last SET, if there is one, and forgets every SET LOCAL; a
      rollback, and the commit of a doomed transaction, forget both. */
  lemma {:induction false} TheLastPathCounts(c: Conn, stmts: seq<Stmt>, free: seq<bool>, n: nat)
    requires c.txn.NoTxn? && |stmts| == |free|
    ensures var r := Ran(c, stmts, free);
            && !r.txn.aborted
            && (IsLastSet(stmts, n, true) ==> Some(r.txn.effective) == PathOf(stmts[n]))
            && (NoSet(stmts, true) ==> r.txn.effective == c.sessionPath)
            && Committed(r).txn.NoTxn? && Committed(r).locks == r.locks
            && (IsLastSet(stmts, n, false) ==> Some(Committed(r).sessionPath) == PathOf(stmts[n]))
            && (NoSet(stmts, false) ==> Committed(r).sessionPath == c.sessionPath)
            && RolledBack(r) == c.(locks := r.locks)
            && Committed(r.(txn := r.txn.(aborted := true))) == c.(locks := r.locks)
  {
    if stmts != [] {
      var last := |stmts| - 1;
      TheLastPathCounts(c, stmts[..last], free[..last], n);
      LastSetOfMore(stmts[..last], stmts[last], n, true);
      LastSetOfMore(stmts[..last], stmts[last], n, false);
      assert stmts[..last] + [stmts[last]] == stmts;
    }
  }

  /** How often the lock is held after the calls: each granted try-lock adds one, each unlock
      takes one away if there is one; ending the transaction changes nothing. */
  function Counted(held: nat, stmts: seq<Stmt>, free: seq<bool>, key: int): nat
    requires |stmts| == |free|
  {
    if stmts == [] then held
    else
      var last := |stmts| - 1;
      var n := Counted(held, stmts[..last], free[..last], key);
      if stmts[last] == TryAdvisoryLock(key) && free[last] then n + 1
      else if stmts[last] == AdvisoryUnlock(key) && n > 0 then n - 1
      else n
  }

  lemma {:induction false} LocksCount(c: Conn, stmts: seq<Stmt>, free: seq<bool>, key: int)
    requires |stmts| == |free|
    ensures Ran(c, stmts, free).locks[key] == Counted(c.locks[key], stmts, free, key)
  {
    if stmts != [] {
      LocksCount(c, stmts[..|stmts| - 1], free[..|stmts| - 1], key);
    }
  }

  // ---------------------------------------------------------------------- one call

  /** The connection a statement runs on: the session's own, or the one it is handed, idle or
      new. */
  predicate Lands(w: World, sid: nat, pick: nat, id: nat)
    requires sid in w.sessions
  {
    if w.sessions[sid].conn.Some? then w.sessions[sid].conn == Some(id) && id in w.conns
    else pick == id && (id in w.idle <==> id in w.conns)
  }

  /** The connection meant, and its state before the statement. */
  function Meant(w: World, sid: nat, pick: nat): nat
    requires sid in w.sessions
  {
    if w.sessions[sid].conn.Some? then w.sessions[sid].conn.value else pick
  }

  function StateOf(w: World, id: nat): Conn {
    if id in w.conns then w.conns[id] else Conn(ServerDefault, NoTxn, multiset{})
  }

  lemma Gets(w: World, sid: nat, pick: nat)
    requires sid in w.sessions && forall id :: id in w.idle ==> id in w.conns
    ensures var (held, id) := (Checkout(w, sid, pick), Meant(w, sid, pick));
            && sid in held.sessions && (HasConn(held, sid) <==> Lands(w, sid, pick, id))
            && (HasConn(held, sid) ==> held.sessions[sid].conn == Some(id) && held.conns[id] == StateOf(w, id))
  {}

  lemma Returns(w: World, sid: nat, stmt: Stmt, reply: Reply)
    requires sid in w.sessions && HasConn(w, sid)
    ensures var (w', ok) := OnConn(w, sid, stmt, reply);
            var id := w.sessions[sid].conn.value;
            var before := w.conns[id];
            && (ok <==> reply.Done? && !(before.txn.Open? && before.txn.aborted))
            && (ok ==> && sid in w'.sessions && w'.sessions[sid].conn == Some(id) && id !in w'.idle && id in w'.conns
                       && w'.conns[id] == Effect(Begin(before), stmt, Grants(w, id, stmt)))
  {}

  /** A statement returns normally if and only if the session gets a connection, no earlier
      error has doomed its transaction, and the server answers. Then the session has that
      connection, in the state the statement leaves. */
  lemma ReturnsExactlyWhen(w: World, sid: nat, pick: nat, stmt: Stmt, reply: Reply)
    requires sid in w.sessions && forall id :: id in w.idle ==> id in w.conns
    ensures var (w', ok) := Execute(w, sid, pick, stmt, reply);
            var id := Meant(w, sid, pick);
            var before := StateOf(w, id);
            && (ok <==> Lands(w, sid, pick, id) && reply.Done? && !(before.txn.Open? && before.txn.aborted))
            && (ok ==> && sid in w'.sessions && w'.sessions[sid].conn == Some(id) && id !in w'.idle && id in w'.conns
                       && exists free :: w'.conns[id] == Effect(Begin(before), stmt, free))
  {
    hide Checkout, OnConn, Effect, Begin, Grants, Lands;
    Gets(w, sid, pick);
    var held := Checkout(w, sid, pick);
    if HasConn(held, sid) {
      Returns(held, sid, stmt, reply);
    }
  }

  /** A try-lock is granted if and only if no other connection has the lock. */
  lemma GrantedExactlyWhen(w: World, sid: nat, pick: nat, key: int)
    requires sid in w.sessions && Lands(w, sid, pick, Meant(w, sid, pick))
    ensures var id := Meant(w, sid, pick);
            LockGranted(w, sid, pick, key) <==>
            forall other :: other in w.conns && other != id ==> w.conns[other].locks[key] == 0
  {
    var id := Meant(w, sid, pick);
    var held := Checkout(w, sid, pick);
    assert held.sessions[sid].conn == Some(id);
    forall other | other != id ensures other in held.conns <==> other in w.conns {}
  }
}
