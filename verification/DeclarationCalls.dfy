/**
  What the calls on declarations come to: where committed rows and decisions come from, when a
  call takes effect, and that nobody waits for a transaction that is over.
 */
module DeclarationCalls {
  import opened Common
  import opened Declarations
  import opened DeclarationSafety

  // ------------------------------------------------------------------------ provenance

  /** Somebody called `create` with exactly these columns. */
  ghost predicate WasCreated(actions: seq<Action>, id: Id, core: Core) {
    exists n, tx :: 0 <= n < |actions| && actions[n] == Create(tx, id, core)
  }

  /** The transaction called `mark_confirmed` or `mark_rejected` with exactly these values. */
  ghost predicate WasMarked(actions: seq<Action>, m: Mark) {
    exists n :: 0 <= n < |actions| && actions[n] == Execute(m.tx, Call(m.id, m.wholesalerId, Some(m.decision)))
  }

  /** The transaction is waiting with a call it made. */
  ghost predicate WasCalled(actions: seq<Action>, tx: Tx, call: Call) {
    exists n :: 0 <= n < |actions| && actions[n] == Execute(tx, call)
  }

  ghost predicate TxnCalled(actions: seq<Action>, s: State, tx: Tx)
    requires tx in s.txns
  {
    && (forall id :: id in s.txns[tx].writes ==> WasCreated(actions, id, s.txns[tx].writes[id].core))
    && (forall m :: m in s.txns[tx].marks ==> WasMarked(actions, m))
    && (s.txns[tx].mode.Waiting? ==> WasCalled(actions, tx, s.txns[tx].mode.call))
  }

  ghost predicate Provenance(actions: seq<Action>, s: State) {
    && (forall id :: id in s.rows ==> WasCreated(actions, id, s.rows[id].core))
    && (forall m :: m in s.history ==> WasMarked(actions, m))
    && (forall tx :: tx in s.txns ==> TxnCalled(actions, s, tx))
  }

  lemma Still(init: seq<Action>, a: Action)
    ensures forall id, core :: WasCreated(init, id, core) ==> WasCreated(init + [a], id, core)
    ensures forall m :: WasMarked(init, m) ==> WasMarked(init + [a], m)
    ensures forall tx, call :: WasCalled(init, tx, call) ==> WasCalled(init + [a], tx, call)
  {
    var more := init + [a];
    forall id, core | WasCreated(init, id, core) ensures WasCreated(more, id, core) {
      var n, tx :| 0 <= n < |init| && init[n] == Create(tx, id, core);
      assert more[n] == init[n];
    }
    forall m | WasMarked(init, m) ensures WasMarked(more, m) {
      var n :| 0 <= n < |init| && init[n] == Execute(m.tx, Call(m.id, m.wholesalerId, Some(m.decision)));
      assert more[n] == init[n];
    }
    forall tx, call | WasCalled(init, tx, call) ensures WasCalled(more, tx, call) {
      var n :| 0 <= n < |init| && init[n] == Execute(tx, call);
      assert more[n] == init[n];
    }
  }

  lemma LastAction(init: seq<Action>, a: Action)
    ensures a.Create? ==> WasCreated(init + [a], a.id, a.core)
    ensures a.Execute? ==> WasCalled(init + [a], a.tx, a.call)
  {
    assert (init + [a])[|init|] == a;
  }

  lemma CalledIsMarked(actions: seq<Action>, tx: Tx, call: Call)
    requires WasCalled(actions, tx, call) && call.decision.Some?
    ensures WasMarked(actions, Mark(tx, call.id, call.wholesalerId, call.decision.value))
  {
    var n :| 0 <= n < |actions| && actions[n] == Execute(tx, call);
    assert call == Call(call.id, call.wholesalerId, Some(call.decision.value));
  }

  lemma TakeProvenance(actions: seq<Action>, s: State, tx: Tx, call: Call)
    requires Provenance(actions, s) && tx in s.txns && Matches(Version(s, tx, call.id), call)
    requires WasCalled(actions, tx, call)
    ensures Provenance(actions, Take(s, tx, call))
  {
    hide WasCreated, WasMarked, WasCalled;
    var s2 := Take(s, tx, call);
    assert TxnCalled(actions, s, tx);
    if call.decision.Some? { CalledIsMarked(actions, tx, call); }
    forall t | t in s2.txns ensures TxnCalled(actions, s2, t) {
      assert TxnCalled(actions, s, t);
    }
  }

  lemma StepProvenance(init: seq<Action>, s: State, a: Action)
    requires Provenance(init, s)
    ensures Provenance(init + [a], Step(s, a))
  {
    hide WasCreated, WasMarked, WasCalled, Take;
    var (actions, s2) := (init + [a], Step(s, a));
    Still(init, a);
    LastAction(init, a);
    forall t | t in s.txns ensures TxnCalled(actions, s, t) { assert TxnCalled(init, s, t); }
    if Takes(s, a) {
      TakeProvenance(actions, s, a.tx, if a.Execute? then a.call else s.txns[a.tx].mode.call);
    } else {
      RestProvenance(actions, s, a);
    }
  }

  /** The action finds its row, free to be locked. */
  predicate Takes(s: State, a: Action) {
    (a.Execute? || a.Wake?) && a.tx in s.txns &&
    var mode := s.txns[a.tx].mode;
    && (if a.Execute? then mode.Ready? else mode.Waiting?)
    && var call := if a.Execute? then a.call else mode.call;
       Matches(Version(s, a.tx, call.id), call) && !LockedByOther(s, a.tx, call.id)
  }

  /** Nothing was written or committed, and whoever waits made its call. */
  ghost predicate OnlyModes(actions: seq<Action>, s: State, s2: State) {
    && s2.rows == s.rows && s2.history == s.history
    && forall t :: t in s2.txns ==>
         && (if t in s.txns then s2.txns[t].writes == s.txns[t].writes && s2.txns[t].marks == s.txns[t].marks
             else s2.txns[t].writes == map[] && s2.txns[t].marks == [])
         && (s2.txns[t].mode.Waiting? ==> WasCalled(actions, t, s2.txns[t].mode.call))
  }

  lemma ModesKeepProvenance(actions: seq<Action>, s: State, s2: State)
    requires Provenance(actions, s) && OnlyModes(actions, s, s2)
    ensures Provenance(actions, s2)
  {
    hide WasCreated, WasMarked, WasCalled;
    forall t | t in s2.txns ensures TxnCalled(actions, s2, t) {
      if t in s.txns { assert TxnCalled(actions, s, t); }
    }
  }

  lemma InsertProvenance(actions: seq<Action>, s: State, tx: Tx, id: Id, core: Core)
    requires Provenance(actions, s) && tx in s.txns && WasCreated(actions, id, core)
    ensures Provenance(actions, WithTxn(s, tx, s.txns[tx].(writes := s.txns[tx].writes[id := NewRow(core)])))
  {
    hide WasCreated, WasMarked, WasCalled;
    var s2 := WithTxn(s, tx, s.txns[tx].(writes := s.txns[tx].writes[id := NewRow(core)]));
    forall t | t in s2.txns ensures TxnCalled(actions, s2, t) { assert TxnCalled(actions, s, t); }
  }

  lemma CommitProvenance(actions: seq<Action>, s: State, tx: Tx)
    requires Provenance(actions, s) && tx in s.txns && !s.txns[tx].mode.Waiting?
    ensures Provenance(actions, CommitStep(s, tx))
  {
    hide WasCreated, WasMarked, WasCalled;
    var s2 := CommitStep(s, tx);
    assert TxnCalled(actions, s, tx);
    forall t | t in s2.txns ensures TxnCalled(actions, s2, t) { assert TxnCalled(actions, s, t); }
  }

  lemma CreateProvenance(actions: seq<Action>, s: State, tx: Tx, id: Id, core: Core)
    requires Provenance(actions, s) && tx in s.txns && s.txns[tx].mode.Ready? && WasCreated(actions, id, core)
    ensures Provenance(actions, CreateStep(s, tx, id, core))
  {
    hide Provenance, OnlyModes, WasCreated, WasMarked, WasCalled, Duplicate, Contended, CoreOk;
    if !Contended(s, tx, id, core) {
      if !CoreOk(core) || Duplicate(s, tx, id, core) {
        BreakingIsAMode(actions, s, tx, Broken);
        ModesKeepProvenance(actions, s, WithTxn(s, tx, s.txns[tx].(mode := Broken)));
      } else {
        InsertProvenance(actions, s, tx, id, core);
      }
    }
  }

  /** A change of one transaction's mode. */
  lemma BreakingIsAMode(actions: seq<Action>, s: State, tx: Tx, mode: Mode)
    requires Provenance(actions, s) && tx in s.txns && (mode.Waiting? ==> WasCalled(actions, tx, mode.call))
    ensures OnlyModes(actions, s, WithTxn(s, tx, s.txns[tx].(mode := mode)))
  {
    hide WasCreated, WasMarked, WasCalled;
    forall t | t in s.txns ensures s.txns[t].mode.Waiting? ==> WasCalled(actions, t, s.txns[t].mode.call) {
      assert TxnCalled(actions, s, t);
    }
  }

  lemma OpenTxns(actions: seq<Action>, s: State, s2: State)
    requires Provenance(actions, s) && s2.rows == s.rows && s2.history == s.history
    requires forall t :: t in s2.txns ==>
               if t in s.txns then s2.txns[t] == s.txns[t] else s2.txns[t] == Txn(Ready, map[], [])
    ensures Provenance(actions, s2)
  {
    hide WasCreated, WasMarked, WasCalled;
    forall t | t in s2.txns ensures TxnCalled(actions, s2, t) {
      if t in s.txns { assert TxnCalled(actions, s, t); }
    }
  }

  lemma RestProvenance(actions: seq<Action>, s: State, a: Action)
    requires Provenance(actions, s) && !Takes(s, a)
    requires a.Create? ==> WasCreated(actions, a.id, a.core)
    requires a.Execute? ==> WasCalled(actions, a.tx, a.call)
    ensures Provenance(actions, Step(s, a))
  {
    hide Provenance, OnlyModes, WasCreated, WasMarked, WasCalled, Matches, Version, LockedByOther;
    hide CreateStep, CommitStep;
    match a
    case Create(tx, id, core) =>
      if tx in s.txns && s.txns[tx].mode.Ready? { CreateProvenance(actions, s, tx, id, core); }
    case Commit(tx) => if tx in s.txns && !s.txns[tx].mode.Waiting? { CommitProvenance(actions, s, tx); }
    case Execute(tx, call) =>
      if tx in s.txns && s.txns[tx].mode.Ready? && Matches(Version(s, tx, call.id), call) {
        BreakingIsAMode(actions, s, tx, Waiting(call));
        ModesKeepProvenance(actions, s, Step(s, a));
      }
    case Wake(tx) =>
      if tx in s.txns && s.txns[tx].mode.Waiting? {
        BreakingIsAMode(actions, s, tx, Ready);
        ModesKeepProvenance(actions, s, WithTxn(s, tx, s.txns[tx].(mode := Ready)));
      }
    case _ => OpenTxns(actions, s, Step(s, a));
  }

  /** For every run: the columns of a committed row are those of a `create`, and every committed
      decision was called for by its transaction, with its values. */
  lemma {:induction false} NothingIsInvented(actions: seq<Action>)
    ensures Provenance(actions, Run(actions))
  {
    hide Step, WasCreated, WasMarked, WasCalled, TxnCalled;
    if actions != [] {
      var init, a := actions[..|actions| - 1], actions[|actions| - 1];
      NothingIsInvented(init);
      StepProvenance(init, Run(init), a);
      assert actions == init + [a];
    }
  }

  // --------------------------------------------------------------------------- locks

  /** Every row lock belongs to an open transaction. */
  ghost predicate LocksAreOpen(s: State) {
    forall id :: id in s.locks ==> s.locks[id] in s.txns
  }

  lemma TakeLocksAreOpen(s: State, tx: Tx, call: Call)
    requires LocksAreOpen(s) && tx in s.txns && Matches(Version(s, tx, call.id), call)
    ensures LocksAreOpen(Take(s, tx, call))
  {
    hide Version, Matches, Apply;
  }

  lemma StepLocksAreOpen(s: State, a: Action)
    requires LocksAreOpen(s)
    ensures LocksAreOpen(Step(s, a))
  {
    hide Take, Version, Matches, Contended, Duplicate, CoreOk;
    if Takes(s, a) { TakeLocksAreOpen(s, a.tx, if a.Execute? then a.call else s.txns[a.tx].mode.call); }
  }

  lemma {:induction false} RunLocksAreOpen(actions: seq<Action>)
    ensures LocksAreOpen(Run(actions))
  {
    hide Step;
    if actions != [] {
      RunLocksAreOpen(actions[..|actions| - 1]);
      StepLocksAreOpen(Run(actions[..|actions| - 1]), actions[|actions| - 1]);
    }
  }

  /** In every reachable state, a transaction that waits has to wait for an open transaction
      that holds the row; if there is none, its call goes on at once: it takes the row if
      that still matches, and otherwise raises. */
  lemma NobodyWaitsForTheDead(actions: seq<Action>, tx: Tx)
    requires tx in Run(actions).txns && Run(actions).txns[tx].mode.Waiting?
    ensures var s := Run(actions);
            var call := s.txns[tx].mode.call;
            && (Step(s, Wake(tx)) == s ==> call.id in s.locks && s.locks[call.id] != tx && s.locks[call.id] in s.txns)
            && (Step(s, Wake(tx)) != s ==> tx in Step(s, Wake(tx)).txns && Step(s, Wake(tx)).txns[tx].mode.Ready?)
  {
    hide Run;
    RunLocksAreOpen(actions);
  }

  // -------------------------------------------------------------------- taking effect

  /** The row with the columns of the decision and nothing else changed. */
  predicate Decided(before: Row, r: Row, d: Decision) {
    && r.core == before.core
    && match d
       case Confirm(who, at, payment) =>
         && r.status.Confirmed? && r.confirmedBy == Some(who) && r.confirmedAt == Some(at)
         && r.confirmationPaymentId == Some(payment)
         && r.rejectedBy == before.rejectedBy && r.rejectedAt == before.rejectedAt && r.reason == before.reason
       case Reject(who, at, reason) =>
         && r.status.Rejected? && r.rejectedBy == Some(who) && r.rejectedAt == Some(at) && r.reason == Some(reason)
         && r.confirmedBy == before.confirmedBy && r.confirmedAt == before.confirmedAt
         && r.confirmationPaymentId == before.confirmationPaymentId
  }

  /** As INSERT leaves it. */
  predicate Undecided(r: Row) {
    && r.status.Pending? && r.confirmedBy.None? && r.confirmedAt.None? && r.confirmationPaymentId.None?
    && r.rejectedBy.None? && r.rejectedAt.None? && r.reason.None?
  }

  /** Column by column: a committed decision shows in its row with its own values, and a row
      without one has none of these columns set. */
  lemma EveryColumnIsAccountedFor(actions: seq<Action>, id: Id)
    requires id in Run(actions).rows
    ensures var (r, history) := (Run(actions).rows[id], Run(actions).history);
            && (!MarkedIn(history, id) ==> Undecided(r))
            && (forall i :: 0 <= i < |history| && history[i].id == id ==>
                  && r.core.wholesalerId == history[i].wholesalerId
                  && exists before :: Undecided(before) && Decided(before, r, history[i].decision))
  {
    EachDeclarationIsDecidedOnce(actions, id);
    var (r, history) := (Run(actions).rows[id], Run(actions).history);
    forall i | 0 <= i < |history| && history[i].id == id
      ensures r.core.wholesalerId == history[i].wholesalerId
      ensures exists before :: Undecided(before) && Decided(before, r, history[i].decision)
    {
      assert Shows(r, history[i]);
      var before := NewRow(r.core);
      assert Undecided(before) && Decided(before, r, history[i].decision);
    }
  }

  /** The rows that others will find after an action of a transaction and its commit. */
  function AfterBoth(s: State, a: Action, tx: Tx): State {
    Step(Step(s, a), Commit(tx))
  }

  /** The row as the transaction sees it: its own version, or else the committed one. */
  predicate Sees(s: State, tx: Tx, id: Id, r: Row)
    requires tx in s.txns
  {
    if id in s.txns[tx].writes then s.txns[tx].writes[id] == r else id in s.rows && s.rows[id] == r
  }

  /** A pending declaration of this wholesaler. */
  ghost predicate Markable(s: State, tx: Tx, id: Id, wholesaler: Id)
    requires tx in s.txns
  {
    exists r :: Sees(s, tx, id, r) && r.core.wholesalerId == wholesaler && r.status.Pending?
  }

  lemma MarkIs(s: State, tx: Tx, id: Id, wholesaler: Id, d: Decision) returns (r: Row)
    requires tx in s.txns && s.txns[tx].mode.Ready? && (id in s.locks ==> s.locks[id] == tx)
    ensures var (t, call) := (s.txns[tx], Call(id, wholesaler, Some(d)));
            if Markable(s, tx, id, wholesaler) then
              && (exists before :: Sees(s, tx, id, before) && Decided(before, r, d))
              && Step(s, Execute(tx, call)) ==
                 WithTxn(s.(locks := s.locks[id := tx]), tx,
                         Txn(Ready, t.writes[id := r], t.marks + [Mark(tx, id, wholesaler, d)]))
            else Step(s, Execute(tx, call)) == s
  {
    r := NewRow(Core(0, 0, 0, 0, "", None, "", 0, 0));
    if Markable(s, tx, id, wholesaler) {
      var before := Version(s, tx, id).value;
      r := Apply(before, d);
      assert Sees(s, tx, id, before) && Decided(before, r, d);
    }
  }

  /** A marking call on a pending declaration of the right wholesaler, with nobody else on the
      row, followed by a commit: the decision is there for all, with the transaction's other
      work, and its lock is gone. On any other declaration the call changes nothing. */
  lemma MarkTakesEffect(s: State, tx: Tx, id: Id, wholesaler: Id, d: Decision) returns (r: Row)
    requires tx in s.txns && s.txns[tx].mode.Ready? && (id in s.locks ==> s.locks[id] == tx)
    ensures var (t, call) := (s.txns[tx], Call(id, wholesaler, Some(d)));
            var s2 := AfterBoth(s, Execute(tx, call), tx);
            && tx !in s2.txns && id !in s2.locks
            && if Markable(s, tx, id, wholesaler) then
                 && (exists before :: Sees(s, tx, id, before) && Decided(before, r, d))
                 && s2.rows == (s.rows + t.writes)[id := r]
                 && s2.history == s.history + t.marks + [Mark(tx, id, wholesaler, d)]
               else Step(s, Execute(tx, call)) == s && s2.rows == s.rows + t.writes && s2.history == s.history + t.marks
  {
    hide ExecuteStep, Decided, Sees, Markable, Undecided;
    r := MarkIs(s, tx, id, wholesaler, d);
    var (t, m) := (s.txns[tx], Mark(tx, id, wholesaler, d));
    assert s.history + (t.marks + [m]) == s.history + t.marks + [m];
  }

  /** Two rows with the same retailer and key. */
  predicate Clash(a: Core, b: Core) {
    a.retailerId == b.retailerId && a.idempotencyKey == b.idempotencyKey
  }

  /** A row that the transaction sees has the id or the key. */
  ghost predicate InUse(s: State, tx: Tx, id: Id, core: Core)
    requires tx in s.txns
  {
    exists k :: || (k in s.rows && (k == id || Clash(s.rows[k].core, core)))
                || (k in s.txns[tx].writes && (k == id || Clash(s.txns[tx].writes[k].core, core)))
  }

  predicate Sensible(core: Core) {
    (core.declaredMethod == "cash" || core.declaredMethod == "transfer") && core.declaredAmount > 0
  }

  lemma DuplicateIs(s: State, tx: Tx, id: Id, core: Core)
    requires tx in s.txns
    ensures Duplicate(s, tx, id, core) <==> InUse(s, tx, id, core)
  {
    assert forall a, b :: SameKey(a, b) <==> Clash(a, b);
    if Duplicate(s, tx, id, core) && id !in s.rows && id !in s.txns[tx].writes {
      if k :| k in s.rows && SameKey(s.rows[k].core, core) {
        assert Clash(s.rows[k].core, core);
      } else {
        var k :| k in s.txns[tx].writes && SameKey(s.txns[tx].writes[k].core, core);
        assert Clash(s.txns[tx].writes[k].core, core);
      }
    }
  }

  lemma CreateIs(s: State, tx: Tx, id: Id, core: Core)
    requires tx in s.txns && s.txns[tx].mode.Ready? && !Contended(s, tx, id, core)
    ensures CreateStep(s, tx, id, core) ==
            WithTxn(s, tx, if Sensible(core) && !InUse(s, tx, id, core)
                           then s.txns[tx].(writes := s.txns[tx].writes[id := NewRow(core)])
                           else s.txns[tx].(mode := Broken))
  {
    hide Contended, Duplicate, InUse;
    DuplicateIs(s, tx, id, core);
  }

  /** A `create` whose key and id nobody uses, followed by a commit, adds exactly its pending
      row to the transaction's other work; a bad amount or method, or a key or id in use, breaks
      the transaction, and its commit changes nothing. */
  lemma CreateTakesEffect(s: State, tx: Tx, id: Id, core: Core)
    requires tx in s.txns && s.txns[tx].mode.Ready? && !Contended(s, tx, id, core)
    ensures var t := s.txns[tx];
            var s2 := AfterBoth(s, Create(tx, id, core), tx);
            && tx !in s2.txns
            && if Sensible(core) && !InUse(s, tx, id, core) then
                 && id !in s.rows && id !in t.writes && id in s2.rows && Undecided(s2.rows[id])
                 && s2.rows[id].core == core && s2.rows == (s.rows + t.writes)[id := s2.rows[id]]
                 && s2.history == s.history + t.marks
               else && Step(s, Create(tx, id, core)).txns[tx].mode.Broken?
                    && s2.rows == s.rows && s2.history == s.history
  {
    hide Contended, CreateStep, Sensible;
    CreateIs(s, tx, id, core);
    if id in s.rows || id in s.txns[tx].writes { assert InUse(s, tx, id, core); }
  }

  /** A `create` waits for another open transaction, and only for one that has inserted, and not
      yet committed, a row with its id or its key. */
  lemma CreateWaitsExactlyWhen(s: State, tx: Tx, id: Id, core: Core)
    requires tx in s.txns && s.txns[tx].mode.Ready?
    ensures Step(s, Create(tx, id, core)) == s <==>
            exists t, k :: t in s.txns && t != tx && k in s.txns[t].writes && k !in s.rows &&
              (k == id || Clash(s.txns[t].writes[k].core, core))
  {
    if Contended(s, tx, id, core) {
      var t :| t in s.txns && t != tx && InsertedClash(s, t, id, core);
      var k :| k in s.txns[t].writes && k !in s.rows && (k == id || SameKey(s.txns[t].writes[k].core, core));
    } else {
      var s2 := Step(s, Create(tx, id, core));
      assert s2.txns[tx] != s.txns[tx];
    }
  }

  /** A rollback leaves the committed rows and everybody else's work and locks as they are. */
  lemma RollbackTakesNothing(s: State, tx: Tx)
    requires tx in s.txns
    ensures var s2 := Step(s, Rollback(tx));
            && s2.rows == s.rows && s2.history == s.history && s2.txns == s.txns - {tx}
            && (forall id :: id in s2.locks <==> id in s.locks && s.locks[id] != tx)
            && (forall id :: id in s2.locks ==> s2.locks[id] == s.locks[id])
  {}
}
