/** What every interleaving of declaration transactions keeps. */
module DeclarationSafety {
  import opened Common
  import opened Declarations

  /** The columns that belong to the status are set and no others. */
  predicate Consistent(r: Row) {
    match r.status
    case Pending =>
      && r.confirmedBy.None? && r.confirmedAt.None? && r.confirmationPaymentId.None?
      && r.rejectedBy.None? && r.rejectedAt.None? && r.reason.None?
    case Confirmed =>
      && r.confirmedBy.Some? && r.confirmedAt.Some? && r.confirmationPaymentId.Some?
      && r.rejectedBy.None? && r.rejectedAt.None? && r.reason.None?
    case Rejected =>
      && r.confirmedBy.None? && r.confirmedAt.None? && r.confirmationPaymentId.None?
      && r.rejectedBy.Some? && r.rejectedAt.Some? && r.reason.Some?
  }

  /** The row is exactly what this mark made of the pending declaration. */
  predicate Shows(r: Row, m: Mark) {
    r == Apply(NewRow(r.core), m.decision) && r.core.wholesalerId == m.wholesalerId
  }

  ghost predicate DistinctIds(marks: seq<Mark>) {
    forall i, j :: 0 <= i < j < |marks| ==> marks[i].id != marks[j].id
  }

  predicate MarkedIn(marks: seq<Mark>, id: Id) {
    exists i :: 0 <= i < |marks| && marks[i].id == id
  }

  /** Rows and the marks on them agree: each mark shows in its row, no row is marked twice,
      and an unmarked row is as INSERT left it. */
  ghost predicate Agree(rows: map<Id, Row>, marks: seq<Mark>) {
    && DistinctIds(marks)
    && (forall i :: 0 <= i < |marks| ==> marks[i].id in rows && Shows(rows[marks[i].id], marks[i]))
    && (forall id :: id in rows && !MarkedIn(marks, id) ==> rows[id] == NewRow(rows[id].core))
  }

  /** One uncommitted row: either the transaction holds the lock on a pending committed row
      and has marked it, or the row is its own insertion. */
  ghost predicate WriteOk(s: State, tx: Tx, id: Id)
    requires tx in s.txns && id in s.txns[tx].writes
  {
    var w := s.txns[tx].writes[id];
    if id in s.rows then
      && id in s.locks && s.locks[id] == tx
      && s.rows[id].status.Pending? && w.core == s.rows[id].core && MarkedIn(s.txns[tx].marks, id)
    else
      && CoreOk(w.core)
      && (forall k :: k in s.rows ==> !SameKey(s.rows[k].core, w.core))
  }

  ghost predicate TxnOk(s: State, tx: Tx)
    requires tx in s.txns
  {
    && Agree(s.txns[tx].writes, s.txns[tx].marks)
    && (forall i :: 0 <= i < |s.txns[tx].marks| ==> s.txns[tx].marks[i].tx == tx)
    && (forall id :: id in s.txns[tx].writes ==> WriteOk(s, tx, id))
  }

  /** No two rows that open transactions have inserted share an id or a key. */
  ghost predicate InsertsApart(s: State, t: Tx, u: Tx)
    requires t in s.txns && u in s.txns
  {
    forall id, k ::
      (id in s.txns[t].writes && k in s.txns[u].writes && id !in s.rows && k !in s.rows && (t != u || id != k)) ==>
        id != k && !SameKey(s.txns[t].writes[id].core, s.txns[u].writes[k].core)
  }

  ghost predicate KeysUnique(rows: map<Id, Row>) {
    forall id, k :: id in rows && k in rows && id != k ==> !SameKey(rows[id].core, rows[k].core)
  }

  ghost predicate Inv(s: State) {
    && Agree(s.rows, s.history)
    && KeysUnique(s.rows)
    && (forall id :: id in s.rows ==> CoreOk(s.rows[id].core))
    && (forall tx :: tx in s.txns ==> TxnOk(s, tx))
    && (forall t, u :: t in s.txns && u in s.txns ==> InsertsApart(s, t, u))
  }

  // ------------------------------------------------------------------------ each step

  /** Only modes and locks differ, or an empty transaction is new; written rows stay locked. */
  ghost predicate Quiet(s: State, s2: State) {
    && s2.rows == s.rows && s2.history == s.history
    && (forall tx :: tx in s2.txns ==>
          if tx in s.txns then s2.txns[tx].writes == s.txns[tx].writes && s2.txns[tx].marks == s.txns[tx].marks
          else s2.txns[tx].writes == map[] && s2.txns[tx].marks == [])
    && (forall tx, id :: tx in s2.txns && tx in s.txns && id in s.txns[tx].writes && id in s.rows ==>
          id in s2.locks && s2.locks[id] == tx)
  }

  lemma QuietTxn(s: State, s2: State, tx: Tx)
    requires Inv(s) && Quiet(s, s2) && tx in s2.txns
    ensures TxnOk(s2, tx)
  {
    if tx in s.txns {
      assert TxnOk(s, tx);
      forall id | id in s2.txns[tx].writes ensures WriteOk(s2, tx, id) { assert WriteOk(s, tx, id); }
    }
  }

  /** Changing one transaction's mode, or adding an empty one, or a lock, keeps everything. */
  lemma QuietKeeps(s: State, s2: State)
    requires Inv(s) && Quiet(s, s2)
    ensures Inv(s2)
  {
    forall tx | tx in s2.txns ensures TxnOk(s2, tx) {
      QuietTxn(s, s2, tx);
    }
    forall t, u | t in s2.txns && u in s2.txns ensures InsertsApart(s2, t, u) {
      if t in s.txns && u in s.txns { assert InsertsApart(s, t, u); }
    }
  }

  lemma HeldLocks(s: State)
    requires Inv(s)
    ensures forall t, id :: t in s.txns && id in s.txns[t].writes && id in s.rows ==> id in s.locks && s.locks[id] == t
  {
    forall t, id | t in s.txns && id in s.txns[t].writes && id in s.rows ensures id in s.locks && s.locks[id] == t {
      assert TxnOk(s, t) && WriteOk(s, t, id);
    }
  }

  lemma WrittenRowsArePending(s: State, tx: Tx)
    requires Inv(s) && tx in s.txns
    ensures forall id :: id in s.txns[tx].writes && id in s.rows ==>
              s.rows[id].status.Pending? && s.txns[tx].writes[id].core == s.rows[id].core
  {
    assert TxnOk(s, tx);
    forall id | id in s.txns[tx].writes && id in s.rows
      ensures s.rows[id].status.Pending? && s.txns[tx].writes[id].core == s.rows[id].core
    {
      assert WriteOk(s, tx, id);
    }
  }

  lemma ModeKeeps(s: State, tx: Tx, mode: Mode)
    requires Inv(s) && tx in s.txns
    ensures Inv(WithTxn(s, tx, s.txns[tx].(mode := mode)))
  {
    HeldLocks(s);
    QuietKeeps(s, WithTxn(s, tx, s.txns[tx].(mode := mode)));
  }

  lemma BeginKeeps(s: State, tx: Tx)
    requires Inv(s) && tx !in s.txns
    ensures Inv(WithTxn(s, tx, Txn(Ready, map[], [])))
  {
    HeldLocks(s);
    QuietKeeps(s, WithTxn(s, tx, Txn(Ready, map[], [])));
  }

  lemma RollbackKeeps(s: State, tx: Tx)
    requires Inv(s) && tx in s.txns
    ensures Inv(RollbackStep(s, tx))
  {
    HeldLocks(s);
    QuietKeeps(s, RollbackStep(s, tx));
  }

  lemma LockKeeps(s: State, tx: Tx, id: Id)
    requires Inv(s) && tx in s.txns && !LockedByOther(s, tx, id)
    ensures Inv(s.(locks := s.locks[id := tx]))
  {
    HeldLocks(s);
    QuietKeeps(s, s.(locks := s.locks[id := tx]));
  }

  // INSERT

  lemma AgreeAfterInsert(rows: map<Id, Row>, marks: seq<Mark>, id: Id, core: Core)
    requires Agree(rows, marks) && id !in rows
    ensures Agree(rows[id := NewRow(core)], marks)
  {}

  lemma CreateKeeps(s: State, tx: Tx, id: Id, core: Core)
    requires Inv(s) && tx in s.txns && s.txns[tx].mode.Ready?
    ensures Inv(CreateStep(s, tx, id, core))
  {
    if Contended(s, tx, id, core) {
    } else if !CoreOk(core) || Duplicate(s, tx, id, core) {
      ModeKeeps(s, tx, Broken);
    } else {
      InsertKeeps(s, tx, id, core);
    }
  }

  lemma InsertKeeps(s: State, tx: Tx, id: Id, core: Core)
    requires Inv(s) && tx in s.txns && !Contended(s, tx, id, core) && CoreOk(core) && !Duplicate(s, tx, id, core)
    ensures Inv(WithTxn(s, tx, s.txns[tx].(writes := s.txns[tx].writes[id := NewRow(core)])))
  {
    var s2 := WithTxn(s, tx, s.txns[tx].(writes := s.txns[tx].writes[id := NewRow(core)]));
    forall t | t in s2.txns ensures TxnOk(s2, t) {
      assert TxnOk(s, t);
      if t == tx { AgreeAfterInsert(s.txns[tx].writes, s.txns[tx].marks, id, core); }
      forall k | k in s2.txns[t].writes ensures WriteOk(s2, t, k) {
        if k in s.txns[t].writes { assert WriteOk(s, t, k); }
      }
    }
    forall t, u | t in s2.txns && u in s2.txns ensures InsertsApart(s2, t, u) {
      InsertStaysApart(s, tx, id, core, t, u);
    }
  }

  lemma InsertStaysApart(s: State, tx: Tx, id: Id, core: Core, t: Tx, u: Tx)
    requires Inv(s) && tx in s.txns && !Contended(s, tx, id, core) && !Duplicate(s, tx, id, core)
    requires t in s.txns && u in s.txns
    ensures InsertsApart(WithTxn(s, tx, s.txns[tx].(writes := s.txns[tx].writes[id := NewRow(core)])), t, u)
  {
    assert InsertsApart(s, t, u);
    NoClash(s, tx, id, core, t);
    NoClash(s, tx, id, core, u);
  }

  /** No uncommitted row of anybody has the new row's id or key. */
  lemma NoClash(s: State, tx: Tx, id: Id, core: Core, t: Tx)
    requires tx in s.txns && t in s.txns && !Contended(s, tx, id, core) && !Duplicate(s, tx, id, core)
    ensures forall k :: k in s.txns[t].writes && k !in s.rows ==> k != id && !SameKey(s.txns[t].writes[k].core, core)
  {
    if t != tx { assert !InsertedClash(s, t, id, core); }
  }

  // A marking call that finds its row

  lemma MarkedInEither(a: seq<Mark>, b: seq<Mark>, id: Id)
    ensures MarkedIn(a + b, id) <==> MarkedIn(a, id) || MarkedIn(b, id)
  {
    if MarkedIn(a, id) {
      var i :| 0 <= i < |a| && a[i].id == id;
      assert (a + b)[i].id == id;
    }
    if MarkedIn(b, id) {
      var i :| 0 <= i < |b| && b[i].id == id;
      assert (a + b)[|a| + i].id == id;
    }
  }

  lemma AgreeAfterMark(rows: map<Id, Row>, marks: seq<Mark>, r: Row, m: Mark)
    requires Agree(rows, marks) && !MarkedIn(marks, m.id)
    requires r == NewRow(r.core) && r.core.wholesalerId == m.wholesalerId
    ensures Agree(rows[m.id := Apply(r, m.decision)], marks + [m])
  {
    var rows2, marks2 := rows[m.id := Apply(r, m.decision)], marks + [m];
    assert marks2[|marks|] == m;
    forall i | 0 <= i < |marks2| ensures marks2[i].id in rows2 && Shows(rows2[marks2[i].id], marks2[i]) {
      if i < |marks| { assert marks2[i] == marks[i] && marks[i].id != m.id; }
    }
    forall id | id in rows2 && !MarkedIn(marks2, id) ensures rows2[id] == NewRow(rows2[id].core) {
      MarkedInEither(marks, [m], id);
      assert [m][0].id == m.id;
    }
  }

  lemma PendingIsUnmarked(rows: map<Id, Row>, marks: seq<Mark>, id: Id)
    requires Agree(rows, marks) && id in rows && rows[id].status.Pending?
    ensures !MarkedIn(marks, id) && rows[id] == NewRow(rows[id].core)
  {
    forall i | 0 <= i < |marks| ensures !rows[marks[i].id].status.Pending? {
      assert Shows(rows[marks[i].id], marks[i]);
    }
  }

  lemma MarkedAreRows(rows: map<Id, Row>, marks: seq<Mark>)
    requires Agree(rows, marks)
    ensures forall id :: MarkedIn(marks, id) ==> id in rows
  {}

  /** The row a marking call updates is pending, unmarked, and as INSERT left it. */
  lemma TargetIsFresh(s: State, tx: Tx, call: Call)
    requires Inv(s) && tx in s.txns && call.decision.Some? && Matches(Version(s, tx, call.id), call)
    ensures !MarkedIn(s.txns[tx].marks, call.id)
    ensures Version(s, tx, call.id).value == NewRow(Version(s, tx, call.id).value.core)
  {
    var t := s.txns[tx];
    assert TxnOk(s, tx);
    if call.id in t.writes {
      PendingIsUnmarked(t.writes, t.marks, call.id);
    } else {
      PendingIsUnmarked(s.rows, s.history, call.id);
      MarkedAreRows(t.writes, t.marks);
    }
  }

  lemma TakeKeeps(s: State, tx: Tx, call: Call)
    requires Inv(s) && tx in s.txns && Matches(Version(s, tx, call.id), call) && !LockedByOther(s, tx, call.id)
    ensures Inv(Take(s, tx, call))
  {
    var locked := s.(locks := s.locks[call.id := tx]);
    LockKeeps(s, tx, call.id);
    if call.decision.None? {
      ModeKeeps(locked, tx, Ready);
    } else {
      MarkKeeps(locked, tx, call);
    }
  }

  lemma OtherStays(s: State, s2: State, u: Tx)
    requires Inv(s) && u in s.txns && u in s2.txns && s2.txns[u] == s.txns[u]
    requires s2.rows == s.rows && s2.locks == s.locks
    ensures TxnOk(s2, u)
  {
    assert TxnOk(s, u);
    forall k | k in s2.txns[u].writes ensures WriteOk(s2, u, k) { assert WriteOk(s, u, k); }
  }

  lemma MarkKeeps(s: State, tx: Tx, call: Call)
    requires Inv(s) && tx in s.txns && call.decision.Some? && Matches(Version(s, tx, call.id), call)
    requires call.id in s.locks && s.locks[call.id] == tx
    ensures var t := s.txns[tx];
            Inv(WithTxn(s, tx, Txn(Ready,
                                   t.writes[call.id := Apply(Version(s, tx, call.id).value, call.decision.value)],
                                   t.marks + [Mark(tx, call.id, call.wholesalerId, call.decision.value)])))
  {
    hide InsertsApart, Agree, CoreOk;
    var t, v := s.txns[tx], Version(s, tx, call.id).value;
    var m := Mark(tx, call.id, call.wholesalerId, call.decision.value);
    var t2 := Txn(Ready, t.writes[call.id := Apply(v, m.decision)], t.marks + [m]);
    var s2 := WithTxn(s, tx, t2);
    TargetIsFresh(s, tx, call);
    assert TxnOk(s, tx);
    AgreeAfterMark(t.writes, t.marks, v, m);
    MarkedWrites(s, tx, call, s2);
    forall u | u in s2.txns && u != tx ensures TxnOk(s2, u) { OtherStays(s, s2, u); }
    forall u, w | u in s2.txns && w in s2.txns ensures InsertsApart(s2, u, w) {
      MarkStaysApart(s, tx, call.id, v, Apply(v, m.decision), s2, u, w);
    }
  }

  /** A new version of a row the transaction sees keeps its key, so insertions stay apart. */
  lemma MarkStaysApart(s: State, tx: Tx, id: Id, v: Row, v2: Row, s2: State, u: Tx, w: Tx)
    requires Inv(s) && tx in s.txns && u in s.txns && w in s.txns && Version(s, tx, id) == Some(v) && v2.core == v.core
    requires s2.rows == s.rows && s2.txns.Keys == s.txns.Keys
    requires forall k :: k in s.txns && k != tx ==> s2.txns[k] == s.txns[k]
    requires s2.txns[tx].writes == s.txns[tx].writes[id := v2]
    ensures InsertsApart(s2, u, w)
  {
    assert InsertsApart(s, u, w);
  }

  lemma MarkedWrites(s: State, tx: Tx, call: Call, s2: State)
    requires Inv(s) && tx in s.txns && call.decision.Some? && Matches(Version(s, tx, call.id), call)
    requires call.id in s.locks && s.locks[call.id] == tx
    requires s2 == WithTxn(s, tx,
               Txn(Ready, s.txns[tx].writes[call.id := Apply(Version(s, tx, call.id).value, call.decision.value)],
                   s.txns[tx].marks + [Mark(tx, call.id, call.wholesalerId, call.decision.value)]))
    ensures forall k :: k in s2.txns[tx].writes ==> WriteOk(s2, tx, k)
  {
    var t, marks2 := s.txns[tx], s2.txns[tx].marks;
    assert TxnOk(s, tx);
    assert marks2[|t.marks|].id == call.id;
    forall k | k in s2.txns[tx].writes ensures WriteOk(s2, tx, k) {
      if k in t.writes {
        assert WriteOk(s, tx, k);
        if MarkedIn(t.marks, k) {
          var i :| 0 <= i < |t.marks| && t.marks[i].id == k;
          assert marks2[i].id == k;
        }
      }
    }
  }

  lemma ExecuteKeeps(s: State, tx: Tx, call: Call)
    requires Inv(s) && tx in s.txns && s.txns[tx].mode.Ready?
    ensures Inv(ExecuteStep(s, tx, call))
  {
    if !Matches(Version(s, tx, call.id), call) {
    } else if LockedByOther(s, tx, call.id) {
      ModeKeeps(s, tx, Waiting(call));
    } else {
      TakeKeeps(s, tx, call);
    }
  }

  lemma WakeKeeps(s: State, tx: Tx)
    requires Inv(s) && tx in s.txns && s.txns[tx].mode.Waiting?
    ensures Inv(WakeStep(s, tx))
  {
    var call := s.txns[tx].mode.call;
    if LockedByOther(s, tx, call.id) {
    } else if Matches(Version(s, tx, call.id), call) {
      TakeKeeps(s, tx, call);
    } else {
      ModeKeeps(s, tx, Ready);
    }
  }

  // COMMIT

  lemma AgreeAfterCommit(rows: map<Id, Row>, history: seq<Mark>, writes: map<Id, Row>, marks: seq<Mark>)
    requires Agree(rows, history) && Agree(writes, marks)
    requires forall id :: id in writes && id in rows ==> rows[id].status.Pending?
    ensures Agree(rows + writes, history + marks)
  {
    var rows2, all := rows + writes, history + marks;
    forall i | 0 <= i < |history| ensures history[i].id !in writes {
      var id := history[i].id;
      if id in writes { PendingIsUnmarked(rows, history, id); }
    }
    forall i | 0 <= i < |all| ensures all[i].id in rows2 && Shows(rows2[all[i].id], all[i]) {
      if i >= |history| { assert all[i] == marks[i - |history|]; }
    }
    forall i, j | 0 <= i < j < |all| ensures all[i].id != all[j].id {
      if i >= |history| {
        assert all[i] == marks[i - |history|] && all[j] == marks[j - |history|];
      } else if j >= |history| {
        assert all[j] == marks[j - |history|];
      }
    }
    forall id | id in rows2 && !MarkedIn(all, id) ensures rows2[id] == NewRow(rows2[id].core) {
      MarkedInEither(history, marks, id);
    }
  }

  lemma CommitKeeps(s: State, tx: Tx)
    requires Inv(s) && tx in s.txns && !s.txns[tx].mode.Waiting?
    ensures Inv(CommitStep(s, tx))
  {
    var t, s2 := s.txns[tx], CommitStep(s, tx);
    if t.mode.Broken? {
      RollbackKeeps(s, tx);
    } else {
      assert TxnOk(s, tx);
      WrittenRowsArePending(s, tx);
      AgreeAfterCommit(s.rows, s.history, t.writes, t.marks);
      KeysAfterCommit(s, tx);
      forall u | u in s2.txns ensures TxnOk(s2, u) { OthersAfterCommit(s, tx, u); }
      forall u, w | u in s2.txns && w in s2.txns ensures InsertsApart(s2, u, w) { assert InsertsApart(s, u, w); }
    }
  }

  lemma KeysAfterCommit(s: State, tx: Tx)
    requires Inv(s) && tx in s.txns
    ensures KeysUnique(s.rows + s.txns[tx].writes)
    ensures forall id :: id in s.rows + s.txns[tx].writes ==> CoreOk((s.rows + s.txns[tx].writes)[id].core)
  {
    var t := s.txns[tx];
    var rows2 := s.rows + t.writes;
    assert TxnOk(s, tx) && InsertsApart(s, tx, tx);
    WrittenRowsArePending(s, tx);
    forall id, k | id in rows2 && k in rows2 && id != k ensures !SameKey(rows2[id].core, rows2[k].core) {
      if id in t.writes { assert WriteOk(s, tx, id); }
      if k in t.writes { assert WriteOk(s, tx, k); }
    }
    forall id | id in rows2 ensures CoreOk(rows2[id].core) {
      if id in t.writes { assert WriteOk(s, tx, id); }
    }
  }

  lemma OthersAfterCommit(s: State, tx: Tx, u: Tx)
    requires Inv(s) && tx in s.txns && s.txns[tx].mode.Ready? && u in s.txns && u != tx
    ensures TxnOk(CommitStep(s, tx), u)
  {
    var s2 := CommitStep(s, tx);
    assert TxnOk(s, u);
    HeldLocks(s);
    forall k | k in s.txns[u].writes ensures WriteOk(s2, u, k) {
      assert WriteOk(s, u, k);
      if k !in s.rows { InsertsStayApart(s, tx, u, k); }
    }
  }

  lemma InsertsStayApart(s: State, tx: Tx, u: Tx, k: Id)
    requires Inv(s) && tx in s.txns && u in s.txns && u != tx && k in s.txns[u].writes && k !in s.rows
    ensures k !in s.txns[tx].writes
    ensures forall id :: id in s.rows + s.txns[tx].writes ==>
              !SameKey((s.rows + s.txns[tx].writes)[id].core, s.txns[u].writes[k].core)
  {
    assert InsertsApart(s, tx, u) && TxnOk(s, u) && WriteOk(s, u, k);
    WrittenRowsArePending(s, tx);
  }

  lemma StepKeeps(s: State, a: Action)
    requires Inv(s)
    ensures Inv(Step(s, a))
  {
    match a
    case Begin(tx) => if tx !in s.txns { BeginKeeps(s, tx); }
    case Create(tx, id, core) => if tx in s.txns && s.txns[tx].mode.Ready? { CreateKeeps(s, tx, id, core); }
    case Execute(tx, call) => if tx in s.txns && s.txns[tx].mode.Ready? { ExecuteKeeps(s, tx, call); }
    case Wake(tx) => if tx in s.txns && s.txns[tx].mode.Waiting? { WakeKeeps(s, tx); }
    case Commit(tx) => if tx in s.txns && !s.txns[tx].mode.Waiting? { CommitKeeps(s, tx); }
    case Rollback(tx) => if tx in s.txns { RollbackKeeps(s, tx); }
  }

  lemma {:induction false} RunKeeps(actions: seq<Action>)
    ensures Inv(Run(actions))
  {
    if actions != [] {
      RunKeeps(actions[..|actions| - 1]);
      StepKeeps(Run(actions[..|actions| - 1]), actions[|actions| - 1]);
    }
  }

  // ------------------------------------------------------------------------ theorems

  /** After any interleaving, at most one committed marking call ever touched a declaration:
      an untouched one is as it was inserted, and any other is exactly what its one mark
      made of it, by a wholesaler who owns it. */
  lemma EachDeclarationIsDecidedOnce(actions: seq<Action>, id: Id)
    requires id in Run(actions).rows
    ensures DistinctIds(Run(actions).history)
    ensures var r := Run(actions).rows[id];
            && (r.status.Pending? <==> !MarkedIn(Run(actions).history, id))
            && (r.status.Pending? ==> r == NewRow(r.core))
            && (forall i :: 0 <= i < |Run(actions).history| && Run(actions).history[i].id == id ==>
                  Shows(r, Run(actions).history[i]))
  {
    RunKeeps(actions);
    var s := Run(actions);
    if s.rows[id].status.Pending? { PendingIsUnmarked(s.rows, s.history, id); }
  }

  /** Confirmed rows have exactly the confirmation columns set, rejected rows exactly the
      rejection columns, pending rows none. */
  lemma ColumnsFitTheStatus(actions: seq<Action>, id: Id)
    requires id in Run(actions).rows
    ensures Consistent(Run(actions).rows[id])
  {
    RunKeeps(actions);
    var s := Run(actions);
    if MarkedIn(s.history, id) {
      var i :| 0 <= i < |s.history| && s.history[i].id == id;
      assert Shows(s.rows[id], s.history[i]);
    }
  }

  /** A retailer's idempotency key names at most one declaration. */
  lemma KeysStayUnique(actions: seq<Action>, id: Id, k: Id)
    requires id in Run(actions).rows && k in Run(actions).rows && id != k
    ensures !SameKey(Run(actions).rows[id].core, Run(actions).rows[k].core)
  {
    RunKeeps(actions);
  }

  /** From `s` to `s2` no row was lost, no inserted column changed, no decided row changed
      at all, and the history only grew. */
  ghost predicate Later(s: State, s2: State) {
    && s.history <= s2.history
    && (forall id :: id in s.rows ==>
          && id in s2.rows && s2.rows[id].core == s.rows[id].core
          && (!s.rows[id].status.Pending? ==> s2.rows[id] == s.rows[id]))
  }

  lemma OnlyCommitChangesRows(s: State, a: Action)
    requires !(a.Commit? && a.tx in s.txns && s.txns[a.tx].mode.Ready?)
    ensures Step(s, a).rows == s.rows && Step(s, a).history == s.history
  {}

  lemma StepIsLater(s: State, a: Action)
    requires Inv(s)
    ensures Later(s, Step(s, a))
  {
    if a.Commit? && a.tx in s.txns && s.txns[a.tx].mode.Ready? {
      WrittenRowsArePending(s, a.tx);
    } else {
      OnlyCommitChangesRows(s, a);
    }
  }

  /** Over any continuation of any run: decided declarations are final, and what INSERT wrote
      (order, parties, amount, method, reference, key, submission) never changes. */
  lemma {:induction false} DecisionsAreFinal(actions: seq<Action>, n: nat)
    requires n <= |actions|
    ensures Later(Run(actions[..n]), Run(actions))
  {
    if n == |actions| {
      assert actions[..n] == actions;
    } else {
      var before := actions[..|actions| - 1];
      DecisionsAreFinal(before, n);
      assert before[..n] == actions[..n];
      RunKeeps(before);
      StepIsLater(Run(before), actions[|actions| - 1]);
    }
  }

  /** Two transactions decide the same declaration: once one has committed, the other's call
      finds no pending row, whether it waited or comes later, so it raises and its commit
      leaves the row alone. */
  lemma TheLoserRaises(actions: seq<Action>, tx: Tx, call: Call)
    requires call.decision.Some? && call.id in Run(actions).rows && !Run(actions).rows[call.id].status.Pending?
    requires tx in Run(actions).txns
    ensures call.id !in Run(actions).txns[tx].writes
    ensures Run(actions).txns[tx].mode.Ready? ==> ExecuteStep(Run(actions), tx, call) == Run(actions)
    ensures Run(actions).txns[tx].mode == Waiting(call) && !LockedByOther(Run(actions), tx, call.id) ==>
              WakeStep(Run(actions), tx) == WithTxn(Run(actions), tx, Run(actions).txns[tx].(mode := Ready))
  {
    RunKeeps(actions);
    var s := Run(actions);
    WrittenRowsArePending(s, tx);
  }
}
