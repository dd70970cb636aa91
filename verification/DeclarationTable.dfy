/** The declarations table as an object that its transactions update in place. */
module DeclarationTable {
  import opened Common
  import opened Declarations

  /** What a repository call comes to: it returns, it raises, or it waits for a lock. */
  datatype Outcome = Returned | Raised | Blocked

  class Table {
    var rows: map<Id, Row>
    var locks: map<Id, Tx>
    var txns: map<Tx, Txn>
    var history: seq<Mark>

    function View(): State
      reads this
    {
      State(rows, locks, txns, history)
    }

    constructor ()
      ensures View() == Run([])
    {
      rows, locks, txns, history := map[], map[], map[], [];
    }

    predicate IsReady(tx: Tx)
      reads this
    {
      tx in txns && txns[tx].mode.Ready?
    }

    /** `create`. */
    method Create(tx: Tx, id: Id, core: Core) returns (outcome: Outcome)
      requires IsReady(tx)
      modifies this`txns
      ensures View() == Step(old(View()), Action.Create(tx, id, core))
      ensures outcome.Returned? ==> id in txns[tx].writes && txns[tx].writes[id] == NewRow(core)
      ensures outcome.Raised? <==> txns[tx].mode.Broken?
      ensures outcome.Blocked? ==> View() == old(View())
    {
      var t := txns[tx];
      if Contended(View(), tx, id, core) { return Blocked; }
      if !CoreOk(core) || Duplicate(View(), tx, id, core) {
        txns := txns[tx := t.(mode := Broken)];
        return Raised;
      }
      txns := txns[tx := t.(writes := t.writes[id := NewRow(core)])];
      return Returned;
    }

    /** The row is found and free: lock it and, for a marking call, update it. */
    method Claim(tx: Tx, call: Call)
      requires tx in txns && Matches(Version(View(), tx, call.id), call)
      modifies this`locks, this`txns
      ensures View() == Take(old(View()), tx, call)
    {
      var t, v := txns[tx], Version(View(), tx, call.id).value;
      locks := locks[call.id := tx];
      if call.decision.None? {
        txns := txns[tx := t.(mode := Ready)];
      } else {
        var d := call.decision.value;
        txns := txns[tx := Txn(Ready, t.writes[call.id := Apply(v, d)],
                               t.marks + [Mark(tx, call.id, call.wholesalerId, d)])];
      }
    }

    method Start(tx: Tx, call: Call) returns (outcome: Outcome)
      requires IsReady(tx)
      modifies this`locks, this`txns
      ensures View() == Step(old(View()), Execute(tx, call))
      ensures outcome.Raised? <==> !old(Matches(Version(View(), tx, call.id), call))
      ensures outcome.Blocked? <==> txns[tx].mode.Waiting?
    {
      if !Matches(Version(View(), tx, call.id), call) { return Raised; }
      if LockedByOther(View(), tx, call.id) {
        txns := txns[tx := txns[tx].(mode := Waiting(call))];
        return Blocked;
      }
      Claim(tx, call);
      return Returned;
    }

    /** `get_for_update_by_wholesaler`: no row is an answer, not an error. */
    method GetForUpdate(tx: Tx, id: Id, wholesalerId: Id) returns (outcome: Outcome, row: Option<Row>)
      requires IsReady(tx)
      modifies this`locks, this`txns
      ensures View() == Step(old(View()), Execute(tx, Call(id, wholesalerId, None)))
      ensures !outcome.Raised?
      ensures row.Some? ==> Version(View(), tx, id) == row && row.value.core.wholesalerId == wholesalerId
                            && id in locks && locks[id] == tx
    {
      var call := Call(id, wholesalerId, None);
      var seen := Version(View(), tx, id);
      outcome := Start(tx, call);
      if outcome.Blocked? { return outcome, None; }
      if outcome.Raised? { return Returned, None; }
      return Returned, seen;
    }

    /** `mark_confirmed`: raises unless exactly one row was updated. */
    method MarkConfirmed(tx: Tx, id: Id, wholesalerId: Id, confirmedBy: Id, paymentId: Id, now: int)
      returns (outcome: Outcome)
      requires IsReady(tx)
      modifies this`locks, this`txns
      ensures View() ==
              Step(old(View()), Execute(tx, Call(id, wholesalerId, Some(Confirm(confirmedBy, now, paymentId)))))
      ensures outcome.Returned? ==>
                id in txns[tx].writes && txns[tx].writes[id].status.Confirmed?
                && txns[tx].writes[id].confirmationPaymentId == Some(paymentId)
                && txns[tx].marks ==
                   old(txns[tx].marks) + [Mark(tx, id, wholesalerId, Confirm(confirmedBy, now, paymentId))]
      ensures outcome.Raised? ==> View() == old(View())
    {
      outcome := Start(tx, Call(id, wholesalerId, Some(Confirm(confirmedBy, now, paymentId))));
    }

    /** `mark_rejected`: raises unless exactly one row was updated. */
    method MarkRejected(tx: Tx, id: Id, wholesalerId: Id, rejectedBy: Id, reason: string, now: int)
      returns (outcome: Outcome)
      requires IsReady(tx)
      modifies this`locks, this`txns
      ensures View() == Step(old(View()), Execute(tx, Call(id, wholesalerId, Some(Reject(rejectedBy, now, reason)))))
      ensures outcome.Returned? ==>
                id in txns[tx].writes && txns[tx].writes[id].status.Rejected?
                && txns[tx].writes[id].reason == Some(reason)
                && txns[tx].marks == old(txns[tx].marks) + [Mark(tx, id, wholesalerId, Reject(rejectedBy, now, reason))]
      ensures outcome.Raised? ==> View() == old(View())
    {
      outcome := Start(tx, Call(id, wholesalerId, Some(Reject(rejectedBy, now, reason))));
    }

    /** A waiting call goes on when the row is free. A marking call raises when the row is no
        longer pending; a locking read never loses its row. */
    method Wake(tx: Tx) returns (outcome: Outcome)
      requires tx in txns && txns[tx].mode.Waiting?
      modifies this`locks, this`txns
      ensures View() == Step(old(View()), Action.Wake(tx))
      ensures outcome.Blocked? <==> txns[tx].mode.Waiting?
      ensures outcome.Raised? ==> txns[tx].marks == old(txns[tx].marks) && txns[tx].writes == old(txns[tx].writes)
    {
      var call := txns[tx].mode.call;
      if LockedByOther(View(), tx, call.id) { return Blocked; }
      if !Matches(Version(View(), tx, call.id), call) {
        txns := txns[tx := txns[tx].(mode := Ready)];
        return Raised;
      }
      Claim(tx, call);
      return Returned;
    }

    method Begin(tx: Tx)
      requires tx !in txns
      modifies this`txns
      ensures View() == Step(old(View()), Action.Begin(tx))
    {
      txns := txns[tx := Txn(Ready, map[], [])];
    }

    method Rollback(tx: Tx)
      requires tx in txns
      modifies this`locks, this`txns
      ensures View() == Step(old(View()), Action.Rollback(tx))
    {
      locks := WithoutLocks(locks, tx);
      txns := txns - {tx};
    }

    method Commit(tx: Tx)
      requires tx in txns && !txns[tx].mode.Waiting?
      modifies this
      ensures View() == Step(old(View()), Action.Commit(tx))
    {
      var t := txns[tx];
      Rollback(tx);
      if !t.mode.Broken? {
        rows := rows + t.writes;
        history := history + t.marks;
      }
    }
  }
}
