/**
  Payment declarations under concurrent transactions: the repository's statements at READ
  COMMITTED, with row locks, the re-check of a WHERE clause after a lock wait, and the
  unique index on (retailer, idempotency key).
 */
module Declarations {
  import opened Common

  type Id = nat
  type Tx = nat

  /** The columns set by INSERT. Amounts are in cents. */
  datatype Core = Core(orderId: Id, retailerId: Id, wholesalerId: Id, declaredAmount: int, declaredMethod: string,
                       transferReference: Option<string>, idempotencyKey: string, submittedBy: Id, submittedAt: int)

  datatype Status = Pending | Confirmed | Rejected

  datatype Row = Row(core: Core, status: Status,
                     confirmedBy: Option<Id>, confirmedAt: Option<int>, confirmationPaymentId: Option<Id>,
                     rejectedBy: Option<Id>, rejectedAt: Option<int>, reason: Option<string>)

  /** What `mark_confirmed` and `mark_rejected` write. */
  datatype Decision = Confirm(confirmedBy: Id, at: int, paymentId: Id) | Reject(rejectedBy: Id, at: int, reason: string)

  /** `get_for_update_by_wholesaler` (no decision) or one of the two marking calls. */
  datatype Call = Call(id: Id, wholesalerId: Id, decision: Option<Decision>)

  /** A marking call that updated its one row. */
  datatype Mark = Mark(tx: Tx, id: Id, wholesalerId: Id, decision: Decision)

  /** A transaction waits for a row lock, or is broken by a failed INSERT until it ends. */
  datatype Mode = Ready | Waiting(call: Call) | Broken

  datatype Txn = Txn(mode: Mode, writes: map<Id, Row>, marks: seq<Mark>)

  /** Committed rows, row locks, open transactions, and the marks of committed ones. */
  datatype State = State(rows: map<Id, Row>, locks: map<Id, Tx>, txns: map<Tx, Txn>, history: seq<Mark>)

  datatype Action =
    | Begin(tx: Tx)
    | Create(tx: Tx, id: Id, core: Core)
    | Execute(tx: Tx, call: Call)
    | Wake(tx: Tx)
    | Commit(tx: Tx)
    | Rollback(tx: Tx)

  // ------------------------------------------------------------------------- INSERT

  function NewRow(core: Core): Row {
    Row(core, Pending, None, None, None, None, None, None)
  }

  predicate CoreOk(c: Core) {
    c.declaredMethod in {"cash", "transfer"} && c.declaredAmount > 0
  }

  predicate SameKey(a: Core, b: Core) {
    a.retailerId == b.retailerId && a.idempotencyKey == b.idempotencyKey
  }

  /** A row the transaction could collide with in the unique index or the primary key. */
  predicate Duplicate(s: State, tx: Tx, id: Id, core: Core)
    requires tx in s.txns
  {
    || id in s.rows || id in s.txns[tx].writes
    || (exists k :: k in s.rows && SameKey(s.rows[k].core, core))
    || (exists k :: k in s.txns[tx].writes && SameKey(s.txns[tx].writes[k].core, core))
  }

  /** Another transaction holds an uncommitted row of that key: the INSERT waits for it. */
  predicate Contended(s: State, tx: Tx, id: Id, core: Core) {
    exists t :: t in s.txns && t != tx && InsertedClash(s, t, id, core)
  }

  predicate InsertedClash(s: State, t: Tx, id: Id, core: Core)
    requires t in s.txns
  {
    exists k :: k in s.txns[t].writes && k !in s.rows && (k == id || SameKey(s.txns[t].writes[k].core, core))
  }

  function WithTxn(s: State, tx: Tx, t: Txn): State {
    s.(txns := s.txns[tx := t])
  }

  /** `create`. */
  function CreateStep(s: State, tx: Tx, id: Id, core: Core): State
    requires tx in s.txns && s.txns[tx].mode.Ready?
  {
    var t := s.txns[tx];
    if Contended(s, tx, id, core) then s
    else if !CoreOk(core) || Duplicate(s, tx, id, core) then WithTxn(s, tx, t.(mode := Broken))
    else WithTxn(s, tx, t.(writes := t.writes[id := NewRow(core)]))
  }

  // ---------------------------------------------------------------- UPDATE and SELECT

  /** The version of a row that the transaction sees. */
  function Version(s: State, tx: Tx, id: Id): Option<Row>
    requires tx in s.txns
  {
    if id in s.txns[tx].writes then Some(s.txns[tx].writes[id])
    else if id in s.rows then Some(s.rows[id])
    else None
  }

  /** The WHERE clause. */
  predicate Matches(v: Option<Row>, call: Call) {
    v.Some? && v.value.core.wholesalerId == call.wholesalerId && (call.decision.Some? ==> v.value.status.Pending?)
  }

  function Apply(r: Row, d: Decision): Row {
    match d
    case Confirm(who, at, payment) =>
      r.(status := Confirmed, confirmedBy := Some(who), confirmedAt := Some(at), confirmationPaymentId := Some(payment))
    case Reject(who, at, reason) =>
      r.(status := Rejected, rejectedBy := Some(who), rejectedAt := Some(at), reason := Some(reason))
  }

  predicate LockedByOther(s: State, tx: Tx, id: Id) {
    id in s.locks && s.locks[id] != tx
  }

  /** The row is locked and, for a marking call, updated. */
  function Take(s: State, tx: Tx, call: Call): State
    requires tx in s.txns && Matches(Version(s, tx, call.id), call)
  {
    var t := s.txns[tx];
    var locked := s.(locks := s.locks[call.id := tx]);
    match call.decision
    case None => WithTxn(locked, tx, t.(mode := Ready))
    case Some(d) =>
      WithTxn(locked, tx, Txn(Ready, t.writes[call.id := Apply(Version(s, tx, call.id).value, d)],
                              t.marks + [Mark(tx, call.id, call.wholesalerId, d)]))
  }

  /** A statement finds its row or none; a row locked by someone else makes it wait. */
  function ExecuteStep(s: State, tx: Tx, call: Call): State
    requires tx in s.txns && s.txns[tx].mode.Ready?
  {
    if !Matches(Version(s, tx, call.id), call) then s
    else if LockedByOther(s, tx, call.id) then WithTxn(s, tx, s.txns[tx].(mode := Waiting(call)))
    else Take(s, tx, call)
  }

  /** When the lock is free the WHERE clause is checked again, on the row as it is now. */
  function WakeStep(s: State, tx: Tx): State
    requires tx in s.txns && s.txns[tx].mode.Waiting?
  {
    var call := s.txns[tx].mode.call;
    if LockedByOther(s, tx, call.id) then s
    else if Matches(Version(s, tx, call.id), call) then Take(s, tx, call)
    else WithTxn(s, tx, s.txns[tx].(mode := Ready))
  }

  // ------------------------------------------------------------------ end of transaction

  function WithoutLocks(locks: map<Id, Tx>, tx: Tx): map<Id, Tx> {
    map id | id in locks && locks[id] != tx :: locks[id]
  }

  function RollbackStep(s: State, tx: Tx): State
    requires tx in s.txns
  {
    s.(locks := WithoutLocks(s.locks, tx), txns := s.txns - {tx})
  }

  /** Committing a broken transaction rolls it back. */
  function CommitStep(s: State, tx: Tx): State
    requires tx in s.txns && !s.txns[tx].mode.Waiting?
  {
    var t := s.txns[tx];
    if t.mode.Broken? then RollbackStep(s, tx)
    else RollbackStep(s, tx).(rows := s.rows + t.writes, history := s.history + t.marks)
  }

  function Step(s: State, a: Action): State {
    match a
    case Begin(tx) => if tx in s.txns then s else WithTxn(s, tx, Txn(Ready, map[], []))
    case Create(tx, id, core) => if tx in s.txns && s.txns[tx].mode.Ready? then CreateStep(s, tx, id, core) else s
    case Execute(tx, call) => if tx in s.txns && s.txns[tx].mode.Ready? then ExecuteStep(s, tx, call) else s
    case Wake(tx) => if tx in s.txns && s.txns[tx].mode.Waiting? then WakeStep(s, tx) else s
    case Commit(tx) => if tx in s.txns && !s.txns[tx].mode.Waiting? then CommitStep(s, tx) else s
    case Rollback(tx) => if tx in s.txns then RollbackStep(s, tx) else s
  }

  function Run(actions: seq<Action>): State {
    if actions == [] then State(map[], map[], map[], [])
    else Step(Run(actions[..|actions| - 1]), actions[|actions| - 1])
  }
}
