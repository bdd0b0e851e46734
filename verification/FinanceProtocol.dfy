/** Commit and undo of MCP operations under the user lock, in every interleaving with other writers. */
module FinanceProtocol {
  import opened Wrappers
  import opened Sums
  import opened Text
  import CivilDate
  import opened FinanceActions

  /** Digests are equal exactly when the actions are. */
  datatype Digest = Malformed | DigestOf(action: Action)

  /** `granted` is the outcome of the consent check made under the lock. */
  datatype Command = Command(client: string, key: string, nonce: string, digest: Digest, action: Action, granted: bool)

  datatype UndoCommand = UndoCommand(client: string, operationId: int, key: string, nonce: string, granted: bool)

  datatype Operation = Operation(id: int, client: string, key: string, nonce: string, action: Action,
                                 kind: Kind, amountCents: int, result: ActionResult, committedAt: int)

  datatype UndoRow = UndoRow(operationId: int, client: string, nonce: string, undoneAt: int)

  /** Operation and undo rows are only ever appended. */
  datatype State = State(ledger: Ledger, operations: seq<Operation>, undos: seq<UndoRow>, nextId: int)

  datatype Reply = Reply(replayed: bool, result: ActionResult)

  predicate Identifier(text: string, max: nat) {
    0 < |text| <= max
  }

  predicate ValidCommand(c: Command) {
    && Identifier(c.client, 256) && Identifier(c.key, 200) && Identifier(c.nonce, 200)
    && c.digest == DigestOf(c.action)
  }

  predicate ValidUndo(u: UndoCommand) {
    Identifier(u.client, 256) && Identifier(u.key, 256) && Identifier(u.nonce, 256)
  }

  function FindOp(operations: seq<Operation>, wanted: Operation -> bool): (found: Option<Operation>)
    ensures found.Some? ==> found.value in operations && wanted(found.value)
    ensures found.None? ==> forall op :: op in operations ==> !wanted(op)
  {
    if operations == [] then None
    else if wanted(operations[0]) then Some(operations[0]) else FindOp(operations[1..], wanted)
  }

  function ByKey(client: string, key: string): Operation -> bool {
    (op: Operation) => op.client == client && op.key == key
  }

  function ByNonce(client: string, nonce: string): Operation -> bool {
    (op: Operation) => op.client == client && op.nonce == nonce
  }

  function ByIdAndKey(id: int, client: string, key: string): Operation -> bool {
    (op: Operation) => op.id == id && op.client == client && op.key == key
  }

  predicate IsUndone(undos: seq<UndoRow>, operationId: int) {
    exists u :: u in undos && u.operationId == operationId
  }

  predicate UndoNonceUsed(undos: seq<UndoRow>, client: string, nonce: string) {
    exists u :: u in undos && u.client == client && u.nonce == nonce
  }

  // ---- commit ----

  function NewOperation(id: int, c: Command, result: ActionResult, now: int): Operation {
    Operation(id, c.client, c.key, c.nonce, c.action, result.kind, result.amountCents, result, now)
  }

  ghost function Commit(s: State, c: Command, env: Env): (State, Result<Reply, Error>) {
    if !ValidCommand(c) then (s, Err(InvalidInput))
    else if !c.granted then (s, Err(GrantRevoked))
    else
      match FindOp(s.operations, ByKey(c.client, c.key))
      case Some(op) =>
        if IsUndone(s.undos, op.id) then (s, Err(Undone))
        else if op.action != c.action || op.nonce != c.nonce then (s, Err(KeyReused))
        else (s, Ok(Reply(true, op.result)))
      case None =>
        if FindOp(s.operations, ByNonce(c.client, c.nonce)).Some? then (s, Err(NonceReused))
        else
          match Performed(s.ledger, s.nextId, c.action, env)
          case Err(e) => (s, Err(e))
          case Ok(p) =>
            (State(p.ledger, s.operations + [NewOperation(p.nextId, c, p.result, env.now)], s.undos, p.nextId + 1),
             Ok(Reply(false, p.result)))
  }

  datatype Status = Status(undone: bool, result: ActionResult)

  function GetCommittedOperation(s: State, client: string, key: string): Option<Status> {
    if client == "" || key == "" then None
    else
      match FindOp(s.operations, ByKey(client, key))
      case None => None
      case Some(op) => Some(Status(IsUndone(s.undos, op.id), op.result))
  }

  // ---- undo ----

  /** The stored result has the shape its kind promises. */
  predicate ResultIntact(op: Operation) {
    var r := op.result;
    && r.kind == op.kind && r.amountCents > 0 && r.amountCents == op.amountCents
    && (r.kind == Income ==>
          r.entryId.Some? && r.receiptId.Some? && r.movementId.None? && r.expenseId.None?)
    && (r.kind == IncomeAndSave ==>
          r.entryId.Some? && r.receiptId.Some? && r.movementId.Some? && r.expenseId.Some?)
    && (r.kind == Deposit ==>
          r.movementId.Some? && r.entryId.None? && r.receiptId.None? && r.tagId.None?)
  }

  predicate MovementIntact(l: Ledger, op: Operation) {
    var r := op.result;
    r.movementId.Some? ==>
      && r.movementId.value in l.movements
      && var m := l.movements[r.movementId.value];
      && m.kind == DepositMove && m.manual && m.amount == r.amountCents
      && m.expenseId == r.expenseId && m.entryId.None?
      && m.bankId in l.banks
      && var bank := l.banks[m.bankId];
      && !bank.archived && !bank.yieldEnabled && bank.accruedThrough.None? && bank.updatedAt <= op.committedAt
  }

  predicate HasLaterMovement(l: Ledger, op: Operation) {
    var r := op.result;
    r.movementId.Some? && r.movementId.value in l.movements
    && exists k :: k in l.movements && k != r.movementId.value
                   && l.movements[k].bankId == l.movements[r.movementId.value].bankId
                   && l.movements[k].createdAt >= op.committedAt
  }

  predicate CompletionIntact(l: Ledger, op: Operation) {
    var r := op.result;
    r.movementId.Some? && r.movementId.value in l.movements && l.movements[r.movementId.value].bankId in l.banks ==>
      var m := l.movements[r.movementId.value];
      l.banks[m.bankId].completedAt.Some? ==> l.banks[m.bankId].completedAt == Some(m.date)
  }

  function MovementsOfExpense(l: Ledger, id: int): set<int> {
    set k | k in l.movements && l.movements[k].expenseId == Some(id)
  }

  function MovementsOfEntry(l: Ledger, id: int): set<int> {
    set k | k in l.movements && l.movements[k].entryId == Some(id)
  }

  function ReceiptsOf(l: Ledger, id: int): set<int> {
    set k | k in l.receipts && l.receipts[k].entryId == id
  }

  predicate ExpenseIntact(l: Ledger, op: Operation) {
    var r := op.result;
    r.expenseId.Some? ==>
      && r.expenseId.value in l.expenses
      && var id := r.expenseId.value;
      var e := l.expenses[id];
      && e.origin == Piggy && e.savings && e.oneOff && !e.archived
      && e.amount == r.amountCents && e.updatedAt <= op.committedAt
      && (forall k :: k in l.splits ==> l.splits[k] != id)
      && (forall k :: k in l.payments ==> l.payments[k].expenseId != id)
      && (forall k :: k in l.assets ==> l.assets[k].expenseId != Some(id))
      && r.movementId.Some? && MovementsOfExpense(l, id) == {r.movementId.value}
  }

  predicate EntryIntact(l: Ledger, op: Operation) {
    var r := op.result;
    r.entryId.Some? ==>
      && r.entryId.value in l.entries
      && var id := r.entryId.value;
      var e := l.entries[id];
      && e.origin == Manual && e.oneOff && !e.archived && e.amount == r.amountCents && e.updatedAt <= op.committedAt
      && MovementsOfEntry(l, id) == {}
      && (forall k :: k in l.assets ==> l.assets[k].entryId != Some(id))
      && r.receiptId.Some? && ReceiptsOf(l, id) == {r.receiptId.value}
      && l.receipts[r.receiptId.value].amount == r.amountCents
  }

  function Dropped<V>(table: map<int, V>, id: Option<int>): map<int, V> {
    if id.Some? then table - {id.value} else table
  }

  function Reopened(l: Ledger, r: ActionResult, now: int): map<int, Bank> {
    if r.movementId.None? || r.movementId.value !in l.movements then l.banks
    else
      var bankId := l.movements[r.movementId.value].bankId;
      if bankId in l.banks && l.banks[bankId].completedAt.Some?
      then l.banks[bankId := l.banks[bankId].(completedAt := None, updatedAt := now)]
      else l.banks
  }

  /** The ledger without the rows one operation wrote; tags stay, they may be shared. */
  function Reversed(l: Ledger, r: ActionResult, now: int): Ledger {
    l.(movements := Dropped(l.movements, r.movementId), expenses := Dropped(l.expenses, r.expenseId),
       receipts := Dropped(l.receipts, r.receiptId), entries := Dropped(l.entries, r.entryId),
       banks := Reopened(l, r, now))
  }

  function UndoBlocked(l: Ledger, op: Operation): Option<Error> {
    if !ResultIntact(op) || !MovementIntact(l, op) then Some(Changed)
    else if HasLaterMovement(l, op) then Some(LaterMovement)
    else if !CompletionIntact(l, op) || !ExpenseIntact(l, op) || !EntryIntact(l, op) then Some(Changed)
    else None
  }

  function UndoOperation(s: State, u: UndoCommand, now: int): (State, Result<bool, Error>) {
    if !ValidUndo(u) then (s, Err(InvalidInput))
    else if !u.granted then (s, Err(GrantRevoked))
    else
      match FindOp(s.operations, ByIdAndKey(u.operationId, u.client, u.key))
      case None => (s, Err(NotFound))
      case Some(op) =>
        if IsUndone(s.undos, op.id) then (s, Ok(true))
        else
          match UndoBlocked(s.ledger, op)
          case Some(e) => (s, Err(e))
          case None =>
            if UndoNonceUsed(s.undos, u.client, u.nonce) then (s, Err(NonceReused))
            else
              (s.(ledger := Reversed(s.ledger, op.result, now),
                  undos := s.undos + [UndoRow(op.id, u.client, u.nonce, now)]),
               Ok(false))
  }

  // ---- runs ----

  datatype Event =
    | CommitEvent(c: Command, env: Env)
    | UndoEvent(u: UndoCommand, now: int)
    | OtherWriter(ledger: Ledger, nextId: int)

  datatype Outcome = Answered(reply: Result<Reply, Error>) | UndoAnswered(replayed: Result<bool, Error>) | Silent

  /** Other services may write anything that keeps foreign keys; new rows get unused ids. */
  ghost predicate MayWrite(s: State, ledger: Ledger, nextId: int) {
    && Integrity(ledger, nextId) && nextId >= s.nextId
    && (forall k :: k in ledger.entries && k !in s.ledger.entries ==> k >= s.nextId)
    && (forall k :: k in ledger.receipts && k !in s.ledger.receipts ==> k >= s.nextId)
    && (forall k :: k in ledger.expenses && k !in s.ledger.expenses ==> k >= s.nextId)
    && (forall k :: k in ledger.movements && k !in s.ledger.movements ==> k >= s.nextId)
  }

  ghost function Step(s: State, e: Event): (State, Outcome) {
    match e
    case CommitEvent(c, env) => var r := Commit(s, c, env); (r.0, Answered(r.1))
    case UndoEvent(u, now) => var r := UndoOperation(s, u, now); (r.0, UndoAnswered(r.1))
    case OtherWriter(ledger, nextId) =>
      (if MayWrite(s, ledger, nextId) then s.(ledger := ledger, nextId := nextId) else s, Silent)
  }

  ghost function After(s: State, events: seq<Event>): State
    decreases |events|
  {
    if events == [] then s else After(Step(s, events[0]).0, events[1..])
  }

  /** The answer to the event at position `i` of a run. */
  ghost function OutcomeAt(s: State, events: seq<Event>, i: nat): Outcome
    requires i < |events|
  {
    Step(After(s, events[..i]), events[i]).1
  }

  // ---- what every reachable state keeps ----

  ghost predicate OpFits(op: Operation) {
    && ResultFits(op.result, op.action) && op.kind == op.result.kind && op.amountCents == op.result.amountCents
  }

  ghost predicate Below(r: ActionResult, id: int) {
    && (r.entryId.Some? ==> r.entryId.value < id) && (r.receiptId.Some? ==> r.receiptId.value < id)
    && (r.movementId.Some? ==> r.movementId.value < id) && (r.expenseId.Some? ==> r.expenseId.value < id)
  }

  ghost predicate Above(r: ActionResult, id: int) {
    && (r.entryId.Some? ==> r.entryId.value > id) && (r.receiptId.Some? ==> r.receiptId.value > id)
    && (r.movementId.Some? ==> r.movementId.value > id) && (r.expenseId.Some? ==> r.expenseId.value > id)
  }

  ghost predicate Separate(a: Operation, b: Operation) {
    && a.id < b.id && Above(b.result, a.id)
    && !(a.client == b.client && a.key == b.key) && !(a.client == b.client && a.nonce == b.nonce)
  }

  ghost predicate GoodOps(operations: seq<Operation>, nextId: int) {
    && (forall i :: 0 <= i < |operations| ==>
          OpFits(operations[i]) && Below(operations[i].result, operations[i].id) && operations[i].id < nextId)
    && (forall i, j :: 0 <= i < j < |operations| ==> Separate(operations[i], operations[j]))
  }

  ghost predicate Inv(s: State) {
    && Integrity(s.ledger, s.nextId) && GoodOps(s.operations, s.nextId)
    && (forall u :: u in s.undos ==> u.operationId < s.nextId)
  }

  // ---- one step ----

  lemma ReceiptsKeepEntries(l: Ledger, op: Operation, now: int)
    requires EntryIntact(l, op) && forall k :: k in l.receipts ==> l.receipts[k].entryId in l.entries
    requires op.result.entryId.Some? <==> op.result.receiptId.Some?
    ensures var m := Reversed(l, op.result, now);
      forall k :: k in m.receipts ==> m.receipts[k].entryId in m.entries
  {
    hide Reopened;
    var r := op.result;
    var m := Reversed(l, r, now);
    forall k | k in m.receipts
      ensures m.receipts[k].entryId in m.entries
    {
      assert r.entryId.Some? ==> (k in ReceiptsOf(l, r.entryId.value) <==> l.receipts[k].entryId == r.entryId.value);
    }
  }

  lemma MovementsKeepRows(l: Ledger, nextId: int, op: Operation, now: int)
    requires Integrity(l, nextId) && EntryIntact(l, op) && ExpenseIntact(l, op)
    ensures var m := Reversed(l, op.result, now);
      forall k :: k in m.movements ==>
        && (m.movements[k].entryId.Some? ==> m.movements[k].entryId.value in m.entries)
        && (m.movements[k].expenseId.Some? ==> m.movements[k].expenseId.value in m.expenses)
  {
    hide Reopened;
    var r := op.result;
    var m := Reversed(l, r, now);
    forall k | k in m.movements
      ensures m.movements[k].entryId.Some? ==> m.movements[k].entryId.value in m.entries
      ensures m.movements[k].expenseId.Some? ==> m.movements[k].expenseId.value in m.expenses
    {
      assert r.entryId.Some? ==>
          (k in MovementsOfEntry(l, r.entryId.value) <==> l.movements[k].entryId == r.entryId);
      assert r.expenseId.Some? ==>
          (k in MovementsOfExpense(l, r.expenseId.value) <==> l.movements[k].expenseId == r.expenseId);
    }
  }

  lemma ReversalKeepsIntegrity(l: Ledger, nextId: int, op: Operation, now: int)
    requires Integrity(l, nextId) && UndoBlocked(l, op).None?
    ensures Integrity(Reversed(l, op.result, now), nextId)
  {
    hide HasLaterMovement, CompletionIntact, ReceiptsOf, MovementsOfEntry, MovementsOfExpense;
    ReceiptsKeepEntries(l, op, now);
    MovementsKeepRows(l, nextId, op, now);
  }

  lemma EntryReversal(l: Ledger, r: ActionResult, id: int, rid: int)
    requires id in l.entries && l.entries[id].origin == Manual && ReceiptsOf(l, id) == {rid}
    requires l.receipts[rid].amount == r.amountCents
    ensures var entries, receipts := l.entries - {id}, l.receipts - {rid};
      && Sum(receipts, ReceiptCash(entries)) == Sum(l.receipts, ReceiptCash(l.entries)) - r.amountCents
      && Sum(entries, EntryCash) == Sum(l.entries, EntryCash)
  {
    var entries, receipts := l.entries - {id}, l.receipts - {rid};
    assert rid in ReceiptsOf(l, id);
    SumWithout(l.receipts, rid, ReceiptCash(l.entries));
    forall k | k in receipts
      ensures ReceiptCash(l.entries)(receipts[k]) == ReceiptCash(entries)(receipts[k])
    {
      assert k in ReceiptsOf(l, id) <==> l.receipts[k].entryId == id;
    }
    SumCongruence(receipts, ReceiptCash(l.entries), ReceiptCash(entries));
    SumWithout(l.entries, id, EntryCash);
  }

  lemma ExpenseReversal(l: Ledger, r: ActionResult, id: int)
    requires id in l.expenses && forall k :: k in l.payments ==> l.payments[k].expenseId != id
    requires l.expenses[id].origin == Piggy && !l.expenses[id].archived && l.expenses[id].amount == r.amountCents
    ensures var expenses := l.expenses - {id};
      && Sum(expenses, ExpenseCash) == Sum(l.expenses, ExpenseCash) - r.amountCents
      && Sum(l.payments, PaymentCash(expenses)) == Sum(l.payments, PaymentCash(l.expenses))
  {
    SumWithout(l.expenses, id, ExpenseCash);
    SumCongruence(l.payments, PaymentCash(l.expenses), PaymentCash(l.expenses - {id}));
  }

  lemma CashOfReversal(l: Ledger, op: Operation, now: int)
    requires EntryIntact(l, op) && ExpenseIntact(l, op) && op.result.receiptId.Some? == op.result.entryId.Some?
    ensures Cash(Reversed(l, op.result, now)) == Cash(l)
      - (if op.result.entryId.Some? then op.result.amountCents else 0)
      + (if op.result.expenseId.Some? then op.result.amountCents else 0)
  {
    hide Reopened, ReceiptsOf, MovementsOfEntry, MovementsOfExpense;
    var r := op.result;
    if r.entryId.Some? {
      EntryReversal(l, r, r.entryId.value, r.receiptId.value);
    }
    if r.expenseId.Some? {
      ExpenseReversal(l, r, r.expenseId.value);
    }
  }

  /** Whatever ran in between, an accepted undo moves exactly the negation of the announced effects. */
  lemma UndoIsExact(l: Ledger, op: Operation, now: int)
    requires UndoBlocked(l, op).None? && ResultFits(op.result, op.action)
    ensures var m := Reversed(l, op.result, now);
      Cash(m) == Cash(l) - CashEffect(op.action) && Savings(m) == Savings(l) - PiggyEffect(op.action)
  {
    hide HasLaterMovement, CompletionIntact, EntryIntact, ExpenseIntact, Reopened, Cash;
    CashOfReversal(l, op, now);
    if op.result.movementId.Some? {
      SumWithout(l.movements, op.result.movementId.value, Signed);
    }
  }

  /** Undo removes the rows the operation reported and touches no other row, let alone another operation's. */
  lemma UndoRemovesOnlyItsRows(s: State, u: UndoCommand, now: int)
    requires Inv(s) && UndoOperation(s, u, now).1 == Ok(false)
    ensures var found := FindOp(s.operations, ByIdAndKey(u.operationId, u.client, u.key));
      && found.Some?
      && var r, l, m := found.value.result, s.ledger, UndoOperation(s, u, now).0.ledger;
      && m.entries.Keys == l.entries.Keys - IdSet(r.entryId) && m.entries.Items <= l.entries.Items
      && m.receipts.Keys == l.receipts.Keys - IdSet(r.receiptId) && m.receipts.Items <= l.receipts.Items
      && m.expenses.Keys == l.expenses.Keys - IdSet(r.expenseId) && m.expenses.Items <= l.expenses.Items
      && m.movements.Keys == l.movements.Keys - IdSet(r.movementId) && m.movements.Items <= l.movements.Items
      && m.payments == l.payments && m.splits == l.splits && m.assets == l.assets && m.tags == l.tags
      && (forall other :: other in s.operations && other != found.value ==>
            && (r.entryId.Some? ==> r.entryId != other.result.entryId)
            && (r.receiptId.Some? ==> r.receiptId != other.result.receiptId)
            && (r.expenseId.Some? ==> r.expenseId != other.result.expenseId)
            && (r.movementId.Some? ==> r.movementId != other.result.movementId))
  {
    hide UndoBlocked, Integrity, Reopened, OpFits;
    var op := FindOp(s.operations, ByIdAndKey(u.operationId, u.client, u.key)).value;
    forall other | other in s.operations && other != op
      ensures SharesNoRow(op.result, other.result)
    {
      OperationsShareNoRow(s, op, other);
    }
  }

  lemma OperationsShareNoRow(s: State, a: Operation, b: Operation)
    requires GoodOps(s.operations, s.nextId) && a in s.operations && b in s.operations && a != b
    ensures SharesNoRow(a.result, b.result)
  {
    hide OpFits;
    var i :| 0 <= i < |s.operations| && s.operations[i] == a;
    var j :| 0 <= j < |s.operations| && s.operations[j] == b;
    assert if i < j then Separate(a, b) else Separate(b, a);
  }

  function IdSet(id: Option<int>): set<int> {
    if id.Some? then {id.value} else {}
  }

  predicate Disjoint(a: Option<int>, b: Option<int>) {
    a.Some? && b.Some? ==> a != b
  }

  predicate SharesNoRow(a: ActionResult, b: ActionResult) {
    Disjoint(a.entryId, b.entryId) && Disjoint(a.receiptId, b.receiptId)
    && Disjoint(a.movementId, b.movementId) && Disjoint(a.expenseId, b.expenseId)
  }

  lemma PostingIsNew(s: State, c: Command, env: Env)
    requires Commit(s, c, env).1.Ok? && !Commit(s, c, env).1.value.replayed
    ensures Performed(s.ledger, s.nextId, c.action, env).Ok?
    ensures var p := Performed(s.ledger, s.nextId, c.action, env).value;
      && Commit(s, c, env).1 == Ok(Reply(false, p.result))
      && Commit(s, c, env).0 == State(p.ledger, s.operations + [NewOperation(p.nextId, c, p.result, env.now)],
                                      s.undos, p.nextId + 1)
    ensures forall op :: op in s.operations && op.client == c.client ==> op.key != c.key && op.nonce != c.nonce
  {
    hide Performed, ValidCommand, IsUndone;
    assert FindOp(s.operations, ByKey(c.client, c.key)).None?;
    assert FindOp(s.operations, ByNonce(c.client, c.nonce)).None?;
    forall op | op in s.operations && op.client == c.client
      ensures op.key != c.key && op.nonce != c.nonce
    {
      assert !ByKey(c.client, c.key)(op) && !ByNonce(c.client, c.nonce)(op);
    }
  }

  lemma OtherwiseNothingHappens(s: State, c: Command, env: Env)
    ensures Commit(s, c, env).1.Err? || Commit(s, c, env).1.value.replayed ==> Commit(s, c, env).0 == s
  {
    hide Performed, ValidCommand, IsUndone, FindOp;
  }

  lemma NewOperationIsSeparate(s: State, op: Operation, lo: int)
    requires GoodOps(s.operations, s.nextId) && lo == s.nextId <= op.id
    requires IdsWithin(op.result, lo, op.id) && OpFits(op)
    requires forall other :: other in s.operations && other.client == op.client ==>
               other.key != op.key && other.nonce != op.nonce
    ensures GoodOps(s.operations + [op], op.id + 1)
  {
    var all := s.operations + [op];
    forall i, j | 0 <= i < j < |all|
      ensures Separate(all[i], all[j])
    {
      if j == |s.operations| {
        assert all[i] in s.operations;
        assert s.operations[i].id < s.nextId;
      } else {
        assert Separate(s.operations[i], s.operations[j]);
      }
    }
  }

  lemma CommitKeepsInvariant(s: State, c: Command, env: Env)
    requires Inv(s)
    ensures Inv(Commit(s, c, env).0)
  {
    hide Integrity, GoodOps, Performed, Commit, IdsWithin, ResultFits;
    if Commit(s, c, env).1.Ok? && !Commit(s, c, env).1.value.replayed {
      PostingIsNew(s, c, env);
      PreviewIsExact(s.ledger, s.nextId, c.action, env);
      ResultNamesNewRows(s.ledger, s.nextId, c.action, env);
      var p := Performed(s.ledger, s.nextId, c.action, env).value;
      NewOperationIsSeparate(s, NewOperation(p.nextId, c, p.result, env.now), s.nextId);
      IntegrityGrows(p.ledger, p.nextId, p.nextId + 1);
    } else {
      OtherwiseNothingHappens(s, c, env);
    }
  }

  lemma IntegrityGrows(l: Ledger, nextId: int, more: int)
    requires Integrity(l, nextId) && nextId <= more
    ensures Integrity(l, more)
  {
  }

  lemma UndoKeepsInvariant(s: State, u: UndoCommand, now: int)
    requires Inv(s)
    ensures Inv(UndoOperation(s, u, now).0)
  {
    hide Integrity, UndoBlocked, Reversed, ValidUndo, OpFits, Separate, Below;
    if UndoOperation(s, u, now).1 == Ok(false) {
      var op := FindOp(s.operations, ByIdAndKey(u.operationId, u.client, u.key)).value;
      ReversalKeepsIntegrity(s.ledger, s.nextId, op, now);
    }
  }

  lemma StepKeepsInvariant(s: State, e: Event)
    requires Inv(s)
    ensures Inv(Step(s, e).0)
  {
    hide Integrity, Commit, UndoOperation, OpFits, Separate, Below;
    match e
    case CommitEvent(c, env) => CommitKeepsInvariant(s, c, env);
    case UndoEvent(u, now) => UndoKeepsInvariant(s, u, now);
    case OtherWriter(ledger, nextId) =>
  }

  lemma {:induction false} RunKeepsInvariant(s: State, events: seq<Event>)
    requires Inv(s)
    ensures Inv(After(s, events))
    decreases |events|
  {
    hide Inv, Step;
    if events != [] {
      StepKeepsInvariant(s, events[0]);
      RunKeepsInvariant(Step(s, events[0]).0, events[1..]);
    }
  }

  // ---- money over whole runs ----

  /** The effects of every operation posted and not undone. */
  function Live(operations: seq<Operation>, undos: seq<UndoRow>, effect: Action -> int): int {
    if operations == [] then 0
    else
      var last := operations[|operations| - 1];
      Live(operations[..|operations| - 1], undos, effect)
      + (if IsUndone(undos, last.id) then 0 else effect(last.action))
  }

  lemma UndoneAfter(undos: seq<UndoRow>, u: UndoRow, id: int)
    ensures IsUndone(undos + [u], id) <==> IsUndone(undos, id) || id == u.operationId
  {
    assert u in undos + [u];
  }

  lemma {:induction false} LiveWithoutIt(operations: seq<Operation>, undos: seq<UndoRow>, u: UndoRow,
                                         effect: Action -> int)
    requires forall op :: op in operations ==> op.id != u.operationId
    ensures Live(operations, undos + [u], effect) == Live(operations, undos, effect)
  {
    hide IsUndone;
    if operations != [] {
      var n := |operations| - 1;
      LiveWithoutIt(operations[..n], undos, u, effect);
      UndoneAfter(undos, u, operations[n].id);
    }
  }

  lemma {:induction false} LiveAfterUndo(operations: seq<Operation>, i: nat, undos: seq<UndoRow>, u: UndoRow,
                                         effect: Action -> int)
    requires i < |operations| && operations[i].id == u.operationId && !IsUndone(undos, u.operationId)
    requires forall j :: 0 <= j < |operations| && j != i ==> operations[j].id != u.operationId
    ensures Live(operations, undos + [u], effect) == Live(operations, undos, effect) - effect(operations[i].action)
  {
    hide IsUndone;
    var n := |operations| - 1;
    UndoneAfter(undos, u, operations[n].id);
    if i == n {
      LiveWithoutIt(operations[..n], undos, u, effect);
    } else {
      LiveAfterUndo(operations[..n], i, undos, u, effect);
    }
  }

  /** The cash that operations posted and not undone do not explain; below, the same for savings. */
  ghost function CashOutsideProtocol(s: State): int {
    Cash(s.ledger) - Live(s.operations, s.undos, CashEffect)
  }

  ghost function SavingsOutsideProtocol(s: State): int {
    Savings(s.ledger) - Live(s.operations, s.undos, PiggyEffect)
  }

  lemma CommitMovesOnlyLive(s: State, c: Command, env: Env)
    requires Inv(s)
    ensures CashOutsideProtocol(Commit(s, c, env).0) == CashOutsideProtocol(s)
    ensures SavingsOutsideProtocol(Commit(s, c, env).0) == SavingsOutsideProtocol(s)
  {
    hide Integrity, GoodOps, Performed, Commit, IdsWithin, ResultFits, Cash, Savings, CashEffect, PiggyEffect;
    if Commit(s, c, env).1.Ok? && !Commit(s, c, env).1.value.replayed {
      PostingIsNew(s, c, env);
      PreviewIsExact(s.ledger, s.nextId, c.action, env);
      ResultNamesNewRows(s.ledger, s.nextId, c.action, env);
      var p := Performed(s.ledger, s.nextId, c.action, env).value;
      var op := NewOperation(p.nextId, c, p.result, env.now);
      assert (s.operations + [op])[..|s.operations|] == s.operations;
    } else {
      OtherwiseNothingHappens(s, c, env);
    }
  }

  lemma OnlyOneHasItsId(s: State, i: nat)
    requires GoodOps(s.operations, s.nextId) && i < |s.operations|
    ensures forall j :: 0 <= j < |s.operations| && j != i ==> s.operations[j].id != s.operations[i].id
  {
    hide OpFits, Below, Above;
    forall j | 0 <= j < |s.operations| && j != i
      ensures s.operations[j].id != s.operations[i].id
    {
      assert if i < j then Separate(s.operations[i], s.operations[j]) else Separate(s.operations[j], s.operations[i]);
    }
  }

  lemma UndoMovesOnlyLive(s: State, u: UndoCommand, now: int)
    requires Inv(s)
    ensures CashOutsideProtocol(UndoOperation(s, u, now).0) == CashOutsideProtocol(s)
    ensures SavingsOutsideProtocol(UndoOperation(s, u, now).0) == SavingsOutsideProtocol(s)
  {
    hide Integrity, UndoBlocked, Reversed, ValidUndo, Cash, Savings, CashEffect, PiggyEffect, Live, Below, IsUndone,
      ResultFits;
    if UndoOperation(s, u, now).1 == Ok(false) {
      var op := FindOp(s.operations, ByIdAndKey(u.operationId, u.client, u.key)).value;
      var row := UndoRow(op.id, u.client, u.nonce, now);
      UndoIsExact(s.ledger, op, now);
      var i :| 0 <= i < |s.operations| && s.operations[i] == op;
      OnlyOneHasItsId(s, i);
      LiveAfterUndo(s.operations, i, s.undos, row, CashEffect);
      LiveAfterUndo(s.operations, i, s.undos, row, PiggyEffect);
    }
  }

  /** What the other writers of a run added to a quantity of the ledger. */
  ghost function Added(s: State, events: seq<Event>, worth: Ledger -> int): int
    decreases |events|
  {
    if events == [] then 0
    else
      var next := Step(s, events[0]).0;
      (if events[0].OtherWriter? then worth(next.ledger) - worth(s.ledger) else 0) + Added(next, events[1..], worth)
  }

  /**
   * Conservation: at any moment total cash and savings are what other writers made them, plus the announced
   * effects of the operations posted and not undone, each counted once.
   */
  lemma {:induction false} RunConservesMoney(s: State, events: seq<Event>)
    requires Inv(s)
    ensures CashOutsideProtocol(After(s, events)) == CashOutsideProtocol(s) + Added(s, events, Cash)
    ensures SavingsOutsideProtocol(After(s, events)) == SavingsOutsideProtocol(s) + Added(s, events, Savings)
    decreases |events|
  {
    hide Inv, Commit, UndoOperation, Cash, Savings, Live;
    if events != [] {
      var e, next := events[0], Step(s, events[0]).0;
      match e {
        case CommitEvent(c, env) => CommitMovesOnlyLive(s, c, env);
        case UndoEvent(u, now) => UndoMovesOnlyLive(s, u, now);
        case OtherWriter(_, _) =>
      }
      StepKeepsInvariant(s, e);
      RunConservesMoney(next, events[1..]);
    }
  }

  // ---- exactly once ----

  lemma StepOnlyAppends(s: State, e: Event)
    ensures s.operations <= Step(s, e).0.operations && s.undos <= Step(s, e).0.undos
  {
    hide Performed, ValidCommand, ValidUndo, UndoBlocked, Reversed, FindOp, IsUndone, MayWrite, UndoNonceUsed;
  }

  lemma {:induction false} RunOnlyAppends(s: State, events: seq<Event>)
    ensures s.operations <= After(s, events).operations && s.undos <= After(s, events).undos
    decreases |events|
  {
    hide Step;
    if events != [] {
      StepOnlyAppends(s, events[0]);
      RunOnlyAppends(Step(s, events[0]).0, events[1..]);
    }
  }

  lemma {:induction false} AfterSplit(s: State, a: seq<Event>, b: seq<Event>)
    ensures After(s, a + b) == After(After(s, a), b)
    decreases |a|
  {
    hide Step;
    if a == [] {
      assert a + b == b;
    } else {
      assert (a + b)[1..] == a[1..] + b;
      AfterSplit(Step(s, a[0]).0, a[1..], b);
    }
  }

  /** Between two positions of a run, operations and undos only grow. */
  lemma LaterStatesExtend(s: State, events: seq<Event>, i: nat, j: nat)
    requires i < j <= |events|
    ensures Step(After(s, events[..i]), events[i]).0.operations <= After(s, events[..j]).operations
    ensures Step(After(s, events[..i]), events[i]).0.undos <= After(s, events[..j]).undos
  {
    hide Step;
    var at := After(s, events[..i]);
    assert events[..j] == events[..i] + events[i..j];
    AfterSplit(s, events[..i], events[i..j]);
    assert events[i..j][0] == events[i];
    RunOnlyAppends(Step(at, events[i]).0, events[i..j][1..]);
  }

  predicate Posted(o: Outcome) {
    o.Answered? && o.reply.Ok? && !o.reply.value.replayed
  }

  lemma {:induction false} FindAfterAppend(operations: seq<Operation>, op: Operation, rest: seq<Operation>,
                                           wanted: Operation -> bool)
    requires FindOp(operations, wanted).None? && wanted(op)
    ensures FindOp(operations + [op] + rest, wanted) == Some(op)
  {
    if operations == [] {
      assert [] + [op] + rest == [op] + rest;
    } else {
      assert (operations + [op] + rest)[1..] == operations[1..] + [op] + rest;
      FindAfterAppend(operations[1..], op, rest, wanted);
    }
  }

  /** What a posting leaves behind for every later step: the operation under its key and under its nonce. */
  lemma PostingStaysFindable(s: State, events: seq<Event>, i: nat, j: nat)
    requires i < j <= |events| && events[i].CommitEvent? && Posted(OutcomeAt(s, events, i))
    ensures var c, later := events[i].c, After(s, events[..j]).operations;
      exists op: Operation ::
        && op.client == c.client && op.key == c.key && op.nonce == c.nonce && op.action == c.action
        && OutcomeAt(s, events, i) == Answered(Ok(Reply(false, op.result)))
        && FindOp(later, ByKey(c.client, c.key)) == Some(op)
        && FindOp(later, ByNonce(c.client, c.nonce)) == Some(op)
  {
    hide Performed, Commit;
    var c, env, at := events[i].c, events[i].env, After(s, events[..i]);
    PostingIsNew(at, c, env);
    var op := Commit(at, c, env).0.operations[|at.operations|];
    LaterStatesExtend(s, events, i, j);
    var later := After(s, events[..j]).operations;
    var rest := later[|at.operations| + 1..];
    assert later == at.operations + [op] + rest;
    FindAfterAppend(at.operations, op, rest, ByKey(c.client, c.key));
    FindAfterAppend(at.operations, op, rest, ByNonce(c.client, c.nonce));
  }

  /** No key and no nonce of a client ever posts money twice. */
  lemma PostsAtMostOnce(s: State, events: seq<Event>, i: nat, j: nat)
    requires i < j < |events|
    ensures events[i].CommitEvent? && events[j].CommitEvent? && events[i].c.client == events[j].c.client
            && Posted(OutcomeAt(s, events, i)) && Posted(OutcomeAt(s, events, j)) ==>
      events[i].c.key != events[j].c.key && events[i].c.nonce != events[j].c.nonce
  {
    hide Performed, Commit, FindOp;
    if events[i].CommitEvent? && events[j].CommitEvent? && events[i].c.client == events[j].c.client
       && Posted(OutcomeAt(s, events, i)) && Posted(OutcomeAt(s, events, j)) {
      var c := events[i].c;
      PostingStaysFindable(s, events, i, j);
      var at := After(s, events[..j]);
      var op := FindOp(at.operations, ByKey(c.client, c.key)).value;
      assert op in at.operations;
      PostingIsNew(at, events[j].c, events[j].env);
    }
  }

  /** An exact retry, however much later, returns the stored result and changes nothing, until the undo. */
  lemma RetryReturnsStoredResult(s: State, events: seq<Event>, i: nat, j: nat)
    requires i < j < |events| && events[i].CommitEvent? && events[j].CommitEvent?
    requires Posted(OutcomeAt(s, events, i)) && events[i].c == events[j].c
    ensures var c, result, at := events[i].c, OutcomeAt(s, events, i).reply.value.result, After(s, events[..j]);
      var status := GetCommittedOperation(at, c.client, c.key);
      && status.Some? && status.value.result == result
      && Step(at, events[j]) == (at, if status.value.undone then Answered(Err(Undone))
                                     else Answered(Ok(Reply(true, result))))
  {
    var c, at := events[i].c, After(s, events[..j]);
    PostingStaysFindable(s, events, i, j);
    hide Performed, FindOp, After;
    PostedCommandsAreValid(After(s, events[..i]), c, events[i].env);
    hide IsUndone;
  }

  lemma PostedCommandsAreValid(s: State, c: Command, env: Env)
    requires Commit(s, c, env).1.Ok?
    ensures ValidCommand(c) && c.granted
  {
    hide Performed, FindOp, IsUndone;
  }

  lemma AcceptedUndoIsGranted(s: State, u: UndoCommand, now: int)
    requires UndoOperation(s, u, now).1.Ok?
    ensures ValidUndo(u) && u.granted
  {
    hide UndoBlocked, FindOp, IsUndone, Reversed, UndoNonceUsed;
  }

  lemma OneOperationPerIdentifier(s: State, a: Operation, b: Operation)
    requires GoodOps(s.operations, s.nextId) && a in s.operations && b in s.operations
    requires a.client == b.client && (a.key == b.key || a.nonce == b.nonce)
    ensures a == b
  {
    hide OpFits;
    var i :| 0 <= i < |s.operations| && s.operations[i] == a;
    var j :| 0 <= j < |s.operations| && s.operations[j] == b;
    assert i < j ==> Separate(a, b);
    assert j < i ==> Separate(b, a);
  }

  lemma UndoLeavesTombstone(s: State, u: UndoCommand, now: int)
    requires UndoOperation(s, u, now).1.Ok?
    ensures var found := FindOp(s.operations, ByIdAndKey(u.operationId, u.client, u.key));
      found.Some? && IsUndone(UndoOperation(s, u, now).0.undos, found.value.id)
  {
    hide UndoBlocked, Reversed, ValidUndo, UndoNonceUsed;
    var op := FindOp(s.operations, ByIdAndKey(u.operationId, u.client, u.key)).value;
    var after := UndoOperation(s, u, now).0.undos;
    if after != s.undos {
      assert after[|s.undos|].operationId == op.id;
    }
  }

  lemma TombstoneRejects(s: State, op: Operation, c: Command, env: Env)
    requires Inv(s) && op in s.operations && IsUndone(s.undos, op.id)
    requires c.client == op.client && (c.key == op.key || c.nonce == op.nonce)
    ensures Commit(s, c, env).1.Err? && Commit(s, c, env).0 == s
  {
    hide Performed, ValidCommand, Integrity;
    assert ByKey(c.client, c.key)(op) || ByNonce(c.client, c.nonce)(op);
    var byKey := FindOp(s.operations, ByKey(c.client, c.key));
    if byKey.Some? && (byKey.value.key == op.key || byKey.value.nonce == op.nonce) {
      OneOperationPerIdentifier(s, byKey.value, op);
    }
  }

  /** Once undone, neither the key nor the nonce of an operation can ever post again. */
  lemma UndoneNeverPostsAgain(s: State, events: seq<Event>, i: nat, j: nat)
    requires Inv(s) && i < j < |events| && events[i].UndoEvent? && events[j].CommitEvent?
    requires OutcomeAt(s, events, i).replayed.Ok?
    requires events[j].c.client == events[i].u.client
    ensures var at := After(s, events[..i]);
      var found := FindOp(at.operations, ByIdAndKey(events[i].u.operationId, events[i].u.client, events[i].u.key));
      && found.Some?
      && (events[j].c.key == found.value.key || events[j].c.nonce == found.value.nonce ==>
            OutcomeAt(s, events, j).reply.Err? && Step(After(s, events[..j]), events[j]).0 == After(s, events[..j]))
  {
    hide Inv, After, Commit, UndoOperation, FindOp;
    var at, later := After(s, events[..i]), After(s, events[..j]);
    var u := events[i].u;
    UndoLeavesTombstone(at, u, events[i].now);
    var op := FindOp(at.operations, ByIdAndKey(u.operationId, u.client, u.key)).value;
    LaterStatesExtend(s, events, i, j);
    RunKeepsInvariant(s, events[..j]);
    StepOnlyAppends(at, events[i]);
    assert op in at.operations && op in later.operations;
    var row :| row in UndoOperation(at, u, events[i].now).0.undos && row.operationId == op.id;
    assert row in later.undos;
    if events[j].c.key == op.key || events[j].c.nonce == op.nonce {
      TombstoneRejects(later, op, events[j].c, events[j].env);
    }
  }

  // ---- undo as the inverse of commit ----

  ghost predicate WroteIncome(l: Ledger, m: Ledger, r: ActionResult, now: int) {
    && r.entryId.Some? && r.receiptId.Some?
    && var id, rid := r.entryId.value, r.receiptId.value;
    && id in m.entries && rid in m.receipts && id !in l.entries && rid !in l.receipts
    && m.entries == l.entries[id := m.entries[id]] && m.receipts == l.receipts[rid := m.receipts[rid]]
    && var e, receipt := m.entries[id], m.receipts[rid];
    && e.origin == Manual && e.oneOff && !e.archived && e.amount == r.amountCents && e.updatedAt == now
    && receipt.entryId == id && receipt.amount == r.amountCents
  }

  ghost predicate WroteExpense(l: Ledger, m: Ledger, r: ActionResult, now: int) {
    && r.expenseId.Some?
    && var id := r.expenseId.value;
    && id in m.expenses && id !in l.expenses && m.expenses == l.expenses[id := m.expenses[id]]
    && var e := m.expenses[id];
    && e.origin == Piggy && e.savings && e.oneOff && !e.archived && e.amount == r.amountCents && e.updatedAt == now
  }

  ghost predicate WroteMovement(l: Ledger, m: Ledger, r: ActionResult, a: Action, env: Env) {
    && !a.ReceiveIncome? && r.movementId.Some? && a.bankId in l.banks
    && var id, bank := r.movementId.value, l.banks[a.bankId];
    && id !in l.movements
    && m.movements == l.movements[id := Movement(a.bankId, DepositMove, true, r.amountCents, a.dateKey, r.expenseId,
                                                 None, env.now)]
    && !bank.archived
    && exists completed :: (completed == bank.completedAt || (bank.completedAt.None? && completed == Some(a.dateKey)))
         && m.banks == l.banks[a.bankId := bank.(completedAt := completed, updatedAt := env.now)]
  }

  /** Every row an accepted action writes, and that it writes nothing else. */
  ghost predicate WroteRows(l: Ledger, m: Ledger, r: ActionResult, a: Action, env: Env) {
    && m.payments == l.payments && m.splits == l.splits && m.assets == l.assets
    && (if a.DepositExistingCash? then m.entries == l.entries && m.receipts == l.receipts
        else WroteIncome(l, m, r, env.now))
    && (if Deducts(a) then WroteExpense(l, m, r, env.now) else m.expenses == l.expenses)
    && (if a.ReceiveIncome? then m.movements == l.movements && m.banks == l.banks
        else WroteMovement(l, m, r, a, env))
  }

  lemma DepositWritesMovement(p: Progress, a: Action, env: Env)
    requires !a.ReceiveIncome? && Integrity(p.ledger, p.nextId) && WithDeposit(p, a, env).Ok?
    requires p.result.amountCents == a.amountCents
    ensures var q := WithDeposit(p, a, env).value;
      && WroteMovement(p.ledger, q.ledger, q.result, a, env)
      && (if Deducts(a) then WroteExpense(p.ledger, q.ledger, q.result, env.now)
          else q.ledger.expenses == p.ledger.expenses)
      && q.ledger.(movements := p.ledger.movements, banks := p.ledger.banks, expenses := p.ledger.expenses) == p.ledger
      && q.result.(movementId := p.result.movementId, expenseId := p.result.expenseId) == p.result
  {
    hide RejectsPastDeposit, CappedDeposit, BankBalance;
    var q := WithDeposit(p, a, env).value;
    var bank := p.ledger.banks[a.bankId];
    var updated := AfterDeposit(bank, BankBalance(p.ledger.movements, a.bankId), a.amountCents, a.dateKey, env.now);
    assert q.ledger.banks
      == p.ledger.banks[a.bankId := bank.(completedAt := updated.completedAt, updatedAt := env.now)];
  }

  lemma IncomeWritesPair(p: Progress, a: Action, env: Env)
    requires !a.DepositExistingCash? && Integrity(p.ledger, p.nextId) && WithIncome(p, a, env).Ok?
    requires p.result.amountCents == a.amountCents
    ensures var q := WithIncome(p, a, env).value;
      && WroteIncome(p.ledger, q.ledger, q.result, env.now)
      && q.ledger.(entries := p.ledger.entries, receipts := p.ledger.receipts) == p.ledger
      && q.result.amountCents == a.amountCents
  {
    hide ValidIncome, MonthKey;
  }

  lemma PerformedWritesRows(l: Ledger, nextId: int, a: Action, env: Env)
    requires Integrity(l, nextId) && Performed(l, nextId, a, env).Ok?
    ensures var q := Performed(l, nextId, a, env).value;
      WroteRows(l, q.ledger, q.result, a, env)
  {
    hide Integrity, WithTag, WithIncome, WithDeposit, ValidDraft;
    var p := Start(l, nextId, a);
    if !a.DepositExistingCash? {
      TagKeepsRows(p, a.tagName, env);
      p := WithTag(p, a.tagName, env).value;
      IncomeWritesPair(p, a, env);
      IncomeKeepsIntegrity(p, a, env);
      p := WithIncome(p, a, env).value;
    }
    if !a.ReceiveIncome? {
      DepositWritesMovement(p, a, env);
    }
  }

  /** The bank conditions under which a deposit made at `now` can be taken back at once. */
  ghost predicate Reversible(l: Ledger, a: Action, now: int) {
    a.ReceiveIncome? ||
    (&& a.bankId in l.banks
     && var bank := l.banks[a.bankId];
     && !bank.yieldEnabled && bank.accruedThrough.None?
     && (bank.completedAt.None? || bank.completedAt == Some(a.dateKey))
     && (forall k :: k in l.movements && l.movements[k].bankId == a.bankId ==> l.movements[k].createdAt < now))
  }

  lemma FreshEntryIsIntact(l: Ledger, m: Ledger, nextId: int, op: Operation, env: Env)
    requires Integrity(l, nextId) && WroteRows(l, m, op.result, op.action, env) && op.committedAt == env.now
    requires ResultFits(op.result, op.action)
    ensures EntryIntact(m, op)
  {
    hide WroteExpense;
    var r := op.result;
    if r.entryId.Some? {
      var id, rid := r.entryId.value, r.receiptId.value;
      assert forall k :: k in l.receipts ==> l.receipts[k].entryId != id;
      forall k
        ensures k in ReceiptsOf(m, id) <==> k in {rid}
      {
        assert k in m.receipts && k != rid ==> k in l.receipts && m.receipts[k] == l.receipts[k];
      }
      assert ReceiptsOf(m, id) == {rid};
      assert forall k :: k in m.movements && k in l.movements ==> m.movements[k].entryId != r.entryId;
      assert forall k :: k in m.movements && k !in l.movements ==> m.movements[k].entryId.None?;
      assert MovementsOfEntry(m, id) == {};
    }
  }

  lemma FreshExpenseIsIntact(l: Ledger, m: Ledger, nextId: int, op: Operation, env: Env)
    requires Integrity(l, nextId) && WroteRows(l, m, op.result, op.action, env) && op.committedAt == env.now
    requires ResultFits(op.result, op.action)
    ensures ExpenseIntact(m, op)
  {
    hide WroteIncome;
    var r := op.result;
    if r.expenseId.Some? {
      var id, mid := r.expenseId.value, r.movementId.value;
      assert forall k :: k in l.movements ==> l.movements[k].expenseId != r.expenseId;
      forall k
        ensures k in MovementsOfExpense(m, id) <==> k in {mid}
      {
        assert k in m.movements && k != mid ==> k in l.movements && m.movements[k] == l.movements[k];
      }
      assert MovementsOfExpense(m, id) == {mid};
    }
  }

  lemma FreshMovementIsIntact(l: Ledger, m: Ledger, op: Operation, env: Env)
    requires WroteRows(l, m, op.result, op.action, env) && op.committedAt == env.now
    requires ResultFits(op.result, op.action)
    ensures Reversible(l, op.action, env.now) <==>
      MovementIntact(m, op) && !HasLaterMovement(m, op) && CompletionIntact(m, op)
  {
    hide WroteIncome, WroteExpense;
    var a, r := op.action, op.result;
    if !a.ReceiveIncome? {
      var id := r.movementId.value;
      assert m.movements[id].bankId == a.bankId;
      assert forall k :: k in l.movements ==> k in m.movements && m.movements[k] == l.movements[k] && k != id;
      assert forall k :: k in m.movements ==> k == id || k in l.movements;
    }
  }

  lemma FreshIsReversible(l: Ledger, m: Ledger, nextId: int, op: Operation, env: Env)
    requires Integrity(l, nextId) && WroteRows(l, m, op.result, op.action, env) && op.committedAt == env.now
    requires OpFits(op)
    ensures UndoBlocked(m, op).None? <==> Reversible(l, op.action, env.now)
  {
    hide WroteRows, MovementIntact, HasLaterMovement, CompletionIntact, ExpenseIntact, EntryIntact, Reversible,
      Integrity;
    FreshEntryIsIntact(l, m, nextId, op, env);
    FreshExpenseIsIntact(l, m, nextId, op, env);
    FreshMovementIsIntact(l, m, op, env);
  }

  lemma ReversedRestores(l: Ledger, m: Ledger, op: Operation, env: Env, now: int)
    requires WroteRows(l, m, op.result, op.action, env) && ResultFits(op.result, op.action)
    ensures var a, back := op.action, Reversed(m, op.result, now);
      && back.(tags := l.tags, banks := l.banks) == l
      && (a.ReceiveIncome? ==> back.banks == l.banks)
      && (!a.ReceiveIncome? ==>
            && a.bankId in back.banks && a.bankId in l.banks
            && back.banks == l.banks[a.bankId := back.banks[a.bankId]]
            && back.banks[a.bankId] == l.banks[a.bankId].(completedAt := None,
                                                          updatedAt := back.banks[a.bankId].updatedAt))
  {
    var r, back := op.result, Reversed(m, op.result, now);
    if r.entryId.Some? {
      assert back.entries == l.entries && back.receipts == l.receipts;
    }
    assert back.expenses == l.expenses;
    assert back.movements == l.movements;
  }

  /**
   * An undo issued right after the commit is accepted exactly when the bank earns no interest, was not completed on
   * another day and saw no movement at or after the commit. It then restores every row; of the deposit's bank only
   * the completion mark may differ, and it does exactly when the bank was already complete.
   */
  lemma UndoInvertsCommit(s: State, c: Command, env: Env, u: UndoCommand, now: int)
    requires Inv(s) && Commit(s, c, env).1.Ok? && !Commit(s, c, env).1.value.replayed
    requires var t := Commit(s, c, env).0;
      && |t.operations| > 0 && u.operationId == t.operations[|t.operations| - 1].id
      && u.client == c.client && u.key == c.key && u.granted && ValidUndo(u)
      && !UndoNonceUsed(s.undos, u.client, u.nonce)
    ensures var t := Commit(s, c, env).0;
      var undone := UndoOperation(t, u, now);
      && (undone.1 == Ok(false) <==> Reversible(s.ledger, c.action, env.now))
      && (undone.1 == Ok(false) ==>
            var l, back := s.ledger, undone.0.ledger;
            && back.(tags := l.tags, banks := l.banks) == l
            && (c.action.ReceiveIncome? ==> back.banks == l.banks)
            && (!c.action.ReceiveIncome? ==>
                  var b := c.action.bankId;
                  && b in back.banks && b in l.banks && back.banks == l.banks[b := back.banks[b]]
                  && back.banks[b] == l.banks[b].(completedAt := None, updatedAt := back.banks[b].updatedAt)))
  {
    hide Integrity, Commit, Performed, UndoBlocked, Reversible, Reversed, WroteRows, ValidUndo, ResultFits, Separate;
    var t := Commit(s, c, env).0;
    PostingIsNew(s, c, env);
    var p := Performed(s.ledger, s.nextId, c.action, env).value;
    var op := NewOperation(p.nextId, c, p.result, env.now);
    ResultNamesNewRows(s.ledger, s.nextId, c.action, env);
    PerformedWritesRows(s.ledger, s.nextId, c.action, env);
    NewestIsFound(s.operations, op, s.nextId);
    assert t.operations == s.operations + [op] + [];
    FreshIsReversible(s.ledger, t.ledger, s.nextId, op, env);
    ReversedRestores(s.ledger, t.ledger, op, env, now);
  }

  lemma NewestIsFound(operations: seq<Operation>, op: Operation, nextId: int)
    requires forall other :: other in operations ==> other.id < nextId
    requires op.id >= nextId
    ensures FindOp(operations + [op] + [], ByIdAndKey(op.id, op.client, op.key)) == Some(op)
  {
    hide FindOp;
    FindAfterAppend(operations, op, [], ByIdAndKey(op.id, op.client, op.key));
  }

  // ---- a mark that an undo loses ----

  const NO_ROWS := State(Ledger(map[], map[], map[], map[], map[], map[], map[], map[], []), [], [], 0)

  /** A ledger with one bank and the movements into it. */
  function OneBank(goal: int, completedAt: Option<string>, updatedAt: int, movements: map<int, Movement>): Ledger {
    NO_ROWS.ledger.(movements := movements,
                    banks := map[0 := Bank(Some(goal), false, false, None, completedAt, updatedAt)])
  }

  function Saving(cents: int, day: string): Action {
    DepositExistingCash(cents, day, 0, false, None)
  }

  function SavingCommand(cents: int, day: string, key: string): Command {
    Command("app", key, key, DigestOf(Saving(cents, day)), Saving(cents, day), true)
  }

  function SavingResult(cents: int, movementId: int): ActionResult {
    ActionResult(Deposit, cents, None, None, None, Some(movementId), None)
  }

  /** The first deposit, which fills the goal. */
  function Filled(day: string): map<int, Movement> {
    map[2 := Movement(0, DepositMove, true, 100, day, None, None, 1)]
  }

  /** A bank with a goal of one real is made, filled by a deposit, and its goal raised to two, all on one day. */
  function RaisedGoalRun(day: string, fold: string -> string): seq<Event> {
    [OtherWriter(OneBank(100, None, 0, map[]), 1),
     CommitEvent(SavingCommand(100, day, "first"), Env(day, 1, fold)),
     OtherWriter(OneBank(200, Some(day), 2, Filled(day)), 4)]
  }

  function FilledState(day: string): State {
    State(OneBank(100, Some(day), 1, Filled(day)),
          [NewOperation(3, SavingCommand(100, day, "first"), SavingResult(100, 2), 1)], [], 4)
  }

  function RaisedGoal(day: string): State {
    FilledState(day).(ledger := OneBank(200, Some(day), 2, Filled(day)))
  }

  lemma FilledBalance(day: string)
    ensures BankBalance(Filled(day), 0) == 100 && BankBalance(map[], 0) == 0
  {
    SumWithout(Filled(day), 2, SignedIn(0));
    assert Filled(day) - {2} == map[];
  }

  lemma SavingIsPerformed(l: Ledger, nextId: int, cents: int, day: string, now: int, fold: string -> string)
    requires CivilDate.ParseDayKey(day).Some? && 0 < cents <= MAX_CENTS && 0 in l.banks
    requires !l.banks[0].archived && !l.banks[0].yieldEnabled && l.banks[0].accruedThrough.None?
    requires l.banks[0].goal.Some? && cents <= l.banks[0].goal.value - BankBalance(l.movements, 0)
    ensures var moved := Movement(0, DepositMove, true, cents, day, None, None, now);
      var bank := AfterDeposit(l.banks[0], BankBalance(l.movements, 0), cents, day, now);
      Performed(l, nextId, Saving(cents, day), Env(day, now, fold))
      == Ok(Progress(l.(movements := l.movements[nextId + 1 := moved], banks := l.banks[0 := bank]), nextId + 2,
                     SavingResult(cents, nextId + 1)))
  {
    hide CivilDate.ParseDayKey, BankBalance, AfterDeposit;
    LexIrreflexive(day);
  }

  lemma NewCommandPosts(s: State, c: Command, env: Env)
    requires ValidCommand(c) && c.granted && Performed(s.ledger, s.nextId, c.action, env).Ok?
    requires FindOp(s.operations, ByKey(c.client, c.key)).None?
    requires FindOp(s.operations, ByNonce(c.client, c.nonce)).None?
    ensures var q := Performed(s.ledger, s.nextId, c.action, env).value;
      Commit(s, c, env) == (State(q.ledger, s.operations + [NewOperation(q.nextId, c, q.result, env.now)], s.undos,
                                  q.nextId + 1),
                            Ok(Reply(false, q.result)))
  {
    hide Performed, ValidCommand, FindOp;
  }

  lemma FirstDepositFills(day: string, fold: string -> string)
    requires CivilDate.ParseDayKey(day).Some?
    ensures var s, env := State(OneBank(100, None, 0, map[]), [], [], 1), Env(day, 1, fold);
      Commit(s, SavingCommand(100, day, "first"), env).0 == FilledState(day)
  {
    hide CivilDate.ParseDayKey, BankBalance, Performed, Commit;
    var s := State(OneBank(100, None, 0, map[]), [], [], 1);
    FilledBalance(day);
    SavingIsPerformed(s.ledger, 1, 100, day, 1, fold);
    NewCommandPosts(s, SavingCommand(100, day, "first"), Env(day, 1, fold));
  }

  lemma OneStep(s: State, e: Event, next: State, rest: seq<Event>)
    requires Step(s, e).0 == next
    ensures After(s, [e] + rest) == After(next, rest)
  {
    hide Step;
    assert ([e] + rest)[1..] == rest;
  }

  /** The services that make a bank and raise its goal keep foreign keys. */
  lemma OthersMayWrite(day: string)
    ensures MayWrite(NO_ROWS, OneBank(100, None, 0, map[]), 1)
    ensures MayWrite(FilledState(day), OneBank(200, Some(day), 2, Filled(day)), FilledState(day).nextId)
    ensures FilledState(day).nextId == 4
  {
    hide Integrity;
    OneBankIsSound(100, None, 0, map[], 1);
    OneBankIsSound(200, Some(day), 2, Filled(day), 4);
  }

  lemma OneBankIsSound(goal: int, completedAt: Option<string>, updatedAt: int, movements: map<int, Movement>,
                       nextId: int)
    requires forall k :: k in movements ==>
      k < nextId && movements[k].bankId == 0 && movements[k].entryId.None? && movements[k].expenseId.None?
    ensures Integrity(OneBank(goal, completedAt, updatedAt, movements), nextId)
  {
  }

  lemma RunRaisesGoal(day: string, fold: string -> string)
    requires CivilDate.ParseDayKey(day).Some?
    ensures After(NO_ROWS, RaisedGoalRun(day, fold)) == RaisedGoal(day)
  {
    hide CivilDate.ParseDayKey, Commit, MayWrite, FilledState;
    var run := RaisedGoalRun(day, fold);
    var made := State(OneBank(100, None, 0, map[]), [], [], 1);
    OthersMayWrite(day);
    FirstDepositFills(day, fold);
    assert run == [run[0]] + ([run[1]] + [run[2]]);
    OneStep(NO_ROWS, run[0], made, [run[1]] + [run[2]]);
    OneStep(made, run[1], FilledState(day), [run[2]]);
    assert [run[2]] + [] == [run[2]];
    OneStep(FilledState(day), run[2], RaisedGoal(day), []);
  }

  /**
   * A deposit into a bank already complete on that day can be undone at once, and the undo clears the mark the bank
   * had before: after this run commit and undo together do not restore the bank.
   */
  lemma UndoCanLoseTheMark(fold: string -> string) returns (run: seq<Event>, c: Command, env: Env, u: UndoCommand)
    ensures var s := After(NO_ROWS, run);
      && Inv(s) && !c.action.ReceiveIncome? && c.action.bankId in s.ledger.banks
      && Commit(s, c, env).1.Ok? && !Commit(s, c, env).1.value.replayed
      && var undone := UndoOperation(Commit(s, c, env).0, u, env.now + 1);
      && undone.1 == Ok(false) && c.action.bankId in undone.0.ledger.banks
      && s.ledger.banks[c.action.bankId].completedAt.Some?
      && undone.0.ledger.banks[c.action.bankId].completedAt.None?
  {
    hide CivilDate.ParseDayKey, CivilDate.KeyOf, Performed, UndoOperation, Commit, Inv, Reversible, After, BankBalance,
      RaisedGoalRun;
    var p := CivilDate.Parts(2026, 0, 10);
    var day := CivilDate.KeyOf(p);
    assert CivilDate.ParseDayKey(day).Some? by {
      CivilDate.ParseOfFormat(p);
    }
    run, env := RaisedGoalRun(day, fold), Env(day, 3, fold);
    c, u := SavingCommand(50, day, "second"), UndoCommand("app", 6, "second", "undo", true);
    RunRaisesGoal(day, fold);
    NoRowsAreSound();
    RunKeepsInvariant(NO_ROWS, run);
    FilledBalance(day);
    SavingIsPerformed(RaisedGoal(day).ledger, 4, 50, day, 3, fold);
    NewCommandPosts(RaisedGoal(day), c, env);
    RaisedGoalIsReversible(day);
    UndoInvertsCommit(RaisedGoal(day), c, env, u, env.now + 1);
  }

  lemma NoRowsAreSound()
    ensures Inv(NO_ROWS)
  {
  }

  lemma RaisedGoalIsReversible(day: string)
    ensures Reversible(RaisedGoal(day).ledger, Saving(50, day), 3)
  {
  }
}
