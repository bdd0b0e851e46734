/** When a later undo is accepted, told from the rows of the ledger. */
module UndoConditions {
  import opened Wrappers
  import opened FinanceActions
  import opened FinanceProtocol

  /** The entry is as it was posted, not stamped since, with its one receipt and nothing else hanging on it. */
  predicate EntryStands(l: Ledger, id: int, receiptId: int, amount: int, since: int) {
    && id in l.entries && receiptId in l.receipts
    && var e, receipt := l.entries[id], l.receipts[receiptId];
    && e.origin == Manual && e.oneOff && !e.archived && e.amount == amount && e.updatedAt <= since
    && receipt.entryId == id && receipt.amount == amount
    && (forall k :: k in l.receipts && l.receipts[k].entryId == id ==> k == receiptId)
    && (forall k :: k in l.movements ==> l.movements[k].entryId != Some(id))
    && (forall k :: k in l.assets ==> l.assets[k].entryId != Some(id))
  }

  /** The expense of a deposit is as it was posted, with its one movement and nothing else hanging on it. */
  predicate ExpenseStands(l: Ledger, id: int, movementId: int, amount: int, since: int) {
    && id in l.expenses && movementId in l.movements && l.movements[movementId].expenseId == Some(id)
    && var e := l.expenses[id];
    && e.origin == Piggy && e.savings && e.oneOff && !e.archived && e.amount == amount && e.updatedAt <= since
    && (forall k :: k in l.movements && l.movements[k].expenseId == Some(id) ==> k == movementId)
    && (forall k :: k in l.payments ==> l.payments[k].expenseId != id)
    && (forall k :: k in l.splits ==> l.splits[k] != id)
    && (forall k :: k in l.assets ==> l.assets[k].expenseId != Some(id))
  }

  /** The deposit is as it was posted; its bank is open, earns nothing, and saw no change and no movement since. */
  predicate DepositStands(l: Ledger, id: int, expenseId: Option<int>, amount: int, since: int) {
    && id in l.movements && l.movements[id].bankId in l.banks
    && var m, bank := l.movements[id], l.banks[l.movements[id].bankId];
    && m.kind == DepositMove && m.manual && m.amount == amount && m.expenseId == expenseId && m.entryId.None?
    && !bank.archived && !bank.yieldEnabled && bank.accruedThrough.None? && bank.updatedAt <= since
    && (bank.completedAt == None || bank.completedAt == Some(m.date))
    && (forall k :: k in l.movements && k != id && l.movements[k].bankId == m.bankId ==>
          l.movements[k].createdAt < since)
  }

  /** Every row that an action wrote still stands. */
  predicate Untouched(l: Ledger, r: ActionResult, a: Action, since: int)
    requires ResultFits(r, a)
  {
    && (!a.DepositExistingCash? ==> EntryStands(l, r.entryId.value, r.receiptId.value, a.amountCents, since))
    && (!a.ReceiveIncome? ==> DepositStands(l, r.movementId.value, r.expenseId, a.amountCents, since))
    && (Deducts(a) ==> ExpenseStands(l, r.expenseId.value, r.movementId.value, a.amountCents, since))
  }

  lemma EntryIsRead(l: Ledger, op: Operation)
    requires OpFits(op) && op.result.entryId.Some?
    ensures EntryIntact(l, op)
      <==> EntryStands(l, op.result.entryId.value, op.result.receiptId.value, op.action.amountCents, op.committedAt)
  {
    var id, rid := op.result.entryId.value, op.result.receiptId.value;
    if EntryIntact(l, op) {
      assert rid in ReceiptsOf(l, id);
      assert forall k :: k in l.receipts && l.receipts[k].entryId == id ==> k in ReceiptsOf(l, id);
      assert forall k :: k in l.movements && l.movements[k].entryId == Some(id) ==> k in MovementsOfEntry(l, id);
    }
    if EntryStands(l, id, rid, op.action.amountCents, op.committedAt) {
      assert forall k :: k in ReceiptsOf(l, id) <==> k in {rid};
      assert forall k :: k !in MovementsOfEntry(l, id);
      assert MovementsOfEntry(l, id) == {};
    }
  }

  lemma ExpenseIsRead(l: Ledger, op: Operation)
    requires OpFits(op) && op.result.expenseId.Some?
    ensures var r := op.result;
      ExpenseIntact(l, op)
      <==> ExpenseStands(l, r.expenseId.value, r.movementId.value, op.action.amountCents, op.committedAt)
  {
    var id, mid := op.result.expenseId.value, op.result.movementId.value;
    if ExpenseIntact(l, op) {
      assert mid in MovementsOfExpense(l, id);
      assert forall k :: k in l.movements && l.movements[k].expenseId == Some(id) ==> k in MovementsOfExpense(l, id);
    }
    if ExpenseStands(l, id, mid, op.action.amountCents, op.committedAt) {
      assert forall k :: k in MovementsOfExpense(l, id) <==> k in {mid};
    }
  }

  lemma DepositIsRead(l: Ledger, op: Operation)
    requires OpFits(op) && op.result.movementId.Some?
    ensures MovementIntact(l, op) && !HasLaterMovement(l, op) && CompletionIntact(l, op)
      <==> DepositStands(l, op.result.movementId.value, op.result.expenseId, op.action.amountCents, op.committedAt)
  {
  }

  /** The checks of an undo let it through exactly when every row still stands. */
  lemma ChecksMeanUntouched(l: Ledger, op: Operation)
    requires OpFits(op)
    ensures UndoBlocked(l, op).None? <==> Untouched(l, op.result, op.action, op.committedAt)
  {
    hide MovementIntact, HasLaterMovement, CompletionIntact, ExpenseIntact, EntryIntact, EntryStands, ExpenseStands,
      DepositStands;
    if op.result.entryId.Some? {
      EntryIsRead(l, op);
    } else {
      NothingToCheck(l, op);
    }
    if op.result.expenseId.Some? {
      ExpenseIsRead(l, op);
    } else {
      NothingToCheck(l, op);
    }
    if op.result.movementId.Some? {
      DepositIsRead(l, op);
    } else {
      NothingToCheck(l, op);
    }
  }

  lemma NothingToCheck(l: Ledger, op: Operation)
    ensures op.result.entryId.None? ==> EntryIntact(l, op)
    ensures op.result.expenseId.None? ==> ExpenseIntact(l, op)
    ensures op.result.movementId.None? ==>
      MovementIntact(l, op) && !HasLaterMovement(l, op) && CompletionIntact(l, op)
  {
  }

  // ---- over runs ----

  /** The operation that a posting at position `i` of a run appended. */
  ghost function PostedOperation(s: State, events: seq<Event>, i: nat): Operation
    requires i < |events| && events[i].CommitEvent? && Posted(OutcomeAt(s, events, i))
  {
    var at := After(s, events[..i]);
    PostingIsNew(at, events[i].c, events[i].env);
    Step(at, events[i]).0.operations[|at.operations|]
  }

  lemma PostedOperationIsKept(s: State, events: seq<Event>, i: nat, j: nat)
    requires Inv(s) && i < j <= |events| && events[i].CommitEvent? && Posted(OutcomeAt(s, events, i))
    ensures var op, c, later := PostedOperation(s, events, i), events[i].c, After(s, events[..j]);
      && op.client == c.client && op.key == c.key && op.action == c.action && op.committedAt == events[i].env.now
      && op.result == OutcomeAt(s, events, i).reply.value.result
      && op in later.operations && Inv(later)
      && FindOp(later.operations, ByIdAndKey(op.id, op.client, op.key)) == Some(op)
  {
    hide Performed, Commit, Inv;
    var at := After(s, events[..i]);
    PostingIsNew(at, events[i].c, events[i].env);
    LaterStatesExtend(s, events, i, j);
    RunKeepsInvariant(s, events[..j]);
    var op, later := PostedOperation(s, events, i), After(s, events[..j]);
    assert later.operations[|at.operations|] == op;
    IdFindsOperation(later, op);
  }

  lemma IdFindsOperation(s: State, op: Operation)
    requires Inv(s) && op in s.operations
    ensures FindOp(s.operations, ByIdAndKey(op.id, op.client, op.key)) == Some(op)
  {
    hide Integrity, OpFits;
    var found := FindOp(s.operations, ByIdAndKey(op.id, op.client, op.key));
    assert ByIdAndKey(op.id, op.client, op.key)(op);
    var i :| 0 <= i < |s.operations| && s.operations[i] == op;
    OnlyOneHasItsId(s, i);
  }

  lemma OperationFits(s: State, op: Operation)
    requires Inv(s) && op in s.operations
    ensures OpFits(op)
  {
    hide Integrity, OpFits;
  }

  /** The rows of the operation are gone, a completed bank is open again, and everything else is as it was. */
  ghost predicate TakesOut(l: Ledger, m: Ledger, r: ActionResult, now: int) {
    && (forall id :: id in m.entries <==> id in l.entries && r.entryId != Some(id))
    && (forall id :: id in m.receipts <==> id in l.receipts && r.receiptId != Some(id))
    && (forall id :: id in m.expenses <==> id in l.expenses && r.expenseId != Some(id))
    && (forall id :: id in m.movements <==> id in l.movements && r.movementId != Some(id))
    && (forall id :: id in m.entries ==> m.entries[id] == l.entries[id])
    && (forall id :: id in m.receipts ==> m.receipts[id] == l.receipts[id])
    && (forall id :: id in m.expenses ==> m.expenses[id] == l.expenses[id])
    && (forall id :: id in m.movements ==> m.movements[id] == l.movements[id])
    && m.payments == l.payments && m.splits == l.splits && m.assets == l.assets && m.tags == l.tags
    && (forall b :: b in m.banks <==> b in l.banks)
    && (forall b :: b in l.banks ==>
          m.banks[b] == if r.movementId.Some? && r.movementId.value in l.movements
                           && l.movements[r.movementId.value].bankId == b && l.banks[b].completedAt.Some?
                        then l.banks[b].(completedAt := None, updatedAt := now) else l.banks[b])
  }

  lemma ReversedTakesOut(l: Ledger, r: ActionResult, now: int)
    ensures TakesOut(l, Reversed(l, r, now), r, now)
  {
  }

  /**
   * Whatever ran since, an undo that names its operation and passes the fence deletes the rows exactly when each of
   * them still stands; otherwise it changes nothing, and says so unless the operation was undone before.
   */
  lemma LaterUndo(s: State, events: seq<Event>, i: nat, j: nat)
    requires Inv(s) && i < j < |events| && events[i].CommitEvent? && Posted(OutcomeAt(s, events, i))
    requires events[j].UndoEvent?
    requires var u, op := events[j].u, PostedOperation(s, events, i);
      ValidUndo(u) && u.granted && u.client == op.client && u.key == op.key && u.operationId == op.id
    ensures var at, r := After(s, events[..j]), OutcomeAt(s, events, i).reply.value.result;
      var answer, after := OutcomeAt(s, events, j), Step(at, events[j]).0;
      && ResultFits(r, events[i].c.action)
      && if IsUndone(at.undos, events[j].u.operationId) then answer == UndoAnswered(Ok(true)) && after == at
         else if !Untouched(at.ledger, r, events[i].c.action, events[i].env.now)
              || UndoNonceUsed(at.undos, events[j].u.client, events[j].u.nonce)
         then answer.UndoAnswered? && answer.replayed.Err? && after == at
         else answer == UndoAnswered(Ok(false)) && TakesOut(at.ledger, after.ledger, r, events[j].now)
  {
    hide Performed, Commit, Inv, Untouched, Reversed, UndoBlocked, ValidUndo, FindOp, After, PostedOperation, IsUndone,
      TakesOut;
    PostedOperationIsKept(s, events, i, j);
    var op, at := PostedOperation(s, events, i), After(s, events[..j]);
    OperationFits(at, op);
    ChecksMeanUntouched(at.ledger, op);
    ReversedTakesOut(at.ledger, op.result, events[j].now);
  }

  /** Another writer edited a row of the operation, or hung something new on one. */
  predicate TouchedSince(l: Ledger, r: ActionResult, since: int) {
    || (r.entryId.Some? && EntryTouched(l, r.entryId.value, r.receiptId, since))
    || (r.expenseId.Some? && ExpenseTouched(l, r.expenseId.value, since))
    || (r.movementId.Some? && BankTouched(l, r.movementId.value, since))
  }

  predicate EntryTouched(l: Ledger, id: int, receiptId: Option<int>, since: int) {
    || (id in l.entries && l.entries[id].updatedAt > since)
    || (exists k :: k in l.receipts && l.receipts[k].entryId == id && Some(k) != receiptId)
    || (exists k :: k in l.movements && l.movements[k].entryId == Some(id))
    || (exists k :: k in l.assets && l.assets[k].entryId == Some(id))
  }

  predicate ExpenseTouched(l: Ledger, id: int, since: int) {
    || (id in l.expenses && l.expenses[id].updatedAt > since)
    || (exists k :: k in l.payments && l.payments[k].expenseId == id)
    || (exists k :: k in l.splits && l.splits[k] == id)
    || (exists k :: k in l.assets && l.assets[k].expenseId == Some(id))
  }

  predicate BankTouched(l: Ledger, id: int, since: int) {
    && id in l.movements && l.movements[id].bankId in l.banks
    && var bankId := l.movements[id].bankId;
    || l.banks[bankId].updatedAt > since
    || exists k :: k in l.movements && k != id && l.movements[k].bankId == bankId && l.movements[k].createdAt >= since
  }

  lemma TouchedIsNotUntouched(l: Ledger, r: ActionResult, a: Action, since: int)
    requires ResultFits(r, a) && TouchedSince(l, r, since)
    ensures !Untouched(l, r, a, since)
  {
  }

  /** A row edited, or newly depended on, since the commit keeps the undo from changing anything. */
  lemma TouchedRowsSurvive(s: State, events: seq<Event>, i: nat, j: nat)
    requires Inv(s) && i < j < |events| && events[i].CommitEvent? && Posted(OutcomeAt(s, events, i))
    requires events[j].UndoEvent?
    requires var u, op := events[j].u, PostedOperation(s, events, i);
      ValidUndo(u) && u.granted && u.client == op.client && u.key == op.key && u.operationId == op.id
    requires TouchedSince(After(s, events[..j]).ledger, OutcomeAt(s, events, i).reply.value.result, events[i].env.now)
    ensures Step(After(s, events[..j]), events[j]).0 == After(s, events[..j])
    ensures OutcomeAt(s, events, j) == UndoAnswered(Ok(true))
            || (OutcomeAt(s, events, j).UndoAnswered? && OutcomeAt(s, events, j).replayed.Err?)
  {
    LaterUndo(s, events, i, j);
    hide After, Step, OutcomeAt, PostedOperation, IsUndone, Inv, Untouched;
    var at, r := After(s, events[..j]), OutcomeAt(s, events, i).reply.value.result;
    TouchedIsNotUntouched(at.ledger, r, events[i].c.action, events[i].env.now);
  }

  // ---- what is answered ----

  /**
   * A commit posts exactly when its identifiers have a legal length, its digest is that of its action, the fence holds,
   * its client used neither the key nor the nonce before, and the action can be carried out.
   */
  lemma CommitPosts(s: State, c: Command, env: Env)
    ensures Commit(s, c, env).1.Ok? && !Commit(s, c, env).1.value.replayed <==>
      && 1 <= |c.client| <= 256 && 1 <= |c.key| <= 200 && 1 <= |c.nonce| <= 200
      && c.digest == DigestOf(c.action) && c.granted
      && (forall op :: op in s.operations && op.client == c.client ==> op.key != c.key && op.nonce != c.nonce)
      && Performed(s.ledger, s.nextId, c.action, env).Ok?
  {
    hide Performed, IsUndone;
    if forall op :: op in s.operations && op.client == c.client ==> op.key != c.key && op.nonce != c.nonce {
      assert FindOp(s.operations, ByKey(c.client, c.key)).None?;
      assert FindOp(s.operations, ByNonce(c.client, c.nonce)).None?;
    } else {
      var op :| op in s.operations && op.client == c.client && (op.key == c.key || op.nonce == c.nonce);
      assert ByKey(c.client, c.key)(op) || ByNonce(c.client, c.nonce)(op);
    }
  }

  /**
   * An undo takes rows out exactly when its identifiers have a legal length, the fence holds, it names an operation of
   * its client by id and key, that operation was not undone and stands, and its nonce was not used for an undo before.
   */
  lemma UndoTakesOut(s: State, u: UndoCommand, now: int)
    requires Inv(s)
    ensures UndoOperation(s, u, now).1 == Ok(false) <==>
      && 1 <= |u.client| <= 256 && 1 <= |u.key| <= 256 && 1 <= |u.nonce| <= 256 && u.granted
      && (forall t :: t in s.undos ==> t.operationId != u.operationId && !(t.client == u.client && t.nonce == u.nonce))
      && exists op :: op in s.operations && op.id == u.operationId && op.client == u.client && op.key == u.key
                      && OpFits(op) && Untouched(s.ledger, op.result, op.action, op.committedAt)
  {
    hide UndoBlocked, Reversed, Untouched, Integrity, Inv;
    forall op | op in s.operations
      ensures OpFits(op) && (UndoBlocked(s.ledger, op).None?
              <==> Untouched(s.ledger, op.result, op.action, op.committedAt))
      ensures FindOp(s.operations, ByIdAndKey(op.id, op.client, op.key)) == Some(op)
    {
      OperationFits(s, op);
      ChecksMeanUntouched(s.ledger, op);
      IdFindsOperation(s, op);
    }
  }

  /** The status read finds the operation of its client under the key, with its result and whether it was undone. */
  lemma StatusIsRead(s: State, client: string, key: string)
    requires Inv(s)
    ensures match GetCommittedOperation(s, client, key)
      case None => client == "" || key == "" || forall op :: op in s.operations && op.client == client ==> op.key != key
      case Some(status) =>
        && client != "" && key != ""
        && exists op :: op in s.operations && op.client == client && op.key == key && op.result == status.result
                        && (status.undone <==> exists u :: u in s.undos && u.operationId == op.id)
  {
    hide Inv;
    forall op | op in s.operations && op.client == client && op.key == key
      ensures ByKey(client, key)(op)
    {
    }
  }
}
