/** The store as the service runs it: tables changed row by row inside one locked transaction. */
module FinanceStore {
  import opened Wrappers
  import opened Text
  import opened Sums
  import opened FinanceActions
  import opened FinanceProtocol

  class Store {
    var entries: map<int, Entry>
    var receipts: map<int, Receipt>
    var expenses: map<int, Expense>
    var payments: map<int, Payment>
    var splits: map<int, int>
    var assets: map<int, AssetLink>
    var movements: map<int, Movement>
    var banks: map<int, Bank>
    var tags: seq<Tag>
    var operations: seq<Operation>
    var undos: seq<UndoRow>
    var nextId: int

    function Rows(): Ledger
      reads this
    {
      Ledger(entries, receipts, expenses, payments, splits, assets, movements, banks, tags)
    }

    ghost function View(): State
      reads this
    {
      State(Rows(), operations, undos, nextId)
    }

    constructor ()
      ensures View() == State(Ledger(map[], map[], map[], map[], map[], map[], map[], map[], []), [], [], 0)
      ensures Inv(View())
    {
      entries, receipts, expenses, payments, splits := map[], map[], map[], map[], map[];
      assets, movements, banks, tags := map[], map[], map[], [];
      operations, undos, nextId := [], [], 0;
    }

    /** Puts the tables an operation writes back as they were when the transaction began. */
    method RollBack(rows: Ledger, next: int)
      modifies `entries, `receipts, `expenses, `movements, `banks, `tags, `nextId
      ensures entries == rows.entries && receipts == rows.receipts && expenses == rows.expenses
      ensures movements == rows.movements && banks == rows.banks && tags == rows.tags && nextId == next
    {
      entries := rows.entries;
      receipts := rows.receipts;
      expenses := rows.expenses;
      movements := rows.movements;
      banks := rows.banks;
      tags := rows.tags;
      nextId := next;
    }

    method BalanceOf(bankId: int) returns (balance: int)
      ensures balance == BankBalance(movements, bankId)
    {
      balance := 0;
      var rest := movements;
      while rest != map[]
        invariant balance + Sum(rest, SignedIn(bankId)) == BankBalance(movements, bankId)
        decreases |rest|
      {
        NonEmpty(rest);
        var k :| k in rest;
        SumWithout(rest, k, SignedIn(bankId));
        if rest[k].bankId == bankId {
          balance := balance + Signed(rest[k]);
        }
        rest := rest - {k};
      }
    }

    /** `result` carries what the transaction has reported so far; `Now` is where it stands. */
    ghost function Now(result: ActionResult): Progress
      reads this
    {
      Progress(Rows(), nextId, result)
    }

    method ResolveIncomeTag(tagName: string, env: Env, ghost soFar: ActionResult) returns (id: Result<int, Error>)
      requires soFar.tagId.None?
      modifies `tags, `nextId
      ensures match WithTag(old(Now(soFar)), Some(tagName), env)
        case Err(e) => id == Err(e)
        case Ok(p) => id.Ok? && p == Now(soFar.(tagId := Some(id.value)))
    {
      var name := Trim(tagName);
      if name == "" || |name| > 100 {
        return Err(InvalidTag);
      }
      var found := FindTag(tags, name, env.fold);
      if found.Some? {
        return Ok(found.value);
      }
      tags := tags + [Tag(nextId, name)];
      nextId := nextId + 1;
      return Ok(nextId - 1);
    }

    method CreateReceivedOneTimeIncome(a: Action, tagId: Option<int>, env: Env, ghost soFar: ActionResult)
      returns (ids: Result<(int, int), Error>)
      requires !a.DepositExistingCash? && soFar.tagId == tagId
      modifies `entries, `receipts, `nextId
      ensures match WithIncome(old(Now(soFar)), a, env)
        case Err(e) => ids == Err(e)
        case Ok(p) => ids.Ok? && p == Now(soFar.(entryId := Some(ids.value.0), receiptId := Some(ids.value.1)))
    {
      hide ValidIncome, Trim, MonthKey;
      var name := a.tagName.GetOr(DEFAULT_NAME);
      if !ValidIncome(a.amountCents, a.dateKey, name, a.description, env.today) {
        return Err(InvalidInput);
      }
      var entryId := nextId;
      entries := entries[entryId := Entry(Manual, true, a.amountCents, a.dateKey, Trim(name), a.description, tagId,
                                          false, env.now)];
      var receiptId := nextId + 1;
      receipts := receipts[receiptId := Receipt(entryId, MonthKey(a.dateKey), a.amountCents, a.dateKey)];
      nextId := nextId + 2;
      return Ok((entryId, receiptId));
    }

    /** Writes one deposit, capped at the goal, and its expense when cash is deducted. */
    method DepositToPiggyBank(bankId: int, amount: int, dateKey: string, deduct: bool, now: int)
      returns (deposit: Result<(int, Option<int>, int), Error>)
      modifies `expenses, `movements, `banks, `nextId
      ensures bankId !in old(banks) ==> deposit == Err(NotFound)
      ensures bankId in old(banks) ==>
        var bank, balance := old(banks)[bankId], BankBalance(old(movements), bankId);
        var moved := CappedDeposit(bank.goal, balance, amount);
        if bank.archived then deposit == Err(Archived)
        else if bank.goal.Some? && bank.goal.value - balance <= 0 then deposit == Err(AlreadyComplete)
        else
          var expenseId := if deduct then Some(old(nextId)) else None;
          && deposit == Ok((old(nextId) + 1, expenseId, moved))
          && expenses == (if deduct then old(expenses)[old(nextId) := Expense(Piggy, true, true, moved, dateKey, false,
                                                                              now)]
                          else old(expenses))
          && movements == old(movements)[old(nextId) + 1 := Movement(bankId, DepositMove, true, moved, dateKey,
                                                                     expenseId, None, now)]
          && banks == old(banks)[bankId := AfterDeposit(bank, balance, moved, dateKey, now)]
          && nextId == old(nextId) + 2
    {
      if bankId !in banks {
        return Err(NotFound);
      }
      var bank := banks[bankId];
      if bank.archived {
        return Err(Archived);
      }
      var balance := BalanceOf(bankId);
      hide BankBalance;
      if bank.goal.Some? && bank.goal.value - balance <= 0 {
        return Err(AlreadyComplete);
      }
      var moved := CappedDeposit(bank.goal, balance, amount);
      var expenseId: Option<int> := None;
      if deduct {
        expenses := expenses[nextId := Expense(Piggy, true, true, moved, dateKey, false, now)];
        expenseId := Some(nextId);
      }
      var movementId := nextId + 1;
      movements := movements[movementId := Movement(bankId, DepositMove, true, moved, dateKey, expenseId, None, now)];
      banks := banks[bankId := AfterDeposit(bank, balance, moved, dateKey, now)];
      nextId := nextId + 2;
      return Ok((movementId, expenseId, moved));
    }

    method ReceiveHalf(a: Action, env: Env) returns (result: Result<ActionResult, Error>)
      modifies `entries, `receipts, `tags, `nextId
      ensures match IncomeHalf(old(Rows()), old(nextId), a, env)
        case Err(e) => result == Err(e)
        case Ok(p) => result.Ok? && p == Now(result.value)
    {
      hide WithTag, WithIncome;
      var r := ActionResult(KindOf(a), a.amountCents, None, None, None, None, None);
      if a.DepositExistingCash? {
        return Ok(r);
      }
      if a.tagName.Some? {
        var tagId := ResolveIncomeTag(a.tagName.value, env, r);
        if tagId.Err? {
          return Err(tagId.error);
        }
        r := r.(tagId := Some(tagId.value));
      } else {
        NoTagNoChange(Now(r), env);
      }
      var income := CreateReceivedOneTimeIncome(a, r.tagId, env, r);
      if income.Err? {
        return Err(income.error);
      }
      return Ok(r.(entryId := Some(income.value.0), receiptId := Some(income.value.1)));
    }

    method SaveHalf(a: Action, env: Env, soFar: ActionResult) returns (result: Result<ActionResult, Error>)
      requires !a.ReceiveIncome?
      modifies `expenses, `movements, `banks, `nextId
      ensures match WithDeposit(old(Now(soFar)), a, env)
        case Err(e) => result == Err(e)
        case Ok(p) => result.Ok? && p == Now(result.value)
    {
      hide RejectsPastDeposit, LexLess, AfterDeposit, BankBalance;
      if LexLess(env.today, a.dateKey) {
        return Err(FutureDeposit);
      }
      if a.bankId in banks && RejectsPastDeposit(banks[a.bankId], a.dateKey, env.today) {
        return Err(PastDepositWithYield);
      }
      var deposit := DepositToPiggyBank(a.bankId, a.amountCents, a.dateKey, Deducts(a), env.now);
      if deposit.Err? {
        return Err(deposit.error);
      }
      if deposit.value.2 != a.amountCents {
        return Err(GoalTooSmall);
      }
      return Ok(soFar.(movementId := Some(deposit.value.0), expenseId := deposit.value.1));
    }

    /** Performs one action; after an error the tables are in any state, the caller rolls back. */
    method RunFinanceOperation(a: Action, env: Env) returns (result: Result<ActionResult, Error>)
      modifies `entries, `receipts, `expenses, `movements, `banks, `tags, `nextId
      ensures match Performed(old(Rows()), old(nextId), a, env)
        case Err(e) => result == Err(e)
        case Ok(p) => result.Ok? && p == Now(result.value)
    {
      hide ValidDraft, IncomeHalf, WithDeposit;
      if !ValidDraft(a, env.today) {
        return Err(InvalidInput);
      }
      result := ReceiveHalf(a, env);
      if result.Ok? && !a.ReceiveIncome? {
        result := SaveHalf(a, env, result.value);
      }
    }

    method CommitFinanceOperation(c: Command, env: Env) returns (reply: Result<Reply, Error>)
      modifies this
      ensures (View(), reply) == Commit(old(View()), c, env)
    {
      hide Performed, ValidCommand;
      if !ValidCommand(c) {
        return Err(InvalidInput);
      }
      if !c.granted {
        return Err(GrantRevoked);
      }
      var byKey := FindOp(operations, ByKey(c.client, c.key));
      if byKey.Some? {
        var op := byKey.value;
        if IsUndone(undos, op.id) {
          return Err(Undone);
        }
        if op.action != c.action || op.nonce != c.nonce {
          return Err(KeyReused);
        }
        return Ok(Reply(true, op.result));
      }
      var byNonce := FindOp(operations, ByNonce(c.client, c.nonce));
      if byNonce.Some? {
        return Err(NonceReused);
      }
      var rows, next := Rows(), nextId;
      var result := RunFinanceOperation(c.action, env);
      if result.Err? {
        RollBack(rows, next);
        return Err(result.error);
      }
      operations := operations + [NewOperation(nextId, c, result.value, env.now)];
      nextId := nextId + 1;
      return Ok(Reply(false, result.value));
    }

    /** Deletes what one operation wrote and reopens the bank its deposit had completed. */
    method RemoveRows(r: ActionResult, now: int)
      modifies `movements, `expenses, `receipts, `entries, `banks
      ensures Rows() == Reversed(old(Rows()), r, now)
    {
      var reopened := Reopened(Rows(), r, now);
      hide Reopened;
      movements := Dropped(movements, r.movementId);
      expenses := Dropped(expenses, r.expenseId);
      receipts := Dropped(receipts, r.receiptId);
      entries := Dropped(entries, r.entryId);
      banks := reopened;
    }

    method UndoFinanceOperation(u: UndoCommand, now: int) returns (replayed: Result<bool, Error>)
      modifies this
      ensures (View(), replayed) == UndoOperation(old(View()), u, now)
    {
      hide ValidUndo, UndoBlocked, Reversed;
      if !ValidUndo(u) {
        return Err(InvalidInput);
      }
      if !u.granted {
        return Err(GrantRevoked);
      }
      var original := FindOp(operations, ByIdAndKey(u.operationId, u.client, u.key));
      if original.None? {
        return Err(NotFound);
      }
      if IsUndone(undos, original.value.id) {
        return Ok(true);
      }
      var r := original.value.result;
      var blocked := UndoBlocked(Rows(), original.value);
      if blocked.Some? {
        return Err(blocked.value);
      }
      var rows := Rows();
      RemoveRows(r, now);
      if UndoNonceUsed(undos, u.client, u.nonce) {
        RollBack(rows, nextId);
        return Err(NonceReused);
      }
      undos := undos + [UndoRow(original.value.id, u.client, u.nonce, now)];
      return Ok(false);
    }
  }

  lemma NoTagNoChange(p: Progress, env: Env)
    ensures WithTag(p, None, env) == Ok(p)
  {
  }
}
