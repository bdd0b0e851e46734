/** The rows that an accepted money action writes, column by column, and which actions are accepted. */
module ActionEffects {
  import opened Wrappers
  import opened Sums
  import opened Text
  import CivilDate
  import opened FinanceActions

  // ---- tags ----

  /** The stored tag a name stands for: the first whose name is the same up to case. */
  predicate NamesTag(tags: seq<Tag>, name: string, fold: string -> string, i: int) {
    && 0 <= i < |tags| && fold(tags[i].name) == fold(name)
    && forall j :: 0 <= j < i ==> fold(tags[j].name) != fold(name)
  }

  lemma {:induction false} FoundTag(tags: seq<Tag>, name: string, fold: string -> string)
    ensures match FindTag(tags, name, fold)
      case None => forall i :: 0 <= i < |tags| ==> fold(tags[i].name) != fold(name)
      case Some(id) => exists i :: NamesTag(tags, name, fold, i) && tags[i].id == id
  {
    if tags != [] {
      var rest := tags[1..];
      FoundTag(rest, name, fold);
      if fold(tags[0].name) == fold(name) {
        assert NamesTag(tags, name, fold, 0);
      } else if FindTag(rest, name, fold).Some? {
        var i :| NamesTag(rest, name, fold, i) && rest[i].id == FindTag(rest, name, fold).value;
        assert tags[i + 1] == rest[i] && forall j :: 1 <= j < |tags| ==> tags[j] == rest[j - 1];
        assert NamesTag(tags, name, fold, i + 1);
      } else {
        assert forall i :: 1 <= i < |tags| ==> tags[i] == rest[i - 1];
      }
    }
  }

  /** A named tag is the stored one of that name, or a new one under an unused id; no other row changes. */
  lemma TagIsChosen(p: Progress, tagName: Option<string>, env: Env)
    requires WithTag(p, tagName, env).Ok?
    ensures var q := WithTag(p, tagName, env).value;
      match tagName
      case None => q == p
      case Some(text) =>
        var name := Trim(text);
        && 0 < |name| <= 100 && q.result.tagId.Some?
        && ((exists i :: NamesTag(p.ledger.tags, name, env.fold, i) && p.ledger.tags[i].id == q.result.tagId.value
                         && q == p.(result := p.result.(tagId := q.result.tagId)))
            || ((forall i :: 0 <= i < |p.ledger.tags| ==> env.fold(p.ledger.tags[i].name) != env.fold(name))
                && q == Progress(p.ledger.(tags := p.ledger.tags + [Tag(p.nextId, name)]), p.nextId + 1,
                                 p.result.(tagId := Some(p.nextId)))))
  {
    hide Trim, FindTag;
    if tagName.Some? {
      FoundTag(p.ledger.tags, Trim(tagName.value), env.fold);
    }
  }

  // ---- income ----

  /** The entry of an income, named after its tag. */
  function EntryOf(a: Action, tagId: Option<int>, now: int): Entry
    requires !a.DepositExistingCash?
  {
    Entry(Manual, true, a.amountCents, a.dateKey, if a.tagName.Some? then Trim(a.tagName.value) else "Entrada avulsa",
          a.description, tagId, false, now)
  }

  lemma IncomeWrites(p: Progress, a: Action, env: Env)
    requires !a.DepositExistingCash? && WithIncome(p, a, env).Ok?
    ensures |a.dateKey| == 10
    ensures var q, id := WithIncome(p, a, env).value, p.nextId;
      && q.ledger == p.ledger.(entries := p.ledger.entries[id := EntryOf(a, p.result.tagId, env.now)],
                               receipts := p.ledger.receipts[id + 1 := Receipt(id, a.dateKey[..7], a.amountCents,
                                                                               a.dateKey)])
      && q.result == p.result.(entryId := Some(id), receiptId := Some(id + 1)) && q.nextId == id + 2
  {
    hide Trim, LexLess;
    DefaultNameIsValid();
    KeyHasAMonth(a.dateKey);
    hide CivilDate.ParseDayKey;
  }

  lemma KeyHasAMonth(key: string)
    ensures CivilDate.ParseDayKey(key).Some? ==> |key| == 10
  {
  }

  lemma TagLeavesRows(p: Progress, tagName: Option<string>, env: Env)
    requires WithTag(p, tagName, env).Ok?
    ensures var q := WithTag(p, tagName, env).value;
      && q.ledger == p.ledger.(tags := q.ledger.tags) && q.result == p.result.(tagId := q.result.tagId)
      && (q.result.tagId.Some? <==> p.result.tagId.Some? || tagName.Some?)
  {
    hide Trim, FindTag;
  }

  // ---- deposits ----

  /** A bank takes a deposit that is not in the future, not behind interest already paid, and within its goal. */
  ghost predicate Takes(l: Ledger, bankId: int, amount: int, dateKey: string, today: string) {
    && bankId in l.banks && !LexLess(today, dateKey)
    && var bank := l.banks[bankId];
    && !bank.archived
    && (LexLess(dateKey, today) ==>
          !bank.yieldEnabled && (bank.accruedThrough.Some? ==> LexLess(bank.accruedThrough.value, dateKey)))
    && (bank.goal.Some? ==>
          var missing := bank.goal.value - BankBalance(l.movements, bankId);
          0 < missing && amount <= missing)
  }

  /** What a deposit leaves of its bank: complete from its day when it fills the goal. */
  ghost function BankAfter(l: Ledger, a: Action, now: int): Bank
    requires !a.ReceiveIncome? && a.bankId in l.banks
  {
    var bank := l.banks[a.bankId];
    var fills := bank.goal.Some? && BankBalance(l.movements, a.bankId) + a.amountCents >= bank.goal.value;
    bank.(completedAt := if fills && bank.completedAt.None? then Some(a.dateKey) else bank.completedAt,
          updatedAt := now)
  }

  lemma DepositWrites(p: Progress, a: Action, env: Env)
    requires !a.ReceiveIncome?
    ensures WithDeposit(p, a, env).Ok? <==> Takes(p.ledger, a.bankId, a.amountCents, a.dateKey, env.today)
    ensures WithDeposit(p, a, env).Ok? ==>
      var q, l, id := WithDeposit(p, a, env).value, p.ledger, p.nextId;
      var expenseId := if a.ReceiveAndSave? || a.deductFromBalance then Some(id) else None;
      var moved := Movement(a.bankId, DepositMove, true, a.amountCents, a.dateKey, expenseId, None, env.now);
      && q.ledger == l.(movements := l.movements[id + 1 := moved],
                        expenses := if expenseId.None? then l.expenses
                                    else l.expenses[id := Expense(Piggy, true, true, a.amountCents, a.dateKey, false,
                                                                  env.now)],
                        banks := l.banks[a.bankId := BankAfter(l, a, env.now)])
      && q.result == p.result.(movementId := Some(id + 1), expenseId := expenseId)
  {
    hide BankBalance, LexLess;
  }

  // ---- whole actions ----

  /** A received income is one entry named after its tag and one receipt, for the amount on the day asked for. */
  lemma IncomeRows(l: Ledger, nextId: int, a: Action, env: Env)
    requires !a.DepositExistingCash? && Performed(l, nextId, a, env).Ok?
    ensures var p := Performed(l, nextId, a, env).value;
      && p.result.entryId.Some? && p.result.receiptId.Some? && |a.dateKey| == 10
      && var id, rid := p.result.entryId.value, p.result.receiptId.value;
      && p.ledger.entries == l.entries[id := EntryOf(a, p.result.tagId, env.now)]
      && p.ledger.receipts == l.receipts[rid := Receipt(id, a.dateKey[..7], a.amountCents, a.dateKey)]
      && (p.result.tagId.Some? <==> a.tagName.Some?)
  {
    hide WithTag, WithIncome, WithDeposit, ValidDraft, EntryOf, Takes, BankAfter;
    TagLeavesRows(Start(l, nextId, a), a.tagName, env);
    var tagged := WithTag(Start(l, nextId, a), a.tagName, env).value;
    IncomeWrites(tagged, a, env);
    if !a.ReceiveIncome? {
      DepositWrites(WithIncome(tagged, a, env).value, a, env);
    }
  }

  /** A deposit writes its movement, the expense when it comes from cash, and the completion of the goal it fills. */
  lemma DepositRows(l: Ledger, nextId: int, a: Action, env: Env)
    requires !a.ReceiveIncome? && Performed(l, nextId, a, env).Ok?
    ensures Takes(l, a.bankId, a.amountCents, a.dateKey, env.today)
    ensures var p := Performed(l, nextId, a, env).value;
      && p.result.movementId.Some? && (p.result.expenseId.Some? <==> a.ReceiveAndSave? || a.deductFromBalance)
      && p.ledger.movements
         == l.movements[p.result.movementId.value := Movement(a.bankId, DepositMove, true, a.amountCents, a.dateKey,
                                                              p.result.expenseId, None, env.now)]
      && p.ledger.expenses == (if p.result.expenseId.None? then l.expenses
           else l.expenses[p.result.expenseId.value := Expense(Piggy, true, true, a.amountCents, a.dateKey, false,
                                                               env.now)])
      && p.ledger.banks == l.banks[a.bankId := BankAfter(l, a, env.now)]
  {
    hide WithTag, WithIncome, WithDeposit, ValidDraft, EntryOf, BankBalance, LexLess;
    var half := IncomeHalf(l, nextId, a, env).value;
    if !a.DepositExistingCash? {
      TagLeavesRows(Start(l, nextId, a), a.tagName, env);
      IncomeWrites(WithTag(Start(l, nextId, a), a.tagName, env).value, a, env);
    }
    assert half.ledger.banks == l.banks && half.ledger.movements == l.movements && half.ledger.expenses == l.expenses;
    DepositWrites(half, a, env);
  }

  // ---- which actions are accepted ----

  predicate GoodText(text: string, most: nat) {
    Trim(text) != "" && |text| <= most
  }

  /** What is asked of an income: no future day, a description, and a usable tag name when there is one. */
  predicate GoodIncome(a: Action, today: string)
    requires !a.DepositExistingCash?
  {
    !LexLess(today, a.dateKey) && GoodText(a.description, 500) && (a.tagName.Some? ==> GoodText(a.tagName.value, 100))
  }

  lemma DraftIsGood(a: Action, today: string)
    ensures ValidDraft(a, today) <==>
      && 0 < a.amountCents <= 999999999999 && CivilDate.ParseDayKey(a.dateKey).Some?
      && (!a.DepositExistingCash? ==> GoodIncome(a, today))
  {
    hide Trim, LexLess, CivilDate.ParseDayKey;
  }

  lemma GoodIncomeGoesThrough(l: Ledger, nextId: int, a: Action, env: Env)
    requires ValidDraft(a, env.today)
    ensures IncomeHalf(l, nextId, a, env).Ok?
    ensures var half := IncomeHalf(l, nextId, a, env).value;
      half.ledger.banks == l.banks && half.ledger.movements == l.movements
  {
    hide LexLess, Trim, CivilDate.ParseDayKey, WithTag;
    DefaultNameIsValid();
    if !a.DepositExistingCash? {
      if a.tagName.Some? {
        TrimTwice(a.tagName.value);
      }
      TagResolves(Start(l, nextId, a), a.tagName, env);
    }
  }

  /** An action is carried out exactly when its amount, day and texts are good and the bank it names takes it. */
  lemma ActionIsAccepted(l: Ledger, nextId: int, a: Action, env: Env)
    ensures Performed(l, nextId, a, env).Ok? <==>
      && 0 < a.amountCents <= 999999999999 && CivilDate.ParseDayKey(a.dateKey).Some?
      && (!a.DepositExistingCash? ==> GoodIncome(a, env.today))
      && (!a.ReceiveIncome? ==> Takes(l, a.bankId, a.amountCents, a.dateKey, env.today))
  {
    hide ValidDraft, IncomeHalf, WithDeposit, GoodIncome, BankBalance, LexLess, CivilDate.ParseDayKey;
    DraftIsGood(a, env.today);
    if ValidDraft(a, env.today) {
      GoodIncomeGoesThrough(l, nextId, a, env);
      if !a.ReceiveIncome? {
        DepositWrites(IncomeHalf(l, nextId, a, env).value, a, env);
      }
    }
  }

  // ---- what cash and savings are ----

  /** The cash of manual rows is in their receipts and payments; rows of the system count whole while they are live. */
  lemma NewRowsMoveCash(l: Ledger, id: int, r: Receipt, e: Entry, p: Payment, x: Expense)
    requires id !in l.receipts && id !in l.entries && id !in l.payments && id !in l.expenses
    requires forall k :: k in l.receipts ==> l.receipts[k].entryId in l.entries
    requires forall k :: k in l.payments ==> l.payments[k].expenseId in l.expenses
    requires r.entryId in l.entries && p.expenseId in l.expenses
    ensures Cash(l.(receipts := l.receipts[id := r]))
      == Cash(l) + if l.entries[r.entryId].origin == Manual then r.amount else 0
    ensures Cash(l.(payments := l.payments[id := p]))
      == Cash(l) - if l.expenses[p.expenseId].origin == Manual then p.amount else 0
    ensures Cash(l.(entries := l.entries[id := e]))
      == Cash(l) + if e.origin == Manual || e.archived then 0 else e.amount
    ensures Cash(l.(expenses := l.expenses[id := x]))
      == Cash(l) - if x.origin == Manual || x.archived then 0 else x.amount
  {
    var entries, expenses := l.entries[id := e], l.expenses[id := x];
    SumInsert(l.receipts, id, r, ReceiptCash(l.entries));
    SumInsert(l.payments, id, p, PaymentCash(l.expenses));
    SumInsert(l.entries, id, e, EntryCash);
    SumInsert(l.expenses, id, x, ExpenseCash);
    SumCongruence(l.receipts, ReceiptCash(l.entries), ReceiptCash(entries));
    SumCongruence(l.payments, PaymentCash(l.expenses), PaymentCash(expenses));
  }

  /** A movement adds to its own bank and to savings, a withdrawal takes away; an empty ledger holds nothing. */
  lemma NewMovementMovesSavings(l: Ledger, id: int, m: Movement, bankId: int)
    requires id !in l.movements
    ensures var after := l.(movements := l.movements[id := m]);
      var moved := if m.kind == WithdrawMove then -m.amount else m.amount;
      && Savings(after) == Savings(l) + moved && Cash(after) == Cash(l)
      && BankBalance(after.movements, bankId)
         == BankBalance(l.movements, bankId) + if m.bankId == bankId then moved else 0
  {
    SumInsert(l.movements, id, m, Signed);
    SumInsert(l.movements, id, m, SignedIn(bankId));
  }

  lemma NothingIsWorthNothing()
    ensures var none := Ledger(map[], map[], map[], map[], map[], map[], map[], map[], []);
      Cash(none) == 0 && Savings(none) == 0 && BankBalance(map[], 0) == 0
  {
  }

  // ---- the preview ----

  predicate CleanWithin(text: string, most: nat) {
    1 <= |Trim(text)| && |Trim(text)| < most + 1
  }

  /** A draft whose texts say something once trimmed and are not too long. */
  predicate CleanDraft(draft: Action) {
    match draft
    case DepositExistingCash(_, _, _, _, note) => note.Some? ==> CleanWithin(note.value, 500)
    case ReceiveIncome(_, _, description, tagName) =>
      CleanWithin(description, 500) && (tagName.Some? ==> CleanWithin(tagName.value, 100))
    case ReceiveAndSave(_, _, description, tagName, _) =>
      CleanWithin(description, 500) && (tagName.Some? ==> CleanWithin(tagName.value, 100))
  }

  /** A preview is ready exactly for a clean draft of a good action; it announces the trimmed action and its effects. */
  lemma PreviewIsReady(l: Ledger, draft: Action, today: string)
    ensures PreviewOf(l, draft, today).Ready? <==>
      && CleanDraft(draft) && 0 < draft.amountCents <= 999999999999 && CivilDate.ParseDayKey(draft.dateKey).Some?
      && (!draft.DepositExistingCash? ==> GoodIncome(draft, today))
      && (!draft.ReceiveIncome? ==> Takes(l, draft.bankId, draft.amountCents, draft.dateKey, today))
    ensures PreviewOf(l, draft, today).Ready? ==>
      var p, n := PreviewOf(l, draft, today), draft.amountCents;
      && p.action == NormalizeAction(draft)
      && p.cashDeltaCents == (match draft
                              case ReceiveIncome(_, _, _, _) => n
                              case ReceiveAndSave(_, _, _, _, _) => 0
                              case DepositExistingCash(_, _, _, deduct, _) => if deduct then -n else 0)
      && p.piggyDeltaCents == (if draft.ReceiveIncome? then 0 else n)
  {
    DraftIsGood(draft, today);
    hide ValidDraft, GoodText, BankBalance, LexLess, CivilDate.ParseDayKey, Trim;
  }

  /** Normalizing trims the texts and nothing else. */
  lemma NormalizingTrims(draft: Action)
    ensures var action := NormalizeAction(draft);
      match draft
      case ReceiveIncome(amount, day, text, tag) =>
        action == ReceiveIncome(amount, day, Trim(text), if tag.Some? then Some(Trim(tag.value)) else None)
      case ReceiveAndSave(amount, day, text, tag, bankId) =>
        action == ReceiveAndSave(amount, day, Trim(text), if tag.Some? then Some(Trim(tag.value)) else None, bankId)
      case DepositExistingCash(amount, day, bankId, deduct, note) =>
        action == DepositExistingCash(amount, day, bankId, deduct,
                                      if note.Some? then Some(Trim(note.value)) else None)
  {
    hide Trim;
  }
}
