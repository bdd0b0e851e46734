/** The three MCP money actions, the rows they write and the effects their preview announces. */
module FinanceActions {
  import opened Wrappers
  import opened Text
  import CivilDate
  import opened Sums

  datatype Action =
    | ReceiveIncome(amountCents: int, dateKey: string, description: string, tagName: Option<string>)
    | ReceiveAndSave(amountCents: int, dateKey: string, description: string, tagName: Option<string>, bankId: int)
    | DepositExistingCash(amountCents: int, dateKey: string, bankId: int, deductFromBalance: bool, note: Option<string>)

  datatype Kind = Income | IncomeAndSave | Deposit

  function KindOf(a: Action): Kind {
    match a
    case ReceiveIncome(_, _, _, _) => Income
    case ReceiveAndSave(_, _, _, _, _) => IncomeAndSave
    case DepositExistingCash(_, _, _, _, _) => Deposit
  }

  datatype ActionResult = ActionResult(kind: Kind, amountCents: int, entryId: Option<int>, receiptId: Option<int>,
                                       tagId: Option<int>, movementId: Option<int>, expenseId: Option<int>)

  datatype Origin = Manual | Piggy | FromAsset
  datatype MovementKind = DepositMove | WithdrawMove | InterestMove

  /** Amounts are cents, day keys are strings, instants are integers. */
  datatype Entry = Entry(origin: Origin, oneOff: bool, amount: int, date: string, name: string,
                         notes: string, tagId: Option<int>, archived: bool, updatedAt: int)
  datatype Receipt = Receipt(entryId: int, month: string, amount: int, receivedAt: string)
  datatype Expense = Expense(origin: Origin, savings: bool, oneOff: bool, amount: int, occurredAt: string,
                             archived: bool, updatedAt: int)
  datatype Payment = Payment(expenseId: int, amount: int)
  datatype AssetLink = AssetLink(entryId: Option<int>, expenseId: Option<int>)
  datatype Movement = Movement(bankId: int, kind: MovementKind, manual: bool, amount: int, date: string,
                               expenseId: Option<int>, entryId: Option<int>, createdAt: int)
  datatype Bank = Bank(goal: Option<int>, archived: bool, yieldEnabled: bool, accruedThrough: Option<string>,
                       completedAt: Option<string>, updatedAt: int)
  datatype Tag = Tag(id: int, name: string)

  /** One user's rows. `splits` maps a split row to its expense. */
  datatype Ledger = Ledger(entries: map<int, Entry>, receipts: map<int, Receipt>, expenses: map<int, Expense>,
                           payments: map<int, Payment>, splits: map<int, int>, assets: map<int, AssetLink>,
                           movements: map<int, Movement>, banks: map<int, Bank>, tags: seq<Tag>)

  datatype Error = InvalidInput | NotFound | Archived | AlreadyComplete | FutureDeposit | PastDepositWithYield
    | GoalTooSmall | InvalidTag | Undone | KeyReused | NonceReused | Changed | LaterMovement | GrantRevoked

  /** Today's key, the instant of the transaction, and the database's case folding of tag names. */
  datatype Env = Env(today: string, now: int, fold: string -> string)

  const MAX_CENTS: int := 999999999999
  const DEFAULT_NAME: string := "Entrada avulsa"

  // ---- what the preview announces ----

  function CashEffect(a: Action): int {
    (if a.DepositExistingCash? then 0 else a.amountCents) - (if Deducts(a) then a.amountCents else 0)
  }

  function PiggyEffect(a: Action): int {
    if a.ReceiveIncome? then 0 else a.amountCents
  }

  predicate Deducts(a: Action) {
    a.ReceiveAndSave? || (a.DepositExistingCash? && a.deductFromBalance)
  }

  // ---- what the ledger is worth ----

  function ReceiptCash(entries: map<int, Entry>): Receipt -> int {
    (r: Receipt) => if r.entryId in entries && entries[r.entryId].origin == Manual then r.amount else 0
  }

  function EntryCash(e: Entry): int {
    if e.origin != Manual && !e.archived then e.amount else 0
  }

  function PaymentCash(expenses: map<int, Expense>): Payment -> int {
    (p: Payment) => if p.expenseId in expenses && expenses[p.expenseId].origin == Manual then p.amount else 0
  }

  function ExpenseCash(e: Expense): int {
    if e.origin != Manual && !e.archived then e.amount else 0
  }

  /** Manual rows count through receipts and payments, rows of the system through their own amount. */
  ghost function Cash(l: Ledger): int {
    Sum(l.receipts, ReceiptCash(l.entries)) + Sum(l.entries, EntryCash)
    - Sum(l.payments, PaymentCash(l.expenses)) - Sum(l.expenses, ExpenseCash)
  }

  function Signed(m: Movement): int {
    if m.kind == WithdrawMove then -m.amount else m.amount
  }

  ghost function Savings(l: Ledger): int {
    Sum(l.movements, Signed)
  }

  function SignedIn(bankId: int): Movement -> int {
    (m: Movement) => if m.bankId == bankId then Signed(m) else 0
  }

  ghost function BankBalance(movements: map<int, Movement>, bankId: int): int {
    Sum(movements, SignedIn(bankId))
  }

  // ---- row identity ----

  /** Ids at or above `nextId` are unused; receipts and payments belong to stored rows. */
  ghost predicate Integrity(l: Ledger, nextId: int) {
    && (forall k :: k in l.entries ==> k < nextId)
    && (forall k :: k in l.receipts ==> k < nextId && l.receipts[k].entryId in l.entries)
    && (forall k :: k in l.expenses ==> k < nextId)
    && (forall k :: k in l.payments ==> k < nextId && l.payments[k].expenseId in l.expenses)
    && (forall k :: k in l.movements ==> k < nextId && l.movements[k].bankId in l.banks)
    && (forall k :: k in l.splits ==> l.splits[k] in l.expenses)
    && (forall k :: k in l.assets ==>
          (l.assets[k].entryId.Some? ==> l.assets[k].entryId.value in l.entries)
          && (l.assets[k].expenseId.Some? ==> l.assets[k].expenseId.value in l.expenses))
    && (forall k :: k in l.movements ==>
          (l.movements[k].entryId.Some? ==> l.movements[k].entryId.value in l.entries)
          && (l.movements[k].expenseId.Some? ==> l.movements[k].expenseId.value in l.expenses))
  }

  // ---- the specification of one action ----

  predicate ValidDraft(a: Action, today: string) {
    && 0 < a.amountCents <= MAX_CENTS
    && CivilDate.ParseDayKey(a.dateKey).Some?
    && (a.DepositExistingCash?
        || (&& !LexLess(today, a.dateKey)
            && Trim(a.description) != "" && |a.description| <= 500
            && (a.tagName.None? || (Trim(a.tagName.value) != "" && |a.tagName.value| <= 100))))
  }

  function FindTag(tags: seq<Tag>, name: string, fold: string -> string): Option<int> {
    if tags == [] then None
    else if fold(tags[0].name) == fold(name) then Some(tags[0].id) else FindTag(tags[1..], name, fold)
  }

  /** Rows written so far inside one transaction. */
  datatype Progress = Progress(ledger: Ledger, nextId: int, result: ActionResult)

  function WithTag(p: Progress, tagName: Option<string>, env: Env): Result<Progress, Error> {
    if tagName.None? then Ok(p)
    else
      var name := Trim(tagName.value);
      if name == "" || |name| > 100 then Err(InvalidTag)
      else
        var found := FindTag(p.ledger.tags, name, env.fold);
        if found.Some? then Ok(p.(result := p.result.(tagId := found)))
        else
          Ok(Progress(p.ledger.(tags := p.ledger.tags + [Tag(p.nextId, name)]), p.nextId + 1,
                      p.result.(tagId := Some(p.nextId))))
  }

  predicate ValidIncome(amountCents: int, dateKey: string, name: string, notes: string, today: string) {
    && 1 <= amountCents <= MAX_CENTS
    && CivilDate.ParseDayKey(dateKey).Some? && !LexLess(today, dateKey)
    && Trim(name) != "" && |Trim(name)| <= 100 && |notes| <= 500
  }

  function MonthKey(dateKey: string): string {
    if |dateKey| < 7 then dateKey else dateKey[..7]
  }

  /** A received one-off income: an entry and its only receipt. */
  function WithIncome(p: Progress, a: Action, env: Env): Result<Progress, Error>
    requires !a.DepositExistingCash?
  {
    var name := a.tagName.GetOr(DEFAULT_NAME);
    if !ValidIncome(a.amountCents, a.dateKey, name, a.description, env.today) then Err(InvalidInput)
    else
      var entry := Entry(Manual, true, a.amountCents, a.dateKey, Trim(name), a.description, p.result.tagId, false,
                         env.now);
      var receipt := Receipt(p.nextId, MonthKey(a.dateKey), a.amountCents, a.dateKey);
      Ok(Progress(p.ledger.(entries := p.ledger.entries[p.nextId := entry],
                            receipts := p.ledger.receipts[p.nextId + 1 := receipt]),
                  p.nextId + 2,
                  p.result.(entryId := Some(p.nextId), receiptId := Some(p.nextId + 1))))
  }

  /** How much a deposit really moves: the request, capped by what the goal still lacks. */
  function CappedDeposit(goal: Option<int>, balance: int, amount: int): int {
    if goal.None? || amount <= goal.value - balance then amount else goal.value - balance
  }

  function AfterDeposit(bank: Bank, balance: int, amount: int, dateKey: string, now: int): Bank {
    bank.(completedAt := if bank.goal.Some? && balance + amount >= bank.goal.value && bank.completedAt.None?
                         then Some(dateKey) else bank.completedAt,
          updatedAt := now)
  }

  predicate RejectsPastDeposit(bank: Bank, dateKey: string, today: string) {
    LexLess(dateKey, today)
    && (bank.yieldEnabled || (bank.accruedThrough.Some? && !LexLess(bank.accruedThrough.value, dateKey)))
  }

  /** The piggy half: guards, the deposit movement, the linked expense when cash is deducted. */
  ghost function WithDeposit(p: Progress, a: Action, env: Env): Result<Progress, Error>
    requires !a.ReceiveIncome?
  {
    var l := p.ledger;
    if LexLess(env.today, a.dateKey) then Err(FutureDeposit)
    else if a.bankId !in l.banks then Err(NotFound)
    else
      var bank := l.banks[a.bankId];
      var balance := BankBalance(l.movements, a.bankId);
      if RejectsPastDeposit(bank, a.dateKey, env.today) then Err(PastDepositWithYield)
      else if bank.archived then Err(Archived)
      else if bank.goal.Some? && bank.goal.value - balance <= 0 then Err(AlreadyComplete)
      else if CappedDeposit(bank.goal, balance, a.amountCents) != a.amountCents then Err(GoalTooSmall)
      else
        var expense := Expense(Piggy, true, true, a.amountCents, a.dateKey, false, env.now);
        var expenseId := if Deducts(a) then Some(p.nextId) else None;
        var movement := Movement(a.bankId, DepositMove, true, a.amountCents, a.dateKey, expenseId, None, env.now);
        var updated := AfterDeposit(bank, balance, a.amountCents, a.dateKey, env.now);
        Ok(Progress(l.(expenses := if Deducts(a) then l.expenses[p.nextId := expense] else l.expenses,
                       movements := l.movements[p.nextId + 1 := movement],
                       banks := l.banks[a.bankId := updated]),
                    p.nextId + 2,
                    p.result.(movementId := Some(p.nextId + 1), expenseId := expenseId)))
  }

  function Start(l: Ledger, nextId: int, a: Action): Progress {
    Progress(l, nextId, ActionResult(KindOf(a), a.amountCents, None, None, None, None, None))
  }

  function IncomeHalf(l: Ledger, nextId: int, a: Action, env: Env): Result<Progress, Error> {
    if a.DepositExistingCash? then Ok(Start(l, nextId, a))
    else
      var tagged := WithTag(Start(l, nextId, a), a.tagName, env);
      if tagged.Err? then tagged else WithIncome(tagged.value, a, env)
  }

  /** All the effects of one action, or none of them. */
  ghost function Performed(l: Ledger, nextId: int, a: Action, env: Env): Result<Progress, Error> {
    if !ValidDraft(a, env.today) then Err(InvalidInput)
    else
      var income := IncomeHalf(l, nextId, a, env);
      if income.Err? || a.ReceiveIncome? then income else WithDeposit(income.value, a, env)
  }

  // ---- the preview's effects are the real ones ----

  lemma IncomeMovesCash(p: Progress, a: Action, env: Env)
    requires !a.DepositExistingCash? && Integrity(p.ledger, p.nextId) && WithIncome(p, a, env).Ok?
    ensures var q := WithIncome(p, a, env).value;
      && Cash(q.ledger) == Cash(p.ledger) + a.amountCents && Savings(q.ledger) == Savings(p.ledger)
  {
    hide ValidIncome, MonthKey, Trim;
    var q := WithIncome(p, a, env).value;
    var l, m := p.ledger, q.ledger;
    SumInsert(l.entries, p.nextId, m.entries[p.nextId], EntryCash);
    SumCongruence(l.receipts, ReceiptCash(l.entries), ReceiptCash(m.entries));
    SumInsert(l.receipts, p.nextId + 1, m.receipts[p.nextId + 1], ReceiptCash(m.entries));
  }

  lemma DepositMovesCash(p: Progress, a: Action, env: Env)
    requires !a.ReceiveIncome? && Integrity(p.ledger, p.nextId) && WithDeposit(p, a, env).Ok?
    ensures var q := WithDeposit(p, a, env).value;
      && Cash(q.ledger) == Cash(p.ledger) - (if Deducts(a) then a.amountCents else 0)
      && Savings(q.ledger) == Savings(p.ledger) + a.amountCents
  {
    hide RejectsPastDeposit, CappedDeposit, AfterDeposit, BankBalance;
    var q := WithDeposit(p, a, env).value;
    var l, m := p.ledger, q.ledger;
    SumInsert(l.movements, p.nextId + 1, m.movements[p.nextId + 1], Signed);
    if Deducts(a) {
      SumInsert(l.expenses, p.nextId, m.expenses[p.nextId], ExpenseCash);
      SumCongruence(l.payments, PaymentCash(l.expenses), PaymentCash(m.expenses));
    }
  }

  lemma TagKeepsRows(p: Progress, tagName: Option<string>, env: Env)
    requires Integrity(p.ledger, p.nextId) && WithTag(p, tagName, env).Ok?
    ensures var q := WithTag(p, tagName, env).value;
      && q.nextId >= p.nextId && Integrity(q.ledger, q.nextId)
      && q.ledger.(tags := p.ledger.tags) == p.ledger
      && q.result.(tagId := p.result.tagId) == p.result
  {
    hide Trim, FindTag, Integrity;
    var q := WithTag(p, tagName, env).value;
    TagsKeepIntegrity(p.ledger, q.ledger.tags, p.nextId, q.nextId);
    assert q.ledger == p.ledger.(tags := q.ledger.tags);
  }

  lemma TagsKeepIntegrity(l: Ledger, tags: seq<Tag>, nextId: int, later: int)
    requires Integrity(l, nextId) && nextId <= later
    ensures Integrity(l.(tags := tags), later)
  {
  }

  lemma IncomeKeepsIntegrity(p: Progress, a: Action, env: Env)
    requires !a.DepositExistingCash? && Integrity(p.ledger, p.nextId) && WithIncome(p, a, env).Ok?
    ensures Integrity(WithIncome(p, a, env).value.ledger, WithIncome(p, a, env).value.nextId)
  {
    hide ValidIncome, MonthKey, Trim;
  }

  lemma DepositKeepsIntegrity(p: Progress, a: Action, env: Env)
    requires !a.ReceiveIncome? && Integrity(p.ledger, p.nextId) && WithDeposit(p, a, env).Ok?
    ensures Integrity(WithDeposit(p, a, env).value.ledger, WithDeposit(p, a, env).value.nextId)
  {
    hide RejectsPastDeposit, CappedDeposit, AfterDeposit, BankBalance;
  }

  /** An accepted action changes total cash and total savings by exactly what its preview announced. */
  lemma PreviewIsExact(l: Ledger, nextId: int, a: Action, env: Env)
    requires Integrity(l, nextId) && Performed(l, nextId, a, env).Ok?
    ensures var q := Performed(l, nextId, a, env).value;
      && Cash(q.ledger) == Cash(l) + CashEffect(a) && Savings(q.ledger) == Savings(l) + PiggyEffect(a)
      && Integrity(q.ledger, q.nextId)
  {
    hide Integrity, WithTag, WithIncome, WithDeposit, ValidDraft, Cash, Savings;
    var p := Start(l, nextId, a);
    if !a.DepositExistingCash? {
      TagKeepsRows(p, a.tagName, env);
      p := WithTag(p, a.tagName, env).value;
      TagsAreWorthNothing(l, p.ledger);
      IncomeMovesCash(p, a, env);
      IncomeKeepsIntegrity(p, a, env);
      p := WithIncome(p, a, env).value;
    }
    if !a.ReceiveIncome? {
      DepositMovesCash(p, a, env);
      DepositKeepsIntegrity(p, a, env);
    }
  }

  lemma TagsAreWorthNothing(l: Ledger, m: Ledger)
    requires m.(tags := l.tags) == l
    ensures Cash(l) == Cash(m) && Savings(l) == Savings(m)
  {
  }

  /** Which ids an accepted action reports, all of them new. */
  ghost predicate ResultFits(r: ActionResult, a: Action) {
    && r.kind == KindOf(a) && r.amountCents == a.amountCents > 0
    && (r.entryId.Some? <==> !a.DepositExistingCash?) && (r.receiptId.Some? <==> !a.DepositExistingCash?)
    && (r.movementId.Some? <==> !a.ReceiveIncome?) && (r.expenseId.Some? <==> Deducts(a))
    && (a.DepositExistingCash? ==> r.tagId.None?)
  }

  predicate IdWithin(id: Option<int>, lo: int, hi: int) {
    id.Some? ==> lo <= id.value < hi
  }

  /** The tag may be an older one; every ledger row is new. */
  predicate IdsWithin(r: ActionResult, lo: int, hi: int) {
    IdWithin(r.entryId, lo, hi) && IdWithin(r.receiptId, lo, hi)
    && IdWithin(r.movementId, lo, hi) && IdWithin(r.expenseId, lo, hi)
  }

  lemma ResultNamesNewRows(l: Ledger, nextId: int, a: Action, env: Env)
    requires Performed(l, nextId, a, env).Ok?
    ensures var q := Performed(l, nextId, a, env).value;
      ResultFits(q.result, a) && IdsWithin(q.result, nextId, q.nextId) && q.nextId >= nextId
  {
    hide CivilDate.ParseDayKey, Trim, LexLess, FindTag, BankBalance, RejectsPastDeposit, CappedDeposit, AfterDeposit;
    hide ValidIncome;
  }

  // ---- the preview ----

  datatype Preview = ClarificationRequired | Ready(action: Action, cashDeltaCents: int, piggyDeltaCents: int)

  predicate CleanText(text: string, max: nat) {
    0 < |Trim(text)| <= max
  }

  predicate CleanTexts(draft: Action) {
    match draft
    case DepositExistingCash(_, _, _, _, note) => note.None? || CleanText(note.value, 500)
    case ReceiveIncome(_, _, description, tagName) =>
      CleanText(description, 500) && (tagName.None? || CleanText(tagName.value, 100))
    case ReceiveAndSave(_, _, description, tagName, _) =>
      CleanText(description, 500) && (tagName.None? || CleanText(tagName.value, 100))
  }

  function TrimOption(text: Option<string>): Option<string> {
    if text.Some? then Some(Trim(text.value)) else None
  }

  function NormalizeAction(draft: Action): Action {
    match draft
    case ReceiveIncome(amount, date, description, tagName) =>
      ReceiveIncome(amount, date, Trim(description), TrimOption(tagName))
    case ReceiveAndSave(amount, date, description, tagName, bankId) =>
      ReceiveAndSave(amount, date, Trim(description), TrimOption(tagName), bankId)
    case DepositExistingCash(amount, date, bankId, deduct, note) =>
      DepositExistingCash(amount, date, bankId, deduct, TrimOption(note))
  }

  ghost predicate BankAccepts(l: Ledger, draft: Action, today: string)
    requires !draft.ReceiveIncome?
  {
    && draft.bankId in l.banks
    && var bank := l.banks[draft.bankId];
    && !bank.archived && !RejectsPastDeposit(bank, draft.dateKey, today)
    && (bank.goal.Some? ==>
          var remaining := bank.goal.value - BankBalance(l.movements, draft.bankId);
          remaining > 0 && remaining >= draft.amountCents)
  }

  ghost function PreviewOf(l: Ledger, draft: Action, today: string): Preview {
    if !ValidDraft(draft, today) || (draft.DepositExistingCash? && LexLess(today, draft.dateKey)) || !CleanTexts(draft)
    then ClarificationRequired
    else if !draft.ReceiveIncome? && !BankAccepts(l, draft, today) then ClarificationRequired
    else
      var action := NormalizeAction(draft);
      Ready(action, CashEffect(action), PiggyEffect(action))
  }

  lemma {:induction false} TrimStartSettles(s: string)
    ensures |TrimStart(s)| <= |s| && TrimStart(TrimStart(s)) == TrimStart(s)
    ensures TrimStart(s) != "" ==> !IsSpace(TrimStart(s)[0])
  {
    if s != "" && IsSpace(s[0]) {
      TrimStartSettles(s[1..]);
    }
  }

  lemma {:induction false} TrimEndSettles(s: string)
    ensures |TrimEnd(s)| <= |s| && TrimEnd(TrimEnd(s)) == TrimEnd(s)
    ensures TrimEnd(s) != "" ==> TrimEnd(s)[0] == s[0]
  {
    if s != "" && IsSpace(s[|s| - 1]) {
      TrimEndSettles(s[..|s| - 1]);
    }
  }

  lemma TrimTwice(s: string)
    ensures Trim(Trim(s)) == Trim(s) && |Trim(s)| <= |s|
  {
    TrimStartSettles(s);
    TrimEndSettles(TrimStart(s));
    assert TrimStart(Trim(s)) == Trim(s);
  }

  lemma NormalizedTexts(draft: Action)
    ensures !draft.DepositExistingCash? ==>
      var action := NormalizeAction(draft);
      && !action.DepositExistingCash?
      && Trim(action.description) == action.description && |action.description| <= |draft.description|
      && (action.tagName.Some? <==> draft.tagName.Some?)
      && (action.tagName.Some? ==>
            Trim(action.tagName.value) == action.tagName.value == Trim(draft.tagName.value)
            && |action.tagName.value| <= |draft.tagName.value|)
  {
    if !draft.DepositExistingCash? {
      TrimTwice(draft.description);
      if draft.tagName.Some? {
        TrimTwice(draft.tagName.value);
      }
    }
  }

  lemma DefaultNameIsValid()
    ensures Trim(DEFAULT_NAME) == DEFAULT_NAME && 0 < |DEFAULT_NAME| <= 100
  {
    assert !IsSpace(DEFAULT_NAME[0]) && !IsSpace(DEFAULT_NAME[|DEFAULT_NAME| - 1]);
  }

  lemma DepositOnSameBanks(p: Progress, l: Ledger, draft: Action, env: Env)
    requires !draft.ReceiveIncome? && p.ledger.banks == l.banks && p.ledger.movements == l.movements
    ensures WithDeposit(p, NormalizeAction(draft), env).Ok? <==>
      !LexLess(env.today, draft.dateKey) && BankAccepts(l, draft, env.today)
  {
    hide BankBalance, LexLess, Trim;
  }

  lemma TagResolves(p: Progress, tagName: Option<string>, env: Env)
    requires tagName.Some? ==> 0 < |Trim(tagName.value)| <= 100
    ensures var q := WithTag(p, tagName, env);
      q.Ok? && q.value.ledger.banks == p.ledger.banks && q.value.ledger.movements == p.ledger.movements
  {
    hide Trim, FindTag;
  }

  lemma IncomeSucceeds(l: Ledger, nextId: int, draft: Action, env: Env)
    requires ValidDraft(draft, env.today) && CleanTexts(draft)
    ensures var income := IncomeHalf(l, nextId, NormalizeAction(draft), env);
      income.Ok? && income.value.ledger.banks == l.banks && income.value.ledger.movements == l.movements
  {
    hide LexLess, Trim, CivilDate.ParseDayKey, WithTag;
    NormalizedTexts(draft);
    DefaultNameIsValid();
    var action := NormalizeAction(draft);
    if !action.DepositExistingCash? {
      TagResolves(Start(l, nextId, action), action.tagName, env);
    }
  }

  /** With nothing in between, a preview is ready exactly for the clean drafts whose action then succeeds. */
  lemma PreviewPredictsSuccess(l: Ledger, nextId: int, draft: Action, env: Env)
    ensures PreviewOf(l, draft, env.today).Ready? <==>
      && ValidDraft(draft, env.today) && CleanTexts(draft)
      && Performed(l, nextId, NormalizeAction(draft), env).Ok?
  {
    hide LexLess, Trim, CivilDate.ParseDayKey, IncomeHalf, WithDeposit, BankAccepts;
    if ValidDraft(draft, env.today) && CleanTexts(draft) {
      var action := NormalizeAction(draft);
      IncomeSucceeds(l, nextId, draft, env);
      NormalizedTexts(draft);
      if !draft.ReceiveIncome? {
        DepositOnSameBanks(IncomeHalf(l, nextId, action, env).value, l, draft, env);
      }
    }
  }
}
