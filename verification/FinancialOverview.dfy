/** The current month's cash, computed on a whole ledger and by paged reads of the database. */
module FinancialOverview {
  import opened Wrappers
  import opened Paging
  import opened WeeklyOccurrences
  import CivilDate

  /** A civil day; months are counted from year 0. Day keys order the same way. */
  datatype Day = Day(month: int, date: int)

  predicate Leq(a: Day, b: Day) {
    a.month < b.month || (a.month == b.month && a.date <= b.date)
  }

  datatype Frequency = Unica | Semanal | Mensal

  /** Receipts and payments name the month they settle; the folded ones name none. */
  datatype Event = Event(month: Option<int>, amount: int, on: Option<Day>)

  datatype Income = Income(
    amount: int, frequency: Frequency, isSalary: bool, receiveDay: Option<int>, createdOn: Option<Day>,
    startsAt: Option<Day>, endsAt: Option<Day>, receiptHoldForMonth: Option<int>,
    salaryHolds: Option<seq<int>>, receivedForMonth: Option<int>, archived: bool, receipts: seq<Event>)

  datatype Split = Split(isPix: bool, amount: int)

  datatype Expense = Expense(
    amount: int, frequency: Frequency, dueDay: Option<int>, createdOn: Option<Day>,
    startsAt: Option<Day>, endsAt: Option<Day>, occurredAt: Option<Day>, paidForMonth: Option<int>,
    onCard: bool, isInvoice: bool, archived: bool, splits: seq<Split>, payments: seq<Event>)

  datatype MovementKind = Deposit | Withdraw | Interest

  datatype Movement = Movement(kind: MovementKind, amount: int, on: Day)

  datatype Context = Context(today: Day)

  datatype MonthlyCash = MonthlyCash(month: int, income: int, expenses: int, balance: int)

  // ---- what one ledger row contributes ----

  /** A dated event counts when its day is in the current month and not after today. */
  predicate Counts(c: Context, on: Option<Day>) {
    on.Some? && on.value.month == c.today.month && Leq(on.value, c.today)
  }

  function EventCash(c: Context, events: seq<Event>): int {
    if events == [] then 0
    else
      var last := events[|events| - 1];
      EventCash(c, events[..|events| - 1]) + if Counts(c, last.on) then last.amount else 0
  }

  predicate Settles(events: seq<Event>, month: int) {
    exists i :: 0 <= i < |events| && events[i].month == Some(month)
  }

  function Scheduled(c: Context, day: Option<int>): Day {
    Day(c.today.month,
      CivilDate.ClampDayToMonth(c.today.month / 12, c.today.month % 12, day.GetOr(1)))
  }

  predicate Active(day: Day, startsAt: Option<Day>, endsAt: Option<Day>) {
    (startsAt.Some? ==> Leq(startsAt.value, day)) && (endsAt.Some? ==> Leq(day, endsAt.value))
  }

  function NumberOf(day: Day): int {
    CivilDate.UtcDay(day.month / 12, day.month % 12, day.date)
  }

  function WeeklyAmount(c: Context, value: int, day: Option<int>, startsAt: Option<Day>,
                        createdOn: Option<Day>, endsAt: Option<Day>): int {
    var anchor := if startsAt.Some? then startsAt.value
                  else if createdOn.Some? then createdOn.value else Scheduled(c, day);
    var through := if endsAt.Some? && !Leq(c.today, endsAt.value) then endsAt.value else c.today;
    value * CountWeeklyOccurrences(NumberOf(anchor), NumberOf(Day(c.today.month, 1)), NumberOf(through))
  }

  /** The scheduled part of an income: what is assumed when nothing was recorded. */
  function ExpectedIncome(c: Context, e: Income): int {
    var month := c.today.month;
    if e.archived || e.frequency == Unica || Settles(e.receipts, month) then 0
    else if e.frequency == Semanal then
      WeeklyAmount(c, e.amount, e.receiveDay, e.startsAt, e.createdOn, e.endsAt)
    else
      var day := Scheduled(c, e.receiveDay);
      if e.isSalary && e.receivedForMonth == Some(month) then e.amount
      else if !Active(day, e.startsAt, e.endsAt) then 0
      else if e.isSalary && (if e.salaryHolds.Some? then month in e.salaryHolds.value
                             else e.receiptHoldForMonth == Some(month)) then 0
      else if Leq(day, c.today) then e.amount
      else 0
  }

  function PixAmount(splits: seq<Split>): int {
    if splits == [] then 0
    else
      var last := splits[|splits| - 1];
      PixAmount(splits[..|splits| - 1]) + if last.isPix then last.amount else 0
  }

  /** The share of an expense that leaves cash directly. */
  function CashShare(e: Expense): int {
    if e.splits != [] then PixAmount(e.splits) else if e.onCard then 0 else e.amount
  }

  function ExpectedOutflow(c: Context, e: Expense): int {
    var month := c.today.month;
    if e.archived || e.isInvoice then 0
    else if e.frequency == Unica then
      if e.payments == [] && Counts(c, e.occurredAt) then CashShare(e) else 0
    else if Settles(e.payments, month) then 0
    else if e.frequency == Semanal then
      WeeklyAmount(c, CashShare(e), e.dueDay, e.startsAt, e.createdOn, e.endsAt)
    else
      var day := Scheduled(c, e.dueDay);
      if Active(day, e.startsAt, e.endsAt) && (Leq(day, c.today) || e.paidForMonth == Some(month))
      then CashShare(e) else 0
  }

  function EntryWorth(c: Context, e: Income): int {
    EventCash(c, e.receipts) + ExpectedIncome(c, e)
  }

  function ExpenseWorth(c: Context, e: Expense): int {
    EventCash(c, e.payments) + ExpectedOutflow(c, e)
  }

  function IncomeOf(c: Context, entries: seq<Income>): int {
    if entries == [] then 0
    else IncomeOf(c, entries[..|entries| - 1]) + EntryWorth(c, entries[|entries| - 1])
  }

  function OutflowOf(c: Context, expenses: seq<Expense>): int {
    if expenses == [] then 0
    else OutflowOf(c, expenses[..|expenses| - 1]) + ExpenseWorth(c, expenses[|expenses| - 1])
  }

  function MovedOf(c: Context, movements: seq<Movement>, kind: MovementKind): int {
    if movements == [] then 0
    else
      var last := movements[|movements| - 1];
      MovedOf(c, movements[..|movements| - 1], kind)
      + if last.kind == kind && Counts(c, Some(last.on)) then last.amount else 0
  }

  /** The plain definition: each row contributes its recorded events and its expected part. */
  function CashOf(c: Context, entries: seq<Income>, expenses: seq<Expense>, movements: seq<Movement>): MonthlyCash {
    var income := IncomeOf(c, entries) + MovedOf(c, movements, Withdraw);
    var outflow := OutflowOf(c, expenses) + MovedOf(c, movements, Deposit);
    MonthlyCash(c.today.month, income, outflow, income - outflow)
  }

  method CalculateMonthlyCash(c: Context, entries: seq<Income>, expenses: seq<Expense>, movements: seq<Movement>)
    returns (cash: MonthlyCash)
    ensures cash == CashOf(c, entries, expenses, movements)
  {
    var month := c.today.month;
    var income, outflow := 0, 0;
    for i := 0 to |entries|
      invariant income == IncomeOf(c, entries[..i])
    {
      var entry := entries[i];
      assert entries[..i + 1][..i] == entries[..i];
      income := AddEvents(c, income, entry.receipts);
      if entry.archived || entry.frequency == Unica {
        continue;
      }
      if Settles(entry.receipts, month) {
        continue;
      }
      if entry.frequency == Semanal {
        income := income
          + WeeklyAmount(c, entry.amount, entry.receiveDay, entry.startsAt, entry.createdOn, entry.endsAt);
        continue;
      }
      var day := Scheduled(c, entry.receiveDay);
      if entry.isSalary && entry.receivedForMonth == Some(month) {
        income := income + entry.amount;
        continue;
      }
      if !Active(day, entry.startsAt, entry.endsAt) {
        continue;
      }
      var held := if entry.salaryHolds.Some? then month in entry.salaryHolds.value
                  else entry.receiptHoldForMonth == Some(month);
      if entry.isSalary && held {
        continue;
      } else if Leq(day, c.today) {
        income := income + entry.amount;
      }
    }
    for i := 0 to |expenses|
      invariant outflow == OutflowOf(c, expenses[..i])
    {
      var expense := expenses[i];
      assert expenses[..i + 1][..i] == expenses[..i];
      outflow := AddEvents(c, outflow, expense.payments);
      if expense.archived || expense.isInvoice {
        continue;
      }
      if expense.frequency == Unica {
        if |expense.payments| == 0 && Counts(c, expense.occurredAt) {
          outflow := outflow + CashShare(expense);
        }
        continue;
      }
      if Settles(expense.payments, month) {
        continue;
      }
      if expense.frequency == Semanal {
        outflow := outflow
          + WeeklyAmount(c, CashShare(expense), expense.dueDay, expense.startsAt, expense.createdOn, expense.endsAt);
        continue;
      }
      var day := Scheduled(c, expense.dueDay);
      if Active(day, expense.startsAt, expense.endsAt)
         && (Leq(day, c.today) || expense.paidForMonth == Some(month)) {
        outflow := outflow + CashShare(expense);
      }
    }
    assert entries[..|entries|] == entries && expenses[..|expenses|] == expenses;
    for i := 0 to |movements|
      invariant income == IncomeOf(c, entries) + MovedOf(c, movements[..i], Withdraw)
      invariant outflow == OutflowOf(c, expenses) + MovedOf(c, movements[..i], Deposit)
    {
      var movement := movements[i];
      assert movements[..i + 1][..i] == movements[..i];
      if !Counts(c, Some(movement.on)) {
        continue;
      }
      if movement.kind == Withdraw {
        income := income + movement.amount;
      } else if movement.kind == Deposit {
        outflow := outflow + movement.amount;
      }
    }
    assert movements[..|movements|] == movements;
    cash := MonthlyCash(month, income, outflow, income - outflow);
  }

  method AddEvents(c: Context, start: int, events: seq<Event>) returns (total: int)
    ensures total == start + EventCash(c, events)
  {
    total := start;
    for i := 0 to |events|
      invariant total == start + EventCash(c, events[..i])
    {
      assert events[..i + 1][..i] == events[..i];
      if Counts(c, events[i].on) {
        total := total + events[i].amount;
      }
    }
    assert events[..|events|] == events;
  }

  // ---- the paged read ----

  datatype EntryRow = EntryRow(id: int, manual: bool, holds: seq<int>, columns: Income)
  datatype ExpenseRow = ExpenseRow(id: int, manual: bool, voided: bool, columns: Expense)
  datatype EventRow = EventRow(id: int, parent: int, month: int, amount: int, on: Day)
  datatype SplitRow = SplitRow(id: int, parent: int, isPix: bool, amount: int)
  datatype PiggyRow = PiggyRow(kind: MovementKind, amount: int, on: Day, hasExpense: bool, hasEntry: bool)

  /** Every table in ascending id order, as every query asks for it. */
  datatype Database = Database(
    entries: seq<EntryRow>, receipts: seq<EventRow>, expenses: seq<ExpenseRow>,
    payments: seq<EventRow>, splits: seq<SplitRow>, piggy: seq<PiggyRow>)

  function EntryId(r: EntryRow): int { r.id }
  function ExpenseId(r: ExpenseRow): int { r.id }
  function EventId(r: EventRow): int { r.id }
  function EventParent(r: EventRow): int { r.parent }
  function SplitId(r: SplitRow): int { r.id }
  function SplitParent(r: SplitRow): int { r.parent }
  predicate ManualEntry(r: EntryRow) { r.manual }
  predicate LiveManualExpense(r: ExpenseRow) { r.manual && !r.voided }

  ghost predicate ValidDatabase(db: Database) {
    && Ascending(db.entries, EntryId) && Ascending(db.expenses, ExpenseId)
    && Ascending(db.receipts, EventId) && Ascending(db.payments, EventId) && Ascending(db.splits, SplitId)
  }

  // The unpaged ledger: every row with all of its children.

  function Events(rows: seq<EventRow>): (events: seq<Event>)
    ensures |events| == |rows|
  {
    if rows == [] then []
    else
      var last := rows[|rows| - 1];
      Events(rows[..|rows| - 1]) + [Event(Some(last.month), last.amount, Some(last.on))]
  }

  function Splits(rows: seq<SplitRow>): (splits: seq<Split>)
    ensures |splits| == |rows|
  {
    if rows == [] then []
    else
      var last := rows[|rows| - 1];
      Splits(rows[..|rows| - 1]) + [Split(last.isPix, last.amount)]
  }

  function FullEntry(db: Database, row: EntryRow): Income {
    row.columns.(salaryHolds := Some(row.holds), receipts := Events(ChildrenOf(db.receipts, EventParent, row.id)))
  }

  function FullExpense(db: Database, row: ExpenseRow): Expense {
    row.columns.(splits := Splits(ChildrenOf(db.splits, SplitParent, row.id)),
                 payments := Events(ChildrenOf(db.payments, EventParent, row.id)))
  }

  function FullEntries(db: Database, rows: seq<EntryRow>): seq<Income> {
    if rows == [] then [] else FullEntries(db, rows[..|rows| - 1]) + [FullEntry(db, rows[|rows| - 1])]
  }

  function FullExpenses(db: Database, rows: seq<ExpenseRow>): seq<Expense> {
    if rows == [] then [] else FullExpenses(db, rows[..|rows| - 1]) + [FullExpense(db, rows[|rows| - 1])]
  }

  /** Only piggy movements linked to a cash row change the cash balance. */
  function LinkedMovements(rows: seq<PiggyRow>): seq<Movement> {
    if rows == [] then []
    else
      var last := rows[|rows| - 1];
      LinkedMovements(rows[..|rows| - 1])
      + if (last.kind == Deposit && last.hasExpense) || (last.kind == Withdraw && last.hasEntry)
        then [Movement(last.kind, last.amount, last.on)] else []
  }

  function WholeLedgerCash(c: Context, db: Database): MonthlyCash {
    CashOf(c, FullEntries(db, Where(db.entries, ManualEntry)),
      FullExpenses(db, Where(db.expenses, LiveManualExpense)), LinkedMovements(db.piggy))
  }

  // Children folded into at most three synthetic rows per parent.

  datatype EventState = EventState(total: int, settled: bool, any: bool)
  datatype SplitState = SplitState(pix: int, any: bool)

  function EventStep(c: Context): (EventState, EventRow) -> EventState {
    (state: EventState, row: EventRow) => EventState(
      state.total + (if Counts(c, Some(row.on)) then row.amount else 0),
      state.settled || row.month == c.today.month, true)
  }

  function SplitStep(state: SplitState, row: SplitRow): SplitState {
    SplitState(state.pix + (if row.isPix then row.amount else 0), true)
  }

  /** The civil day of the epoch in Sao Paulo. */
  const PAST_DAY: Day := Day(1969 * 12 + 11, 31)

  function FoldedReceipts(c: Context, state: EventState): seq<Event> {
    (if state.settled then [Event(Some(c.today.month), 0, Some(PAST_DAY))] else [])
    + (if state.total == 0 then [] else [Event(None, state.total, Some(c.today))])
  }

  function FoldedPayments(c: Context, state: EventState): seq<Event> {
    FoldedReceipts(c, state)
    + (if !state.settled && state.any && state.total == 0 then [Event(None, 0, Some(PAST_DAY))] else [])
  }

  function HoldsOf(holds: seq<int>, month: int): seq<int> {
    if holds == [] then []
    else
      HoldsOf(holds[..|holds| - 1], month)
      + if holds[|holds| - 1] == month then [month] else []
  }

  function NormalizedEntry(c: Context, row: EntryRow, state: EventState): Income {
    row.columns.(salaryHolds := Some(HoldsOf(row.holds, c.today.month)), receipts := FoldedReceipts(c, state))
  }

  function NormalizedExpense(c: Context, row: ExpenseRow, paid: EventState, split: SplitState): Expense {
    row.columns.(splits := if split.any then [Split(true, split.pix)] else [],
                 payments := FoldedPayments(c, paid))
  }

  lemma {:induction false} EventFoldMeaning(c: Context, rows: seq<EventRow>)
    ensures var state, events := Fold(EventStep(c), EventState(0, false, false), rows), Events(rows);
      && state.total == EventCash(c, events)
      && (state.settled <==> Settles(events, c.today.month))
      && (state.any <==> rows != [])
  {
    if rows != [] {
      var front, last := rows[..|rows| - 1], rows[|rows| - 1];
      EventFoldMeaning(c, front);
      var events := Events(rows);
      assert events[..|events| - 1] == Events(front);
      var month := c.today.month;
      assert Settles(events, month) <==> Settles(Events(front), month) || last.month == month by {
        if Settles(Events(front), month) {
          var i :| 0 <= i < |front| && Events(front)[i].month == Some(month);
          assert events[i].month == Some(month);
        }
        assert events[|events| - 1].month == Some(last.month);
      }
    }
  }

  lemma {:induction false} SplitFoldMeaning(rows: seq<SplitRow>)
    ensures var state := Fold(SplitStep, SplitState(0, false), rows);
      state.pix == PixAmount(Splits(rows)) && (state.any <==> rows != [])
  {
    if rows != [] {
      SplitFoldMeaning(rows[..|rows| - 1]);
      var splits := Splits(rows);
      assert splits[..|splits| - 1] == Splits(rows[..|rows| - 1]);
    }
  }

  lemma {:induction false} HoldsKeepTheMonth(holds: seq<int>, month: int)
    ensures month in HoldsOf(holds, month) <==> month in holds
  {
    if holds != [] {
      HoldsKeepTheMonth(holds[..|holds| - 1], month);
      assert holds == holds[..|holds| - 1] + [holds[|holds| - 1]];
    }
  }

  /** The synthetic rows add up to the same cash, settle the same month and are there or not. */
  lemma FoldedEventsMeaning(c: Context, state: EventState)
    requires !state.any ==> !state.settled && state.total == 0
    ensures EventCash(c, FoldedReceipts(c, state)) == state.total
    ensures EventCash(c, FoldedPayments(c, state)) == state.total
    ensures Settles(FoldedReceipts(c, state), c.today.month) <==> state.settled
    ensures Settles(FoldedPayments(c, state), c.today.month) <==> state.settled
    ensures FoldedPayments(c, state) == [] <==> !state.any
  {
    var settled := Event(Some(c.today.month), 0, Some(PAST_DAY));
    var total := Event(None, state.total, Some(c.today));
    var past := Event(None, 0, Some(PAST_DAY));
    assert [settled, total][..1] == [settled] && [settled][..0] == [] && [total][..0] == [] && [past][..0] == [];
    assert EventCash(c, [settled]) == 0 && EventCash(c, [past]) == 0 && EventCash(c, [total]) == state.total;
    var receipts := FoldedReceipts(c, state);
    assert receipts == if state.settled then (if state.total == 0 then [settled] else [settled, total])
                       else (if state.total == 0 then [] else [total]);
    assert state.settled ==> receipts[0].month == Some(c.today.month);
    var payments := FoldedPayments(c, state);
    assert payments == receipts || (receipts == [] && payments == [past]);
  }

  lemma NormalizedEntryIsWorthTheSame(c: Context, db: Database, row: EntryRow)
    ensures var state := Fold(EventStep(c), EventState(0, false, false), ChildrenOf(db.receipts, EventParent, row.id));
      var folded, full := NormalizedEntry(c, row, state), FullEntry(db, row);
      EventCash(c, folded.receipts) == EventCash(c, full.receipts)
      && ExpectedIncome(c, folded) == ExpectedIncome(c, full)
  {
    hide EventCash, Settles, EventStep, Fold, ChildrenOf, Events, HoldsOf, FoldedReceipts, ExpectedIncome;
    var children := ChildrenOf(db.receipts, EventParent, row.id);
    var state := Fold(EventStep(c), EventState(0, false, false), children);
    EventFoldMeaning(c, children);
    EmptyFold(c, children);
    FoldedEventsMeaning(c, state);
    HoldsKeepTheMonth(row.holds, c.today.month);
    ExpectedIncomeReadsLittle(c, NormalizedEntry(c, row, state), FullEntry(db, row));
  }

  /** Of receipts and holds, the expected income only reads whether they name the current month. */
  lemma ExpectedIncomeReadsLittle(c: Context, a: Income, b: Income)
    requires b == a.(receipts := b.receipts, salaryHolds := b.salaryHolds)
    requires Settles(a.receipts, c.today.month) <==> Settles(b.receipts, c.today.month)
    requires a.salaryHolds.Some? && b.salaryHolds.Some?
    requires c.today.month in a.salaryHolds.value <==> c.today.month in b.salaryHolds.value
    ensures ExpectedIncome(c, a) == ExpectedIncome(c, b)
  {
    hide Settles, Scheduled, Active, Leq, WeeklyAmount;
  }

  lemma ExpectedOutflowReadsLittle(c: Context, a: Expense, b: Expense)
    requires b == a.(payments := b.payments, splits := b.splits)
    requires Settles(a.payments, c.today.month) <==> Settles(b.payments, c.today.month)
    requires a.payments == [] <==> b.payments == []
    requires CashShare(a) == CashShare(b)
    ensures ExpectedOutflow(c, a) == ExpectedOutflow(c, b)
  {
    hide Settles, Scheduled, Active, Leq, WeeklyAmount, CashShare, Counts;
  }

  lemma EmptyFold(c: Context, rows: seq<EventRow>)
    ensures var state := Fold(EventStep(c), EventState(0, false, false), rows);
      !state.any ==> !state.settled && state.total == 0
  {
  }

  lemma NormalizedExpenseIsWorthTheSame(c: Context, db: Database, row: ExpenseRow)
    ensures var paid := Fold(EventStep(c), EventState(0, false, false), ChildrenOf(db.payments, EventParent, row.id));
      var split := Fold(SplitStep, SplitState(0, false), ChildrenOf(db.splits, SplitParent, row.id));
      var folded, full := NormalizedExpense(c, row, paid, split), FullExpense(db, row);
      EventCash(c, folded.payments) == EventCash(c, full.payments)
      && ExpectedOutflow(c, folded) == ExpectedOutflow(c, full)
  {
    hide EventCash, Settles, EventStep, Fold, ChildrenOf, Events, Splits, PixAmount, FoldedPayments,
      ExpectedOutflow, SplitStep;
    var children := ChildrenOf(db.payments, EventParent, row.id);
    var parts := ChildrenOf(db.splits, SplitParent, row.id);
    var paid := Fold(EventStep(c), EventState(0, false, false), children);
    var split := Fold(SplitStep, SplitState(0, false), parts);
    EventFoldMeaning(c, children);
    EmptyFold(c, children);
    FoldedEventsMeaning(c, paid);
    SplitFoldMeaning(parts);
    OnePixSplit(split.pix);
    ExpectedOutflowReadsLittle(c, NormalizedExpense(c, row, paid, split), FullExpense(db, row));
  }

  lemma OnePixSplit(amount: int)
    ensures PixAmount([Split(true, amount)]) == amount
  {
    assert [Split(true, amount)][..0] == [];
  }

  // Sums over normalized pages.

  function NormalizedEntries(c: Context, rows: seq<EntryRow>, states: map<int, EventState>): seq<Income>
    requires forall r :: r in rows ==> r.id in states
  {
    if rows == [] then []
    else
      var last := rows[|rows| - 1];
      NormalizedEntries(c, rows[..|rows| - 1], states) + [NormalizedEntry(c, last, states[last.id])]
  }

  function NormalizedExpenses(c: Context, rows: seq<ExpenseRow>, paid: map<int, EventState>,
                              split: map<int, SplitState>): seq<Expense>
    requires forall r :: r in rows ==> r.id in paid && r.id in split
  {
    if rows == [] then []
    else
      var last := rows[|rows| - 1];
      NormalizedExpenses(c, rows[..|rows| - 1], paid, split)
      + [NormalizedExpense(c, last, paid[last.id], split[last.id])]
  }

  lemma IncomeSnoc(c: Context, entries: seq<Income>, last: Income)
    ensures IncomeOf(c, entries + [last]) == IncomeOf(c, entries) + EntryWorth(c, last)
  {
    assert (entries + [last])[..|entries|] == entries;
  }

  lemma OutflowSnoc(c: Context, expenses: seq<Expense>, last: Expense)
    ensures OutflowOf(c, expenses + [last]) == OutflowOf(c, expenses) + ExpenseWorth(c, last)
  {
    assert (expenses + [last])[..|expenses|] == expenses;
  }

  lemma {:induction false} NormalizedEntriesSum(c: Context, db: Database, rows: seq<EntryRow>,
                                                states: map<int, EventState>)
    requires forall r :: r in rows ==>
      r.id in states
      && states[r.id] == Fold(EventStep(c), EventState(0, false, false), ChildrenOf(db.receipts, EventParent, r.id))
    ensures IncomeOf(c, NormalizedEntries(c, rows, states)) == IncomeOf(c, FullEntries(db, rows))
  {
    hide EventCash, ExpectedIncome, NormalizedEntry, FullEntry, Fold, ChildrenOf, EventStep;
    if rows != [] {
      var front, last := rows[..|rows| - 1], rows[|rows| - 1];
      NormalizedEntriesSum(c, db, front, states);
      NormalizedEntryIsWorthTheSame(c, db, last);
      IncomeSnoc(c, NormalizedEntries(c, front, states), NormalizedEntry(c, last, states[last.id]));
      IncomeSnoc(c, FullEntries(db, front), FullEntry(db, last));
    }
  }

  lemma {:induction false} NormalizedExpensesSum(c: Context, db: Database, rows: seq<ExpenseRow>,
                                                 paid: map<int, EventState>, split: map<int, SplitState>)
    requires forall r :: r in rows ==>
      r.id in paid && r.id in split
      && paid[r.id] == Fold(EventStep(c), EventState(0, false, false), ChildrenOf(db.payments, EventParent, r.id))
      && split[r.id] == Fold(SplitStep, SplitState(0, false), ChildrenOf(db.splits, SplitParent, r.id))
    ensures OutflowOf(c, NormalizedExpenses(c, rows, paid, split)) == OutflowOf(c, FullExpenses(db, rows))
  {
    hide EventCash, ExpectedOutflow, NormalizedExpense, FullExpense, Fold, ChildrenOf, EventStep, SplitStep;
    if rows != [] {
      var front, last := rows[..|rows| - 1], rows[|rows| - 1];
      NormalizedExpensesSum(c, db, front, paid, split);
      NormalizedExpenseIsWorthTheSame(c, db, last);
      OutflowSnoc(c, NormalizedExpenses(c, front, paid, split),
        NormalizedExpense(c, last, paid[last.id], split[last.id]));
      OutflowSnoc(c, FullExpenses(db, front), FullExpense(db, last));
    }
  }

  lemma {:induction false} FullEntriesAppend(c: Context, db: Database, a: seq<EntryRow>, b: seq<EntryRow>)
    ensures IncomeOf(c, FullEntries(db, a + b)) == IncomeOf(c, FullEntries(db, a)) + IncomeOf(c, FullEntries(db, b))
  {
    hide EntryWorth, FullEntry;
    if b == [] {
      assert a + b == a;
    } else {
      var front, last := b[..|b| - 1], b[|b| - 1];
      FullEntriesAppend(c, db, a, front);
      assert (a + b)[..|a + b| - 1] == a + front;
      IncomeSnoc(c, FullEntries(db, a + front), FullEntry(db, last));
      IncomeSnoc(c, FullEntries(db, front), FullEntry(db, last));
    }
  }

  lemma {:induction false} FullExpensesAppend(c: Context, db: Database, a: seq<ExpenseRow>, b: seq<ExpenseRow>)
    ensures OutflowOf(c, FullExpenses(db, a + b))
      == OutflowOf(c, FullExpenses(db, a)) + OutflowOf(c, FullExpenses(db, b))
  {
    hide ExpenseWorth, FullExpense;
    if b == [] {
      assert a + b == a;
    } else {
      var front, last := b[..|b| - 1], b[|b| - 1];
      FullExpensesAppend(c, db, a, front);
      assert (a + b)[..|a + b| - 1] == a + front;
      OutflowSnoc(c, FullExpenses(db, a + front), FullExpense(db, last));
      OutflowSnoc(c, FullExpenses(db, front), FullExpense(db, last));
    }
  }

  /** Income of the whole ledger rows, page after page. */
  ghost function PagedIncome(c: Context, db: Database, pages: seq<seq<EntryRow>>): int {
    if pages == [] then 0
    else PagedIncome(c, db, pages[..|pages| - 1]) + IncomeOf(c, FullEntries(db, pages[|pages| - 1]))
  }

  ghost function PagedOutflow(c: Context, db: Database, pages: seq<seq<ExpenseRow>>): int {
    if pages == [] then 0
    else PagedOutflow(c, db, pages[..|pages| - 1]) + OutflowOf(c, FullExpenses(db, pages[|pages| - 1]))
  }

  lemma {:induction false} PagedIncomeIsWhole(c: Context, db: Database, pages: seq<seq<EntryRow>>)
    ensures PagedIncome(c, db, pages) == IncomeOf(c, FullEntries(db, Flatten(pages)))
  {
    if pages != [] {
      PagedIncomeIsWhole(c, db, pages[..|pages| - 1]);
      FullEntriesAppend(c, db, Flatten(pages[..|pages| - 1]), pages[|pages| - 1]);
    }
  }

  lemma {:induction false} PagedOutflowIsWhole(c: Context, db: Database, pages: seq<seq<ExpenseRow>>)
    ensures PagedOutflow(c, db, pages) == OutflowOf(c, FullExpenses(db, Flatten(pages)))
  {
    if pages != [] {
      PagedOutflowIsWhole(c, db, pages[..|pages| - 1]);
      FullExpensesAppend(c, db, Flatten(pages[..|pages| - 1]), pages[|pages| - 1]);
    }
  }

  /** The database's own grouped sum over the days of the month up to today. */
  function MovedInRange(c: Context, rows: seq<PiggyRow>, kind: MovementKind): int {
    if rows == [] then 0
    else
      var last := rows[|rows| - 1];
      var linked := (last.kind == Deposit && last.hasExpense) || (last.kind == Withdraw && last.hasEntry);
      var inRange := Leq(Day(c.today.month, 1), last.on) && Leq(last.on, c.today);
      MovedInRange(c, rows[..|rows| - 1], kind)
      + if last.kind == kind && linked && inRange then last.amount else 0
  }

  lemma {:induction false} GroupedSumsAreLinkedMovements(c: Context, rows: seq<PiggyRow>, kind: MovementKind)
    requires forall r :: r in rows ==> r.on.date >= 1
    ensures MovedInRange(c, rows, kind) == MovedOf(c, LinkedMovements(rows), kind)
  {
    if rows != [] {
      var front, last := rows[..|rows| - 1], rows[|rows| - 1];
      assert last in rows;
      GroupedSumsAreLinkedMovements(c, front, kind);
      RangeIsMonthSoFar(c, last.on);
      var linked := LinkedMovements(front);
      MovedAppend(c, linked, Movement(last.kind, last.amount, last.on), kind);
      assert linked + [] == linked;
      hide Counts, Leq;
    }
  }

  lemma RangeIsMonthSoFar(c: Context, on: Day)
    requires on.date >= 1
    ensures Leq(Day(c.today.month, 1), on) && Leq(on, c.today) <==> Counts(c, Some(on))
  {
  }

  lemma MovedAppend(c: Context, movements: seq<Movement>, movement: Movement, kind: MovementKind)
    ensures MovedOf(c, movements + [movement], kind)
      == MovedOf(c, movements, kind)
         + if movement.kind == kind && Counts(c, Some(movement.on)) then movement.amount else 0
  {
    assert (movements + [movement])[..|movements|] == movements;
  }

  method ReadMonthlyCash(c: Context, db: Database, size: nat) returns (cash: MonthlyCash)
    requires size > 0 && ValidDatabase(db)
    requires forall r :: r in db.piggy ==> r.on.date >= 1
    ensures cash == WholeLedgerCash(c, db)
  {
    hide IncomeOf, OutflowOf, MovedOf, MovedInRange, FullEntries, FullExpenses, LinkedMovements, Where;
    var income := ReadIncome(c, db, size);
    var expenses := ReadOutflow(c, db, size);
    income := income + MovedInRange(c, db.piggy, Withdraw);
    expenses := expenses + MovedInRange(c, db.piggy, Deposit);
    GroupedSumsAreLinkedMovements(c, db.piggy, Withdraw);
    GroupedSumsAreLinkedMovements(c, db.piggy, Deposit);
    cash := MonthlyCash(c.today.month, income, expenses, income - expenses);
  }

  method ReadIncome(c: Context, db: Database, size: nat) returns (income: int)
    requires size > 0 && ValidDatabase(db)
    ensures income == IncomeOf(c, FullEntries(db, Where(db.entries, ManualEntry)))
  {
    hide IncomeOf, FullEntries, Flatten, Where, Ascending;
    WhereKeepsOrder(db.entries, ManualEntry, EntryId);
    var result := EachPage(Where(db.entries, ManualEntry), EntryId, size);
    var pages := result.value;
    income := 0;
    for i := 0 to |pages|
      invariant income == PagedIncome(c, db, pages[..i])
    {
      var part := ReadEntryPage(c, db, pages[i], size);
      assert pages[..i + 1][..i] == pages[..i];
      income := income + part;
    }
    assert pages[..|pages|] == pages;
    PagedIncomeIsWhole(c, db, pages);
  }

  method ReadEntryPage(c: Context, db: Database, rows: seq<EntryRow>, size: nat) returns (income: int)
    requires size > 0 && ValidDatabase(db)
    ensures income == IncomeOf(c, FullEntries(db, rows))
  {
    var ids := set r: EntryRow | r in rows :: r.id;
    var states := FoldChildren(db.receipts, EventParent, EventId, ids, EventStep(c), EventState(0, false, false), size);
    NormalizedEntriesSum(c, db, rows, states);
    var part := CalculateMonthlyCash(c, NormalizedEntries(c, rows, states), [], []);
    income := part.income;
  }

  method ReadOutflow(c: Context, db: Database, size: nat) returns (expenses: int)
    requires size > 0 && ValidDatabase(db)
    ensures expenses == OutflowOf(c, FullExpenses(db, Where(db.expenses, LiveManualExpense)))
  {
    hide OutflowOf, FullExpenses, Flatten, Where, Ascending;
    WhereKeepsOrder(db.expenses, LiveManualExpense, ExpenseId);
    var result := EachPage(Where(db.expenses, LiveManualExpense), ExpenseId, size);
    var pages := result.value;
    expenses := 0;
    for i := 0 to |pages|
      invariant expenses == PagedOutflow(c, db, pages[..i])
    {
      var part := ReadExpensePage(c, db, pages[i], size);
      assert pages[..i + 1][..i] == pages[..i];
      expenses := expenses + part;
    }
    assert pages[..|pages|] == pages;
    PagedOutflowIsWhole(c, db, pages);
  }

  method ReadExpensePage(c: Context, db: Database, rows: seq<ExpenseRow>, size: nat) returns (expenses: int)
    requires size > 0 && ValidDatabase(db)
    ensures expenses == OutflowOf(c, FullExpenses(db, rows))
  {
    var ids := set r: ExpenseRow | r in rows :: r.id;
    var paid := FoldChildren(db.payments, EventParent, EventId, ids, EventStep(c), EventState(0, false, false), size);
    var split := FoldChildren(db.splits, SplitParent, SplitId, ids, SplitStep, SplitState(0, false), size);
    NormalizedExpensesSum(c, db, rows, paid, split);
    var part := CalculateMonthlyCash(c, [], NormalizedExpenses(c, rows, paid, split), []);
    expenses := part.expenses;
  }
}
