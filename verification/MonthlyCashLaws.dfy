/** What the monthly cash answer means, row by row, in the columns of the rows. */
module MonthlyCashLaws {
  import opened Wrappers
  import opened Paging
  import opened WeeklyOccurrences
  import opened FinancialOverview
  import CivilDate

  /** What one row alone adds to the answer. */
  function IncomeFrom(c: Context, e: Income): int {
    CashOf(c, [e], [], []).income
  }

  function OutflowFrom(c: Context, e: Expense): int {
    CashOf(c, [], [e], []).expenses
  }

  // ---- the answer adds up over rows ----

  lemma {:induction false} IncomeAddsUp(c: Context, a: seq<Income>, b: seq<Income>)
    ensures IncomeOf(c, a + b) == IncomeOf(c, a) + IncomeOf(c, b)
  {
    hide EntryWorth;
    if b == [] {
      assert a + b == a;
    } else {
      assert (a + b)[..|a + b| - 1] == a + b[..|b| - 1];
      IncomeAddsUp(c, a, b[..|b| - 1]);
    }
  }

  lemma {:induction false} OutflowAddsUp(c: Context, a: seq<Expense>, b: seq<Expense>)
    ensures OutflowOf(c, a + b) == OutflowOf(c, a) + OutflowOf(c, b)
  {
    hide ExpenseWorth;
    if b == [] {
      assert a + b == a;
    } else {
      assert (a + b)[..|a + b| - 1] == a + b[..|b| - 1];
      OutflowAddsUp(c, a, b[..|b| - 1]);
    }
  }

  lemma {:induction false} MovedAddsUp(c: Context, a: seq<Movement>, b: seq<Movement>, kind: MovementKind)
    ensures MovedOf(c, a + b, kind) == MovedOf(c, a, kind) + MovedOf(c, b, kind)
  {
    hide Counts;
    if b == [] {
      assert a + b == a;
    } else {
      assert (a + b)[..|a + b| - 1] == a + b[..|b| - 1];
      MovedAddsUp(c, a, b[..|b| - 1], kind);
    }
  }

  /** Two ledgers side by side have the cash of both, and the balance is income less expenses. */
  lemma CashAddsUp(c: Context, e: seq<Income>, x: seq<Expense>, m: seq<Movement>,
                   f: seq<Income>, y: seq<Expense>, n: seq<Movement>)
    ensures var whole, one, other := CashOf(c, e + f, x + y, m + n), CashOf(c, e, x, m), CashOf(c, f, y, n);
      && whole.income == one.income + other.income && whole.expenses == one.expenses + other.expenses
      && whole.balance == whole.income - whole.expenses && whole.month == c.today.month
  {
    IncomeAddsUp(c, e, f);
    OutflowAddsUp(c, x, y);
    MovedAddsUp(c, m, n, Withdraw);
    MovedAddsUp(c, m, n, Deposit);
  }

  lemma OneEntry(c: Context, e: Income)
    ensures IncomeFrom(c, e) == EntryWorth(c, e)
  {
    hide EntryWorth;
    IncomeSnoc(c, [], e);
    assert [] + [e] == [e];
  }

  lemma OneExpense(c: Context, e: Expense)
    ensures OutflowFrom(c, e) == ExpenseWorth(c, e)
  {
    hide ExpenseWorth;
    OutflowSnoc(c, [], e);
    assert [] + [e] == [e];
  }

  // ---- the columns ----

  /** Amounts of the events dated in the current month, up to today. */
  function Recorded(c: Context, events: seq<Event>): int {
    if events == [] then 0
    else
      var on := events[0].on;
      (if on.Some? && on.value.month == c.today.month && on.value.date <= c.today.date then events[0].amount else 0)
      + Recorded(c, events[1..])
  }

  function PixParts(splits: seq<Split>): int {
    if splits == [] then 0 else (if splits[0].isPix then splits[0].amount else 0) + PixParts(splits[1..])
  }

  /** An unsplit expense leaves cash whole without a card and not at all with one; a split one by its PIX parts. */
  predicate LeavesCash(e: Expense, share: int) {
    && (e.splits == [] && !e.onCard ==> share == e.amount)
    && (e.splits == [] && e.onCard ==> share == 0)
    && (e.splits != [] ==> share == PixParts(e.splits))
  }

  /** The wanted day of the month, or the nearest day the month has; the first when none is wanted. */
  predicate FallsOn(c: Context, wanted: Option<int>, d: int) {
    var last := CivilDate.LastDayOfMonth(c.today.month / 12, c.today.month % 12);
    d == match wanted
         case None => 1
         case Some(day) => if day < 1 then 1 else if day > last then last else day
  }

  predicate InForce(month: int, d: int, startsAt: Option<Day>, endsAt: Option<Day>) {
    && (startsAt.Some? ==> startsAt.value.month < month || (startsAt.value.month == month && startsAt.value.date <= d))
    && (endsAt.Some? ==> endsAt.value.month > month || (endsAt.value.month == month && endsAt.value.date >= d))
  }

  predicate Unsettled(events: seq<Event>, month: int) {
    forall i :: 0 <= i < |events| ==> events[i].month != Some(month)
  }

  /** A weekly row repeats from its start, else from its creation, else from its day of this month. */
  predicate StartsWeeks(c: Context, startsAt: Option<Day>, createdOn: Option<Day>, wanted: Option<int>, anchor: Day) {
    match (startsAt, createdOn)
    case (Some(start), _) => anchor == start
    case (None, Some(created)) => anchor == created
    case (None, None) => anchor.month == c.today.month && FallsOn(c, wanted, anchor.date)
  }

  /** It runs until today, or until an earlier end. */
  predicate RunsThrough(c: Context, endsAt: Option<Day>, through: Day) {
    if endsAt.Some? && (endsAt.value.month < c.today.month
                        || (endsAt.value.month == c.today.month && endsAt.value.date < c.today.date))
    then through == endsAt.value else through == c.today
  }

  // ---- how the columns are read ----

  lemma {:induction false} RecordedIsCounted(c: Context, events: seq<Event>)
    ensures EventCash(c, events) == Recorded(c, events)
  {
    if events != [] {
      RecordedIsCounted(c, events[1..]);
      EventCashHead(c, events);
    }
  }

  lemma {:induction false} EventCashHead(c: Context, events: seq<Event>)
    requires events != []
    ensures EventCash(c, events) == EventCash(c, events[1..]) + if Counts(c, events[0].on) then events[0].amount else 0
  {
    hide Counts;
    if |events| > 1 {
      var front := events[..|events| - 1];
      EventCashHead(c, front);
      assert front[1..] == events[1..][..|events| - 2];
    }
  }

  lemma {:induction false} PixHead(splits: seq<Split>)
    requires splits != []
    ensures PixAmount(splits) == PixAmount(splits[1..]) + if splits[0].isPix then splits[0].amount else 0
  {
    if |splits| > 1 {
      var front := splits[..|splits| - 1];
      PixHead(front);
      assert front[1..] == splits[1..][..|splits| - 2];
    }
  }

  lemma {:induction false} PixPartsAreSummed(splits: seq<Split>)
    ensures PixAmount(splits) == PixParts(splits)
  {
    if splits != [] {
      PixPartsAreSummed(splits[1..]);
      PixHead(splits);
    }
  }

  lemma SharesAreRead(e: Expense, share: int)
    requires LeavesCash(e, share)
    ensures CashShare(e) == share
  {
    PixPartsAreSummed(e.splits);
  }

  lemma DaysAreRead(c: Context, wanted: Option<int>, d: int)
    requires FallsOn(c, wanted, d)
    ensures Scheduled(c, wanted) == Day(c.today.month, d)
  {
    hide CivilDate.IsLeap, CivilDate.UtcYear;
  }

  lemma WeeksAreRead(c: Context, value: int, wanted: Option<int>, startsAt: Option<Day>, createdOn: Option<Day>,
                     endsAt: Option<Day>, anchor: Day, through: Day)
    requires StartsWeeks(c, startsAt, createdOn, wanted, anchor) && RunsThrough(c, endsAt, through)
    ensures WeeklyAmount(c, value, wanted, startsAt, createdOn, endsAt)
      == value * WholeWeeksAfter(NumberOf(anchor), NumberOf(Day(c.today.month, 1)), NumberOf(through))
  {
    hide CountWeeklyOccurrences, WholeWeeksAfter, NumberOf, Scheduled, FallsOn;
    if startsAt.None? && createdOn.None? {
      DaysAreRead(c, wanted, anchor.date);
      assert anchor == Day(c.today.month, anchor.date);
    }
    CountIsWholeWeeks(NumberOf(anchor), NumberOf(Day(c.today.month, 1)), NumberOf(through));
  }

  // ---- income rows ----

  /** Archived and one-off income, and income settled for the month, counts by its receipts alone. */
  lemma RecordedIncomeOnly(c: Context, e: Income)
    requires e.archived || e.frequency == Unica || !Unsettled(e.receipts, c.today.month)
    ensures IncomeFrom(c, e) == Recorded(c, e.receipts)
  {
    OneEntry(c, e);
    RecordedIsCounted(c, e.receipts);
    hide EventCash, Recorded;
  }

  lemma WeeklyIncome(c: Context, e: Income, anchor: Day, through: Day)
    requires !e.archived && e.frequency == Semanal && Unsettled(e.receipts, c.today.month)
    requires StartsWeeks(c, e.startsAt, e.createdOn, e.receiveDay, anchor) && RunsThrough(c, e.endsAt, through)
    ensures IncomeFrom(c, e) == Recorded(c, e.receipts)
      + e.amount * WholeWeeksAfter(NumberOf(anchor), NumberOf(Day(c.today.month, 1)), NumberOf(through))
  {
    OneEntry(c, e);
    RecordedIsCounted(c, e.receipts);
    WeeksAreRead(c, e.amount, e.receiveDay, e.startsAt, e.createdOn, e.endsAt, anchor, through);
    hide EventCash, Recorded, WeeklyAmount, NumberOf, WholeWeeksAfter, StartsWeeks, RunsThrough, IncomeFrom;
  }

  /** A monthly income counts from its day on while in force; it waits for its day, and is over after its end. */
  lemma MonthlyIncome(c: Context, e: Income, d: int)
    requires !e.archived && e.frequency == Mensal && !e.isSalary && Unsettled(e.receipts, c.today.month)
    requires FallsOn(c, e.receiveDay, d)
    ensures IncomeFrom(c, e) == Recorded(c, e.receipts)
      + if InForce(c.today.month, d, e.startsAt, e.endsAt) && d <= c.today.date then e.amount else 0
  {
    OneEntry(c, e);
    RecordedIsCounted(c, e.receipts);
    DaysAreRead(c, e.receiveDay, d);
    hide EventCash, Recorded, Scheduled, FallsOn, IncomeFrom, OutflowFrom;
  }

  /** A salary marked received counts at once; one on hold does not; otherwise it is a monthly income. */
  lemma SalaryIncome(c: Context, e: Income, d: int)
    requires !e.archived && e.frequency == Mensal && e.isSalary && Unsettled(e.receipts, c.today.month)
    requires FallsOn(c, e.receiveDay, d)
    ensures var held := match e.salaryHolds
                        case Some(months) => c.today.month in months
                        case None => e.receiptHoldForMonth == Some(c.today.month);
      var due := InForce(c.today.month, d, e.startsAt, e.endsAt) && d <= c.today.date && !held;
      IncomeFrom(c, e) == Recorded(c, e.receipts)
      + if e.receivedForMonth == Some(c.today.month) || due then e.amount else 0
  {
    OneEntry(c, e);
    RecordedIsCounted(c, e.receipts);
    DaysAreRead(c, e.receiveDay, d);
    hide EventCash, Recorded, Scheduled, FallsOn, IncomeFrom, OutflowFrom;
  }

  // ---- expense rows ----

  /** Archived rows and invoices count by their payments alone; so does what is already paid. */
  lemma RecordedOutflowOnly(c: Context, e: Expense)
    requires e.archived || e.isInvoice || (e.frequency == Unica && e.payments != [])
             || (e.frequency != Unica && !Unsettled(e.payments, c.today.month))
    ensures OutflowFrom(c, e) == Recorded(c, e.payments)
  {
    OneExpense(c, e);
    RecordedIsCounted(c, e.payments);
    hide EventCash, Recorded, IncomeFrom, OutflowFrom;
  }

  /** A one-off without payments counts on its day, within the month and not before today reaches it. */
  lemma OneOffOutflow(c: Context, e: Expense, share: int)
    requires !e.archived && !e.isInvoice && e.frequency == Unica && e.payments == [] && LeavesCash(e, share)
    ensures OutflowFrom(c, e)
      == match e.occurredAt
         case None => 0
         case Some(on) => if on.month == c.today.month && on.date <= c.today.date then share else 0
  {
    OneExpense(c, e);
    SharesAreRead(e, share);
    hide CashShare, IncomeFrom, OutflowFrom;
  }

  lemma WeeklyOutflow(c: Context, e: Expense, share: int, anchor: Day, through: Day)
    requires !e.archived && !e.isInvoice && e.frequency == Semanal && Unsettled(e.payments, c.today.month)
    requires LeavesCash(e, share)
    requires StartsWeeks(c, e.startsAt, e.createdOn, e.dueDay, anchor) && RunsThrough(c, e.endsAt, through)
    ensures OutflowFrom(c, e) == Recorded(c, e.payments)
      + share * WholeWeeksAfter(NumberOf(anchor), NumberOf(Day(c.today.month, 1)), NumberOf(through))
  {
    OneExpense(c, e);
    RecordedIsCounted(c, e.payments);
    SharesAreRead(e, share);
    WeeksAreRead(c, share, e.dueDay, e.startsAt, e.createdOn, e.endsAt, anchor, through);
    hide EventCash, Recorded, WeeklyAmount, NumberOf, WholeWeeksAfter, StartsWeeks, RunsThrough, IncomeFrom,
      OutflowFrom, CashShare, LeavesCash;
  }

  /** A monthly expense in force counts from its day on, or already when it is marked paid for the month. */
  lemma MonthlyOutflow(c: Context, e: Expense, share: int, d: int)
    requires !e.archived && !e.isInvoice && e.frequency == Mensal && Unsettled(e.payments, c.today.month)
    requires LeavesCash(e, share) && FallsOn(c, e.dueDay, d)
    ensures OutflowFrom(c, e) == Recorded(c, e.payments)
      + if InForce(c.today.month, d, e.startsAt, e.endsAt)
           && (d <= c.today.date || e.paidForMonth == Some(c.today.month)) then share else 0
  {
    OneExpense(c, e);
    RecordedIsCounted(c, e.payments);
    SharesAreRead(e, share);
    DaysAreRead(c, e.dueDay, d);
    hide EventCash, Recorded, Scheduled, FallsOn, IncomeFrom, OutflowFrom, CashShare, LeavesCash;
  }

  // ---- recording what was expected ----

  lemma {:induction false} RecordedSnoc(c: Context, events: seq<Event>, e: Event)
    ensures Recorded(c, events + [e]) == Recorded(c, events) + Recorded(c, [e])
  {
    if events == [] {
      assert [] + [e] == [e];
    } else {
      assert (events + [e])[1..] == events[1..] + [e];
      RecordedSnoc(c, events[1..], e);
    }
  }

  /**
   * Recording this month's payment at the cash share, on any day of the month up to today, takes the place of the
   * expected outflow: nothing changes when the expense was due, and the share is added when it was not yet.
   */
  lemma PaymentReplacesExpectation(c: Context, e: Expense, share: int, d: int, paidOn: int)
    requires !e.archived && !e.isInvoice && e.frequency == Mensal && Unsettled(e.payments, c.today.month)
    requires LeavesCash(e, share) && FallsOn(c, e.dueDay, d) && paidOn <= c.today.date
    ensures var month := c.today.month;
      var due := InForce(month, d, e.startsAt, e.endsAt) && (d <= c.today.date || e.paidForMonth == Some(month));
      var paid := e.(payments := e.payments + [Event(Some(month), share, Some(Day(month, paidOn)))]);
      OutflowFrom(c, paid) == OutflowFrom(c, e) + if due then 0 else share
  {
    var payment := Event(Some(c.today.month), share, Some(Day(c.today.month, paidOn)));
    var paid := e.(payments := e.payments + [payment]);
    MonthlyOutflow(c, e, share, d);
    assert paid.payments[|e.payments|] == payment;
    RecordedOutflowOnly(c, paid);
    RecordedSnoc(c, e.payments, payment);
    hide OutflowFrom, FallsOn, LeavesCash, InForce;
  }

  lemma ReceiptReplacesExpectation(c: Context, e: Income, d: int, receivedOn: int)
    requires !e.archived && e.frequency == Mensal && !e.isSalary && Unsettled(e.receipts, c.today.month)
    requires FallsOn(c, e.receiveDay, d) && receivedOn <= c.today.date
    ensures var month := c.today.month;
      var due := InForce(month, d, e.startsAt, e.endsAt) && d <= c.today.date;
      var received := e.(receipts := e.receipts + [Event(Some(month), e.amount, Some(Day(month, receivedOn)))]);
      IncomeFrom(c, received) == IncomeFrom(c, e) + if due then 0 else e.amount
  {
    var receipt := Event(Some(c.today.month), e.amount, Some(Day(c.today.month, receivedOn)));
    var received := e.(receipts := e.receipts + [receipt]);
    MonthlyIncome(c, e, d);
    assert received.receipts[|e.receipts|] == receipt;
    RecordedIncomeOnly(c, received);
    RecordedSnoc(c, e.receipts, receipt);
    hide IncomeFrom, FallsOn, InForce;
  }

  // ---- piggy movements ----

  /** A withdrawal is income and a deposit an expense, on their day; interest is neither. */
  lemma MovementCounts(c: Context, m: Movement)
    ensures var cash := CashOf(c, [], [], [m]);
      var now := m.on.month == c.today.month && m.on.date <= c.today.date;
      && cash.income == (if m.kind == Withdraw && now then m.amount else 0)
      && cash.expenses == (if m.kind == Deposit && now then m.amount else 0)
  {
    MovedAppend(c, [], m, Withdraw);
    MovedAppend(c, [], m, Deposit);
    assert [] + [m] == [m];
  }

  // ---- one more row in the database ----

  lemma WhereSnoc<R>(rows: seq<R>, keep: R -> bool, last: R)
    ensures Where(rows + [last], keep) == if keep(last) then Where(rows, keep) + [last] else Where(rows, keep)
  {
    assert (rows + [last])[..|rows|] == rows;
  }

  lemma {:induction false} SameChildren(a: Database, b: Database, entries: seq<EntryRow>, expenses: seq<ExpenseRow>)
    requires a.receipts == b.receipts && a.payments == b.payments && a.splits == b.splits
    ensures FullEntries(a, entries) == FullEntries(b, entries)
    ensures FullExpenses(a, expenses) == FullExpenses(b, expenses)
    decreases |entries| + |expenses|
  {
    hide ChildrenOf, Events, Splits;
    if entries != [] {
      SameChildren(a, b, entries[..|entries| - 1], expenses);
    } else if expenses != [] {
      SameChildren(a, b, entries, expenses[..|expenses| - 1]);
    }
  }

  lemma FullSnoc(db: Database, entries: seq<EntryRow>, e: EntryRow, expenses: seq<ExpenseRow>, x: ExpenseRow)
    ensures FullEntries(db, entries + [e]) == FullEntries(db, entries) + [FullEntry(db, e)]
    ensures FullExpenses(db, expenses + [x]) == FullExpenses(db, expenses) + [FullExpense(db, x)]
  {
    hide FullEntry, FullExpense;
    assert (entries + [e])[..|entries|] == entries && (expenses + [x])[..|expenses|] == expenses;
  }

  /** Rows the system wrote for itself and voided expenses do not count; the others add what they are worth. */
  lemma NewRowsCount(c: Context, db: Database, e: EntryRow, x: ExpenseRow)
    ensures var before := WholeLedgerCash(c, db);
      && WholeLedgerCash(c, db.(entries := db.entries + [e])).income
         == before.income + (if e.manual then IncomeFrom(c, FullEntry(db, e)) else 0)
      && WholeLedgerCash(c, db.(expenses := db.expenses + [x])).expenses
         == before.expenses + (if x.manual && !x.voided then OutflowFrom(c, FullExpense(db, x)) else 0)
  {
    WhereSnoc(db.entries, ManualEntry, e);
    WhereSnoc(db.expenses, LiveManualExpense, x);
    var entries, expenses := Where(db.entries, ManualEntry), Where(db.expenses, LiveManualExpense);
    SameChildren(db, db.(entries := db.entries + [e]), entries + [e], []);
    SameChildren(db, db.(entries := db.entries + [e]), entries, []);
    SameChildren(db, db.(expenses := db.expenses + [x]), [], expenses + [x]);
    SameChildren(db, db.(expenses := db.expenses + [x]), [], expenses);
    FullSnoc(db, entries, e, expenses, x);
    IncomeSnoc(c, FullEntries(db, entries), FullEntry(db, e));
    OutflowSnoc(c, FullExpenses(db, expenses), FullExpense(db, x));
    OneEntry(c, FullEntry(db, e));
    OneExpense(c, FullExpense(db, x));
    hide EntryWorth, ExpenseWorth, MovedOf, FullEntry, FullExpense, FullEntries, FullExpenses, IncomeOf, OutflowOf,
      Where, IncomeFrom, OutflowFrom;
  }

  /** A deposit or withdrawal counts only with the cash row it is linked to. */
  lemma NewPiggyRowCounts(c: Context, db: Database, r: PiggyRow)
    ensures var before, after := WholeLedgerCash(c, db), WholeLedgerCash(c, db.(piggy := db.piggy + [r]));
      var now := r.on.month == c.today.month && r.on.date <= c.today.date;
      && after.income == before.income + (if r.kind == Withdraw && r.hasEntry && now then r.amount else 0)
      && after.expenses == before.expenses + (if r.kind == Deposit && r.hasExpense && now then r.amount else 0)
  {
    assert (db.piggy + [r])[..|db.piggy|] == db.piggy;
    var linked := LinkedMovements(db.piggy);
    MovedAppend(c, linked, Movement(r.kind, r.amount, r.on), Withdraw);
    MovedAppend(c, linked, Movement(r.kind, r.amount, r.on), Deposit);
    assert linked + [] == linked;
    var after := db.(piggy := db.piggy + [r]);
    SameChildren(db, after, Where(db.entries, ManualEntry), Where(db.expenses, LiveManualExpense));
    hide MovedOf, FullEntries, FullExpenses, IncomeOf, OutflowOf, Where;
  }

  /** A stored receipt, payment or split belongs to its own parent, and the hold months to their entry. */
  lemma NewChildrenReachTheirParent(db: Database, e: EntryRow, x: ExpenseRow, r: EventRow, p: EventRow, s: SplitRow)
    ensures var after := db.(receipts := db.receipts + [r], payments := db.payments + [p], splits := db.splits + [s]);
      && FullEntry(after, e).receipts == FullEntry(db, e).receipts
         + (if r.parent == e.id then [Event(Some(r.month), r.amount, Some(r.on))] else [])
      && FullExpense(after, x).payments == FullExpense(db, x).payments
         + (if p.parent == x.id then [Event(Some(p.month), p.amount, Some(p.on))] else [])
      && FullExpense(after, x).splits == FullExpense(db, x).splits
         + (if s.parent == x.id then [Split(s.isPix, s.amount)] else [])
    ensures FullEntry(db, e) == e.columns.(salaryHolds := Some(e.holds), receipts := FullEntry(db, e).receipts)
    ensures FullExpense(db, x)
      == x.columns.(splits := FullExpense(db, x).splits, payments := FullExpense(db, x).payments)
  {
    hide Events, Splits, ChildrenOf;
    ChildrenSnoc(db.receipts, EventParent, r, e.id);
    ChildrenSnoc(db.payments, EventParent, p, x.id);
    ChildrenSnoc(db.splits, SplitParent, s, x.id);
    var receipts, payments := ChildrenOf(db.receipts, EventParent, e.id), ChildrenOf(db.payments, EventParent, x.id);
    var splits := ChildrenOf(db.splits, SplitParent, x.id);
    EventsSnoc(receipts, r);
    EventsSnoc(payments, p);
    SplitsSnoc(splits, s);
    assert receipts + [] == receipts && payments + [] == payments && splits + [] == splits;
    assert Events(receipts) + [] == Events(receipts) && Events(payments) + [] == Events(payments);
    assert Splits(splits) + [] == Splits(splits);
  }

  lemma ChildrenSnoc<R>(rows: seq<R>, parentOf: R -> int, last: R, parent: int)
    ensures ChildrenOf(rows + [last], parentOf, parent)
      == ChildrenOf(rows, parentOf, parent) + if parentOf(last) == parent then [last] else []
  {
    hide Where;
    WhereSnoc(rows, HasParentIn(parentOf, {parent}), last);
  }

  lemma EventsSnoc(rows: seq<EventRow>, last: EventRow)
    ensures Events(rows + [last]) == Events(rows) + [Event(Some(last.month), last.amount, Some(last.on))]
  {
    assert (rows + [last])[..|rows|] == rows;
  }

  lemma SplitsSnoc(rows: seq<SplitRow>, last: SplitRow)
    ensures Splits(rows + [last]) == Splits(rows) + [Split(last.isPix, last.amount)]
  {
    assert (rows + [last])[..|rows|] == rows;
  }

  /** The day number stands for the same civil day, from year 100 on. */
  lemma NumberStandsForDay(day: Day)
    requires day.month >= 1200 && 1 <= day.date <= CivilDate.MonthLength(day.month / 12, day.month % 12)
    ensures CivilDate.MonthOf(NumberOf(day)) == day.month && CivilDate.DateFromDay(NumberOf(day)) == day.date
  {
    CivilDate.ComponentsOfDay(day.month / 12, day.month % 12, day.date);
    hide CivilDate.YearFromDay, CivilDate.MonthFromDay, CivilDate.DateFromDay, CivilDate.DayOf, CivilDate.MonthLength;
  }
}
