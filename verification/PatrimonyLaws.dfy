/** What one more ledger row does to the patrimony timeline, told in the columns of the row. */
module PatrimonyLaws {
  import opened Wrappers
  import opened Patrimony

  /** Everything a timeline is computed from: the rows of the user and the market series. */
  datatype History = History(storedBase: int, base: int, from: int, last: int, opening: real, expenses: seq<Expense>,
                             entries: seq<Entry>, internalExpenses: set<int>, internalEntries: set<int>,
                             piggy: seq<Movement>, assets: seq<AssetTx>, btc: seq<Point>, usd: seq<Point>,
                             cdi: seq<Point>, ipca: seq<Point>)

  /** The inputs of the timeline, its cash flows being the ones the flow builder pushes. */
  function Timeline(h: History): Inputs {
    Inputs(h.storedBase, h.base, h.from, h.last, h.opening,
           AllExpenseFlows(h.expenses, h.internalExpenses, h.storedBase, h.last)
           + AllEntryFlows(h.entries, h.internalEntries, h.storedBase, h.last),
           h.piggy, h.assets, h.btc, h.usd, h.cdi, h.ipca)
  }

  function RowAt(h: History, day: int): Row {
    RowOn(Timeline(h), day)
  }

  function QuoteOf(h: History, btc: bool, day: int): Option<Point> {
    LatestOn(if btc then h.btc else h.usd, day)
  }

  /** With no rows at all there is only the opening cash, and no asset is worth anything. */
  lemma {:induction false} EmptyHistory(h: History, day: int)
    requires h.expenses == [] && h.entries == [] && h.piggy == [] && h.assets == []
    ensures var r := RowAt(h, day);
      && r.cash == r.patrimony == h.opening && r.piggy == r.btc == r.usd == 0.0
      && (day <= h.base ==> r.cdi == r.ipca == h.opening)
  {
    hide LatestOn, CdiOn, IpcaOn;
    assert Timeline(h).flows == [];
    NothingIsHeld(h.btc, day);
    NothingIsHeld(h.usd, day);
    NothingIsHeld(h.btc, h.base);
    NothingIsHeld(h.usd, h.base);
    assert PatrimonyOn(Timeline(h), h.base) == h.opening;
    NoDayPassed(h, day);
  }

  lemma NothingIsHeld(points: seq<Point>, day: int)
    ensures ValueOn([], points, day) == 0.0
  {
    assert forall price :: Worth(0.0, price) == 0.0;
    hide Worth, LatestOn;
  }

  lemma NoDayPassed(h: History, day: int)
    ensures var a := Timeline(h);
      day <= h.base ==> CdiOn(a, day) == PatrimonyOn(a, h.base) && IpcaOn(a, day) == PatrimonyOn(a, h.base)
  {
    hide PatrimonyOn, Accrued, Indexed, ExternalSum, AllExpenseFlows, AllEntryFlows;
  }

  // ---- the columns ----

  function PixParts(splits: seq<Split>): real {
    if splits == [] then 0.0
    else
      var last := splits[|splits| - 1];
      PixParts(splits[..|splits| - 1]) + if last.pix then last.amount else 0.0
  }

  /** An unsplit expense leaves cash whole without a card and not at all with one; a split one by its PIX parts. */
  predicate LeavesCash(e: Expense, share: real) {
    && (e.splits == [] && !e.onCard ==> share == e.amount)
    && (e.splits == [] && e.onCard ==> share == 0.0)
    && (e.splits != [] ==> share == PixParts(e.splits))
  }

  /** The day of a system row: its own, else the day it was created. */
  predicate DatedOn(date: Option<int>, createdOn: int, when: int) {
    if date.Some? then when == date.value else when == createdOn
  }

  /** Positive amounts dated after `lo`, up to `day`. */
  function Moved(ms: seq<Dated>, lo: int, day: int): real {
    if ms == [] then 0.0
    else (if ms[0].amount > 0.0 && lo < ms[0].day <= day then ms[0].amount else 0.0) + Moved(ms[1..], lo, day)
  }

  lemma {:induction false} PixPartsHead(splits: seq<Split>)
    requires splits != []
    ensures PixParts(splits) == (if splits[0].pix then splits[0].amount else 0.0) + PixParts(splits[1..])
  {
    if |splits| > 1 {
      var front := splits[..|splits| - 1];
      PixPartsHead(front);
      assert front[1..] == splits[1..][..|splits| - 2];
    }
  }

  lemma {:induction false} PixPartsAreSummed(splits: seq<Split>)
    ensures PixShare(splits) == PixParts(splits)
  {
    if splits != [] {
      PixPartsAreSummed(splits[1..]);
      PixPartsHead(splits);
    }
  }

  // ---- sums of flows ----

  lemma {:induction false} SumsAppend(a: seq<Flow>, b: seq<Flow>, lo: int, hi: int)
    ensures FlowSum(a + b, lo, hi) == FlowSum(a, lo, hi) + FlowSum(b, lo, hi)
    ensures ExternalSum(a + b, lo, hi) == ExternalSum(a, lo, hi) + ExternalSum(b, lo, hi)
  {
    if a == [] {
      assert a + b == b;
    } else {
      assert (a + b)[1..] == a[1..] + b;
      SumsAppend(a[1..], b, lo, hi);
    }
  }

  lemma OneFlow(m: Dated, sign: real, external: bool, base: int, last: int, lo: int, hi: int)
    requires hi <= last
    ensures var flows := FlowOf(m, sign, external, base, last);
      var counts := m.amount > 0.0 && base < m.day && lo < m.day <= hi;
      && FlowSum(flows, lo, hi) == (if counts then Signed(sign, m.amount) else 0.0)
      && ExternalSum(flows, lo, hi) == (if counts && external then Signed(sign, m.amount) else 0.0)
  {
  }

  function Signed(sign: real, amount: real): real {
    sign * amount
  }

  lemma SignedAdds(sign: real, a: real, b: real)
    ensures Signed(sign, a + b) == Signed(sign, a) + Signed(sign, b) && Signed(sign, 0.0) == 0.0
  {
  }

  /** The flows of dated rows add up to the signed amounts that count. */
  lemma {:induction false} DatedFlows(ms: seq<Dated>, sign: real, external: bool, base: int, last: int, lo: int,
                                      hi: int)
    requires hi <= last
    ensures var from := if base < lo then lo else base;
      var flows := FlowsOf(ms, sign, external, base, last);
      && FlowSum(flows, lo, hi) == Signed(sign, Moved(ms, from, hi))
      && ExternalSum(flows, lo, hi) == if external then Signed(sign, Moved(ms, from, hi)) else 0.0
  {
    hide Signed, FlowOf, FlowSum, ExternalSum, Moved;
    var from := if base < lo then lo else base;
    if ms != [] {
      var n := |ms| - 1;
      DatedFlows(ms[..n], sign, external, base, last, lo, hi);
      SumsAppend(FlowsOf(ms[..n], sign, external, base, last), FlowOf(ms[n], sign, external, base, last), lo, hi);
      OneFlow(ms[n], sign, external, base, last, lo, hi);
      MovedSnoc(ms[..n], ms[n], from, hi);
      assert ms[..n] + [ms[n]] == ms;
      SignedAdds(sign, Moved(ms[..n], from, hi), ms[n].amount);
    } else {
      NothingFlows(sign, from, lo, hi);
    }
  }

  lemma NothingFlows(sign: real, from: int, lo: int, hi: int)
    ensures FlowSum([], lo, hi) == ExternalSum([], lo, hi) == 0.0 == Signed(sign, Moved([], from, hi))
  {
  }

  lemma {:induction false} MovedSnoc(ms: seq<Dated>, m: Dated, lo: int, day: int)
    ensures Moved(ms + [m], lo, day)
      == Moved(ms, lo, day) + if m.amount > 0.0 && lo < m.day <= day then m.amount else 0.0
  {
    if ms == [] {
      assert [] + [m] == [m];
    } else {
      assert (ms + [m])[1..] == ms[1..] + [m];
      MovedSnoc(ms[1..], m, lo, day);
    }
  }

  // ---- one more row, one more sum ----

  lemma NewExpenseFlows(h: History, e: Expense, lo: int, hi: int)
    ensures var before, after := Timeline(h).flows, Timeline(h.(expenses := h.expenses + [e])).flows;
      var added := ExpenseFlows(e, h.internalExpenses, h.storedBase, h.last);
      && FlowSum(after, lo, hi) == FlowSum(before, lo, hi) + FlowSum(added, lo, hi)
      && ExternalSum(after, lo, hi) == ExternalSum(before, lo, hi) + ExternalSum(added, lo, hi)
  {
    hide FlowSum, ExternalSum, ExpenseFlows;
    var spent := AllExpenseFlows(h.expenses, h.internalExpenses, h.storedBase, h.last);
    var earned := AllEntryFlows(h.entries, h.internalEntries, h.storedBase, h.last);
    var added := ExpenseFlows(e, h.internalExpenses, h.storedBase, h.last);
    assert (h.expenses + [e])[..|h.expenses|] == h.expenses;
    SumsAppend(spent, added, lo, hi);
    SumsAppend(spent + added, earned, lo, hi);
    SumsAppend(spent, earned, lo, hi);
  }

  lemma NewEntryFlows(h: History, e: Entry, lo: int, hi: int)
    ensures var before, after := Timeline(h).flows, Timeline(h.(entries := h.entries + [e])).flows;
      var added := EntryFlows(e, h.internalEntries, h.storedBase, h.last);
      && FlowSum(after, lo, hi) == FlowSum(before, lo, hi) + FlowSum(added, lo, hi)
      && ExternalSum(after, lo, hi) == ExternalSum(before, lo, hi) + ExternalSum(added, lo, hi)
  {
    hide FlowSum, ExternalSum, EntryFlows;
    var spent := AllExpenseFlows(h.expenses, h.internalExpenses, h.storedBase, h.last);
    var earned := AllEntryFlows(h.entries, h.internalEntries, h.storedBase, h.last);
    var added := EntryFlows(e, h.internalEntries, h.storedBase, h.last);
    assert (h.entries + [e])[..|h.entries|] == h.entries;
    SumsAppend(earned, added, lo, hi);
    SumsAppend(spent, earned + added, lo, hi);
    SumsAppend(spent, earned, lo, hi);
  }

  // ---- what each kind of row does to cash ----

  /** The first day whose flows count: the one after the later of the stored base and `lo`. */
  function After(h: History, lo: int): int {
    if h.storedBase < lo then lo else h.storedBase
  }

  /** A live system expense takes its cash share on its day; an archived one nothing. Neither comes from outside. */
  lemma SystemExpense(h: History, e: Expense, share: real, when: int, lo: int, hi: int)
    requires e.system && LeavesCash(e, share) && DatedOn(e.occurredOn, e.createdOn, when) && hi <= h.last
    ensures var flows := ExpenseFlows(e, h.internalExpenses, h.storedBase, h.last);
      && FlowSum(flows, lo, hi) == (if !e.archived && share > 0.0 && After(h, lo) < when <= hi then -share else 0.0)
      && ExternalSum(flows, lo, hi) == 0.0
  {
    PixPartsAreSummed(e.splits);
    OneFlow(Dated(share, when), -1.0, false, h.storedBase, h.last, lo, hi);
  }

  lemma SystemEntry(h: History, e: Entry, when: int, lo: int, hi: int)
    requires e.system && DatedOn(e.date, e.createdOn, when) && hi <= h.last
    ensures var flows := EntryFlows(e, h.internalEntries, h.storedBase, h.last);
      && FlowSum(flows, lo, hi)
         == (if !e.archived && e.amount > 0.0 && After(h, lo) < when <= hi then e.amount else 0.0)
      && ExternalSum(flows, lo, hi) == 0.0
  {
    OneFlow(Dated(e.amount, when), 1.0, false, h.storedBase, h.last, lo, hi);
  }

  /** A manual expense takes its payments, archived or not; they come from outside unless a transaction owns it. */
  lemma ManualExpense(h: History, e: Expense, lo: int, hi: int)
    requires !e.system && hi <= h.last
    ensures var flows := ExpenseFlows(e, h.internalExpenses, h.storedBase, h.last);
      var paid := Moved(e.payments, After(h, lo), hi);
      && FlowSum(flows, lo, hi) == -paid
      && ExternalSum(flows, lo, hi) == if e.id in h.internalExpenses then 0.0 else -paid
  {
    DatedFlows(e.payments, -1.0, e.id !in h.internalExpenses, h.storedBase, h.last, lo, hi);
  }

  lemma ManualEntry(h: History, e: Entry, lo: int, hi: int)
    requires !e.system && hi <= h.last
    ensures var flows := EntryFlows(e, h.internalEntries, h.storedBase, h.last);
      var received := Moved(e.receipts, After(h, lo), hi);
      && FlowSum(flows, lo, hi) == received
      && ExternalSum(flows, lo, hi) == if e.id in h.internalEntries then 0.0 else received
  {
    DatedFlows(e.receipts, 1.0, e.id !in h.internalEntries, h.storedBase, h.last, lo, hi);
  }

  /** One more row moves the cash of a day by what it took or brought up to it. */
  lemma CashOfNewExpense(h: History, e: Expense, day: int)
    requires h.base <= day <= h.last
    ensures CashOn(Timeline(h.(expenses := h.expenses + [e])), day) == CashOn(Timeline(h), day)
      + FlowSum(ExpenseFlows(e, h.internalExpenses, h.storedBase, h.last), CashStart(Timeline(h)), day)
  {
    NewExpenseFlows(h, e, CashStart(Timeline(h)), day);
    hide FlowSum, ExternalSum, ExpenseFlows;
  }

  lemma CashOfNewEntry(h: History, e: Entry, day: int)
    requires h.base <= day <= h.last
    ensures CashOn(Timeline(h.(entries := h.entries + [e])), day) == CashOn(Timeline(h), day)
      + FlowSum(EntryFlows(e, h.internalEntries, h.storedBase, h.last), CashStart(Timeline(h)), day)
  {
    NewEntryFlows(h, e, CashStart(Timeline(h)), day);
    hide FlowSum, ExternalSum, EntryFlows;
  }

  // ---- what moves the benchmarks ----

  /** What comes from outside on one day. */
  function OutsideOn(a: Inputs, day: int): real {
    ExternalSum(a.flows, day - 1, day)
  }

  /** The benchmarks depend on the patrimony of the base day and on what comes from outside after it. */
  lemma {:induction false} SameBenchmarks(a: Inputs, b: Inputs, day: int)
    requires a.base == b.base <= day && a.cdi == b.cdi && a.ipca == b.ipca
    requires PatrimonyOn(a, a.base) == PatrimonyOn(b, a.base)
    requires forall d :: a.base < d <= day ==> OutsideOn(a, d) == OutsideOn(b, d)
    ensures CdiOn(a, day) == CdiOn(b, day) && IpcaOn(a, day) == IpcaOn(b, day)
    decreases day - a.base
  {
    hide PatrimonyOn, ExternalSum, PointOn, LatestOn, Indexed, Accrued;
    if a.base < day {
      SameBenchmarks(a, b, day - 1);
      assert OutsideOn(a, day) == OutsideOn(b, day);
    }
  }

  // ---- trades ----

  lemma StepsOfOne(t: AssetTx, btc: bool)
    ensures AssetSteps([t], btc)
      == if t.btc == btc then [Step(t.day, if t.sell then -t.quantity else t.quantity)] else []
  {
    assert [t][1..] == [];
  }

  lemma {:induction false} StepsOfOneMore(txs: seq<AssetTx>, t: AssetTx, btc: bool)
    ensures AssetSteps(txs + [t], btc) == AssetSteps(txs, btc) + AssetSteps([t], btc)
  {
    var all := txs + [t];
    if txs == [] {
      assert all == [t];
    } else {
      assert all[1..] == txs[1..] + [t];
      StepsOfOneMore(txs[1..], t, btc);
      var rest, own := AssetSteps(txs[1..], btc), AssetSteps([t], btc);
      StepsOfOne(txs[0], btc);
      assert AssetSteps(all, btc) == AssetSteps([txs[0]], btc) + (rest + own);
    }
  }

  function Valued(t: AssetTx, price: real): real {
    t.quantity * price
  }

  /** What a trade is worth at a price from its day on: a purchase counts up, a sale down. */
  function TradeWorth(t: AssetTx, day: int, price: real): real {
    if t.day > day then 0.0 else if t.sell then -Valued(t, price) else Valued(t, price)
  }

  lemma HoldingMoves(txs: seq<AssetTx>, t: AssetTx, btc: bool, points: seq<Point>, day: int)
    requires LatestOn(points, day).Some?
    ensures ValueOn(AssetSteps(txs + [t], btc), points, day) == ValueOn(AssetSteps(txs, btc), points, day)
      + if t.btc == btc then TradeWorth(t, day, LatestOn(points, day).value.value) else 0.0
  {
    hide LatestOn, AssetSteps, TotalUpTo;
    var quantity, price := if t.sell then -t.quantity else t.quantity, LatestOn(points, day).value.value;
    StepsOfOneMore(txs, t, btc);
    StepsOfOne(t, btc);
    if t.btc == btc {
      TotalSnoc(AssetSteps(txs, btc), Step(t.day, quantity), day);
      MoreIsWorthMore(TotalUpTo(AssetSteps(txs, btc), day), quantity, price);
    } else {
      assert AssetSteps(txs, btc) + [] == AssetSteps(txs, btc);
    }
  }

  lemma MoreIsWorthMore(held: real, quantity: real, price: real)
    ensures Worth(held + quantity, price) == Worth(held, price) + quantity * price
  {
  }

  /** A purchase raises and a sale lowers the value of its asset, from its day on and at the quote of each day. */
  lemma TradeMovesItsAsset(h: History, t: AssetTx, day: int)
    requires QuoteOf(h, true, day).Some? && QuoteOf(h, false, day).Some?
    ensures var r, s := RowAt(h, day), RowAt(h.(assets := h.assets + [t]), day);
      var moved := TradeWorth(t, day, QuoteOf(h, t.btc, day).value.value);
      && s.btc == r.btc + (if t.btc then moved else 0.0) && s.usd == r.usd + (if t.btc then 0.0 else moved)
      && s.cash == r.cash && s.piggy == r.piggy && s.patrimony == r.patrimony + moved && s.date == r.date == day
  {
    HoldingMoves(h.assets, t, true, h.btc, day);
    HoldingMoves(h.assets, t, false, h.usd, day);
    hide ValueOn, CdiOn, IpcaOn, TradeWorth, LatestOn, FlowSum, AllExpenseFlows, AllEntryFlows, TotalUpTo, PiggySteps;
  }

  /** After the base day a trade leaves both benchmarks alone. */
  lemma TradeLeavesBenchmarks(h: History, t: AssetTx, day: int)
    requires h.base <= day && t.day > h.base && QuoteOf(h, true, h.base).Some? && QuoteOf(h, false, h.base).Some?
    ensures var r, s := RowAt(h, day), RowAt(h.(assets := h.assets + [t]), day);
      s.cdi == r.cdi && s.ipca == r.ipca
  {
    TradeMovesItsAsset(h, t, h.base);
    hide PatrimonyOn, AllExpenseFlows, AllEntryFlows, CdiOn, IpcaOn, LatestOn;
    SameBenchmarks(Timeline(h), Timeline(h.(assets := h.assets + [t])), day);
  }

  /**
   * A sale with its system entry at the quote of the day leaves the patrimony of that day unchanged; from then on it
   * differs by what the quote moved on the quantity sold. Before its day nothing changes.
   */
  lemma SaleMovesValueToCash(h: History, t: AssetTx, e: Entry, day: int)
    requires h.base <= day <= h.last && h.storedBase < t.day && t.sell
    requires QuoteOf(h, true, day).Some? && QuoteOf(h, false, day).Some? && QuoteOf(h, t.btc, t.day).Some?
    requires e.system && !e.archived && DatedOn(e.date, e.createdOn, t.day)
    requires e.amount == Valued(t, QuoteOf(h, t.btc, t.day).value.value) > 0.0
    ensures var r, s := RowAt(h, day), RowAt(h.(assets := h.assets + [t], entries := h.entries + [e]), day);
      && s.cash == r.cash + (if t.day <= day then e.amount else 0.0) && s.piggy == r.piggy
      && s.patrimony == r.patrimony
         + (if t.day <= day then e.amount - Valued(t, QuoteOf(h, t.btc, day).value.value) else 0.0)
      && (day == t.day ==> s.patrimony == r.patrimony)
  {
    var sold := h.(assets := h.assets + [t]);
    TradeMovesItsAsset(h, t, day);
    SystemEntry(sold, e, t.day, CashStart(Timeline(h)), day);
    CashOfNewEntry(sold, e, day);
    hide ValueOn, CdiOn, IpcaOn, LatestOn, FlowSum, AllExpenseFlows, AllEntryFlows, TotalUpTo, PiggySteps, EntryFlows,
      ExpenseFlows, Valued;
  }

  lemma PurchaseMovesCashToValue(h: History, t: AssetTx, e: Expense, day: int)
    requires h.base <= day <= h.last && h.storedBase < t.day && !t.sell
    requires QuoteOf(h, true, day).Some? && QuoteOf(h, false, day).Some? && QuoteOf(h, t.btc, t.day).Some?
    requires e.system && !e.archived && DatedOn(e.occurredOn, e.createdOn, t.day) && e.splits == [] && !e.onCard
    requires e.amount == Valued(t, QuoteOf(h, t.btc, t.day).value.value) > 0.0
    ensures var r, s := RowAt(h, day), RowAt(h.(assets := h.assets + [t], expenses := h.expenses + [e]), day);
      && s.cash == r.cash - (if t.day <= day then e.amount else 0.0) && s.piggy == r.piggy
      && s.patrimony == r.patrimony
         + (if t.day <= day then Valued(t, QuoteOf(h, t.btc, day).value.value) - e.amount else 0.0)
      && (day == t.day ==> s.patrimony == r.patrimony)
  {
    var bought := h.(assets := h.assets + [t]);
    TradeMovesItsAsset(h, t, day);
    SystemExpense(bought, e, e.amount, t.day, CashStart(Timeline(h)), day);
    CashOfNewExpense(bought, e, day);
    hide ValueOn, CdiOn, IpcaOn, LatestOn, FlowSum, AllExpenseFlows, AllEntryFlows, TotalUpTo, PiggySteps, EntryFlows,
      ExpenseFlows, Valued;
  }

  // ---- savings ----

  lemma SavingsOfNewMovement(a: Inputs, m: Movement, day: int)
    ensures PiggyOn(a.(piggy := a.piggy + [m]), day)
      == PiggyOn(a, day) + if m.day > day then 0.0 else if m.withdrawal then -m.amount else m.amount
  {
    PiggyStepsSnoc(a.piggy, m);
    TotalSnoc(PiggySteps(a.piggy), Step(m.day, if m.withdrawal then -m.amount else m.amount), day);
    hide TotalUpTo, PiggySteps;
  }

  /** Cash and savings of one day when a movement comes with the entry or the expense the system writes for it. */
  lemma WithdrawalMoves(h: History, m: Movement, e: Entry, day: int)
    requires h.base <= day <= h.last && m.withdrawal && m.amount > 0.0 && h.storedBase < m.day
    requires e.system && !e.archived && e.amount == m.amount && DatedOn(e.date, e.createdOn, m.day)
    ensures var a, b := Timeline(h), Timeline(h.(piggy := h.piggy + [m], entries := h.entries + [e]));
      var moved := if m.day <= day then m.amount else 0.0;
      && CashOn(b, day) == CashOn(a, day) + moved && PiggyOn(b, day) == PiggyOn(a, day) - moved
      && PatrimonyOn(b, day) == PatrimonyOn(a, day)
      && OutsideOn(b, day) == OutsideOn(a, day)
  {
    var drawn := h.(piggy := h.piggy + [m]);
    SavingsOfNewMovement(Timeline(h), m, day);
    SystemEntry(drawn, e, m.day, CashStart(Timeline(h)), day);
    SystemEntry(drawn, e, m.day, day - 1, day);
    CashOfNewEntry(drawn, e, day);
    NewEntryFlows(drawn, e, day - 1, day);
    hide ValueOn, FlowSum, ExternalSum, AllExpenseFlows, AllEntryFlows, TotalUpTo, PiggySteps, EntryFlows;
  }

  lemma DepositMoves(h: History, m: Movement, e: Expense, day: int)
    requires h.base <= day <= h.last && !m.withdrawal && m.amount > 0.0 && h.storedBase < m.day
    requires e.system && !e.archived && LeavesCash(e, m.amount) && DatedOn(e.occurredOn, e.createdOn, m.day)
    ensures var a, b := Timeline(h), Timeline(h.(piggy := h.piggy + [m], expenses := h.expenses + [e]));
      var moved := if m.day <= day then m.amount else 0.0;
      && CashOn(b, day) == CashOn(a, day) - moved && PiggyOn(b, day) == PiggyOn(a, day) + moved
      && PatrimonyOn(b, day) == PatrimonyOn(a, day)
      && OutsideOn(b, day) == OutsideOn(a, day)
  {
    var saved := h.(piggy := h.piggy + [m]);
    SavingsOfNewMovement(Timeline(h), m, day);
    SystemExpense(saved, e, m.amount, m.day, CashStart(Timeline(h)), day);
    SystemExpense(saved, e, m.amount, m.day, day - 1, day);
    CashOfNewExpense(saved, e, day);
    NewExpenseFlows(saved, e, day - 1, day);
    hide ValueOn, FlowSum, ExternalSum, AllExpenseFlows, AllEntryFlows, TotalUpTo, PiggySteps, ExpenseFlows, LeavesCash;
  }

  /** A withdrawal moves savings to cash from its day on; patrimony, CDI and IPCA of every row stay as they were. */
  lemma WithdrawalLeavesRows(h: History, m: Movement, e: Entry, day: int)
    requires h.base <= day <= h.last && m.withdrawal && m.amount > 0.0 && h.storedBase < m.day
    requires e.system && !e.archived && e.amount == m.amount && DatedOn(e.date, e.createdOn, m.day)
    ensures var r, s := RowAt(h, day), RowAt(h.(piggy := h.piggy + [m], entries := h.entries + [e]), day);
      var moved := if m.day <= day then m.amount else 0.0;
      s == r.(cash := r.cash + moved, piggy := r.piggy - moved)
  {
    var after := h.(piggy := h.piggy + [m], entries := h.entries + [e]);
    WithdrawalMoves(h, m, e, h.base);
    WithdrawalMoves(h, m, e, day);
    forall d | h.base < d <= day
      ensures OutsideOn(Timeline(h), d) == OutsideOn(Timeline(after), d)
    {
      WithdrawalMoves(h, m, e, d);
    }
    hide PatrimonyOn, CashOn, PiggyOn, ExternalSum, CdiOn, IpcaOn, AllExpenseFlows, AllEntryFlows;
    SameBenchmarks(Timeline(h), Timeline(after), day);
  }

  /** A deposit moves cash to savings the same way. */
  lemma DepositLeavesRows(h: History, m: Movement, e: Expense, day: int)
    requires h.base <= day <= h.last && !m.withdrawal && m.amount > 0.0 && h.storedBase < m.day
    requires e.system && !e.archived && LeavesCash(e, m.amount) && DatedOn(e.occurredOn, e.createdOn, m.day)
    ensures var r, s := RowAt(h, day), RowAt(h.(piggy := h.piggy + [m], expenses := h.expenses + [e]), day);
      var moved := if m.day <= day then m.amount else 0.0;
      s == r.(cash := r.cash - moved, piggy := r.piggy + moved)
  {
    var after := h.(piggy := h.piggy + [m], expenses := h.expenses + [e]);
    DepositMoves(h, m, e, h.base);
    DepositMoves(h, m, e, day);
    forall d | h.base < d <= day
      ensures OutsideOn(Timeline(h), d) == OutsideOn(Timeline(after), d)
    {
      DepositMoves(h, m, e, d);
    }
    hide PatrimonyOn, CashOn, PiggyOn, ExternalSum, CdiOn, IpcaOn, AllExpenseFlows, AllEntryFlows, LeavesCash;
    SameBenchmarks(Timeline(h), Timeline(after), day);
  }

  // ---- money from outside ----

  /** A manual entry raises cash and patrimony by its receipts after the stored base; a manual expense lowers them. */
  lemma ManualRowsMoveCash(h: History, e: Entry, x: Expense, day: int)
    requires h.base <= day <= h.last && !e.system && !x.system
    ensures var r := RowAt(h, day);
      && RowAt(h.(entries := h.entries + [e]), day).cash == r.cash + Moved(e.receipts, h.storedBase, day)
      && RowAt(h.(entries := h.entries + [e]), day).patrimony == r.patrimony + Moved(e.receipts, h.storedBase, day)
      && RowAt(h.(expenses := h.expenses + [x]), day).cash == r.cash - Moved(x.payments, h.storedBase, day)
      && RowAt(h.(expenses := h.expenses + [x]), day).patrimony == r.patrimony - Moved(x.payments, h.storedBase, day)
  {
    ManualEntry(h, e, CashStart(Timeline(h)), day);
    ManualExpense(h, x, CashStart(Timeline(h)), day);
    CashOfNewEntry(h, e, day);
    CashOfNewExpense(h, x, day);
    hide ValueOn, CdiOn, IpcaOn, FlowSum, AllExpenseFlows, AllEntryFlows, TotalUpTo, PiggySteps, EntryFlows,
      ExpenseFlows;
  }

  /**
   * Money from outside enters the benchmarks on its day, the CDI line before the rate of that day and the IPCA line
   * after a new index; a row that a transaction owns enters neither.
   */
  lemma OutsideMoneyEntersBenchmarks(h: History, e: Entry, r: Dated)
    requires !e.system && e.receipts == [r] && r.amount > 0.0
    requires h.storedBase < r.day && h.base < r.day <= h.last
    ensures var a, b := Timeline(h), Timeline(h.(entries := h.entries + [e]));
      var outside := if e.id in h.internalEntries then 0.0 else r.amount;
      && CdiOn(b, r.day) == Accrued(CdiOn(a, r.day - 1) + OutsideOn(a, r.day) + outside,
                                    PointOn(h.cdi, r.day))
      && IpcaOn(b, r.day) == IpcaOn(a, r.day) + outside
  {
    var a, b := Timeline(h), Timeline(h.(entries := h.entries + [e]));
    forall d | h.base <= d <= r.day
      ensures OutsideOn(b, d) == OutsideOn(a, d) + if d == r.day && e.id !in h.internalEntries then r.amount else 0.0
    {
      OutsideOfOneReceipt(h, e, r, d);
    }
    ManualRowsMoveBase(h, e, r);
    hide PatrimonyOn, OutsideOn, AllExpenseFlows, AllEntryFlows, PointOn, LatestOn, Indexed, Accrued;
    SameBenchmarks(a, b, r.day - 1);
    DayOfBenchmarks(a, r.day);
    DayOfBenchmarks(b, r.day);
  }

  lemma DayOfBenchmarks(a: Inputs, day: int)
    requires day > a.base
    ensures CdiOn(a, day) == Accrued(CdiOn(a, day - 1) + OutsideOn(a, day), PointOn(a.cdi, day))
    ensures IpcaOn(a, day)
      == Indexed(IpcaOn(a, day - 1), LatestOn(a.ipca, day - 1), PointOn(a.ipca, day)) + OutsideOn(a, day)
  {
    hide ExternalSum, PointOn, LatestOn, Indexed, Accrued, PatrimonyOn;
  }

  lemma OutsideOfOneReceipt(h: History, e: Entry, r: Dated, d: int)
    requires !e.system && e.receipts == [r] && r.amount > 0.0
    requires h.storedBase < r.day && h.base < r.day <= h.last && h.base <= d <= r.day
    ensures OutsideOn(Timeline(h.(entries := h.entries + [e])), d) == OutsideOn(Timeline(h), d)
      + if d == r.day && e.id !in h.internalEntries then r.amount else 0.0
  {
    ManualEntry(h, e, d - 1, d);
    NewEntryFlows(h, e, d - 1, d);
    assert e.receipts[1..] == [];
    hide ExternalSum, FlowSum, AllExpenseFlows, AllEntryFlows, EntryFlows;
  }

  lemma ManualRowsMoveBase(h: History, e: Entry, r: Dated)
    requires !e.system && e.receipts == [r] && h.base < r.day <= h.last
    ensures PatrimonyOn(Timeline(h.(entries := h.entries + [e])), h.base) == PatrimonyOn(Timeline(h), h.base)
  {
    ManualEntry(h, e, CashStart(Timeline(h)), h.base);
    CashOfNewEntry(h, e, h.base);
    assert e.receipts[1..] == [];
    hide ValueOn, FlowSum, AllExpenseFlows, AllEntryFlows, TotalUpTo, PiggySteps, EntryFlows;
  }
}
