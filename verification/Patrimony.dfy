/** The daily patrimony timeline: moving pointers against the direct definition of every row. */
module Patrimony {
  import opened Wrappers

  // ---- running totals ----

  /** Days are civil day numbers, amounts and quantities exact. */
  datatype Step = Step(day: int, delta: real)

  /** Total of every step dated on or before a day. */
  function TotalUpTo(items: seq<Step>, day: int): real {
    if items == [] then 0.0 else (if items[0].day <= day then items[0].delta else 0.0) + TotalUpTo(items[1..], day)
  }

  predicate InOrder(items: seq<Step>) {
    forall i, j :: 0 <= i < j < |items| ==> items[i].day <= items[j].day
  }

  function Insert(x: Step, sorted: seq<Step>): seq<Step> {
    if sorted == [] || x.day <= sorted[0].day then [x] + sorted else [sorted[0]] + Insert(x, sorted[1..])
  }

  function Sorted(items: seq<Step>): seq<Step> {
    if items == [] then [] else Insert(items[0], Sorted(items[1..]))
  }

  predicate AllFrom(items: seq<Step>, day: int) {
    forall i :: 0 <= i < |items| ==> items[i].day >= day
  }

  lemma {:induction false} InsertKeepsOrder(x: Step, sorted: seq<Step>, low: int)
    requires InOrder(sorted) && AllFrom(sorted, low) && x.day >= low
    ensures InOrder(Insert(x, sorted)) && AllFrom(Insert(x, sorted), low)
  {
    if sorted == [] || x.day <= sorted[0].day {
    } else {
      InsertKeepsOrder(x, sorted[1..], sorted[0].day);
    }
  }

  lemma {:induction false} InsertKeepsTotal(x: Step, sorted: seq<Step>, day: int)
    ensures TotalUpTo(Insert(x, sorted), day) == TotalUpTo(sorted, day) + (if x.day <= day then x.delta else 0.0)
  {
    if sorted == [] || x.day <= sorted[0].day {
      assert ([x] + sorted)[1..] == sorted;
    } else {
      var rest := Insert(x, sorted[1..]);
      InsertKeepsTotal(x, sorted[1..], day);
      assert ([sorted[0]] + rest)[1..] == rest;
    }
  }

  function Lowest(items: seq<Step>): int {
    if items == [] then 0
    else
      var rest := Lowest(items[1..]);
      if items[0].day < rest then items[0].day else rest
  }

  lemma {:induction false} SortedIsInOrder(items: seq<Step>)
    ensures InOrder(Sorted(items)) && AllFrom(Sorted(items), Lowest(items))
  {
    if items != [] {
      SortedIsInOrder(items[1..]);
      assert AllFrom(Sorted(items[1..]), Lowest(items));
      InsertKeepsOrder(items[0], Sorted(items[1..]), Lowest(items));
    }
  }

  lemma {:induction false} SortedKeepsTotal(items: seq<Step>, day: int)
    ensures TotalUpTo(Sorted(items), day) == TotalUpTo(items, day)
  {
    if items != [] {
      SortedKeepsTotal(items[1..], day);
      InsertKeepsTotal(items[0], Sorted(items[1..]), day);
    }
  }

  lemma {:induction false} TotalSnoc(items: seq<Step>, x: Step, day: int)
    ensures TotalUpTo(items + [x], day) == TotalUpTo(items, day) + (if x.day <= day then x.delta else 0.0)
  {
    if items == [] {
      assert [] + [x] == [x];
    } else {
      assert (items + [x])[1..] == items[1..] + [x];
      TotalSnoc(items[1..], x, day);
    }
  }

  /** Steps after a day add nothing to its total. */
  lemma {:induction false} LaterStepsAreIgnored(items: seq<Step>, k: nat, day: int)
    requires InOrder(items) && k <= |items| && (k < |items| ==> items[k].day > day)
    ensures TotalUpTo(items, day) == TotalUpTo(items[..k], day)
    decreases |items| - k
  {
    if k < |items| {
      LaterStepsAreIgnored(items, k + 1, day);
      assert items[..k + 1] == items[..k] + [items[k]];
      TotalSnoc(items[..k], items[k], day);
    } else {
      assert items[..k] == items;
    }
  }

  lemma {:induction false} EarlierStepsAreKept(items: seq<Step>, day: int, later: int)
    requires day <= later && forall i :: 0 <= i < |items| ==> items[i].day <= day
    ensures TotalUpTo(items, later) == TotalUpTo(items, day)
  {
    if items != [] {
      EarlierStepsAreKept(items[1..], day, later);
    }
  }

  lemma NothingTotalsZero(items: seq<Step>, day: int)
    requires |items| == 0
    ensures TotalUpTo(items, day) == 0.0
  {
  }

  /** A total that only moves forward. */
  class RunningTotal {
    var sorted: seq<Step>
    var index: nat
    var total: real
    ghost var items: seq<Step>
    ghost var reached: Option<int>

    ghost predicate Valid()
      reads this
    {
      && InOrder(sorted) && index <= |sorted|
      && (forall day :: TotalUpTo(sorted, day) == TotalUpTo(items, day))
      && (reached.None? ==> index == 0 && total == 0.0)
      && (reached.Some? ==>
            && (forall i :: 0 <= i < index ==> sorted[i].day <= reached.value)
            && total == TotalUpTo(sorted[..index], reached.value))
    }

    constructor (steps: seq<Step>)
      ensures Valid() && items == steps && reached == None
    {
      sorted, index, total := Sorted(steps), 0, 0.0;
      items, reached := steps, None;
      new;
      SortedIsInOrder(steps);
      forall day
        ensures TotalUpTo(sorted, day) == TotalUpTo(items, day)
      {
        SortedKeepsTotal(steps, day);
      }
    }

    /** Total of every step dated on or before `day`; days may not decrease. */
    method At(day: int) returns (t: real)
      requires Valid() && (reached.Some? ==> reached.value <= day)
      modifies this
      ensures Valid() && items == old(items) && reached == Some(day)
      ensures t == TotalUpTo(items, day)
    {
      hide TotalUpTo, InOrder;
      if reached.Some? {
        EarlierStepsAreKept(sorted[..index], reached.value, day);
      } else {
        NothingTotalsZero(sorted[..index], day);
      }
      while index < |sorted| && sorted[index].day <= day
        invariant index <= |sorted| && sorted == old(sorted) && items == old(items)
        invariant forall i :: 0 <= i < index ==> sorted[i].day <= day
        invariant total == TotalUpTo(sorted[..index], day)
      {
        assert sorted[..index + 1] == sorted[..index] + [sorted[index]];
        TotalSnoc(sorted[..index], sorted[index], day);
        total := total + sorted[index].delta;
        index := index + 1;
      }
      reached := Some(day);
      LaterStepsAreIgnored(sorted, index, day);
      return total;
    }
  }

  // ---- quotes and indices ----

  datatype Point = Point(date: int, value: real)

  /** Series come strictly sorted by date. */
  predicate IsSeries(points: seq<Point>) {
    forall i, j :: 0 <= i < j < |points| ==> points[i].date < points[j].date
  }

  /** The latest point on or before a day. */
  function LatestOn(points: seq<Point>, day: int): Option<Point> {
    if points == [] then None
    else if points[|points| - 1].date <= day then Some(points[|points| - 1])
    else LatestOn(points[..|points| - 1], day)
  }

  lemma {:induction false} LatestAt(points: seq<Point>, k: int, day: int)
    requires IsSeries(points) && -1 <= k < |points|
    requires k >= 0 ==> points[k].date <= day
    requires k + 1 < |points| ==> points[k + 1].date > day
    ensures LatestOn(points, day) == if k >= 0 then Some(points[k]) else None
  {
    if points != [] && k != |points| - 1 {
      LatestAt(points[..|points| - 1], k, day);
    }
  }

  /** A pointer into a series, read at ascending days. */
  class PointCursor {
    const points: seq<Point>
    var index: int
    ghost var reached: Option<int>

    ghost predicate Valid()
      reads this
    {
      && IsSeries(points) && -1 <= index < |points|
      && (reached.None? ==> index == -1)
      && (reached.Some? && index >= 0 ==> points[index].date <= reached.value)
    }

    constructor (series: seq<Point>)
      requires IsSeries(series)
      ensures Valid() && points == series && reached == None
    {
      points, index, reached := series, -1, None;
    }

    method At(day: int) returns (found: Option<Point>)
      requires Valid() && (reached.Some? ==> reached.value <= day)
      modifies this
      ensures Valid() && reached == Some(day) && found == LatestOn(points, day)
    {
      while index + 1 < |points| && points[index + 1].date <= day
        invariant -1 <= index < |points| && (index >= 0 ==> points[index].date <= day)
      {
        index := index + 1;
      }
      reached := Some(day);
      LatestAt(points, index, day);
      return if index >= 0 then Some(points[index]) else None;
    }
  }

  // ---- cash flows ----

  datatype Flow = Flow(date: int, amount: real, external: bool)

  datatype Dated = Dated(amount: real, day: int)
  datatype Split = Split(pix: bool, amount: real)

  /** An expense with its payments, an entry with its receipts. */
  datatype Expense = Expense(id: int, system: bool, archived: bool, amount: real, onCard: bool, splits: seq<Split>,
                             occurredOn: Option<int>, createdOn: int, payments: seq<Dated>)
  datatype Entry = Entry(id: int, system: bool, archived: bool, amount: real, date: Option<int>, createdOn: int,
                         receipts: seq<Dated>)

  function PixShare(splits: seq<Split>): real {
    if splits == [] then 0.0 else (if splits[0].pix then splits[0].amount else 0.0) + PixShare(splits[1..])
  }

  function CashShare(e: Expense): real {
    if e.splits != [] then PixShare(e.splits) else if e.onCard then 0.0 else e.amount
  }

  /** A movement counts when it is positive and dated after the base day, up to the last day. */
  function FlowOf(m: Dated, sign: real, external: bool, base: int, last: int): seq<Flow> {
    if m.amount > 0.0 && base < m.day <= last then [Flow(m.day, sign * m.amount, external)] else []
  }

  function FlowsOf(ms: seq<Dated>, sign: real, external: bool, base: int, last: int): seq<Flow> {
    if ms == [] then []
    else FlowsOf(ms[..|ms| - 1], sign, external, base, last) + FlowOf(ms[|ms| - 1], sign, external, base, last)
  }

  function ExpenseFlows(e: Expense, internal: set<int>, base: int, last: int): seq<Flow> {
    if e.system then
      if e.archived then [] else FlowOf(Dated(CashShare(e), e.occurredOn.GetOr(e.createdOn)), -1.0, false, base, last)
    else FlowsOf(e.payments, -1.0, e.id !in internal, base, last)
  }

  function EntryFlows(e: Entry, internal: set<int>, base: int, last: int): seq<Flow> {
    if e.system then
      if e.archived then [] else FlowOf(Dated(e.amount, e.date.GetOr(e.createdOn)), 1.0, false, base, last)
    else FlowsOf(e.receipts, 1.0, e.id !in internal, base, last)
  }

  function AllExpenseFlows(expenses: seq<Expense>, internal: set<int>, base: int, last: int): seq<Flow> {
    if expenses == [] then []
    else
      AllExpenseFlows(expenses[..|expenses| - 1], internal, base, last)
      + ExpenseFlows(expenses[|expenses| - 1], internal, base, last)
  }

  function AllEntryFlows(entries: seq<Entry>, internal: set<int>, base: int, last: int): seq<Flow> {
    if entries == [] then []
    else
      AllEntryFlows(entries[..|entries| - 1], internal, base, last)
      + EntryFlows(entries[|entries| - 1], internal, base, last)
  }

  lemma FlowsOfSnoc(ms: seq<Dated>, i: nat, sign: real, external: bool, base: int, last: int)
    requires i < |ms|
    ensures FlowsOf(ms[..i + 1], sign, external, base, last)
      == FlowsOf(ms[..i], sign, external, base, last) + FlowOf(ms[i], sign, external, base, last)
  {
    assert ms[..i + 1][..i] == ms[..i];
  }

  lemma ExpenseFlowsSnoc(expenses: seq<Expense>, i: nat, internal: set<int>, base: int, last: int)
    requires i < |expenses|
    ensures AllExpenseFlows(expenses[..i + 1], internal, base, last)
      == AllExpenseFlows(expenses[..i], internal, base, last) + ExpenseFlows(expenses[i], internal, base, last)
  {
    assert expenses[..i + 1][..i] == expenses[..i];
  }

  lemma EntryFlowsSnoc(entries: seq<Entry>, i: nat, internal: set<int>, base: int, last: int)
    requires i < |entries|
    ensures AllEntryFlows(entries[..i + 1], internal, base, last)
      == AllEntryFlows(entries[..i], internal, base, last) + EntryFlows(entries[i], internal, base, last)
  {
    assert entries[..i + 1][..i] == entries[..i];
  }

  method PushDated(flows: seq<Flow>, ms: seq<Dated>, sign: real, external: bool, base: int, last: int)
    returns (all: seq<Flow>)
    ensures all == flows + FlowsOf(ms, sign, external, base, last)
  {
    all := flows;
    for i := 0 to |ms|
      invariant all == flows + FlowsOf(ms[..i], sign, external, base, last)
    {
      FlowsOfSnoc(ms, i, sign, external, base, last);
      ghost var before := FlowsOf(ms[..i], sign, external, base, last);
      if ms[i].amount > 0.0 && ms[i].day > base && ms[i].day <= last {
        all := all + [Flow(ms[i].day, sign * ms[i].amount, external)];
      }
      assert all == flows + (before + FlowOf(ms[i], sign, external, base, last));
    }
    assert ms[..|ms|] == ms;
  }

  method PushExpense(flows: seq<Flow>, e: Expense, internal: set<int>, base: int, last: int) returns (all: seq<Flow>)
    ensures all == flows + ExpenseFlows(e, internal, base, last)
  {
    all := flows;
    if e.system {
      if e.archived {
        return;
      }
      var amount, when := CashShare(e), e.occurredOn.GetOr(e.createdOn);
      if amount > 0.0 && when > base && when <= last {
        all := all + [Flow(when, -1.0 * amount, false)];
      }
    } else if |e.payments| > 0 {
      all := PushDated(all, e.payments, -1.0, e.id !in internal, base, last);
    }
  }

  method PushEntry(flows: seq<Flow>, e: Entry, internal: set<int>, base: int, last: int) returns (all: seq<Flow>)
    ensures all == flows + EntryFlows(e, internal, base, last)
  {
    all := flows;
    if e.system {
      if e.archived {
        return;
      }
      var when := e.date.GetOr(e.createdOn);
      if e.amount > 0.0 && when > base && when <= last {
        all := all + [Flow(when, 1.0 * e.amount, false)];
      }
    } else if |e.receipts| > 0 {
      all := PushDated(all, e.receipts, 1.0, e.id !in internal, base, last);
    }
  }

  method BuildCashFlows(expenses: seq<Expense>, entries: seq<Entry>, internalExpenses: set<int>,
                        internalEntries: set<int>, base: int, last: int) returns (flows: seq<Flow>)
    ensures flows == AllExpenseFlows(expenses, internalExpenses, base, last)
                     + AllEntryFlows(entries, internalEntries, base, last)
  {
    hide ExpenseFlows, EntryFlows;
    flows := [];
    for i := 0 to |expenses|
      invariant flows == AllExpenseFlows(expenses[..i], internalExpenses, base, last)
    {
      ExpenseFlowsSnoc(expenses, i, internalExpenses, base, last);
      flows := PushExpense(flows, expenses[i], internalExpenses, base, last);
    }
    assert expenses[..|expenses|] == expenses;
    ghost var spent := flows;
    for i := 0 to |entries|
      invariant flows == spent + AllEntryFlows(entries[..i], internalEntries, base, last)
    {
      EntryFlowsSnoc(entries, i, internalEntries, base, last);
      ghost var before := AllEntryFlows(entries[..i], internalEntries, base, last);
      flows := PushEntry(flows, entries[i], internalEntries, base, last);
      assert flows == spent + (before + EntryFlows(entries[i], internalEntries, base, last));
    }
    assert entries[..|entries|] == entries;
  }

  // ---- the direct definition of a row ----

  datatype Movement = Movement(withdrawal: bool, amount: real, day: int)
  datatype AssetTx = AssetTx(btc: bool, sell: bool, quantity: real, day: int)

  datatype Inputs = Inputs(storedBase: int, base: int, from: int, last: int, opening: real, flows: seq<Flow>,
                           piggy: seq<Movement>, assets: seq<AssetTx>, btc: seq<Point>, usd: seq<Point>,
                           cdi: seq<Point>, ipca: seq<Point>)

  function PiggySteps(ms: seq<Movement>): seq<Step> {
    if ms == [] then []
    else [Step(ms[0].day, if ms[0].withdrawal then -ms[0].amount else ms[0].amount)] + PiggySteps(ms[1..])
  }

  function AssetSteps(txs: seq<AssetTx>, btc: bool): seq<Step> {
    if txs == [] then []
    else
      (if txs[0].btc == btc then [Step(txs[0].day, if txs[0].sell then -txs[0].quantity else txs[0].quantity)] else [])
      + AssetSteps(txs[1..], btc)
  }

  /** Sum of the flows dated after `lo`, up to and including `hi`. */
  function FlowSum(flows: seq<Flow>, lo: int, hi: int): real {
    if flows == [] then 0.0
    else (if lo < flows[0].date <= hi then flows[0].amount else 0.0) + FlowSum(flows[1..], lo, hi)
  }

  function ExternalSum(flows: seq<Flow>, lo: int, hi: int): real {
    if flows == [] then 0.0
    else
      (if lo < flows[0].date <= hi && flows[0].external then flows[0].amount else 0.0)
      + ExternalSum(flows[1..], lo, hi)
  }

  function CashStart(a: Inputs): int {
    if a.storedBase < a.base then a.storedBase else a.base
  }

  function CashOn(a: Inputs, day: int): real {
    a.opening + FlowSum(a.flows, CashStart(a), day)
  }

  function PiggyOn(a: Inputs, day: int): real {
    TotalUpTo(PiggySteps(a.piggy), day)
  }

  function Worth(quantity: real, price: real): real {
    quantity * price
  }

  function Rescaled(value: real, today: real, before: real): real
    requires before != 0.0
  {
    value * today / before
  }

  function Grown(value: real, rate: real): real {
    value * (1.0 + rate / 100.0)
  }

  function ValueOn(steps: seq<Step>, points: seq<Point>, day: int): real {
    var quote := LatestOn(points, day);
    if quote.None? then 0.0 else Worth(TotalUpTo(steps, day), quote.value.value)
  }

  function BtcOn(a: Inputs, day: int): real {
    ValueOn(AssetSteps(a.assets, true), a.btc, day)
  }

  function UsdOn(a: Inputs, day: int): real {
    ValueOn(AssetSteps(a.assets, false), a.usd, day)
  }

  function PatrimonyOn(a: Inputs, day: int): real {
    CashOn(a, day) + PiggyOn(a, day) + BtcOn(a, day) + UsdOn(a, day)
  }

  /** The point dated exactly on a day. */
  function PointOn(points: seq<Point>, day: int): Option<Point> {
    var p := LatestOn(points, day);
    if p.Some? && p.value.date == day then p else None
  }

  predicate NonZero(points: seq<Point>) {
    forall i :: 0 <= i < |points| ==> points[i].value != 0.0
  }

  function Accrued(value: real, rate: Option<Point>): real {
    if rate.None? then value else Grown(value, rate.value.value)
  }

  /** CDI: money from outside enters first, then the day's rate applies. */
  function CdiOn(a: Inputs, day: int): real
    decreases day - a.base
  {
    if day <= a.base then PatrimonyOn(a, a.base)
    else Accrued(CdiOn(a, day - 1) + ExternalSum(a.flows, day - 1, day), PointOn(a.cdi, day))
  }

  function Indexed(value: real, before: Option<Point>, today: Option<Point>): real {
    if before.Some? && today.Some? && before.value.value != 0.0
    then Rescaled(value, today.value.value, before.value.value)
    else value
  }

  /** IPCA: a new index rescales the line, then money from outside enters. */
  function IpcaOn(a: Inputs, day: int): real
    decreases day - a.base
  {
    if day <= a.base then PatrimonyOn(a, a.base)
    else
      Indexed(IpcaOn(a, day - 1), LatestOn(a.ipca, day - 1), PointOn(a.ipca, day))
      + ExternalSum(a.flows, day - 1, day)
  }

  datatype Row = Row(date: int, patrimony: real, cash: real, piggy: real, btc: real, usd: real, cdi: real, ipca: real)

  function RowOn(a: Inputs, day: int): Row {
    Row(day, PatrimonyOn(a, day), CashOn(a, day), PiggyOn(a, day), BtcOn(a, day), UsdOn(a, day), CdiOn(a, day),
        IpcaOn(a, day))
  }

  function FirstDay(a: Inputs): int {
    if a.base < a.from then a.from else a.base
  }

  predicate WellFormed(a: Inputs) {
    IsSeries(a.btc) && IsSeries(a.usd) && IsSeries(a.cdi) && IsSeries(a.ipca) && NonZero(a.ipca)
  }

  // ---- the moving pieces agree with the definition ----

  function OnDay(flows: seq<Flow>, day: int): seq<Flow> {
    if flows == [] then []
    else OnDay(flows[..|flows| - 1], day)
         + (if flows[|flows| - 1].date == day then [flows[|flows| - 1]] else [])
  }

  lemma {:induction false} FlowSumSnoc(flows: seq<Flow>, f: Flow, lo: int, hi: int)
    ensures FlowSum(flows + [f], lo, hi) == FlowSum(flows, lo, hi) + (if lo < f.date <= hi then f.amount else 0.0)
    ensures ExternalSum(flows + [f], lo, hi)
      == ExternalSum(flows, lo, hi) + (if lo < f.date <= hi && f.external then f.amount else 0.0)
  {
    if flows == [] {
      assert [] + [f] == [f];
    } else {
      assert (flows + [f])[1..] == flows[1..] + [f];
      FlowSumSnoc(flows[1..], f, lo, hi);
    }
  }

  lemma OnDaySnoc(flows: seq<Flow>, f: Flow, day: int)
    ensures OnDay(flows + [f], day) == if f.date == day then OnDay(flows, day) + [f] else OnDay(flows, day)
  {
    assert (flows + [f])[..|flows|] == flows;
  }

  lemma OnDayStep(flows: seq<Flow>, f: Flow, day: int)
    requires FlowSum(OnDay(flows, day), day - 1, day) == FlowSum(flows, day - 1, day)
    requires ExternalSum(OnDay(flows, day), day - 1, day) == ExternalSum(flows, day - 1, day)
    ensures FlowSum(OnDay(flows + [f], day), day - 1, day) == FlowSum(flows + [f], day - 1, day)
    ensures ExternalSum(OnDay(flows + [f], day), day - 1, day) == ExternalSum(flows + [f], day - 1, day)
  {
    hide FlowSum, ExternalSum, OnDay;
    OnDaySnoc(flows, f, day);
    FlowSumSnoc(flows, f, day - 1, day);
    FlowSumSnoc(OnDay(flows, day), f, day - 1, day);
  }

  lemma {:induction false} OnDayTotals(flows: seq<Flow>, day: int)
    ensures FlowSum(OnDay(flows, day), day - 1, day) == FlowSum(flows, day - 1, day)
    ensures ExternalSum(OnDay(flows, day), day - 1, day) == ExternalSum(flows, day - 1, day)
  {
    if flows != [] {
      hide FlowSum, ExternalSum, OnDay;
      var n := |flows| - 1;
      OnDayTotals(flows[..n], day);
      assert flows == flows[..n] + [flows[n]];
      OnDayStep(flows[..n], flows[n], day);
    }
  }

  lemma {:induction false} OnDayDates(flows: seq<Flow>, day: int)
    ensures forall i :: 0 <= i < |OnDay(flows, day)| ==> OnDay(flows, day)[i].date == day
  {
    if flows != [] {
      OnDayDates(flows[..|flows| - 1], day);
    }
  }

  lemma {:induction false} FlowSumStep(flows: seq<Flow>, lo: int, day: int)
    requires lo < day
    ensures FlowSum(flows, lo, day) == FlowSum(flows, lo, day - 1) + FlowSum(flows, day - 1, day)
  {
    if flows != [] {
      FlowSumStep(flows[1..], lo, day);
    }
  }

  function Listed(byDay: map<int, seq<Flow>>, day: int): seq<Flow> {
    if day in byDay then byDay[day] else []
  }

  method GroupByDay(flows: seq<Flow>) returns (byDay: map<int, seq<Flow>>)
    ensures forall day :: Listed(byDay, day) == OnDay(flows, day)
  {
    byDay := map[];
    for i := 0 to |flows|
      invariant forall day :: Listed(byDay, day) == OnDay(flows[..i], day)
    {
      assert flows[..i + 1][..i] == flows[..i];
      ghost var before := byDay;
      var flow := flows[i];
      byDay := byDay[flow.date := Listed(byDay, flow.date) + [flow]];
      forall day
        ensures Listed(byDay, day) == OnDay(flows[..i + 1], day)
      {
        assert Listed(before, day) == OnDay(flows[..i], day);
      }
    }
    assert flows[..|flows|] == flows;
  }

  /** Adds one day's flows to the cash and counts what came from outside. */
  method AddDay(cash: real, list: seq<Flow>, ghost flows: seq<Flow>, day: int) returns (after: real, external: real)
    requires list == OnDay(flows, day)
    ensures after == cash + FlowSum(flows, day - 1, day) && external == ExternalSum(flows, day - 1, day)
  {
    OnDayTotals(flows, day);
    OnDayDates(flows, day);
    after, external := cash, 0.0;
    for i := 0 to |list|
      invariant after == cash + FlowSum(list[..i], day - 1, day)
      invariant external == ExternalSum(list[..i], day - 1, day)
    {
      assert list[..i + 1] == list[..i] + [list[i]];
      FlowSumSnoc(list[..i], list[i], day - 1, day);
      after := after + list[i].amount;
      if list[i].external {
        external := external + list[i].amount;
      }
    }
    assert list[..|list|] == list;
  }

  method OpeningCash(a: Inputs) returns (cash: real)
    ensures cash == CashOn(a, a.base)
  {
    cash := a.opening;
    for i := 0 to |a.flows|
      invariant cash == a.opening + FlowSum(a.flows[..i], a.storedBase, a.base)
    {
      assert a.flows[..i + 1] == a.flows[..i] + [a.flows[i]];
      FlowSumSnoc(a.flows[..i], a.flows[i], a.storedBase, a.base);
      if a.flows[i].date > a.storedBase && a.flows[i].date <= a.base {
        cash := cash + a.flows[i].amount;
      }
    }
    assert a.flows[..|a.flows|] == a.flows;
    if a.storedBase >= a.base {
      EmptyRange(a.flows, a.storedBase, a.base);
      EmptyRange(a.flows, a.base, a.base);
    }
  }

  lemma {:induction false} EmptyRange(flows: seq<Flow>, lo: int, hi: int)
    requires hi <= lo
    ensures FlowSum(flows, lo, hi) == 0.0
  {
    if flows != [] {
      EmptyRange(flows[1..], lo, hi);
    }
  }

  lemma PointOnAt(points: seq<Point>, k: nat)
    requires IsSeries(points) && k < |points|
    ensures PointOn(points, points[k].date) == Some(points[k])
  {
    LatestAt(points, k, points[k].date);
  }

  lemma {:induction false} LatestIsAPoint(points: seq<Point>, day: int)
    ensures var latest := LatestOn(points, day);
      latest.Some? ==> latest.value in points && latest.value.date <= day
  {
    if points != [] && points[|points| - 1].date > day {
      LatestIsAPoint(points[..|points| - 1], day);
    }
  }

  function Lookup(table: map<int, real>, day: int): Option<Point> {
    if day in table then Some(Point(day, table[day])) else None
  }

  /** The dated points as a lookup table. */
  method PointTable(points: seq<Point>) returns (table: map<int, real>)
    requires IsSeries(points)
    ensures forall day :: Lookup(table, day) == PointOn(points, day)
  {
    table := map[];
    for i := 0 to |points|
      invariant forall k :: 0 <= k < i ==> points[k].date in table && table[points[k].date] == points[k].value
      invariant forall day :: day in table ==> exists k :: 0 <= k < i && points[k].date == day
    {
      table := table[points[i].date := points[i].value];
    }
    forall day
      ensures Lookup(table, day) == PointOn(points, day)
    {
      if day in table {
        var k :| 0 <= k < |points| && points[k].date == day;
        PointOnAt(points, k);
      } else {
        LatestIsAPoint(points, day);
      }
    }
  }

  lemma {:induction false} LatestStep(points: seq<Point>, day: int)
    ensures LatestOn(points, day)
      == if PointOn(points, day).Some? then PointOn(points, day) else LatestOn(points, day - 1)
  {
    if points != [] && points[|points| - 1].date > day {
      LatestStep(points[..|points| - 1], day);
    }
  }

  lemma {:induction false} LatestPersists(points: seq<Point>, day: int, later: int)
    requires day <= later && LatestOn(points, day).Some?
    ensures LatestOn(points, later).Some?
  {
    if points[|points| - 1].date > later {
      LatestPersists(points[..|points| - 1], day, later);
    }
  }

  // ---- the timeline ----

  function Prev(a: Inputs, key: int): int {
    if key <= a.base then a.base else key - 1
  }

  function RowsUpTo(a: Inputs, key: int): seq<Row> {
    seq(if key <= FirstDay(a) then 0 else key - FirstDay(a), i => RowOn(a, FirstDay(a) + i))
  }

  lemma NextRow(a: Inputs, key: int)
    requires key >= FirstDay(a)
    ensures RowsUpTo(a, key + 1) == RowsUpTo(a, key) + [RowOn(a, key)]
  {
    hide RowOn;
  }

  /** One day's move of the two benchmarks. */
  method MoveBenchmarks(ghost a: Inputs, key: int, cdi: real, ipca: real, external: real, rate: Option<real>,
                        index: Option<real>, lastIndex: Option<real>)
    returns (newCdi: real, newIpca: real, newIndex: Option<real>)
    requires WellFormed(a) && key > a.base && external == ExternalSum(a.flows, key - 1, key)
    requires cdi == CdiOn(a, key - 1) && ipca == IpcaOn(a, key - 1)
    requires rate == ValueOf(PointOn(a.cdi, key)) && index == ValueOf(PointOn(a.ipca, key))
    requires lastIndex == ValueOf(LatestOn(a.ipca, key - 1))
    ensures newCdi == CdiOn(a, key) && newIpca == IpcaOn(a, key) && newIndex == ValueOf(LatestOn(a.ipca, key))
  {
    hide PatrimonyOn, ExternalSum, PointOn, LatestOn, Grown, Rescaled;
    IndicesAreNonZero(a.ipca, key - 1);
    LatestStep(a.ipca, key);
    newIpca, newIndex := ipca, lastIndex;
    if index.Some? {
      if lastIndex.Some? {
        newIpca := Rescaled(newIpca, index.value, lastIndex.value);
      }
      newIndex := index;
    }
    newIpca := newIpca + external;
    newCdi := cdi + external;
    if rate.Some? {
      newCdi := Grown(newCdi, rate.value);
    }
  }

  function ValueOf(p: Option<Point>): Option<real> {
    if p.Some? then Some(p.value.value) else None
  }

  lemma IndicesAreNonZero(points: seq<Point>, day: int)
    requires NonZero(points)
    ensures LatestOn(points, day).Some? ==> LatestOn(points, day).value.value != 0.0
  {
    LatestIsAPoint(points, day);
  }

  /** The five pointers the timeline moves forward together. */
  class Pointers {
    const piggy: RunningTotal
    const btc: RunningTotal
    const usd: RunningTotal
    const btcPrice: PointCursor
    const usdPrice: PointCursor

    ghost function Parts(): set<object> {
      {piggy, btc, usd, btcPrice, usdPrice}
    }

    /** Ready to be read at `day` or later. */
    ghost predicate ReadyFor(a: Inputs, day: int)
      reads Parts()
    {
      && piggy != btc && piggy != usd && btc != usd && btcPrice != usdPrice
      && piggy.Valid() && btc.Valid() && usd.Valid() && btcPrice.Valid() && usdPrice.Valid()
      && piggy.items == PiggySteps(a.piggy) && btc.items == AssetSteps(a.assets, true)
      && usd.items == AssetSteps(a.assets, false) && btcPrice.points == a.btc && usdPrice.points == a.usd
      && (piggy.reached.Some? ==> piggy.reached.value <= day) && (btc.reached.Some? ==> btc.reached.value <= day)
      && (usd.reached.Some? ==> usd.reached.value <= day)
      && (btcPrice.reached.Some? ==> btcPrice.reached.value <= day)
      && (usdPrice.reached.Some? ==> usdPrice.reached.value <= day)
    }

    constructor (a: Inputs)
      requires IsSeries(a.btc) && IsSeries(a.usd)
      ensures ReadyFor(a, a.base) && fresh(Parts())
    {
      piggy := new RunningTotal(PiggySteps(a.piggy));
      btc := new RunningTotal(AssetSteps(a.assets, true));
      usd := new RunningTotal(AssetSteps(a.assets, false));
      btcPrice := new PointCursor(a.btc);
      usdPrice := new PointCursor(a.usd);
    }

    method Quotes(ghost a: Inputs, day: int) returns (btcQuote: Option<Point>, usdQuote: Option<Point>)
      requires ReadyFor(a, day)
      modifies Parts()
      ensures ReadyFor(a, day) && btcQuote == LatestOn(a.btc, day) && usdQuote == LatestOn(a.usd, day)
    {
      hide TotalUpTo, LatestOn, IsSeries;
      btcQuote := btcPrice.At(day);
      usdQuote := usdPrice.At(day);
    }

    method Totals(ghost a: Inputs, day: int) returns (saved: real, btcHeld: real, usdHeld: real)
      requires ReadyFor(a, day)
      modifies Parts()
      ensures ReadyFor(a, day) && saved == PiggyOn(a, day)
      ensures btcHeld == TotalUpTo(AssetSteps(a.assets, true), day)
      ensures usdHeld == TotalUpTo(AssetSteps(a.assets, false), day)
    {
      hide TotalUpTo, LatestOn, IsSeries;
      saved := piggy.At(day);
      btcHeld := btc.At(day);
      usdHeld := usd.At(day);
    }
  }

  lemma ReadyLater(p: Pointers, a: Inputs, day: int, later: int)
    requires p.ReadyFor(a, day) && day <= later
    ensures p.ReadyFor(a, later)
  {
  }

  lemma RowFrom(a: Inputs, key: int, cash: real, saved: real, btcHeld: real, usdHeld: real, btcQuote: Point,
                usdQuote: Point, cdi: real, ipca: real)
    requires LatestOn(a.btc, key) == Some(btcQuote) && LatestOn(a.usd, key) == Some(usdQuote)
    requires cash == CashOn(a, key) && saved == PiggyOn(a, key)
    requires btcHeld == TotalUpTo(AssetSteps(a.assets, true), key)
    requires usdHeld == TotalUpTo(AssetSteps(a.assets, false), key)
    requires cdi == CdiOn(a, key) && ipca == IpcaOn(a, key)
    ensures var btc, usd := Worth(btcHeld, btcQuote.value), Worth(usdHeld, usdQuote.value);
      && cash + saved + btc + usd == PatrimonyOn(a, key)
      && Row(key, cash + saved + btc + usd, cash, saved, btc, usd, cdi, ipca) == RowOn(a, key)
  {
    hide LatestOn, TotalUpTo, CashOn, PiggyOn, CdiOn, IpcaOn, Worth;
  }

  /** What the loop carries from one day to the next. */
  datatype Carried = Carried(cash: real, cdi: real, ipca: real, lastIndex: Option<real>)

  ghost predicate CarriedTo(c: Carried, a: Inputs, day: int) {
    && c.cash == CashOn(a, day) && c.cdi == CdiOn(a, day) && c.ipca == IpcaOn(a, day)
    && c.lastIndex == ValueOf(LatestOn(a.ipca, day))
  }

  method AdvanceDay(ghost a: Inputs, key: int, c: Carried, list: seq<Flow>, rates: map<int, real>,
                    indices: map<int, real>) returns (next: Carried)
    requires WellFormed(a) && key > a.base && CarriedTo(c, a, key - 1) && list == OnDay(a.flows, key)
    requires Lookup(rates, key) == PointOn(a.cdi, key) && Lookup(indices, key) == PointOn(a.ipca, key)
    ensures CarriedTo(next, a, key)
  {
    hide LatestOn, PointOn, FlowSum, ExternalSum, OnDay, CashOn;
    CashStep(a, key);
    var cash, external := AddDay(c.cash, list, a.flows, key);
    var rate := if key in rates then Some(rates[key]) else None;
    var index := if key in indices then Some(indices[key]) else None;
    var cdi, ipca, lastIndex := MoveBenchmarks(a, key, c.cdi, c.ipca, external, rate, index, c.lastIndex);
    next := Carried(cash, cdi, ipca, lastIndex);
  }

  method MakeRow(a: Inputs, key: int, c: Carried, pointers: Pointers) returns (row: Row)
    requires CarriedTo(c, a, key) && pointers.ReadyFor(a, key)
    requires LatestOn(a.btc, key).Some? && LatestOn(a.usd, key).Some?
    modifies pointers.Parts()
    ensures pointers.ReadyFor(a, key) && row == RowOn(a, key)
  {
    hide LatestOn, TotalUpTo, CashOn, PiggyOn, CdiOn, IpcaOn, RowOn, PatrimonyOn, Worth;
    var btcQuote, usdQuote := pointers.Quotes(a, key);
    var saved, btcHeld, usdHeld := pointers.Totals(a, key);
    RowFrom(a, key, c.cash, saved, btcHeld, usdHeld, btcQuote.value, usdQuote.value, c.cdi, c.ipca);
    var btc, usd := Worth(btcHeld, btcQuote.value.value), Worth(usdHeld, usdQuote.value.value);
    row := Row(key, c.cash + saved + btc + usd, c.cash, saved, btc, usd, c.cdi, c.ipca);
  }

  /** The base day's values, or nothing when a quote is missing. */
  method StartFrom(a: Inputs, pointers: Pointers) returns (c: Option<Carried>)
    requires WellFormed(a) && pointers.ReadyFor(a, a.base)
    modifies pointers.Parts()
    ensures pointers.ReadyFor(a, a.base)
    ensures c.None? <==> LatestOn(a.btc, a.base).None? || LatestOn(a.usd, a.base).None?
    ensures c.Some? ==> CarriedTo(c.value, a, a.base)
  {
    hide LatestOn, TotalUpTo, CashOn, PiggyOn, RowOn, PatrimonyOn, CdiOn, IpcaOn, NonZero, Pointers.ReadyFor, Worth;
    var ipcaCursor := new PointCursor(a.ipca);
    var baseBtc, baseUsd := pointers.Quotes(a, a.base);
    if baseBtc.None? || baseUsd.None? {
      return None;
    }
    var cash := OpeningCash(a);
    var saved, btcHeld, usdHeld := pointers.Totals(a, a.base);
    RowFrom(a, a.base, cash, saved, btcHeld, usdHeld, baseBtc.value, baseUsd.value, CdiOn(a, a.base),
      IpcaOn(a, a.base));
    StartOfBenchmarks(a);
    var btc, usd := Worth(btcHeld, baseBtc.value.value), Worth(usdHeld, baseUsd.value.value);
    var baseReal := cash + saved + btc + usd;
    assert baseReal == PatrimonyOn(a, a.base);
    var found := ipcaCursor.At(a.base);
    return Some(Carried(cash, baseReal, baseReal, ValueOf(found)));
  }

  /** The daily timeline, or no timeline when either quote series starts after the base day. */
  method BuildPatrimonyRows(a: Inputs) returns (rows: Option<seq<Row>>)
    requires WellFormed(a)
    ensures rows.None? <==> LatestOn(a.btc, a.base).None? || LatestOn(a.usd, a.base).None?
    ensures rows.Some? ==> |rows.value| == (if a.last < FirstDay(a) then 0 else a.last + 1 - FirstDay(a))
    ensures rows.Some? ==> forall i :: 0 <= i < |rows.value| ==> rows.value[i] == RowOn(a, FirstDay(a) + i)
  {
    hide LatestOn, PointOn, RowOn, OnDay, CarriedTo, IsSeries, NonZero, Pointers.ReadyFor;
    var byDay := GroupByDay(a.flows);
    var pointers := new Pointers(a);
    var start := StartFrom(a, pointers);
    if start.None? {
      return None;
    }
    var c := start.value;
    var rates := PointTable(a.cdi);
    var indices := PointTable(a.ipca);
    var list: seq<Row> := [];
    var key := a.base;
    while key <= a.last
      invariant a.base <= key && (a.base <= a.last ==> key <= a.last + 1) && (a.base > a.last ==> key == a.base)
      invariant CarriedTo(c, a, Prev(a, key)) && list == RowsUpTo(a, key)
      invariant fresh(pointers.Parts()) && pointers.ReadyFor(a, key)
    {
      if key != a.base {
        assert Lookup(rates, key) == PointOn(a.cdi, key) && Lookup(indices, key) == PointOn(a.ipca, key);
        c := AdvanceDay(a, key, c, Listed(byDay, key), rates, indices);
      }
      if key >= a.from {
        LatestPersists(a.btc, a.base, key);
        LatestPersists(a.usd, a.base, key);
        var row := MakeRow(a, key, c, pointers);
        NextRow(a, key);
        list := list + [row];
      }
      ReadyLater(pointers, a, key, key + 1);
      key := key + 1;
    }
    return Some(list);
  }

  lemma CashStep(a: Inputs, key: int)
    requires key > a.base
    ensures CashOn(a, key) == CashOn(a, key - 1) + FlowSum(a.flows, key - 1, key)
  {
    hide FlowSum;
    FlowSumStep(a.flows, CashStart(a), key);
  }

  lemma StartOfBenchmarks(a: Inputs)
    ensures CdiOn(a, a.base) == PatrimonyOn(a, a.base) == IpcaOn(a, a.base)
  {
  }

  // ---- what the timeline promises ----

  predicate NothingFromOutside(flows: seq<Flow>, lo: int, hi: int) {
    forall i :: 0 <= i < |flows| && lo < flows[i].date <= hi ==> !flows[i].external
  }

  lemma {:induction false} NothingAdds(flows: seq<Flow>, lo: int, hi: int)
    requires NothingFromOutside(flows, lo, hi)
    ensures ExternalSum(flows, lo, hi) == 0.0
  {
    if flows != [] {
      assert forall i :: 0 <= i < |flows[1..]| ==> flows[1..][i] == flows[i + 1];
      NothingAdds(flows[1..], lo, hi);
    }
  }

  lemma RescaleKeepsRatio(value: real, before: real, today: real, start: real, first: real)
    requires before != 0.0 && Worth(value, first) == Worth(start, before)
    ensures Worth(Rescaled(value, today, before), first) == Worth(start, today)
  {
    Cancel(value, before, today, first);
    Associate(start, before, today);
  }

  lemma Cancel(value: real, before: real, today: real, first: real)
    requires before != 0.0
    ensures Rescaled(value, today, before) * first == Worth(value, first) * today / before
  {
  }

  lemma Associate(start: real, before: real, today: real)
    requires before != 0.0
    ensures Worth(start, before) * today / before == start * today
  {
  }

  /** One day of the IPCA line with nothing from outside. */
  lemma IpcaStep(a: Inputs, day: int)
    requires WellFormed(a) && a.base < day && ExternalSum(a.flows, day - 1, day) == 0.0
    requires LatestOn(a.ipca, day - 1).Some?
    ensures LatestOn(a.ipca, day).Some? && LatestOn(a.ipca, day - 1).value.value != 0.0
    ensures var before, today := LatestOn(a.ipca, day - 1).value.value, LatestOn(a.ipca, day).value.value;
      if PointOn(a.ipca, day).Some? then IpcaOn(a, day) == Rescaled(IpcaOn(a, day - 1), today, before)
      else IpcaOn(a, day) == IpcaOn(a, day - 1) && today == before
  {
    hide PatrimonyOn, LatestOn, PointOn, ExternalSum, IsSeries, NonZero, Rescaled;
    IndicesAreNonZero(a.ipca, day - 1);
    LatestStep(a.ipca, day);
  }

  lemma {:induction false} IpcaKeepsRatio(a: Inputs, day: int)
    requires WellFormed(a) && a.base <= day && LatestOn(a.ipca, a.base).Some?
    requires NothingFromOutside(a.flows, a.base, day)
    ensures LatestOn(a.ipca, day).Some? && LatestOn(a.ipca, a.base).value.value != 0.0
    ensures Worth(IpcaOn(a, day), LatestOn(a.ipca, a.base).value.value)
      == Worth(PatrimonyOn(a, a.base), LatestOn(a.ipca, day).value.value)
    decreases day - a.base
  {
    hide PatrimonyOn, LatestOn, PointOn, ExternalSum, IsSeries, NonZero, IpcaOn, Worth, Rescaled;
    IndicesAreNonZero(a.ipca, a.base);
    if a.base < day {
      IpcaKeepsRatio(a, day - 1);
      NothingAdds(a.flows, day - 1, day);
      IpcaStep(a, day);
      RescaleKeepsRatio(IpcaOn(a, day - 1), LatestOn(a.ipca, day - 1).value.value, LatestOn(a.ipca, day).value.value,
                        PatrimonyOn(a, a.base), LatestOn(a.ipca, a.base).value.value);
    } else {
      StartOfBenchmarks(a);
    }
  }

  /** Without money from outside, the IPCA line is the base value times the latest index over the base index. */
  lemma IpcaIsBaseRescaled(a: Inputs, day: int)
    requires WellFormed(a) && a.base <= day && LatestOn(a.ipca, a.base).Some?
    requires NothingFromOutside(a.flows, a.base, day)
    ensures LatestOn(a.ipca, day).Some? && LatestOn(a.ipca, a.base).value.value != 0.0
    ensures IpcaOn(a, day) * LatestOn(a.ipca, a.base).value.value
      == PatrimonyOn(a, a.base) * LatestOn(a.ipca, day).value.value
  {
    IpcaKeepsRatio(a, day);
    hide LatestOn, PatrimonyOn, IpcaOn;
  }

  /** What one day's rate multiplies the CDI line by; a day without a rate leaves it. */
  function Factor(rate: Option<Point>): real {
    if rate.None? then 1.0 else 1.0 + rate.value.value / 100.0
  }

  /** The product of the daily factors since the base day. */
  function Growth(a: Inputs, day: int): real
    decreases day - a.base
  {
    if day <= a.base then 1.0 else Growth(a, day - 1) * Factor(PointOn(a.cdi, day))
  }

  lemma AccruedByFactor(start: real, growth: real, rate: Option<Point>, next: real)
    requires next == growth * Factor(rate)
    ensures Accrued(Worth(start, growth), rate) == Worth(start, next)
  {
    assert start * growth * Factor(rate) == start * (growth * Factor(rate));
  }

  lemma NoGrowthYet(start: real)
    ensures Worth(start, 1.0) == start
  {
  }

  lemma {:induction false} CdiKeepsGrowth(a: Inputs, day: int)
    requires a.base <= day && NothingFromOutside(a.flows, a.base, day)
    ensures CdiOn(a, day) == Worth(PatrimonyOn(a, a.base), Growth(a, day))
    decreases day - a.base
  {
    hide PatrimonyOn, PointOn, ExternalSum, Accrued, Factor, Worth;
    if a.base < day {
      CdiKeepsGrowth(a, day - 1);
      NothingAdds(a.flows, day - 1, day);
      AccruedByFactor(PatrimonyOn(a, a.base), Growth(a, day - 1), PointOn(a.cdi, day), Growth(a, day));
    } else {
      NoGrowthYet(PatrimonyOn(a, a.base));
    }
  }

  /** Without money from outside, the CDI line is the base value times the product of the daily factors. */
  lemma CdiIsBaseGrown(a: Inputs, day: int)
    requires a.base <= day && NothingFromOutside(a.flows, a.base, day)
    ensures CdiOn(a, day) == PatrimonyOn(a, a.base) * Growth(a, day)
  {
    hide CdiOn, PatrimonyOn, Growth;
    CdiKeepsGrowth(a, day);
  }

  lemma {:induction false} PiggyStepsSnoc(ms: seq<Movement>, m: Movement)
    ensures PiggySteps(ms + [m])
      == PiggySteps(ms) + [Step(m.day, if m.withdrawal then -m.amount else m.amount)]
  {
    if ms == [] {
      assert [] + [m] == [m];
    } else {
      assert (ms + [m])[1..] == ms[1..] + [m];
      PiggyStepsSnoc(ms[1..], m);
    }
  }
}
