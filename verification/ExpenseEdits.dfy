/** What requests to create and edit an expense do, told from the request and the rows before and after. */
module ExpenseEdits {
  import opened Wrappers
  import opened Money
  import opened SplitAllocation
  import opened Expenses
  import CivilDate
  import S = Schedule

  // ---- the parts of a request and the rows they become ----

  /** Half a cent either way, a tie going up. */
  predicate NearestCent(amount: int, exact: real) {
    exact - 0.5 < amount as real <= exact + 0.5
  }

  function PercentOf(amount: int, percent: real): real {
    amount as real * percent / 100.0
  }

  /** The parts in order, each with its kind, card and percentage; the first takes its share, the last the rest. */
  predicate StoresParts(parts: seq<SplitInput>, rows: seq<ResolvedSplit>, total: int) {
    && |rows| == |parts| && (|parts| == 1 || |parts| == 2)
    && (forall i :: 0 <= i < |parts| ==>
          && rows[i].kind == parts[i].kind && rows[i].cardId == parts[i].cardId
          && NearestCent(rows[i].percent, parts[i].percent * 100.0))
    && (if |parts| == 1 then rows[0].amount == total
        else NearestCent(rows[0].amount, PercentOf(total, parts[0].percent))
             && rows[1].amount == total - rows[0].amount)
  }

  /** Splits and card after a request that names parts: nothing for no parts, else the parts, and the card of one. */
  predicate TakesParts(parts: seq<SplitInput>, after: Expense) {
    if parts == [] then after.splits == [] && after.cardId.None?
    else
      && StoresParts(parts, after.splits, after.amount)
      && after.cardId == if |parts| == 1 then parts[0].cardId else None
  }

  /** The three ways to name parts: the parts themselves, null for none, or one card for everything. */
  predicate TakesRequestedParts(splits: S.Field<seq<SplitInput>>, cardId: S.Field<string>, after: Expense) {
    match splits
    case Given(parts) => TakesParts(parts, after)
    case Empty => after.splits == [] && after.cardId.None?
    case Unreadable => false
    case Absent =>
      match cardId
      case Given(card) => TakesParts([SplitInput(Card, Some(card), 100.0)], after)
      case Unreadable => false
      case _ => after.splits == [] && after.cardId.None?
  }

  lemma RoundHalfUpIsNearestCent(x: real)
    requires x >= 0.0
    ensures NearestCent(RoundHalfUp(x), x)
  {
  }

  lemma AllocatedAsAsked(total: int, parts: seq<SplitInput>)
    requires total >= 0 && PercentsInRange(parts) && (|parts| == 1 || |parts| == 2)
    ensures StoresParts(parts, AllocateSplitAmounts(total, parts), total)
  {
    var rows, percents := AllocateSplitAmounts(total, parts), Percents(parts);
    forall i | 0 <= i < |parts|
      ensures NearestCent(rows[i].percent, parts[i].percent * 100.0)
    {
      RoundHalfUpIsNearestCent(parts[i].percent * 100.0);
    }
    if |parts| == 2 {
      FirstShare(total, percents);
    }
  }

  lemma FirstShare(total: int, percents: seq<real>)
    requires total >= 0 && |percents| == 2 && percents[0] > 0.0
    ensures var rows := AllocatedParts(total, percents);
      NearestCent(rows[0], PercentOf(total, percents[0])) && rows[1] == total - rows[0]
  {
    ShareIsNotNegative(total, percents[0]);
    RoundHalfUpIsNearestCent(ExactShare(total, percents[0]));
    assert ExactShare(total, percents[0]) == PercentOf(total, percents[0]);
    hide RoundHalfUp, ExactShare, PercentOf, NearestCent, Sum;
    RoundedShareAt(total, percents[..1], 0);
    LonePart(RoundedShares(total, percents[..1]));
  }

  lemma ShareIsNotNegative(total: int, percent: real)
    requires total >= 0 && percent > 0.0
    ensures ExactShare(total, percent) >= 0.0
  {
    assert total as real * percent >= 0.0;
  }

  /** Resolving a request that was accepted gives the rows of its parts. */
  lemma ResolvedAsAsked(total: int, splits: S.Field<seq<SplitInput>>, cardId: S.Field<string>, g: Guards,
                        after: Expense)
    requires total > 0 && ResolveSplits(total, splits, cardId, g).Ok? && after.amount == total
    requires after.splits == ResolveSplits(total, splits, cardId, g).value
    requires after.cardId == DenormalizedCardId(after.splits)
    ensures TakesRequestedParts(splits, cardId, after)
  {
    hide ValidateSplitShape, AllocatedParts, StoresParts, AllocateSplitAmounts;
    var parts := NormalizeSplitInputs(splits, cardId).value;
    if parts.Some? && parts.value != [] {
      AcceptedShape(parts.value);
      AllocatedAsAsked(total, parts.value);
      OneCard(parts.value, after.splits, total);
    }
  }

  lemma OneCard(parts: seq<SplitInput>, rows: seq<ResolvedSplit>, total: int)
    requires StoresParts(parts, rows, total) && (|parts| == 1 ==> parts[0].kind == Card)
    ensures DenormalizedCardId(rows) == if |parts| == 1 then parts[0].cardId else None
  {
  }

  // ---- create ----

  /** A created expense is the one asked for, unpaid but for the cash of a one-off. */
  lemma CreatedAsAsked(input: CreateInput, today: int, g: Guards)
    requires Created(input, today, g).Ok?
    ensures var e := Created(input, today, g).value;
      && e.amount == input.amount > 0 && e.frequency == input.frequency
      && e.schedule == S.Asked(input.frequency == OneOff, input.body, S.NOTHING)
      && TakesRequestedParts(input.splits, input.cardId, e)
      && e.origin == Manual && !e.isInvoice && !e.archived
      && (e.frequency == OneOff ==> e.schedule.date.Some? && e.schedule.date.value <= today)
      && (e.frequency != OneOff ==> e.payments == map[])
      && e.paidForMonth.None? && e.paidAt.None? && e.invoiceMonth.None?
  {
    hide CivilDate.MonthOf, ResolveSplits, TakesRequestedParts;
    ResolvedAsAsked(input.amount, input.splits, input.cardId, g, Created(input, today, g).value);
  }

  /** What a request must say about its parts: readable fields, percentages in range, a shape that is accepted. */
  predicate GoodParts(splits: S.Field<seq<SplitInput>>, cardId: S.Field<string>) {
    match splits
    case Given(parts) => PercentsInRange(parts) && KindsAndCardsAgree(parts) && ValidateSplitShape(parts).None?
    case Empty => true
    case Unreadable => false
    case Absent => !cardId.Unreadable?
  }

  lemma LoneCardIsAccepted(card: string)
    ensures var parts := [SplitInput(Card, Some(card), 100.0)];
      ValidateSplitShape(parts).None? && PercentsInRange(parts)
  {
    var parts := [SplitInput(Card, Some(card), 100.0)];
    assert Percents(parts) == [100.0] && [100.0][..0] == [];
    assert parts[1..] == [];
  }

  lemma NoPartsAreAccepted()
    ensures ValidateSplitShape([]).None?
  {
  }

  lemma PartsAreResolved(total: int, splits: S.Field<seq<SplitInput>>, cardId: S.Field<string>)
    ensures ResolveSplits(total, splits, cardId, PERMISSIVE).Ok? <==> GoodParts(splits, cardId)
  {
    NoPartsAreAccepted();
    hide ValidateSplitShape, AllocateSplitAmounts;
    if splits.Absent? && cardId.Given? {
      LoneCardIsAccepted(cardId.value);
    }
  }

  /** With every outside check passing, a request is accepted exactly when amount, schedule and parts are good. */
  lemma CreationIsAccepted(input: CreateInput, today: int)
    ensures var asked := S.Asked(input.frequency == OneOff, input.body, S.NOTHING);
      Created(input, today, PERMISSIVE).Ok? <==>
      && input.amount > 0 && S.WellScheduled(input.frequency == OneOff, asked)
      && (input.frequency == OneOff ==> asked.date.Some? && asked.date.value <= today)
      && (input.frequency != OneOff ==> !input.body.endsAt.Unreadable?)
      && GoodParts(input.splits, input.cardId)
  {
    hide CivilDate.MonthOf, ResolveSplits, GoodParts, AnyCard;
    PartsAreResolved(input.amount, input.splits, input.cardId);
  }

  // ---- edits take effect ----

  /** What makes an edit work the stored parts out again: a new amount, frequency, start or end. */
  predicate Reallocates(input: UpdateInput) {
    input.amount.Some? || input.frequency.Some? || input.body.startsAt != S.Absent || input.body.endsAt != S.Absent
  }

  /**
   * Without parts in the request the stored ones keep their kinds, cards and percentages. Worked out again they share
   * the amount by those percentages, and a lone card is written as a part; otherwise they stay as they were.
   */
  predicate KeepsParts(e: Expense, after: Expense, again: bool) {
    && after.cardId == e.cardId
    && if !again || (e.splits == [] && e.cardId.None?) then after.splits == e.splits
       else if e.splits == [] then after.splits == [ResolvedSplit(Card, e.cardId, WHOLE, after.amount)]
       else
         && |after.splits| == |e.splits|
         && (forall i :: 0 <= i < |e.splits| ==>
               && after.splits[i].kind == e.splits[i].kind && after.splits[i].cardId == e.splits[i].cardId
               && after.splits[i].percent == e.splits[i].percent)
         && if |e.splits| == 1 then after.splits[0].amount == after.amount
            else NearestCent(after.splits[0].amount, PercentOf(after.amount, e.splits[0].percent as real / 100.0))
                 && |e.splits| == 2 && after.splits[1].amount == after.amount - after.splits[0].amount
  }

  /** An accepted edit stores what was sent and keeps what was not. */
  lemma EditTakesEffect(e: Expense, input: UpdateInput, today: int, g: Guards)
    requires Sound(e) && Updated(e, input, today, g).Ok?
    ensures var after := Updated(e, input, today, g).value;
      && after.amount == input.amount.GetOr(e.amount) && after.frequency == input.frequency.GetOr(e.frequency)
      && after.schedule == S.Asked(after.frequency == OneOff, input.body, e.schedule)
      && (if input.splits.Absent? && input.cardId.Absent? then KeepsParts(e, after, Reallocates(input))
          else TakesRequestedParts(input.splits, input.cardId, after))
      && (after.frequency != OneOff ==> after.payments == e.payments)
      && after == e.(amount := after.amount, frequency := after.frequency, schedule := after.schedule,
                     splits := after.splits, cardId := after.cardId, payments := after.payments)
  {
    hide CivilDate.MonthOf, ResolveSplits, TakesRequestedParts, Refused, Sound, OneOffChange, VersionedChange,
      IsSafeCashCorrection, KeepsParts, ExistingSplitInputs;
    var d := DraftOf(e, input, today, g).value;
    if !input.splits.Absent? || !input.cardId.Absent? {
      ResolvedAsAsked(d.amount, input.splits, input.cardId, g, Written(e, d, input));
    } else {
      UnsentPartsStay(e, input, d, g);
    }
  }

  lemma UnsentPartsStay(e: Expense, input: UpdateInput, d: Draft, g: Guards)
    requires Sound(e) && d.amount > 0 && input.splits.Absent? && input.cardId.Absent?
    requires NextSplits(e, input, d.amount, g) == Ok(d.splits)
    ensures KeepsParts(e, Written(e, d, input), Reallocates(input))
  {
    hide CivilDate.MonthOf, ResolveSplits, TakesRequestedParts, PaymentsAfter, KeepsParts;
    var after, parts := Written(e, d, input), ExistingSplitInputs(e);
    if d.splits.Some? {
      ResolvedAsAsked(d.amount, S.Given(parts), S.Absent, g, after);
      PartsAgain(e, parts, after);
    } else {
      NothingResolved(e, after, Reallocates(input));
    }
  }

  lemma NothingResolved(e: Expense, after: Expense, again: bool)
    requires after.splits == e.splits && after.cardId == e.cardId && (!again || (e.splits == [] && e.cardId.None?))
    ensures KeepsParts(e, after, again)
  {
  }

  lemma PartsAgain(e: Expense, parts: seq<SplitInput>, after: Expense)
    requires Sound(e) && parts == ExistingSplitInputs(e) && parts != []
    requires TakesRequestedParts(S.Given(parts), S.Absent, after)
    ensures KeepsParts(e, after, true)
  {
    hide S.WellScheduled, ExactCash, NearestCent, PercentOf;
    assert |parts| == if e.splits == [] then 1 else |e.splits|;
    forall i | 0 <= i < |parts|
      ensures parts[i].percent * 100.0 == (if e.splits == [] then WHOLE else e.splits[i].percent) as real
    {
    }
    forall i | 0 <= i < |parts|
      ensures after.splits[i].percent == if e.splits == [] then WHOLE else e.splits[i].percent
    {
      assert NearestCent(after.splits[i].percent, parts[i].percent * 100.0);
      WholeIsNearest(after.splits[i].percent, if e.splits == [] then WHOLE else e.splits[i].percent);
    }
    if e.splits == [] {
      assert after.splits == [after.splits[0]];
    } else if |parts| == 2 {
      assert parts[0].percent == e.splits[0].percent as real / 100.0;
    }
  }

  lemma WholeIsNearest(n: int, m: int)
    requires NearestCent(n, m as real)
    ensures n == m
  {
  }

  // ---- which edits are accepted ----

  /** A recurrence with no payment yet takes any good edit that keeps it recurring and does not move its start back. */
  lemma UnpaidRecurrenceIsEditable(e: Expense, input: UpdateInput, today: int)
    requires Sound(e) && !e.archived && e.frequency != OneOff && e.payments == map[]
    requires input.frequency.GetOr(e.frequency) != OneOff
    requires !input.splits.Absent? || !input.cardId.Absent? || (e.splits == [] && e.cardId.None?)
    ensures var asked := S.Asked(false, input.body, e.schedule);
      Updated(e, input, today, PERMISSIVE).Ok? <==>
      && input.amount.GetOr(e.amount) > 0 && S.WellScheduled(false, asked) && !input.body.endsAt.Unreadable?
      && e.schedule.startsAt.value <= asked.startsAt.value
      && GoodParts(input.splits, input.cardId)
  {
    hide CivilDate.MonthOf, ResolveSplits, ValidateSplitShape, ExactCash, GoodSplits, Comparable, Written,
      DenormalizedCardId;
    PartsAreResolved(input.amount.GetOr(e.amount), input.splits, input.cardId);
  }

  /** Once paid, a recurrence keeps its schedule; once paid for this month or a later one, its amount too. */
  lemma PaidRecurrenceKeepsItsSchedule(e: Expense, input: UpdateInput, today: int, g: Guards)
    requires Sound(e) && e.frequency != OneOff && e.payments != map[] && Updated(e, input, today, g).Ok?
    ensures var after := Updated(e, input, today, g).value;
      && after.frequency == e.frequency && after.schedule == e.schedule && after.payments == e.payments
      && ((exists m :: m in e.payments && m >= CivilDate.MonthOf(today)) ==> after.amount == e.amount)
  {
    hide CivilDate.MonthOf, ExactCash, GoodSplits, NextSplits, IsSafeCashCorrection, Comparable;
    DraftFacts(e, input, today, g);
  }

  /** A recurrence never starts earlier than it did, and only one without card and payments ends as a one-off. */
  lemma RecurrenceMovesForward(e: Expense, input: UpdateInput, today: int, g: Guards)
    requires Sound(e) && e.frequency != OneOff && Updated(e, input, today, g).Ok?
    ensures var after := Updated(e, input, today, g).value;
      if after.frequency == OneOff
      then e.payments == map[] && e.cardId.None? && (forall s :: s in e.splits ==> s.kind != Card)
           && after.schedule.date.Some? && after.schedule.date.value <= today
      else after.schedule.startsAt.Some? && after.schedule.startsAt.value >= e.schedule.startsAt.value
  {
    hide CivilDate.MonthOf, ExactCash, NextSplits, IsSafeCashCorrection, Comparable, GoodSplits, CashOf;
    DraftFacts(e, input, today, g);
  }

  /** A one-off wholly on cards has no payment and takes any good edit to a day up to today. */
  lemma CardOneOffIsEditable(e: Expense, input: UpdateInput, today: int)
    requires Sound(e) && !e.archived && e.frequency == OneOff && CashOf(e) == 0
    requires input.frequency.GetOr(e.frequency) == OneOff && (!input.splits.Absent? || !input.cardId.Absent?)
    ensures var asked := S.Asked(true, input.body, e.schedule);
      Updated(e, input, today, PERMISSIVE).Ok? <==>
      && input.amount.GetOr(e.amount) > 0 && S.WellScheduled(true, asked) && asked.date.value <= today
      && GoodParts(input.splits, input.cardId)
  {
    hide CivilDate.MonthOf, ResolveSplits, ValidateSplitShape, GoodSplits, Comparable, Written, DenormalizedCardId,
      CashOf;
    PartsAreResolved(input.amount.GetOr(e.amount), input.splits, input.cardId);
  }

  /** What the checks outside this model may refuse: everything, or the edits each of them guards. */
  lemma OutsideChecksRefuse(e: Expense, input: UpdateInput, today: int, g: Guards)
    requires Sound(e) && Updated(e, input, today, g).Ok?
    ensures var after := Updated(e, input, today, g).value;
      && g.details && g.caughtUp && g.concurrent
      && (e.frequency != OneOff && after.frequency == OneOff ==> !g.cardHistory)
      && (e.frequency != OneOff && after.frequency != OneOff
          && (after.amount != e.amount || after.frequency != e.frequency || after.schedule != e.schedule) ==>
            g.settledHistory)
      && (e.frequency == OneOff && CashOf(e) == 0 && after.amount != e.amount ==> !g.cardSettlement)
      && (input.splits.Given? && input.splits.value != [] ==> g.cards)
  {
    hide CivilDate.MonthOf, ValidateSplitShape, GoodSplits, Comparable, DenormalizedCardId, CashOf,
      AllocateSplitAmounts, PaymentsAfter;
    DraftFacts(e, input, today, g);
  }

  /** A one-off paid in cash can be corrected to any amount and any day up to today, and its payment follows. */
  lemma CashOneOffIsCorrectable(e: Expense, amount: int, day: int, today: int)
    requires Sound(e) && !e.archived && e.frequency == OneOff && e.splits == [] && e.cardId.None?
    ensures var input := UpdateInput(Some(amount), None, S.Absent, S.Absent,
                                     S.Body(S.Absent, S.Absent, S.Absent, S.Given(day)));
      var r := Updated(e, input, today, PERMISSIVE);
      && (r.Ok? <==> amount > 0 && day <= today)
      && (r.Ok? ==>
            r.value == e.(amount := amount, schedule := S.Stored(None, None, None, Some(day)),
                          payments := map[CivilDate.MonthOf(day) := Payment(amount, day)]))
  {
    hide CivilDate.MonthOf, Comparable;
  }

  // ---- edits that stored percentages refuse ----

  function AmountOnly(amount: int): UpdateInput {
    UpdateInput(Some(amount), None, S.Absent, S.Absent, S.Body(S.Absent, S.Absent, S.Absent, S.Absent))
  }

  /** Stored percentages, in hundredths, that a request could name: all on one card, or two that come to a whole. */
  predicate StoredPartsPass(rows: seq<ResolvedSplit>) {
    if |rows| == 1 then rows[0].kind == Card && 9999 <= rows[0].percent <= 10000
    else
      && |rows| == 2 && 0 < rows[0].percent <= 10000 && 0 < rows[1].percent <= 10000
      && 9999 <= rows[0].percent + rows[1].percent <= 10001
      && (rows[0].kind == Card || rows[1].kind == Card)
      && (rows[0].kind == Card && rows[1].kind == Card ==> rows[0].cardId != rows[1].cardId)
  }

  lemma StoredPartsAreChecked(e: Expense)
    requires Sound(e) && e.splits != []
    ensures GoodParts(S.Given(ExistingSplitInputs(e)), S.Absent) <==> StoredPartsPass(e.splits)
  {
    var parts := ExistingSplitInputs(e);
    assert |parts| == |e.splits|;
    if |parts| == 1 {
      OnePercent(parts);
    } else {
      SumOfTwoPercents(parts);
      KindsOfTwo(parts);
    }
    hide Sum, SumReal, Percents, CountKind, ExactCash, S.WellScheduled;
  }

  lemma OnePercent(parts: seq<SplitInput>)
    requires |parts| == 1
    ensures SumReal(Percents(parts)) == parts[0].percent
    ensures CountKind(parts, Pix) == (if parts[0].kind == Pix then 1 else 0)
    ensures CountKind(parts, Card) == (if parts[0].kind == Card then 1 else 0)
  {
    assert Percents(parts)[..0] == [] && parts[1..] == [];
  }

  lemma KindsOfTwo(parts: seq<SplitInput>)
    requires |parts| == 2
    ensures forall kind ::
      CountKind(parts, kind) == (if parts[0].kind == kind then 1 else 0) + (if parts[1].kind == kind then 1 else 0)
  {
    assert parts[1..] == [parts[1]] && parts[1..][1..] == [];
  }

  /** A new amount for an unpaid split recurrence is accepted exactly when its stored percentages would be. */
  lemma AmountEditNeedsStoredParts(e: Expense, amount: int, today: int)
    requires Sound(e) && !e.archived && e.frequency != OneOff && e.payments == map[] && e.splits != []
    ensures Updated(e, AmountOnly(amount), today, PERMISSIVE).Ok? <==> amount > 0 && StoredPartsPass(e.splits)
  {
    StoredPartsAreChecked(e);
    hide CivilDate.MonthOf, ResolveSplits, GoodParts, ExactCash, GoodSplits, Comparable, Written, DenormalizedCardId,
      StoredPartsPass;
    PartsAreResolved(amount, S.Given(ExistingSplitInputs(e)), S.Absent);
    assert |ExistingSplitInputs(e)| == |e.splits|;
  }

  /** Two cards at percentages that add up to 100.01, which the tolerance admits. */
  const UNEVEN: seq<SplitInput> := [SplitInput(Card, Some("a"), 33.335), SplitInput(Card, Some("b"), 66.675)]

  /** Percentages are rounded when stored: a split that was accepted can then refuse every later change of amount. */
  lemma AcceptedSplitCanBlockEdits()
    ensures ResolveSplits(10000, S.Given(UNEVEN), S.Absent, PERMISSIVE) == Ok(AllocateSplitAmounts(10000, UNEVEN))
    ensures !StoredPartsPass(AllocateSplitAmounts(10000, UNEVEN))
  {
    SumOfTwoPercents(UNEVEN);
    KindsOfTwo(UNEVEN);
  }

  lemma SumOfTwoPercents(parts: seq<SplitInput>)
    requires |parts| == 2
    ensures SumReal(Percents(parts)) == parts[0].percent + parts[1].percent
  {
    var percents := Percents(parts);
    assert percents[..1][..0] == [];
    assert SumReal(percents[..1]) == percents[0];
  }

  // ---- payments and archival ----

  /** The cash share in columns: without parts, all of it or nothing on a card; else what its PIX part takes. */
  lemma CashInColumns(e: Expense)
    requires GoodSplits(e.splits, e.amount)
    ensures CashOf(e)
      == if e.splits == [] then (if e.cardId.Some? then 0 else e.amount)
         else (if e.splits[0].kind == Pix then e.splits[0].amount else 0)
              + (if |e.splits| == 2 && e.splits[1].kind == Pix then e.splits[1].amount else 0)
  {
    if e.splits != [] {
      PixTotalOfTwo(e.splits);
    }
  }

  /** Which payments are taken: of an invoice in its own month, of a monthly expense with cash to pay while in force. */
  lemma PaymentIsAccepted(e: Expense, month: int, today: int)
    ensures Paid(e, month, today).Ok? <==>
      && !e.archived && e.origin == Manual
      && if e.isInvoice then e.invoiceMonth == Some(month) && e.amount > 0
         else
           && e.frequency == Monthly && CashOf(e) > 0
           && (e.schedule.startsAt.Some? ==> CivilDate.MonthOf(e.schedule.startsAt.value) <= month)
           && (e.schedule.endsAt.Some? ==> CivilDate.MonthOf(e.schedule.endsAt.value) >= month)
  {
    hide CivilDate.MonthOf, CashOf;
  }

  /** A new payment is dated today, or the day its month was marked paid; the month is then marked with its day. */
  lemma PaymentIsDated(e: Expense, month: int, today: int)
    requires Paid(e, month, today).Ok?
    ensures var after := Paid(e, month, today).value;
      && month in after.payments && after.paidForMonth == Some(month)
      && (month !in e.payments ==>
            after.payments[month].paidAt
            == if e.paidForMonth == Some(month) && e.paidAt.Some? then e.paidAt.value else today)
      && after.paidAt
         == if e.paidForMonth == Some(month) then e.paidAt else Some(after.payments[month].paidAt)
  {
    hide CivilDate.MonthOf, CashOf;
  }

  /** Archiving marks a live manual expense that never touched a card, if the outside checks let it. */
  lemma ArchivingMarks(e: Expense, g: Guards)
    ensures Archived(e, g).Ok? <==>
      && !e.archived && e.origin == Manual && !e.isInvoice && g.caughtUp && g.concurrent && !g.cardHistory
      && e.cardId.None? && forall s :: s in e.splits ==> s.kind != Card
    ensures Archived(e, g).Ok? ==> Archived(e, g).value == e.(archived := true)
  {
  }
}
