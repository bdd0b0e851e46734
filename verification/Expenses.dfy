/** Manual expenses: splits, one-off payments and the guards of every edit. */
module Expenses {
  import opened Wrappers
  import opened Money
  import opened SplitAllocation
  import CivilDate
  import S = Schedule

  datatype Frequency = Monthly | Weekly | OneOff
  datatype Origin = Manual | System

  /** Amounts are cents, days civil day numbers. */
  datatype Payment = Payment(amount: int, paidAt: int)

  /** An expense with its split and payment rows; a month carries at most one payment. */
  datatype Expense = Expense(frequency: Frequency, origin: Origin, isInvoice: bool, amount: int,
                             cardId: Option<string>, splits: seq<ResolvedSplit>, schedule: S.Stored,
                             archived: bool, payments: map<int, Payment>, paidForMonth: Option<int>,
                             paidAt: Option<int>, invoiceMonth: Option<int>)

  /** Checks of billing, tags and card limits that this model does not compute; any of them may refuse. */
  datatype Guards = Guards(details: bool, cards: bool, retroactive: bool, cardHistory: bool, caughtUp: bool,
                           settledHistory: bool, cardSettlement: bool, concurrent: bool)

  datatype Error = InvalidAmount | NotFound | SystemRow | InvoiceRow | BadSchedule(problem: S.Problem)
    | BadSplits(reason: Option<SplitError>) | FutureDate | CannotRestart | CardHistory | PaidDate | StartsEarlier
    | PaidSchedule | PaidThisMonth | PaidAmount | Settled | Billing | OtherCycle | NotMonthly | CardOnly | NotStarted
    | AlreadyEnded | HasCard

  // ---- cash shares ----

  function PixTotal(splits: seq<ResolvedSplit>): int {
    if splits == [] then 0 else (if splits[0].kind == Pix then splits[0].amount else 0) + PixTotal(splits[1..])
  }

  /** What leaves cash at once: without splits, everything. */
  function CashAmountOf(splits: seq<ResolvedSplit>, total: int): int {
    if splits == [] then total else PixTotal(splits)
  }

  function CashOf(e: Expense): int {
    if e.splits != [] then CashAmountOf(e.splits, e.amount) else if e.cardId.Some? then 0 else e.amount
  }

  predicate AllPix(splits: seq<ResolvedSplit>) {
    forall i :: 0 <= i < |splits| ==> splits[i].kind == Pix
  }

  predicate AnyCard(splits: seq<ResolvedSplit>) {
    exists i :: 0 <= i < |splits| && splits[i].kind == Card
  }

  const WHOLE: int := 10000

  /** How terms are compared: the splits in force, whatever their order. */
  function Comparable(splits: seq<ResolvedSplit>, legacyCard: Option<string>, amount: int): multiset<ResolvedSplit> {
    if splits != [] then multiset(splits)
    else if legacyCard.Some? then multiset{ResolvedSplit(Card, legacyCard, WHOLE, amount)}
    else multiset{ResolvedSplit(Pix, None, WHOLE, amount)}
  }

  // ---- resolving the splits of a request ----

  /** The three readings of a list of parts: not sent, null, and the parts themselves. */
  function NormalizeSplitInputs(splits: S.Field<seq<SplitInput>>, cardId: S.Field<string>)
    : Result<Option<seq<SplitInput>>, Error>
  {
    match splits
    case Absent =>
      if cardId.Unreadable? then Err(BadSplits(None))
      else Ok(if cardId.Given? then Some([SplitInput(Card, Some(cardId.value), 100.0)]) else None)
    case Empty => Ok(Some([]))
    case Unreadable => Err(BadSplits(None))
    case Given(parts) =>
      if PercentsInRange(parts) && KindsAndCardsAgree(parts) then Ok(Some(parts)) else Err(BadSplits(None))
  }

  predicate KindsAndCardsAgree(parts: seq<SplitInput>) {
    forall i :: 0 <= i < |parts| ==> (parts[i].kind == Card <==> parts[i].cardId.Some?)
  }

  function ResolveSplits(total: int, splits: S.Field<seq<SplitInput>>, cardId: S.Field<string>, g: Guards)
    : Result<seq<ResolvedSplit>, Error>
  {
    match NormalizeSplitInputs(splits, cardId)
    case Err(e) => Err(e)
    case Ok(None) => Ok([])
    case Ok(Some(parts)) =>
      var problem := ValidateSplitShape(parts);
      if problem.Some? then Err(BadSplits(problem))
      else if parts == [] then Ok([])
      else if !g.cards then Err(Billing)
      else Ok(AllocateSplitAmounts(total, parts))
  }

  /** The parts of a stored expense, read back as a request. */
  function ExistingSplitInputs(e: Expense): seq<SplitInput> {
    if e.splits != [] then
      seq(|e.splits|, i requires 0 <= i < |e.splits| =>
        SplitInput(e.splits[i].kind, e.splits[i].cardId, e.splits[i].percent as real / 100.0))
    else if e.cardId.Some? then [SplitInput(Card, e.cardId, 100.0)]
    else []
  }

  // ---- create ----

  datatype CreateInput = CreateInput(amount: int, frequency: Frequency, splits: S.Field<seq<SplitInput>>,
                                     cardId: S.Field<string>, body: S.Body)

  function CashPayment(day: Option<int>, cash: int): map<int, Payment> {
    if day.Some? && cash > 0 then map[CivilDate.MonthOf(day.value) := Payment(cash, day.value)] else map[]
  }

  function Created(input: CreateInput, today: int, g: Guards): Result<Expense, Error> {
    if input.amount <= 0 then Err(InvalidAmount)
    else
      match S.ResolveSchedule(input.frequency == OneOff, input.body, None)
      case Err(p) => Err(BadSchedule(p))
      case Ok(r) =>
        var schedule := S.Apply(r, S.NOTHING);
        if schedule.date.Some? && schedule.date.value > today then Err(FutureDate)
        else if !g.details then Err(Billing)
        else
          match ResolveSplits(input.amount, input.splits, input.cardId, g)
          case Err(e) => Err(e)
          case Ok(splits) =>
            if input.frequency != OneOff && AnyCard(splits) && g.retroactive then Err(Billing)
            else
              Ok(Expense(input.frequency, Manual, false, input.amount, DenormalizedCardId(splits), splits, schedule,
                         false, CashPayment(schedule.date, CashAmountOf(splits, input.amount)), None, None, None))
  }

  // ---- update ----

  datatype UpdateInput = UpdateInput(amount: Option<int>, frequency: Option<Frequency>,
                                     splits: S.Field<seq<SplitInput>>, cardId: S.Field<string>, body: S.Body)

  /** New splits, or None to leave splits and card alone. */
  function NextSplits(e: Expense, input: UpdateInput, amount: int, g: Guards)
    : Result<Option<seq<ResolvedSplit>>, Error>
  {
    if !input.splits.Absent? || !input.cardId.Absent? then
      match ResolveSplits(amount, input.splits, input.cardId, g)
      case Err(p) => Err(p)
      case Ok(splits) => Ok(Some(splits))
    else
      var affects := input.amount.Some? || input.frequency.Some? || !input.body.startsAt.Absent?
                     || !input.body.endsAt.Absent?;
      var parts := ExistingSplitInputs(e);
      if !affects || parts == [] then Ok(None)
      else
        match ResolveSplits(amount, S.Given(parts), S.Absent, g)
        case Err(p) => Err(p)
        case Ok(splits) => Ok(Some(splits))
  }

  /** What an edit would store, worked out before any guard on payments. */
  datatype Draft = Draft(frequency: Frequency, amount: int, schedule: S.Stored, splits: Option<seq<ResolvedSplit>>)

  function DraftOf(e: Expense, input: UpdateInput, today: int, g: Guards): Result<Draft, Error> {
    var frequency, amount := input.frequency.GetOr(e.frequency), input.amount.GetOr(e.amount);
    if amount <= 0 then Err(InvalidAmount)
    else if e.archived then Err(NotFound)
    else if e.origin != Manual then Err(SystemRow)
    else if e.isInvoice then Err(InvoiceRow)
    else if !g.details then Err(Billing)
    else if e.frequency == OneOff && frequency != OneOff then Err(CannotRestart)
    else
      match S.ResolveSchedule(frequency == OneOff, input.body, Some(e.schedule))
      case Err(p) => Err(BadSchedule(p))
      case Ok(r) =>
        var schedule := S.Apply(r, e.schedule);
        if frequency == OneOff && schedule.date.Some? && schedule.date.value > today then Err(FutureDate)
        else
          match NextSplits(e, input, amount, g)
          case Err(p) => Err(p)
          case Ok(splits) => Ok(Draft(frequency, amount, schedule, splits))
  }

  /** Financial terms as the version history compares them: an empty split is read with the old card. */
  predicate VersionedChange(e: Expense, d: Draft) {
    d.amount != e.amount
    || (d.splits.Some? && Comparable(d.splits.value, e.cardId, d.amount) != Comparable(e.splits, e.cardId, e.amount))
  }

  /** Financial terms as the one-off guards compare them. */
  predicate OneOffChange(e: Expense, d: Draft) {
    d.amount != e.amount || d.frequency != e.frequency || d.schedule.date != e.schedule.date
    || (d.splits.Some? && Comparable(d.splits.value, None, d.amount) != Comparable(e.splits, e.cardId, e.amount))
  }

  predicate DateChanged(e: Expense, d: Draft, input: UpdateInput) {
    e.frequency == OneOff && d.frequency == OneOff && !input.body.date.Absent? && d.schedule.date != e.schedule.date
  }

  /** A whole-PIX one-off whose single payment still mirrors it may be corrected in date and amount. */
  predicate IsSafeCashCorrection(e: Expense, d: Draft) {
    && e.schedule.date.Some? && d.schedule.date.Some?
    && AllPix(e.splits) && AllPix(d.splits.GetOr(e.splits)) && e.cardId.None? && !AnyCard(e.splits)
    && CashOf(e) > 0 && d.amount > 0 && |e.payments| == 1
    && CivilDate.MonthOf(e.schedule.date.value) in e.payments
    && e.payments[CivilDate.MonthOf(e.schedule.date.value)] == Payment(CashOf(e), e.schedule.date.value)
    && e.amount == CashOf(e)
  }

  predicate Corrects(e: Expense, d: Draft, input: UpdateInput) {
    e.frequency == OneOff && d.frequency == OneOff && (DateChanged(e, d, input) || VersionedChange(e, d))
    && IsSafeCashCorrection(e, d)
  }

  predicate ScheduleChanged(e: Expense, d: Draft) {
    e.frequency != OneOff
    && (d.frequency != e.frequency || d.schedule.day != e.schedule.day
        || d.schedule.startsAt != e.schedule.startsAt || d.schedule.endsAt != e.schedule.endsAt)
  }

  predicate MovesEarlier(e: Expense, d: Draft) {
    e.schedule.startsAt.Some? && d.schedule.startsAt.Some? && d.schedule.startsAt.value < e.schedule.startsAt.value
  }

  function NewCashAmount(e: Expense, d: Draft): int {
    if d.splits.Some? then CashAmountOf(d.splits.value, d.amount)
    else if e.splits != [] then CashOf(e)
    else if e.cardId.Some? then 0
    else d.amount
  }

  /** Guards of a recurrence that stays one or ends as a one-off. */
  function RecurrenceRefused(e: Expense, d: Draft, today: int, g: Guards): Option<Error> {
    if e.frequency == OneOff then None
    else if d.frequency != OneOff && MovesEarlier(e, d) then Some(StartsEarlier)
    else if ScheduleChanged(e, d) && e.payments != map[] then Some(PaidSchedule)
    else if d.frequency == OneOff && (e.cardId.Some? || AnyCard(e.splits) || g.cardHistory) then Some(CardHistory)
    else if d.frequency != OneOff && VersionedChange(e, d)
            && (exists m :: m in e.payments && m >= CivilDate.MonthOf(today)) then Some(PaidThisMonth)
    else if d.frequency != OneOff && (ScheduleChanged(e, d) || VersionedChange(e, d)) && !g.settledHistory then
      Some(Billing)
    else None
  }

  /** A charge already paid or billed is a historical fact. */
  function OneOffRefused(e: Expense, d: Draft, input: UpdateInput, g: Guards): Option<Error> {
    if (e.frequency == OneOff || d.frequency == OneOff) && OneOffChange(e, d) && !Corrects(e, d, input) then
      if e.payments != map[] || (e.frequency == OneOff && CashOf(e) > 0) then Some(PaidAmount)
      else if g.cardSettlement then Some(Settled) else None
    else None
  }

  function Refused(e: Expense, d: Draft, input: UpdateInput, today: int, g: Guards): Option<Error> {
    if DateChanged(e, d, input) && e.payments != map[] && !Corrects(e, d, input) then Some(PaidDate)
    else if RecurrenceRefused(e, d, today, g).Some? then RecurrenceRefused(e, d, today, g)
    else if !g.caughtUp then Some(Billing)
    else if OneOffRefused(e, d, input, g).Some? then OneOffRefused(e, d, input, g)
    else if !g.concurrent then Some(Billing)
    else None
  }

  predicate RecordsNewCash(e: Expense, d: Draft, input: UpdateInput) {
    (e.frequency == OneOff || d.frequency == OneOff) && OneOffChange(e, d) && !Corrects(e, d, input)
    && NewCashAmount(e, d) > 0
  }

  /** The payment rows after an accepted edit. */
  function PaymentsAfter(e: Expense, d: Draft, input: UpdateInput): map<int, Payment> {
    var corrected :=
      if Corrects(e, d, input) && d.schedule.date.Some? then
        map[CivilDate.MonthOf(d.schedule.date.value) := Payment(d.amount, d.schedule.date.value)]
      else e.payments;
    if d.schedule.date.None? then corrected
    else
      var day, month := d.schedule.date.value, CivilDate.MonthOf(d.schedule.date.value);
      var cash := CashAmountOf(d.splits.GetOr([]), d.amount);
      if RecordsNewCash(e, d, input) && e.frequency == OneOff then corrected[month := Payment(cash, day)]
      else if e.frequency != OneOff && d.frequency == OneOff && cash > 0 && month !in e.payments then
        corrected[month := Payment(cash, day)]
      else corrected
  }

  function Written(e: Expense, d: Draft, input: UpdateInput): Expense {
    e.(frequency := d.frequency, amount := d.amount, schedule := d.schedule,
       cardId := if d.splits.Some? then DenormalizedCardId(d.splits.value) else e.cardId,
       splits := d.splits.GetOr(e.splits), payments := PaymentsAfter(e, d, input))
  }

  function Updated(e: Expense, input: UpdateInput, today: int, g: Guards): Result<Expense, Error> {
    match DraftOf(e, input, today, g)
    case Err(p) => Err(p)
    case Ok(d) =>
      var refusal := Refused(e, d, input, today, g);
      if refusal.Some? then Err(refusal.value) else Ok(Written(e, d, input))
  }

  // ---- pay and archive ----

  function Paid(e: Expense, month: int, today: int): Result<Expense, Error> {
    var cash := if e.isInvoice then e.amount else CashOf(e);
    if e.archived || e.origin != Manual then Err(NotFound)
    else if e.isInvoice && e.invoiceMonth != Some(month) then Err(OtherCycle)
    else if !e.isInvoice && e.frequency != Monthly then Err(NotMonthly)
    else if cash <= 0 then Err(CardOnly)
    else if !e.isInvoice && e.schedule.startsAt.Some? && CivilDate.MonthOf(e.schedule.startsAt.value) > month then
      Err(NotStarted)
    else if !e.isInvoice && e.schedule.endsAt.Some? && CivilDate.MonthOf(e.schedule.endsAt.value) < month then
      Err(AlreadyEnded)
    else
      var day := if e.paidForMonth == Some(month) then e.paidAt.GetOr(today) else today;
      var payments := if month in e.payments then e.payments else e.payments[month := Payment(cash, day)];
      Ok(if e.paidForMonth == Some(month) then e.(payments := payments)
         else e.(payments := payments, paidForMonth := Some(month), paidAt := Some(payments[month].paidAt)))
  }

  function Archived(e: Expense, g: Guards): Result<Expense, Error> {
    if e.archived then Err(NotFound)
    else if e.origin != Manual then Err(SystemRow)
    else if e.isInvoice then Err(InvoiceRow)
    else if !g.caughtUp then Err(Billing)
    else if e.cardId.Some? || AnyCard(e.splits) || g.cardHistory then Err(HasCard)
    else if !g.concurrent then Err(Billing)
    else Ok(e.(archived := true))
  }

  // ---- what every reachable expense keeps ----

  predicate GoodSplits(splits: seq<ResolvedSplit>, amount: int) {
    splits != [] ==>
      && (|splits| == 1 || |splits| == 2)
      && (splits[0].kind == Card || splits[|splits| - 1].kind == Card)
      && (forall i :: 0 <= i < |splits| ==> 0 <= splits[i].amount <= amount)
      && (forall i :: 0 <= i < |splits| ==> (splits[i].kind == Card <==> splits[i].cardId.Some?))
      && (if |splits| == 1 then splits[0].amount else splits[0].amount + splits[1].amount) == amount
  }

  /** A one-off has exactly one payment, equal to its cash share and dated like it, or none when that share is zero. */
  predicate ExactCash(e: Expense) {
    e.frequency == OneOff ==> e.schedule.date.Some? && e.payments == CashPayment(e.schedule.date, CashOf(e))
  }

  predicate Sound(e: Expense) {
    && e.origin == Manual && !e.isInvoice
    && e.amount > 0 && GoodSplits(e.splits, e.amount)
    && (e.splits != [] ==> e.cardId == DenormalizedCardId(e.splits))
    && S.WellScheduled(e.frequency == OneOff, e.schedule)
    && ExactCash(e)
  }

  lemma PixTotalOfTwo(splits: seq<ResolvedSplit>)
    requires |splits| == 1 || |splits| == 2
    ensures PixTotal(splits) == (if splits[0].kind == Pix then splits[0].amount else 0)
      + (if |splits| == 2 && splits[1].kind == Pix then splits[1].amount else 0)
  {
    if |splits| == 2 {
      assert splits[1..] == [splits[1]] && splits[1..][1..] == [];
    }
  }

  /** The cash share lies between nothing and the whole. */
  lemma CashShareBounds(e: Expense)
    requires GoodSplits(e.splits, e.amount) && e.amount > 0
    ensures 0 <= CashOf(e) <= e.amount
  {
    if e.splits != [] {
      PixTotalOfTwo(e.splits);
    }
  }

  lemma SumOfTwo(amounts: seq<int>)
    requires |amounts| == 1 || |amounts| == 2
    ensures Sum(amounts) == if |amounts| == 1 then amounts[0] else amounts[0] + amounts[1]
  {
    if |amounts| == 1 {
      assert amounts[..0] == [];
    } else {
      assert amounts[..1] == [amounts[0]] && amounts[..1][..0] == [];
    }
  }

  lemma ResolvedAreGood(total: int, splits: S.Field<seq<SplitInput>>, cardId: S.Field<string>, g: Guards)
    requires total > 0 && ResolveSplits(total, splits, cardId, g).Ok?
    ensures GoodSplits(ResolveSplits(total, splits, cardId, g).value, total)
  {
    hide ValidateSplitShape, AllocatedParts, Sum;
    var parts := NormalizeSplitInputs(splits, cardId).value;
    if parts.Some? && parts.value != [] {
      var inputs := parts.value;
      AcceptedShape(inputs);
      AcceptedPartsFit(total, inputs);
      SumOfTwo(Amounts(AllocateSplitAmounts(total, inputs)));
    }
  }

  lemma NextSplitsAreGood(e: Expense, input: UpdateInput, amount: int, g: Guards)
    requires amount > 0 && NextSplits(e, input, amount, g).Ok? && NextSplits(e, input, amount, g).value.Some?
    ensures GoodSplits(NextSplits(e, input, amount, g).value.value, amount)
  {
    hide ResolveSplits, GoodSplits, ExistingSplitInputs;
    if !input.splits.Absent? || !input.cardId.Absent? {
      ResolvedAreGood(amount, input.splits, input.cardId, g);
    } else {
      ResolvedAreGood(amount, S.Given(ExistingSplitInputs(e)), S.Absent, g);
    }
  }

  function ShareOf(splits: seq<ResolvedSplit>, legacyCard: Option<string>, amount: int): int {
    if splits != [] then PixTotal(splits) else if legacyCard.Some? then 0 else amount
  }

  lemma PairOrder(a: seq<ResolvedSplit>, b: seq<ResolvedSplit>)
    requires |a| == 2 && multiset(a) == multiset(b)
    ensures |b| == 2 && (b == a || b == [a[1], a[0]])
  {
    assert |multiset(b)| == 2;
    assert a == [a[0], a[1]] && b == [b[0], b[1]];
    assert b[0] in multiset(a) && b[1] in multiset(a);
    if b[0] == a[0] {
      assert multiset(a) - multiset{a[0]} == multiset{a[1]};
      assert multiset(b) - multiset{b[0]} == multiset{b[1]};
      assert b[1] in multiset{a[1]};
    } else {
      assert multiset(a) - multiset{a[1]} == multiset{a[0]};
      assert multiset(b) - multiset{b[0]} == multiset{b[1]};
      assert b[1] in multiset{a[0]};
    }
  }

  /** Terms that compare equal have the same cash share. */
  lemma ComparableTellsCash(a: seq<ResolvedSplit>, cardA: Option<string>, x: int, b: seq<ResolvedSplit>,
                            cardB: Option<string>, y: int)
    requires GoodSplits(a, x) && GoodSplits(b, y) && Comparable(a, cardA, x) == Comparable(b, cardB, y)
    ensures ShareOf(a, cardA, x) == ShareOf(b, cardB, y)
  {
    var left, right := InForce(a, cardA, x), InForce(b, cardB, y);
    InForceMeaning(a, cardA, x);
    InForceMeaning(b, cardB, y);
    assert |multiset(left)| == |left| && |multiset(right)| == |right|;
    if |left| == 2 {
      PairOrder(left, right);
    } else {
      assert left == [left[0]] && right == [right[0]];
      assert left[0] in multiset(right);
    }
    PixTotalOfTwo(left);
    PixTotalOfTwo(right);
  }

  function InForce(splits: seq<ResolvedSplit>, legacyCard: Option<string>, amount: int): seq<ResolvedSplit> {
    if splits != [] then splits
    else if legacyCard.Some? then [ResolvedSplit(Card, legacyCard, WHOLE, amount)]
    else [ResolvedSplit(Pix, None, WHOLE, amount)]
  }

  lemma InForceMeaning(splits: seq<ResolvedSplit>, legacyCard: Option<string>, amount: int)
    requires GoodSplits(splits, amount)
    ensures var all := InForce(splits, legacyCard, amount);
      && (|all| == 1 || |all| == 2) && Comparable(splits, legacyCard, amount) == multiset(all)
      && ShareOf(splits, legacyCard, amount) == PixTotal(all)
  {
    PixTotalOfTwo(InForce(splits, legacyCard, amount));
  }

  lemma CreatedIsSound(input: CreateInput, today: int, g: Guards)
    requires Created(input, today, g).Ok?
    ensures Sound(Created(input, today, g).value)
  {
    hide ResolveSplits, CivilDate.MonthOf, GoodSplits, PixTotal, AnyCard;
    ResolvedAreGood(input.amount, input.splits, input.cardId, g);
  }

  /** What a draft guarantees: sound terms, and no change of amount or frequency that forgets stored splits. */
  lemma DraftFacts(e: Expense, input: UpdateInput, today: int, g: Guards)
    requires Sound(e) && DraftOf(e, input, today, g).Ok?
    ensures var d := DraftOf(e, input, today, g).value;
      && d.amount > 0 && (e.frequency == OneOff ==> d.frequency == OneOff)
      && S.WellScheduled(d.frequency == OneOff, d.schedule)
      && (d.splits.Some? ==> GoodSplits(d.splits.value, d.amount))
      && (d.splits.None? && (d.amount != e.amount || d.frequency != e.frequency) ==> e.splits == [] && e.cardId.None?)
  {
    hide ResolveSplits, GoodSplits, CivilDate.MonthOf, ExactCash;
    var amount := input.amount.GetOr(e.amount);
    if NextSplits(e, input, amount, g).value.Some? {
      NextSplitsAreGood(e, input, amount, g);
    }
  }

  lemma GoodPixSplitsAreEmpty(splits: seq<ResolvedSplit>, amount: int)
    requires GoodSplits(splits, amount) && (AllPix(splits) || !AnyCard(splits))
    ensures splits == []
  {
  }

  predicate GoodDraft(e: Expense, d: Draft) {
    && d.amount > 0 && (e.frequency == OneOff ==> d.frequency == OneOff)
    && S.WellScheduled(d.frequency == OneOff, d.schedule)
    && (d.splits.Some? ==> GoodSplits(d.splits.value, d.amount))
    && (d.splits.None? && (d.amount != e.amount || d.frequency != e.frequency) ==> e.splits == [] && e.cardId.None?)
  }

  lemma CorrectionIsExact(e: Expense, d: Draft, input: UpdateInput)
    requires Sound(e) && GoodDraft(e, d) && Corrects(e, d, input)
    ensures ExactCash(Written(e, d, input)) && CashOf(Written(e, d, input)) == d.amount
  {
    hide CivilDate.MonthOf;
    GoodPixSplitsAreEmpty(e.splits, e.amount);
    if d.splits.Some? {
      GoodPixSplitsAreEmpty(d.splits.value, d.amount);
    }
  }

  lemma UnpaidChangeIsExact(e: Expense, d: Draft, input: UpdateInput, g: Guards)
    requires Sound(e) && GoodDraft(e, d) && e.frequency == OneOff && OneOffChange(e, d) && !Corrects(e, d, input)
    requires OneOffRefused(e, d, input, g).None?
    ensures ExactCash(Written(e, d, input))
  {
    hide CivilDate.MonthOf, Corrects, OneOffChange, GoodSplits, PixTotal;
    CashShareBounds(e);
    if d.splits.Some? {
      ShareBounds(d.splits.value, d.amount);
    }
  }

  lemma ShareBounds(splits: seq<ResolvedSplit>, amount: int)
    requires GoodSplits(splits, amount) && amount > 0
    ensures 0 <= CashAmountOf(splits, amount) <= amount
  {
    if splits != [] {
      PixTotalOfTwo(splits);
    }
  }

  lemma UnchangedIsExact(e: Expense, d: Draft, input: UpdateInput)
    requires Sound(e) && GoodDraft(e, d) && e.frequency == OneOff && !OneOffChange(e, d) && !Corrects(e, d, input)
    ensures ExactCash(Written(e, d, input)) && CashOf(Written(e, d, input)) == CashOf(e)
  {
    hide CivilDate.MonthOf, Corrects, GoodSplits, PixTotal, Comparable;
    if d.splits.Some? {
      ComparableTellsCash(d.splits.value, None, d.amount, e.splits, e.cardId, e.amount);
    }
  }

  lemma EndedRecurrenceIsExact(e: Expense, d: Draft, input: UpdateInput, today: int, g: Guards)
    requires Sound(e) && GoodDraft(e, d) && e.frequency != OneOff && d.frequency == OneOff
    requires RecurrenceRefused(e, d, today, g).None?
    ensures ExactCash(Written(e, d, input))
  {
    hide CivilDate.MonthOf, GoodSplits, PixTotal;
    GoodPixSplitsAreEmpty(e.splits, e.amount);
  }

  /** No accepted edit breaks the exact cash record of a one-off. */
  lemma UpdateKeepsSound(e: Expense, input: UpdateInput, today: int, g: Guards)
    requires Sound(e) && Updated(e, input, today, g).Ok?
    ensures Sound(Updated(e, input, today, g).value)
  {
    DraftFacts(e, input, today, g);
    var d := DraftOf(e, input, today, g).value;
    hide DraftOf, Corrects, OneOffChange, VersionedChange, DateChanged, OneOffRefused, RecurrenceRefused,
      ScheduleChanged, PaymentsAfter, GoodSplits, CashOf, CivilDate.MonthOf;
    assert GoodDraft(e, d);
    if Corrects(e, d, input) {
      CorrectionIsExact(e, d, input);
    } else if e.frequency != OneOff && d.frequency == OneOff {
      EndedRecurrenceIsExact(e, d, input, today, g);
    } else if e.frequency == OneOff && OneOffChange(e, d) {
      UnpaidChangeIsExact(e, d, input, g);
    } else if e.frequency == OneOff {
      UnchangedIsExact(e, d, input);
    }
    WrittenTermsAreGood(e, d, input);
  }

  lemma WrittenTermsAreGood(e: Expense, d: Draft, input: UpdateInput)
    requires Sound(e) && GoodDraft(e, d)
    ensures var w := Written(e, d, input);
      && w.origin == Manual && !w.isInvoice && w.amount > 0 && GoodSplits(w.splits, w.amount)
      && (w.splits != [] ==> w.cardId == DenormalizedCardId(w.splits))
      && S.WellScheduled(w.frequency == OneOff, w.schedule)
  {
    hide PaymentsAfter, ExactCash;
  }

  // ---- whole lives ----

  datatype Change =
    | Edit(input: UpdateInput, today: int, guards: Guards)
    | Pay(month: int, today: int)
    | Archive(guards: Guards)

  function Attempt(e: Expense, c: Change): Result<Expense, Error> {
    match c
    case Edit(input, today, g) => Updated(e, input, today, g)
    case Pay(month, today) => Paid(e, month, today)
    case Archive(g) => Archived(e, g)
  }

  function Step(e: Expense, c: Change): Expense {
    var r := Attempt(e, c);
    if r.Ok? then r.value else e
  }

  function Life(e: Expense, changes: seq<Change>): Expense
    decreases |changes|
  {
    if changes == [] then e else Life(Step(e, changes[0]), changes[1..])
  }

  lemma StepKeepsSound(e: Expense, c: Change)
    requires Sound(e)
    ensures Sound(Step(e, c)) && (e.frequency == OneOff ==> Step(e, c).frequency == OneOff)
  {
    hide GoodSplits, PixTotal, AnyCard, CivilDate.MonthOf, Refused, PaymentsAfter, S.ResolveSchedule, NextSplits;
    if c.Edit? && Updated(e, c.input, c.today, c.guards).Ok? {
      UpdateKeepsSound(e, c.input, c.today, c.guards);
    }
  }

  /**
   * In every reachable state a one-off has exactly one payment, equal to its cash share and dated and keyed to its
   * day, or none when that share is zero; and a one-off never becomes recurring.
   */
  lemma {:induction false} LifeKeepsExactCash(e: Expense, changes: seq<Change>)
    requires Sound(e)
    ensures Sound(Life(e, changes)) && ExactCash(Life(e, changes))
    ensures e.frequency == OneOff ==> Life(e, changes).frequency == OneOff
    decreases |changes|
  {
    hide Step, GoodSplits, CashOf, CashPayment, S.WellScheduled;
    if changes != [] {
      StepKeepsSound(e, changes[0]);
      LifeKeepsExactCash(Step(e, changes[0]), changes[1..]);
    }
  }

  /** A paid one-off changes amount, day or terms only as the correction of a whole-PIX expense. */
  lemma PaidOneOffMovesOnlyByCorrection(e: Expense, input: UpdateInput, today: int, g: Guards)
    requires Sound(e) && e.frequency == OneOff && e.payments != map[] && Updated(e, input, today, g).Ok?
    ensures var w := Updated(e, input, today, g).value;
      if e.splits == [] && e.cardId.None? then
        w.splits == [] && w.cardId.None? && w.schedule.date.Some?
        && w.payments == map[CivilDate.MonthOf(w.schedule.date.value) := Payment(w.amount, w.schedule.date.value)]
      else
        w.amount == e.amount && w.schedule.date == e.schedule.date && w.payments == e.payments
        && Comparable(w.splits, w.cardId, w.amount) == Comparable(e.splits, e.cardId, e.amount)
  {
    UpdateKeepsSound(e, input, today, g);
    DraftFacts(e, input, today, g);
    hide DraftOf, CivilDate.MonthOf, ExactCash, PixTotal, GoodSplits;
    var d := DraftOf(e, input, today, g).value;
    if Corrects(e, d, input) {
      CorrectedIsWholePix(e, d, input);
    } else {
      assert !OneOffChange(e, d);
      UnchangedKeepsTerms(e, d, input);
    }
  }

  lemma CorrectedIsWholePix(e: Expense, d: Draft, input: UpdateInput)
    requires Sound(e) && GoodDraft(e, d) && Corrects(e, d, input)
    ensures e.splits == [] && e.cardId.None?
    ensures var w := Written(e, d, input);
      w.splits == [] && w.cardId.None? && w.schedule.date.Some?
      && w.payments == map[CivilDate.MonthOf(w.schedule.date.value) := Payment(w.amount, w.schedule.date.value)]
  {
    hide CivilDate.MonthOf;
    GoodPixSplitsAreEmpty(e.splits, e.amount);
    if d.splits.Some? {
      GoodPixSplitsAreEmpty(d.splits.value, d.amount);
    }
  }

  lemma UnchangedKeepsTerms(e: Expense, d: Draft, input: UpdateInput)
    requires Sound(e) && GoodDraft(e, d) && e.frequency == OneOff && e.payments != map[]
    requires !OneOffChange(e, d) && !Corrects(e, d, input)
    ensures var w := Written(e, d, input);
      && w.amount == e.amount && w.schedule.date == e.schedule.date && w.payments == e.payments
      && Comparable(w.splits, w.cardId, w.amount) == Comparable(e.splits, e.cardId, e.amount)
      && (e.splits == [] && e.cardId.None? ==> w.splits == [] && w.cardId.None?)
      && ExactCash(w)
  {
    hide CivilDate.MonthOf, Corrects, PixTotal;
    UnchangedIsExact(e, d, input);
    if d.splits.Some? && e.splits == [] && e.cardId.None? && d.splits.value != [] {
      ComparesToWholePix(d.splits.value, e.amount);
    }
  }

  lemma ComparesToWholePix(splits: seq<ResolvedSplit>, amount: int)
    requires splits != [] && GoodSplits(splits, amount)
    ensures multiset(splits) != multiset{ResolvedSplit(Pix, None, WHOLE, amount)}
  {
    var whole := ResolvedSplit(Pix, None, WHOLE, amount);
    if |splits| == 1 {
      assert splits[0] in multiset(splits);
    } else {
      assert |multiset(splits)| == 2;
    }
  }

  /**
   * For recurrences the version history sees every change of terms except one: moving the whole charge from a card to
   * cash at the same amount, because the empty split is then compared with the old card still in place.
   */
  lemma VersionedChangeMissesMovesToCash(e: Expense, d: Draft)
    requires Sound(e) && d.splits.Some? && GoodSplits(d.splits.value, d.amount)
    ensures var differs := d.amount != e.amount
              || Comparable(d.splits.value, None, d.amount) != Comparable(e.splits, e.cardId, e.amount);
      var moved := d.splits.value == [] && d.amount == e.amount && e.cardId.Some?
              && (e.splits == [] || e.splits[0].percent == WHOLE);
      VersionedChange(e, d) <==> differs && !moved
  {
    var card := ResolvedSplit(Card, e.cardId, WHOLE, e.amount);
    if d.splits.value == [] && e.cardId.Some? && e.splits != [] {
      assert |e.splits| == 1 && e.splits == [e.splits[0]];
      assert e.splits[0] in multiset(e.splits);
      assert e.splits[0].amount == e.amount;
    }
  }

  /** Null splits and nothing else: the request that moves an expense to cash as it is. */
  const TO_CASH: UpdateInput :=
    UpdateInput(None, None, S.Empty, S.Absent, S.Body(S.Absent, S.Absent, S.Absent, S.Absent))

  const PERMISSIVE: Guards := Guards(true, true, false, false, true, true, false, true)

  /**
   * Such a move is accepted for every recurrence wholly on a card, paid or not: its whole amount leaves the card for
   * cash, and the version history sees no change.
   */
  lemma MoveToCashGoesUnseen(e: Expense, today: int)
    requires Sound(e) && !e.archived && e.frequency != OneOff && e.cardId.Some?
    requires e.splits == [] || e.splits[0].percent == WHOLE
    ensures DraftOf(e, TO_CASH, today, PERMISSIVE).Ok? && Updated(e, TO_CASH, today, PERMISSIVE).Ok?
    ensures var d, after := DraftOf(e, TO_CASH, today, PERMISSIVE).value, Updated(e, TO_CASH, today, PERMISSIVE).value;
      && CashOf(e) == 0 && CashOf(after) == after.amount == e.amount && after.cardId == None
      && Comparable(after.splits, after.cardId, after.amount) != Comparable(e.splits, e.cardId, e.amount)
      && !VersionedChange(e, d)
  {
    hide CivilDate.MonthOf;
    var d := DraftOf(e, TO_CASH, today, PERMISSIVE).value;
    assert d == Draft(e.frequency, e.amount, e.schedule, Some([]));
    VersionedChangeMissesMovesToCash(e, d);
    WholeCardHasNoCash(e);
  }

  lemma WholeCardHasNoCash(e: Expense)
    requires Sound(e) && e.cardId.Some?
    ensures CashOf(e) == 0
    ensures Comparable([], None, e.amount) != Comparable(e.splits, e.cardId, e.amount)
  {
    var pix := ResolvedSplit(Pix, None, WHOLE, e.amount);
    assert pix in Comparable([], None, e.amount);
    if e.splits != [] {
      assert e.splits == [e.splits[0]] && e.splits[0].kind == Card;
      PixTotalOfTwo(e.splits);
    }
    assert pix !in Comparable(e.splits, e.cardId, e.amount);
  }

  // ---- payments ----

  /** The cash one payment records: an invoice is paid whole, any other expense at its cash share. */
  function Due(e: Expense): int {
    if e.isInvoice then e.amount else CashOf(e)
  }

  /**
   * A payment is recorded once per month, at what is due; other months and the terms stay as they are, an invoice is
   * paid only in its own month, and paying again changes no payment row.
   */
  lemma PaymentIsOncePerMonth(e: Expense, month: int, today: int, later: int)
    requires Paid(e, month, today).Ok?
    ensures var after := Paid(e, month, today).value;
      && month in after.payments
      && (month in e.payments ==> after.payments == e.payments)
      && (month !in e.payments ==> after.payments[month].amount == Due(e) > 0)
      && after.payments.Keys == e.payments.Keys + {month}
      && (forall m :: m in e.payments ==> after.payments[m] == e.payments[m])
      && after == e.(payments := after.payments, paidForMonth := after.paidForMonth, paidAt := after.paidAt)
      && after.paidForMonth == Some(month)
      && (e.isInvoice ==> e.invoiceMonth == Some(month)) && (!e.isInvoice ==> e.frequency == Monthly)
      && Paid(after, month, later) == Ok(after)
  {
    hide CivilDate.MonthOf, PixTotal;
  }

  // ---- the stored expenses ----

  ghost predicate Kept(e: Expense) {
    e.origin == Manual && !e.isInvoice ==> Sound(e)
  }

  lemma SoundIsKept(e: Expense)
    requires Sound(e)
    ensures Kept(e)
  {
  }

  lemma OnlyManualIsEdited(e: Expense, input: UpdateInput, today: int, g: Guards)
    requires Kept(e) && Updated(e, input, today, g).Ok?
    ensures Kept(Updated(e, input, today, g).value)
  {
    hide Refused, Written, S.ResolveSchedule, NextSplits, Sound;
    UpdateKeepsSound(e, input, today, g);
  }

  lemma StepKeepsKept(e: Expense, c: Change)
    requires Kept(e)
    ensures Kept(Step(e, c))
  {
    hide Refused, Written, S.ResolveSchedule, NextSplits, Sound, CashOf, CivilDate.MonthOf, AnyCard;
    if e.origin == Manual && !e.isInvoice {
      StepKeepsSound(e, c);
    }
  }

  class Store {
    var expenses: map<int, Expense>
    var nextId: int

    /** The table also holds invoices and rows of other services; the promise is about manual expenses. */
    ghost predicate Valid()
      reads this
    {
      forall id :: id in expenses ==> id < nextId && Kept(expenses[id])
    }

    constructor ()
      ensures Valid() && expenses == map[]
    {
      expenses, nextId := map[], 0;
    }

    method CreateExpense(input: CreateInput, today: int, g: Guards) returns (id: Result<int, Error>)
      requires Valid()
      modifies this
      ensures Valid()
      ensures match Created(input, today, g)
        case Err(e) => id == Err(e) && expenses == old(expenses)
        case Ok(created) => id == Ok(old(nextId)) && expenses == old(expenses)[old(nextId) := created]
    {
      hide Kept, Created;
      var created := Created(input, today, g);
      if created.Err? {
        return Err(created.error);
      }
      CreatedIsSound(input, today, g);
      SoundIsKept(created.value);
      expenses := expenses[nextId := created.value];
      nextId := nextId + 1;
      return Ok(nextId - 1);
    }

    /** Billing and other services: they write invoices and rows of their own, and leave manual expenses alone. */
    method OtherServiceWrites(row: Expense)
      requires Valid() && (row.isInvoice || row.origin != Manual)
      modifies this
      ensures Valid() && expenses == old(expenses)[old(nextId) := row]
    {
      expenses := expenses[nextId := row];
      nextId := nextId + 1;
    }

    /** One locked edit: the row, then its payment, splits and any newly recorded cash, in that order. */
    method UpdateExpense(id: int, input: UpdateInput, today: int, g: Guards) returns (answer: Result<(), Error>)
      requires Valid()
      modifies `expenses
      ensures Valid()
      ensures if id !in old(expenses) then answer == Err(NotFound) && expenses == old(expenses)
        else match Updated(old(expenses)[id], input, today, g)
             case Err(e) => answer == Err(e) && expenses == old(expenses)
             case Ok(updated) => answer == Ok(()) && expenses == old(expenses)[id := updated]
    {
      hide Sound, Kept, DraftOf, Refused, CivilDate.MonthOf, DenormalizedCardId, CashAmountOf;
      if id !in expenses {
        return Err(NotFound);
      }
      var existing := expenses[id];
      var draft := DraftOf(existing, input, today, g);
      if draft.Err? {
        return Err(draft.error);
      }
      var d := draft.value;
      var refusal := Refused(existing, d, input, today, g);
      if refusal.Some? {
        return Err(refusal.value);
      }
      OnlyManualIsEdited(existing, input, today, g);
      var row := existing.(frequency := d.frequency, amount := d.amount, schedule := d.schedule);
      if d.splits.Some? {
        row := row.(cardId := DenormalizedCardId(d.splits.value));
      }
      if Corrects(existing, d, input) && d.schedule.date.Some? {
        var day := d.schedule.date.value;
        row := row.(payments := map[CivilDate.MonthOf(day) := Payment(d.amount, day)]);
      }
      if d.splits.Some? {
        row := row.(splits := d.splits.value);
      }
      if RecordsNewCash(existing, d, input) && existing.frequency == OneOff && d.schedule.date.Some? {
        var day, cash := d.schedule.date.value, CashAmountOf(d.splits.GetOr([]), d.amount);
        row := row.(payments := row.payments[CivilDate.MonthOf(day) := Payment(cash, day)]);
      }
      if existing.frequency != OneOff && d.frequency == OneOff && d.schedule.date.Some? {
        var day, cash := d.schedule.date.value, CashAmountOf(d.splits.GetOr([]), d.amount);
        if cash > 0 && CivilDate.MonthOf(day) !in existing.payments {
          row := row.(payments := row.payments[CivilDate.MonthOf(day) := Payment(cash, day)]);
        }
      }
      assert row == Written(existing, d, input);
      expenses := expenses[id := row];
      return Ok(());
    }

    method PayExpense(id: int, month: int, today: int) returns (answer: Result<(), Error>)
      requires Valid()
      modifies `expenses
      ensures Valid()
      ensures if id !in old(expenses) then answer == Err(NotFound) && expenses == old(expenses)
        else expenses == old(expenses)[id := Step(old(expenses)[id], Pay(month, today))]
             && (answer.Ok? <==> Paid(old(expenses)[id], month, today).Ok?)
    {
      hide Kept, Paid;
      if id !in expenses {
        return Err(NotFound);
      }
      StepKeepsKept(expenses[id], Pay(month, today));
      var paid := Paid(expenses[id], month, today);
      if paid.Err? {
        assert expenses == expenses[id := expenses[id]];
        return Err(paid.error);
      }
      expenses := expenses[id := paid.value];
      return Ok(());
    }

    method ArchiveExpense(id: int, g: Guards) returns (answer: Result<(), Error>)
      requires Valid()
      modifies `expenses
      ensures Valid()
      ensures if id !in old(expenses) then answer == Err(NotFound) && expenses == old(expenses)
        else expenses == old(expenses)[id := Step(old(expenses)[id], Archive(g))]
             && (answer.Ok? <==> Archived(old(expenses)[id], g).Ok?)
    {
      hide Kept, Archived;
      if id !in expenses {
        return Err(NotFound);
      }
      StepKeepsKept(expenses[id], Archive(g));
      var gone := Archived(expenses[id], g);
      if gone.Err? {
        assert expenses == expenses[id := expenses[id]];
        return Err(gone.error);
      }
      expenses := expenses[id := gone.value];
      return Ok(());
    }
  }
}
