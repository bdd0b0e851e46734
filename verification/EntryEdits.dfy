/** What requests about income entries do, told from the request and the rows before and after. */
module EntryEdits {
  import opened Wrappers
  import opened Entries
  import CivilDate
  import S = Schedule

  // ---- create, edit and archive ----

  /** A request is accepted exactly when it is no salary, its tag fits and its schedule is good; then it is stored. */
  lemma CreatedAsAsked(input: CreateInput, today: int, now: int)
    ensures var asked := S.Asked(input.frequency == OneOff, input.body, S.NOTHING);
      && (Created(input, today, now).Ok? <==>
            && input.kind != Salary && (input.tag.Some? ==> input.kind == Other)
            && S.WellScheduled(input.frequency == OneOff, asked)
            && (input.frequency != OneOff ==> !input.body.endsAt.Unreadable?))
      && (Created(input, today, now).Ok? ==>
            var e := Created(input, today, now).value;
            && e.kind == input.kind && e.frequency == input.frequency && e.amount == input.amount
            && e.tag == input.tag && e.schedule == asked && e.origin == Manual && !e.archived
            && e.createdOn == today && e.updatedAt == now && e.receipts == map[] && e.holds == {} && e.versions == []
            && e.receivedForMonth.None? && e.holdForMonth.None? && e.receivedAt.None?)
  {
  }

  /** An accepted edit stores what was sent, keeps what was not, and moves the version to its own stamp. */
  lemma EditTakesEffect(e: Entry, input: UpdateInput, now: int)
    requires Updated(e, input, now).Ok?
    ensures var after := Updated(e, input, now).value;
      && after.kind == input.kind.GetOr(e.kind) && after.frequency == input.frequency.GetOr(e.frequency)
      && after.amount == input.amount.GetOr(e.amount) && after.tag == input.tag.GetOr(e.tag)
      && after.schedule == S.Asked(after.frequency == OneOff, input.body, e.schedule) && after.updatedAt == now
      && after == e.(kind := after.kind, frequency := after.frequency, amount := after.amount, tag := after.tag,
                     schedule := after.schedule, updatedAt := now)
  {
  }

  /** Only live manual entries outside the salary profile are edited, and never a received one-off into a recurrence. */
  lemma EditIsAccepted(e: Entry, input: UpdateInput, now: int)
    requires Sound(e)
    ensures var frequency := input.frequency.GetOr(e.frequency);
      var asked := S.Asked(frequency == OneOff, input.body, e.schedule);
      Updated(e, input, now).Ok? <==>
      && !e.archived && e.origin == Manual && e.kind != Salary && input.kind != Some(Salary)
      && (e.frequency == OneOff && e.receipts != map[] ==> frequency == OneOff)
      && (input.tag.GetOr(e.tag).Some? ==> input.kind.GetOr(e.kind) == Other)
      && S.WellScheduled(frequency == OneOff, asked) && (frequency != OneOff ==> !input.body.endsAt.Unreadable?)
  {
    hide CivilDate.MonthOf;
  }

  /** Archiving marks a live manual entry and stamps it; salaries are ended through the profile instead. */
  lemma ArchivingMarks(e: Entry, now: int)
    ensures Archived(e, now).Ok? <==> !e.archived && e.origin == Manual && e.kind != Salary
    ensures Archived(e, now).Ok? ==> Archived(e, now).value == e.(archived := true, updatedAt := now)
  {
  }

  /**
   * Receipts are for live manual one-offs and monthly salaries. With its current version a one-off takes a receipt
   * dated in the month asked for, up to today, or the return to waiting; a receipt it has may only be confirmed again
   * or taken back in its own month.
   */
  lemma ReceiptIsAccepted(e: Entry, r: ReceiptRequest, today: int, now: int)
    requires e.frequency == OneOff ==> r.version == Some(e.updatedAt)
    ensures WithReceiptState(e, r, today, now).Ok? <==>
      && !e.archived && e.origin == Manual
      && if e.frequency != OneOff
         then e.kind == Salary && e.frequency == Monthly && SalaryReceipt(e, r, today, now).Ok?
         else
           match r.state
           case Automatic => false
           case Waiting => r.day == S.Absent && (e.receipts == map[] || r.month in e.receipts)
           case Received =>
             && r.day.Given? && CivilDate.MonthOf(r.day.value) == r.month && r.day.value <= today
             && (e.receipts == map[] || (r.month in e.receipts && e.receipts[r.month].receivedAt == r.day.value))
  {
    hide CivilDate.MonthOf, SalaryReceipt;
  }

  // ---- salaries ----

  lemma {:induction false} NoVersionInForce(versions: seq<SalaryVersion>, month: int)
    ensures SalaryIn(versions, month).None? <==> forall v :: v in versions ==> v.month > month
  {
    if versions != [] {
      NoVersionInForce(versions[1..], month);
      assert versions == [versions[0]] + versions[1..];
    }
  }

  /** The salary of a month is the version of the latest month up to it. */
  lemma {:induction false} SalaryInForce(versions: seq<SalaryVersion>, month: int)
    requires SalaryIn(versions, month).Some?
    ensures var v := SalaryIn(versions, month).value;
      v in versions && v.month <= month && forall u :: u in versions && u.month <= month ==> u.month <= v.month
  {
    var rest := versions[1..];
    assert versions == [versions[0]] + rest;
    if SalaryIn(rest, month).Some? {
      SalaryInForce(rest, month);
    } else {
      NoVersionInForce(rest, month);
    }
  }

  /**
   * A salary receipt records the salary of its month on the day it is confirmed, once; waiting or automatic takes it
   * back. The month is on hold exactly while it waits, and other months stay as they were.
   */
  lemma SalaryReceiptRecords(e: Entry, r: ReceiptRequest, today: int, now: int)
    requires SalaryReceipt(e, r, today, now).Ok?
    ensures var after, salary := SalaryReceipt(e, r, today, now).value, SalaryIn(e.versions, r.month);
      && salary.Some? && (r.state == Received ==> salary.value.amount != 0)
      && (r.month in after.receipts <==> r.state == Received)
      && (r.state == Received ==>
            after.receipts[r.month]
            == if r.month in e.receipts then e.receipts[r.month] else Receipt(salary.value.amount, today))
      && (forall m :: m != r.month ==>
            (m in after.receipts <==> m in e.receipts) && (m in after.holds <==> m in e.holds)
            && (m in e.receipts ==> after.receipts[m] == e.receipts[m]))
      && (r.month in after.holds <==> r.state == Waiting)
      && after.receivedForMonth == (if r.state == Received then Some(r.month) else None)
      && after.holdForMonth == (if r.state == Waiting then Some(r.month) else None)
      && after.receivedAt == (if r.state == Received then Some(after.receipts[r.month].receivedAt) else None)
      && after == e.(receipts := after.receipts, holds := after.holds, receivedForMonth := after.receivedForMonth,
                     holdForMonth := after.holdForMonth, receivedAt := after.receivedAt, updatedAt := now)
  {
    hide CivilDate.MonthOf, SalaryIn;
  }

  /** It is refused exactly for a day or a version sent along, a month out of force, or no salary in force. */
  lemma SalaryReceiptIsAccepted(e: Entry, r: ReceiptRequest, today: int, now: int)
    ensures SalaryReceipt(e, r, today, now).Ok? <==>
      && r.day.Absent? && r.version.None?
      && (e.schedule.startsAt.Some? ==> CivilDate.MonthOf(e.schedule.startsAt.value) <= r.month)
      && (e.schedule.endsAt.Some? ==> CivilDate.MonthOf(e.schedule.endsAt.value) >= r.month)
      && (exists v :: v in e.versions && v.month <= r.month)
      && (r.state == Received ==>
            SalaryIn(e.versions, r.month).Some? && SalaryIn(e.versions, r.month).value.amount != 0)
  {
    hide CivilDate.MonthOf;
    NoVersionInForce(e.versions, r.month);
    hide SalaryIn;
  }

  /** A profile edit stores salary and day; zero keeps the day and ends the salary the day before this month begins. */
  lemma SalaryEditTakesEffect(e: Entry, input: SalaryInput, now: int)
    requires SalaryEdited(e, input, now).Ok?
    ensures var after := SalaryEdited(e, input, now).value;
      && after.amount == input.amount && after.updatedAt == now
      && (input.amount > 0 ==> after.schedule == e.schedule.(day := input.day, endsAt := None) && input.day.Some?)
      && (input.amount == 0 ==>
            && after.schedule.endsAt.Some? && after.schedule == e.schedule.(endsAt := after.schedule.endsAt)
            && CivilDate.MonthOf(after.schedule.endsAt.value) == CivilDate.MonthOf(input.today) - 1
            && CivilDate.MonthOf(after.schedule.endsAt.value + 1) == CivilDate.MonthOf(input.today))
      && after == e.(amount := after.amount, schedule := after.schedule, versions := after.versions, updatedAt := now)
      && SalaryVersion(CivilDate.MonthOf(input.today), input.amount) in after.versions
  {
    StoredVersion(Seeded(e), SalaryVersion(CivilDate.MonthOf(input.today), input.amount));
    hide WithVersion, Seeded;
    CivilDate.DayZeroIsInPreviousMonth(input.today);
    FirstOfMonth(input.today);
    hide CivilDate.MonthOf, CivilDate.MakeDay;
  }

  lemma FirstOfMonth(today: int)
    ensures CivilDate.MonthOf(LastDayOfPreviousMonth(today) + 1) == CivilDate.MonthOf(today)
  {
    hide CivilDate.DayFromYear, CivilDate.IsLeap, CivilDate.YearFromDay, CivilDate.MonthFromDay, CivilDate.DaysBefore,
      CivilDate.LengthOfMonth;
    var year, month := CivilDate.YearFromDay(today), CivilDate.MonthFromDay(today);
    CivilDate.DayInItsMonth(today);
    assert LastDayOfPreviousMonth(today) + 1 == CivilDate.DayOf(year, month, 1);
    hide CivilDate.DayOf, CivilDate.MakeDay;
    CivilDate.ComponentsOfDay(year, month, 1);
  }

  lemma {:induction false} StoredVersion(versions: seq<SalaryVersion>, v: SalaryVersion)
    ensures v in WithVersion(versions, v)
  {
    if versions != [] && versions[0].month != v.month {
      StoredVersion(versions[1..], v);
    }
  }

  /** Which salaries the profile accepts: a day of the month when there is one, and one for any positive salary. */
  lemma SalaryProfileIsAccepted(e: Entry, input: SalaryInput, now: int)
    ensures var goodDay := match input.day
                           case None => input.amount == 0
                           case Some(day) => day >= 1 && day < 32;
      && (SalaryCreated(input, now).Ok? <==> goodDay)
      && (SalaryEdited(e, input, now).Ok? <==> goodDay && e.kind == Salary && e.frequency == Monthly)
  {
    hide CivilDate.MonthOf;
  }

  /** A first salary is a live monthly entry paid on its day, with one version in force from its month on. */
  lemma FirstSalary(input: SalaryInput, now: int)
    requires SalaryCreated(input, now).Ok?
    ensures match SalaryCreated(input, now).value
      case None => input.amount == 0
      case Some(e) =>
        && input.amount > 0 && e.kind == Salary && e.frequency == Monthly && e.origin == Manual && !e.archived
        && e.amount == input.amount && e.schedule == S.Stored(input.day, None, None, None) && e.createdOn == input.today
        && e.updatedAt == now && e.receipts == map[] && e.holds == {} && e.tag.None?
        && e.versions == [SalaryVersion(CivilDate.MonthOf(input.today), input.amount)]
        && e.receivedForMonth.None? && e.holdForMonth.None? && e.receivedAt.None?
  {
    hide CivilDate.MonthOf;
  }

  /**
   * An edit keeps the salary of every earlier month. An entry that had no versions is given one of its old amount,
   * from its start or else from its creation on.
   */
  lemma PastSalariesStay(e: Entry, input: SalaryInput, now: int, month: int)
    requires Sound(e) && SalaryEdited(e, input, now).Ok? && month < CivilDate.MonthOf(input.today)
    ensures var after := SalaryEdited(e, input, now).value;
      SalaryIn(after.versions, month)
      == if e.versions != [] then SalaryIn(e.versions, month)
         else
           var first := CivilDate.MonthOf(if e.schedule.startsAt.Some? then e.schedule.startsAt.value else e.createdOn);
           if first <= month then Some(SalaryVersion(first, e.amount)) else None
  {
    hide CivilDate.MonthOf, WithVersion, LastDayOfPreviousMonth;
    NewVersionOnlyActsFromItsMonth(Seeded(e), SalaryVersion(CivilDate.MonthOf(input.today), input.amount), month);
    assert [SalaryVersion(FirstMonth(e), e.amount)][1..] == [];
  }
}
