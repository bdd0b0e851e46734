/** Income entries, their receipts and the version that protects a one-off receipt from stale requests. */
module Entries {
  import opened Wrappers
  import CivilDate
  import S = Schedule

  datatype Type = Salary | Freelance | Other
  datatype Frequency = Monthly | Weekly | OneOff
  datatype Origin = Manual | System

  datatype Receipt = Receipt(amount: int, receivedAt: int)
  datatype SalaryVersion = SalaryVersion(month: int, amount: int)

  /** An entry with its receipts and holds, one per month at most; months count from year zero. */
  datatype Entry = Entry(kind: Type, frequency: Frequency, origin: Origin, amount: int, tag: Option<int>,
                         schedule: S.Stored, createdOn: int, archived: bool, updatedAt: int,
                         receipts: map<int, Receipt>, holds: set<int>, versions: seq<SalaryVersion>,
                         receivedForMonth: Option<int>, holdForMonth: Option<int>, receivedAt: Option<int>)

  datatype Error = NotFound | SalaryProfile | SystemRow | TagNeedsOther | BadSchedule(problem: S.Problem)
    | HasReceipt | NotConfirmable | NeedsExplicitState | NeedsVersion | NeedsDay | DayNotAllowed | Stale
    | OtherReceipt | ReservedFields | NotStarted | AlreadyEnded | NoSalary | NeedsReceiveDay

  function NewEntry(kind: Type, frequency: Frequency, amount: int, tag: Option<int>, schedule: S.Stored, today: int,
                    now: int): Entry
  {
    Entry(kind, frequency, Manual, amount, tag, schedule, today, false, now, map[], {}, [], None, None, None)
  }

  // ---- create, edit, archive ----

  datatype CreateInput = CreateInput(kind: Type, frequency: Frequency, amount: int, tag: Option<int>, body: S.Body)

  /** `None` leaves a field alone; the tag may also be cleared. */
  datatype UpdateInput = UpdateInput(kind: Option<Type>, frequency: Option<Frequency>, amount: Option<int>,
                                     tag: Option<Option<int>>, body: S.Body)

  function Created(input: CreateInput, today: int, now: int): Result<Entry, Error> {
    if input.kind == Salary then Err(SalaryProfile)
    else
      match S.ResolveSchedule(input.frequency == OneOff, input.body, None)
      case Err(e) => Err(BadSchedule(e))
      case Ok(r) =>
        if input.tag.Some? && input.kind != Other then Err(TagNeedsOther)
        else Ok(NewEntry(input.kind, input.frequency, input.amount, input.tag, S.Apply(r, S.NOTHING), today, now))
  }

  /** A recorded one-off receipt cannot be turned into a second, recurring obligation. */
  predicate TransitionAllowed(previous: Frequency, next: Frequency, hasReceipt: bool) {
    !(previous == OneOff && next != OneOff && hasReceipt)
  }

  function Updated(e: Entry, input: UpdateInput, now: int): Result<Entry, Error> {
    var frequency, kind, tag := input.frequency.GetOr(e.frequency), input.kind.GetOr(e.kind), input.tag.GetOr(e.tag);
    if input.kind == Some(Salary) || e.kind == Salary then Err(SalaryProfile)
    else if e.archived then Err(NotFound)
    else if e.origin != Manual then Err(SystemRow)
    else if !TransitionAllowed(e.frequency, frequency, e.receipts != map[]) then Err(HasReceipt)
    else if tag.Some? && kind != Other then Err(TagNeedsOther)
    else
      match S.ResolveSchedule(frequency == OneOff, input.body, Some(e.schedule))
      case Err(p) => Err(BadSchedule(p))
      case Ok(r) =>
        Ok(e.(kind := kind, frequency := frequency, amount := input.amount.GetOr(e.amount), tag := tag,
              schedule := S.Apply(r, e.schedule), updatedAt := now))
  }

  function Archived(e: Entry, now: int): Result<Entry, Error> {
    if e.archived then Err(NotFound)
    else if e.origin != Manual then Err(SystemRow)
    else if e.kind == Salary then Err(SalaryProfile)
    else Ok(e.(archived := true, updatedAt := now))
  }

  // ---- receipts ----

  datatype ReceiptState = Automatic | Received | Waiting

  /** `day` and `version` are the request's effective day and expected version, when sent and readable. */
  datatype ReceiptRequest = ReceiptRequest(month: int, state: ReceiptState, day: S.Field<int>, version: Option<int>)

  /** A version above the old one whatever the clock says. */
  function NextVersion(version: int, now: int): (next: int)
    ensures next > version && next >= now && (next == now || next == version + 1)
  {
    if now > version + 1 then now else version + 1
  }

  predicate HoldsReceipt(e: Entry, month: int, day: int) {
    month in e.receipts && e.receipts[month].receivedAt == day
  }

  function OneOffReceipt(e: Entry, r: ReceiptRequest, today: int, now: int): Result<Entry, Error> {
    var has := e.receipts != map[];
    if r.state == Automatic then Err(NeedsExplicitState)
    else if r.version.None? then Err(NeedsVersion)
    else if r.state == Received
            && !(r.day.Given? && CivilDate.MonthOf(r.day.value) == r.month && r.day.value <= today) then Err(NeedsDay)
    else if r.state != Received && !r.day.Absent? then Err(DayNotAllowed)
    else if e.updatedAt != r.version.value then
      if (r.state == Received && HoldsReceipt(e, r.month, r.day.value)) || (r.state == Waiting && !has) then Ok(e)
      else Err(Stale)
    else if has && (r.month !in e.receipts || (r.state == Received && !HoldsReceipt(e, r.month, r.day.value))) then
      Err(OtherReceipt)
    else if r.state == Received && !has then
      Ok(e.(receipts := map[r.month := Receipt(e.amount, r.day.value)], updatedAt := NextVersion(e.updatedAt, now)))
    else if r.state == Waiting && has then
      Ok(e.(receipts := e.receipts - {r.month}, updatedAt := NextVersion(e.updatedAt, now)))
    else Ok(e)
  }

  /** The salary in force in a month: the latest version not after it. */
  function SalaryIn(versions: seq<SalaryVersion>, month: int): Option<SalaryVersion> {
    if versions == [] then None
    else
      var rest, v := SalaryIn(versions[1..], month), versions[0];
      if v.month <= month && (rest.None? || rest.value.month < v.month) then Some(v) else rest
  }

  /** A salary version replaces the one of its own month, or is added. */
  function WithVersion(versions: seq<SalaryVersion>, v: SalaryVersion): seq<SalaryVersion> {
    if versions == [] then [v]
    else if versions[0].month == v.month then [v] + versions[1..]
    else [versions[0]] + WithVersion(versions[1..], v)
  }

  predicate OnePerMonth(versions: seq<SalaryVersion>) {
    forall i, j :: 0 <= i < j < |versions| ==> versions[i].month != versions[j].month
  }

  // ---- the salary profile ----

  /** What a profile edit carries: the salary, the day of the month it is paid, and when the edit happens. */
  datatype SalaryInput = SalaryInput(amount: nat, day: Option<int>, today: int)

  /** The month an entry without versions is first versioned in: its start, or when it was created. */
  function FirstMonth(e: Entry): int {
    CivilDate.MonthOf(e.schedule.startsAt.GetOr(e.createdOn))
  }

  function LastDayOfPreviousMonth(today: int): int {
    CivilDate.MakeDay(CivilDate.YearFromDay(today), CivilDate.MonthFromDay(today), 0)
  }

  function Seeded(e: Entry): seq<SalaryVersion> {
    if e.versions == [] then [SalaryVersion(FirstMonth(e), e.amount)] else e.versions
  }

  predicate ValidDay(day: Option<int>) {
    day.Some? ==> 1 <= day.value <= 31
  }

  /** A first salary; a salary of zero creates nothing. */
  function SalaryCreated(input: SalaryInput, now: int): Result<Option<Entry>, Error> {
    if !ValidDay(input.day) then Err(NeedsReceiveDay)
    else if input.amount == 0 then Ok(None)
    else if input.day.None? then Err(NeedsReceiveDay)
    else
      var schedule := S.Stored(input.day, None, None, None);
      Ok(Some(NewEntry(Salary, Monthly, input.amount, None, schedule, input.today, now)
              .(versions := [SalaryVersion(CivilDate.MonthOf(input.today), input.amount)])))
  }

  /** A later salary: a positive one reopens the entry, zero ends it at the end of the previous month. */
  function SalaryEdited(e: Entry, input: SalaryInput, now: int): Result<Entry, Error> {
    var month := CivilDate.MonthOf(input.today);
    var versions := WithVersion(Seeded(e), SalaryVersion(month, input.amount));
    if e.kind != Salary || e.frequency != Monthly then Err(NotFound)
    else if !ValidDay(input.day) || (input.amount > 0 && input.day.None?) then Err(NeedsReceiveDay)
    else if input.amount > 0 then
      Ok(e.(amount := input.amount, schedule := e.schedule.(day := input.day, endsAt := None), versions := versions,
            updatedAt := now))
    else
      Ok(e.(amount := 0, schedule := e.schedule.(endsAt := Some(LastDayOfPreviousMonth(input.today))),
            versions := versions, updatedAt := now))
  }

  function SalaryFields(e: Entry, state: ReceiptState, month: int, receivedAt: Option<int>): Entry {
    match state
    case Received => e.(receivedForMonth := Some(month), holdForMonth := None, receivedAt := receivedAt)
    case Waiting => e.(receivedForMonth := None, holdForMonth := Some(month), receivedAt := None)
    case Automatic => e.(receivedForMonth := None, holdForMonth := None, receivedAt := None)
  }

  function SalaryReceipt(e: Entry, r: ReceiptRequest, today: int, now: int): Result<Entry, Error> {
    var salary := SalaryIn(e.versions, r.month);
    if !r.day.Absent? || r.version.Some? then Err(ReservedFields)
    else if e.schedule.startsAt.Some? && CivilDate.MonthOf(e.schedule.startsAt.value) > r.month then Err(NotStarted)
    else if e.schedule.endsAt.Some? && CivilDate.MonthOf(e.schedule.endsAt.value) < r.month then Err(AlreadyEnded)
    else if salary.None? || (salary.value.amount == 0 && r.state == Received) then Err(NoSalary)
    else
      var receipts :=
        if r.state != Received then e.receipts - {r.month}
        else if r.month in e.receipts then e.receipts else e.receipts[r.month := Receipt(salary.value.amount, today)];
      var receivedAt := if r.state == Received then Some(receipts[r.month].receivedAt) else None;
      var holds := if r.state == Waiting then e.holds + {r.month} else e.holds - {r.month};
      Ok(SalaryFields(e, r.state, r.month, receivedAt).(receipts := receipts, holds := holds, updatedAt := now))
  }

  function WithReceiptState(e: Entry, r: ReceiptRequest, today: int, now: int): Result<Entry, Error> {
    if e.archived || e.origin != Manual then Err(NotFound)
    else if e.frequency == OneOff then OneOffReceipt(e, r, today, now)
    else if e.kind == Salary && e.frequency == Monthly then SalaryReceipt(e, r, today, now)
    else Err(NotConfirmable)
  }

  // ---- one entry over its life ----

  datatype Change =
    | Edit(input: UpdateInput, now: int)
    | Profile(salary: SalaryInput, now: int)
    | Archive(now: int)
    | Confirm(request: ReceiptRequest, today: int, now: int)

  function Attempt(e: Entry, c: Change): Result<Entry, Error> {
    match c
    case Edit(input, now) => Updated(e, input, now)
    case Profile(salary, now) => SalaryEdited(e, salary, now)
    case Archive(now) => Archived(e, now)
    case Confirm(r, today, now) => WithReceiptState(e, r, today, now)
  }

  /** A refused change leaves the entry as it was. */
  function Step(e: Entry, c: Change): Entry {
    var r := Attempt(e, c);
    if r.Ok? then r.value else e
  }

  function Life(e: Entry, changes: seq<Change>): Entry
    decreases |changes|
  {
    if changes == [] then e else Life(Step(e, changes[0]), changes[1..])
  }

  /** Salaries come from the profile: a day of the month, perhaps an end, never a date and seldom a start. */
  predicate SalaryScheduled(s: S.Stored) {
    s.date.None? && ValidDay(s.day)
  }

  /** A receipt belongs to a one-off, which has at most one, dated in its own month, or to a monthly salary. */
  ghost predicate Sound(e: Entry) {
    && (e.kind == Salary ==> e.frequency == Monthly && SalaryScheduled(e.schedule) && OnePerMonth(e.versions))
    && (e.origin == Manual && e.kind != Salary ==> S.WellScheduled(e.frequency == OneOff, e.schedule))
    && (e.receipts != map[] ==> e.frequency == OneOff || (e.kind == Salary && e.frequency == Monthly))
    && (e.frequency == OneOff ==>
          && (forall a, b :: a in e.receipts && b in e.receipts ==> a == b)
          && (forall m :: m in e.receipts ==> CivilDate.MonthOf(e.receipts[m].receivedAt) == m))
  }

  lemma OnlyReceipt(e: Entry, month: int)
    requires Sound(e) && e.frequency == OneOff && month in e.receipts
    ensures e.receipts.Keys == {month} && e.receipts - {month} == map[]
  {
    hide CivilDate.MonthOf;
    forall m
      ensures m in e.receipts.Keys <==> m in {month}
      ensures m !in e.receipts - {month}
    {
    }
  }

  lemma {:induction false} WithVersionKeepsMonths(versions: seq<SalaryVersion>, v: SalaryVersion)
    requires OnePerMonth(versions)
    ensures OnePerMonth(WithVersion(versions, v))
    ensures forall u :: u in WithVersion(versions, v) ==> u == v || u in versions
  {
    if versions != [] && versions[0].month != v.month {
      var rest := WithVersion(versions[1..], v);
      WithVersionKeepsMonths(versions[1..], v);
      forall j | 0 <= j < |rest|
        ensures rest[j].month != versions[0].month
      {
        assert rest[j] == v || rest[j] in versions[1..];
      }
    }
  }

  lemma StepKeepsSound(e: Entry, c: Change)
    requires Sound(e)
    ensures Sound(Step(e, c))
  {
    hide CivilDate.MonthOf, SalaryIn, LastDayOfPreviousMonth, FirstMonth;
    match c
    case Edit(input, now) =>
    case Profile(salary, now) =>
      if e.kind == Salary {
        WithVersionKeepsMonths(Seeded(e), SalaryVersion(CivilDate.MonthOf(salary.today), salary.amount));
      }
    case Archive(now) =>
    case Confirm(r, today, now) =>
      if e.frequency == OneOff && r.month in e.receipts {
        OnlyReceipt(e, r.month);
      }
  }

  lemma {:induction false} LifeKeepsSound(e: Entry, changes: seq<Change>)
    requires Sound(e)
    ensures Sound(Life(e, changes))
    decreases |changes|
  {
    hide Step, Sound;
    if changes != [] {
      StepKeepsSound(e, changes[0]);
      LifeKeepsSound(Step(e, changes[0]), changes[1..]);
    }
  }

  /** Entries start sound: by request, from the salary profile, or as income received through the MCP. */
  lemma BirthIsSound(input: CreateInput, salary: SalaryInput, amount: int, day: int, today: int, now: int)
    ensures Created(input, today, now).Ok? ==> Sound(Created(input, today, now).value)
    ensures SalaryCreated(salary, now).Ok? && SalaryCreated(salary, now).value.Some? ==>
      Sound(SalaryCreated(salary, now).value.value)
    ensures Sound(NewEntry(Other, OneOff, amount, None, S.Stored(None, None, None, Some(day)), today, now)
                  .(receipts := map[CivilDate.MonthOf(day) := Receipt(amount, day)]))
  {
    hide CivilDate.MonthOf;
  }

  // ---- salary history ----

  lemma {:induction false} NewVersionOnlyActsFromItsMonth(versions: seq<SalaryVersion>, v: SalaryVersion, month: int)
    requires OnePerMonth(versions)
    ensures month < v.month ==> SalaryIn(WithVersion(versions, v), month) == SalaryIn(versions, month)
    ensures v.month <= month && (forall u :: u in versions ==> u.month <= v.month) ==>
      SalaryIn(WithVersion(versions, v), month) == Some(v)
  {
    if versions != [] {
      var rest := versions[1..];
      if versions[0].month == v.month {
        assert WithVersion(versions, v)[1..] == rest;
        NoneLater(rest, v.month, month);
      } else {
        assert WithVersion(versions, v)[1..] == WithVersion(rest, v);
        NewVersionOnlyActsFromItsMonth(rest, v, month);
      }
    }
  }

  lemma {:induction false} NoneLater(versions: seq<SalaryVersion>, bound: int, month: int)
    ensures SalaryIn(versions, month).Some? ==>
      SalaryIn(versions, month).value in versions && SalaryIn(versions, month).value.month <= month
    ensures (forall u :: u in versions ==> u.month != bound && u.month <= bound) && SalaryIn(versions, month).Some? ==>
      SalaryIn(versions, month).value.month < bound
  {
    if versions != [] {
      NoneLater(versions[1..], bound, month);
    }
  }

  /** A salary edit takes effect in the month it is made; the salary of every earlier month stays what it was. */
  lemma SalaryEditKeepsThePast(e: Entry, input: SalaryInput, now: int, month: int)
    requires Sound(e) && SalaryEdited(e, input, now).Ok?
    requires forall v :: v in e.versions ==> v.month <= CivilDate.MonthOf(input.today)
    ensures var after, current := SalaryEdited(e, input, now).value, CivilDate.MonthOf(input.today);
      && (month < current ==> SalaryIn(after.versions, month) == SalaryIn(Seeded(e), month))
      && (month >= current && FirstMonth(e) <= current ==>
            SalaryIn(after.versions, month) == Some(SalaryVersion(current, input.amount)))
      && after.receipts == e.receipts
  {
    hide CivilDate.MonthOf, SalaryIn, WithVersion, LastDayOfPreviousMonth, FirstMonth;
    NewVersionOnlyActsFromItsMonth(Seeded(e), SalaryVersion(CivilDate.MonthOf(input.today), input.amount), month);
  }

  /** A salary set to zero is over: no receipt of that month or a later one can be set again. */
  lemma ZeroedSalaryIsOver(e: Entry, input: SalaryInput, r: ReceiptRequest, today: int, now: int)
    requires Sound(e) && input.amount == 0 && SalaryEdited(e, input, now).Ok?
    requires r.month >= CivilDate.MonthOf(input.today)
    ensures WithReceiptState(SalaryEdited(e, input, now).value, r, today, now).Err?
  {
    hide CivilDate.MonthOf, CivilDate.MakeDay, SalaryIn, WithVersion, FirstMonth;
    CivilDate.DayZeroIsInPreviousMonth(input.today);
  }

  // ---- versions ----

  /** Edits and archivals are stamped after the version they replace. */
  predicate ClockMovesOn(e: Entry, changes: seq<Change>)
    decreases |changes|
  {
    changes != [] ==>
      && (!changes[0].Confirm? || e.frequency != OneOff ==> changes[0].now > e.updatedAt)
      && ClockMovesOn(Step(e, changes[0]), changes[1..])
  }

  /** The version never falls, and rises whenever anything about a one-off changes, its receipt included. */
  lemma StepRaisesVersion(e: Entry, c: Change)
    requires !c.Confirm? || e.frequency != OneOff ==> c.now > e.updatedAt
    ensures Step(e, c).updatedAt >= e.updatedAt
    ensures Step(e, c) != e ==> Step(e, c).updatedAt > e.updatedAt
  {
    hide CivilDate.MonthOf, SalaryIn, S.ResolveSchedule, S.Apply, LastDayOfPreviousMonth, FirstMonth, WithVersion;
  }

  /** Without any assumption on clocks, a one-off's receipt appears or disappears only under a higher version. */
  lemma ReceiptFlipRaisesVersion(e: Entry, r: ReceiptRequest, today: int, now: int)
    requires e.frequency == OneOff
    ensures var after := Step(e, Confirm(r, today, now));
      && (after.receipts != e.receipts ==> after.updatedAt > e.updatedAt)
      && (after.receipts == e.receipts ==> after == e)
  {
    hide CivilDate.MonthOf, SalaryIn;
    var after := Step(e, Confirm(r, today, now));
    if after != e {
      assert r.month in e.receipts <==> r.month !in after.receipts;
    }
  }

  lemma {:induction false} VersionsOnlyGrow(e: Entry, changes: seq<Change>)
    requires ClockMovesOn(e, changes)
    ensures Life(e, changes).updatedAt >= e.updatedAt
    ensures Life(e, changes) != e ==> Life(e, changes).updatedAt > e.updatedAt
    decreases |changes|
  {
    hide Step;
    if changes != [] {
      StepRaisesVersion(e, changes[0]);
      VersionsOnlyGrow(Step(e, changes[0]), changes[1..]);
    }
  }

  /** A request carrying another version never changes a one-off; it succeeds only when its effect is already there. */
  lemma StaleRequestChangesNothing(e: Entry, r: ReceiptRequest, today: int, now: int)
    requires e.frequency == OneOff && r.version.Some? && r.version.value != e.updatedAt
    ensures var answer := WithReceiptState(e, r, today, now);
      && (answer.Ok? ==> answer.value == e)
      && (answer.Ok? ==>
            if r.state == Received then r.day.Given? && HoldsReceipt(e, r.month, r.day.value) else e.receipts == map[])
  {
    hide CivilDate.MonthOf;
  }

  /**
   * After any life in which the entry changed, a request still carrying the version seen before changes nothing: a
   * late retry can neither bring an undone receipt back nor remove a newer one.
   */
  lemma OldVersionIsPowerless(e: Entry, changes: seq<Change>, r: ReceiptRequest, today: int, now: int)
    requires ClockMovesOn(e, changes) && Life(e, changes) != e && r.version == Some(e.updatedAt)
    ensures Step(Life(e, changes), Confirm(r, today, now)) == Life(e, changes)
  {
    hide Life, ClockMovesOn, OneOffReceipt;
    VersionsOnlyGrow(e, changes);
    if Life(e, changes).frequency == OneOff {
      StaleRequestChangesNothing(Life(e, changes), r, today, now);
    }
  }

  /** Confirming with the current version does what it says, once. */
  lemma ConfirmationTakesEffect(e: Entry, r: ReceiptRequest, today: int, now: int)
    requires Sound(e) && e.frequency == OneOff && r.version == Some(e.updatedAt)
    requires WithReceiptState(e, r, today, now).Ok?
    ensures var after := WithReceiptState(e, r, today, now).value;
      && (r.state == Received ==>
            r.day.Given? && HoldsReceipt(after, r.month, r.day.value) && after.receipts.Keys == {r.month}
            && (e.receipts == map[] ==> after.receipts[r.month].amount == e.amount))
      && (r.state == Waiting ==> after.receipts == map[])
      && Attempt(after, Confirm(r, today, now)) == Ok(after)
  {
    hide CivilDate.MonthOf;
    if r.month in e.receipts {
      OnlyReceipt(e, r.month);
    }
  }

  // ---- the stored entries ----

  class Store {
    var entries: map<int, Entry>
    var nextId: int

    ghost predicate Valid()
      reads this
    {
      forall id :: id in entries ==> id < nextId && Sound(entries[id])
    }

    constructor ()
      ensures Valid() && entries == map[]
    {
      entries, nextId := map[], 0;
    }

    method CreateEntry(input: CreateInput, today: int, now: int) returns (id: Result<int, Error>)
      requires Valid()
      modifies this
      ensures Valid()
      ensures match Created(input, today, now)
        case Err(e) => id == Err(e) && entries == old(entries)
        case Ok(entry) => id == Ok(old(nextId)) && entries == old(entries)[old(nextId) := entry]
    {
      BirthIsSound(input, SalaryInput(0, None, today), 0, 0, today, now);
      hide Sound, Created;
      var created := Created(input, today, now);
      if created.Err? {
        return Err(created.error);
      }
      entries := entries[nextId := created.value];
      nextId := nextId + 1;
      return Ok(nextId - 1);
    }

    /** The first salary of a profile; later ones are changes of that entry. */
    method CreateSalary(salary: SalaryInput, now: int) returns (id: Result<Option<int>, Error>)
      requires Valid()
      modifies this
      ensures Valid()
      ensures match SalaryCreated(salary, now)
        case Err(e) => id == Err(e) && entries == old(entries)
        case Ok(None) => id == Ok(None) && entries == old(entries)
        case Ok(Some(entry)) => id == Ok(Some(old(nextId))) && entries == old(entries)[old(nextId) := entry]
    {
      BirthIsSound(CreateInput(Salary, Monthly, 0, None, S.Body(S.Absent, S.Absent, S.Absent, S.Absent)), salary, 0, 0,
                   salary.today, now);
      hide Sound, SalaryCreated;
      var created := SalaryCreated(salary, now);
      if created.Err? {
        return Err(created.error);
      }
      if created.value.None? {
        return Ok(None);
      }
      entries := entries[nextId := created.value.value];
      nextId := nextId + 1;
      return Ok(Some(nextId - 1));
    }

    /** Edits, archives or confirms one entry; every other entry is left alone. */
    method Apply(id: int, c: Change) returns (answer: Result<(), Error>)
      requires Valid()
      modifies `entries
      ensures Valid()
      ensures if id !in old(entries) then answer == Err(NotFound) && entries == old(entries)
        else entries == old(entries)[id := Step(old(entries)[id], c)]
             && (answer.Ok? <==> Attempt(old(entries)[id], c).Ok?)
    {
      hide Sound, Attempt;
      if id !in entries {
        return Err(NotFound);
      }
      StepKeepsSound(entries[id], c);
      var changed := Attempt(entries[id], c);
      if changed.Err? {
        assert entries == entries[id := entries[id]];
        return Err(changed.error);
      }
      entries := entries[id := changed.value];
      return Ok(());
    }

    /** The one-off half of a receipt request as the service runs it, row by row, with its conditional update. */
    method SetOneOffReceipt(id: int, r: ReceiptRequest, today: int, now: int) returns (answer: Result<(), Error>)
      requires Valid() && id in entries && entries[id].frequency == OneOff
      requires !entries[id].archived && entries[id].origin == Manual
      modifies `entries
      ensures Valid()
      ensures entries == old(entries)[id := Step(old(entries)[id], Confirm(r, today, now))]
      ensures answer.Ok? <==> OneOffReceipt(old(entries)[id], r, today, now).Ok?
    {
      hide CivilDate.MonthOf, Sound;
      var existing := entries[id];
      StepKeepsSound(existing, Confirm(r, today, now));
      assert entries == entries[id := existing];
      if r.state == Automatic {
        return Err(NeedsExplicitState);
      }
      if r.version.None? {
        return Err(NeedsVersion);
      }
      if r.state == Received && (!r.day.Given? || CivilDate.MonthOf(r.day.value) != r.month || r.day.value > today) {
        return Err(NeedsDay);
      }
      if r.state != Received && !r.day.Absent? {
        return Err(DayNotAllowed);
      }
      var oneOffReceipt: Option<(int, Receipt)> := None;
      if existing.receipts != map[] {
        var month := TheMonth(existing);
        oneOffReceipt := Some((month, existing.receipts[month]));
      }
      if existing.updatedAt != r.version.value {
        if r.state == Received && oneOffReceipt.Some? && oneOffReceipt.value.0 == r.month
           && oneOffReceipt.value.1.receivedAt == r.day.value {
          return Ok(());
        }
        if r.state == Waiting && oneOffReceipt.None? {
          return Ok(());
        }
        return Err(Stale);
      }
      if oneOffReceipt.Some? && (oneOffReceipt.value.0 != r.month
           || (r.state == Received && oneOffReceipt.value.1.receivedAt != r.day.value)) {
        return Err(OtherReceipt);
      }
      var receipts := existing.receipts;
      if r.state == Received {
        if r.month !in receipts {
          receipts := receipts[r.month := Receipt(existing.amount, r.day.value)];
        }
      } else {
        receipts := receipts - {r.month};
      }
      var version := existing.updatedAt;
      if (r.state == Received && oneOffReceipt.None?) || (r.state == Waiting && oneOffReceipt.Some?) {
        version := NextVersion(existing.updatedAt, now);
      }
      entries := entries[id := existing.(receipts := receipts, updatedAt := version)];
      return Ok(());
    }
  }

  /** The month of a one-off's only receipt. */
  method TheMonth(e: Entry) returns (month: int)
    requires Sound(e) && e.frequency == OneOff && e.receipts != map[]
    ensures month in e.receipts && e.receipts.Keys == {month}
  {
    assert (forall m :: m !in e.receipts) ==> e.receipts == map[];
    month :| month in e.receipts;
    OnlyReceipt(e, month);
  }
}
