/** Resolving the schedule of an entry or expense from a request and what is stored. */
module Schedule {
  import opened Wrappers

  /** A request field: not sent, sent empty, unreadable, or read. */
  datatype Field<T> = Absent | Empty | Unreadable | Given(value: T)

  /** Days are civil day numbers; `day` is a day of the month. */
  datatype Body = Body(day: Field<int>, startsAt: Field<int>, endsAt: Field<int>, date: Field<int>)

  datatype Stored = Stored(day: Option<int>, startsAt: Option<int>, endsAt: Option<int>, date: Option<int>)

  const NOTHING: Stored := Stored(None, None, None, None)

  /** Leave a stored field alone, or write it. */
  datatype Change<T> = Keep | Put(value: Option<T>)

  datatype Resolved = Resolved(day: Change<int>, startsAt: Change<int>, endsAt: Change<int>, date: Change<int>)

  datatype Problem =
    | DateRequired
    | DayRequired
    | DayInvalid
    | StartRequired
    | StartInvalid
    | EndInvalid
    | EndBeforeStart

  function Applied<T>(change: Change<T>, stored: Option<T>): Option<T> {
    match change
    case Keep => stored
    case Put(value) => value
  }

  /** The schedule stored once a resolution is written over what was there. */
  function Apply(r: Resolved, stored: Stored): Stored {
    Stored(Applied(r.day, stored.day), Applied(r.startsAt, stored.startsAt),
           Applied(r.endsAt, stored.endsAt), Applied(r.date, stored.date))
  }

  function ResolveDate(body: Field<int>, existing: Option<Stored>): Result<Change<int>, Problem> {
    if existing.Some? && body.Absent? then
      if existing.value.date.None? then Err(DateRequired) else Ok(Keep)
    else if body.Given? then Ok(Put(Some(body.value))) else Err(DateRequired)
  }

  function ResolveDay(body: Field<int>, existing: Option<Stored>): Result<Change<int>, Problem> {
    if existing.None? || !body.Absent? then
      match body
      case Unreadable => Err(DayInvalid)
      case Given(d) => if 1 <= d <= 31 then Ok(Put(Some(d))) else Err(DayInvalid)
      case _ => Err(DayRequired)
    else if existing.value.day.None? then Err(DayRequired) else Ok(Keep)
  }

  function ResolveStart(body: Field<int>, existing: Option<Stored>): Result<Change<int>, Problem> {
    if existing.None? || !body.Absent? then
      match body
      case Unreadable => Err(StartInvalid)
      case Given(d) => Ok(Put(Some(d)))
      case _ => Err(StartRequired)
    else if existing.value.startsAt.None? then Err(StartRequired) else Ok(Keep)
  }

  function ResolveEnd(body: Field<int>, existing: Option<Stored>): Result<Change<int>, Problem> {
    match body
    case Absent => Ok(if existing.None? then Put(None) else Keep)
    case Empty => Ok(Put(None))
    case Unreadable => Err(EndInvalid)
    case Given(d) => Ok(Put(Some(d)))
  }

  predicate WellScheduled(oneOff: bool, s: Stored) {
    if oneOff then s.date.Some? && s.day.None? && s.startsAt.None? && s.endsAt.None?
    else
      && s.date.None? && s.day.Some? && 1 <= s.day.value <= 31 && s.startsAt.Some?
      && (s.endsAt.Some? ==> s.startsAt.value <= s.endsAt.value)
  }

  /** What each field sent, or else stored, says; `None` when it says nothing usable. */
  function Effective(body: Field<int>, stored: Option<int>): Option<int> {
    match body
    case Absent => stored
    case Given(v) => Some(v)
    case _ => None
  }

  /** The schedule a request asks for: the fields sent, over those stored. */
  function Asked(oneOff: bool, body: Body, stored: Stored): Stored {
    if oneOff then Stored(None, None, None, Effective(body.date, stored.date))
    else
      Stored(Effective(body.day, stored.day), Effective(body.startsAt, stored.startsAt),
             Effective(body.endsAt, stored.endsAt), None)
  }

  /**
   * A one-off always ends with a date and nothing else, a recurrence never has one; the resolution succeeds exactly
   * when what is asked is such a schedule, and then writing it stores precisely that.
   */
  function ResolveSchedule(oneOff: bool, body: Body, existing: Option<Stored>): (r: Result<Resolved, Problem>)
    ensures var stored := existing.GetOr(NOTHING);
      var asked := Asked(oneOff, body, stored);
      && (r.Ok? && (stored.day.Some? ==> 1 <= stored.day.value <= 31) ==> WellScheduled(oneOff, asked))
      && (r.Err? ==> !WellScheduled(oneOff, asked) || (!oneOff && body.endsAt.Unreadable?))
      && (r.Ok? ==> oneOff || !body.endsAt.Unreadable?)
      && (r.Ok? ==> Apply(r.value, stored) == asked)
  {
    if oneOff then
      match ResolveDate(body.date, existing)
      case Err(e) => Err(e)
      case Ok(date) => Ok(Resolved(Put(None), Put(None), Put(None), date))
    else
      match ResolveDay(body.day, existing)
      case Err(e) => Err(e)
      case Ok(day) =>
        match ResolveStart(body.startsAt, existing)
        case Err(e) => Err(e)
        case Ok(start) =>
          match ResolveEnd(body.endsAt, existing)
          case Err(e) => Err(e)
          case Ok(end) =>
            var stored := existing.GetOr(NOTHING);
            var from, to := Applied(start, stored.startsAt), Applied(end, stored.endsAt);
            if from.Some? && to.Some? && to.value < from.value then Err(EndBeforeStart)
            else Ok(Resolved(day, start, end, Put(None)))
  }
}
