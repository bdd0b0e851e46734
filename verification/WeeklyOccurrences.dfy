/** How often a weekly amount falls due within a range of days, all as day numbers. */
module WeeklyOccurrences {

  /** Day zero, 1970-01-01, was a Thursday. */
  function Weekday(day: int): nat {
    (day + 4) % 7
  }

  function CountWeeklyOccurrences(anchor: int, lo: int, hi: int): nat {
    var first := if lo >= anchor then lo else anchor;
    if first > hi then 0
    else
      var shift := (Weekday(anchor) - Weekday(first) + 7) % 7;
      var firstOccurrence := first + shift;
      if firstOccurrence > hi then 0 else (hi - firstOccurrence) / 7 + 1
  }

  /** The days from `lo` to `hi` that are whole weeks after the anchor, counted one by one. */
  function WholeWeeksAfter(anchor: int, lo: int, hi: int): nat
    decreases hi - lo + 1
  {
    if hi < lo then 0
    else WholeWeeksAfter(anchor, lo, hi - 1) + if hi >= anchor && (hi - anchor) % 7 == 0 then 1 else 0
  }

  lemma {:induction false} CountIsWholeWeeks(anchor: int, lo: int, hi: int)
    ensures CountWeeklyOccurrences(anchor, lo, hi) == WholeWeeksAfter(anchor, lo, hi)
    decreases hi - lo + 1
  {
    if hi >= lo {
      CountIsWholeWeeks(anchor, lo, hi - 1);
      CountStep(anchor, lo, hi);
    }
  }

  /** The first occurrence is less than a week after `first` and a whole number of weeks after the anchor. */
  lemma FirstOccurrence(anchor: int, first: int) returns (weeks: int)
    ensures var shift := (Weekday(anchor) - Weekday(first) + 7) % 7;
      0 <= shift < 7 && first + shift == anchor + 7 * weeks
  {
    var a, b, x, y := (anchor + 4) / 7, (first + 4) / 7, Weekday(anchor), Weekday(first);
    assert anchor + 4 == 7 * a + x && first + 4 == 7 * b + y;
    weeks := if x >= y then b - a else b - a + 1;
    hide Weekday;
    assert (x - y + 7) % 7 == if x >= y then x - y else x - y + 7;
  }

  lemma WholeWeeksShift(n: int, weeks: int)
    ensures (n + 7 * weeks) % 7 == n % 7
  {
  }

  lemma NextMultiple(n: nat)
    requires n > 0
    ensures n / 7 == (n - 1) / 7 + if n % 7 == 0 then 1 else 0
  {
  }

  /** One more day adds an occurrence exactly when it is a whole number of weeks after the anchor. */
  lemma CountStep(anchor: int, lo: int, hi: int)
    requires hi >= lo
    ensures CountWeeklyOccurrences(anchor, lo, hi)
      == CountWeeklyOccurrences(anchor, lo, hi - 1) + if hi >= anchor && (hi - anchor) % 7 == 0 then 1 else 0
  {
    var first := if lo >= anchor then lo else anchor;
    var shift := (Weekday(anchor) - Weekday(first) + 7) % 7;
    var weeks := FirstOccurrence(anchor, first);
    hide Weekday;
    var gap := hi - (first + shift);
    WholeWeeksShift(gap, weeks);
    if gap > 0 {
      NextMultiple(gap);
    }
  }
}
