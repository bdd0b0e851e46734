/**
 * Civil dates: day keys (YYYY-MM-DD), their day numbers over the proleptic
 * Gregorian calendar of section 21.4.1 of ECMA-262, and month arithmetic.
 */
module CivilDate {
  import opened Wrappers
  import opened Text

  datatype Parts = Parts(year: nat, monthIndex: nat, day: nat)

  // ---- the calendar of ECMA-262 ----

  predicate IsLeap(year: int) {
    year % 4 == 0 && (year % 100 != 0 || year % 400 == 0)
  }

  function DaysInYear(year: int): nat {
    if IsLeap(year) then 366 else 365
  }

  /** Day number of January 1st: the lengths of the years since 1970, added up. */
  function DayFromYear(year: int): int
    decreases if year < 1970 then 1970 - year else year - 1970
  {
    if year == 1970 then 0
    else if year > 1970 then DayFromYear(year - 1) + DaysInYear(year - 1)
    else DayFromYear(year + 1) - DaysInYear(year)
  }

  lemma DivStep(n: int, d: int)
    requires d > 0
    ensures n / d == (n - 1) / d + OneIf(n % d == 0)
  {
    var q, r := n / d, n % d;
    assert n == d * q + r;
    if r == 0 {
      assert n - 1 == d * (q - 1) + (d - 1);
      DivUnique(n - 1, d, q - 1, d - 1);
    } else {
      DivUnique(n - 1, d, q, r - 1);
    }
  }

  lemma DivUnique(n: int, d: int, q: int, r: int)
    requires d > 0 && 0 <= r < d && n == d * q + r
    ensures n / d == q
  {
    var e := n / d - q;
    assert d * (n / d) == d * q + d * e;
    assert d * e == r - n % d;
    MulGap(d, e);
  }

  lemma MulGap(d: int, e: int)
    requires d > 0
    ensures e >= 1 ==> d * e >= d
    ensures e <= -1 ==> d * e <= -d
  {
  }

  function ClosedForm(year: int): int {
    365 * (year - 1970) + (year - 1969) / 4 - (year - 1901) / 100 + (year - 1601) / 400
  }

  function OneIf(condition: bool): int {
    if condition then 1 else 0
  }

  lemma ModShift(n: int, d: int, k: int)
    requires d > 0
    ensures (n - d * k) % d == n % d
  {
    assert n - d * k == d * (n / d - k) + n % d;
    DivUnique(n - d * k, d, n / d - k, n % d);
  }

  lemma LeapDays(year: int)
    ensures DaysInYear(year)
      == 365 + OneIf((year - 1968) % 4 == 0) - OneIf((year - 1900) % 100 == 0) + OneIf((year - 1600) % 400 == 0)
  {
    ModShift(year, 4, 492);
    ModShift(year, 100, 19);
    ModShift(year, 400, 4);
    LeapByRemainders(year, year % 4, year % 100, year % 400);
  }

  lemma LeapByRemainders(year: int, r4: int, r100: int, r400: int)
    requires r4 == year % 4 && r100 == year % 100 && r400 == year % 400
    ensures r100 == 0 ==> r4 == 0
    ensures r400 == 0 ==> r100 == 0
    ensures DaysInYear(year) == 365 + OneIf(r4 == 0) - OneIf(r100 == 0) + OneIf(r400 == 0)
  {
  }

  lemma ClosedFormStep(year: int)
    ensures ClosedForm(year + 1) == ClosedForm(year) + DaysInYear(year)
  {
    hide DaysInYear;
    DivStep(year - 1968, 4);
    DivStep(year - 1900, 100);
    DivStep(year - 1600, 400);
    LeapDays(year);
  }

  /** The closed form of ECMA-262 gives the same number. */
  lemma {:induction false} DayFromYearClosedForm(year: int)
    ensures DayFromYear(year) == ClosedForm(year)
    decreases if year < 1970 then 1970 - year else year - 1970
  {
    if year > 1970 {
      DayFromYearClosedForm(year - 1);
      ClosedFormStep(year - 1);
    } else if year < 1970 {
      DayFromYearClosedForm(year + 1);
      ClosedFormStep(year);
    }
  }

  function LengthOfMonth(leap: bool, month: nat): (n: nat)
    ensures 28 <= n <= 31
  {
    if month == 1 then (if leap then 29 else 28)
    else if month == 3 || month == 5 || month == 8 || month == 10 then 30
    else 31
  }

  function MonthLength(year: int, month: nat): nat {
    LengthOfMonth(IsLeap(year), month)
  }

  /** Days of the year before the given month; month 12 stands for the whole year. */
  function DaysBefore(leap: bool, month: nat): nat {
    if month == 0 then 0 else DaysBefore(leap, month - 1) + LengthOfMonth(leap, month - 1)
  }

  lemma {:induction false} DaysBeforeMonotone(leap: bool, a: nat, b: nat)
    requires a <= b
    ensures DaysBefore(leap, a) <= DaysBefore(leap, b)
  {
    if a < b {
      DaysBeforeMonotone(leap, a, b - 1);
    }
  }

  lemma WholeYear(leap: bool)
    ensures DaysBefore(leap, 12) == if leap then 366 else 365
  {
    assert DaysBefore(leap, 1) == 31;
    assert DaysBefore(leap, 2) == if leap then 60 else 59;
    assert DaysBefore(leap, 4) == DaysBefore(leap, 2) + 61;
    assert DaysBefore(leap, 6) == DaysBefore(leap, 4) + 61;
    assert DaysBefore(leap, 8) == DaysBefore(leap, 6) + 62;
    assert DaysBefore(leap, 10) == DaysBefore(leap, 8) + 61;
  }

  /** MakeDay: months outside 0..11 carry into the year. */
  function MakeDay(year: int, month: int, date: int): int {
    DayOf(year + month / 12, month % 12, date)
  }

  function DayOf(year: int, month: nat, date: int): int {
    DayFromYear(year) + DaysBefore(IsLeap(year), month) + date - 1
  }

  /** Date.UTC reads the years 0 to 99 as 1900 to 1999. */
  function UtcYear(year: int): int {
    if 0 <= year <= 99 then 1900 + year else year
  }

  function UtcDay(year: int, month: int, date: int): int {
    MakeDay(UtcYear(year), month, date)
  }

  lemma YearStep(year: int)
    ensures DayFromYear(year + 1) == DayFromYear(year) + DaysInYear(year)
    ensures DaysBefore(IsLeap(year), 12) == DaysInYear(year)
  {
    WholeYear(IsLeap(year));
  }

  lemma {:induction false} YearMonotone(a: int, b: int)
    requires a <= b
    ensures DayFromYear(b) - DayFromYear(a) >= 365 * (b - a)
    decreases b - a
  {
    if a < b {
      YearMonotone(a, b - 1);
      YearStep(b - 1);
    }
  }

  /** The year that contains the day `offset` days after January 1st of `year`. */
  function YearScan(offset: int, year: int): int
    decreases if offset < 0 then -offset else if offset >= DaysInYear(year) then offset else 0
  {
    if offset < 0 then YearScan(offset + DaysInYear(year - 1), year - 1)
    else if offset >= DaysInYear(year) then YearScan(offset - DaysInYear(year), year + 1)
    else year
  }

  function MonthScan(leap: bool, offset: int, month: nat): nat
    decreases 12 - month
  {
    if month >= 11 || offset < LengthOfMonth(leap, month) then month
    else MonthScan(leap, offset - LengthOfMonth(leap, month), month + 1)
  }

  function YearFromDay(day: int): int {
    YearScan(day, 1970)
  }

  function MonthFromDay(day: int): nat {
    MonthScan(IsLeap(YearFromDay(day)), day - DayFromYear(YearFromDay(day)), 0)
  }

  function DateFromDay(day: int): int {
    var y := YearFromDay(day);
    day - DayFromYear(y) - DaysBefore(IsLeap(y), MonthFromDay(day)) + 1
  }

  /** Months counted from year 0, for a day. */
  function MonthOf(day: int): int {
    YearFromDay(day) * 12 + MonthFromDay(day)
  }

  lemma {:induction false} YearScanFinds(day: int, offset: int, year: int)
    requires day == DayFromYear(year) + offset
    ensures var y := YearScan(offset, year);
      DayFromYear(y) <= day < DayFromYear(y + 1)
    decreases if offset < 0 then -offset else if offset >= DaysInYear(year) then offset else 0
  {
    YearStep(year - 1);
    YearStep(year);
    if offset < 0 {
      YearScanFinds(day, offset + DaysInYear(year - 1), year - 1);
    } else if offset >= DaysInYear(year) {
      YearScanFinds(day, offset - DaysInYear(year), year + 1);
    }
  }

  lemma {:induction false} MonthScanFinds(leap: bool, within: int, offset: int, month: nat)
    requires month <= 11 && offset >= 0
    requires within == DaysBefore(leap, month) + offset
    requires month == 11 ==> offset < 31
    requires within < if leap then 366 else 365
    ensures var m := MonthScan(leap, offset, month);
      m < 12 && DaysBefore(leap, m) <= within < DaysBefore(leap, m) + LengthOfMonth(leap, m)
    decreases 12 - month
  {
    if month < 11 && offset >= LengthOfMonth(leap, month) {
      var next := month + 1;
      assert DaysBefore(leap, next) == DaysBefore(leap, month) + LengthOfMonth(leap, month);
      if next == 11 {
        DecemberStart(leap);
      }
      MonthScanFinds(leap, within, offset - LengthOfMonth(leap, month), next);
    }
  }

  lemma DecemberStart(leap: bool)
    ensures DaysBefore(leap, 11) == if leap then 335 else 334
  {
    WholeYear(leap);
  }

  /** Every day lies in its year, in its month of that year, on a date of that month. */
  lemma DayInItsMonth(day: int)
    ensures var y, m, d := YearFromDay(day), MonthFromDay(day), DateFromDay(day);
      m < 12 && 1 <= d <= MonthLength(y, m) && DayOf(y, m, d) == day
    ensures DayFromYear(YearFromDay(day)) <= day < DayFromYear(YearFromDay(day) + 1)
  {
    YearScanFinds(day, day, 1970);
    var y := YearFromDay(day);
    YearStep(y);
    MonthScanFinds(IsLeap(y), day - DayFromYear(y), day - DayFromYear(y), 0);
    var m := MonthFromDay(day);
    assert DaysBefore(IsLeap(y), m + 1) == DaysBefore(IsLeap(y), m) + MonthLength(y, m);
  }

  lemma MonthUnique(leap: bool, within: int, a: nat, b: nat)
    requires DaysBefore(leap, a) <= within < DaysBefore(leap, a + 1)
    requires DaysBefore(leap, b) <= within < DaysBefore(leap, b + 1)
    ensures a == b
  {
    if a < b {
      DaysBeforeMonotone(leap, a + 1, b);
    } else if a > b {
      DaysBeforeMonotone(leap, b + 1, a);
    }
  }

  /** The civil components of a day are the only ones that make that day. */
  lemma ComponentsOfDay(year: int, month: nat, date: nat)
    requires month < 12 && 1 <= date <= MonthLength(year, month)
    ensures var n := DayOf(year, month, date);
      YearFromDay(n) == year && MonthFromDay(n) == month && DateFromDay(n) == date
  {
    var n := DayOf(year, month, date);
    DayInItsMonth(n);
    YearOfDay(year, month, date);
    assert DaysBefore(IsLeap(year), month + 1) == DaysBefore(IsLeap(year), month) + MonthLength(year, month);
    MonthUnique(IsLeap(year), n - DayFromYear(year), MonthFromDay(n), month);
  }

  lemma DayWithinYear(year: int, month: nat, date: nat)
    requires month < 12 && 1 <= date <= MonthLength(year, month)
    ensures DayFromYear(year) <= DayOf(year, month, date) < DayFromYear(year + 1)
  {
    YearStep(year);
    DaysBeforeMonotone(IsLeap(year), month + 1, 12);
  }

  lemma YearUnique(day: int, a: int, b: int)
    requires DayFromYear(a) <= day < DayFromYear(a + 1)
    requires DayFromYear(b) <= day < DayFromYear(b + 1)
    ensures a == b
  {
    if a < b {
      YearMonotone(a + 1, b);
    } else if a > b {
      YearMonotone(b + 1, a);
    }
  }

  lemma YearOfDay(year: int, month: nat, date: nat)
    requires month < 12 && 1 <= date <= MonthLength(year, month)
    ensures YearFromDay(DayOf(year, month, date)) == year
  {
    hide DayOf, YearFromDay, DayFromYear;
    DayInItsMonth(DayOf(year, month, date));
    DayWithinYear(year, month, date);
    YearUnique(DayOf(year, month, date), YearFromDay(DayOf(year, month, date)), year);
  }

  lemma DayZero(year: int, month: nat)
    requires month < 12
    ensures var y, m := if month == 0 then year - 1 else year, if month == 0 then 11 else month - 1;
      MakeDay(year, month, 0) == DayOf(y, m, MonthLength(y, m))
  {
    hide DayFromYear, IsLeap, YearScan;
    if month == 0 {
      YearStep(year - 1);
      assert DaysBefore(IsLeap(year - 1), 12)
        == DaysBefore(IsLeap(year - 1), 11) + LengthOfMonth(IsLeap(year - 1), 11);
    }
  }

  /** Day zero of a month lies in the month before. */
  lemma DayZeroIsInPreviousMonth(day: int)
    ensures MonthOf(MakeDay(YearFromDay(day), MonthFromDay(day), 0)) == MonthOf(day) - 1
  {
    hide DayFromYear, IsLeap, YearFromDay, MonthFromDay, DayOf, MakeDay, DaysBefore, LengthOfMonth;
    DayInItsMonth(day);
    var y, m := YearFromDay(day), MonthFromDay(day);
    DayZero(y, m);
    if m == 0 {
      ComponentsOfDay(y - 1, 11, MonthLength(y - 1, 11));
    } else {
      ComponentsOfDay(y, m - 1, MonthLength(y, m - 1));
    }
  }

  // ---- day keys ----

  function Pad(value: int, width: nat): string {
    PadStart(if value < 0 then "-" + NatToString(-value) else NatToString(value), width)
  }

  function FormatDayKey(year: int, monthIndex: int, day: int): string {
    Pad(year, 4) + "-" + (Pad(monthIndex + 1, 2) + "-" + Pad(day, 2))
  }

  function KeyOf(p: Parts): string {
    FormatDayKey(p.year, p.monthIndex, p.day)
  }

  function LastDayOfMonth(year: int, monthIndex: nat): nat {
    MonthLength(UtcYear(year), monthIndex)
  }

  /** The last day is the civil day of day zero of the next month, which is how Date.UTC finds it. */
  lemma LastDayIsDayZeroOfNext(year: int, monthIndex: nat)
    requires monthIndex < 12
    ensures DateFromDay(UtcDay(year, monthIndex + 1, 0)) == LastDayOfMonth(year, monthIndex)
  {
    var y := UtcYear(year);
    YearStep(y);
    assert UtcDay(year, monthIndex + 1, 0) == DayOf(y, monthIndex, MonthLength(y, monthIndex)) by {
      if monthIndex == 11 {
        assert (monthIndex + 1) / 12 == 1 && (monthIndex + 1) % 12 == 0;
      }
    }
    ComponentsOfDay(y, monthIndex, MonthLength(y, monthIndex));
  }

  function ClampDayToMonth(year: int, monthIndex: nat, day: int): int {
    var least := if day > 1 then day else 1;
    var last := LastDayOfMonth(year, monthIndex);
    if least < last then least else last
  }

  predicate MatchesDayKey(s: string) {
    |s| == 10 && s[4] == '-' && s[7] == '-'
    && AllDigits(s[..4]) && AllDigits(s[5..7]) && AllDigits(s[8..])
  }

  /** Strict parse: None for anything that is not a real calendar date. */
  function ParseDayKey(s: string): Option<Parts> {
    if !MatchesDayKey(s) then None
    else
      var year, month, day := ParseNat(s[..4]), ParseNat(s[5..7]), ParseNat(s[8..]);
      if month < 1 || month > 12 || day < 1 then None
      else if day > LastDayOfMonth(year, month - 1) then None
      else Some(Parts(year, month - 1, day))
  }

  /** Days since 1970-01-01; None stands for the RangeError of a malformed key. */
  function DayNumber(key: string): Option<int> {
    match ParseDayKey(key)
    case None => None
    case Some(p) => Some(UtcDay(p.year, p.monthIndex, p.day))
  }

  function DayKeyFromNumber(dayNum: int): string {
    FormatDayKey(YearFromDay(dayNum), MonthFromDay(dayNum), DateFromDay(dayNum))
  }

  function AddDaysToKey(key: string, days: int): Option<string> {
    match DayNumber(key)
    case None => None
    case Some(n) => Some(DayKeyFromNumber(n + days))
  }

  function AddMonthsClamped(key: string, months: int): Option<string> {
    match ParseDayKey(key)
    case None => None
    case Some(p) =>
      var total := p.year * 12 + p.monthIndex + months;
      var year := total / 12;
      var monthIndex := total % 12;
      Some(FormatDayKey(year, monthIndex, ClampDayToMonth(year, monthIndex, p.day)))
  }

  predicate IsDate(p: Parts) {
    p.year <= 9999 && p.monthIndex < 12 && 1 <= p.day <= MonthLength(UtcYear(p.year), p.monthIndex)
  }

  lemma PadDigits(value: nat, width: nat)
    requires 0 < width && value < Pow10(width)
    ensures var s := Pad(value, width);
      AllDigits(s) && |s| == width && ParseNat(s) == value
  {
    ParsePrint(value);
    ParsePadStart(NatToString(value), width);
    PrintLength(value, width);
  }

  lemma {:induction false} PrintLength(value: nat, width: nat)
    requires 0 < width && value < Pow10(width)
    ensures |NatToString(value)| <= width
  {
    if value >= 10 {
      PrintLength(value / 10, width - 1);
    }
  }

  lemma PartsOfKey(year: nat, monthIndex: nat, day: nat)
    requires year <= 9999 && monthIndex < 12 && 1 <= day <= 31
    ensures var s := FormatDayKey(year, monthIndex, day);
      MatchesDayKey(s) && ParseNat(s[..4]) == year && ParseNat(s[5..7]) == monthIndex + 1
      && ParseNat(s[8..]) == day
  {
    Widths();
    PadDigits(year, 4);
    PadDigits(monthIndex + 1, 2);
    PadDigits(day, 2);
    var s := FormatDayKey(year, monthIndex, day);
    assert s[..4] == Pad(year, 4) && s[5..7] == Pad(monthIndex + 1, 2) && s[8..] == Pad(day, 2);
  }

  /** Every real date has a key, and that key reads back as the date. */
  lemma ParseOfFormat(p: Parts)
    requires IsDate(p)
    ensures ParseDayKey(KeyOf(p)) == Some(p)
  {
    PartsOfKey(p.year, p.monthIndex, p.day);
  }

  /** The parser accepts only the text the formatter writes. */
  lemma FormatOfParse(key: string)
    requires ParseDayKey(key).Some?
    ensures var p := ParseDayKey(key).value;
      IsDate(p) && KeyOf(p) == key
  {
    var p := ParseDayKey(key).value;
    ParseBounds(key[..4]);
    Widths();
    hide ParseNat, Pow10, FormatDayKey, AllDigits, MonthLength, LengthOfMonth, IsLeap;
    PartsOfKey(p.year, p.monthIndex, p.day);
    SameKey(KeyOf(p), key);
  }

  /** Two keys with equal numbers in equal places are the same text. */
  lemma SameKey(a: string, b: string)
    requires MatchesDayKey(a) && MatchesDayKey(b)
    requires ParseNat(a[..4]) == ParseNat(b[..4]) && ParseNat(a[5..7]) == ParseNat(b[5..7])
    requires ParseNat(a[8..]) == ParseNat(b[8..])
    ensures a == b
  {
    hide ParseNat, AllDigits;
    ParseInjective(a[..4], b[..4]);
    ParseInjective(a[5..7], b[5..7]);
    ParseInjective(a[8..], b[8..]);
    KeyPieces(a);
    KeyPieces(b);
  }

  lemma KeyPieces(s: string)
    requires |s| == 10 && s[4] == '-' && s[7] == '-'
    ensures s == s[..4] + ['-'] + s[5..7] + ['-'] + s[8..]
  {
  }

  lemma PlainMonth(year: int, month: nat, date: int)
    requires month < 12
    ensures UtcDay(year, month, date) == DayOf(UtcYear(year), month, date)
  {
    assert month / 12 == 0 && month % 12 == month;
  }

  lemma KeyOfDay(year: int, month: nat, date: nat)
    requires month < 12 && 1 <= date <= MonthLength(year, month)
    ensures DayKeyFromNumber(DayOf(year, month, date)) == FormatDayKey(year, month, date)
  {
    ComponentsOfDay(year, month, date);
  }

  lemma FormatTellsYears(a: nat, b: nat, month: nat, day: nat)
    requires a <= 9999 && b <= 9999 && month < 12 && 1 <= day <= 31
    ensures FormatDayKey(a, month, day) == FormatDayKey(b, month, day) <==> a == b
  {
    PartsOfKey(a, month, day);
    PartsOfKey(b, month, day);
  }

  lemma NumberOfKey(key: string, p: Parts)
    requires ParseDayKey(key) == Some(p)
    ensures DayNumber(key) == Some(DayOf(UtcYear(p.year), p.monthIndex, p.day))
    ensures IsDate(p) && key == KeyOf(p)
  {
    FormatOfParse(key);
    PlainMonth(p.year, p.monthIndex, p.day);
  }

  /**
   * The key of a date survives the trip through its day number exactly when its year is 100 or later; the years before
   * come back in the twentieth century.
   */
  lemma KeyRoundTrip(p: Parts)
    requires IsDate(p)
    ensures DayNumber(KeyOf(p)).Some?
    ensures DayKeyFromNumber(DayNumber(KeyOf(p)).value) == KeyOf(p) <==> p.year >= 100
    ensures p.year < 100 ==>
              DayKeyFromNumber(DayNumber(KeyOf(p)).value) == FormatDayKey(1900 + p.year, p.monthIndex, p.day)
  {
    hide DayNumber, DayKeyFromNumber;
    ParseOfFormat(p);
    NumberOfKey(KeyOf(p), p);
    KeyOfDay(UtcYear(p.year), p.monthIndex, p.day);
    FormatTellsYears(p.year, UtcYear(p.year), p.monthIndex, p.day);
  }

  lemma YearInRange(n: int)
    requires DayFromYear(100) <= n < DayFromYear(10000)
    ensures 100 <= YearFromDay(n) <= 9999
  {
    var y := YearFromDay(n);
    DayInItsMonth(n);
    if y < 100 {
      YearMonotone(y + 1, 100);
    } else if y > 9999 {
      YearMonotone(10000, y);
    }
  }

  /** Every day from year 100 to year 9999 is the day number of its own key. */
  lemma NumberRoundTrip(n: int)
    requires DayFromYear(100) <= n < DayFromYear(10000)
    ensures DayNumber(DayKeyFromNumber(n)) == Some(n)
    ensures ParseDayKey(DayKeyFromNumber(n)).Some?
    ensures ParseDayKey(DayKeyFromNumber(n)).value.year >= 100
  {
    YearInRange(n);
    DayInItsMonth(n);
    var p := Parts(YearFromDay(n), MonthFromDay(n), DateFromDay(n));
    ParseOfFormat(p);
    NumberOfKey(DayKeyFromNumber(n), p);
  }

  predicate Before(a: Parts, b: Parts) {
    a.year < b.year
    || (a.year == b.year
        && (a.monthIndex < b.monthIndex || (a.monthIndex == b.monthIndex && a.day < b.day)))
  }

  lemma Widths()
    ensures Pow10(2) == 100 && Pow10(4) == 10000
  {
    assert Pow10(1) == 10;
    assert Pow10(3) == 1000;
  }

  lemma KeyOrderIsPartsOrder(a: Parts, b: Parts)
    requires IsDate(a) && IsDate(b)
    ensures LexLess(KeyOf(a), KeyOf(b)) <==> Before(a, b)
  {
    var ya, yb := Pad(a.year, 4), Pad(b.year, 4);
    var ma, mb := Pad(a.monthIndex + 1, 2), Pad(b.monthIndex + 1, 2);
    var da, db := Pad(a.day, 2), Pad(b.day, 2);
    assert KeyOf(a) == ya + "-" + (ma + "-" + da) && KeyOf(b) == yb + "-" + (mb + "-" + db);
    hide Pad, KeyOf, ParseNat, LexLess, MonthLength, Pow10;
    Widths();
    PadsOrder(a.year, b.year, 4);
    PadsOrder(a.monthIndex + 1, b.monthIndex + 1, 2);
    PadsOrder(a.day, b.day, 2);
    DashConcat(ya, yb, ma + "-" + da, mb + "-" + db);
    DashConcat(ma, mb, da, db);
  }

  lemma PadsOrder(a: nat, b: nat, width: nat)
    requires 0 < width && a < Pow10(width) && b < Pow10(width)
    ensures |Pad(a, width)| == |Pad(b, width)|
    ensures LexLess(Pad(a, width), Pad(b, width)) <==> a < b
    ensures Pad(a, width) == Pad(b, width) <==> a == b
  {
    PadDigits(a, width);
    PadDigits(b, width);
    hide Pad, LexLess;
    LexIsNumeric(Pad(a, width), Pad(b, width));
  }

  lemma DashConcat(a: string, b: string, c: string, d: string)
    requires |a| == |b|
    ensures LexLess(a + "-" + c, b + "-" + d) <==> LexLess(a, b) || (a == b && LexLess(c, d))
  {
    assert a + "-" + c == a + ("-" + c) && b + "-" + d == b + ("-" + d);
    LexConcat(a, b, "-" + c, "-" + d);
    assert ("-" + c)[1..] == c && ("-" + d)[1..] == d;
  }

  lemma PartsOrderIsDayOrder(a: Parts, b: Parts)
    requires IsDate(a) && IsDate(b) && a.year >= 100 && b.year >= 100 && Before(a, b)
    ensures DayOf(a.year, a.monthIndex, a.day) < DayOf(b.year, b.monthIndex, b.day)
  {
    if a.year < b.year {
      DayWithinYear(a.year, a.monthIndex, a.day);
      DayWithinYear(b.year, b.monthIndex, b.day);
      YearMonotone(a.year + 1, b.year);
    } else if a.monthIndex < b.monthIndex {
      DaysBeforeMonotone(IsLeap(a.year), a.monthIndex + 1, b.monthIndex);
    }
  }

  /** For keys of dates from year 100 on, string order is date order. */
  lemma KeyOrderIsDateOrder(a: Parts, b: Parts)
    requires IsDate(a) && IsDate(b) && a.year >= 100 && b.year >= 100
    ensures DayNumber(KeyOf(a)).Some? && DayNumber(KeyOf(b)).Some?
    ensures LexLess(KeyOf(a), KeyOf(b)) <==> DayNumber(KeyOf(a)).value < DayNumber(KeyOf(b)).value
  {
    hide DayNumber, KeyOf;
    ParseOfFormat(a);
    ParseOfFormat(b);
    NumberOfKey(KeyOf(a), a);
    NumberOfKey(KeyOf(b), b);
    KeyOrderIsPartsOrder(a, b);
    if Before(a, b) {
      PartsOrderIsDayOrder(a, b);
    } else if Before(b, a) {
      PartsOrderIsDayOrder(b, a);
    }
  }

  /** Adding days moves the day number by exactly that many days and composes. */
  lemma AddDaysComposes(key: string, m: int, n: int)
    requires DayNumber(key).Some?
    requires DayFromYear(100) <= DayNumber(key).value + m < DayFromYear(10000)
    ensures AddDaysToKey(key, m).Some?
    ensures DayNumber(AddDaysToKey(key, m).value) == Some(DayNumber(key).value + m)
    ensures AddDaysToKey(AddDaysToKey(key, m).value, n) == AddDaysToKey(key, m + n)
  {
    hide DayNumber, DayKeyFromNumber, AddDaysToKey;
    var day := DayNumber(key).value;
    NumberRoundTrip(day + m);
    AddDaysValue(key, day, m);
    AddDaysValue(key, day, m + n);
    AddDaysValue(DayKeyFromNumber(day + m), day + m, n);
  }

  lemma AddDaysValue(key: string, day: int, n: int)
    requires DayNumber(key) == Some(day)
    ensures AddDaysToKey(key, n) == Some(DayKeyFromNumber(day + n))
  {
    hide DayNumber, DayKeyFromNumber;
  }

  /** Months counted from year 0 to the month `months` after the key's month. */
  function MonthTotal(p: Parts, months: int): int {
    p.year * 12 + p.monthIndex + months
  }

  lemma ClampIsDate(year: nat, monthIndex: nat, day: nat)
    requires year <= 9999 && monthIndex < 12 && day >= 1
    ensures var d := ClampDayToMonth(year, monthIndex, day);
      var last := MonthLength(UtcYear(year), monthIndex);
      d == (if day < last then day else last) && IsDate(Parts(year, monthIndex, d))
  {
  }

  /** A month step lands on a real date of the month it names, on the anchor's day or, when the
      month is too short for it, on the month's last day. */
  lemma AddMonthsIsDate(key: string, months: int) returns (q: Parts)
    requires ParseDayKey(key).Some?
    requires 0 <= MonthTotal(ParseDayKey(key).value, months) < 120000
    ensures var p := ParseDayKey(key).value;
      && IsDate(q)
      && AddMonthsClamped(key, months) == Some(KeyOf(q))
      && ParseDayKey(AddMonthsClamped(key, months).value) == Some(q)
      && MonthTotal(q, 0) == MonthTotal(p, months)
      && q.day == (if p.day < MonthLength(UtcYear(q.year), q.monthIndex) then p.day
                   else MonthLength(UtcYear(q.year), q.monthIndex))
  {
    var p := ParseDayKey(key).value;
    NumberOfKey(key, p);
    var total := MonthTotal(p, months);
    var year := total / 12;
    var monthIndex := total % 12;
    ClampIsDate(year, monthIndex, p.day);
    q := Parts(year, monthIndex, ClampDayToMonth(year, monthIndex, p.day));
    ParseOfFormat(q);
    AddMonthsValue(key, p, months, q);
  }

  lemma AddMonthsValue(key: string, p: Parts, months: int, q: Parts)
    requires ParseDayKey(key) == Some(p)
    requires q.year == MonthTotal(p, months) / 12
    requires q.monthIndex == MonthTotal(p, months) % 12
    requires q.day == ClampDayToMonth(q.year, q.monthIndex, p.day)
    ensures AddMonthsClamped(key, months) == Some(KeyOf(q))
  {
  }

  /** From one anchor, more months always give a later key and a later day. */
  lemma AddMonthsStrictlyIncreases(key: string, m: int, n: int)
    requires ParseDayKey(key).Some? && m < n
    requires 1200 <= MonthTotal(ParseDayKey(key).value, m)
    requires MonthTotal(ParseDayKey(key).value, n) < 120000
    ensures var a, b := AddMonthsClamped(key, m), AddMonthsClamped(key, n);
      a.Some? && b.Some? && LexLess(a.value, b.value)
      && DayNumber(a.value).Some? && DayNumber(b.value).Some?
      && DayNumber(a.value).value < DayNumber(b.value).value
  {
    var q := AddMonthsIsDate(key, m);
    var r := AddMonthsIsDate(key, n);
    assert Before(q, r);
    KeyOrderIsPartsOrder(q, r);
    KeyOrderIsDateOrder(q, r);
  }
}
