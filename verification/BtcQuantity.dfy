/** BTC and satoshi text, converted without floating point. */
module BtcQuantity {
  import opened Wrappers
  import opened Text
  import opened DecimalInput

  const SATS_PER_BTC: nat := 100000000
  const SATS_DECIMALS: nat := 8
  const MAX_SAFE_INTEGER: nat := 9007199254740991

  datatype Unit = Btc | Sats

  function SignedInteger(negative: bool, n: nat): string {
    Sign(negative && n != 0) + NatToString(n)
  }

  /** First eight decimals of a fraction, padded with zeros. */
  function KeptDecimals(fraction: string): (kept: string)
    requires AllDigits(fraction)
    ensures AllDigits(kept) && |kept| == SATS_DECIMALS
  {
    PadEnd(if |fraction| <= SATS_DECIMALS then fraction else fraction[..SATS_DECIMALS], SATS_DECIMALS)
  }

  function RoundedSats(integer: string, fraction: string): nat
    requires AllDigits(integer) && AllDigits(fraction)
  {
    var roundUp := |fraction| > SATS_DECIMALS && fraction[SATS_DECIMALS] >= '5';
    ParseNat(integer) * SATS_PER_BTC + ParseNat(KeptDecimals(fraction)) + if roundUp then 1 else 0
  }

  function BtcToSats(btc: string): Option<string> {
    var text := Trim(btc);
    var negative := text != "" && text[0] == '-';
    SatsOfBody(negative, if negative then text[1..] else text)
  }

  /** The unsigned part: digits, then at most one dot that more digits must follow. */
  function SatsOfBody(negative: bool, body: string): Option<string> {
    var dot := IndexOf(body, '.');
    var integer := body[..dot];
    var fraction := if dot == |body| then "" else body[dot + 1..];
    if integer == "" || !AllDigits(integer) then None
    else if dot < |body| && (fraction == "" || !AllDigits(fraction)) then None
    else
      var sats := RoundedSats(integer, fraction);
      if sats > MAX_SAFE_INTEGER then None else Some(SignedInteger(negative, sats))
  }

  function SatsToBtc(sats: string): Option<string> {
    var text := Trim(sats);
    var negative := text != "" && text[0] == '-';
    var body := if negative then text[1..] else text;
    if body == "" || !AllDigits(body) then None
    else
      var digits := PadStart(body, SATS_DECIMALS + 1);
      var integer := StripLeadingZeros(digits[..|digits| - SATS_DECIMALS]);
      var fraction := StripTrailingZeros(digits[|digits| - SATS_DECIMALS..]);
      var value := DecimalText(false, integer, '.', fraction);
      Some(Sign(negative && value != "0") + value)
  }

  function DecimalsOf(text: string): nat {
    var parts := Split(text, '.');
    if |parts| > 1 then |parts[1]| else 0
  }

  function NormalizeBtcQuantity(raw: string, unit: Unit): Option<string> {
    var trimmed := Trim(raw);
    if trimmed == "" then None
    else if unit == Btc then
      match NormalizePtBrDecimal(trimmed)
      case None => None
      case Some(normalized) =>
        var sats := BtcToSats(normalized);
        if DecimalsOf(normalized) > SATS_DECIMALS || sats == None || sats == Some("0") then None
        else Some(normalized)
    else
      var negative := trimmed[0] == '-';
      var digits := Keep(if negative then trimmed[1..] else trimmed,
                         c => c != '.' && c != ',' && !IsSpace(c));
      if digits == "" || !AllDigits(digits) then None
      else
        StripLeadingZerosMeaning(digits);
        var sats := StripLeadingZeros(digits);
        if sats == "0" || ParseNat(sats) > MAX_SAFE_INTEGER then None
        else SatsToBtc(Sign(negative) + sats)
  }

  function ReplaceFirst(s: string, from: char, to: char): string {
    var k := IndexOf(s, from);
    if k == |s| then s else s[k := to]
  }

  function ConvertBtcInput(raw: string, from: Unit, to: Unit): string {
    match NormalizeBtcQuantity(raw, from)
    case None => ""
    case Some(btc) => if to == Btc then ReplaceFirst(btc, '.', ',') else BtcToSats(btc).GetOr("")
  }

  // ---- what the conversions mean ----

  lemma {:induction false} TrimNothing(s: string)
    requires NoSpaces(s)
    ensures Trim(s) == s
  {
  }

  /** Satoshi text becomes the decimal whose value is exactly that many hundred-millionths. */
  lemma SatsToBtcMeaning(negative: bool, digits: string) returns (integer: string, fraction: string)
    requires AllDigits(digits) && digits != ""
    ensures Canonical(integer) && AllDigits(fraction) && |fraction| <= SATS_DECIMALS
    ensures fraction != "" ==> fraction[|fraction| - 1] != '0'
    ensures ParseNat(integer + fraction) * Pow10(SATS_DECIMALS - |fraction|) == ParseNat(digits)
    ensures SatsToBtc(Sign(negative) + digits)
      == Some(DecimalText(negative && ParseNat(digits) != 0, integer, '.', fraction))
  {
    hide ParseNat, Pow10, Trim, StripLeadingZeros, StripTrailingZeros, HasNonZeroDigit, PadStart;
    var text := Sign(negative) + digits;
    TrimNothing(text);
    var padded := PadStart(digits, SATS_DECIMALS + 1);
    ParsePadStart(digits, SATS_DECIMALS + 1);
    PadStartLength(digits, SATS_DECIMALS + 1);
    var high, low := padded[..|padded| - SATS_DECIMALS], padded[|padded| - SATS_DECIMALS..];
    integer, fraction := StripLeadingZeros(high), StripTrailingZeros(low);
    StripLeadingZerosMeaning(high);
    StripTrailingZerosMeaning(low);
    ZerosScale(fraction, SATS_DECIMALS - |fraction|);
    DigitsDenote(high, low, integer, fraction);
    assert padded == high + low;
    ZeroOnlyWhenPlain(integer, fraction);
    assert text[0] == '-' <==> negative;
    assert (if negative then text[1..] else text) == digits;
    var value := DecimalText(false, integer, '.', fraction);
    assert SatsToBtc(text) == Some(Sign(negative && value != "0") + value);
    assert Sign(negative && value != "0") + value == DecimalText(negative && value != "0", integer, '.', fraction);
  }

  lemma PadStartLength(s: string, width: nat)
    ensures |PadStart(s, width)| == if |s| < width then width else |s|
  {
  }

  lemma ZerosScale(fraction: string, zeros: nat)
    requires AllDigits(fraction)
    ensures AllDigits(fraction + Repeat('0', zeros))
    ensures ParseNat(fraction + Repeat('0', zeros)) == ParseNat(fraction) * Pow10(zeros)
  {
    hide ParseNat, Pow10;
    ParseZeros(zeros);
    ParseConcat(fraction, Repeat('0', zeros));
  }

  lemma DigitsDenote(high: string, low: string, integer: string, fraction: string)
    requires AllDigits(high) && AllDigits(low) && AllDigits(integer) && AllDigits(fraction)
    requires |low| == SATS_DECIMALS && |fraction| <= SATS_DECIMALS
    requires ParseNat(low) == ParseNat(fraction) * Pow10(SATS_DECIMALS - |fraction|)
    requires ParseNat(high) == ParseNat(integer)
    ensures AllDigits(integer + fraction) && AllDigits(high + low)
    ensures ParseNat(integer + fraction) * Pow10(SATS_DECIMALS - |fraction|) == ParseNat(high + low)
  {
    hide ParseNat, Pow10, Joined;
    var rest := SATS_DECIMALS - |fraction|;
    JoinedText(integer, fraction);
    JoinedText(high, low);
    Pow10Adds(|fraction|, rest);
    JoinedScales(ParseNat(integer), ParseNat(fraction), Pow10(|fraction|), Pow10(rest));
  }

  /** A number followed by digits worth `low` that take up the places below `scale`. */
  function Joined(high: nat, scale: nat, low: nat): nat {
    high * scale + low
  }

  lemma JoinedText(high: string, low: string)
    requires AllDigits(high) && AllDigits(low)
    ensures AllDigits(high + low) && ParseNat(high + low) == Joined(ParseNat(high), Pow10(|low|), ParseNat(low))
  {
    hide ParseNat, Pow10;
    ParseConcat(high, low);
  }

  lemma Regroup(i: nat, f: nat, p: nat, q: nat)
    ensures (i * p + f) * q == i * (p * q) + f * q
  {
  }

  lemma JoinedScales(high: nat, low: nat, p: nat, q: nat)
    ensures Joined(high, p, low) * q == Joined(high, p * q, low * q)
  {
    Regroup(high, low, p, q);
  }

  lemma {:induction false} Pow10Adds(a: nat, b: nat)
    ensures Pow10(a + b) == Pow10(a) * Pow10(b)
  {
    if a > 0 {
      Pow10Adds(a - 1, b);
      assert 10 * (Pow10(a - 1) * Pow10(b)) == Pow10(a) * Pow10(b);
    }
  }

  lemma TrailingDigit(s: string)
    requires AllDigits(s) && s != "" && s[|s| - 1] != '0'
    ensures ParseNat(s) > 0
  {
  }

  lemma ProductIsZero(a: nat, b: nat)
    requires b > 0
    ensures a * b == 0 <==> a == 0
  {
  }

  /** A canonical decimal without trailing zeros prints as "0" exactly when it denotes zero. */
  lemma ZeroOnlyWhenPlain(integer: string, fraction: string)
    requires Canonical(integer) && AllDigits(fraction) && |fraction| <= SATS_DECIMALS
    requires fraction != "" ==> fraction[|fraction| - 1] != '0'
    ensures AllDigits(integer + fraction)
    ensures DecimalText(false, integer, '.', fraction) == "0"
      <==> ParseNat(integer + fraction) * Pow10(SATS_DECIMALS - |fraction|) == 0
  {
    hide Pow10;
    ProductIsZero(ParseNat(integer + fraction), Pow10(SATS_DECIMALS - |fraction|));
    if fraction == "" {
      assert DecimalText(false, integer, '.', fraction) == integer == integer + fraction;
      PrintParse(integer);
    } else {
      TrailingDigit(integer + fraction);
      assert |DecimalText(false, integer, '.', fraction)| >= 3;
    }
  }

  /** A decimal with at most eight places becomes the satoshi count it denotes. */
  lemma BtcToSatsMeaning(negative: bool, integer: string, fraction: string)
    requires Canonical(integer) && AllDigits(fraction) && |fraction| <= SATS_DECIMALS
    ensures AllDigits(integer + fraction)
    ensures var n := ParseNat(integer + fraction) * Pow10(SATS_DECIMALS - |fraction|);
      BtcToSats(DecimalText(negative, integer, '.', fraction))
        == if n > MAX_SAFE_INTEGER then None else Some(SignedInteger(negative, n))
  {
    hide ParseNat, Pow10, BtcToSats, PadEnd;
    DecimalTextParts(negative, integer, fraction);
    ParsePadEnd(fraction, SATS_DECIMALS);
    ParseConcat(integer, fraction);
    Pow10Adds(|fraction|, SATS_DECIMALS - |fraction|);
    EightPlaces();
    Regroup(ParseNat(integer), ParseNat(fraction), Pow10(|fraction|), Pow10(SATS_DECIMALS - |fraction|));
  }

  lemma EightPlaces()
    ensures Pow10(SATS_DECIMALS) == SATS_PER_BTC
  {
    assert Pow10(4) == 10000;
    Pow10Adds(4, 4);
  }

  lemma BodySats(negative: bool, integer: string, fraction: string)
    requires AllDigits(integer) && integer != "" && AllDigits(fraction)
    ensures var sats := RoundedSats(integer, fraction);
      SatsOfBody(negative, DecimalText(false, integer, '.', fraction))
        == if sats > MAX_SAFE_INTEGER then None else Some(SignedInteger(negative, sats))
  {
    hide RoundedSats, SignedInteger;
    var body := DecimalText(false, integer, '.', fraction);
    assert forall i :: 0 <= i < |integer| ==> body[i] == integer[i] && IsDigit(integer[i]);
    if fraction == "" {
      assert body == integer;
      assert IndexOf(body, '.') == |body| && body[..|body|] == integer;
    } else {
      assert body == integer + ['.'] + fraction;
      assert body[|integer|] == '.';
      assert IndexOf(body, '.') == |integer|;
      assert body[..|integer|] == integer && body[|integer| + 1..] == fraction;
    }
  }

  lemma NoSpacesInDecimals(negative: bool, integer: string, fraction: string)
    requires AllDigits(integer) && AllDigits(fraction)
    ensures NoSpaces(DecimalText(negative, integer, '.', fraction))
  {
  }

  lemma SignedBody(negative: bool, body: string)
    requires body != "" && body[0] != '-' && NoSpaces(body)
    ensures var text := Sign(negative) + body;
      Trim(text) == text && text != "" && (text[0] == '-' <==> negative)
      && (if negative then text[1..] else text) == body
  {
    var text := Sign(negative) + body;
    TrimNothing(text);
    assert !negative ==> text == body;
  }

  lemma DecimalTextParts(negative: bool, integer: string, fraction: string)
    requires Canonical(integer) && AllDigits(fraction)
    ensures var sats := RoundedSats(integer, fraction);
      BtcToSats(DecimalText(negative, integer, '.', fraction))
        == if sats > MAX_SAFE_INTEGER then None else Some(SignedInteger(negative, sats))
  {
    hide RoundedSats, SignedInteger, SatsOfBody, Trim;
    var body := DecimalText(false, integer, '.', fraction);
    assert body[0] == integer[0];
    NoSpacesInDecimals(false, integer, fraction);
    SignedBody(negative, body);
    assert DecimalText(negative, integer, '.', fraction) == Sign(negative) + body;
    BodySats(negative, integer, fraction);
  }

  /** Longer fractions are rounded to the nearest satoshi, halves away from zero. */
  lemma SatsAreNearest(integer: string, fraction: string)
    requires AllDigits(integer) && AllDigits(fraction) && |fraction| > SATS_DECIMALS
    ensures AllDigits(integer + fraction)
    ensures var sats, exact, unit :=
        RoundedSats(integer, fraction), ParseNat(integer + fraction), Pow10(|fraction| - SATS_DECIMALS);
      2 * sats * unit - unit <= 2 * exact < 2 * sats * unit + unit
  {
    hide ParseNat, Pow10;
    var kept, rest := fraction[..SATS_DECIMALS], fraction[SATS_DECIMALS..];
    var unit := Pow10(|rest|);
    assert fraction == kept + rest && integer + fraction == integer + kept + rest;
    ParseConcat(integer, kept);
    ParseConcat(integer + kept, rest);
    EightPlaces();
    FirstDigitDecidesHalf(rest);
    NearestMultiple(ParseNat(integer + kept), ParseNat(rest), unit);
  }

  lemma NearestMultiple(n: nat, rest: nat, unit: nat)
    requires rest < unit
    ensures var up := if 2 * rest >= unit then n + 1 else n;
      2 * up * unit - unit <= 2 * (n * unit + rest) < 2 * up * unit + unit
  {
    assert 2 * (n + 1) * unit == 2 * n * unit + 2 * unit;
    assert 2 * n * unit == 2 * (n * unit);
  }

  lemma FirstDigitDecidesHalf(rest: string)
    requires AllDigits(rest) && rest != ""
    ensures rest[0] >= '5' <==> 2 * ParseNat(rest) >= Pow10(|rest|)
    ensures ParseNat(rest) < Pow10(|rest|)
  {
    var head, tail := rest[..1], rest[1..];
    assert rest == head + tail;
    assert ParseNat(head) == DigitValue(rest[0]) by {
      assert head[..0] == "";
    }
    assert Pow10(|rest|) == 10 * Pow10(|tail|);
    hide ParseNat, Pow10;
    ParseConcat(head, tail);
    ParseBounds(tail);
    ParseBounds(rest);
    HalfByDigit(DigitValue(rest[0]), Pow10(|tail|), ParseNat(tail));
  }

  lemma HalfByDigit(d: nat, p: nat, tail: nat)
    requires tail < p
    ensures d >= 5 <==> 2 * (d * p + tail) >= 10 * p
  {
    if d >= 5 {
      assert d * p >= 5 * p;
    } else {
      assert d * p <= 4 * p;
    }
  }

  lemma {:induction false} NonZeroHasDigit(s: string)
    requires AllDigits(s) && ParseNat(s) > 0
    ensures HasNonZeroDigit(s)
  {
    var last := |s| - 1;
    if s[last] == '0' {
      NonZeroHasDigit(s[..last]);
      var i :| 0 <= i < last && '1' <= s[..last][i] <= '9';
      assert '1' <= s[i] <= '9';
    }
  }

  /** Showing a satoshi quantity in BTC and switching back gives the very same text. */
  lemma SatsTextSurvivesBothSwitches(negative: bool, digits: string)
    requires Canonical(digits) && digits != "0" && ParseNat(digits) <= MAX_SAFE_INTEGER
    ensures var text := Sign(negative) + digits;
      ConvertBtcInput(ConvertBtcInput(text, Sats, Btc), Btc, Sats) == text
  {
    hide ParseNat, Pow10, NatToString, NormalizeBtcQuantity, BtcToSats, SatsToBtc, ReplaceFirst, HasNonZeroDigit;
    var text := Sign(negative) + digits;
    PrintParse(digits);
    var integer, fraction := SatsToBtcMeaning(negative, digits);
    SatsFieldReads(negative, digits);
    var btc := DecimalText(negative, integer, '.', fraction);
    var shown := DecimalText(negative, integer, ',', fraction);
    CommaShown(negative, integer, fraction);
    assert ConvertBtcInput(text, Sats, Btc) == shown;
    ProductIsZero(ParseNat(integer + fraction), Pow10(SATS_DECIMALS - |fraction|));
    NonZeroHasDigit(integer + fraction);
    BtcFieldReads(negative, integer, fraction);
    BtcToSatsMeaning(negative, integer, fraction);
  }

  lemma SatsFieldReads(negative: bool, digits: string)
    requires Canonical(digits) && digits != "0" && ParseNat(digits) <= MAX_SAFE_INTEGER
    ensures NormalizeBtcQuantity(Sign(negative) + digits, Sats) == SatsToBtc(Sign(negative) + digits)
  {
    KeepAll(digits, c => c != '.' && c != ',' && !IsSpace(c));
    StripCanonical(digits);
    SignedBody(negative, digits);
    hide SatsToBtc, StripLeadingZeros, ParseNat, Trim, Keep, IsSpace, Sign, Canonical;
  }

  lemma CommaShown(negative: bool, integer: string, fraction: string)
    requires Canonical(integer) && AllDigits(fraction)
    ensures ReplaceFirst(DecimalText(negative, integer, '.', fraction), '.', ',')
      == DecimalText(negative, integer, ',', fraction)
  {
    hide IndexOf;
    var text := DecimalText(negative, integer, '.', fraction);
    var lead := Sign(negative) + integer;
    assert forall i :: 0 <= i < |lead| ==> text[i] == lead[i] && lead[i] != '.';
    if fraction != "" {
      assert text == lead + ['.'] + fraction;
      assert text[|lead|] == '.';
      assert IndexOf(text, '.') == |lead|;
      assert text[|lead| := ','] == lead + [','] + fraction;
    } else {
      assert text == lead;
      assert IndexOf(text, '.') == |text|;
    }
  }

  lemma BtcFieldReads(negative: bool, integer: string, fraction: string)
    requires Canonical(integer) && AllDigits(fraction) && |fraction| <= SATS_DECIMALS
    requires HasNonZeroDigit(integer + fraction)
    requires var n := ParseNat(integer + fraction) * Pow10(SATS_DECIMALS - |fraction|);
      0 < n <= MAX_SAFE_INTEGER
    ensures NormalizeBtcQuantity(DecimalText(negative, integer, ',', fraction), Btc)
      == Some(DecimalText(negative, integer, '.', fraction))
  {
    hide NormalizePtBrDecimal, HasNonZeroDigit, BtcToSats, ParseNat, Pow10, Trim, DecimalsOf, NatToString;
    var shown := DecimalText(negative, integer, ',', fraction);
    TrimNothing(shown);
    CommaTextReads(negative, integer, fraction);
    BtcToSatsMeaning(negative, integer, fraction);
    var n := ParseNat(integer + fraction) * Pow10(SATS_DECIMALS - |fraction|);
    ParsePrint(n);
    assert SignedInteger(negative, n)[0] != '0';
    DecimalsAfterDot(negative, integer, fraction);
  }

  lemma DecimalsAfterDot(negative: bool, integer: string, fraction: string)
    requires Canonical(integer) && AllDigits(fraction)
    ensures DecimalsOf(DecimalText(negative, integer, '.', fraction)) == |fraction|
  {
    var text := DecimalText(negative, integer, '.', fraction);
    var lead := Sign(negative) + integer;
    assert '.' !in lead && '.' !in fraction;
    if fraction == "" {
      assert text == lead;
      SplitParts(text, '.');
    } else {
      assert text == lead + ['.'] + fraction;
      SplitOnce(lead, '.', fraction);
    }
  }

  // ---- which texts are converted ----

  predicate WritesSats(text: string, negative: bool, digits: string) {
    AllDigits(digits) && digits != "" && text == Sign(negative) + digits
  }

  predicate WritesBtc(text: string, negative: bool, integer: string, fraction: string) {
    AllDigits(integer) && AllDigits(fraction) && integer != "" && text == DecimalText(negative, integer, '.', fraction)
  }

  /** Satoshi text is an optional minus and digits, blanks around it aside. */
  lemma SatsTextIsDigits(text: string)
    ensures SatsToBtc(text).Some? <==> exists negative, digits :: WritesSats(Trim(text), negative, digits)
  {
    var trimmed := Trim(text);
    var minus := trimmed != "" && trimmed[0] == '-';
    var body := if minus then trimmed[1..] else trimmed;
    assert trimmed == Sign(minus) + body;
    if negative, digits :| WritesSats(trimmed, negative, digits) {
      assert IsDigit(digits[0]);
      assert body == digits;
    } else {
      assert !WritesSats(trimmed, minus, body);
    }
    hide Trim, PadStart, StripLeadingZeros, StripTrailingZeros;
  }

  lemma BodyIsDecimal(negative: bool, body: string) returns (integer: string, fraction: string)
    requires SatsOfBody(negative, body).Some?
    ensures AllDigits(integer) && AllDigits(fraction) && integer != ""
    ensures body == DecimalText(false, integer, '.', fraction) && RoundedSats(integer, fraction) <= MAX_SAFE_INTEGER
  {
    var dot := IndexOf(body, '.');
    assert AllDigits("");
    hide RoundedSats, AllDigits, SignedInteger, IndexOf;
    integer, fraction := body[..dot], if dot == |body| then "" else body[dot + 1..];
    if dot < |body| {
      assert body == integer + ['.'] + fraction;
    }
  }

  lemma ReadBtcIsWritten(text: string) returns (negative: bool, integer: string, fraction: string)
    requires BtcToSats(text).Some?
    ensures WritesBtc(Trim(text), negative, integer, fraction) && RoundedSats(integer, fraction) <= MAX_SAFE_INTEGER
  {
    hide RoundedSats, Trim, SatsOfBody, AllDigits;
    var trimmed := Trim(text);
    negative := trimmed != "" && trimmed[0] == '-';
    var body := if negative then trimmed[1..] else trimmed;
    integer, fraction := BodyIsDecimal(negative, body);
    assert trimmed == Sign(negative) + body;
  }

  lemma WrittenBtcIsRead(text: string, negative: bool, integer: string, fraction: string)
    requires WritesBtc(Trim(text), negative, integer, fraction) && RoundedSats(integer, fraction) <= MAX_SAFE_INTEGER
    ensures BtcToSats(text).Some?
  {
    hide RoundedSats, Trim, SatsOfBody;
    var body, trimmed := DecimalText(false, integer, '.', fraction), Trim(text);
    assert IsDigit(integer[0]) && body[0] == integer[0];
    BodySats(negative, integer, fraction);
    assert trimmed == Sign(negative) + body;
    assert trimmed[0] == '-' <==> negative;
  }

  /** BTC text is an optional minus, digits and, after a dot, more digits, within the safe integers as satoshis. */
  lemma BtcTextIsDecimal(text: string)
    ensures BtcToSats(text).Some?
      <==> exists negative, integer, fraction ::
             WritesBtc(Trim(text), negative, integer, fraction) && RoundedSats(integer, fraction) <= MAX_SAFE_INTEGER
  {
    hide BtcToSats, RoundedSats, Trim, DecimalText, AllDigits;
    if BtcToSats(text).Some? {
      var negative, integer, fraction := ReadBtcIsWritten(text);
    }
    if negative, integer, fraction :|
      WritesBtc(Trim(text), negative, integer, fraction) && RoundedSats(integer, fraction) <= MAX_SAFE_INTEGER {
      WrittenBtcIsRead(text, negative, integer, fraction);
    }
  }
}
