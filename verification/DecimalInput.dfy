/** Reading pt-BR decimal text such as "1.500,00" into a canonical dot-decimal string. */
module DecimalInput {
  import opened Wrappers
  import opened Text

  function Split(s: string, c: char): (parts: seq<string>)
    ensures |parts| >= 1
  {
    var k := IndexOf(s, c);
    if k == |s| then [s] else [s[..k]] + Split(s[k + 1..], c)
  }

  function Remove(s: string, c: char): string {
    Keep(s, x => x != c)
  }

  predicate InputChar(c: char) {
    IsDigit(c) || c == '.' || c == ','
  }

  predicate AllInputChars(s: string) {
    forall i :: 0 <= i < |s| ==> InputChar(s[i])
  }

  predicate GroupOfThree(s: string) {
    |s| == 3 && AllDigits(s)
  }

  predicate IsThousandsGrouped(value: string) {
    if value == "" then true
    else if '.' !in value then AllDigits(value)
    else
      var groups := Split(value, '.');
      && 1 <= |groups[0]| <= 3 && AllDigits(groups[0])
      && |groups| > 1
      && forall i :: 1 <= i < |groups| ==> GroupOfThree(groups[i])
  }

  /** A one-dot text that reads as thousands: "1.500" but not "0.500" or "1.50". */
  predicate LooksLikeThousands(intPart: string, fracPart: string) {
    1 <= |intPart| <= 3 && AllDigits(intPart) && intPart[0] != '0' && GroupOfThree(fracPart)
  }

  datatype Pieces = Pieces(integer: string, fraction: string)

  function SplitPieces(body: string): Option<Pieces> {
    var commaParts := Split(body, ',');
    if |commaParts| > 2 then None
    else if |commaParts| == 2 then
      var intPart, fracPart := commaParts[0], commaParts[1];
      if !IsThousandsGrouped(intPart) then None
      else if fracPart != "" && !AllDigits(fracPart) then None
      else Some(Pieces(Remove(intPart, '.'), fracPart))
    else
      var dotParts := Split(body, '.');
      if |dotParts| == 1 then Some(Pieces(body, ""))
      else if |dotParts| == 2 then
        var intPart, fracPart := dotParts[0], dotParts[1];
        if LooksLikeThousands(intPart, fracPart) then Some(Pieces(intPart + fracPart, ""))
        else if fracPart != "" && !AllDigits(fracPart) then None
        else Some(Pieces(intPart, fracPart))
      else if !IsThousandsGrouped(body) then None
      else Some(Pieces(Remove(body, '.'), ""))
  }

  /** Plain decimal text: an optional sign, an integer part and, after a separator, a fraction. */
  function DecimalText(negative: bool, integer: string, separator: char, fraction: string): string {
    (if negative then "-" else "") + (integer + (if fraction == "" then "" else [separator] + fraction))
  }

  predicate HasNonZeroDigit(s: string) {
    exists i :: 0 <= i < |s| && '1' <= s[i] <= '9'
  }

  function NormalizePtBrDecimal(value: string): Option<string> {
    var raw := Keep(value, c => !IsSpace(c));
    var negative := raw != "" && raw[0] == '-';
    var body := if negative then raw[1..] else raw;
    if body == "" || !AllInputChars(body) then None
    else
      match SplitPieces(body)
      case None => None
      case Some(Pieces(integer, fraction)) =>
        if !AllDigits(integer) then None
        else if integer == "" && fraction == "" then None
        else
          var clean := StripLeadingZeros(if integer == "" then "0" else integer);
          var nonZero := HasNonZeroDigit(clean + fraction);
          Some(DecimalText(negative && nonZero, clean, '.', fraction))
  }

  // ---- what the parser yields ----

  lemma {:induction false} SplitParts(s: string, c: char)
    ensures forall i :: 0 <= i < |Split(s, c)| ==> c !in Split(s, c)[i]
    ensures |Split(s, c)| == 1 <==> c !in s
    ensures |Split(s, c)| == 1 ==> Split(s, c)[0] == s
  {
    var k := IndexOf(s, c);
    if k < |s| {
      SplitParts(s[k + 1..], c);
    }
  }

  lemma SplitOnce(a: string, c: char, b: string)
    requires c !in a && c !in b
    ensures Split(a + [c] + b, c) == [a, b]
  {
    var s := a + [c] + b;
    assert s[|a|] == c;
    assert forall i :: 0 <= i < |a| ==> s[i] == a[i] && a[i] in a;
    var k := IndexOf(s, c);
    assert k == |a|;
    assert s[..k] == a && s[k + 1..] == b;
    assert IndexOf(b, c) == |b|;
  }

  lemma {:induction false} SplitKeepsTest(s: string, c: char, test: char -> bool)
    requires forall i :: 0 <= i < |s| ==> test(s[i])
    ensures forall k, i :: 0 <= k < |Split(s, c)| && 0 <= i < |Split(s, c)[k]| ==> test(Split(s, c)[k][i])
  {
    var k := IndexOf(s, c);
    if k < |s| {
      SplitKeepsTest(s[k + 1..], c, test);
    }
  }

  lemma {:induction false} RemoveLeavesDigits(s: string)
    requires forall i :: 0 <= i < |s| ==> IsDigit(s[i]) || s[i] == '.'
    ensures AllDigits(Remove(s, '.'))
  {
    if s != "" {
      RemoveLeavesDigits(s[1..]);
    }
  }

  lemma PiecesAreDigits(body: string)
    requires AllInputChars(body)
    requires SplitPieces(body).Some?
    ensures AllDigits(SplitPieces(body).value.integer) && AllDigits(SplitPieces(body).value.fraction)
  {
    var commaParts := Split(body, ',');
    SplitParts(body, ',');
    SplitKeepsTest(body, ',', InputChar);
    var dotParts := Split(body, '.');
    SplitParts(body, '.');
    SplitKeepsTest(body, '.', InputChar);
    if |commaParts| == 2 {
      assert forall i :: 0 <= i < |commaParts[0]| ==> commaParts[0][i] in commaParts[0];
      RemoveLeavesDigits(commaParts[0]);
    } else {
      assert forall i :: 0 <= i < |body| ==> body[i] in body;
      assert forall k, i :: 0 <= k < |dotParts| && 0 <= i < |dotParts[k]| ==> dotParts[k][i] in dotParts[k];
      if |dotParts| > 2 {
        RemoveLeavesDigits(body);
      } else if |dotParts| == 2 {
        assert forall i :: 0 <= i < |dotParts[0]| ==> dotParts[0][i] in body by {
          SplitKeepsTest(body, '.', c => c in body);
        }
      }
    }
  }

  /** Whatever is accepted comes out canonical: an integer part without leading zeros, digits only
      in the fraction, and a sign only on a non-zero number. */
  lemma NormalizedShape(value: string) returns (negative: bool, integer: string, fraction: string)
    requires NormalizePtBrDecimal(value).Some?
    ensures NormalizePtBrDecimal(value).value == DecimalText(negative, integer, '.', fraction)
    ensures Canonical(integer) && AllDigits(fraction)
    ensures negative ==> HasNonZeroDigit(integer + fraction)
  {
    var raw := Keep(value, c => !IsSpace(c));
    var minus := raw != "" && raw[0] == '-';
    var body := if minus then raw[1..] else raw;
    var pieces := SplitPieces(body).value;
    PiecesAreDigits(body);
    fraction := pieces.fraction;
    integer := StripLeadingZeros(if pieces.integer == "" then "0" else pieces.integer);
    StripLeadingZerosMeaning(if pieces.integer == "" then "0" else pieces.integer);
    negative := minus && HasNonZeroDigit(integer + fraction);
  }

  lemma StripCanonical(s: string)
    requires Canonical(s)
    ensures StripLeadingZeros(s) == s
  {
  }

  lemma DigitsAreNotSpaces(s: string)
    requires forall i :: 0 <= i < |s| ==> InputChar(s[i]) || s[i] == '-'
    ensures Keep(s, c => !IsSpace(c)) == s
  {
    KeepAll(s, c => !IsSpace(c));
  }

  function Sign(negative: bool): string {
    if negative then "-" else ""
  }

  /** How the whole parser treats a signed body, given the pieces of that body. */
  lemma SignedBodyReads(negative: bool, body: string, integer: string, fraction: string)
    requires body != "" && AllInputChars(body)
    requires SplitPieces(body) == Some(Pieces(integer, fraction)) && Canonical(integer)
    ensures NormalizePtBrDecimal(Sign(negative) + body)
      == Some(DecimalText(negative && HasNonZeroDigit(integer + fraction), integer, '.', fraction))
  {
    hide SplitPieces, HasNonZeroDigit;
    var text := Sign(negative) + body;
    DigitsAreNotSpaces(text);
    assert !negative ==> text == body;
    assert InputChar(body[0]);
    assert text[0] == '-' <==> negative;
    assert (if negative then text[1..] else text) == body;
    StripCanonical(integer);
  }

  lemma CommaPieces(integer: string, fraction: string)
    requires Canonical(integer) && AllDigits(fraction) && fraction != ""
    ensures SplitPieces(integer + [','] + fraction) == Some(Pieces(integer, fraction))
  {
    assert ',' !in integer && '.' !in integer && ',' !in fraction;
    SplitOnce(integer, ',', fraction);
    KeepAll(integer, x => x != '.');
  }

  lemma DotPieces(integer: string, fraction: string)
    requires Canonical(integer) && AllDigits(fraction) && fraction != ""
    ensures SplitPieces(integer + ['.'] + fraction)
      == Some(if LooksLikeThousands(integer, fraction) then Pieces(integer + fraction, "")
              else Pieces(integer, fraction))
  {
    var body := integer + ['.'] + fraction;
    assert ',' !in body && '.' !in integer && '.' !in fraction;
    SplitParts(body, ',');
    SplitOnce(integer, '.', fraction);
  }

  lemma PlainPieces(integer: string)
    requires Canonical(integer)
    ensures SplitPieces(integer) == Some(Pieces(integer, ""))
  {
    assert ',' !in integer && '.' !in integer;
    SplitParts(integer, ',');
    SplitParts(integer, '.');
  }

  /** An integer part printed the pt-BR way, with a dot before every group of three digits. */
  function Grouped(integer: string): string {
    var n := |integer|;
    if n <= 3 then integer else Grouped(integer[..n - 3]) + ['.'] + integer[n - 3..]
  }

  lemma SplitAtFirst(s: string, c: char, k: nat)
    requires k < |s| && s[k] == c && forall i :: 0 <= i < k ==> s[i] != c
    ensures Split(s, c) == [s[..k]] + Split(s[k + 1..], c)
  {
    hide IndexOf;
    assert IndexOf(s, c) == k;
  }

  lemma {:induction false} SplitSnoc(a: string, c: char, b: string)
    requires c !in b
    ensures Split(a + [c] + b, c) == Split(a, c) + [b]
  {
    hide IndexOf, Split;
    var s, k := a + [c] + b, IndexOf(a, c);
    assert s[|a|] == c && forall i :: 0 <= i < k ==> s[i] == a[i] != c;
    SplitAtFirst(s, c, k);
    if k < |a| {
      SplitAtFirst(a, c, k);
      assert s[..k] == a[..k] && s[k + 1..] == a[k + 1..] + [c] + b;
      SplitSnoc(a[k + 1..], c, b);
    } else {
      assert s[k + 1..] == b && s[..k] == a;
      SplitParts(b, c);
      SplitParts(a, c);
    }
  }

  lemma {:induction false} RemoveAppends(a: string, b: string)
    ensures Remove(a + ['.'] + b, '.') == Remove(a, '.') + Remove(b, '.')
  {
    if a == "" {
      assert (a + ['.'] + b)[1..] == b;
    } else {
      assert (a + ['.'] + b)[1..] == a[1..] + ['.'] + b;
      RemoveAppends(a[1..], b);
    }
  }

  /** Grouping splits into one leading group and full groups of three. */
  lemma {:induction false} GroupedParts(integer: string)
    requires AllDigits(integer) && integer != ""
    ensures var groups := Split(Grouped(integer), '.');
      && 1 <= |groups[0]| <= 3 && AllDigits(groups[0])
      && (forall i :: 1 <= i < |groups| ==> GroupOfThree(groups[i]))
  {
    hide Split;
    var n := |integer|;
    if n <= 3 {
      assert '.' !in integer;
      SplitParts(integer, '.');
    } else {
      GroupedParts(integer[..n - 3]);
      assert '.' !in integer[n - 3..];
      SplitSnoc(Grouped(integer[..n - 3]), '.', integer[n - 3..]);
    }
  }

  /** Grouping adds dots and nothing else. */
  lemma {:induction false} GroupedDigits(integer: string)
    requires AllDigits(integer) && integer != ""
    ensures Remove(Grouped(integer), '.') == integer
    ensures Grouped(integer) != "" && AllInputChars(Grouped(integer)) && ',' !in Grouped(integer)
  {
    hide Remove;
    var n := |integer|;
    if n <= 3 {
      RemoveNothing(integer);
    } else {
      var front, last := integer[..n - 3], integer[n - 3..];
      GroupedDigits(front);
      RemoveAppends(Grouped(front), last);
      RemoveNothing(last);
      assert front + last == integer;
    }
  }

  lemma RemoveNothing(digits: string)
    requires AllDigits(digits)
    ensures Remove(digits, '.') == digits
  {
    KeepAll(digits, x => x != '.');
  }

  lemma {:induction false} GroupCount(integer: string)
    requires AllDigits(integer)
    ensures |Split(Grouped(integer), '.')| == if |integer| <= 3 then 1 else 1 + (|integer| - 1) / 3
  {
    var n := |integer|;
    hide Split;
    if n <= 3 {
      assert '.' !in integer;
      SplitParts(integer, '.');
    } else {
      GroupCount(integer[..n - 3]);
      assert '.' !in integer[n - 3..];
      SplitSnoc(Grouped(integer[..n - 3]), '.', integer[n - 3..]);
    }
  }

  lemma GroupedIsThousandsGrouped(integer: string)
    requires AllDigits(integer) && integer != ""
    ensures IsThousandsGrouped(Grouped(integer))
  {
    hide Grouped, Split;
    GroupedParts(integer);
    GroupedDigits(integer);
    SplitParts(Grouped(integer), '.');
  }

  lemma GroupedCommaPieces(integer: string, fraction: string)
    requires Canonical(integer) && AllDigits(fraction) && fraction != ""
    ensures SplitPieces(Grouped(integer) + [','] + fraction) == Some(Pieces(integer, fraction))
  {
    hide Grouped, IsThousandsGrouped, Split, Remove;
    GroupedDigits(integer);
    GroupedIsThousandsGrouped(integer);
    assert ',' !in fraction;
    SplitOnce(Grouped(integer), ',', fraction);
  }

  lemma TwoGroups(integer: string)
    requires Canonical(integer) && 4 <= |integer| <= 6
    ensures var n := |integer|;
      Split(Grouped(integer), '.') == [integer[..n - 3], integer[n - 3..]]
      && LooksLikeThousands(integer[..n - 3], integer[n - 3..])
  {
    var n := |integer|;
    SplitOnce(integer[..n - 3], '.', integer[n - 3..]);
  }

  lemma GroupedPlainPieces(integer: string)
    requires Canonical(integer)
    ensures SplitPieces(Grouped(integer)) == Some(Pieces(integer, ""))
  {
    hide Grouped, IsThousandsGrouped, Split, Remove, LooksLikeThousands;
    var n := |integer|;
    GroupedDigits(integer);
    GroupedIsThousandsGrouped(integer);
    SplitParts(Grouped(integer), ',');
    GroupCount(integer);
    if n <= 3 {
      SmallIsPlain(integer);
    } else if n <= 6 {
      TwoGroups(integer);
      assert integer[..n - 3] + integer[n - 3..] == integer;
    }
  }

  lemma SmallIsPlain(integer: string)
    requires |integer| <= 3
    ensures Grouped(integer) == integer
  {
  }

  /** Text with thousands groups, such as "1.500,00" or "1.500", reads as its digits, whatever its size. */
  lemma GroupedTextReads(negative: bool, integer: string, fraction: string)
    requires Canonical(integer) && AllDigits(fraction)
    ensures NormalizePtBrDecimal(DecimalText(negative, Grouped(integer), ',', fraction))
      == Some(DecimalText(negative && HasNonZeroDigit(integer + fraction), integer, '.', fraction))
  {
    hide NormalizePtBrDecimal, HasNonZeroDigit, SplitPieces, Grouped;
    var grouped := Grouped(integer);
    GroupedDigits(integer);
    if fraction == "" {
      GroupedPlainPieces(integer);
      SignedBodyReads(negative, grouped, integer, fraction);
      assert grouped + "" == grouped;
    } else {
      var body := grouped + [','] + fraction;
      GroupedCommaPieces(integer, fraction);
      SignedBodyReads(negative, body, integer, fraction);
      assert grouped + ([','] + fraction) == body;
    }
  }

  /** Comma text is read exactly as written. */
  lemma CommaTextReads(negative: bool, integer: string, fraction: string)
    requires Canonical(integer) && AllDigits(fraction)
    requires negative ==> HasNonZeroDigit(integer + fraction)
    ensures NormalizePtBrDecimal(DecimalText(negative, integer, ',', fraction))
      == Some(DecimalText(negative, integer, '.', fraction))
  {
    hide NormalizePtBrDecimal, HasNonZeroDigit, SplitPieces;
    if fraction == "" {
      PlainPieces(integer);
      SignedBodyReads(negative, integer, integer, fraction);
      assert integer + "" == integer;
    } else {
      var body := integer + [','] + fraction;
      CommaPieces(integer, fraction);
      SignedBodyReads(negative, body, integer, fraction);
      assert integer + ([','] + fraction) == body;
    }
  }

  /** Dot text is read as written unless its fraction looks like a thousands group. */
  lemma DotTextReads(negative: bool, integer: string, fraction: string)
    requires Canonical(integer) && AllDigits(fraction)
    requires negative ==> HasNonZeroDigit(integer + fraction)
    ensures var text := DecimalText(negative, integer, '.', fraction);
      NormalizePtBrDecimal(text) == Some(text) <==> !LooksLikeThousands(integer, fraction)
  {
    hide NormalizePtBrDecimal, HasNonZeroDigit, SplitPieces;
    if fraction == "" {
      PlainPieces(integer);
      SignedBodyReads(negative, integer, integer, fraction);
      assert integer + "" == integer;
    } else {
      var body := integer + ['.'] + fraction;
      assert integer + (['.'] + fraction) == body;
      DotPieces(integer, fraction);
      if LooksLikeThousands(integer, fraction) {
        SignedBodyReads(negative, body, integer + fraction, "");
        assert integer + fraction + "" == integer + fraction;
        assert |DecimalText(negative, integer + fraction, '.', "")| < |DecimalText(negative, integer, '.', fraction)|;
      } else {
        SignedBodyReads(negative, body, integer, fraction);
      }
    }
  }

  /** The canonical text of an accepted value reads as itself exactly when it does not look like thousands. */
  lemma ReadingAgain(value: string) returns (negative: bool, integer: string, fraction: string)
    requires NormalizePtBrDecimal(value).Some?
    ensures var result := NormalizePtBrDecimal(value).value;
      && result == DecimalText(negative, integer, '.', fraction) && Canonical(integer) && AllDigits(fraction)
      && (NormalizePtBrDecimal(result) == Some(result) <==> !LooksLikeThousands(integer, fraction))
  {
    hide NormalizePtBrDecimal, HasNonZeroDigit, LooksLikeThousands;
    negative, integer, fraction := NormalizedShape(value);
    DotTextReads(negative, integer, fraction);
  }

  /** Reading is not idempotent: "1,500" becomes "1.500", which reads as fifteen hundred. */
  lemma ReadingTwiceCanChangeTheNumber()
    ensures NormalizePtBrDecimal("1,500") == Some("1.500")
    ensures NormalizePtBrDecimal("1.500") != Some("1.500")
  {
    assert DecimalText(false, "1", ',', "500") == "1,500";
    assert DecimalText(false, "1", '.', "500") == "1.500";
    CommaTextReads(false, "1", "500");
    DotTextReads(false, "1", "500");
  }

  // ---- which texts are read ----

  function Dotted(groups: seq<string>): string
    requires groups != []
  {
    if |groups| == 1 then groups[0] else groups[0] + ['.'] + Dotted(groups[1..])
  }

  function Together(groups: seq<string>): string {
    if groups == [] then "" else groups[0] + Together(groups[1..])
  }

  /** One to three digits, then at least one full group of three. */
  predicate Grouping(groups: seq<string>) {
    && |groups| >= 2 && 1 <= |groups[0]| <= 3 && AllDigits(groups[0])
    && forall i :: 1 <= i < |groups| ==> |groups[i]| == 3 && AllDigits(groups[i])
  }

  /** A body whose groups are thousands: before a comma always, alone unless it is a fraction after a zero. */
  predicate WritesGroups(body: string, groups: seq<string>, fraction: string) {
    && Grouping(groups)
    && (|| body == Dotted(groups) + [','] + fraction
        || (fraction == "" && body == Dotted(groups) && (|groups| > 2 || groups[0][0] != '0')))
  }

  /** The grammar of a body: an integer, a comma or dot number, or one in groups of thousands. */
  ghost predicate Writes(body: string, integer: string, fraction: string) {
    && AllDigits(integer) && AllDigits(fraction) && (integer != "" || fraction != "")
    && (|| (fraction == "" && body == integer)
        || body == integer + [','] + fraction
        || (body == integer + ['.'] + fraction && !(1 <= |integer| <= 3 && integer[0] != '0' && |fraction| == 3))
        || exists groups :: WritesGroups(body, groups, fraction) && integer == Together(groups))
  }

  lemma {:induction false} SplitOfDotted(groups: seq<string>)
    requires groups != [] && forall i :: 0 <= i < |groups| ==> AllDigits(groups[i])
    ensures Split(Dotted(groups), '.') == groups && Remove(Dotted(groups), '.') == Together(groups)
    ensures AllInputChars(Dotted(groups)) && ',' !in Dotted(groups) && AllDigits(Together(groups))
  {
    hide Split, Remove;
    var first, rest := groups[0], groups[1..];
    assert '.' !in first;
    RemoveNothing(first);
    SplitParts(first, '.');
    if rest == [] {
      assert Together(groups) == first + "";
    } else {
      SplitOfDotted(rest);
      var whole := Dotted(groups);
      assert whole[..|first|] == first && whole[|first| + 1..] == Dotted(rest);
      SplitAtFirst(whole, '.', |first|);
      RemoveAppends(first, Dotted(rest));
    }
  }

  lemma {:induction false} DottedOfSplit(s: string)
    ensures Dotted(Split(s, '.')) == s
  {
    var k := IndexOf(s, '.');
    if k < |s| {
      DottedOfSplit(s[k + 1..]);
      var rest := Split(s[k + 1..], '.');
      assert ([s[..k]] + rest)[1..] == rest;
    }
  }

  lemma GroupingIsThousands(groups: seq<string>)
    requires groups != [] && forall i :: 0 <= i < |groups| ==> AllDigits(groups[i])
    requires |groups| >= 2
    ensures IsThousandsGrouped(Dotted(groups)) <==> Grouping(groups)
  {
    hide Split, Dotted;
    SplitOfDotted(groups);
    SplitParts(Dotted(groups), '.');
  }

  /** What is written by the grammar is taken apart as it says. */
  lemma WrittenIsTakenApart(body: string, integer: string, fraction: string)
    requires Writes(body, integer, fraction)
    ensures SplitPieces(body) == Some(Pieces(integer, fraction)) && AllInputChars(body) && body != ""
  {
    hide Split, Dotted, Together, Remove, IsThousandsGrouped;
    assert ',' !in integer && '.' !in integer && ',' !in fraction && '.' !in fraction;
    if fraction == "" && body == integer {
      SplitParts(body, ',');
      SplitParts(body, '.');
    } else if body == integer + [','] + fraction {
      SplitOnce(integer, ',', fraction);
      RemoveNothing(integer);
      DigitsAreThousandsGrouped(integer);
    } else if body == integer + ['.'] + fraction && !(1 <= |integer| <= 3 && integer[0] != '0' && |fraction| == 3) {
      SplitParts(body, ',');
      SplitOnce(integer, '.', fraction);
    } else {
      var groups :| WritesGroups(body, groups, fraction) && integer == Together(groups);
      SplitOfDotted(groups);
      GroupingIsThousands(groups);
      GroupsAreTakenApart(body, groups, fraction);
    }
  }

  lemma DigitsAreThousandsGrouped(integer: string)
    requires AllDigits(integer)
    ensures IsThousandsGrouped(integer)
  {
    assert '.' !in integer;
  }

  lemma GroupsAreTakenApart(body: string, groups: seq<string>, fraction: string)
    requires WritesGroups(body, groups, fraction) && AllDigits(fraction)
    requires Split(Dotted(groups), '.') == groups && Remove(Dotted(groups), '.') == Together(groups)
    requires ',' !in Dotted(groups) && AllInputChars(Dotted(groups)) && IsThousandsGrouped(Dotted(groups))
    ensures SplitPieces(body) == Some(Pieces(Together(groups), fraction)) && AllInputChars(body) && body != ""
  {
    hide Split, Dotted, Remove, IsThousandsGrouped;
    SplitParts(Dotted(groups), ',');
    if body == Dotted(groups) + [','] + fraction {
      assert ',' !in fraction;
      SplitOnce(Dotted(groups), ',', fraction);
    } else {
      SplitParts("", '.');
      assert body != "";
      if |groups| == 2 {
        TogetherOfTwo(groups);
      }
    }
  }

  lemma TogetherOfTwo(groups: seq<string>)
    requires |groups| == 2
    ensures Together(groups) == groups[0] + groups[1]
  {
    assert groups[1..][1..] == [];
    assert groups[1] + "" == groups[1];
    assert Together(groups[1..]) == groups[1];
  }

  /** And what is taken apart was written by the grammar. */
  lemma TakenApartIsWritten(body: string)
    requires AllInputChars(body) && SplitPieces(body).Some?
    requires SplitPieces(body).value != Pieces("", "")
    ensures Writes(body, SplitPieces(body).value.integer, SplitPieces(body).value.fraction)
  {
    hide Dotted, Together, Remove, IsThousandsGrouped;
    PiecesAreDigits(body);
    var commaParts := Split(body, ',');
    SplitParts(body, ',');
    if |commaParts| == 2 {
      hide Split;
      TwoPartsJoin(body, ',');
      var front := commaParts[0];
      GroupsOf(front);
    } else {
      var dotParts := Split(body, '.');
      SplitParts(body, '.');
      hide Split;
      GroupsOf(body);
      if |dotParts| == 2 {
        TwoPartsJoin(body, '.');
        if LooksLikeThousands(dotParts[0], dotParts[1]) {
          TogetherOfTwo(dotParts);
          assert WritesGroups(body, dotParts, "");
        }
      }
    }
  }

  /** Thousands groups split into their grouping; a front without dots is all digits. */
  lemma GroupsOf(front: string)
    ensures var groups := Split(front, '.');
      && Dotted(groups) == front
      && (IsThousandsGrouped(front) && '.' in front ==> Grouping(groups) && Together(groups) == Remove(front, '.'))
      && ('.' !in front ==> Remove(front, '.') == front)
  {
    DottedOfSplit(front);
    SplitParts(front, '.');
    hide Dotted, Together, Split;
    if IsThousandsGrouped(front) && '.' in front {
      SplitOfDotted(Split(front, '.'));
    }
    if '.' !in front {
      assert forall i :: 0 <= i < |front| ==> front[i] in front;
      KeepAll(front, x => x != '.');
    }
  }

  lemma TwoPartsJoin(s: string, c: char)
    requires |Split(s, c)| == 2
    ensures s == Split(s, c)[0] + [c] + Split(s, c)[1]
  {
    var k := IndexOf(s, c);
    SplitParts(s[k + 1..], c);
    assert s == s[..k] + [s[k]] + s[k + 1..];
  }

  /** A text that is read is, spaces aside, an optional sign and a body of the grammar. */
  lemma ReadTextIsWritten(value: string) returns (negative: bool, body: string, integer: string, fraction: string)
    requires NormalizePtBrDecimal(value).Some?
    ensures Keep(value, c => !IsSpace(c)) == Sign(negative) + body && Writes(body, integer, fraction)
  {
    hide SplitPieces;
    var raw := Keep(value, c => !IsSpace(c));
    negative := raw != "" && raw[0] == '-';
    body := if negative then raw[1..] else raw;
    integer, fraction := SplitPieces(body).value.integer, SplitPieces(body).value.fraction;
    TakenApartIsWritten(body);
    assert negative ==> raw == ['-'] + raw[1..];
  }

  /** Every such text is read, as the number its body writes. */
  lemma WrittenTextIsRead(value: string, negative: bool, body: string, integer: string, fraction: string)
    requires Keep(value, c => !IsSpace(c)) == Sign(negative) + body && Writes(body, integer, fraction)
    ensures var clean := StripLeadingZeros(if integer == "" then "0" else integer);
      NormalizePtBrDecimal(value)
      == Some(DecimalText(negative && HasNonZeroDigit(clean + fraction), clean, '.', fraction))
  {
    hide SplitPieces, HasNonZeroDigit;
    WrittenIsTakenApart(body, integer, fraction);
    hide Writes;
    var raw := Sign(negative) + body;
    assert InputChar(body[0]);
    assert raw[0] == '-' <==> negative;
    assert (if negative then raw[1..] else raw) == body;
  }
}
