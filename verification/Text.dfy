/** Decimal text: digits, padding, trimming and the order of strings. */
module Text {

  predicate IsDigit(c: char) {
    '0' <= c <= '9'
  }

  predicate AllDigits(s: string) {
    forall i :: 0 <= i < |s| ==> IsDigit(s[i])
  }

  function Digit(d: nat): (c: char)
    requires d < 10
    ensures IsDigit(c) && DigitValue(c) == d
  {
    ('0' as int + d) as char
  }

  function DigitValue(c: char): nat
    requires IsDigit(c)
  {
    c as int - '0' as int
  }

  function Pow10(n: nat): (p: nat)
    ensures p > 0
  {
    if n == 0 then 1 else 10 * Pow10(n - 1)
  }

  /** The number a digit string denotes; the empty string denotes zero. */
  function ParseNat(s: string): nat
    requires AllDigits(s)
  {
    if s == [] then 0 else 10 * ParseNat(s[..|s| - 1]) + DigitValue(s[|s| - 1])
  }

  /** The canonical digits of a number, without leading zeros. */
  function NatToString(n: nat): string {
    if n < 10 then [Digit(n)] else NatToString(n / 10) + [Digit(n % 10)]
  }

  predicate Canonical(s: string) {
    AllDigits(s) && |s| > 0 && (|s| > 1 ==> s[0] != '0')
  }

  lemma {:induction false} ParsePrint(n: nat)
    ensures Canonical(NatToString(n))
    ensures ParseNat(NatToString(n)) == n
    ensures n > 0 ==> NatToString(n)[0] != '0'
  {
    if n < 10 {
      var s := NatToString(n);
      assert s[..|s| - 1] == [];
    } else {
      ParsePrint(n / 10);
      var s := NatToString(n);
      assert s[..|s| - 1] == NatToString(n / 10);
    }
  }

  lemma {:induction false} ParseBounds(s: string)
    requires AllDigits(s)
    ensures ParseNat(s) < Pow10(|s|)
  {
    if s != [] {
      ParseBounds(s[..|s| - 1]);
    }
  }

  lemma {:induction false} PrintParse(s: string)
    requires Canonical(s)
    ensures NatToString(ParseNat(s)) == s
    ensures s != "0" ==> ParseNat(s) > 0
  {
    var front, last := s[..|s| - 1], s[|s| - 1];
    if |s| == 1 {
      assert front == [];
      assert Digit(DigitValue(last)) == last;
    } else {
      assert front[0] == s[0];
      PrintParse(front);
      assert ParseNat(s) / 10 == ParseNat(front);
      assert s == front + [last];
    }
  }

  lemma Shift(n: nat, p: nat)
    ensures 10 * (n * p) == n * (10 * p)
  {
  }

  lemma {:induction false} ParseConcat(a: string, b: string)
    requires AllDigits(a) && AllDigits(b)
    ensures AllDigits(a + b)
    ensures ParseNat(a + b) == ParseNat(a) * Pow10(|b|) + ParseNat(b)
  {
    if b == [] {
      assert a + b == a;
    } else {
      var front := b[..|b| - 1];
      ParseConcat(a, front);
      assert (a + b)[..|a + b| - 1] == a + front;
      assert ParseNat(a + b) == 10 * ParseNat(a + front) + DigitValue(b[|b| - 1]);
      Shift(ParseNat(a), Pow10(|front|));
    }
  }

  function Repeat(c: char, n: nat): (s: string)
    ensures |s| == n && forall i :: 0 <= i < n ==> s[i] == c
  {
    seq(n, _ => c)
  }

  function PadStart(s: string, width: nat): string {
    if |s| >= width then s else Repeat('0', width - |s|) + s
  }

  function PadEnd(s: string, width: nat): string {
    if |s| >= width then s else s + Repeat('0', width - |s|)
  }

  lemma {:induction false} ParseZeros(n: nat)
    ensures ParseNat(Repeat('0', n)) == 0
  {
    if n > 0 {
      ParseZeros(n - 1);
      assert Repeat('0', n)[..n - 1] == Repeat('0', n - 1);
    }
  }

  lemma ParsePadStart(s: string, width: nat)
    requires AllDigits(s)
    ensures AllDigits(PadStart(s, width)) && ParseNat(PadStart(s, width)) == ParseNat(s)
  {
    if |s| < width {
      ParseZeros(width - |s|);
      ParseConcat(Repeat('0', width - |s|), s);
    }
  }

  lemma ParsePadEnd(s: string, width: nat)
    requires AllDigits(s) && |s| <= width
    ensures AllDigits(PadEnd(s, width)) && |PadEnd(s, width)| == width
    ensures ParseNat(PadEnd(s, width)) == ParseNat(s) * Pow10(width - |s|)
  {
    if |s| < width {
      ParseZeros(width - |s|);
      ParseConcat(s, Repeat('0', width - |s|));
    }
  }

  /** Two digit strings of the same length that denote the same number are equal. */
  lemma {:induction false} ParseInjective(a: string, b: string)
    requires AllDigits(a) && AllDigits(b) && |a| == |b|
    requires ParseNat(a) == ParseNat(b)
    ensures a == b
  {
    if a != [] {
      ParseInjective(a[..|a| - 1], b[..|b| - 1]);
      assert a == a[..|a| - 1] + [a[|a| - 1]];
      assert b == b[..|b| - 1] + [b[|b| - 1]];
    }
  }

  /** Drops leading zeros while another digit follows. */
  function StripLeadingZeros(s: string): string {
    if |s| > 1 && s[0] == '0' && IsDigit(s[1]) then StripLeadingZeros(s[1..]) else s
  }

  lemma {:induction false} StripLeadingZerosMeaning(s: string)
    requires AllDigits(s) && s != []
    ensures Canonical(StripLeadingZeros(s))
    ensures ParseNat(StripLeadingZeros(s)) == ParseNat(s)
  {
    if |s| > 1 && s[0] == '0' {
      StripLeadingZerosMeaning(s[1..]);
      ParseConcat(s[..1], s[1..]);
      assert s == s[..1] + s[1..];
      assert s[..1] == Repeat('0', 1);
      ParseZeros(1);
    }
  }

  function StripTrailingZeros(s: string): string {
    if s != [] && s[|s| - 1] == '0' then StripTrailingZeros(s[..|s| - 1]) else s
  }

  lemma {:induction false} StripTrailingZerosMeaning(s: string)
    requires AllDigits(s)
    ensures var r := StripTrailingZeros(s);
      AllDigits(r) && |r| <= |s| && s == r + Repeat('0', |s| - |r|)
      && (r != [] ==> r[|r| - 1] != '0')
  {
    if s != [] && s[|s| - 1] == '0' {
      StripTrailingZerosMeaning(s[..|s| - 1]);
      var r := StripTrailingZeros(s);
      assert s == s[..|s| - 1] + ['0'];
    } else {
      assert s == s + Repeat('0', 0);
    }
  }

  /** White space and line terminators of section 22.2.2 (the \s class) of ECMA-262. */
  predicate IsSpace(c: char) {
    c in {'\t', '\n', '\U{000B}', '\U{000C}', '\r', ' ', '\U{00A0}', '\U{1680}', '\U{2028}',
          '\U{2029}', '\U{202F}', '\U{205F}', '\U{3000}', '\U{FEFF}'}
    || '\U{2000}' <= c <= '\U{200A}'
  }

  function TrimStart(s: string): string {
    if s != [] && IsSpace(s[0]) then TrimStart(s[1..]) else s
  }

  function TrimEnd(s: string): string {
    if s != [] && IsSpace(s[|s| - 1]) then TrimEnd(s[..|s| - 1]) else s
  }

  function Trim(s: string): string {
    TrimEnd(TrimStart(s))
  }

  predicate NoSpaces(s: string) {
    forall i :: 0 <= i < |s| ==> !IsSpace(s[i])
  }

  /** Keeps the characters that pass a test, in order. */
  function Keep(s: string, keep: char -> bool): string {
    if s == [] then [] else (if keep(s[0]) then [s[0]] else []) + Keep(s[1..], keep)
  }

  lemma {:induction false} KeepAll(s: string, keep: char -> bool)
    requires forall i :: 0 <= i < |s| ==> keep(s[i])
    ensures Keep(s, keep) == s
  {
    if s != [] {
      KeepAll(s[1..], keep);
    }
  }

  /** Position of the first occurrence of c, or the length of s. */
  function IndexOf(s: string, c: char): (k: nat)
    ensures k <= |s|
    ensures k < |s| ==> s[k] == c
    ensures forall i :: 0 <= i < k ==> s[i] != c
  {
    if s == [] || s[0] == c then 0 else 1 + IndexOf(s[1..], c)
  }

  /** String order by character code, as the relational operators of ECMA-262 compare strings. */
  predicate LexLess(a: string, b: string) {
    b != [] && (a == [] || a[0] < b[0] || (a[0] == b[0] && LexLess(a[1..], b[1..])))
  }

  lemma {:induction false} LexIrreflexive(a: string)
    ensures !LexLess(a, a)
  {
    if a != [] {
      LexIrreflexive(a[1..]);
    }
  }

  lemma {:induction false} LexConcat(a: string, b: string, c: string, d: string)
    requires |a| == |b|
    ensures LexLess(a + c, b + d) <==> LexLess(a, b) || (a == b && LexLess(c, d))
  {
    if a == [] {
      assert a + c == c && b + d == d;
    } else {
      assert (a + c)[1..] == a[1..] + c && (b + d)[1..] == b[1..] + d;
      LexConcat(a[1..], b[1..], c, d);
      if a[0] == b[0] {
        assert a == b <==> a[1..] == b[1..] by {
          assert a == [a[0]] + a[1..] && b == [b[0]] + b[1..];
        }
      }
    }
  }

  /** On digit strings of one length, string order is numeric order. */
  lemma {:induction false} LexIsNumeric(a: string, b: string)
    requires AllDigits(a) && AllDigits(b) && |a| == |b|
    ensures LexLess(a, b) <==> ParseNat(a) < ParseNat(b)
  {
    if a != [] {
      var x, y := a[..|a| - 1], b[..|b| - 1];
      var c, d := a[|a| - 1], b[|b| - 1];
      assert a == x + [c] && b == y + [d];
      LexConcat(x, y, [c], [d]);
      LexIsNumeric(x, y);
      if ParseNat(x) == ParseNat(y) {
        ParseInjective(x, y);
      }
      assert LexLess([c], [d]) <==> c < d by {
        assert [c][1..] == [] && [d][1..] == [];
      }
    }
  }
}
