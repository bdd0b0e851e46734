/** Cent-exact money: amounts are integer cents, and rounding is half away from zero. */
module Money {

  function RoundHalfUp(x: real): int {
    if x >= 0.0 then (x + 0.5).Floor else -((0.5 - x).Floor)
  }

  /** Cents of an amount given in reais. */
  function ToMoney(value: real): int {
    RoundHalfUp(value * 100.0)
  }

  function Abs(x: real): real {
    if x < 0.0 then -x else x
  }

  /** The nearest integer; a tie goes to the one further from zero. */
  lemma RoundHalfUpIsNearest(x: real, n: int)
    ensures Abs(RoundHalfUp(x) as real - x) <= 0.5
    ensures Abs(RoundHalfUp(x) as real - x) == 0.5 ==> Abs(RoundHalfUp(x) as real) > Abs(x)
    ensures Abs(n as real - x) < 0.5 ==> n == RoundHalfUp(x)
  {
    var r := RoundHalfUp(x);
    if Abs(n as real - x) < 0.5 {
      assert -1.0 < (n - r) as real < 1.0;
    }
  }

  /** Rounding keeps integer bounds. */
  lemma RoundHalfUpBetween(x: real, lo: int, hi: int)
    requires lo as real <= x <= hi as real
    ensures lo <= RoundHalfUp(x) <= hi
  {
    var r := RoundHalfUp(x);
    assert (r - lo) as real > -1.0 && (hi - r) as real > -1.0;
  }

  function Sum(parts: seq<int>): int {
    if parts == [] then 0 else Sum(parts[..|parts| - 1]) + parts[|parts| - 1]
  }

  function SumReal(values: seq<real>): real {
    if values == [] then 0.0 else SumReal(values[..|values| - 1]) + values[|values| - 1]
  }

  method SumMoney(values: seq<real>) returns (total: int)
    ensures total == ToMoney(SumReal(values))
  {
    var exact := 0.0;
    for i := 0 to |values|
      invariant exact == SumReal(values[..i])
    {
      assert values[..i + 1][..i] == values[..i];
      exact := exact + values[i];
    }
    assert values[..|values|] == values;
    total := ToMoney(exact);
  }

  /** The exact, unrounded share of a percentage, in cents. */
  function ExactShare(total: int, percent: real): real {
    total as real * percent / 100.0
  }

  function RoundedShares(total: int, percents: seq<real>): (parts: seq<int>)
    ensures |parts| == |percents|
  {
    if percents == [] then []
    else
      RoundedShares(total, percents[..|percents| - 1])
      + [RoundHalfUp(ExactShare(total, percents[|percents| - 1]))]
  }

  /** Every part but the last is rounded; the last one takes what remains. */
  function AllocatedParts(total: int, percents: seq<real>): (parts: seq<int>)
    ensures |parts| == |percents|
  {
    if percents == [] then []
    else
      var rounded := RoundedShares(total, percents[..|percents| - 1]);
      rounded + [total - Sum(rounded)]
  }

  method AllocateByPercent(total: real, percents: seq<real>) returns (parts: seq<int>)
    ensures parts == AllocatedParts(ToMoney(total), percents)
  {
    if |percents| == 0 {
      return [];
    }
    var exactTotal := ToMoney(total);
    parts := [];
    var taken := 0;
    for i := 0 to |percents| - 1
      invariant parts == RoundedShares(exactTotal, percents[..i])
      invariant taken == Sum(parts)
    {
      var part := RoundHalfUp(ExactShare(exactTotal, percents[i]));
      assert percents[..i + 1][..i] == percents[..i];
      assert (parts + [part])[..|parts|] == parts;
      parts := parts + [part];
      taken := taken + part;
    }
    parts := parts + [exactTotal - taken];
  }

  /** The parts add up to the total to the cent, for any percentages. */
  lemma PartsSumToTotal(total: int, percents: seq<real>)
    requires percents != []
    ensures Sum(AllocatedParts(total, percents)) == total
  {
    var parts := AllocatedParts(total, percents);
    assert parts[..|parts| - 1] == RoundedShares(total, percents[..|percents| - 1]);
  }

  lemma {:induction false} RoundedShareAt(total: int, percents: seq<real>, i: nat)
    requires i < |percents|
    ensures RoundedShares(total, percents)[i] == RoundHalfUp(ExactShare(total, percents[i]))
  {
    if i < |percents| - 1 {
      RoundedShareAt(total, percents[..|percents| - 1], i);
    }
  }

  /** Every part but the last is within half a cent of its exact share. */
  lemma NonLastPartIsNear(total: int, percents: seq<real>, i: nat)
    requires i < |percents| - 1
    ensures Abs(AllocatedParts(total, percents)[i] as real - ExactShare(total, percents[i])) <= 0.5
  {
    RoundedShareAt(total, percents[..|percents| - 1], i);
    RoundHalfUpIsNearest(ExactShare(total, percents[i]), 0);
  }

  lemma {:induction false} RoundedSumIsNear(total: int, percents: seq<real>)
    ensures Abs(Sum(RoundedShares(total, percents)) as real - ExactShare(total, SumReal(percents)))
      <= |percents| as real / 2.0
  {
    if percents != [] {
      var front, last := percents[..|percents| - 1], percents[|percents| - 1];
      RoundedSumIsNear(total, front);
      RoundHalfUpIsNearest(ExactShare(total, last), 0);
      var shares := RoundedShares(total, percents);
      assert shares[..|shares| - 1] == RoundedShares(total, front);
      ShareIsLinear(total, SumReal(front), last);
    }
  }

  lemma ShareIsLinear(total: int, p: real, q: real)
    ensures ExactShare(total, p + q) == ExactShare(total, p) + ExactShare(total, q)
  {
  }

  /** When the percentages add up to 100, the last of n parts is within (n - 1) / 2 cents. */
  lemma LastPartIsNear(total: int, percents: seq<real>)
    requires percents != [] && SumReal(percents) == 100.0
    ensures var n := |percents|;
      Abs(AllocatedParts(total, percents)[n - 1] as real - ExactShare(total, percents[n - 1]))
        <= (n - 1) as real / 2.0
  {
    hide ExactShare, RoundedShares, AllocatedParts, Sum, SumReal, Abs;
    var front, last := percents[..|percents| - 1], percents[|percents| - 1];
    LastTakesTheRest(total, percents);
    RoundedSumIsNear(total, front);
    RemainderIsNear(total, Sum(RoundedShares(total, front)),
      ExactShare(total, SumReal(front)), ExactShare(total, last), |front| as real / 2.0);
  }

  /** So the last of n parts is not negative once its exact share exceeds (n - 3) / 2 cents. */
  lemma LastPartNotNegative(total: int, percents: seq<real>)
    requires percents != [] && SumReal(percents) == 100.0
    requires ExactShare(total, percents[|percents| - 1]) > (|percents| as real - 3.0) / 2.0
    ensures AllocatedParts(total, percents)[|percents| - 1] >= 0
  {
    hide ExactShare, AllocatedParts, SumReal;
    LastPartIsNear(total, percents);
    var n := |percents|;
    assert AllocatedParts(total, percents)[n - 1] as real > -1.0;
  }

  lemma LastTakesTheRest(total: int, percents: seq<real>)
    requires percents != [] && SumReal(percents) == 100.0
    ensures var front, last := percents[..|percents| - 1], percents[|percents| - 1];
      && AllocatedParts(total, percents)[|front|] == total - Sum(RoundedShares(total, front))
      && total as real == ExactShare(total, SumReal(front)) + ExactShare(total, last)
  {
    var front, last := percents[..|percents| - 1], percents[|percents| - 1];
    ShareIsLinear(total, SumReal(front), last);
    assert ExactShare(total, 100.0) == total as real;
  }

  lemma RemainderIsNear(total: int, taken: int, exactGiven: real, exactRest: real, distance: real)
    requires total as real == exactGiven + exactRest
    requires Abs(taken as real - exactGiven) <= distance
    ensures Abs((total - taken) as real - exactRest) <= distance
  {
  }
}
