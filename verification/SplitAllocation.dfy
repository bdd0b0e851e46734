/** Splitting an expense between cards and PIX. */
module SplitAllocation {
  import opened Wrappers
  import opened Money

  datatype Kind = Card | Pix

  datatype SplitInput = SplitInput(kind: Kind, cardId: Option<string>, percent: real)

  /** Percent in hundredths of a percent point, amount in cents, both as stored. */
  datatype ResolvedSplit = ResolvedSplit(kind: Kind, cardId: Option<string>, percent: int, amount: int)

  datatype SplitError =
    | TooManyParts
    | PercentSum
    | TwoPix
    | LonePix
    | PixNeedsOneCard
    | LoneCardNotWhole
    | SameCardTwice
    | BadPercent

  function Percents(inputs: seq<SplitInput>): (percents: seq<real>)
    ensures |percents| == |inputs|
    ensures forall i :: 0 <= i < |inputs| ==> percents[i] == inputs[i].percent
  {
    seq(|inputs|, i requires 0 <= i < |inputs| => inputs[i].percent)
  }

  function CountKind(inputs: seq<SplitInput>, kind: Kind): (n: nat)
    ensures n <= |inputs|
  {
    if inputs == [] then 0
    else (if inputs[0].kind == kind then 1 else 0) + CountKind(inputs[1..], kind)
  }

  /** The shape check; None means accepted. */
  function ValidateSplitShape(inputs: seq<SplitInput>): Option<SplitError> {
    if inputs == [] then None
    else if |inputs| > 2 then Some(TooManyParts)
    else if Abs(SumReal(Percents(inputs)) - 100.0) > 0.01 then Some(PercentSum)
    else
      var pixCount := CountKind(inputs, Pix);
      var cardCount := CountKind(inputs, Card);
      if pixCount > 1 then Some(TwoPix)
      else if pixCount == 1 && |inputs| == 1 then Some(LonePix)
      else if pixCount == 1 && cardCount != 1 then Some(PixNeedsOneCard)
      else if pixCount == 0 && cardCount == 1 && |inputs| == 1 then
        if Abs(inputs[0].percent - 100.0) > 0.01 then Some(LoneCardNotWhole) else None
      else if pixCount == 0 && cardCount == 2 && inputs[0].cardId == inputs[1].cardId then
        Some(SameCardTwice)
      else None
  }

  /** What normalization has already guaranteed about each percentage. */
  predicate PercentsInRange(inputs: seq<SplitInput>) {
    forall i :: 0 <= i < |inputs| ==> 0.0 < inputs[i].percent <= 100.0
  }

  function AllocateSplitAmounts(total: int, inputs: seq<SplitInput>): (splits: seq<ResolvedSplit>)
    ensures |splits| == |inputs|
    ensures forall i :: 0 <= i < |inputs| ==>
      splits[i].kind == inputs[i].kind && splits[i].cardId == inputs[i].cardId
      && splits[i].amount == AllocatedParts(total, Percents(inputs))[i]
  {
    var amounts := AllocatedParts(total, Percents(inputs));
    seq(|inputs|, i requires 0 <= i < |inputs| =>
      ResolvedSplit(inputs[i].kind, inputs[i].cardId, ToMoney(inputs[i].percent), amounts[i]))
  }

  function Amounts(splits: seq<ResolvedSplit>): (amounts: seq<int>)
    ensures |amounts| == |splits|
    ensures forall i :: 0 <= i < |splits| ==> amounts[i] == splits[i].amount
  {
    seq(|splits|, i requires 0 <= i < |splits| => splits[i].amount)
  }

  /** The card column of an expense: set only when one card takes everything. */
  function DenormalizedCardId(splits: seq<ResolvedSplit>): Option<string> {
    if |splits| == 1 && splits[0].kind == Card then splits[0].cardId else None
  }

  /** An accepted split has one or two parts; with PIX in it, it is PIX and one card. */
  lemma AcceptedShape(inputs: seq<SplitInput>)
    requires ValidateSplitShape(inputs) == None && inputs != []
    ensures |inputs| == 1 ==> inputs[0].kind == Card
    ensures |inputs| == 1 || |inputs| == 2
    ensures |inputs| == 2 ==> inputs[0].kind == Card || inputs[1].kind == Card
    ensures |inputs| == 2 && inputs[0].kind == Card && inputs[1].kind == Card
      ==> inputs[0].cardId != inputs[1].cardId
  {
    if |inputs| == 2 {
      assert inputs[1..] == [inputs[1]] && inputs[1..][1..] == [];
      assert CountKind(inputs[1..], Pix) == if inputs[1].kind == Pix then 1 else 0;
      assert CountKind(inputs[1..], Card) == if inputs[1].kind == Card then 1 else 0;
    }
  }

  /** In an accepted split every part lies between nothing and the whole, and nothing is lost. */
  lemma AcceptedPartsFit(total: nat, inputs: seq<SplitInput>)
    requires inputs != [] && PercentsInRange(inputs) && ValidateSplitShape(inputs) == None
    ensures var splits := AllocateSplitAmounts(total, inputs);
      && Sum(Amounts(splits)) == total
      && forall i :: 0 <= i < |splits| ==> 0 <= splits[i].amount <= total
  {
    AcceptedShape(inputs);
    PartsFit(total, inputs);
  }

  lemma PartsFit(total: nat, inputs: seq<SplitInput>)
    requires |inputs| == 1 || (|inputs| == 2 && PercentsInRange(inputs))
    ensures var splits := AllocateSplitAmounts(total, inputs);
      && Sum(Amounts(splits)) == total
      && forall i :: 0 <= i < |splits| ==> 0 <= splits[i].amount <= total
  {
    hide AllocatedParts, Sum;
    var percents := Percents(inputs);
    var parts := AllocatedParts(total, percents);
    PartsSumToTotal(total, percents);
    assert Amounts(AllocateSplitAmounts(total, inputs)) == parts;
    if |inputs| == 1 {
      LonePart(parts);
    } else {
      TwoPartsFit(total, percents);
    }
  }

  lemma LonePart(parts: seq<int>)
    requires |parts| == 1
    ensures Sum(parts) == parts[0]
  {
    assert parts[..0] == [];
  }

  lemma TwoPartsFit(total: nat, percents: seq<real>)
    requires |percents| == 2 && 0.0 < percents[0] <= 100.0
    ensures var parts := AllocatedParts(total, percents);
      0 <= parts[0] <= total && parts[1] == total - parts[0]
  {
    ShareWithinTotal(total, percents[0]);
    RoundHalfUpBetween(ExactShare(total, percents[0]), 0, total);
    RoundedShareAt(total, percents[..1], 0);
    LonePart(RoundedShares(total, percents[..1]));
  }

  lemma ShareWithinTotal(total: nat, percent: real)
    requires 0.0 < percent <= 100.0
    ensures 0.0 <= ExactShare(total, percent) <= total as real
  {
    assert total as real * percent <= total as real * 100.0;
  }

  /** Three positive percentages that add up to exactly 100 never leave the last part below zero. */
  lemma ThreePartsNeverNegative(total: nat, percents: seq<real>)
    requires |percents| == 3 && SumReal(percents) == 100.0
    requires forall i :: 0 <= i < 3 ==> percents[i] > 0.0
    ensures AllocatedParts(total, percents)[2] >= 0
  {
    hide AllocatedParts, SumReal, ExactShare, Abs;
    if total == 0 {
      NothingToShare(percents);
    } else {
      ShareIsPositive(total, percents[2]);
      LastPartNotNegative(total, percents);
    }
  }

  lemma ShareIsPositive(total: nat, percent: real)
    requires total > 0 && percent > 0.0
    ensures ExactShare(total, percent) > 0.0
  {
    assert total as real * percent > 0.0;
  }

  lemma NothingToShare(percents: seq<real>)
    requires |percents| == 3
    ensures AllocatedParts(0, percents)[2] == 0
  {
    var front := percents[..2];
    var shares := RoundedShares(0, front);
    RoundedShareAt(0, front, 0);
    RoundedShareAt(0, front, 1);
    assert ExactShare(0, front[0]) == 0.0 && ExactShare(0, front[1]) == 0.0;
    assert shares[..1] == [0];
    LonePart(shares[..1]);
  }

  /**
   * The allocation alone does not keep the last of four parts from going negative: two cents in equal quarters, where
   * its exact share is just the (4 - 3) / 2 cents it would have to exceed.
   */
  lemma FourPartsCanGoNegative()
    ensures var quarters := [25.0, 25.0, 25.0, 25.0];
      SumReal(quarters) == 100.0 && AllocatedParts(2, quarters)[3] == -1 && ExactShare(2, quarters[3]) == 0.5
  {
    var p := [25.0, 25.0, 25.0, 25.0];
    ThreeAddUp(25.0, 25.0, 25.0);
    SumRealSnoc([25.0, 25.0, 25.0], 25.0);
    assert p == [25.0, 25.0, 25.0] + [25.0];
    var front := p[..3];
    var shares := RoundedShares(2, front);
    assert front[0] == front[1] == front[2] == 25.0;
    RoundedShareAt(2, front, 0);
    RoundedShareAt(2, front, 1);
    RoundedShareAt(2, front, 2);
    assert RoundHalfUp(ExactShare(2, 25.0)) == 1;
    assert shares == [1, 1, 1];
    EqualPartsAddUp(1);
  }

  lemma SumRealSnoc(values: seq<real>, last: real)
    ensures SumReal(values + [last]) == SumReal(values) + last
  {
    assert (values + [last])[..|values|] == values;
  }

  lemma ThreeAddUp(a: real, b: real, c: real)
    ensures SumReal([a, b, c]) == a + b + c
  {
    SumRealSnoc([], a);
    SumRealSnoc([a], b);
    SumRealSnoc([a, b], c);
    assert [] + [a] == [a] && [a] + [b] == [a, b] && [a, b] + [c] == [a, b, c];
  }

  lemma EqualPartsAddUp(part: int)
    ensures Sum([part, part]) == 2 * part && Sum([part, part, part]) == 3 * part
  {
    LonePart([part]);
    assert [part, part][..1] == [part] && [part, part, part][..2] == [part, part];
  }

  /** Nor the last of three when the percentages add up to 100.01, which the tolerance on their sum admits. */
  lemma ToleranceCanGoNegative()
    ensures var p := [50.0, 50.0, 0.01];
      Abs(SumReal(p) - 100.0) <= 0.01 && AllocatedParts(1, p)[2] == -1
  {
    var p := [50.0, 50.0, 0.01];
    ThreeAddUp(50.0, 50.0, 0.01);
    assert p[..2][0] == p[..2][1] == 50.0;
    var shares := RoundedShares(1, p[..2]);
    RoundedShareAt(1, p[..2], 0);
    RoundedShareAt(1, p[..2], 1);
    assert RoundHalfUp(ExactShare(1, 50.0)) == 1;
    assert shares == [1, 1];
    EqualPartsAddUp(1);
  }
}
