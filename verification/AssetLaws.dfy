/** What one more asset transaction does, told in its own columns. */
module AssetLaws {
  import opened Wrappers
  import opened Money
  import opened AssetAccounting
  import opened AssetLedger

  // ---- the order of a timeline ----

  /** Transactions run by date, those of one date by creation, those created together by id. */
  lemma TimelineOrder(input: seq<Tx>, i: nat, j: nat)
    requires i < j < |SortTimeline(input)|
    ensures var a, b := SortTimeline(input)[i], SortTimeline(input)[j];
      && a.date <= b.date && (a.date == b.date ==> a.createdAt <= b.createdAt)
      && (a.date == b.date && a.createdAt == b.createdAt ==> a.id <= b.id)
  {
    SortIsAPermutation(input);
  }

  // ---- the accounts after one more transaction ----

  lemma OneMore(s: seq<Tx>, tx: Tx)
    ensures AccountsOf(s + [tx]) == Step(AccountsOf(s), tx)
  {
    assert (s + [tx])[..|s|] == s;
  }

  /** Quantity that comes in lands in one bucket: with its cost when known, and else it makes the cost incomplete. */
  lemma AcquisitionFillsABucket(s: seq<Tx>, tx: Tx)
    requires tx.quantity > 0 && tx.kind != Sell
    ensures var a, b := AccountsOf(s), AccountsOf(s + [tx]);
      b == if tx.costKnown && (tx.kind == Buy || tx.cash > 0.0)
           then a.(known := a.known + tx.quantity, knownCost := a.knownCost + tx.cash, fees := a.fees + tx.fee)
           else a.(unknown := a.unknown + tx.quantity, complete := false, fees := a.fees + tx.fee)
  {
    OneMore(s, tx);
  }

  /** The exact share of the known bucket in what is sold. */
  function ExactPart(sold: int, known: int, held: int): real
    requires held != 0
  {
    (sold * known) as real / held as real
  }

  lemma NearestPart(a: Accounts, requested: int)
    requires a.known >= 0 && a.unknown >= 0 && 0 < requested < a.known + a.unknown
    ensures var r := RemoveFromBuckets(a.known, a.unknown, a.knownCost, requested);
      Abs(r.removedKnown as real - ExactPart(requested, a.known, a.known + a.unknown)) <= 0.5
  {
    ClampsNeverFire(a.known, a.unknown, a.knownCost, requested);
    hide RemoveFromBuckets, KnownShare;
  }

  /** What a removal of `sold` out of the buckets may look like: a half-up share of each, the cost in proportion. */
  predicate TakenOut(a: Accounts, sold: int, k: int, u: int, cost: real) {
    && 0 <= k <= a.known && 0 <= u <= a.unknown && k + u == sold
    && (sold < a.known + a.unknown ==>
          Abs(k as real - ExactPart(sold, a.known, a.known + a.unknown)) <= 0.5)
    && (if k == a.known then cost == a.knownCost else cost * a.known as real == a.knownCost * k as real)
  }

  lemma RemovalTakesOut(a: Accounts, requested: int)
    requires a.known >= 0 && a.unknown >= 0 && a.known + a.unknown > 0 && requested > 0
    ensures var r := RemoveFromBuckets(a.known, a.unknown, a.knownCost, requested);
      && TakenOut(a, if requested < a.known + a.unknown then requested else a.known + a.unknown, r.removedKnown,
                  r.removedUnknown, r.removedKnownCost)
      && r.removed == r.removedKnown + r.removedUnknown > 0 && r.total > 0 && r.removedUnknown >= 0
      && r.known == a.known - r.removedKnown && r.unknown == a.unknown - r.removedUnknown
      && r.knownCost == a.knownCost - r.removedKnownCost
  {
    hide RemoveWith, KnownShare, ExactPart;
    BucketRemovalIsExact(a.known, a.unknown, a.knownCost, requested);
    RemovedCost(a.known, a.unknown, a.knownCost, requested, KnownShare(a.known, a.unknown, requested));
    if requested < a.known + a.unknown {
      NearestPart(a, requested);
    }
  }

  lemma RemovedCost(known: nat, unknown: nat, cost: real, requested: int, candidate: int)
    requires known + unknown > 0 && requested > 0
    ensures var r := RemoveWith(known, unknown, cost, requested, candidate);
      if r.removedKnown == known then r.removedKnownCost == cost
      else r.removedKnownCost * known as real == cost * r.removedKnown as real
  {
    var r := RemoveWith(known, unknown, cost, requested, candidate);
    if known > 0 {
      ShareTimesWhole(cost, r.removedKnown as real, known as real);
    }
    hide CostShare;
  }

  lemma ShareTimesWhole(cost: real, part: real, whole: real)
    requires whole != 0.0
    ensures CostShare(cost, part, whole) * whole == cost * part
  {
  }

  /**
   * A sale takes what is sold out of the buckets. The profit it realizes is the part of its cash that pays for
   * quantity of known cost, less that cost; selling quantity of unknown cost makes the accounts incomplete.
   */
  lemma SaleRealizesKnownPart(s: seq<Tx>, tx: Tx) returns (k: int, u: int, cost: real, paid: real)
    requires tx.kind == Sell && tx.quantity > 0 && AccountsOf(s).known + AccountsOf(s).unknown > 0
    ensures var a, b := AccountsOf(s), AccountsOf(s + [tx]);
      var held := a.known + a.unknown;
      && TakenOut(a, if tx.quantity < held then tx.quantity else held, k, u, cost)
      && paid * (k + u) as real == tx.cash * k as real
      && b == a.(known := a.known - k, unknown := a.unknown - u, knownCost := a.knownCost - cost,
                 realizedPnl := a.realizedPnl + (paid - cost), realizedCost := a.realizedCost + cost,
                 fees := a.fees + tx.fee, complete := a.complete && u == 0)
  {
    hide RemoveFromBuckets, KnownProceeds, TakenOut;
    OneMore(s, tx);
    BucketsNeverNegative(s);
    var a := AccountsOf(s);
    var r := RemoveFromBuckets(a.known, a.unknown, a.knownCost, tx.quantity);
    RemovalTakesOut(a, tx.quantity);
    k, u, cost, paid := r.removedKnown, r.removedUnknown, r.removedKnownCost, KnownProceeds(tx.cash, r);
    PaidPart(tx.cash, r);
  }

  lemma PaidPart(cash: real, r: Removal)
    requires r.removed > 0
    ensures KnownProceeds(cash, r) * r.removed as real == cash * r.removedKnown as real
  {
    var share := r.removedKnown as real / r.removed as real;
    assert share * r.removed as real == r.removedKnown as real;
    assert cash * share * r.removed as real == cash * (share * r.removed as real);
  }

  /** A negative adjustment takes quantity and cost out and realizes nothing. */
  lemma NegativeAdjustmentWritesOff(s: seq<Tx>, tx: Tx) returns (k: int, u: int, cost: real)
    requires tx.kind == Adjustment && tx.quantity < 0 && AccountsOf(s).known + AccountsOf(s).unknown > 0
    ensures var a, b := AccountsOf(s), AccountsOf(s + [tx]);
      var held := a.known + a.unknown;
      && TakenOut(a, if -tx.quantity < held then -tx.quantity else held, k, u, cost)
      && b == a.(known := a.known - k, unknown := a.unknown - u, knownCost := a.knownCost - cost,
                 fees := a.fees + tx.fee, complete := a.complete && u == 0)
  {
    hide RemoveFromBuckets, KnownProceeds, TakenOut;
    OneMore(s, tx);
    BucketsNeverNegative(s);
    var a := AccountsOf(s);
    var r := RemoveFromBuckets(a.known, a.unknown, a.knownCost, -tx.quantity);
    RemovalTakesOut(a, -tx.quantity);
    k, u, cost := r.removedKnown, r.removedUnknown, r.removedKnownCost;
  }

  /** Every fee counts, whatever its transaction did. */
  function Fees(s: seq<Tx>): real {
    if s == [] then 0.0 else s[0].fee + Fees(s[1..])
  }

  lemma {:induction false} FeesSnoc(s: seq<Tx>, tx: Tx)
    ensures Fees(s + [tx]) == Fees(s) + tx.fee
  {
    if s == [] {
      assert [] + [tx] == [tx];
    } else {
      assert (s + [tx])[1..] == s[1..] + [tx];
      FeesSnoc(s[1..], tx);
    }
  }

  lemma {:induction false} FeesAddUp(s: seq<Tx>)
    ensures AccountsOf(s).fees == Fees(s)
  {
    if s != [] {
      var front, tx := s[..|s| - 1], s[|s| - 1];
      FeesAddUp(front);
      FeesSnoc(front, tx);
      assert front + [tx] == s;
      StepAddsFee(AccountsOf(front), tx);
      hide Step;
    }
  }

  lemma StepAddsFee(a: Accounts, tx: Tx)
    ensures Step(a, tx).fees == a.fees + tx.fee
  {
    hide RemoveFromBuckets, KnownProceeds;
  }

  // ---- requests ----

  /** A transaction is stored as sent, its cash rounded once to the nearest cent. */
  lemma StoredAsSent(id: int, createdAt: int, asset: Asset, input: AssetInput, today: int)
    requires ParseValues(asset, input, today).Ok?
    ensures var tx := MakeTx(id, createdAt, asset, ParseValues(asset, input, today).value);
      && tx.id == id && tx.createdAt == createdAt && tx.asset == asset && tx.kind == input.kind
      && tx.quantity == input.quantity && tx.fee == input.fee && tx.date == input.date
      && Abs(tx.cash * 100.0 - input.cash * 100.0) <= 0.5
      && tx.costKnown == (input.kind != Adjustment || (input.costKnown && tx.cash > 0.0))
  {
    RoundHalfUpIsNearest(input.cash * 100.0, 0);
    hide RoundHalfUp;
  }

  /** Which requests are accepted, in their own columns; a quantity of BTC is a whole number of satoshis. */
  lemma InputIsAccepted(asset: Asset, input: AssetInput, today: int)
    ensures ParseValues(asset, input, today).Ok? <==>
      && input.quantity != 0 && (input.kind != Adjustment ==> input.quantity > 0)
      && (asset == BTC ==> exists sats: int :: input.quantity == 10000 * sats)
      && input.cash >= 0.0 && input.date <= today
      && (input.kind != Adjustment ==> 1 <= ToMoney(input.cash) <= 999999999999)
  {
    if input.quantity % 10000 == 0 {
      assert input.quantity == 10000 * (input.quantity / 10000);
    }
  }

  // ---- quotes ----

  /** The market value is quantity times quote; the percentage is of all cost ever put in, when there is any. */
  lemma QuotedReport(report: Report, quote: real)
    ensures var a, q := report.accounts, EnrichAccountingWithQuote(report, quote);
      var cost := a.realizedCost + a.knownCost;
      && q.marketValue * 1000000000000.0 == report.quantity as real * quote
      && q.unrealized + a.knownCost == Units(a.known) * quote && q.total == a.realizedPnl + q.unrealized
      && (q.totalPercent.Some? <==> cost > 0.0)
      && (q.totalPercent.Some? ==> q.totalPercent.value * cost == q.total * 100.0)
  {
    var q := EnrichAccountingWithQuote(report, quote);
    var a := report.accounts;
    UnitsScale(report.quantity, quote);
    if q.totalPercent.Some? {
      PercentScales(q.total, a.realizedCost + a.knownCost);
    }
    hide Units;
  }

  lemma UnitsScale(quantity: int, quote: real)
    ensures Units(quantity) * quote * 1000000000000.0 == quantity as real * quote
  {
    assert Units(quantity) * 1000000000000.0 == quantity as real;
  }

  lemma PercentScales(total: real, cost: real)
    requires cost > 0.0
    ensures total / cost * 100.0 * cost == total * 100.0
  {
    assert total / cost * cost == total;
  }
}
