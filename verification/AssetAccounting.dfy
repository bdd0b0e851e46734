/** Cost accounting of an asset position held in two buckets: known and unknown cost. */
module AssetAccounting {
  import opened Wrappers
  import opened Money

  datatype Asset = BTC | USD
  datatype Kind = Buy | Sell | Adjustment

  /** Quantities are integer multiples of 1e-12, cash and fees are exact amounts in reais. */
  datatype Tx = Tx(id: int, createdAt: int, asset: Asset, kind: Kind, quantity: int,
                   cash: real, fee: real, costKnown: bool, date: int)

  const QUANTITY_SCALE: real := 1000000000000.0

  function Units(quantity: int): real {
    quantity as real / QUANTITY_SCALE
  }

  // ---- the timeline ----

  /** The order of a timeline: date, then creation, then id. */
  predicate NotAfter(a: Tx, b: Tx) {
    a.date < b.date
    || (a.date == b.date
        && (a.createdAt < b.createdAt || (a.createdAt == b.createdAt && a.id <= b.id)))
  }

  function Insert(tx: Tx, sorted: seq<Tx>): seq<Tx> {
    if sorted == [] || NotAfter(tx, sorted[0]) then [tx] + sorted
    else [sorted[0]] + Insert(tx, sorted[1..])
  }

  function SortTimeline(input: seq<Tx>): seq<Tx> {
    if input == [] then [] else Insert(input[0], SortTimeline(input[1..]))
  }

  predicate Ordered(s: seq<Tx>) {
    forall i, j :: 0 <= i < j < |s| ==> NotAfter(s[i], s[j])
  }

  lemma {:induction false} InsertKeepsOrder(tx: Tx, sorted: seq<Tx>)
    requires Ordered(sorted)
    ensures Ordered(Insert(tx, sorted)) && multiset(Insert(tx, sorted)) == multiset(sorted) + multiset{tx}
  {
    if sorted == [] || NotAfter(tx, sorted[0]) {
    } else {
      var rest := Insert(tx, sorted[1..]);
      InsertKeepsOrder(tx, sorted[1..]);
      assert sorted == [sorted[0]] + sorted[1..];
      forall j | 0 <= j < |rest|
        ensures NotAfter(sorted[0], rest[j])
      {
        assert rest[j] in multiset(rest);
        assert rest[j] == tx || rest[j] in sorted[1..];
      }
    }
  }

  /** Sorting orders the timeline and neither drops nor invents a transaction. */
  lemma {:induction false} SortIsAPermutation(input: seq<Tx>)
    ensures Ordered(SortTimeline(input)) && multiset(SortTimeline(input)) == multiset(input)
  {
    if input != [] {
      SortIsAPermutation(input[1..]);
      InsertKeepsOrder(input[0], SortTimeline(input[1..]));
      assert input == [input[0]] + input[1..];
    }
  }

  function Signed(tx: Tx): int {
    if tx.kind == Sell then -tx.quantity else tx.quantity
  }

  function Balance(s: seq<Tx>): int {
    if s == [] then 0 else Balance(s[..|s| - 1]) + Signed(s[|s| - 1])
  }

  /** No sale and no adjustment may leave a negative balance behind. */
  predicate TimelineValid(s: seq<Tx>) {
    forall k :: 1 <= k <= |s| && s[k - 1].kind != Buy ==> Balance(s[..k]) >= 0
  }

  /** What input parsing guarantees: purchases and sales have a positive quantity. */
  predicate WellFormed(s: seq<Tx>) {
    forall i :: 0 <= i < |s| && s[i].kind != Adjustment ==> s[i].quantity > 0
  }

  method IsAssetTimelineValid(input: seq<Tx>) returns (valid: bool)
    ensures valid == TimelineValid(SortTimeline(input))
  {
    var balance := 0;
    var transactions := SortTimeline(input);
    for i := 0 to |transactions|
      invariant balance == Balance(transactions[..i])
      invariant forall k :: 1 <= k <= i && transactions[k - 1].kind != Buy ==> Balance(transactions[..k]) >= 0
    {
      var tx := transactions[i];
      assert transactions[..i + 1][..i] == transactions[..i];
      if tx.kind == Buy {
        balance := balance + tx.quantity;
      } else if tx.kind == Sell {
        if tx.quantity > balance {
          assert Balance(transactions[..i + 1]) < 0;
          return false;
        }
        balance := balance - tx.quantity;
      } else {
        balance := balance + tx.quantity;
        if balance < 0 {
          assert Balance(transactions[..i + 1]) < 0;
          return false;
        }
      }
    }
    return true;
  }

  /** With positive purchases, a valid timeline never goes negative at any point. */
  lemma {:induction false} ValidNeverNegative(s: seq<Tx>)
    requires WellFormed(s)
    ensures TimelineValid(s) <==> forall k :: 0 <= k <= |s| ==> Balance(s[..k]) >= 0
  {
    if TimelineValid(s) {
      forall k | 0 <= k <= |s|
        ensures Balance(s[..k]) >= 0
      {
        PrefixNonNegative(s, k);
      }
    }
  }

  lemma {:induction false} PrefixNonNegative(s: seq<Tx>, k: nat)
    requires WellFormed(s) && TimelineValid(s) && k <= |s|
    ensures Balance(s[..k]) >= 0
  {
    if k > 0 && s[k - 1].kind == Buy {
      PrefixNonNegative(s, k - 1);
      assert s[..k][..k - 1] == s[..k - 1];
    }
  }

  lemma ValidPrefix(s: seq<Tx>, k: nat)
    requires TimelineValid(s) && k <= |s|
    ensures TimelineValid(s[..k])
  {
    assert forall j :: 1 <= j <= k ==> s[..k][..j] == s[..j];
  }

  // ---- removal from the two buckets ----

  datatype Removal = Removal(total: int, removed: int, removedKnown: int, removedUnknown: int,
                             removedKnownCost: real, known: int, unknown: int, knownCost: real)

  /** The part of a cost that falls on part of a quantity. */
  function CostShare(cost: real, part: real, whole: real): real
    requires whole != 0.0
  {
    cost * part / whole
  }

  /** Removal when `candidate` is the rounded share of the known bucket. */
  function RemoveWith(known: int, unknown: int, cost: real, requested: int, candidate: int): Removal {
    var total := known + unknown;
    if total <= 0 || requested <= 0 then Removal(total, 0, 0, 0, 0.0, known, unknown, cost)
    else
      var removed := if requested <= total then requested else total;
      if removed == total then Removal(total, removed, known, unknown, cost, 0, 0, 0.0)
      else
        var mostKnown := if removed <= known then removed else known;
        var leastKnown := removed - unknown;
        var capped := if candidate > mostKnown then mostKnown else candidate;
        var raised := if capped < leastKnown then leastKnown else capped;
        var removedKnown := if raised < 0 then 0 else raised;
        var removedUnknown := removed - removedKnown;
        var nextKnown := known - removedKnown;
        var removedKnownCost :=
          if removedKnown == known then cost
          else if known > 0 then CostShare(cost, removedKnown as real, known as real)
          else 0.0;
        Removal(total, removed, removedKnown, removedUnknown, removedKnownCost,
          nextKnown, unknown - removedUnknown, if nextKnown == 0 then 0.0 else cost - removedKnownCost)
  }

  /** The known share, rounded once to the quantity grid. */
  function KnownShare(known: int, unknown: int, requested: int): int {
    var total := known + unknown;
    var removed := if requested <= total then requested else total;
    if total == 0 then 0 else RoundHalfUp((removed * known) as real / total as real)
  }

  function RemoveFromBuckets(known: int, unknown: int, cost: real, requested: int): Removal {
    RemoveWith(known, unknown, cost, requested, KnownShare(known, unknown, requested))
  }

  function Least(a: int, b: int): int {
    if a <= b then a else b
  }

  /** Whatever the rounded candidate, the clamps keep the removal exact in quantity and in cost. */
  lemma RemovalIsExact(known: nat, unknown: nat, cost: real, requested: int, candidate: int)
    ensures var r := RemoveWith(known, unknown, cost, requested, candidate);
      && r.removed == (if requested <= 0 then 0 else Least(requested, known + unknown))
      && r.removedKnown >= 0 && r.removedUnknown >= 0
      && r.removedKnown + r.removedUnknown == r.removed
      && r.known >= 0 && r.known == known - r.removedKnown
      && r.unknown >= 0 && r.unknown == unknown - r.removedUnknown
      && r.knownCost + r.removedKnownCost == cost
      && (r.removed == known + unknown && r.removed > 0 ==> r.known == r.unknown == 0 && r.knownCost == 0.0)
  {
  }

  /** The same for the removal the accounts use. */
  lemma BucketRemovalIsExact(known: nat, unknown: nat, cost: real, requested: int)
    ensures var r := RemoveFromBuckets(known, unknown, cost, requested);
      && r.total == known + unknown
      && r.removed == (if requested <= 0 then 0 else Least(requested, known + unknown))
      && r.removedKnown >= 0 && r.removedUnknown >= 0
      && r.removedKnown + r.removedUnknown == r.removed
      && r.known >= 0 && r.known == known - r.removedKnown
      && r.unknown >= 0 && r.unknown == unknown - r.removedUnknown
      && r.knownCost + r.removedKnownCost == cost
      && (r.removed == known + unknown && r.removed > 0 ==> r.known == r.unknown == 0 && r.knownCost == 0.0)
  {
    RemovalIsExact(known, unknown, cost, requested, KnownShare(known, unknown, requested));
  }

  lemma RemainingCost(known: nat, unknown: nat, cost: real, requested: int, candidate: int)
    ensures var r := RemoveWith(known, unknown, cost, requested, candidate);
      r.known > 0 ==>
        && known > 0 && r.known as real == known as real - r.removedKnown as real
        && (r.knownCost == cost - CostShare(cost, r.removedKnown as real, known as real)
            || (r.removedKnown == 0 && r.knownCost == cost))
  {
    hide CostShare;
  }

  /** A partial exit keeps the average cost of what stays. */
  lemma RemovalKeepsAverageCost(known: nat, unknown: nat, cost: real, requested: int, candidate: int)
    ensures var r := RemoveWith(known, unknown, cost, requested, candidate);
      r.known > 0 ==> known > 0 && r.knownCost / r.known as real == cost / known as real
  {
    hide RemoveWith;
    var r := RemoveWith(known, unknown, cost, requested, candidate);
    RemainingCost(known, unknown, cost, requested, candidate);
    if r.known > 0 {
      SameAverage(cost, r.removedKnown as real, known as real);
    }
  }

  lemma SameAverage(cost: real, gone: real, held: real)
    requires held > 0.0 && held - gone > 0.0
    ensures (cost - CostShare(cost, gone, held)) / (held - gone) == cost / held
  {
    var rate := cost / held;
    assert cost == rate * held;
    assert cost * gone / held == rate * gone by {
      assert cost * gone == rate * gone * held;
    }
    assert cost - rate * gone == rate * (held - gone);
  }

  /** With the exact half-up share, the clamps never change the candidate. */
  lemma ClampsNeverFire(known: nat, unknown: nat, cost: real, requested: int)
    requires 0 < requested < known + unknown
    ensures var r := RemoveFromBuckets(known, unknown, cost, requested);
      && r.removedKnown == KnownShare(known, unknown, requested)
      && Abs(r.removedKnown as real - (requested * known) as real / (known + unknown) as real) <= 0.5
  {
    var total := known + unknown;
    var exact := (requested * known) as real / total as real;
    ShareBounds(known, unknown, requested);
    RoundHalfUpBetween(exact, if requested > unknown then requested - unknown else 0, Least(requested, known));
    RoundHalfUpIsNearest(exact, 0);
  }

  lemma ShareBounds(known: nat, unknown: nat, requested: nat)
    requires 0 < requested < known + unknown
    ensures var exact := (requested * known) as real / (known + unknown) as real;
      && 0.0 <= exact && (requested - unknown) as real <= exact
      && exact <= known as real && exact <= requested as real
  {
    var total := known + unknown;
    ProductBounds(known, unknown, requested);
    QuotientBounds(requested * known, total, requested - unknown, known);
    QuotientBounds(requested * known, total, 0, requested);
  }

  lemma ProductBounds(known: nat, unknown: nat, requested: nat)
    requires requested < known + unknown
    ensures 0 <= requested * known <= known * (known + unknown)
    ensures requested * known <= requested * (known + unknown)
    ensures (requested - unknown) * (known + unknown) <= requested * known
  {
    var total := known + unknown;
    Monotone(known, requested, total);
    Monotone(requested, known, total);
    Monotone(unknown, requested, total);
    assert requested * total == requested * known + requested * unknown;
    assert (requested - unknown) * total == requested * total - unknown * total;
  }

  lemma Monotone(k: nat, a: nat, b: nat)
    requires a <= b
    ensures 0 <= a * k <= k * b
  {
  }

  lemma QuotientBounds(n: int, d: int, lo: int, hi: int)
    requires d > 0 && lo * d <= n <= hi * d
    ensures lo as real <= n as real / d as real <= hi as real
  {
    var q := n as real / d as real;
    assert q * d as real == n as real;
    assert lo as real * d as real == (lo * d) as real && hi as real * d as real == (hi * d) as real;
  }

  // ---- the running accounts ----

  datatype Accounts = Accounts(known: int, unknown: int, knownCost: real, realizedPnl: real,
                               realizedCost: real, fees: real, complete: bool)

  const NO_ACCOUNTS := Accounts(0, 0, 0.0, 0.0, 0.0, 0.0, true)

  function AfterRemoval(a: Accounts, r: Removal): Accounts {
    a.(known := r.known, unknown := r.unknown, knownCost := r.knownCost,
       complete := a.complete && r.removedUnknown <= 0)
  }

  /** The part of a sale's cash that pays for quantity of known cost. */
  function KnownProceeds(cash: real, r: Removal): real {
    cash * if r.removed == 0 then 0.0 else r.removedKnown as real / r.removed as real
  }

  function Acquire(a: Accounts, tx: Tx, costKnown: bool): Accounts {
    if costKnown then a.(known := a.known + tx.quantity, knownCost := a.knownCost + tx.cash)
    else a.(unknown := a.unknown + tx.quantity, complete := false)
  }

  /** Does an adjustment or purchase bring in quantity, and is its cost known? */
  predicate AddsKnown(tx: Tx) {
    tx.quantity > 0 && tx.costKnown && (tx.kind == Buy || (tx.kind == Adjustment && tx.cash > 0.0))
  }

  function Step(before: Accounts, tx: Tx): Accounts {
    var a := before.(fees := before.fees + tx.fee);
    match tx.kind
    case Buy => if tx.quantity <= 0 then a else Acquire(a, tx, tx.costKnown)
    case Adjustment =>
      if tx.quantity == 0 then a
      else if tx.quantity > 0 then Acquire(a, tx, tx.costKnown && tx.cash > 0.0)
      else
        var r := RemoveFromBuckets(a.known, a.unknown, a.knownCost, -tx.quantity);
        if r.total <= 0 then a else AfterRemoval(a, r)
    case Sell =>
      if tx.quantity <= 0 then a
      else
        var r := RemoveFromBuckets(a.known, a.unknown, a.knownCost, tx.quantity);
        if r.total <= 0 then a
        else
          AfterRemoval(a.(realizedPnl := a.realizedPnl + (KnownProceeds(tx.cash, r) - r.removedKnownCost),
                          realizedCost := a.realizedCost + r.removedKnownCost), r)
  }

  function AccountsOf(s: seq<Tx>): Accounts {
    if s == [] then NO_ACCOUNTS else Step(AccountsOf(s[..|s| - 1]), s[|s| - 1])
  }

  function OfAsset(input: seq<Tx>, asset: Asset): seq<Tx> {
    if input == [] then []
    else (if input[0].asset == asset then [input[0]] else []) + OfAsset(input[1..], asset)
  }

  datatype Report = Report(asset: Asset, quantity: int, accounts: Accounts, averageCost: Option<real>)

  method CalculateAssetAccounting(asset: Asset, input: seq<Tx>) returns (report: Report)
    ensures report.asset == asset
    ensures report.accounts == AccountsOf(SortTimeline(OfAsset(input, asset)))
    ensures report.quantity == report.accounts.known + report.accounts.unknown
    ensures report.averageCost == if report.accounts.known > 0
      then Some(report.accounts.knownCost / Units(report.accounts.known)) else None
  {
    hide RemoveFromBuckets, SortTimeline, OfAsset, KnownProceeds;
    var a := NO_ACCOUNTS;
    var transactions := SortTimeline(OfAsset(input, asset));
    for i := 0 to |transactions|
      invariant a == AccountsOf(transactions[..i])
    {
      var tx := transactions[i];
      assert transactions[..i + 1][..i] == transactions[..i];
      a := a.(fees := a.fees + tx.fee);
      if tx.kind == Buy {
        if tx.quantity <= 0 {
          continue;
        }
        if tx.costKnown {
          a := a.(known := a.known + tx.quantity, knownCost := a.knownCost + tx.cash);
        } else {
          a := a.(unknown := a.unknown + tx.quantity, complete := false);
        }
        continue;
      }
      if tx.kind == Adjustment {
        if tx.quantity == 0 {
          continue;
        }
        if tx.quantity > 0 {
          if tx.costKnown && tx.cash > 0.0 {
            a := a.(known := a.known + tx.quantity, knownCost := a.knownCost + tx.cash);
          } else {
            a := a.(unknown := a.unknown + tx.quantity, complete := false);
          }
          continue;
        }
        var removal := RemoveFromBuckets(a.known, a.unknown, a.knownCost, -tx.quantity);
        if removal.total <= 0 {
          continue;
        }
        a := a.(known := removal.known, unknown := removal.unknown, knownCost := removal.knownCost);
        if removal.removedUnknown > 0 {
          a := a.(complete := false);
        }
        continue;
      }
      if tx.quantity <= 0 {
        continue;
      }
      var removal := RemoveFromBuckets(a.known, a.unknown, a.knownCost, tx.quantity);
      if removal.total <= 0 {
        continue;
      }
      var knownCash := KnownProceeds(tx.cash, removal);
      a := a.(realizedPnl := a.realizedPnl + (knownCash - removal.removedKnownCost),
              realizedCost := a.realizedCost + removal.removedKnownCost);
      a := a.(known := removal.known, unknown := removal.unknown, knownCost := removal.knownCost);
      if removal.removedUnknown > 0 {
        a := a.(complete := false);
      }
    }
    assert transactions[..|transactions|] == transactions;
    report := Report(asset, a.known + a.unknown, a,
      if a.known > 0 then Some(a.knownCost / Units(a.known)) else None);
  }

  datatype Quoted = Quoted(marketValue: real, unrealized: real, total: real, totalPercent: Option<real>)

  function EnrichAccountingWithQuote(report: Report, quote: real): Quoted {
    var a := report.accounts;
    var unrealized := Units(a.known) * quote - a.knownCost;
    var total := a.realizedPnl + unrealized;
    var denominator := a.realizedCost + a.knownCost;
    Quoted(Units(report.quantity) * quote, unrealized, total,
      if denominator > 0.0 then Some(total / denominator * 100.0) else None)
  }

  // ---- conservation ----

  /** All known acquisition cost that ever came in. */
  function CostAdded(s: seq<Tx>): real {
    if s == [] then 0.0
    else CostAdded(s[..|s| - 1]) + if AddsKnown(s[|s| - 1]) then s[|s| - 1].cash else 0.0
  }

  /** Known cost written off by negative adjustments. */
  function CostDropped(s: seq<Tx>): real {
    if s == [] then 0.0
    else
      var front, tx := s[..|s| - 1], s[|s| - 1];
      var a := AccountsOf(front);
      CostDropped(front)
      + if tx.kind == Adjustment && tx.quantity < 0
        then RemoveFromBuckets(a.known, a.unknown, a.knownCost, -tx.quantity).removedKnownCost else 0.0
  }

  function Proceeds(s: seq<Tx>): real {
    if s == [] then 0.0
    else Proceeds(s[..|s| - 1]) + if s[|s| - 1].kind == Sell then s[|s| - 1].cash else 0.0
  }

  lemma StepKeepsBuckets(a: Accounts, tx: Tx)
    requires a.known >= 0 && a.unknown >= 0
    ensures Step(a, tx).known >= 0 && Step(a, tx).unknown >= 0
  {
    hide RemoveFromBuckets, KnownProceeds;
    BucketRemovalIsExact(a.known, a.unknown, a.knownCost, if tx.kind == Sell then tx.quantity else -tx.quantity);
  }

  lemma {:induction false} BucketsNeverNegative(s: seq<Tx>)
    ensures AccountsOf(s).known >= 0 && AccountsOf(s).unknown >= 0
  {
    hide Step;
    if s != [] {
      BucketsNeverNegative(s[..|s| - 1]);
      StepKeepsBuckets(AccountsOf(s[..|s| - 1]), s[|s| - 1]);
    }
  }

  lemma RateBounds(rate: real, part: real, whole: real)
    requires rate >= 0.0 && 0.0 <= part <= whole
    ensures 0.0 <= rate * part <= rate * whole
  {
    assert rate * (whole - part) >= 0.0;
  }

  lemma CostShareBounds(cost: real, part: real, whole: real)
    requires cost >= 0.0 && 0.0 <= part <= whole && whole > 0.0
    ensures 0.0 <= CostShare(cost, part, whole) <= cost
  {
    var rate := cost / whole;
    assert cost == rate * whole;
    assert cost * part / whole == rate * part by {
      assert cost * part == rate * part * whole;
    }
    RateBounds(rate, part, whole);
  }

  lemma RemovalKeepsCostSign(known: nat, unknown: nat, cost: real, requested: int, candidate: int)
    requires cost >= 0.0
    ensures var r := RemoveWith(known, unknown, cost, requested, candidate);
      r.knownCost >= 0.0 && r.removedKnownCost >= 0.0
  {
    hide CostShare;
    RemovalIsExact(known, unknown, cost, requested, candidate);
    var r := RemoveWith(known, unknown, cost, requested, candidate);
    if known > 0 && r.removedKnown <= known {
      CostShareBounds(cost, r.removedKnown as real, known as real);
    }
  }

  /** With no negative cash the invested and the realized cost stay non-negative. */
  lemma {:induction false} CostNeverNegative(s: seq<Tx>)
    requires forall i :: 0 <= i < |s| ==> s[i].cash >= 0.0
    ensures AccountsOf(s).knownCost >= 0.0 && AccountsOf(s).realizedCost >= 0.0
  {
    if s != [] {
      var tx, a := s[|s| - 1], AccountsOf(s[..|s| - 1]);
      CostNeverNegative(s[..|s| - 1]);
      BucketsNeverNegative(s[..|s| - 1]);
      var requested := if tx.kind == Sell then tx.quantity else -tx.quantity;
      RemovalKeepsCostSign(a.known, a.unknown, a.knownCost, requested, KnownShare(a.known, a.unknown, requested));
      hide RemoveWith, KnownShare;
    }
  }

  /** Known cost is never lost: it is still invested, was realized by sales, or was written off. */
  lemma {:induction false} CostIsConserved(s: seq<Tx>)
    ensures AccountsOf(s).knownCost + AccountsOf(s).realizedCost + CostDropped(s) == CostAdded(s)
  {
    if s != [] {
      var front, tx := s[..|s| - 1], s[|s| - 1];
      var a := AccountsOf(front);
      CostIsConserved(front);
      BucketsNeverNegative(front);
      hide RemoveFromBuckets;
      BucketRemovalIsExact(a.known, a.unknown, a.knownCost, if tx.kind == Sell then tx.quantity else -tx.quantity);
    }
  }

  lemma StepMovesQuantity(a: Accounts, tx: Tx)
    requires a.known >= 0 && a.unknown >= 0 && a.known + a.unknown + Signed(tx) >= 0
    requires tx.kind != Adjustment ==> tx.quantity > 0
    ensures var b := Step(a, tx);
      b.known + b.unknown == a.known + a.unknown + Signed(tx)
  {
    hide RemoveFromBuckets;
    BucketRemovalIsExact(a.known, a.unknown, a.knownCost, if tx.kind == Sell then tx.quantity else -tx.quantity);
  }

  /** On a valid timeline the accounts hold exactly the timeline's balance. */
  lemma {:induction false} QuantityIsBalance(s: seq<Tx>)
    requires WellFormed(s) && TimelineValid(s)
    ensures AccountsOf(s).known + AccountsOf(s).unknown == Balance(s)
  {
    if s != [] {
      var front, tx := s[..|s| - 1], s[|s| - 1];
      ValidPrefix(s, |s| - 1);
      QuantityIsBalance(front);
      BucketsNeverNegative(front);
      assert s[..|s|] == s;
      PrefixNonNegative(s, |s|);
      StepMovesQuantity(AccountsOf(front), tx);
      hide Step, TimelineValid;
    }
  }

  /** Complete accounts never held quantity of unknown cost. */
  lemma {:induction false} CompleteMeansAllKnown(s: seq<Tx>)
    requires AccountsOf(s).complete
    ensures AccountsOf(s).unknown == 0
    ensures s != [] ==> AccountsOf(s[..|s| - 1]).complete
  {
    if s != [] {
      var front, tx := s[..|s| - 1], s[|s| - 1];
      CompleteMeansAllKnown(front);
      BucketsNeverNegative(front);
      var a := AccountsOf(front);
      hide RemoveFromBuckets;
      BucketRemovalIsExact(a.known, a.unknown, a.knownCost, if tx.kind == Sell then tx.quantity else -tx.quantity);
    }
  }

  lemma WholeShare(quantity: int, cash: real)
    requires quantity > 0
    ensures cash * (quantity as real / quantity as real) == cash
  {
    assert quantity as real / quantity as real == 1.0;
  }

  lemma SaleRealizes(a: Accounts, tx: Tx)
    requires a.known >= 0 && a.unknown == 0 && tx.kind == Sell && 0 < tx.quantity <= a.known
    ensures var b := Step(a, tx);
      b.realizedPnl + b.realizedCost == a.realizedPnl + a.realizedCost + tx.cash
  {
    hide RemoveFromBuckets;
    var r := RemoveFromBuckets(a.known, a.unknown, a.knownCost, tx.quantity);
    BucketRemovalIsExact(a.known, a.unknown, a.knownCost, tx.quantity);
    assert r.removedKnown == r.removed == tx.quantity;
    WholeShare(tx.quantity, tx.cash);
  }

  /** On complete accounts, what sales brought in is realized cost plus realized profit. */
  lemma {:induction false} RealizedIsProceedsLessCost(s: seq<Tx>)
    requires WellFormed(s) && TimelineValid(s) && AccountsOf(s).complete
    ensures AccountsOf(s).realizedPnl + AccountsOf(s).realizedCost == Proceeds(s)
  {
    if s != [] {
      var front, tx := s[..|s| - 1], s[|s| - 1];
      var a := AccountsOf(front);
      CompleteMeansAllKnown(s);
      CompleteMeansAllKnown(front);
      ValidPrefix(s, |s| - 1);
      RealizedIsProceedsLessCost(front);
      if tx.kind == Sell {
        BucketsNeverNegative(front);
        QuantityIsBalance(front);
        assert s[..|s|] == s;
        assert Balance(s) >= 0;
        SaleRealizes(a, tx);
        hide Step, TimelineValid;
      } else {
        hide RemoveFromBuckets, TimelineValid;
      }
    }
  }

  /**
   * For complete accounts of a valid timeline, total profit is sale proceeds plus market value
   * minus every known acquisition cost, except the cost that negative adjustments wrote off.
   */
  lemma TotalProfitIsExplained(report: Report, s: seq<Tx>, quote: real)
    requires WellFormed(s) && TimelineValid(s)
    requires report.accounts == AccountsOf(s) && report.quantity == AccountsOf(s).known + AccountsOf(s).unknown
    requires report.accounts.complete
    ensures var q := EnrichAccountingWithQuote(report, quote);
      q.total == Proceeds(s) + q.marketValue - CostAdded(s) + CostDropped(s)
  {
    hide Units, AccountsOf, CostAdded, CostDropped, Proceeds, TimelineValid, WellFormed;
    CompleteMeansAllKnown(s);
    RealizedIsProceedsLessCost(s);
    CostIsConserved(s);
  }

  /** Without negative adjustments nothing is written off. */
  lemma {:induction false} NothingDropped(s: seq<Tx>)
    requires forall i :: 0 <= i < |s| && s[i].kind == Adjustment ==> s[i].quantity >= 0
    ensures CostDropped(s) == 0.0
  {
    if s != [] {
      NothingDropped(s[..|s| - 1]);
    }
  }
}
