/** Asset transactions and the ledger rows they own, kept in step under the user lock. */
module AssetLedger {
  import opened Wrappers
  import opened Money
  import opened AssetAccounting

  datatype Origin = Manual | Piggy | FromAsset

  /** An expense or entry row: cents, civil day and the part of the system that wrote it. */
  datatype LedgerRow = LedgerRow(origin: Origin, amount: int, date: int)

  datatype AssetRow = AssetRow(tx: Tx, expenseId: Option<int>, entryId: Option<int>)

  /** The user's rows. Tables are unordered; queries sort. Ids below `nextId` may be in use. */
  datatype State = State(transactions: seq<AssetRow>, expenses: map<int, LedgerRow>,
                         entries: map<int, LedgerRow>, nextId: int)

  datatype AssetError = InvalidQuantity | InvalidCash | FutureDate | NotFound | NegativePosition

  datatype AssetInput = AssetInput(kind: Kind, quantity: int, cash: real, fee: real, costKnown: bool, date: int)

  /** Largest amount of a ledger row, in cents. */
  const MAX_MONEY_CENTS: int := 999999999999

  /** BTC quantities carry at most eight decimals, that is multiples of ten thousand grid units. */
  const BTC_STEP: int := 10000

  function Reais(cents: int): real {
    cents as real / 100.0
  }

  /** Input parsing; cash is rounded once to cents here. */
  function ParseValues(asset: Asset, input: AssetInput, today: int): Result<AssetInput, AssetError> {
    var cents := ToMoney(input.cash);
    if input.quantity == 0 || (input.kind != Adjustment && input.quantity < 0)
       || (asset == BTC && input.quantity % BTC_STEP != 0) then Err(InvalidQuantity)
    else if input.cash < 0.0 then Err(InvalidCash)
    else if input.kind != Adjustment && (cents <= 0 || cents > MAX_MONEY_CENTS) then Err(InvalidCash)
    else if input.date > today then Err(FutureDate)
    else Ok(input.(cash := Reais(cents),
                   costKnown := if input.kind == Adjustment then input.costKnown && cents > 0 else true))
  }

  function MakeTx(id: int, createdAt: int, asset: Asset, v: AssetInput): Tx {
    Tx(id, createdAt, asset, v.kind, v.quantity, v.cash, v.fee, v.costKnown, v.date)
  }

  lemma CentsAreExact(cents: int)
    ensures ToMoney(Reais(cents)) == cents
  {
    RoundHalfUpIsNearest(cents as real, cents);
  }

  /** Parsing leaves a positive quantity for purchases and sales, and a cash amount of whole cents, never negative. */
  lemma ParsedInput(id: int, createdAt: int, asset: Asset, input: AssetInput, today: int)
    requires ParseValues(asset, input, today).Ok?
    ensures ParsedTx(MakeTx(id, createdAt, asset, ParseValues(asset, input, today).value))
  {
    assert ToMoney(input.cash) >= 0;
    CentsAreExact(ToMoney(input.cash));
  }

  function TxsOf(rows: seq<AssetRow>): seq<Tx> {
    if rows == [] then [] else [rows[0].tx] + TxsOf(rows[1..])
  }

  /** The transactions of one asset in timeline order. */
  function Timeline(rows: seq<AssetRow>, asset: Asset): seq<Tx> {
    SortTimeline(OfAsset(TxsOf(rows), asset))
  }

  function Without(rows: seq<AssetRow>, id: int): seq<AssetRow> {
    if rows == [] then []
    else (if rows[0].tx.id == id then [] else [rows[0]]) + Without(rows[1..], id)
  }

  function Find(rows: seq<AssetRow>, id: int): (row: Option<AssetRow>)
    ensures row.Some? ==> row.value in rows && row.value.tx.id == id
    ensures row.None? ==> forall r :: r in rows ==> r.tx.id != id
  {
    if rows == [] then None
    else if rows[0].tx.id == id then Some(rows[0]) else Find(rows[1..], id)
  }

  // ---- the promise kept between operations ----

  predicate OwnedRow(id: Option<int>, wanted: bool, table: map<int, LedgerRow>, tx: Tx) {
    if wanted then id.Some? && id.value in table && table[id.value] == LedgerRow(FromAsset, ToMoney(tx.cash), tx.date)
    else id.None?
  }

  /** A purchase owns one expense, a sale one entry, an adjustment neither; amounts and days agree. */
  predicate Linked(row: AssetRow, s: State) {
    && OwnedRow(row.expenseId, row.tx.kind == Buy, s.expenses, row.tx)
    && OwnedRow(row.entryId, row.tx.kind == Sell, s.entries, row.tx)
  }

  ghost predicate DistinctIds(rows: seq<AssetRow>) {
    forall i, j :: 0 <= i < j < |rows| ==> rows[i].tx.id != rows[j].tx.id
  }

  ghost predicate OneOwner(rows: seq<AssetRow>) {
    forall a, b :: a in rows && b in rows && a != b ==>
      (a.expenseId.Some? ==> a.expenseId != b.expenseId) && (a.entryId.Some? ==> a.entryId != b.entryId)
  }

  ghost predicate NoOrphans(s: State) {
    && (forall id :: id in s.expenses && s.expenses[id].origin == FromAsset ==>
          exists r :: r in s.transactions && r.expenseId == Some(id))
    && (forall id :: id in s.entries && s.entries[id].origin == FromAsset ==>
          exists r :: r in s.transactions && r.entryId == Some(id))
  }

  ghost predicate FreshFrom(s: State) {
    && (forall r :: r in s.transactions ==> r.tx.id < s.nextId)
    && (forall id :: id in s.expenses ==> id < s.nextId)
    && (forall id :: id in s.entries ==> id < s.nextId)
  }

  /** What input parsing guarantees of a transaction. */
  predicate ParsedTx(tx: Tx) {
    (tx.kind != Adjustment ==> tx.quantity > 0) && tx.cash >= 0.0 && tx.cash == Reais(ToMoney(tx.cash))
  }

  ghost predicate Positive(rows: seq<AssetRow>) {
    forall r :: r in rows ==> ParsedTx(r.tx)
  }

  ghost predicate Consistent(s: State) {
    && DistinctIds(s.transactions) && OneOwner(s.transactions) && Positive(s.transactions)
    && (forall r :: r in s.transactions ==> Linked(r, s))
    && NoOrphans(s) && FreshFrom(s)
  }

  /** The ledger row of a purchase or sale carries exactly the cash of its transaction. */
  predicate CarriesCash(row: AssetRow, s: State) {
    && (row.tx.kind == Buy ==>
          row.expenseId.Some? && row.expenseId.value in s.expenses
          && Reais(s.expenses[row.expenseId.value].amount) == row.tx.cash)
    && (row.tx.kind == Sell ==>
          row.entryId.Some? && row.entryId.value in s.entries
          && Reais(s.entries[row.entryId.value].amount) == row.tx.cash)
  }

  lemma AmountsEqualCash(s: State)
    requires Consistent(s)
    ensures forall r :: r in s.transactions ==> CarriesCash(r, s)
  {
    hide ToMoney, Reais;
    forall r | r in s.transactions
      ensures CarriesCash(r, s)
    {
      assert Linked(r, s) && ParsedTx(r.tx);
    }
  }

  predicate AssetValid(rows: seq<AssetRow>, asset: Asset) {
    TimelineValid(Timeline(rows, asset))
  }

  predicate TimelinesValid(rows: seq<AssetRow>) {
    AssetValid(rows, BTC) && AssetValid(rows, USD)
  }

  // ---- the two halves of every operation ----

  function RemoveKey(table: map<int, LedgerRow>, id: Option<int>): map<int, LedgerRow> {
    if id.Some? then table - {id.value} else table
  }

  /** Takes a transaction and the rows it owns out of the ledger. */
  function Detach(s: State, row: AssetRow): State {
    s.(transactions := Without(s.transactions, row.tx.id),
       expenses := RemoveKey(s.expenses, row.expenseId),
       entries := RemoveKey(s.entries, row.entryId))
  }

  /** Adds a transaction with the ledger row its kind calls for, stored under `link`. */
  function Attach(s: State, tx: Tx, link: int): State {
    var ledgerRow := LedgerRow(FromAsset, ToMoney(tx.cash), tx.date);
    match tx.kind
    case Buy => s.(transactions := s.transactions + [AssetRow(tx, Some(link), None)],
                   expenses := s.expenses[link := ledgerRow])
    case Sell => s.(transactions := s.transactions + [AssetRow(tx, None, Some(link))],
                    entries := s.entries[link := ledgerRow])
    case Adjustment => s.(transactions := s.transactions + [AssetRow(tx, None, None)])
  }

  lemma {:induction false} WithoutMeaning(rows: seq<AssetRow>, id: int)
    requires DistinctIds(rows)
    ensures DistinctIds(Without(rows, id))
    ensures forall r :: r in Without(rows, id) <==> r in rows && r.tx.id != id
  {
    if rows != [] {
      var tail := rows[1..];
      WithoutMeaning(tail, id);
      assert rows == [rows[0]] + tail;
      forall j | 0 <= j < |Without(tail, id)|
        ensures Without(tail, id)[j].tx.id != rows[0].tx.id
      {
        assert Without(tail, id)[j] in tail;
      }
    }
  }

  lemma IdTellsRows(rows: seq<AssetRow>, a: AssetRow, b: AssetRow)
    requires DistinctIds(rows) && a in rows && b in rows && a.tx.id == b.tx.id
    ensures a == b
  {
  }

  /** Detaching leaves every other transaction with its own rows and no orphan behind. */
  lemma DetachKeepsConsistency(s: State, row: AssetRow)
    requires Consistent(s) && row in s.transactions
    ensures Consistent(Detach(s, row))
    ensures forall r :: r in Detach(s, row).transactions ==> r.tx.id != row.tx.id
    ensures row.expenseId.Some? ==> row.expenseId.value !in Detach(s, row).expenses
    ensures row.entryId.Some? ==> row.entryId.value !in Detach(s, row).entries
  {
    var d := Detach(s, row);
    WithoutMeaning(s.transactions, row.tx.id);
    forall r | r in d.transactions
      ensures Linked(r, d)
    {
      assert Linked(r, s);
    }
    forall id | id in d.expenses && d.expenses[id].origin == FromAsset
      ensures exists r :: r in d.transactions && r.expenseId == Some(id)
    {
      var r :| r in s.transactions && r.expenseId == Some(id);
      assert r.tx.id != row.tx.id by {
        if r.tx.id == row.tx.id {
          IdTellsRows(s.transactions, r, row);
        }
      }
      assert r in d.transactions;
    }
    forall id | id in d.entries && d.entries[id].origin == FromAsset
      ensures exists r :: r in d.transactions && r.entryId == Some(id)
    {
      var r :| r in s.transactions && r.entryId == Some(id);
      assert r.tx.id != row.tx.id by {
        if r.tx.id == row.tx.id {
          IdTellsRows(s.transactions, r, row);
        }
      }
      assert r in d.transactions;
    }
  }

  lemma AttachLeavesNoOrphans(s: State, tx: Tx, link: int)
    requires NoOrphans(s)
    ensures NoOrphans(Attach(s, tx, link))
  {
    var a := Attach(s, tx, link);
    var row := a.transactions[|s.transactions|];
    forall id | id in a.expenses && a.expenses[id].origin == FromAsset
      ensures exists r :: r in a.transactions && r.expenseId == Some(id)
    {
      if id in s.expenses && s.expenses[id].origin == FromAsset {
        var r :| r in s.transactions && r.expenseId == Some(id);
        assert r in a.transactions;
      } else {
        assert row in a.transactions;
      }
    }
    forall id | id in a.entries && a.entries[id].origin == FromAsset
      ensures exists r :: r in a.transactions && r.entryId == Some(id)
    {
      if id in s.entries && s.entries[id].origin == FromAsset {
        var r :| r in s.transactions && r.entryId == Some(id);
        assert r in a.transactions;
      } else {
        assert row in a.transactions;
      }
    }
  }

  lemma AttachKeepsLinks(s: State, tx: Tx, link: int)
    requires forall r :: r in s.transactions ==> Linked(r, s)
    requires tx.kind == Buy ==> link !in s.expenses
    requires tx.kind == Sell ==> link !in s.entries
    ensures forall r :: r in Attach(s, tx, link).transactions ==> Linked(r, Attach(s, tx, link))
  {
    hide ToMoney;
    var a := Attach(s, tx, link);
    var row := a.transactions[|s.transactions|];
    forall r | r in a.transactions
      ensures Linked(r, a)
    {
      assert r in s.transactions || r == row;
      assert r in s.transactions ==> Linked(r, s);
    }
  }

  /** Attaching a new transaction under unused ids keeps the promise. */
  lemma AttachKeepsConsistency(s: State, tx: Tx, link: int)
    requires Consistent(s) && tx.id < s.nextId && link < s.nextId
    requires ParsedTx(tx)
    requires forall r :: r in s.transactions ==> r.tx.id != tx.id
    requires tx.kind == Buy ==> link !in s.expenses
    requires tx.kind == Sell ==> link !in s.entries
    ensures Consistent(Attach(s, tx, link))
  {
    hide NoOrphans, ToMoney;
    var a := Attach(s, tx, link);
    var row := a.transactions[|s.transactions|];
    assert forall r :: r in a.transactions <==> r in s.transactions || r == row;
    AttachKeepsLinks(s, tx, link);
    AttachLeavesNoOrphans(s, tx, link);
    hide Linked;
  }

  // ---- timelines of the two halves ----

  lemma {:induction false} TxsSnoc(rows: seq<AssetRow>, row: AssetRow)
    ensures TxsOf(rows + [row]) == TxsOf(rows) + [row.tx]
  {
    if rows == [] {
      assert rows + [row] == [row];
    } else {
      assert (rows + [row])[1..] == rows[1..] + [row];
      TxsSnoc(rows[1..], row);
    }
  }

  lemma OfAssetHead(input: seq<Tx>, asset: Asset)
    requires input != []
    ensures OfAsset(input, asset) == (if input[0].asset == asset then [input[0]] else []) + OfAsset(input[1..], asset)
  {
  }

  lemma Reassociate(a: seq<Tx>, b: seq<Tx>, c: seq<Tx>)
    ensures a + (b + c) == a + b + c
  {
  }

  lemma {:induction false} OfAssetSnoc(input: seq<Tx>, tx: Tx, asset: Asset)
    ensures OfAsset(input + [tx], asset) == OfAsset(input, asset) + (if tx.asset == asset then [tx] else [])
  {
    OfAssetHead(input + [tx], asset);
    if input == [] {
      assert input + [tx] == [tx];
    } else {
      OfAssetHead(input, asset);
      hide OfAsset;
      assert (input + [tx])[1..] == input[1..] + [tx];
      OfAssetSnoc(input[1..], tx, asset);
      Reassociate(if input[0].asset == asset then [input[0]] else [], OfAsset(input[1..], asset),
                  if tx.asset == asset then [tx] else []);
    }
  }

  lemma OfAssetAfterAppend(rows: seq<AssetRow>, row: AssetRow, asset: Asset)
    ensures OfAsset(TxsOf(rows + [row]), asset)
      == OfAsset(TxsOf(rows), asset) + (if row.tx.asset == asset then [row.tx] else [])
  {
    hide TxsOf, OfAsset;
    TxsSnoc(rows, row);
    OfAssetSnoc(TxsOf(rows), row.tx, asset);
  }

  /** Appending one transaction touches only its own asset's timeline. */
  lemma AppendKeepsTimelines(rows: seq<AssetRow>, row: AssetRow)
    requires forall asset: Asset :: asset != row.tx.asset ==> AssetValid(rows, asset)
    requires TimelineValid(SortTimeline(OfAsset(TxsOf(rows), row.tx.asset) + [row.tx]))
    ensures TimelinesValid(rows + [row])
  {
    hide TxsOf, OfAsset, SortTimeline, TimelineValid;
    forall asset: Asset
      ensures AssetValid(rows + [row], asset)
    {
      OfAssetAfterAppend(rows, row, asset);
      if asset != row.tx.asset {
        assert AssetValid(rows, asset);
        assert OfAsset(TxsOf(rows), asset) + [] == OfAsset(TxsOf(rows), asset);
      }
    }
  }

  lemma {:induction false} WithoutKeepsOtherAssets(rows: seq<AssetRow>, id: int, asset: Asset)
    requires forall r :: r in rows && r.tx.id == id ==> r.tx.asset != asset
    ensures OfAsset(TxsOf(Without(rows, id)), asset) == OfAsset(TxsOf(rows), asset)
  {
    if rows != [] {
      WithoutKeepsOtherAssets(rows[1..], id, asset);
      assert ([rows[0].tx] + TxsOf(rows[1..]))[1..] == TxsOf(rows[1..]);
      var rest := Without(rows[1..], id);
      assert ([rows[0]] + rest)[1..] == rest;
      assert ([rows[0].tx] + TxsOf(rest))[1..] == TxsOf(rest);
      assert rows[0] in rows;
      assert [] + rest == rest;
    }
  }

  lemma {:induction false} TxsMeaning(rows: seq<AssetRow>, asset: Asset)
    ensures forall t :: t in OfAsset(TxsOf(rows), asset) ==> exists r :: r in rows && r.tx == t
  {
    if rows != [] {
      TxsMeaning(rows[1..], asset);
      assert ([rows[0].tx] + TxsOf(rows[1..]))[1..] == TxsOf(rows[1..]);
      assert rows == [rows[0]] + rows[1..];
      assert rows[0] in rows;
    }
  }

  /** In a consistent ledger with valid timelines, the accounts hold exactly the timeline's balance. */
  lemma AccountsMatchTimeline(rows: seq<AssetRow>, asset: Asset)
    requires Positive(rows) && TimelinesValid(rows)
    ensures var a := AccountsOf(Timeline(rows, asset));
      && a.known + a.unknown == Balance(Timeline(rows, asset))
      && a.known >= 0 && a.unknown >= 0 && a.knownCost >= 0.0
  {
    var input := OfAsset(TxsOf(rows), asset);
    var timeline := Timeline(rows, asset);
    TxsMeaning(rows, asset);
    SortIsAPermutation(input);
    forall i | 0 <= i < |timeline|
      ensures ParsedTx(timeline[i])
    {
      assert timeline[i] in multiset(timeline);
      assert timeline[i] in input;
    }
    QuantityIsBalance(timeline);
    BucketsNeverNegative(timeline);
    CostNeverNegative(timeline);
  }

  // ---- the operations ----

  datatype Command =
    | Create(asset: Asset, input: AssetInput, createdAt: int, today: int)
    | Update(id: int, input: AssetInput, today: int)
    | Delete(id: int)
    | OtherService(expenses: map<int, LedgerRow>, entries: map<int, LedgerRow>, nextId: int)

  class AssetBook {
    var transactions: seq<AssetRow>
    var expenses: map<int, LedgerRow>
    var entries: map<int, LedgerRow>
    var nextId: int

    ghost function View(): State
      reads this
    {
      State(transactions, expenses, entries, nextId)
    }

    ghost predicate Valid()
      reads this
    {
      Consistent(View()) && TimelinesValid(transactions)
    }

    constructor ()
      ensures Valid() && transactions == [] && expenses == map[] && entries == map[]
    {
      transactions, expenses, entries, nextId := [], map[], map[], 0;
    }

    method CreateAssetTransaction(asset: Asset, input: AssetInput, createdAt: int, today: int)
      returns (result: Result<int, AssetError>)
      requires Valid()
      modifies this
      ensures Valid()
      ensures var parsed := ParseValues(asset, input, today);
        if parsed.Err? then result == Err(parsed.error) && View() == old(View())
        else
          var after := Created(old(View()), MakeTx(old(nextId) + 1, createdAt, asset, parsed.value));
          if AssetValid(after.transactions, asset) then result == Ok(old(nextId) + 1) && View() == after
          else result == Err(NegativePosition) && View() == old(View())
    {
      hide TimelineValid, SortTimeline, OfAsset, TxsOf, ToMoney;
      var parsed := ParseValues(asset, input, today);
      if parsed.Err? {
        return Err(parsed.error);
      }
      var saved := (transactions, expenses, entries, nextId);
      var link, id := nextId, nextId + 1;
      var tx := MakeTx(id, createdAt, asset, parsed.value);
      var expenseId: Option<int> := None;
      var entryId: Option<int> := None;
      ghost var start := View().(nextId := nextId + 2);
      ParsedInput(id, createdAt, asset, input, today);
      AttachKeepsConsistency(start, tx, link);
      nextId := nextId + 2;
      if tx.kind == Buy {
        expenses := expenses[link := LedgerRow(FromAsset, ToMoney(tx.cash), tx.date)];
        expenseId := Some(link);
      }
      if tx.kind == Sell {
        entries := entries[link := LedgerRow(FromAsset, ToMoney(tx.cash), tx.date)];
        entryId := Some(link);
      }
      var row := AssetRow(tx, expenseId, entryId);
      transactions := transactions + [row];
      assert View() == Attach(start, tx, link);
      OfAssetAfterAppend(saved.0, row, asset);
      assert AssetValid(transactions, asset) <==> TimelineValid(SortTimeline(OfAsset(TxsOf(transactions), asset)));
      var valid := IsAssetTimelineValid(OfAsset(TxsOf(transactions), asset));
      if !valid {
        transactions, expenses, entries, nextId := saved.0, saved.1, saved.2, saved.3;
        return Err(NegativePosition);
      }
      AppendKeepsTimelines(saved.0, row);
      return Ok(id);
    }

    /** Drops the ledger row of the old kind and writes the one of the new kind, reusing it when the kind stays. */
    method SyncLedgerRow(target: AssetRow, tx: Tx) returns (expenseId: Option<int>, entryId: Option<int>)
      requires Linked(target, View()) && FreshFrom(View())
      modifies `expenses, `entries
      ensures var link := Reused(target, tx.kind, nextId);
        var ledgerRow := LedgerRow(FromAsset, ToMoney(tx.cash), tx.date);
        && expenses == (var kept := RemoveKey(old(expenses), target.expenseId);
                        if tx.kind == Buy then kept[link := ledgerRow] else kept)
        && entries == (var kept := RemoveKey(old(entries), target.entryId);
                       if tx.kind == Sell then kept[link := ledgerRow] else kept)
        && expenseId == (if tx.kind == Buy then Some(link) else None)
        && entryId == (if tx.kind == Sell then Some(link) else None)
    {
      hide ToMoney;
      expenseId, entryId := target.expenseId, target.entryId;
      var ledgerRow := LedgerRow(FromAsset, ToMoney(tx.cash), tx.date);
      if tx.kind == Buy {
        if entryId.Some? {
          entries := entries - {entryId.value};
          entryId := None;
        }
        if expenseId.Some? {
          expenses := expenses[expenseId.value := ledgerRow];
        } else {
          expenses := expenses[nextId := ledgerRow];
          expenseId := Some(nextId);
        }
      } else if tx.kind == Sell {
        if expenseId.Some? {
          expenses := expenses - {expenseId.value};
          expenseId := None;
        }
        if entryId.Some? {
          entries := entries[entryId.value := ledgerRow];
        } else {
          entries := entries[nextId := ledgerRow];
          entryId := Some(nextId);
        }
      } else {
        if expenseId.Some? {
          expenses := expenses - {expenseId.value};
          expenseId := None;
        }
        if entryId.Some? {
          entries := entries - {entryId.value};
          entryId := None;
        }
      }
    }

    method UpdateAssetTransaction(id: int, input: AssetInput, today: int) returns (result: Result<(), AssetError>)
      requires Valid()
      modifies this
      ensures Valid()
      ensures match Find(old(transactions), id)
        case None => result == Err(NotFound) && View() == old(View())
        case Some(target) =>
          var parsed := ParseValues(target.tx.asset, input, today);
          if parsed.Err? then result == Err(parsed.error) && View() == old(View())
          else
            var after := Replace(old(View()), target,
                                 MakeTx(id, target.tx.createdAt, target.tx.asset, parsed.value));
            if AssetValid(after.transactions, target.tx.asset) then result == Ok(()) && View() == after
            else result == Err(NegativePosition) && View() == old(View())
    {
      hide Consistent, AssetValid, TimelinesValid, TimelineValid, SortTimeline, OfAsset, TxsOf, ToMoney, DistinctIds,
        OneOwner;
      var found := Find(transactions, id);
      if found.None? {
        return Err(NotFound);
      }
      var target := found.value;
      var parsed := ParseValues(target.tx.asset, input, today);
      if parsed.Err? {
        return Err(parsed.error);
      }
      var remaining := Without(transactions, id);
      var tx := MakeTx(id, target.tx.createdAt, target.tx.asset, parsed.value);
      ReplacedTimeline(View(), target, tx);
      ParsedInput(id, target.tx.createdAt, target.tx.asset, input, today);
      var valid := IsAssetTimelineValid(OfAsset(TxsOf(remaining), tx.asset) + [tx]);
      if !valid {
        return Err(NegativePosition);
      }
      ConsistentParts(View(), target);
      ReplaceKeepsConsistency(View(), target, tx);
      RemovalKeepsOtherTimelines(transactions, target);
      var expenseId, entryId := SyncLedgerRow(target, tx);
      nextId := nextId + 1;
      transactions := remaining + [AssetRow(tx, expenseId, entryId)];
      AppendKeepsTimelines(remaining, AssetRow(tx, expenseId, entryId));
      return Ok(());
    }

    method DeleteAssetTransaction(id: int) returns (result: Result<(), AssetError>)
      requires Valid()
      modifies this
      ensures Valid()
      ensures match Find(old(transactions), id)
        case None => result == Err(NotFound) && View() == old(View())
        case Some(target) =>
          var after := Detach(old(View()), target);
          if AssetValid(after.transactions, target.tx.asset) then result == Ok(()) && View() == after
          else result == Err(NegativePosition) && View() == old(View())
    {
      hide TimelineValid, SortTimeline, OfAsset, TxsOf, ToMoney;
      var found := Find(transactions, id);
      if found.None? {
        return Err(NotFound);
      }
      var target := found.value;
      var remaining := Without(transactions, id);
      var valid := IsAssetTimelineValid(OfAsset(TxsOf(remaining), target.tx.asset));
      if !valid {
        return Err(NegativePosition);
      }
      DetachKeepsConsistency(View(), target);
      RemovalKeepsOtherTimelines(transactions, target);
      transactions := remaining;
      if target.expenseId.Some? {
        expenses := expenses - {target.expenseId.value};
      }
      if target.entryId.Some? {
        entries := entries - {target.entryId.value};
      }
      return Ok(());
    }

    /** Rows that asset transactions own stay as they are; new ids come from the same counter. */
    predicate MayWrite(newExpenses: map<int, LedgerRow>, newEntries: map<int, LedgerRow>, next: int)
      reads this
    {
      && SameAssetRows(expenses, newExpenses) && SameAssetRows(entries, newEntries) && next >= nextId
      && (forall k :: k in newExpenses ==> k < next) && (forall k :: k in newEntries ==> k < next)
    }

    /** Any other service of the same user: it may do anything to rows that no asset owns. */
    method OtherWriter(newExpenses: map<int, LedgerRow>, newEntries: map<int, LedgerRow>, next: int)
      requires Valid()
      requires MayWrite(newExpenses, newEntries, next)
      modifies this
      ensures Valid()
      ensures View() == State(old(transactions), newExpenses, newEntries, next)
    {
      OtherRowsKeepLinks(View(), newExpenses, newEntries, next);
      expenses, entries, nextId := newExpenses, newEntries, next;
    }

    /**
     * Any mix of requests, each on its own day, and of other services' writes leaves a valid book whose ledger rows
     * carry the cash of their transactions and whose accounts match both timelines.
     */
    method Run(commands: seq<Command>)
      requires Valid()
      modifies this
      ensures Valid()
      ensures forall r :: r in transactions ==> CarriesCash(r, View())
      ensures forall asset: Asset ::
        var a := AccountsOf(Timeline(transactions, asset));
        a.known + a.unknown == Balance(Timeline(transactions, asset)) && a.knownCost >= 0.0
    {
      for i := 0 to |commands|
        invariant Valid()
      {
        match commands[i]
        case Create(asset, input, createdAt, today) =>
          var _ := CreateAssetTransaction(asset, input, createdAt, today);
        case Update(id, input, today) =>
          var _ := UpdateAssetTransaction(id, input, today);
        case Delete(id) =>
          var _ := DeleteAssetTransaction(id);
        case OtherService(newExpenses, newEntries, next) =>
          if MayWrite(newExpenses, newEntries, next) {
            OtherWriter(newExpenses, newEntries, next);
          }
      }
      AmountsEqualCash(View());
      forall asset: Asset {
        AccountsMatchTimeline(transactions, asset);
      }
    }
  }

  predicate SameAssetRows(before: map<int, LedgerRow>, after: map<int, LedgerRow>) {
    && (forall k :: k in before && before[k].origin == FromAsset ==> k in after && after[k] == before[k])
    && (forall k :: k in after && after[k].origin == FromAsset ==> k in before && before[k] == after[k])
  }

  /** An update keeps the ledger row it already owns, or takes an unused id. */
  function Reused(target: AssetRow, kind: Kind, unused: int): int {
    match kind
    case Buy => target.expenseId.GetOr(unused)
    case Sell => target.entryId.GetOr(unused)
    case Adjustment => unused
  }

  /** What a creation stores: the id below the transaction's own names its ledger row. */
  function Created(s: State, tx: Tx): State {
    Attach(s.(nextId := s.nextId + 2), tx, s.nextId)
  }

  /** What an update stores: the old version detached, the new one attached. */
  function Replace(s: State, target: AssetRow, tx: Tx): State {
    Attach(Detach(s.(nextId := s.nextId + 1), target), tx, Reused(target, tx.kind, s.nextId))
  }

  lemma ReplacedTimeline(s: State, target: AssetRow, tx: Tx)
    ensures AssetValid(Replace(s, target, tx).transactions, tx.asset)
      <==> TimelineValid(SortTimeline(OfAsset(TxsOf(Without(s.transactions, target.tx.id)), tx.asset) + [tx]))
  {
    hide TimelineValid, SortTimeline, OfAsset, TxsOf, ToMoney;
    var remaining := Without(s.transactions, target.tx.id);
    var after := Replace(s, target, tx).transactions;
    assert after == remaining + [after[|remaining|]];
    OfAssetAfterAppend(remaining, after[|remaining|], tx.asset);
  }

  lemma ConsistentParts(s: State, row: AssetRow)
    requires Consistent(s) && row in s.transactions
    ensures DistinctIds(s.transactions) && Linked(row, s) && FreshFrom(s)
  {
  }

  lemma MoreIdsKeepConsistency(s: State)
    requires Consistent(s)
    ensures Consistent(s.(nextId := s.nextId + 1))
  {
    hide ToMoney;
    var t := s.(nextId := s.nextId + 1);
    assert forall r :: r in s.transactions ==> (Linked(r, t) <==> Linked(r, s));
  }

  lemma ReplaceKeepsConsistency(s: State, target: AssetRow, tx: Tx)
    requires Consistent(s) && target in s.transactions && tx.id == target.tx.id
    requires ParsedTx(tx)
    ensures Consistent(Replace(s, target, tx))
  {
    hide Attach, ToMoney;
    var t := s.(nextId := s.nextId + 1);
    MoreIdsKeepConsistency(s);
    assert Linked(target, s);
    DetachKeepsConsistency(t, target);
    hide NoOrphans, OneOwner;
    AttachKeepsConsistency(Detach(t, target), tx, Reused(target, tx.kind, s.nextId));
  }

  lemma RemovalKeepsOtherTimelines(rows: seq<AssetRow>, target: AssetRow)
    requires DistinctIds(rows) && target in rows && TimelinesValid(rows)
    ensures forall asset: Asset :: asset != target.tx.asset ==> AssetValid(Without(rows, target.tx.id), asset)
  {
    hide SortTimeline, TimelineValid;
    forall asset: Asset | asset != target.tx.asset
      ensures AssetValid(Without(rows, target.tx.id), asset)
    {
      assert asset == BTC || asset == USD;
      forall r | r in rows && r.tx.id == target.tx.id
        ensures r.tx.asset != asset
      {
        IdTellsRows(rows, r, target);
      }
      WithoutKeepsOtherAssets(rows, target.tx.id, asset);
      assert AssetValid(rows, asset);
    }
  }

  lemma OwnedRowStays(id: Option<int>, wanted: bool, table: map<int, LedgerRow>, after: map<int, LedgerRow>, tx: Tx)
    requires OwnedRow(id, wanted, table, tx) && SameAssetRows(table, after)
    ensures OwnedRow(id, wanted, after, tx)
  {
    if wanted {
      var k := id.value;
      assert k in table && table[k].origin == FromAsset;
      assert k in after;
      assert after[k] == table[k];
    }
  }

  /** What other services do to their own rows leaves every asset transaction linked. */
  lemma OtherRowsKeepLinks(s: State, newExpenses: map<int, LedgerRow>, newEntries: map<int, LedgerRow>, next: int)
    requires Consistent(s) && next >= s.nextId
    requires SameAssetRows(s.expenses, newExpenses) && SameAssetRows(s.entries, newEntries)
    requires forall k :: k in newExpenses || k in newEntries ==> k < next
    ensures Consistent(s.(expenses := newExpenses, entries := newEntries, nextId := next))
  {
    var t := s.(expenses := newExpenses, entries := newEntries, nextId := next);
    forall r | r in t.transactions
      ensures Linked(r, t)
    {
      assert Linked(r, s);
      OwnedRowStays(r.expenseId, r.tx.kind == Buy, s.expenses, newExpenses, r.tx);
      OwnedRowStays(r.entryId, r.tx.kind == Sell, s.entries, newEntries, r.tx);
    }
    forall id | id in t.expenses && t.expenses[id].origin == FromAsset
      ensures exists r :: r in t.transactions && r.expenseId == Some(id)
    {
      assert id in s.expenses && s.expenses[id].origin == FromAsset;
    }
    forall id | id in t.entries && t.entries[id].origin == FromAsset
      ensures exists r :: r in t.transactions && r.entryId == Some(id)
    {
      assert id in s.entries && s.entries[id].origin == FromAsset;
    }
  }
}
