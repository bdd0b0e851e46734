/** Keyset pages of the financial history under a snapshot, and the client that collects them. */
module FinancialHistory {
  import opened Wrappers

  /** A history row, identified by its creation instant and, among equals, by its id. */
  datatype Row = Row(createdAt: int, id: int)

  predicate Newer(a: Row, b: Row) {
    a.createdAt > b.createdAt || (a.createdAt == b.createdAt && a.id > b.id)
  }

  predicate Descending(rows: seq<Row>) {
    forall i, j :: 0 <= i < j < |rows| ==> Newer(rows[i], rows[j])
  }

  /** Where the next page starts; `End` is the literal cursor of a finished ledger. */
  datatype Cursor = Start | After(row: Row) | End

  const MAX_PAGE_SIZE: nat := 200
  const MAX_PAGES: nat := 1000
  const CLOCK_TOLERANCE: int := 60000

  /** The visible rows of both ledgers, newest first: manual, and not voided for expenses. */
  datatype Ledgers = Ledgers(expenses: seq<Row>, incomes: seq<Row>)

  datatype Request = Request(limit: Option<int>, snapshot: Option<int>, expenseCursor: Cursor, incomeCursor: Cursor)

  datatype Page = Page(snapshot: int, expenses: seq<Row>, incomes: seq<Row>,
                       nextExpense: Option<Row>, nextIncome: Option<Row>)

  datatype PageError = BadLimit | BadSnapshot | BadCursor

  predicate Wanted(row: Row, cutoff: int, cursor: Cursor) {
    row.createdAt <= cutoff && match cursor
      case Start => true
      case After(last) => Newer(last, row)
      case End => false
  }

  /** Rows below the cutoff and strictly after the cursor, newest first. */
  function Matching(rows: seq<Row>, cutoff: int, cursor: Cursor): seq<Row> {
    if rows == [] then []
    else (if Wanted(rows[0], cutoff, cursor) then [rows[0]] else []) + Matching(rows[1..], cutoff, cursor)
  }

  function Take(rows: seq<Row>, n: nat): seq<Row> {
    if |rows| <= n then rows else rows[..n]
  }

  function NextCursor(found: seq<Row>, limit: nat): Option<Row>
    requires limit > 0
  {
    if |found| > limit then Some(found[limit - 1]) else None
  }

  predicate CursorBeyond(cursor: Cursor, cutoff: int) {
    cursor.After? && cursor.row.createdAt > cutoff
  }

  function ListPage(ledgers: Ledgers, now: int, request: Request): Result<Page, PageError> {
    var limit := request.limit.GetOr(MAX_PAGE_SIZE);
    var cutoff := request.snapshot.GetOr(now);
    if limit < 1 || limit > MAX_PAGE_SIZE then Err(BadLimit)
    else if cutoff > now + CLOCK_TOLERANCE || cutoff < 0
            || (!(request.expenseCursor.Start? && request.incomeCursor.Start?) && request.snapshot.None?)
    then Err(BadSnapshot)
    else if CursorBeyond(request.expenseCursor, cutoff) || CursorBeyond(request.incomeCursor, cutoff)
    then Err(BadCursor)
    else
      var expenses := Take(Matching(ledgers.expenses, cutoff, request.expenseCursor), limit + 1);
      var incomes := Take(Matching(ledgers.incomes, cutoff, request.incomeCursor), limit + 1);
      Ok(Page(cutoff, Take(expenses, limit), Take(incomes, limit),
        NextCursor(expenses, limit), NextCursor(incomes, limit)))
  }

  // ---- the walk of one ledger, while other writers work ----

  /**
   * What other writers may do to one ledger between requests: insert rows created after the
   * cutoff, and remove rows. Creation instants and ids never change.
   */
  ghost predicate OnlyNewOrRemoved(table: nat -> seq<Row>, cutoff: int) {
    && (forall n: nat :: Descending(table(n)))
    && (forall m: nat, n: nat, r: Row :: m <= n && r in table(n) && r.createdAt <= cutoff ==> r in table(m))
  }

  ghost predicate Survives(table: nat -> seq<Row>, cutoff: int, pages: nat, r: Row) {
    r.createdAt <= cutoff && forall n: nat :: n < pages ==> r in table(n)
  }

  ghost predicate Passed(cursor: Cursor, r: Row) {
    match cursor
    case Start => false
    case After(last) => r == last || Newer(r, last)
    case End => true
  }

  /** After some pages: no row twice, only snapshot rows, and every survivor the cursor has passed. */
  ghost predicate Walked(table: nat -> seq<Row>, cutoff: int, pages: nat, cursor: Cursor, collected: seq<Row>) {
    && Descending(collected)
    && (forall r :: r in collected ==> r in table(0) && r.createdAt <= cutoff && Passed(cursor, r))
    && (cursor.Start? ==> pages == 0 && collected == [])
    && (cursor.After? ==> |collected| == MAX_PAGE_SIZE * pages && cursor.row.createdAt <= cutoff)
    && (forall r :: Survives(table, cutoff, pages, r) && Passed(cursor, r) ==> r in collected)
  }

  lemma {:induction false} MatchingMeaning(rows: seq<Row>, cutoff: int, cursor: Cursor)
    requires Descending(rows)
    ensures Descending(Matching(rows, cutoff, cursor))
    ensures forall r :: r in Matching(rows, cutoff, cursor) <==> r in rows && Wanted(r, cutoff, cursor)
  {
    if rows != [] {
      MatchingMeaning(rows[1..], cutoff, cursor);
      var rest := Matching(rows[1..], cutoff, cursor);
      forall i | 0 <= i < |rest|
        ensures Newer(rows[0], rest[i])
      {
        assert rest[i] in rest;
        var k :| 0 <= k < |rows[1..]| && rows[1..][k] == rest[i];
        assert rows[k + 1] == rest[i];
      }
      assert rows == [rows[0]] + rows[1..];
    }
  }

  function CursorOf(next: Option<Row>): Cursor {
    if next.Some? then After(next.value) else End
  }

  /** One more page keeps the walk's promise. */
  lemma WalkStep(table: nat -> seq<Row>, cutoff: int, pages: nat, cursor: Cursor, collected: seq<Row>)
    requires OnlyNewOrRemoved(table, cutoff) && Walked(table, cutoff, pages, cursor, collected)
    ensures var found := Take(Matching(table(pages), cutoff, cursor), MAX_PAGE_SIZE + 1);
      var page := Take(found, MAX_PAGE_SIZE);
      var next := NextCursor(found, MAX_PAGE_SIZE);
      && Walked(table, cutoff, pages + 1, CursorOf(next), collected + page)
      && (next.Some? ==> page != [])
  {
    hide Matching, Take, NextCursor, Descending, Passed, Survives, IsStep, Walked;
    var matching := Matching(table(pages), cutoff, cursor);
    var found := Take(matching, MAX_PAGE_SIZE + 1);
    FoundIsStep(table, cutoff, pages, cursor);
    StepWalks(table, cutoff, pages, cursor, collected, matching,
      Take(found, MAX_PAGE_SIZE), CursorOf(NextCursor(found, MAX_PAGE_SIZE)));
  }

  lemma FoundIsStep(table: nat -> seq<Row>, cutoff: int, pages: nat, cursor: Cursor)
    requires OnlyNewOrRemoved(table, cutoff)
    ensures var matching := Matching(table(pages), cutoff, cursor);
      var found := Take(matching, MAX_PAGE_SIZE + 1);
      var next := CursorOf(NextCursor(found, MAX_PAGE_SIZE));
      IsStep(table, cutoff, pages, cursor, matching, Take(found, MAX_PAGE_SIZE), next)
  {
    var matching := Matching(table(pages), cutoff, cursor);
    TablesDescend(table, cutoff, pages);
    MatchingMeaning(table(pages), cutoff, cursor);
    assert Take(Take(matching, MAX_PAGE_SIZE + 1), MAX_PAGE_SIZE) == Take(matching, MAX_PAGE_SIZE);
  }

  lemma StepWalks(table: nat -> seq<Row>, cutoff: int, pages: nat, cursor: Cursor, collected: seq<Row>,
                  matching: seq<Row>, page: seq<Row>, next: Cursor)
    requires OnlyNewOrRemoved(table, cutoff) && Walked(table, cutoff, pages, cursor, collected)
    requires IsStep(table, cutoff, pages, cursor, matching, page, next)
    ensures Walked(table, cutoff, pages + 1, next, collected + page)
    ensures next.After? ==> page != []
  {
    hide OnlyNewOrRemoved, Descending, Passed, Survives, Wanted;
    StepIsSound(table, cutoff, pages, cursor, collected, matching, page, next);
    StepIsComplete(table, cutoff, pages, cursor, collected, matching, page, next);
    hide IsStep;
  }

  ghost predicate IsStep(table: nat -> seq<Row>, cutoff: int, pages: nat, cursor: Cursor,
                         matching: seq<Row>, page: seq<Row>, next: Cursor)
  {
    && Descending(matching)
    && (forall r :: r in matching <==> r in table(pages) && Wanted(r, cutoff, cursor))
    && page == Take(matching, MAX_PAGE_SIZE)
    && next == if |matching| > MAX_PAGE_SIZE then After(matching[MAX_PAGE_SIZE - 1]) else End
  }

  lemma StepIsSound(table: nat -> seq<Row>, cutoff: int, pages: nat, cursor: Cursor, collected: seq<Row>,
                    matching: seq<Row>, page: seq<Row>, next: Cursor)
    requires OnlyNewOrRemoved(table, cutoff) && Walked(table, cutoff, pages, cursor, collected)
    requires IsStep(table, cutoff, pages, cursor, matching, page, next)
    ensures Descending(collected + page)
    ensures forall r :: r in collected + page ==> r in table(0) && r.createdAt <= cutoff && Passed(next, r)
    ensures next.After? ==> |collected + page| == MAX_PAGE_SIZE * (pages + 1) && next.row.createdAt <= cutoff
    ensures !next.Start? && (next.After? ==> page != [])
  {
    forall i, j | 0 <= i < |collected| && 0 <= j < |page|
      ensures Newer(collected[i], page[j])
    {
      assert collected[i] in collected && page[j] in matching;
    }
    forall r | r in collected + page
      ensures r in table(0) && r.createdAt <= cutoff && Passed(next, r)
    {
      if r in page {
        var j :| 0 <= j < |page| && page[j] == r;
        assert matching[j] in matching;
      } else if next.After? {
        assert matching[MAX_PAGE_SIZE - 1] in matching;
      }
    }
    if next.After? {
      assert matching[MAX_PAGE_SIZE - 1] in matching;
      assert !cursor.End?;
    }
  }

  lemma StepIsComplete(table: nat -> seq<Row>, cutoff: int, pages: nat, cursor: Cursor, collected: seq<Row>,
                       matching: seq<Row>, page: seq<Row>, next: Cursor)
    requires Walked(table, cutoff, pages, cursor, collected)
    requires IsStep(table, cutoff, pages, cursor, matching, page, next)
    ensures forall r :: Survives(table, cutoff, pages + 1, r) && Passed(next, r) ==> r in collected + page
  {
    forall r | Survives(table, cutoff, pages + 1, r) && Passed(next, r)
      ensures r in collected + page
    {
      assert Survives(table, cutoff, pages, r);
      if Passed(cursor, r) {
        assert r in collected;
      } else {
        assert r in table(pages) && Wanted(r, cutoff, cursor);
        var k :| 0 <= k < |matching| && matching[k] == r;
        if next.After? {
          assert k < MAX_PAGE_SIZE;
        }
        assert page[k] == r;
      }
    }
  }

  // ---- the client ----

  datatype Collected = Collected(expenses: seq<Row>, incomes: seq<Row>)

  datatype ClientError = ServerError(error: PageError) | InvalidPage | DidNotAdvance | CursorRepeated | TooManyPages

  /** The server as the client meets it: the ledgers and the clock at each request. */
  datatype Environment = Environment(ledgers: nat -> Ledgers, now: nat -> int) {
    ghost function Expenses(): nat -> seq<Row> {
      (n: nat) => ledgers(n).expenses
    }

    ghost function Incomes(): nat -> seq<Row> {
      (n: nat) => ledgers(n).incomes
    }

    /** The first request fixes the snapshot; the clock does not run backwards. */
    ghost predicate Fair() {
      && now(0) >= 0
      && (forall n: nat :: now(n) >= now(0))
      && OnlyNewOrRemoved(Expenses(), now(0)) && OnlyNewOrRemoved(Incomes(), now(0))
    }
  }

  /** A finished collection of one ledger. */
  ghost predicate Complete(table: nat -> seq<Row>, cutoff: int, pages: nat, collected: seq<Row>) {
    && Descending(collected)
    && (forall r :: r in collected ==> r in table(0) && r.createdAt <= cutoff)
    && (forall r :: Survives(table, cutoff, pages, r) ==> r in collected)
  }

  predicate Advanced(from: Cursor, to: Cursor) {
    match from
    case Start => !to.Start?
    case After(row) => to.End? || (to.After? && Newer(row, to.row))
    case End => false
  }

  predicate Progress(from: Cursor, to: Cursor) {
    Advanced(from, to) || (from.End? && to.End?)
  }

  /**
   * Each next cursor lies strictly further on, or the ledger was already at its end; a next cursor comes only with
   * rows and names the last of them.
   */
  lemma CursorAdvances(rows: seq<Row>, cutoff: int, cursor: Cursor)
    requires Descending(rows)
    ensures var found := Take(Matching(rows, cutoff, cursor), MAX_PAGE_SIZE + 1);
      var next := CursorOf(NextCursor(found, MAX_PAGE_SIZE));
      && Progress(cursor, next)
      && (NextCursor(found, MAX_PAGE_SIZE).Some? ==>
            var page := Take(found, MAX_PAGE_SIZE);
            |page| == MAX_PAGE_SIZE && next == After(page[|page| - 1]))
  {
    var matching := Matching(rows, cutoff, cursor);
    MatchingMeaning(rows, cutoff, cursor);
    if |matching| > MAX_PAGE_SIZE {
      assert matching[MAX_PAGE_SIZE - 1] in matching;
    }
  }

  /** A row still to come: created by the cutoff and older than the cursor, by id among equals. */
  predicate StillToCome(row: Row, cutoff: int, cursor: Cursor) {
    && !cursor.End? && row.createdAt <= cutoff
    && (cursor.After? ==>
          || row.createdAt < cursor.row.createdAt
          || (row.createdAt == cursor.row.createdAt && row.id < cursor.row.id))
  }

  /** The newest rows still to come, at most `limit`; a next cursor exactly when some are left out, naming the last. */
  ghost predicate NewestToCome(rows: seq<Row>, cutoff: int, cursor: Cursor, limit: int, page: seq<Row>,
                               next: Option<Row>)
  {
    && Descending(page) && |page| <= limit
    && (forall r :: r in page ==> r in rows && StillToCome(r, cutoff, cursor))
    && (forall r :: r in rows && StillToCome(r, cutoff, cursor) && r !in page ==>
          next.Some? && StillToCome(r, cutoff, After(next.value)))
    && (next.Some? ==>
          && |page| == limit > 0 && next.value == page[limit - 1]
          && exists r :: r in rows && StillToCome(r, cutoff, cursor) && r !in page)
  }

  lemma NewestAreTaken(rows: seq<Row>, cutoff: int, cursor: Cursor, limit: nat)
    requires Descending(rows) && limit > 0
    ensures var found := Take(Matching(rows, cutoff, cursor), limit + 1);
      NewestToCome(rows, cutoff, cursor, limit, Take(found, limit), NextCursor(found, limit))
  {
    var matching := Matching(rows, cutoff, cursor);
    MatchingMeaning(rows, cutoff, cursor);
    assert forall r :: Wanted(r, cutoff, cursor) <==> StillToCome(r, cutoff, cursor);
    FrontIsNewest(rows, cutoff, cursor, matching, limit);
    hide Matching, Wanted, StillToCome, NewestToCome, Descending;
    assert Take(Take(matching, limit + 1), limit) == Take(matching, limit);
  }

  lemma FrontIsNewest(rows: seq<Row>, cutoff: int, cursor: Cursor, matching: seq<Row>, limit: nat)
    requires Descending(matching) && limit > 0
    requires forall r :: r in matching <==> r in rows && StillToCome(r, cutoff, cursor)
    ensures var next := if |matching| > limit then Some(matching[limit - 1]) else None;
      NewestToCome(rows, cutoff, cursor, limit, Take(matching, limit), next)
  {
    var page := Take(matching, limit);
    var n := |page|;
    assert page == matching[..n] && matching == page + matching[n..];
    forall r | r in matching && r !in page
      ensures n < |matching| && StillToCome(r, cutoff, After(matching[n - 1]))
    {
      var k :| 0 <= k < |matching| && matching[k] == r;
      assert Newer(matching[n - 1], matching[k]);
    }
    if n < |matching| {
      assert matching[n] in matching && matching[n] !in page;
    }
    hide StillToCome, Take;
  }

  /**
   * A request is answered exactly with one to 200 rows a page, a snapshot that is neither negative nor more than a
   * minute ahead, given whenever a cursor is, and cursors that do not lie beyond it. Each ledger then yields its
   * newest rows still to come.
   */
  lemma PageIsExact(ledgers: Ledgers, now: int, request: Request)
    requires Descending(ledgers.expenses) && Descending(ledgers.incomes)
    ensures var r, limit := ListPage(ledgers, now, request), request.limit.GetOr(200);
      var cutoff, expense, income := request.snapshot.GetOr(now), request.expenseCursor, request.incomeCursor;
      && (r.Ok? <==>
            && 1 <= limit <= 200 && 0 <= cutoff <= now + 60000
            && (request.snapshot.Some? || (expense == Start && income == Start))
            && (expense.After? ==> expense.row.createdAt <= cutoff)
            && (income.After? ==> income.row.createdAt <= cutoff))
      && (r.Ok? ==>
            && r.value.snapshot == cutoff
            && NewestToCome(ledgers.expenses, cutoff, expense, limit, r.value.expenses, r.value.nextExpense)
            && NewestToCome(ledgers.incomes, cutoff, income, limit, r.value.incomes, r.value.nextIncome))
  {
    hide Take, Matching, NextCursor, NewestToCome, Descending;
    var limit, cutoff := request.limit.GetOr(200), request.snapshot.GetOr(now);
    if limit >= 1 {
      NewestAreTaken(ledgers.expenses, cutoff, request.expenseCursor, limit);
      NewestAreTaken(ledgers.incomes, cutoff, request.incomeCursor, limit);
    }
  }

  /** With the snapshot of the first answer, no request of this client is refused. */
  lemma RequestsAreAccepted(ledgers: Ledgers, now: int, cutoff: int, snapshot: Option<int>,
                            expenseCursor: Cursor, incomeCursor: Cursor)
    requires 0 <= cutoff <= now
    requires snapshot == Some(cutoff)
      || (snapshot == None && now == cutoff && expenseCursor.Start? && incomeCursor.Start?)
    requires !CursorBeyond(expenseCursor, cutoff) && !CursorBeyond(incomeCursor, cutoff)
    ensures var expenses := Take(Matching(ledgers.expenses, cutoff, expenseCursor), MAX_PAGE_SIZE + 1);
      var incomes := Take(Matching(ledgers.incomes, cutoff, incomeCursor), MAX_PAGE_SIZE + 1);
      ListPage(ledgers, now, Request(Some(MAX_PAGE_SIZE), snapshot, expenseCursor, incomeCursor))
        == Ok(Page(cutoff, Take(expenses, MAX_PAGE_SIZE), Take(incomes, MAX_PAGE_SIZE),
                   NextCursor(expenses, MAX_PAGE_SIZE), NextCursor(incomes, MAX_PAGE_SIZE)))
  {
  }

  /** Every recorded position is the current one or lies before it in both ledgers. */
  ghost predicate Behind(seen: set<(Cursor, Cursor)>, expense: Cursor, income: Cursor) {
    forall m :: m in seen ==>
      (m.0 == expense || Advanced(m.0, expense)) && (m.1 == income || Advanced(m.1, income))
  }

  /** When at least one cursor moves on, the new position was never recorded before. */
  lemma PositionIsNew(seen: set<(Cursor, Cursor)>, expense: Cursor, income: Cursor, expense': Cursor, income': Cursor)
    requires Behind(seen, expense, income)
    requires Progress(expense, expense') && Progress(income, income')
    requires !(expense'.End? && income'.End?)
    ensures (expense', income') !in seen
    ensures Behind(seen + {(expense', income')}, expense', income')
  {
  }

  /** A descending selection from a descending table is no longer than the table. */
  lemma {:induction false} SelectionIsNoLonger(selection: seq<Row>, rows: seq<Row>)
    requires Descending(selection) && Descending(rows)
    requires forall r :: r in selection ==> r in rows
    ensures |selection| <= |rows|
  {
    if selection != [] {
      var front, last := selection[..|selection| - 1], selection[|selection| - 1];
      assert last in selection;
      var k :| 0 <= k < |rows| && rows[k] == last;
      forall r | r in front
        ensures r in rows[..k]
      {
        var i :| 0 <= i < |front| && front[i] == r;
        assert selection[i] == r && Newer(r, last);
        assert r in selection;
        var j :| 0 <= j < |rows| && rows[j] == r;
        assert j < k;
        assert rows[..k][j] == r;
      }
      SelectionIsNoLonger(front, rows[..k]);
    }
  }

  method CollectPages(env: Environment) returns (result: Result<Collected, ClientError>, ghost pages: nat)
    requires env.Fair()
    ensures result.Ok? ==>
      && Complete(env.Expenses(), env.now(0), pages, result.value.expenses)
      && Complete(env.Incomes(), env.now(0), pages, result.value.incomes)
    ensures result.Err? ==>
      && result.error == TooManyPages
      && (|env.ledgers(0).expenses| >= MAX_PAGE_SIZE * MAX_PAGES
          || |env.ledgers(0).incomes| >= MAX_PAGE_SIZE * MAX_PAGES)
  {
    var expenses: seq<Row> := [];
    var incomes: seq<Row> := [];
    var snapshot: Option<int> := None;
    var expenseCursor, incomeCursor := Start, Start;
    var seenPositions: set<(Cursor, Cursor)> := {};
    ghost var cutoff := env.now(0);
    pages := 0;
    hide ListPage, Walked, Complete, Behind, Progress, OnlyNewOrRemoved;
    WalkStarts(env.Expenses(), cutoff);
    WalkStarts(env.Incomes(), cutoff);
    NothingBehind();
    for i := 0 to MAX_PAGES
      invariant pages == i
      invariant snapshot == if i == 0 then None else Some(cutoff)
      invariant i == 0 ==> expenseCursor.Start? && incomeCursor.Start?
      invariant Walked(env.Expenses(), cutoff, i, expenseCursor, expenses)
      invariant Walked(env.Incomes(), cutoff, i, incomeCursor, incomes)
      invariant !(expenseCursor.End? && incomeCursor.End?)
      invariant Behind(seenPositions, expenseCursor, incomeCursor)
    {
      OneRequest(env, i, snapshot, expenseCursor, incomeCursor, expenses, incomes);
      var request := Request(Some(MAX_PAGE_SIZE), snapshot, expenseCursor, incomeCursor);
      var answer := ListPage(env.ledgers(i), env.now(i), request);
      var data: Page;
      match answer {
        case Err(error) =>
          result := Err(ServerError(error));
          return;
        case Ok(page) => data := page;
      }
      if snapshot.Some? && data.snapshot != snapshot.value {
        result := Err(InvalidPage);
        return;
      }
      snapshot := Some(data.snapshot);
      expenses := expenses + data.expenses;
      incomes := incomes + data.incomes;
      pages := i + 1;
      if data.nextExpense.None? && data.nextIncome.None? {
        WalkedToTheEnd(env.Expenses(), cutoff, pages, expenses);
        WalkedToTheEnd(env.Incomes(), cutoff, pages, incomes);
        return Ok(Collected(expenses, incomes)), pages;
      }
      if (data.nextExpense.Some? && |data.expenses| == 0) || (data.nextIncome.Some? && |data.incomes| == 0) {
        return Err(DidNotAdvance), pages;
      }
      ghost var passed := (expenseCursor, incomeCursor);
      expenseCursor := CursorOf(data.nextExpense);
      incomeCursor := CursorOf(data.nextIncome);
      PositionIsNew(seenPositions, passed.0, passed.1, expenseCursor, incomeCursor);
      var marker := (expenseCursor, incomeCursor);
      if marker in seenPositions {
        return Err(CursorRepeated), pages;
      }
      seenPositions := seenPositions + {marker};
    }
    WalkedFacts(env.Expenses(), cutoff, MAX_PAGES, expenseCursor, expenses);
    WalkedFacts(env.Incomes(), cutoff, MAX_PAGES, incomeCursor, incomes);
    result := Err(TooManyPages);
  }

  /** What one request of the loop brings: a page, both walks one step further, and progress. */
  lemma OneRequest(env: Environment, i: nat, snapshot: Option<int>, expenseCursor: Cursor, incomeCursor: Cursor,
                   expenses: seq<Row>, incomes: seq<Row>)
    requires env.Fair()
    requires snapshot == if i == 0 then None else Some(env.now(0))
    requires i == 0 ==> expenseCursor.Start? && incomeCursor.Start?
    requires Walked(env.Expenses(), env.now(0), i, expenseCursor, expenses)
    requires Walked(env.Incomes(), env.now(0), i, incomeCursor, incomes)
    ensures var answer :=
        ListPage(env.ledgers(i), env.now(i), Request(Some(MAX_PAGE_SIZE), snapshot, expenseCursor, incomeCursor));
      && answer.Ok?
      && var data := answer.value;
      && data.snapshot == env.now(0)
      && Walked(env.Expenses(), env.now(0), i + 1, CursorOf(data.nextExpense), expenses + data.expenses)
      && Walked(env.Incomes(), env.now(0), i + 1, CursorOf(data.nextIncome), incomes + data.incomes)
      && (data.nextExpense.Some? ==> data.expenses != [])
      && (data.nextIncome.Some? ==> data.incomes != [])
      && Progress(expenseCursor, CursorOf(data.nextExpense)) && Progress(incomeCursor, CursorOf(data.nextIncome))
  {
    hide ListPage, Matching, Take, NextCursor, Walked, CursorBeyond, OnlyNewOrRemoved, Progress;
    var cutoff := env.now(0);
    WalkedFacts(env.Expenses(), cutoff, i, expenseCursor, expenses);
    WalkedFacts(env.Incomes(), cutoff, i, incomeCursor, incomes);
    RequestsAreAccepted(env.ledgers(i), env.now(i), cutoff, snapshot, expenseCursor, incomeCursor);
    WalkStep(env.Expenses(), cutoff, i, expenseCursor, expenses);
    WalkStep(env.Incomes(), cutoff, i, incomeCursor, incomes);
    TablesDescend(env.Expenses(), cutoff, i);
    TablesDescend(env.Incomes(), cutoff, i);
    CursorAdvances(env.Expenses()(i), cutoff, expenseCursor);
    CursorAdvances(env.Incomes()(i), cutoff, incomeCursor);
  }

  lemma TablesDescend(table: nat -> seq<Row>, cutoff: int, n: nat)
    requires OnlyNewOrRemoved(table, cutoff)
    ensures Descending(table(n))
  {
  }

  lemma WalkStarts(table: nat -> seq<Row>, cutoff: int)
    ensures Walked(table, cutoff, 0, Start, [])
  {
  }

  lemma NothingBehind()
    ensures Behind({}, Start, Start)
  {
  }

  lemma WalkedFacts(table: nat -> seq<Row>, cutoff: int, pages: nat, cursor: Cursor, collected: seq<Row>)
    requires OnlyNewOrRemoved(table, cutoff) && Walked(table, cutoff, pages, cursor, collected)
    ensures !CursorBeyond(cursor, cutoff)
    ensures cursor.After? ==> |table(0)| >= MAX_PAGE_SIZE * pages
    ensures cursor.Start? ==> pages == 0
  {
    SelectionIsNoLonger(collected, table(0));
  }

  lemma WalkedToTheEnd(table: nat -> seq<Row>, cutoff: int, pages: nat, collected: seq<Row>)
    requires Walked(table, cutoff, pages, End, collected)
    ensures Complete(table, cutoff, pages, collected)
  {
  }
}
