/** Walking a table page by page behind a stable id cursor, and folding child rows per parent. */
module Paging {
  import opened Wrappers

  function Flatten<T>(pages: seq<seq<T>>): seq<T> {
    if pages == [] then [] else Flatten(pages[..|pages| - 1]) + pages[|pages| - 1]
  }

  predicate Ascending<T>(rows: seq<T>, id: T -> int) {
    forall i, j :: 0 <= i < j < |rows| ==> id(rows[i]) < id(rows[j])
  }

  function Position<T>(rows: seq<T>, id: T -> int, key: int): (k: nat)
    ensures k <= |rows|
    ensures k < |rows| ==> id(rows[k]) == key
    ensures forall i :: 0 <= i < k ==> id(rows[i]) != key
  {
    if rows == [] || id(rows[0]) == key then 0 else 1 + Position(rows[1..], id, key)
  }

  /** One query: rows in id order, the cursor row skipped, at most `take` of them. */
  function LoadPage<T>(rows: seq<T>, id: T -> int, cursor: Option<int>, take: nat): seq<T> {
    var start := match cursor
      case None => 0
      case Some(key) => if Position(rows, id, key) == |rows| then |rows| else Position(rows, id, key) + 1;
    if |rows| - start <= take then rows[start..] else rows[start..start + take]
  }

  /** In ascending order the cursor row is the one just before the page. */
  lemma PageAfterCursor<T>(rows: seq<T>, id: T -> int, seen: nat, take: nat)
    requires Ascending(rows, id) && seen <= |rows|
    ensures LoadPage(rows, id, if seen == 0 then None else Some(id(rows[seen - 1])), take)
      == if |rows| - seen <= take then rows[seen..] else rows[seen..seen + take]
  {
    if seen > 0 {
      var k := Position(rows, id, id(rows[seen - 1]));
      assert k == seen - 1;
    }
  }

  /** The visited pages, in order. Err stands for a page above the row budget. */
  method EachPage<T>(rows: seq<T>, id: T -> int, size: nat) returns (result: Result<seq<seq<T>>, ()>)
    requires size > 0 && Ascending(rows, id)
    ensures result.Ok?
    ensures Flatten(result.value) == rows
    ensures forall page :: page in result.value ==> 0 < |page| <= size
  {
    hide LoadPage, Ascending;
    var cursor: Option<int> := None;
    var pages: seq<seq<T>> := [];
    ghost var seen := 0;
    while true
      invariant 0 <= seen <= |rows|
      invariant Flatten(pages) == rows[..seen]
      invariant forall page :: page in pages ==> 0 < |page| <= size
      invariant cursor == if seen == 0 then None else Some(id(rows[seen - 1]))
      decreases |rows| - seen
    {
      var page := LoadPage(rows, id, cursor, size);
      PageAfterCursor(rows, id, seen, size);
      if |page| > size {
        return Err(());
      }
      if |page| == 0 {
        assert rows[..seen] == rows;
        return Ok(pages);
      }
      assert (pages + [page])[..|pages|] == pages;
      assert rows[..seen] + page == rows[..seen + |page|];
      pages := pages + [page];
      seen := seen + |page|;
      if |page| < size {
        assert rows[..seen] == rows;
        return Ok(pages);
      }
      cursor := Some(id(page[|page| - 1]));
    }
  }

  // ---- child rows ----

  /** The rows a filter keeps, in order. */
  function Where<R>(rows: seq<R>, keep: R -> bool): seq<R> {
    if rows == [] then []
    else
      var last := rows[|rows| - 1];
      Where(rows[..|rows| - 1], keep) + (if keep(last) then [last] else [])
  }

  function HasParentIn<R>(parentOf: R -> int, parents: set<int>): R -> bool {
    r => parentOf(r) in parents
  }

  function ChildrenOf<R>(rows: seq<R>, parentOf: R -> int, parent: int): seq<R> {
    Where(rows, HasParentIn(parentOf, {parent}))
  }

  function Fold<R, S>(step: (S, R) -> S, init: S, rows: seq<R>): S {
    if rows == [] then init
    else step(Fold(step, init, rows[..|rows| - 1]), rows[|rows| - 1])
  }

  lemma {:induction false} WhereKeepsOrder<R>(rows: seq<R>, keep: R -> bool, id: R -> int)
    requires Ascending(rows, id)
    ensures Ascending(Where(rows, keep), id)
    ensures forall r :: r in Where(rows, keep) ==> r in rows && keep(r)
  {
    if rows != [] {
      var front := rows[..|rows| - 1];
      WhereKeepsOrder(front, keep, id);
      var kept := Where(front, keep);
      forall i | 0 <= i < |kept|
        ensures id(kept[i]) < id(rows[|rows| - 1])
      {
        assert kept[i] in kept;
        var k :| 0 <= k < |front| && front[k] == kept[i];
        assert rows[k] == front[k];
      }
    }
  }

  lemma {:induction false} ChildrenSurviveWhere<R>(rows: seq<R>, parentOf: R -> int, parents: set<int>, parent: int)
    requires parent in parents
    ensures ChildrenOf(Where(rows, HasParentIn(parentOf, parents)), parentOf, parent)
      == ChildrenOf(rows, parentOf, parent)
  {
    if rows != [] {
      var front, last := rows[..|rows| - 1], rows[|rows| - 1];
      ChildrenSurviveWhere(front, parentOf, parents, parent);
      var kept := Where(front, HasParentIn(parentOf, parents));
      if parentOf(last) in parents {
        assert (kept + [last])[..|kept|] == kept;
      } else {
        assert kept + [] == kept;
        assert ChildrenOf(front, parentOf, parent) + [] == ChildrenOf(front, parentOf, parent);
      }
    }
  }

  /** Each parent's state is the fold of its own children among the rows seen so far. */
  ghost predicate Folded<R, S>(states: map<int, S>, parents: set<int>, parentOf: R -> int,
                               step: (S, R) -> S, init: S, seen: seq<R>)
  {
    && states.Keys == parents
    && forall p :: p in parents ==> states[p] == Fold(step, init, ChildrenOf(seen, parentOf, p))
  }

  lemma FoldedStep<R, S>(states: map<int, S>, parents: set<int>, parentOf: R -> int,
                         step: (S, R) -> S, init: S, seen: seq<R>, row: R)
    requires Folded(states, parents, parentOf, step, init, seen) && parentOf(row) in parents
    ensures var stepped := states[parentOf(row) := step(states[parentOf(row)], row)];
      Folded(stepped, parents, parentOf, step, init, seen + [row])
  {
    var after := states[parentOf(row) := step(states[parentOf(row)], row)];
    forall p | p in parents
      ensures after[p] == Fold(step, init, ChildrenOf(seen + [row], parentOf, p))
    {
      var children := ChildrenOf(seen, parentOf, p);
      assert (seen + [row])[..|seen|] == seen;
      if parentOf(row) == p {
        assert ChildrenOf(seen + [row], parentOf, p) == children + [row];
        assert (children + [row])[..|children|] == children;
      } else {
        assert ChildrenOf(seen + [row], parentOf, p) == children + [] == children;
      }
    }
  }

  /**
   * Reads every child row of the given parents page by page, updating one state per parent. Each
   * parent ends with the fold of its own children, whatever the pages and the interleaving.
   */
  method FoldChildren<R, S>(rows: seq<R>, parentOf: R -> int, id: R -> int, parents: set<int>,
                            step: (S, R) -> S, init: S, size: nat)
    returns (states: map<int, S>)
    requires size > 0 && Ascending(rows, id)
    ensures Folded(states, parents, parentOf, step, init, rows)
  {
    states := map p | p in parents :: init;
    var children := Where(rows, HasParentIn(parentOf, parents));
    WhereKeepsOrder(rows, HasParentIn(parentOf, parents), id);
    var result := EachPage(children, id, size);
    var pages := result.value;
    for i := 0 to |pages|
      invariant Folded(states, parents, parentOf, step, init, Flatten(pages[..i]))
    {
      ghost var before := Flatten(pages[..i]);
      FlattenPrefix(pages, i);
      forall r | r in pages[i]
        ensures parentOf(r) in parents
      {
        assert r in before + pages[i];
        assert r in children;
      }
      states := FoldPage(pages[i], parentOf, parents, step, states, init, before);
      assert pages[..i + 1][..i] == pages[..i];
    }
    assert pages[..|pages|] == pages;
    forall p | p in parents
      ensures states[p] == Fold(step, init, ChildrenOf(rows, parentOf, p))
    {
      ChildrenSurviveWhere(rows, parentOf, parents, p);
    }
  }

  method FoldPage<R, S>(page: seq<R>, parentOf: R -> int, parents: set<int>, step: (S, R) -> S,
                        start: map<int, S>, ghost init: S, ghost before: seq<R>)
    returns (states: map<int, S>)
    requires Folded(start, parents, parentOf, step, init, before)
    requires forall r :: r in page ==> parentOf(r) in parents
    ensures Folded(states, parents, parentOf, step, init, before + page)
  {
    states := start;
    assert before + page[..0] == before;
    for j := 0 to |page|
      invariant Folded(states, parents, parentOf, step, init, before + page[..j])
    {
      var row := page[j];
      FoldedStep(states, parents, parentOf, step, init, before + page[..j], row);
      assert before + page[..j] + [row] == before + page[..j + 1];
      states := states[parentOf(row) := step(states[parentOf(row)], row)];
    }
    assert page[..|page|] == page;
  }

  lemma {:induction false} FlattenPrefix<T>(pages: seq<seq<T>>, n: nat)
    requires n < |pages|
    ensures forall r :: r in Flatten(pages[..n]) + pages[n] ==> r in Flatten(pages)
    decreases |pages|
  {
    if n == |pages| - 1 {
      assert Flatten(pages) == Flatten(pages[..n]) + pages[n];
    } else {
      var front := pages[..|pages| - 1];
      FlattenPrefix(front, n);
      assert front[..n] == pages[..n];
    }
  }
}
