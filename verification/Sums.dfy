/** Totals over the rows of a table, independent of the order in which rows are visited. */
module Sums {

  lemma NonEmpty<V>(table: map<int, V>)
    requires table != map[]
    ensures exists k :: k in table
  {
    assert (forall k :: k !in table) ==> table == map[];
  }

  ghost function Sum<V>(table: map<int, V>, f: V -> int): int
    decreases |table|
  {
    if table == map[] then 0
    else
      NonEmpty(table);
      var k :| k in table;
      f(table[k]) + Sum(table - {k}, f)
  }

  /** Any row can be taken out first. */
  lemma {:induction false} SumWithout<V>(table: map<int, V>, k: int, f: V -> int)
    requires k in table
    ensures Sum(table, f) == f(table[k]) + Sum(table - {k}, f)
    decreases |table|
  {
    var picked :| picked in table && Sum(table, f) == f(table[picked]) + Sum(table - {picked}, f);
    if picked != k {
      SumWithout(table - {picked}, k, f);
      SumWithout(table - {k}, picked, f);
      assert table - {picked} - {k} == table - {k} - {picked};
    }
  }

  lemma SumInsert<V>(table: map<int, V>, k: int, row: V, f: V -> int)
    requires k !in table
    ensures Sum(table[k := row], f) == Sum(table, f) + f(row)
  {
    SumWithout(table[k := row], k, f);
    assert table[k := row] - {k} == table;
  }

  /** Only the values of the rows present matter. */
  lemma {:induction false} SumCongruence<V>(table: map<int, V>, f: V -> int, g: V -> int)
    requires forall k :: k in table ==> f(table[k]) == g(table[k])
    ensures Sum(table, f) == Sum(table, g)
    decreases |table|
  {
    if table != map[] {
      NonEmpty(table);
      var k :| k in table;
      SumWithout(table, k, f);
      SumWithout(table, k, g);
      SumCongruence(table - {k}, f, g);
    }
  }
}
