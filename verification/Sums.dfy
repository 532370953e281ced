/** Sums over the rows of a table. */
module Sums {

  /** The sum of a column, whatever order the rows are taken in. */
  ghost function Sum(column: map<nat, int>): int
    decreases |column|
  {
    if column == map[] then 0
    else
      var k :| k in column;
      column[k] + Sum(column - {k})
  }

  /** Any row can be taken first. */
  lemma {:induction false} SumPick(column: map<nat, int>, k: nat)
    requires k in column
    ensures Sum(column) == column[k] + Sum(column - {k})
    decreases |column|
  {
    var first :| first in column && Sum(column) == column[first] + Sum(column - {first});
    if first != k {
      SumPick(column - {first}, k);
      SumPick(column - {k}, first);
      assert column - {first} - {k} == column - {k} - {first};
    }
  }

  /** Writing one row, new or old. */
  lemma SumPut(column: map<nat, int>, k: nat, x: int)
    ensures Sum(column[k := x]) == Sum(column - {k}) + x
    ensures Sum(column[k := x]) == Sum(column) - (if k in column then column[k] else 0) + x
  {
    SumPick(column[k := x], k);
    assert column[k := x] - {k} == column - {k};
    if k in column {
      SumPick(column, k);
    } else {
      assert column - {k} == column;
    }
  }

  /** In a column without negatives the sum is at least every row. */
  lemma {:induction false} SumAtLeast(column: map<nat, int>)
    requires forall k <- column :: 0 <= column[k]
    ensures 0 <= Sum(column)
    ensures forall k <- column :: column[k] <= Sum(column)
    decreases |column|
  {
    forall k | k in column
      ensures 0 <= column[k] <= Sum(column)
    {
      SumPick(column, k);
      SumAtLeast(column - {k});
    }
    if column != map[] {
      var k :| k in column;
      assert 0 <= column[k] <= Sum(column);
    }
  }

  lemma {:induction false} SumZero(column: map<nat, int>)
    requires forall k <- column :: column[k] == 0
    ensures Sum(column) == 0
    decreases |column|
  {
    if column != map[] {
      var k :| k in column;
      SumPick(column, k);
      SumZero(column - {k});
    }
  }
}
