/** Sums over tables: a table is a sequence of rows and a column is a function of a row. */
module Sums {

  function Total<T>(rows: seq<T>, column: T -> int): int
  {
    if |rows| == 0 then 0 else Total(rows[..|rows| - 1], column) + column(rows[|rows| - 1])
  }

  lemma TotalAppend<T>(rows: seq<T>, row: T, column: T -> int)
    ensures Total(rows + [row], column) == Total(rows, column) + column(row)
  {
    assert (rows + [row])[..|rows|] == rows;
  }

  lemma {:induction false} TotalConcat<T>(left: seq<T>, right: seq<T>, column: T -> int)
    ensures Total(left + right, column) == Total(left, column) + Total(right, column)
  {
    if |right| == 0 {
      assert left + right == left;
    } else {
      var front := right[..|right| - 1];
      assert (left + right)[..|left + right| - 1] == left + front;
      TotalConcat(left, front, column);
    }
  }

  /** A total taken from the front. */
  lemma TotalFirst<T>(rows: seq<T>, column: T -> int)
    requires |rows| > 0
    ensures Total(rows, column) == column(rows[0]) + Total(rows[1..], column)
  {
    assert rows == [rows[0]] + rows[1..];
    TotalConcat([rows[0]], rows[1..], column);
    TotalAppend([], rows[0], column);
    assert [] + [rows[0]] == [rows[0]];
  }

  /** Two columns that agree on every row have the same total. */
  lemma {:induction false} TotalCongruent<T>(rows: seq<T>, f: T -> int, g: T -> int)
    requires forall i :: 0 <= i < |rows| ==> f(rows[i]) == g(rows[i])
    ensures Total(rows, f) == Total(rows, g)
  {
    if |rows| > 0 {
      TotalCongruent(rows[..|rows| - 1], f, g);
    }
  }

  /** A column that is the row-wise sum of two columns totals to the sum of their totals. */
  lemma {:induction false} TotalAdd<T>(rows: seq<T>, f: T -> int, g: T -> int, sum: T -> int)
    requires forall i :: 0 <= i < |rows| ==> sum(rows[i]) == f(rows[i]) + g(rows[i])
    ensures Total(rows, sum) == Total(rows, f) + Total(rows, g)
  {
    if |rows| > 0 {
      TotalAdd(rows[..|rows| - 1], f, g, sum);
    }
  }

  lemma {:induction false} TotalZero<T>(rows: seq<T>, column: T -> int)
    requires forall i :: 0 <= i < |rows| ==> column(rows[i]) == 0
    ensures Total(rows, column) == 0
  {
    if |rows| > 0 {
      TotalZero(rows[..|rows| - 1], column);
    }
  }

  /** Overwriting one row changes the total by the difference of the two cells. */
  lemma {:induction false} TotalUpdate<T>(rows: seq<T>, i: nat, row: T, column: T -> int)
    requires i < |rows|
    ensures Total(rows[i := row], column) == Total(rows, column) - column(rows[i]) + column(row)
  {
    var front := rows[..|rows| - 1];
    if i == |rows| - 1 {
      assert rows[i := row][..|rows| - 1] == front;
    } else {
      assert rows[i := row][..|rows| - 1] == front[i := row];
      TotalUpdate(front, i, row, column);
    }
  }

  lemma {:induction false} TotalNonNegative<T>(rows: seq<T>, column: T -> int)
    requires forall i :: 0 <= i < |rows| ==> column(rows[i]) >= 0
    ensures Total(rows, column) >= 0
    ensures forall i :: 0 <= i < |rows| ==> column(rows[i]) <= Total(rows, column)
  {
    if |rows| > 0 {
      TotalNonNegative(rows[..|rows| - 1], column);
    }
  }

  /** A total of non-negative cells is zero exactly when every cell is. */
  lemma {:induction false} TotalZeroIff<T>(rows: seq<T>, column: T -> int)
    requires forall i :: 0 <= i < |rows| ==> column(rows[i]) >= 0
    ensures Total(rows, column) == 0 <==> forall i :: 0 <= i < |rows| ==> column(rows[i]) == 0
  {
    TotalNonNegative(rows, column);
    if forall i :: 0 <= i < |rows| ==> column(rows[i]) == 0 {
      TotalZero(rows, column);
    }
  }

  /** A column restricted to the rows with one tag. */
  function Slot<T, K(==)>(column: T -> int, tag: T -> K, t: K): T -> int {
    (row: T) => if tag(row) == t then column(row) else 0
  }

  function OutsideSlot<T, K(==)>(column: T -> int, tag: T -> K, t: K): T -> int {
    (row: T) => if tag(row) == t then 0 else column(row)
  }

  /** Two tables that have the same total under each tag have the same total. */
  lemma {:induction false} SameByTag<T, K>(a: seq<T>, b: seq<T>, column: T -> int, tag: T -> K, tags: set<K>)
    requires forall i :: 0 <= i < |a| && column(a[i]) != 0 ==> tag(a[i]) in tags
    requires forall i :: 0 <= i < |b| && column(b[i]) != 0 ==> tag(b[i]) in tags
    requires forall t :: t in tags ==> Total(a, Slot(column, tag, t)) == Total(b, Slot(column, tag, t))
    ensures Total(a, column) == Total(b, column)
    decreases tags
  {
    if tags == {} {
      TotalZero(a, column);
      TotalZero(b, column);
    } else {
      var t :| t in tags;
      var rest := OutsideSlot(column, tag, t);
      TotalAdd(a, Slot(column, tag, t), rest, column);
      TotalAdd(b, Slot(column, tag, t), rest, column);
      forall u | u in tags - {t} ensures Total(a, Slot(rest, tag, u)) == Total(b, Slot(rest, tag, u)) {
        TotalCongruent(a, Slot(rest, tag, u), Slot(column, tag, u));
        TotalCongruent(b, Slot(rest, tag, u), Slot(column, tag, u));
      }
      SameByTag(a, b, rest, tag, tags - {t});
    }
  }
}
