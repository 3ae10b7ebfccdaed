/** GROUP BY over a table: an association list of keys and running totals, in first-seen order. */
module Grouping {
  import opened Sums

  datatype Group<+K> = Group(key: K, total: int)

  function AddTo<K(==)>(groups: seq<Group<K>>, key: K, amount: int): seq<Group<K>>
  {
    if |groups| == 0 then [Group(key, amount)]
    else if groups[0].key == key then [Group(key, groups[0].total + amount)] + groups[1..]
    else [groups[0]] + AddTo(groups[1..], key, amount)
  }

  /** The grouped total of a key, zero for a key that never occurred. */
  function Lookup<K(==)>(groups: seq<Group<K>>, key: K): int
  {
    if |groups| == 0 then 0
    else if groups[0].key == key then groups[0].total
    else Lookup(groups[1..], key)
  }

  /** The sum of the totals of the keys that satisfy `chosen`. */
  function SumWhere<K>(groups: seq<Group<K>>, chosen: K -> bool): int
  {
    if |groups| == 0 then 0
    else (if chosen(groups[0].key) then groups[0].total else 0) + SumWhere(groups[1..], chosen)
  }

  predicate DistinctKeys<K(==)>(groups: seq<Group<K>>) {
    forall i, j :: 0 <= i < j < |groups| ==> groups[i].key != groups[j].key
  }

  function GroupBy<R, K(==)>(rows: seq<R>, keep: R -> bool, key: R -> K, amount: R -> int): seq<Group<K>>
  {
    if |rows| == 0 then []
    else
      var groups := GroupBy(rows[..|rows| - 1], keep, key, amount);
      var row := rows[|rows| - 1];
      if keep(row) then AddTo(groups, key(row), amount(row)) else groups
  }

  function KeyCell<R, K(==)>(keep: R -> bool, key: R -> K, amount: R -> int, k: K): R -> int {
    (row: R) => if keep(row) && key(row) == k then amount(row) else 0
  }

  function ChosenCell<R, K>(keep: R -> bool, key: R -> K, amount: R -> int, chosen: K -> bool): R -> int {
    (row: R) => if keep(row) && chosen(key(row)) then amount(row) else 0
  }

  lemma {:induction false} AddToSums<K>(groups: seq<Group<K>>, key: K, amount: int, k: K, chosen: K -> bool)
    ensures Lookup(AddTo(groups, key, amount), k) == Lookup(groups, k) + if k == key then amount else 0
    ensures SumWhere(AddTo(groups, key, amount), chosen) == SumWhere(groups, chosen) + if chosen(key) then amount else 0
  {
    if |groups| > 0 && groups[0].key != key {
      AddToSums(groups[1..], key, amount, k, chosen);
    }
  }

  lemma {:induction false} AddToKeys<K>(groups: seq<Group<K>>, key: K, amount: int)
    requires DistinctKeys(groups)
    ensures DistinctKeys(AddTo(groups, key, amount))
    ensures forall i :: 0 <= i < |AddTo(groups, key, amount)| ==>
              AddTo(groups, key, amount)[i].key == key
              || exists j :: 0 <= j < |groups| && groups[j].key == AddTo(groups, key, amount)[i].key
  {
    if |groups| > 0 && groups[0].key != key {
      var rest := groups[1..];
      AddToKeys(rest, key, amount);
      var after := AddTo(rest, key, amount);
      forall i | 0 <= i < |after|
        ensures after[i].key != groups[0].key
        ensures after[i].key == key || exists j :: 0 <= j < |groups| && groups[j].key == after[i].key
      {
        if after[i].key != key {
          var j :| 0 <= j < |rest| && rest[j].key == after[i].key;
          assert groups[j + 1].key == after[i].key;
        }
      }
    }
  }

  /** Grouping loses nothing: a key's total, and the total over any set of keys, is the sum over the rows. */
  lemma {:induction false} GroupBySums<R, K>(
      rows: seq<R>, keep: R -> bool, key: R -> K, amount: R -> int, k: K, chosen: K -> bool)
    ensures Lookup(GroupBy(rows, keep, key, amount), k) == Total(rows, KeyCell(keep, key, amount, k))
    ensures SumWhere(GroupBy(rows, keep, key, amount), chosen) == Total(rows, ChosenCell(keep, key, amount, chosen))
  {
    if |rows| > 0 {
      var front, row := rows[..|rows| - 1], rows[|rows| - 1];
      GroupBySums(front, keep, key, amount, k, chosen);
      AddToSums(GroupBy(front, keep, key, amount), key(row), amount(row), k, chosen);
    }
  }

  ghost predicate KeyOccurs<R, K>(rows: seq<R>, keep: R -> bool, key: R -> K, k: K) {
    exists r :: 0 <= r < |rows| && keep(rows[r]) && key(rows[r]) == k
  }

  /** GROUP BY returns one row per key, and only keys of kept rows. */
  lemma {:induction false} GroupByKeys<R, K>(rows: seq<R>, keep: R -> bool, key: R -> K, amount: R -> int)
    ensures var groups := GroupBy(rows, keep, key, amount);
            DistinctKeys(groups) && forall i :: 0 <= i < |groups| ==> KeyOccurs(rows, keep, key, groups[i].key)
  {
    if |rows| > 0 {
      var front, row := rows[..|rows| - 1], rows[|rows| - 1];
      var groups := GroupBy(front, keep, key, amount);
      GroupByKeys(front, keep, key, amount);
      var after := GroupBy(rows, keep, key, amount);
      if keep(row) {
        AddToKeys(groups, key(row), amount(row));
      }
      forall i | 0 <= i < |after| ensures KeyOccurs(rows, keep, key, after[i].key) {
        if keep(row) && after[i].key == key(row) {
          assert rows[|rows| - 1] == row;
        } else {
          var j :| 0 <= j < |groups| && groups[j].key == after[i].key;
          assert KeyOccurs(front, keep, key, groups[j].key);
          var r :| 0 <= r < |front| && keep(front[r]) && key(front[r]) == groups[j].key;
          assert rows[r] == front[r];
        }
      }
    }
  }
}
