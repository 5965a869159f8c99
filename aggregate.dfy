// The `$group` stage the summary and stats routes run, keyed by a field or by
// `null` for one group over everything, modelled over the matched rows in
// insertion order, and the facts the routes' folds over its output rely on.
module Aggregate {
  import opened Base
  import Listing

  datatype Group = Group(key: string, total: int, count: nat)

  /** Adds one document to the groups: into the group of its key when there is one, else as a new last group. */
  function Add(gs: seq<Group>, key: string, amount: int): (r: seq<Group>)
    ensures |r| == |gs| || |r| == |gs| + 1
  {
    if gs == [] then [Group(key, amount, 1)]
    else if gs[0].key == key then [gs[0].(total := gs[0].total + amount, count := gs[0].count + 1)] + gs[1..]
    else [gs[0]] + Add(gs[1..], key, amount)
  }

  function GroupBy<T>(rows: seq<(Id, T)>, keyOf: T -> string, amountOf: T -> int): seq<Group> {
    if rows == [] then []
    else Add(GroupBy(rows[..|rows| - 1], keyOf, amountOf), keyOf(rows[|rows| - 1].1), amountOf(rows[|rows| - 1].1))
  }

  predicate DistinctKeys(gs: seq<Group>) {
    forall i, j :: 0 <= i < j < |gs| ==> gs[i].key != gs[j].key
  }

  function Totals(gs: seq<Group>): (r: seq<int>)
    ensures |r| == |gs| && forall k :: 0 <= k < |gs| ==> r[k] == gs[k].total
  {
    if gs == [] then [] else [gs[0].total] + Totals(gs[1..])
  }

  function Counts(gs: seq<Group>): (r: seq<int>)
    ensures |r| == |gs| && forall k :: 0 <= k < |gs| ==> r[k] == gs[k].count
  {
    if gs == [] then [] else [gs[0].count] + Counts(gs[1..])
  }

  /** The total of the groups with `key` (at most one when the keys are distinct). */
  function KeySum(gs: seq<Group>, key: string): int {
    if gs == [] then 0 else (if gs[0].key == key then gs[0].total else 0) + KeySum(gs[1..], key)
  }

  function Amounts<T>(rows: seq<(Id, T)>, amountOf: T -> int): (r: seq<int>)
    ensures |r| == |rows| && forall k :: 0 <= k < |rows| ==> r[k] == amountOf(rows[k].1)
  {
    if rows == [] then [] else [amountOf(rows[0].1)] + Amounts(rows[1..], amountOf)
  }

  datatype Total = Total(total: int, count: nat)

  /** `$group: { _id: null, ... }`: one group summing every row, or no group at all when there is no row. */
  function GroupAll<T>(rows: seq<(Id, T)>, amountOf: T -> int): (r: seq<Total>)
    ensures |r| <= 1 && (r == [] <==> rows == [])
  {
    if rows == [] then [] else [Total(Listing.Sum(Amounts(rows, amountOf)), |rows|)]
  }

  /** The sum of the amounts of the rows whose key is `key`. */
  function KeyedAmount<T>(rows: seq<(Id, T)>, keyOf: T -> string, amountOf: T -> int, key: string): int {
    if rows == [] then 0
    else (if keyOf(rows[0].1) == key then amountOf(rows[0].1) else 0) + KeyedAmount(rows[1..], keyOf, amountOf, key)
  }

  // ---------------------------------------------------------------------------

  lemma {:induction false} AddTotals(gs: seq<Group>, key: string, amount: int)
    ensures Listing.Sum(Totals(Add(gs, key, amount))) == Listing.Sum(Totals(gs)) + amount
  {
    if gs != [] && gs[0].key != key {
      AddTotals(gs[1..], key, amount);
      assert Totals(Add(gs, key, amount)) == [gs[0].total] + Totals(Add(gs[1..], key, amount));
    } else if gs != [] {
      assert Totals(Add(gs, key, amount))[1..] == Totals(gs[1..]);
    }
  }

  lemma {:induction false} AddCounts(gs: seq<Group>, key: string, amount: int)
    ensures Listing.Sum(Counts(Add(gs, key, amount))) == Listing.Sum(Counts(gs)) + 1
  {
    if gs != [] && gs[0].key != key {
      AddCounts(gs[1..], key, amount);
      assert Counts(Add(gs, key, amount)) == [gs[0].count] + Counts(Add(gs[1..], key, amount));
    } else if gs != [] {
      assert Counts(Add(gs, key, amount))[1..] == Counts(gs[1..]);
    }
  }


  /** Adding a document changes only the total of its own key. */
  lemma {:induction false} AddKeySum(gs: seq<Group>, key: string, amount: int, k: string)
    ensures KeySum(Add(gs, key, amount), k) == KeySum(gs, k) + (if key == k then amount else 0)
  {
    if gs != [] && gs[0].key != key {
      AddKeySum(gs[1..], key, amount, k);
      assert Add(gs, key, amount)[1..] == Add(gs[1..], key, amount);
    } else if gs != [] {
      assert Add(gs, key, amount)[1..] == gs[1..];
    }
  }

  /** Adding a document introduces no key but its own. */
  lemma {:induction false} AddKeys(gs: seq<Group>, key: string, amount: int)
    ensures forall g :: g in Add(gs, key, amount) ==> g.key == key || exists h :: h in gs && h.key == g.key
  {
    var r := Add(gs, key, amount);
    if gs != [] && gs[0].key != key {
      var tail := Add(gs[1..], key, amount);
      AddKeys(gs[1..], key, amount);
      assert r == [gs[0]] + tail;
      forall g | g in r ensures g.key == key || exists h :: h in gs && h.key == g.key {
        if g == gs[0] {
          assert gs[0] in gs;
        } else if g.key != key {
          assert g in tail;
          var h :| h in gs[1..] && h.key == g.key;
          assert h in gs;
        }
      }
    } else if gs != [] {
      assert r[1..] == gs[1..];
      forall g | g in r ensures g.key == key || exists h :: h in gs && h.key == g.key {
        if g != r[0] {
          var l :| 0 <= l < |r| && r[l] == g;
          assert gs[l] == g;
        }
      }
    }
  }

  /** Adding a document keeps each key in one group. */
  lemma {:induction false} AddDistinct(gs: seq<Group>, key: string, amount: int)
    requires DistinctKeys(gs)
    ensures DistinctKeys(Add(gs, key, amount))
  {
    if gs != [] && gs[0].key != key {
      var tail := Add(gs[1..], key, amount);
      AddDistinct(gs[1..], key, amount);
      AddKeys(gs[1..], key, amount);
      assert Add(gs, key, amount) == [gs[0]] + tail;
      forall j | 0 <= j < |tail| ensures tail[j].key != gs[0].key {
        assert tail[j] in tail;
        if tail[j].key != key {
          var h :| h in gs[1..] && h.key == tail[j].key;
          var l :| 0 <= l < |gs[1..]| && gs[1..][l] == h;
          assert gs[l + 1] == h;
        }
      }
    } else if gs != [] {
      assert Add(gs, key, amount)[1..] == gs[1..];
    }
  }

  /** Each key of `GroupBy` appears in one group only. */
  lemma {:induction false} GroupByDistinct<T>(rows: seq<(Id, T)>, keyOf: T -> string, amountOf: T -> int)
    ensures DistinctKeys(GroupBy(rows, keyOf, amountOf))
  {
    if rows != [] {
      var last := rows[|rows| - 1].1;
      GroupByDistinct(rows[..|rows| - 1], keyOf, amountOf);
      AddDistinct(GroupBy(rows[..|rows| - 1], keyOf, amountOf), keyOf(last), amountOf(last));
    }
  }

  /** The amounts of a non-empty row list are those of all but the last row, plus the last. */
  lemma AmountsSnoc<T>(rows: seq<(Id, T)>, amountOf: T -> int)
    requires rows != []
    ensures Listing.Sum(Amounts(rows, amountOf)) == Listing.Sum(Amounts(rows[..|rows| - 1], amountOf)) + amountOf(rows[|rows| - 1].1)
  {
    var init := Amounts(rows[..|rows| - 1], amountOf);
    var a := amountOf(rows[|rows| - 1].1);
    forall k | 0 <= k < |rows| ensures Amounts(rows, amountOf)[k] == (init + [a])[k] {
      if k < |rows| - 1 { assert rows[..|rows| - 1][k] == rows[k]; }
    }
    assert Amounts(rows, amountOf) == init + [a];
    Listing.SumAppend(init, [a]);
    assert Listing.Sum([a]) == a + Listing.Sum([]);
  }

  /** The totals of `GroupBy` sum to the rows' amounts. */
  lemma {:induction false} GroupByTotals<T>(rows: seq<(Id, T)>, keyOf: T -> string, amountOf: T -> int)
    ensures Listing.Sum(Totals(GroupBy(rows, keyOf, amountOf))) == Listing.Sum(Amounts(rows, amountOf))
  {
    if rows != [] {
      var init := rows[..|rows| - 1];
      var last := rows[|rows| - 1].1;
      var gs := GroupBy(init, keyOf, amountOf);
      GroupByTotals(init, keyOf, amountOf);
      AddTotals(gs, keyOf(last), amountOf(last));
      assert GroupBy(rows, keyOf, amountOf) == Add(gs, keyOf(last), amountOf(last));
      AmountsSnoc(rows, amountOf);
    }
  }

  /** The counts of `GroupBy` sum to the number of rows. */
  lemma {:induction false} GroupByCounts<T>(rows: seq<(Id, T)>, keyOf: T -> string, amountOf: T -> int)
    ensures Listing.Sum(Counts(GroupBy(rows, keyOf, amountOf))) == |rows|
  {
    if rows != [] {
      var init := rows[..|rows| - 1];
      var last := rows[|rows| - 1].1;
      GroupByCounts(init, keyOf, amountOf);
      AddCounts(GroupBy(init, keyOf, amountOf), keyOf(last), amountOf(last));
    }
  }

  /** The total `GroupBy` reports for a key is the sum of the amounts of that key's rows. */
  lemma {:induction false} GroupByKeySum<T>(rows: seq<(Id, T)>, keyOf: T -> string, amountOf: T -> int, k: string)
    ensures KeySum(GroupBy(rows, keyOf, amountOf), k) == KeyedAmount(rows, keyOf, amountOf, k)
  {
    if rows != [] {
      var init := rows[..|rows| - 1];
      var last := rows[|rows| - 1].1;
      GroupByKeySum(init, keyOf, amountOf, k);
      AddKeySum(GroupBy(init, keyOf, amountOf), keyOf(last), amountOf(last), k);
      assert rows == init + [rows[|rows| - 1]];
      KeyedAmountAppend(init, rows[|rows| - 1], keyOf, amountOf, k);
    }
  }

  lemma {:induction false} KeyedAmountAppend<T>(rows: seq<(Id, T)>, row: (Id, T), keyOf: T -> string, amountOf: T -> int, k: string)
    ensures KeyedAmount(rows + [row], keyOf, amountOf, k)
         == KeyedAmount(rows, keyOf, amountOf, k) + (if keyOf(row.1) == k then amountOf(row.1) else 0)
  {
    if rows != [] {
      assert (rows + [row])[1..] == rows[1..] + [row];
      KeyedAmountAppend(rows[1..], row, keyOf, amountOf, k);
    } else {
      assert rows + [row] == [row];
    }
  }

  // ---------------------------------------------------------------------------
  // `$sort: { total: -1 }` on the groups.

  function ByTotal(g: Group): int {
    g.total
  }

  lemma {:induction false} InsertKeepsTotal(g: Group, gs: seq<Group>)
    ensures Listing.Sum(Totals(Listing.Insert(g, gs, ByTotal))) == g.total + Listing.Sum(Totals(gs))
  {
    if gs != [] && ByTotal(g) < ByTotal(gs[0]) {
      InsertKeepsTotal(g, gs[1..]);
      assert Totals(Listing.Insert(g, gs, ByTotal)) == [gs[0].total] + Totals(Listing.Insert(g, gs[1..], ByTotal));
    }
  }

  /** Sorting the groups does not change the sum of their totals. */
  lemma {:induction false} SortKeepsTotal(gs: seq<Group>)
    ensures Listing.Sum(Totals(Listing.SortDesc(gs, ByTotal))) == Listing.Sum(Totals(gs))
  {
    if gs != [] {
      SortKeepsTotal(gs[1..]);
      InsertKeepsTotal(gs[0], Listing.SortDesc(gs[1..], ByTotal));
    }
  }
}
