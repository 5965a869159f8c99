// The read side shared by the GET routes: Mongo's find/sort/skip/limit and
// countDocuments, modelled as functions over sequences; `Math.ceil` pages.
module Listing {
  import opened Base

  /** Documents of `m` whose id lies in [from, n) and that satisfy `keep`, in id (insertion) order. */
  function Collect<T>(m: map<Id, T>, keep: T -> bool, from: nat, n: nat): (r: seq<(Id, T)>)
    decreases n - from
    ensures forall k :: 0 <= k < |r| ==> from <= r[k].0 < n && r[k].0 in m && m[r[k].0] == r[k].1 && keep(r[k].1)
    ensures forall k, l :: 0 <= k < l < |r| ==> r[k].0 < r[l].0
  {
    if from >= n then []
    else if from in m && keep(m[from]) then [(from, m[from])] + Collect(m, keep, from + 1, n)
    else Collect(m, keep, from + 1, n)
  }

  /** Every matching document in the id range is collected. */
  lemma {:induction false} CollectComplete<T>(m: map<Id, T>, keep: T -> bool, from: nat, n: nat, id: Id)
    requires from <= id < n && id in m && keep(m[id])
    ensures exists k :: 0 <= k < |Collect(m, keep, from, n)| && Collect(m, keep, from, n)[k].0 == id
    decreases n - from
  {
    var r := Collect(m, keep, from, n);
    if id == from {
      assert r[0].0 == id;
    } else {
      CollectComplete(m, keep, from + 1, n, id);
      var k :| 0 <= k < |Collect(m, keep, from + 1, n)| && Collect(m, keep, from + 1, n)[k].0 == id;
      if from in m && keep(m[from]) {
        assert r[k + 1].0 == id;
      } else {
        assert r[k].0 == id;
      }
    }
  }

  /** Sorting collected documents keeps only matching documents of the range, and orders them. */
  lemma SortedCollectSound<T>(m: map<Id, T>, keep: T -> bool, n: nat, key: ((Id, T)) -> int)
    ensures forall k :: 0 <= k < |SortDesc(Collect(m, keep, 0, n), key)| ==>
      var p := SortDesc(Collect(m, keep, 0, n), key)[k]; p.0 < n && p.0 in m && m[p.0] == p.1 && keep(p.1)
    ensures SortedDesc(SortDesc(Collect(m, keep, 0, n), key), key)
  {
    var rows := Collect(m, keep, 0, n);
    var sorted := SortDesc(rows, key);
    SortDescCorrect(rows, key);
    forall k | 0 <= k < |sorted| ensures sorted[k].0 < n && sorted[k].0 in m && m[sorted[k].0] == sorted[k].1 && keep(sorted[k].1) {
      assert sorted[k] in multiset(rows);
      var j :| 0 <= j < |rows| && rows[j] == sorted[k];
    }
  }

  lemma SortedCollectComplete<T>(m: map<Id, T>, keep: T -> bool, n: nat, key: ((Id, T)) -> int, id: Id)
    requires id < n && id in m && keep(m[id])
    ensures (id, m[id]) in SortDesc(Collect(m, keep, 0, n), key)
  {
    var rows := Collect(m, keep, 0, n);
    CollectComplete(m, keep, 0, n, id);
    var j :| 0 <= j < |rows| && rows[j].0 == id;
    assert rows[j] == (id, m[id]);
    assert (id, m[id]) in multiset(rows);
  }

  /** The sort key of documents ordered by id (ids follow creation order). */
  function ById<T>(p: (Id, T)): int {
    p.0
  }

  function Ids<T>(xs: seq<(Id, T)>): (r: seq<Id>)
    ensures |r| == |xs| && forall k :: 0 <= k < |xs| ==> r[k] == xs[k].0
  {
    if xs == [] then [] else [xs[0].0] + Ids(xs[1..])
  }

  // ---------------------------------------------------------------------------
  // `.sort({ date: -1 })`: newest first.

  ghost predicate SortedDesc<T>(xs: seq<T>, key: T -> int) {
    forall i, j :: 0 <= i < j < |xs| ==> key(xs[i]) >= key(xs[j])
  }

  function Insert<T>(x: T, xs: seq<T>, key: T -> int): (r: seq<T>)
    ensures multiset(r) == multiset(xs) + multiset{x} && |r| == |xs| + 1
  {
    if xs == [] || key(x) >= key(xs[0]) then [x] + xs
    else
      assert xs == [xs[0]] + xs[1..];
      [xs[0]] + Insert(x, xs[1..], key)
  }

  lemma {:induction false} InsertSorted<T>(x: T, xs: seq<T>, key: T -> int)
    requires SortedDesc(xs, key)
    ensures SortedDesc(Insert(x, xs, key), key)
  {
    if xs != [] && key(x) < key(xs[0]) {
      var tail := Insert(x, xs[1..], key);
      InsertSorted(x, xs[1..], key);
      forall k | 0 <= k < |tail| ensures key(xs[0]) >= key(tail[k]) {
        assert tail[k] in multiset(tail);
        if tail[k] != x {
          assert tail[k] in multiset(xs[1..]);
          var l :| 0 <= l < |xs[1..]| && xs[1..][l] == tail[k];
          assert xs[1..][l] == xs[l + 1];
        }
      }
      assert Insert(x, xs, key) == [xs[0]] + tail;
    }
  }

  function SortDesc<T>(xs: seq<T>, key: T -> int): (r: seq<T>)
    ensures multiset(r) == multiset(xs) && |r| == |xs|
  {
    if xs == [] then []
    else
      assert xs == [xs[0]] + xs[1..];
      Insert(xs[0], SortDesc(xs[1..], key), key)
  }

  /** The sort orders newest first and is a permutation of its input. */
  lemma {:induction false} SortDescCorrect<T>(xs: seq<T>, key: T -> int)
    ensures SortedDesc(SortDesc(xs, key), key)
    ensures multiset(SortDesc(xs, key)) == multiset(xs)
  {
    if xs != [] {
      SortDescCorrect(xs[1..], key);
      InsertSorted(xs[0], SortDesc(xs[1..], key), key);
    }
  }

  // ---------------------------------------------------------------------------
  // `.limit(limit).skip((page - 1) * limit)` and `Math.ceil(total / limit)`.

  /** How many rows a page shows when `skip` of `total` are skipped: the rest, but no more than `limit` (0 means no limit). */
  function PageSize(total: int, skip: int, limit: nat): (r: nat)
    ensures skip >= total ==> r == 0
    ensures skip < total ==> skip + r <= total && (limit == 0 || r <= limit) && (skip + r == total || r == limit)
  {
    if skip >= total then 0 else if limit == 0 || total - skip < limit then total - skip else limit
  }

  /** The page window; `None` when the skip is negative (the database refuses it). A limit of 0 means no limit. */
  function Window<T>(xs: seq<T>, page: int, limit: nat): (r: Option<seq<T>>)
    ensures r.None? <==> (page - 1) * limit < 0
    ensures r.Some? ==> |r.value| == PageSize(|xs|, (page - 1) * limit, limit)
    ensures r.Some? ==> forall k :: 0 <= k < |r.value| ==> 0 <= (page - 1) * limit + k < |xs| && r.value[k] == xs[(page - 1) * limit + k]
  {
    var skip := (page - 1) * limit;
    if skip < 0 then None
    else if skip >= |xs| then Some([])
    else Some(xs[skip..if limit == 0 || skip + limit > |xs| then |xs| else skip + limit])
  }

  /** A positive page with a positive limit is never refused; it shows `min(limit, |xs| - skip)` rows, from the skip on. */
  lemma WindowBounds<T>(xs: seq<T>, page: int, limit: nat)
    requires page >= 1 && limit > 0
    ensures Window(xs, page, limit).Some? && |Window(xs, page, limit).value| <= limit
    ensures var skip := (page - 1) * limit;
      |Window(xs, page, limit).value| == if skip >= |xs| then 0 else if |xs| - skip < limit then |xs| - skip else limit
    ensures forall k :: 0 <= k < |Window(xs, page, limit).value| ==> Window(xs, page, limit).value[k] == xs[(page - 1) * limit + k]
  {
    var skip := (page - 1) * limit;
    assert skip >= 0 by {
      assert page - 1 >= 0;
    }
  }

  /** `Math.ceil(total / limit)`; `None` when `limit` is 0 (the quotient is not finite). */
  function TotalPages(total: nat, limit: nat): (r: Option<nat>)
    ensures r.None? <==> limit == 0
    ensures r.Some? ==> (r.value - 1) * limit < total <= r.value * limit || (total == 0 && r.value == 0)
  {
    if limit == 0 then None
    else Some((total + limit - 1) / limit)
  }

  /** The page count is the least number of full pages that hold every document. */
  lemma TotalPagesIsCeiling(total: nat, limit: nat, p: nat)
    requires limit > 0
    ensures p * limit >= total <==> p >= TotalPages(total, limit).value
  {
    var q := TotalPages(total, limit).value;
    if p >= q {
      assert p * limit >= q * limit;
    } else {
      assert p <= q - 1;
      assert p * limit <= (q - 1) * limit;
    }
  }

  datatype Page<T> = Page(rows: seq<(Id, T)>, totalPages: Option<nat>)

  /** `find(query).sort(key: -1).limit(limit).skip((page - 1) * limit)` with `Math.ceil(countDocuments(query) / limit)`; `None` when the skip is negative. */
  function PageOf<T>(m: map<Id, T>, keep: T -> bool, n: nat, key: ((Id, T)) -> int, page: int, limit: nat): Option<Page<T>> {
    var rows := Collect(m, keep, 0, n);
    var window := Window(SortDesc(rows, key), page, limit);
    if window.None? then None
    else Some(Page(window.value, TotalPages(|rows|, limit)))
  }

  /** A page holds only stored matching documents, newest first, and exactly the ones ranked in its slice of the
      newest-first order: `min(limit, total - skip)` of them. It counts the pages of all matches. */
  lemma PageOfSound<T>(m: map<Id, T>, keep: T -> bool, n: nat, key: ((Id, T)) -> int, page: int, limit: nat)
    requires PageOf(m, keep, n, key, page, limit).Some?
    ensures var rows := PageOf(m, keep, n, key, page, limit).value.rows;
      && (forall k :: 0 <= k < |rows| ==> rows[k].0 < n && rows[k].0 in m && m[rows[k].0] == rows[k].1 && keep(rows[k].1))
      && SortedDesc(rows, key)
      && (limit > 0 ==> |rows| <= limit)
    ensures var all := Collect(m, keep, 0, n); var sorted := SortDesc(all, key); var skip := (page - 1) * limit;
      var rows := PageOf(m, keep, n, key, page, limit).value.rows;
      && skip >= 0
      && |rows| == PageSize(|all|, skip, limit)
      && forall i :: skip <= i < |sorted| && (limit == 0 || i < skip + limit) ==> i - skip < |rows| && rows[i - skip] == sorted[i]
    ensures PageOf(m, keep, n, key, page, limit).value.totalPages == TotalPages(|Collect(m, keep, 0, n)|, limit)
  {
    var sorted := SortDesc(Collect(m, keep, 0, n), key);
    SortedCollectSound(m, keep, n, key);
    WindowIsSlice(sorted, page, limit);
    WindowSorted(sorted, page, limit, key);
  }

  lemma WindowSorted<T>(xs: seq<T>, page: int, limit: nat, key: T -> int)
    requires SortedDesc(xs, key) && Window(xs, page, limit).Some?
    ensures SortedDesc(Window(xs, page, limit).value, key)
  {
    var w := Window(xs, page, limit).value;
    var skip := (page - 1) * limit;
    WindowIsSlice(xs, page, limit);
    forall i, j | 0 <= i < j < |w| ensures key(w[i]) >= key(w[j]) {
      assert w[i] == xs[skip + i] && w[j] == xs[skip + j];
    }
  }

  /** A window is the slice of the input starting at the skip: every item comes from its place in the input, and
      every input item from the skip up to the limit is in the window. */
  lemma WindowIsSlice<T>(xs: seq<T>, page: int, limit: nat)
    requires Window(xs, page, limit).Some?
    ensures var w := Window(xs, page, limit).value; var skip := (page - 1) * limit;
      && skip >= 0 && (limit > 0 ==> |w| <= limit) && |w| == PageSize(|xs|, skip, limit)
      && (forall k :: 0 <= k < |w| ==> skip + k < |xs| && w[k] == xs[skip + k])
      && (forall i :: skip <= i < |xs| && (limit == 0 || i < skip + limit) ==> i - skip < |w| && w[i - skip] == xs[i])
  {
  }

  /** A date filter: `$gte` start and `$lte` end, each optional. */
  predicate InRange(date: int, start: Option<int>, end: Option<int>) {
    (start.Some? ==> start.value <= date) && (end.Some? ==> date <= end.value)
  }

  function Sum(xs: seq<int>): int {
    if xs == [] then 0 else xs[0] + Sum(xs[1..])
  }

  lemma {:induction false} SumAppend(xs: seq<int>, ys: seq<int>)
    ensures Sum(xs + ys) == Sum(xs) + Sum(ys)
  {
    if xs == [] {
      assert xs + ys == ys;
    } else {
      assert (xs + ys)[1..] == xs[1..] + ys;
      SumAppend(xs[1..], ys);
    }
  }

  /** `.limit(n)` of the newest-first order (0 means no limit). */
  function Newest<T>(xs: seq<T>, key: T -> int, limit: nat): (r: seq<T>)
    ensures limit > 0 ==> |r| <= limit
    ensures |r| <= |xs|
    ensures limit == 0 || |xs| <= limit ==> |r| == |xs|
  {
    var sorted := SortDesc(xs, key);
    if limit == 0 || limit >= |sorted| then sorted else sorted[..limit]
  }

  lemma NewestSorted<T>(xs: seq<T>, key: T -> int, limit: nat)
    ensures SortedDesc(Newest(xs, key, limit), key)
    ensures forall k :: 0 <= k < |Newest(xs, key, limit)| ==> Newest(xs, key, limit)[k] in multiset(xs)
  {
    SortDescCorrect(xs, key);
    var sorted := SortDesc(xs, key);
    var r := Newest(xs, key, limit);
    assert |r| <= |sorted| && forall k :: 0 <= k < |r| ==> r[k] == sorted[k];
    forall i, j | 0 <= i < j < |r| ensures key(r[i]) >= key(r[j]) {
      assert key(sorted[i]) >= key(sorted[j]);
    }
    forall k | 0 <= k < |r| ensures r[k] in multiset(xs) {
      assert sorted[k] in multiset(sorted);
    }
  }

  /** With more than `limit` rows, exactly `limit` are kept, they are the first `limit` of the newest-first order, and
      no row left out is newer than a row kept. */
  lemma NewestIsTop<T>(xs: seq<T>, key: T -> int, limit: nat)
    requires 0 < limit < |xs|
    ensures |Newest(xs, key, limit)| == limit
    ensures Newest(xs, key, limit) == SortDesc(xs, key)[..limit]
    ensures forall x, k :: x in xs && x !in Newest(xs, key, limit) && 0 <= k < limit ==> key(x) <= key(Newest(xs, key, limit)[k])
  {
    SortDescCorrect(xs, key);
    var sorted := SortDesc(xs, key);
    var r := Newest(xs, key, limit);
    forall x, k | x in xs && x !in r && 0 <= k < limit ensures key(x) <= key(r[k]) {
      assert x in multiset(sorted);
      var j :| 0 <= j < |sorted| && sorted[j] == x;
      assert r[k] == sorted[k];
    }
  }
}
