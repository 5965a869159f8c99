// The ledger read routes (backend/routes/transactionRoutes.js): the filtered
// and paged list, the most recent rows, and the per-type statistics whose
// `forEach` fold is a loop over the aggregated groups.
module TransactionRoutes {
  import opened Base
  import Store
  import opened TransactionModel
  import Listing
  import Aggregate

  // ===========================================================================
  // GET /api/transactions

  /** The query string: `page` and `limit` default to 1 and 20; an empty `type` or `walletId` counts as absent. */
  datatype ListQuery = ListQuery(page: Option<int>, limit: Option<nat>, kind: Option<string>,
                                 walletId: Option<Id>, start: Option<int>, end: Option<int>)

  function LimitOf(q: ListQuery): nat {
    q.limit.GetOr(20)
  }

  /** `if (type && type !== 'all') query.type = type`. */
  predicate KindFilter(kind: Option<string>, t: Transaction) {
    kind.Some? && kind.value != "" && kind.value != "all" ==> t.kind == kind.value
  }

  /** `query.$or = [{ fromWalletId: walletId }, { toWalletId: walletId }]`. */
  predicate WalletFilter(walletId: Option<Id>, t: Transaction) {
    walletId.Some? ==> t.fromWalletId == walletId || t.toWalletId == walletId
  }

  /** The query document the handler builds. */
  predicate Matches(user: Id, q: ListQuery, t: Transaction) {
    && t.userId == user
    && KindFilter(q.kind, t)
    && WalletFilter(q.walletId, t)
    && Listing.InRange(t.date, q.start, q.end)
  }

  function Filter(user: Id, q: ListQuery): Transaction -> bool {
    (t: Transaction) => Matches(user, q, t)
  }

  function ByDate(r: (Id, Transaction)): int {
    r.1.date
  }

  function List(s: Store.State, user: Id, q: ListQuery): Option<Listing.Page<Transaction>> {
    Listing.PageOf(s.transactions, Filter(user, q), s.nextId, ByDate, q.page.GetOr(1), LimitOf(q))
  }

  /** A type filter of `all`, or an empty or absent one, constrains nothing; any other keeps exactly that type. */
  lemma KindFilterAll(kind: Option<string>, t: Transaction)
    ensures kind == Some("all") || kind == Some("") || kind.None? ==> KindFilter(kind, t)
    ensures kind.Some? && kind.value != "" && kind.value != "all" ==> (KindFilter(kind, t) <==> t.kind == kind.value)
  {
  }

  /** The wallet filter matches a row on either side of it. */
  lemma WalletFilterEitherSide(wid: Id, t: Transaction)
    ensures WalletFilter(Some(wid), t) <==> t.fromWalletId == Some(wid) || t.toWalletId == Some(wid)
    ensures WalletFilter(None, t)
  {
  }

  /** Both date bounds are inclusive and each may be left out. */
  lemma DateBoundsInclusive(date: int, start: Option<int>, end: Option<int>)
    ensures Listing.InRange(date, Some(date), Some(date))
    ensures Listing.InRange(date, None, None)
    ensures Listing.InRange(date, start, end) <==> Listing.InRange(date, start, None) && Listing.InRange(date, None, end)
    ensures start.Some? && date < start.value ==> !Listing.InRange(date, start, end)
    ensures end.Some? && date > end.value ==> !Listing.InRange(date, start, end)
  {
  }

  /** A page shows only the caller's matching rows, newest first, at most `limit`, and counts the pages of all matches. */
  lemma ListSound(s: Store.State, user: Id, q: ListQuery)
    requires List(s, user, q).Some?
    ensures var rows := List(s, user, q).value.rows;
      && (forall k :: 0 <= k < |rows| ==> rows[k].0 in s.transactions && s.transactions[rows[k].0] == rows[k].1
                                          && Matches(user, q, rows[k].1))
      && Listing.SortedDesc(rows, ByDate)
      && (LimitOf(q) > 0 ==> |rows| <= LimitOf(q))
    ensures var all := Listing.Collect(s.transactions, Filter(user, q), 0, s.nextId); var sorted := Listing.SortDesc(all, ByDate);
      var skip := (q.page.GetOr(1) - 1) * LimitOf(q); var rows := List(s, user, q).value.rows;
      && |rows| == Listing.PageSize(|all|, skip, LimitOf(q))
      && forall i :: skip <= i < |sorted| && (LimitOf(q) == 0 || i < skip + LimitOf(q)) ==> i - skip < |rows| && rows[i - skip] == sorted[i]
    ensures List(s, user, q).value.totalPages == Listing.TotalPages(|Listing.Collect(s.transactions, Filter(user, q), 0, s.nextId)|, LimitOf(q))
  {
    Listing.PageOfSound(s.transactions, Filter(user, q), s.nextId, ByDate, q.page.GetOr(1), LimitOf(q));
  }

  /** A page from 1 on is never refused: it skips `(page - 1) * limit` rows of the newest-first order and shows the next
      `limit`, or all that are left when fewer remain. */
  lemma ListSkips(s: Store.State, user: Id, q: ListQuery)
    requires q.page.GetOr(1) >= 1 && LimitOf(q) > 0
    ensures List(s, user, q).Some?
    ensures var sorted := Listing.SortDesc(Listing.Collect(s.transactions, Filter(user, q), 0, s.nextId), ByDate);
      var rows := List(s, user, q).value.rows;
      var skip := (q.page.GetOr(1) - 1) * LimitOf(q);
      && |rows| == (if skip >= |sorted| then 0 else if |sorted| - skip < LimitOf(q) then |sorted| - skip else LimitOf(q))
      && forall k :: 0 <= k < |rows| ==> rows[k] == sorted[skip + k]
  {
    var sorted := Listing.SortDesc(Listing.Collect(s.transactions, Filter(user, q), 0, s.nextId), ByDate);
    Listing.WindowBounds(sorted, q.page.GetOr(1), LimitOf(q));
  }

  // ===========================================================================
  // GET /api/transactions/recent

  function Owned(user: Id): Transaction -> bool {
    (t: Transaction) => t.userId == user
  }

  /** `find({ userId }).sort({ date: -1 }).limit(parseInt(limit))`, `limit` defaulting to 10 (0 means no limit). */
  function Recent(s: Store.State, user: Id, limit: Option<nat>): seq<(Id, Transaction)> {
    Listing.Newest(Listing.Collect(s.transactions, Owned(user), 0, s.nextId), ByDate, limit.GetOr(10))
  }

  /** The recent rows are the caller's, newest first, at most `limit` of them, and all of them when there are no more than `limit`. */
  lemma RecentSound(s: Store.State, user: Id, limit: Option<nat>)
    ensures var r := Recent(s, user, limit);
      && Listing.SortedDesc(r, ByDate)
      && (limit.GetOr(10) > 0 ==> |r| <= limit.GetOr(10))
      && (forall k :: 0 <= k < |r| ==> r[k].0 in s.transactions && s.transactions[r[k].0] == r[k].1 && r[k].1.userId == user)
    ensures var all := Listing.Collect(s.transactions, Owned(user), 0, s.nextId);
      limit.GetOr(10) == 0 || |all| <= limit.GetOr(10) ==> |Recent(s, user, limit)| == |all|
  {
    var all := Listing.Collect(s.transactions, Owned(user), 0, s.nextId);
    var r := Recent(s, user, limit);
    Listing.NewestSorted(all, ByDate, limit.GetOr(10));

    forall k | 0 <= k < |r| ensures r[k].0 in s.transactions && s.transactions[r[k].0] == r[k].1 && r[k].1.userId == user {
      var j :| 0 <= j < |all| && all[j] == r[k];
    }
  }

  /** With more than `limit` rows of the caller's, exactly `limit` are returned, and none is older than a row left out. */
  lemma RecentKeepsNewest(s: Store.State, user: Id, limit: Option<nat>)
    requires 0 < limit.GetOr(10) < |Listing.Collect(s.transactions, Owned(user), 0, s.nextId)|
    ensures var all := Listing.Collect(s.transactions, Owned(user), 0, s.nextId); var r := Recent(s, user, limit);
      && |r| == limit.GetOr(10)
      && forall x, k :: x in all && x !in r && 0 <= k < |r| ==> x.1.date <= r[k].1.date
  {
    var all := Listing.Collect(s.transactions, Owned(user), 0, s.nextId);
    var r := Listing.Newest(all, ByDate, limit.GetOr(10));
    assert Recent(s, user, limit) == r;
    Listing.NewestIsTop(all, ByDate, limit.GetOr(10));
    forall x, k | x in all && x !in r && 0 <= k < |r| ensures x.1.date <= r[k].1.date {
      assert ByDate(x) <= ByDate(r[k]);
    }
  }

  // ===========================================================================
  // GET /api/transactions/stats

  datatype Stats = Stats(totalExpenses: int, totalIncome: int, totalTransfers: int,
                         transactionCount: int, netAmount: int)

  /** What the `switch` leaves for `key`: the total of the last group with that id, 0 when there is none. */
  function LastTotal(gs: seq<Aggregate.Group>, key: string): int {
    if gs == [] then 0
    else if gs[|gs| - 1].key == key then gs[|gs| - 1].total
    else LastTotal(gs[..|gs| - 1], key)
  }

  /** The result object after the fold and `netAmount = totalIncome - totalExpenses`. */
  function StatsOf(gs: seq<Aggregate.Group>): Stats {
    Stats(LastTotal(gs, "expense"), LastTotal(gs, "income"), LastTotal(gs, "transfer"),
          Listing.Sum(Aggregate.Counts(gs)), LastTotal(gs, "income") - LastTotal(gs, "expense"))
  }

  /** The `stats.forEach` loop over the aggregated groups. */
  method Fold(gs: seq<Aggregate.Group>) returns (r: Stats)
    ensures r == StatsOf(gs)
  {
    var totalExpenses, totalIncome, totalTransfers, transactionCount := 0, 0, 0, 0;
    for i := 0 to |gs|
      invariant totalExpenses == LastTotal(gs[..i], "expense")
      invariant totalIncome == LastTotal(gs[..i], "income")
      invariant totalTransfers == LastTotal(gs[..i], "transfer")
      invariant transactionCount == Listing.Sum(Aggregate.Counts(gs[..i]))
    {
      FoldStep(gs, i);
      transactionCount := transactionCount + gs[i].count;
      if gs[i].key == "expense" {
        totalExpenses := gs[i].total;
      } else if gs[i].key == "income" {
        totalIncome := gs[i].total;
      } else if gs[i].key == "transfer" {
        totalTransfers := gs[i].total;
      }
    }
    assert gs[..|gs|] == gs;
    r := Stats(totalExpenses, totalIncome, totalTransfers, transactionCount, totalIncome - totalExpenses);
  }

  /** One more group: the switch overwrites only its own key, and the count grows by its count. */
  lemma FoldStep(gs: seq<Aggregate.Group>, i: nat)
    requires i < |gs|
    ensures LastTotal(gs[..i + 1], "expense") == if gs[i].key == "expense" then gs[i].total else LastTotal(gs[..i], "expense")
    ensures LastTotal(gs[..i + 1], "income") == if gs[i].key == "income" then gs[i].total else LastTotal(gs[..i], "income")
    ensures LastTotal(gs[..i + 1], "transfer") == if gs[i].key == "transfer" then gs[i].total else LastTotal(gs[..i], "transfer")
    ensures Listing.Sum(Aggregate.Counts(gs[..i + 1])) == Listing.Sum(Aggregate.Counts(gs[..i])) + gs[i].count
  {
    var p := gs[..i + 1];
    assert p[..i] == gs[..i] && p[|p| - 1] == gs[i];
    assert Aggregate.Counts(p) == Aggregate.Counts(gs[..i]) + [gs[i].count];
    Listing.SumAppend(Aggregate.Counts(gs[..i]), [gs[i].count]);
  }

  /** With distinct ids the last group of a key is its only group, so the fold reports that key's total. */
  lemma {:induction false} LastTotalIsKeySum(gs: seq<Aggregate.Group>, key: string)
    requires Aggregate.DistinctKeys(gs)
    ensures LastTotal(gs, key) == Aggregate.KeySum(gs, key)
  {
    if gs != [] {
      var init := gs[..|gs| - 1];
      var last := gs[|gs| - 1];
      assert Aggregate.DistinctKeys(init);
      LastTotalIsKeySum(init, key);
      KeySumAppend(init, last, key);
      assert gs == init + [last];
      if last.key == key {
        KeySumAbsent(init, key);
      }
    }
  }

  lemma {:induction false} KeySumAppend(gs: seq<Aggregate.Group>, g: Aggregate.Group, key: string)
    ensures Aggregate.KeySum(gs + [g], key) == Aggregate.KeySum(gs, key) + (if g.key == key then g.total else 0)
  {
    if gs != [] {
      assert (gs + [g])[1..] == gs[1..] + [g];
      KeySumAppend(gs[1..], g, key);
    } else {
      assert gs + [g] == [g];
    }
  }

  lemma {:induction false} KeySumAbsent(gs: seq<Aggregate.Group>, key: string)
    requires forall k :: 0 <= k < |gs| ==> gs[k].key != key
    ensures Aggregate.KeySum(gs, key) == 0
  {
    if gs != [] {
      KeySumAbsent(gs[1..], key);
    }
  }

  predicate StatsMatches(user: Id, start: Option<int>, end: Option<int>, t: Transaction) {
    t.userId == user && Listing.InRange(t.date, start, end)
  }

  function StatsFilter(user: Id, start: Option<int>, end: Option<int>): Transaction -> bool {
    (t: Transaction) => StatsMatches(user, start, end, t)
  }

  function KindOf(t: Transaction): string {
    t.kind
  }

  function AmountOf(t: Transaction): int {
    t.amount
  }

  function Matched(s: Store.State, user: Id, start: Option<int>, end: Option<int>): seq<(Id, Transaction)> {
    Listing.Collect(s.transactions, StatsFilter(user, start, end), 0, s.nextId)
  }

  /** The aggregation `$match` then `$group` by type, folded. */
  function LedgerStats(s: Store.State, user: Id, start: Option<int>, end: Option<int>): Stats {
    StatsOf(Aggregate.GroupBy(Matched(s, user, start, end), KindOf, AmountOf))
  }

  /** Each total is the sum of the amounts of that type's matched rows, the count covers every matched row whatever its type, and `netAmount` is income less expenses, so transfers never move it. */
  lemma StatsAreSums(s: Store.State, user: Id, start: Option<int>, end: Option<int>)
    ensures var r := LedgerStats(s, user, start, end);
      var rows := Matched(s, user, start, end);
      && r.totalExpenses == Aggregate.KeyedAmount(rows, KindOf, AmountOf, "expense")
      && r.totalIncome == Aggregate.KeyedAmount(rows, KindOf, AmountOf, "income")
      && r.totalTransfers == Aggregate.KeyedAmount(rows, KindOf, AmountOf, "transfer")
      && r.transactionCount == |rows|
      && r.netAmount == Aggregate.KeyedAmount(rows, KindOf, AmountOf, "income") - Aggregate.KeyedAmount(rows, KindOf, AmountOf, "expense")
  {
    var rows := Matched(s, user, start, end);
    var gs := Aggregate.GroupBy(rows, KindOf, AmountOf);
    Aggregate.GroupByDistinct(rows, KindOf, AmountOf);
    Aggregate.GroupByCounts(rows, KindOf, AmountOf);
    LastTotalIsKeySum(gs, "expense");
    LastTotalIsKeySum(gs, "income");
    LastTotalIsKeySum(gs, "transfer");
    Aggregate.GroupByKeySum(rows, KindOf, AmountOf, "expense");
    Aggregate.GroupByKeySum(rows, KindOf, AmountOf, "income");
    Aggregate.GroupByKeySum(rows, KindOf, AmountOf, "transfer");
  }

  /** An absent type keeps its total at 0. */
  lemma AbsentKindIsZero(gs: seq<Aggregate.Group>, key: string)
    requires forall k :: 0 <= k < |gs| ==> gs[k].key != key
    ensures LastTotal(gs, key) == 0
  {
    if gs != [] {
      AbsentKindIsZero(gs[..|gs| - 1], key);
    }
  }

  /** Adding a transfer row to the matched rows leaves `netAmount` unchanged. */
  lemma TransfersLeaveNet(rows: seq<(Id, Transaction)>, row: (Id, Transaction))
    requires row.1.kind == "transfer"
    ensures StatsOf(Aggregate.GroupBy(rows + [row], KindOf, AmountOf)).netAmount
         == StatsOf(Aggregate.GroupBy(rows, KindOf, AmountOf)).netAmount
  {
    var gs := Aggregate.GroupBy(rows, KindOf, AmountOf);
    var gs1 := Aggregate.GroupBy(rows + [row], KindOf, AmountOf);
    assert (rows + [row])[..|rows + [row]| - 1] == rows;
    Aggregate.GroupByDistinct(rows, KindOf, AmountOf);
    Aggregate.GroupByDistinct(rows + [row], KindOf, AmountOf);
    LastTotalIsKeySum(gs, "expense");
    LastTotalIsKeySum(gs, "income");
    LastTotalIsKeySum(gs1, "expense");
    LastTotalIsKeySum(gs1, "income");
    Aggregate.AddKeySum(gs, "transfer", row.1.amount, "expense");
    Aggregate.AddKeySum(gs, "transfer", row.1.amount, "income");
  }
}
