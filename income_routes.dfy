// The income handlers (backend/routes/incomeRoutes.js). Create writes the
// Income, credits the wallet and then tries a Transaction row that the
// schema always refuses; delete debits the wallet and removes the Income.
module IncomeRoutes {
  import opened Base
  import Text
  import opened Store
  import opened WalletModel
  import opened IncomeModel
  import opened TransactionModel
  import ExpenseModel
  import Listing
  import Aggregate

  const IncomeNotFound: Reply := Fail(404, "Income not found")

  // ===========================================================================
  // POST /api/income

  datatype CreateRequest = CreateRequest(title: string, amount: int, walletId: Id,
                                         description: Option<string>, date: Option<int>)

  predicate CreateInputValid(r: CreateRequest) {
    && 1 <= |Text.Trim(r.title)| <= 100
    && r.amount >= 1
    && (r.description.Some? ==> |Text.Trim(r.description.value)| <= 500)
  }

  /** `new Income({...})` with `date ? new Date(date) : new Date()` and no source. */
  function CreatedIncome(user: Id, r: CreateRequest, now: int): Income {
    IncomeModel.New(user, Text.Trim(r.title), r.amount, ExpenseModel.TrimOpt(r.description), r.date.GetOr(now), r.walletId, None)
  }

  /** The ledger row the handler builds: no `source`, although the schema requires one for income. */
  function IncomeRow(user: Id, i: Income): Transaction {
    TransactionModel.New(user, "income", i.amount, i.title, None, None, None, Some(i.walletId), i.date, None)
  }

  function CreateOutcome(s: State, user: Id, r: CreateRequest, now: int): Outcome {
    if !CreateInputValid(r) then Outcome(s, InvalidInput)
    else
      var w := OwnedWallet(s, r.walletId, user);
      if w.None? then Outcome(s, WalletNotFound)
      else
        var i := CreatedIncome(user, r, now);
        if !IncomeModel.Valid(i) then Outcome(s, ServerError)
        else CreditAndLog(AddIncome(s, i), user, r.walletId, w.value, i, s.nextId)
  }

  /** `wallet.balance += amount; wallet.save()`, then the Transaction save. */
  function CreditAndLog(s: State, user: Id, wid: Id, w: Wallet, i: Income, iid: Id): Outcome {
    var w1 := w.(balance := w.balance + i.amount);
    if !WalletModel.Valid(w1) then Outcome(s, ServerError)
    else
      var s1 := PutWallet(s, wid, w1);
      var row := IncomeRow(user, i);
      if !TransactionModel.Valid(row) then Outcome(s1, ServerError)
      else Outcome(AddTransaction(s1, row), Ok(201, Some(iid)))
  }

  method Create(db: Database, user: Id, r: CreateRequest, now: int) returns (reply: Reply)
    requires db.Valid()
    modifies db
    ensures db.Valid()
    ensures Outcome(db.Snapshot(), reply) == CreateOutcome(old(db.Snapshot()), user, r, now)
  {
    if !CreateInputValid(r) { return InvalidInput; }
    var w := OwnedWallet(db.Snapshot(), r.walletId, user);
    if w.None? { return WalletNotFound; }
    var i := CreatedIncome(user, r, now);
    ghost var s0 := db.Snapshot();
    var iid := db.InsertIncome(i);
    if iid.None? { return ServerError; }
    AddIncomeKeeps(s0, i);
    reply := Credit(db, user, r.walletId, w.value, i, iid.value);
  }

  method Credit(db: Database, user: Id, wid: Id, w: Wallet, i: Income, iid: Id) returns (reply: Reply)
    requires db.Valid() && wid in db.wallets
    modifies db
    ensures db.Valid()
    ensures Outcome(db.Snapshot(), reply) == CreditAndLog(old(db.Snapshot()), user, wid, w, i, iid)
  {
    ghost var s0 := db.Snapshot();
    var w1 := w.(balance := w.balance + i.amount);
    var ok := db.SaveWallet(wid, w1);
    if !ok { return ServerError; }
    PutWalletKeeps(s0, wid, w1);
    ghost var s1 := db.Snapshot();
    var row := IncomeRow(user, i);
    var tid := db.InsertTransaction(row);
    if tid.None? { return ServerError; }
    AddTransactionKeeps(s1, row);
    reply := Ok(201, Some(iid));
  }

  /** The income row always fails the Transaction schema, whose `source` is required for income. */
  lemma IncomeRowRejected(user: Id, i: Income)
    ensures !TransactionModel.Valid(IncomeRow(user, i))
    ensures var row := IncomeRow(user, i);
      && row.kind == "income" && row.amount == i.amount && row.description == Text.Trim(i.title)
      && row.toWalletId == Some(i.walletId) && row.date == i.date && row.source.None? && row.expenseId.None?
  {
  }

  /** A valid create on the caller's wallet stores the Income and credits the wallet, with no guard, and then answers 500 with no ledger row. */
  lemma CreateCreditsThenFails(s: State, user: Id, r: CreateRequest, now: int)
    requires Consistent(s) && CreateInputValid(r) && OwnedWallet(s, r.walletId, user).Some?
    ensures var o := CreateOutcome(s, user, r, now);
      var w := s.wallets[r.walletId];
      var i := CreatedIncome(user, r, now);
      && o.reply == ServerError
      && o.state == s.(incomes := s.incomes[s.nextId := i],
                       wallets := s.wallets[r.walletId := w.(balance := w.balance + r.amount)],
                       nextId := s.nextId + 1)
      && i.amount == r.amount && i.walletId == r.walletId && i.userId == user
      && i.date == r.date.GetOr(now) && i.source == "other" && i.title == Text.Trim(r.title)
      && WalletModel.Valid(w.(balance := w.balance + r.amount))
  {
    var i := CreatedIncome(user, r, now);
    Text.TrimIdempotent(r.title);
    assert IncomeModel.Valid(i);
    assert WalletModel.Valid(s.wallets[r.walletId]);
    IncomeRowRejected(user, i);
  }

  /** Creating income on a wallet that is not the caller's writes nothing. */
  lemma CreateUnownedWallet(s: State, user: Id, r: CreateRequest, now: int)
    requires CreateInputValid(r) && !(r.walletId in s.wallets && s.wallets[r.walletId].userId == user)
    ensures CreateOutcome(s, user, r, now) == Outcome(s, WalletNotFound)
  {
  }

  // ===========================================================================
  // DELETE /api/income/:id
  //
  // The row `Transaction.findOneAndDelete({ _id: income.transactionId })`
  // removes is not determined by the code (the Income schema has no such
  // field), so it is the parameter `victim`.

  function DeleteOutcome(s: State, user: Id, id: Id, victim: Option<Id>): Outcome {
    if !(id in s.incomes && s.incomes[id].userId == user) then Outcome(s, IncomeNotFound)
    else
      var i := s.incomes[id];
      if i.walletId !in s.wallets then Outcome(s, ServerError)
      else
        var w := s.wallets[i.walletId];
        var w1 := w.(balance := w.balance - i.amount);
        if !WalletModel.Valid(w1) then Outcome(s, ServerError)
        else Outcome(RemoveRows(PutWallet(s, i.walletId, w1), id, victim), Ok(200, None))
  }

  /** After the debit: the looked-up Transaction (if any), then the Income. */
  function RemoveRows(s: State, id: Id, victim: Option<Id>): State {
    RemoveIncome(RemoveTransactionOpt(s, victim), id)
  }

  method Delete(db: Database, user: Id, id: Id, victim: Option<Id>) returns (reply: Reply)
    requires db.Valid()
    modifies db
    ensures db.Valid()
    ensures Outcome(db.Snapshot(), reply) == DeleteOutcome(old(db.Snapshot()), user, id, victim)
  {
    if !(id in db.incomes && db.incomes[id].userId == user) { return IncomeNotFound; }
    var i := db.incomes[id];
    if i.walletId !in db.wallets { return ServerError; }
    var w := db.wallets[i.walletId];
    var w1 := w.(balance := w.balance - i.amount);
    ghost var s0 := db.Snapshot();
    var ok := db.SaveWallet(i.walletId, w1);
    if !ok { return ServerError; }
    PutWalletKeeps(s0, i.walletId, w1);
    DeleteRows(db, id, victim);
    reply := Ok(200, None);
  }

  method DeleteRows(db: Database, id: Id, victim: Option<Id>)
    requires db.Valid()
    modifies db
    ensures db.Valid()
    ensures db.Snapshot() == RemoveRows(old(db.Snapshot()), id, victim)
  {
    RemovalsKeep(db.Snapshot(), id, victim);
    db.DeleteTransaction(victim);
    RemovalsKeep(db.Snapshot(), id, victim);
    db.DeleteIncome(id);
  }

  /** Deleting the caller's income debits its wallet by the amount with no sufficiency check and removes the Income, whatever row the lookup hits. */
  lemma DeleteEffect(s: State, user: Id, id: Id, victim: Option<Id>)
    requires id in s.incomes && s.incomes[id].userId == user && s.incomes[id].walletId in s.wallets
    requires WalletModel.Valid(s.wallets[s.incomes[id].walletId])
    ensures var o := DeleteOutcome(s, user, id, victim);
      var i := s.incomes[id];
      var w := s.wallets[i.walletId];
      && o.reply == Ok(200, None)
      && o.state.wallets == s.wallets[i.walletId := w.(balance := w.balance - i.amount)]
      && o.state.incomes == s.incomes - {id}
      && o.state.expenses == s.expenses && o.state.nextId == s.nextId
  {
  }

  lemma DeleteUnowned(s: State, user: Id, id: Id, victim: Option<Id>)
    requires !(id in s.incomes && s.incomes[id].userId == user)
    ensures DeleteOutcome(s, user, id, victim) == Outcome(s, IncomeNotFound)
  {
  }

  /** Deleting an income just created restores the wallets and the incomes, although the create answered 500. */
  lemma CreateThenDeleteRestores(s: State, user: Id, r: CreateRequest, now: int, victim: Option<Id>)
    requires Consistent(s) && CreateInputValid(r) && OwnedWallet(s, r.walletId, user).Some?
    ensures var c := CreateOutcome(s, user, r, now);
      var d := DeleteOutcome(c.state, user, s.nextId, victim);
      && d.reply == Ok(200, None)
      && d.state.wallets == s.wallets && d.state.incomes == s.incomes && d.state.expenses == s.expenses
  {
    CreateCreditsThenFails(s, user, r, now);
    assert s.nextId !in s.incomes;
    DeleteCredited(s, CreateOutcome(s, user, r, now).state, user, CreatedIncome(user, r, now), victim);
  }

  /** Deleting the income just recorded in `s1` debits the wallet back and drops the income. */
  lemma DeleteCredited(s: State, s1: State, user: Id, i: Income, victim: Option<Id>)
    requires s.nextId !in s.incomes && i.walletId in s.wallets && i.userId == user
    requires var w := s.wallets[i.walletId];
      && WalletModel.Valid(w)
      && s1.wallets == s.wallets[i.walletId := w.(balance := w.balance + i.amount)]
      && s1.incomes == s.incomes[s.nextId := i]
      && s1.expenses == s.expenses
    ensures var d := DeleteOutcome(s1, user, s.nextId, victim);
      && d.reply == Ok(200, None)
      && d.state.wallets == s.wallets && d.state.incomes == s.incomes && d.state.expenses == s.expenses
  {
    var w := s.wallets[i.walletId];
    assert w.(balance := w.balance + i.amount).(balance := w.balance + i.amount - i.amount) == w;
    DeleteEffect(s1, user, s.nextId, victim);
    UpdateThenRestore(s.wallets, i.walletId, w.(balance := w.balance + i.amount));
    InsertThenRemove(s.incomes, s.nextId, i);
  }

  // ===========================================================================
  // GET /api/income and GET /api/income/summary

  /** The query string; `page` and `limit` default to 1 and 10. */
  datatype ListQuery = ListQuery(page: Option<int>, limit: Option<nat>, start: Option<int>, end: Option<int>)

  function LimitOf(q: ListQuery): nat {
    q.limit.GetOr(10)
  }

  predicate Matches(user: Id, start: Option<int>, end: Option<int>, i: Income) {
    i.userId == user && Listing.InRange(i.date, start, end)
  }

  function Filter(user: Id, start: Option<int>, end: Option<int>): Income -> bool {
    (i: Income) => Matches(user, start, end, i)
  }

  function ByDate(r: (Id, Income)): int {
    r.1.date
  }

  function List(s: State, user: Id, q: ListQuery): Option<Listing.Page<Income>> {
    Listing.PageOf(s.incomes, Filter(user, q.start, q.end), s.nextId, ByDate, q.page.GetOr(1), LimitOf(q))
  }

  /** A page shows only the caller's incomes in the range, newest first: exactly those ranked in its slice of the
      newest-first order, `min(limit, total - skip)` of them. */
  lemma ListSound(s: State, user: Id, q: ListQuery)
    requires List(s, user, q).Some?
    ensures var rows := List(s, user, q).value.rows;
      && (forall k :: 0 <= k < |rows| ==> rows[k].0 in s.incomes && s.incomes[rows[k].0] == rows[k].1
                                          && Matches(user, q.start, q.end, rows[k].1))
      && Listing.SortedDesc(rows, ByDate)
      && (LimitOf(q) > 0 ==> |rows| <= LimitOf(q))
    ensures var all := Listing.Collect(s.incomes, Filter(user, q.start, q.end), 0, s.nextId); var sorted := Listing.SortDesc(all, ByDate);
      var skip := (q.page.GetOr(1) - 1) * LimitOf(q); var rows := List(s, user, q).value.rows;
      && |rows| == Listing.PageSize(|all|, skip, LimitOf(q))
      && forall i :: skip <= i < |sorted| && (LimitOf(q) == 0 || i < skip + LimitOf(q)) ==> i - skip < |rows| && rows[i - skip] == sorted[i]
    ensures List(s, user, q).value.totalPages == Listing.TotalPages(|Listing.Collect(s.incomes, Filter(user, q.start, q.end), 0, s.nextId)|, LimitOf(q))
  {
    Listing.PageOfSound(s.incomes, Filter(user, q.start, q.end), s.nextId, ByDate, q.page.GetOr(1), LimitOf(q));
  }

  /** A page number below 1 gives a negative skip, which the database refuses. */
  lemma ListNegativeSkip(s: State, user: Id, q: ListQuery)
    requires q.page.Some? && q.page.value < 1 && LimitOf(q) > 0
    ensures List(s, user, q).None?
  {
    assert (q.page.value - 1) * LimitOf(q) < 0 by {
      assert q.page.value - 1 < 0;
    }
  }

  datatype Summary = Summary(totalIncome: int, count: nat)

  function AmountOf(i: Income): int {
    i.amount
  }

  /** `summary[0] || { totalIncome: 0, count: 0 }`. */
  function SummaryOf(rows: seq<(Id, Income)>): Summary {
    var g := Aggregate.GroupAll(rows, AmountOf);
    if g == [] then Summary(0, 0) else Summary(g[0].total, g[0].count)
  }

  function IncomeSummary(s: State, user: Id, start: Option<int>, end: Option<int>): Summary {
    SummaryOf(Listing.Collect(s.incomes, Filter(user, start, end), 0, s.nextId))
  }

  /** The fallback agrees with an empty aggregate, so the summary is always the total and count of the matching incomes. */
  lemma SummaryIsTotal(rows: seq<(Id, Income)>)
    ensures SummaryOf(rows) == Summary(Listing.Sum(Aggregate.Amounts(rows, AmountOf)), |rows|)
    ensures rows == [] ==> SummaryOf(rows) == Summary(0, 0)
  {
  }
}
