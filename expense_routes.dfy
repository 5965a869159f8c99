// The expense handlers (backend/routes/expenseRoutes.js): create, update,
// delete and bulk import change wallet balances and the Transaction ledger;
// the list and summary routes only read.
module ExpenseRoutes {
  import opened Base
  import Text
  import opened Store
  import opened WalletModel
  import opened ExpenseModel
  import opened TransactionModel
  import Listing
  import Aggregate

  const ExpenseNotFound: Reply := Fail(404, "Expense not found")
  const ImportedTitle: string := "Imported Transaction"

  // ===========================================================================
  // POST /api/expenses

  datatype CreateRequest = CreateRequest(
    title: string, amount: int, category: string, walletId: Id,
    description: Option<string>, date: Option<int>, tags: Option<seq<string>>)

  /** The route's validator chain (title trimmed to 1..100, amount at least 0.01, an enumerated category, description up to 500). */
  predicate CreateInputValid(r: CreateRequest) {
    && 1 <= |Text.Trim(r.title)| <= 100
    && r.amount >= 1
    && r.category in Categories
    && (r.description.Some? ==> |Text.Trim(r.description.value)| <= 500)
  }

  /** The expense the handler builds from a validated (sanitised) request. */
  function CreatedExpense(user: Id, r: CreateRequest, now: int): Expense {
    ExpenseModel.New(user, Text.Trim(r.title), r.amount, r.category, TrimOpt(r.description),
                     r.date.GetOr(now), r.walletId, r.tags.GetOr([]))
  }

  /** The Transaction row written alongside a new expense. */
  function ExpenseRow(user: Id, e: Expense, eid: Id): Transaction {
    TransactionModel.New(user, "expense", e.amount, e.title, Some(e.category), None,
                         Some(e.walletId), None, e.date, Some(eid))
  }

  function CreateOutcome(s: State, user: Id, r: CreateRequest, now: int): Outcome {
    if !CreateInputValid(r) then Outcome(s, InvalidInput)
    else
      var wallet := OwnedWallet(s, r.walletId, user);
      if wallet.None? then Outcome(s, WalletNotFound)
      else if wallet.value.kind != CreditCard && wallet.value.balance < r.amount then Outcome(s, InsufficientBalance)
      else RecordExpense(s, user, r.walletId, wallet.value, CreatedExpense(user, r, now))
  }

  /** Save the expense, debit wallet `wid` (currently `w`) and write the ledger row; each save that fails ends the handler with the earlier saves kept. */
  function RecordExpense(s: State, user: Id, wid: Id, w: Wallet, e: Expense): Outcome {
    if !ExpenseModel.Valid(e) then Outcome(s, ServerError)
    else DebitAndLog(AddExpense(s, e), user, wid, w, e, s.nextId)
  }

  function DebitAndLog(s: State, user: Id, wid: Id, w: Wallet, e: Expense, eid: Id): Outcome {
    var w1 := w.(balance := w.balance - e.amount);
    if !WalletModel.Valid(w1) then Outcome(s, ServerError)
    else LogExpense(PutWallet(s, wid, w1), user, e, eid)
  }

  function LogExpense(s: State, user: Id, e: Expense, eid: Id): Outcome {
    var t := ExpenseRow(user, e, eid);
    if !TransactionModel.Valid(t) then Outcome(s, ServerError)
    else Outcome(AddTransaction(s, t), Ok(201, Some(eid)))
  }

  method Record(db: Database, user: Id, wid: Id, w: Wallet, e: Expense) returns (reply: Reply)
    requires db.Valid() && wid in db.wallets
    modifies db
    ensures db.Valid()
    ensures Outcome(db.Snapshot(), reply) == RecordExpense(old(db.Snapshot()), user, wid, w, e)
  {
    ghost var s0 := db.Snapshot();
    var eid := db.InsertExpense(e);
    if eid.None? { return ServerError; }
    AddExpenseKeeps(s0, e);
    ghost var s1 := db.Snapshot();
    assert RecordExpense(s0, user, wid, w, e) == DebitAndLog(s1, user, wid, w, e, s0.nextId);
    var w1 := w.(balance := w.balance - e.amount);
    var saved := db.SaveWallet(wid, w1);
    if !saved { return ServerError; }
    PutWalletKeeps(s1, wid, w1);
    ghost var s2 := db.Snapshot();
    assert DebitAndLog(s1, user, wid, w, e, s0.nextId) == LogExpense(s2, user, e, s0.nextId);
    var t := ExpenseRow(user, e, eid.value);
    var tid := db.InsertTransaction(t);
    if tid.None? { return ServerError; }
    AddTransactionKeeps(s2, t);
    reply := Ok(201, eid);
  }

  method Create(db: Database, user: Id, r: CreateRequest, now: int) returns (reply: Reply)
    requires db.Valid()
    modifies db
    ensures db.Valid()
    ensures Outcome(db.Snapshot(), reply) == CreateOutcome(old(db.Snapshot()), user, r, now)
  {
    if !CreateInputValid(r) { return InvalidInput; }
    var wallet := OwnedWallet(db.Snapshot(), r.walletId, user);
    if wallet.None? { return WalletNotFound; }
    if wallet.value.kind != CreditCard && wallet.value.balance < r.amount { return InsufficientBalance; }
    reply := Record(db, user, r.walletId, wallet.value, CreatedExpense(user, r, now));
  }

  /** The rows `RecordExpense` writes when every schema holds. */
  lemma RecordEffect(s: State, user: Id, wid: Id, e: Expense)
    requires wid in s.wallets && ExpenseModel.Valid(e) && e.walletId == wid && Text.Trim(e.title) == e.title
    requires WalletModel.Valid(s.wallets[wid])
    ensures var o := RecordExpense(s, user, wid, s.wallets[wid], e);
      var w := s.wallets[wid];
      var eid := s.nextId;
      && o.reply == Ok(201, Some(eid))
      && o.state.wallets == s.wallets[wid := w.(balance := w.balance - e.amount)]
      && o.state.expenses == s.expenses[eid := e]
      && o.state.transactions == s.transactions[eid + 1 := ExpenseRow(user, e, eid)]
      && o.state.incomes == s.incomes && o.state.users == s.users && o.state.budgets == s.budgets
      && o.state.nextId == s.nextId + 2
  {
    var t := ExpenseRow(user, e, s.nextId);
    assert TransactionModel.Valid(t);
  }

  /** The ledger row written for an expense mirrors it. */
  lemma ExpenseRowMirrors(user: Id, e: Expense, eid: Id)
    requires Text.Trim(e.title) == e.title
    ensures var t := ExpenseRow(user, e, eid);
      && t.kind == "expense" && t.amount == e.amount && t.fromWalletId == Some(e.walletId)
      && t.toWalletId.None? && t.expenseId == Some(eid) && t.date == e.date
      && t.description == e.title && t.category == Some(e.category) && t.source.None?
      && t.status == "completed" && t.userId == user
  {
  }

  /** Creating on a wallet the caller does not own changes nothing. */
  lemma CreateUnownedWallet(s: State, user: Id, r: CreateRequest, now: int)
    requires CreateInputValid(r) && OwnedWallet(s, r.walletId, user).None?
    ensures CreateOutcome(s, user, r, now) == Outcome(s, WalletNotFound)
  {
  }

  /** A non-credit-card wallet short of funds refuses the expense before any write. */
  lemma CreateInsufficient(s: State, user: Id, r: CreateRequest, now: int)
    requires CreateInputValid(r) && r.walletId in s.wallets && s.wallets[r.walletId].userId == user
    requires s.wallets[r.walletId].kind != "credit_card" && s.wallets[r.walletId].balance < r.amount
    ensures CreateOutcome(s, user, r, now) == Outcome(s, InsufficientBalance)
  {
  }

  /** A successful create saves the sanitised expense under the next id, debits the wallet by the amount and writes the mirroring ledger row. */
  lemma CreateSucceeds(s: State, user: Id, r: CreateRequest, now: int)
    requires Consistent(s) && CreateInputValid(r)
    requires r.walletId in s.wallets && s.wallets[r.walletId].userId == user
    requires s.wallets[r.walletId].kind == "credit_card" || s.wallets[r.walletId].balance >= r.amount
    ensures var o := CreateOutcome(s, user, r, now);
      var w := s.wallets[r.walletId];
      var e := CreatedExpense(user, r, now);
      var eid := s.nextId;
      && o.reply == Ok(201, Some(eid))
      && o.state.wallets == s.wallets[r.walletId := w.(balance := w.balance - r.amount)]
      && o.state.expenses == s.expenses[eid := e]
      && e.amount == r.amount && e.walletId == r.walletId && e.category == r.category
      && e.title == Text.Trim(r.title) && e.date == r.date.GetOr(now)
      && o.state.transactions == s.transactions[eid + 1 := ExpenseRow(user, e, eid)]
      && o.state.incomes == s.incomes && o.state.users == s.users && o.state.budgets == s.budgets
      && o.state.nextId == s.nextId + 2
  {
    var e := CreatedExpense(user, r, now);
    Text.TrimIdempotent(r.title);
    assert e.category in Categories;
    assert ExpenseModel.Valid(e);
    RecordEffect(s, user, r.walletId, e);
  }

  /** A credit-card wallet is never refused for lack of funds, and its balance can go below zero. */
  lemma CreateOnCreditCardOverdraws(s: State, user: Id, r: CreateRequest, now: int)
    requires Consistent(s) && CreateInputValid(r)
    requires r.walletId in s.wallets && s.wallets[r.walletId].userId == user
    requires s.wallets[r.walletId].kind == "credit_card" && s.wallets[r.walletId].balance < r.amount
    ensures CreateOutcome(s, user, r, now).reply.Ok?
    ensures CreateOutcome(s, user, r, now).state.wallets[r.walletId].balance < 0
  {
    CreateSucceeds(s, user, r, now);
  }

  // ===========================================================================
  // PUT /api/expenses/:id

  datatype UpdateRequest = UpdateRequest(
    title: Option<string>, amount: Option<int>, category: Option<string>,
    description: Option<string>, date: Option<int>, walletId: Option<Id>,
    tags: Option<seq<string>>, isRecurring: Option<bool>, recurringFrequency: Option<string>,
    userId: Option<Id>)

  predicate UpdateInputValid(u: UpdateRequest) {
    && (u.title.Some? ==> 1 <= |Text.Trim(u.title.value)| <= 100)
    && (u.amount.Some? ==> u.amount.value >= 1)
    && (u.category.Some? ==> u.category.value in Categories)
    && (u.description.Some? ==> |Text.Trim(u.description.value)| <= 500)
  }

  /** `Object.assign(expense, updates)`: every supplied field overwrites, through the schema's trim setters;
      nothing strips `userId` from the body, so a supplied owner overwrites too. */
  function Assign(e: Expense, u: UpdateRequest): (r: Expense)
    ensures r.userId == u.userId.GetOr(e.userId)
    ensures r.amount == u.amount.GetOr(e.amount) && r.category == u.category.GetOr(e.category)
    ensures r.walletId == u.walletId.GetOr(e.walletId) && r.date == u.date.GetOr(e.date)
    ensures r.isRecurring == u.isRecurring.GetOr(e.isRecurring)
    ensures u.recurringFrequency.Some? ==> r.recurringFrequency == u.recurringFrequency
    ensures u.recurringFrequency.None? ==> r.recurringFrequency == e.recurringFrequency
    ensures r.title == if u.title.Some? then Text.Trim(u.title.value) else e.title
    ensures r.tags == if u.tags.Some? then TrimAll(u.tags.value) else e.tags
    ensures r.description == if u.description.Some? then Some(Text.Trim(u.description.value)) else e.description
  {
    e.(userId := u.userId.GetOr(e.userId),
       title := if u.title.Some? then Text.Trim(u.title.value) else e.title,
       amount := u.amount.GetOr(e.amount),
       category := u.category.GetOr(e.category),
       description := if u.description.Some? then Some(Text.Trim(u.description.value)) else e.description,
       date := u.date.GetOr(e.date),
       walletId := u.walletId.GetOr(e.walletId),
       tags := if u.tags.Some? then TrimAll(u.tags.value) else e.tags,
       isRecurring := u.isRecurring.GetOr(e.isRecurring),
       recurringFrequency := if u.recurringFrequency.Some? then u.recurringFrequency else e.recurringFrequency)
  }

  /** `updates.amount && updates.amount !== expense.amount`. */
  predicate AmountChanges(e: Expense, u: UpdateRequest) {
    u.amount.Some? && u.amount.value != 0 && u.amount.value != e.amount
  }

  /** The balance and ledger adjustment for a changed amount; `None` when the wallet lookup yields nothing (the handler then fails with nothing written). */
  function AdjustForAmount(s: State, eid: Id, e: Expense, u: UpdateRequest): Option<State> {
    if !AmountChanges(e, u) then Some(s)
    else if e.walletId !in s.wallets then None
    else
      var w := s.wallets[e.walletId];
      var w1 := w.(balance := w.balance - (u.amount.value - e.amount));
      if !WalletModel.Valid(w1) then None
      else
        var s1 := PutWallet(s, e.walletId, w1);
        var t := LinkedTransaction(s1, eid);
        Some(if t.Some? then PutTransaction(s1, t.value, s1.transactions[t.value].(amount := u.amount.value)) else s1)
  }

  function UpdateOutcome(s: State, user: Id, id: Id, u: UpdateRequest): Outcome {
    if !UpdateInputValid(u) then Outcome(s, InvalidInput)
    else if !(id in s.expenses && s.expenses[id].userId == user) then Outcome(s, ExpenseNotFound)
    else
      var e := s.expenses[id];
      var adjusted := AdjustForAmount(s, id, e, u);
      if adjusted.None? then Outcome(s, ServerError)
      else SaveUpdated(adjusted.value, id, Assign(e, u))
  }

  function SaveUpdated(s: State, id: Id, e: Expense): Outcome {
    if !ExpenseModel.Valid(e) then Outcome(s, ServerError)
    else Outcome(PutExpense(s, id, e), Ok(200, None))
  }

  /** The amount branch of the update handler; `ok` is false when it ended the request. */
  method Adjust(db: Database, id: Id, e: Expense, u: UpdateRequest) returns (ok: bool)
    requires db.Valid() && id in db.expenses && db.expenses[id] == e
    modifies db
    ensures db.Valid() && id in db.expenses && db.expenses[id] == e
    ensures var a := AdjustForAmount(old(db.Snapshot()), id, e, u);
      ok == a.Some? && db.Snapshot() == if ok then a.value else old(db.Snapshot())
  {
    ghost var s0 := db.Snapshot();
    if !AmountChanges(e, u) { return true; }
    if e.walletId !in db.wallets { return false; }
    var w := db.wallets[e.walletId];
    var w1 := w.(balance := w.balance - (u.amount.value - e.amount));
    ok := db.SaveWallet(e.walletId, w1);
    if !ok { return; }
    PutWalletKeeps(s0, e.walletId, w1);
    ghost var s1 := db.Snapshot();
    ghost var t := LinkedTransaction(s1, id);
    db.SetLinkedAmount(id, u.amount.value);
    if t.Some? {
      PutTransactionKeeps(s1, t.value, s1.transactions[t.value].(amount := u.amount.value));
    }
  }

  method Update(db: Database, user: Id, id: Id, u: UpdateRequest) returns (reply: Reply)
    requires db.Valid()
    modifies db
    ensures db.Valid()
    ensures Outcome(db.Snapshot(), reply) == UpdateOutcome(old(db.Snapshot()), user, id, u)
  {
    if !UpdateInputValid(u) { return InvalidInput; }
    if !(id in db.expenses && db.expenses[id].userId == user) { return ExpenseNotFound; }
    var e := db.expenses[id];
    var adjusted := Adjust(db, id, e, u);
    if !adjusted { return ServerError; }
    var e1 := Assign(e, u);
    ghost var s1 := db.Snapshot();
    var ok := db.SaveExpense(id, e1);
    if !ok { return ServerError; }
    PutExpenseKeeps(s1, id, e1);
    reply := Ok(200, None);
  }

  /** A changed amount A to B moves the wallet's balance by A - B and sets the linked row's amount to B; the wallet is looked up by id only, whoever owns it. */
  lemma UpdateAmountDelta(s: State, user: Id, id: Id, u: UpdateRequest)
    requires Consistent(s) && UpdateInputValid(u)
    requires id in s.expenses && s.expenses[id].userId == user
    requires AmountChanges(s.expenses[id], u) && s.expenses[id].walletId in s.wallets
    requires ExpenseModel.Valid(Assign(s.expenses[id], u))
    ensures var o := UpdateOutcome(s, user, id, u);
      var e := s.expenses[id];
      var w := s.wallets[e.walletId];
      && o.reply == Ok(200, None)
      && o.state.wallets == s.wallets[e.walletId := w.(balance := w.balance + e.amount - u.amount.value)]
      && o.state.expenses == s.expenses[id := Assign(e, u)]
      && var t := LinkedTransaction(s, id);
         (t.Some? ==> o.state.transactions == s.transactions[t.value := s.transactions[t.value].(amount := u.amount.value)])
         && (t.None? ==> o.state.transactions == s.transactions)
  {
  }

  /** Without a changed amount (even when `walletId` changes) no balance and no ledger row moves; the supplied fields overwrite the expense. */
  lemma UpdateWithoutAmountChange(s: State, user: Id, id: Id, u: UpdateRequest)
    requires UpdateInputValid(u) && id in s.expenses && s.expenses[id].userId == user
    requires !AmountChanges(s.expenses[id], u)
    ensures var o := UpdateOutcome(s, user, id, u);
      && o.state.wallets == s.wallets && o.state.transactions == s.transactions
      && (ExpenseModel.Valid(Assign(s.expenses[id], u)) ==> o == Outcome(PutExpense(s, id, Assign(s.expenses[id], u)), Ok(200, None)))
      && (!ExpenseModel.Valid(Assign(s.expenses[id], u)) ==> o == Outcome(s, ServerError))
  {
  }

  /** A body carrying `userId` hands the expense to that user while its ledger row and wallet stay where they were:
      the old owner can no longer delete it, and the new owner can. */
  lemma UpdateMovesOwner(s: State, user: Id, id: Id, u: UpdateRequest, other: Id)
    requires u.userId == Some(other) && other != user
    requires UpdateInputValid(u) && id in s.expenses && s.expenses[id].userId == user
    requires !AmountChanges(s.expenses[id], u) && ExpenseModel.Valid(Assign(s.expenses[id], u))
    ensures var o := UpdateOutcome(s, user, id, u);
      && o.reply == Ok(200, None)
      && o.state.expenses[id] == Assign(s.expenses[id], u) && o.state.expenses[id].userId == other
      && o.state.transactions == s.transactions && o.state.wallets == s.wallets
      && DeleteOutcome(o.state, user, id) == Outcome(o.state, ExpenseNotFound)
      && DeleteOutcome(o.state, other, id).reply != ExpenseNotFound
  {
  }

  /** An update that makes the expense fail its schema still keeps the balance and ledger changes made before the save. */
  lemma UpdateFailingSaveKeepsAdjustment(s: State, user: Id, id: Id, u: UpdateRequest)
    requires Consistent(s) && UpdateInputValid(u) && id in s.expenses && s.expenses[id].userId == user
    requires AmountChanges(s.expenses[id], u) && s.expenses[id].walletId in s.wallets
    requires !ExpenseModel.Valid(Assign(s.expenses[id], u))
    ensures var o := UpdateOutcome(s, user, id, u);
      o.reply == ServerError && o.state.expenses == s.expenses
      && o.state.wallets[s.expenses[id].walletId].balance == s.wallets[s.expenses[id].walletId].balance + s.expenses[id].amount - u.amount.value
  {
  }

  // ===========================================================================
  // DELETE /api/expenses/:id

  function DeleteOutcome(s: State, user: Id, id: Id): Outcome {
    if !(id in s.expenses && s.expenses[id].userId == user) then Outcome(s, ExpenseNotFound)
    else
      var e := s.expenses[id];
      if e.walletId !in s.wallets then Outcome(s, ServerError)
      else
        var w := s.wallets[e.walletId];
        var w1 := w.(balance := w.balance + e.amount);
        if !WalletModel.Valid(w1) then Outcome(s, ServerError)
        else Outcome(Unlink(PutWallet(s, e.walletId, w1), id), Ok(200, None))
  }

  /** Remove the expense and the ledger row linked to it. */
  function Unlink(s: State, id: Id): State {
    RemoveExpense(RemoveTransactionOpt(s, LinkedTransaction(s, id)), id)
  }

  method RemoveLinked(db: Database, id: Id)
    requires db.Valid()
    modifies db
    ensures db.Valid() && db.Snapshot() == Unlink(old(db.Snapshot()), id)
  {
    var t := FirstLinked(db.transactions, id, 0, db.nextId);
    RemovalsKeep(db.Snapshot(), id, t);
    db.DeleteTransaction(t);
    RemovalsKeep(db.Snapshot(), id, t);
    db.DeleteExpense(id);
  }

  method Delete(db: Database, user: Id, id: Id) returns (reply: Reply)
    requires db.Valid()
    modifies db
    ensures db.Valid()
    ensures Outcome(db.Snapshot(), reply) == DeleteOutcome(old(db.Snapshot()), user, id)
  {
    if !(id in db.expenses && db.expenses[id].userId == user) { return ExpenseNotFound; }
    var e := db.expenses[id];
    if e.walletId !in db.wallets { return ServerError; }
    var w := db.wallets[e.walletId];
    var w1 := w.(balance := w.balance + e.amount);
    ghost var s0 := db.Snapshot();
    assert e == s0.expenses[id] && w == s0.wallets[e.walletId];
    var saved := db.SaveWallet(e.walletId, w1);
    if !saved { return ServerError; }
    PutWalletKeeps(s0, e.walletId, w1);
    ghost var s1 := db.Snapshot();
    assert s1 == PutWallet(s0, e.walletId, w1);
    assert DeleteOutcome(s0, user, id) == Outcome(Unlink(s1, id), Ok(200, None));
    RemoveLinked(db, id);
    reply := Ok(200, None);
  }

  /** Delete credits the wallet by the expense amount and removes the expense and its linked row. */
  lemma DeleteEffect(s: State, user: Id, id: Id)
    requires id in s.expenses && s.expenses[id].userId == user
    requires s.expenses[id].walletId in s.wallets && WalletModel.Valid(s.wallets[s.expenses[id].walletId])
    ensures var o := DeleteOutcome(s, user, id);
      var e := s.expenses[id];
      var w := s.wallets[e.walletId];
      var t := LinkedTransaction(s, id);
      && o.reply == Ok(200, None)
      && o.state.wallets == s.wallets[e.walletId := w.(balance := w.balance + e.amount)]
      && o.state.expenses == s.expenses - {id}
      && o.state.transactions == (if t.Some? then s.transactions - {t.value} else s.transactions)
      && o.state.incomes == s.incomes && o.state.users == s.users && o.state.budgets == s.budgets
      && o.state.nextId == s.nextId
  {
  }

  /** Create followed by delete of the new expense leaves every collection as it was. */
  lemma CreateThenDeleteRestores(s: State, user: Id, r: CreateRequest, now: int)
    requires Consistent(s) && CreateInputValid(r)
    requires r.walletId in s.wallets && s.wallets[r.walletId].userId == user
    requires s.wallets[r.walletId].kind == "credit_card" || s.wallets[r.walletId].balance >= r.amount
    ensures var c := CreateOutcome(s, user, r, now);
      && c.reply.Ok? && c.reply.id.Some?
      && var d := DeleteOutcome(c.state, user, c.reply.id.value);
         d.reply == Ok(200, None) && d.state == s.(nextId := s.nextId + 2)
  {
    var e := CreatedExpense(user, r, now);
    Text.TrimIdempotent(r.title);
    assert ExpenseModel.Valid(e);
    assert CreateOutcome(s, user, r, now) == RecordExpense(s, user, r.walletId, s.wallets[r.walletId], e);
    RecordThenDeleteRestores(s, user, r.walletId, e);
  }

  /** Recording an expense and deleting it again restores the store but for the two ids handed out. */
  lemma RecordThenDeleteRestores(s: State, user: Id, wid: Id, e: Expense)
    requires Consistent(s)
    requires wid in s.wallets && ExpenseModel.Valid(e) && e.walletId == wid && e.userId == user
    requires Text.Trim(e.title) == e.title && WalletModel.Valid(s.wallets[wid])
    ensures var c := RecordExpense(s, user, wid, s.wallets[wid], e);
      c.reply == Ok(201, Some(s.nextId))
      && DeleteOutcome(c.state, user, s.nextId) == Outcome(s.(nextId := s.nextId + 2), Ok(200, None))
  {
    RecordEffect(s, user, wid, e);
    assert s.nextId !in s.expenses;
    DeleteRecorded(s, RecordExpense(s, user, wid, s.wallets[wid], e).state, user, e);
  }

  /** Deleting the expense just recorded in `s1` undoes each write of the create handler. */
  lemma DeleteRecorded(s: State, s1: State, user: Id, e: Expense)
    requires TransactionsOk(s.transactions, s.nextId) && s.nextId !in s.expenses
    requires e.walletId in s.wallets && e.userId == user
    requires var w := s.wallets[e.walletId];
      && WalletModel.Valid(w)
      && s1.wallets == s.wallets[e.walletId := w.(balance := w.balance - e.amount)]
      && s1.expenses == s.expenses[s.nextId := e]
      && s1.transactions == s.transactions[s.nextId + 1 := ExpenseRow(user, e, s.nextId)]
      && s1.incomes == s.incomes && s1.users == s.users && s1.budgets == s.budgets
      && s1.nextId == s.nextId + 2
    ensures DeleteOutcome(s1, user, s.nextId) == Outcome(s.(nextId := s.nextId + 2), Ok(200, None))
  {
    var eid := s.nextId;
    DeleteEffect(s1, user, eid);
    FreshRowIsLinked(s.transactions, s.nextId, ExpenseRow(user, e, eid));
    var w := s.wallets[e.walletId];
    assert w.(balance := w.balance - e.amount).(balance := w.balance - e.amount + e.amount) == w;
    UpdateThenRestore(s.wallets, e.walletId, w.(balance := w.balance - e.amount));
    InsertThenRemove(s.expenses, eid, e);
    InsertThenRemove(s.transactions, eid + 1, ExpenseRow(user, e, eid));
  }

  /** The row written for the expense with the newest id is the one the delete handler finds. */
  lemma FreshRowIsLinked(txs: map<Id, Transaction>, n: nat, t: Transaction)
    requires TransactionsOk(txs, n) && t.expenseId == Some(n)
    ensures FirstLinked(txs[n + 1 := t], n, 0, n + 2) == Some(n + 1)
  {
    var m := txs[n + 1 := t];
    FirstLinkedSpec(m, n, 0, n + 2);
    var found := FirstLinked(m, n, 0, n + 2);
    assert n + 1 in m && m[n + 1].expenseId == Some(n);
  }

  // ===========================================================================
  // POST /api/expenses/bulk

  datatype BulkItem = BulkItem(
    walletId: Id, amount: Option<int>, title: Option<string>, category: Option<string>,
    description: Option<string>, date: Option<int>, tags: Option<seq<string>>)

  /** The request body's `transactions`: absent, not an array, or a list. */
  datatype BulkBody = Missing | NotAList | Items(items: seq<BulkItem>)

  datatype ItemFailure = WalletMissing | SaveRejected
  datatype ItemError = ItemError(item: BulkItem, failure: ItemFailure)

  datatype BulkReply = NoTransactions | Imported(count: nat, failed: nat, errors: seq<ItemError>)

  /** One item's effect; `error` is `None` exactly when the item was imported. */
  datatype Step = Step(state: State, error: Option<ItemError>)

  /** `x || fallback` for an optional string. */
  function OrDefault(x: Option<string>, fallback: string): string {
    if x.Some? && x.value != "" then x.value else fallback
  }

  function ImportedExpense(user: Id, item: BulkItem, amount: int, now: int): Expense {
    ExpenseModel.New(user, OrDefault(item.title, ImportedTitle), amount, OrDefault(item.category, "other"),
                     Some(OrDefault(item.description, "")), item.date.GetOr(now), item.walletId, item.tags.GetOr([]))
  }

  function ImportItem(s: State, user: Id, item: BulkItem, now: int): Step {
    var wallet := OwnedWallet(s, item.walletId, user);
    if wallet.None? then Step(s, Some(ItemError(item, WalletMissing)))
    else if item.amount.None? then Step(s, Some(ItemError(item, SaveRejected)))
    else
      var o := RecordExpense(s, user, item.walletId, wallet.value, ImportedExpense(user, item, item.amount.value, now));
      Step(o.state, if o.reply.Ok? then None else Some(ItemError(item, SaveRejected)))
  }

  datatype Tally = Tally(state: State, success: nat, failed: nat, errors: seq<ItemError>)

  /** The items processed in order, each independently; earlier successes stay committed. */
  function ImportAll(s: State, user: Id, items: seq<BulkItem>, now: int): (r: Tally)
    ensures r.success + r.failed == |items| && |r.errors| == r.failed
    decreases |items|
  {
    if items == [] then Tally(s, 0, 0, [])
    else
      var before := ImportAll(s, user, items[..|items| - 1], now);
      var step := ImportItem(before.state, user, items[|items| - 1], now);
      if step.error.None? then Tally(step.state, before.success + 1, before.failed, before.errors)
      else Tally(step.state, before.success, before.failed + 1, before.errors + [step.error.value])
  }

  function BulkOutcome(s: State, user: Id, body: BulkBody, now: int): (State, BulkReply) {
    if !body.Items? || |body.items| == 0 then (s, NoTransactions)
    else
      var t := ImportAll(s, user, body.items, now);
      (t.state, Imported(t.success, t.failed, t.errors))
  }

  method ImportOne(db: Database, user: Id, item: BulkItem, now: int) returns (error: Option<ItemError>)
    requires db.Valid()
    modifies db
    ensures db.Valid()
    ensures Step(db.Snapshot(), error) == ImportItem(old(db.Snapshot()), user, item, now)
  {
    var wallet := OwnedWallet(db.Snapshot(), item.walletId, user);
    if wallet.None? { return Some(ItemError(item, WalletMissing)); }
    if item.amount.None? { return Some(ItemError(item, SaveRejected)); }
    var e := ImportedExpense(user, item, item.amount.value, now);
    var reply := Record(db, user, item.walletId, wallet.value, e);
    error := if reply.Ok? then None else Some(ItemError(item, SaveRejected));
  }

  method BulkImport(db: Database, user: Id, body: BulkBody, now: int) returns (reply: BulkReply)
    requires db.Valid()
    modifies db
    ensures db.Valid()
    ensures (db.Snapshot(), reply) == BulkOutcome(old(db.Snapshot()), user, body, now)
  {
    if !body.Items? || |body.items| == 0 { return NoTransactions; }
    ghost var s0 := db.Snapshot();
    var items := body.items;
    var successCount, failedCount, errors := 0, 0, [];
    for i := 0 to |items|
      invariant db.Valid()
      invariant Tally(db.Snapshot(), successCount, failedCount, errors) == ImportAll(s0, user, items[..i], now)
    {
      ImportAllStep(s0, user, items, i, now);
      var error := ImportOne(db, user, items[i], now);
      if error.None? {
        successCount := successCount + 1;
      } else {
        errors := errors + [error.value];
        failedCount := failedCount + 1;
      }
    }
    assert items[..|items|] == items;
    reply := Imported(successCount, failedCount, errors);
  }

  /** `ImportAll` over one more item is one more `ImportItem` on the state the earlier items left. */
  lemma ImportAllStep(s: State, user: Id, items: seq<BulkItem>, i: nat, now: int)
    requires i < |items|
    ensures var before := ImportAll(s, user, items[..i], now);
      var step := ImportItem(before.state, user, items[i], now);
      ImportAll(s, user, items[..i + 1], now)
        == if step.error.None? then Tally(step.state, before.success + 1, before.failed, before.errors)
           else Tally(step.state, before.success, before.failed + 1, before.errors + [step.error.value])
  {
    assert items[..i + 1][..i] == items[..i];
  }

  /** A missing, non-array or empty list is refused before any write. */
  lemma BulkRejectsEmpty(s: State, user: Id, body: BulkBody, now: int)
    requires body.Missing? || body.NotAList? || (body.Items? && body.items == [])
    ensures BulkOutcome(s, user, body, now) == (s, NoTransactions)
  {
  }

  /** Every item is counted once: imported plus failed is the list length, one error per failure. */
  lemma BulkCounts(s: State, user: Id, items: seq<BulkItem>, now: int)
    requires items != []
    ensures var (_, reply) := BulkOutcome(s, user, Items(items), now);
      reply.Imported? && reply.count + reply.failed == |items| && |reply.errors| == reply.failed
  {
  }

  /** An item on a wallet the caller does not own records an error and writes nothing. */
  lemma ImportItemUnowned(s: State, user: Id, item: BulkItem, now: int)
    requires OwnedWallet(s, item.walletId, user).None?
    ensures ImportItem(s, user, item, now) == Step(s, Some(ItemError(item, WalletMissing)))
  {
  }

  /** A non-numeric amount (NaN after `parseFloat`) fails that item with nothing written. */
  lemma ImportItemNaN(s: State, user: Id, item: BulkItem, now: int)
    requires item.amount.None?
    ensures ImportItem(s, user, item, now).state == s && ImportItem(s, user, item, now).error.Some?
  {
  }

  /** An item with a usable amount and no other fields is imported with the defaults, and its wallet is debited with no balance check. */
  lemma ImportItemDefaults(s: State, user: Id, wid: Id, a: int, now: int)
    requires a >= 0 && wid in s.wallets && s.wallets[wid].userId == user && WalletModel.Valid(s.wallets[wid])
    ensures var item := BulkItem(wid, Some(a), None, None, None, None, None);
      var st := ImportItem(s, user, item, now);
      var w := s.wallets[wid];
      && st.error.None?
      && st.state.wallets == s.wallets[wid := w.(balance := w.balance - a)]
      && s.nextId in st.state.expenses
      && var e := st.state.expenses[s.nextId];
         e.title == "Imported Transaction" && e.category == "other"
         && e.description == Some("") && e.tags == [] && e.amount == a && e.date == now
  {
    var item := BulkItem(wid, Some(a), None, None, None, None, None);
    var e := ImportedExpense(user, item, a, now);
    Text.TrimUnchanged(ImportedTitle);
    Text.TrimUnchanged("");
    assert e.title == ImportedTitle && e.category == "other" && e.walletId == wid;
    RecordEffect(s, user, wid, e);
    var o := RecordExpense(s, user, wid, s.wallets[wid], e);
    assert ImportItem(s, user, item, now) == Step(o.state, None);
  }

  /** Unlike create, a bulk import can take a checking or cash wallet below zero. */
  lemma BulkOverdrawsWithoutGuard(s: State, user: Id, wid: Id, a: int, now: int)
    requires wid in s.wallets && s.wallets[wid].userId == user && WalletModel.Valid(s.wallets[wid])
    requires s.wallets[wid].kind != "credit_card" && 0 <= s.wallets[wid].balance < a
    ensures ImportItem(s, user, BulkItem(wid, Some(a), None, None, None, None, None), now).state.wallets[wid].balance < 0
  {
    ImportItemDefaults(s, user, wid, a, now);
  }

  // ===========================================================================
  // GET /api/expenses and GET /api/expenses/summary

  /** The query string; `page` and `limit` default to 1 and 10. */
  datatype ListQuery = ListQuery(page: Option<int>, limit: Option<nat>, category: Option<string>, start: Option<int>, end: Option<int>)

  function LimitOf(q: ListQuery): nat {
    q.limit.GetOr(10)
  }

  /** The query document: the caller's rows, a category unless absent, empty or `all`, and the date bounds. */
  predicate ListMatches(user: Id, q: ListQuery, e: Expense) {
    && e.userId == user
    && (q.category.Some? && q.category.value != "" && q.category.value != "all" ==> e.category == q.category.value)
    && Listing.InRange(e.date, q.start, q.end)
  }

  function Matching(user: Id, q: ListQuery): Expense -> bool {
    (e: Expense) => ListMatches(user, q, e)
  }

  function ByDate(r: (Id, Expense)): int {
    r.1.date
  }

  /** GET /api/expenses: the page of matching expenses, newest first; `None` when the skip is negative. */
  function List(s: State, user: Id, q: ListQuery): Option<Listing.Page<Expense>> {
    Listing.PageOf(s.expenses, Matching(user, q), s.nextId, ByDate, q.page.GetOr(1), LimitOf(q))
  }

  /** A page shows only the caller's matching expenses, newest first: exactly those ranked in its slice of the
      newest-first order, `min(limit, total - skip)` of them. It counts the pages of all of them. */
  lemma ListSound(s: State, user: Id, q: ListQuery)
    requires List(s, user, q).Some?
    ensures var rows := List(s, user, q).value.rows;
      && (forall k :: 0 <= k < |rows| ==> rows[k].0 in s.expenses && s.expenses[rows[k].0] == rows[k].1
                                          && ListMatches(user, q, rows[k].1))
      && Listing.SortedDesc(rows, ByDate)
      && (LimitOf(q) > 0 ==> |rows| <= LimitOf(q))
    ensures var all := Listing.Collect(s.expenses, Matching(user, q), 0, s.nextId); var sorted := Listing.SortDesc(all, ByDate);
      var skip := (q.page.GetOr(1) - 1) * LimitOf(q); var rows := List(s, user, q).value.rows;
      && |rows| == Listing.PageSize(|all|, skip, LimitOf(q))
      && forall i :: skip <= i < |sorted| && (LimitOf(q) == 0 || i < skip + LimitOf(q)) ==> i - skip < |rows| && rows[i - skip] == sorted[i]
    ensures List(s, user, q).value.totalPages == Listing.TotalPages(|Listing.Collect(s.expenses, Matching(user, q), 0, s.nextId)|, LimitOf(q))
  {
    Listing.PageOfSound(s.expenses, Matching(user, q), s.nextId, ByDate, q.page.GetOr(1), LimitOf(q));
  }

  // ---------------------------------------------------------------------------
  // GET /api/expenses/summary

  predicate SummaryMatches(user: Id, start: Option<int>, end: Option<int>, e: Expense) {
    e.userId == user && Listing.InRange(e.date, start, end)
  }

  function SummaryFilter(user: Id, start: Option<int>, end: Option<int>): Expense -> bool {
    (e: Expense) => SummaryMatches(user, start, end, e)
  }

  function CategoryOf(e: Expense): string {
    e.category
  }

  function AmountOf(e: Expense): int {
    e.amount
  }

  function Matched(s: State, user: Id, start: Option<int>, end: Option<int>): seq<(Id, Expense)> {
    Listing.Collect(s.expenses, SummaryFilter(user, start, end), 0, s.nextId)
  }

  /** The aggregation: `$match`, `$group` by category, `$sort: { total: -1 }`. */
  function Summary(s: State, user: Id, start: Option<int>, end: Option<int>): seq<Aggregate.Group> {
    Listing.SortDesc(Aggregate.GroupBy(Matched(s, user, start, end), CategoryOf, AmountOf), Aggregate.ByTotal)
  }

  /** `summary.reduce((sum, item) => sum + item.total, 0)`. */
  function TotalSpent(summary: seq<Aggregate.Group>): int {
    if summary == [] then 0 else TotalSpent(summary[..|summary| - 1]) + summary[|summary| - 1].total
  }

  /** The left fold of the reply equals the sum of the group totals. */
  lemma {:induction false} TotalSpentIsSum(gs: seq<Aggregate.Group>)
    ensures TotalSpent(gs) == Listing.Sum(Aggregate.Totals(gs))
  {
    if gs != [] {
      var init := gs[..|gs| - 1];
      TotalSpentIsSum(init);
      assert Aggregate.Totals(gs) == Aggregate.Totals(init) + [gs[|gs| - 1].total];
      Listing.SumAppend(Aggregate.Totals(init), [gs[|gs| - 1].total]);
    }
  }

  /** `totalSpent` is the sum of the amounts of the caller's expenses in the date range, whatever order the groups are sorted in. */
  lemma TotalSpentIsSpending(s: State, user: Id, start: Option<int>, end: Option<int>)
    ensures TotalSpent(Summary(s, user, start, end)) == Listing.Sum(Aggregate.Amounts(Matched(s, user, start, end), AmountOf))
  {
    var rows := Matched(s, user, start, end);
    TotalSpentIsSum(Summary(s, user, start, end));
    Aggregate.SortKeepsTotal(Aggregate.GroupBy(rows, CategoryOf, AmountOf));
    Aggregate.GroupByTotals(rows, CategoryOf, AmountOf);
  }

  /** Each category appears once in the summary, with the total of that category's matched expenses, and the counts add up to the matched expenses. */
  lemma SummaryGroups(s: State, user: Id, start: Option<int>, end: Option<int>, category: string)
    ensures var gs := Aggregate.GroupBy(Matched(s, user, start, end), CategoryOf, AmountOf);
      && Aggregate.DistinctKeys(gs)
      && Aggregate.KeySum(gs, category) == Aggregate.KeyedAmount(Matched(s, user, start, end), CategoryOf, AmountOf, category)
      && Listing.Sum(Aggregate.Counts(gs)) == |Matched(s, user, start, end)|
  {
    var rows := Matched(s, user, start, end);
    Aggregate.GroupByDistinct(rows, CategoryOf, AmountOf);
    Aggregate.GroupByKeySum(rows, CategoryOf, AmountOf, category);
    Aggregate.GroupByCounts(rows, CategoryOf, AmountOf);
  }
}
