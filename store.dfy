// The document store the route handlers read and write: one map per
// collection, keyed by document id, and a counter that hands out fresh ids.
// The `Database` class is the mutable store; `State` is its value, over which
// the handlers' specification functions are written.
module Store {
  import opened Base
  import opened WalletModel
  import opened ExpenseModel
  import opened IncomeModel
  import opened TransactionModel

  /** A User document; bcrypt hashes are opaque strings. */
  datatype User = User(name: string, email: string, passwordHash: string)

  /** A Budget document: only its owner matters to this model. */
  datatype Budget = Budget(userId: Id)

  datatype State = State(
    users: map<Id, User>,
    wallets: map<Id, Wallet>,
    expenses: map<Id, Expense>,
    incomes: map<Id, Income>,
    transactions: map<Id, Transaction>,
    budgets: map<Id, Budget>,
    nextId: nat)

  /** The outcome a handler sends back: an HTTP status with an id or a message. */
  datatype Reply = Ok(status: int, id: Option<Id>) | Fail(status: int, message: string)

  /** The store after a handler ran, and what it replied. */
  datatype Outcome = Outcome(state: State, reply: Reply)

  const InvalidInput: Reply := Fail(400, "Invalid input data")
  const InsufficientBalance: Reply := Fail(400, "Insufficient balance")
  const ServerError: Reply := Fail(500, "Server error")
  const WalletNotFound: Reply := Fail(404, "Wallet not found")

  // ---------------------------------------------------------------------------
  // Store invariant: every id is below the counter, every stored wallet,
  // expense and income passes its schema, emails are unique, and a
  // Transaction's expenseId was handed out already.

  predicate WalletsOk(m: map<Id, Wallet>, n: nat) {
    forall id :: id in m ==> id < n && WalletModel.Valid(m[id])
  }

  predicate ExpensesOk(m: map<Id, Expense>, n: nat) {
    forall id :: id in m ==> id < n && ExpenseModel.Valid(m[id])
  }

  predicate IncomesOk(m: map<Id, Income>, n: nat) {
    forall id :: id in m ==> id < n && IncomeModel.Valid(m[id])
  }

  predicate TransactionsOk(m: map<Id, Transaction>, n: nat) {
    forall id :: id in m ==> id < n && (m[id].expenseId.Some? ==> m[id].expenseId.value < n)
  }

  predicate UsersOk(m: map<Id, User>, n: nat) {
    && (forall id :: id in m ==> id < n)
    && (forall a, b :: a in m && b in m && m[a].email == m[b].email ==> a == b)
  }

  predicate BudgetsOk(m: map<Id, Budget>, n: nat) {
    forall id :: id in m ==> id < n
  }

  predicate Consistent(s: State) {
    && UsersOk(s.users, s.nextId)
    && WalletsOk(s.wallets, s.nextId)
    && ExpensesOk(s.expenses, s.nextId)
    && IncomesOk(s.incomes, s.nextId)
    && TransactionsOk(s.transactions, s.nextId)
    && BudgetsOk(s.budgets, s.nextId)
  }

  // ---------------------------------------------------------------------------
  // Lookups.

  /** `Wallet.findOne({ _id: id, userId })`. */
  function OwnedWallet(s: State, id: Id, user: Id): (r: Option<Wallet>)
    ensures r.Some? <==> id in s.wallets && s.wallets[id].userId == user
    ensures r.Some? ==> r.value == s.wallets[id]
  {
    if id in s.wallets && s.wallets[id].userId == user then Some(s.wallets[id]) else None
  }

  /** `Wallet.findOne({ _id: id, userId, isActive: true })`. */
  function OwnedActiveWallet(s: State, id: Id, user: Id): (r: Option<Wallet>)
    ensures r.Some? <==> id in s.wallets && s.wallets[id].userId == user && s.wallets[id].isActive
    ensures r.Some? ==> r.value == s.wallets[id]
  {
    if id in s.wallets && s.wallets[id].userId == user && s.wallets[id].isActive then Some(s.wallets[id]) else None
  }

  /** `Transaction.findOne({ expenseId })`: the linked row with the smallest id in [from, n). */
  function FirstLinked(txs: map<Id, Transaction>, eid: Id, from: nat, n: nat): (r: Option<Id>)
    decreases n - from
    ensures r.Some? ==> from <= r.value < n && r.value in txs && txs[r.value].expenseId == Some(eid)
  {
    if from >= n then None
    else if from in txs && txs[from].expenseId == Some(eid) then Some(from)
    else FirstLinked(txs, eid, from + 1, n)
  }

  /** The scan returns the first linked id in [from, n), or `None` when there is none. */
  lemma {:induction false} FirstLinkedSpec(txs: map<Id, Transaction>, eid: Id, from: nat, n: nat)
    decreases n - from
    ensures var r := FirstLinked(txs, eid, from, n);
      && (r.Some? ==> forall k :: from <= k < r.value && k in txs ==> txs[k].expenseId != Some(eid))
      && (r.None? ==> forall k :: from <= k < n && k in txs ==> txs[k].expenseId != Some(eid))
  {
    if from < n && !(from in txs && txs[from].expenseId == Some(eid)) {
      FirstLinkedSpec(txs, eid, from + 1, n);
    }
  }

  function LinkedTransaction(s: State, eid: Id): Option<Id> {
    FirstLinked(s.transactions, eid, 0, s.nextId)
  }

  /** Under the invariant, the search finds a linked row whenever one exists. */
  lemma LinkedTransactionComplete(s: State, eid: Id)
    requires Consistent(s)
    ensures LinkedTransaction(s, eid).None? <==> forall k :: k in s.transactions ==> s.transactions[k].expenseId != Some(eid)
  {
    FirstLinkedSpec(s.transactions, eid, 0, s.nextId);
  }

  /** `User.findOne({ email })`. */
  function UserWithEmail(users: map<Id, User>, email: string, from: nat, n: nat): (r: Option<Id>)
    decreases n - from
    ensures r.Some? ==> from <= r.value < n && r.value in users && users[r.value].email == email
    ensures r.None? ==> forall k :: from <= k < n && k in users ==> users[k].email != email
  {
    if from >= n then None
    else if from in users && users[from].email == email then Some(from)
    else UserWithEmail(users, email, from + 1, n)
  }

  /** `findOne({ email, _id: { $ne: id } })` finds something. */
  predicate EmailTakenByOther(s: State, email: string, id: Id) {
    exists u :: u in s.users && u != id && s.users[u].email == email
  }

  // ---------------------------------------------------------------------------
  // Writes (the effect of a save that passed validation, or of a delete).

  function PutWallet(s: State, id: Id, w: Wallet): State { s.(wallets := s.wallets[id := w]) }
  function PutExpense(s: State, id: Id, e: Expense): State { s.(expenses := s.expenses[id := e]) }
  function PutTransaction(s: State, id: Id, t: Transaction): State { s.(transactions := s.transactions[id := t]) }
  function PutUser(s: State, id: Id, u: User): State { s.(users := s.users[id := u]) }

  function AddWallet(s: State, w: Wallet): State { s.(wallets := s.wallets[s.nextId := w], nextId := s.nextId + 1) }
  function AddExpense(s: State, e: Expense): State { s.(expenses := s.expenses[s.nextId := e], nextId := s.nextId + 1) }
  function AddIncome(s: State, i: Income): State { s.(incomes := s.incomes[s.nextId := i], nextId := s.nextId + 1) }
  function AddTransaction(s: State, t: Transaction): State { s.(transactions := s.transactions[s.nextId := t], nextId := s.nextId + 1) }
  function AddUser(s: State, u: User): State { s.(users := s.users[s.nextId := u], nextId := s.nextId + 1) }

  function RemoveWallet(s: State, id: Id): State { s.(wallets := s.wallets - {id}) }
  function RemoveExpense(s: State, id: Id): State { s.(expenses := s.expenses - {id}) }
  function RemoveIncome(s: State, id: Id): State { s.(incomes := s.incomes - {id}) }
  function RemoveTransaction(s: State, id: Id): State { s.(transactions := s.transactions - {id}) }

  /** `Transaction.findOneAndDelete(filter)` with the row found (if any). */
  function RemoveTransactionOpt(s: State, id: Option<Id>): State {
    if id.Some? then RemoveTransaction(s, id.value) else s
  }

  // ---------------------------------------------------------------------------
  // Each write that passed its schema keeps the invariant.

  lemma PutWalletKeeps(s: State, id: Id, w: Wallet)
    requires Consistent(s) && id in s.wallets && WalletModel.Valid(w)
    ensures Consistent(PutWallet(s, id, w))
  {
  }

  lemma AddWalletKeeps(s: State, w: Wallet)
    requires Consistent(s) && WalletModel.Valid(w)
    ensures Consistent(AddWallet(s, w))
  {
  }

  lemma PutExpenseKeeps(s: State, id: Id, e: Expense)
    requires Consistent(s) && id in s.expenses && ExpenseModel.Valid(e)
    ensures Consistent(PutExpense(s, id, e))
  {
  }

  lemma AddExpenseKeeps(s: State, e: Expense)
    requires Consistent(s) && ExpenseModel.Valid(e)
    ensures Consistent(AddExpense(s, e))
  {
  }

  lemma AddIncomeKeeps(s: State, i: Income)
    requires Consistent(s) && IncomeModel.Valid(i)
    ensures Consistent(AddIncome(s, i))
  {
  }

  lemma AddTransactionKeeps(s: State, t: Transaction)
    requires Consistent(s)
    requires t.expenseId.Some? ==> t.expenseId.value <= s.nextId
    ensures Consistent(AddTransaction(s, t))
  {
  }

  lemma PutTransactionKeeps(s: State, id: Id, t: Transaction)
    requires Consistent(s) && id in s.transactions
    requires t.expenseId.Some? ==> t.expenseId.value < s.nextId
    ensures Consistent(PutTransaction(s, id, t))
  {
  }

  lemma RemovalsKeep(s: State, id: Id, tx: Option<Id>)
    requires Consistent(s)
    ensures Consistent(RemoveWallet(s, id)) && Consistent(RemoveExpense(s, id))
    ensures Consistent(RemoveIncome(s, id)) && Consistent(RemoveTransactionOpt(s, tx))
  {
  }

  lemma AddUserKeeps(s: State, u: User)
    requires Consistent(s) && forall k :: k in s.users ==> s.users[k].email != u.email
    ensures Consistent(AddUser(s, u))
  {
  }

  lemma PutUserKeeps(s: State, id: Id, u: User)
    requires Consistent(s) && id in s.users && !EmailTakenByOther(s, u.email, id)
    ensures Consistent(PutUser(s, id, u))
  {
  }

  // ---------------------------------------------------------------------------
  // Account deletion: which of the six deletions took effect.

  datatype Deletions = Deletions(expenses: bool, incomes: bool, wallets: bool,
                                 transactions: bool, budgets: bool, user: bool)

  /** `deleteMany({ userId: user })`: the documents of `m` whose owner is someone else. */
  function WithoutOwner<T>(m: map<Id, T>, ownerOf: T -> Id, user: Id): (r: map<Id, T>)
    ensures forall id :: id in r <==> id in m && ownerOf(m[id]) != user
    ensures forall id :: id in r ==> r[id] == m[id]
  {
    map id | id in m && ownerOf(m[id]) != user :: m[id]
  }

  function WalletOwner(w: Wallet): Id { w.userId }
  function ExpenseOwner(e: Expense): Id { e.userId }
  function IncomeOwner(i: Income): Id { i.userId }
  function TransactionOwner(t: Transaction): Id { t.userId }
  function BudgetOwner(b: Budget): Id { b.userId }

  function DeleteAccountData(s: State, user: Id, gone: Deletions): State {
    s.(expenses := if gone.expenses then WithoutOwner(s.expenses, ExpenseOwner, user) else s.expenses,
       incomes := if gone.incomes then WithoutOwner(s.incomes, IncomeOwner, user) else s.incomes,
       wallets := if gone.wallets then WithoutOwner(s.wallets, WalletOwner, user) else s.wallets,
       transactions := if gone.transactions then WithoutOwner(s.transactions, TransactionOwner, user) else s.transactions,
       budgets := if gone.budgets then WithoutOwner(s.budgets, BudgetOwner, user) else s.budgets,
       users := if gone.user then s.users - {user} else s.users)
  }

  /** Whatever subset of the deletions took effect, the store stays consistent. */
  lemma DeleteAccountDataKeeps(s: State, user: Id, gone: Deletions)
    requires Consistent(s)
    ensures Consistent(DeleteAccountData(s, user, gone))
  {
    var r := DeleteAccountData(s, user, gone);
    assert UsersOk(r.users, r.nextId);
    assert WalletsOk(r.wallets, r.nextId);
    assert ExpensesOk(r.expenses, r.nextId);
    assert IncomesOk(r.incomes, r.nextId);
    assert TransactionsOk(r.transactions, r.nextId);
  }

  // ---------------------------------------------------------------------------
  // The mutable store.

  class Database {
    var users: map<Id, User>
    var wallets: map<Id, Wallet>
    var expenses: map<Id, Expense>
    var incomes: map<Id, Income>
    var transactions: map<Id, Transaction>
    var budgets: map<Id, Budget>
    var nextId: nat

    function Snapshot(): State
      reads this
    {
      State(users, wallets, expenses, incomes, transactions, budgets, nextId)
    }

    ghost predicate Valid()
      reads this
    {
      Consistent(Snapshot())
    }

    constructor ()
      ensures Valid()
      ensures Snapshot() == State(map[], map[], map[], map[], map[], map[], 0)
    {
      users, wallets, expenses, incomes, transactions, budgets := map[], map[], map[], map[], map[], map[];
      nextId := 0;
    }

    /** `wallet.save()` on an existing wallet: succeeds iff the schema holds. */
    method SaveWallet(id: Id, w: Wallet) returns (ok: bool)
      modifies this
      ensures ok == WalletModel.Valid(w)
      ensures Snapshot() == if ok then PutWallet(old(Snapshot()), id, w) else old(Snapshot())
    {
      ok := WalletModel.Valid(w);
      if ok { wallets := wallets[id := w]; }
    }

    /** `new Wallet(...).save()`: on success the wallet gets the next id. */
    method InsertWallet(w: Wallet) returns (id: Option<Id>)
      modifies this
      ensures id.Some? == WalletModel.Valid(w)
      ensures id.Some? ==> id.value == old(nextId)
      ensures Snapshot() == if id.Some? then AddWallet(old(Snapshot()), w) else old(Snapshot())
    {
      if WalletModel.Valid(w) {
        id := Some(nextId);
        wallets := wallets[nextId := w];
        nextId := nextId + 1;
      } else {
        id := None;
      }
    }

    method DeleteWallet(id: Id)
      modifies this
      ensures Snapshot() == RemoveWallet(old(Snapshot()), id)
    {
      wallets := wallets - {id};
    }

    method SaveExpense(id: Id, e: Expense) returns (ok: bool)
      modifies this
      ensures ok == ExpenseModel.Valid(e)
      ensures Snapshot() == if ok then PutExpense(old(Snapshot()), id, e) else old(Snapshot())
    {
      ok := ExpenseModel.Valid(e);
      if ok { expenses := expenses[id := e]; }
    }

    method InsertExpense(e: Expense) returns (id: Option<Id>)
      modifies this
      ensures id.Some? == ExpenseModel.Valid(e)
      ensures id.Some? ==> id.value == old(nextId)
      ensures Snapshot() == if id.Some? then AddExpense(old(Snapshot()), e) else old(Snapshot())
    {
      if ExpenseModel.Valid(e) {
        id := Some(nextId);
        expenses := expenses[nextId := e];
        nextId := nextId + 1;
      } else {
        id := None;
      }
    }

    method DeleteExpense(id: Id)
      modifies this
      ensures Snapshot() == RemoveExpense(old(Snapshot()), id)
    {
      expenses := expenses - {id};
    }

    method InsertIncome(i: Income) returns (id: Option<Id>)
      modifies this
      ensures id.Some? == IncomeModel.Valid(i)
      ensures id.Some? ==> id.value == old(nextId)
      ensures Snapshot() == if id.Some? then AddIncome(old(Snapshot()), i) else old(Snapshot())
    {
      if IncomeModel.Valid(i) {
        id := Some(nextId);
        incomes := incomes[nextId := i];
        nextId := nextId + 1;
      } else {
        id := None;
      }
    }

    method DeleteIncome(id: Id)
      modifies this
      ensures Snapshot() == RemoveIncome(old(Snapshot()), id)
    {
      incomes := incomes - {id};
    }

    method InsertTransaction(t: Transaction) returns (id: Option<Id>)
      modifies this
      ensures id.Some? == TransactionModel.Valid(t)
      ensures id.Some? ==> id.value == old(nextId)
      ensures Snapshot() == if id.Some? then AddTransaction(old(Snapshot()), t) else old(Snapshot())
    {
      if TransactionModel.Valid(t) {
        id := Some(nextId);
        transactions := transactions[nextId := t];
        nextId := nextId + 1;
      } else {
        id := None;
      }
    }

    /** `Transaction.findOneAndUpdate({ expenseId }, { amount })`: no validators run. */
    method SetLinkedAmount(eid: Id, amount: int)
      modifies this
      ensures var s := old(Snapshot()); var t := LinkedTransaction(s, eid);
        Snapshot() == if t.Some? then PutTransaction(s, t.value, s.transactions[t.value].(amount := amount)) else s
    {
      var t := FirstLinked(transactions, eid, 0, nextId);
      if t.Some? {
        transactions := transactions[t.value := transactions[t.value].(amount := amount)];
      }
    }

    /** `Transaction.findOneAndDelete(...)` of the row `id`, if there is one. */
    method DeleteTransaction(id: Option<Id>)
      modifies this
      ensures Snapshot() == RemoveTransactionOpt(old(Snapshot()), id)
    {
      if id.Some? { transactions := transactions - {id.value}; }
    }

    method InsertUser(u: User) returns (id: Id)
      modifies this
      ensures id == old(nextId) && Snapshot() == AddUser(old(Snapshot()), u)
    {
      id := nextId;
      users := users[nextId := u];
      nextId := nextId + 1;
    }

    method SaveUser(id: Id, u: User)
      modifies this
      ensures Snapshot() == PutUser(old(Snapshot()), id, u)
    {
      users := users[id := u];
    }

    /** The `deleteMany({ userId })` / `findByIdAndDelete` calls of account deletion, one switch per call. */
    method DeleteUserData(user: Id, gone: Deletions)
      modifies this
      ensures Snapshot() == DeleteAccountData(old(Snapshot()), user, gone)
    {
      var s := DeleteAccountData(Snapshot(), user, gone);
      expenses, incomes, wallets, transactions, budgets, users :=
        s.expenses, s.incomes, s.wallets, s.transactions, s.budgets, s.users;
    }
  }
}
