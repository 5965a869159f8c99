// The wallet handlers (backend/routes/walletRoutes.js): create with defaults,
// update by assignment, soft or hard delete, and transfers between two of the
// caller's wallets; the list and summary routes only read.
module WalletRoutes {
  import opened Base
  import Text
  import opened Store
  import opened WalletModel
  import opened ExpenseModel
  import opened TransactionModel
  import Listing
  import Aggregate

  const SameWallet: Reply := Fail(400, "Cannot transfer to the same wallet")

  // ===========================================================================
  // Colours: the create route's `/^#[0-9A-F]{6}$/i` and the update route's `isHexColor`.

  predicate IsHexDigit(c: char) {
    Text.IsAsciiDigit(c) || ('a' <= c <= 'f') || ('A' <= c <= 'F')
  }

  predicate AllHex(s: string) {
    forall k :: 0 <= k < |s| ==> IsHexDigit(s[k])
  }

  /** `/^#[0-9A-F]{6}$/i`. */
  predicate IsSixDigitColor(s: string) {
    |s| == 7 && s[0] == '#' && AllHex(s[1..])
  }

  /** `isHexColor`: an optional `#` and 3, 4, 6 or 8 hex digits. */
  predicate IsHexColor(s: string) {
    var digits := if |s| > 0 && s[0] == '#' then s[1..] else s;
    (|digits| == 3 || |digits| == 4 || |digits| == 6 || |digits| == 8) && AllHex(digits)
  }

  /** Every colour the create route accepts is also accepted by the update route. */
  lemma SixDigitIsHexColor(s: string)
    requires IsSixDigitColor(s)
    ensures IsHexColor(s)
  {
  }

  // ===========================================================================
  // `getDefaultIcon` (walletRoutes.js:254-265).

  const CardIcon: string := "\U{1F4B3}"
  const BankIcon: string := "\U{1F3E6}"
  const CashIcon: string := "\U{1F4B5}"
  const ChartIcon: string := "\U{1F4C8}"
  const PurseIcon: string := "\U{1F45B}"

  function DefaultIconFor(kind: string): (r: string)
    ensures kind == "credit_card" || kind == "debit_card" ==> r == CardIcon
    ensures kind == "savings" || kind == "checking" ==> r == BankIcon
    ensures kind == "cash" ==> r == CashIcon
    ensures kind == "investment" ==> r == ChartIcon
    ensures kind !in WalletModel.Kinds - {"other"} ==> r == PurseIcon
  {
    if kind == "credit_card" || kind == "debit_card" then CardIcon
    else if kind == "savings" || kind == "checking" then BankIcon
    else if kind == "cash" then CashIcon
    else if kind == "investment" then ChartIcon
    else PurseIcon
  }

  /** The table never yields an empty icon, so `icon || getDefaultIcon(type)` always stores one. */
  lemma DefaultIconNonEmpty(kind: string)
    ensures DefaultIconFor(kind) != ""
    ensures DefaultIconFor(kind) in {CardIcon, BankIcon, CashIcon, ChartIcon, PurseIcon}
  {
  }

  // ===========================================================================
  // POST /api/wallets

  datatype CreateRequest = CreateRequest(
    name: string, kind: string, balance: Option<int>, currency: Option<string>,
    color: Option<string>, icon: Option<string>, creditLimit: Option<int>,
    accountNumber: Option<string>, bankName: Option<string>)

  /** The validator chain; the lengths are those of the trimmed values. */
  predicate CreateInputValid(r: CreateRequest) {
    && 1 <= |Text.Trim(r.name)| <= 50
    && r.kind in WalletModel.Kinds
    && (r.currency.Some? ==> |r.currency.value| == 3)
    && (r.color.Some? ==> IsSixDigitColor(r.color.value))
    && (r.accountNumber.Some? ==> |Text.Trim(r.accountNumber.value)| <= 20)
    && (r.bankName.Some? ==> |Text.Trim(r.bankName.value)| <= 50)
  }

  /** `x || fallback` for an optional string. */
  function OrDefault(x: Option<string>, fallback: string): string {
    if x.Some? && x.value != "" then x.value else fallback
  }

  /** The wallet the handler builds: `parseFloat(balance) || 0`, `currency || 'USD'`, `color || '#3498db'`, `icon || getDefaultIcon(type)`, and a falsy credit limit stored as null. */
  function CreatedWallet(user: Id, r: CreateRequest): Wallet {
    WalletModel.New(user, Text.Trim(r.name), r.kind, Some(r.balance.GetOr(0)),
                    Some(OrDefault(r.currency, DefaultCurrency)), Some(OrDefault(r.color, DefaultColor)),
                    Some(OrDefault(r.icon, DefaultIconFor(r.kind))),
                    if r.creditLimit.Some? && r.creditLimit.value != 0 then r.creditLimit else None,
                    ExpenseModel.TrimOpt(r.accountNumber), ExpenseModel.TrimOpt(r.bankName))
  }

  function CreateOutcome(s: State, user: Id, r: CreateRequest): Outcome {
    if !CreateInputValid(r) then Outcome(s, InvalidInput)
    else
      var w := CreatedWallet(user, r);
      if !WalletModel.Valid(w) then Outcome(s, ServerError)
      else Outcome(AddWallet(s, w), Ok(201, Some(s.nextId)))
  }

  method Create(db: Database, user: Id, r: CreateRequest) returns (reply: Reply)
    requires db.Valid()
    modifies db
    ensures db.Valid()
    ensures Outcome(db.Snapshot(), reply) == CreateOutcome(old(db.Snapshot()), user, r)
  {
    if !CreateInputValid(r) { return InvalidInput; }
    var w := CreatedWallet(user, r);
    ghost var s0 := db.Snapshot();
    var id := db.InsertWallet(w);
    if id.None? { return ServerError; }
    AddWalletKeeps(s0, w);
    reply := Ok(201, id);
  }

  /** A validated create always succeeds and stores the defaults for every field left out. */
  lemma CreateDefaults(s: State, user: Id, name: string, kind: string)
    requires 1 <= |Text.Trim(name)| <= 50 && kind in WalletModel.Kinds
    ensures var o := CreateOutcome(s, user, CreateRequest(name, kind, None, None, None, None, None, None, None));
      && o.reply == Ok(201, Some(s.nextId))
      && o.state.wallets == s.wallets[s.nextId := o.state.wallets[s.nextId]]
      && var w := o.state.wallets[s.nextId];
         && w.balance == 0 && w.currency == "USD" && w.color == "#3498db"
         && w.icon == DefaultIconFor(kind) && w.creditLimit.None? && w.isActive
         && w.name == Text.Trim(name) && w.kind == kind && w.userId == user
  {
    Text.TrimIdempotent(name);
    DefaultIconNonEmpty(kind);
  }

  /** A zero credit limit is falsy and is stored as null; any other supplied limit is kept. */
  lemma CreateCreditLimit(user: Id, r: CreateRequest)
    ensures r.creditLimit == Some(0) ==> CreatedWallet(user, r).creditLimit.None?
    ensures r.creditLimit.Some? && r.creditLimit.value != 0 ==> CreatedWallet(user, r).creditLimit == r.creditLimit
    ensures r.creditLimit.None? ==> CreatedWallet(user, r).creditLimit.None?
  {
  }

  // ===========================================================================
  // PUT /api/wallets/:id

  datatype UpdateRequest = UpdateRequest(
    name: Option<string>, kind: Option<string>, balance: Option<int>, currency: Option<string>,
    color: Option<string>, icon: Option<string>, isActive: Option<bool>, creditLimit: Option<int>,
    accountNumber: Option<string>, bankName: Option<string>, userId: Option<Id>)

  predicate UpdateInputValid(u: UpdateRequest) {
    && (u.name.Some? ==> 1 <= |Text.Trim(u.name.value)| <= 50)
    && (u.color.Some? ==> IsHexColor(u.color.value))
    && (u.creditLimit.Some? ==> u.creditLimit.value >= 0)
    && (u.bankName.Some? ==> |Text.Trim(u.bankName.value)| <= 50)
  }

  /** `Object.assign(wallet, updates)` of the sanitised body: every supplied field overwrites, the name through its
      trim setter; nothing strips `userId` from the body, so a supplied owner overwrites too. */
  function Assign(w: Wallet, u: UpdateRequest): (r: Wallet)
    ensures r.userId == u.userId.GetOr(w.userId)
    ensures r.name == if u.name.Some? then Text.Trim(u.name.value) else w.name
    ensures r.kind == u.kind.GetOr(w.kind) && r.balance == u.balance.GetOr(w.balance)
    ensures r.currency == u.currency.GetOr(w.currency) && r.color == u.color.GetOr(w.color)
    ensures r.icon == u.icon.GetOr(w.icon) && r.isActive == u.isActive.GetOr(w.isActive)
    ensures r.creditLimit == (if u.creditLimit.Some? then u.creditLimit else w.creditLimit)
    ensures r.accountNumber == (if u.accountNumber.Some? then u.accountNumber else w.accountNumber)
    ensures r.bankName == (if u.bankName.Some? then Some(Text.Trim(u.bankName.value)) else w.bankName)
  {
    Wallet(u.userId.GetOr(w.userId),
           if u.name.Some? then Text.Trim(u.name.value) else w.name,
           u.kind.GetOr(w.kind), u.balance.GetOr(w.balance), u.currency.GetOr(w.currency),
           u.color.GetOr(w.color), u.icon.GetOr(w.icon), u.isActive.GetOr(w.isActive),
           if u.creditLimit.Some? then u.creditLimit else w.creditLimit,
           if u.accountNumber.Some? then u.accountNumber else w.accountNumber,
           if u.bankName.Some? then Some(Text.Trim(u.bankName.value)) else w.bankName)
  }

  /** An empty body changes nothing, and applying the same body twice is the same as once. */
  lemma AssignEmptyAndIdempotent(w: Wallet, u: UpdateRequest)
    ensures Assign(w, UpdateRequest(None, None, None, None, None, None, None, None, None, None, None)) == w
    ensures Assign(Assign(w, u), u) == Assign(w, u)
  {
    if u.name.Some? { Text.TrimIdempotent(u.name.value); }
    if u.bankName.Some? { Text.TrimIdempotent(u.bankName.value); }
  }

  function UpdateOutcome(s: State, user: Id, id: Id, u: UpdateRequest): Outcome {
    if !UpdateInputValid(u) then Outcome(s, InvalidInput)
    else
      var w := OwnedWallet(s, id, user);
      if w.None? then Outcome(s, WalletNotFound)
      else
        var w1 := Assign(w.value, u);
        if !WalletModel.Valid(w1) then Outcome(s, ServerError)
        else Outcome(PutWallet(s, id, w1), Ok(200, None))
  }

  method Update(db: Database, user: Id, id: Id, u: UpdateRequest) returns (reply: Reply)
    requires db.Valid()
    modifies db
    ensures db.Valid()
    ensures Outcome(db.Snapshot(), reply) == UpdateOutcome(old(db.Snapshot()), user, id, u)
  {
    if !UpdateInputValid(u) { return InvalidInput; }
    var w := OwnedWallet(db.Snapshot(), id, user);
    if w.None? { return WalletNotFound; }
    var w1 := Assign(w.value, u);
    ghost var s0 := db.Snapshot();
    var ok := db.SaveWallet(id, w1);
    if !ok { return ServerError; }
    PutWalletKeeps(s0, id, w1);
    reply := Ok(200, None);
  }

  /** An update touches only the one wallet, may set any balance, and an enum-violating type is refused with nothing written. */
  lemma UpdateEffect(s: State, user: Id, id: Id, u: UpdateRequest)
    requires UpdateInputValid(u) && id in s.wallets && s.wallets[id].userId == user
    ensures var o := UpdateOutcome(s, user, id, u);
      var w1 := Assign(s.wallets[id], u);
      && (WalletModel.Valid(w1) ==> o == Outcome(s.(wallets := s.wallets[id := w1]), Ok(200, None)))
      && (u.kind.Some? && u.kind.value !in WalletModel.Kinds ==> o == Outcome(s, ServerError))
      && (WalletModel.Valid(s.wallets[id]) && u.name.None? && u.kind.None? ==> o.reply.Ok?)
  {
  }

  /** A body carrying `userId` hands the wallet to that user: once saved, the new owner finds it and the old owner no longer does. */
  lemma UpdateMovesOwner(s: State, user: Id, id: Id, u: UpdateRequest, other: Id)
    requires u.userId == Some(other) && other != user
    requires UpdateInputValid(u) && id in s.wallets && s.wallets[id].userId == user
    requires WalletModel.Valid(Assign(s.wallets[id], u))
    ensures var o := UpdateOutcome(s, user, id, u);
      && o.reply == Ok(200, None)
      && OwnedWallet(o.state, id, other) == Some(Assign(s.wallets[id], u))
      && OwnedWallet(o.state, id, user).None?
  {
  }

  // ===========================================================================
  // DELETE /api/wallets/:id

  /** `Expense.countDocuments({ walletId })` over the ids in [from, n); any owner counts. */
  function ReferencingExpenses(m: map<Id, Expense>, wid: Id, from: nat, n: nat): nat
    decreases n - from
  {
    if from >= n then 0
    else (if from in m && m[from].walletId == wid then 1 else 0) + ReferencingExpenses(m, wid, from + 1, n)
  }

  predicate Referenced(s: State, wid: Id) {
    exists e :: e in s.expenses && s.expenses[e].walletId == wid
  }

  /** The count is positive exactly when some expense in the range references the wallet. */
  lemma {:induction false} ReferencingExpensesPositive(m: map<Id, Expense>, wid: Id, from: nat, n: nat)
    decreases n - from
    ensures ReferencingExpenses(m, wid, from, n) > 0 <==> exists e :: from <= e < n && e in m && m[e].walletId == wid
  {
    if from < n {
      ReferencingExpensesPositive(m, wid, from + 1, n);
      if ReferencingExpenses(m, wid, from + 1, n) > 0 {
        var e :| from + 1 <= e < n && e in m && m[e].walletId == wid;
        assert from <= e < n;
      }
    }
  }

  function DeleteOutcome(s: State, user: Id, id: Id): Outcome {
    var w := OwnedWallet(s, id, user);
    if w.None? then Outcome(s, WalletNotFound)
    else if ReferencingExpenses(s.expenses, id, 0, s.nextId) > 0 then
      var w1 := w.value.(isActive := false);
      if !WalletModel.Valid(w1) then Outcome(s, ServerError)
      else Outcome(PutWallet(s, id, w1), Ok(200, None))
    else Outcome(RemoveWallet(s, id), Ok(200, None))
  }

  method Delete(db: Database, user: Id, id: Id) returns (reply: Reply)
    requires db.Valid()
    modifies db
    ensures db.Valid()
    ensures Outcome(db.Snapshot(), reply) == DeleteOutcome(old(db.Snapshot()), user, id)
  {
    var w := OwnedWallet(db.Snapshot(), id, user);
    if w.None? { return WalletNotFound; }
    var count := ReferencingExpenses(db.expenses, id, 0, db.nextId);
    ghost var s0 := db.Snapshot();
    if count > 0 {
      var w1 := w.value.(isActive := false);
      var ok := db.SaveWallet(id, w1);
      if !ok { return ServerError; }
      PutWalletKeeps(s0, id, w1);
    } else {
      RemovalsKeep(s0, id, None);
      db.DeleteWallet(id);
    }
    reply := Ok(200, None);
  }

  /** Delete: a wallet some expense references is only deactivated, any other wallet is removed. */
  lemma DeleteSoftOrHard(s: State, user: Id, id: Id)
    requires Consistent(s) && id in s.wallets && s.wallets[id].userId == user
    ensures var o := DeleteOutcome(s, user, id);
      && o.reply == Ok(200, None)
      && (Referenced(s, id) ==> o.state == s.(wallets := s.wallets[id := s.wallets[id].(isActive := false)]))
      && (!Referenced(s, id) ==> o.state == s.(wallets := s.wallets - {id}))
  {
    ReferencingExpensesPositive(s.expenses, id, 0, s.nextId);
    assert WalletModel.Valid(s.wallets[id]);
  }

  lemma DeleteUnowned(s: State, user: Id, id: Id)
    requires !(id in s.wallets && s.wallets[id].userId == user)
    ensures DeleteOutcome(s, user, id) == Outcome(s, WalletNotFound)
  {
  }

  // ===========================================================================
  // POST /api/wallets/transfer

  datatype TransferRequest = TransferRequest(fromWalletId: Id, toWalletId: Id, amount: int, description: Option<string>)

  predicate TransferInputValid(r: TransferRequest) {
    r.amount >= 1 && (r.description.Some? ==> |Text.Trim(r.description.value)| <= 200)
  }

  /** `description || \`Transfer from ${from.name} to ${to.name}\`` on the sanitised description. */
  function TransferDescription(description: Option<string>, fromName: string, toName: string): string {
    OrDefault(ExpenseModel.TrimOpt(description), "Transfer from " + fromName + " to " + toName)
  }

  function TransferRow(user: Id, r: TransferRequest, fromName: string, toName: string, now: int): Transaction {
    TransactionModel.New(user, "transfer", r.amount, TransferDescription(r.description, fromName, toName),
                         None, None, Some(r.fromWalletId), Some(r.toWalletId), now, None)
  }

  function TransferOutcome(s: State, user: Id, r: TransferRequest, now: int): Outcome {
    if !TransferInputValid(r) then Outcome(s, InvalidInput)
    else if r.fromWalletId == r.toWalletId then Outcome(s, SameWallet)
    else
      var f := OwnedActiveWallet(s, r.fromWalletId, user);
      var t := OwnedActiveWallet(s, r.toWalletId, user);
      if f.None? || t.None? then Outcome(s, WalletNotFound)
      else if f.value.kind != CreditCard && f.value.balance < r.amount then Outcome(s, InsufficientBalance)
      else MoveFunds(s, user, r, f.value, t.value, now)
  }

  /** The two read-modify-write saves and the ledger row, each save ending the handler if it fails. */
  function MoveFunds(s: State, user: Id, r: TransferRequest, f: Wallet, t: Wallet, now: int): Outcome {
    var f1 := f.(balance := f.balance - r.amount);
    if !WalletModel.Valid(f1) then Outcome(s, ServerError)
    else CreditAndRecord(PutWallet(s, r.fromWalletId, f1), user, r, f, t, now)
  }

  /** After the debit: the credit to the destination, then the ledger row. */
  function CreditAndRecord(s1: State, user: Id, r: TransferRequest, f: Wallet, t: Wallet, now: int): Outcome {
    var t1 := t.(balance := t.balance + r.amount);
    if !WalletModel.Valid(t1) then Outcome(s1, ServerError)
    else RecordTransfer(PutWallet(s1, r.toWalletId, t1), user, r, f.name, t.name, now)
  }

  function RecordTransfer(s2: State, user: Id, r: TransferRequest, fromName: string, toName: string, now: int): Outcome {
    var row := TransferRow(user, r, fromName, toName, now);
    if !TransactionModel.Valid(row) then Outcome(s2, ServerError)
    else Outcome(AddTransaction(s2, row), Ok(200, Some(s2.nextId)))
  }

  method Transfer(db: Database, user: Id, r: TransferRequest, now: int) returns (reply: Reply)
    requires db.Valid()
    modifies db
    ensures db.Valid()
    ensures Outcome(db.Snapshot(), reply) == TransferOutcome(old(db.Snapshot()), user, r, now)
  {
    if !TransferInputValid(r) { return InvalidInput; }
    if r.fromWalletId == r.toWalletId { return SameWallet; }
    var f := OwnedActiveWallet(db.Snapshot(), r.fromWalletId, user);
    var t := OwnedActiveWallet(db.Snapshot(), r.toWalletId, user);
    if f.None? || t.None? { return WalletNotFound; }
    if f.value.kind != CreditCard && f.value.balance < r.amount { return InsufficientBalance; }
    reply := Move(db, user, r, f.value, t.value, now);
  }

  /** Once the debit is valid, the rest of the transfer is the credit and the ledger row on the debited store. */
  lemma MoveFundsStep(s: State, user: Id, r: TransferRequest, f: Wallet, t: Wallet, now: int)
    requires WalletModel.Valid(f.(balance := f.balance - r.amount))
    ensures MoveFunds(s, user, r, f, t, now) == CreditAndRecord(PutWallet(s, r.fromWalletId, f.(balance := f.balance - r.amount)), user, r, f, t, now)
  {
    var f1 := f.(balance := f.balance - r.amount);
    assert MoveFunds(s, user, r, f, t, now) == CreditAndRecord(PutWallet(s, r.fromWalletId, f1), user, r, f, t, now);
  }

  method Move(db: Database, user: Id, r: TransferRequest, f: Wallet, t: Wallet, now: int) returns (reply: Reply)
    requires db.Valid() && r.fromWalletId in db.wallets && r.toWalletId in db.wallets
    modifies db
    ensures db.Valid()
    ensures Outcome(db.Snapshot(), reply) == MoveFunds(old(db.Snapshot()), user, r, f, t, now)
  {
    ghost var s0 := db.Snapshot();
    var f1 := f.(balance := f.balance - r.amount);
    var ok := db.SaveWallet(r.fromWalletId, f1);
    if !ok { return ServerError; }
    PutWalletKeeps(s0, r.fromWalletId, f1);
    MoveFundsStep(s0, user, r, f, t, now);
    reply := Credit(db, user, r, f, t, now);
  }

  method Credit(db: Database, user: Id, r: TransferRequest, f: Wallet, t: Wallet, now: int) returns (reply: Reply)
    requires db.Valid() && r.toWalletId in db.wallets
    modifies db
    ensures db.Valid()
    ensures Outcome(db.Snapshot(), reply) == CreditAndRecord(old(db.Snapshot()), user, r, f, t, now)
  {
    ghost var s1 := db.Snapshot();
    var t1 := t.(balance := t.balance + r.amount);
    var ok := db.SaveWallet(r.toWalletId, t1);
    if !ok { return ServerError; }
    PutWalletKeeps(s1, r.toWalletId, t1);
    reply := Record(db, user, r, f.name, t.name, now);
  }

  method Record(db: Database, user: Id, r: TransferRequest, fromName: string, toName: string, now: int) returns (reply: Reply)
    requires db.Valid()
    modifies db
    ensures db.Valid()
    ensures Outcome(db.Snapshot(), reply) == RecordTransfer(old(db.Snapshot()), user, r, fromName, toName, now)
  {
    ghost var s2 := db.Snapshot();
    var row := TransferRow(user, r, fromName, toName, now);
    var tid := db.InsertTransaction(row);
    if tid.None? { return ServerError; }
    AddTransactionKeeps(s2, row);
    reply := Ok(200, tid);
  }

  /** Transferring to the same wallet is refused before any lookup. */
  lemma TransferSameWalletRefused(s: State, user: Id, r: TransferRequest, now: int)
    requires TransferInputValid(r) && r.fromWalletId == r.toWalletId
    ensures TransferOutcome(s, user, r, now) == Outcome(s, SameWallet)
  {
  }

  /** Both wallets must be the caller's and active. */
  lemma TransferNeedsOwnedActive(s: State, user: Id, r: TransferRequest, now: int)
    requires TransferInputValid(r) && r.fromWalletId != r.toWalletId
    requires OwnedActiveWallet(s, r.fromWalletId, user).None? || OwnedActiveWallet(s, r.toWalletId, user).None?
    ensures TransferOutcome(s, user, r, now) == Outcome(s, WalletNotFound)
  {
  }

  lemma TransferInsufficient(s: State, user: Id, r: TransferRequest, now: int)
    requires TransferInputValid(r) && r.fromWalletId != r.toWalletId
    requires OwnedActiveWallet(s, r.fromWalletId, user).Some? && OwnedActiveWallet(s, r.toWalletId, user).Some?
    requires s.wallets[r.fromWalletId].kind != "credit_card" && s.wallets[r.fromWalletId].balance < r.amount
    ensures TransferOutcome(s, user, r, now) == Outcome(s, InsufficientBalance)
  {
  }

  /** The ledger row of a transfer passes its schema: its description is never empty. */
  lemma TransferRowValid(user: Id, r: TransferRequest, fromName: string, toName: string, now: int)
    ensures TransactionModel.Valid(TransferRow(user, r, fromName, toName, now))
    ensures r.description.None? || Text.Trim(r.description.value) == "" ==>
      TransferRow(user, r, fromName, toName, now).description == Text.Trim("Transfer from " + fromName + " to " + toName)
  {
    var d := TransferDescription(r.description, fromName, toName);
    if r.description.Some? && Text.Trim(r.description.value) != "" {
      Text.TrimIdempotent(r.description.value);
    } else {
      Text.TrimKeepsFirst(d);
    }
  }

  /** A successful transfer moves `amount` from one wallet to the other, keeps their combined balance, and adds one transfer row naming both. */
  lemma TransferConserves(s: State, user: Id, r: TransferRequest, now: int)
    requires Consistent(s) && TransferInputValid(r) && r.fromWalletId != r.toWalletId
    requires OwnedActiveWallet(s, r.fromWalletId, user).Some? && OwnedActiveWallet(s, r.toWalletId, user).Some?
    requires s.wallets[r.fromWalletId].kind == "credit_card" || s.wallets[r.fromWalletId].balance >= r.amount
    ensures var o := TransferOutcome(s, user, r, now);
      var f := s.wallets[r.fromWalletId];
      var t := s.wallets[r.toWalletId];
      && o.reply == Ok(200, Some(s.nextId))
      && o.state.wallets == s.wallets[r.fromWalletId := f.(balance := f.balance - r.amount)]
                                     [r.toWalletId := t.(balance := t.balance + r.amount)]
      && o.state.wallets[r.fromWalletId].balance + o.state.wallets[r.toWalletId].balance == f.balance + t.balance
      && o.state.transactions == s.transactions[s.nextId := TransferRow(user, r, f.name, t.name, now)]
      && o.state.expenses == s.expenses && o.state.incomes == s.incomes && o.state.nextId == s.nextId + 1
  {
    var f := s.wallets[r.fromWalletId];
    var t := s.wallets[r.toWalletId];
    assert TransferOutcome(s, user, r, now) == MoveFunds(s, user, r, f, t, now);
    assert WalletModel.Valid(f) && WalletModel.Valid(t);
    MoveEffect(s, user, r, f, t, now);
  }

  /** The write sequence of a transfer on two distinct valid wallets. */
  lemma MoveEffect(s: State, user: Id, r: TransferRequest, f: Wallet, t: Wallet, now: int)
    requires WalletModel.Valid(f) && WalletModel.Valid(t) && r.fromWalletId != r.toWalletId
    ensures var o := MoveFunds(s, user, r, f, t, now);
      && o.reply == Ok(200, Some(s.nextId))
      && o.state.wallets == s.wallets[r.fromWalletId := f.(balance := f.balance - r.amount)]
                                     [r.toWalletId := t.(balance := t.balance + r.amount)]
      && o.state.wallets[r.fromWalletId].balance + o.state.wallets[r.toWalletId].balance == f.balance + t.balance
      && o.state.transactions == s.transactions[s.nextId := TransferRow(user, r, f.name, t.name, now)]
      && o.state.expenses == s.expenses && o.state.incomes == s.incomes && o.state.nextId == s.nextId + 1
  {
    TransferRowValid(user, r, f.name, t.name, now);
  }

  /** The transfer row records both wallets, the amount and the time of the request. */
  lemma TransferRowFields(user: Id, r: TransferRequest, fromName: string, toName: string, now: int)
    ensures var row := TransferRow(user, r, fromName, toName, now);
      && row.kind == "transfer" && row.amount == r.amount
      && row.fromWalletId == Some(r.fromWalletId) && row.toWalletId == Some(r.toWalletId)
      && row.date == now && row.status == "completed" && row.expenseId.None? && row.category.None?
  {
  }

  // ===========================================================================
  // GET /api/wallets and GET /api/wallets/summary

  predicate ActiveOf(user: Id, w: Wallet) {
    w.userId == user && w.isActive
  }

  /** `Wallet.find({ userId, isActive: true }).sort({ createdAt: -1 })`: ids are handed out in creation order, so newest is the largest id. */
  function ActiveFilter(user: Id): Wallet -> bool {
    (w: Wallet) => ActiveOf(user, w)
  }

  function ActiveWallets(s: State, user: Id): seq<(Id, Wallet)> {
    Listing.SortDesc(Listing.Collect(s.wallets, ActiveFilter(user), 0, s.nextId), Listing.ById)
  }

  lemma ActiveWalletsExact(s: State, user: Id)
    requires Consistent(s)
    ensures forall k :: 0 <= k < |ActiveWallets(s, user)| ==>
      var p := ActiveWallets(s, user)[k]; p.0 in s.wallets && s.wallets[p.0] == p.1 && ActiveOf(user, p.1)
    ensures forall id :: id in s.wallets && ActiveOf(user, s.wallets[id]) ==> (id, s.wallets[id]) in ActiveWallets(s, user)
    ensures Listing.SortedDesc(ActiveWallets(s, user), Listing.ById)
  {
    Listing.SortedCollectSound(s.wallets, ActiveFilter(user), s.nextId, Listing.ById);
    forall id | id in s.wallets && ActiveOf(user, s.wallets[id])
      ensures (id, s.wallets[id]) in ActiveWallets(s, user)
    {
      Listing.SortedCollectComplete(s.wallets, ActiveFilter(user), s.nextId, Listing.ById, id);
    }
  }

  datatype Entry = Entry(kind: string, balance: int, name: string)
  datatype Summary = Summary(totalBalance: int, totalWallets: nat, walletsByType: seq<Entry>)

  function Entries(ws: seq<(Id, Wallet)>): (r: seq<Entry>)
    ensures |r| == |ws|
  {
    if ws == [] then [] else [Entry(ws[0].1.kind, ws[0].1.balance, ws[0].1.name)] + Entries(ws[1..])
  }

  function BalanceOf(w: Wallet): int {
    w.balance
  }

  /** `summary[0] || { totalBalance: 0, totalWallets: 0, walletsByType: [] }`; the group also pushes one entry per wallet. */
  function SummaryOf(ws: seq<(Id, Wallet)>): Summary {
    var g := Aggregate.GroupAll(ws, BalanceOf);
    if g == [] then Summary(0, 0, []) else Summary(g[0].total, g[0].count, Entries(ws))
  }

  function WalletSummary(s: State, user: Id): Summary {
    SummaryOf(Listing.Collect(s.wallets, ActiveFilter(user), 0, s.nextId))
  }

  /** The fallback agrees with the aggregate of no wallets, so the summary is always the total and count of the caller's active wallets. */
  lemma SummaryIsTotal(ws: seq<(Id, Wallet)>)
    ensures SummaryOf(ws).totalBalance == Listing.Sum(Aggregate.Amounts(ws, BalanceOf))
    ensures SummaryOf(ws).totalWallets == |ws| && |SummaryOf(ws).walletsByType| == |ws|
    ensures ws == [] ==> SummaryOf(ws) == Summary(0, 0, [])
  {
  }
}
