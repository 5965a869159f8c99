// The Transaction schema (backend/models/Transaction.js): the ledger row that
// records every balance-affecting event. A save succeeds iff `Valid` holds.
module TransactionModel {
  import opened Base
  import Text

  const Kinds: set<string> := {"expense", "income", "transfer"}
  const Sources: set<string> := {"salary", "freelance", "investment", "bonus", "gift", "other"}
  const Statuses: set<string> := {"pending", "completed", "failed"}
  const DefaultStatus: string := "completed"

  datatype Transaction = Transaction(
    userId: Id,
    kind: string,                 // the schema's `type`
    amount: int,
    description: string,
    category: Option<string>,
    source: Option<string>,
    fromWalletId: Option<Id>,
    toWalletId: Option<Id>,
    date: int,
    status: string,
    expenseId: Option<Id>)

  /** A Mongoose `required` string: present and not empty. */
  predicate Present(s: Option<string>) {
    s.Some? && s.value != ""
  }

  /** The schema's validators, one conjunct per field rule. */
  predicate Valid(t: Transaction) {
    && t.kind in Kinds
    && t.description != ""
    && (t.kind == "expense" ==> Present(t.category))
    && (t.source.Some? ==> t.source.value in Sources)
    && (t.kind == "income" ==> Present(t.source))
    && (t.kind == "expense" || t.kind == "transfer" ==> t.fromWalletId.Some?)
    && (t.kind == "income" || t.kind == "transfer" ==> t.toWalletId.Some?)
    && t.status in Statuses
  }

  /** `new Transaction({...})`: the description setter trims, `status` takes its default. */
  function New(userId: Id, kind: string, amount: int, description: string,
               category: Option<string>, source: Option<string>,
               fromWalletId: Option<Id>, toWalletId: Option<Id>,
               date: int, expenseId: Option<Id>): (t: Transaction)
    ensures t.status == DefaultStatus && t.description == Text.Trim(description)
    ensures t.kind == kind && t.amount == amount && t.date == date && t.expenseId == expenseId
    ensures t.category == category && t.source == source
    ensures t.fromWalletId == fromWalletId && t.toWalletId == toWalletId && t.userId == userId
  {
    Transaction(userId, kind, amount, Text.Trim(description), category, source,
                fromWalletId, toWalletId, date, DefaultStatus, expenseId)
  }

  /** A fresh row saves exactly when its type is one of the three, its trimmed description is non-empty and the
      category, source and wallet references its type needs are there. */
  lemma NewValid(userId: Id, kind: string, amount: int, description: string,
                 category: Option<string>, source: Option<string>,
                 fromWalletId: Option<Id>, toWalletId: Option<Id>,
                 date: int, expenseId: Option<Id>)
    ensures Valid(New(userId, kind, amount, description, category, source, fromWalletId, toWalletId, date, expenseId))
        <==> && (kind == "expense" || kind == "income" || kind == "transfer")
             && Text.Trim(description) != ""
             && (kind == "expense" ==> Present(category))
             && (source.Some? ==> source.value in Sources)
             && (kind == "income" ==> Present(source))
             && (kind != "income" ==> fromWalletId.Some?)
             && (kind != "expense" ==> toWalletId.Some?)
  {
  }

  /** `category` is required exactly when the type is `expense`. */
  lemma CategoryRule(t: Transaction)
    ensures t.kind == "expense" ==> !Valid(t.(category := None))
    ensures t.kind != "expense" ==> (Valid(t.(category := None)) <==> Valid(t))
  {
  }

  /** `source` is required exactly when the type is `income`, and is always one of the six sources. */
  lemma SourceRule(t: Transaction)
    ensures t.kind == "income" ==> !Valid(t.(source := None))
    ensures t.kind != "income" && (t.source.Some? ==> t.source.value in Sources) ==> (Valid(t.(source := None)) <==> Valid(t))
    ensures Valid(t) && t.source.Some? ==> t.source.value in Sources
  {
  }

  /** The from-wallet is required exactly for expense and transfer rows, the to-wallet exactly for income and transfer rows. */
  lemma WalletRule(t: Transaction)
    ensures t.kind == "expense" || t.kind == "transfer" ==> !Valid(t.(fromWalletId := None))
    ensures t.kind == "income" ==> (Valid(t.(fromWalletId := None)) <==> Valid(t))
    ensures t.kind == "income" || t.kind == "transfer" ==> !Valid(t.(toWalletId := None))
    ensures t.kind == "expense" ==> (Valid(t.(toWalletId := None)) <==> Valid(t))
  {
  }

  /** A freshly built transaction has status `completed`, which passes the status rule. */
  lemma DefaultStatusValid(userId: Id, kind: string, amount: int, description: string,
                           category: Option<string>, source: Option<string>,
                           fromWalletId: Option<Id>, toWalletId: Option<Id>,
                           date: int, expenseId: Option<Id>)
    ensures New(userId, kind, amount, description, category, source, fromWalletId, toWalletId, date, expenseId).status in Statuses
  {
  }
}
