// The Expense schema (backend/models/Expense.js).
module ExpenseModel {
  import opened Base
  import Text

  const Categories: set<string> :=
    {"food", "shopping", "housing", "transportation", "entertainment", "healthcare", "utilities", "other"}
  const Frequencies: set<string> := {"daily", "weekly", "monthly", "yearly"}

  datatype Expense = Expense(
    userId: Id,
    title: string,
    amount: int,
    category: string,
    description: Option<string>,
    date: int,
    walletId: Id,
    tags: seq<string>,
    isRecurring: bool,
    recurringFrequency: Option<string>)

  predicate Valid(e: Expense) {
    && e.title != ""
    && e.amount >= 0
    && e.category in Categories
    && (e.isRecurring ==> e.recurringFrequency.Some? && e.recurringFrequency.value != "")
    && (e.recurringFrequency.Some? ==> e.recurringFrequency.value in Frequencies)
  }

  function TrimAll(tags: seq<string>): (r: seq<string>)
    ensures |r| == |tags| && forall k :: 0 <= k < |tags| ==> r[k] == Text.Trim(tags[k])
  {
    if tags == [] then [] else [Text.Trim(tags[0])] + TrimAll(tags[1..])
  }

  function TrimOpt(s: Option<string>): Option<string> {
    if s.Some? then Some(Text.Trim(s.value)) else None
  }

  /** `new Expense({...})`: the trim setters run, `isRecurring` defaults to false. */
  function New(userId: Id, title: string, amount: int, category: string,
               description: Option<string>, date: int, walletId: Id, tags: seq<string>): (e: Expense)
    ensures e.title == Text.Trim(title) && e.amount == amount && e.category == category
    ensures e.walletId == walletId && e.userId == userId && e.date == date
    ensures !e.isRecurring && e.recurringFrequency.None?
  {
    Expense(userId, Text.Trim(title), amount, category, TrimOpt(description), date, walletId,
            TrimAll(tags), false, None)
  }

  /** `recurringFrequency` is required exactly when `isRecurring`. */
  lemma RecurrenceRule(e: Expense)
    ensures e.isRecurring ==> !Valid(e.(recurringFrequency := None))
    ensures !e.isRecurring && Valid(e) ==> Valid(e.(recurringFrequency := None))
    ensures Valid(e) && e.recurringFrequency.Some? ==> e.recurringFrequency.value in {"daily", "weekly", "monthly", "yearly"}
  {
  }

  /** A fresh expense is valid exactly when its trimmed title is non-empty, the amount is not negative and the category is enumerated. */
  lemma NewValid(userId: Id, title: string, amount: int, category: string,
                 description: Option<string>, date: int, walletId: Id, tags: seq<string>)
    ensures Valid(New(userId, title, amount, category, description, date, walletId, tags))
        <==> (Text.Trim(title) != "" && amount >= 0 && category in Categories)
  {
  }
}
