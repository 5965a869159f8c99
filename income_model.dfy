// The Income schema (backend/models/Income.js). It has no field linking an
// income to its Transaction row.
module IncomeModel {
  import opened Base
  import Text

  const Sources: set<string> := {"salary", "freelance", "investment", "bonus", "gift", "other"}
  const DefaultSource: string := "other"

  datatype Income = Income(
    userId: Id,
    title: string,
    amount: int,
    description: Option<string>,
    date: int,
    walletId: Id,
    source: string)

  predicate Valid(i: Income) {
    i.title != "" && i.amount >= 0 && i.source in Sources
  }

  /** `new Income({...})`: trim setters, and `source` defaults to `other`. */
  function New(userId: Id, title: string, amount: int, description: Option<string>,
               date: int, walletId: Id, source: Option<string>): (i: Income)
    ensures i.title == Text.Trim(title) && i.amount == amount && i.walletId == walletId
    ensures i.date == date && i.userId == userId && i.source == source.GetOr(DefaultSource)
  {
    Income(userId, Text.Trim(title), amount,
           if description.Some? then Some(Text.Trim(description.value)) else None,
           date, walletId, source.GetOr(DefaultSource))
  }

  lemma SourceDefaultValid(userId: Id, title: string, amount: int, description: Option<string>, date: int, walletId: Id)
    ensures var i := New(userId, title, amount, description, date, walletId, None);
      i.source == "other" && (Valid(i) <==> Text.Trim(title) != "" && amount >= 0)
  {
  }

  /** A fresh income is valid exactly when its trimmed title is non-empty, the amount is not negative and the
      source, if given, is one of the six. */
  lemma NewValid(userId: Id, title: string, amount: int, description: Option<string>,
                 date: int, walletId: Id, source: Option<string>)
    ensures Valid(New(userId, title, amount, description, date, walletId, source))
        <==> Text.Trim(title) != "" && amount >= 0
             && (source.None? || source.value in {"salary", "freelance", "investment", "bonus", "gift", "other"})
  {
  }
}
