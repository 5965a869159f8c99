// The Wallet schema (backend/models/Wallet.js).
module WalletModel {
  import opened Base
  import Text

  const Kinds: set<string> :=
    {"credit_card", "debit_card", "savings", "checking", "cash", "investment", "other"}
  const CreditCard: string := "credit_card"
  const DefaultCurrency: string := "USD"
  const DefaultColor: string := "#3498db"
  const DefaultIcon: string := "\U{1F4B3}"

  datatype Wallet = Wallet(
    userId: Id,
    name: string,
    kind: string,                 // the schema's `type`
    balance: int,
    currency: string,
    color: string,
    icon: string,
    isActive: bool,
    creditLimit: Option<int>,
    accountNumber: Option<string>,
    bankName: Option<string>)

  /** Name and type are required, the type is enumerated; the balance has no bound. */
  predicate Valid(w: Wallet) {
    w.name != "" && w.kind in Kinds
  }

  /** `new Wallet({...})`: an absent field takes the schema default, `isActive` starts true. */
  function New(userId: Id, name: string, kind: string, balance: Option<int>, currency: Option<string>,
               color: Option<string>, icon: Option<string>, creditLimit: Option<int>,
               accountNumber: Option<string>, bankName: Option<string>): (w: Wallet)
    ensures w.isActive && w.name == Text.Trim(name) && w.kind == kind
    ensures w.balance == balance.GetOr(0)
    ensures w.currency == currency.GetOr(DefaultCurrency) && w.color == color.GetOr(DefaultColor)
    ensures w.icon == icon.GetOr(DefaultIcon) && w.creditLimit == creditLimit
  {
    Wallet(userId, Text.Trim(name), kind, balance.GetOr(0), currency.GetOr(DefaultCurrency),
           color.GetOr(DefaultColor), icon.GetOr(DefaultIcon), true, creditLimit, accountNumber, bankName)
  }

  /** The balance is not constrained: changing it never affects validity. */
  lemma BalanceUnconstrained(w: Wallet, b: int)
    ensures Valid(w.(balance := b)) <==> Valid(w)
    ensures Valid(w.(isActive := false)) <==> Valid(w)
  {
  }

  lemma DefaultsApplied(userId: Id, name: string, kind: string)
    ensures var w := New(userId, name, kind, None, None, None, None, None, None, None);
      w.balance == 0 && w.currency == "USD" && w.isActive && w.creditLimit == None
      && (Valid(w) <==> Text.Trim(name) != "" && kind in Kinds)
  {
  }
}
