// The signup and login form logic of frontend/src/systemRoutes.js, with the
// DOM reads turned into parameters and the DOM writes into results.
module SystemRoutes {
  import opened Base
  import Text
  import Passwords

  // ===========================================================================
  // checkPasswordStrength

  /** `[^A-Za-z0-9]`. */
  predicate IsOther(c: char) {
    !Text.IsAsciiAlnum(c)
  }

  /** The five criteria the meter counts, in the order the handler tests them. */
  function Criteria(p: string): seq<bool> {
    [|p| >= 8, Text.HasChar(p, Text.IsAsciiLower), Text.HasChar(p, Text.IsAsciiUpper),
     Text.HasChar(p, Text.IsAsciiDigit), Text.HasChar(p, IsOther)]
  }

  /** The number of `true` entries. */
  function CountTrue(bs: seq<bool>): (r: nat)
    ensures r <= |bs|
  {
    if bs == [] then 0 else (if bs[0] then 1 else 0) + CountTrue(bs[1..])
  }

  lemma CountFive(a: bool, b: bool, c: bool, d: bool, e: bool)
    ensures CountTrue([a, b, c, d, e]) == (if a then 1 else 0) + (if b then 1 else 0) + (if c then 1 else 0)
                                        + (if d then 1 else 0) + (if e then 1 else 0)
  {
    assert [a, b, c, d, e][1..] == [b, c, d, e];
    assert [b, c, d, e][1..] == [c, d, e];
    assert [c, d, e][1..] == [d, e];
    assert [d, e][1..] == [e];
    assert [e][1..] == [];
    assert CountTrue([e]) == (if e then 1 else 0);
    assert CountTrue([d, e]) == (if d then 1 else 0) + CountTrue([e]);
    assert CountTrue([c, d, e]) == (if c then 1 else 0) + CountTrue([d, e]);
    assert CountTrue([b, c, d, e]) == (if b then 1 else 0) + CountTrue([c, d, e]);
  }

  /** The `strength++` chain. */
  method Score(p: string) returns (strength: nat)
    ensures strength == CountTrue(Criteria(p)) && strength <= 5
  {
    strength := 0;
    if |p| >= 8 { strength := strength + 1; }
    if Text.HasChar(p, Text.IsAsciiLower) { strength := strength + 1; }
    if Text.HasChar(p, Text.IsAsciiUpper) { strength := strength + 1; }
    if Text.HasChar(p, Text.IsAsciiDigit) { strength := strength + 1; }
    if Text.HasChar(p, IsOther) { strength := strength + 1; }
    CountFive(|p| >= 8, Text.HasChar(p, Text.IsAsciiLower), Text.HasChar(p, Text.IsAsciiUpper),
              Text.HasChar(p, Text.IsAsciiDigit), Text.HasChar(p, IsOther));
  }

  datatype Label = Weak | Medium | Strong

  function LabelOf(strength: nat): (r: Label)
    ensures r == Strong <==> strength >= 4
    ensures r == Medium <==> 2 <= strength <= 3
    ensures r == Weak <==> strength < 2
  {
    if strength >= 4 then Strong else if strength >= 2 then Medium else Weak
  }

  /** The indicator text `Password strength: ${text}`. */
  function LabelText(l: Label): string {
    match l
    case Weak => "Password strength: Weak"
    case Medium => "Password strength: Medium"
    case Strong => "Password strength: Strong"
  }

  /** Every password the backend accepts shows as Strong: it meets all five criteria. */
  lemma StrongPasswordScoresFive(p: string)
    requires Passwords.IsStrong(p)
    ensures CountTrue(Criteria(p)) == 5 && LabelOf(CountTrue(Criteria(p))) == Strong
  {
    var d :| 0 <= d < |p| && Passwords.IsSpecial(p[d]);
    assert !Text.IsAsciiAlnum(p[d]);
    assert Text.HasChar(p, IsOther);
    CountFive(true, true, true, true, true);
  }

  /** The converse fails twice over: four criteria already show Strong ... */
  lemma FourCriteriaShowStrong()
    ensures LabelOf(CountTrue(Criteria("Abcdefg1"))) == Strong && !Passwords.IsStrong("Abcdefg1")
  {
    var p := "Abcdefg1";
    assert Text.IsAsciiLower(p[1]) && Text.IsAsciiUpper(p[0]) && Text.IsAsciiDigit(p[7]);
    assert forall k :: 0 <= k < |p| ==> Text.IsAsciiAlnum(p[k]);
    CountFive(true, true, true, true, false);
  }

  /** ... and any non-alphanumeric character counts as special, not only `@$!%*?&`. */
  lemma AnySymbolCountsAsSpecial()
    ensures CountTrue(Criteria("Abcdefg1#")) == 5 && !Passwords.IsStrong("Abcdefg1#")
  {
    var q := "Abcdefg1#";
    assert Text.IsAsciiLower(q[1]) && Text.IsAsciiUpper(q[0]) && Text.IsAsciiDigit(q[7]) && IsOther(q[8]);
    assert forall k :: 0 <= k < |q| ==> !Passwords.IsSpecial(q[k]);
    CountFive(true, true, true, true, true);
  }

  // ===========================================================================
  // checkPasswordMatch

  /** What the indicator shows; `Blank` clears the text and leaves the class as it was. */
  datatype MatchIndicator = Blank | Match | Mismatch

  /** `password` may be missing (`?.value` of an absent field); an absent or empty confirmation shows nothing. */
  function CheckPasswordMatch(password: Option<string>, confirm: Option<string>): (r: MatchIndicator)
    ensures r == Blank <==> confirm.None? || confirm == Some("")
    ensures r == Match <==> confirm.Some? && confirm.value != "" && password == confirm
  {
    if confirm.None? || confirm.value == "" then Blank
    else if password == confirm then Match
    else Mismatch
  }

  function IndicatorText(m: MatchIndicator): string {
    match m
    case Blank => ""
    case Match => "✓ Passwords match"
    case Mismatch => "✗ Passwords do not match"
  }

  // ===========================================================================
  // validateEmail, validateSignupForm, validateLoginForm

  function ValidateEmail(e: string): bool {
    Passwords.EmailShape(e)
  }

  datatype Check = Accept | Reject(alert: string)

  const AllFieldsRequired: string := "All fields are required"
  const InvalidEmail: string := "Please enter a valid email address"
  const PasswordsDiffer: string := "Passwords do not match"
  const WeakPassword: string := "Password must be strong (Uppercase, lowercase, number, special char)"
  const TermsRequired: string := "Please accept Terms & Conditions"

  /** The early-return chain; `terms` is `?.checked` of a checkbox that may be missing. */
  function ValidateSignupForm(name: string, email: string, password: string, confirm: string, terms: Option<bool>): Check {
    var n := Text.Trim(name);
    var e := Text.Trim(email);
    if n == "" || e == "" || password == "" || confirm == "" then Reject(AllFieldsRequired)
    else if !ValidateEmail(e) then Reject(InvalidEmail)
    else if password != confirm then Reject(PasswordsDiffer)
    else if !Passwords.IsStrong(password) then Reject(WeakPassword)
    else if terms == Some(false) then Reject(TermsRequired)
    else Accept
  }

  /** The form is accepted exactly when every check passes; only an explicitly unticked box blocks. */
  lemma SignupAcceptsIff(name: string, email: string, password: string, confirm: string, terms: Option<bool>)
    ensures ValidateSignupForm(name, email, password, confirm, terms) == Accept <==>
      && Text.Trim(name) != "" && password != "" && password == confirm
      && ValidateEmail(Text.Trim(email)) && Passwords.IsStrong(password) && terms != Some(false)
  {
    if ValidateEmail(Text.Trim(email)) {
      Passwords.EmailShapeMeans(Text.Trim(email));
    }
  }

  /** Each alert is raised only when every earlier check passed. */
  lemma SignupCheckOrder(name: string, email: string, password: string, confirm: string, terms: Option<bool>)
    ensures var r := ValidateSignupForm(name, email, password, confirm, terms);
      var filled := Text.Trim(name) != "" && Text.Trim(email) != "" && password != "" && confirm != "";
      && (r == Reject(AllFieldsRequired) <==> !filled)
      && (r == Reject(InvalidEmail) <==> filled && !ValidateEmail(Text.Trim(email)))
      && (r == Reject(PasswordsDiffer) <==> filled && ValidateEmail(Text.Trim(email)) && password != confirm)
      && (r == Reject(WeakPassword) <==> filled && ValidateEmail(Text.Trim(email)) && password == confirm && !Passwords.IsStrong(password))
      && (r == Reject(TermsRequired) <==> filled && ValidateEmail(Text.Trim(email)) && password == confirm && Passwords.IsStrong(password) && terms == Some(false))
  {
  }

  function ValidateLoginForm(email: string, password: string): Check {
    var e := Text.Trim(email);
    if e == "" || password == "" then Reject(AllFieldsRequired)
    else if !ValidateEmail(e) then Reject(InvalidEmail)
    else Accept
  }

  lemma LoginAcceptsIff(email: string, password: string)
    ensures ValidateLoginForm(email, password) == Accept <==> password != "" && ValidateEmail(Text.Trim(email))
  {
    if ValidateEmail(Text.Trim(email)) {
      Passwords.EmailShapeMeans(Text.Trim(email));
    }
  }
}
