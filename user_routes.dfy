// The account handlers of backend/routes/userRoutes.js: sign-up, login,
// logout, the session probe, profile update, password change and account
// deletion. Each handler is a specification function over the store and the
// session, and a method on `Database` and `Session` proved equal to it.
// The validator and bcrypt calls are the parameters bundled in `Library`.
module UserRoutes {
  import opened Base
  import opened Text
  import opened Store
  import opened Passwords

  /** `req.session.user`: what login copies out of the User document. */
  datatype SessionUser = SessionUser(id: Id, name: string, email: string)

  /** The session's value: who is logged in, and the cookie's `maxAge` (None: a browser-session cookie). */
  datatype SessionState = SessionState(user: Option<SessionUser>, maxAge: Option<int>)

  /** An express session, which login fills in and logout destroys. */
  class Session {
    var user: Option<SessionUser>
    var maxAge: Option<int>

    function Snapshot(): SessionState
      reads this
    {
      SessionState(user, maxAge)
    }

    constructor ()
      ensures Snapshot() == Destroyed
    {
      user, maxAge := None, None;
    }
  }

  /** A destroyed (or never filled) session. */
  const Destroyed: SessionState := SessionState(None, None)

  /** Seven days in milliseconds: the cookie life of "remember me". */
  const RememberMs: int := 1000 * 60 * 60 * 24 * 7

  /**
   * The library calls the handlers make: express-validator's `isEmail`,
   * `normalizeEmail` and `escape`, and bcrypt's `hash` and `compare`.
   */
  datatype Library = Library(
    isEmail: string -> bool,
    normalizeEmail: string -> string,
    escape: string -> string,
    hash: string -> string,
    compare: (string, string) -> bool)

  /** The JSON body a handler sends and its HTTP status. */
  datatype Answer = Answer(status: int, success: bool, message: string)

  /** The store and the session after a handler ran, and its answer. */
  datatype UserOutcome = UserOutcome(state: State, session: SessionState, answer: Answer)

  const AuthRequired: Answer := Answer(401, false, "Authentication required")
  const InvalidData: Answer := Answer(200, false, "Invalid input data")
  const ServerFailure: Answer := Answer(200, false, "Server error")
  const FieldsRequired: Answer := Answer(200, false, "All fields are required")
  const BadEmailFormat: Answer := Answer(200, false, "Invalid email format")
  const WeakPassword: Answer :=
    Answer(200, false, "Password must be at least 8 characters and include uppercase, lowercase, number and special character")
  const UserExists: Answer := Answer(200, false, "User already exists")
  const InvalidCredentials: Answer := Answer(200, false, "Invalid credentials")
  const EmailInUse: Answer := Answer(200, false, "Email already in use")
  const UserNotFound: Answer := Answer(200, false, "User not found")
  const WrongPassword: Answer := Answer(200, false, "Current password is incorrect")

  /** `body('name').trim().isLength({ min: 2, max: 50 })`. */
  predicate NameLengthOk(name: string) {
    2 <= |Trim(name)| <= 50
  }

  /** The User schema: name, email and password are required (a required string may not be empty). */
  predicate UserSchemaOk(u: User) {
    u.name != [] && u.email != [] && u.passwordHash != []
  }

  /** `User.findOne({ email })` over every document of the store. */
  function FindByEmail(s: State, email: string): (r: Option<Id>)
    requires Consistent(s)
    ensures r.Some? ==> r.value in s.users && s.users[r.value].email == email
    ensures r.None? <==> forall k :: k in s.users ==> s.users[k].email != email
  {
    UserWithEmail(s.users, email, 0, s.nextId)
  }

  /** Unique emails: the user holding an email is the one `FindByEmail` returns. */
  lemma FindByEmailUnique(s: State, email: string, id: Id)
    requires Consistent(s) && id in s.users && s.users[id].email == email
    ensures FindByEmail(s, email) == Some(id)
  {
  }

  // ---------------------------------------------------------------------------
  // POST /signup (userRoutes.js:123-176)

  datatype SignupRequest = SignupRequest(name: string, email: string, password: string)

  /** The three body validators. */
  predicate SignupInputValid(r: SignupRequest, lib: Library) {
    NameLengthOk(r.name) && lib.isEmail(r.email) && |r.password| >= 8
  }

  /** The document sign-up saves: the escaped trimmed name, the normalized email, the bcrypt hash. */
  function NewUser(r: SignupRequest, lib: Library): User {
    User(lib.escape(Trim(r.name)), lib.normalizeEmail(r.email), lib.hash(r.password))
  }

  function SignupOutcome(s: State, ss: SessionState, r: SignupRequest, lib: Library): UserOutcome
    requires Consistent(s)
  {
    if !SignupInputValid(r, lib) then UserOutcome(s, ss, InvalidData)
    else
      var u := NewUser(r, lib);
      if u.name == [] || u.email == [] || r.password == [] then UserOutcome(s, ss, FieldsRequired)
      else if !EmailShape(u.email) then UserOutcome(s, ss, BadEmailFormat)
      else if !IsStrong(r.password) then UserOutcome(s, ss, WeakPassword)
      else if FindByEmail(s, u.email).Some? then UserOutcome(s, ss, UserExists)
      else if !UserSchemaOk(u) then UserOutcome(s, ss, ServerFailure)
      else UserOutcome(AddUser(s, u), ss, Answer(200, true, "Account created successfully"))
  }

  method Signup(db: Database, session: Session, r: SignupRequest, lib: Library) returns (a: Answer)
    requires db.Valid()
    modifies db
    ensures db.Valid()
    ensures UserOutcome(db.Snapshot(), session.Snapshot(), a) == SignupOutcome(old(db.Snapshot()), old(session.Snapshot()), r, lib)
  {
    if !SignupInputValid(r, lib) { return InvalidData; }
    var u := NewUser(r, lib);
    if u.name == [] || u.email == [] || r.password == [] { return FieldsRequired; }
    if !EmailShape(u.email) { return BadEmailFormat; }
    if !IsStrong(r.password) { return WeakPassword; }
    if FindByEmail(db.Snapshot(), u.email).Some? { return UserExists; }
    if !UserSchemaOk(u) { return ServerFailure; }
    AddUserKeeps(db.Snapshot(), u);
    var _ := db.InsertUser(u);
    a := Answer(200, true, "Account created successfully");
  }

  /** Sign-up succeeds exactly when every check passes, and then adds that one user and changes nothing else. */
  lemma SignupSucceedsIff(s: State, ss: SessionState, r: SignupRequest, lib: Library)
    requires Consistent(s)
    ensures var o := SignupOutcome(s, ss, r, lib);
      o.answer.success <==>
        && SignupInputValid(r, lib) && EmailShape(NewUser(r, lib).email) && IsStrong(r.password)
        && UserSchemaOk(NewUser(r, lib))
        && forall k :: k in s.users ==> s.users[k].email != NewUser(r, lib).email
    ensures var o := SignupOutcome(s, ss, r, lib);
      (o.answer.success ==> o.state == AddUser(s, NewUser(r, lib))) && (!o.answer.success ==> o.state == s)
    ensures SignupOutcome(s, ss, r, lib).session == ss
  {
  }

  /** An email already registered never yields a second account. */
  lemma SignupDuplicateRefused(s: State, ss: SessionState, r: SignupRequest, lib: Library, id: Id)
    requires Consistent(s) && id in s.users && s.users[id].email == lib.normalizeEmail(r.email)
    ensures SignupOutcome(s, ss, r, lib).state == s
    ensures SignupInputValid(r, lib) && EmailShape(lib.normalizeEmail(r.email)) && IsStrong(r.password)
            && lib.escape(Trim(r.name)) != []
            ==> SignupOutcome(s, ss, r, lib).answer == UserExists
  {
    FindByEmailUnique(s, s.users[id].email, id);
  }

  /** A weak password is reported before the store is consulted, whatever the store holds. */
  lemma SignupWeakBeforeDuplicate(s: State, t: State, ss: SessionState, r: SignupRequest, lib: Library)
    requires Consistent(s) && Consistent(t)
    requires SignupInputValid(r, lib) && !IsStrong(r.password)
    ensures SignupOutcome(s, ss, r, lib) == UserOutcome(s, ss, SignupOutcome(t, ss, r, lib).answer)
    ensures SignupOutcome(s, ss, r, lib).answer in {FieldsRequired, BadEmailFormat, WeakPassword}
  {
  }

  // ---------------------------------------------------------------------------
  // POST /login (userRoutes.js:179-232), POST /logout (234-239) and
  // GET /api/auth/status (26-35)

  datatype LoginRequest = LoginRequest(email: string, password: string, remember: bool)

  predicate LoginInputValid(r: LoginRequest, lib: Library) {
    lib.isEmail(r.email) && r.password != []
  }

  /** The session a successful login leaves: the user's id, name and email, and the cookie life. */
  function LoggedIn(id: Id, u: User, remember: bool): SessionState {
    SessionState(Some(SessionUser(id, u.name, u.email)), if remember then Some(RememberMs) else None)
  }

  function LoginOutcome(s: State, ss: SessionState, r: LoginRequest, lib: Library): UserOutcome
    requires Consistent(s)
  {
    if !LoginInputValid(r, lib) then UserOutcome(s, ss, InvalidData)
    else
      var email := lib.normalizeEmail(r.email);
      if email == [] || r.password == [] then UserOutcome(s, ss, FieldsRequired)
      else if !EmailShape(email) then UserOutcome(s, ss, BadEmailFormat)
      else
        match FindByEmail(s, email)
        case None => UserOutcome(s, ss, InvalidCredentials)
        case Some(id) =>
          if !lib.compare(r.password, s.users[id].passwordHash) then UserOutcome(s, ss, InvalidCredentials)
          else UserOutcome(s, LoggedIn(id, s.users[id], r.remember), Answer(200, true, "Login successful"))
  }

  method Login(db: Database, session: Session, r: LoginRequest, lib: Library) returns (a: Answer)
    requires db.Valid()
    modifies session
    ensures UserOutcome(db.Snapshot(), session.Snapshot(), a) == LoginOutcome(db.Snapshot(), old(session.Snapshot()), r, lib)
  {
    if !LoginInputValid(r, lib) { return InvalidData; }
    var email := lib.normalizeEmail(r.email);
    if email == [] || r.password == [] { return FieldsRequired; }
    if !EmailShape(email) { return BadEmailFormat; }
    var found := FindByEmail(db.Snapshot(), email);
    if found.None? { return InvalidCredentials; }
    var u := db.users[found.value];
    if !lib.compare(r.password, u.passwordHash) { return InvalidCredentials; }
    session.user := Some(SessionUser(found.value, u.name, u.email));
    session.maxAge := if r.remember then Some(RememberMs) else None;
    a := Answer(200, true, "Login successful");
  }

  /**
   * Login never changes the store; it fails with the same answer for an
   * unknown email as for a wrong password, and succeeds exactly when the user
   * holding the email verifies the password.
   */
  lemma LoginCredentials(s: State, ss: SessionState, r: LoginRequest, lib: Library)
    requires Consistent(s)
    requires LoginInputValid(r, lib) && lib.normalizeEmail(r.email) != [] && EmailShape(lib.normalizeEmail(r.email))
    ensures LoginOutcome(s, ss, r, lib).state == s
    ensures var email := lib.normalizeEmail(r.email);
      LoginOutcome(s, ss, r, lib).answer.success <==>
        exists id :: id in s.users && s.users[id].email == email && lib.compare(r.password, s.users[id].passwordHash)
    ensures !LoginOutcome(s, ss, r, lib).answer.success ==>
      LoginOutcome(s, ss, r, lib).answer == InvalidCredentials && LoginOutcome(s, ss, r, lib).session == ss
  {
    var email := lib.normalizeEmail(r.email);
    if id :| id in s.users && s.users[id].email == email && lib.compare(r.password, s.users[id].passwordHash) {
      FindByEmailUnique(s, email, id);
    }
  }

  /** After a successful login the session names the user holding the email, for seven days when asked to remember. */
  lemma LoginSession(s: State, ss: SessionState, r: LoginRequest, lib: Library, id: Id)
    requires Consistent(s) && id in s.users && s.users[id].email == lib.normalizeEmail(r.email)
    requires LoginOutcome(s, ss, r, lib).answer.success
    ensures LoginOutcome(s, ss, r, lib).session.user == Some(SessionUser(id, s.users[id].name, s.users[id].email))
    ensures LoginOutcome(s, ss, r, lib).session.maxAge == (if r.remember then Some(604800000) else None)
  {
    FindByEmailUnique(s, s.users[id].email, id);
  }

  /** `res.json({ name, email })` or `401 Not authenticated`. */
  datatype StatusReply = Identity(name: string, email: string) | NotAuthenticated(status: int, message: string)

  function AuthStatus(ss: SessionState): (r: StatusReply)
    ensures r.Identity? <==> ss.user.Some?
  {
    match ss.user
    case Some(u) => Identity(u.name, u.email)
    case None => NotAuthenticated(401, "Not authenticated")
  }

  /** The session probe after a login reports the logged-in user's stored name and email. */
  lemma LoginThenStatus(s: State, ss: SessionState, r: LoginRequest, lib: Library, id: Id)
    requires Consistent(s) && id in s.users && s.users[id].email == lib.normalizeEmail(r.email)
    requires LoginOutcome(s, ss, r, lib).answer.success
    ensures AuthStatus(LoginOutcome(s, ss, r, lib).session) == Identity(s.users[id].name, s.users[id].email)
  {
    LoginSession(s, ss, r, lib, id);
  }

  method Logout(session: Session) returns (a: Answer)
    modifies session
    ensures session.Snapshot() == Destroyed && a.success
  {
    session.user, session.maxAge := None, None;
    a := Answer(200, true, "");
  }

  /** After logout the session probe refuses. */
  lemma LogoutThenStatus()
    ensures AuthStatus(Destroyed) == NotAuthenticated(401, "Not authenticated")
  {
  }

  // ---------------------------------------------------------------------------
  // PUT /api/profile (userRoutes.js:37-72)

  datatype ProfileRequest = ProfileRequest(name: string, email: string)

  predicate ProfileInputValid(r: ProfileRequest, lib: Library) {
    NameLengthOk(r.name) && lib.isEmail(r.email)
  }

  function ProfileOutcome(s: State, ss: SessionState, r: ProfileRequest, lib: Library): UserOutcome
  {
    if ss.user.None? then UserOutcome(s, ss, AuthRequired)
    else if !ProfileInputValid(r, lib) then UserOutcome(s, ss, InvalidData)
    else
      var name := lib.escape(Trim(r.name));
      var email := lib.normalizeEmail(r.email);
      var id := ss.user.value.id;
      if EmailTakenByOther(s, email, id) then UserOutcome(s, ss, EmailInUse)
      // `findByIdAndUpdate` yields null for a deleted account; reading its name throws.
      else if id !in s.users then UserOutcome(s, ss, ServerFailure)
      else
        UserOutcome(PutUser(s, id, s.users[id].(name := name, email := email)),
                    ss.(user := Some(ss.user.value.(name := name, email := email))),
                    Answer(200, true, "Profile updated successfully"))
  }

  method UpdateProfile(db: Database, session: Session, r: ProfileRequest, lib: Library) returns (a: Answer)
    requires db.Valid()
    modifies db, session
    ensures db.Valid()
    ensures UserOutcome(db.Snapshot(), session.Snapshot(), a) == ProfileOutcome(old(db.Snapshot()), old(session.Snapshot()), r, lib)
  {
    if session.user.None? { return AuthRequired; }
    if !ProfileInputValid(r, lib) { return InvalidData; }
    var name := lib.escape(Trim(r.name));
    var email := lib.normalizeEmail(r.email);
    var id := session.user.value.id;
    if EmailTakenByOther(db.Snapshot(), email, id) { return EmailInUse; }
    if id !in db.users { return ServerFailure; }
    var u := db.users[id].(name := name, email := email);
    PutUserKeeps(db.Snapshot(), id, u);
    db.SaveUser(id, u);
    session.user := Some(session.user.value.(name := name, email := email));
    a := Answer(200, true, "Profile updated successfully");
  }

  /** An email held by another account is refused and nothing changes; a success rewrites only the name and email, in the store and in the session. */
  lemma ProfileEffect(s: State, ss: SessionState, r: ProfileRequest, lib: Library)
    requires ss.user.Some?
    ensures var o := ProfileOutcome(s, ss, r, lib);
      ProfileInputValid(r, lib) && EmailTakenByOther(s, lib.normalizeEmail(r.email), ss.user.value.id)
      ==> o.answer == EmailInUse && o.state == s && o.session == ss
    ensures var o := ProfileOutcome(s, ss, r, lib); var id := ss.user.value.id;
      o.answer.success ==>
        && id in s.users && o.state.users.Keys == s.users.Keys
        && o.state.users[id] == User(lib.escape(Trim(r.name)), lib.normalizeEmail(r.email), s.users[id].passwordHash)
        && (forall k :: k in s.users && k != id ==> o.state.users[k] == s.users[k])
        && o.state.(users := s.users) == s
        && o.session.user == Some(SessionUser(id, o.state.users[id].name, o.state.users[id].email))
    ensures !ProfileOutcome(s, ss, r, lib).answer.success ==> ProfileOutcome(s, ss, r, lib).state == s
  {
  }

  // ---------------------------------------------------------------------------
  // PUT /api/change-password (userRoutes.js:74-119)

  datatype PasswordRequest = PasswordRequest(currentPassword: string, newPassword: string)

  predicate PasswordInputValid(r: PasswordRequest) {
    r.currentPassword != [] && |r.newPassword| >= 8
  }

  function ChangePasswordOutcome(s: State, ss: SessionState, r: PasswordRequest, lib: Library): UserOutcome
  {
    if ss.user.None? then UserOutcome(s, ss, AuthRequired)
    else if !PasswordInputValid(r) then UserOutcome(s, ss, InvalidData)
    else
      var id := ss.user.value.id;
      if id !in s.users then UserOutcome(s, ss, UserNotFound)
      else if !lib.compare(r.currentPassword, s.users[id].passwordHash) then UserOutcome(s, ss, WrongPassword)
      else if !IsStrong(r.newPassword) then UserOutcome(s, ss, WeakPassword)
      else
        UserOutcome(PutUser(s, id, s.users[id].(passwordHash := lib.hash(r.newPassword))), ss,
                    Answer(200, true, "Password changed successfully"))
  }

  method ChangePassword(db: Database, session: Session, r: PasswordRequest, lib: Library) returns (a: Answer)
    requires db.Valid()
    modifies db
    ensures db.Valid()
    ensures UserOutcome(db.Snapshot(), session.Snapshot(), a) == ChangePasswordOutcome(old(db.Snapshot()), old(session.Snapshot()), r, lib)
  {
    if session.user.None? { return AuthRequired; }
    if !PasswordInputValid(r) { return InvalidData; }
    var id := session.user.value.id;
    if id !in db.users { return UserNotFound; }
    if !lib.compare(r.currentPassword, db.users[id].passwordHash) { return WrongPassword; }
    if !IsStrong(r.newPassword) { return WeakPassword; }
    var u := db.users[id].(passwordHash := lib.hash(r.newPassword));
    PutUserKeeps(db.Snapshot(), id, u);
    db.SaveUser(id, u);
    a := Answer(200, true, "Password changed successfully");
  }

  /**
   * The current password is checked before the new one's strength, a refusal
   * keeps the old hash, and a success replaces only the logged-in user's hash
   * with the hash of a strong password.
   */
  lemma ChangePasswordEffect(s: State, ss: SessionState, r: PasswordRequest, lib: Library)
    requires ss.user.Some? && PasswordInputValid(r)
    ensures var id := ss.user.value.id;
      id in s.users && !lib.compare(r.currentPassword, s.users[id].passwordHash)
      ==> ChangePasswordOutcome(s, ss, r, lib).answer == WrongPassword
    ensures !ChangePasswordOutcome(s, ss, r, lib).answer.success ==> ChangePasswordOutcome(s, ss, r, lib).state == s
    ensures var o := ChangePasswordOutcome(s, ss, r, lib); var id := ss.user.value.id;
      o.answer.success ==>
        && id in s.users && lib.compare(r.currentPassword, s.users[id].passwordHash) && IsStrong(r.newPassword)
        && o.state == PutUser(s, id, User(s.users[id].name, s.users[id].email, lib.hash(r.newPassword)))
    ensures ChangePasswordOutcome(s, ss, r, lib).session == ss
  {
  }

  // ---------------------------------------------------------------------------
  // DELETE /api/account (userRoutes.js:241-292)

  /**
   * `deletedItems`: how many of the six `Promise.allSettled` entries were
   * fulfilled. The Budget deletion carries a `.catch`, so it is fulfilled even
   * when it failed.
   */
  function DeletedItems(gone: Deletions): nat {
    1 + (if gone.expenses then 1 else 0) + (if gone.incomes then 1 else 0) + (if gone.wallets then 1 else 0)
      + (if gone.transactions then 1 else 0) + (if gone.user then 1 else 0)
  }

  lemma DeletedItemsRange(gone: Deletions)
    ensures 1 <= DeletedItems(gone) <= 6
    ensures DeletedItems(gone) == 6 <==> gone.expenses && gone.incomes && gone.wallets && gone.transactions && gone.user
    ensures DeletedItems(gone) == DeletedItems(gone.(budgets := !gone.budgets))
  {
  }

  function DeleteAccountOutcome(s: State, ss: SessionState, gone: Deletions): UserOutcome
  {
    if ss.user.None? then UserOutcome(s, ss, AuthRequired)
    else
      UserOutcome(DeleteAccountData(s, ss.user.value.id, gone), Destroyed,
                  Answer(200, true, "Account and all associated data deleted successfully"))
  }

  /** `gone` says which of the deletions took effect; the reply reports their count. */
  method DeleteAccount(db: Database, session: Session, gone: Deletions) returns (a: Answer, deletedItems: Option<nat>)
    requires db.Valid()
    modifies db, session
    ensures db.Valid()
    ensures UserOutcome(db.Snapshot(), session.Snapshot(), a) == DeleteAccountOutcome(old(db.Snapshot()), old(session.Snapshot()), gone)
    ensures deletedItems == if a.success then Some(DeletedItems(gone)) else None
  {
    if session.user.None? { return AuthRequired, None; }
    DeleteAccountDataKeeps(db.Snapshot(), session.user.value.id, gone);
    db.DeleteUserData(session.user.value.id, gone);
    session.user, session.maxAge := None, None;
    a := Answer(200, true, "Account and all associated data deleted successfully");
    deletedItems := Some(DeletedItems(gone));
  }

  /**
   * When every deletion took effect, nothing the user owned is left; other
   * users' documents are kept whichever deletions failed. The reply is a
   * success and the session is destroyed in every case.
   */
  lemma DeleteAccountEffect(s: State, ss: SessionState, gone: Deletions)
    requires ss.user.Some?
    ensures var o := DeleteAccountOutcome(s, ss, gone); var user := ss.user.value.id;
      gone == Deletions(true, true, true, true, true, true) ==>
        && user !in o.state.users
        && (forall k :: k in o.state.wallets ==> o.state.wallets[k].userId != user)
        && (forall k :: k in o.state.expenses ==> o.state.expenses[k].userId != user)
        && (forall k :: k in o.state.incomes ==> o.state.incomes[k].userId != user)
        && (forall k :: k in o.state.transactions ==> o.state.transactions[k].userId != user)
        && (forall k :: k in o.state.budgets ==> o.state.budgets[k].userId != user)
    ensures var o := DeleteAccountOutcome(s, ss, gone); var user := ss.user.value.id;
      && (forall k :: k in s.wallets && s.wallets[k].userId != user ==> k in o.state.wallets && o.state.wallets[k] == s.wallets[k])
      && (forall k :: k in s.expenses && s.expenses[k].userId != user ==> k in o.state.expenses && o.state.expenses[k] == s.expenses[k])
      && (forall k :: k in s.incomes && s.incomes[k].userId != user ==> k in o.state.incomes && o.state.incomes[k] == s.incomes[k])
      && (forall k :: k in s.transactions && s.transactions[k].userId != user ==>
            k in o.state.transactions && o.state.transactions[k] == s.transactions[k])
      && (forall k :: k in s.budgets && s.budgets[k].userId != user ==> k in o.state.budgets && o.state.budgets[k] == s.budgets[k])
      && (forall k :: k in s.users && k != user ==> k in o.state.users && o.state.users[k] == s.users[k])
    ensures DeleteAccountOutcome(s, ss, gone).answer.success && DeleteAccountOutcome(s, ss, gone).session == Destroyed
  {
    var user := ss.user.value.id;
    var d := DeleteAccountData(s, user, gone);
    assert DeleteAccountOutcome(s, ss, gone).state == d;
    assert d.wallets == if gone.wallets then WithoutOwner(s.wallets, WalletOwner, user) else s.wallets;
    assert d.expenses == if gone.expenses then WithoutOwner(s.expenses, ExpenseOwner, user) else s.expenses;
    assert d.incomes == if gone.incomes then WithoutOwner(s.incomes, IncomeOwner, user) else s.incomes;
    assert d.transactions == if gone.transactions then WithoutOwner(s.transactions, TransactionOwner, user) else s.transactions;
    assert d.budgets == if gone.budgets then WithoutOwner(s.budgets, BudgetOwner, user) else s.budgets;
  }

  // ---------------------------------------------------------------------------
  // isAuthenticated (userRoutes.js:16-22)

  /** Without a logged-in user every protected handler answers 401 and changes nothing. */
  lemma UnauthenticatedRefused(s: State, ss: SessionState, lib: Library,
                               p: ProfileRequest, c: PasswordRequest, gone: Deletions)
    requires ss.user.None?
    ensures ProfileOutcome(s, ss, p, lib) == UserOutcome(s, ss, AuthRequired)
    ensures ChangePasswordOutcome(s, ss, c, lib) == UserOutcome(s, ss, AuthRequired)
    ensures DeleteAccountOutcome(s, ss, gone) == UserOutcome(s, ss, AuthRequired)
  {
  }
}
