/**
 * The login and add-user controllers over an abstract document store that
 * holds users, issued tokens and the append-only authentication log.
 *
 * The password primitives are parameters: `compare` stands for the salted
 * constant-time check of a plaintext against a stored hash, `hash` for the
 * adaptive one-way hash. The minted bearer token, the clock, the requester's
 * IP and browser/geolocation string are parameters too.
 */
module UserController {
  import opened Domain
  import Validators

  // ------------------------------------------------------------------
  // Records written by the controllers

  datatype AuthLogType = LoginAttempt | InvalidEmail | WrongPasswordAttempt

  /** One audit record; `user` refers to the matched user when there is one. */
  datatype AuthLog = AuthLog(
    logType: AuthLogType,
    user: Option<UserId>,
    username: string,
    email: string,
    deviceIp: string,
    success: bool,
    message: string,
    browserInfo: string)

  /** An issued session credential; `validTill` is an absolute time in milliseconds. */
  datatype Token = Token(user: UserId, token: string, validTill: int)

  /** Which collection a `save()` wrote to, in the order the saves happen. */
  datatype Saved = UserSaved | TokenSaved | AuthLogSaved

  /** Thirty days in milliseconds: a token's lifetime. */
  const ThirtyDays: int := 30 * 24 * 60 * 60 * 1000

  const IncorrectCredentialsMessage: string := "Email, Username or Password is Incorrect"
  const AccountNotActiveMessage: string := "Your account is not active"
  const LoggedInMessage: string := "User LoggedIn successfully"
  const UserExistsMessage: string := "User already exist"
  const UserAddedMessage: string := "User added successfully"

  const UnknownUserLogMessage: string := "User entered wrong email or username"
  const WrongPasswordLogMessage: string := "User entered wrong password"
  const NotActiveLogMessage: string := "User is not active but entered correct password and email"
  const LoggedInLogMessage: string := "User logged in successfully"

  /** bcrypt.compare(plaintext, storedHash), left uninterpreted. */
  type PasswordCheck = (string, string) -> bool

  /** bcrypt.hash(plaintext, 12), left uninterpreted. */
  type PasswordHash = string -> string

  // ------------------------------------------------------------------
  // Lookup: the first stored user satisfying a condition

  function FindFirst(users: seq<User>, p: User -> bool): (r: Option<nat>)
    ensures r.None? <==> forall i :: 0 <= i < |users| ==> !p(users[i])
    ensures r.Some? ==> r.value < |users| && p(users[r.value])
    ensures r.Some? ==> forall i :: 0 <= i < r.value ==> !p(users[i])
  {
    if users == [] then None
    else if p(users[0]) then Some(0)
    else match FindFirst(users[1..], p)
      case None => None
      case Some(i) => Some(i + 1)
  }

  // ------------------------------------------------------------------
  // Login

  /** The login body; `username` carries either a username or an email. */
  datatype LoginBody = LoginBody(username: string, password: string)

  /** The login validator: identifier of 4 to 100 characters, password of 8 to 70. */
  predicate ValidLoginBody(b: LoginBody) {
    4 <= |b.username| <= 100 && 8 <= |b.password| <= 70
  }

  /** A user is found by the identifier when it is its email or its username. */
  predicate MatchesIdentifier(u: User, identifier: string) {
    u.email == Some(identifier) || u.username == identifier
  }

  /** `findOne` with `$or` on email and username: the first stored user the identifier names. */
  function LookupIndex(users: seq<User>, identifier: string): (r: Option<nat>)
    ensures r.None? <==> forall i :: 0 <= i < |users| ==> !MatchesIdentifier(users[i], identifier)
    ensures r.Some? ==> r.value < |users| && MatchesIdentifier(users[r.value], identifier)
    ensures r.Some? ==> forall i :: 0 <= i < r.value ==> !MatchesIdentifier(users[i], identifier)
  {
    FindFirst(users, u => MatchesIdentifier(u, identifier))
  }

  /** The four classified outcomes of a login attempt. */
  datatype Decision = UnknownUser | WrongPassword(user: User) | NotActive(user: User) | LoggedIn(user: User)

  /**
   * The outcome of a login against `users`: lookup first, then the password,
   * then the account status.
   */
  function Decide(users: seq<User>, body: LoginBody, compare: PasswordCheck): (d: Decision)
    ensures d.UnknownUser? <==> forall i :: 0 <= i < |users| ==> !MatchesIdentifier(users[i], body.username)
    ensures !d.UnknownUser? ==>
              exists i :: 0 <= i < |users| && users[i] == d.user && MatchesIdentifier(users[i], body.username)
                          && forall j :: 0 <= j < i ==> !MatchesIdentifier(users[j], body.username)
    ensures d.WrongPassword? <==> !d.UnknownUser? && !compare(body.password, d.user.password)
    ensures d.NotActive? <==> !d.UnknownUser? && compare(body.password, d.user.password) && d.user.status != Active
    ensures d.LoggedIn? <==> !d.UnknownUser? && compare(body.password, d.user.password) && d.user.status == Active
  {
    match LookupIndex(users, body.username)
    case None => UnknownUser
    case Some(i) =>
      var user := users[i];
      if !compare(body.password, user.password) then WrongPassword(user)
      else if user.status != Active then NotActive(user)
      else LoggedIn(user)
  }

  /** The audit record written for an attempt with outcome `d`. */
  function AttemptLog(d: Decision, body: LoginBody, ip: string, browser: string): (r: AuthLog)
    ensures r.success <==> d.LoggedIn?
    ensures r.logType == InvalidEmail <==> d.UnknownUser?
    ensures r.logType == WrongPasswordAttempt <==> d.WrongPassword?
    ensures r.user == if d.UnknownUser? then None else Some(d.user.id)
    ensures r.username == body.username && r.email == body.username
    ensures r.deviceIp == ip && r.browserInfo == browser
  {
    match d
    case UnknownUser =>
      AuthLog(InvalidEmail, None, body.username, body.username, ip, false, UnknownUserLogMessage, browser)
    case WrongPassword(u) =>
      AuthLog(WrongPasswordAttempt, Some(u.id), body.username, body.username, ip, false, WrongPasswordLogMessage, browser)
    case NotActive(u) =>
      AuthLog(LoginAttempt, Some(u.id), body.username, body.username, ip, false, NotActiveLogMessage, browser)
    case LoggedIn(u) =>
      AuthLog(LoginAttempt, Some(u.id), body.username, body.username, ip, true, LoggedInLogMessage, browser)
  }

  /** The answer sent for outcome `d`; `token` is only used on success. */
  function LoginReply(d: Decision, token: string): (r: Response)
    ensures r.status == HttpOk
    ensures r.success <==> d.LoggedIn?
    ensures r.success ==> r.data == LoginPayload(d.user.id, token, d.user.fullName, d.user.userType)
    ensures !r.success ==> r.data == Empty
    ensures r.message == IncorrectCredentialsMessage <==> d.UnknownUser? || d.WrongPassword?
  {
    match d
    case UnknownUser => Failure(IncorrectCredentialsMessage, HttpOk)
    case WrongPassword(_) => Failure(IncorrectCredentialsMessage, HttpOk)
    case NotActive(_) => Failure(AccountNotActiveMessage, HttpOk)
    case LoggedIn(u) =>
      Response(LoginPayload(u.id, token, u.fullName, u.userType), LoggedInMessage, true, HttpOk)
  }

  /** The token row persisted for a successful login at time `now`. */
  function IssuedToken(u: User, token: string, now: int): (r: Token)
    ensures r.user == u.id && r.token == token
    ensures r.validTill > now && r.validTill - now == ThirtyDays
  {
    Token(u.id, token, now + ThirtyDays)
  }

  // ------------------------------------------------------------------
  // Add user

  datatype AddUserBody = AddUserBody(
    fullName: string,
    username: string,
    password: string,
    email: Option<string>,
    mobile: Option<string>,
    userType: UserType)

  /** The username, email and mobile patterns of the validator, left uninterpreted. */
  datatype Patterns = Patterns(username: string -> bool, email: string -> bool, mobile: string -> bool)

  /**
   * The add-user validator: required non-empty full name and username, a
   * password of 8 to 70 characters, an optional email (empty allowed), an
   * optional 10-character mobile, and a role from the closed set
   * {ADMIN, CUSTOMER}.
   */
  predicate ValidAddUserBody(b: AddUserBody, patterns: Patterns) {
    && |b.fullName| > 0
    && |b.username| > 0 && patterns.username(b.username)
    && 8 <= |b.password| <= 70
    && (b.email.None? || b.email.value == "" || patterns.email(b.email.value))
    && (b.mobile.None? || (|b.mobile.value| == 10 && patterns.mobile(b.mobile.value)))
    && (b.userType == Admin || b.userType == Customer)
  }

  /** The duplicate pre-check for one stored user: same email, username or mobile. */
  predicate SharesIdentity(u: User, b: AddUserBody) {
    || (b.email.Some? && u.email == b.email)
    || u.username == b.username
    || (b.mobile.Some? && u.mobile == b.mobile)
  }

  /** `findOne` with `$or` on email, username and mobile found a user. */
  predicate Conflicts(users: seq<User>, b: AddUserBody)
    ensures Conflicts(users, b) <==> exists i :: 0 <= i < |users| && SharesIdentity(users[i], b)
  {
    FindFirst(users, u => SharesIdentity(u, b)).Some?
  }

  /**
   * The record persisted for `b`. The id, the order number and the initial
   * status are assigned by the database schema.
   */
  function StoredUser(b: AddUserBody, hash: PasswordHash, id: UserId, orderNumber: int, initialStatus: UserStatus): (r: User)
    ensures r.password == hash(b.password)
    ensures r.username == b.username && r.email == b.email && r.mobile == b.mobile
    ensures r.fullName == b.fullName && r.userType == b.userType
    ensures SharesIdentity(r, b)
  {
    User(id, b.fullName, b.username, b.email, b.mobile, hash(b.password), b.userType, initialStatus, orderNumber)
  }

  /** No two stored users share a username, or a present email, or a present mobile. */
  ghost predicate NoDuplicates(users: seq<User>) {
    forall i, j :: 0 <= i < j < |users| ==>
      && users[i].username != users[j].username
      && (users[i].email.Some? ==> users[i].email != users[j].email)
      && (users[i].mobile.Some? ==> users[i].mobile != users[j].mobile)
  }

  // ------------------------------------------------------------------
  // The store and the two imperative controllers

  class Store {
    var users: seq<User>
    var tokens: seq<Token>
    var authLogs: seq<AuthLog>
    /** The order in which records were saved, across the three collections. */
    ghost var journal: seq<Saved>

    constructor (initialUsers: seq<User>)
      ensures users == initialUsers && tokens == [] && authLogs == [] && journal == []
    {
      users := initialUsers;
      tokens := [];
      authLogs := [];
      journal := [];
    }

    /**
     * One login attempt: exactly one audit record is appended; a token is
     * appended, before that record, only when the attempt succeeds.
     */
    method Login(body: LoginBody, compare: PasswordCheck, ip: string, browser: string, now: int, minted: string)
      returns (response: Response)
      modifies this
      ensures users == old(users)
      ensures authLogs == old(authLogs) + [AttemptLog(Decide(old(users), body, compare), body, ip, browser)]
      ensures Decide(old(users), body, compare).LoggedIn? ==>
                && tokens == old(tokens) + [IssuedToken(Decide(old(users), body, compare).user, minted, now)]
                && journal == old(journal) + [TokenSaved, AuthLogSaved]
      ensures !Decide(old(users), body, compare).LoggedIn? ==>
                tokens == old(tokens) && journal == old(journal) + [AuthLogSaved]
      ensures response == LoginReply(Decide(old(users), body, compare), minted)
    {
      var found := LookupIndex(users, body.username);
      if found.None? {
        authLogs := authLogs + [AttemptLog(UnknownUser, body, ip, browser)];
        journal := journal + [AuthLogSaved];
        return Failure(IncorrectCredentialsMessage, HttpOk);
      }
      var user := users[found.value];
      var isMatch := compare(body.password, user.password);
      if !isMatch {
        authLogs := authLogs + [AttemptLog(WrongPassword(user), body, ip, browser)];
        journal := journal + [AuthLogSaved];
        return Failure(IncorrectCredentialsMessage, HttpOk);
      }
      if user.status != Active {
        authLogs := authLogs + [AttemptLog(NotActive(user), body, ip, browser)];
        journal := journal + [AuthLogSaved];
        return Failure(AccountNotActiveMessage, HttpOk);
      }
      tokens := tokens + [Token(user.id, minted, now + ThirtyDays)];
      journal := journal + [TokenSaved];
      authLogs := authLogs + [AttemptLog(LoggedIn(user), body, ip, browser)];
      journal := journal + [AuthLogSaved];
      response := Response(LoginPayload(user.id, minted, user.fullName, user.userType), LoggedInMessage, true, HttpOk);
    }

    /**
     * Add a user unless one already shares its email, username or mobile;
     * the password is stored only as its hash.
     */
    method AddUser(body: AddUserBody, hash: PasswordHash, id: UserId, orderNumber: int, initialStatus: UserStatus)
      returns (response: Response)
      modifies this
      ensures tokens == old(tokens) && authLogs == old(authLogs)
      ensures Conflicts(old(users), body) ==>
                && users == old(users) && journal == old(journal)
                && response == Failure(UserExistsMessage, HttpOk)
      ensures !Conflicts(old(users), body) ==>
                && users == old(users) + [StoredUser(body, hash, id, orderNumber, initialStatus)]
                && journal == old(journal) + [UserSaved]
                && response == Response(Empty, UserAddedMessage, true, HttpOk)
      ensures NoDuplicates(old(users)) ==> NoDuplicates(users)
    {
      var found := FindFirst(users, u => SharesIdentity(u, body));
      if found.Some? {
        return Failure(UserExistsMessage, HttpOk);
      }
      var encryptedPassword := hash(body.password);
      var newUser := User(id, body.fullName, body.username, body.email, body.mobile,
                          encryptedPassword, body.userType, initialStatus, orderNumber);
      AddKeepsNoDuplicates(users, body, hash, id, orderNumber, initialStatus);
      users := users + [newUser];
      journal := journal + [UserSaved];
      response := Response(Empty, UserAddedMessage, true, HttpOk);
    }
  }

  // ------------------------------------------------------------------
  // Properties of login

  /** The lookup returns the first user whose email or username is the identifier. */
  lemma {:induction false} DecideFindsFirstMatch(users: seq<User>, body: LoginBody, compare: PasswordCheck, i: nat)
    requires i < |users| && MatchesIdentifier(users[i], body.username)
    requires forall j :: 0 <= j < i ==> !MatchesIdentifier(users[j], body.username)
    ensures !Decide(users, body, compare).UnknownUser?
    ensures Decide(users, body, compare).user == users[i]
  {
    var d := Decide(users, body, compare);
    var k :| 0 <= k < |users| && users[k] == d.user && MatchesIdentifier(users[k], body.username)
             && forall j :: 0 <= j < k ==> !MatchesIdentifier(users[j], body.username);
    assert k == i;
  }

  /**
   * Unknown identifier: an INVALID_EMAIL record with success=false and the
   * generic credentials message.
   */
  lemma UnknownIdentifierAttempt(users: seq<User>, body: LoginBody, compare: PasswordCheck, ip: string, browser: string, token: string)
    requires forall i :: 0 <= i < |users| ==> !MatchesIdentifier(users[i], body.username)
    ensures Decide(users, body, compare) == UnknownUser
    ensures AttemptLog(Decide(users, body, compare), body, ip, browser).logType == InvalidEmail
    ensures !AttemptLog(Decide(users, body, compare), body, ip, browser).success
    ensures LoginReply(Decide(users, body, compare), token) == Failure(IncorrectCredentialsMessage, HttpOk)
  {
  }

  /**
   * A wrong password is logged as WRONG_PASSWORD but answered exactly like an
   * unknown identifier, whatever the account's status.
   */
  lemma WrongPasswordIndistinguishable(users: seq<User>, body: LoginBody, compare: PasswordCheck, i: nat,
                                       ip: string, browser: string, token: string, otherToken: string)
    requires i < |users| && MatchesIdentifier(users[i], body.username)
    requires forall j :: 0 <= j < i ==> !MatchesIdentifier(users[j], body.username)
    requires !compare(body.password, users[i].password)
    ensures Decide(users, body, compare) == WrongPassword(users[i])
    ensures AttemptLog(Decide(users, body, compare), body, ip, browser).logType == WrongPasswordAttempt
    ensures !AttemptLog(Decide(users, body, compare), body, ip, browser).success
    ensures LoginReply(Decide(users, body, compare), token) == LoginReply(UnknownUser, otherToken)
  {
    DecideFindsFirstMatch(users, body, compare, i);
  }

  /**
   * Correct password on an account that is not ACTIVE: the specific message,
   * a LOGIN record with success=false, and no token.
   */
  lemma InactiveAccountAttempt(users: seq<User>, body: LoginBody, compare: PasswordCheck, i: nat,
                               ip: string, browser: string, token: string)
    requires i < |users| && MatchesIdentifier(users[i], body.username)
    requires forall j :: 0 <= j < i ==> !MatchesIdentifier(users[j], body.username)
    requires compare(body.password, users[i].password) && users[i].status != Active
    ensures Decide(users, body, compare) == NotActive(users[i])
    ensures AttemptLog(Decide(users, body, compare), body, ip, browser).logType == LoginAttempt
    ensures !AttemptLog(Decide(users, body, compare), body, ip, browser).success
    ensures LoginReply(Decide(users, body, compare), token) == Failure(AccountNotActiveMessage, HttpOk)
    ensures LoginReply(Decide(users, body, compare), token) != LoginReply(UnknownUser, token)
  {
    DecideFindsFirstMatch(users, body, compare, i);
  }

  /**
   * Only a correct password on an ACTIVE account succeeds, and the payload is
   * exactly id, token, full name and role of that user.
   */
  lemma SuccessfulAttempt(users: seq<User>, body: LoginBody, compare: PasswordCheck, ip: string, browser: string, token: string)
    ensures LoginReply(Decide(users, body, compare), token).success <==> Decide(users, body, compare).LoggedIn?
    ensures AttemptLog(Decide(users, body, compare), body, ip, browser).success <==> Decide(users, body, compare).LoggedIn?
    ensures Decide(users, body, compare).LoggedIn? ==>
              var u := Decide(users, body, compare).user;
              && compare(body.password, u.password) && u.status == Active
              && LoginReply(Decide(users, body, compare), token).data == LoginPayload(u.id, token, u.fullName, u.userType)
              && AttemptLog(Decide(users, body, compare), body, ip, browser).logType == LoginAttempt
  {
  }

  /** The token issued on success is owned by the user and expires thirty days after issue. */
  lemma IssuedTokenExpiry(u: User, token: string, now: int)
    ensures IssuedToken(u, token, now).user == u.id && IssuedToken(u, token, now).token == token
    ensures IssuedToken(u, token, now).validTill - now == 30 * 24 * 60 * 60 * 1000
  {
  }

  // ------------------------------------------------------------------
  // Properties of add-user

  lemma AddKeepsNoDuplicates(users: seq<User>, b: AddUserBody, hash: PasswordHash, id: UserId, orderNumber: int, initialStatus: UserStatus)
    requires !Conflicts(users, b)
    ensures NoDuplicates(users) ==> NoDuplicates(users + [StoredUser(b, hash, id, orderNumber, initialStatus)])
  {
    var s := users + [StoredUser(b, hash, id, orderNumber, initialStatus)];
    if NoDuplicates(users) {
      forall i, j | 0 <= i < j < |s|
        ensures s[i].username != s[j].username
        ensures s[i].email.Some? ==> s[i].email != s[j].email
        ensures s[i].mobile.Some? ==> s[i].mobile != s[j].mobile
      {
        if j == |users| {
          assert !SharesIdentity(users[i], b);
        }
      }
    }
  }

  /** Repeating an add-user request that succeeded is rejected as a duplicate. */
  lemma {:induction false} RepeatedAddRejected(users: seq<User>, b: AddUserBody, hash: PasswordHash, id: UserId, orderNumber: int, initialStatus: UserStatus)
    ensures Conflicts(users + [StoredUser(b, hash, id, orderNumber, initialStatus)], b)
  {
    var s := users + [StoredUser(b, hash, id, orderNumber, initialStatus)];
    assert SharesIdentity(s[|users|], b);
  }

  /** The stored password is the hash of the submitted one, never the plaintext unless the hash fixes it. */
  lemma StoredPasswordIsHashed(b: AddUserBody, hash: PasswordHash, id: UserId, orderNumber: int, initialStatus: UserStatus)
    ensures StoredUser(b, hash, id, orderNumber, initialStatus).password == hash(b.password)
    ensures hash(b.password) != b.password ==> StoredUser(b, hash, id, orderNumber, initialStatus).password != b.password
  {
  }

  /** The closed role set: a validated add-user request never creates a user that passes the super-admin gate. */
  lemma ValidatedAddIsNeverSuperAdmin(b: AddUserBody, patterns: Patterns, hash: PasswordHash, id: UserId, orderNumber: int,
                                      initialStatus: UserStatus, req: Validators.Request)
    requires ValidAddUserBody(b, patterns)
    requires req.currentUser == StoredUser(b, hash, id, orderNumber, initialStatus)
    ensures Validators.ValidateSuperAdmin(req).Respond?
  {
  }

  /** A password the add-user validator admits is also admitted by the login validator. */
  lemma AddedPasswordPassesLoginValidator(b: AddUserBody, patterns: Patterns, identifier: string)
    requires ValidAddUserBody(b, patterns)
    requires 4 <= |identifier| <= 100
    ensures ValidLoginBody(LoginBody(identifier, b.password))
  {
  }

  /**
   * Add then log in: an ACTIVE user just added can log in with its username
   * and password, provided no earlier user has that username as its email
   * and the hash check accepts the hashed password.
   */
  lemma {:induction false} AddThenLogin(users: seq<User>, b: AddUserBody, hash: PasswordHash, compare: PasswordCheck,
                                        id: UserId, orderNumber: int)
    requires !Conflicts(users, b)
    requires forall i :: 0 <= i < |users| ==> users[i].email != Some(b.username)
    requires compare(b.password, hash(b.password))
    ensures Decide(users + [StoredUser(b, hash, id, orderNumber, Active)], LoginBody(b.username, b.password), compare)
            == LoggedIn(StoredUser(b, hash, id, orderNumber, Active))
  {
    var s := users + [StoredUser(b, hash, id, orderNumber, Active)];
    forall j | 0 <= j < |users|
      ensures !MatchesIdentifier(s[j], b.username)
    {
      assert !SharesIdentity(users[j], b);
    }
    DecideFindsFirstMatch(s, LoginBody(b.username, b.password), compare, |users|);
  }
}
