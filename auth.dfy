/** The account resolvers: per email address an account moves from absent
    to unverified (register) to verified (verifyEmail); login needs a
    verified account. Password hashing, token signing, code generation and
    email delivery are foreign: their results arrive as parameters. */
module AuthResolvers {
  import opened Base
  import opened Db
  import opened Tokens

  const CODE_TTL: int := 30 * 60 * 1000   // 30 minutes

  const MSG_CHECK_EMAIL: string := "Please check your email for a verification code."
  const MSG_CODE_SENT: string := "Verification code has been sent to your email."
  const MSG_NEW_CODE: string := "A new verification code has been sent to your email."

  const EMAIL_FAILED: Error := Error(EmailDeliveryFailed, "Failed to send verification email. Please try again later.")
  const DUPLICATE_EMAIL: Error := Error(BadUserInput, "User with that email already exists")
  const ALREADY_VERIFIED: Error := Error(BadUserInput, "Email is already verified")
  const INVALID_CODE: Error := Error(BadUserInput, "Invalid verification code")
  const CODE_EXPIRED: Error := Error(BadUserInput, "Verification code has expired")
  const INVALID_LOGIN: Error := Error(Unauthenticated, "Invalid email or password")
  const NOT_VERIFIED: Error := Error(Unauthenticated, "Email not verified. Please verify your email before logging in.")
  const ADMIN_NOT_CONFIGURED: Error := Error(InternalServerError, "Admin credentials not configured")
  const INVALID_ADMIN: Error := Error(Unauthenticated, "Invalid admin credentials")

  datatype VerificationResult = VerificationResult(success: bool, message: string)
  datatype AuthPayload = AuthPayload(token: Credential, user: User)
  datatype AdminLoginResponse = AdminLoginResponse(token: Credential, success: bool)

  /** Where the account of one email address stands. */
  datatype AccountState = Absent | Unverified | Verified

  ghost function AccountStateOf(users: seq<User>, email: string): AccountState {
    if exists u :: u in users && u.email == email && u.isVerified then Verified
    else if exists u :: u in users && u.email == email then Unverified
    else Absent
  }

  /** Under unique emails, the row `findUnique({ where: { email } })` finds
      decides the account's state. */
  lemma StateOfFound(users: seq<User>, email: string)
    requires UserKeys(users)
    ensures FindUserByEmail(users, email).None? ==> AccountStateOf(users, email) == Absent
    ensures FindUserByEmail(users, email).Some? ==>
      AccountStateOf(users, email) == if FindUserByEmail(users, email).value.isVerified then Verified else Unverified
  {
  }

  /** The row `register` creates for an unknown email. */
  function NewAccount(id: int, email: string, username: Option<string>, passwordHash: string, code: string, now: int): (u: User)
    ensures u.id == id && u.email == email && u.username == username && u.password == passwordHash
    ensures !u.isVerified && !u.isAdmin
    ensures u.verificationCode == Some(code) && u.verificationExpiry == Some(now + 1_800_000)
  {
    User(id, username, email, passwordHash, false, Some(code), Some(now + CODE_TTL), false, now)
  }

  /** A fresh code and expiry on an unverified row; the username changes only
      when a non-empty one is given. Nothing else changes. */
  function Reissue(u: User, code: string, now: int, username: Option<string>): (v: User)
    ensures v.verificationCode == Some(code) && v.verificationExpiry == Some(now + 1_800_000)
    ensures v.username == (if username.Some? && username.value != "" then username else u.username)
    ensures v.(verificationCode := u.verificationCode, verificationExpiry := u.verificationExpiry, username := u.username) == u
  {
    u.(verificationCode := Some(code), verificationExpiry := Some(now + CODE_TTL),
       username := if Truthy(username) then username else u.username)
  }

  /** The row after a successful verification. */
  function MarkVerified(u: User): (v: User)
    ensures v.isVerified && v.verificationCode.None? && v.verificationExpiry.None?
    ensures v.(isVerified := u.isVerified, verificationCode := u.verificationCode, verificationExpiry := u.verificationExpiry) == u
  {
    u.(isVerified := true, verificationCode := None, verificationExpiry := None)
  }

  /** `user.verificationExpiry < new Date()`: a JavaScript comparison in
      which a null expiry counts as time 0. Strict, so an expiry equal to
      `now` has not passed. */
  predicate Expired(expiry: Option<int>, now: int) {
    if expiry.None? then 0 < now else expiry.value < now
  }

  /** verifyEmail's checks, in the order the resolver makes them. */
  function VerifyCheck(found: Option<User>, code: string, now: int): (r: Result<User>)
    ensures r.Ok? <==> found.Some? && !found.value.isVerified && found.value.verificationCode == Some(code) &&
                       !Expired(found.value.verificationExpiry, now)
    ensures r.Ok? ==> r.value == found.value
    ensures found.None? ==> r == Err(USER_NOT_FOUND)
    ensures found.Some? && found.value.isVerified ==> r == Err(ALREADY_VERIFIED)
    ensures found.Some? && !found.value.isVerified && found.value.verificationCode != Some(code) ==> r == Err(INVALID_CODE)
    ensures r.Err? && r.error.code != NotFound ==> r.error.code == BadUserInput
  {
    if found.None? then Err(USER_NOT_FOUND)
    else if found.value.isVerified then Err(ALREADY_VERIFIED)
    else if found.value.verificationCode != Some(code) then Err(INVALID_CODE)
    else if Expired(found.value.verificationExpiry, now) then Err(CODE_EXPIRED)
    else Ok(found.value)
  }

  /** A code issued at `issued` verifies up to and including the instant
      30 minutes later, and is refused as expired after it. */
  lemma IssuedCodeWindow(u: User, code: string, issued: int, now: int, username: Option<string>)
    requires !u.isVerified
    ensures VerifyCheck(Some(Reissue(u, code, issued, username)), code, now).Ok? <==> now <= issued + CODE_TTL
    ensures now > issued + CODE_TTL ==> VerifyCheck(Some(Reissue(u, code, issued, username)), code, now) == Err(CODE_EXPIRED)
  {
  }

  /** Once verified, every further verification attempt is refused as
      already verified, whatever code and time. */
  lemma VerificationIsFinal(u: User, code: string, now: int)
    ensures VerifyCheck(Some(MarkVerified(u)), code, now) == Err(ALREADY_VERIFIED)
  {
  }

  /** `login`: a session credential only for an existing, verified user
      whose password matches the stored hash. An unknown email and a wrong
      password are refused with the same error. */
  function Login(users: seq<User>, email: string, password: string, compare: (string, string) -> bool): (r: Result<AuthPayload>)
    ensures r.Ok? <==> exists u :: FindUserByEmail(users, email) == Some(u) && u.isVerified && compare(password, u.password)
    ensures r.Ok? ==> r.value.user in users && r.value.user.email == email &&
                      r.value.token == GenerateToken(r.value.user.id)
    ensures r.Err? ==> r.error.code == Unauthenticated
    ensures (forall u :: u in users ==> u.email != email) ==> r == Err(INVALID_LOGIN)
    ensures forall u :: FindUserByEmail(users, email) == Some(u) && u.isVerified && !compare(password, u.password) ==>
      r == Err(INVALID_LOGIN)
    ensures forall u :: FindUserByEmail(users, email) == Some(u) && !u.isVerified ==> r == Err(NOT_VERIFIED)
  {
    match FindUserByEmail(users, email)
    case None => Err(INVALID_LOGIN)
    case Some(u) =>
      if !u.isVerified then Err(NOT_VERIFIED)
      else if !compare(password, u.password) then Err(INVALID_LOGIN)
      else Ok(AuthPayload(GenerateToken(u.id), u))
  }

  /** `adminLogin`: checked against the two configured literals, never
      against the user table. */
  function AdminLogin(username: string, password: string, adminUsername: Option<string>, adminPassword: Option<string>): (r: Result<AdminLoginResponse>)
    ensures !Truthy(adminUsername) || !Truthy(adminPassword) ==> r == Err(ADMIN_NOT_CONFIGURED)
    ensures r.Ok? <==> Truthy(adminUsername) && Truthy(adminPassword) &&
                       username == adminUsername.value && password == adminPassword.value
    ensures r.Ok? ==> r.value == AdminLoginResponse(AdminSession(username, 86_400_000), true)
    ensures r.Err? && Truthy(adminUsername) && Truthy(adminPassword) ==> r == Err(INVALID_ADMIN)
  {
    if !Truthy(adminUsername) || !Truthy(adminPassword) then Err(ADMIN_NOT_CONFIGURED)
    else if username != adminUsername.value || password != adminPassword.value then Err(INVALID_ADMIN)
    else Ok(AdminLoginResponse(AdminSession(adminUsername.value, ADMIN_TTL), true))
  }

  /** Appending the row for an unknown email keeps the database consistent,
      makes the new row the one found for that email, and leaves every other
      email's account as it was. */
  lemma AddAccount(s: State, n: User)
    requires Consistent(s) && n.id == s.nextUserId && !n.isVerified
    requires forall u :: u in s.users ==> u.email != n.email
    ensures Consistent(s.(users := s.users + [n], nextUserId := s.nextUserId + 1))
    ensures FindUserByEmail(s.users + [n], n.email) == Some(n)
    ensures forall e :: e != n.email ==> AccountStateOf(s.users + [n], e) == AccountStateOf(s.users, e)
  {
    var users := s.users + [n];
    assert forall x :: x in users <==> x in s.users || x == n;
    forall id | UserExists(s.users, id)
      ensures UserExists(users, id)
    {
      var x :| x in s.users && x.id == id;
      assert x in users;
    }
    forall e | e != n.email
      ensures AccountStateOf(users, e) == AccountStateOf(s.users, e)
    {
      assert forall x: User :: x.email == e ==> (x in users <==> x in s.users);
    }
  }

  /** Replacing a user row by one with the same id and email keeps the
      database consistent, makes the new row the one found for that email,
      and leaves every other email's account as it was. */
  lemma UpdateAccount(s: State, u: User, v: User)
    requires Consistent(s) && u in s.users && v.id == u.id && v.email == u.email
    ensures Consistent(s.(users := SetUser(s.users, v)))
    ensures FindUserByEmail(SetUser(s.users, v), v.email) == Some(v)
    ensures forall e :: e != v.email ==> AccountStateOf(SetUser(s.users, v), e) == AccountStateOf(s.users, e)
  {
    SetUserKeys(s.users, u, v);
    var users := SetUser(s.users, v);
    forall e | e != v.email
      ensures AccountStateOf(users, e) == AccountStateOf(s.users, e)
    {
      assert forall x: User :: x.email == e ==> (x in users <==> x in s.users);
    }
  }

  /** `register` on database `s`. The record is written before the email
      is sent, so a failed delivery throws EMAIL_DELIVERY_FAILED with the
      write kept. */
  function RegisterStep(s: State, email: string, passwordHash: string, username: Option<string>,
                        code: string, now: int, emailSent: bool): (o: Outcome<VerificationResult>)
    ensures o.result.Ok? ==> emailSent && o.result.value.success
    ensures o.result.Err? ==> o.result.error in {DUPLICATE_EMAIL, EMAIL_FAILED}
    ensures o.result == Err(DUPLICATE_EMAIL) ==> o.state == s
    ensures o.state.todos == s.todos && o.state.rooms == s.rooms && o.state.messages == s.messages
    ensures o.state.published == s.published
    ensures var f := FindUserByEmail(s.users, email);
      f.Some? && f.value.isVerified ==> o == Outcome(s, Err(DUPLICATE_EMAIL))
    ensures var f := FindUserByEmail(s.users, email);
      f.Some? && !f.value.isVerified ==>
        && o.state == s.(users := SetUser(s.users, Reissue(f.value, code, now, username)))
        && (o.result.Ok? <==> emailSent)
        && (o.result.Ok? ==> o.result.value == VerificationResult(true, MSG_CODE_SENT))
    ensures FindUserByEmail(s.users, email).None? ==>
      && o.state == s.(users := s.users + [NewAccount(s.nextUserId, email, username, passwordHash, code, now)],
                       nextUserId := s.nextUserId + 1)
      && (o.result.Ok? <==> emailSent)
      && (o.result.Ok? ==> o.result.value == VerificationResult(true, MSG_CHECK_EMAIL))
  {
    match FindUserByEmail(s.users, email)
    case Some(u) =>
      if u.isVerified then Outcome(s, Err(DUPLICATE_EMAIL))
      else
        var s' := s.(users := SetUser(s.users, Reissue(u, code, now, username)));
        Outcome(s', if emailSent then Ok(VerificationResult(true, MSG_CODE_SENT)) else Err(EMAIL_FAILED))
    case None =>
      var s' := s.(users := s.users + [NewAccount(s.nextUserId, email, username, passwordHash, code, now)],
                   nextUserId := s.nextUserId + 1);
      Outcome(s', if emailSent then Ok(VerificationResult(true, MSG_CHECK_EMAIL)) else Err(EMAIL_FAILED))
  }

  /** `verifyEmail` on database `s`: on success the row is marked verified
      with code and expiry cleared, and a session credential for it is
      returned; every refusal leaves the database as it was. */
  function VerifyEmailStep(s: State, email: string, code: string, now: int): (o: Outcome<AuthPayload>)
    ensures o.result.Err? ==> o.state == s
    ensures o.result.Ok? ==> o.result.value.user.isVerified && o.result.value.user.email == email &&
                             o.result.value.token == GenerateToken(o.result.value.user.id)
    ensures o.state.todos == s.todos && o.state.rooms == s.rooms && o.state.messages == s.messages
    ensures o.state.published == s.published && o.state.nextUserId == s.nextUserId
    ensures var c := VerifyCheck(FindUserByEmail(s.users, email), code, now);
      c.Err? ==> o == Outcome(s, Err(c.error))
    ensures var c := VerifyCheck(FindUserByEmail(s.users, email), code, now);
      c.Ok? ==>
        && o.state == s.(users := SetUser(s.users, MarkVerified(c.value)))
        && o.result == Ok(AuthPayload(GenerateToken(c.value.id), MarkVerified(c.value)))
  {
    match VerifyCheck(FindUserByEmail(s.users, email), code, now)
    case Err(e) => Outcome(s, Err(e))
    case Ok(u) =>
      var v := MarkVerified(u);
      Outcome(s.(users := SetUser(s.users, v)), Ok(AuthPayload(GenerateToken(v.id), v)))
  }

  /** `resendVerificationCode` on database `s`: only for an unverified
      account; replaces code and expiry and nothing else. */
  function ResendStep(s: State, email: string, code: string, now: int, emailSent: bool): (o: Outcome<VerificationResult>)
    ensures o.result.Ok? ==> emailSent
    ensures o.result.Err? ==> o.result.error in {USER_NOT_FOUND, ALREADY_VERIFIED, EMAIL_FAILED}
    ensures o.result.Err? && o.result.error != EMAIL_FAILED ==> o.state == s
    ensures o.state.todos == s.todos && o.state.rooms == s.rooms && o.state.messages == s.messages
    ensures o.state.published == s.published && o.state.nextUserId == s.nextUserId
    ensures FindUserByEmail(s.users, email).None? ==> o == Outcome(s, Err(USER_NOT_FOUND))
    ensures var f := FindUserByEmail(s.users, email);
      f.Some? && f.value.isVerified ==> o == Outcome(s, Err(ALREADY_VERIFIED))
    ensures var f := FindUserByEmail(s.users, email);
      f.Some? && !f.value.isVerified ==>
        && o.state == s.(users := SetUser(s.users, Reissue(f.value, code, now, None)))
        && (o.result.Ok? <==> emailSent)
        && (o.result.Ok? ==> o.result.value == VerificationResult(true, MSG_NEW_CODE))
  {
    match FindUserByEmail(s.users, email)
    case None => Outcome(s, Err(USER_NOT_FOUND))
    case Some(u) =>
      if u.isVerified then Outcome(s, Err(ALREADY_VERIFIED))
      else
        var s' := s.(users := SetUser(s.users, Reissue(u, code, now, None)));
        Outcome(s', if emailSent then Ok(VerificationResult(true, MSG_NEW_CODE)) else Err(EMAIL_FAILED))
  }

  /** Registering keeps the database consistent; the address's account is
      refused (and stays verified) if verified, and is unverified afterwards
      otherwise, whether or not the email went out; no other address's
      account changes. */
  lemma RegisterLifecycle(s: State, email: string, passwordHash: string, username: Option<string>,
                          code: string, now: int, emailSent: bool)
    requires Consistent(s)
    ensures var o := RegisterStep(s, email, passwordHash, username, code, now, emailSent);
      && Consistent(o.state)
      && (o.result == Err(DUPLICATE_EMAIL) <==> AccountStateOf(s.users, email) == Verified)
      && AccountStateOf(o.state.users, email) == (if AccountStateOf(s.users, email) == Verified then Verified else Unverified)
      && (forall e :: e != email ==> AccountStateOf(o.state.users, e) == AccountStateOf(s.users, e))
  {
    StateOfFound(s.users, email);
    var o := RegisterStep(s, email, passwordHash, username, code, now, emailSent);
    match FindUserByEmail(s.users, email)
    case Some(u) =>
      if !u.isVerified {
        UpdateAccount(s, u, Reissue(u, code, now, username));
        StateOfFound(o.state.users, email);
      }
    case None =>
      AddAccount(s, NewAccount(s.nextUserId, email, username, passwordHash, code, now));
      StateOfFound(o.state.users, email);
  }

  /** Verifying keeps the database consistent; it succeeds exactly when
      VerifyCheck accepts the row found for the address, and then makes that
      account verified; no other address's account changes. */
  lemma VerifyEmailLifecycle(s: State, email: string, code: string, now: int)
    requires Consistent(s)
    ensures var o := VerifyEmailStep(s, email, code, now);
      && Consistent(o.state)
      && (o.result.Ok? <==> VerifyCheck(FindUserByEmail(s.users, email), code, now).Ok?)
      && (o.result.Err? ==> o.result.error == VerifyCheck(FindUserByEmail(s.users, email), code, now).error)
      && (o.result.Ok? ==> AccountStateOf(s.users, email) == Unverified && AccountStateOf(o.state.users, email) == Verified)
      && (forall e :: e != email ==> AccountStateOf(o.state.users, e) == AccountStateOf(s.users, e))
  {
    StateOfFound(s.users, email);
    var o := VerifyEmailStep(s, email, code, now);
    var check := VerifyCheck(FindUserByEmail(s.users, email), code, now);
    if check.Ok? {
      UpdateAccount(s, check.value, MarkVerified(check.value));
      StateOfFound(o.state.users, email);
    }
  }

  /** Resending keeps the database consistent and changes no account's
      state. */
  lemma ResendLifecycle(s: State, email: string, code: string, now: int, emailSent: bool)
    requires Consistent(s)
    ensures var o := ResendStep(s, email, code, now, emailSent);
      && Consistent(o.state)
      && (o.result == Err(USER_NOT_FOUND) <==> AccountStateOf(s.users, email) == Absent)
      && (o.result == Err(ALREADY_VERIFIED) <==> AccountStateOf(s.users, email) == Verified)
      && (forall e :: AccountStateOf(o.state.users, e) == AccountStateOf(s.users, e))
  {
    StateOfFound(s.users, email);
    var o := ResendStep(s, email, code, now, emailSent);
    match FindUserByEmail(s.users, email)
    case Some(u) =>
      if !u.isVerified {
        UpdateAccount(s, u, Reissue(u, code, now, None));
        StateOfFound(o.state.users, email);
      }
    case None =>
  }

  /** The code `register` mails verifies the account when entered within
      30 minutes: register followed by verifyEmail with that code succeeds
      for every address not already verified. */
  lemma RegisterThenVerify(s: State, email: string, passwordHash: string, username: Option<string>,
                           code: string, issued: int, emailSent: bool, now: int)
    requires Consistent(s) && AccountStateOf(s.users, email) != Verified
    requires now <= issued + CODE_TTL
    ensures VerifyEmailStep(RegisterStep(s, email, passwordHash, username, code, issued, emailSent).state, email, code, now).result.Ok?
  {
    StateOfFound(s.users, email);
    match FindUserByEmail(s.users, email)
    case Some(u) =>
      UpdateAccount(s, u, Reissue(u, code, issued, username));
    case None =>
      AddAccount(s, NewAccount(s.nextUserId, email, username, passwordHash, code, issued));
  }

  /** The `register` resolver against the live database. */
  method Register(db: Store, email: string, passwordHash: string, username: Option<string>, code: string, now: int, emailSent: bool)
    returns (r: Result<VerificationResult>)
    requires db.Valid()
    modifies db
    ensures db.Valid()
    ensures db.Snapshot() == old(RegisterStep(db.Snapshot(), email, passwordHash, username, code, now, emailSent)).state
    ensures r == old(RegisterStep(db.Snapshot(), email, passwordHash, username, code, now, emailSent)).result
  {
    ghost var s := db.Snapshot();
    ghost var o := RegisterStep(s, email, passwordHash, username, code, now, emailSent);
    RegisterLifecycle(s, email, passwordHash, username, code, now, emailSent);
    var existing := FindUserByEmail(db.users, email);
    if existing.Some? {
      var u := existing.value;
      if u.isVerified {
        return Err(DUPLICATE_EMAIL);
      }
      db.users := SetUser(db.users, Reissue(u, code, now, username));
    } else {
      db.users := db.users + [NewAccount(db.nextUserId, email, username, passwordHash, code, now)];
      db.nextUserId := db.nextUserId + 1;
    }
    assert db.Snapshot() == o.state;
    if !emailSent {
      return Err(EMAIL_FAILED);
    }
    return Ok(VerificationResult(true, if existing.Some? then MSG_CODE_SENT else MSG_CHECK_EMAIL));
  }

  /** The `verifyEmail` resolver against the live database. */
  method VerifyEmail(db: Store, email: string, code: string, now: int) returns (r: Result<AuthPayload>)
    requires db.Valid()
    modifies db
    ensures db.Valid()
    ensures db.Snapshot() == old(VerifyEmailStep(db.Snapshot(), email, code, now)).state
    ensures r == old(VerifyEmailStep(db.Snapshot(), email, code, now)).result
  {
    VerifyEmailLifecycle(db.Snapshot(), email, code, now);
    var check := VerifyCheck(FindUserByEmail(db.users, email), code, now);
    if check.Err? {
      return Err(check.error);
    }
    var v := MarkVerified(check.value);
    db.users := SetUser(db.users, v);
    r := Ok(AuthPayload(GenerateToken(v.id), v));
  }

  /** The `resendVerificationCode` resolver against the live database. */
  method ResendVerificationCode(db: Store, email: string, code: string, now: int, emailSent: bool)
    returns (r: Result<VerificationResult>)
    requires db.Valid()
    modifies db
    ensures db.Valid()
    ensures db.Snapshot() == old(ResendStep(db.Snapshot(), email, code, now, emailSent)).state
    ensures r == old(ResendStep(db.Snapshot(), email, code, now, emailSent)).result
  {
    ResendLifecycle(db.Snapshot(), email, code, now, emailSent);
    var found := FindUserByEmail(db.users, email);
    if found.None? {
      return Err(USER_NOT_FOUND);
    }
    var u := found.value;
    if u.isVerified {
      return Err(ALREADY_VERIFIED);
    }
    db.users := SetUser(db.users, Reissue(u, code, now, None));
    if !emailSent {
      return Err(EMAIL_FAILED);
    }
    return Ok(VerificationResult(true, MSG_NEW_CODE));
  }
}
