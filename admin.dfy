/** The administrator resolvers. Four of them sit behind a gate that first
    counts the call against the caller's origin (five calls per 30 minutes,
    in a dictionary of the gate's own) and only then checks that the caller
    is signed in and an administrator. The security-code check has one
    dictionary of its own (three calls per hour). */
module AdminResolvers {
  import opened Base
  import opened Seqs
  import opened Db
  import opened Tokens
  import opened RequestContext
  import opened Throttling

  const MAX_ATTEMPTS: nat := 5
  const BLOCK_DURATION: int := 30 * 60 * 1000        // 30 minutes
  const MAX_CODE_ATTEMPTS: nat := 3
  const CODE_BLOCK_DURATION: int := 60 * 60 * 1000   // 1 hour

  const TOO_MANY_ACCESS: Error := Error(TooManyRequests, "Too many access attempts, please try again later")
  const MUST_LOG_IN: Error := Error(Unauthenticated, "You must be logged in")
  const REQUIRES_ADMIN: Error := Error(Forbidden, "Requires admin access")
  const TOO_MANY_CODES: Error := Error(TooManyRequests, "Too many verification attempts, please try again later")
  const CONFIG_ERROR: Error := Error(InternalServerError, "Server configuration error")
  const INVALID_SECURITY_CODE: Error := Error(Unauthenticated, "Invalid security code")
  const SELF_DEMOTION: Error := Error(BadUserInput, "You cannot remove your own admin privileges")
  const SELF_DELETION: Error := Error(BadUserInput, "You cannot delete your own account")

  datatype AdminStats = AdminStats(
    totalUsers: nat,
    verifiedUsers: nat,
    totalTodos: nat,
    completedTodos: nat,
    totalChatRooms: nat,
    totalMessages: nat)

  /** The gate's identity checks, made after the attempt is counted. */
  function Identity(ctx: Context): (r: Result<User>)
    ensures !LoggedIn(ctx.UserId()) ==> r == Err(MUST_LOG_IN)
    ensures LoggedIn(ctx.UserId()) && !ctx.user.value.isAdmin ==> r == Err(REQUIRES_ADMIN)
    ensures r.Ok? <==> LoggedIn(ctx.UserId()) && ctx.user.value.isAdmin
    ensures r.Ok? ==> ctx.user == Some(r.value)
  {
    if !LoggedIn(ctx.UserId()) then Err(MUST_LOG_IN)
    else if !ctx.user.value.isAdmin then Err(REQUIRES_ADMIN)
    else Ok(ctx.user.value)
  }

  /** The gate's verdict for a caller whose origin has entry `entry`: the
      limiter first, the identity checks only for a call it lets through. */
  function GateCheck(entry: Option<Attempt>, ctx: Context, now: int): (r: Result<User>)
    ensures Step(entry, now, MAX_ATTEMPTS, BLOCK_DURATION).Rejected? <==> r == Err(TOO_MANY_ACCESS)
    ensures r.Ok? <==> Step(entry, now, MAX_ATTEMPTS, BLOCK_DURATION).Admitted? && LoggedIn(ctx.UserId()) && ctx.user.value.isAdmin
    ensures r.Ok? ==> ctx.user == Some(r.value) && r.value.isAdmin
    ensures r.Err? ==> r.error in {TOO_MANY_ACCESS, MUST_LOG_IN, REQUIRES_ADMIN}
  {
    match Step(entry, now, MAX_ATTEMPTS, BLOCK_DURATION)
    case Rejected => Err(TOO_MANY_ACCESS)
    case Admitted(_) => Identity(ctx)
  }

  /** Every call counts, whoever makes it: an anonymous or non-admin caller
      who keeps calling within the window is refused as TOO_MANY_REQUESTS
      from the sixth call on, however the identity checks would go. */
  lemma FailedCallsCount(entry: Attempt, ctx: Context, now: int)
    requires entry.count >= MAX_ATTEMPTS && now - entry.timestamp < BLOCK_DURATION
    ensures GateCheck(Some(entry), ctx, now) == Err(TOO_MANY_ACCESS)
  {
  }

  /** Of calls from a fresh origin all within 30 minutes of the first,
      exactly the first five get past the limiter. */
  lemma GateBudget(times: seq<int>)
    requires |times| > 0
    requires forall i :: 0 <= i < |times| ==> times[i] - times[0] < BLOCK_DURATION
    ensures Admissions(None, times, MAX_ATTEMPTS, BLOCK_DURATION) == Min(|times|, 5)
  {
    FreshOrigin(times, MAX_ATTEMPTS, BLOCK_DURATION);
  }

  /** Of security-code guesses from a fresh origin all within an hour of
      the first, exactly the first three are compared with the code. */
  lemma CodeGuessBudget(times: seq<int>)
    requires |times| > 0
    requires forall i :: 0 <= i < |times| ==> times[i] - times[0] < CODE_BLOCK_DURATION
    ensures Admissions(None, times, MAX_CODE_ATTEMPTS, CODE_BLOCK_DURATION) == Min(|times|, 3)
  {
    FreshOrigin(times, MAX_CODE_ATTEMPTS, CODE_BLOCK_DURATION);
  }

  /** The limiter as written on a plain object: four security-code guesses
      within an hour from an origin that calls itself "constructor" are all
      compared with the code, where the own-entry limiter compares three. */
  lemma CodeGuessesAsWritten()
    ensures AdmissionsAsWritten(map[], "constructor", [0, 1, 2, 3], MAX_CODE_ATTEMPTS, CODE_BLOCK_DURATION) == 4
    ensures Admissions(None, [0, 1, 2, 3], MAX_CODE_ATTEMPTS, CODE_BLOCK_DURATION) == 3
  {
    InheritedOriginUnlimited(map[], "constructor", [0, 1, 2, 3], MAX_CODE_ATTEMPTS, CODE_BLOCK_DURATION);
    CodeGuessBudget([0, 1, 2, 3]);
  }

  /** The credential `adminLogin` issues names no user, so a request that
      bears it never gets past the gate: it is refused as not signed in, or
      as over the limit. */
  lemma AdminCredentialRefused(entry: Option<Attempt>, req: Request, t: string, verify: string -> Option<Claims>,
                               users: seq<User>, name: string, now: int)
    requires req.authorization == Some(BEARER + t)
    requires verify(t) == Some(ClaimsOf(AdminSession(name, ADMIN_TTL)))
    ensures GateCheck(entry, CreateContext(req, verify, users), now) in {Err(TOO_MANY_ACCESS), Err(MUST_LOG_IN)}
  {
    AdminCredentialIsAnonymous(req, t, verify, users, name);
  }

  /** `verifyAdminSecurityCode`'s verdict for an origin with entry `entry`:
      the limiter, then the configured code, then the comparison. */
  function SecurityCodeCheck(entry: Option<Attempt>, code: string, correctCode: Option<string>, now: int): (r: Result<bool>)
    ensures Step(entry, now, MAX_CODE_ATTEMPTS, CODE_BLOCK_DURATION).Rejected? <==> r == Err(TOO_MANY_CODES)
    ensures Step(entry, now, MAX_CODE_ATTEMPTS, CODE_BLOCK_DURATION).Admitted? && !Truthy(correctCode) ==> r == Err(CONFIG_ERROR)
    ensures r.Ok? <==> Step(entry, now, MAX_CODE_ATTEMPTS, CODE_BLOCK_DURATION).Admitted? && Truthy(correctCode) && code == correctCode.value
    ensures r.Ok? ==> r.value
    ensures r.Err? ==> r.error in {TOO_MANY_CODES, CONFIG_ERROR, INVALID_SECURITY_CODE}
  {
    match Step(entry, now, MAX_CODE_ATTEMPTS, CODE_BLOCK_DURATION)
    case Rejected => Err(TOO_MANY_CODES)
    case Admitted(_) =>
      if !Truthy(correctCode) then Err(CONFIG_ERROR)
      else if code != correctCode.value then Err(INVALID_SECURITY_CODE)
      else Ok(true)
  }

  /** The users `count({ where: { isVerified: true } })` counts. */
  function VerifiedUsers(users: seq<User>): (r: seq<User>)
    ensures forall u :: u in r <==> u in users && u.isVerified
    ensures forall u :: multiset(r)[u] == if u.isVerified then multiset(users)[u] else 0
    ensures |r| == |users| <==> forall u :: u in users ==> u.isVerified
  {
    FilterKeepsAll(users, (u: User) => u.isVerified);
    Filter(users, (u: User) => u.isVerified)
  }

  /** The todos `count({ where: { completed: true } })` counts. */
  function CompletedTodos(todos: seq<Todo>): (r: seq<Todo>)
    ensures forall t :: t in r <==> t in todos && t.completed
    ensures forall t :: multiset(r)[t] == if t.completed then multiset(todos)[t] else 0
    ensures |r| == |todos| <==> forall t :: t in todos ==> t.completed
  {
    FilterKeepsAll(todos, (t: Todo) => t.completed);
    Filter(todos, (t: Todo) => t.completed)
  }

  /** The six counts of `adminStats`. */
  function StatsOf(s: State): (r: AdminStats)
    ensures r.verifiedUsers == |VerifiedUsers(s.users)| && r.completedTodos == |CompletedTodos(s.todos)|
    ensures r.totalUsers == |s.users| && r.totalTodos == |s.todos|
    ensures r.totalChatRooms == |s.rooms| && r.totalMessages == |s.messages|
    ensures r.verifiedUsers <= r.totalUsers && r.completedTodos <= r.totalTodos
    ensures r.verifiedUsers == 0 <==> forall u :: u in s.users ==> !u.isVerified
    ensures r.verifiedUsers == r.totalUsers <==> forall u :: u in s.users ==> u.isVerified
    ensures r.completedTodos == 0 <==> forall t :: t in s.todos ==> !t.completed
    ensures r.completedTodos == r.totalTodos <==> forall t :: t in s.todos ==> t.completed
  {
    AdminStats(|s.users|, |VerifiedUsers(s.users)|,
               |s.todos|, |CompletedTodos(s.todos)|,
               |s.rooms|, |s.messages|)
  }

  /** The `allUsers` listing: every user, newest first. */
  function AllUsersOf(users: seq<User>): (r: seq<User>)
    ensures multiset(r) == multiset(users)
    ensures Sorted(r, UserCreatedAt, true)
  {
    SortBy(users, UserCreatedAt, true)
  }

  /** `setAdminStatus` past the gate, by administrator `caller`: clearing
      one's own flag is refused before any lookup; otherwise the target's
      `isAdmin` is set and nothing else changes. */
  function SetAdminStatusStep(s: State, caller: User, id: int, isAdmin: bool): (o: Outcome<User>)
    ensures caller.id == id && !isAdmin ==> o == Outcome(s, Err(SELF_DEMOTION))
    ensures !(caller.id == id && !isAdmin) && !UserExists(s.users, id) ==> o == Outcome(s, Err(USER_NOT_FOUND))
    ensures o.result.Err? ==> o.state == s
    ensures o.result.Ok? ==>
      && o.result.value.id == id && o.result.value.isAdmin == isAdmin
      && (exists u :: u in s.users && u.id == id && o.result.value == u.(isAdmin := isAdmin))
      && o.state == s.(users := SetUser(s.users, o.result.value))
    ensures o.result.Ok? <==> !(caller.id == id && !isAdmin) && UserExists(s.users, id)
  {
    if caller.id == id && !isAdmin then Outcome(s, Err(SELF_DEMOTION))
    else
      match FindUser(s.users, id)
      case None => Outcome(s, Err(USER_NOT_FOUND))
      case Some(u) =>
        var v := u.(isAdmin := isAdmin);
        Outcome(s.(users := SetUser(s.users, v)), Ok(v))
  }

  /** Setting the flag keeps the database consistent and leaves every other
      user row as it was. */
  lemma SetAdminStatusEffect(s: State, caller: User, id: int, isAdmin: bool)
    requires Consistent(s)
    ensures var o := SetAdminStatusStep(s, caller, id, isAdmin);
      && Consistent(o.state)
      && (o.result.Ok? ==> forall x :: x in o.state.users <==> x == o.result.value || (x in s.users && x.id != id))
  {
    var o := SetAdminStatusStep(s, caller, id, isAdmin);
    if o.result.Ok? {
      var u := FindUser(s.users, id).value;
      SetUserKeys(s.users, u, o.result.value);
    }
  }

  /** `deleteMany({ where: { userId } })` on messages. */
  function WithoutAuthor(messages: seq<Message>, id: int): (r: seq<Message>)
    ensures forall m :: m in r <==> m in messages && m.userId != id
  {
    Filter(messages, (m: Message) => m.userId != id)
  }

  /** `deleteMany({ where: { userId } })` on todos. */
  function WithoutOwner(todos: seq<Todo>, id: int): (r: seq<Todo>)
    ensures forall t :: t in r <==> t in todos && t.userId != id
  {
    Filter(todos, (t: Todo) => t.userId != id)
  }

  /** `delete({ where: { id } })` on users. */
  function WithoutUser(users: seq<User>, id: int): (r: seq<User>)
    ensures forall u :: u in r <==> u in users && u.id != id
  {
    Filter(users, (u: User) => u.id != id)
  }

  /** `deleteUser` past the gate, by administrator `caller`: deleting
      oneself is refused, then a missing target; otherwise the target's
      messages, its todos and its row go, and nothing else. */
  function DeleteUserStep(s: State, caller: User, id: int): (o: Outcome<bool>)
    ensures caller.id == id ==> o == Outcome(s, Err(SELF_DELETION))
    ensures caller.id != id && !UserExists(s.users, id) ==> o == Outcome(s, Err(USER_NOT_FOUND))
    ensures o.result.Ok? <==> caller.id != id && UserExists(s.users, id)
    ensures o.result.Ok? ==> o.result.value
    ensures o.result.Ok? ==>
      && (forall u :: u in o.state.users <==> u in s.users && u.id != id)
      && (forall t :: t in o.state.todos <==> t in s.todos && t.userId != id)
      && (forall m :: m in o.state.messages <==> m in s.messages && m.userId != id)
      && o.state.rooms == s.rooms && o.state.published == s.published
    ensures o.result.Ok? ==>
      o.state == s.(messages := WithoutAuthor(s.messages, id), todos := WithoutOwner(s.todos, id),
                    users := WithoutUser(s.users, id))
  {
    if caller.id == id then Outcome(s, Err(SELF_DELETION))
    else if FindUser(s.users, id).None? then Outcome(s, Err(USER_NOT_FOUND))
    else
      Outcome(s.(messages := WithoutAuthor(s.messages, id), todos := WithoutOwner(s.todos, id),
                 users := WithoutUser(s.users, id)), Ok(true))
  }

  /** The deletions run in an order that keeps every intermediate database
      consistent: the user's messages, then its todos, then its row. */
  lemma CascadeOrder(s: State, id: int)
    requires Consistent(s)
    ensures var s1 := s.(messages := WithoutAuthor(s.messages, id));
            var s2 := s1.(todos := WithoutOwner(s1.todos, id));
            var s3 := s2.(users := WithoutUser(s2.users, id));
            Consistent(s1) && Consistent(s2) && Consistent(s3)
  {
    var s1 := s.(messages := WithoutAuthor(s.messages, id));
    var s2 := s1.(todos := WithoutOwner(s1.todos, id));
    var users := WithoutUser(s2.users, id);
    forall uid | UserExists(s.users, uid) && uid != id
      ensures UserExists(users, uid)
    {
      var u :| u in s.users && u.id == uid;
      assert u in users;
    }
  }

  /** Removing the row first would leave a todo without its owner: the
      order is forced. */
  lemma UserFirstBreaks(s: State, id: int, t: Todo)
    requires t in s.todos && t.userId == id
    ensures !Consistent(s.(users := WithoutUser(s.users, id)))
  {
    var users := WithoutUser(s.users, id);
    assert !UserExists(users, t.userId);
  }

  /** A successful deletion keeps the database consistent and leaves
      nothing that refers to the deleted user. */
  lemma DeleteUserEffect(s: State, caller: User, id: int)
    requires Consistent(s)
    ensures var o := DeleteUserStep(s, caller, id);
      && Consistent(o.state)
      && (o.result.Ok? ==> !UserExists(o.state.users, id) &&
                           (forall t :: t in o.state.todos ==> t.userId != id) &&
                           (forall m :: m in o.state.messages ==> m.userId != id))
  {
    CascadeOrder(s, id);
  }

  /** Runs the gate of one wrapped resolver: counts the call in `limiter`,
      then checks the caller. */
  method Gate(limiter: Throttle, ctx: Context, now: int) returns (r: Result<User>)
    requires limiter.Valid() && limiter.maxAttempts == MAX_ATTEMPTS && limiter.blockDuration == BLOCK_DURATION
    modifies limiter
    ensures limiter.Valid()
    ensures r == GateCheck(old(limiter.Entry(ClientIp(ctx.req))), ctx, now)
    ensures limiter.attempts == Record(old(limiter.attempts), ClientIp(ctx.req), now, MAX_ATTEMPTS, BLOCK_DURATION)
  {
    var admitted := limiter.Check(ClientIp(ctx.req), now);
    if !admitted {
      return Err(TOO_MANY_ACCESS);
    }
    if !LoggedIn(ctx.UserId()) {
      return Err(MUST_LOG_IN);
    }
    if !ctx.user.value.isAdmin {
      return Err(REQUIRES_ADMIN);
    }
    r := Ok(ctx.user.value);
  }

  /** The admin resolvers over one database: each wrapped resolver with its
      own limiter, and the security-code limiter shared by all its calls. */
  class Admin {
    const db: Store
    const statsLimiter: Throttle
    const usersLimiter: Throttle
    const statusLimiter: Throttle
    const deleteLimiter: Throttle
    const codeLimiter: Throttle

    ghost predicate GateLimiter(t: Throttle)
      reads t
    {
      t.Valid() && t.maxAttempts == MAX_ATTEMPTS && t.blockDuration == BLOCK_DURATION
    }

    /** A consistent database; five distinct limiters, four with the
        gate's bounds and one with the security code's. */
    ghost predicate Valid()
      reads this, db, statsLimiter, usersLimiter, statusLimiter, deleteLimiter, codeLimiter
    {
      && db.Valid()
      && GateLimiter(statsLimiter) && GateLimiter(usersLimiter)
      && GateLimiter(statusLimiter) && GateLimiter(deleteLimiter)
      && codeLimiter.Valid() && codeLimiter.maxAttempts == MAX_CODE_ATTEMPTS
      && codeLimiter.blockDuration == CODE_BLOCK_DURATION
      && statsLimiter != usersLimiter && statsLimiter != statusLimiter && statsLimiter != deleteLimiter
      && statsLimiter != codeLimiter && usersLimiter != statusLimiter && usersLimiter != deleteLimiter
      && usersLimiter != codeLimiter && statusLimiter != deleteLimiter && statusLimiter != codeLimiter
      && deleteLimiter != codeLimiter
    }

    constructor (db: Store)
      requires db.Valid()
      ensures Valid() && this.db == db
      ensures fresh(statsLimiter) && fresh(usersLimiter) && fresh(statusLimiter)
      ensures fresh(deleteLimiter) && fresh(codeLimiter)
      ensures statsLimiter.attempts == map[] && usersLimiter.attempts == map[] && statusLimiter.attempts == map[]
      ensures deleteLimiter.attempts == map[] && codeLimiter.attempts == map[]
    {
      this.db := db;
      statsLimiter := new Throttle(MAX_ATTEMPTS, BLOCK_DURATION);
      usersLimiter := new Throttle(MAX_ATTEMPTS, BLOCK_DURATION);
      statusLimiter := new Throttle(MAX_ATTEMPTS, BLOCK_DURATION);
      deleteLimiter := new Throttle(MAX_ATTEMPTS, BLOCK_DURATION);
      codeLimiter := new Throttle(MAX_CODE_ATTEMPTS, CODE_BLOCK_DURATION);
    }

    /** `adminStats`, behind its own gate. */
    method Stats(ctx: Context, now: int) returns (r: Result<AdminStats>)
      requires Valid()
      modifies statsLimiter
      ensures Valid()
      ensures var g := GateCheck(old(statsLimiter.Entry(ClientIp(ctx.req))), ctx, now);
        r == if g.Err? then Err(g.error) else Ok(StatsOf(db.Snapshot()))
      ensures statsLimiter.attempts == Record(old(statsLimiter.attempts), ClientIp(ctx.req), now, MAX_ATTEMPTS, BLOCK_DURATION)
    {
      var g := Gate(statsLimiter, ctx, now);
      if g.Err? {
        return Err(g.error);
      }
      r := Ok(StatsOf(db.Snapshot()));
    }

    /** `allUsers`, behind its own gate. */
    method AllUsers(ctx: Context, now: int) returns (r: Result<seq<User>>)
      requires Valid()
      modifies usersLimiter
      ensures Valid()
      ensures var g := GateCheck(old(usersLimiter.Entry(ClientIp(ctx.req))), ctx, now);
        r == if g.Err? then Err(g.error) else Ok(AllUsersOf(db.users))
      ensures usersLimiter.attempts == Record(old(usersLimiter.attempts), ClientIp(ctx.req), now, MAX_ATTEMPTS, BLOCK_DURATION)
    {
      var g := Gate(usersLimiter, ctx, now);
      if g.Err? {
        return Err(g.error);
      }
      r := Ok(AllUsersOf(db.users));
    }

    /** `verifyAdminSecurityCode`: not gated; counted in the security-code
      limiter before the code is looked at. */
    method VerifySecurityCode(req: Option<Request>, code: string, correctCode: Option<string>, now: int) returns (r: Result<bool>)
      requires Valid()
      modifies codeLimiter
      ensures Valid()
      ensures r == SecurityCodeCheck(old(codeLimiter.Entry(ClientIp(req))), code, correctCode, now)
      ensures codeLimiter.attempts == Record(old(codeLimiter.attempts), ClientIp(req), now, MAX_CODE_ATTEMPTS, CODE_BLOCK_DURATION)
    {
      var admitted := codeLimiter.Check(ClientIp(req), now);
      if !admitted {
        return Err(TOO_MANY_CODES);
      }
      if !Truthy(correctCode) {
        return Err(CONFIG_ERROR);
      }
      if code != correctCode.value {
        return Err(INVALID_SECURITY_CODE);
      }
      r := Ok(true);
    }

    /** `setAdminStatus`, behind its own gate. */
    method SetAdminStatus(ctx: Context, id: int, isAdmin: bool, now: int) returns (r: Result<User>)
      requires Valid()
      modifies statusLimiter, db
      ensures Valid()
      ensures var g := GateCheck(old(statusLimiter.Entry(ClientIp(ctx.req))), ctx, now);
        && (g.Err? ==> r == Err(g.error) && db.Snapshot() == old(db.Snapshot()))
        && (g.Ok? ==> r == old(SetAdminStatusStep(db.Snapshot(), g.value, id, isAdmin)).result &&
                      db.Snapshot() == old(SetAdminStatusStep(db.Snapshot(), g.value, id, isAdmin)).state)
      ensures statusLimiter.attempts == Record(old(statusLimiter.attempts), ClientIp(ctx.req), now, MAX_ATTEMPTS, BLOCK_DURATION)
    {
      var g := Gate(statusLimiter, ctx, now);
      if g.Err? {
        return Err(g.error);
      }
      var caller := g.value;
      SetAdminStatusEffect(db.Snapshot(), caller, id, isAdmin);
      if caller.id == id && !isAdmin {
        return Err(SELF_DEMOTION);
      }
      var target := FindUser(db.users, id);
      if target.None? {
        return Err(USER_NOT_FOUND);
      }
      var v := target.value.(isAdmin := isAdmin);
      db.users := SetUser(db.users, v);
      r := Ok(v);
    }

    /** `deleteUser`, behind its own gate: three deletions in order. */
    method DeleteUser(ctx: Context, id: int, now: int) returns (r: Result<bool>)
      requires Valid()
      modifies deleteLimiter, db
      ensures Valid()
      ensures var g := GateCheck(old(deleteLimiter.Entry(ClientIp(ctx.req))), ctx, now);
        && (g.Err? ==> r == Err(g.error) && db.Snapshot() == old(db.Snapshot()))
        && (g.Ok? ==> r == old(DeleteUserStep(db.Snapshot(), g.value, id)).result &&
                      db.Snapshot() == old(DeleteUserStep(db.Snapshot(), g.value, id)).state)
      ensures deleteLimiter.attempts == Record(old(deleteLimiter.attempts), ClientIp(ctx.req), now, MAX_ATTEMPTS, BLOCK_DURATION)
    {
      var g := Gate(deleteLimiter, ctx, now);
      if g.Err? {
        return Err(g.error);
      }
      var caller := g.value;
      if caller.id == id {
        return Err(SELF_DELETION);
      }
      if FindUser(db.users, id).None? {
        return Err(USER_NOT_FOUND);
      }
      CascadeOrder(db.Snapshot(), id);
      db.messages := WithoutAuthor(db.messages, id);
      db.todos := WithoutOwner(db.todos, id);
      db.users := WithoutUser(db.users, id);
      r := Ok(true);
    }
  }
}
