# GraphQL todo/chat backend — a Dafny model of its resolvers

This project models the request-handling core of a small GraphQL backend:
- accounts with email verification;
- per-user todo lists;
- chat rooms with a live message feed;
- a set of administrator operations behind a rate-limited access gate.

The database (Prisma over four tables) becomes an in-memory `Store` object. Its fields are the four tables, the log of published chat events and the tables' auto-increment counters. `Db.Consistent` is the integrity invariant:
- unique ids and emails;
- ids below the counters;
- every todo owner, message author and message room refers to an existing row.

Every mutating resolver is two things:
- a pure `…Step` function from the database value before the call to an `Outcome` (the database after the call, and the value returned or the error thrown);
- a method that performs the same writes on the `Store`, in the order the resolver issues them, and is proved to end in exactly that outcome.

Properties are lemmas about the step functions. Examples:
- every mutation keeps `Consistent`;
- the account of an email address goes absent → unverified → verified;
- the code that `register` mails verifies the account within 30 minutes;
- a created todo reads back, and a deleted one is gone;
- a sent message reaches exactly the subscribers of its room;
- deleting a user removes its messages, then its todos, then its row, and every intermediate database is consistent (deleting the row first would not be).

The admin gate's limiter is a `Throttle` object holding a dictionary from client origin to `Attempt(count, timestamp)`. Every gated resolver has a limiter of its own; the security-code check has one more. The `Throttle` looks an origin up among the dictionary's own entries, and for such an origin follows the code exactly:
- a call is refused (TOO_MANY_REQUESTS) when the origin's entry already holds at least the maximum and its window is still open;
- a refused call leaves the entry untouched;
- an entry at least one block duration old restarts at count 1;
- otherwise the count goes up by one.

So from a fresh origin exactly five calls in 30 minutes get past the gate (`AdminResolvers.GateBudget`), and exactly three security-code guesses per hour (`AdminResolvers.CodeGuessBudget`). The source's dictionary is a plain JavaScript object, which also answers for the names it inherits from `Object.prototype` ("constructor", "toString", "__proto__", …). An origin sending such a name as `x-forwarded-for` is never refused. That behaviour is modelled separately (`Throttling.PassesAsWritten` and the members after it) and recorded under Findings; for every other origin the two agree (`Throttling.OwnOriginAsModelled`). The counting comes before the identity checks, so anonymous and non-admin calls use up the budget too.

In `src/resolvers/admin.js:22-40` the comparison with the maximum comes before the increment, so a refused call changes nothing and the sixth call inside a window is the first one refused; a window restarts once its age reaches the block duration.

Also proved: a credential issued by `adminLogin` names no user, so the context built from it is anonymous. Every gated resolver therefore refuses it, either as not signed in or as over the limit (`AdminResolvers.AdminCredentialRefused`).

Foreign and environmental inputs are parameters:
- the bcrypt hash is the `passwordHash` argument;
- the bcrypt comparison is a `(string, string) -> bool`;
- `jwt.sign` is not computed: a token is the symbolic `Tokens.Credential` naming what was signed and for how long;
- `jwt.verify` is a `string -> Option<Claims>` whose `None` stands for a verification that throws;
- the clock is `now` in milliseconds;
- the generated verification code is the `code` argument;
- the outcome of sending an email is `emailSent`;
- `ADMIN_LOGIN`, `ADMIN_PASSWORD`, `ADMIN_SECURITY_CODE` and `NODE_ENV` are `Option<string>` arguments; `JWT_SECRET` is not modelled (see below).

## Model

| member | source | states |
|---|---|---|
| Strings.IndexOf | src/index.js:25-26 | the index returned is the first occurrence of the pattern; none exactly when the pattern never occurs |
| Strings.Contains | src/index.js:25-26 | `includes` holds exactly when the pattern occurs at some index |
| Strings.ReplaceFirst | src/context.js:20 | `replace` with a string pattern removes only the first occurrence, wherever it stands; without an occurrence the string is unchanged |
| Strings.ReplaceLeading | src/context.js:20 | replacing a leading occurrence yields the replacement followed by the rest |
| Strings.ContainsSelf | src/index.js:24-27 | a string contains itself |
| Strings.ContainsAffix | src/index.js:24-27 | a string contains every string embedded in it |
| Seqs.SortBy | src/resolvers/todo.js:15-18 | the `orderBy: { createdAt }` result is a permutation of its input, ordered by the key in the requested direction |
| Db.FindUser | src/resolvers/user.js:11-13 | `findUnique` by id finds a row with that id, and finds none exactly when no row has it |
| Db.FindUserByEmail | src/resolvers/auth.js:18-20 | `findUnique` by email finds a row with that email, and finds none exactly when no row has it |
| Db.FindTodo | src/resolvers/todo.js:31-33 | `findUnique` by todo id finds a row with that id, and finds none exactly when no row has it |
| Db.FindRoom | src/resolvers/chat.js:34-36 | `findUnique` by room id finds a row with that id, and finds none exactly when no row has it |
| Db.TodosOwnedBy | src/resolvers/todo.js:15-18 | `findMany({ where: { userId } })` keeps exactly the user's todos, each as often as in the table |
| Db.MessagesInRoom | src/resolvers/chat.js:72-75 | `findMany({ where: { roomId } })` keeps exactly the room's messages, each as often as in the table |
| Db.SetUser | src/resolvers/auth.js:146-153 | `update` by id replaces the rows with that id and keeps every other row in its place |
| Db.SetTodo | src/resolvers/todo.js:110-117 | `update` by id replaces the rows with that id and keeps every other row in its place |
| Db.SetUserKeys | src/resolvers/auth.js:146-153 | replacing a row by one with the same id and email keeps ids and emails unique and every user id present |
| Db.Store.constructor | src/context.js:4 | the model's store starts empty and consistent, with every id counter at 1 |
| Tokens.ClaimsOf | src/resolvers/auth.js:280-287 | a session credential carries a `userId` claim; the administrator credential carries none |
| Tokens.GenerateToken | src/resolvers/auth.js:7-11 | `generateToken` signs `{ userId }` for seven days |
| RequestContext.IdOf | src/context.js:29 | `userId` is `user?.id`: absent exactly when there is no user, otherwise that user's id; both kinds of context take it from here |
| RequestContext.ClientIp | src/context.js:24 | the origin is `x-forwarded-for` if non-empty, else the remote address if non-empty, else "unknown"; never empty |
| RequestContext.BearerToken | src/context.js:20 | no header gives no token; otherwise the header without its first "Bearer ", or the whole header if it has none |
| RequestContext.BearerRoundTrip | src/context.js:20 | the header "Bearer " + t yields exactly t |
| RequestContext.GetUserFromToken | src/context.js:7-16 | no user for a missing or empty token or one that fails to verify; a user only if it is the row of the verified `userId`, and that row whenever it exists |
| RequestContext.CreateContext | src/context.js:19-33 | the context holds the token's user, the request and the origin; a resolved `userId` always names an existing row |
| RequestContext.CreateSubscriptionContext | src/context.js:36-51 | the token comes from the connection payload; ip and user agent fall back to "unknown" |
| RequestContext.SessionResolves | src/context.js:7-33 | a request bearing a session credential resolves to its user exactly while that row exists |
| RequestContext.AdminCredentialIsAnonymous | src/context.js:11-12 | a request bearing the administrator credential resolves to no user |
| Throttling.Step | src/resolvers/admin.js:22-40 | refused exactly when the entry exists with count at or above the maximum inside its window; a missing or expired entry restarts at count 1 now; otherwise count + 1 with the window start kept; counts stay within 1..max |
| Throttling.Record | src/resolvers/admin.js:22-40 | a refused call leaves the dictionary as it was; an admitted call stores `Step`'s new entry under its origin; other origins' entries never change |
| Throttling.Admissions | src/resolvers/admin.js:22-40 | no more calls get through than are made |
| Throttling.WithinWindow | src/resolvers/admin.js:23-36 | inside one window exactly `max - count` further calls get through, and none after |
| Throttling.FreshOrigin | src/resolvers/admin.js:22-39 | from an origin with no entry, of calls within one block duration exactly the first `max` get through |
| Throttling.PassesAsWritten | src/resolvers/admin.js:22-30 | on the source's plain object, a call from an inherited property name without an own entry always passes; any other origin passes exactly as `Step` admits it |
| Throttling.RecordAsWritten | src/resolvers/admin.js:32-40 | on the plain object, a call from an inherited name adds no entry of the dictionary's own; any other origin's call is recorded as `Record` does |
| Throttling.AdmissionsAsWritten | src/resolvers/admin.js:22-40 | no more calls get through the as-written limiter than are made |
| Throttling.InheritedOriginUnlimited | src/resolvers/admin.js:22-40 | as written, every call from an inherited property name passes, however many and however close together |
| Throttling.OwnOriginAsModelled | src/resolvers/admin.js:22-40 | for every origin that is not an inherited name, successive calls pass as written exactly as `Admissions` counts them |
| Throttling.Throttle.constructor | src/resolvers/admin.js:11 | a limiter starts with the given bounds and an empty dictionary |
| Throttling.Throttle.Check | src/resolvers/admin.js:22-40 | the call is admitted as `Step` decides, and the dictionary becomes `Record` of the old one |
| AuthResolvers.StateOfFound | src/resolvers/auth.js:18-22 | with unique emails, the row found by email decides whether the account is absent, unverified or verified |
| AuthResolvers.NewAccount | src/resolvers/auth.js:74-83 | a registered row is unverified, not admin, with the given hash and code and an expiry 1,800,000 ms ahead |
| AuthResolvers.Reissue | src/resolvers/auth.js:30-38 | re-registration sets code and expiry, sets the username only when a non-empty one is given, and changes nothing else |
| AuthResolvers.MarkVerified | src/resolvers/auth.js:146-153 | verification sets `isVerified`, clears code and expiry, and changes nothing else |
| AuthResolvers.VerifyCheck | src/resolvers/auth.js:110-143 | checks in order: missing row (NOT_FOUND), already verified, wrong code, expired (`expiry < now`); success exactly when all pass |
| AuthResolvers.IssuedCodeWindow | src/resolvers/auth.js:137-143 | a code verifies up to and including 30 minutes after issue and is refused as expired after that |
| AuthResolvers.VerificationIsFinal | src/resolvers/auth.js:119-125 | after verification every further attempt is refused as already verified |
| AuthResolvers.Login | src/resolvers/auth.js:220-257 | a session credential only for an existing, verified row whose hash matches; unknown email and wrong password give the same UNAUTHENTICATED error |
| AuthResolvers.AdminLogin | src/resolvers/auth.js:260-293 | INTERNAL_SERVER_ERROR unless both credentials are configured; success exactly when both match, with a 24-hour administrator credential; no user row involved |
| AuthResolvers.AddAccount | src/resolvers/auth.js:74-83 | appending the row of an unknown email keeps the database consistent, makes it the row found for that email, and changes no other address's account |
| AuthResolvers.UpdateAccount | src/resolvers/auth.js:30-38 | replacing a row by one with the same id and email keeps the database consistent and changes no other address's account |
| AuthResolvers.RegisterStep | src/resolvers/auth.js:16-101 | a verified address is refused as duplicate with nothing changed; an unverified one has its row reissued with the new code, expiry and username; an unknown one gets a new unverified row under the next id; in both writing cases the write is kept and the call succeeds exactly when the email went out, with the case's message; other tables unchanged |
| AuthResolvers.VerifyEmailStep | src/resolvers/auth.js:104-162 | a failed `VerifyCheck` is returned with nothing changed; a passed one stores the row verified with code and expiry cleared, and returns that row with a session credential for its id |
| AuthResolvers.ResendStep | src/resolvers/auth.js:165-217 | an unknown address is NOT_FOUND and a verified one refused, both with nothing changed; an unverified row gets the new code and expiry (username kept), and the call succeeds exactly when the email went out |
| AuthResolvers.RegisterLifecycle | src/resolvers/auth.js:16-101 | keeps the database consistent; refused as duplicate exactly for a verified account; afterwards the account is unverified unless it was verified, even when the email failed; other accounts unchanged |
| AuthResolvers.VerifyEmailLifecycle | src/resolvers/auth.js:104-162 | keeps the database consistent; succeeds exactly when `VerifyCheck` passes and then turns an unverified account verified; other accounts unchanged |
| AuthResolvers.ResendLifecycle | src/resolvers/auth.js:165-217 | keeps the database consistent; NOT_FOUND exactly for an absent account, BAD_USER_INPUT exactly for a verified one; no account changes state |
| AuthResolvers.RegisterThenVerify | src/resolvers/auth.js:16-162 | the code `register` issued verifies the account when entered within 30 minutes |
| AuthResolvers.Register | src/resolvers/auth.js:16-101 | the live resolver keeps the store consistent and ends in `RegisterStep`'s outcome |
| AuthResolvers.VerifyEmail | src/resolvers/auth.js:104-162 | the live resolver keeps the store consistent and ends in `VerifyEmailStep`'s outcome |
| AuthResolvers.ResendVerificationCode | src/resolvers/auth.js:165-217 | the live resolver keeps the store consistent and ends in `ResendStep`'s outcome |
| TodoResolvers.Todos | src/resolvers/todo.js:6-19 | UNAUTHENTICATED exactly for an anonymous caller; otherwise exactly the caller's todos, newest first |
| TodoResolvers.Owned | src/resolvers/todo.js:31-50 | a missing id is NOT_FOUND before ownership is looked at; a todo of another user is refused; success only with the caller's todo of that id |
| TodoResolvers.TodoById | src/resolvers/todo.js:22-53 | UNAUTHENTICATED for an anonymous caller, then the ownership lookup with the "access" refusal |
| TodoResolvers.Patch | src/resolvers/todo.js:110-117 | only arguments that are not left out are written; null clears the description and is refused for title and completed; id, owner and creation time are kept |
| TodoResolvers.CreateTodoStep | src/resolvers/todo.js:58-74 | an anonymous caller changes nothing; success exactly when the caller's row exists, appending one not-completed todo owned by the caller |
| TodoResolvers.UpdateTodoStep | src/resolvers/todo.js:77-118 | the auth and ownership refusals change nothing; succeeds exactly for the owner with no null title or completed flag, replacing the row by its patched version; a null there is a refused write that changes nothing |
| TodoResolvers.DeleteTodoStep | src/resolvers/todo.js:121-159 | succeeds exactly when the signed-in caller owns the todo, removing exactly the rows with that id and returning true; every refusal changes nothing; nothing but the todo table changes |
| TodoResolvers.WithoutTodo | src/resolvers/todo.js:154-156 | `delete` by id keeps exactly the rows with other ids |
| TodoResolvers.TodoUser | src/resolvers/todo.js:165-169 | the `user` field is the owner's row, missing exactly when the owner row is |
| TodoResolvers.OwnerResolves | src/resolvers/todo.js:165-169 | in a consistent database every todo's owner resolves |
| TodoResolvers.CreateTodoConsistent | src/resolvers/todo.js:67-73 | creating a todo keeps the database consistent |
| TodoResolvers.UpdateTodoConsistent | src/resolvers/todo.js:110-117 | updating a todo keeps the database consistent |
| TodoResolvers.DeleteTodoConsistent | src/resolvers/todo.js:154-156 | deleting a todo keeps the database consistent |
| TodoResolvers.SetTodoKeys | src/resolvers/todo.js:110-117 | replacing a todo by one with the same id and owner keeps ids unique and every other row |
| TodoResolvers.CreateThenRead | src/resolvers/todo.js:22-74 | a created todo reads back by its creator |
| TodoResolvers.UpdateThenRead | src/resolvers/todo.js:22-118 | an updated todo reads back as written |
| TodoResolvers.DeleteThenGone | src/resolvers/todo.js:22-159 | after a delete the id is NOT_FOUND |
| TodoResolvers.CreateTodo | src/resolvers/todo.js:58-74 | the live resolver keeps the store consistent and ends in `CreateTodoStep`'s outcome |
| TodoResolvers.UpdateTodo | src/resolvers/todo.js:77-118 | the live resolver keeps the store consistent and ends in `UpdateTodoStep`'s outcome |
| TodoResolvers.DeleteTodo | src/resolvers/todo.js:121-159 | the live resolver keeps the store consistent and ends in `DeleteTodoStep`'s outcome |
| ChatResolvers.ChatRooms | src/resolvers/chat.js:10-22 | UNAUTHENTICATED exactly for an anonymous caller; otherwise every room, newest first |
| ChatResolvers.ChatRoomById | src/resolvers/chat.js:25-47 | UNAUTHENTICATED, then NOT_FOUND for a missing room; success exactly with the room of that id |
| ChatResolvers.RoomMessages | src/resolvers/chat.js:154-158 | exactly the room's messages, oldest first |
| ChatResolvers.Messages | src/resolvers/chat.js:50-76 | UNAUTHENTICATED, then NOT_FOUND for a missing room; otherwise the room's messages, oldest first |
| ChatResolvers.CreateChatRoomStep | src/resolvers/chat.js:81-93 | an anonymous caller changes nothing; otherwise one room with the given name is appended, with no other check |
| ChatResolvers.SendMessageStep | src/resolvers/chat.js:96-135 | UNAUTHENTICATED, then NOT_FOUND for a missing room, with nothing stored or published; success appends one message by the caller in that room to the table and to the published log |
| ChatResolvers.Delivered | src/resolvers/chat.js:141-147 | a subscription to a room opened at a point of the event log receives exactly that room's messages published after that point, and nothing earlier |
| ChatResolvers.SendDelivers | src/resolvers/chat.js:131-147 | a send delivers its message once to every open subscription to its room and nothing to subscriptions to other rooms |
| ChatResolvers.FailedSendIsSilent | src/resolvers/chat.js:105-116 | a refused send delivers nothing to any open subscription |
| ChatResolvers.SendThenListed | src/resolvers/chat.js:50-135 | a sent message is listed among its room's messages |
| ChatResolvers.MessageUser | src/resolvers/chat.js:164-168 | the `user` field is the author's row, missing exactly when that row is |
| ChatResolvers.MessageRoom | src/resolvers/chat.js:170-174 | the `room` field is the room's row, missing exactly when that row is |
| ChatResolvers.CreateChatRoomConsistent | src/resolvers/chat.js:90-92 | creating a room keeps the database consistent |
| ChatResolvers.SendMessageConsistent | src/resolvers/chat.js:119-129 | storing a message keeps the database consistent |
| ChatResolvers.MessageFieldsResolve | src/resolvers/chat.js:162-174 | in a consistent database every message's author and room resolve |
| ChatResolvers.CreateChatRoom | src/resolvers/chat.js:81-93 | the live resolver keeps the store consistent and ends in `CreateChatRoomStep`'s outcome |
| ChatResolvers.SendMessage | src/resolvers/chat.js:96-135 | the live resolver stores, then publishes, keeps the store consistent and ends in `SendMessageStep`'s outcome |
| UserResolvers.Me | src/resolvers/user.js:6-24 | null for an anonymous caller; NOT_FOUND when the caller's row is gone; otherwise that row |
| UserResolvers.UserTodos | src/resolvers/user.js:30-35 | exactly the parent's todos, newest first |
| UserResolvers.OwnTodosAgree | src/resolvers/user.js:30-35 | `me { todos }` and the `todos` query give the same list |
| UserResolvers.ListedTodosReadable | src/resolvers/user.js:30-35 | every todo the caller sees listed reads back by id |
| AdminResolvers.Identity | src/resolvers/admin.js:42-53 | UNAUTHENTICATED without a user id, then FORBIDDEN for a non-admin; passes exactly for an admin |
| AdminResolvers.GateCheck | src/resolvers/admin.js:15-58 | TOO_MANY_REQUESTS exactly when the limiter refuses; the wrapped resolver runs exactly for an admitted call by an admin |
| AdminResolvers.FailedCallsCount | src/resolvers/admin.js:22-46 | a caller over the limit is refused as TOO_MANY_REQUESTS whatever its identity |
| AdminResolvers.GateBudget | src/resolvers/admin.js:11-13 | five calls per 30-minute window from an origin with no entry get past the limiter |
| AdminResolvers.CodeGuessBudget | src/resolvers/admin.js:4-6 | three security-code guesses per hour from an origin with no entry are compared |
| AdminResolvers.CodeGuessesAsWritten | src/resolvers/admin.js:107-126 | four guesses within an hour from the origin "constructor" are all compared as written, where the own-entry limiter compares three |
| AdminResolvers.AdminCredentialRefused | src/resolvers/admin.js:42-46 | the `adminLogin` credential never passes the gate |
| AdminResolvers.SecurityCodeCheck | src/resolvers/admin.js:102-146 | limiter first, then INTERNAL_SERVER_ERROR for an unset code, then UNAUTHENTICATED on mismatch; true exactly for an admitted exact match |
| AdminResolvers.VerifiedUsers | src/resolvers/admin.js:75 | `count({ where: { isVerified: true } })` counts exactly the verified users, each as often as in the table; all of them exactly when every user is verified |
| AdminResolvers.CompletedTodos | src/resolvers/admin.js:77 | `count({ where: { completed: true } })` counts exactly the completed todos, each as often as in the table; all of them exactly when every todo is completed |
| AdminResolvers.StatsOf | src/resolvers/admin.js:65-90 | the four table sizes, and the number of verified users and of completed todos; each count at most its total, zero exactly when no row qualifies, equal to the total exactly when every row does |
| AdminResolvers.AllUsersOf | src/resolvers/admin.js:93-97 | every user, newest first |
| AdminResolvers.SetAdminStatusStep | src/resolvers/admin.js:149-173 | clearing one's own flag is refused before the lookup; a missing target is NOT_FOUND; refusals change nothing; succeeds exactly otherwise, changing only the target's `isAdmin` |
| AdminResolvers.SetAdminStatusEffect | src/resolvers/admin.js:169-172 | the update keeps the database consistent and every other user row |
| AdminResolvers.WithoutAuthor | src/resolvers/admin.js:197 | `deleteMany` keeps exactly the messages of other authors |
| AdminResolvers.WithoutOwner | src/resolvers/admin.js:198 | `deleteMany` keeps exactly the todos of other owners |
| AdminResolvers.WithoutUser | src/resolvers/admin.js:201 | `delete` keeps exactly the other users |
| AdminResolvers.DeleteUserStep | src/resolvers/admin.js:176-204 | self-deletion, then a missing target, are refused unchanged; success returns true and the next database is exactly the old one without the target's messages, todos and row, counters and everything else kept |
| AdminResolvers.CascadeOrder | src/resolvers/admin.js:196-201 | each of the three successive deletions leaves a consistent database |
| AdminResolvers.UserFirstBreaks | src/resolvers/admin.js:196-201 | deleting the row before its todos would leave a todo without its owner |
| AdminResolvers.DeleteUserEffect | src/resolvers/admin.js:176-204 | the deletion keeps the database consistent and leaves nothing referring to the deleted user |
| AdminResolvers.Gate | src/resolvers/admin.js:9-59 | the gate counts the call in its limiter, then answers as `GateCheck` does |
| AdminResolvers.Admin.constructor | src/resolvers/admin.js:9-11 | five distinct limiters with empty dictionaries, four with the gate's bounds and one with the security code's |
| AdminResolvers.Admin.Stats | src/resolvers/admin.js:65-90 | `adminStats` behind its own limiter: the gate's refusal or the six counts |
| AdminResolvers.Admin.AllUsers | src/resolvers/admin.js:93-97 | `allUsers` behind its own limiter: the gate's refusal or every user newest first |
| AdminResolvers.Admin.VerifySecurityCode | src/resolvers/admin.js:102-146 | counts in the shared security-code limiter, then answers as `SecurityCodeCheck` does |
| AdminResolvers.Admin.SetAdminStatus | src/resolvers/admin.js:149-173 | behind its own limiter; a refused gate changes no table; otherwise ends in `SetAdminStatusStep`'s outcome |
| AdminResolvers.Admin.DeleteUser | src/resolvers/admin.js:176-204 | behind its own limiter; a refused gate changes no table; otherwise deletes messages, todos, then the row, ending in `DeleteUserStep`'s outcome |
| ErrorFormatting.FromError | src/index.js:22 | a thrown error reaches the formatter with its message and code and no status |
| ErrorFormatting.FormatError | src/index.js:22-66 | the authentication patterns give the fixed 401 error, before the permission patterns give the fixed 403 error; otherwise production keeps the message and the code (default INTERNAL_SERVER_ERROR) only, and elsewhere the error is unchanged |
| ErrorFormatting.AuthRequiredIs401 | src/index.js:24-35 | the todo and chat resolvers' "Authentication required" reaches clients as the 401 error |
| ErrorFormatting.NotAuthenticatedAnywhere | src/index.js:24-35 | "Not authenticated" anywhere in a message gives the 401 error |
| ErrorFormatting.AccessDeniedAnywhere | src/index.js:38-49 | "access denied" anywhere in a message without the authentication patterns gives the 403 error |
| ErrorFormatting.OtherErrorsKeepCode | src/index.js:52-65 | any other error keeps its message and code in every environment |

## Left out

- Prisma itself. Tables are sequences and queries are filters. `orderBy` is a stable insertion sort, so the order of rows with equal timestamps is this model's, not the database's. `count` is a sequence length.
- Database write errors. A write the database would refuse becomes one INTERNAL_SERVER_ERROR whose message text is not modelled. Examples: connecting a todo or message to a user row that is gone, or a null title or completed flag in `updateTodo`.
- The Prisma schema is not part of this model. These column defaults are assumed:
  - `isAdmin` false;
  - `completed` false;
  - `createdAt` the time of the insert;
  - `updatedAt` the time of each write.
- `parseInt` on ids. Ids arrive as integers.
- bcrypt and jsonwebtoken. The hash and the comparison are parameters, as is verification; signing is not computed and `JWT_SECRET` plays no part: a token is a symbolic credential recording its claims and lifetime, and its expiry is never checked.
- A `jwt.sign` that throws. In `verifyEmail` the token is signed after the row has already been marked verified (src/resolvers/auth.js:146-156), so such a failure would leave a verified account and an error; signing never fails in this model.
- Db.Store.constructor: `new PrismaClient()` connects to whatever database already exists, possibly seeded; the model's store starts empty, and a store built from an existing consistent database is not modelled.
- The email service: SMTP, retries, the random six-digit code. Delivery success and the code are parameters.
- Logging to the console. The `include: { user, room }` of the created message is not modelled; the `Message.user` and `Message.room` fields are.
- PubSub delivery. It is asynchronous and per connection. Publishing is an append to a log, and a subscriber's feed is the log filtered by room.
- Concurrency. The six parallel counts of `adminStats` and interleaved requests are not modelled; each resolver runs alone.
- Server start-up, the schema, and the merging of resolver maps. The other parts of a formatted error (locations, path) are not modelled either.
- Throttling.Step: origins named like the properties a plain object inherits ("constructor", "__proto__", "toString", …) are judged like any other origin without an entry; the source never refuses them. `Throttle`, `Gate` and the admin resolvers use this corrected own-entry lookup; the as-written behaviour is `Throttling.PassesAsWritten`, `Throttling.RecordAsWritten` and `Throttling.AdmissionsAsWritten`. The NaN the source then stores on the inherited object is not modelled.
- Throttling.Admissions: its own contract only bounds the count by the number of calls; the exact count is stated by `Throttling.WithinWindow` and `Throttling.FreshOrigin`.
- Throttling.AdmissionsAsWritten: its own contract only bounds the count by the number of calls; the exact count is stated by `Throttling.InheritedOriginUnlimited` and `Throttling.OwnOriginAsModelled`.

## Findings

| source | as written | input that shows it | evidently intended | confidence | as-written member | corrected member |
|---|---|---|---|---|---|---|
| src/resolvers/admin.js:107-126 | the attempt table is a plain `{}`, so `securityCodeAttempts[clientIp]` finds an inherited property for a name such as "constructor"; its count and timestamp are undefined, both comparisons are false, and the call is never refused (likewise `loginAttempts` at lines 22-40) | four `verifyAdminSecurityCode` calls within an hour with `x-forwarded-for: constructor`: all four codes are compared, and so are any further ones | at most three guesses per origin per hour | not executed | AdminResolvers.CodeGuessesAsWritten | AdminResolvers.CodeGuessBudget |
