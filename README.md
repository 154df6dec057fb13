# Invite-gated signup of the wishlist application

This project models the signup route of the wishlist application
(`src/routes/signup/+page.server.ts`) and proves what it promises. The route has two parts.

- **The page load** (`SignupLoad.Load`) is a read-only decision. A visitor who already
  has a session is redirected (302 to `/`). If a non-empty `token` query parameter is
  present, the first unredeemed token whose stored fingerprint equals the fingerprint of
  the parameter is looked up. No such token gives 400 "reset token not found". A found
  token is accepted, with its id, only while `now < createdAt + ttlHours * 3600000`, where
  `ttlHours` is TOKEN_TIME, or 72 when that is unset. At the expiry instant or later the
  result is 400 "Invite code is either invalid or already been used". Without a token, the
  `enableSignup` flag chooses between 404 "This instance is invite only" and open signup.
- **The form action** (`SignupAction.Store.Submit`) is an ordered sequence of effects
  on a store. A form that fails schema validation gets one field-attributed error per
  issue, and nothing is written. Otherwise the action:
  1. counts the users;
  2. reads the group of the submitted `tokenId`, if there is one;
  3. creates the user, as ADMIN when the count was 0 and as USER otherwise;
  4. stores a session and attaches it to the request;
  5. adds an active membership in that group, if there is one;
  6. marks the token with that id redeemed, if a `tokenId` was given.

  Any failure from step 3 on is answered with the single error
  `{field: "username", message: "User with username or email already exists"}`.
  Effects that already happened are kept.

The store is the class `SignupAction.Store`: the user, token, membership, group and
session tables, plus the session attached to the current request. Each collaborator call
becomes one method of that class, and that method changes only its own table. The
function `SignupAction.SignupOutcome` gives the new store and the response as a function
of the store before the action. The method `Store.Submit` is proved equal to it, and the
lemmas of `SignupProperties` are proved about it.

Collaborators that are not part of this model enter as parameters:

- the token fingerprint function is the parameter `hash`;
- the result of schema validation is the value `ParseResult`;
- the clock is `now`, in milliseconds;
- TOKEN_TIME is `ttl: Option<int>`, where `None` means unset or empty;
- the session validation is `hasSession`;
- the `enableSignup` configuration flag is a parameter;
- the user id and session id that the auth library generates are `userId` and `sessionId`.

The failures of collaborators are modelled as follows:

- Account creation fails iff the username, the email or the generated id is already in use.
- Membership creation fails iff the group does not exist (a foreign key).
- The token update fails iff no token has the given id.

JavaScript truthiness is kept: an empty `token` parameter, an empty `tokenId` and an empty
`groupId` all count as absent.

Behaviour of the code worth knowing:

- The membership is created before the token is redeemed.
- A failed membership insert is not logged. It lands in the catch-all and returns the
  username error, after the account and its session exist.
- The action is not gated by the page load. It never reads the `enableSignup` flag and
  never checks the invite again. On an invite-only instance, a direct form post without
  `tokenId` still creates an account, and on a store without users that account is ADMIN
  (`SignupProperties.NoInviteStillCreatesAccount`).
- The id of a token that is already redeemed, or has expired, is still accepted. Its
  group membership is added for the new account (`SignupProperties.RedeemedTokenReused`,
  `SignupProperties.AnswerIgnoresTokenState`).
- A stale `tokenId` (a token that no longer exists) creates the account and attaches
  the session, then fails at the redemption with the "already exists" message.

## Model

| member | source | states |
|---|---|---|
| SignupLoad.FindActive | src/routes/signup/+page.server.ts:20-29 | finds nothing iff no token has the fingerprint and is unredeemed; otherwise finds the first such token in table order |
| SignupLoad.Load | src/routes/signup/+page.server.ts:11-43 | a session gives a 302 redirect to `/`; with a token, the outcome is exactly one of: 400 not-found (no unredeemed match), 400 invalid (the first match is at or past its expiry), or the first match's id (before its expiry); without a token, 404 invite-only or open signup, following `enableSignup` |
| SignupLoad.LoadIgnoresConfigWithToken | src/routes/signup/+page.server.ts:19-42 | when a token is present, `enableSignup` does not affect the outcome |
| SignupLoad.LoadAcceptsUsableToken | src/routes/signup/+page.server.ts:33-36 | the first unredeemed match, presented before `createdAt + ttl * 3600000`, is accepted with its id |
| SignupLoad.LoadAcceptsFreshToken | src/routes/signup/+page.server.ts:33-36 | with TOKEN_TIME unset (72 hours), a token presented at its creation instant is accepted |
| SignupLoad.LoadRejectsAfter73Hours | src/routes/signup/+page.server.ts:33-38 | with a 72-hour lifetime, a token presented 73 hours after creation is refused with the invalid-invite 400 |
| SignupLoad.TtlHours | src/routes/signup/+page.server.ts:33 | the token lifetime in hours is TOKEN_TIME when it is set and 72 otherwise |
| SignupLoad.Expiry | src/routes/signup/+page.server.ts:33-34 | a token stops being accepted `ttlHours * 3600000` ms after its creation: 259200000 ms with TOKEN_TIME unset; the expiry lies after the creation instant iff the lifetime is positive |
| SignupAction.RoleFor | src/routes/signup/+page.server.ts:87 | the new account is ADMIN iff the user count read before it was 0 |
| SignupAction.GroupOf | src/routes/signup/+page.server.ts:64-73 | no group when no token has the id; otherwise the group of a token of the table with that id |
| SignupAction.SignupOutcome | src/routes/signup/+page.server.ts:45-123 | the new store and the response as a function of the store before the action: the response is success or a 400; an invalid form leaves the store as it was; no group is ever created or removed. Its further properties are the SignupProperties lemmas |
| SignupAction.RegisterOutcome | src/routes/signup/+page.server.ts:76-121 | the `try` block answers success or the single username error; a conflicting account leaves the store as it was; otherwise the store's users become the old users followed by the new account (ADMIN iff there were none), its session is appended to the old sessions and becomes the request's session |
| SignupAction.LinkOutcome | src/routes/signup/+page.server.ts:96-115 | after the session is attached, the membership and redemption steps answer success or the username error, never undo the user, the session or the request's session, and leave the tokens unchanged on failure |
| SignupAction.IssueErrors | src/routes/signup/+page.server.ts:52-57 | one error per validation issue, in order, carrying the issue's message; the field is the path's first segment, or undefined for an empty path |
| SignupAction.FindById | src/routes/signup/+page.server.ts:64-73 | finds nothing iff no token has the id; otherwise finds a token of the table with that id |
| SignupAction.MarkRedeemed | src/routes/signup/+page.server.ts:107-114 | the table keeps its length and every row's id, fingerprint, group and creation time; a row is redeemed afterwards iff it was before or its id is the given one |
| SignupAction.Store.CountUsers | src/routes/signup/+page.server.ts:61 | the number of users in the store, without changing it |
| SignupAction.Store.ReadTokenGroup | src/routes/signup/+page.server.ts:63-74 | the group of the token with the submitted id, or none when no such token exists, without changing the store |
| SignupAction.Store.CreateUser | src/routes/signup/+page.server.ts:77-89 | succeeds iff no user has the username, the email or the id; on success it appends exactly that user, and it changes nothing else |
| SignupAction.Store.CreateSession | src/routes/signup/+page.server.ts:90-93 | appends the session of the new user to the session table, and changes nothing else |
| SignupAction.Store.SetSession | src/routes/signup/+page.server.ts:94 | the request's session becomes the new session, and nothing else changes |
| SignupAction.Store.CreateMembership | src/routes/signup/+page.server.ts:96-104 | succeeds iff the group exists; on success it appends the active membership of that user in that group, and it changes nothing else |
| SignupAction.Store.RedeemToken | src/routes/signup/+page.server.ts:106-115 | succeeds iff a token has the id; on success the token table is its redemption, and nothing else changes |
| SignupAction.Store.Register | src/routes/signup/+page.server.ts:76-121 | the store and the response after the `try` block equal `RegisterOutcome` of the store before it |
| SignupAction.Store.Submit | src/routes/signup/+page.server.ts:45-123 | the store and the response after the action equal `SignupOutcome` of the store before it |
| SignupProperties.InvalidFormChangesNothing | src/routes/signup/+page.server.ts:51-59 | a form that fails validation gets a 400 with one error per issue (message, and the path's first segment as the field) and leaves the store unchanged |
| SignupProperties.DuplicateChangesNothing | src/routes/signup/+page.server.ts:76-121 | when the username, the email or the id is taken, the store is unchanged (no user, session, membership or redemption) and the answer is the single username error |
| SignupProperties.AccountAndSessionKept | src/routes/signup/+page.server.ts:61-121 | the answer is success or the username error; either nothing changed, or exactly one user was added (ADMIN iff the count read before was 0, otherwise USER) together with its session, which is also the request's session; those are kept when a later step fails, and then memberships and tokens are unchanged |
| SignupProperties.GroupReadImpliesToken | src/routes/signup/+page.server.ts:64-73 | a group is read only when a token with the submitted id exists |
| SignupProperties.SuccessEffects | src/routes/signup/+page.server.ts:63-115 | success iff the account can be created, the token's group (if any) exists and the given token id (if any) exists; on success exactly one active membership is added iff the token has a group, and the token table is the redemption of `tokenId` |
| SignupProperties.GroupOfUnique | src/routes/signup/+page.server.ts:64-73 | with unique token ids, the group read is the group of the one token that has the id |
| SignupProperties.TokensOnlyGainRedemption | src/routes/signup/+page.server.ts:106-115 | the token table keeps its length and every row's id, fingerprint, group and creation time; a row is redeemed afterwards iff it was before, or the action succeeded and the row has the submitted `tokenId` |
| SignupProperties.RedeemsExactlyThatToken | src/routes/signup/+page.server.ts:106-115 | with unique token ids, a success redeems the one row with `tokenId` and leaves every other row as it was |
| SignupProperties.FindByIdSameIds | src/routes/signup/+page.server.ts:64-73 | the id lookup gives the same answer and the same group on two tables that agree on ids and groups |
| SignupProperties.AnswerIgnoresTokenState | src/routes/signup/+page.server.ts:63-115 | the action's answer does not depend on the tokens' fingerprints, creation times or `redeemed` flags: expiry and prior redemption are not checked again |
| SignupProperties.AddUserKeepsUnique | src/routes/signup/+page.server.ts:77-89 | adding an account that conflicts with no existing one keeps ids, usernames and emails unique |
| SignupProperties.AddAccountKeepsLinked | src/routes/signup/+page.server.ts:77-104 | adding an account, its session and possibly its membership in an existing group keeps every reference valid |
| SignupProperties.MarkRedeemedKeepsIdsUnique | src/routes/signup/+page.server.ts:107-114 | redemption keeps token ids unique |
| SignupProperties.LinkOutcomeShape | src/routes/signup/+page.server.ts:96-115 | the steps after the session add at most one membership (of the new user, in an existing group) and change the tokens by at most one redemption |
| SignupProperties.SignupPreservesValid | src/routes/signup/+page.server.ts:45-123 | the action keeps the uniqueness of users and token ids and the validity of membership and session references |
| SignupProperties.FirstAccountIsAdmin | src/routes/signup/+page.server.ts:61-89 | starting from no users, the first successful signup creates an ADMIN and the second a USER |
| SignupProperties.InvitedSignupEffects | src/routes/signup/+page.server.ts:63-115 | with no users, a form carrying the id of an existing token whose group exists succeeds: it creates an ADMIN, attaches the session, adds the active membership and redeems exactly that token |
| SignupProperties.NoInviteStillCreatesAccount | src/routes/signup/+page.server.ts:45-123 | without a `tokenId`, on a store without users, a valid form succeeds, creates an ADMIN and attaches its session; no flag or invite is consulted |
| SignupProperties.RedeemedTokenReused | src/routes/signup/+page.server.ts:63-115 | the id of an already redeemed token whose group exists still succeeds, adds the active membership in that group, and leaves the token table unchanged |
| SignupProperties.InvitedFirstSignup | src/routes/signup/+page.server.ts:11-123 | end to end: the load accepts an unexpired, unredeemed invite and returns its id; the form posting that id back then has all the effects above |

## Left out

- `src/lib/server/image-util.ts` (image transcoding, file removal, URL parsing) and
  `src/lib/server/auth.ts` (configuration of the authentication library) are not part of
  this model. So is the list page `src/routes/lists/[id]/+page.server.ts`.
- The token fingerprint function, the signup validation schema, the configuration reader
  and the database client live in files that are not part of this model. The fingerprint
  is an arbitrary function parameter. The schema's verdict is an input. The store is the
  `Store` class.
- Password hashing and the credential table of the auth library are not modelled. The
  password is carried in `SignupData` but not stored. The credential's uniqueness on
  the username is covered by the username check.
- Account creation: a failure whose cause is not a conflicting username, email or id is
  not modelled. Session creation always succeeds.
- Membership creation and the token update: a failure for any other reason, such as a
  database error, is not modelled. The membership fails only on a missing group and the
  update only on a missing token id.
- A database error while counting users or reading the token's group falls outside the
  `try` block and is not modelled.
- The parsing of TOKEN_TIME with `Number.parseInt` is not modelled, including the NaN
  case. Neither are JavaScript `Date` objects or the precision of floating-point numbers
  above 2^53. The lifetime is an optional integer and times are integer milliseconds.
- `SignupLoad.FindActive`: the database query has no ordering, so when several
  unredeemed rows share a fingerprint the database's order decides which one is found.
  The model uses table order instead. `Valid` does not state that fingerprints are
  unique, so this choice matters only when they are not.
- Races between concurrent signups are not modelled: the count-then-create of the role
  choice and the check-then-redeem of the token. The model covers a single request.
- The request and response plumbing of the web framework is reduced to the outcome
  values `LoadOutcome` and `ActionResult`: form decoding, query-string parsing, and the
  mechanics of thrown redirects and errors.
- Validation paths are sequences of strings. Numeric path segments of the schema
  library are not distinguished.
