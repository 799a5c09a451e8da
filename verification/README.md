# Refresh-token rotation in darklight-server, modelled in Dafny

The server keeps users in a document collection. Each user record holds a
name, an email, a password (hashed), an avatar, an account type
(`emailWithPassword` or `google`) and a list of refresh tokens that are
currently valid. The handlers in `controllers/users.js` register users, log
them in with a password or with Google, log them out, refresh their tokens,
check whether they are logged in, and return public profiles. Login and
refresh use *rotation*: the presented refresh token (the `jwt` cookie) is
consumed and a newly signed one is appended. A presented token that no user
holds counts as *reuse*, i.e. the token was stolen and replayed after it was
rotated out. Reuse revokes the user's tokens.

This project models every handler as a pure transition
`(store, request, oracles, issued tokens) -> Outcome(store', reply, cookie)`:

- `options.dfy`, `tokens.dfy`, `text.dfy`: `Option`, the token-list filter
  `Without`, and JavaScript's UTF-16 `length`.
- `users.dfy`: the user record and the collection. The collection is a
  sequence whose index is the user id, since records are only created and
  never deleted. `findOne` is "the first record in collection order that
  matches". The module also states the two invariants:
  - emails are unique;
  - each refresh token is held by at most one user.
- `rotation.dfy`: the rotation step shared by the two login handlers.
- `handlers.dfy`: the seven handlers.
- `server.dfy`: one entry point for all requests (`Handle`) and a run over a
  sequence of requests (`Run`).
- `invariants.dfy`: every handler keeps both invariants, provided the
  refresh token it signs is held by nobody yet, and so does every run whose
  signed tokens are new.
- `security.dfy`: properties that span several calls. These include
  "replaying a rotated-out token is reuse, and while it still verifies it
  wipes its owner's tokens" and
  the scenario register → login → logout.

The foreign calls are parameters:
- `bcrypt.compare` is `Oracles.passwordOk(user, password)`;
- `jwt.verify` (signature and expiry) is `Oracles.verify(token)`, which
  yields the user id carried in the token or nothing;
- each `jwt.sign` is a token in `Issued(access, refresh)` that the caller
  supplies.

JavaScript falsiness is modelled directly. A request field counts as missing
when it is the empty string. A cookie counts only when it is present and
non-empty (`HasJwt`).

Some behaviours of the code are easy to miss; the model follows the code as written:
- `handleRefreshToken` only *sets* status 401/403 and never sends a response
  on those paths (reply `StatusOnly`).
- On success, `handleRefreshToken` echoes the *presented* token in the body
  as `refreshToken`, not the new one; the new one travels only in the cookie.
- When a held token verifies to a different user id, the pruned list is
  *not* saved: the store is unchanged.
- An unknown email at login is answered with status 200 and an `err` body
  (`Failed(200, …)`), not with a not-found status.
- Login's reuse check asks only whether *some* user holds the presented
  token, not whether the logging-in user holds it.
- `checkLogin` sends nothing when the token verifies to a different id
  (reply `Silent`). When verification fails, the callback reads `data` of an
  undefined result and throws, so nothing is sent either (reply `Crashed`).
- `logout` with a token held by nobody dereferences a null record. This
  throws before anything is saved (reply `Crashed`, store unchanged).

## Model

| member | source | states |
|---|---|---|
| Tokens.Without | controllers/users.js:224 | the filtered list never contains the removed token, keeps exactly the other tokens with their multiplicities, and is shorter by the number of occurrences removed |
| Tokens.WithoutConcat | controllers/users.js:224-225 | filtering distributes over concatenation, so the remaining tokens keep their relative order |
| Tokens.WithoutAbsent | controllers/users.js:273 | filtering out a token the list does not hold returns the list unchanged |
| Tokens.WithoutIdempotent | controllers/users.js:273-282 | removing the presented token a second time changes nothing |
| Text.Utf16Length | controllers/users.js:26 | `password.length` counts UTF-16 code units: between one and two per character, zero exactly for the empty string |
| Text.Utf16LengthOfBmp | controllers/users.js:26 | for text made only of Basic Multilingual Plane characters, the length checked is the number of characters |
| Text.Utf16LengthAppend | controllers/users.js:26 | the JavaScript length of a concatenation is the sum of the lengths |
| Users.FindFirst | controllers/users.js:83 | `findOne` returns the first matching record: a returned record matches, nothing before it matches, and nothing is returned only when no record matches |
| Users.FindByEmail | controllers/users.js:32 | lookup by email finds the first record with that email, and finds nothing exactly when no record has it |
| Users.FindByToken | controllers/users.js:110 | lookup by refresh token finds the first record holding it, and finds nothing exactly when no record holds it |
| Users.EmailLookupUnique | controllers/users.js:152 | with unique emails, the record with a given email is the one lookup returns |
| Users.TokenLookupUnique | controllers/users.js:223 | with unique tokens, the holder of a token is the one lookup returns |
| Rotation.Rotate | controllers/users.js:102-120 | with no cookie the new list is the old list plus the new token; with a held cookie token it is the old list without that token, plus the new token; with an unheld cookie token (reuse) it is the new token alone; the new token comes last and no other token is added |
| Handlers.Register | controllers/users.js:18-70 | registration succeeds exactly when name, email and password are present, the password is at least 6 UTF-16 units long and no user has the email; each rejection carries its own message and leaves the store and cookie alone; success appends one `emailWithPassword` user holding only the new token and sets it as the cookie |
| Handlers.SignIn | controllers/users.js:95-132 | the authenticated user's token list is rotated, no other user and no other field changes, the reply is the stored profile with the access token, and the new refresh token is set as the cookie |
| Handlers.Login | controllers/users.js:73-137 | login succeeds exactly when email and password are present and the password check accepts the first user with that email; missing fields, unknown email and wrong password each yield their own status and message with the store unchanged and no cookie set; success rotates that user's tokens and changes nothing else |
| Handlers.GoogleLogin | controllers/users.js:141-215 | Google login succeeds exactly when email, name and avatar are present and the email does not belong to an `emailWithPassword` user; a rejection changes nothing; an unknown email gains a `google` user with an empty password and only the new token; a known `google` user is rotated like a credential login |
| Handlers.Logout | controllers/users.js:219-230 | logout succeeds exactly when some user holds the presented token; the holder loses every copy of it and nothing else changes; otherwise the handler crashes with the store unchanged |
| Handlers.GetUser | controllers/users.js:233-244 | never changes the store; returns the public profile of an existing id and fails with 400 otherwise |
| Handlers.Refresh | controllers/users.js:247-300 | no cookie: 401 with no change; an unheld token that verifies to an existing user wipes that user's tokens, and one that does not verify changes nothing; a held token that fails verification is removed and nothing is added; a held token verified for another id changes nothing; a held token verified for its holder is replaced by the new token, which becomes the cookie; on the no-cookie path status 401 is set and nothing is sent; every other path except the last sets status 403 and a clear-cookie header but sends nothing |
| Handlers.CheckLogin | controllers/users.js:302-326 | never changes the store or the cookie; answers `login:false` exactly when there is no cookie or nobody holds it; answers the holder's profile exactly when the token verifies to its holder; throws exactly when a held token fails verification; sends nothing exactly when a held token verifies to another id |
| Server.Handle | controllers/users.js:329-337 | no handler deletes a user or changes anything but token lists, and at most one user is added per request |
| Server.Run | controllers/users.js:329-337 | a run over any requests, each answered by the password check and token verification of its own moment, only appends users and changes only token lists |
| Invariants.TokenUpdateKeepsInv | controllers/users.js:120-121 | replacing one user's tokens by a selection of its own tokens and an unheld new token keeps both invariants and makes no other token held |
| Invariants.ShrinkKeepsInv | controllers/users.js:224-226 | replacing one user's tokens by a selection of its own tokens keeps both invariants and makes no token newly held |
| Invariants.AppendKeepsInv | controllers/users.js:40-55 | appending a user with an unused email whose only token is unheld keeps both invariants |
| Invariants.RegisterKeepsInv | controllers/users.js:32-55 | registration keeps emails and tokens unique and makes only the new token held |
| Invariants.LoginKeepsInv | controllers/users.js:83-121 | credential login keeps emails and tokens unique and makes only the new token held |
| Invariants.GoogleLoginKeepsInv | controllers/users.js:152-197 | Google login creates a user only for an unused email, so it keeps emails and tokens unique and makes only the new token held |
| Invariants.LogoutKeepsInv | controllers/users.js:222-226 | logout keeps both invariants, and every token held afterwards was held before |
| Invariants.RefreshKeepsInv | controllers/users.js:255-294 | every refresh branch keeps both invariants and makes only the new token held |
| Invariants.HandleKeepsInv | controllers/users.js:329-337 | whichever handler runs, both invariants survive and only the signed refresh token can become held |
| Invariants.RunKeepsInv | controllers/users.js:329-337 | a run of requests keeps both invariants when each signed refresh token is new and distinct from the others |
| Security.LoginRotatesOutPresented | controllers/users.js:102-120 | after a successful login the presented token is gone from the user's list and the new token is held by that user alone; on reuse the user holds only the new token |
| Security.ReplayedRefreshIsReuse | controllers/users.js:255-296 | a successful refresh makes the presented token held by nobody, so presenting it again is reuse: status 403 is set, no token becomes held, and, while the token still verifies to its owner, the owner's tokens are wiped and other users are untouched; once it no longer verifies, nothing changes |
| Security.InvalidRefreshIssuesNothing | controllers/users.js:273-286 | a token failing verification sets status 403 and a clear-cookie header but sends nothing; it is held by nobody afterwards, and no token becomes held |
| Security.GoogleCannotTakeOverPasswordAccount | controllers/users.js:164-167 | Google login for the email of a password account fails with 400 and changes nothing |
| Security.RegisterLoginLogout | controllers/users.js:40-229 | register, then log in with the registration cookie, then log out with the login cookie: each step rotates the single session token, and after logout the user holds none |

## Left out

- HTTP plumbing: routing, status-code shaping beyond the `Reply` tag, the error middleware's body format, cookie attributes (`httpOnly`, `secure`, `sameSite`, `maxAge`), and `asyncHandler`'s pattern of throwing after a response was sent.
- Password hashing and `bcrypt.compare`: hashing happens in a pre-save hook that is not part of this model. The record stores the password exactly as received, and the oracle decides whether a password matches.
- JWT signing, expiry and signature checks: these are foreign code, replaced by the oracles. Two tokens signed for the same user within the same second are equal in the real system, so "a signed token is held by nobody" is an assumption of the invariant lemmas, not a fact.
- MongoDB persistence, `_id` generation and string conversion: ids are positions in the collection. `getUser` takes an integer id, so an id that cannot be cast is not modelled.
- Asynchronous `jwt.verify` callbacks and races between concurrent requests for the same user: each handler is one atomic transition.
- Signing or storage failures (missing secrets, database errors): these are process-level faults with no effect on the model's state.
- Non-string request values (numbers, arrays, objects in the JSON body): every field is a string.
- Ill-formed UTF-16 text: a JavaScript string may hold a lone surrogate (the JSON escape `\ud800` yields one, and `length` counts it as 1). A Dafny string holds only Unicode scalar values, so such passwords, names, emails and tokens cannot be represented.
- The `Invalid user data` branch of `registerUser` and the final `else` of `loginUserWithGoogle`: `User.create` either returns the record or throws, so neither branch can be reached.
- `logout` with no cookie: the model treats an absent token as matching no record. How the database driver handles an `undefined` filter value is not modelled.
- `handleRefreshToken` when the reused token verifies to an id with no record: the callback throws an unhandled rejection, and the model records no change.
- The access token `checkLogin` signs before deciding whether to reply: it is never sent on the failing paths, so it is not modelled there.
