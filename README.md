# Auth service of the AKH hospital system, modelled in Dafny

This project models the credential core of the AKH auth service (`auth.js`). There
are three HTTP handlers, all working on the Mongo `auth` collection:

- **register** (`POST /v1/user`) refuses a username or an email that is already
  taken. Otherwise it stores one new account with a salted bcrypt hash of the password.
- **login** (`POST /v1/login`) finds the account by username and compares the
  password. On success it answers with a welcome message, the JWT claims
  `{_id, username, roles}` (2-hour expiry) and a redirect URL chosen by the
  first role.
- **changePassword** (`POST /v1/authChange`) loads the account named by the
  token's `_id`, re-checks the old password and replaces the password field only.

Modules:

- `Passwords` (`passwords.dfy`): bcrypt as an abstract hash. A `Digest` stands for
  a salted hash. `Compare` accepts a digest for exactly the password it was made from.
- `AccountStore` (`store.dfy`): the account document, the three filters the
  handlers pass to `findOne`, `FindOne` as "first document in insertion order
  that the filter selects", and the table invariant. The invariant says ids are
  positions and usernames and emails are unique. Mongo's natural order is not
  guaranteed to be insertion order, but no contract depends on the choice:
  under the invariant the username and `_id` lookups match at most one
  document, and the `$or` lookup is only tested for existence.
- `Tokens` (`tokens.dfy`): the claims record a login signs, and the
  role-to-URL redirect table.
- `Auth` (`auth.dfy`): the class `AuthService`, which owns the table as a
  `seq<Account>` field and has one method per handler. Each method returns a
  `Response` (status and body). It ends with `NurseScenario`, a client that
  walks through register, duplicate register, wrong and right login, wrong and
  right password change, and login again. It shows what callers can prove from
  the handlers' contracts alone.

Parameters stand in for what the handlers get from their environment:

- the bcrypt salt (`salt`);
- the wall clock in milliseconds (`nowMs`), used as `created_at`, with JWT
  `iat = nowMs / 1000` (jsonwebtoken's default);
- whether a call inside the `try` block throws (`fault`). `LookupFault` is the
  first `findOne`. `CommitFault` is the work after every guard has passed:
  hashing plus `insertOne`, `jwt.sign`, or hashing plus `updateOne`. Both give
  the handler's 500 response and leave the table unchanged.

Where `res.send`/`res.json` is called without `res.status`, the status is
Express's default 200. In particular:

- A wrong login password gets status 200 "Not Allowed": auth.js:92 calls `res.send` without `res.status`.
- A password change for an id that is not in the table gets status 200 "User not found.": auth.js:115 calls `res.send` without `res.status`.
- Register stores whatever `roles` it is given, an empty list included: auth.js:26-48 does not check it.

## Model

| member | source | states |
|---|---|---|
| `Passwords.Hash` | auth.js:39-40 | the salted digest keeps its salt and is accepted by `Compare` for the hashed password and for no other password |
| `Passwords.Compare` | auth.js:68 | `bcrypt.compare` re-hashes the candidate with the salt embedded in the stored digest and accepts exactly when that reproduces the stored digest |
| `Auth.Welcome` | auth.js:86-87 | the login message is "Welcome ", then the account's username, then "!, You are logged in Successfuly ", so the username can be read back from it |
| `AccountStore.FindOne` | auth.js:31-33 | `findOne` returns nothing exactly when no document matches the filter; otherwise it returns the position of a matching document with no matching document before it |
| `AccountStore.AppendKeepsInvariant` | auth.js:31-50 | appending an account with the next id, whose username and email no document has, keeps ids equal to positions and keeps usernames and emails unique |
| `AccountStore.SetPasswordKeepsInvariant` | auth.js:129-134 | replacing one document's password keeps the table invariant |
| `AccountStore.FindByIdIsPosition` | auth.js:110-116 | in a table whose ids are positions, the `_id` lookup finds position `id` when `id` is below the length and nothing otherwise |
| `AccountStore.FindByUsernameIsUnique` | auth.js:62-64 | with unique usernames, the username lookup finds the one account carrying that username |
| `Tokens.IssueClaims` | auth.js:70-78 | the claims copy the account's `_id`, username and roles; `iat` is the second containing the current time and `exp` is 7200 s (2 h) later |
| `Tokens.RedirectFor` | auth.js:79-84 | the redirect is the table entry for `roles[0]`: clerk → `http://localhost:8080/v1/list/`, nurse → `http://localhost:8686/v1/rooms/`; any other first role, and an empty role list, give `""` |
| `Auth.AuthService.Register` | auth.js:25-56 | store error → 500 "Error creating user"; username or email taken → 409 "Username or email already exists."; otherwise 201 "User created" and exactly one account appended, with the input username, email and roles, the next id, `created_at` = now and the hash of the password as the only password record; every non-201 answer leaves the table unchanged; the invariant (unique usernames and emails) is kept |
| `Auth.AuthService.Login` | auth.js:59-98 | store error → 500; unknown username → 400 "Cannot find user"; wrong password → "Not Allowed" with status 200; failure while signing → 500; otherwise status 200 with the welcome message, the stored account's claims and the redirect for its roles; a token is issued only when a stored account with that username accepts the password; nothing is modified |
| `Auth.AuthService.ChangePassword` | auth.js:105-141 | store error → 500; id not in the table → "User not found." (200); wrong old password → 400 "Old password is incorrect."; failure while hashing or updating → 500; all of these leave the table unchanged; on success "Password changed successfully." and only that account's password is replaced: the new password then verifies, the old one (if different) no longer does, and every other field and every other account is unchanged |

## Left out

- Express setup, routing, `express.json()`, `app.listen` and the database connect/exit bootstrap (auth.js:1-22): I/O plumbing.
- bcrypt internals (`genSalt`, `hash`, `compare`): a foreign library. The salt is a parameter and the digest an abstract injective value. Real bcrypt reads only the first 72 bytes of a password, so `Passwords.Hash`'s "no other password is accepted" and `Auth.AuthService.ChangePassword`'s "the old password no longer verifies" hold in the service only for passwords that differ within their first 72 bytes. A malformed stored hash cannot occur in the model, so `compare` never throws.
- JWT encoding and signing, and the `JWT_SECRET` lookup (auth.js:70-78): a foreign library. A token is its claims record. A failure of `jwt.sign` (for example a missing secret) is the login's `CommitFault`.
- `verifyToken` (imported at auth.js:5) and `/v1/protected` (auth.js:100-102), and `verifyClerkRole` (imported only at wardmodule.js:16): the middleware module is not part of this model. The password change takes the id from claims the middleware has already verified.
- `ObjectId` conversion (auth.js:112, 132): ids are natural numbers equal to the document's position, so an unparsable id string cannot occur.
- `console.error` logging in the catch blocks: output only.
- The check-then-insert race in register (auth.js:31-50): the model is sequential. Concurrent registrations could both pass the check in the real service.
- Request bodies with missing or non-string fields: every field is a string and `roles` is a sequence of strings. In the service, register stores a missing or null `roles` unchecked (auth.js:26, 42-50), and every later correct-password login of that account then throws at `user.roles[0]` (auth.js:80), after `jwt.sign`, and answers 500 "An error occurred during login" (auth.js:96), so that account can never log in. An object `roles` is read through its `"0"` key (`{"0": "clerk"}` gets the clerk redirect), a string `roles` through its first character, and an object `username` is read by Mongo as a query operator document (auth.js:32, 64).
- Token revocation: previously issued claims are not affected by a password change; nothing in the source records tokens.
- wardmodule.js: only a database connection and a `save()` wrapper, with no logic of the auth core.
