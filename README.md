# TeleLogin login confirmation, modelled in Dafny

TeleLogin lets a web client log in only after the user approves the login in Telegram.
This project models the logic behind that handshake, one call at a time, over an in-memory store:

- **Registration tokens** (`TokenEngine`). A table from token string to record. Issuing stores an unused
  record with an expiry. Verifying checks four things in order: the token exists, its type, the `used`
  flag, and the expiry. A token that passes is marked used, so it verifies at most once. The module also
  builds the Telegram deep link that carries the token.
- **The store** (`Storage`). Two tables:
  - `users`: an AUTOINCREMENT id from 1, a UNIQUE username and a non-unique `telegram_id`;
  - `login_requests`: rows keyed by a text id, with status and session token.

  The SQL statements become functions on these tables. The class `SQLiteDatabase` holds the tables as
  fields and its methods update them in place.
- **The user service** (`Accounts`). Registration refuses a taken username. Linking refuses a Telegram id
  that another user already holds. Both checks run before the write.
- **The login state machine** (`Auth`). `start_login` needs a user with a truthy Telegram id. `confirm_login`
  acts only on a pending request. It denies a request confirmed from the wrong Telegram id and approves one
  confirmed from the owner's id. Approval returns a session token. `get_login_status` returns only the status.
- **Runs of calls** (`Handshake`). Any sequence of registrations, links, login starts and confirmations
  keeps the store's invariants. In any such run a decided request never changes again, and a request hands
  out a session token at most once. A few concrete scenarios, one of them taken from the repository's
  tests, are written as verified methods over the service objects, whose assertions Dafny proves.

Other modelling choices:

- Instants are integer seconds passed in as `now`.
- Random values (`secrets.token_urlsafe`, `uuid.uuid4`) are values the caller passes in.
- `create_access_token` is a caller-supplied function `sign` of the claims `sub` and `user_id`.
- Status values stay strings, as in the source.

The code differs from what such a protocol might be expected to do, and the model follows the code:

- Verification rejects a token only when `now > expires_at` (strict). At the expiry instant itself
  verification succeeds, although `RegistrationToken.is_expired` already holds then.
  `VerifyAtExpiryInstant` shows this. `IssueThenVerify` shows that a zero-minute token verifies when the
  verification's clock reading is identical to the issue's. In the code the two readings of `datetime.now()`
  are microsecond instants, so a later verification normally reads a later instant and rejects the token.
- Approval stores no session token on the request. A status read returns only `{status}`.
- No operation expires a login request or denies one directly.
- `update_login_status` does not check the current status. The one-way movement of statuses comes from
  `confirm_login`'s own pending check.

## Model

| member | source | states |
|---|---|---|
| TokenModels.NewRegistrationToken | src/models/token.py:8-15 | a new token keeps the given fields and starts unused, so at every instant it is valid exactly when it is not expired |
| TokenModels.ValidityVersusExpiry | src/models/token.py:17-23 | `is_valid` is "not used and now < expires_at"; `is_expired` is "now >= expires_at"; a used token is never valid; valid implies not expired; for an unused token the two are complements |
| TokenModels.PendingStatuses | src/models/token.py:33-35 | `is_pending` holds exactly for status "pending"; approved, denied and expired are not pending |
| UserModels.NewUser | src/models/user.py:9-15 | a new user has the given id and username, no Telegram id (so is not linked), and no creation or link time |
| UserModels.LinkedIffTelegramId | src/models/user.py:17-19 | `is_linked` holds exactly when a Telegram id is present, even when that id is 0 |
| TokenEngine.Issue | src/services/token_service.py:26-35 | the dictionary assignment: the table gains or replaces only the entry of the new token, a record for that user, of type "registration", unused, expiring `minutes*60` seconds after `now`; every other entry stays |
| TokenEngine.IssueTableSize | src/services/token_service.py:29-34 | issuing an absent token value grows the table by one; re-issuing a present one keeps its size |
| TokenEngine.ReissueRevivesToken | src/services/token_service.py:29-35 | the dictionary assignment overwrites: re-issuing a used token value clears its flag, so it verifies twice |
| TokenEngine.RejectionOrder | src/services/token_service.py:45-60 | an absent token fails as not found, then a wrong type as wrong type, then a used one as used, and only then an expired one as expired |
| TokenEngine.CheckVersusIsValid | src/services/token_service.py:58-60 | verification succeeds exactly when the token exists, has the registration type, and is either `is_valid` or unused at exactly its expiry instant; on success it yields the stored user id |
| TokenEngine.VerifyAtExpiryInstant | src/services/token_service.py:58-60 | at `now == expires_at` the token is already `is_expired` and not `is_valid`, yet verification succeeds |
| TokenEngine.Check | src/services/token_service.py:45-60 | the four tests pass exactly when the token is present, of type "registration", unused, and `now` is not past its expiry; passing yields the stored user id |
| TokenEngine.Verify | src/services/token_service.py:43-69 | a failed verification returns nothing and leaves the table unchanged; a successful one returns the stored user id and rewrites only that record's `used` flag to true |
| TokenEngine.IssueThenVerify | src/services/token_service.py:20-65 | a token just issued verifies to its user at any instant up to and including its expiry |
| TokenEngine.IssueThenVerifyLate | src/services/token_service.py:58-60 | after its expiry instant a just-issued token is rejected as expired |
| TokenEngine.VerifyConsumes | src/services/token_service.py:54-63 | after one successful verification every later one fails as already used and changes nothing |
| TokenEngine.AtMostOneSuccess | src/services/token_service.py:54-63 | in any run of issues with fresh token values and verifications, a token verifies successfully at most once, and never after it has been used |
| TokenEngine.CreateTelegramLink | src/services/token_service.py:71-77 | the link is `https://t.me/` + bot + `?start=` + token + `&startattach=reply`; the bot is the given one or else the configured one; the start parameter read back from the link is the token |
| TokenEngine.LinkInjective | src/services/token_service.py:71-77 | for a given bot, distinct tokens give distinct links |
| TokenEngine.TokenService.constructor | src/services/token_service.py:17-18 | the service starts with an empty table |
| TokenEngine.TokenService.GenerateRegistrationToken | src/services/token_service.py:20-37 | returns the supplied token and stores its record under it (expiry defaults to 30 minutes); the new table is `Issue` of the old one |
| TokenEngine.TokenService.VerifyRegistrationToken | src/services/token_service.py:39-69 | on success returns the stored user id and only that record becomes used; on failure returns nothing and the table is unchanged |
| Storage.FirstMatch | src/database/sqlite.py:60-86 | the first id in ascending order whose row satisfies the WHERE clause, with no matching row before it; nothing exactly when no row in the range matches |
| Storage.SelectUser | src/database/sqlite.py:60-86 | a lookup returns a row exactly when one matches; the row returned is a stored row that matches and has the smallest such id |
| Storage.SelectByUsername | src/database/sqlite.py:60-72 | since usernames are unique, the lookup by username returns the one row with that name |
| Storage.InsertUser | src/database/sqlite.py:48-58 | fails with a UNIQUE violation, changing nothing, exactly when the username is taken; otherwise stores a row under the next id with no Telegram id, advances the counter, keeps the table's constraints, and returns `User(id, username)` |
| Storage.SetTelegramId | src/database/sqlite.py:88-96 | only the row with that id changes, and only its `telegram_id` and `linked_at`; an unknown id changes nothing; the table's constraints are kept |
| Storage.LinkThenSelect | src/database/sqlite.py:88-96 | after a link, the lookup by that Telegram id finds a row; it is the linked user when no smaller id already holds the id |
| Storage.SharedTelegramIdAllowed | src/database/sqlite.py:25 | nothing in the table stops two users holding the same Telegram id; the lookup then returns the one with the smaller id |
| Storage.InsertLoginRequest | src/database/sqlite.py:98-107 | adds exactly the new id, as a pending row for that user with no session token, and leaves every other row as it was |
| Storage.Truthy | src/database/sqlite.py:126 | Python truthiness of the optional session token: false for None and for the empty string, true for every non-empty string |
| Storage.SetLoginStatus | src/database/sqlite.py:123-137 | sets the status whatever it was; overwrites the session token only when a non-empty one is given; changes no other row; an unknown id changes nothing |
| Storage.StatusUpdateUnchecked | src/database/sqlite.py:123-137 | even an approved request can be set back to pending by the update, and its stored token is kept |
| Storage.SQLiteDatabase.constructor | src/database/sqlite.py:15-16 | the store starts with both tables empty and the id counter at 1 |
| Storage.SQLiteDatabase.CreateUser | src/database/sqlite.py:48-58 | the new users table and the result are those of `InsertUser`; login requests are untouched |
| Storage.SQLiteDatabase.GetUserByUsername | src/database/sqlite.py:60-72 | returns a user exactly when the username is taken, and then the stored row with that name |
| Storage.SQLiteDatabase.GetUserByTelegramId | src/database/sqlite.py:74-86 | returns a user exactly when some row holds that Telegram id, and then the stored row with the smallest such id |
| Storage.SQLiteDatabase.LinkTelegramId | src/database/sqlite.py:88-96 | always reports success, even for an unknown user id; the users table becomes `SetTelegramId` of the old one |
| Storage.SQLiteDatabase.CreateLoginRequest | src/database/sqlite.py:98-107 | returns the fresh id and inserts a pending row for the user under it; users are untouched |
| Storage.SQLiteDatabase.GetLoginRequest | src/database/sqlite.py:109-121 | returns the stored row exactly when the id is known, and that row carries the id |
| Storage.SQLiteDatabase.UpdateLoginStatus | src/database/sqlite.py:123-137 | always reports success; the requests table becomes `SetLoginStatus` of the old one |
| Accounts.Register | src/services/user_service.py:18-34 | gives no user and changes nothing exactly when the username is taken; otherwise returns an unlinked user with that name under the next id, adds only that row (the username, no Telegram id, `created_at` now, no `linked_at`), advances the id counter, and keeps Telegram ids unique |
| Accounts.RegisterTwice | src/services/user_service.py:22-31 | registering the same username again returns nothing and changes nothing |
| Accounts.RegisterDistinct | src/services/user_service.py:18-31 | two different free usernames both register, under different ids |
| Accounts.Link | src/services/user_service.py:48-64 | a refused link changes nothing; an accepted one is the store's link of that user and Telegram id |
| Accounts.LinkRefusedIff | src/services/user_service.py:53-57 | while Telegram ids are unique, linking is refused exactly when a different user already holds the id |
| Accounts.LinkKeepsTelegramIdsUnique | src/services/user_service.py:53-61 | linking keeps every Telegram id with at most one user |
| Accounts.RelinkSamePair | src/services/user_service.py:55-61 | re-linking a user to the id it already holds succeeds and changes only that row's `linked_at` |
| Accounts.UserService.constructor | src/services/user_service.py:15-16 | the service works on the given store |
| Accounts.UserService.CreateUser | src/services/user_service.py:18-34 | the result and the new users table are those of `Register`; login requests are untouched |
| Accounts.UserService.GetUser | src/services/user_service.py:36-40 | the read-only lookup by username: a user exactly when the name is taken, and then the stored row |
| Accounts.UserService.GetUserByTelegram | src/services/user_service.py:42-46 | the read-only lookup by Telegram id: a user exactly when some row holds the id, and then a stored row holding it |
| Accounts.UserService.LinkTelegram | src/services/user_service.py:48-64 | the result and the new users table are those of `Link`; Telegram-id uniqueness is preserved |
| Auth.TelegramIdTruthy | src/services/auth_service.py:31-33 | the login check `not user.telegram_id` accepts only linked users, accepts every non-zero Telegram id, and refuses a user linked to Telegram id 0 though `is_linked` holds |
| Auth.StartStep | src/services/auth_service.py:20-44 | creates nothing unless some user has that username and a truthy Telegram id; then adds exactly one pending request under the fresh id, owned by that user, with no session token, and answers pending with that id |
| Auth.ConfirmStep | src/services/auth_service.py:46-80 | an unknown or non-pending request gets no answer and no change; a pending one becomes approved when the answer is a session token and denied otherwise; the approved answer is "authenticated" with a token minted for the owner, whose Telegram id is the confirming one; no other request and no stored token changes |
| Auth.ConfirmApprovesIff | src/services/auth_service.py:62-70 | while Telegram ids are unique, a pending request is approved exactly when the confirming id is the one its owner holds |
| Auth.ConfirmTwice | src/services/auth_service.py:57-59 | a second confirmation of the same request, with any Telegram id, gets no answer and changes nothing |
| Auth.StatusOf | src/services/auth_service.py:82-91 | an answer exactly for a known request, carrying only its stored status |
| Auth.ApprovedThenStatus | src/services/auth_service.py:70-91 | after an approval the status read shows "approved" and the stored session token is unchanged |
| Auth.AuthService.constructor | src/services/auth_service.py:16-18 | the service works on the given store |
| Auth.AuthService.StartLogin | src/services/auth_service.py:20-44 | the answer and the new requests table are those of `StartStep`; users are untouched |
| Auth.AuthService.ConfirmLogin | src/services/auth_service.py:46-80 | the answer and the new requests table are those of `ConfirmStep`; users are untouched |
| Auth.AuthService.GetLoginStatus | src/services/auth_service.py:82-91 | an answer exactly for a known request, carrying only its stored status |
| Handshake.Step | src/services/auth_service.py:20-80 | every service call (login starts and confirmations here, registrations and links of src/services/user_service.py:18-64) keeps the table constraints, Telegram-id uniqueness, only the statuses pending, approved and denied, and no stored session token |
| Handshake.Run | src/services/auth_service.py:20-80 | a whole run of such calls, through both services (src/services/user_service.py:18-64 too), keeps that invariant |
| Handshake.StepKeepsDecided | src/services/auth_service.py:57-70 | no call removes a request, and no call changes a decided one |
| Handshake.DecidedRequestsFrozen | src/services/auth_service.py:57-70 | over any run a request stays present, a decided one stays exactly as it was, and one pending at the end was pending at the start |
| Handshake.AtMostOneApproval | src/services/auth_service.py:57-70 | over any run a request hands out a session token at most once, and never once it is decided |
| Handshake.StatusReadsCarryNoToken | src/services/auth_service.py:86-91 | in every reachable store a status read shows one of the written statuses, and the request holds no session token |
| Handshake.StartRefusedAfterRegister | src/services/auth_service.py:20-33 | a user who has only just registered has no Telegram id, so a login start for that name creates nothing and answers nothing |
| Handshake.RegisteredAlice | tests/test_auth.py:16-18 | the test's setup with its own values and through the user service rather than the store: registering "alice" twice leaves exactly one user, id 1, and linking her to 111 gives her that Telegram id |

Three scenario methods work over one store that keeps its rows between calls, as a database file does.
Each states its expected answers as assertions, which Dafny proves:

- `Handshake.ConfirmedLoginScenario`, with the `RegisteredAlice` setup, restates `test_confirm_login` of
  tests/test_auth.py:27-48 with its own values.
- `Handshake.RegistrationTokenScenario` is the model's own scenario for the verification of
  src/services/token_service.py:39-65: one success, then refusal of the replay. No test of the repository
  covers the token service.
- `Handshake.WrongTelegramIdScenario` is the model's own scenario for the denial branch of
  src/services/auth_service.py:62-67. No test of the repository confirms from a wrong Telegram id.

The views `TokenEngine.AsRegistrationToken` and `Storage.LoginRow.AsRequest` carry no contract and have no
row. They exist only so that the dataclass predicates `is_valid`, `is_expired` and `is_pending` can be
stated of stored data. The source never builds these dataclasses from what it stores: the token service
keeps plain dictionaries and the store returns `dict(row)`.

## Left out

- SQL, aiosqlite, connections and `init_db` (src/database/sqlite.py:18-46): the tables are values. The
  indexes have no semantics of their own. The model starts from the store `init_db` creates in a new
  database file: both tables empty.
- An existing database file: `CREATE TABLE IF NOT EXISTS` keeps its rows, and the model does not start
  from such a store.
- The `":memory:"` path used by tests/test_auth.py:11,30: every store method opens its own connection
  (src/database/sqlite.py:20,50,62,76,90,101,111,125), and each in-memory connection is a new, empty
  database. The tables `init_db` creates are therefore gone at the next call, which fails with "no such
  table". The model's single store that keeps its rows between calls matches a file path only.
- SQLite's 64-bit INTEGER range: binding a `telegram_id` outside it raises OverflowError. `link_telegram`
  then returns False (src/services/user_service.py:62-64), where `Accounts.Link` links the id.
  `confirm_login` raises at src/services/auth_service.py:62, before writing, and leaves the request
  pending, where `Auth.ConfirmStep` denies it. `start_login` takes no Telegram id and is unaffected.
- The abstract interface src/database/base.py is not part of this model; it has no behaviour.
- `secrets.token_urlsafe`, `uuid.uuid4` and `datetime.now()`: these are parameters. Times are whole seconds,
  not microsecond datetimes. Two readings in the same second are therefore the same instant: a zero-minute
  token verified in the second of its issue succeeds in the model, where the code, whose second reading
  is normally a later microsecond, rejects it.
- Storage.SQLiteDatabase.CreateLoginRequest: requires an id not yet in the table, standing for uuid4's
  uniqueness. The primary-key error a collision would raise is not modelled.
- The foreign key from `login_requests.user_id` to `users` is not enforced. SQLite leaves it off by
  default, so any user id is accepted.
- src/utils/crypto.py is not part of this model. The JWT (its signing, its claims' expiry, verification)
  is the opaque `sign` argument. Password hashing is unused.
- `AuthService.token_service` is created but never used, so the model omits it.
- The `except Exception` branches of `verify_registration_token` and `link_telegram`: nothing in the
  model raises, so those branches cannot be reached. `UserService.create_user` still maps the store's
  UNIQUE failure to None.
- Logging, configuration (`settings.BOT_USERNAME` becomes the `configuredBot` argument), the FastAPI
  routes, src/app.py, src/bot.py, the example clients and the pydantic schemas: the username length of
  3 to 50 is not enforced.
- The Telegram notification commented out in `start_login` is not modelled.
- Concurrency: each check-then-write sequence of the services is one atomic step. The races between
  `await`s are not modelled.
- Behaviour the code does not have is not modelled: expiry of login requests, a separate deny operation,
  storing a session token on approval, and a session token in the status answer.
- Storage.SelectUser: for rows sharing a Telegram id, `fetchone` is taken to return the smallest id
  (rowid order). SQL itself promises no order without ORDER BY.
