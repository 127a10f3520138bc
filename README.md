# Mini IAM API — a Dafny model of its user store and bearer-token guard

The service registers users, logs them in, issues HS256 session tokens (JSON Web
Tokens, RFC 7519) and protects routes with two decorators: `token_required`,
which reads the `Authorization` header and decodes the token, and
`roles_required`, which additionally demands one of a list of roles. This
project models that core in Dafny and proves what it guarantees.

- `wrappers.dfy` — `Option` and `Result`.
- `pystr.dfy` (module `PyStr`) — Python's `str.split(" ")` and `" ".join`, with
  the round trip between them; the guard's header parsing rests on these.
- `crypto.dfy` (module `Crypto`) — the foreign libraries as parameters: a
  `Hasher` (Werkzeug's salted hash and its check) and a `JwtCodec` (PyJWT's
  encode and decode at a clock reading). The properties the service relies on
  (`Sound`, `Discriminating`, `Faithful`) are ghost predicates that lemmas take
  as hypotheses; nothing is assumed globally. `Faithful` follows PyJWT's order
  of checks: a token read before its `iat` is refused as invalid, and only a
  token whose `iat` has been reached is reported expired once `exp` has passed.
- `config.dfy` (module `Config`) — the signing secret and the token lifetime in
  hours, fixed at start-up.
- `auth.dfy` (module `Auth`) — `utils/auth.py`: the token payload, the header
  parsing, `token_required` and `roles_required` as functions from header,
  settings and clock to an `Outcome`: `Admit(ctx)` (the handler runs with
  `current_user` and `user_roles` taken from `ctx`), `Deny(reason)` (401 or
  403 with its message), or `Raise(exception)` (a Python exception escapes the
  guard and Flask answers 500).
- `app.dfy` (module `App`) — `app.py`: the store as the `users` field of a
  `UserStore` class whose `Register` and `SeedDefaultAdmin` methods append in
  place, each proved against a function (`Registration`, `Seeded`) on which
  the properties are stated; `Login`, the user listing and its admin-only
  route are functions of the list.
- `scenarios.dfy` (module `Scenarios`) — register-then-login, expiry,
  duplicate registration, a new user against the user and admin routes, the
  seeded admin, and role snapshots.

Header handling follows the code rather than its comment. The comment says the
header is expected to be `Bearer <token>`, but the code does something else:

- the token is the second field of `header.split(" ")`;
- the first word is never compared with `Bearer` (`Auth.SchemeNotChecked`);
- a second space, or the end of the header, directly after the first word
  leaves an empty token field, which is answered as a missing token
  (`Auth.GuardReadsSecondField`);
- a header without any space (including an empty one) raises `IndexError`
  instead of answering 401 (`Auth.TokenRequired`).

Likewise, a validly signed token that lacks the `sub` or `roles` claim makes
`data['sub']` or `data['roles']` raise `KeyError`. Only PyJWT's exceptions are
caught, so this also escapes the guard (`Auth.DecodedOutcome`).

Clock readings are whole seconds, as PyJWT stores `iat` and `exp`. The
`generate_jwt` function reads the clock twice, once for `iat` and once for
`exp`, so the model takes the two readings separately. `exp > iat` is proved
only when the lifetime is positive and the clock did not go backwards between
the two readings.

## Model

| member | source | states |
|---|---|---|
| PyStr.Split | utils/auth.py:24 | `split(" ")` yields one field more than the header has spaces, and no field contains a space |
| PyStr.JoinSplit | utils/auth.py:24 | joining the fields of a split with single spaces gives back the original header |
| PyStr.SplitJoin | utils/auth.py:24 | splitting space-free fields joined by single spaces gives back those fields |
| PyStr.SecondFieldAfterFirstSpace | utils/auth.py:24 | the second field of `word + " " + token + tail` is `token` whatever the first word, when `tail` is empty or starts with a space |
| Auth.GuardStatuses | utils/auth.py:26-48 | every rejection by the authentication check answers 401; a 403 from the role gate comes only after authentication succeeded; every other rejection by the role gate is the authentication check's 401 |
| Auth.IssuePayload | utils/auth.py:10-15 | `sub` is the username and `roles` the user's roles at issue time; `iat` is the first clock reading and `exp` the second reading plus the lifetime; `iat < exp` when the lifetime is positive and the clock did not go back |
| Auth.GenerateJwt | utils/auth.py:8-16 | the token is the encoding of that payload under the secret; with a compact codec it is non-empty and holds no space |
| Auth.ExtractToken | utils/auth.py:22-24 | no header gives no token; a header raises `IndexError` exactly when it holds no space; otherwise the token is a space-free field |
| Auth.DecodedOutcome | utils/auth.py:29-38 | an expired signature, and only that, gives "Token has expired!"; any other decode failure, and only that, gives "Invalid token!"; a valid token runs the handler with `sub` and `roles` exactly when both claims are present, and otherwise raises `KeyError` |
| Auth.TokenRequired | utils/auth.py:18-39 | no `Authorization` header gives "Token is missing!" without running the handler; a header with no space raises `IndexError`; the guard never answers 403 |
| Auth.AnyRoleHeld | utils/auth.py:47 | true iff some required role is among the held roles |
| Auth.RolesRequired | utils/auth.py:41-51 | the handler runs iff authentication succeeds and some required role is held; 403 comes iff authentication succeeded and no required role is held; every other answer is the authentication answer; an empty required list never runs the handler |
| Auth.GuardReadsSecondField | utils/auth.py:22-36 | for `word + " " + token + tail`, the guard decodes exactly `token`, and an empty token field answers "Token is missing!" |
| Auth.SchemeNotChecked | utils/auth.py:24 | two headers that differ only in their space-free first word get the same answer, whatever follows the first space |
| Auth.IssuedTokenAdmitted | utils/auth.py:8-38 | with a compact codec that accepts its own tokens until expiry, an issued token is accepted from `iat` until before `exp`, with the subject and roles it was issued with |
| Auth.IssuedTokenExpired | utils/auth.py:13-34 | with a faithful codec, an issued token is refused as expired once `exp` has passed and `iat` has been reached, also by a role gate with any required list |
| Auth.IssuedTokenImmature | utils/auth.py:11-36 | a token read before its `iat` is refused with "Invalid token!", not as expired, even when its `exp` has also passed, also by a role gate with any required list |
| App.Registration | app.py:33-57 | blank fields give 400 and a taken name 409, both leaving the store unchanged; otherwise the reply carries the name and exactly one record (name, hash of the password, roles `["user"]`) is appended after the unchanged old records; unique usernames stay unique |
| App.UserStore.Register | app.py:42-55 | the in-place append leaves reply and store as `Registration` says, and keeps usernames unique |
| App.Seeded | app.py:115-127 | a non-empty store is left alone; an empty one ends with exactly one record, `admin`, holding the given hash and roles `["user","admin"]` |
| App.UserStore.SeedDefaultAdmin | app.py:115-127 | it acts iff the store was empty, and leaves the store that `Seeded` gives |
| App.FindUser | app.py:69 | nothing is found iff no record has the name; otherwise the result is the first record with that name |
| App.Login | app.py:59-76 | blank fields, and only they, give 400; an unknown name gives 401; for the first record with the name, the login succeeds iff the password checks against its hash, and the token is then issued for that record's name and roles; a login never answers 409 |
| App.PublicView | app.py:104 | the listing has the store's length and order, each entry holding exactly that record's username and roles |
| App.PublicViewIgnoresHashes | app.py:103-104 | stores that differ only in password hashes give the same listing |
| App.GetAllUsers | app.py:98-105 | the listing is returned iff the caller authenticates and holds `admin`; otherwise the reply is the role gate's answer |
| Scenarios.RegisterThenLogin | app.py:33-76 | registering an unused name and logging in with the same password yields the token issued for that name with roles `["user"]` |
| Scenarios.WrongPasswordLooksLikeUnknownUser | app.py:69-72 | a wrong password for a registered name and any password for an unknown name get the same 401 |
| Scenarios.RegisterTwice | app.py:42-55 | a second registration of a name answers 409, changes nothing, and the store holds exactly one record with that name |
| Scenarios.NewUserScenario | app.py:78-96 | a new user's fresh token opens the user-data route with the user's name and role `user`, and the admin panel answers 403 |
| Scenarios.SeededAdminLogsIn | app.py:115-127 | the seeded `admin` account logs in with the seeding password |
| Scenarios.SeededAdminScenario | app.py:98-127 | the seeded admin's token opens the user listing, which lists exactly `admin` with roles `["user","admin"]` |
| Scenarios.OneHourLifetime | app.py:15 | under the application's settings (one-hour lifetime), a token issued at clock `t` is accepted at `t + 3599` and refused as expired at `t + 3601`, by the guard and by any role gate |
| Scenarios.RolesAreSnapshot | utils/auth.py:10-12 | a token issued with `admin` opens the admin listing until it expires, whatever the store holds by then |

## Left out

- Flask routing, `request.get_json`, `jsonify`, `app.run` and the `/` route: requests are plain arguments and replies are datatypes. A body that is not a JSON object is not modelled.
- The bodies of `get_user_data` and `get_admin_panel`: only the guards in front of them are modelled, as `TokenRequired` and `RolesRequired(["admin"])`.
- `load_users` and `save_users`: the file is the in-memory `users` list. Concurrent requests and torn writes are not modelled.
- Request fields that are JSON values other than strings (numbers, lists): fields are `Option<string>`, and Python's `not field` is `Blank`.
- Werkzeug's PBKDF2 hashing: a `Hasher` parameter with an explicit salt argument.
- PyJWT's encoding, decoding and HMAC-SHA256: a `JwtCodec` parameter. What happens exactly at `now == exp` is left open.
- Signature integrity is not modelled. Nothing is stated about tokens the codec did not produce, such as a token with a flipped bit.
- Tokens issued at different instants are not proved to be distinct. The codec is not assumed injective, and `iat` has one-second resolution, so two logins in the same second with the same roles give the same payload.
- Claims of the wrong type (for example a `roles` claim that is a string rather than a list) are not modelled.
- `datetime` clock reads: the clock is an integer argument in seconds.
- `config.py` and environment loading: the secret and the lifetime are a `Settings` value.
- Console output and the hard-coded default admin password: the seeding password is an argument.
- `Auth.TokenRequired`: its own contract states only the header-level cases. Its full behaviour on well-formed headers is stated by `Auth.GuardReadsSecondField` and `Auth.DecodedOutcome`.
