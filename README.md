# Auth service: session and token bookkeeping in Dafny

This project models the core of an authentication service (FastAPI, Postgres,
Redis). Three services are covered:

- `AuthService` registers users, logs them in, rotates refresh tokens and
  logs out one device or all devices.
- `RolesService` maintains roles and user-role links.
- `UserService` answers the login-history query and changes passwords.

The two stores are held abstractly:

- the **session index** (Redis): `SessionCache.entries`, a map
  `user id -> (user agent -> access token)`;
- the **database** (Postgres): `Database` holds the tables `users`, `roles`,
  `user_roles`, `account_history` and `refresh_tokens` (the refresh *ledger*)
  as sequences of rows in table order, plus a counter that generates the
  UUID primary keys.

The services are classes that hold the stores and update their fields in
place, in the same order as the Python code. Each `ensures` states the new
contents of every store in terms of the old contents. The pure updates and
queries the services run (first-row selects, `UPDATE ... SET is_active = false`,
`add_token`, the dictionary pop of `logout_me`, the role join, the
newest-first sort) are functions whose contracts state what they mean.
The session cache keeps one invariant, `SessionCache.Valid()`: no user key holds
an empty dictionary. `add_token` and the pop of `logout_me` preserve it, and so
do the four methods that write the cache. Lemmas relate several operations:

- logging a new device out undoes logging it in;
- deactivating a second time changes nothing;
- after a password change, `login` accepts the new password and rejects
  the old one.

Foreign code is abstracted:

- The password hash is a function-typed constant `hash`.
  `check_password_hash(h, p)` is `h == hash(p)`.
- A token is the record of the parameters it was created from. It carries a
  serial number from a counter in `AuthService`, so each created token has a
  larger serial than every token created before it.
- Refresh-JWT verification (signature, expiry and `type_token='refresh'`) is a
  boolean parameter `jwtValid` of `Refresh`. Only a token the service signed
  verifies, so `Refresh` requires that a verifying token is a refresh token
  whose serial is below the counter.
- The clock is a parameter `now` of `Login`. It becomes the `created_at` of
  the account-history row.

Behaviour of the code that the model keeps as written:

- `refresh` never reads `is_active` in the ledger. A refresh token that was
  already rotated or revoked is accepted again as long as its JWT verifies
  and its subject is an active user. There is no replay detection.
- The ledger row that `refresh` appends has no user agent, so a later
  `logout_me` for that device does not deactivate it.
- `logout_me` for an unknown user or device does not succeed silently. The
  `pop` raises, the handler returns `None` (`Failed`), and nothing is
  written.
- `__create_tokens` creates both tokens from `params_for_access`. As a
  result, the refresh token carries the user claims and the *access*
  lifetime, and `params_for_refresh` is built but never used
  (`Auth.AuthService.CreateTokens`).
- `create_user` creates the default `user` and `admin` roles before it checks
  the e-mail. A registration that is then refused with `CONFLICT` still
  leaves those roles behind.
- `models/entity.py` declares no `users.is_active` column, no
  `refresh_tokens.user_agent` column and no `UserRoles` model. The services
  read and write all three. The model follows the services: `User.isActive`
  and `RefreshRow.userAgent` are fields of the rows, and `UserRole` is a
  (user, role) pair. No default for `is_active` is visible, so the model
  creates new users as active.
- If no user has the e-mail given to `change_password`, the code reads
  `hash_password` of `None`, and no handler catches the exception. The
  model returns `Raised` and writes nothing.

## Model

| member | source | states |
|---|---|---|
| `Tables.UserIndex` | service_auth/src/services/auth.py:109-117 | the select by e-mail or id yields the first matching user row, or none exactly when no row matches |
| `Tables.RoleIndex` | service_auth/src/services/roles.py:17-23 | the select by role name yields the first role so named, or none exactly when no role has that name |
| `Tables.RolesOfUser` | service_auth/src/services/roles.py:114-120 | a role is in the join exactly when it is in `roles` and linked to the user by a `user_roles` row |
| `Tables.RoleNames` | service_auth/src/services/auth.py:200-202 | the roles claim holds exactly the names of the roles linked to the user |
| `Tables.Deactivate` | service_auth/src/services/auth.py:285-289 | the update keeps every row's user, token and agent; a row is active afterwards exactly when it was active and the WHERE clause does not select it |
| `Tables.DeactivateIdempotent` | service_auth/src/services/auth.py:307-311 | applying the same deactivation twice gives the same ledger as applying it once |
| `Tables.Rotated` | service_auth/src/services/auth.py:285-296 | every old row keeps its contents, except that a row holding the presented token becomes inactive; the new row is appended last; when it holds another token, no row holding the presented token is active |
| `Sessions.WithToken` | service_auth/src/services/auth.py:214-219 | `add_token` maps the user agent to the new token; the user's other devices and all other users are unchanged; it preserves the invariant that no user key holds an empty dictionary |
| `Sessions.WithoutAgent` | service_auth/src/services/auth.py:324-333 | popping the agent keeps every other device's entry; the user's key is deleted exactly when no device is left; other users are unchanged; it preserves the invariant that no user key holds an empty dictionary |
| `Sessions.WithoutAgentUndoesWithToken` | service_auth/src/services/auth.py:324-333 | logging out a device that was newly logged in restores the previous session index |
| `Auth.CheckUserExistActive` | service_auth/src/services/auth.py:102-124 | CONFLICT exactly when no user matches, BAD_REQUEST exactly when the first match is inactive, otherwise the first match, which is active |
| `Auth.LoginCheck` | service_auth/src/services/auth.py:183-198 | the login guard gives CONFLICT for an unknown e-mail, BAD_REQUEST for an inactive user, UNAUTHORIZED exactly when the salted password does not match the stored hash, and the user otherwise |
| `Auth.RefreshCheck` | service_auth/src/services/auth.py:248-262 | the refresh gate fails exactly when the JWT does not verify; otherwise it is the user check on the token's subject; it reads no ledger row |
| `Auth.AuthService.CreateTokens` | service_auth/src/services/auth.py:40-85 | two fresh tokens with subject = user id, the given claims, the access lifetime, both built from `params_for_access`, so the refresh token differs from one built from `params_for_refresh` |
| `Auth.AuthService.CreateRoles` | service_auth/src/services/auth.py:87-100 | appends the roles `user` and `admin` with fresh ids; no other table changes |
| `Auth.AuthService.CreateUser` | service_auth/src/services/auth.py:126-163 | the default roles are added first when `user` is missing; a taken e-mail gives CONFLICT and adds no user and no link; otherwise exactly one verified, active user with hash of SAULT + e-mail + password and a fresh id, and exactly one link to the first `user` role; the id counter advances by the roles and the user inserted |
| `Auth.AuthService.Login` | service_auth/src/services/auth.py:168-242 | on CONFLICT, BAD_REQUEST or UNAUTHORIZED neither store changes; on success the tokens carry subject = user id and claims {current roles, e-mail}, the session maps the user agent to the access token, and exactly one ledger row and one history row are appended |
| `Auth.AuthService.Refresh` | service_auth/src/services/auth.py:244-301 | a failed gate writes nothing; on success the ledger is rotated: no row holding the presented token is active, exactly one active row with the new refresh token and no user agent is appended, and the session maps the user agent to the new access token |
| `Auth.AuthService.LogoutAll` | service_auth/src/services/auth.py:303-316 | deletes the user's session key, makes every ledger row of the user inactive, changes no other user's rows or sessions, and returns success |
| `Auth.AuthService.LogoutMe` | service_auth/src/services/auth.py:318-349 | an absent user or agent returns None and writes nothing; otherwise only that agent's entry is removed (the key too when it was the last), and only the user's active rows for that agent are deactivated |
| `Passwords.RehashAcceptsOnlyNew` | service_auth/src/services/users.py:60-62 | the new salted hash accepts the new password and, for a collision-free hash, no other password |
| `Roles.RenameRoles` | service_auth/src/services/roles.py:59-63 | every role with the name gets the new description, and the new name only when it is non-empty; ids and all other rows are unchanged |
| `Roles.WithoutRolesNamed` | service_auth/src/services/roles.py:79 | exactly the roles with other names remain |
| `Roles.WithoutUserRole` | service_auth/src/services/roles.py:135-141 | exactly the links other than the given pair remain |
| `Roles.RolesService.CreateRole` | service_auth/src/services/roles.py:33-46 | an existing name returns None and leaves `roles` and the id counter unchanged; otherwise exactly one role with a fresh id is inserted and its name and description are returned |
| `Roles.RolesService.ChangeRole` | service_auth/src/services/roles.py:48-65 | an unknown name returns None and changes nothing; otherwise the renaming update is applied and success is returned |
| `Roles.RolesService.GetRoles` | service_auth/src/services/roles.py:67-73 | one (name, description) entry per role, in table order |
| `Roles.RolesService.DeleteRole` | service_auth/src/services/roles.py:75-81 | an unknown name returns None and changes nothing; otherwise every role so named is removed and success is returned |
| `Roles.RolesService.SetRoleToUser` | service_auth/src/services/roles.py:83-121 | a missing role, a missing user or an existing link returns None and inserts nothing; otherwise exactly one link is appended, and the result lists exactly the user's roles, including the new one |
| `Roles.RolesService.DeleteRoleToUser` | service_auth/src/services/roles.py:123-143 | a missing role or user returns None and changes nothing; otherwise the pair is removed and success is returned, whether or not it was linked |
| `Users.OwnViews` | service_auth/src/services/users.py:26-30 | a history view is selected exactly when some entry of that user produces it |
| `Users.SortNewestFirst` | service_auth/src/services/users.py:29 | the result is ordered by creation time, newest first, and is a permutation of the input |
| `Users.AccountHistory` | service_auth/src/services/users.py:26-37 | the history is newest first, is a permutation of the user's own entries, and holds a view exactly when some entry of that user produces it |
| `Users.LoginAfterPasswordChange` | service_auth/src/services/users.py:60-64 | after the rehash, the login guard accepts the new password and gives UNAUTHORIZED for any other password, for a collision-free hash |
| `Users.UserService.GetAccountHistory` | service_auth/src/services/users.py:21-37 | returns only the user's entries, all of them, newest first |
| `Users.UserService.ChangePassword` | service_auth/src/services/users.py:39-64 | a mismatching current password returns None and keeps the stored hash; a match stores the hash of SAULT + e-mail + new password and returns success; a missing user raises |

## Left out

- HTTP routers and handlers, cookie setting (`set_cookie` is not a parameter of `Login`), logging, and the `lru_cache` dependency factories. They are transport plumbing.
- Auth.AuthService.Refresh: the JWT library's promise that only tokens the service signed verify is stated as a precondition on `jwtValid` (a refresh token with a serial below the counter), not derived from a model of signing.
- JWT signing, signature checks and expiry. Verification is the parameter `jwtValid`. Token lifetimes are symbolic (`AccessLifetime`, `RefreshLifetime`), and the TTLs and time arithmetic are not modelled.
- Werkzeug's random per-hash salt. `generate_password_hash` is the deterministic function `hash`. Collision-freedom (`Passwords.Injective`) is required only by the lemmas that say an old password is rejected.
- The bodies of `DbService` and `RedisService`. They are not part of this model, so their behaviour is inferred from how they are called:
  - `simple_update` updates every matching row;
  - `add_token` sets one entry of the user's dictionary;
  - `get_user_roles` yields the names of the roles linked through `user_roles`.
- Redis TTLs and JSON serialisation. The `set` in `logout_me` rewrites the dictionary without a TTL; the model does not track expiry.
- Exceptions raised by the stores, and the writes that would stand before them. Concurrency and interleaving of the async calls. Only these failures are modelled: a JWT verification failure in `refresh` (caught, returns `None`) and the `logout_me` pop failure (caught, returns `None`), both before any write, and the uncaught exception in `change_password`.
- Foreign-key behaviour when `delete_role` removes a role that is still linked in `user_roles`. The model leaves the links in place.
- The `users.role_id` column and the `created_at`/`updated_at` columns other than `account_history.created_at`. No modelled operation reads them.
- Tables.UserIndex, Tables.RoleIndex: a select without ORDER BY returns its rows in an unspecified order, so the "first" row (`existing_user[0]`, `roles[0]`) is not determined by SQL. The model takes the first row in table order. This matters for roles, because `change_role` can give a role a name another role already has.
- Tables.RolesOfUser: SQL leaves the order of the joined rows unspecified, so only membership is stated; the model keeps table order.
- Users.SortNewestFirst: the order among entries with equal `created_at` is unspecified in SQL; the model fixes one and states only the ordering and the permutation.
- Users.OwnViews: states membership and not multiplicities; multiplicities follow because the result is a permutation of the filtered rows.
