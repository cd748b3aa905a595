/**
 * The Postgres tables the services read and write (`users`, `roles`,
 * `user_roles`, `account_history`, `refresh_tokens`), held abstractly as
 * sequences of rows in table order, and the selects and updates the services
 * run on them.
 */
module Tables {
  import opened Common
  import opened Tokens

  datatype User = User(
    id: UserId,
    firstName: string,
    lastName: string,
    email: string,
    hashPassword: string,
    verified: bool,
    isActive: bool)

  datatype Role = Role(id: RoleId, name: string, description: string)

  /** A `user_roles` row linking a user to a role. */
  datatype UserRole = UserRole(userId: UserId, roleId: RoleId)

  /** An `account_history` row; `createdAt` is the insertion time. */
  datatype HistoryEntry = HistoryEntry(userId: UserId, userAgent: Agent, createdAt: int)

  /** A `refresh_tokens` row; rows written by a refresh carry no user agent. */
  datatype RefreshRow = RefreshRow(userId: UserId, userToken: Token, isActive: bool, userAgent: Option<Agent>)

  /** The database. `nextId` generates the UUID primary keys: every key in use is below it. */
  class Database {
    var users: seq<User>
    var roles: seq<Role>
    var userRoles: seq<UserRole>
    var accountHistory: seq<HistoryEntry>
    var refreshTokens: seq<RefreshRow>
    var nextId: nat

    ghost predicate Valid()
      reads this
    {
      && (forall u :: u in users ==> u.id < nextId)
      && (forall role :: role in roles ==> role.id < nextId)
      && (forall link :: link in userRoles ==> link.userId < nextId)
    }

    constructor ()
      ensures Valid()
      ensures users == [] && roles == [] && userRoles == [] && accountHistory == [] && refreshTokens == []
    {
      users, roles, userRoles, accountHistory, refreshTokens := [], [], [], [], [];
      nextId := 0;
    }
  }

  // ---------------------------------------------------------------- users

  /** The column a user is selected by: `User.email` or `User.id`. */
  datatype UserKey = ByEmail(email: string) | ById(id: UserId)

  predicate Matches(u: User, key: UserKey)
  {
    match key
    case ByEmail(e) => u.email == e
    case ById(i) => u.id == i
  }

  /** Row `i` is the first row a `select(User).where(key)` returns. */
  ghost predicate IsFirstMatch(users: seq<User>, key: UserKey, i: int)
  {
    0 <= i < |users| && Matches(users[i], key) && forall j :: 0 <= j < i ==> !Matches(users[j], key)
  }

  /** The index of the first user row selected by `key`, if any. */
  function UserIndex(users: seq<User>, key: UserKey): (r: Option<nat>)
    ensures r.Some? ==> IsFirstMatch(users, key, r.value)
    ensures r.None? <==> forall j :: 0 <= j < |users| ==> !Matches(users[j], key)
  {
    if users == [] then None
    else if Matches(users[0], key) then Some(0)
    else match UserIndex(users[1..], key)
      case None => None
      case Some(i) => Some(i + 1)
  }

  /** A select returns one first row only. */
  lemma FirstMatchUnique(users: seq<User>, key: UserKey, i: int, j: int)
    requires IsFirstMatch(users, key, i) && IsFirstMatch(users, key, j)
    ensures i == j
  {
  }

  // ---------------------------------------------------------------- roles

  /** Row `i` is the first row a `select(Role).where(Role.name == name)` returns. */
  ghost predicate IsFirstRoleNamed(roles: seq<Role>, name: string, i: int)
  {
    0 <= i < |roles| && roles[i].name == name && forall j :: 0 <= j < i ==> roles[j].name != name
  }

  /** The index of the first role row called `name`, if any. */
  function RoleIndex(roles: seq<Role>, name: string): (r: Option<nat>)
    ensures r.Some? ==> IsFirstRoleNamed(roles, name, r.value)
    ensures r.None? <==> forall j :: 0 <= j < |roles| ==> roles[j].name != name
  {
    if roles == [] then None
    else if roles[0].name == name then Some(0)
    else match RoleIndex(roles[1..], name)
      case None => None
      case Some(i) => Some(i + 1)
  }

  /** The roles of user `uid`: `select(Role).join(UserRoles).where(UserRoles.user_id == uid)`.
      Result order is not specified by the query; the model keeps table order. */
  function RolesOfUser(roles: seq<Role>, userRoles: seq<UserRole>, uid: UserId): (r: seq<Role>)
    ensures forall x :: x in r <==> x in roles && UserRole(uid, x.id) in userRoles
    ensures |r| <= |roles|
  {
    if roles == [] then []
    else
      var rest := RolesOfUser(roles[1..], userRoles, uid);
      assert forall x :: x in roles <==> x == roles[0] || x in roles[1..];
      if UserRole(uid, roles[0].id) in userRoles then [roles[0]] + rest else rest
  }

  /** The role names of user `uid`, as they enter the token claims. */
  function RoleNames(roles: seq<Role>, userRoles: seq<UserRole>, uid: UserId): (r: seq<string>)
    ensures forall n :: n in r <==> exists x :: x in roles && UserRole(uid, x.id) in userRoles && x.name == n
  {
    var rs := RolesOfUser(roles, userRoles, uid);
    var names := seq(|rs|, i requires 0 <= i < |rs| => rs[i].name);
    assert forall n :: n in names <==> exists x :: x in rs && x.name == n by {
      forall n | n in names ensures exists x :: x in rs && x.name == n {
        var i :| 0 <= i < |names| && names[i] == n;
        assert rs[i] in rs;
      }
      forall n | exists x :: x in rs && x.name == n ensures n in names {
        var x :| x in rs && x.name == n;
        var i :| 0 <= i < |rs| && rs[i] == x;
        assert names[i] == n;
      }
    }
    names
  }

  // ---------------------------------------------------------------- refresh_tokens

  /** The WHERE clause of an `UPDATE refresh_tokens SET is_active = false`. */
  datatype RowFilter =
    | TokenIs(token: Token)                     // user_token == token
    | UserIs(user: UserId)                      // user_id == user
    | ActiveDevice(user: UserId, agent: Agent)  // user_id, user_agent match and is_active

  predicate Selects(f: RowFilter, row: RefreshRow)
  {
    match f
    case TokenIs(t) => row.userToken == t
    case UserIs(u) => row.userId == u
    case ActiveDevice(u, a) => row.userId == u && row.userAgent == Some(a) && row.isActive
  }

  /** Every row the filter selects becomes inactive; nothing else about any row changes. */
  function Deactivate(rows: seq<RefreshRow>, f: RowFilter): (r: seq<RefreshRow>)
    ensures |r| == |rows|
    ensures forall i :: 0 <= i < |rows| ==>
      && r[i].userId == rows[i].userId
      && r[i].userToken == rows[i].userToken
      && r[i].userAgent == rows[i].userAgent
      && r[i].isActive == (rows[i].isActive && !Selects(f, rows[i]))
  {
    if rows == [] then []
    else
      var head := if Selects(f, rows[0]) then rows[0].(isActive := false) else rows[0];
      [head] + Deactivate(rows[1..], f)
  }

  /** Running the same update twice changes nothing the first run did not. */
  lemma {:induction false} DeactivateIdempotent(rows: seq<RefreshRow>, f: RowFilter)
    ensures Deactivate(Deactivate(rows, f), f) == Deactivate(rows, f)
  {
    var once := Deactivate(rows, f);
    var twice := Deactivate(once, f);
    forall i | 0 <= i < |once| ensures twice[i] == once[i] {
    }
  }

  /** No row the filter selects is active afterwards. */
  predicate NoneActive(rows: seq<RefreshRow>, f: RowFilter)
  {
    forall i :: 0 <= i < |rows| ==> !(rows[i].isActive && Selects(f, rows[i]))
  }

  /** The ledger after a rotation: the presented token's rows are deactivated, then the
      new row is appended. When the new row holds another token, no row holding the
      presented token stays active. */
  function Rotated(rows: seq<RefreshRow>, presented: Token, newRow: RefreshRow): (r: seq<RefreshRow>)
    ensures |r| == |rows| + 1 && r[|rows|] == newRow
    ensures forall i :: 0 <= i < |rows| ==>
      r[i] == rows[i].(isActive := rows[i].isActive && rows[i].userToken != presented)
    ensures newRow.userToken != presented ==> NoneActive(r, TokenIs(presented))
  {
    Deactivate(rows, TokenIs(presented)) + [newRow]
  }
}
