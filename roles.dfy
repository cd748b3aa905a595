/**
 * RolesService: guarded inserts, updates and deletes on the `roles` and
 * `user_roles` tables. Every lookup by name or e-mail uses the first row the
 * select returns.
 */
module Roles {
  import opened Common
  import opened Tables

  /** The `Roles` schema: a role's name and description. */
  datatype RoleInfo = RoleInfo(name: string, description: string)

  function Info(role: Role): RoleInfo
  {
    RoleInfo(role.name, role.description)
  }

  /** One entry per role, in table order. */
  function Infos(roles: seq<Role>): (r: seq<RoleInfo>)
    ensures |r| == |roles|
    ensures forall i :: 0 <= i < |roles| ==> r[i] == Info(roles[i])
    ensures forall x :: x in r <==> exists role :: role in roles && x == Info(role)
  {
    var infos := seq(|roles|, i requires 0 <= i < |roles| => Info(roles[i]));
    assert forall x :: x in infos <==> exists role :: role in roles && x == Info(role) by {
      forall x | x in infos ensures exists role :: role in roles && x == Info(role) {
        var i :| 0 <= i < |infos| && infos[i] == x;
        assert roles[i] in roles;
      }
      forall x | exists role :: role in roles && x == Info(role) ensures x in infos {
        var role :| role in roles && x == Info(role);
        var i :| 0 <= i < |roles| && roles[i] == role;
        assert infos[i] == x;
      }
    }
    infos
  }

  /** `update(Role).where(Role.name == name).values(...)`: every role called `name` gets
      the new description, and the new name when that is non-empty; other rows stay. */
  function RenameRoles(roles: seq<Role>, name: string, newDescription: string, newName: string): (r: seq<Role>)
    ensures |r| == |roles|
    ensures forall i :: 0 <= i < |roles| ==> r[i].id == roles[i].id
    ensures forall i :: 0 <= i < |roles| && roles[i].name == name ==>
      r[i].description == newDescription && r[i].name == (if newName != "" then newName else name)
    ensures forall i :: 0 <= i < |roles| && roles[i].name != name ==> r[i] == roles[i]
  {
    if roles == [] then []
    else
      var head := if roles[0].name != name then roles[0]
                  else if newName != "" then roles[0].(description := newDescription, name := newName)
                  else roles[0].(description := newDescription);
      [head] + RenameRoles(roles[1..], name, newDescription, newName)
  }

  /** `delete(Role).where(Role.name == name)`. */
  function WithoutRolesNamed(roles: seq<Role>, name: string): (r: seq<Role>)
    ensures forall x :: x in r <==> x in roles && x.name != name
    ensures |r| <= |roles|
  {
    if roles == [] then []
    else
      var rest := WithoutRolesNamed(roles[1..], name);
      assert forall x :: x in roles <==> x == roles[0] || x in roles[1..];
      if roles[0].name == name then rest else [roles[0]] + rest
  }

  /** `delete(UserRoles).where(user_id == link.userId, role_id == link.roleId)`. */
  function WithoutUserRole(userRoles: seq<UserRole>, link: UserRole): (r: seq<UserRole>)
    ensures forall x :: x in r <==> x in userRoles && x != link
    ensures |r| <= |userRoles|
  {
    if userRoles == [] then []
    else
      var rest := WithoutUserRole(userRoles[1..], link);
      assert forall x :: x in userRoles <==> x == userRoles[0] || x in userRoles[1..];
      if userRoles[0] == link then rest else [userRoles[0]] + rest
  }

  class RolesService {
    const db: Database

    constructor (db: Database)
      ensures this.db == db
    {
      this.db := db;
    }

    /** `create_role`: refuses an existing name; otherwise inserts one role. */
    method CreateRole(name: string, description: string) returns (r: Option<RoleInfo>)
      requires db.Valid()
      modifies db
      ensures db.Valid()
      ensures RoleIndex(old(db.roles), name).Some? ==>
        r == None && db.roles == old(db.roles) && db.nextId == old(db.nextId)
      ensures RoleIndex(old(db.roles), name).None? ==>
        && r == Some(RoleInfo(name, description))
        && db.roles == old(db.roles) + [Role(old(db.nextId), name, description)]
        && db.nextId == old(db.nextId) + 1
      ensures db.users == old(db.users) && db.userRoles == old(db.userRoles)
      ensures db.accountHistory == old(db.accountHistory) && db.refreshTokens == old(db.refreshTokens)
    {
      var roleExist := RoleIndex(db.roles, name);
      if roleExist.Some? {
        return None;
      }
      db.roles := db.roles + [Role(db.nextId, name, description)];
      db.nextId := db.nextId + 1;
      r := Some(RoleInfo(name, description));
    }

    /** `change_role`: refuses an unknown name; otherwise updates every role so named. */
    method ChangeRole(name: string, newDescription: string, newName: string) returns (r: Option<Status>)
      requires db.Valid()
      modifies db
      ensures db.Valid()
      ensures RoleIndex(old(db.roles), name).None? ==> r == None && db.roles == old(db.roles)
      ensures RoleIndex(old(db.roles), name).Some? ==>
        r == Some(Success) && db.roles == RenameRoles(old(db.roles), name, newDescription, newName)
      ensures db.users == old(db.users) && db.userRoles == old(db.userRoles) && db.nextId == old(db.nextId)
      ensures db.accountHistory == old(db.accountHistory) && db.refreshTokens == old(db.refreshTokens)
    {
      var roleExist := RoleIndex(db.roles, name);
      if roleExist.None? {
        return None;
      }
      var renamed := RenameRoles(db.roles, name, newDescription, newName);
      assert forall role :: role in renamed ==> role.id < db.nextId by {
        forall role | role in renamed ensures role.id < db.nextId {
          var k :| 0 <= k < |renamed| && renamed[k] == role;
          assert db.roles[k] in db.roles;
        }
      }
      db.roles := renamed;
      r := Some(Success);
    }

    /** `get_roles`: one (name, description) entry per role. */
    method GetRoles() returns (r: seq<RoleInfo>)
      ensures |r| == |db.roles|
      ensures forall i :: 0 <= i < |r| ==> r[i].name == db.roles[i].name && r[i].description == db.roles[i].description
    {
      r := Infos(db.roles);
    }

    /** `delete_role`: refuses an unknown name; otherwise removes every role so named. */
    method DeleteRole(name: string) returns (r: Option<Status>)
      requires db.Valid()
      modifies db
      ensures db.Valid()
      ensures RoleIndex(old(db.roles), name).None? ==> r == None && db.roles == old(db.roles)
      ensures RoleIndex(old(db.roles), name).Some? ==>
        r == Some(Success) && db.roles == WithoutRolesNamed(old(db.roles), name)
      ensures db.users == old(db.users) && db.userRoles == old(db.userRoles) && db.nextId == old(db.nextId)
      ensures db.accountHistory == old(db.accountHistory) && db.refreshTokens == old(db.refreshTokens)
    {
      var roleExist := RoleIndex(db.roles, name);
      if roleExist.None? {
        return None;
      }
      db.roles := WithoutRolesNamed(db.roles, name);
      r := Some(Success);
    }

    /** `set_role_to_user`: refuses a missing role, a missing user or an existing link;
        otherwise adds the link and returns all the user's roles. */
    method SetRoleToUser(email: string, roleName: string) returns (r: Option<seq<RoleInfo>>)
      requires db.Valid()
      modifies db
      ensures db.Valid()
      ensures var ri := RoleIndex(old(db.roles), roleName);
              var ui := UserIndex(old(db.users), ByEmail(email));
        if ri.None? || ui.None? || UserRole(old(db.users)[ui.value].id, old(db.roles)[ri.value].id) in old(db.userRoles)
        then r == None && db.userRoles == old(db.userRoles)
        else
          var user := old(db.users)[ui.value];
          var role := old(db.roles)[ri.value];
          && db.userRoles == old(db.userRoles) + [UserRole(user.id, role.id)]
          && r.Some?
          && (forall x :: x in r.value <==> exists y :: y in db.roles && UserRole(user.id, y.id) in db.userRoles && x == Info(y))
          && Info(role) in r.value
      ensures db.users == old(db.users) && db.roles == old(db.roles) && db.nextId == old(db.nextId)
      ensures db.accountHistory == old(db.accountHistory) && db.refreshTokens == old(db.refreshTokens)
    {
      var roleExist := RoleIndex(db.roles, roleName);
      if roleExist.None? {
        return None;
      }
      var existingUser := UserIndex(db.users, ByEmail(email));
      if existingUser.None? {
        return None;
      }
      var user := db.users[existingUser.value];
      var role := db.roles[roleExist.value];
      if UserRole(user.id, role.id) in db.userRoles {
        return None;
      }
      db.userRoles := db.userRoles + [UserRole(user.id, role.id)];
      var userRoles := RolesOfUser(db.roles, db.userRoles, user.id);
      assert role in userRoles;
      r := Some(Infos(userRoles));
    }

    /** `delete_role_to_user`: refuses a missing role or user; otherwise removes the link,
        succeeding whether or not it was there. */
    method DeleteRoleToUser(email: string, roleName: string) returns (r: Option<Status>)
      requires db.Valid()
      modifies db
      ensures db.Valid()
      ensures var ri := RoleIndex(old(db.roles), roleName);
              var ui := UserIndex(old(db.users), ByEmail(email));
        if ri.None? || ui.None? then r == None && db.userRoles == old(db.userRoles)
        else
          && r == Some(Success)
          && db.userRoles == WithoutUserRole(old(db.userRoles), UserRole(old(db.users)[ui.value].id, old(db.roles)[ri.value].id))
      ensures db.users == old(db.users) && db.roles == old(db.roles) && db.nextId == old(db.nextId)
      ensures db.accountHistory == old(db.accountHistory) && db.refreshTokens == old(db.refreshTokens)
    {
      var roleExist := RoleIndex(db.roles, roleName);
      if roleExist.None? {
        return None;
      }
      var existingUser := UserIndex(db.users, ByEmail(email));
      if existingUser.None? {
        return None;
      }
      var user := db.users[existingUser.value];
      var role := db.roles[roleExist.value];
      db.userRoles := WithoutUserRole(db.userRoles, UserRole(user.id, role.id));
      r := Some(Success);
    }
  }
}
