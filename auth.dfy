/**
 * AuthService: registration, login, refresh-token rotation and logout over
 * the database (users, roles, user_roles, refresh_tokens, account_history)
 * and the Redis session index.
 */
module Auth {
  import opened Common
  import opened Tokens
  import opened Passwords
  import opened Tables
  import opened Sessions

  /** `__check_user_exist_active`: the first user the key selects, CONFLICT when there
      is none, BAD_REQUEST when that user is not active. */
  function CheckUserExistActive(users: seq<User>, key: UserKey): (r: Outcome<User>)
    ensures r == Rejected(Conflict) || r == Rejected(BadRequest) || r.Done?
    ensures r == Rejected(Conflict) <==> forall j :: 0 <= j < |users| ==> !Matches(users[j], key)
    ensures r == Rejected(BadRequest) <==> exists i :: IsFirstMatch(users, key, i) && !users[i].isActive
    ensures r.Done? <==> exists i :: IsFirstMatch(users, key, i) && users[i].isActive
    ensures r.Done? ==> exists i :: IsFirstMatch(users, key, i) && r.value == users[i]
  {
    match UserIndex(users, key)
    case None => Rejected(Conflict)
    case Some(i) =>
      assert forall j :: IsFirstMatch(users, key, j) ==> j == i by {
        forall j | IsFirstMatch(users, key, j) ensures j == i { FirstMatchUnique(users, key, i, j); }
      }
      if !users[i].isActive then Rejected(BadRequest) else Done(users[i])
  }

  /** The guards of `login`: the user checks, then the salted password check. */
  function LoginCheck(users: seq<User>, hash: string -> string, sault: string, email: string, passwd: string): (r: Outcome<User>)
    ensures r == Rejected(Conflict) <==> forall j :: 0 <= j < |users| ==> users[j].email != email
    ensures r == Rejected(BadRequest) <==> exists i :: IsFirstMatch(users, ByEmail(email), i) && !users[i].isActive
    ensures r == Rejected(Unauthorized) <==>
      exists i :: IsFirstMatch(users, ByEmail(email), i) && users[i].isActive
                  && !CheckPasswordHash(hash, users[i].hashPassword, Salted(sault, email, passwd))
    ensures r.Done? <==>
      exists i :: IsFirstMatch(users, ByEmail(email), i) && users[i].isActive
                  && CheckPasswordHash(hash, users[i].hashPassword, Salted(sault, email, passwd))
    ensures r.Done? ==> exists i :: IsFirstMatch(users, ByEmail(email), i) && r.value == users[i]
    ensures r == Rejected(Conflict) || r == Rejected(BadRequest) || r == Rejected(Unauthorized) || r.Done?
  {
    match CheckUserExistActive(users, ByEmail(email))
    case Done(u) =>
      if CheckPasswordHash(hash, u.hashPassword, Salted(sault, u.email, passwd)) then Done(u)
      else Rejected(Unauthorized)
    case other => other
  }

  /** The gate of `refresh`: JWT verification, then the user named by the token's
      subject must exist and be active. The refresh ledger is not consulted. */
  function RefreshCheck(users: seq<User>, presented: Token, jwtValid: bool): (r: Outcome<User>)
    ensures r == Failed <==> !jwtValid
    ensures r.Done? ==> r.value in users && r.value.id == presented.params.subject && r.value.isActive
    ensures jwtValid ==> r == CheckUserExistActive(users, ById(presented.params.subject))
  {
    if !jwtValid then Failed else CheckUserExistActive(users, ById(presented.params.subject))
  }

  /** The claims every issued access token carries for user `u`. */
  function ClaimsOf(roles: seq<Role>, userRoles: seq<UserRole>, u: User): Claims
  {
    Claims(RoleNames(roles, userRoles, u.id), u.email)
  }

  /** The two default roles `__create_roles` inserts, with fresh ids from `next`. */
  function DefaultRoles(next: nat): seq<Role>
  {
    [Role(next, "user", "user"), Role(next + 1, "admin", "admin")]
  }

  class AuthService {
    const db: Database
    const cache: SessionCache
    /** The password hash (werkzeug) and `settings.SAULT`. */
    const hash: string -> string
    const sault: string
    /** The token generator's state: every created token gets a new serial. */
    var serial: nat

    constructor (db: Database, cache: SessionCache, hash: string -> string, sault: string)
      ensures this.db == db && this.cache == cache && this.hash == hash && this.sault == sault
      ensures serial == 0
    {
      this.db := db;
      this.cache := cache;
      this.hash := hash;
      this.sault := sault;
      serial := 0;
    }

    /** `__create_tokens`: both tokens are created from `params_for_access`, so the
        refresh token carries the claims and the access lifetime;
        `params_for_refresh` is built and never used. */
    method CreateTokens(subject: UserId, isEx: bool, userClaims: Claims) returns (tokens: TokenPair)
      modifies this
      ensures serial == old(serial) + 2
      ensures tokens.accessToken == Token(AccessKind, AccessParams(subject, isEx, userClaims), old(serial))
      ensures tokens.refreshToken == Token(RefreshKind, AccessParams(subject, isEx, userClaims), old(serial) + 1)
      ensures tokens.refreshToken.params != RefreshParams(subject, isEx)
    {
      var paramsForAccess := AccessParams(subject, isEx, userClaims);
      var paramsForRefresh := RefreshParams(subject, isEx);
      var accessToken := Token(AccessKind, paramsForAccess, serial);
      var refreshToken := Token(RefreshKind, paramsForAccess, serial + 1);
      serial := serial + 2;
      tokens := TokenPair(accessToken, refreshToken);
    }

    /** `__create_roles`: inserts the `user` and the `admin` role. */
    method CreateRoles()
      requires db.Valid()
      modifies db
      ensures db.Valid()
      ensures db.roles == old(db.roles) + DefaultRoles(old(db.nextId))
      ensures db.nextId == old(db.nextId) + 2
      ensures db.users == old(db.users) && db.userRoles == old(db.userRoles)
      ensures db.accountHistory == old(db.accountHistory) && db.refreshTokens == old(db.refreshTokens)
    {
      var userRole := Role(db.nextId, "user", "user");
      var adminRole := Role(db.nextId + 1, "admin", "admin");
      db.roles := db.roles + [userRole];
      db.roles := db.roles + [adminRole];
      db.nextId := db.nextId + 2;
    }

    /** `create_user`: bootstraps the default roles when no `user` role exists, refuses
        a taken e-mail, then inserts the verified user with the salted hash and links
        it to the first `user` role. */
    method CreateUser(firstName: string, lastName: string, email: string, password: string) returns (r: Outcome<User>)
      requires db.Valid()
      modifies db
      ensures db.Valid()
      ensures db.roles == if RoleIndex(old(db.roles), "user").Some? then old(db.roles)
                          else old(db.roles) + DefaultRoles(old(db.nextId))
      ensures RoleIndex(db.roles, "user").Some?
      ensures db.accountHistory == old(db.accountHistory) && db.refreshTokens == old(db.refreshTokens)
      ensures var bootstrap := if RoleIndex(old(db.roles), "user").Some? then 0 else 2;
        db.nextId == old(db.nextId) + bootstrap + (if r.Done? then 1 else 0)
      ensures (exists j :: 0 <= j < |old(db.users)| && old(db.users)[j].email == email) ==>
        r == Rejected(Conflict) && db.users == old(db.users) && db.userRoles == old(db.userRoles)
      ensures (forall j :: 0 <= j < |old(db.users)| ==> old(db.users)[j].email != email) ==>
        && r.Done?
        && r.value.email == email && r.value.firstName == firstName && r.value.lastName == lastName
        && r.value.verified && r.value.isActive
        && r.value.hashPassword == hash(Salted(sault, email, password))
        && (forall x :: x in old(db.users) ==> x.id != r.value.id)
        && (forall link :: link in old(db.userRoles) ==> link.userId != r.value.id)
        && db.users == old(db.users) + [r.value]
        && db.userRoles == old(db.userRoles) + [UserRole(r.value.id, db.roles[RoleIndex(db.roles, "user").value].id)]
    {
      var hashPassword := hash(Salted(sault, email, password));
      var roleIdx := RoleIndex(db.roles, "user");
      if roleIdx.None? {
        CreateRoles();
        roleIdx := RoleIndex(db.roles, "user");
        assert IsFirstRoleNamed(db.roles, "user", |old(db.roles)|);
      }
      var existing := UserIndex(db.users, ByEmail(email));
      if existing.Some? {
        return Rejected(Conflict);
      }
      var user := User(db.nextId, firstName, lastName, email, hashPassword, true, true);
      db.nextId, db.users, db.userRoles :=
        db.nextId + 1, db.users + [user], db.userRoles + [UserRole(user.id, db.roles[roleIdx.value].id)];
      r := Done(user);
    }

    /** `login`: the guards write nothing; on success the access token is stored under the
        user agent, one active ledger row and one account-history row are appended. */
    method Login(userAgent: Agent, email: string, passwd: string, now: int) returns (r: Outcome<TokenPair>)
      requires db.Valid() && cache.Valid()
      modifies this, db, cache
      ensures db.Valid() && cache.Valid()
      ensures var check := LoginCheck(old(db.users), hash, sault, email, passwd);
        && (check.Rejected? ==>
              && r == Rejected(check.status)
              && cache.entries == old(cache.entries) && serial == old(serial)
              && db.refreshTokens == old(db.refreshTokens) && db.accountHistory == old(db.accountHistory))
        && (check.Done? ==>
              var u := check.value;
              && r.Done?
              && r.value.accessToken == Token(AccessKind, AccessParams(u.id, true, ClaimsOf(old(db.roles), old(db.userRoles), u)), old(serial))
              && r.value.refreshToken == Token(RefreshKind, AccessParams(u.id, true, ClaimsOf(old(db.roles), old(db.userRoles), u)), old(serial) + 1)
              && serial == old(serial) + 2
              && cache.entries == WithToken(old(cache.entries), u.id, userAgent, r.value.accessToken)
              && db.refreshTokens == old(db.refreshTokens) + [RefreshRow(u.id, r.value.refreshToken, true, Some(userAgent))]
              && db.accountHistory == old(db.accountHistory) + [HistoryEntry(u.id, userAgent, now)])
      ensures db.users == old(db.users) && db.roles == old(db.roles) && db.userRoles == old(db.userRoles)
      ensures db.nextId == old(db.nextId)
    {
      var existing := CheckUserExistActive(db.users, ByEmail(email));
      if existing.Rejected? {
        assert LoginCheck(db.users, hash, sault, email, passwd) == existing;
        return Rejected(existing.status);
      }
      var user := existing.value;
      var passwordMatch := CheckPasswordHash(hash, user.hashPassword, Salted(sault, user.email, passwd));
      if !passwordMatch {
        assert LoginCheck(db.users, hash, sault, email, passwd) == Rejected(Unauthorized);
        return Rejected(Unauthorized);
      }
      assert LoginCheck(db.users, hash, sault, email, passwd) == Done(user);
      var userRoles := RoleNames(db.roles, db.userRoles, user.id);
      var tokens := CreateTokens(user.id, true, Claims(userRoles, user.email));
      cache.entries := WithToken(cache.entries, user.id, userAgent, tokens.accessToken);
      db.refreshTokens := db.refreshTokens + [RefreshRow(user.id, tokens.refreshToken, true, Some(userAgent))];
      db.accountHistory := db.accountHistory + [HistoryEntry(user.id, userAgent, now)];
      r := Done(tokens);
    }

    /** `refresh`: gated by JWT verification and an active subject only; on success every
        ledger row holding the presented token is deactivated, one active row without a
        user agent is appended, and the user agent's session holds the new access token.
        `jwtValid` is the outcome of `_verify_jwt_in_request(type_token='refresh')`, which
        passes only for a refresh token this service signed, hence an earlier serial. */
    method Refresh(refreshToken: Token, userAgent: Agent, jwtValid: bool) returns (r: Outcome<TokenPair>)
      requires db.Valid() && cache.Valid()
      requires jwtValid ==> refreshToken.kind == RefreshKind && refreshToken.serial < serial
      modifies this, db, cache
      ensures db.Valid() && cache.Valid()
      ensures var check := RefreshCheck(old(db.users), refreshToken, jwtValid);
        && (!check.Done? ==>
              && r == (if check.Failed? then Failed else Rejected(check.status))
              && cache.entries == old(cache.entries) && serial == old(serial)
              && db.refreshTokens == old(db.refreshTokens))
        && (check.Done? ==>
              var u := check.value;
              && r.Done?
              && r.value.accessToken == Token(AccessKind, AccessParams(u.id, true, ClaimsOf(old(db.roles), old(db.userRoles), u)), old(serial))
              && r.value.refreshToken == Token(RefreshKind, AccessParams(u.id, true, ClaimsOf(old(db.roles), old(db.userRoles), u)), old(serial) + 1)
              && serial == old(serial) + 2
              && cache.entries == WithToken(old(cache.entries), u.id, userAgent, r.value.accessToken)
              && db.refreshTokens == Rotated(old(db.refreshTokens), refreshToken, RefreshRow(u.id, r.value.refreshToken, true, None))
              && NoneActive(db.refreshTokens, TokenIs(refreshToken)))
      ensures db.users == old(db.users) && db.roles == old(db.roles) && db.userRoles == old(db.userRoles)
      ensures db.accountHistory == old(db.accountHistory) && db.nextId == old(db.nextId)
    {
      if !jwtValid {
        return Failed;
      }
      var sub := refreshToken.params.subject;
      var existing := CheckUserExistActive(db.users, ById(sub));
      if existing.Rejected? {
        return Rejected(existing.status);
      }
      var user := existing.value;
      var userRoles := RoleNames(db.roles, db.userRoles, user.id);
      var tokens := CreateTokens(user.id, true, Claims(userRoles, user.email));
      cache.entries := WithToken(cache.entries, user.id, userAgent, tokens.accessToken);
      db.refreshTokens := Rotated(db.refreshTokens, refreshToken, RefreshRow(user.id, tokens.refreshToken, true, None));
      r := Done(tokens);
    }

    /** `logout_all`: deletes the user's session key and deactivates every ledger row of
        the user; other users' entries and rows are unchanged. */
    method LogoutAll(userId: UserId) returns (r: Status)
      requires db.Valid() && cache.Valid()
      modifies db, cache
      ensures db.Valid() && cache.Valid()
      ensures r == Success
      ensures cache.entries == old(cache.entries) - {userId}
      ensures db.refreshTokens == Deactivate(old(db.refreshTokens), UserIs(userId))
      ensures NoneActive(db.refreshTokens, UserIs(userId))
      ensures db.users == old(db.users) && db.roles == old(db.roles) && db.userRoles == old(db.userRoles)
      ensures db.accountHistory == old(db.accountHistory) && db.nextId == old(db.nextId)
    {
      cache.entries := cache.entries - {userId};
      db.refreshTokens := Deactivate(db.refreshTokens, UserIs(userId));
      r := Success;
    }

    /** `logout_me`: pops the user agent from the user's dictionary (failing, and writing
        nothing, when the user or the agent is absent), writes the rest back or deletes
        the key, and deactivates the user's active rows for that agent. */
    method LogoutMe(userId: UserId, userAgent: Agent) returns (r: Outcome<Status>)
      requires db.Valid() && cache.Valid()
      modifies db, cache
      ensures db.Valid() && cache.Valid()
      ensures !(userId in old(cache.entries) && userAgent in old(cache.entries)[userId]) ==>
        r == Failed && cache.entries == old(cache.entries) && db.refreshTokens == old(db.refreshTokens)
      ensures userId in old(cache.entries) && userAgent in old(cache.entries)[userId] ==>
        && r == Done(Success)
        && cache.entries == WithoutAgent(old(cache.entries), userId, userAgent)
        && db.refreshTokens == Deactivate(old(db.refreshTokens), ActiveDevice(userId, userAgent))
        && NoneActive(db.refreshTokens, ActiveDevice(userId, userAgent))
      ensures db.users == old(db.users) && db.roles == old(db.roles) && db.userRoles == old(db.userRoles)
      ensures db.accountHistory == old(db.accountHistory) && db.nextId == old(db.nextId)
    {
      if userId !in cache.entries {
        return Failed;
      }
      var currentUserTokens := cache.entries[userId];
      if userAgent !in currentUserTokens {
        return Failed;
      }
      currentUserTokens := currentUserTokens - {userAgent};
      if |currentUserTokens| == 0 {
        cache.entries := cache.entries - {userId};
      } else {
        cache.entries := cache.entries[userId := currentUserTokens];
      }
      assert cache.entries == WithoutAgent(old(cache.entries), userId, userAgent);
      db.refreshTokens := Deactivate(db.refreshTokens, ActiveDevice(userId, userAgent));
      r := Done(Success);
    }
  }
}
