/**
 * UserService: the account-history query and the password change, plus how a
 * password change is seen by the next login.
 */
module Users {
  import opened Common
  import opened Passwords
  import opened Tables
  import opened Auth

  /** The `ShemaAccountHistory` schema: one login's user agent and time. */
  datatype LoginView = LoginView(userAgent: Agent, createdAt: int)

  function View(e: HistoryEntry): LoginView
  {
    LoginView(e.userAgent, e.createdAt)
  }

  /** `select(AccountHistory).where(AccountHistory.user_id == u)`, projected on the schema. */
  function OwnViews(history: seq<HistoryEntry>, u: UserId): (r: seq<LoginView>)
    ensures forall v :: v in r <==> exists e :: e in history && e.userId == u && v == View(e)
    ensures |r| <= |history|
  {
    if history == [] then []
    else
      var rest := OwnViews(history[1..], u);
      assert forall e :: e in history <==> e == history[0] || e in history[1..];
      if history[0].userId == u then [View(history[0])] + rest else rest
  }

  /** `order_by(AccountHistory.created_at.desc())`. */
  ghost predicate NewestFirst(s: seq<LoginView>)
  {
    forall i, j :: 0 <= i < j < |s| ==> s[i].createdAt >= s[j].createdAt
  }

  /** Prepending an entry no older than any other keeps a sequence newest first. */
  lemma PrependNewest(x: LoginView, t: seq<LoginView>)
    requires NewestFirst(t)
    requires forall y :: y in t ==> y.createdAt <= x.createdAt
    ensures NewestFirst([x] + t)
  {
    var s := [x] + t;
    forall i, j | 0 <= i < j < |s| ensures s[i].createdAt >= s[j].createdAt {
      if i == 0 {
        assert s[j] == t[j - 1];
        assert t[j - 1] in t;
      } else {
        assert s[i] == t[i - 1] && s[j] == t[j - 1];
      }
    }
  }

  /** Dropping the newest entry keeps a sequence newest first. */
  lemma TailNewest(s: seq<LoginView>)
    requires NewestFirst(s) && s != []
    ensures NewestFirst(s[1..])
  {
    var tail := s[1..];
    forall i, j | 0 <= i < j < |tail| ensures tail[i].createdAt >= tail[j].createdAt {
      assert tail[i] == s[i + 1] && tail[j] == s[j + 1];
    }
  }

  /** An entry no newer than the head of `s`, inserted among the rest, leaves the head first. */
  lemma HeadStaysFirst(v: LoginView, s: seq<LoginView>, rest: seq<LoginView>)
    requires NewestFirst(s) && s != [] && v.createdAt < s[0].createdAt
    requires NewestFirst(rest) && multiset(rest) == multiset(s[1..]) + multiset{v}
    ensures NewestFirst([s[0]] + rest)
  {
    forall y | y in rest ensures y.createdAt <= s[0].createdAt {
      assert y in multiset(rest);
      if y != v {
        assert y in multiset(s[1..]);
        var k :| 0 <= k < |s[1..]| && s[1..][k] == y;
        assert s[k + 1] == y;
      }
    }
    PrependNewest(s[0], rest);
  }

  /** Inserts `v` into a newest-first sequence, keeping it newest first. */
  function InsertByDate(v: LoginView, s: seq<LoginView>): (r: seq<LoginView>)
    requires NewestFirst(s)
    ensures NewestFirst(r)
    ensures multiset(r) == multiset(s) + multiset{v}
  {
    if s == [] || v.createdAt >= s[0].createdAt then
      assert NewestFirst([v] + s) by {
        forall y | y in s ensures y.createdAt <= v.createdAt {
          var k :| 0 <= k < |s| && s[k] == y;
          assert k == 0 || s[0].createdAt >= s[k].createdAt;
        }
        PrependNewest(v, s);
      }
      [v] + s
    else
      TailNewest(s);
      var rest := InsertByDate(v, s[1..]);
      HeadStaysFirst(v, s, rest);
      assert s == [s[0]] + s[1..];
      [s[0]] + rest
  }

  /** Sorts by creation time, newest first; the order among equal times is not
      specified by the query, and the model fixes one. */
  function SortNewestFirst(s: seq<LoginView>): (r: seq<LoginView>)
    ensures NewestFirst(r)
    ensures multiset(r) == multiset(s)
  {
    if s == [] then []
    else
      assert s == [s[0]] + s[1..];
      InsertByDate(s[0], SortNewestFirst(s[1..]))
  }

  /** `get_account_history(u)`: exactly u's logins, newest first. */
  function AccountHistory(history: seq<HistoryEntry>, u: UserId): (r: seq<LoginView>)
    ensures NewestFirst(r)
    ensures multiset(r) == multiset(OwnViews(history, u))
    ensures forall v :: v in r <==> exists e :: e in history && e.userId == u && v == View(e)
  {
    var own := OwnViews(history, u);
    var r := SortNewestFirst(own);
    assert forall v :: v in r <==> v in own by {
      forall v ensures v in r <==> v in own {
        assert v in r <==> v in multiset(r);
        assert v in own <==> v in multiset(own);
      }
    }
    r
  }

  /** The user row after `user.hash_password = generate_password_hash(SAULT + email + password)`. */
  function Rehashed(hash: string -> string, sault: string, u: User, password: string): User
  {
    u.(hashPassword := hash(Salted(sault, u.email, password)))
  }

  /** After a successful password change, `login` accepts the new password and rejects
      every other one for the same user, given a collision-free hash. */
  lemma {:induction false} LoginAfterPasswordChange(
    users: seq<User>, hash: string -> string, sault: string, email: string,
    oldPassword: string, newPassword: string, i: nat)
    requires IsFirstMatch(users, ByEmail(email), i) && users[i].isActive
    requires Injective(hash)
    ensures var changed := users[i := Rehashed(hash, sault, users[i], newPassword)];
      && LoginCheck(changed, hash, sault, email, newPassword) == Done(changed[i])
      && (oldPassword != newPassword ==> LoginCheck(changed, hash, sault, email, oldPassword) == Rejected(Unauthorized))
  {
    var changed := users[i := Rehashed(hash, sault, users[i], newPassword)];
    assert IsFirstMatch(changed, ByEmail(email), i);
    forall k | IsFirstMatch(changed, ByEmail(email), k) ensures k == i {
      FirstMatchUnique(changed, ByEmail(email), i, k);
    }
    assert changed[i].email == email;
    RehashAcceptsOnlyNew(hash, sault, email, oldPassword, newPassword);
  }

  class UserService {
    const db: Database
    const hash: string -> string
    const sault: string

    constructor (db: Database, hash: string -> string, sault: string)
      ensures this.db == db && this.hash == hash && this.sault == sault
    {
      this.db := db;
      this.hash := hash;
      this.sault := sault;
    }

    /** `get_account_history`: only the user's entries, newest first. */
    method GetAccountHistory(userId: UserId) returns (r: seq<LoginView>)
      ensures NewestFirst(r)
      ensures multiset(r) == multiset(OwnViews(db.accountHistory, userId))
      ensures forall v :: v in r <==> exists e :: e in db.accountHistory && e.userId == userId && v == View(e)
    {
      r := AccountHistory(db.accountHistory, userId);
    }

    /** `change_password`: checks the current password against the stored hash, then
        stores the hash of the salted new password. With no user for the e-mail the
        service reads an attribute of None, which raises. */
    method ChangePassword(currentPassword: string, password: string, email: string) returns (r: Outcome<Status>)
      requires db.Valid()
      modifies db
      ensures db.Valid()
      ensures var ui := UserIndex(old(db.users), ByEmail(email));
        && (ui.None? ==> r == Raised && db.users == old(db.users))
        && (ui.Some? ==>
              var u := old(db.users)[ui.value];
              if !CheckPasswordHash(hash, u.hashPassword, Salted(sault, u.email, currentPassword))
              then r == Failed && db.users == old(db.users)
              else r == Done(Success) && db.users == old(db.users)[ui.value := Rehashed(hash, sault, u, password)])
      ensures db.roles == old(db.roles) && db.userRoles == old(db.userRoles) && db.nextId == old(db.nextId)
      ensures db.accountHistory == old(db.accountHistory) && db.refreshTokens == old(db.refreshTokens)
    {
      var found := UserIndex(db.users, ByEmail(email));
      if found.None? {
        return Raised;
      }
      var user := db.users[found.value];
      var passwordMatch := CheckPasswordHash(hash, user.hashPassword, Salted(sault, user.email, currentPassword));
      if !passwordMatch {
        return Failed;
      }
      db.users := db.users[found.value := Rehashed(hash, sault, user, password)];
      r := Done(Success);
    }
  }
}
