/**
 * The Redis session index: under each user id, a dictionary from user agent to
 * the access token last issued to that device. TTLs and JSON serialisation are
 * not modelled.
 */
module Sessions {
  import opened Common
  import opened Tokens

  type SessionMap = map<UserId, map<Agent, Token>>

  /** No user key holds an empty dictionary: `add_token` always stores an entry and
      `logout_me` deletes a key whose last device it pops. */
  predicate NoEmptyDevices(s: SessionMap)
  {
    forall u :: u in s ==> s[u] != map[]
  }

  class SessionCache {
    var entries: SessionMap

    ghost predicate Valid()
      reads this
    {
      NoEmptyDevices(entries)
    }

    constructor ()
      ensures Valid()
      ensures entries == map[]
    {
      entries := map[];
    }
  }

  /** `add_token(user_id, access_token, user_agent)`: the user's dictionary, created
      when missing, maps `agent` to `token`; every other entry stays. */
  function WithToken(s: SessionMap, u: UserId, agent: Agent, token: Token): (r: SessionMap)
    ensures r.Keys == s.Keys + {u}
    ensures agent in r[u] && r[u][agent] == token
    ensures r[u].Keys == (if u in s then s[u].Keys else {}) + {agent}
    ensures forall a :: a in r[u] && a != agent ==> r[u][a] == s[u][a]
    ensures forall v :: v in s && v != u ==> r[v] == s[v]
    ensures NoEmptyDevices(s) ==> NoEmptyDevices(r)
  {
    var devices := if u in s then s[u] else map[];
    s[u := devices[agent := token]]
  }

  /** What `logout_me` writes back after popping `agent` from the user's dictionary:
      the key is deleted when no device is left, otherwise the rest is stored. */
  function WithoutAgent(s: SessionMap, u: UserId, agent: Agent): (r: SessionMap)
    requires u in s && agent in s[u]
    ensures u in r <==> s[u].Keys != {agent}
    ensures u in r ==> r[u].Keys == s[u].Keys - {agent} && forall a :: a in r[u] ==> r[u][a] == s[u][a]
    ensures r.Keys <= s.Keys
    ensures forall v :: v in s && v != u ==> v in r && r[v] == s[v]
    ensures NoEmptyDevices(s) ==> NoEmptyDevices(r)
  {
    var rest := s[u] - {agent};
    assert rest.Keys == s[u].Keys - {agent};
    if |rest| == 0 then s - {u} else s[u := rest]
  }

  /** Logging a device out right after logging it in on a device the user had no
      session on restores the session index. */
  lemma {:induction false} WithoutAgentUndoesWithToken(s: SessionMap, u: UserId, agent: Agent, token: Token)
    requires u in s ==> agent !in s[u]
    requires u in s ==> s[u] != map[]
    ensures WithoutAgent(WithToken(s, u, agent, token), u, agent) == s
  {
    var s' := WithToken(s, u, agent, token);
    if u in s {
      var rest := s'[u] - {agent};
      assert rest == s[u] by {
        assert rest.Keys == s[u].Keys;
        forall a | a in rest ensures rest[a] == s[u][a] {
        }
      }
      assert |rest| != 0 by {
        assert s[u].Keys != {};
      }
      assert s'[u := rest] == s[u := s[u]];
    } else {
      assert s'[u] - {agent} == map[];
      assert s' - {u} == s;
    }
  }
}
