/**
 * The periodic clean-ups (scheduler/SchedulerService.java): guest accounts
 * whose id is not in the activity map are deleted from the user repository,
 * and inactive players are pruned from game sessions, a session with no
 * players left being dropped. The activity map is read through its key set.
 */
module Scheduler {
  import opened Wrappers
  import Users
  import GameSessions

  type Session = GameSessions.GameSession

  /** s contains sub as a contiguous piece (the repository's "Containing" query on a text field). */
  predicate ContainsText(s: string, sub: string)
  {
    sub <= s || (|s| > 0 && ContainsText(s[1..], sub))
  }

  /** findByRolesContaining("GUEST") matches a user whose roles text holds GUEST. */
  predicate IsGuestRole(u: Users.User)
  {
    u.roles.Some? && ContainsText(u.roles.value, "GUEST")
  }

  /** findByRolesContaining: the matching users in repository order. */
  function Guests(users: seq<Users.User>): (guests: seq<Users.User>)
    ensures forall u :: u in guests <==> u in users && IsGuestRole(u)
  {
    if |users| == 0 then []
    else (if IsGuestRole(users[0]) then [users[0]] else []) + Guests(users[1..])
  }

  /** The users whose id is not in dead, in order. */
  function KeepIds(users: seq<Users.User>, dead: set<string>): (r: seq<Users.User>)
    ensures |r| <= |users|
  {
    if |users| == 0 then []
    else (if users[0].id in dead then [] else [users[0]]) + KeepIds(users[1..], dead)
  }

  lemma {:induction false} KeepIdsMembers(users: seq<Users.User>, dead: set<string>)
    ensures forall u :: u in KeepIds(users, dead) <==> u in users && u.id !in dead
  {
    if |users| > 0 {
      KeepIdsMembers(users[1..], dead);
      assert users == [users[0]] + users[1..];
    }
  }

  lemma {:induction false} KeepIdsTwice(users: seq<Users.User>, a: set<string>, b: set<string>)
    ensures KeepIds(KeepIds(users, a), b) == KeepIds(users, a + b)
  {
    if |users| > 0 {
      KeepIdsTwice(users[1..], a, b);
      var rest := KeepIds(users[1..], a);
      if users[0].id !in a {
        assert KeepIds(users, a) == [users[0]] + rest;
        assert ([users[0]] + rest)[1..] == rest;
      } else {
        assert KeepIds(users, a) == rest;
      }
    }
  }

  lemma {:induction false} KeepIdsNone(users: seq<Users.User>)
    ensures KeepIds(users, {}) == users
  {
    if |users| > 0 {
      KeepIdsNone(users[1..]);
      assert users == [users[0]] + users[1..];
    }
  }

  /** The ids the guest sweep deletes: guests whose id is not an activity key. */
  function InactiveGuestIds(guests: seq<Users.User>, activityKeys: set<string>): (ids: set<string>)
    ensures ids !! activityKeys
  {
    if |guests| == 0 then {}
    else
      var last := guests[|guests| - 1];
      InactiveGuestIds(guests[..|guests| - 1], activityKeys) + (if last.id !in activityKeys then {last.id} else {})
  }

  /** The deleted ids are exactly the ids of the listed guests that are not activity keys. */
  lemma {:induction false} InactiveGuestIdsMeaning(guests: seq<Users.User>, activityKeys: set<string>)
    ensures forall id :: id in InactiveGuestIds(guests, activityKeys) <==> exists g :: g in guests && g.id == id && id !in activityKeys
  {
    if |guests| > 0 {
      var init := guests[..|guests| - 1];
      InactiveGuestIdsMeaning(init, activityKeys);
      assert guests == init + [guests[|guests| - 1]];
    }
  }

  lemma InactiveGuestIdsStep(guests: seq<Users.User>, i: nat, activityKeys: set<string>)
    requires i < |guests|
    ensures InactiveGuestIds(guests[..i + 1], activityKeys)
            == InactiveGuestIds(guests[..i], activityKeys) + (if guests[i].id !in activityKeys then {guests[i].id} else {})
  {
    assert guests[..i + 1][..i] == guests[..i];
  }

  /** The user list after a guest sweep. */
  function SweepGuests(users: seq<Users.User>, activityKeys: set<string>): seq<Users.User>
  {
    KeepIds(users, InactiveGuestIds(Guests(users), activityKeys))
  }

  /**
   * What the sweep keeps, with ids unique in the repository as its primary
   * key: exactly the users that are not guests or whose id is active, in
   * their order. So no active user and no registered user is ever deleted.
   */
  lemma SweepGuestsKeeps(users: seq<Users.User>, activityKeys: set<string>)
    requires forall i, j :: 0 <= i < j < |users| ==> users[i].id != users[j].id
    ensures forall u :: u in SweepGuests(users, activityKeys) <==> u in users && (!IsGuestRole(u) || u.id in activityKeys)
  {
    InactiveGuestIdsMeaning(Guests(users), activityKeys);
    KeepIdsMembers(users, InactiveGuestIds(Guests(users), activityKeys));
  }

  /** With no guest in the repository the sweep deletes nothing. */
  lemma SweepWithoutGuests(users: seq<Users.User>, activityKeys: set<string>)
    requires forall k :: 0 <= k < |users| ==> !IsGuestRole(users[k])
    ensures SweepGuests(users, activityKeys) == users
  {
    NoGuests(users);
    KeepIdsNone(users);
  }

  lemma {:induction false} NoGuests(users: seq<Users.User>)
    requires forall k :: 0 <= k < |users| ==> !IsGuestRole(users[k])
    ensures Guests(users) == []
  {
    if |users| > 0 {
      NoGuests(users[1..]);
    }
  }

  // ---------------------------------------------------------------------------
  // Pruning the game sessions

  /** removeIf(user -> !activityKeys.contains(user.getId())): the active players, in order. */
  function KeepActive(team: seq<Users.User>, activityKeys: set<string>): (r: seq<Users.User>)
    ensures forall u :: u in r <==> u in team && u.id in activityKeys
    ensures |r| <= |team|
  {
    if |team| == 0 then []
    else (if team[0].id in activityKeys then [team[0]] else []) + KeepActive(team[1..], activityKeys)
  }

  /** Pruning works piecewise, so the remaining players keep their relative order. */
  lemma {:induction false} KeepActiveAppend(a: seq<Users.User>, b: seq<Users.User>, activityKeys: set<string>)
    ensures KeepActive(a + b, activityKeys) == KeepActive(a, activityKeys) + KeepActive(b, activityKeys)
  {
    if |a| == 0 {
      assert a + b == b;
    } else {
      assert (a + b)[1..] == a[1..] + b;
      KeepActiveAppend(a[1..], b, activityKeys);
    }
  }

  /** The two teams of a session with their inactive players removed. */
  function Prune(s: Session, activityKeys: set<string>): Session
    requires s.connectedUsers.Some? && |s.connectedUsers.value| >= 2
  {
    var teams := s.connectedUsers.value;
    s.(connectedUsers := Some(teams[0 := KeepActive(teams[0], activityKeys)][1 := KeepActive(teams[1], activityKeys)]))
  }

  predicate Abandoned(s: Session)
    requires s.connectedUsers.Some? && |s.connectedUsers.value| >= 2
  {
    |s.connectedUsers.value[0]| == 0 && |s.connectedUsers.value[1]| == 0
  }

  /** The sessions the sweep can walk: two team lists, stored under their own id. */
  predicate Sweepable(sessions: map<string, Session>)
  {
    forall k :: k in sessions ==>
      sessions[k].connectedUsers.Some? && |sessions[k].connectedUsers.value| >= 2
      && sessions[k].sessionId == Some(GameSessions.Uuid(k))
  }

  /** The intended result of cleanGameSessionCollection: every session pruned, the abandoned ones gone. */
  function SweepSessions(sessions: map<string, Session>, activityKeys: set<string>): (r: map<string, Session>)
    requires Sweepable(sessions)
    ensures forall k :: k in r <==> k in sessions && !Abandoned(Prune(sessions[k], activityKeys))
    ensures forall k :: k in r ==> r[k] == Prune(sessions[k], activityKeys)
  {
    map k | k in sessions && !Abandoned(Prune(sessions[k], activityKeys)) :: Prune(sessions[k], activityKeys)
  }

  /** A session keeps its key exactly when one of its first two teams still has an active player. */
  lemma SweepKeepsSessionsWithActivePlayers(sessions: map<string, Session>, activityKeys: set<string>, k: string)
    requires Sweepable(sessions) && k in sessions
    ensures var teams := sessions[k].connectedUsers.value;
      k in SweepSessions(sessions, activityKeys)
      <==> exists u: Users.User :: (u in teams[0] || u in teams[1]) && u.id in activityKeys
  {
    var teams := sessions[k].connectedUsers.value;
    var p := Prune(sessions[k], activityKeys).connectedUsers.value;
    assert p[0] == KeepActive(teams[0], activityKeys) && p[1] == KeepActive(teams[1], activityKeys);
    if k in SweepSessions(sessions, activityKeys) {
      if |p[0]| > 0 {
        assert p[0][0] in p[0];
      } else {
        assert p[1][0] in p[1];
      }
    }
  }

  class SchedulerService {
    var users: seq<Users.User>
    var sessions: map<string, Session>
    var activityKeys: set<string>

    constructor(users: seq<Users.User>, sessions: map<string, Session>, activityKeys: set<string>)
      ensures this.users == users && this.sessions == sessions && this.activityKeys == activityKeys
    {
      this.users, this.sessions, this.activityKeys := users, sessions, activityKeys;
    }

    /** cleanUserCollection: each inactive guest is deleted by id; the result is SweepGuests. */
    method CleanUserCollection()
      modifies this
      ensures users == SweepGuests(old(users), activityKeys)
      ensures sessions == old(sessions) && activityKeys == old(activityKeys)
    {
      var allGuests := Guests(users);
      if |allGuests| == 0 {
        KeepIdsNone(users);
        return;
      }
      ghost var before := users;
      KeepIdsNone(users);
      assert allGuests[..0] == [];
      var i := 0;
      while i < |allGuests|
        invariant 0 <= i <= |allGuests|
        invariant users == KeepIds(before, InactiveGuestIds(allGuests[..i], activityKeys))
        invariant sessions == old(sessions) && activityKeys == old(activityKeys)
      {
        var userId := allGuests[i].id;
        InactiveGuestIdsStep(allGuests, i, activityKeys);
        ghost var dead := InactiveGuestIds(allGuests[..i], activityKeys);
        if userId !in activityKeys {
          KeepIdsTwice(before, dead, {userId});
          users := KeepIds(users, {userId});
          assert users == KeepIds(before, dead + {userId});
        } else {
          assert dead + {} == dead;
        }
        assert users == KeepIds(before, InactiveGuestIds(allGuests[..i + 1], activityKeys));
        i := i + 1;
      }
      assert allGuests[..i] == allGuests;
    }

    /**
     * cleanGameSessionCollection as written: the walk goes over copies of
     * the stored sessions (keys in walk order), prunes the copies, which are
     * never put back, and deletes an abandoned session by its UUID from a map
     * keyed by text, which matches no entry. A session without two team
     * lists throws. The store never changes.
     */
    method CleanGameSessionCollectionAsWritten(order: seq<string>) returns (r: Result<(), string>)
      requires forall k :: k in sessions <==> k in order
      modifies this
      ensures sessions == old(sessions) && users == old(users) && activityKeys == old(activityKeys)
      ensures r.Ok? <==> forall k :: k in sessions ==> sessions[k].connectedUsers.Some? && |sessions[k].connectedUsers.value| >= 2
    {
      if |order| == 0 {
        return Ok(());
      }
      var i := 0;
      while i < |order|
        invariant 0 <= i <= |order|
        invariant forall j :: 0 <= j < i ==> sessions[order[j]].connectedUsers.Some? && |sessions[order[j]].connectedUsers.value| >= 2
      {
        var gameSession := sessions[order[i]];
        if gameSession.connectedUsers.None? || |gameSession.connectedUsers.value| < 2 {
          return Err("NullPointerException or IndexOutOfBoundsException");
        }
        var pruned := Prune(gameSession, activityKeys);
        if Abandoned(pruned) {
          // gameSessionMap.delete(gameSession.getSessionId()): a UUID is never equal to a String key.
        }
        i := i + 1;
      }
      forall k | k in sessions ensures sessions[k].connectedUsers.Some? && |sessions[k].connectedUsers.value| >= 2 {
        var j :| 0 <= j < |order| && order[j] == k;
      }
      return Ok(());
    }

    /**
     * The sweep as evidently intended: each pruned session is put back under
     * its key, and an abandoned one is deleted by its id's text.
     */
    method CleanGameSessionCollection(order: seq<string>)
      requires forall k :: k in sessions <==> k in order
      requires forall i, j :: 0 <= i < j < |order| ==> order[i] != order[j]
      requires Sweepable(sessions)
      modifies this
      ensures sessions == SweepSessions(old(sessions), activityKeys)
      ensures users == old(users) && activityKeys == old(activityKeys)
    {
      ghost var before := sessions;
      ghost var done: set<string> := {};
      PartialNone(before, activityKeys);
      var i := 0;
      while i < |order|
        invariant 0 <= i <= |order|
        invariant users == old(users) && activityKeys == old(activityKeys)
        invariant done <= before.Keys
        invariant forall j :: 0 <= j < i ==> order[j] in done
        invariant forall j :: i <= j < |order| ==> order[j] !in done
        invariant Sweepable(before)
        invariant sessions == Partial(before, done, activityKeys)
      {
        var key := order[i];
        SweepOne(key, before, done);
        done := done + {key};
        i := i + 1;
      }
      assert done == before.Keys;
      PartialAll(before, activityKeys);
    }

    /** One step of the sweep: the session under key is pruned, then put back or deleted by its id's text. */
    method SweepOne(key: string, ghost before: map<string, Session>, ghost done: set<string>)
      requires Sweepable(before) && key in before && key !in done
      requires sessions == Partial(before, done, activityKeys)
      modifies this
      ensures sessions == Partial(before, done + {key}, activityKeys)
      ensures users == old(users) && activityKeys == old(activityKeys)
    {
      PartialUntouched(before, done, key, activityKeys);
      var gameSession := sessions[key];
      assert gameSession.sessionId.value.text == key;
      var pruned := Prune(gameSession, activityKeys);
      if Abandoned(pruned) {
        PartialDrop(before, done, key, activityKeys);
        sessions := sessions - {gameSession.sessionId.value.text};
      } else {
        PartialKeep(before, done, key, activityKeys);
        sessions := sessions[key := pruned];
      }
    }
  }

  /** The store part-way through the intended sweep: the keys in done are handled, the rest untouched. */
  ghost function Partial(before: map<string, Session>, done: set<string>, activityKeys: set<string>): map<string, Session>
    requires Sweepable(before)
  {
    map k | k in before && (k !in done || !Abandoned(Prune(before[k], activityKeys)))
      :: if k in done then Prune(before[k], activityKeys) else before[k]
  }

  lemma PartialNone(before: map<string, Session>, activityKeys: set<string>)
    requires Sweepable(before)
    ensures Partial(before, {}, activityKeys) == before
  {
  }

  /** A key not yet handled still holds the session it held before the sweep. */
  lemma PartialUntouched(before: map<string, Session>, done: set<string>, key: string, activityKeys: set<string>)
    requires Sweepable(before) && key in before && key !in done
    ensures key in Partial(before, done, activityKeys) && Partial(before, done, activityKeys)[key] == before[key]
  {
  }

  /** Handling a key whose pruned session is abandoned removes that key and nothing else. */
  lemma PartialDrop(before: map<string, Session>, done: set<string>, key: string, activityKeys: set<string>)
    requires Sweepable(before) && key in before && key !in done
    requires Abandoned(Prune(before[key], activityKeys))
    ensures Partial(before, done + {key}, activityKeys) == Partial(before, done, activityKeys) - {key}
  {
    var cur := Partial(before, done, activityKeys);
    var next := Partial(before, done + {key}, activityKeys);
    forall k | k != key
      ensures (k in next <==> k in cur) && (k in next ==> next[k] == cur[k])
    {
      assert k in done + {key} <==> k in done;
    }
    assert key !in next;
  }

  /** Handling a key whose pruned session keeps a player stores the pruned session under it. */
  lemma PartialKeep(before: map<string, Session>, done: set<string>, key: string, activityKeys: set<string>)
    requires Sweepable(before) && key in before && key !in done
    requires !Abandoned(Prune(before[key], activityKeys))
    ensures Partial(before, done + {key}, activityKeys)
            == Partial(before, done, activityKeys)[key := Prune(before[key], activityKeys)]
  {
    var cur := Partial(before, done, activityKeys);
    var next := Partial(before, done + {key}, activityKeys);
    var expected := cur[key := Prune(before[key], activityKeys)];
    assert next.Keys == expected.Keys;
    forall k | k in next
      ensures next[k] == expected[k]
    {
      if k != key {
        assert next[k] == cur[k];
      }
    }
  }

  lemma PartialAll(before: map<string, Session>, activityKeys: set<string>)
    requires Sweepable(before)
    ensures Partial(before, before.Keys, activityKeys) == SweepSessions(before, activityKeys)
  {
  }

  /** A session whose players have all gone idle: the written sweep keeps it, the intended one drops it. */
  lemma AbandonedSessionIsDropped(sessions: map<string, Session>, activityKeys: set<string>, k: string)
    requires Sweepable(sessions) && k in sessions
    requires forall u: Users.User :: u in sessions[k].connectedUsers.value[0] || u in sessions[k].connectedUsers.value[1] ==> u.id !in activityKeys
    ensures k !in SweepSessions(sessions, activityKeys)
  {
    SweepKeepsSessionsWithActivePlayers(sessions, activityKeys, k);
  }
}
