/**
 * The user record as the services, serialisers and mappers read and write
 * it (the entity's userStatus enum, the friend lists), and the user
 * collection as an ordered list in which queries return the first match.
 */
module Users {
  import opened Wrappers

  /** User.userStatus; the model knows the two values the services assign. */
  datatype UserStatus = ACTIVE | INACTIVE

  datatype User = User(
    id: string,
    username: string,
    password: string,
    email: Option<string>,
    description: string,
    profilePic: int,
    roles: Option<string>,
    isGuest: bool,
    status: Option<UserStatus>,
    friends: seq<string>,
    sentRequests: seq<string>,
    receivedRequests: seq<string>)

  /** Position of the first user satisfying p, or |users| when there is none. */
  function FirstIndex(users: seq<User>, p: User -> bool): (i: nat)
    ensures i <= |users|
    ensures i < |users| ==> p(users[i])
    ensures forall k :: 0 <= k < i ==> !p(users[k])
  {
    if |users| == 0 then 0 else if p(users[0]) then 0 else 1 + FirstIndex(users[1..], p)
  }

  function FindFirst(users: seq<User>, p: User -> bool): (r: Option<User>)
    ensures r.Some? <==> exists k :: 0 <= k < |users| && p(users[k])
    ensures r.Some? ==> r.value in users && p(r.value)
  {
    var i := FirstIndex(users, p);
    if i < |users| then Some(users[i]) else None
  }

  function FindById(users: seq<User>, id: string): Option<User>
  {
    FindFirst(users, (u: User) => u.id == id)
  }

  function FindByUsername(users: seq<User>, username: string): Option<User>
  {
    FindFirst(users, (u: User) => u.username == username)
  }

  function FindByEmail(users: seq<User>, email: string): Option<User>
  {
    FindFirst(users, (u: User) => u.email == Some(email))
  }

  predicate ExistsByUsername(users: seq<User>, username: string)
  {
    exists k :: 0 <= k < |users| && users[k].username == username
  }

  predicate ExistsByEmail(users: seq<User>, email: string)
  {
    exists k :: 0 <= k < |users| && users[k].email == Some(email)
  }

  /** Repository save: replaces the stored user with the same id, or appends a new one. */
  function Save(users: seq<User>, user: User): (r: seq<User>)
    ensures user in r
    ensures |r| == |users| || |r| == |users| + 1
    ensures forall k :: 0 <= k < |users| && users[k].id != user.id ==> users[k] in r
  {
    var i := FirstIndex(users, (u: User) => u.id == user.id);
    if i < |users| then
      assert users[i].id == user.id;
      assert users[i := user][i] == user;
      assert forall k :: 0 <= k < |users| && k != i ==> users[i := user][k] == users[k];
      users[i := user]
    else
      assert (users + [user])[|users|] == user;
      assert forall k :: 0 <= k < |users| ==> (users + [user])[k] == users[k];
      users + [user]
  }

  /** The repository's identity invariant: no two stored users share an id. */
  predicate UniqueIds(users: seq<User>)
  {
    forall i, j :: 0 <= i < j < |users| ==> users[i].id != users[j].id
  }

  lemma {:induction false} FirstIndexIs(users: seq<User>, p: User -> bool, i: nat)
    requires i < |users| && p(users[i])
    requires forall k :: 0 <= k < i ==> !p(users[k])
    ensures FirstIndex(users, p) == i
  {
    if i > 0 {
      assert !p(users[0]);
      assert forall k :: 0 <= k < i - 1 ==> users[1..][k] == users[k + 1];
      FirstIndexIs(users[1..], p, i - 1);
    }
  }

  /** A saved user is what a lookup by its id then returns. */
  lemma SavedIsFound(users: seq<User>, user: User)
    ensures FindById(Save(users, user), user.id) == Some(user)
  {
    var p := (u: User) => u.id == user.id;
    var i := FirstIndex(users, p);
    var r := Save(users, user);
    if i < |users| {
      assert r == users[i := user];
      FirstIndexIs(r, p, i);
    } else {
      assert r == users + [user];
      FirstIndexIs(r, p, |users|);
    }
  }

  /**
   * With unique ids, saving a changed copy of the first user matching p
   * puts the copy in that user's place, so a lookup by p finds the copy
   * as long as the copy still matches.
   */
  lemma SaveReplacesFound(users: seq<User>, p: User -> bool, changed: User)
    requires UniqueIds(users)
    requires FindFirst(users, p).Some? && changed.id == FindFirst(users, p).value.id && p(changed)
    ensures FindFirst(Save(users, changed), p) == Some(changed)
    ensures |Save(users, changed)| == |users|
  {
    var i := FirstIndex(users, p);
    var byId := (u: User) => u.id == changed.id;
    FirstIndexIs(users, byId, i);
    var r := Save(users, changed);
    assert r == users[i := changed];
    FirstIndexIs(r, p, i);
  }
}
