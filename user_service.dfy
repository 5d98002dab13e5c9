/**
 * DefaultUserService: account creation with its ordered checks, profile
 * update, password reset through a single-use reset token, activation and
 * the generated guest username. The password encoder is a function
 * parameter; Faker's random draws are a sequence supplied by the caller.
 */
module UserService {
  import opened Wrappers
  import opened Users
  import opened JavaText
  import opened Tokens

  /** IllegalArgumentException from updateUser, UsernameNotFoundException from isAccountActivated. */
  datatype UserError = IllegalArgument | UsernameNotFound

  const InvalidEmail: string := "Invalid email address"
  const EmailTaken: string := "E-mail already exists."
  const UsernameTaken: string := "Username already exists."
  const DefaultRole: string := "ROLE_USER"

  /** The adjectives a generated username starts with. */
  const Adjectives: seq<string> := ["Fast", "Mighty", "Clever", "Brave", "Lucky", "Fierce", "Gentle"]

  /** The message createUser returns, or None when the user is admitted; the checks run in this order. */
  function Refusal(users: seq<User>, user: User): Option<string>
  {
    if user.isGuest then None
    else if user.email.None? || |user.email.value| == 0 then Some(InvalidEmail)
    else if ExistsByEmail(users, user.email.value) then Some(EmailTaken)
    else if ExistsByUsername(users, user.username) then Some(UsernameTaken)
    else None
  }

  /** The user object as createUser leaves it before saving an admitted user. */
  function Prepared(user: User, encode: string -> string): User
  {
    var u := user.(status := Some(INACTIVE));
    if u.isGuest then u
    else u.(password := encode(u.password), roles := if u.roles.None? then Some(DefaultRole) else u.roles)
  }

  /**
   * Creating the same non-guest account twice is refused the second time,
   * on its e-mail address, whatever the first call stored.
   */
  lemma CreatedAccountIsRefusedAgain(users: seq<User>, user: User, encode: string -> string)
    requires !user.isGuest && Refusal(users, user).None?
    ensures Refusal(Save(users, Prepared(user, encode)), user) == Some(EmailTaken)
  {
    var stored := Prepared(user, encode);
    var after := Save(users, stored);
    var k :| 0 <= k < |after| && after[k] == stored;
    assert after[k].email == Some(user.email.value);
  }

  /** An admitted account is stored inactive; only non-guests have their password encoded and a default role. */
  lemma PreparedAccount(user: User, encode: string -> string)
    ensures Prepared(user, encode).status == Some(INACTIVE)
    ensures Prepared(user, encode).id == user.id && Prepared(user, encode).email == user.email
    ensures user.isGuest ==> Prepared(user, encode).password == user.password && Prepared(user, encode).roles == user.roles
    ensures !user.isGuest ==> Prepared(user, encode).password == encode(user.password)
    ensures !user.isGuest ==> Prepared(user, encode).roles == Some(user.roles.GetOr(DefaultRole))
  {
  }

  /** The stored user after updateUser: new username and encoded password, everything else kept. */
  function Updated(stored: User, update: User, encode: string -> string): User
  {
    stored.(username := update.username, password := encode(update.password))
  }

  /** The user list after a password reset for email: the first user with it gets the new password. */
  function WithPassword(users: seq<User>, email: string, encoded: string): seq<User>
  {
    match FindByEmail(users, email)
    case Some(u) => Save(users, u.(password := encoded))
    case None => users
  }

  /** The user list after activateUser: the first user with the username becomes ACTIVE. */
  function Activated(users: seq<User>, username: string): seq<User>
  {
    match FindByUsername(users, username)
    case Some(u) => Save(users, u.(status := Some(ACTIVE)))
    case None => users
  }

  /** A password reset reaches the account with that address, and only its password changes. */
  lemma ResetReachesAccount(users: seq<User>, email: string, encoded: string)
    requires UniqueIds(users) && FindByEmail(users, email).Some?
    ensures FindByEmail(WithPassword(users, email, encoded), email)
            == Some(FindByEmail(users, email).value.(password := encoded))
  {
    var u := FindByEmail(users, email).value;
    SaveReplacesFound(users, (v: User) => v.email == Some(email), u.(password := encoded));
  }

  /** After activateUser, isAccountActivated holds for that username. */
  lemma ActivationTakesEffect(users: seq<User>, username: string)
    requires UniqueIds(users) && ExistsByUsername(users, username)
    ensures FindByUsername(Activated(users, username), username).Some?
    ensures FindByUsername(Activated(users, username), username).value.status == Some(ACTIVE)
  {
    var u := FindByUsername(users, username).value;
    SaveReplacesFound(users, (v: User) => v.username == username, u.(status := Some(ACTIVE)));
  }

  /** A generated username: the adjective picked by the draw, then the animal name, spaces removed. */
  function Candidate(draw: (nat, string)): (name: string)
    ensures ' ' !in name
  {
    RemoveSpaces(Adjectives[draw.0 % |Adjectives|] + draw.1)
  }

  class DefaultUserService {
    var users: seq<User>
    const resetService: PasswordResetService

    constructor(users: seq<User>, resetService: PasswordResetService)
      ensures this.users == users && this.resetService == resetService
    {
      this.users := users;
      this.resetService := resetService;
    }

    /**
     * createUser: returns the refusal message, or None after saving; user'
     * is the caller's object afterwards, which is marked INACTIVE on every path.
     */
    method CreateUser(user: User, encode: string -> string) returns (refusal: Option<string>, user': User)
      modifies this
      ensures refusal == Refusal(old(users), user)
      ensures user'.status == Some(INACTIVE)
      ensures refusal.Some? ==> user' == user.(status := Some(INACTIVE)) && users == old(users)
      ensures refusal.None? ==> user' == Prepared(user, encode) && users == Save(old(users), user')
    {
      user' := user.(status := Some(INACTIVE));
      if !user'.isGuest && (user'.email.None? || |user'.email.value| == 0) {
        return Some(InvalidEmail), user';
      }
      if !user'.isGuest && ExistsByEmail(users, user'.email.value) {
        return Some(EmailTaken), user';
      }
      if !user'.isGuest && ExistsByUsername(users, user'.username) {
        return Some(UsernameTaken), user';
      }
      if !user'.isGuest {
        user' := user'.(password := encode(user'.password));
        if user'.roles.None? {
          user' := user'.(roles := Some(DefaultRole));
        }
      }
      users := Save(users, user');
      refusal := None;
    }

    /** updateUser: an unknown id throws and changes nothing. */
    method UpdateUser(id: string, update: User, encode: string -> string) returns (r: Result<User, UserError>)
      modifies this
      ensures FindById(old(users), id).None? ==> r == Err(IllegalArgument) && users == old(users)
      ensures FindById(old(users), id).Some? ==>
                r == Ok(Updated(FindById(old(users), id).value, update, encode)) && users == Save(old(users), r.value)
      ensures r.Ok? ==> FindById(users, id) == Some(r.value)
    {
      var found := FindById(users, id);
      if found.None? {
        return Err(IllegalArgument);
      }
      var u := Updated(found.value, update, encode);
      users := Save(users, u);
      SavedIsFound(old(users), u);
      r := Ok(u);
    }

    /**
     * resetPassword: false for an unknown token or one the reset service
     * refuses; once the service accepts (and so redeems) it, the user with
     * the token's address, if any, gets the encoded password and the
     * answer is true.
     */
    method ResetPassword(token: string, req: Request, password: string, encode: string -> string, now: int)
      returns (r: Result<bool, IpError>)
      modifies this, resetService
      ensures !ResetTokenValid(old(resetService.tokens), token, now) ==>
                r == Ok(false) && users == old(users) && resetService.tokens == old(resetService.tokens)
      ensures ResetTokenValid(old(resetService.tokens), token, now) && ClientIp(req).Ok? ==>
                r == Ok(true)
                && users == WithPassword(old(users), old(resetService.tokens)[token].userEmail, encode(password))
                && resetService.tokens == old(resetService.tokens)[token := Redeemed(old(resetService.tokens)[token], ClientIp(req).value)]
      ensures ResetTokenValid(old(resetService.tokens), token, now) && ClientIp(req).Err? ==>
                r.Err? && users == old(users) && resetService.tokens == old(resetService.tokens)
    {
      if token !in resetService.tokens {
        return Ok(false);
      }
      var stored := resetService.tokens[token];
      var valid := resetService.IsValidToken(token, req, now);
      if valid.Err? {
        return Err(valid.error);
      }
      if valid.value {
        var holder := FindByEmail(users, stored.userEmail);
        if holder.Some? {
          users := Save(users, holder.value.(password := encode(password)));
        }
        return Ok(true);
      }
      r := Ok(false);
    }

    /** activateUser: an unknown username is ignored. */
    method ActivateUser(username: string)
      modifies this
      ensures users == Activated(old(users), username)
    {
      var found := FindByUsername(users, username);
      if found.Some? {
        users := Save(users, found.value.(status := Some(ACTIVE)));
      }
    }

    /** isAccountActivated: an unknown username throws; otherwise whether the status is ACTIVE. */
    method IsAccountActivated(username: string) returns (r: Result<bool, UserError>)
      ensures r == Err(UsernameNotFound) <==> !ExistsByUsername(users, username)
      ensures r == Ok(true) <==> ExistsByUsername(users, username) && FindByUsername(users, username).value.status == Some(ACTIVE)
    {
      var found := FindByUsername(users, username);
      if found.None? {
        return Err(UsernameNotFound);
      }
      r := Ok(found.value.status == Some(ACTIVE));
    }

    /**
     * generateUniqueUsername: candidates are drawn until one is free; the
     * draws must eventually offer a free name, as the source loops until then.
     */
    method GenerateUniqueUsername(draws: seq<(nat, string)>) returns (username: string)
      requires exists w :: 0 <= w < |draws| && !ExistsByUsername(users, Candidate(draws[w]))
      ensures !ExistsByUsername(users, username) && ' ' !in username
      ensures exists i :: 0 <= i < |draws| && username == Candidate(draws[i])
                          && forall j :: 0 <= j < i ==> ExistsByUsername(users, Candidate(draws[j]))
    {
      var i := 0;
      username := RemoveSpaces(Adjectives[draws[0].0 % |Adjectives|] + draws[0].1);
      while ExistsByUsername(users, username)
        invariant 0 <= i < |draws| && username == Candidate(draws[i])
        invariant forall j :: 0 <= j < i ==> ExistsByUsername(users, Candidate(draws[j]))
        decreases |draws| - i
      {
        i := i + 1;
        username := RemoveSpaces(Adjectives[draws[i].0 % |Adjectives|] + draws[i].1);
      }
    }
  }
}
