/**
 * The Spring Security view of a user (userDetails/UserEntityUserDetails.java):
 * the username and password copied from the user, and one granted authority
 * per comma-separated piece of the roles string.
 */
module UserDetails {
  import opened Wrappers
  import JavaText
  import Users

  datatype UserEntityUserDetails = UserEntityUserDetails(username: string, password: string, authorities: seq<string>)

  /** Why the constructor throws. */
  datatype DetailsError =
    | NullRoles          // user.getRoles() is null: split dereferences it
    | BlankAuthority     // SimpleGrantedAuthority refuses a piece with no text

  predicate AllHaveText(pieces: seq<string>)
  {
    forall k :: 0 <= k < |pieces| ==> JavaText.HasText(pieces[k])
  }

  /**
   * The constructor: roles.split(",") mapped to authorities in order,
   * without trimming; a piece without text makes the authority constructor
   * throw.
   */
  function FromUser(user: Users.User): (r: Result<UserEntityUserDetails, DetailsError>)
    ensures user.roles.None? ==> r == Err(NullRoles)
    ensures user.roles.Some? ==>
      (r.Ok? <==> AllHaveText(JavaText.Split(user.roles.value, ',')))
    ensures r.Ok? ==>
      r.value.username == user.username && r.value.password == user.password
      && r.value.authorities == JavaText.Split(user.roles.value, ',')
  {
    match user.roles
    case None => Err(NullRoles)
    case Some(roles) =>
      var pieces := JavaText.Split(roles, ',');
      if AllHaveText(pieces) then Ok(UserEntityUserDetails(user.username, user.password, pieces))
      else Err(BlankAuthority)
  }

  function GetAuthorities(details: UserEntityUserDetails): seq<string>
  {
    details.authorities
  }

  /** The four account flags are constant: no account ever expires, locks or is disabled. */
  predicate IsAccountNonExpired(details: UserEntityUserDetails) { true }
  predicate IsAccountNonLocked(details: UserEntityUserDetails) { true }
  predicate IsCredentialsNonExpired(details: UserEntityUserDetails) { true }
  predicate IsEnabled(details: UserEntityUserDetails) { true }

  /**
   * What a built authority list looks like: no authority contains a comma,
   * and each has text; the list is empty exactly when the roles string is
   * made only of commas, and otherwise starts with the roles text up to the
   * first comma.
   */
  lemma AuthoritiesShape(user: Users.User)
    requires FromUser(user).Ok?
    ensures var roles := user.roles.value;
      var a := GetAuthorities(FromUser(user).value);
      (|a| == 0 <==> |roles| > 0 && forall j :: 0 <= j < |roles| ==> roles[j] == ',')
      && (|a| > 0 ==> a[0] == roles[..JavaText.IndexOf(roles, ',')])
      && forall k :: 0 <= k < |a| ==> ',' !in a[k] && JavaText.HasText(a[k])
  {
    JavaText.SplitShape(user.roles.value, ',');
  }

  /** A roles string made only of commas (",", ",,") gives no authority piece at all, so the user gets none. */
  lemma OnlyCommasGiveNoAuthorities(user: Users.User)
    requires user.roles.Some? && |user.roles.value| > 0
    requires forall j :: 0 <= j < |user.roles.value| ==> user.roles.value[j] == ','
    ensures FromUser(user).Ok? && GetAuthorities(FromUser(user).value) == []
  {
    JavaText.SplitShape(user.roles.value, ',');
  }

  /** The single role createUser assigns becomes the single authority. */
  lemma DefaultRoleAuthority(user: Users.User)
    requires user.roles == Some("ROLE_USER")
    ensures FromUser(user).Ok? && GetAuthorities(FromUser(user).value) == ["ROLE_USER"]
  {
    var roles := "ROLE_USER";
    assert ',' !in roles;
    assert JavaText.Split(roles, ',') == [roles];
    assert !JavaText.IsJavaWhitespace(roles[0]);
  }
}
