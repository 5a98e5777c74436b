/** The UserDetailsService the authentication manager consults: it turns a stored
    user into a security principal. */
module CustomUserDetailsService {
  import opened Common
  import opened Entities
  import Store

  /** The principal built by User.withUsername(...).password(...).authorities(...). */
  datatype UserDetails = UserDetails(username: string, password: string, authorities: seq<string>)

  /** The only authority ever granted. */
  const UserAuthority: string := "USER"

  /** Message of the BadCredentialsException the authentication provider throws. */
  const BadCredentialsMessage: string := "Bad credentials"

  /** loadUserByUsername: the principal of the user stored under this email, or
      UsernameNotFoundException "User not found : <email>". */
  function LoadUserByUsername(users: seq<UserEntity>, email: string): (r: Result<UserDetails>)
    ensures r.Err? <==> forall i :: 0 <= i < |users| ==> users[i].email != email
    ensures r.Err? ==> r.failure == Failure(UsernameNotFound, "User not found : " + email)
    ensures r.Ok? ==> exists i :: 0 <= i < |users| && users[i].email == email && r.value.password == users[i].password
    ensures r.Ok? ==> r.value.username == email && r.value.authorities == ["USER"]
  {
    match Store.FindUserByEmail(users, email)
    case None => Err(Failure(UsernameNotFound, "User not found : " + email))
    case Some(u) => Ok(UserDetails(u.email, u.password, [UserAuthority]))
  }

  /** In a well-formed users table the principal carries exactly the stored hash of
      the one user with that email. */
  lemma LoadedPrincipalIsStoredUser(users: seq<UserEntity>, i: nat)
    requires Store.UsersWellFormed(users) && i < |users|
    ensures LoadUserByUsername(users, users[i].email) == Ok(UserDetails(users[i].email, users[i].password, ["USER"]))
  {
  }

  /** AuthenticationManager.authenticate as the security configuration assembles it:
      a DAO provider over loadUserByUsername and the password encoder's `matches`.
      An unknown email and a wrong password both end in BadCredentialsException
      "Bad credentials" (the provider hides the user-not-found case); otherwise the
      authentication's principal is the loaded user, whose username is the email. */
  function Authenticate(users: seq<UserEntity>, email: string, password: string,
                        passwordMatches: (string, string) -> bool): (r: Result<UserDetails>)
    ensures r.Ok? <==> Store.FindUserByEmail(users, email).Some?
                       && passwordMatches(password, Store.FindUserByEmail(users, email).value.password)
    ensures r.Ok? ==> r.value.username == email && r.value.password == Store.FindUserByEmail(users, email).value.password
    ensures r.Err? ==> r.failure == Failure(BadCredentials, BadCredentialsMessage)
  {
    match LoadUserByUsername(users, email)
    case Err(_) => Err(Failure(BadCredentials, BadCredentialsMessage))
    case Ok(principal) =>
      if passwordMatches(password, principal.password) then Ok(principal)
      else Err(Failure(BadCredentials, BadCredentialsMessage))
  }

  /** In a well-formed users table, the credentials accepted for an email are exactly
      the passwords matching the hash stored for that user. */
  lemma AuthenticateChecksStoredHash(users: seq<UserEntity>, i: nat, password: string,
                                     passwordMatches: (string, string) -> bool)
    requires Store.UsersWellFormed(users) && i < |users|
    ensures Authenticate(users, users[i].email, password, passwordMatches).Ok?
            <==> passwordMatches(password, users[i].password)
    ensures Authenticate(users, users[i].email, password, passwordMatches).Ok? ==>
            Authenticate(users, users[i].email, password, passwordMatches).value.username == users[i].email
  {
    LoadedPrincipalIsStoredUser(users, i);
  }
}
