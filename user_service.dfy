/** The authentication service: login, registration, the current user, lookup by
    id, and logout, over the users and tokens tables. */
module UserServiceImpl {
  import opened Common
  import opened Entities
  import opened Dto
  import opened Store
  import JwtService
  import UserMapper
  import CustomUserDetailsService

  /** What the service reads from an Authentication: its name (the principal). */
  datatype Authentication = Authentication(name: string)

  const EmailInUse: string := "Email already in use"
  const UserDoesNotExist: string := "User does not exist"
  /** Message of Optional.orElseThrow() without a supplier. */
  const NoValuePresent: string := "No value present"

  /** The effect of logout on the tokens table: the row of `token`, if there is
      one, becomes invalid; every other row stays as it was. */
  function Revoke(tokens: map<string, TokenRow>, token: string): (r: map<string, TokenRow>)
    ensures r.Keys == tokens.Keys
    ensures forall t :: t in tokens && t != token ==> r[t] == tokens[t]
    ensures token in tokens ==> !r[token].valid && r[token] == tokens[token].(valid := false)
    ensures token !in tokens ==> r == tokens
  {
    if token in tokens then tokens[token := tokens[token].(valid := false)] else tokens
  }

  /** Logging out twice has the effect of logging out once. */
  lemma RevokeIdempotent(tokens: map<string, TokenRow>, token: string)
    ensures Revoke(Revoke(tokens, token), token) == Revoke(tokens, token)
  {
  }

  /** Logout never makes a revoked token valid again, whichever token it revokes. */
  lemma RevokeNeverRevalidates(tokens: map<string, TokenRow>, token: string)
    ensures NoRevalidation(tokens, Revoke(tokens, token))
  {
  }

  /** Logout keeps the tokens table well formed. */
  lemma RevokeKeepsTokensWellFormed(tokens: map<string, TokenRow>, users: seq<UserEntity>, nextTokenId: nat, token: string)
    requires TokensWellFormed(tokens, users, nextTokenId)
    ensures TokensWellFormed(Revoke(tokens, token), users, nextTokenId)
  {
  }

  class UserService {
    const db: Database
    const clock: Clock
    /** PasswordEncoder.matches (BCrypt): whether a raw password fits a stored hash. */
    const passwordMatches: (string, string) -> bool
    /** PasswordEncoder.encode (BCrypt). */
    const encodePassword: string -> string
    /** JwtEncoder.encode(...).getTokenValue(). */
    const jwtEncoder: JwtService.JwtEncoderParameters -> string

    constructor (db: Database, clock: Clock, passwordMatches: (string, string) -> bool,
                 encodePassword: string -> string, jwtEncoder: JwtService.JwtEncoderParameters -> string)
      ensures this.db == db && this.clock == clock && this.passwordMatches == passwordMatches
      ensures this.encodePassword == encodePassword && this.jwtEncoder == jwtEncoder
    {
      this.db := db;
      this.clock := clock;
      this.passwordMatches := passwordMatches;
      this.encodePassword := encodePassword;
      this.jwtEncoder := jwtEncoder;
    }

    /** The authentication manager's verdict on an email/password pair against the
        users table. */
    ghost function Credentials(users: seq<UserEntity>, request: LoginRequest): Result<CustomUserDetailsService.UserDetails> {
      CustomUserDetailsService.Authenticate(users, request.email, request.password, passwordMatches)
    }

    /** The token generateToken signs for `name` when the clock is at `tick`
        (two readings: `iat`, then `exp`). */
    ghost function TokenAt(name: string, tick: nat): string {
      JwtService.GenerateToken(jwtEncoder, name, clock.reading(tick), clock.reading(tick + 1))
    }

    /** The row register stores for `request`, under identity `id`, when the clock is at `tick`. */
    ghost function RegisteredUser(request: RegisterRequest, id: int, tick: nat): UserEntity {
      UserEntity(Some(id), request.email, request.name, encodePassword(request.password),
                 Some(clock.reading(tick)), Some(clock.reading(tick + 1)))
    }

    /** What login answers for `request` when the tables hold `users` and `tokens`
        and the clock is at `tick`: the manager's exception, the token column's
        rejection of the token signed for the email, or that token. */
    ghost function LoginOutcome(users: seq<UserEntity>, tokens: map<string, TokenRow>, tick: nat,
                                request: LoginRequest): Result<AuthResponse> {
      var token := TokenAt(request.email, tick);
      if Credentials(users, request).Err? then Err(Failure(BadCredentials, CustomUserDetailsService.BadCredentialsMessage))
      else if token in tokens || |token| > MaxTokenLength then Err(Failure(DataIntegrityViolation, db.constraintMessage))
      else Ok(AuthResponse(token))
    }

    /** What register answers for `request` in the same state: the email is taken,
        the email column refuses the new row, the token column rejects the token
        signed after the user row's two timestamps, or that token. */
    ghost function RegisterOutcome(users: seq<UserEntity>, tokens: map<string, TokenRow>, tick: nat,
                                   request: RegisterRequest): Result<AuthResponse> {
      var token := TokenAt(request.email, tick + 2);
      if FindUserByEmail(users, request.email).Some? then Err(Failure(IllegalArgument, EmailInUse))
      else if |request.email| > MaxEmailLength then Err(Failure(DataIntegrityViolation, db.constraintMessage))
      else if token in tokens || |token| > MaxTokenLength then Err(Failure(DataIntegrityViolation, db.constraintMessage))
      else Ok(AuthResponse(token))
    }

    /** The tokens table after a successful login: the token signed for the email at
        `tick` is added as a valid row of the user with that email, created at the
        third clock reading, under the next token id. */
    ghost function TokensAfterLogin(users: seq<UserEntity>, tokens: map<string, TokenRow>, nextTokenId: nat,
                                    tick: nat, request: LoginRequest): map<string, TokenRow> {
      match FindUserByEmail(users, request.email)
      case None => tokens
      case Some(user) =>
        tokens[TokenAt(request.email, tick) := TokenRow(nextTokenId, TokenAt(request.email, tick), user, clock.reading(tick + 2), true)]
    }

    /** The users table after registering a new email: the request's row is
        appended under the next identity. */
    ghost function UsersAfterRegister(users: seq<UserEntity>, tick: nat, request: RegisterRequest): seq<UserEntity> {
      users + [RegisteredUser(request, |users| + 1, tick)]
    }

    /** The tokens table after a successful registration: the token signed for the
        email after the user row's two timestamps is added as a valid row of the new
        user, created at the fifth clock reading, under the next token id. */
    ghost function TokensAfterRegister(users: seq<UserEntity>, tokens: map<string, TokenRow>, nextTokenId: nat,
                                       tick: nat, request: RegisterRequest): map<string, TokenRow> {
      var token := TokenAt(request.email, tick + 2);
      tokens[token := TokenRow(nextTokenId, token, RegisteredUser(request, |users| + 1, tick), clock.reading(tick + 4), true)]
    }

    /** A successful login adds its token, which was not in the table before, as a
        valid row of the user whose email was given. */
    lemma LoginStoresValidToken(users: seq<UserEntity>, tokens: map<string, TokenRow>, nextTokenId: nat,
                                tick: nat, request: LoginRequest)
      requires LoginOutcome(users, tokens, tick, request).Ok?
      ensures var token := LoginOutcome(users, tokens, tick, request).value.token;
              var after := TokensAfterLogin(users, tokens, nextTokenId, tick, request);
              && token !in tokens && token in after && after[token].valid
              && after[token].user.email == request.email
    {
    }

    /** A successful registration adds its token, which was not in the table
        before, as a valid row of the user just registered. */
    lemma RegisterStoresValidToken(users: seq<UserEntity>, tokens: map<string, TokenRow>, nextTokenId: nat,
                                   tick: nat, request: RegisterRequest)
      requires RegisterOutcome(users, tokens, tick, request).Ok?
      ensures var token := RegisterOutcome(users, tokens, tick, request).value.token;
              var after := TokensAfterRegister(users, tokens, nextTokenId, tick, request);
              && token !in tokens && token in after && after[token].valid
              && after[token].user == UsersAfterRegister(users, tick, request)[|users|]
    {
    }

    /** Registered once, then logged in with the same email and password (under an
        encoder whose hashes the matcher accepts): the manager accepts the
        credentials, the user found for the email, which is the token's subject and
        what /me shows, is the row just registered, and the login succeeds exactly
        when the token signed at its clock readings is new to the table and fits
        its column; the row it stores then belongs to the registered user. */
    lemma {:induction false} LoginAfterRegister(users: seq<UserEntity>, tokens: map<string, TokenRow>, nextTokenId: nat,
                                                tick: nat, request: RegisterRequest, loginTick: nat)
      requires RegisterOutcome(users, tokens, tick, request).Ok?
      requires passwordMatches(request.password, encodePassword(request.password))
      ensures var registered := UsersAfterRegister(users, tick, request);
              var issued := TokensAfterRegister(users, tokens, nextTokenId, tick, request);
              var login := LoginRequest(request.email, request.password);
              var token := TokenAt(request.email, loginTick);
              && Credentials(registered, login).Ok?
              && FindUserByEmail(registered, request.email) == Some(RegisteredUser(request, |users| + 1, tick))
              && UserMapper.ToDto(FindUserByEmail(registered, request.email).value).email == request.email
              && UserMapper.ToDto(FindUserByEmail(registered, request.email).value).name == request.name
              && (LoginOutcome(registered, issued, loginTick, login).Ok? <==>
                    token !in issued && |token| <= MaxTokenLength)
              && (LoginOutcome(registered, issued, loginTick, login).Ok? ==>
                    TokensAfterLogin(registered, issued, nextTokenId + 1, loginTick, login)[token].user
                      == RegisteredUser(request, |users| + 1, tick))
    {
      var registered := UsersAfterRegister(users, tick, request);
      var newUser := RegisteredUser(request, |users| + 1, tick);
      var found := FindUserByEmail(registered, request.email);
      assert found.Some? by {
        assert registered[|users|] == newUser;
      }
    }

    /** A login in the same second as the registration, whose token was signed at
        the same two readings, signs the very token the registration stored: the
        claims agree and the signature is deterministic. The unique token column
        refuses it, so the login fails although the credentials are right. */
    lemma SameSecondLoginCollides(users: seq<UserEntity>, tokens: map<string, TokenRow>, nextTokenId: nat,
                                  tick: nat, request: RegisterRequest, loginTick: nat)
      requires RegisterOutcome(users, tokens, tick, request).Ok?
      requires passwordMatches(request.password, encodePassword(request.password))
      requires clock.reading(loginTick) == clock.reading(tick + 2)
      requires clock.reading(loginTick + 1) == clock.reading(tick + 3)
      ensures LoginOutcome(UsersAfterRegister(users, tick, request),
                           TokensAfterRegister(users, tokens, nextTokenId, tick, request),
                           loginTick, LoginRequest(request.email, request.password))
              == Err(Failure(DataIntegrityViolation, db.constraintMessage))
    {
      LoginAfterRegister(users, tokens, nextTokenId, tick, request, loginTick);
      assert TokenAt(request.email, loginTick) == TokenAt(request.email, tick + 2);
    }

    /** jwtService.generateToken(subject): two clock readings, then the encoder. */
    method SignToken(subject: string) returns (token: string)
      modifies clock
      ensures token == TokenAt(subject, old(clock.ticks))
      ensures clock.ticks == old(clock.ticks) + 2
    {
      var issuedAt := clock.Now();
      var expiryBase := clock.Now();
      token := JwtService.GenerateToken(jwtEncoder, subject, issuedAt, expiryBase);
    }

    /** The user half of register: hash the password, map the request, stamp both
        timestamps from two clock readings, and insert the row, which the email
        column refuses when the email is too long for it. */
    method StoreNewUser(request: RegisterRequest) returns (r: Result<UserEntity>)
      requires db.Valid()
      requires FindUserByEmail(db.users, request.email).None?
      modifies db, clock
      ensures db.Valid()
      ensures r.Ok? <==> |request.email| <= MaxEmailLength
      ensures r.Ok? ==>
        && r.value == RegisteredUser(request, |old(db.users)| + 1, old(clock.ticks))
        && db.users == UsersAfterRegister(old(db.users), old(clock.ticks), request)
      ensures r.Err? ==> r.failure == Failure(DataIntegrityViolation, db.constraintMessage) && db.users == old(db.users)
      ensures db.tokens == old(db.tokens) && db.nextTokenId == old(db.nextTokenId)
      ensures db.rentals == old(db.rentals) && db.messages == old(db.messages)
      ensures clock.ticks == old(clock.ticks) + 2
    {
      var hashedPassword := encodePassword(request.password);
      var newUser := UserMapper.ToEntity(request, hashedPassword);
      var createdAt := clock.Now();
      newUser := newUser.(createdAt := Some(createdAt));
      var updatedAt := clock.Now();
      newUser := newUser.(updatedAt := Some(updatedAt));
      r := db.SaveUser(newUser);
    }

    /** The token bookkeeping shared by login and register: a new TokenEntity with
        the token, its user, the current instant and valid = true, inserted. */
    method RecordToken(token: string, user: UserEntity) returns (r: Result<TokenRow>)
      requires db.Valid() && user in db.users
      modifies db, clock
      ensures db.Valid()
      ensures db.users == old(db.users) && db.rentals == old(db.rentals) && db.messages == old(db.messages)
      ensures clock.ticks == old(clock.ticks) + 1
      ensures r.Ok? <==> token !in old(db.tokens) && |token| <= MaxTokenLength
      ensures r.Ok? ==> db.tokens == old(db.tokens)[token := TokenRow(old(db.nextTokenId), token, user, clock.reading(old(clock.ticks)), true)]
      ensures r.Err? ==> r.failure == Failure(DataIntegrityViolation, db.constraintMessage) && db.tokens == old(db.tokens)
      ensures NoRevalidation(old(db.tokens), db.tokens)
    {
      var tokenEntity := new TokenEntity();
      tokenEntity.SetToken(token);
      tokenEntity.SetUser(user);
      var now := clock.Now();
      tokenEntity.SetCreatedAt(now);
      tokenEntity.SetValid(true);
      r := db.SaveToken(tokenEntity);
    }

    /** login: authenticate, sign a token for the authenticated name, and record it
        as valid for the user with the request's email. The lookup after
        authentication cannot come back empty: the manager has just loaded the same
        row, so the outcome is the manager's exception, the token column's rejection,
        or a token whose subject is the email of the user it is stored for. */
    method Login(request: LoginRequest) returns (r: Result<AuthResponse>)
      requires db.Valid()
      modifies db, clock
      ensures db.Valid()
      ensures db.users == old(db.users) && db.rentals == old(db.rentals) && db.messages == old(db.messages)
      ensures NoRevalidation(old(db.tokens), db.tokens)
      ensures r == LoginOutcome(old(db.users), old(db.tokens), old(clock.ticks), request)
      ensures r.Err? ==> db.tokens == old(db.tokens)
      // unknown email or wrong password: no token is signed or stored
      ensures Credentials(old(db.users), request).Err? ==>
        && r == Err(Failure(BadCredentials, CustomUserDetailsService.BadCredentialsMessage))
        && unchanged(db) && clock.ticks == old(clock.ticks)
      // accepted: the token signed for the email is stored unless the token column rejects it
      ensures Credentials(old(db.users), request).Ok? ==>
        && (r.Ok? <==> TokenAt(request.email, old(clock.ticks)) !in old(db.tokens)
                       && |TokenAt(request.email, old(clock.ticks))| <= MaxTokenLength)
        && (r.Err? ==> r.failure == Failure(DataIntegrityViolation, db.constraintMessage))
      ensures r.Ok? ==>
        && Credentials(old(db.users), request).Ok?
        && r.value.token == TokenAt(request.email, old(clock.ticks))
        && r.value.token !in old(db.tokens)
        && db.tokens == TokensAfterLogin(old(db.users), old(db.tokens), old(db.nextTokenId), old(clock.ticks), request)
        && db.tokens[r.value.token].user.email == request.email
    {
      var authentication := CustomUserDetailsService.Authenticate(db.users, request.email, request.password, passwordMatches);
      if authentication.Err? {
        return Err(authentication.failure);
      }
      var token := SignToken(authentication.value.username);

      var user := FindUserByEmail(db.users, request.email);
      if user.None? {
        assert false;
        return Err(Failure(NoSuchElement, NoValuePresent));
      }

      var saved := RecordToken(token, user.value);
      if saved.Err? {
        return Err(saved.failure);
      }
      r := Ok(AuthResponse(token));
    }

    /** register: refuse a known email; otherwise store the user with the hashed
        password and fresh timestamps, then sign a token for the email and record it
        as valid. A refused user insert ends the call; the two inserts are not
        atomic: if the token insert is rejected, the user row stays. */
    method Register(request: RegisterRequest) returns (r: Result<AuthResponse>)
      requires db.Valid()
      modifies db, clock
      ensures db.Valid()
      ensures db.rentals == old(db.rentals) && db.messages == old(db.messages)
      ensures NoRevalidation(old(db.tokens), db.tokens)
      ensures r == RegisterOutcome(old(db.users), old(db.tokens), old(clock.ticks), request)
      ensures r.Err? ==> db.tokens == old(db.tokens)
      // the email is taken: nothing changes
      ensures FindUserByEmail(old(db.users), request.email).Some? ==>
        && r == Err(Failure(IllegalArgument, EmailInUse))
        && unchanged(db) && clock.ticks == old(clock.ticks)
      // a new email too long for its column: the insert is refused and no row is added
      ensures FindUserByEmail(old(db.users), request.email).None? && |request.email| > MaxEmailLength ==>
        && r == Err(Failure(DataIntegrityViolation, db.constraintMessage))
        && db.users == old(db.users)
      // a new email that fits: exactly one user row is added, holding the encoded password
      ensures FindUserByEmail(old(db.users), request.email).None? && |request.email| <= MaxEmailLength ==>
        && db.users == UsersAfterRegister(old(db.users), old(clock.ticks), request)
        && (r.Ok? <==> TokenAt(request.email, old(clock.ticks) + 2) !in old(db.tokens)
                       && |TokenAt(request.email, old(clock.ticks) + 2)| <= MaxTokenLength)
      ensures r.Ok? ==>
        && FindUserByEmail(old(db.users), request.email).None? && |request.email| <= MaxEmailLength
        && r.value.token == TokenAt(request.email, old(clock.ticks) + 2)
        && r.value.token !in old(db.tokens)
        && db.tokens == TokensAfterRegister(old(db.users), old(db.tokens), old(db.nextTokenId), old(clock.ticks), request)
      ensures r.Err? && FindUserByEmail(old(db.users), request.email).None? ==>
        r.failure == Failure(DataIntegrityViolation, db.constraintMessage)
    {
      if FindUserByEmail(db.users, request.email).Some? {
        return Err(Failure(IllegalArgument, EmailInUse));
      }

      var newUser := StoreNewUser(request);
      if newUser.Err? {
        return Err(newUser.failure);
      }

      var token := SignToken(request.email);

      var saved := RecordToken(token, newUser.value);
      if saved.Err? {
        return Err(saved.failure);
      }
      r := Ok(AuthResponse(token));
    }

    /** getAuthenticatedUser: the view of the user whose email is the principal's
        name, or "User does not exist"; never an absent value. */
    function GetAuthenticatedUser(authentication: Authentication): (r: Result<UserDto>)
      reads db
      ensures r.Err? <==> forall i :: 0 <= i < |db.users| ==> db.users[i].email != authentication.name
      ensures r.Err? ==> r.failure == Failure(Runtime, UserDoesNotExist)
      ensures r.Ok? ==> exists i :: 0 <= i < |db.users| && db.users[i].email == authentication.name
                                    && r.value == UserMapper.ToDto(db.users[i])
    {
      match FindUserByEmail(db.users, authentication.name)
      case None => Err(Failure(Runtime, UserDoesNotExist))
      case Some(u) => Ok(UserMapper.ToDto(u))
    }

    /** getUserById: the view of the user with this id, or "User does not exist". */
    function GetUserById(id: int): (r: Result<UserDto>)
      reads db
      ensures r.Err? <==> forall i :: 0 <= i < |db.users| ==> db.users[i].id != Some(id)
      ensures r.Err? ==> r.failure == Failure(Runtime, UserDoesNotExist)
      ensures r.Ok? ==> r.value.id == Some(id)
                        && exists i :: 0 <= i < |db.users| && r.value == UserMapper.ToDto(db.users[i])
    {
      match FindUserById(db.users, id)
      case None => Err(Failure(Runtime, UserDoesNotExist))
      case Some(u) => Ok(UserMapper.ToDto(u))
    }

    /** logout: mark the token's row invalid and save it again; an unknown token is
        only logged and nothing changes. */
    method Logout(token: string)
      requires db.Valid()
      modifies db
      ensures db.Valid()
      ensures db.tokens == Revoke(old(db.tokens), token)
      ensures db.users == old(db.users) && db.rentals == old(db.rentals) && db.messages == old(db.messages)
      ensures db.nextTokenId == old(db.nextTokenId)
    {
      var found := db.FindByToken(token);
      if found.Some? {
        found.value.SetValid(false);
        var saved := db.SaveToken(found.value);
      }
    }
  }

  /** A user just registered is the one /me finds for its email, and the view shows
      the email and name of the request. */
  lemma RegisteredUserIsFound(users: seq<UserEntity>, newUser: UserEntity, request: RegisterRequest)
    requires UsersWellFormed(users + [newUser])
    requires newUser.email == request.email && newUser.name == request.name
    ensures FindUserByEmail(users + [newUser], request.email) == Some(newUser)
    ensures UserMapper.ToDto(FindUserByEmail(users + [newUser], request.email).value).email == request.email
    ensures UserMapper.ToDto(FindUserByEmail(users + [newUser], request.email).value).name == request.name
  {
    FindUserByEmailFindsStored(users + [newUser], |users|);
  }
}
