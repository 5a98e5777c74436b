/** The end-to-end revocation guarantee: a token issued by register or login and
    then logged out is refused by the database filter on every later request,
    whatever the signature check says about it. */
module Revocation {
  import opened Common
  import opened Dto
  import opened Entities
  import opened Store
  import UserServiceImpl
  import AuthController
  import JwtTokenDatabaseFilter

  /** Right after logout of any token, the filter rejects that token, whether or
      not it had a row. */
  lemma LogoutThenFilterRejects(tokens: map<string, TokenRow>, token: string)
    ensures JwtTokenDatabaseFilter.Decide(Some(BearerPrefix + token), UserServiceImpl.Revoke(tokens, token))
         == JwtTokenDatabaseFilter.Reject
  {
  }

  /** Logout followed by any sequence of steps that never revalidates a row keeps
      the token out, for every signature verdict. */
  lemma LoggedOutStaysOut(tokens: map<string, TokenRow>, later: map<string, TokenRow>, token: string,
                                             signatureAccepted: string -> bool)
    requires token in tokens
    requires NoRevalidation(UserServiceImpl.Revoke(tokens, token), later)
    ensures JwtTokenDatabaseFilter.Decide(Some(BearerPrefix + token), later) == JwtTokenDatabaseFilter.Reject
    ensures !JwtTokenDatabaseFilter.Reaches(Some(BearerPrefix + token), later, signatureAccepted)
  {
  }

  /** A request carrying a token without a valid row: the filter answers 401 and
      the rest of the chain is not invoked. */
  method RequestWithRevokedToken(filter: JwtTokenDatabaseFilter.TokenDatabaseFilter, token: string,
                                 response: JwtTokenDatabaseFilter.HttpResponse,
                                 chain: JwtTokenDatabaseFilter.FilterChain)
    requires filter.db.Valid()
    requires token !in filter.db.tokens || !filter.db.tokens[token].valid
    modifies response, chain
    ensures chain.invocations == old(chain.invocations)
    ensures response.status == JwtTokenDatabaseFilter.UnauthorizedStatus
    ensures response.body == old(response.body) + JwtTokenDatabaseFilter.RevokedBody
  {
    JwtTokenDatabaseFilter.BearerDecision(token, filter.db.tokens);
    filter.DoFilterInternal(Some(BearerPrefix + token), response, chain);
  }

  /** POST /api/auth/logout with the bearer header built from `token`: 200, and the
      token's row, if any, is revoked. */
  method LogoutWithBearer(controller: AuthController.AuthController, token: string) returns (resp: AuthController.Response)
    requires controller.userService.db.Valid()
    modifies controller.userService.db
    ensures controller.userService.db.Valid()
    ensures resp.status == 200
    ensures controller.userService.db.tokens == UserServiceImpl.Revoke(old(controller.userService.db.tokens), token)
  {
    BearerRoundTrip(token);
    resp := controller.Logout(Some(BearerPrefix + token));
  }

  /** Log in through the controller and, when the answer is 200, log the returned
      token out: the client got a token exactly when login succeeded, and that
      token, new before the login, now has a revoked row. */
  method LoginThenLogout(controller: AuthController.AuthController, credentials: LoginRequest)
    returns (loggedIn: AuthController.Response, issued: Option<string>)
    requires controller.userService.db.Valid()
    modifies controller.userService.db, controller.userService.clock
    ensures controller.userService.db.Valid()
    ensures loggedIn == AuthController.LoginReply(controller.userService.LoginOutcome(
              old(controller.userService.db.users), old(controller.userService.db.tokens),
              old(controller.userService.clock.ticks), credentials))
    ensures issued == if loggedIn.status == 200 then Some(loggedIn.body.auth.token) else None
    ensures issued.Some? ==> && issued.value !in old(controller.userService.db.tokens)
                             && issued.value in controller.userService.db.tokens
                             && !controller.userService.db.tokens[issued.value].valid
    ensures issued.None? ==> controller.userService.db.tokens == old(controller.userService.db.tokens)
  {
    ghost var users, tokens := controller.userService.db.users, controller.userService.db.tokens;
    ghost var nextTokenId, tick := controller.userService.db.nextTokenId, controller.userService.clock.ticks;
    loggedIn := controller.Login(credentials, []);
    if loggedIn.status != 200 {
      return loggedIn, None;
    }
    controller.userService.LoginStoresValidToken(users, tokens, nextTokenId, tick, credentials);
    var loggedOut := LogoutWithBearer(controller, loggedIn.body.auth.token);
    issued := Some(loggedIn.body.auth.token);
  }

  /** Register through the controller and, when the answer is 200, log the
      returned token out: the same guarantee as for login. */
  method RegisterThenLogout(controller: AuthController.AuthController, registration: RegisterRequest)
    returns (registered: AuthController.Response, issued: Option<string>)
    requires controller.userService.db.Valid()
    modifies controller.userService.db, controller.userService.clock
    ensures controller.userService.db.Valid()
    ensures registered == AuthController.RegisterReply(controller.userService.RegisterOutcome(
              old(controller.userService.db.users), old(controller.userService.db.tokens),
              old(controller.userService.clock.ticks), registration))
    ensures issued == if registered.status == 200 then Some(registered.body.auth.token) else None
    ensures issued.Some? ==> && issued.value !in old(controller.userService.db.tokens)
                             && issued.value in controller.userService.db.tokens
                             && !controller.userService.db.tokens[issued.value].valid
    ensures issued.None? ==> controller.userService.db.tokens == old(controller.userService.db.tokens)
  {
    ghost var users, tokens := controller.userService.db.users, controller.userService.db.tokens;
    ghost var nextTokenId, tick := controller.userService.db.nextTokenId, controller.userService.clock.ticks;
    registered := controller.Register(registration, []);
    if registered.status != 200 {
      return registered, None;
    }
    controller.userService.RegisterStoresValidToken(users, tokens, nextTokenId, tick, registration);
    var loggedOut := LogoutWithBearer(controller, registered.body.auth.token);
    issued := Some(registered.body.auth.token);
  }

  /** Any later login, by anyone, leaves a revoked token revoked. */
  method LoginElsewhere(controller: AuthController.AuthController, other: LoginRequest, revoked: string)
    requires controller.userService.db.Valid()
    requires revoked in controller.userService.db.tokens && !controller.userService.db.tokens[revoked].valid
    modifies controller.userService.db, controller.userService.clock
    ensures controller.userService.db.Valid()
    ensures revoked in controller.userService.db.tokens && !controller.userService.db.tokens[revoked].valid
  {
    var loggedIn := controller.Login(other, []);
  }

  /** Log in, log out, then send a request with the logged-out token: whenever
      login gave the client a token, the filter answers 401 and the rest of the
      chain is not invoked. */
  method LoginLogoutFilter(controller: AuthController.AuthController,
                           filter: JwtTokenDatabaseFilter.TokenDatabaseFilter,
                           credentials: LoginRequest,
                           response: JwtTokenDatabaseFilter.HttpResponse,
                           chain: JwtTokenDatabaseFilter.FilterChain)
    returns (loggedIn: AuthController.Response, issued: Option<string>)
    requires controller.userService.db == filter.db
    requires filter.db.Valid()
    modifies filter.db, controller.userService.clock, response, chain
    ensures loggedIn == AuthController.LoginReply(controller.userService.LoginOutcome(
              old(filter.db.users), old(filter.db.tokens), old(controller.userService.clock.ticks), credentials))
    ensures issued == if loggedIn.status == 200 then Some(loggedIn.body.auth.token) else None
    ensures issued.Some? ==>
      && chain.invocations == old(chain.invocations)
      && response.status == JwtTokenDatabaseFilter.UnauthorizedStatus
      && response.body == old(response.body) + JwtTokenDatabaseFilter.RevokedBody
  {
    loggedIn, issued := LoginThenLogout(controller, credentials);
    if issued.Some? {
      RequestWithRevokedToken(filter, issued.value, response, chain);
    }
  }

  /** Register, log out, let another client log in, then send a request with the
      logged-out token: whenever registration gave the client a token, the later
      login does not bring it back, and the filter answers 401 without invoking
      the rest of the chain. */
  method RegisterLogoutLoginFilter(controller: AuthController.AuthController,
                                   filter: JwtTokenDatabaseFilter.TokenDatabaseFilter,
                                   registration: RegisterRequest, other: LoginRequest,
                                   response: JwtTokenDatabaseFilter.HttpResponse,
                                   chain: JwtTokenDatabaseFilter.FilterChain)
    returns (registered: AuthController.Response, issued: Option<string>)
    requires controller.userService.db == filter.db
    requires filter.db.Valid()
    modifies filter.db, controller.userService.clock, response, chain
    ensures registered == AuthController.RegisterReply(controller.userService.RegisterOutcome(
              old(filter.db.users), old(filter.db.tokens), old(controller.userService.clock.ticks), registration))
    ensures issued == if registered.status == 200 then Some(registered.body.auth.token) else None
    ensures issued.Some? ==>
      && chain.invocations == old(chain.invocations)
      && response.status == JwtTokenDatabaseFilter.UnauthorizedStatus
      && response.body == old(response.body) + JwtTokenDatabaseFilter.RevokedBody
  {
    registered, issued := RegisterThenLogout(controller, registration);
    if issued.Some? {
      LoginElsewhere(controller, other, issued.value);
      RequestWithRevokedToken(filter, issued.value, response, chain);
    }
  }
}
