/** The /api/auth endpoints: validation-message join, mapping of service exceptions
    to HTTP statuses, and bearer-header parsing for logout. */
module AuthController {
  import opened Common
  import opened Dto
  import opened Entities
  import opened Store
  import UserServiceImpl
  import UserMapper
  import CustomUserDetailsService

  /** The JSON error body: error name, numeric status, and the explanation. */
  datatype ErrorResponse = ErrorResponse(error: string, status: int, message: string)

  datatype Body =
    | TokenBody(auth: AuthResponse)
    | UserBody(user: UserDto)
    | ErrorBody(errorResponse: ErrorResponse)
    | SuccessBody(message: string)

  /** A ResponseEntity: status and body. */
  datatype Response = Response(status: int, body: Body)

  const Separator: string := "; "
  const ValidationFallback: string := "Validation error"
  const LoginFailedPrefix: string := "Authentication failed: "
  const RegisterFailedPrefix: string := "Registration failed : "
  const TokenMissing: string := "Token missing or invalid"
  const LoggedOut: string := "Logged out successfully"

  /** The left fold of `reduce((e1, e2) -> e1 + "; " + e2)` from accumulator `acc`:
      it keeps the accumulated text in front and ends with the last message. */
  function Reduce(acc: string, rest: seq<string>): (s: string)
    ensures StartsWith(s, acc)
    ensures |rest| > 0 ==> EndsWith(s, rest[|rest| - 1])
    decreases |rest|
  {
    if |rest| == 0 then acc
    else
      var next := acc + Separator + rest[0];
      var s := Reduce(next, rest[1..]);
      assert s[..|acc|] == next[..|acc|] == acc;
      s
  }

  /** The message of a 400 validation response: the default messages joined with
      "; " in order, or "Validation error" when there are none. */
  function JoinMessages(messages: seq<string>): (s: string)
    ensures |messages| == 0 ==> s == ValidationFallback
    ensures |messages| > 0 ==> StartsWith(s, messages[0]) && EndsWith(s, messages[|messages| - 1])
  {
    if |messages| == 0 then ValidationFallback else Reduce(messages[0], messages[1..])
  }

  /** Reference definition of the join: the first message, then "; " and the join
      of the rest. */
  function Joined(messages: seq<string>): string
    requires |messages| > 0
  {
    if |messages| == 1 then messages[0] else messages[0] + Separator + Joined(messages[1..])
  }

  lemma {:induction false} ReduceIsJoined(acc: string, rest: seq<string>)
    requires |rest| > 0
    ensures Reduce(acc, rest) == acc + Separator + Joined(rest)
    decreases |rest|
  {
    if |rest| > 1 {
      ReduceIsJoined(acc + Separator + rest[0], rest[1..]);
      assert (acc + Separator + rest[0]) + Separator + Joined(rest[1..])
          == acc + Separator + (rest[0] + Separator + Joined(rest[1..]));
    }
  }

  /** The stream reduction computes the reference join. */
  lemma JoinMessagesIsJoined(messages: seq<string>)
    requires |messages| > 0
    ensures JoinMessages(messages) == Joined(messages)
  {
    if |messages| > 1 {
      ReduceIsJoined(messages[0], messages[1..]);
    }
  }

  /** Joining two non-empty lists of messages puts "; " between their joins. */
  lemma {:induction false} JoinedAppend(a: seq<string>, b: seq<string>)
    requires |a| > 0 && |b| > 0
    ensures Joined(a + b) == Joined(a) + Separator + Joined(b)
    decreases |a|
  {
    if |a| == 1 {
      assert (a + b)[1..] == b;
    } else {
      assert (a + b)[1..] == a[1..] + b;
      JoinedAppend(a[1..], b);
    }
  }

  /** The sum of the lengths of the messages. */
  function TotalLength(messages: seq<string>): nat {
    if |messages| == 0 then 0 else |messages[0]| + TotalLength(messages[1..])
  }

  /** The join adds exactly two characters between consecutive messages and
      nothing else. */
  lemma {:induction false} JoinedLength(messages: seq<string>)
    requires |messages| > 0
    ensures |Joined(messages)| == TotalLength(messages) + 2 * (|messages| - 1)
    decreases |messages|
  {
    if |messages| > 1 {
      JoinedLength(messages[1..]);
    }
  }

  /** The 400 response for a request that failed bean validation. */
  function ValidationFailed(messages: seq<string>): (resp: Response)
    ensures resp.status == 400 && resp.body.ErrorBody?
    ensures resp.body.errorResponse == ErrorResponse("BAD_REQUEST", 400, JoinMessages(messages))
  {
    Response(400, ErrorBody(ErrorResponse("BAD_REQUEST", 400, JoinMessages(messages))))
  }

  /** The catch clause of login: any exception is a 401 carrying its message. */
  function LoginReply(outcome: Result<AuthResponse>): (resp: Response)
    ensures outcome.Ok? <==> resp.status == 200
    ensures outcome.Ok? ==> resp.body == TokenBody(outcome.value)
    ensures outcome.Err? ==> resp.status == 401 && resp.body.ErrorBody?
                             && resp.body.errorResponse.status == 401
                             && resp.body.errorResponse.message == LoginFailedPrefix + outcome.failure.message
  {
    match outcome
    case Ok(auth) => Response(200, TokenBody(auth))
    case Err(f) => Response(401, ErrorBody(ErrorResponse("UNAUTHORIZED", 401, LoginFailedPrefix + f.message)))
  }

  /** The catch clause of register: any exception is a 400 carrying its message. */
  function RegisterReply(outcome: Result<AuthResponse>): (resp: Response)
    ensures outcome.Ok? <==> resp.status == 200
    ensures outcome.Ok? ==> resp.body == TokenBody(outcome.value)
    ensures outcome.Err? ==> resp.status == 400 && resp.body.ErrorBody?
                             && resp.body.errorResponse.status == 400
                             && resp.body.errorResponse.message == RegisterFailedPrefix + outcome.failure.message
  {
    match outcome
    case Ok(auth) => Response(200, TokenBody(auth))
    case Err(f) => Response(400, ErrorBody(ErrorResponse("BAD_REQUEST", 400, RegisterFailedPrefix + f.message)))
  }

  class AuthController {
    const userService: UserServiceImpl.UserService

    constructor (userService: UserServiceImpl.UserService)
      ensures this.userService == userService
    {
      this.userService := userService;
    }

    /** POST /api/auth/login. Validation errors give 400 without calling the
        service; otherwise the service's outcome is passed on: its token with 200,
        or its exception's message after "Authentication failed: " with 401. */
    method Login(request: LoginRequest, validationErrors: seq<string>) returns (resp: Response)
      requires userService.db.Valid()
      modifies userService.db, userService.clock
      ensures userService.db.Valid()
      ensures NoRevalidation(old(userService.db.tokens), userService.db.tokens)
      ensures userService.db.users == old(userService.db.users)
      ensures userService.db.rentals == old(userService.db.rentals) && userService.db.messages == old(userService.db.messages)
      ensures |validationErrors| > 0 ==>
        resp == ValidationFailed(validationErrors) && unchanged(userService.db) && unchanged(userService.clock)
      ensures |validationErrors| == 0 ==>
        resp == LoginReply(userService.LoginOutcome(old(userService.db.users), old(userService.db.tokens),
                                                    old(userService.clock.ticks), request))
      ensures resp.status != 200 ==> userService.db.tokens == old(userService.db.tokens)
      ensures resp.status == 200 ==>
        userService.db.tokens == userService.TokensAfterLogin(old(userService.db.users), old(userService.db.tokens),
                                                                 old(userService.db.nextTokenId), old(userService.clock.ticks), request)
    {
      if |validationErrors| > 0 {
        return ValidationFailed(validationErrors);
      }
      var outcome := userService.Login(request);
      resp := LoginReply(outcome);
    }

    /** POST /api/auth/register. Validation errors give 400 without calling the
        service; otherwise the service's outcome is passed on: its token with 200,
        or its exception's message after "Registration failed : " with 400. */
    method Register(request: RegisterRequest, validationErrors: seq<string>) returns (resp: Response)
      requires userService.db.Valid()
      modifies userService.db, userService.clock
      ensures userService.db.Valid()
      ensures NoRevalidation(old(userService.db.tokens), userService.db.tokens)
      ensures userService.db.rentals == old(userService.db.rentals) && userService.db.messages == old(userService.db.messages)
      ensures |validationErrors| > 0 ==>
        resp == ValidationFailed(validationErrors) && unchanged(userService.db) && unchanged(userService.clock)
      ensures |validationErrors| == 0 ==>
        resp == RegisterReply(userService.RegisterOutcome(old(userService.db.users), old(userService.db.tokens),
                                                          old(userService.clock.ticks), request))
      ensures resp.status != 200 ==> userService.db.tokens == old(userService.db.tokens)
      ensures |validationErrors| == 0 && FindUserByEmail(old(userService.db.users), request.email).None?
              && |request.email| > MaxEmailLength ==>
        userService.db.users == old(userService.db.users)
      ensures |validationErrors| == 0 && FindUserByEmail(old(userService.db.users), request.email).None?
              && |request.email| <= MaxEmailLength ==>
        userService.db.users == userService.UsersAfterRegister(old(userService.db.users), old(userService.clock.ticks), request)
      ensures |validationErrors| == 0 && FindUserByEmail(old(userService.db.users), request.email).Some? ==>
        unchanged(userService.db)
      ensures resp.status == 200 ==>
        userService.db.tokens == userService.TokensAfterRegister(old(userService.db.users), old(userService.db.tokens),
                                                                    old(userService.db.nextTokenId), old(userService.clock.ticks), request)
    {
      if |validationErrors| > 0 {
        return ValidationFailed(validationErrors);
      }
      var outcome := userService.Register(request);
      resp := RegisterReply(outcome);
    }

    /** GET /api/auth/me: the view of the user named by the authentication with 200,
        or 401 with the service's message. */
    function Me(authentication: UserServiceImpl.Authentication): (resp: Response)
      reads userService.db
      ensures resp.status == 200 <==> exists i :: 0 <= i < |userService.db.users| && userService.db.users[i].email == authentication.name
      ensures resp.status == 200 ==>
        resp.body == UserBody(UserMapper.ToDto(FindUserByEmail(userService.db.users, authentication.name).value))
      ensures resp.status != 200 ==>
        resp == Response(401, ErrorBody(ErrorResponse("UNAUTHORIZED", 401, UserServiceImpl.UserDoesNotExist)))
    {
      match userService.GetAuthenticatedUser(authentication)
      case Ok(user) => Response(200, UserBody(user))
      case Err(f) => Response(401, ErrorBody(ErrorResponse("UNAUTHORIZED", 401, f.message)))
    }

    /** POST /api/auth/logout: without a bearer header, 401 and the service is not
        called; with one, the service revokes the token after "Bearer " and the
        answer is 200 whether or not the token was known. */
    method Logout(header: Option<string>) returns (resp: Response)
      requires userService.db.Valid()
      modifies userService.db
      ensures userService.db.Valid()
      ensures userService.db.users == old(userService.db.users)
      ensures userService.db.rentals == old(userService.db.rentals) && userService.db.messages == old(userService.db.messages)
      ensures BearerToken(header).None? ==>
        && resp == Response(401, ErrorBody(ErrorResponse("UNAUTHORIZED", 401, TokenMissing)))
        && unchanged(userService.db)
      ensures BearerToken(header).Some? ==>
        && resp == Response(200, SuccessBody(LoggedOut))
        && userService.db.tokens == UserServiceImpl.Revoke(old(userService.db.tokens), BearerToken(header).value)
    {
      if header.None? || !StartsWith(header.value, BearerPrefix) {
        return Response(401, ErrorBody(ErrorResponse("UNAUTHORIZED", 401, TokenMissing)));
      }
      var token := header.value[7..];
      userService.Logout(token);
      resp := Response(200, SuccessBody(LoggedOut));
    }
  }
}
