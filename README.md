# Chatop backend: authentication, token revocation, rentals and messages

This project models the core of the Chatop backend, a Spring Boot REST service for a
rental-listing site, and proves properties of that model:

- **Authentication** (`UserServiceImpl`, `AuthController`, `JwtService`,
  `CustomUserDetailsService`, `UserMapper`).
  - Login authenticates the credentials against the stored user and hash, signs a JWT for the
    email and stores it in the tokens table as valid.
  - Register refuses a known email. Otherwise it stores the user with the hashed password
    and then issues and stores a token the same way.
  - Logout marks the token's row invalid.
- **Revocation** (`JwtTokenDatabaseFilter`, `TokenEntity`). Every request carrying a
  `Bearer` token is let through only if the tokens table holds a valid row for it. Logging
  out therefore revokes a token even though its signature stays good. The central result
  (`Revocation`) says that a token issued by register or login and then logged out is
  rejected by the filter on every later request, for every verdict of the signature check.
- **Rentals** (`RentalServiceImpl`, `RentalMapper`).
  - Creation and update validate the uploaded picture: its media type, and its name against
    the pattern `(?i).+\.(jpg|jpeg|png|gif)$`.
  - An accepted picture is stored under a UUID-prefixed name, and the row is inserted or
    overwritten.
- **Messages** (`MessageServiceImpl`, `MessageMapper`). Sending a message looks up the sender
  by id, then the rental, then inserts the row. The database refuses texts over 2000
  characters.

Layout, one module per source class:

- `common.dfy`: shared vocabulary (Option, exceptions as values, the clock, the bearer header).
- `dto.dfy`: the request and response records.
- `entities.dfy`: the entities. `TokenEntity` is a class with setters; the other entities are rows.
- `store.dfy`: the database behind the JPA repositories, with its table invariants.
- The other files hold one service, mapper, controller or filter each.
- `revocation.dfy`: the end-to-end revocation results.

Exceptions are modelled as values. The user service returns a `Result`. The rental and
message services return an error datatype (`RentalError`, `MessageError`), and their
`Thrown` functions map it to the exception class and message the source throws.

## Model

Source paths are relative to the repository root.

| member | source | states |
|---|---|---|
| Common.BearerToken | backend/src/main/java/com/mick/chatop/controller/AuthController.java:193-197 | a header yields a token exactly when it is present and starts with "Bearer "; the header is then "Bearer " followed by the token, which is 7 characters shorter |
| Common.BearerRoundTrip | backend/src/main/java/com/mick/chatop/security/JwtTokenDatabaseFilter.java:42-43 | building the header from a token and extracting it again gives the token back |
| Store.FindFirst | backend/src/main/java/com/mick/chatop/repository/UserRepository.java:10 | the position found is the first row that matches; None means no row matches |
| Store.FindUserByEmail | backend/src/main/java/com/mick/chatop/repository/UserRepository.java:10 | finds a user exactly when some stored row has that email, and the row found is stored and has it |
| Store.FindUserById | backend/src/main/java/com/mick/chatop/service/impl/MessageServiceImpl.java:61-62 | finds a user exactly when some stored row has that id |
| Store.FindRentalById | backend/src/main/java/com/mick/chatop/service/impl/RentalServiceImpl.java:83-84 | finds a rental exactly when some stored row has that id |
| Store.FindUserByEmailFindsStored | backend/src/main/java/com/mick/chatop/entity/UserEntity.java:16 | with the unique email index, looking up a stored user's email returns that user |
| Store.FindUserByIdPosition | backend/src/main/java/com/mick/chatop/service/impl/MessageServiceImpl.java:61-62 | with identity ids, an id is found exactly when it is between 1 and the row count, and it finds the row at position id-1 |
| Store.FindRentalByIdPosition | backend/src/main/java/com/mick/chatop/service/impl/RentalServiceImpl.java:83-84 | the same for rentals |
| Store.Database.SaveUser | backend/src/main/java/com/mick/chatop/entity/UserEntity.java:16-17 | the insert succeeds exactly when the email fits its column's default length of 255; then it appends the row with the next identity id, otherwise it fails with DataIntegrityViolation and no table changes; every table invariant is kept |
| Store.Database.FindByToken | backend/src/main/java/com/mick/chatop/repository/TokenRepository.java:17 | returns an entity exactly when the token has a row, a fresh entity carrying every column of that row |
| Store.Database.SaveToken | backend/src/main/java/com/mick/chatop/entity/TokenEntity.java:17-28 | a new entity is inserted unless its token is already stored or longer than 512 characters, which gives a DataIntegrityViolation and changes nothing; a loaded entity overwrites its own row |
| Store.Database.SaveRental | backend/src/main/java/com/mick/chatop/service/impl/RentalServiceImpl.java:78 | a new rental is appended with the next id; one with an id overwrites exactly that row |
| Store.Database.SaveMessage | backend/src/main/java/com/mick/chatop/entity/MessageEntity.java:16-17 | the insert succeeds exactly when the text has at most 2000 characters and then appends it with the next id; otherwise DataIntegrityViolation and no row |
| Entities.TokenEntity.constructor | backend/src/main/java/com/mick/chatop/entity/TokenEntity.java:27-28 | a new token entity has no column set except `valid`, which is true |
| Entities.TokenEntity.SetToken | backend/src/main/java/com/mick/chatop/entity/TokenEntity.java:34 | sets the token and leaves every other field as it was |
| Entities.TokenEntity.SetUser | backend/src/main/java/com/mick/chatop/entity/TokenEntity.java:36 | sets the user and leaves every other field as it was |
| Entities.TokenEntity.SetCreatedAt | backend/src/main/java/com/mick/chatop/entity/TokenEntity.java:38 | sets the creation instant and leaves every other field as it was |
| Entities.TokenEntity.SetValid | backend/src/main/java/com/mick/chatop/entity/TokenEntity.java:40 | sets the valid flag and leaves every other field as it was |
| JwtService.TokenParameters | backend/src/main/java/com/mick/chatop/security/JwtService.java:40-50 | HS512 header, issuer "self", subject = the authenticated name, issued at the first reading, expiring one hour after the second reading |
| JwtService.GenerateToken | backend/src/main/java/com/mick/chatop/security/JwtService.java:39-53 | the token is the encoder's output for parameters with exactly those claims and header |
| JwtService.ExpiresAtLeastAnHourAfterIssue | backend/src/main/java/com/mick/chatop/security/JwtService.java:42-43 | with a clock that does not go backwards, a token expires at least one hour after it is issued |
| JwtService.SubjectRecovered | backend/src/main/java/com/mick/chatop/security/JwtService.java:44-52 | a decoder that inverts the encoder recovers the subject and the issuer "self" |
| CustomUserDetailsService.LoadUserByUsername | backend/src/main/java/com/mick/chatop/service/impl/CustomUserDetailsService.java:41-48 | fails with UsernameNotFound "User not found : <email>" exactly when no user has the email; otherwise the principal has that email, a stored user's hash and the single authority "USER" |
| CustomUserDetailsService.Authenticate | backend/src/main/java/com/mick/chatop/config/SecurityConfiguration.java:79-82 | the manager accepts exactly when a user has the email and the password matches that user's stored hash; then the principal's username is the email and its password the stored hash; an unknown email and a wrong password both give BadCredentials "Bad credentials" |
| CustomUserDetailsService.AuthenticateChecksStoredHash | backend/src/main/java/com/mick/chatop/config/SecurityConfiguration.java:34-37 | for a stored user, authentication succeeds exactly when the password matches that user's hash, and the principal is that user's email |
| CustomUserDetailsService.LoadedPrincipalIsStoredUser | backend/src/main/java/com/mick/chatop/service/impl/CustomUserDetailsService.java:42-48 | in a well-formed table the principal carries exactly the hash of the one user with that email |
| UserMapper.ToEntity | backend/src/main/java/com/mick/chatop/mapper/UserMapper.java:22-28 | email and name from the request, the given hash as password, no id and no timestamps |
| UserMapper.ToDto | backend/src/main/java/com/mick/chatop/mapper/UserMapper.java:36-44 | the view copies id, email, name and both timestamps |
| UserMapper.ToDtoForgetsOnlyPassword | backend/src/main/java/com/mick/chatop/mapper/UserMapper.java:36-44 | two users have the same view exactly when they differ at most in their password |
| UserMapper.RegisteredViewShowsRequest | backend/src/main/java/com/mick/chatop/mapper/UserMapper.java:22-44 | mapping a request, assigning id and timestamps and viewing gives back the request's email and name |
| UserServiceImpl.Revoke | backend/src/main/java/com/mick/chatop/service/impl/UserServiceImpl.java:132-141 | logout's effect on the table: the token's row, if any, becomes invalid and nothing else changes |
| UserServiceImpl.RevokeIdempotent | backend/src/main/java/com/mick/chatop/service/impl/UserServiceImpl.java:132-141 | logging out twice is the same as logging out once |
| UserServiceImpl.RevokeNeverRevalidates | backend/src/main/java/com/mick/chatop/service/impl/UserServiceImpl.java:132-141 | logout removes no row and revalidates no revoked row |
| UserServiceImpl.RevokeKeepsTokensWellFormed | backend/src/main/java/com/mick/chatop/service/impl/UserServiceImpl.java:132-141 | logout keeps the tokens table invariant |
| UserServiceImpl.UserService.SignToken | backend/src/main/java/com/mick/chatop/service/impl/UserServiceImpl.java:71 | the token is generateToken's output for the subject at the current clock, and the clock advances by its two readings |
| UserServiceImpl.UserService.StoreNewUser | backend/src/main/java/com/mick/chatop/service/impl/UserServiceImpl.java:93-97 | an email that fits its column appends exactly one user: the request's email and name, the encoded password, two successive clock readings and the next id; a longer one is refused with DataIntegrityViolation and no user is added |
| UserServiceImpl.UserService.RecordToken | backend/src/main/java/com/mick/chatop/service/impl/UserServiceImpl.java:75-80 | stores the token as valid for the user at the current instant, exactly when the token is new and at most 512 characters long |
| UserServiceImpl.UserService.Login | backend/src/main/java/com/mick/chatop/service/impl/UserServiceImpl.java:66-85 | the answer is `LoginOutcome`: unknown email or wrong password gives "Bad credentials" and changes nothing; otherwise the token signed for the email is returned and stored as a valid row of the user with that email, exactly when the token column takes it, else DataIntegrityViolation with no token stored; the `orElseThrow` never fires; users, rentals and messages unchanged and no token revalidated |
| UserServiceImpl.UserService.Register | backend/src/main/java/com/mick/chatop/service/impl/UserServiceImpl.java:88-114 | the answer is `RegisterOutcome`: a known email gives IllegalArgument "Email already in use" and changes nothing; a new email longer than its column gives DataIntegrityViolation and adds no user; otherwise exactly one user is appended with the encoded password, and the token signed for the email is returned and stored as a valid row of that user, or its insert fails with DataIntegrityViolation and the user row kept |
| UserServiceImpl.UserService.LoginStoresValidToken | backend/src/main/java/com/mick/chatop/service/impl/UserServiceImpl.java:72-80 | a successful login's token was not in the table before and afterwards has a valid row whose user has the request's email |
| UserServiceImpl.UserService.LoginAfterRegister | backend/src/main/java/com/mick/chatop/service/impl/UserServiceImpl.java:66-114 | after a successful registration, a login with the same email and password is accepted by the manager, the user found for the email (what /me shows) is the registered row with the request's email and name, and the login succeeds exactly when its token is new to the table and fits the column; its row then belongs to the registered user |
| UserServiceImpl.UserService.SameSecondLoginCollides | backend/src/main/java/com/mick/chatop/entity/TokenEntity.java:17 | a login whose token is signed at the same second readings as the registration's signs the registration's token, which the unique column refuses: DataIntegrityViolation although the credentials are right |
| UserServiceImpl.UserService.RegisterStoresValidToken | backend/src/main/java/com/mick/chatop/service/impl/UserServiceImpl.java:98-108 | a successful registration's token was not in the table before and afterwards has a valid row of the user just appended |
| UserServiceImpl.UserService.GetAuthenticatedUser | backend/src/main/java/com/mick/chatop/service/impl/UserServiceImpl.java:117-122 | "User does not exist" exactly when no user has the principal's name; otherwise the view of that user |
| UserServiceImpl.UserService.GetUserById | backend/src/main/java/com/mick/chatop/service/impl/UserServiceImpl.java:125-129 | "User does not exist" exactly when no user has the id; otherwise a stored user's view with that id |
| UserServiceImpl.UserService.Logout | backend/src/main/java/com/mick/chatop/service/impl/UserServiceImpl.java:132-141 | the tokens table becomes Revoke(old table, token); nothing else changes |
| UserServiceImpl.RegisteredUserIsFound | backend/src/main/java/com/mick/chatop/service/impl/UserServiceImpl.java:117-122 | a just-registered user is the one /me finds for its email, and the view shows the request's email and name |
| JwtTokenDatabaseFilter.Decide | backend/src/main/java/com/mick/chatop/security/JwtTokenDatabaseFilter.java:40-54 | a request without a bearer header continues; one with a bearer header continues exactly when its token has a valid row |
| JwtTokenDatabaseFilter.NoBearerPasses | backend/src/main/java/com/mick/chatop/security/JwtTokenDatabaseFilter.java:42 | a missing or non-bearer header is never stopped, whatever the table holds |
| JwtTokenDatabaseFilter.BearerDecision | backend/src/main/java/com/mick/chatop/security/JwtTokenDatabaseFilter.java:42-46 | "Bearer t" continues exactly when t has a valid row |
| JwtTokenDatabaseFilter.RejectionPersists | backend/src/main/java/com/mick/chatop/security/JwtTokenDatabaseFilter.java:45-51 | a token whose row is invalid is rejected in every later state reached without revalidation |
| JwtTokenDatabaseFilter.RevokedNeverReaches | backend/src/main/java/com/mick/chatop/security/JwtTokenDatabaseFilter.java:45-51 | an unknown or revoked token reaches no protected endpoint, whatever the signature check says |
| JwtTokenDatabaseFilter.ReachedMeansBothChecks | backend/src/main/java/com/mick/chatop/security/JwtTokenDatabaseFilter.java:45-54 | a request that reaches an endpoint has an accepted signature and a valid row |
| JwtTokenDatabaseFilter.FilterChain.DoFilter | backend/src/main/java/com/mick/chatop/security/JwtTokenDatabaseFilter.java:54 | each invocation of the chain is counted once |
| JwtTokenDatabaseFilter.TokenDatabaseFilter.DoFilterInternal | backend/src/main/java/com/mick/chatop/security/JwtTokenDatabaseFilter.java:37-55 | on Continue the chain runs exactly once and the response is untouched; on Reject the chain does not run, the status is 401, the content type is JSON and the error body is written; the tokens table is only read |
| AuthController.Reduce | backend/src/main/java/com/mick/chatop/controller/AuthController.java:79-81 | the left fold keeps the accumulated text in front and ends with the last message |
| AuthController.JoinMessages | backend/src/main/java/com/mick/chatop/controller/AuthController.java:79-81 | "Validation error" for no messages; otherwise the result starts with the first message and ends with the last |
| AuthController.JoinMessagesIsJoined | backend/src/main/java/com/mick/chatop/controller/AuthController.java:79-81 | the stream reduction equals the reference join "m1; m2; ...; mn" |
| AuthController.ReduceIsJoined | backend/src/main/java/com/mick/chatop/controller/AuthController.java:81 | folding from an accumulator gives the accumulator, "; " and the join of the rest |
| AuthController.JoinedAppend | backend/src/main/java/com/mick/chatop/controller/AuthController.java:81 | the join of two lists is the two joins separated by "; " |
| AuthController.JoinedLength | backend/src/main/java/com/mick/chatop/controller/AuthController.java:81 | the join adds exactly two characters between consecutive messages |
| AuthController.ValidationFailed | backend/src/main/java/com/mick/chatop/controller/AuthController.java:78-83 | a 400 with error "BAD_REQUEST" and the joined messages |
| AuthController.LoginReply | backend/src/main/java/com/mick/chatop/controller/AuthController.java:85-90 | 200 with the token exactly on success; any exception becomes a 401 whose message is "Authentication failed: " and the exception's message |
| AuthController.RegisterReply | backend/src/main/java/com/mick/chatop/controller/AuthController.java:134-139 | 200 with the token exactly on success; any exception becomes a 400 whose message is "Registration failed : " and the exception's message |
| AuthController.AuthController.Login | backend/src/main/java/com/mick/chatop/controller/AuthController.java:77-91 | validation errors give 400 without calling the service; otherwise the answer is the service's outcome passed through the catch clause: 200 with the token stored by `TokensAfterLogin`, or 401 "Authentication failed: Bad credentials" or with the insert's message and no token stored; users, rentals and messages unchanged |
| AuthController.AuthController.Register | backend/src/main/java/com/mick/chatop/controller/AuthController.java:126-140 | validation errors give 400 without calling the service; otherwise the answer is the service's outcome passed through the catch clause: a known email gives 400 "Registration failed : Email already in use" and changes nothing; a new email too long for its column adds no user; a new email that fits appends the user, then 200 with the token stored by `TokensAfterRegister`, or 400 with the insert's message and no token stored |
| AuthController.AuthController.Me | backend/src/main/java/com/mick/chatop/controller/AuthController.java:165-172 | 200 exactly when a user has the principal's name, with the view of that user as body; otherwise 401 "User does not exist" |
| AuthController.AuthController.Logout | backend/src/main/java/com/mick/chatop/controller/AuthController.java:192-200 | a missing or non-bearer header gives 401 "Token missing or invalid" and changes nothing; otherwise 200 "Logged out successfully" and the token after "Bearer " is revoked |
| Revocation.LogoutThenFilterRejects | backend/src/main/java/com/mick/chatop/service/impl/UserServiceImpl.java:132-141 | right after logout of any token, the filter rejects that token, whether or not it had a row |
| Revocation.LoggedOutStaysOut | backend/src/main/java/com/mick/chatop/security/JwtTokenDatabaseFilter.java:45-51 | after logout and any steps that revalidate nothing, the token is rejected and reaches no endpoint, for every signature verdict |
| Revocation.RequestWithRevokedToken | backend/src/main/java/com/mick/chatop/security/JwtTokenDatabaseFilter.java:46-51 | a request with a token without a valid row gets 401 and the chain is not invoked |
| Revocation.LogoutWithBearer | backend/src/main/java/com/mick/chatop/controller/AuthController.java:192-200 | the logout endpoint with the bearer header built from a token answers 200 and revokes that token |
| Revocation.LoginThenLogout | backend/src/main/java/com/mick/chatop/controller/AuthController.java:77-91 | the client gets a token exactly when the login answer is 200, which is the service's outcome through the controller; that token was new and has a revoked row after logout; without a token the tokens table is unchanged |
| Revocation.RegisterThenLogout | backend/src/main/java/com/mick/chatop/controller/AuthController.java:126-140 | the client gets a token exactly when the registration answer is 200; that token was new and has a revoked row after logout; without a token the tokens table is unchanged |
| Revocation.LoginElsewhere | backend/src/main/java/com/mick/chatop/service/impl/UserServiceImpl.java:66-85 | a later login, by anyone, leaves a revoked token revoked |
| Revocation.LoginLogoutFilter | backend/src/main/java/com/mick/chatop/security/JwtTokenDatabaseFilter.java:45-51 | login, logout, then a request with the token: whenever login gave a token, the answer is 401 with the revocation body and the chain is not invoked |
| Revocation.RegisterLogoutLoginFilter | backend/src/main/java/com/mick/chatop/security/JwtTokenDatabaseFilter.java:45-51 | register, logout, another login, then a request with the first token: whenever registration gave a token, the answer is 401 with the revocation body and the chain is not invoked |
| RentalMapper.ToDTO | backend/src/main/java/com/mick/chatop/mapper/RentalMapper.java:22-34 | every column is copied and the owner is replaced by its id |
| RentalMapper.ToEntity | backend/src/main/java/com/mick/chatop/mapper/RentalMapper.java:43-45 | name, surface, price and description come from the request; id, picture, owner and timestamps are unset |
| RentalMapper.StoredViewNamesOwner | backend/src/main/java/com/mick/chatop/mapper/RentalMapper.java:30 | every stored rental has an owner, and looking up the owner id of its view finds that owner |
| RentalServiceImpl.FoldedEqualsMatchesWord | backend/src/main/java/com/mick/chatop/service/impl/RentalServiceImpl.java:122 | folding a name to lower case and comparing with a lower-case word is the same as matching each character against the pattern letter or its ASCII upper case, as `(?i)` without Unicode case does |
| RentalServiceImpl.FoldedExtensionMatchesGroup | backend/src/main/java/com/mick/chatop/service/impl/RentalServiceImpl.java:122 | the folded extension is one of jpg, jpeg, png, gif exactly when the extension matches one alternative of the group letter by letter |
| RentalServiceImpl.SuffixCheckGivesPattern | backend/src/main/java/com/mick/chatop/service/impl/RentalServiceImpl.java:121-124 | a name the suffix check accepts is matched by the pattern |
| RentalServiceImpl.PatternGivesSuffixCheck | backend/src/main/java/com/mick/chatop/service/impl/RentalServiceImpl.java:121-124 | a name the pattern matches passes the suffix check |
| RentalServiceImpl.ImageExtensionCheckIsPattern | backend/src/main/java/com/mick/chatop/service/impl/RentalServiceImpl.java:121-124 | the suffix check accepts exactly the names the case-insensitive pattern of line 122 matches |
| RentalServiceImpl.CheckUpload | backend/src/main/java/com/mick/chatop/service/impl/RentalServiceImpl.java:115-124 | accepted exactly when the media type starts with "image/" and the name passes the check; a bad media type is reported before a bad name |
| RentalServiceImpl.CheckUploadAcceptsExactly | backend/src/main/java/com/mick/chatop/service/impl/RentalServiceImpl.java:113-124 | the validation accepts exactly the uploads with an image media type and a name in the pattern's language |
| RentalServiceImpl.StoredFileName | backend/src/main/java/com/mick/chatop/service/impl/RentalServiceImpl.java:133 | the stored name starts with the UUID, then "_", and ends with the original name |
| RentalServiceImpl.StoredNameKeepsExtension | backend/src/main/java/com/mick/chatop/service/impl/RentalServiceImpl.java:122-133 | the stored name of an accepted file still passes the name check |
| RentalServiceImpl.StoredNamesDistinct | backend/src/main/java/com/mick/chatop/service/impl/RentalServiceImpl.java:133 | two different UUIDs of the same length never give the same stored name |
| RentalServiceImpl.CreatedRental | backend/src/main/java/com/mick/chatop/service/impl/RentalServiceImpl.java:65-78 | the row's view has the new id, the request's fields, the picture URL, the owner's id and one reading for both timestamps |
| RentalServiceImpl.UpdatedRental | backend/src/main/java/com/mick/chatop/service/impl/RentalServiceImpl.java:86-97 | id, owner and creation time are kept; the four fields come from the request; the update time is new; the picture changes only when a new one is given |
| RentalServiceImpl.Thrown | backend/src/main/java/com/mick/chatop/service/impl/RentalServiceImpl.java:62-63 | an unknown owner throws RuntimeException "Utilisateur non authentifié.", a missing rental NoSuchElementException "Location introuvable.", a refused media type IllegalArgumentException "Seuls les fichiers image sont autorisés." and a refused name IllegalArgumentException "Extension de fichier non autorisée. Autorisées : jpg, jpeg, png, gif.", and no other combination occurs |
| RentalServiceImpl.PictureStore.Copy | backend/src/main/java/com/mick/chatop/service/impl/RentalServiceImpl.java:135 | the directory gains the file |
| RentalServiceImpl.PictureStore.DeleteIfExists | backend/src/main/java/com/mick/chatop/service/impl/RentalServiceImpl.java:147 | the directory loses the file if it held it |
| RentalServiceImpl.UuidSource.RandomUuid | backend/src/main/java/com/mick/chatop/service/impl/RentalServiceImpl.java:133 | each call yields the next UUID |
| RentalServiceImpl.RentalService.SaveFile | backend/src/main/java/com/mick/chatop/service/impl/RentalServiceImpl.java:113-138 | a refused upload draws no UUID and writes nothing; an accepted one is copied under UUID_name, which is returned |
| RentalServiceImpl.RentalService.RemoveOldFileIfNeeded | backend/src/main/java/com/mick/chatop/service/impl/RentalServiceImpl.java:140-151 | nothing for a missing URL; otherwise the file the URL names is gone from the directory |
| RentalServiceImpl.RentalService.StampAndInsert | backend/src/main/java/com/mick/chatop/service/impl/RentalServiceImpl.java:65-78 | appends the mapped row with owner, picture URL and one clock reading for both timestamps |
| RentalServiceImpl.RentalService.CreateOwnedRental | backend/src/main/java/com/mick/chatop/service/impl/RentalServiceImpl.java:65-78 | a refused picture writes nothing; otherwise the file is stored and the row appended |
| RentalServiceImpl.RentalService.CreateRental | backend/src/main/java/com/mick/chatop/service/impl/RentalServiceImpl.java:60-79 | succeeds exactly when the principal is a user and the upload is accepted; an unknown owner or a refused upload writes nothing and draws nothing; success stores the file and appends the row owned by the principal |
| RentalServiceImpl.RentalService.Touch | backend/src/main/java/com/mick/chatop/service/impl/RentalServiceImpl.java:86-90 | the four setters and one clock reading give the updated row with the old picture |
| RentalServiceImpl.RentalService.ReplacePicture | backend/src/main/java/com/mick/chatop/service/impl/RentalServiceImpl.java:93-97 | corrected order: a refused upload changes no file; an accepted one replaces the old file by the new one and the picture URL |
| RentalServiceImpl.RentalService.ReplacePictureAsWritten | backend/src/main/java/com/mick/chatop/service/impl/RentalServiceImpl.java:93-97 | source order: the old file is removed before validation, so a refused upload leaves the directory without it |
| RentalServiceImpl.RentalService.ApplyUpdate | backend/src/main/java/com/mick/chatop/service/impl/RentalServiceImpl.java:86-101 | setters, then the validated replacement when a non-empty upload is given |
| RentalServiceImpl.RentalService.ApplyUpdateAsWritten | backend/src/main/java/com/mick/chatop/service/impl/RentalServiceImpl.java:86-101 | the same, in the source's order |
| RentalServiceImpl.RentalService.Overwrite | backend/src/main/java/com/mick/chatop/service/impl/RentalServiceImpl.java:103 | the found row is overwritten in place |
| RentalServiceImpl.RentalService.UpdateFound | backend/src/main/java/com/mick/chatop/service/impl/RentalServiceImpl.java:86-103 | corrected: a refused upload leaves the table and the directory as they were |
| RentalServiceImpl.RentalService.UpdateFoundAsWritten | backend/src/main/java/com/mick/chatop/service/impl/RentalServiceImpl.java:86-103 | as written: a refused upload leaves the table but removes the old picture file |
| RentalServiceImpl.RentalService.UpdateRental | backend/src/main/java/com/mick/chatop/service/impl/RentalServiceImpl.java:82-104 | corrected (validates the upload before removing anything): an unknown id gives the NoSuchElement error; succeeds exactly when the id exists and any non-empty upload is accepted; every error leaves the table and the directory as they were; success overwrites the row with the updated fields and swaps the picture file |
| RentalServiceImpl.RentalService.UpdateRentalAsWritten | backend/src/main/java/com/mick/chatop/service/impl/RentalServiceImpl.java:82-104 | the same outcome on success and for an unknown id, but a refused upload leaves the row with its old URL and removes the file that URL names |
| RentalServiceImpl.RentalService.RefusedUploadOrphansPicture | backend/src/main/java/com/mick/chatop/service/impl/RentalServiceImpl.java:93-97 | as written: after a refused upload the row still points to a picture file that no longer exists |
| RentalServiceImpl.RentalService.RefusedUploadKeepsPicture | backend/src/main/java/com/mick/chatop/service/impl/RentalServiceImpl.java:93-97 | corrected: after a refused upload the row's picture file is still present |
| MessageMapper.ToEntity | backend/src/main/java/com/mick/chatop/mapper/MessageMapper.java:25-28 | links the given rental and user and carries the request's text; id and timestamps unset |
| MessageServiceImpl.Thrown | backend/src/main/java/com/mick/chatop/service/impl/MessageServiceImpl.java:61-65 | a missing user throws RuntimeException "User not found", a missing rental RuntimeException "Rental not found"; a refused insert rethrows the database's exception |
| MessageServiceImpl.SentMessage | backend/src/main/java/com/mick/chatop/service/impl/MessageServiceImpl.java:67-71 | the inserted row links the rental and the sender, carries the text, the next id and the two readings |
| MessageServiceImpl.MessageService.StampAndInsert | backend/src/main/java/com/mick/chatop/service/impl/MessageServiceImpl.java:67-71 | two separate clock readings, then the insert, which succeeds exactly when the text fits the column |
| MessageServiceImpl.MessageService.SendAs | backend/src/main/java/com/mick/chatop/service/impl/MessageServiceImpl.java:64-71 | a missing rental changes nothing; otherwise the message is appended exactly when the text fits |
| MessageServiceImpl.MessageService.CreateMessage | backend/src/main/java/com/mick/chatop/service/impl/MessageServiceImpl.java:60-72 | the user is looked up before the rental and either missing one changes nothing; success exactly when both exist and the text has at most 2000 characters, appending exactly one row from that user about that rental |

## Left out

- Cryptography. Password hashing and checking (BCrypt), JWT signing and signature
  verification are functions passed in (`encodePassword`, `passwordMatches`, `jwtEncoder`,
  `signatureAccepted`). The model takes the hash as deterministic, which BCrypt's random salt
  is not.
- The Spring Security context. The authenticated principal is a parameter of `CreateRental`
  and of `GetAuthenticatedUser`. The authentication manager is `Authenticate`: a DAO provider
  over `LoadUserByUsername` and BCrypt's `matches`, which is passed in (`passwordMatches`).
  Its account-status checks (locked, disabled, expired) are left out: the principal is
  built with all of them passing.
- The framework's own 400 answer when the `Authorization` header is missing altogether.
  The controller's null check is modelled; Spring rejects the request before it runs.
- `IOException` paths (directory creation, copy, delete), with the `RuntimeException`
  wrappers "Erreur lors de l'enregistrement ..." and the logged message of the delete.
  The file system is a set of file names: the bytes, the upload directory's location and
  `REPLACE_EXISTING` overwriting are not modelled.
- URL building. `getImageUrl` is the function `imageUrl`. Extracting the file name from a
  URL is the function `fileNameOf`.
- UUID format. UUIDs come from a fixed sequence (`draw`). `StoredNamesDistinct` assumes
  equal lengths, as the canonical 36-character form has.
- Bean validation of the request records. The controller receives the list of default
  messages.
- The debug output of the filter and of logout, and the filter's place in the security
  chain.
- Identity generation. It is modelled as the next position, starting at 1.
- Null request fields. Null ids and null message text are not modelled: the record fields
  are values. A null upload in an update (`picture == null`) is `None`.
- Rental reads (`getAllRentals`, `getRentalById`) and the other controllers
  (`UserController`, `RentalController`, `MessageController`) are not part of this model.
- `ErrorResponse` and `SuccessResponse` are records whose fields the model writes out.
- The text of a DataIntegrityViolation comes from the database driver and is the
  `constraintMessage` of the store.
- `Store.Database.SaveRental`: the picture column keeps the default length of 255, which
  is not modelled. An image URL longer than that, from a long upload file name, is stored
  instead of being refused with DataIntegrityViolation after the file was copied. The
  2000-character description column is not modelled either; the request records cap the
  description at 2000 before the service runs.
- `CustomUserDetailsService.Authenticate`: the BadCredentials message is Spring Security's
  default English text "Bad credentials". Under another request or JVM locale Spring returns
  its translation (the French one, for instance), which the model does not carry; so do the
  401 bodies built from it.
- Tokens signed within one second. The token's claims are whole seconds and the signature
  is deterministic, so two logins for one email in the same second, or a login in the
  second of the registration, sign the same token and the second insert is refused by the
  unique column (`SameSecondLoginCollides`). The model reproduces this; it does not model a
  remedy such as a unique id claim.
- `JwtService.GenerateToken`: `Instant.now()` is read twice, and both readings come from the
  model's clock. Time arithmetic is on whole seconds.
- Storing the authentication in the security context during login has no effect the model
  observes.

## Findings

| source | as written | input that shows it | evidently intended | confidence | as-written member | corrected member |
|---|---|---|---|---|---|---|
| backend/src/main/java/com/mick/chatop/service/impl/RentalServiceImpl.java:93-97 | `updateRental` deletes the old picture file (line 94) before `saveFile` validates the new upload (lines 115-124). A refused upload throws IllegalArgumentException, which the `catch (IOException)` does not catch, so the row is never saved and keeps the old URL to a deleted file | `updateRental` of an existing rental whose request carries a non-empty upload declared as `text/plain` (for instance `notes.txt`) | validate the upload before removing anything, so a refused update leaves the row and its picture file intact | high (not executed) | RentalServiceImpl.RentalService.RefusedUploadOrphansPicture | RentalServiceImpl.RentalService.RefusedUploadKeepsPicture |
