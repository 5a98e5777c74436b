/** Conversions between the users table and the request/response records. */
module UserMapper {
  import opened Common
  import opened Entities
  import opened Dto

  /** toEntity: a new, unsaved user built from a registration request and the
      already-hashed password. */
  function ToEntity(request: RegisterRequest, hashedPassword: string): (u: UserEntity)
    ensures u.email == request.email && u.name == request.name
    ensures u.password == hashedPassword
    ensures u.id.None? && u.createdAt.None? && u.updatedAt.None?
  {
    UserEntity(None, request.email, request.name, hashedPassword, None, None)
  }

  /** toDto: the public view of a user. The record has no password field, so the
      hash cannot leak through it. */
  function ToDto(u: UserEntity): (d: UserDto)
    ensures d.id == u.id && d.email == u.email && d.name == u.name
    ensures d.createdAt == u.createdAt && d.updatedAt == u.updatedAt
  {
    UserDto(u.id, u.email, u.name, u.createdAt, u.updatedAt)
  }

  /** Two users have the same public view exactly when they differ at most in
      their password: the password is the only column the view drops. */
  lemma ToDtoForgetsOnlyPassword(u: UserEntity, v: UserEntity)
    ensures ToDto(u) == ToDto(v) <==> u.(password := v.password) == v
  {
  }

  /** Registering and then viewing a user shows the request's email and name,
      whatever the hash and the identity and timestamps assigned in between. */
  lemma RegisteredViewShowsRequest(request: RegisterRequest, hashedPassword: string,
                                   id: int, createdAt: DateTime, updatedAt: DateTime)
    ensures ToDto(ToEntity(request, hashedPassword).(id := Some(id), createdAt := Some(createdAt), updatedAt := Some(updatedAt)))
         == UserDto(Some(id), request.email, request.name, Some(createdAt), Some(updatedAt))
  {
  }
}
