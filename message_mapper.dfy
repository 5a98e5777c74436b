/** Conversion of a message request into a row of the messages table. */
module MessageMapper {
  import opened Common
  import opened Entities
  import opened Dto

  /** toEntity: a new, unsaved message linking the given rental and user and
      carrying the request's text; id and timestamps are left unset. */
  function ToEntity(rental: RentalEntity, user: UserEntity, request: MessageRequestDto): (m: MessageEntity)
    ensures m.rental == Some(rental) && m.user == Some(user) && m.message == request.message
    ensures m.id.None? && m.createdAt.None? && m.updatedAt.None?
  {
    MessageEntity(None, request.message, Some(user), Some(rental), None, None)
  }
}
