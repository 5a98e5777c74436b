/** Creation of a message about a rental. */
module MessageServiceImpl {
  import opened Common
  import opened Dto
  import opened Entities
  import opened Store
  import MessageMapper

  const UserNotFound: string := "User not found"
  const RentalNotFound: string := "Rental not found"

  /** Why createMessage throws. */
  datatype MessageError =
    | UserMissing                  // no user has the request's userId
    | RentalMissing                // no rental has the request's rentalId
    | NotStored(failure: Failure)  // the insert was refused by the database

  /** The exception thrown for each error. */
  function Thrown(error: MessageError): (f: Failure)
    ensures error.NotStored? ==> f == error.failure
    ensures error.UserMissing? ==> f == Failure(Runtime, UserNotFound)
    ensures error.RentalMissing? ==> f == Failure(Runtime, RentalNotFound)
  {
    match error
    case UserMissing => Failure(Runtime, UserNotFound)
    case RentalMissing => Failure(Runtime, RentalNotFound)
    case NotStored(f) => f
  }

  /** The row createMessage inserts: the mapped message with its own two clock
      readings and the next identity id. */
  function SentMessage(rental: RentalEntity, user: UserEntity, request: MessageRequestDto,
                       id: int, createdAt: DateTime, updatedAt: DateTime): (m: MessageEntity)
    ensures m.user == Some(user) && m.rental == Some(rental) && m.message == request.message
    ensures m.id == Some(id) && m.createdAt == Some(createdAt) && m.updatedAt == Some(updatedAt)
  {
    MessageMapper.ToEntity(rental, user, request).(createdAt := Some(createdAt), updatedAt := Some(updatedAt),
                                                   id := Some(id))
  }

  class MessageService {
    const db: Database
    const clock: Clock

    constructor (db: Database, clock: Clock)
      ensures this.db == db && this.clock == clock
    {
      this.db, this.clock := db, clock;
    }

    /** The end of createMessage: the mapped message, two separate clock readings
        for its timestamps, then the insert, which the message column may refuse. */
    method StampAndInsert(rental: RentalEntity, user: UserEntity, request: MessageRequestDto)
      returns (r: Result<MessageEntity>)
      requires db.Valid() && user in db.users
      requires rental.id.Some? && 1 <= rental.id.value <= |db.rentals|
      modifies db, clock
      ensures db.Valid()
      ensures db.users == old(db.users) && db.tokens == old(db.tokens) && db.rentals == old(db.rentals)
      ensures clock.ticks == old(clock.ticks) + 2
      ensures r.Ok? <==> |request.message| <= MaxMessageLength
      ensures r.Ok? ==>
        && r.value == SentMessage(rental, user, request, |old(db.messages)| + 1,
                                  clock.reading(old(clock.ticks)), clock.reading(old(clock.ticks) + 1))
        && db.messages == old(db.messages) + [r.value]
      ensures r.Err? ==>
        r.failure == Failure(DataIntegrityViolation, db.constraintMessage) && db.messages == old(db.messages)
    {
      var message := MessageMapper.ToEntity(rental, user, request);
      var createdAt := clock.Now();
      message := message.(createdAt := Some(createdAt));
      var updatedAt := clock.Now();
      message := message.(updatedAt := Some(updatedAt));
      r := db.SaveMessage(message);
    }

    /** createMessage once the sender is known: the rental lookup, then the insert. */
    method SendAs(user: UserEntity, request: MessageRequestDto) returns (error: Option<MessageError>)
      requires db.Valid() && user in db.users
      modifies db, clock
      ensures db.Valid()
      ensures db.users == old(db.users) && db.tokens == old(db.tokens) && db.rentals == old(db.rentals)
      ensures FindRentalById(old(db.rentals), request.rentalId).None? ==>
        error == Some(RentalMissing) && unchanged(db) && unchanged(clock)
      ensures error.None? <==>
        FindRentalById(old(db.rentals), request.rentalId).Some? && |request.message| <= MaxMessageLength
      ensures error.None? ==>
        && clock.ticks == old(clock.ticks) + 2
        && db.messages == old(db.messages) + [SentMessage(FindRentalById(old(db.rentals), request.rentalId).value,
                                                          user, request, |old(db.messages)| + 1,
                                                          clock.reading(old(clock.ticks)),
                                                          clock.reading(old(clock.ticks) + 1))]
      ensures FindRentalById(old(db.rentals), request.rentalId).Some? && |request.message| > MaxMessageLength ==>
        error == Some(NotStored(Failure(DataIntegrityViolation, db.constraintMessage))) && db.messages == old(db.messages)
    {
      var rental := FindRentalById(db.rentals, request.rentalId);
      if rental.None? {
        return Some(RentalMissing);
      }
      FindRentalByIdPosition(db.rentals, db.users, request.rentalId);
      var saved := StampAndInsert(rental.value, user, request);
      error := if saved.Err? then Some(NotStored(saved.failure)) else None;
    }

    /** createMessage: the sender is the user named by the request's userId and
        is looked up first, then the rental; a missing one throws before anything
        is read from the clock or written. */
    method CreateMessage(request: MessageRequestDto) returns (error: Option<MessageError>)
      requires db.Valid()
      modifies db, clock
      ensures db.Valid()
      ensures db.users == old(db.users) && db.tokens == old(db.tokens) && db.rentals == old(db.rentals)
      ensures FindUserById(old(db.users), request.userId).None? ==>
        error == Some(UserMissing) && unchanged(db) && unchanged(clock)
      ensures FindUserById(old(db.users), request.userId).Some? && FindRentalById(old(db.rentals), request.rentalId).None? ==>
        error == Some(RentalMissing) && unchanged(db) && unchanged(clock)
      ensures error.None? <==>
        && FindUserById(old(db.users), request.userId).Some?
        && FindRentalById(old(db.rentals), request.rentalId).Some?
        && |request.message| <= MaxMessageLength
      ensures error.None? ==>
        && clock.ticks == old(clock.ticks) + 2
        && db.messages == old(db.messages) + [SentMessage(FindRentalById(old(db.rentals), request.rentalId).value,
                                                          FindUserById(old(db.users), request.userId).value, request,
                                                          |old(db.messages)| + 1, clock.reading(old(clock.ticks)),
                                                          clock.reading(old(clock.ticks) + 1))]
      ensures FindUserById(old(db.users), request.userId).Some? && FindRentalById(old(db.rentals), request.rentalId).Some?
              && |request.message| > MaxMessageLength ==>
        error == Some(NotStored(Failure(DataIntegrityViolation, db.constraintMessage))) && db.messages == old(db.messages)
    {
      var user := FindUserById(db.users, request.userId);
      if user.None? {
        return Some(UserMissing);
      }
      error := SendAs(user.value, request);
    }
  }
}
