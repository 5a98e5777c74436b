/** The relational store behind the JPA repositories: the users, tokens, rentals
    and messages tables, the repository queries, and the inserts and updates
    issued by `save`. */
module Store {
  import opened Common
  import opened Entities

  /** Declared length of the token column. */
  const MaxTokenLength: nat := 512

  /** Length of the email column, which declares none: JPA's default of 255. */
  const MaxEmailLength: nat := 255

  /** Declared length of the message column. */
  const MaxMessageLength: nat := 2000

  /** Position of the first row satisfying `matches`: a table scan. */
  function FindFirst<T>(rows: seq<T>, matches: T -> bool): (r: Option<nat>)
    ensures r.Some? ==> r.value < |rows| && matches(rows[r.value])
    ensures r.Some? ==> forall i :: 0 <= i < r.value ==> !matches(rows[i])
    ensures r.None? ==> forall i :: 0 <= i < |rows| ==> !matches(rows[i])
  {
    if |rows| == 0 then None
    else if matches(rows[0]) then Some(0)
    else match FindFirst(rows[1..], matches)
      case None => None
      case Some(i) => Some(i + 1)
  }

  /** UserRepository.findByEmail (exact, case-sensitive match). */
  function FindUserByEmail(users: seq<UserEntity>, email: string): (r: Option<UserEntity>)
    ensures r.Some? <==> exists i :: 0 <= i < |users| && users[i].email == email
    ensures r.Some? ==> r.value in users && r.value.email == email
  {
    match FindFirst(users, (u: UserEntity) => u.email == email)
    case None => None
    case Some(i) => Some(users[i])
  }

  /** UserRepository.findById. */
  function FindUserById(users: seq<UserEntity>, id: int): (r: Option<UserEntity>)
    ensures r.Some? <==> exists i :: 0 <= i < |users| && users[i].id == Some(id)
    ensures r.Some? ==> r.value in users && r.value.id == Some(id)
  {
    match FindFirst(users, (u: UserEntity) => u.id == Some(id))
    case None => None
    case Some(i) => Some(users[i])
  }

  /** RentalRepository.findById. */
  function FindRentalById(rentals: seq<RentalEntity>, id: int): (r: Option<RentalEntity>)
    ensures r.Some? <==> exists i :: 0 <= i < |rentals| && rentals[i].id == Some(id)
    ensures r.Some? ==> r.value in rentals && r.value.id == Some(id)
  {
    match FindFirst(rentals, (e: RentalEntity) => e.id == Some(id))
    case None => None
    case Some(i) => Some(rentals[i])
  }

  /** Users table: identity ids in insertion order, emails that fit their column,
      timestamps set, unique email index. */
  ghost predicate UsersWellFormed(users: seq<UserEntity>) {
    && (forall i :: 0 <= i < |users| ==>
          && users[i].id == Some(i + 1) && |users[i].email| <= MaxEmailLength
          && users[i].createdAt.Some? && users[i].updatedAt.Some?)
    && (forall i, j :: 0 <= i < j < |users| ==> users[i].email != users[j].email)
  }

  /** Tokens table: keyed by its unique token column, at most 512 characters,
      each row owned by a stored user. */
  ghost predicate TokensWellFormed(tokens: map<string, TokenRow>, users: seq<UserEntity>, nextTokenId: nat) {
    forall t :: t in tokens ==>
      tokens[t].token == t && |t| <= MaxTokenLength && tokens[t].user in users && tokens[t].id < nextTokenId
  }

  /** Rentals table: identity ids, every non-null column set, owner a stored user. */
  ghost predicate RentalsWellFormed(rentals: seq<RentalEntity>, users: seq<UserEntity>) {
    forall i :: 0 <= i < |rentals| ==>
      && rentals[i].id == Some(i + 1)
      && rentals[i].picture.Some?
      && rentals[i].owner.Some? && rentals[i].owner.value in users
      && rentals[i].createdAt.Some? && rentals[i].updatedAt.Some?
  }

  /** Messages table: identity ids, sender a stored user, rental a stored rental's id. */
  ghost predicate MessagesWellFormed(messages: seq<MessageEntity>, users: seq<UserEntity>, rentals: seq<RentalEntity>) {
    forall i :: 0 <= i < |messages| ==>
      && messages[i].id == Some(i + 1)
      && |messages[i].message| <= MaxMessageLength
      && messages[i].user.Some? && messages[i].user.value in users
      && messages[i].rental.Some? && messages[i].rental.value.id.Some?
      && 1 <= messages[i].rental.value.id.value <= |rentals|
      && messages[i].createdAt.Some? && messages[i].updatedAt.Some?
  }

  /** Between two states of the tokens table, no row disappears and no revoked
      row becomes valid again. */
  ghost predicate NoRevalidation(before: map<string, TokenRow>, after: map<string, TokenRow>) {
    forall t :: t in before ==> t in after && (!before[t].valid ==> !after[t].valid)
  }

  /** With a unique email index, looking up a stored user's email finds that very user. */
  lemma FindUserByEmailFindsStored(users: seq<UserEntity>, i: nat)
    requires UsersWellFormed(users) && i < |users|
    ensures FindUserByEmail(users, users[i].email) == Some(users[i])
  {
  }

  /** With identity ids, a user id is found exactly when it is a position of the table. */
  lemma FindUserByIdPosition(users: seq<UserEntity>, id: int)
    requires UsersWellFormed(users)
    ensures FindUserById(users, id).Some? <==> 1 <= id <= |users|
    ensures FindUserById(users, id).Some? ==> FindUserById(users, id) == Some(users[id - 1])
  {
    if 1 <= id <= |users| {
      assert users[id - 1].id == Some(id);
    }
  }

  /** The same for rentals. */
  lemma FindRentalByIdPosition(rentals: seq<RentalEntity>, users: seq<UserEntity>, id: int)
    requires RentalsWellFormed(rentals, users)
    ensures FindRentalById(rentals, id).Some? <==> 1 <= id <= |rentals|
    ensures FindRentalById(rentals, id).Some? ==> FindRentalById(rentals, id) == Some(rentals[id - 1])
  {
    if 1 <= id <= |rentals| {
      assert rentals[id - 1].id == Some(id);
    }
  }

  /** The database shared by every repository. */
  class Database {
    var users: seq<UserEntity>
    var tokens: map<string, TokenRow>
    var nextTokenId: nat
    var rentals: seq<RentalEntity>
    var messages: seq<MessageEntity>
    /** The message of the exception the driver raises when a statement breaks a
        column constraint; its text depends on the database in use. */
    const constraintMessage: string

    ghost predicate Valid()
      reads this
    {
      && UsersWellFormed(users)
      && TokensWellFormed(tokens, users, nextTokenId)
      && RentalsWellFormed(rentals, users)
      && MessagesWellFormed(messages, users, rentals)
    }

    constructor (constraintMessage: string)
      ensures Valid()
      ensures users == [] && tokens == map[] && rentals == [] && messages == []
      ensures this.constraintMessage == constraintMessage
    {
      users, tokens, nextTokenId, rentals, messages := [], map[], 0, [], [];
      this.constraintMessage := constraintMessage;
    }

    /** UserRepository.save of a new user: the row gets the next identity id, unless
        the email is longer than its column and the database refuses the insert.
        The caller guarantees the unique email index and the non-null timestamps. */
    method SaveUser(u: UserEntity) returns (r: Result<UserEntity>)
      requires Valid()
      requires u.id.None? && u.createdAt.Some? && u.updatedAt.Some?
      requires FindUserByEmail(users, u.email).None?
      modifies this
      ensures Valid()
      ensures r.Ok? <==> |u.email| <= MaxEmailLength
      ensures r.Ok? ==> r.value == u.(id := Some(|old(users)| + 1)) && users == old(users) + [r.value]
      ensures r.Err? ==> r.failure == Failure(DataIntegrityViolation, constraintMessage) && users == old(users)
      ensures tokens == old(tokens) && nextTokenId == old(nextTokenId)
      ensures rentals == old(rentals) && messages == old(messages)
    {
      if |u.email| > MaxEmailLength {
        return Err(Failure(DataIntegrityViolation, constraintMessage));
      }
      var saved := u.(id := Some(|users| + 1));
      users := users + [saved];
      r := Ok(saved);
    }

    /** TokenRepository.findByToken: the managed entity for the row with this token. */
    method FindByToken(t: string) returns (e: Option<TokenEntity>)
      requires Valid()
      ensures e.Some? <==> t in tokens
      ensures e.Some? ==> fresh(e.value)
      ensures e.Some? ==> e.value.id == Some(tokens[t].id) && e.value.token == Some(t)
      ensures e.Some? ==> e.value.user == Some(tokens[t].user) && e.value.createdAt == Some(tokens[t].createdAt)
      ensures e.Some? ==> e.value.valid == tokens[t].valid
    {
      if t in tokens {
        var loaded := new TokenEntity.Loaded(tokens[t]);
        e := Some(loaded);
      } else {
        e := None;
      }
    }

    /** TokenRepository.save. An entity without id is inserted, and the unique and
        length constraints of the token column may reject it; an entity with an id
        (one found by FindByToken) is merged into its row. */
    method SaveToken(e: TokenEntity) returns (r: Result<TokenRow>)
      requires Valid()
      requires e.token.Some? && e.user.Some? && e.createdAt.Some?
      requires e.user.value in users
      requires e.id.Some? ==> e.token.value in tokens && tokens[e.token.value].id == e.id.value
      modifies this
      ensures Valid()
      ensures users == old(users) && rentals == old(rentals) && messages == old(messages)
      ensures e.id.None? ==>
        (r.Ok? <==> e.token.value !in old(tokens) && |e.token.value| <= MaxTokenLength)
      ensures e.id.None? && r.Ok? ==>
        && r.value == TokenRow(old(nextTokenId), e.token.value, e.user.value, e.createdAt.value, e.valid)
        && tokens == old(tokens)[e.token.value := r.value]
        && nextTokenId == old(nextTokenId) + 1
      ensures e.id.Some? ==>
        && r == Ok(TokenRow(e.id.value, e.token.value, e.user.value, e.createdAt.value, e.valid))
        && tokens == old(tokens)[e.token.value := r.value]
        && nextTokenId == old(nextTokenId)
      ensures r.Err? ==>
        r.failure == Failure(DataIntegrityViolation, constraintMessage) && tokens == old(tokens) && nextTokenId == old(nextTokenId)
    {
      var t := e.token.value;
      if e.id.Some? {
        var row := TokenRow(e.id.value, t, e.user.value, e.createdAt.value, e.valid);
        tokens := tokens[t := row];
        r := Ok(row);
      } else if t in tokens || |t| > MaxTokenLength {
        r := Err(Failure(DataIntegrityViolation, constraintMessage));
      } else {
        var row := TokenRow(nextTokenId, t, e.user.value, e.createdAt.value, e.valid);
        tokens := tokens[t := row];
        nextTokenId := nextTokenId + 1;
        r := Ok(row);
      }
    }

    /** RentalRepository.save: insert a new rental, or overwrite the row of an existing one. */
    method SaveRental(e: RentalEntity) returns (saved: RentalEntity)
      requires Valid()
      requires e.picture.Some? && e.owner.Some? && e.owner.value in users
      requires e.createdAt.Some? && e.updatedAt.Some?
      requires e.id.Some? ==> 1 <= e.id.value <= |rentals|
      modifies this
      ensures Valid()
      ensures users == old(users) && tokens == old(tokens) && nextTokenId == old(nextTokenId)
      ensures messages == old(messages)
      ensures e.id.None? ==> saved == e.(id := Some(|old(rentals)| + 1)) && rentals == old(rentals) + [saved]
      ensures e.id.Some? ==> saved == e && rentals == old(rentals)[e.id.value - 1 := e]
    {
      if e.id.None? {
        saved := e.(id := Some(|rentals| + 1));
        rentals := rentals + [saved];
      } else {
        saved := e;
        rentals := rentals[e.id.value - 1 := e];
      }
    }

    /** MessageRepository.save of a new message. The message column holds at most
        2000 characters; a longer text is refused by the database. */
    method SaveMessage(m: MessageEntity) returns (r: Result<MessageEntity>)
      requires Valid()
      requires m.id.None? && m.user.Some? && m.user.value in users
      requires m.rental.Some? && m.rental.value.id.Some? && 1 <= m.rental.value.id.value <= |rentals|
      requires m.createdAt.Some? && m.updatedAt.Some?
      modifies this
      ensures Valid()
      ensures users == old(users) && tokens == old(tokens) && nextTokenId == old(nextTokenId)
      ensures rentals == old(rentals)
      ensures r.Ok? <==> |m.message| <= MaxMessageLength
      ensures r.Ok? ==> r.value == m.(id := Some(|old(messages)| + 1)) && messages == old(messages) + [r.value]
      ensures r.Err? ==> r.failure == Failure(DataIntegrityViolation, constraintMessage) && messages == old(messages)
    {
      if |m.message| > MaxMessageLength {
        return Err(Failure(DataIntegrityViolation, constraintMessage));
      }
      var saved := m.(id := Some(|messages| + 1));
      messages := messages + [saved];
      r := Ok(saved);
    }
  }
}
