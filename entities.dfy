/** Persistent entities. Users, rentals and messages are values (their rows);
    TokenEntity is an object built and changed through its setters. */
module Entities {
  import opened Common

  /** A row of the users table; id and timestamps are unset (None) until
      register assigns them and the store saves the row. */
  datatype UserEntity = UserEntity(
    id: Option<int>,
    email: string,
    name: string,
    password: string,
    createdAt: Option<DateTime>,
    updatedAt: Option<DateTime>)

  /** A row of the rentals table; `picture` is the image URL, `owner` the owning user. */
  datatype RentalEntity = RentalEntity(
    id: Option<int>,
    name: string,
    surface: Double,
    price: Double,
    description: string,
    picture: Option<string>,
    owner: Option<UserEntity>,
    createdAt: Option<DateTime>,
    updatedAt: Option<DateTime>)

  /** A row of the messages table. */
  datatype MessageEntity = MessageEntity(
    id: Option<int>,
    message: string,
    user: Option<UserEntity>,
    rental: Option<RentalEntity>,
    createdAt: Option<DateTime>,
    updatedAt: Option<DateTime>)

  /** A stored row of the tokens table: every column is non-null. */
  datatype TokenRow = TokenRow(id: nat, token: string, user: UserEntity, createdAt: Instant, valid: bool)

  /** An issued token as a mutable entity. A fresh entity has every column unset
      except `valid`, which starts out true. */
  class TokenEntity {
    var id: Option<nat>
    var token: Option<string>
    var user: Option<UserEntity>
    var createdAt: Option<Instant>
    var valid: bool

    constructor ()
      ensures id.None? && token.None? && user.None? && createdAt.None?
      ensures valid
    {
      id, token, user, createdAt := None, None, None, None;
      valid := true;
    }

    /** The managed entity the store materialises from a row it finds. */
    constructor Loaded(row: TokenRow)
      ensures id == Some(row.id) && token == Some(row.token) && user == Some(row.user)
      ensures createdAt == Some(row.createdAt) && valid == row.valid
    {
      id, token, user, createdAt := Some(row.id), Some(row.token), Some(row.user), Some(row.createdAt);
      valid := row.valid;
    }

    method SetToken(t: string)
      modifies this
      ensures token == Some(t)
      ensures id == old(id) && user == old(user) && createdAt == old(createdAt) && valid == old(valid)
    {
      token := Some(t);
    }

    method SetUser(u: UserEntity)
      modifies this
      ensures user == Some(u)
      ensures id == old(id) && token == old(token) && createdAt == old(createdAt) && valid == old(valid)
    {
      user := Some(u);
    }

    method SetCreatedAt(at: Instant)
      modifies this
      ensures createdAt == Some(at)
      ensures id == old(id) && token == old(token) && user == old(user) && valid == old(valid)
    {
      createdAt := Some(at);
    }

    method SetValid(v: bool)
      modifies this
      ensures valid == v
      ensures id == old(id) && token == old(token) && user == old(user) && createdAt == old(createdAt)
    {
      valid := v;
    }
  }
}
