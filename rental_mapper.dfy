/** Conversions between the rentals table and the rental records of the REST layer. */
module RentalMapper {
  import opened Common
  import opened Entities
  import opened Dto
  import Store

  /** toDTO: every column of the row, with the owner replaced by its id. The owner
      is dereferenced, so a row without one cannot be converted. */
  function ToDTO(e: RentalEntity): (d: RentalDto)
    requires e.owner.Some?
    ensures d.id == e.id && d.name == e.name && d.surface == e.surface && d.price == e.price
    ensures d.description == e.description && d.picture == e.picture
    ensures d.ownerId == e.owner.value.id
    ensures d.createdAt == e.createdAt && d.updatedAt == e.updatedAt
  {
    RentalDto(e.id, e.name, e.surface, e.price, e.description, e.picture, e.owner.value.id, e.createdAt, e.updatedAt)
  }

  /** toEntity: a new, unsaved rental carrying the four descriptive fields of the
      request; id, picture, owner and timestamps are left for the caller to set. */
  function ToEntity(dto: NewRentalDto): (e: RentalEntity)
    ensures e.name == dto.name && e.surface == dto.surface && e.price == dto.price
    ensures e.description == dto.description
    ensures e.id.None? && e.picture.None? && e.owner.None?
    ensures e.createdAt.None? && e.updatedAt.None?
  {
    RentalEntity(None, dto.name, dto.surface, dto.price, dto.description, None, None, None, None)
  }

  /** Every stored rental can be converted, and the owner id of its view names a
      stored user: looking that id up finds the owner itself. */
  lemma StoredViewNamesOwner(rentals: seq<RentalEntity>, users: seq<UserEntity>, i: nat)
    requires Store.UsersWellFormed(users) && Store.RentalsWellFormed(rentals, users)
    requires i < |rentals|
    ensures rentals[i].owner.Some?
    ensures ToDTO(rentals[i]).ownerId.Some?
    ensures Store.FindUserById(users, ToDTO(rentals[i]).ownerId.value) == rentals[i].owner
  {
  }
}
