/** Request and response records exchanged with the REST layer. */
module Dto {
  import opened Common

  datatype LoginRequest = LoginRequest(email: string, password: string)

  datatype RegisterRequest = RegisterRequest(email: string, name: string, password: string)

  datatype AuthResponse = AuthResponse(token: string)

  /** The public view of a user: there is no password field. */
  datatype UserDto = UserDto(
    id: Option<int>,
    email: string,
    name: string,
    createdAt: Option<DateTime>,
    updatedAt: Option<DateTime>)

  /** A multipart upload: its declared content type, its original file name
      (both may be null) and whether it carries no bytes. The bytes are not modelled. */
  datatype Upload = Upload(contentType: Option<string>, originalFilename: Option<string>, isEmpty: bool)

  datatype NewRentalDto = NewRentalDto(
    name: string,
    surface: Double,
    price: Double,
    picture: Upload,
    description: string)

  datatype UpdateRentalDto = UpdateRentalDto(
    id: Option<int>,
    name: string,
    surface: Double,
    price: Double,
    picture: Option<Upload>,
    description: string,
    ownerId: Option<int>)

  datatype RentalDto = RentalDto(
    id: Option<int>,
    name: string,
    surface: Double,
    price: Double,
    description: string,
    picture: Option<string>,
    ownerId: Option<int>,
    createdAt: Option<DateTime>,
    updatedAt: Option<DateTime>)

  datatype MessageRequestDto = MessageRequestDto(rentalId: int, userId: int, message: string)
}
