/**
 * Shared vocabulary of the user-management backend: the stored records,
 * the closed enumerations they use and the response envelope that every
 * handler, gate and the error handler answer with.
 */
module Domain {

  datatype Option<+T> = None | Some(value: T)

  /** Roles a user can hold; the role gate admits only SuperAdmin. */
  datatype UserType = SuperAdmin | Admin | Customer

  /** Account states; only Active accounts may log in. */
  datatype UserStatus = Active | Inactive | Unverified

  /** Database identifier of a user record (an ObjectId in the store). */
  type UserId = nat

  /**
   * A stored user. `password` holds what the add-user flow stored, i.e. the
   * output of the hash function; email and mobile are optional.
   */
  datatype User = User(
    id: UserId,
    fullName: string,
    username: string,
    email: Option<string>,
    mobile: Option<string>,
    password: string,
    userType: UserType,
    status: UserStatus,
    orderNumber: int)

  /** HTTP status codes the backend uses. */
  const HttpOk: int := 200
  const HttpUnauthorized: int := 401
  const HttpInternalError: int := 500

  /** Payload carried in the `data` field of the envelope. */
  datatype Data =
    | Empty
    | LoginPayload(id: UserId, token: string, fullName: string, userType: UserType)
    | UserPage(users: seq<User>)

  /** The envelope written by sendResponse(res, data, message, success, status). */
  datatype Response = Response(data: Data, message: string, success: bool, status: int)

  /** A failure answer: empty data, success=false. */
  function Failure(message: string, status: int): Response
  {
    Response(Empty, message, false, status)
  }
}
