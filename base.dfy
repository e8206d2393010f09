/** Shared vocabulary of the booking backend: identifiers, optional values and
    the JSON replies an Express handler sends (`res.status(code).json(...)`). */
module Base {

  /** A document identifier (a Mongo ObjectId); the store hands out fresh ones. */
  type Id = nat

  datatype Option<+T> = None | Some(value: T)

  /** A field of a request with its default when the request leaves it out. */
  function OrElse<T>(o: Option<T>, d: T): T {
    if o.Some? then o.value else d
  }

  /** What a handler answers: the success payload, or an HTTP status code with
      the `message` field of the error body. */
  datatype Reply<+T> = Ok(value: T) | Fail(code: nat, message: string)

  /** The roles a user account can hold. */
  datatype Role = User | FacilityOwner | Admin

  /** The authenticated caller (`req.user`), as the auth middleware supplies it. */
  datatype Requester = Requester(id: Id, role: Role)
}
