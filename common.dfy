/** Identifiers, optional values and the outcome kinds the handlers answer with. */
module Common {

  /** A document id (a Mongo ObjectId in its 24-character text form, or whatever
      string a request carries). Ids are compared as strings, not as the
      ObjectIds they cast to. */
  type Id = string

  datatype Option<+T> = None | Some(value: T)

  /** The HTTP status class of a handler's answer. Envelopes and message texts
      are not modelled. */
  datatype Outcome =
    | Ok             // 200
    | Created        // 201
    | BadRequest     // 400
    | Unauthorized   // 401
    | Forbidden      // 403
    | NotFound       // 404
    | InternalError  // 500
}
