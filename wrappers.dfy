/** Option, Result and the error taxonomy raised by the CRUD layer. */
module Wrappers {

  datatype Option<+T> = None | Some(value: T)

  /** The exceptions the repository layer raises or lets through, each with its message. */
  datatype Error =
    | AttributeError(msg: string)   // unknown field, relation or related field
    | ValueError(msg: string)       // bad sort direction, missing update input
    | TypeError(msg: string)        // entity kind lacks a capability
    | NotFound(msg: string)         // NotFoundError, rendered as 404
    | NotUnique(msg: string)        // NotUniqueError, carries the engine's primary message
    | Integrity(msg: string)        // an IntegrityError that is not translated
    | DataError(msg: string)        // refused by the database engine (negative OFFSET/LIMIT)
    | Fatal(msg: string)            // history cannot be recorded
    | Invalid(errors: seq<FieldError>)  // request body rejected by schema validation, one entry per failing field

  /** One schema validation failure: the field and the validator's message. */
  datatype FieldError = FieldError(loc: string, msg: string)

  datatype Result<+T> = Ok(value: T) | Err(error: Error)
}
