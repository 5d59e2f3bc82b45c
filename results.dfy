/** Failure values of the entity layer and the Result/Option wrappers that carry them.
    Each Error names the exception the library raises at that point. */
module Results {

  datatype Option<+T> = None | Some(value: T)

  datatype Error =
    // ValueError raised by Property.validate
    | MissingRequired
    | BadType
    | BadChoice
    // an exception raised by a property's custom validator
    | ValidatorRejected
    // ValueError: get_by_id called with an empty key
    | EmptyKey
    // KeyError: get_by_id found no record for the key
    | NotFound
    // KeyError: delete called on an instance without a key
    | NoKey
    // TypeError: a DateTimeProperty's field is missing from the stored record
    | MissingTimestamp
    // ValueError: Filter._apply met an operator it does not know
    | UnknownOperator
    // TypeError: a datetime ordered against a value that is not a datetime
    | Incomparable
    // a hand-built filter whose operand shape does not suit its operator
    | OperandMismatch
    // ValueError: a filter or sort order names no property of the query's model
    | UnknownProperty
    // ValueError: a second datastore opened while one is open
    | AlreadyOpen

  datatype Result<+T> = Ok(value: T) | Err(error: Error)
}
