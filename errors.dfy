/** The exceptions the exercises throw, as values.  An operation that may
    throw returns a Result (when it also produces a value) or an Outcome. */
module Errors {

  datatype Exception =
    | OutOfRange(what: string)   // std::out_of_range with its message
    | EmptyListException         // the linked-list exercise's own exception class

  datatype Result<T> = Ok(value: T) | Throw(ex: Exception)

  datatype Outcome = Done | Thrown(ex: Exception)
}
