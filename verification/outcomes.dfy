/** Failure-carrying results of the server handlers.  Every `throw new Error(...)`
    of a handler becomes a `Failure` carrying one of the `Error` values below. */
module Outcomes {

  datatype Option<+T> = None | Some(value: T)

  /** The errors a handler can reject with. */
  datatype Error =
    | CategoryNotFoundOrAccessDenied   // update_category / delete_category
    | CategoryHasTransactions          // delete_category: referential guard
    | CategoryNotOwned                 // create_transaction: category check
    | InvalidTransactionDate           // create_transaction: unparsable date
    | StartAfterEnd                    // export_report: inverted range
    | InvalidTimeValue                 // a filter date the driver cannot serialise
    | UserForeignKeyViolation          // insert for a user that does not exist
    | NumericFieldOverflow             // an amount the `numeric(15,2)` column cannot hold
    | DateOutOfRange                   // a day in year 0, which the `date` type lacks

  datatype Result<+T> = Success(value: T) | Failure(error: Error) {
    predicate IsFailure() { Failure? }

    function PropagateFailure<U>(): Result<U>
      requires Failure?
    {
      Failure(error)
    }

    function Extract(): T
      requires Success?
    {
      value
    }
  }

  /** The message text the handler puts into the thrown `Error`. */
  function Message(e: Error): string
  {
    match e
    case CategoryNotFoundOrAccessDenied => "Category not found or access denied"
    case CategoryHasTransactions => "Cannot delete category with existing transactions"
    case CategoryNotOwned => "Category not found or does not belong to user"
    case InvalidTransactionDate => "Invalid transaction date format"
    case StartAfterEnd => "Start date must be before or equal to end date"
    case InvalidTimeValue => "Invalid time value"
    case UserForeignKeyViolation => "violates foreign key constraint"
    case NumericFieldOverflow => "numeric field overflow"
    case DateOutOfRange => "date/time field value out of range"
  }
}
