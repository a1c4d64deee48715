/** Failure values shared by the ledger's operations.  Every Python exception
    the core can raise is turned into an `Err` carrying one of these kinds. */
module Results {

  datatype Option<+T> = None | Some(value: T)

  /** Why an operation failed:
      - MissingField: a record line split into fewer than five fields (IndexError);
      - EmptyStore: `max` over the codes of an empty store (ValueError);
      - NotANumber: `int(...)` or `float(...)` of text that is not a number (ValueError). */
  datatype Error = MissingField | EmptyStore | NotANumber

  datatype Result<+T> = Ok(value: T) | Err(error: Error)
}
