/** Failure-carrying values shared by the whole model.
    - Option: a Python value that may be None.
    - Result: a computation that either produces a value or raises an exception, whose
      text (what `str(e)` gives) is carried as a string.
    - Outcome: what an adapter's `upload` call hands back to the dispatcher: it either
      returns (a link, or None) or raises. */
module Results {

  datatype Option<+T> = None | Some(value: T)

  datatype Result<+T> = Ok(value: T) | Err(msg: string)

  datatype Outcome<+T> = Returned(link: Option<T>) | Raised(msg: string)
}
