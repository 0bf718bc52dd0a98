/** Failure-aware values shared by every module of the model.
    `None` stands for a Java `null` where the source admits one;
    `Err` stands for an exception the source throws. */
module Results {

  datatype Option<+T> = None | Some(value: T)

  /** Usable with `:-`: an `Err` propagates, an `Ok` yields its value. */
  datatype Result<+T, +E> = Ok(value: T) | Err(error: E) {

    predicate IsFailure()
    {
      Err?
    }

    function PropagateFailure<U>(): Result<U, E>
      requires Err?
    {
      Err(error)
    }

    function Extract(): T
      requires Ok?
    {
      value
    }
  }
}
