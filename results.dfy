/** Optional values and the single failure channel shared by the pipeline stages. */
module Results {

  datatype Option<+T> = None | Some(value: T)

  /** `Err` stands for any exception the compiler throws: the run aborts and
      no result is produced, so no message is carried. */
  datatype Result<+T> = Ok(value: T) | Err {

    predicate IsFailure() {
      Err?
    }

    function PropagateFailure<U>(): Result<U>
      requires Err?
    {
      Err
    }

    function Extract(): T
      requires Ok?
    {
      value
    }
  }

  /** The outcome of a check that yields no value (`expect`): `Fail` aborts
      the caller the way `Err` does. */
  datatype Outcome = Pass | Fail {

    predicate IsFailure() {
      Fail?
    }

    function PropagateFailure<U>(): Result<U>
      requires Fail?
    {
      Err
    }
  }
}
