/** The two outcome types the engine uses everywhere: an optional value and a
    fallible computation. A Rust panic (an index out of bounds, a checked
    overflow, `unimplemented!`) is the error `Panic`: no value is produced. */
module Results {

  datatype Option<+T> = None | Some(value: T)

  datatype Error = SchemaError | NotImplemented | Internal | Execution | Panic

  datatype Result<+T> = Ok(value: T) | Err(error: Error) {

    predicate IsFailure() {
      Err?
    }

    function PropagateFailure<U>(): Result<U>
      requires Err?
    {
      Err(error)
    }

    function Extract(): T
      requires Ok?
    {
      value
    }
  }
}
