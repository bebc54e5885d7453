/** Failure-compatible result types shared by every codec of the model. */
module Wrappers {

  datatype Option<+T> = None | Some(value: T)

  /** The exceptions the class-file codec throws, by kind. */
  datatype Error =
    | EndOfStream                       // a byte or a u16 was read past the end of the stream
    | ArgumentOutOfRange                // a count, tag, kind or index outside its range
    | ArgumentNull                      // a required argument was null
    | InvalidCast                       // a pool slot holds an entry of another class
    | NullReference                     // a null list was dereferenced
    | PoolOverflow                      // the constant pool outgrew its 16-bit index space
    | DuplicateAttribute(name: string)  // an attribute of that name is already present

  datatype Result<+T> = Ok(value: T) | Err(error: Error) {
    predicate IsFailure() { Err? }

    function PropagateFailure<U>(): Result<U>
      requires Err?
    {
      Err(error)
    }

    function Extract(): T
      requires Ok?
    {
      value
    }
  }
}
