/** Values shared by every module: Go's `error`, the `(T, error)` result pair and
    the reply of a repository write. */
module Common {

  /** A Go `error` value. */
  datatype Error =
    | Message(text: string)                  // errors.New(text) / fmt.Errorf(text)
    | Wrapped(prefix: string, cause: Error)   // fmt.Errorf("<prefix> %v", cause)
    | Service(op: string, cause: Error)       // errors.Service(op, cause)

  /** `nil` or a value; a Go `error` result is an `Option<Error>`. */
  datatype Option<+T> = None | Some(value: T)

  /** A Go `(T, error)` pair in which a non-nil error makes the value meaningless. */
  datatype Result<+T> = Ok(value: T) | Err(error: Error)

  /** What a repository write answers: the generated id (if any) and its error. */
  datatype Reply = Reply(id: int, err: Option<Error>)
}
