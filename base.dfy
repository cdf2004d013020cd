/** Failure-compatible wrappers shared by every module: `Option` stands for a
    JavaScript value that may be `undefined`/`null`, and `Result` for a call that
    either returns a value or throws. */
module Base {

  datatype Option<+T> = None | Some(value: T) {
    /** `x ?? d` in TypeScript: the value when present, the default otherwise. */
    function GetOr(default: T): T {
      match this
      case Some(v) => v
      case None => default
    }
  }

  /** `Err` carries the message of the exception the source throws. */
  datatype Result<+T> = Ok(value: T) | Err(message: string)
}
