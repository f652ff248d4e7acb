/** Values shared by the mode dispatcher and the Apalache mode: an optional
    value, the error type with its chain of contexts, results over that error,
    32-bit exit codes and process exit statuses. */
module Common {

  datatype Option<+T> = None | Some(value: T)

  /** An error: a root message wrapped in zero or more contexts, outermost first. */
  datatype Error = Msg(text: string) | Context(context: string, cause: Error)

  /** A result whose failure carries an `Error`. */
  datatype Res<+T> = Ok(value: T) | Err(error: Error) {

    /** Wraps the error, if any, in the context `c`; a success passes unchanged. */
    function WithContext(c: string): Res<T> {
      match this
      case Ok(v) => Ok(v)
      case Err(e) => Err(Context(c, e))
    }
  }

  /** A signed 32-bit integer, the type of a process exit code. */
  type Int32 = x: int | -0x8000_0000 <= x < 0x8000_0000

  /** The exit status of a finished process: its code, or `None` when the
      process ended without one (it was killed by a signal). */
  datatype ExitStatus = ExitStatus(code: Option<Int32>)
}
