/** Shared wrappers: optional values, Python exceptions that cross the core's
    boundary, and the reply to a single provider request. */
module Common {

  /** A value that may be absent: a dictionary key that is missing, or a
      parameter left at its `None` default. */
  datatype Option<+T> = None | Some(value: T) {

    /** The value, or `default` when absent (Python's `d.get(key, default)`). */
    function GetOr(default: T): T {
      match this
      case Some(v) => v
      case None => default
    }
  }

  /** The exceptions the modelled Python code lets escape: `ValueError` from
      the time normaliser and `KeyError` from indexing a dictionary with a
      key it does not hold. */
  datatype Exception = ValueError(message: string) | KeyError(key: string)

  /** The outcome of running Python code: it returned a value or raised. */
  datatype Exec<+T> = Ok(value: T) | Raise(exc: Exception)

  /** The reply to one provider request: the decoded body, or the message of
      an exception thrown while issuing it. */
  datatype Attempt<+R> = Returned(reply: R) | Threw(message: string)
}
