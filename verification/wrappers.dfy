/**
 Small value wrappers shared by the whole model: an optional value (a
 JavaScript `undefined`/`null` or a present value) and an HTTP reply.
 */
module Wrappers {

  /** A value that may be absent (`undefined` or `null` in the source). */
  datatype Option<+T> = None | Some(value: T) {

    /** The value, or `default` when absent. */
    function GetOr(default: T): T {
      match this
      case Some(v) => v
      case None => default
    }
  }

  /** JavaScript `s || fallback` for a possibly-absent string: the empty
      string and a missing value are both falsy. */
  function OrElse(s: Option<string>, fallback: string): (r: string)
    ensures s.Some? && s.value != "" ==> r == s.value
    ensures s.None? || s.value == "" ==> r == fallback
  {
    if s.Some? && s.value != "" then s.value else fallback
  }

  /** The reply an Express handler sends: a status code with either a
      payload (2xx) or a human-readable message (4xx/5xx). */
  datatype Response<+T> =
    | Success(code: int, value: T)
    | Failure(code: int, message: string)
  {
    function Status(): int {
      match this
      case Success(c, _) => c
      case Failure(c, _) => c
    }
  }

  const Ok := 200
  const Created := 201
  const BadRequest := 400
  const NotFound := 404
  const ServerError := 500
}
