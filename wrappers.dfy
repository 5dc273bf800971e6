/** Optional values, the model's stand-in for JavaScript's `undefined`. */
module Wrappers {

  datatype Option<+T> = None | Some(value: T) {

    /** The value, or `default` when there is none (the `x ?? default` idiom). */
    function GetOr(default: T): T {
      match this
      case Some(v) => v
      case None => default
    }
  }
}

/** The result of an awaited call into a service the model cannot see (HTTP through axios):
    either it resolved with a value, or it was rejected. A rejection carries
    `err.response?.data?.message`, which is absent when the server sent none. */
module Service {
  import opened Wrappers

  datatype Outcome<+T> = Resolved(value: T) | Rejected(serverMessage: Option<string>)

  /** `err.response?.data?.message || fallback`: a missing or empty server message
      falls back to the caller's own text. */
  function MessageOr<T>(o: Outcome<T>, fallback: string): (m: string)
    requires o.Rejected?
    ensures o.serverMessage.Some? && o.serverMessage.value != "" ==> m == o.serverMessage.value
    ensures o.serverMessage.None? || o.serverMessage.value == "" ==> m == fallback
  {
    match o.serverMessage
    case Some(s) => if s != "" then s else fallback
    case None => fallback
  }
}
