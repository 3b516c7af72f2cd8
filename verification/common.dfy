/** Shared vocabulary of the backend model: optional values, the error classes the
    services throw, results that carry the state an operation leaves behind, and
    JavaScript truthiness of request fields. */
module Common {

  /** `null` / `undefined` versus a present value. */
  datatype Option<+T> = None | Some(value: T)

  /** Identity of an account (a Mongo `_id`); always truthy when present. */
  type UserId = nat

  /** The error classes thrown by the services and controllers, each with the
      message the source hands to its constructor. */
  datatype Error =
    | ValidationError(message: string)
    | ConflictError(message: string)
    | NotFoundError(message: string)
    | UnauthorizedError(message: string)

  datatype Result<+T> = Ok(value: T) | Err(error: Error)

  /** The state an operation leaves behind together with what it returned or threw. */
  datatype Reply<S, T> = Reply(state: S, result: Result<T>)

  /** JavaScript truthiness of an optional string field: `undefined`, `null` and
      `""` are falsy, every other string is truthy. */
  predicate Truthy(s: Option<string>) {
    s.Some? && s.value != ""
  }

  /** JavaScript's `.length` of a string: UTF-16 code units, so a character
      above U+FFFF (a surrogate pair) counts twice. */
  function Utf16Length(s: string): (r: nat)
    ensures |s| <= r <= 2 * |s|
    ensures r == |s| <==> forall i :: 0 <= i < |s| ==> s[i] as int <= 0xFFFF
    decreases |s|
  {
    if s == [] then 0
    else (if s[0] as int > 0xFFFF then 2 else 1) + Utf16Length(s[1..])
  }
}
