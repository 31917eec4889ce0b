/** Values shared by every handler: identifiers, optional request fields,
    and the error a handler raises (the status it sets before it throws). */
module Common {

  /** A document identifier (a MongoDB ObjectId); users and tasks share one id space. */
  type Id = nat

  datatype Option<+T> = None | Some(value: T)

  /** The error a handler raises. `HttpError` is a status set with `res.status`
      followed by `throw new Error(message)`; `ValidationError` is the schema
      validation failure Mongoose raises, listing the failing paths in schema order. */
  datatype Error =
    | HttpError(status: nat, message: string)
    | ValidationError(paths: seq<string>)

  datatype Result<+T> = Ok(value: T) | Err(error: Error)

  /** JavaScript truthiness of an optional string field of a request body:
      an absent field and the empty string are both falsy. */
  predicate Truthy(s: Option<string>) {
    s.Some? && s.value != ""
  }

  /** JavaScript `given || current` on two optional string fields. */
  function Or(given: Option<string>, current: Option<string>): (r: Option<string>)
    ensures Truthy(given) ==> r == given
    ensures !Truthy(given) ==> r == current
  {
    if Truthy(given) then given else current
  }
}
