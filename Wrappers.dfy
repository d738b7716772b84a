/** Rust's `Option` and `Result`, and the `ok_or` adaptor between them. */
module Wrappers {

  datatype Option<+T> = None | Some(value: T)

  datatype Result<+T, +E> = Ok(value: T) | Err(error: E)

  /** `Option::ok_or`: a present value becomes `Ok`, an absent one the given error. */
  function OkOr<T, E>(o: Option<T>, e: E): (r: Result<T, E>)
    ensures r.Ok? <==> o.Some?
    ensures o.Some? ==> r.value == o.value
    ensures o.None? ==> r.error == e
  {
    match o
    case Some(v) => Ok(v)
    case None => Err(e)
  }
}
