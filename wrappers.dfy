/** Option and Result values shared by every module of the model. */
module Wrappers {

  datatype Option<+T> = None | Some(value: T)

  datatype Result<+T, +E> = Ok(value: T) | Err(error: E)

  /** The error codes the endpoints raise (tRPC codes). */
  datatype Error = BadRequest | NotFound | Forbidden | InternalServerError

  /** The result of an endpoint that returns nothing on success. */
  datatype Outcome = Pass | Fail(error: Error)

  function Min(a: int, b: int): int { if a <= b then a else b }

  /** The first `n` elements of `s`, or all of `s` when it is shorter (JavaScript `slice(0, n)`). */
  function Take<T>(s: seq<T>, n: nat): (r: seq<T>)
    ensures |r| == Min(n, |s|) && r == s[..|r|]
  {
    if n <= |s| then s[..n] else s
  }
}
