/** Shapes shared by every view: optional values and what a view sees of one request. */
module Common {

  /** A value that may be `null`/`undefined` in the client. */
  datatype Option<+T> = None | Some(value: T) {

    /** `x ?? fallback` */
    function GetOr(fallback: T): T {
      match this
      case Some(v) => v
      case None => fallback
    }
  }

  /**
   * What a view sees of one request to the REST API, once the request client
   * has returned: a JSON envelope whose `data` is present, an envelope without
   * `data`, or a thrown error (network failure, any non-2xx status, or a body
   * that is not JSON: the request client throws on every non-2xx response).
   */
  datatype Response<+T> = Ok(data: T) | OkWithoutData | Failed

  /** `Math.max` and `Math.min` on two numbers. */
  function Max(a: int, b: int): int { if a >= b then a else b }
  function Min(a: int, b: int): int { if a <= b then a else b }
}
