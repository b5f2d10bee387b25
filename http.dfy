/** HTTP status codes used by the key-value server, and the `Result` and `Option`
    types of Rust that the handlers return. */
module Http {

  /** An HTTP status code: three decimal digits (section 15 of RFC 9110). */
  newtype StatusCode = c: int | 100 <= c <= 999 witness 200

  /** 404, section 15.5.5 of RFC 9110. */
  const NOT_FOUND: StatusCode := 404
  /** 408, section 15.5.9 of RFC 9110. */
  const REQUEST_TIMEOUT: StatusCode := 408
  /** 500, section 15.6.1 of RFC 9110. */
  const INTERNAL_SERVER_ERROR: StatusCode := 500
  /** 503, section 15.6.4 of RFC 9110. */
  const SERVICE_UNAVAILABLE: StatusCode := 503

  datatype Result<T, E> = Ok(value: T) | Err(error: E)

  datatype Option<T> = None | Some(value: T)
}
