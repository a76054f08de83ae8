/** Small shared vocabulary: optional values, fallible results and the
    URL type that jobs and crawler reports carry. */
module Common {

  datatype Option<+T> = None | Some(value: T)

  /** The outcome of an operation that yields a value or fails with an error. */
  datatype Result<+T, +E> = Ok(value: T) | Err(error: E)

  /** The outcome of an operation that yields nothing or fails with an error. */
  datatype Outcome<+E> = Pass | Fail(error: E)

  /** An absolute URL as produced by the URL parser; its structure is opaque here. */
  datatype Url = Url(href: string)

  /** The largest value a Rust u64 holds, plus one. */
  const U64_LIMIT: int := 0x1_0000_0000_0000_0000

  /** The largest value a Rust u16 holds, plus one. */
  const U16_LIMIT: int := 0x1_0000

  function Min(a: int, b: int): (r: int)
    ensures r <= a && r <= b && (r == a || r == b)
  {
    if a <= b then a else b
  }
}
