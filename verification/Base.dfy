/** Types shared by every component of the model. */
module Base {

  datatype Option<+T> = None | Some(value: T)

  datatype Result<+T, +E> = Ok(value: T) | Err(error: E)

  /** A port number. The source computes on ports in 16-bit arithmetic, which the model writes out. */
  type U16 = x: int | 0 <= x < 0x1_0000

  /** One octet of a byte stream. */
  type Byte = x: int | 0 <= x < 0x100

  type Bytes = seq<Byte>

  lemma Regroup<T>(a: seq<T>, b: seq<T>, c: seq<T>)
    ensures a + (b + c) == a + b + c
  {
  }
}
