/** Types and Go idioms shared by every module: bytes, optional values, results, truncating division. */
module Prelude {

  newtype byte = b: int | 0 <= b < 0x100

  type Bytes = seq<byte>

  /** A record id (a UUID string in the program), kept as the bytes bbolt uses for keys. */
  type Id = Bytes

  /** An instant, in nanoseconds. */
  type Time = int

  datatype Option<+T> = None | Some(value: T)

  datatype Error =
    | NotFound
    | BarcodeTaken
    | InvalidQuantity
    | UnknownProduct
    | EmptySale
    | Underpaid

  datatype Result<+T> = Ok(value: T) | Err(error: Error)

  /** Go's integer division, which truncates toward zero. */
  function GoDiv(a: int, b: int): int
    requires b != 0
  {
    if a >= 0 then
      if b > 0 then a / b else -(a / -b)
    else
      if b > 0 then -(-a / b) else -a / -b
  }

  lemma MulMonotone(a: int, b: int, n: int)
    requires a <= b && n >= 0
    ensures a * n <= b * n
  {
    assert (b - a) * n >= 0;
  }

  /** What is left of a sequence behind its first n elements. */
  function Drop<T>(s: seq<T>, n: nat): seq<T> {
    if n >= |s| then [] else s[n..]
  }

  /** The bytes of a text whose characters are single bytes. */
  function Ascii(s: string): Bytes {
    seq(|s|, i requires 0 <= i < |s| => (s[i] as int % 0x100) as byte)
  }
}
