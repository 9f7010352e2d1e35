/** Bytes, 32-bit positions, the crate's error type and its result shapes. */
module Primitives {

  type byte = x: int | 0 <= x < 0x100

  type u32 = x: int | 0 <= x < 0x1_0000_0000

  datatype Option<+T> = None | Some(value: T)

  datatype Error =
    | MalformedEncoding(encoding: byte)
    | MalformedFileSize
    | MalformedFileName
    | MalformedFrame(frame: byte)
    | MalformedHeader
    | InvalidState
    | Backpressure
    | OutOfMemory
    | UnexpectedCrc16
    | UnexpectedCrc32
    | UnexpectedEof
    | UnsupportedFeature

  /** What a caller is told that calls out of turn or with something still queued. */
  predicate Misuse(e: Error)
  {
    e == InvalidState || e == Backpressure
  }

  datatype Result<+T> = Ok(value: T) | Err(error: Error) {
    predicate IsFailure() {
      Err?
    }

    function PropagateFailure<U>(): Result<U>
      requires Err?
    {
      Err(error)
    }

    function Extract(): T
      requires Ok?
    {
      value
    }
  }

  function Min(a: int, b: int): (r: int)
  {
    if a <= b then a else b
  }

  /** Little-endian bytes of a 32-bit position, and back. */
  function LeBytes(n: u32): (bytes: seq<byte>)
    ensures |bytes| == 4
  {
    [n % 0x100, n / 0x100 % 0x100, n / 0x1_0000 % 0x100, n / 0x100_0000]
  }

  function FromLe(bytes: seq<byte>): (n: u32)
    requires |bytes| == 4
  {
    var b0: int, b1: int, b2: int, b3: int := bytes[0], bytes[1], bytes[2], bytes[3];
    b0 + 0x100 * b1 + 0x1_0000 * b2 + 0x100_0000 * b3
  }

  lemma LeRoundTrip(n: u32)
    ensures FromLe(LeBytes(n)) == n
  {
    var a := n / 0x100;
    var b := a / 0x100;
    assert n / 0x1_0000 == b && n / 0x100_0000 == b / 0x100;
    assert n == 0x100 * a + n % 0x100;
    assert a == 0x100 * b + a % 0x100;
    assert b == 0x100 * (b / 0x100) + b % 0x100;
  }
}
