/** Byte strings, integer limits and times shared by the other modules. Go strings are
    byte strings, so a text in the model is a sequence of bytes. */
module Bytes {

  type byte = b: int | 0 <= b < 256
  type Text = seq<byte>

  datatype Option<+T> = None | Some(value: T)

  /** One past the largest uint64. */
  const TWO_64: nat := 0x1_0000_0000_0000_0000

  /** Times and durations are nanoseconds. */
  const SECOND: int := 1_000_000_000

  const NEWLINE: byte := 10
  const RETURN: byte := 13
  const SPACE: byte := 32
  const DOUBLE_QUOTE: byte := 34
  const DOLLAR: byte := 36
  const SINGLE_QUOTE: byte := 39
  const STAR: byte := 42
  const DASH: byte := 45
  const SLASH: byte := 47
  const COLON: byte := 58
  const QUESTION: byte := 63
  const BACKSLASH: byte := 92
  const UNDERSCORE: byte := 95

  predicate IsDigit(b: byte) { 48 <= b <= 57 }

  predicate IsLetter(b: byte) { 97 <= b <= 122 || 65 <= b <= 90 }

  /** `e` or `E`. */
  predicate IsE(b: byte) { b == 101 || b == 69 }

  predicate AllDigits(ds: Text) { forall k :: 0 <= k < |ds| ==> IsDigit(ds[k]) }

  /** The number a string of decimal digits denotes. */
  function DecimalValue(ds: Text): nat
    requires AllDigits(ds)
  {
    if ds == [] then 0 else 10 * DecimalValue(ds[..|ds| - 1]) + (ds[|ds| - 1] - 48)
  }
}
