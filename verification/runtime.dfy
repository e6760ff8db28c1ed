/** The pieces of the .NET runtime the trading functions lean on: nullable
    references, exceptions thrown by awaited calls, 32-bit `int` arithmetic
    and lower-casing of operation names. */
module Runtime {

  /** A reference that may be null. */
  datatype Option<+T> = None | Some(value: T)

  /** The outcome of an awaited call into the host: a value, or an exception
      whose message the caller may catch. */
  datatype Io<+T> = Ok(value: T) | Throws(message: string)

  /** The message of the `NullReferenceException` the CLR raises on a null dereference. */
  const NullReferenceMessage: string := "Object reference not set to an instance of an object."

  const TwoTo31: int := 0x8000_0000
  const TwoTo32: int := 0x1_0000_0000

  /** C#'s `int`. */
  newtype int32 = x: int | -0x8000_0000 <= x < 0x8000_0000

  /** The value an unchecked 32-bit `int` operation leaves when its exact result is `x`. */
  function Wrap32(x: int): (r: int32)
    ensures -TwoTo31 <= x < TwoTo31 ==> r as int == x
    ensures (x - r as int) % TwoTo32 == 0
  {
    var m := (x + TwoTo31) % TwoTo32;
    assert x - (m - TwoTo31) == TwoTo32 * ((x + TwoTo31) / TwoTo32);
    (m - TwoTo31) as int32
  }

  /** Lower-casing of one character; only the ASCII letters are mapped. */
  function LowerChar(c: char): char
  {
    if 'A' <= c <= 'Z' then (c as int + 32) as char else c
  }

  predicate IsUpper(c: char)
  {
    'A' <= c <= 'Z'
  }

  /** `string.ToLower()` / `ToLowerInvariant()` restricted to ASCII letters:
      same length, every capital replaced by its small letter, every other
      character kept. */
  function ToLower(s: string): (r: string)
    ensures |r| == |s|
    ensures forall i :: 0 <= i < |s| ==> !IsUpper(r[i])
    ensures forall i :: 0 <= i < |s| && !IsUpper(s[i]) ==> r[i] == s[i]
    ensures forall i :: 0 <= i < |s| && IsUpper(s[i]) ==> r[i] as int == s[i] as int + 32
  {
    seq(|s|, i requires 0 <= i < |s| => LowerChar(s[i]))
  }

  /** Lower-casing twice is lower-casing once. */
  lemma ToLowerIdempotent(s: string)
    ensures ToLower(ToLower(s)) == ToLower(s)
  {
  }
}
