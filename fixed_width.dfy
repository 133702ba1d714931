/**
 * The fixed-width C integers both adapters store values into, and the
 * conversions between them: narrowing to a signed type keeps the low bits
 * and reads them as two's complement.
 */
module FixedWidth {
  const Two16: int := 0x1_0000
  const Two32: int := 0x1_0000_0000
  const Two63: int := 0x8000_0000_0000_0000
  const Two64: int := 0x1_0000_0000_0000_0000
  const Int64Min: int := -0x8000_0000_0000_0000

  type Int32 = x: int | -0x8000_0000 <= x < 0x8000_0000
  type UInt32 = x: int | 0 <= x < 0x1_0000_0000
  type Int64 = x: int | -0x8000_0000_0000_0000 <= x < 0x8000_0000_0000_0000
  type UInt64 = x: int | 0 <= x < 0x1_0000_0000_0000_0000

  /** An `int` stored in an `int16_t`. */
  function Int16Of(x: int): (r: int)
    ensures -0x8000 <= r < 0x8000
    ensures (x - r) % Two16 == 0
    ensures -0x8000 <= x < 0x8000 ==> r == x
  {
    var m := x % Two16;
    if m < 0x8000 then m else m - Two16
  }

  /** A wider integer stored in an `int` (`gint`, `int32_t`): its low 32 bits
      as a two's-complement value. It is 0 exactly when the value is a
      multiple of 2^32. */
  function Int32Of(x: int): (r: Int32)
    ensures (x - r) % Two32 == 0
    ensures -0x8000_0000 <= x < 0x8000_0000 ==> r == x
    ensures r == 0 <==> x % Two32 == 0
  {
    var m := x % Two32;
    if m < 0x8000_0000 then m else m - Two32
  }

  /** A `uint64_t` stored in an `int64_t`: two's-complement reinterpretation. */
  function Int64Of(u: UInt64): (r: Int64)
    ensures (r - u) % Two64 == 0
    ensures u < Two63 ==> r == u
  {
    if u < Two63 then u else u - Two64
  }

  /** The way back: an `int64_t` read as `uint64_t`. */
  function UInt64Of(x: Int64): (r: UInt64)
    ensures (r - x) % Two64 == 0
    ensures 0 <= x ==> r == x
  {
    if 0 <= x then x else x + Two64
  }

  /** The reinterpretation loses nothing: a value stored and read back comes
      back as it went in, both ways round. */
  lemma TimestampRoundTrip(u: UInt64, x: Int64)
    ensures UInt64Of(Int64Of(u)) == u
    ensures Int64Of(UInt64Of(x)) == x
  {
  }
}
