/** The JDK value types the modelled classes are built from. */
module JavaTypes {

  /** Java `int`. */
  type Int32 = x: int | -0x8000_0000 <= x < 0x8000_0000

  /** Java `long`. */
  type Int64 = x: int | -0x8000_0000_0000_0000 <= x < 0x8000_0000_0000_0000

  /** `java.util.UUID`: two 64-bit halves; equality is equality of both halves. */
  datatype Uuid = Uuid(mostSigBits: bv64, leastSigBits: bv64)

  /** `java.time.LocalDateTime`, treated as an opaque instant supplied by the caller. */
  type Timestamp = int

  /** `UUID.hashCode()`: the two 32-bit halves of `most ^ least`, xor-ed. */
  function UuidHashCode(u: Uuid): bv32
  {
    var hilo := u.mostSigBits ^ u.leastSigBits;
    ((hilo >> 32) as bv32) ^ ((hilo & 0xFFFF_FFFF) as bv32)
  }

  /** `Objects.hash(x)` for one non-null argument whose own hash is `h`:
      `31 * 1 + h`, wrapping around at 2^32 like Java `int` arithmetic. */
  function ObjectsHash(h: bv32): bv32
  {
    31 + h
  }
}
