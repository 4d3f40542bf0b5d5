/** C++ fixed-width integer types and the value-changing conversion that
    `static_cast` (and an implicit integral conversion) performs between them. */
module CppIntegers {

  /** An integral type of `bits` bits, two's complement when `signed`. */
  datatype IntType = IntType(bits: nat, signed: bool)

  type IntegerType = t: IntType | t.bits >= 1 witness IntType(8, false)

  /** `jint`, `jlong` and `size_t` on an LP64 platform. */
  const JInt: IntegerType := IntType(32, true)
  const JLong: IntegerType := IntType(64, true)
  const SizeT: IntegerType := IntType(64, false)

  function Pow2(n: nat): (r: nat)
    ensures r >= 1
  {
    if n == 0 then 1 else 2 * Pow2(n - 1)
  }

  lemma {:induction false} Pow2Add(a: nat, b: nat)
    ensures Pow2(a + b) == Pow2(a) * Pow2(b)
  {
    if a > 0 {
      Pow2Add(a - 1, b);
    }
  }

  lemma Pow2Values()
    ensures Pow2(31) == 0x8000_0000
    ensures Pow2(64) == 0x1_0000_0000_0000_0000
  {
    assert Pow2(4) == 16;
    Pow2Add(4, 4);
    Pow2Add(8, 8);
    Pow2Add(16, 15);
    Pow2Add(16, 16);
    Pow2Add(32, 32);
  }

  /** Number of values of type `t`. */
  function Modulus(t: IntegerType): nat { Pow2(t.bits) }

  function MinValue(t: IntegerType): int {
    if t.signed then -(Pow2(t.bits - 1) as int) else 0
  }

  function MaxValue(t: IntegerType): int {
    (if t.signed then Pow2(t.bits - 1) else Pow2(t.bits)) - 1
  }

  predicate InRange(x: int, t: IntegerType) {
    MinValue(t) <= x <= MaxValue(t)
  }

  /** Number of whole turns of `Modulus(t)` that `Convert` takes off `x`. */
  function Wraps(x: int, t: IntegerType): int {
    (x - MinValue(t)) / Modulus(t)
  }

  /** The value of type `t` congruent to `x` modulo `2^bits`: what an
      integral conversion yields in C++ (wrap-around in both directions). */
  function Convert(x: int, t: IntegerType): (r: int)
    ensures InRange(r, t)
    ensures r == x - Modulus(t) * Wraps(x, t)
    ensures InRange(x, t) ==> r == x
  {
    ModBounds(x - MinValue(t), Modulus(t));
    MinValue(t) + (x - MinValue(t)) % Modulus(t)
  }

  /** Euclidean division by a positive `m`: the remainder is in `[0, m)`, and
      it is the dividend itself when the dividend already is. */
  lemma ModBounds(a: int, m: int)
    requires m > 0
    ensures 0 <= a % m < m
    ensures a == m * (a / m) + a % m
    ensures 0 <= a < m ==> a % m == a && a / m == 0
  {
  }

  /** The two checks `StaticCast` makes after `tmp = static_cast<To>(from)`:
      the sign did not flip and the value survives the cast back. */
  predicate CastChecksPass(from: int, fromType: IntegerType, toType: IntegerType) {
    var tmp := Convert(from, toType);
    !((from < 0 && tmp > 0) || (from > 0 && tmp < 0)) && from == Convert(tmp, fromType)
  }

  /** The checks pass exactly when `from` is representable in the target type,
      whatever the two widths and signednesses are. */
  lemma CastChecksExact(from: int, fromType: IntegerType, toType: IntegerType)
    requires InRange(from, fromType)
    ensures CastChecksPass(from, fromType, toType) <==> InRange(from, toType)
  {
  }

  lemma SizeTOfJInt(x: int)
    requires InRange(x, JInt)
    ensures Convert(x, SizeT) == if x < 0 then x + Pow2(64) else x
    ensures x < 0 ==> Convert(x, SizeT) > 0xFFFF_FFFF
  {
    Pow2Values();
    if x < 0 {
      assert Wraps(x, SizeT) == -1;
    }
  }
}
