/** The parts of the Java platform that the binding relies on: the 32-bit
    `int` (JNI's `jint`), the exceptions the binding raises, `java.nio.Buffer`,
    and the decimal rendering that `String.format("%d", …)` produces. */
module Jvm {

  /** Java `int`, which JNI calls `jint`. */
  newtype int32 = x: int | -0x8000_0000 <= x < 0x8000_0000

  /** The exceptions a call into the binding can end with. */
  datatype Exception =
    | NullPointerException
    | IllegalArgumentException(message: string)
    | IllegalStateException(message: string)
    | ArrayIndexOutOfBoundsException(index: int, length: int)

  /** A `java.nio.Buffer`. Object identity matters (which buffer ends up in a
      result), so this is a class; its directness and capacity never change. */
  class Buffer {
    const isDirect: bool
    const capacity: int32

    /** `ByteBuffer.allocateDirect(capacity)`; the JDK rejects a negative
        capacity, which the binding never passes. */
    constructor AllocateDirect(capacity: int32)
      requires 0 <= capacity
      ensures isDirect && this.capacity == capacity
    {
      isDirect := true;
      this.capacity := capacity;
    }
  }

  function DigitChar(d: nat): (c: char)
    requires d < 10
    ensures '0' <= c <= '9'
  {
    ('0' as int + d) as char
  }

  function DigitValue(c: char): nat {
    if '0' <= c <= '9' then c as int - '0' as int else 0
  }

  /** The decimal digits of `n`, most significant first, without leading zeros. */
  function NatToDecimal(n: nat): (s: string)
    ensures |s| >= 1
    ensures forall i :: 0 <= i < |s| ==> '0' <= s[i] <= '9'
    ensures |s| > 1 ==> s[0] != '0'
  {
    if n < 10 then [DigitChar(n)] else NatToDecimal(n / 10) + [DigitChar(n % 10)]
  }

  /** `%d` of `x`: an optional minus sign followed by the digits of `|x|`. */
  function IntToDecimal(x: int): (s: string)
    ensures var start := if x < 0 then 1 else 0;
            && |s| > start
            && (s[0] == '-' <==> x < 0)
            && (forall i :: start <= i < |s| ==> '0' <= s[i] <= '9')
            && (|s| > start + 1 ==> s[start] != '0')
  {
    if x < 0 then "-" + NatToDecimal(-x) else NatToDecimal(x)
  }

  function DecimalToNat(s: string): nat {
    if s == [] then 0 else 10 * DecimalToNat(s[..|s| - 1]) + DigitValue(s[|s| - 1])
  }

  function DecimalToInt(s: string): int {
    if |s| > 0 && s[0] == '-' then -(DecimalToNat(s[1..]) as int) else DecimalToNat(s)
  }

  lemma {:induction false} NatToDecimalRoundTrip(n: nat)
    ensures DecimalToNat(NatToDecimal(n)) == n
  {
    if n >= 10 {
      NatToDecimalRoundTrip(n / 10);
      var s := NatToDecimal(n / 10) + [DigitChar(n % 10)];
      assert s[..|s| - 1] == NatToDecimal(n / 10);
    }
  }

  /** Reading the rendering back gives the number: distinct numbers render
      differently. */
  lemma IntToDecimalRoundTrip(x: int)
    ensures DecimalToInt(IntToDecimal(x)) == x
  {
    if x < 0 {
      NatToDecimalRoundTrip(-x);
      assert ("-" + NatToDecimal(-x))[1..] == NatToDecimal(-x);
    } else {
      NatToDecimalRoundTrip(x);
    }
  }

  lemma IntToDecimalInjective(x: int, y: int)
    requires IntToDecimal(x) == IntToDecimal(y)
    ensures x == y
  {
    IntToDecimalRoundTrip(x);
    IntToDecimalRoundTrip(y);
  }
}
