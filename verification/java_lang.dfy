/** The few pieces of Java semantics the model needs: fixed-width integers
    with two's-complement wrap-around, the runtime exceptions the modelled
    code can raise, and `String.equalsIgnoreCase`. */
module JavaLang {

  const TwoTo31: int := 0x8000_0000
  const TwoTo32: int := 0x1_0000_0000

  /** Java `byte`: signed, 8 bits. */
  newtype Byte = x: int | -128 <= x < 128

  /** Java `int`: signed, 32 bits. */
  newtype Int = x: int | -0x8000_0000 <= x < 0x8000_0000

  /** The unchecked exceptions the modelled methods can throw. */
  datatype JavaException = NullPointerException | NegativeArraySizeException

  /** Java `int` arithmetic: the unique `int` congruent to `x` modulo 2^32. */
  function Wrap32(x: int): (r: Int)
    ensures (x - r as int) % TwoTo32 == 0
    ensures -TwoTo31 <= x < TwoTo31 ==> r as int == x
  {
    ((x + TwoTo31) % TwoTo32 - TwoTo31) as Int
  }

  /** `Wrap32(x)` differs from `x` by a whole number of 2^32 steps. */
  lemma WrapQuotient(x: int)
    ensures x - Wrap32(x) as int == TwoTo32 * ((x + TwoTo31) / TwoTo32)
  {
  }

  /** Two integers a multiple of 2^32 apart wrap to the same `int`. */
  lemma WrapCongruent(x: int, y: int, k: int)
    requires x - y == TwoTo32 * k
    ensures Wrap32(x) == Wrap32(y)
  {
    WrapQuotient(x);
    WrapQuotient(y);
    var qx, qy := (x + TwoTo31) / TwoTo32, (y + TwoTo31) / TwoTo32;
    assert Wrap32(x) as int - Wrap32(y) as int == TwoTo32 * (k - qx + qy);
  }

  /** Wrapping an intermediate product by 31 does not change the final `int`. */
  lemma WrapTimes31(x: int, y: int)
    ensures Wrap32(31 * (Wrap32(x) as int) + y) == Wrap32(31 * x + y)
  {
    WrapQuotient(x);
    var qx := (x + TwoTo31) / TwoTo32;
    WrapCongruent(31 * x + y, 31 * (Wrap32(x) as int) + y, 31 * qx);
  }

  /** Wrapping an intermediate sum does not change the final `int`. */
  lemma WrapPlus(x: int, y: int)
    ensures Wrap32(Wrap32(x) as int + y) == Wrap32(x + y)
  {
    WrapQuotient(x);
    WrapCongruent(x + y, Wrap32(x) as int + y, (x + TwoTo31) / TwoTo32);
  }

  /** `Character.toLowerCase` restricted to the ASCII letters. */
  function LowerAscii(c: char): (r: char)
    ensures 'A' <= c <= 'Z' ==> 'a' <= r <= 'z' && r as int - c as int == 32
    ensures !('A' <= c <= 'Z') ==> r == c
  {
    if 'A' <= c <= 'Z' then (c as int + 32) as char else c
  }

  /** `a.equalsIgnoreCase(b)` for a non-null `b`: same length, and the
      characters agree position by position once ASCII letters are folded. */
  predicate EqualsIgnoreCase(a: string, b: string)
  {
    && |a| == |b|
    && forall i :: 0 <= i < |a| ==> LowerAscii(a[i]) == LowerAscii(b[i])
  }
}
