/**
 * Byte-level helpers shared by the frame codec and the print session: Go's
 * truncating conversions to `byte` and little-endian 16-bit fields.
 */
module Bytes {
  /**
   * The byte whose value is `k`.  It is built by counting up from zero rather
   * than with an int-to-bitvector conversion, so that its value is a matter
   * of induction (`ByteOfValue`) instead of bit-level arithmetic.
   */
  function ByteOf(k: nat): bv8
    requires k < 256
  {
    if k == 0 then 0 else ByteOf(k - 1) + 1
  }

  lemma {:induction false} ByteOfValue(k: nat)
    requires k < 256
    ensures ByteOf(k) as int == k
  {
    if k > 0 {
      ByteOfValue(k - 1);
    }
  }

  /** Go's `byte(n & 0xFF)`. */
  function LowByte(n: nat): (b: bv8)
    ensures b as int == n % 256
  {
    ByteOfValue(n % 256);
    ByteOf(n % 256)
  }

  /** Go's `byte(n >> 8)`: the conversion keeps only the low eight bits. */
  function HighByte(n: nat): (b: bv8)
    ensures b as int == (n / 256) % 256
  {
    ByteOfValue((n / 256) % 256);
    ByteOf((n / 256) % 256)
  }

  /** The value of a little-endian 16-bit field. */
  function Le16(lo: bv8, hi: bv8): nat {
    lo as int + 256 * hi as int
  }

  lemma ModOfSum(p: nat, t: nat)
    requires t < 65536
    ensures (65536 * p + t) % 65536 == t
  {
  }

  lemma Split16(n: nat)
    ensures n % 65536 == 256 * ((n / 256) % 256) + n % 256
  {
    var q, r := n / 256, n % 256;
    var p, s := q / 256, q % 256;
    assert n == 256 * q + r;
    assert q == 256 * p + s;
    assert n == 65536 * p + (256 * s + r);
    ModOfSum(p, 256 * s + r);
  }

  /** Writing a number into a 16-bit field keeps it modulo 2^16. */
  lemma LengthField(n: nat)
    ensures Le16(LowByte(n), HighByte(n)) == n % 65536
  {
    Split16(n);
  }
}
