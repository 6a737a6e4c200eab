/** Fixed-width integers, big-endian byte encoding and decimal text, as Go's
    `int64`, `uint64`, `uint16`, `encoding/binary` and `strconv` see them. */
module Numeric {

  type byte = x: int | 0 <= x < 256
  type Bytes = seq<byte>

  const TWO_16: int := 0x1_0000
  const TWO_63: int := 0x8000_0000_0000_0000
  const TWO_64: int := 0x1_0000_0000_0000_0000

  type int64 = x: int | -0x8000_0000_0000_0000 <= x < 0x8000_0000_0000_0000
  type uint64 = x: int | 0 <= x < 0x1_0000_0000_0000_0000
  type uint32 = x: int | 0 <= x < 0x1_0000_0000
  type uint16 = x: int | 0 <= x < 0x1_0000

  /** Two's-complement wrap-around of an arbitrary integer into `int64`,
      which is what Go's `x++` on an `int64` does at the top of the range. */
  function Wrap64(x: int): (r: int64)
    ensures (r - x) % TWO_64 == 0
    ensures -TWO_63 <= x < TWO_63 ==> r == x
  {
    (x + TWO_63) % TWO_64 - TWO_63
  }

  /** Go's `x++` on an `int64`. */
  function Inc64(x: int64): (r: int64)
    ensures r == Wrap64(x + 1)
    ensures x < TWO_63 - 1 ==> r == x + 1
  {
    if x == TWO_63 - 1 then -TWO_63 else x + 1
  }

  /** Wrapping a partial sum and adding more wraps the whole sum. */
  lemma WrapAdd(x: int, y: int)
    ensures Wrap64(Wrap64(x) + y) == Wrap64(x + y)
  {
    var w := Wrap64(x);
    var q := (w - x) / TWO_64;
    assert w == x + q * TWO_64;
    assert (w + y + TWO_63) % TWO_64 == (x + y + TWO_63 + q * TWO_64) % TWO_64;
    ModAddMultiple(x + y + TWO_63, q);
  }

  /** Two wrapped increments in a row are one wrapped increment by their sum. */
  lemma WrapTwice(s0: int, n1: int, n2: int, s1: int, s2: int)
    requires s1 == Wrap64(s0 + n1) && s2 == Wrap64(s1 + n2)
    ensures s2 == Wrap64(s0 + n1 + n2)
  {
    WrapAdd(s0 + n1, n2);
  }

  lemma ModAddMultiple(a: int, q: int)
    ensures (a + q * TWO_64) % TWO_64 == a % TWO_64
  {
  }

  /** Go's conversion `uint64(x)` of an `int64`: reinterpret the bits. */
  function ToUint64(x: int64): (r: uint64)
    ensures x >= 0 ==> r == x
    ensures x < 0 ==> r == x + TWO_64
  {
    x % TWO_64
  }

  /** Go's truncating conversion `uint16(x)`. */
  function ToUint16(x: uint64): (r: uint16)
    ensures x < TWO_16 ==> r == x
    ensures (x - r) % TWO_16 == 0
  {
    x % TWO_16
  }

  function Pow256(n: nat): (r: nat)
    ensures r >= 1
  {
    if n == 0 then 1 else 256 * Pow256(n - 1)
  }

  /** The `width`-byte big-endian encoding of `u`, most significant byte first
      (`binary.BigEndian.PutUint64` for width 8). */
  function BigEndian(u: nat, width: nat): (r: Bytes)
    ensures |r| == width
  {
    if width == 0 then [] else BigEndian(u / 256, width - 1) + [u % 256]
  }

  /** The number a big-endian byte string denotes. */
  function FromBigEndian(bs: Bytes): (r: nat)
    ensures r < Pow256(|bs|)
  {
    if |bs| == 0 then 0 else FromBigEndian(bs[..|bs| - 1]) * 256 + bs[|bs| - 1]
  }

  /** Reading back a big-endian encoding yields the encoded number when it fits. */
  lemma {:induction false} BigEndianRoundTrip(u: nat, width: nat)
    requires u < Pow256(width)
    ensures FromBigEndian(BigEndian(u, width)) == u
  {
    if width > 0 {
      var bs := BigEndian(u, width);
      assert bs[..width - 1] == BigEndian(u / 256, width - 1);
      assert u / 256 < Pow256(width - 1);
      BigEndianRoundTrip(u / 256, width - 1);
    }
  }

  /** Two numbers below 256^width have the same encoding only if they are equal. */
  lemma BigEndianInjective(u: nat, v: nat, width: nat)
    requires u < Pow256(width) && v < Pow256(width)
    requires BigEndian(u, width) == BigEndian(v, width)
    ensures u == v
  {
    BigEndianRoundTrip(u, width);
    BigEndianRoundTrip(v, width);
  }

  // ---- decimal text ----

  predicate IsDigit(c: char) {
    '0' <= c <= '9'
  }

  predicate AllDigits(s: string) {
    forall i :: 0 <= i < |s| ==> IsDigit(s[i])
  }

  function DigitChar(d: nat): (c: char)
    requires d < 10
    ensures IsDigit(c)
  {
    "0123456789"[d]
  }

  function DigitValue(c: char): (d: nat)
    requires IsDigit(c)
    ensures d < 10
  {
    (c - '0') as nat
  }

  /** Base-10 text of a natural number, without leading zeros (`strconv.FormatUint`). */
  function ShowNat(n: nat): (s: string)
    ensures |s| > 0 && AllDigits(s)
    ensures s[0] == '0' <==> n == 0
    ensures n == 0 ==> s == "0"
    decreases n
  {
    if n < 10 then [DigitChar(n)] else ShowNat(n / 10) + [DigitChar(n % 10)]
  }

  /** The decimal text of 42 and of 100. */
  lemma ShowNatExamples()
    ensures ShowNat(42) == "42"
    ensures ShowNat(100) == "100"
  {
    assert ShowNat(4) == "4";
    assert ShowNat(10) == "10" by { assert ShowNat(1) == "1"; }
  }

  /** Base-10 text of an integer, with a leading '-' when negative (`strconv.FormatInt`). */
  function ShowInt(i: int): (s: string)
    ensures |s| > 0
    ensures i >= 0 ==> s == ShowNat(i)
    ensures i < 0 ==> s == "-" + ShowNat(-i)
  {
    if i < 0 then "-" + ShowNat(-i) else ShowNat(i)
  }

  /** The number a string of decimal digits denotes. */
  function DigitsValue(s: string): nat
    requires AllDigits(s)
  {
    if |s| == 0 then 0 else DigitsValue(s[..|s| - 1]) * 10 + DigitValue(s[|s| - 1])
  }

  lemma {:induction false} ShowNatRoundTrip(n: nat)
    ensures DigitsValue(ShowNat(n)) == n
    decreases n
  {
    if n >= 10 {
      var s := ShowNat(n);
      assert s[..|s| - 1] == ShowNat(n / 10);
      assert DigitValue(DigitChar(n % 10)) == n % 10;
      ShowNatRoundTrip(n / 10);
    } else {
      assert DigitValue(DigitChar(n)) == n;
    }
  }

  lemma ShowNatInjective(m: nat, n: nat)
    requires ShowNat(m) == ShowNat(n)
    ensures m == n
  {
    ShowNatRoundTrip(m);
    ShowNatRoundTrip(n);
  }
}
