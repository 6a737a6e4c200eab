/** Lower-case hexadecimal text of byte strings, as go-ethereum's
    `hexutil.Encode` writes it after its "0x" prefix. */
module Hex {
  import opened Optional
  import opened Numeric

  predicate IsLowerHex(c: char) {
    '0' <= c <= '9' || 'a' <= c <= 'f'
  }

  function HexDigit(n: nat): (c: char)
    requires n < 16
    ensures IsLowerHex(c)
  {
    "0123456789abcdef"[n]
  }

  /** The value of one hexadecimal digit; both cases are read. */
  function HexValue(c: char): (r: Option<nat>)
    ensures r.Some? ==> r.value < 16
  {
    if '0' <= c <= '9' then Some((c - '0') as nat)
    else if 'a' <= c <= 'f' then Some((c - 'a') as nat + 10)
    else if 'A' <= c <= 'F' then Some((c - 'A') as nat + 10)
    else None
  }

  lemma HexValueOfDigit(n: nat)
    requires n < 16
    ensures HexValue(HexDigit(n)) == Some(n)
  {
  }

  /** Two lower-case hex digits per byte, high nibble first. */
  function HexEncode(bs: Bytes): (s: string)
    ensures |s| == 2 * |bs|
    ensures forall i :: 0 <= i < |s| ==> IsLowerHex(s[i])
  {
    if |bs| == 0 then [] else [HexDigit(bs[0] / 16), HexDigit(bs[0] % 16)] + HexEncode(bs[1..])
  }

  /** Reads back pairs of hex digits; None on odd length or a non-hex character. */
  function HexDecode(s: string): Option<Bytes>
    decreases |s|
  {
    if |s| == 0 then Some([])
    else if |s| == 1 then None
    else match (HexValue(s[0]), HexValue(s[1]), HexDecode(s[2..]))
      case (Some(hi), Some(lo), Some(rest)) => Some([hi * 16 + lo] + rest)
      case _ => None
  }

  lemma {:induction false} HexRoundTrip(bs: Bytes)
    ensures HexDecode(HexEncode(bs)) == Some(bs)
  {
    if |bs| > 0 {
      var s := HexEncode(bs);
      HexValueOfDigit(bs[0] / 16);
      HexValueOfDigit(bs[0] % 16);
      assert s[2..] == HexEncode(bs[1..]);
      HexRoundTrip(bs[1..]);
      assert [bs[0]] + bs[1..] == bs;
    }
  }

  lemma HexEncodeInjective(a: Bytes, b: Bytes)
    requires HexEncode(a) == HexEncode(b)
    ensures a == b
  {
    HexRoundTrip(a);
    HexRoundTrip(b);
  }
}
