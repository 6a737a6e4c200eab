/** The persisted state record: the JSON object `{"size":N,"height":M}` that
    `json.Marshal` writes for the state (an object as in section 4 of RFC 8259,
    with integers as in its section 6), and a decoder for exactly that shape. */
module StateRecord {
  import opened Optional
  import opened Numeric

  const SizeOpen: string := "{\"size\":"
  const HeightSep: string := ",\"height\":"
  const Close: string := "}"

  /** The two counters the record carries. */
  datatype Counters = Counters(size: int64, height: int64)

  /** The record text for the given counters. */
  function Encode(c: Counters): (t: string)
    ensures SizeOpen <= t
    ensures t[|t| - 1] == '}'
  {
    SizeOpen + ShowInt(c.size) + HeightSep + ShowInt(c.height) + Close
  }

  /** Characters that can belong to a JSON integer token. */
  predicate NumberChar(c: char) {
    IsDigit(c) || c == '-'
  }

  /** Length of the longest prefix of `s` made of number characters. */
  function NumberSpan(s: string): (n: nat)
    ensures n <= |s|
    ensures forall i :: 0 <= i < n ==> NumberChar(s[i])
    ensures n < |s| ==> !NumberChar(s[n])
  {
    if |s| == 0 || !NumberChar(s[0]) then 0 else 1 + NumberSpan(s[1..])
  }

  /** The digits of an `int` token of RFC 8259 section 6: "0", or a
      non-empty digit string without a leading zero. */
  function ParseDigits(digits: string): (r: Option<nat>)
  {
    if |digits| == 0 || !AllDigits(digits) || (digits[0] == '0' && |digits| > 1) then None
    else Some(DigitsValue(digits))
  }

  /** An `int` token (optional minus, then digits) whose value fits `int64`,
      as `json.Unmarshal` demands of an `int64` field. */
  function ParseInt64(tok: string): (r: Option<int64>)
  {
    var neg := |tok| > 0 && tok[0] == '-';
    match ParseDigits(if neg then tok[1..] else tok)
    case None => None
    case Some(d) =>
      var v: int := if neg then 0 - d else d;
      if -TWO_63 <= v < TWO_63 then Some(v) else None
  }

  /** The record shape around two tokens. */
  function Record(sizeTok: string, heightTok: string): string {
    SizeOpen + sizeTok + HeightSep + heightTok + Close
  }

  /** `t` is the record shape around two tokens that parse to the counters of `c`. */
  ghost predicate RecordOf(t: string, c: Counters) {
    exists sizeTok, heightTok ::
      && t == Record(sizeTok, heightTok)
      && ParseInt64(sizeTok) == Some(c.size)
      && ParseInt64(heightTok) == Some(c.height)
  }

  /** Decodes a record; None for anything that is not the record shape
      (see `DecodeShape` for the whole shape). */
  function Decode(t: string): (r: Option<Counters>)
    ensures r.Some? ==> SizeOpen <= t
  {
    if !(SizeOpen <= t) then None else DecodeFromSize(t[|SizeOpen|..])
  }

  /** The record after `{"size":`: the size token, then `,"height":`. */
  function DecodeFromSize(r1: string): Option<Counters> {
    var n1 := NumberSpan(r1);
    var r2 := r1[n1..];
    if !(HeightSep <= r2) then None else DecodeFromHeight(r1[..n1], r2[|HeightSep|..])
  }

  lemma SplitAtSeparator(r1: string, n1: nat, r3: string)
    requires n1 <= |r1| && HeightSep <= r1[n1..] && r3 == r1[n1..][|HeightSep|..]
    requires |r3| > 0 && r3 == r3[..|r3| - 1] + Close
    ensures r1 == r1[..n1] + HeightSep + r3[..|r3| - 1] + Close
  {
    var r2 := r1[n1..];
    assert r2 == HeightSep + r3;
    assert r1 == r1[..n1] + r2;
  }

  /** The record after `,"height":`: the height token, then `}` and nothing more. */
  function DecodeFromHeight(sizeTok: string, r3: string): (r: Option<Counters>)
    ensures r.Some? ==> ParseInt64(sizeTok) == Some(r.value.size)
    ensures r.Some? ==>
      && |r3| > 0 && r3 == r3[..|r3| - 1] + Close
      && ParseInt64(r3[..|r3| - 1]) == Some(r.value.height)
  {
    var n2 := NumberSpan(r3);
    if r3[n2..] != Close then None
    else match (ParseInt64(sizeTok), ParseInt64(r3[..n2]))
      case (Some(s), Some(h)) =>
        assert r3 == r3[..n2] + r3[n2..];
        Some(Counters(s, h))
      case _ => None
  }

  /** What `DecodeFromSize` accepts: a size token, `,"height":`, a height
      token and `}`. */
  lemma SizeStageShape(r1: string) returns (sizeTok: string, heightTok: string)
    ensures DecodeFromSize(r1).Some? ==>
      && r1 == sizeTok + HeightSep + heightTok + Close
      && ParseInt64(sizeTok) == Some(DecodeFromSize(r1).value.size)
      && ParseInt64(heightTok) == Some(DecodeFromSize(r1).value.height)
  {
    sizeTok, heightTok := "", "";
    if DecodeFromSize(r1).Some? {
      var n1 := NumberSpan(r1);
      var r3 := r1[n1..][|HeightSep|..];
      SplitAtSeparator(r1, n1, r3);
      sizeTok, heightTok := r1[..n1], r3[..|r3| - 1];
    }
  }

  /** A decoded record is `{"size":`, an int64 token, `,"height":`, another
      int64 token and `}`, and the tokens' values are the counters. */
  lemma DecodeShape(t: string)
    ensures Decode(t).Some? ==> RecordOf(t, Decode(t).value)
  {
    if Decode(t).Some? {
      var sizeTok, heightTok := SizeStageShape(t[|SizeOpen|..]);
      RecordAfterOpen(t, sizeTok, heightTok);
      assert t == Record(sizeTok, heightTok);
    }
  }

  lemma RecordAfterOpen(t: string, sizeTok: string, heightTok: string)
    requires SizeOpen <= t
    requires t[|SizeOpen|..] == sizeTok + HeightSep + heightTok + Close
    ensures t == Record(sizeTok, heightTok)
  {
    assert t == SizeOpen + t[|SizeOpen|..];
    AppendAssoc(SizeOpen, sizeTok + HeightSep + heightTok, Close);
    AppendAssoc(SizeOpen, sizeTok + HeightSep, heightTok);
    AppendAssoc(SizeOpen, sizeTok, HeightSep);
  }

  lemma AppendAssoc(a: string, b: string, c: string)
    ensures a + (b + c) == a + b + c
  {
  }

  // ---- round trip ----

  lemma ShowIntIsNumber(i: int)
    ensures forall k :: 0 <= k < |ShowInt(i)| ==> NumberChar(ShowInt(i)[k])
  {
  }

  /** The number token of an encoded integer ends exactly where the integer's text does. */
  lemma {:induction false} NumberSpanOfShowInt(tok: string, rest: string)
    requires forall k :: 0 <= k < |tok| ==> NumberChar(tok[k])
    requires |rest| > 0 && !NumberChar(rest[0])
    ensures NumberSpan(tok + rest) == |tok|
    decreases |tok|
  {
    if |tok| > 0 {
      assert (tok + rest)[1..] == tok[1..] + rest;
      NumberSpanOfShowInt(tok[1..], rest);
    }
  }

  lemma ParseDigitsOfShowNat(n: nat)
    ensures ParseDigits(ShowNat(n)) == Some(n)
  {
    ShowNatRoundTrip(n);
  }

  lemma ParseShowInt(i: int64)
    ensures ParseInt64(ShowInt(i)) == Some(i)
  {
    if i < 0 {
      var m: nat := -(i as int);
      ParseNegative(m);
      assert ShowInt(i) == "-" + ShowNat(m);
    } else {
      ParsePositive(i);
      assert ShowInt(i) == ShowNat(i);
    }
  }

  lemma ParsePositive(n: nat)
    requires n < TWO_63
    ensures ParseInt64(ShowNat(n)) == Some(n)
  {
    ParseDigitsOfShowNat(n);
    assert ShowNat(n)[0] != '-';
  }

  lemma ParseNegative(m: nat)
    requires 0 < m <= TWO_63
    ensures ParseInt64("-" + ShowNat(m)) == Some(0 - m)
  {
    ParseDigitsOfShowNat(m);
    assert ("-" + ShowNat(m))[1..] == ShowNat(m);
  }

  /** A record assembled from two number tokens decodes to their values. */
  lemma DecodeOfTokens(s: string, h: string, vs: int64, vh: int64)
    requires forall k :: 0 <= k < |s| ==> NumberChar(s[k])
    requires forall k :: 0 <= k < |h| ==> NumberChar(h[k])
    requires ParseInt64(s) == Some(vs) && ParseInt64(h) == Some(vh)
    ensures Decode(SizeOpen + s + HeightSep + h + Close) == Some(Counters(vs, vh))
  {
    var t := SizeOpen + s + HeightSep + h + Close;
    assert t[|SizeOpen|..] == s + (HeightSep + h + Close);
    SizeTokenSplits(s, h);
    HeightTokenSplits(s, h, vs, vh);
  }

  lemma SizeTokenSplits(s: string, h: string)
    requires forall k :: 0 <= k < |s| ==> NumberChar(s[k])
    ensures DecodeFromSize(s + (HeightSep + h + Close)) == DecodeFromHeight(s, h + Close)
  {
    var r1 := s + (HeightSep + h + Close);
    NumberSpanOfShowInt(s, HeightSep + h + Close);
    assert r1[..|s|] == s;
    assert r1[|s|..] == HeightSep + h + Close;
    assert (HeightSep + h + Close)[|HeightSep|..] == h + Close;
  }

  lemma HeightTokenSplits(s: string, h: string, vs: int64, vh: int64)
    requires forall k :: 0 <= k < |h| ==> NumberChar(h[k])
    requires ParseInt64(s) == Some(vs) && ParseInt64(h) == Some(vh)
    ensures DecodeFromHeight(s, h + Close) == Some(Counters(vs, vh))
  {
    NumberSpanOfShowInt(h, Close);
    assert (h + Close)[..|h|] == h;
    assert (h + Close)[|h|..] == Close;
  }

  /** Decoding what was encoded yields the same counters. */
  lemma RoundTrip(c: Counters)
    ensures Decode(Encode(c)) == Some(c)
  {
    ShowIntIsNumber(c.size);
    ShowIntIsNumber(c.height);
    ParseShowInt(c.size);
    ParseShowInt(c.height);
    DecodeOfTokens(ShowInt(c.size), ShowInt(c.height), c.size, c.height);
  }

  /** Like `json.Unmarshal`, the decoder reads the token "-0" as zero, so
      it accepts a text that Save never writes. */
  lemma NegativeZeroAccepted()
    ensures Decode("{\"size\":-0,\"height\":0}") == Some(Counters(0, 0))
    ensures Encode(Counters(0, 0)) != "{\"size\":-0,\"height\":0}"
  {
    assert ParseDigits("0") == Some(0);
    assert "-0"[1..] == "0";
    assert ParseInt64("-0") == Some(0);
    assert "{\"size\":-0,\"height\":0}" == SizeOpen + "-0" + HeightSep + "0" + Close;
    DecodeOfTokens("-0", "0", 0, 0);
    assert |Encode(Counters(0, 0))| == |SizeOpen| + 1 + |HeightSep| + 1 + |Close|;
  }

  /** Distinct counters give distinct records. */
  lemma EncodeInjective(a: Counters, b: Counters)
    requires Encode(a) == Encode(b)
    ensures a == b
  {
    RoundTrip(a);
    RoundTrip(b);
  }

  lemma ExampleRecord()
    ensures Encode(Counters(42, 100)) == "{\"size\":42,\"height\":100}"
  {
    ShowNatExamples();
    assert ShowInt(42) == "42" && ShowInt(100) == "100";
  }
}
