/** The entry printer of cmd/read.go (`printEntryNum`): one text line per
    stream entry, `%6d | %11s | %s\n` with the entry number, a name for the
    entry type and the payload as "0x"-prefixed hex. */
module Reader {
  import opened Optional
  import opened Numeric
  import opened Errors
  import opened Hex
  import StreamLog
  import Consensus

  /** A stream entry as the client receives it. */
  datatype FileEntry = FileEntry(number: uint64, kind: uint32, data: Bytes)

  const ErrNilEntry: Error := Plain("received nil entry")

  /** The name printed for an entry type. */
  function KindName(kind: nat): (s: string)
    ensures kind == 1 <==> s == "block start"
    ensures kind == 2 <==> s == "transaction"
    ensures kind == 3 <==> s == "block end"
    ensures kind !in {1, 2, 3} ==> s == "unknown type " + ShowNat(kind)
  {
    if kind == 1 then "block start"
    else if kind == 2 then "transaction"
    else if kind == 3 then "block end"
    else "unknown type " + ShowNat(kind)
  }

  /** Right-aligns `s` in a field of `width` characters (`%*s`, `%*d`):
      spaces in front, and nothing cut when `s` is wider. */
  function PadLeft(s: string, width: nat): (r: string)
    ensures |r| == if |s| >= width then |s| else width
    ensures |s| <= |r| && r[|r| - |s|..] == s
    ensures forall i :: 0 <= i < |r| - |s| ==> r[i] == ' '
    decreases width
  {
    if |s| >= width then s else " " + PadLeft(s, width - 1)
  }

  /** `hexutil.Encode`: "0x" followed by lower-case hex; "0x" for no bytes. */
  function HexutilEncode(data: Bytes): (t: string)
    ensures |t| == 2 + 2 * |data|
    ensures t[..2] == "0x"
  {
    "0x" + HexEncode(data)
  }

  /** The three fields of a printed line, separated by " | " and ended by
      a newline. */
  function Layout(number: string, kind: string, payload: string): string {
    number + " | " + kind + " | " + payload + "\n"
  }

  /** Where each field of a laid-out line sits. */
  lemma LayoutFields(number: string, kind: string, payload: string)
    ensures var t := Layout(number, kind, payload);
      && |t| == |number| + |kind| + |payload| + 7
      && t[..|number|] == number
      && t[|number|..|number| + 3] == " | "
      && t[|number| + 3..|number| + 3 + |kind|] == kind
      && t[|number| + 3 + |kind|..|number| + 6 + |kind|] == " | "
      && t[|number| + 6 + |kind|..|t| - 1] == payload
      && t[|t| - 1] == '\n'
  {
    var t := Layout(number, kind, payload);
    var a := number + " | ";
    var b := a + kind + " | ";
    assert t == b + payload + "\n";
    assert t[..|number|] == a[..|number|];
    assert t[|number|..|number| + 3] == a[|number|..];
    assert t[|number| + 3..|number| + 3 + |kind|] == b[|a|..|a| + |kind|];
    assert t[|number| + 3 + |kind|..|number| + 6 + |kind|] == b[|a| + |kind|..];
    assert t[|number| + 6 + |kind|..|t| - 1] == payload;
  }

  /** Splitting a slice of `s` at `k` splits `s` at the same place. */
  lemma SplitSlice(s: string, lo: nat, t: string, k: nat)
    requires lo + |t| <= |s| && s[lo..lo + |t|] == t && k <= |t|
    ensures s[lo..lo + k] == t[..k] && s[lo + k..lo + |t|] == t[k..]
  {
    assert s[lo..lo + |t|][..k] == s[lo..lo + k];
    assert s[lo..lo + |t|][k..] == s[lo + k..lo + |t|];
  }

  /** The first field: the entry number right-aligned in six columns. */
  function NumberField(n: nat): (f: string)
    ensures |f| >= 6
  {
    PadLeft(ShowNat(n), 6)
  }

  /** The second field: the type name right-aligned in eleven columns. */
  function KindField(kind: nat): (f: string)
    ensures |f| >= 11
  {
    PadLeft(KindName(kind), 11)
  }

  /** A line with the given number and type fields and the payload
      printed as "0x"-prefixed hex. */
  function FormatLine(number: string, kind: string, data: Bytes): (line: string)
    ensures |line| == |number| + |kind| + 2 * |data| + 9
    ensures line[..|number|] == number
    ensures line[|number|..|number| + 3] == " | "
    ensures line[|number| + 3..|number| + 3 + |kind|] == kind
    ensures line[|number| + 3 + |kind|..|number| + 6 + |kind|] == " | "
    ensures var p := |number| + |kind| + 6; line[p..p + 2] == "0x"
    ensures var p := |number| + |kind| + 6; line[p + 2..|line| - 1] == HexEncode(data)
    ensures line[|line| - 1] == '\n'
  {
    var payload := HexutilEncode(data);
    LayoutFields(number, kind, payload);
    var line := Layout(number, kind, payload);
    SplitSlice(line, |number| + 6 + |kind|, payload, 2);
    line
  }

  /** The line printed for a non-nil entry. */
  function EntryLine(e: FileEntry): string {
    FormatLine(NumberField(e.number), KindField(e.kind), e.data)
  }

  /** The printed line and the returned error. */
  datatype Printed = Printed(line: string, err: Option<Error>)

  /** `printEntryNum`: a nil entry is an error; any other entry prints its line. */
  function PrintEntryNum(e: Option<FileEntry>): (r: Printed)
    ensures r.err.Some? <==> e.None?
    ensures e.None? ==> r == Printed("", Some(ErrNilEntry))
    ensures e.Some? ==> r.line == EntryLine(e.value)
  {
    match e
    case None => Printed("", Some(ErrNilEntry))
    case Some(entry) => Printed(EntryLine(entry), None)
  }

  // ---- properties ----

  /** Different entry types never print the same name. */
  lemma KindNameInjective(a: nat, b: nat)
    requires KindName(a) == KindName(b)
    ensures a == b
  {
    if a !in {1, 2, 3} && b !in {1, 2, 3} {
      var p := "unknown type ";
      assert KindName(a)[|p|..] == ShowNat(a);
      assert KindName(b)[|p|..] == ShowNat(b);
      ShowNatInjective(a, b);
    }
  }

  /** Lines with fields of the same widths are equal only for equal payloads. */
  lemma FormatPayloadInjective(n1: string, k1: string, d1: Bytes, n2: string, k2: string, d2: Bytes)
    requires |n1| == |n2| && |k1| == |k2|
    requires FormatLine(n1, k1, d1) == FormatLine(n2, k2, d2)
    ensures d1 == d2
  {
    HexEncodeInjective(d1, d2);
  }

  /** So the payload can be read back: two entries with the same number and
      type print the same line only when they carry the same bytes. */
  lemma PayloadReadsBack(e1: FileEntry, e2: FileEntry)
    requires e1.number == e2.number && e1.kind == e2.kind
    requires EntryLine(e1) == EntryLine(e2)
    ensures e1.data == e2.data
  {
    FormatPayloadInjective(NumberField(e1.number), KindField(e1.kind), e1.data,
                           NumberField(e2.number), KindField(e2.kind), e2.data);
  }

  /** The line opens with the number field. */
  lemma LineOpensWithNumber(e: FileEntry)
    ensures EntryLine(e)[..|NumberField(e.number)|] == NumberField(e.number)
  {
  }

  /** A nil entry is refused; any other is printed without error. */
  lemma NilEntryRefused()
    ensures PrintEntryNum(None).err == Some(ErrNilEntry)
    ensures Message(PrintEntryNum(None).err.value) == "received nil entry"
  {
  }

  lemma FormatEmptyPayload(number: string, kind: string)
    ensures var line := FormatLine(number, kind, []);
      line[|line| - 3..] == "0x\n"
  {
    var line := FormatLine(number, kind, []);
    assert line[|line| - 3..] == line[|line| - 3..|line| - 1] + [line[|line| - 1]];
  }

  /** Every entry a block adds to the stream is typed block start or block
      end, so the reader labels each transaction "block start" and never
      prints "transaction". */
  lemma FinalizedEntriesNeverTransaction(txs: seq<Bytes>)
    ensures forall e :: e in Consensus.BlockUnit(txs) ==> KindName(e.kind) != "transaction"
    ensures forall k :: 0 < k <= |txs| ==> KindName(Consensus.BlockUnit(txs)[k].kind) == "block start"
  {
    Consensus.BlockUnitShape(txs);
    forall e | e in Consensus.BlockUnit(txs)
      ensures KindName(e.kind) != "transaction"
    {
    }
    forall k | 0 < k <= |txs|
      ensures KindName(Consensus.BlockUnit(txs)[k].kind) == "block start"
    {
      assert Consensus.BlockUnit(txs)[(k - 1) + 1] == StreamLog.Entry(Consensus.EtL2BlockStart, txs[k - 1]);
    }
  }
}
