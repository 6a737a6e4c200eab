/** The sequence ledger of app/sequence.go (and its duplicate app/sink.go):
    an append-mode text file receiving one line per transaction, the line
    being go-ethereum's `BytesToHash(data).Hex()` and a newline. */
module Ledger {
  import opened Optional
  import opened Numeric
  import opened Hex
  import Paths

  const HashLength: nat := 32
  const FileName: string := "dseq.txt"
  const LineLength: nat := 67  // "0x", 64 hex digits, newline

  /** `common.BytesToHash`: right-align into 32 bytes, keeping only the last
      32 bytes of a longer input. No digest is computed. */
  function BytesToHash(data: Bytes): (h: Bytes)
    ensures |h| == HashLength
  {
    if |data| > HashLength then data[|data| - HashLength..]
    else seq(HashLength - |data|, _ => 0) + data
  }

  /** The line written for one transaction: "0x", 64 hex digits, newline. */
  function Line(data: Bytes): (line: string)
    ensures |line| == LineLength
    ensures line[..2] == "0x" && line[LineLength - 1] == '\n'
    ensures forall i :: 2 <= i < LineLength - 1 ==> IsLowerHex(line[i])
  {
    "0x" + HexEncode(BytesToHash(data)) + "\n"
  }

  /** An open ledger file: its path and its whole content. */
  datatype LedgerFile = LedgerFile(path: string, content: string)

  /** `OpenSequenceFile`: open `<home>/dseq.txt` for appending; what the file
      already holds is kept. */
  function OpenSequenceFile(homeDir: string, existing: string): (f: LedgerFile)
    ensures f.content == existing
    ensures f.path == Paths.Join([homeDir, FileName])
  {
    LedgerFile(Paths.Join([homeDir, FileName]), existing)
  }

  /** `NewSink`: the same file under another name. */
  function NewSink(homeDir: string, existing: string): (f: LedgerFile)
    ensures f.content == existing
    ensures f.path == Paths.Join([homeDir, FileName])
  {
    OpenSequenceFile(homeDir, existing)
  }

  /** `Write` (of Sequence and of Sink alike): append one line; a failed
      write (`fault`) is only logged, so nothing reaches the caller and the
      file is left as it was. */
  function Write(f: LedgerFile, data: Bytes, fault: bool): (r: LedgerFile)
    ensures r.path == f.path
    ensures !fault ==> r.content == f.content + Line(data)
    ensures fault ==> r == f
  {
    if fault then f else f.(content := f.content + Line(data))
  }

  /** The fault oracle of the k-th write of a run; writes beyond the oracle succeed. */
  function WriteFault(faults: seq<bool>, k: nat): bool {
    k < |faults| && faults[k]
  }

  /** The fault oracle for the writes after the first. */
  function LaterFaults(faults: seq<bool>): seq<bool> {
    if |faults| > 0 then faults[1..] else []
  }

  /** The text of the lines for `txs`, one after another. */
  function Lines(txs: seq<Bytes>): (s: string)
    ensures |s| == LineLength * |txs|
  {
    if |txs| == 0 then "" else Line(txs[0]) + Lines(txs[1..])
  }

  /** The transactions whose write does not fail, in their original order. */
  function Kept(txs: seq<Bytes>, faults: seq<bool>): (r: seq<Bytes>)
    ensures |r| <= |txs|
    ensures forall x :: x in r ==> x in txs
    decreases |txs|
  {
    if |txs| == 0 then []
    else (if WriteFault(faults, 0) then [] else [txs[0]]) + Kept(txs[1..], LaterFaults(faults))
  }

  /** Writes one line per transaction, in order: the file ends up holding
      its old content followed by the lines of exactly the transactions
      whose write did not fail. */
  function WriteAll(f: LedgerFile, txs: seq<Bytes>, faults: seq<bool>): (r: LedgerFile)
    ensures r.path == f.path
    ensures r.content == f.content + Lines(Kept(txs, faults))
    decreases |txs|
  {
    if |txs| == 0 then f
    else
      var rest := Kept(txs[1..], LaterFaults(faults));
      if WriteFault(faults, 0) then
        assert Kept(txs, faults) == [] + rest == rest;
        WriteAll(f, txs[1..], LaterFaults(faults))
      else
        LinesCons(txs[0], rest);
        WriteAll(Write(f, txs[0], false), txs[1..], LaterFaults(faults))
  }

  lemma LinesCons(x: Bytes, xs: seq<Bytes>)
    ensures Lines([x] + xs) == Line(x) + Lines(xs)
  {
    assert ([x] + xs)[1..] == xs;
  }

  // ---- properties ----

  /** Data of at most 32 bytes is left-padded with zeros; longer data keeps its tail. */
  lemma BytesToHashLayout(data: Bytes)
    ensures |data| >= HashLength ==> BytesToHash(data) == data[|data| - HashLength..]
    ensures |data| <= HashLength ==> BytesToHash(data)[HashLength - |data|..] == data
    ensures forall i :: 0 <= i < HashLength - |data| ==> BytesToHash(data)[i] == 0
  {
  }

  /** Two transactions get the same line exactly when their 32-byte right
      alignments agree. */
  lemma LineEqualIff(a: Bytes, b: Bytes)
    ensures Line(a) == Line(b) <==> BytesToHash(a) == BytesToHash(b)
  {
    if Line(a) == Line(b) {
      assert HexEncode(BytesToHash(a)) == Line(a)[2..LineLength - 1];
      assert HexEncode(BytesToHash(b)) == Line(b)[2..LineLength - 1];
      HexEncodeInjective(BytesToHash(a), BytesToHash(b));
    }
  }

  /** Leading zero bytes are lost: [0x01] and [0x00, 0x01] collide. */
  lemma LeadingZerosCollide()
    ensures Line([1]) == Line([0, 1])
  {
    assert BytesToHash([1]) == BytesToHash([0, 1]);
  }

  /** The line carries the hash: its hex digits read back as BytesToHash(data). */
  lemma LineReadsBack(data: Bytes)
    ensures HexDecode(Line(data)[2..LineLength - 1]) == Some(BytesToHash(data))
  {
    assert Line(data)[2..LineLength - 1] == HexEncode(BytesToHash(data));
    HexRoundTrip(BytesToHash(data));
  }

  /** With no failed write every transaction is kept, in order. */
  lemma {:induction false} KeptWithoutFaults(txs: seq<Bytes>)
    ensures Kept(txs, []) == txs
    decreases |txs|
  {
    if |txs| > 0 {
      KeptWithoutFaults(txs[1..]);
      assert txs == [txs[0]] + txs[1..];
    }
  }

  /** When every write fails, the file is left as it was. */
  lemma {:induction false} KeptAllFaults(txs: seq<Bytes>, faults: seq<bool>)
    requires |faults| >= |txs| && forall k :: 0 <= k < |faults| ==> faults[k]
    ensures Kept(txs, faults) == []
    decreases |txs|
  {
    if |txs| > 0 {
      KeptAllFaults(txs[1..], faults[1..]);
    }
  }

  /** With no failed write, a run appends exactly the transactions' lines, in order. */
  lemma WriteAllAppendsLines(f: LedgerFile, txs: seq<Bytes>)
    ensures WriteAll(f, txs, []).content == f.content + Lines(txs)
  {
    KeptWithoutFaults(txs);
  }

  /** Two transactions whose second write fails leave only the first line. */
  lemma SecondWriteLost(f: LedgerFile, a: Bytes, b: Bytes)
    ensures WriteAll(f, [a, b], [false, true]).content == f.content + Line(a)
  {
    assert [a, b][1..] == [b];
    assert Kept([b], [true]) == [];
    assert Kept([a, b], [false, true]) == [a];
    LinesOfOne(a);
  }

  /** The lines of two runs, one after the other, are the lines of the joined run. */
  lemma {:induction false} LinesAppend(a: seq<Bytes>, b: seq<Bytes>)
    ensures Lines(a + b) == Lines(a) + Lines(b)
    decreases |a|
  {
    if |a| > 0 {
      assert (a + b)[0] == a[0];
      assert (a + b)[1..] == a[1..] + b;
      LinesAppend(a[1..], b);
    } else {
      assert a + b == b;
    }
  }

  lemma LinesOfOne(x: Bytes)
    ensures Lines([x]) == Line(x)
  {
    assert [x][1..] == [];
  }

  /** The ledger is `dseq.txt` directly under the home directory. */
  lemma LedgerPath(homeDir: string, existing: string)
    requires homeDir != ""
    ensures OpenSequenceFile(homeDir, existing).path == homeDir + "/dseq.txt"
  {
    Paths.JoinTwo(homeDir, FileName);
  }

  /** Both writers open the same file of the home directory. */
  lemma SinkSharesSequenceFile(homeDir: string, existing: string)
    ensures NewSink(homeDir, existing) == OpenSequenceFile(homeDir, existing)
  {
  }
}
