/** The block lifecycle of app/consensus.go: the ABCI++ phases the consensus
    engine drives, one block at a time. FinalizeBlock writes the block to the
    stream log inside one atomic operation; Commit writes the ledger lines and
    saves the counters. */
module Consensus {
  import opened Optional
  import opened Numeric
  import opened Errors
  import opened AppState
  import opened StreamLog
  import opened Sequencer
  import opened Ledger
  import StateRecord

  /** Entry types of the stream. Transactions are written with
      EtL2BlockStart, not EtL2Tx (app/consensus.go:79). */
  const EtL2BlockStart: nat := 1
  const EtL2Tx: nat := 2
  const EtL2BlockEnd: nat := 3

  /** A response and an error, as Go's `(*Response, error)` pair. */
  datatype Reply<T> = Reply(resp: Option<T>, err: Option<Error>)

  // ---- phases with fixed answers ----

  datatype InitChainResponse = InitChainResponse(appHash: Bytes, validators: seq<Bytes>)
  datatype ProposalStatus = ProposalUnknown | ProposalAccept | ProposalReject
  datatype ExtendVoteResponse = ExtendVoteResponse(voteExtension: Bytes)
  datatype VerifyStatus = VerifyUnknown | VerifyAccept | VerifyReject
  datatype VerifyVoteExtensionResponse = VerifyVoteExtensionResponse(status: VerifyStatus)
  datatype CommitResponse = CommitResponse(retainHeight: int64)

  /** `InitChain`: acknowledged with an empty response whatever the request. */
  function InitChain(app: App, chainId: string, initialHeight: int64): (r: Reply<InitChainResponse>)
    ensures r.err.None? && r.resp == Some(InitChainResponse([], []))
  {
    Reply(Some(InitChainResponse([], [])), None)
  }

  /** `ProcessProposal`: every proposal is accepted. */
  function ProcessProposal(app: App, txs: seq<Bytes>, proposer: Bytes): (r: Reply<ProposalStatus>)
    ensures r.err.None? && r.resp == Some(ProposalAccept)
  {
    Reply(Some(ProposalAccept), None)
  }

  /** `ExtendVote`: an empty extension. */
  function ExtendVote(app: App, height: int64): (r: Reply<ExtendVoteResponse>)
    ensures r.err.None? && r.resp == Some(ExtendVoteResponse([]))
  {
    Reply(Some(ExtendVoteResponse([])), None)
  }

  /** `VerifyVoteExtension`: an empty response, whose status is therefore UNKNOWN. */
  function VerifyVoteExtension(app: App, extension: Bytes): (r: Reply<VerifyVoteExtensionResponse>)
    ensures r.err.None? && r.resp == Some(VerifyVoteExtensionResponse(VerifyUnknown))
  {
    Reply(Some(VerifyVoteExtensionResponse(VerifyUnknown)), None)
  }

  // ---- PrepareProposal: Fisher-Yates shuffle ----

  /** The order the shuffle produces for the draws `draws[i]`, i from the
      top index down to 1; `draws[i]` is what `rand.Intn(i + 1)` returned. */
  function Shuffled(txs: seq<Bytes>, draws: seq<nat>, i: nat): (r: seq<Bytes>)
    requires i < |txs| || (i == 0 && |txs| == 0)
    requires |draws| == |txs|
    requires forall k :: 0 <= k < |draws| ==> draws[k] <= k
    decreases i
  {
    if i == 0 then txs
    else Shuffled(Swap(txs, i, draws[i]), draws, i - 1)
  }

  /** Exchanges the elements at i and j. */
  function Swap<T>(s: seq<T>, i: nat, j: nat): (r: seq<T>)
    requires i < |s| && j < |s|
    ensures |r| == |s|
  {
    s[i := s[j]][j := s[i]]
  }

  lemma SwapPreservesMultiset<T>(s: seq<T>, i: nat, j: nat)
    requires i < |s| && j < |s|
    ensures multiset(Swap(s, i, j)) == multiset(s)
  {
  }

  function Shuffle(txs: seq<Bytes>, draws: seq<nat>): seq<Bytes>
    requires |draws| == |txs|
    requires forall k :: 0 <= k < |draws| ==> draws[k] <= k
  {
    if |txs| == 0 then txs else Shuffled(txs, draws, |txs| - 1)
  }

  /** When every draw picks the top index itself, each swap is a no-op and
      the proposal keeps its order. */
  lemma {:induction false} ShuffledSelfDraws(txs: seq<Bytes>, draws: seq<nat>, i: nat)
    requires i < |txs| || (i == 0 && |txs| == 0)
    requires |draws| == |txs|
    requires forall k :: 0 <= k < |draws| ==> draws[k] == k
    ensures Shuffled(txs, draws, i) == txs
    decreases i
  {
    if i > 0 {
      assert Swap(txs, i, draws[i]) == txs;
      ShuffledSelfDraws(txs, draws, i - 1);
    }
  }

  lemma ShuffleSelfDraws(txs: seq<Bytes>, draws: seq<nat>)
    requires |draws| == |txs|
    requires forall k :: 0 <= k < |draws| ==> draws[k] == k
    ensures Shuffle(txs, draws) == txs
  {
    if |txs| > 0 {
      ShuffledSelfDraws(txs, draws, |txs| - 1);
    }
  }

  /** With two transactions the outcome depends on the single draw: 0
      exchanges them, 1 keeps them. */
  lemma ShuffleTwo(a: Bytes, b: Bytes)
    ensures Shuffle([a, b], [0, 0]) == [b, a]
    ensures Shuffle([a, b], [0, 1]) == [a, b]
  {
    assert Swap([a, b], 1, 0) == [b, a];
    assert Swap([a, b], 1, 1) == [a, b];
  }

  /** `PrepareProposal`: copies the proposal's transactions and shuffles the
      copy, swapping from the top index down; the request's own sequence is
      a value and cannot change. */
  method PrepareProposal(txs: seq<Bytes>, draws: seq<nat>) returns (r: seq<Bytes>)
    requires |draws| == |txs|
    requires forall k :: 0 <= k < |draws| ==> draws[k] <= k
    ensures |r| == |txs|
    ensures multiset(r) == multiset(txs)
    ensures r == Shuffle(txs, draws)
  {
    r := txs;
    if |txs| == 0 {
      return;
    }
    var i := |txs| - 1;
    while i > 0
      invariant 0 <= i < |txs| && |r| == |txs|
      invariant multiset(r) == multiset(txs)
      invariant Shuffled(r, draws, i) == Shuffle(txs, draws)
      decreases i
    {
      var j := draws[i];
      SwapPreservesMultiset(r, i, j);
      r := Swap(r, i, j);
      i := i - 1;
    }
  }

  // ---- FinalizeBlock ----

  /** Failure oracles for the stream server calls of one FinalizeBlock:
      `txs[k]` is the outcome of appending the k-th transaction. */
  datatype LogFaults = LogFaults(
    start: Option<Error>,
    blockStart: Option<Error>,
    txs: seq<Option<Error>>,
    blockEnd: Option<Error>,
    commit: Option<Error>,
    rollback: Option<Error>)

  const NoFaults: LogFaults := LogFaults(None, None, [], None, None, None)

  function TxFault(f: LogFaults, k: nat): Option<Error> {
    if k < |f.txs| then f.txs[k] else None
  }

  /** The first transaction index in [i, n) whose append fails, or n. */
  function FirstTxFault(f: LogFaults, i: nat, n: nat): (k: nat)
    requires i <= n
    ensures i <= k <= n
    ensures forall j :: i <= j < k ==> TxFault(f, j).None?
    ensures k < n ==> TxFault(f, k).Some?
    decreases n - i
  {
    if i == n || TxFault(f, i).Some? then i else FirstTxFault(f, i + 1, n)
  }

  /** The pending entries after the block-start entry and `i` transaction entries. */
  function BlockEntries(txs: seq<Bytes>, i: nat): (es: seq<Entry>)
    requires i <= |txs|
    ensures |es| == i + 1
  {
    if i == 0 then [Entry(EtL2BlockStart, [])]
    else BlockEntries(txs, i - 1) + [Entry(EtL2BlockStart, txs[i - 1])]
  }

  /** All entries one block contributes to the stream. */
  function BlockUnit(txs: seq<Bytes>): seq<Entry> {
    BlockEntries(txs, |txs|) + [Entry(EtL2BlockEnd, [])]
  }

  /** The state of the transaction loop after it stops. */
  datatype TxRun = TxRun(log: Log, staged: seq<Bytes>, size: int64, err: Option<Error>)

  /** The loop over the block's transactions from index i: stage the
      transaction, bump Size, append its entry; stop at the first failure. */
  function AppendTxs(log: Log, staged: seq<Bytes>, size: int64, txs: seq<Bytes>, i: nat, f: LogFaults): (r: TxRun)
    requires i <= |txs|
    decreases |txs| - i
  {
    if i == |txs| then TxRun(log, staged, size, None)
    else
      var added := AddStreamEntry(log, EtL2BlockStart, txs[i], TxFault(f, i));
      if added.err.Some? then TxRun(added.log, staged + [txs[i]], Inc64(size), added.err)
      else AppendTxs(added.log, staged + [txs[i]], Inc64(size), txs, i + 1, f)
  }

  /** One iteration of the transaction loop on an open operation. */
  lemma AppendTxsStep(log: Log, staged: seq<Bytes>, size: int64, txs: seq<Bytes>, i: nat, f: LogFaults)
    requires i < |txs| && log.open
    ensures TxFault(f, i).Some? ==>
      AppendTxs(log, staged, size, txs, i, f) == TxRun(log, staged + [txs[i]], Wrap64(size + 1), TxFault(f, i))
    ensures TxFault(f, i).None? ==>
      AppendTxs(log, staged, size, txs, i, f)
      == AppendTxs(log.(pending := log.pending + [Entry(EtL2BlockStart, txs[i])]), staged + [txs[i]], Wrap64(size + 1), txs, i + 1, f)
  {
  }

  /** Where the transaction loop stops and what it leaves behind: the
      transactions up to and including the failing one are staged and
      counted in Size, and only the entries before it are pending. */
  lemma {:induction false} AppendTxsOutcome(log: Log, staged: seq<Bytes>, size: int64, txs: seq<Bytes>, i: nat, f: LogFaults)
    requires i <= |txs|
    requires log.open && log.pending == BlockEntries(txs, i)
    requires staged == txs[..i]
    ensures var r := AppendTxs(log, staged, size, txs, i, f);
      var k := FirstTxFault(f, i, |txs|);
      var done := if k < |txs| then k + 1 else k;
      && r.err == (if k < |txs| then TxFault(f, k) else None)
      && r.log == log.(pending := BlockEntries(txs, k))
      && r.staged == txs[..done]
      && r.size == Wrap64(size + (done - i))
    decreases |txs| - i
  {
    if i == |txs| {
      assert FirstTxFault(f, i, |txs|) == i;
      assert AppendTxs(log, staged, size, txs, i, f) == TxRun(log, staged, size, None);
    } else {
      AppendTxsStep(log, staged, size, txs, i, f);
      var next := staged + [txs[i]];
      assert next == txs[..i + 1];
      if TxFault(f, i).Some? {
        assert FirstTxFault(f, i, |txs|) == i;
      } else {
        var log' := log.(pending := log.pending + [Entry(EtL2BlockStart, txs[i])]);
        assert log'.pending == BlockEntries(txs, i + 1);
        assert FirstTxFault(f, i, |txs|) == FirstTxFault(f, i + 1, |txs|);
        AppendTxsOutcome(log', next, Wrap64(size + 1), txs, i + 1, f);
        var k := FirstTxFault(f, i + 1, |txs|);
        var done := if k < |txs| then k + 1 else k;
        WrapAdd(size + 1, done - (i + 1));
      }
    }
  }

  /** Which stream call of FinalizeBlock fails first, in call order; a
      Start while an operation is still open is refused by the server. */
  datatype Stage = AtStart | AtBlockStart | AtTx(k: nat) | AtBlockEnd | AtCommit | Done

  function FailingStage(log: Log, n: nat, f: LogFaults): Stage {
    if log.open || f.start.Some? then AtStart
    else if f.blockStart.Some? then AtBlockStart
    else if FirstTxFault(f, 0, n) < n then AtTx(FirstTxFault(f, 0, n))
    else if f.blockEnd.Some? then AtBlockEnd
    else if f.commit.Some? then AtCommit
    else Done
  }

  datatype ExecTxResult = ExecTxResult(code: nat)
  datatype FinalizeResponse = FinalizeResponse(txResults: seq<ExecTxResult>, appHash: Bytes)

  /** The application after FinalizeBlock, and the response/error pair it returns. */
  datatype Finalized = Finalized(app: App, resp: Option<FinalizeResponse>, err: Option<Error>)

  /** `n` results with code 0 (OK). */
  function Oks(n: nat): (rs: seq<ExecTxResult>)
    ensures |rs| == n
    ensures forall i :: 0 <= i < n ==> rs[i].code == 0
  {
    if n == 0 then [] else Oks(n - 1) + [ExecTxResult(0)]
  }

  /** The rollback after a failed append. A successful rollback leaves `err`
      nil, so the call returns no response and no error; a failed one
      returns the rollback error's cause. */
  function Abort(app: App, log: Log, fault: Option<Error>): Finalized {
    var rolled := RollbackAtomicOp(log, fault);
    Finalized(app.(stream := Some(rolled.log)), None,
              if rolled.err.Some? then Some(Cause(rolled.err.value)) else None)
  }

  /** `FinalizeBlock`: reset the staged transactions, then in one atomic
      stream operation append a block-start entry, one entry per transaction
      and a block-end entry, and commit the operation. Size is counted up per
      transaction as it is staged; Height is set only when everything
      succeeded. The counters are not saved here. */
  function FinalizeBlock(app: App, height: int64, txs: seq<Bytes>, f: LogFaults): (r: Finalized)
    requires app.Wired()
    ensures r.app.Wired() && r.app.id == app.id && r.app.addr == app.addr
    ensures r.app.state.value.db == app.state.value.db
    ensures r.resp.Some? <==> FailingStage(app.stream.value, |txs|, f) == Done
    ensures r.resp.Some? ==>
      && r.err.None?
      && r.app.stream.value == Log(app.stream.value.committed + BlockUnit(txs), false, [])
      && r.app.state.value.size == Wrap64(app.state.value.size + |txs|)
      && r.app.state.value.height == height
      && r.app.staged == txs
      && r.resp.value.txResults == Oks(|txs|)
      && r.resp.value.appHash == Hash(r.app.state.value)
  {
    var log0 := app.stream.value;
    var st := app.state.value;
    var app0 := app.(staged := []);
    var started := StartAtomicOp(log0, f.start);
    if started.err.Some? then Finalized(app0.(stream := Some(started.log)), None, started.err)
    else
      var begun := AddStreamEntry(started.log, EtL2BlockStart, [], f.blockStart);
      if begun.err.Some? then Finalized(app0.(stream := Some(begun.log)), None, begun.err)
      else
        AppendTxsOutcome(begun.log, [], st.size, txs, 0, f);
        var run := AppendTxs(begun.log, [], st.size, txs, 0, f);
        var app1 := app0.(staged := run.staged, state := Some(st.(size := run.size)), stream := Some(run.log));
        if run.err.Some? then Abort(app1, run.log, f.rollback)
        else
          var ended := AddStreamEntry(run.log, EtL2BlockEnd, [], f.blockEnd);
          if ended.err.Some? then Abort(app1.(stream := Some(ended.log)), ended.log, f.rollback)
          else
            var sealed := CommitAtomicOp(ended.log, f.commit);
            if sealed.err.Some? then Finalized(app1.(stream := Some(sealed.log)), None, sealed.err)
            else
              var st' := st.(size := run.size, height := height);
              Finalized(app1.(state := Some(st'), stream := Some(sealed.log)),
                        Some(FinalizeResponse(Oks(|txs|), Hash(st'))), None)
  }

  /** The entries of one block, by position: the block-start marker, one
      entry per transaction carrying its bytes, and the block-end marker. No
      entry is typed EtL2Tx. */
  lemma BlockUnitShape(txs: seq<Bytes>)
    ensures |BlockUnit(txs)| == |txs| + 2
    ensures BlockUnit(txs)[0] == Entry(EtL2BlockStart, [])
    ensures forall k :: 0 <= k < |txs| ==> BlockUnit(txs)[k + 1] == Entry(EtL2BlockStart, txs[k])
    ensures BlockUnit(txs)[|txs| + 1] == Entry(EtL2BlockEnd, [])
    ensures forall e :: e in BlockUnit(txs) ==> e.kind != EtL2Tx
  {
    BlockEntriesAt(txs, |txs|);
    forall e | e in BlockUnit(txs)
      ensures e.kind != EtL2Tx
    {
      var i :| 0 <= i < |BlockUnit(txs)| && BlockUnit(txs)[i] == e;
      if 0 < i <= |txs| {
        assert BlockUnit(txs)[(i - 1) + 1] == Entry(EtL2BlockStart, txs[i - 1]);
      }
    }
  }

  lemma {:induction false} BlockEntriesAt(txs: seq<Bytes>, i: nat)
    requires i <= |txs|
    ensures BlockEntries(txs, i)[0] == Entry(EtL2BlockStart, [])
    ensures forall k :: 0 <= k < i ==> BlockEntries(txs, i)[k + 1] == Entry(EtL2BlockStart, txs[k])
  {
    if i > 0 {
      BlockEntriesAt(txs, i - 1);
    }
  }

  /** A failed transaction or block-end append rolls the operation back.
      When the rollback succeeds the call returns neither a response nor an
      error. Size keeps every transaction counted up to and including the
      failing one; Height is not touched. */
  lemma FinalizeRollsBack(app: App, height: int64, txs: seq<Bytes>, f: LogFaults)
    requires app.Wired()
    requires FailingStage(app.stream.value, |txs|, f).AtTx? || FailingStage(app.stream.value, |txs|, f) == AtBlockEnd
    ensures var r := FinalizeBlock(app, height, txs, f);
      var log := app.stream.value;
      var st := app.state.value;
      var stage := FailingStage(log, |txs|, f);
      var counted := if stage.AtTx? then stage.k + 1 else |txs|;
      && r.resp.None?
      && r.app.staged == txs[..counted]
      && r.app.state.value == st.(size := Wrap64(st.size + counted))
      && (f.rollback.None? ==> r.err.None? && r.app.stream.value == Log(log.committed, false, []))
      && (f.rollback.Some? ==>
            r.err == Some(Cause(f.rollback.value)) && r.app.stream.value.open
            && r.app.stream.value.committed == log.committed)
  {
    var log := app.stream.value;
    var started := StartAtomicOp(log, f.start);
    if started.err.None? {
      var begun := AddStreamEntry(started.log, EtL2BlockStart, [], f.blockStart);
      if begun.err.None? {
        assert begun.log.pending == BlockEntries(txs, 0);
        AppendTxsOutcome(begun.log, [], app.state.value.size, txs, 0, f);
      }
    }
  }

  /** A failed Start, block-start append or Commit returns its error at
      once, without rolling back: after a failed block-start append or
      commit the atomic operation stays open. */
  lemma FinalizeStopsWithoutRollback(app: App, height: int64, txs: seq<Bytes>, f: LogFaults)
    requires app.Wired()
    requires FailingStage(app.stream.value, |txs|, f) in {AtStart, AtBlockStart, AtCommit}
    ensures var r := FinalizeBlock(app, height, txs, f);
      var log := app.stream.value;
      var st := app.state.value;
      var stage := FailingStage(log, |txs|, f);
      && r.resp.None? && r.err.Some?
      && (stage == AtStart ==>
            r.app == app.(staged := [])
            && r.err.value == (if log.open then ErrStartNotAllowed else f.start.value))
      && (stage == AtBlockStart ==>
            r.app == app.(staged := [], stream := Some(Log(log.committed, true, [])))
            && r.err == f.blockStart)
      && (stage == AtCommit ==>
            r.app.stream.value == Log(log.committed, true, BlockUnit(txs))
            && r.app.state.value == st.(size := Wrap64(st.size + |txs|))
            && r.app.staged == txs
            && r.err == f.commit)
  {
    var log := app.stream.value;
    var started := StartAtomicOp(log, f.start);
    if started.err.None? {
      var begun := AddStreamEntry(started.log, EtL2BlockStart, [], f.blockStart);
      if begun.err.None? {
        assert begun.log.pending == BlockEntries(txs, 0);
        AppendTxsOutcome(begun.log, [], app.state.value.size, txs, 0, f);
      }
    }
  }

  /** With no faults every call succeeds once the stream is idle. */
  lemma NoFaultsFinalize(log: Log, n: nat)
    requires Quiescent(log)
    ensures FailingStage(log, n, NoFaults) == Done
  {
    assert FirstTxFault(NoFaults, 0, n) == n;
  }

  /** A failed block-start append leaves the operation open, so the next
      block cannot start: every later FinalizeBlock fails. */
  lemma BlockStartFailureWedgesStream(app: App, h1: int64, t1: seq<Bytes>, f: LogFaults, h2: int64, t2: seq<Bytes>)
    requires app.Wired() && Quiescent(app.stream.value)
    requires f.start.None? && f.blockStart.Some?
    ensures var first := FinalizeBlock(app, h1, t1, f);
      var second := FinalizeBlock(first.app, h2, t2, NoFaults);
      && first.err == f.blockStart
      && second.resp.None? && second.err == Some(ErrStartNotAllowed)
      && second.app.stream == first.app.stream
  {
    FinalizeStopsWithoutRollback(app, h1, t1, f);
    var first := FinalizeBlock(app, h1, t1, f);
    FinalizeStopsWithoutRollback(first.app, h2, t2, NoFaults);
  }

  /** An empty block still writes its two markers in one atomic operation. */
  lemma EmptyBlock(app: App, height: int64)
    requires app.Wired() && Quiescent(app.stream.value)
    ensures var r := FinalizeBlock(app, height, [], NoFaults);
      && r.err.None? && r.resp.value.txResults == []
      && r.app.stream.value.committed
         == app.stream.value.committed + [Entry(EtL2BlockStart, []), Entry(EtL2BlockEnd, [])]
      && r.app.state.value.size == app.state.value.size
      && r.app.state.value.height == height
  {
    NoFaultsFinalize(app.stream.value, 0);
    BlockUnitShape([]);
  }

  /** Two fault-free blocks in a row: both succeed and the stream holds
      both blocks, in order, with no operation open. */
  lemma TwoBlocks(app: App, h1: int64, t1: seq<Bytes>, h2: int64, t2: seq<Bytes>)
    requires app.Wired() && Quiescent(app.stream.value)
    ensures var a := FinalizeBlock(app, h1, t1, NoFaults);
      var b := FinalizeBlock(a.app, h2, t2, NoFaults);
      && a.err.None? && b.err.None?
      && b.app.stream.value == Log(app.stream.value.committed + BlockUnit(t1) + BlockUnit(t2), false, [])
  {
    NoFaultsFinalize(app.stream.value, |t1|);
    var a := FinalizeBlock(app, h1, t1, NoFaults);
    var mid := a.app.stream.value;
    assert mid == Log(app.stream.value.committed + BlockUnit(t1), false, []);
    NoFaultsFinalize(mid, |t2|);
  }

  /** One fault-free block on a quiescent stream: the counters it leaves,
      and the stream is quiescent again for the next block. */
  lemma OneBlockCounters(app: App, height: int64, txs: seq<Bytes>)
    requires app.Wired() && Quiescent(app.stream.value)
    ensures var r := FinalizeBlock(app, height, txs, NoFaults);
      && r.app.Wired() && Quiescent(r.app.stream.value)
      && r.app.state.value.size == Wrap64(app.state.value.size + |txs|)
      && r.app.state.value.height == height
      && r.app.staged == txs
  {
    NoFaultsFinalize(app.stream.value, |txs|);
  }

  // ---- Commit ----

  /** The application, the ledger file and the reply after Commit. */
  datatype Committed = Committed(app: App, ledger: LedgerFile, reply: Reply<CommitResponse>)

  /** `Commit`: append one ledger line per staged transaction (a failed
      write is only logged, and its line is missing), then save the counters. Only a failed save is
      reported. The staged transactions are not cleared. */
  function Commit(app: App, ledger: LedgerFile, writeFaults: seq<bool>, saveFault: Option<Error>): (r: Committed)
    requires app.state.Some?
    ensures r.ledger.path == ledger.path
    ensures r.ledger.content == ledger.content + Lines(Kept(app.staged, writeFaults))
    ensures writeFaults == [] ==> r.ledger.content == ledger.content + Lines(app.staged)
    ensures r.app.id == app.id && r.app.addr == app.addr && r.app.state.Some?
    ensures r.app.staged == app.staged && r.app.stream == app.stream
    ensures r.reply.err.None? <==> app.state.value.db.open && saveFault.None?
    ensures r.reply.err.Some? ==> r.reply.resp.None? && r.app == app
    ensures r.reply.err.None? ==>
      && r.reply.resp == Some(CommitResponse(0))
      && r.app.state.value.size == app.state.value.size
      && r.app.state.value.height == app.state.value.height
      && StateRecord.Decode(Stored(r.app.state.value.db.disk))
         == Some(StateRecord.Counters(app.state.value.size, app.state.value.height))
  {
    var written := WriteAll(ledger, app.staged, writeFaults);
    WriteAllAppendsLines(ledger, app.staged);
    StateRecord.RoundTrip(StateRecord.Counters(app.state.value.size, app.state.value.height));
    var saved := Save(app.state.value, saveFault);
    if saved.err.Some? then Committed(app, written, Reply(None, saved.err))
    else Committed(app.(state := Some(saved.state)), written, Reply(Some(CommitResponse(0)), None))
  }

  /** Committing twice without a FinalizeBlock in between writes the same
      lines again, since the staged transactions are kept. */
  lemma CommitTwiceRepeatsLines(app: App, ledger: LedgerFile)
    requires app.state.Some?
    ensures var once := Commit(app, ledger, [], None);
      var twice := Commit(once.app, once.ledger, [], None);
      twice.ledger.content == ledger.content + Lines(app.staged) + Lines(app.staged)
  {
  }

  /** A fault-free block followed by a fault-free Commit: the ledger gains
      one line per transaction, in block order. */
  lemma BlockCommitLedger(app: App, height: int64, txs: seq<Bytes>, ledger: LedgerFile)
    requires app.Wired() && Quiescent(app.stream.value) && app.state.value.db.open
    ensures var fin := FinalizeBlock(app, height, txs, NoFaults);
      var com := Commit(fin.app, ledger, [], None);
      && fin.err.None? && com.reply.err.None?
      && com.ledger.content == ledger.content + Lines(txs)
  {
    NoFaultsFinalize(app.stream.value, |txs|);
  }

  /** After a successful Commit, closing the store and opening it again
      gives back the committed counters. */
  lemma CommitCloseReopen(app: App, ledger: LedgerFile, writeFaults: seq<bool>, path: string)
    requires app.state.Some? && app.state.value.db.open
    ensures var com := Commit(app, ledger, writeFaults, None);
      var closed := Close(com.app.state.value, None);
      var reopened := NewState(path, closed.state.db.disk, NoOpenFaults);
      && closed.err.None?
      && reopened.state.Some?
      && reopened.state.value.size == app.state.value.size
      && reopened.state.value.height == app.state.value.height
  {
    var com := Commit(app, ledger, writeFaults, None);
    var closed := Close(com.app.state.value, None);
    ReopenReadsRecord(path, closed.state.db.disk, StateRecord.Counters(app.state.value.size, app.state.value.height));
  }

  /** After a fault-free block and Commit, reopening the closed store gives
      back the block's Size and Height. */
  lemma BlockCommitReopen(app: App, height: int64, txs: seq<Bytes>, ledger: LedgerFile, path: string)
    requires app.Wired() && Quiescent(app.stream.value) && app.state.value.db.open
    ensures var fin := FinalizeBlock(app, height, txs, NoFaults);
      var com := Commit(fin.app, ledger, [], None);
      var closed := Close(com.app.state.value, None);
      var reopened := NewState(path, closed.state.db.disk, NoOpenFaults);
      && closed.err.None?
      && reopened.state.Some?
      && reopened.state.value.size == Wrap64(app.state.value.size + |txs|)
      && reopened.state.value.height == height
  {
    NoFaultsFinalize(app.stream.value, |txs|);
    var fin := FinalizeBlock(app, height, txs, NoFaults);
    assert fin.app.state.value.db.open;
    assert fin.app.state.value.size == Wrap64(app.state.value.size + |txs|);
    assert fin.app.state.value.height == height;
    CommitCloseReopen(fin.app, ledger, [], path);
  }
}
