/** The datastream server as the sequencer uses it: an append-only log of
    typed entries, written through atomic operations. Every call takes a
    failure oracle; in addition a call made out of protocol fails the way the
    server rejects it (a Start while an operation is open, an append, commit
    or rollback while none is). A failed call changes nothing. */
module StreamLog {
  import opened Optional
  import opened Numeric
  import opened Errors

  /** One stream entry: its type and its payload bytes. */
  datatype Entry = Entry(kind: nat, payload: Bytes)

  /** Entries made visible by committed operations, whether an atomic
      operation is open, and the entries added since it was started. */
  datatype Log = Log(committed: seq<Entry>, open: bool, pending: seq<Entry>)

  /** A log with no operation in flight. */
  predicate Quiescent(l: Log) {
    !l.open && l.pending == []
  }

  const ErrStartNotAllowed: Error := Plain("start atomic operation not allowed")
  const ErrAddNotAllowed: Error := Plain("add entry not allowed")
  const ErrCommitNotAllowed: Error := Plain("commit atomic operation not allowed")
  const ErrRollbackNotAllowed: Error := Plain("rollback atomic operation not allowed")

  /** A log after a call, and the call's error. */
  datatype Called = Called(log: Log, err: Option<Error>)

  function StartAtomicOp(l: Log, fault: Option<Error>): (r: Called)
    ensures r.err.None? <==> !l.open && fault.None?
    ensures r.err.Some? ==> r.log == l
    ensures r.err.None? ==> r.log == Log(l.committed, true, [])
  {
    if l.open then Called(l, Some(ErrStartNotAllowed))
    else if fault.Some? then Called(l, fault)
    else Called(Log(l.committed, true, []), None)
  }

  function AddStreamEntry(l: Log, kind: nat, payload: Bytes, fault: Option<Error>): (r: Called)
    ensures r.err.None? <==> l.open && fault.None?
    ensures r.err.Some? ==> r.log == l
    ensures r.err.None? ==> r.log == l.(pending := l.pending + [Entry(kind, payload)])
  {
    if !l.open then Called(l, Some(ErrAddNotAllowed))
    else if fault.Some? then Called(l, fault)
    else Called(l.(pending := l.pending + [Entry(kind, payload)]), None)
  }

  function CommitAtomicOp(l: Log, fault: Option<Error>): (r: Called)
    ensures r.err.None? <==> l.open && fault.None?
    ensures r.err.Some? ==> r.log == l
    ensures r.err.None? ==> r.log == Log(l.committed + l.pending, false, [])
  {
    if !l.open then Called(l, Some(ErrCommitNotAllowed))
    else if fault.Some? then Called(l, fault)
    else Called(Log(l.committed + l.pending, false, []), None)
  }

  function RollbackAtomicOp(l: Log, fault: Option<Error>): (r: Called)
    ensures r.err.None? <==> l.open && fault.None?
    ensures r.err.Some? ==> r.log == l
    ensures r.err.None? ==> r.log == Log(l.committed, false, [])
  {
    if !l.open then Called(l, Some(ErrRollbackNotAllowed))
    else if fault.Some? then Called(l, fault)
    else Called(Log(l.committed, false, []), None)
  }

  /** No call ever removes or alters a committed entry. */
  lemma CommittedOnlyGrows(l: Log, kind: nat, payload: Bytes, fault: Option<Error>)
    ensures l.committed <= StartAtomicOp(l, fault).log.committed
    ensures l.committed <= AddStreamEntry(l, kind, payload, fault).log.committed
    ensures l.committed <= CommitAtomicOp(l, fault).log.committed
    ensures l.committed <= RollbackAtomicOp(l, fault).log.committed
  {
  }
}
