/** The persistent state store of app/state.go: the two counters, the
    LevelDB handle they are saved through, and the fingerprint `Hash`. */
module AppState {
  import opened Optional
  import opened Numeric
  import opened Errors
  import StateRecord

  /** The single key the record is stored under. */
  const StateKey: string := "stateKey"

  /** The key-value contents of the state database on disk. */
  type Disk = map<string, string>

  /** A database handle over a disk; `open` turns false at Close. */
  datatype Db = Db(disk: Disk, open: bool)

  /** `State`: the handle plus the counters `Size` (transactions processed)
      and `Height` (last finalized block). */
  datatype State = State(db: Db, size: int64, height: int64)

  /** The error goleveldb returns for any use of a closed handle. */
  const ErrClosed: Error := Plain("leveldb: closed")

  /** Failure oracles for the three steps of opening: creating the
      directory, opening the database, reading the record. */
  datatype OpenFaults = OpenFaults(mkdir: Option<Error>, openDb: Option<Error>, get: Option<Error>)

  const NoOpenFaults: OpenFaults := OpenFaults(None, None, None)

  /** What `NewState` returns: a state or an error, never both. */
  datatype Opened = Opened(state: Option<State>, err: Option<Error>)

  /** What a LevelDB `Get` of the state key returns; a missing key reads as empty. */
  function Stored(disk: Disk): string {
    if StateKey in disk then disk[StateKey] else ""
  }

  /** `NewState`: open the store at `path` and load the record, or start at
      zero when there is none. */
  function NewState(path: string, disk: Disk, f: OpenFaults): (r: Opened)
    ensures r.state.Some? <==> r.err.None?
    ensures r.state.Some? <==>
      && f == NoOpenFaults
      && (Stored(disk) == "" || StateRecord.Decode(Stored(disk)).Some?)
    ensures r.state.Some? ==> r.state.value.db == Db(disk, true)
    ensures r.state.Some? && Stored(disk) == "" ==> r.state.value.size == 0 && r.state.value.height == 0
    ensures r.state.Some? && Stored(disk) != "" ==>
      StateRecord.Decode(Stored(disk)) == Some(StateRecord.Counters(r.state.value.size, r.state.value.height))
    ensures r.err.Some? ==> r.err.value.Wrapped?
  {
    if f.mkdir.Some? then Opened(None, Some(Wrapped("failed to create state directory at " + path, f.mkdir.value)))
    else if f.openDb.Some? then Opened(None, Some(Wrapped("failed to create persistent state at " + path, f.openDb.value)))
    else if f.get.Some? then Opened(None, Some(Wrapped("failed to load state", f.get.value)))
    else
      var bytes := Stored(disk);
      if |bytes| == 0 then Opened(Some(State(Db(disk, true), 0, 0)), None)
      else match StateRecord.Decode(bytes)
        case None => Opened(None, Some(Wrapped("failed to read current state", Plain("invalid state record"))))
        case Some(c) => Opened(Some(State(Db(disk, true), c.size, c.height)), None)
  }

  /** What `Save` and `Close` return: the state afterwards and the error, if any. */
  datatype Persisted = Persisted(state: State, err: Option<Error>)

  /** `Save`: overwrite the record under the fixed key; `fault` is the
      database's failure oracle. */
  function Save(s: State, fault: Option<Error>): (r: Persisted)
    ensures r.err.None? <==> s.db.open && fault.None?
    ensures r.err.Some? ==> r.state == s
    ensures r.err.None? ==> r.state.size == s.size && r.state.height == s.height && r.state.db.open
    ensures r.err.None? ==> r.state.db.disk.Keys == s.db.disk.Keys + {StateKey}
    ensures r.err.None? ==> r.state.db.disk[StateKey] == StateRecord.Encode(StateRecord.Counters(s.size, s.height))
    ensures forall k :: k in s.db.disk && k != StateKey ==> k in r.state.db.disk && r.state.db.disk[k] == s.db.disk[k]
  {
    if !s.db.open then Persisted(s, Some(Wrapped("failed to save state", ErrClosed)))
    else if fault.Some? then Persisted(s, Some(Wrapped("failed to save state", fault.value)))
    else
      var record := StateRecord.Encode(StateRecord.Counters(s.size, s.height));
      Persisted(s.(db := s.db.(disk := s.db.disk[StateKey := record])), None)
  }

  /** `Hash`: the 8-byte big-endian encoding of `uint64(Size)`. */
  function Hash(s: State): (h: Bytes)
    ensures |h| == 8
    ensures FromBigEndian(h) == ToUint64(s.size)
  {
    BigEndianRoundTrip(ToUint64(s.size), 8);
    BigEndian(ToUint64(s.size), 8)
  }

  /** `Close`: release the handle; `fault` is the database's failure
      oracle for a first close. A second Close fails with `ErrClosed`;
      any failure is wrapped, and the handle is released either way. */
  function Close(s: State, fault: Option<Error>): (r: Persisted)
    ensures r.err.None? <==> s.db.open && fault.None?
    ensures !s.db.open ==> r.err == Some(Wrapped("failed to close state database", ErrClosed))
    ensures s.db.open && fault.Some? ==> r.err == Some(Wrapped("failed to close state database", fault.value))
    ensures !r.state.db.open
    ensures r.state.db.disk == s.db.disk && r.state.size == s.size && r.state.height == s.height
  {
    if !s.db.open then Persisted(s, Some(Wrapped("failed to close state database", ErrClosed)))
    else
      var closed := s.(db := s.db.(open := false));
      if fault.Some? then Persisted(closed, Some(Wrapped("failed to close state database", fault.value)))
      else Persisted(closed, None)
  }

  // ---- properties ----

  lemma {:induction false} BigEndianOfZero(w: nat)
    ensures BigEndian(0, w) == seq(w, _ => 0)
  {
    if w > 0 {
      BigEndianOfZero(w - 1);
    }
  }

  /** A value below 256 encodes as zeros followed by that one byte. */
  lemma BigEndianOfByte(u: nat, w: nat)
    requires u < 256 && w > 0
    ensures BigEndian(u, w) == seq(w - 1, _ => 0) + [u]
  {
    BigEndianOfZero(w - 1);
  }

  /** The fingerprints of sizes 0, 42 and 2^32. */
  lemma HashExamples(db: Db, height: int64)
    ensures Hash(State(db, 0, height)) == [0, 0, 0, 0, 0, 0, 0, 0]
    ensures Hash(State(db, 42, height)) == [0, 0, 0, 0, 0, 0, 0, 42]
    ensures Hash(State(db, 0x1_0000_0000, height)) == [0, 0, 0, 1, 0, 0, 0, 0]
  {
    BigEndianOfByte(0, 8);
    BigEndianOfByte(42, 8);
    BigEndianOfByte(1, 4);
    assert BigEndian(0x1_0000_0000, 8) == BigEndian(0x100_0000, 7) + [0];
    assert BigEndian(0x100_0000, 7) == BigEndian(0x1_0000, 6) + [0];
    assert BigEndian(0x1_0000, 6) == BigEndian(0x100, 5) + [0];
    assert BigEndian(0x100, 5) == BigEndian(1, 4) + [0];
  }

  /** Height and the database play no part in the fingerprint. */
  lemma HashDependsOnlyOnSize(a: State, b: State)
    requires a.size == b.size
    ensures Hash(a) == Hash(b)
  {
  }

  /** Two states have the same fingerprint only if their sizes agree. */
  lemma HashInjective(a: State, b: State)
    requires Hash(a) == Hash(b)
    ensures a.size == b.size
  {
  }

  /** A store with no record opens at size 0 and height 0. */
  lemma OpenWithoutRecord(path: string, disk: Disk)
    requires StateKey !in disk
    ensures var r := NewState(path, disk, NoOpenFaults);
      r.err.None? && r.state.value.size == 0 && r.state.value.height == 0
  {
  }

  /** A record that is present but cannot be read makes the open fail. */
  lemma OpenRejectsUnreadableRecord(path: string, disk: Disk)
    requires Stored(disk) != "" && StateRecord.Decode(Stored(disk)).None?
    ensures NewState(path, disk, NoOpenFaults) == Opened(None, NewState(path, disk, NoOpenFaults).err)
    ensures NewState(path, disk, NoOpenFaults).err.Some?
  {
  }

  /** Save, Close, then a fresh open of the same disk gives back the saved counters. */
  lemma SaveCloseReopen(path: string, s: State)
    requires s.db.open
    ensures var saved := Save(s, None);
      var closed := Close(saved.state, None);
      var reopened := NewState(path, closed.state.db.disk, NoOpenFaults);
      saved.err.None? && closed.err.None? && reopened.err.None?
      && reopened.state.value.size == s.size && reopened.state.value.height == s.height
  {
    var c := StateRecord.Counters(s.size, s.height);
    StateRecord.RoundTrip(c);
    assert |StateRecord.Encode(c)| > 0;
  }

  /** Opening a disk whose record decodes loads exactly the decoded counters. */
  lemma ReopenReadsRecord(path: string, disk: Disk, c: StateRecord.Counters)
    requires StateRecord.Decode(Stored(disk)) == Some(c)
    ensures NewState(path, disk, NoOpenFaults) == Opened(Some(State(Db(disk, true), c.size, c.height)), None)
  {
    assert StateRecord.Decode("").None?;
  }

  lemma SaveCloseReopenExample(path: string, disk: Disk)
    ensures var s := State(Db(disk, true), 42, 100);
      var reopened := NewState(path, Close(Save(s, None).state, None).state.db.disk, NoOpenFaults);
      reopened.state.Some? && reopened.state.value.size == 42 && reopened.state.value.height == 100
  {
    SaveCloseReopen(path, State(Db(disk, true), 42, 100));
  }

  /** The first Close succeeds and the second fails. */
  lemma CloseTwiceFails(s: State, second: Option<Error>)
    requires s.db.open
    ensures Close(s, None).err.None?
    ensures Close(Close(s, None).state, second).err == Some(Wrapped("failed to close state database", ErrClosed))
  {
  }
}
