# dseq sequencer, modelled in Dafny

dseq is a toy sequencer. It runs as a CometBFT ABCI++ application.

- **Blocks.** Each finalized block is written to a datastream log inside one atomic operation: a block-start entry, one entry per transaction, and a block-end entry.
- **Counters.** The node keeps two counters, `Size` (transactions processed) and `Height` (last block). They are persisted as a small JSON record in LevelDB.
- **Fingerprint.** The app hash is the 8-byte big-endian encoding of `Size`.
- **Ledger.** Each Commit appends one line per transaction to a text file `dseq.txt`.

This project models that core as immutable datatypes and pure state-transition functions. Four operations are methods with loops: the proposal shuffle, the middleware chain, and the health and readiness handlers. The stream server, the key-value store and the file system become in-memory records, and each call into them that the code checks for an error takes a failure oracle: a parameter saying whether that call fails.

| file | module | what it models |
|---|---|---|
| optional.dfy | `Optional` | `Option<T>` |
| numeric.dfy | `Numeric` | `int64`/`uint64`/`uint16`, wrap-around, big-endian bytes, decimal text |
| hex.dfy | `Hex` | lower-case hex encoding and its inverse |
| paths.dfy | `Paths` | `filepath.Join` |
| errors.dfy | `Errors` | app/errors/errors.go, plus the `fmt.Errorf("…: %w")` and `pkg/errors` wrappers |
| record.dfy | `StateRecord` | the persisted record `{"size":N,"height":M}` |
| state.dfy | `AppState` | app/state.go: `NewState`, `Save`, `Hash`, `Close` |
| streamlog.dfy | `StreamLog` | the datastream server's atomic-operation protocol |
| sequencer.dfy | `Sequencer` | app/sequencer.go: the application record and its functional options |
| ledger.dfy | `Ledger` | app/sequence.go and app/sink.go (one model for both) |
| consensus.dfy | `Consensus` | app/consensus.go: every ABCI phase, `FinalizeBlock` and `Commit` |
| readonly.dfy | `ReadOnlyPhases` | app/info.go, app/check.go, app/query.go |
| reader.dfy | `Reader` | `printEntryNum` of cmd/read.go |
| config.dfy | `Config` | app/config/config.go |
| middleware.dfy | `Middleware` | `Chain` and the response-writer wrapper |
| health.dfy | `Health` | the result rule and the UP/DOWN aggregation of app/health/health.go |

The model reproduces these quirks of the code:

- **Transaction entries are typed 1.** They use `EtL2BlockStart`, not `EtL2Tx` (2). So the reader labels every transaction "block start".
- **`Size` is counted up before each append and never restored.** After a failed append, `Size` includes every transaction up to and including the failing one, and the staged transactions are exactly that prefix.
- **A successful rollback returns neither a response nor an error.** A failed rollback returns the rollback error's cause.
- **Some failures skip rollback.** A failed Start, block-start append or Commit returns the error at once. After a failed block-start append the atomic operation stays open, so the stream server refuses every later block.
- **Empty blocks still write to the stream.** They open an atomic operation and write the two markers.
- **Commit never clears the staged transactions.** A second Commit writes the same ledger lines again.
- **Ledger lines drop leading zeros.** A line is `"0x"` plus the hex of `BytesToHash(data)`, which right-aligns to 32 bytes and crops from the left. So `[0x01]` and `[0x00, 0x01]` give the same line.
- **A configured port is truncated to 16 bits.** So 65536 becomes 0, which `Validate` then refuses.
- **`Is` compares only the constant code.** So every pair of application errors matches.

Where the code and its description differ, the model follows the code:

- `Commit` writes through `app.sequence`, a field that app/sequencer.go does not declare. The ledger file is therefore an explicit parameter and result of `Consensus.Commit`.

## Model

| member | source | states |
|---|---|---|
| `Numeric.Wrap64` | app/consensus.go:77 | the result is in int64 range, congruent to the input modulo 2^64, and equal to it when it already fits |
| `Numeric.Inc64` | app/consensus.go:77 | `Size++` on an int64 is the wrapped successor, and the plain successor below the maximum |
| `Numeric.WrapAdd` | app/consensus.go:77 | wrapping after each increment equals wrapping the total, so per-transaction increments add up to `Wrap64(size + n)` |
| `Numeric.WrapTwice` | app/consensus.go:77 | two blocks' wrapped increments compose into one wrapped increment by their total |
| `Numeric.ToUint64` | app/state.go:71 | `uint64(Size)` keeps non-negative values and adds 2^64 to negative ones |
| `Numeric.ToUint16` | app/config/config.go:41 | `uint16(port)` keeps values below 2^16 and is congruent to the input modulo 2^16 |
| `Numeric.BigEndianRoundTrip` | app/state.go:70-71 | reading back a width-byte big-endian encoding yields the encoded number when it fits |
| `Numeric.BigEndianInjective` | app/state.go:70-71 | two numbers below 256^width have equal encodings only when equal |
| `Numeric.ShowNatRoundTrip` | cmd/read.go:65 | the decimal text of an entry number reads back as that number |
| `Hex.HexRoundTrip` | app/sequence.go:32 | decoding the lower-case hex text of bytes gives back the bytes |
| `Hex.HexEncodeInjective` | app/sequence.go:32 | distinct byte strings have distinct hex texts |
| `Paths.JoinThree` | app/config/config.go:27 | joining three non-empty elements separates them with "/" |
| `Errors.NewError` | app/errors/errors.go:24-29 | an application error with code "APP_ERROR", the message, and nothing wrapped |
| `Errors.Wrap` | app/errors/errors.go:32-38 | an application error with code "APP_ERROR", the message, and the inner error kept; a nil inner error leaves nothing wrapped |
| `Errors.Message` | app/errors/errors.go:41-46 | an application error's text opens with "code: msg"; it is exactly that when nothing is wrapped, and otherwise ends with ": " and the wrapped error's text |
| `Errors.Unwrap` | app/errors/errors.go:49-51 | the wrapped error, or nothing when none is wrapped |
| `Errors.AppMessage` | app/errors/errors.go:41-46 | the text is "APP_ERROR: msg" without an inner error (from NewError, or Wrap of nil) and "APP_ERROR: msg: inner" with one |
| `Errors.UnwrapInvertsWrap` | app/errors/errors.go:49-51 | Unwrap returns exactly what Wrap wrapped, nil included, and nothing for NewError |
| `Errors.Is` | app/errors/errors.go:54-60 | false for any target that is not an application error; otherwise true exactly when the codes agree |
| `Errors.IsMatchesEveryAppError` | app/errors/errors.go:59 | any two errors built by NewError or Wrap match under Is |
| `Errors.DistinctSentinelsMatch` | app/errors/errors.go:6-14 | ErrInvalidConfig matches ErrDatabaseError under Is although they differ |
| `Errors.Cause` | app/consensus.go:83 | the result lies on the error's chain of `Cause()` links and has no further cause, so it is the root of that chain; an error without a cause is its own cause |
| `Errors.CauseOfChain` | app/consensus.go:83 | every error on a chain has the same cause as the error at its head |
| `Errors.CauseIdempotent` | app/consensus.go:96 | taking the cause twice is taking it once |
| `StateRecord.Encode` | app/state.go:56 | the record text opens with `{"size":` and closes with `}` |
| `StateRecord.NumberSpan` | app/state.go:46 | the length of the longest prefix of integer-token characters |
| `StateRecord.Decode` | app/state.go:45-49 | a decoded text opens with `{"size":` |
| `StateRecord.DecodeShape` | app/state.go:45-49 | a decoded text is `{"size":`, an int64 token, `,"height":`, another int64 token and `}`, and the counters are the tokens' values |
| `StateRecord.DecodeOfTokens` | app/state.go:45-49 | conversely, that shape around two number tokens that parse to int64 values decodes to those values |
| `StateRecord.NegativeZeroAccepted` | app/state.go:46 | `{"size":-0,"height":0}` decodes to 0/0, although Save writes 0/0 as `{"size":0,"height":0}` |
| `StateRecord.RoundTrip` | app/state.go:40-49 | decoding the record written for any pair of int64 counters gives back those counters |
| `StateRecord.EncodeInjective` | app/state.go:56 | distinct counters give distinct records |
| `StateRecord.ExampleRecord` | app/state.go:21-22 | size 42 and height 100 are written as `{"size":42,"height":100}` |
| `AppState.NewState` | app/state.go:27-52 | a state is returned exactly when no error is, which is exactly when no step fails and the stored record is empty or decodes. The state holds an open handle over the disk and starts at 0/0 without a record, or at the decoded counters with one; every error wraps its cause |
| `AppState.Save` | app/state.go:55-66 | succeeds iff the handle is open and the database does not fail; on failure nothing changes; on success only the key "stateKey" is written, it holds the encoded record of the state's Size and Height, and the counters are kept |
| `AppState.Hash` | app/state.go:69-73 | 8 bytes whose big-endian value is `uint64(Size)` |
| `AppState.Close` | app/state.go:76-81 | succeeds iff the handle was open and the database does not fail; a second close reports the wrapped ErrClosed and a failing first close reports the wrapped failure; the handle ends closed with disk and counters unchanged |
| `AppState.HashExamples` | app/state.go:70-72 | sizes 0, 42 and 2^32 hash to 00…00, 00…2a and 00 00 00 01 00 00 00 00 |
| `AppState.HashDependsOnlyOnSize` | app/state.go:71 | states with equal Size have equal hashes, whatever their Height and database |
| `AppState.HashInjective` | app/state.go:71 | equal hashes imply equal Size |
| `AppState.OpenWithoutRecord` | app/state.go:39-45 | a store without the record opens at Size 0 and Height 0 |
| `AppState.OpenRejectsUnreadableRecord` | app/state.go:45-48 | a non-empty record that does not decode makes the open fail with no state |
| `AppState.SaveCloseReopen` | app/state.go:55-66 | Save, Close and a fresh open of the same disk give back the saved Size and Height |
| `AppState.ReopenReadsRecord` | app/state.go:40-49 | opening a disk whose record decodes loads exactly the decoded counters |
| `AppState.SaveCloseReopenExample` | app/state.go:40-49 | a state saved at 42/100 reopens at 42/100 |
| `AppState.CloseTwiceFails` | app/state.go:76-81 | the first Close succeeds and the second fails with the wrapped ErrClosed, whatever the database's oracle says |
| `StreamLog.StartAtomicOp` | app/consensus.go:55 | succeeds iff no operation is open and the server does not fail; it then opens an empty operation; a failure changes nothing |
| `StreamLog.AddStreamEntry` | app/consensus.go:60 | succeeds iff an operation is open and the server does not fail; it then appends exactly the entry to the pending ones |
| `StreamLog.CommitAtomicOp` | app/consensus.go:101 | succeeds iff an operation is open and the server does not fail; it then moves the pending entries after the committed ones and closes the operation |
| `StreamLog.RollbackAtomicOp` | app/consensus.go:81 | succeeds iff an operation is open and the server does not fail; it then drops the pending entries and closes the operation |
| `StreamLog.CommittedOnlyGrows` | app/consensus.go:55-104 | no stream call removes or alters a committed entry |
| `Sequencer.ApplyOption` | app/sequencer.go:36-77 | an option fails exactly on an empty identity, the zero address or a nil collaborator, with its own message and the app unchanged |
| `Sequencer.FirstRejected` | app/sequencer.go:92-96 | every option before the index accepts its argument, and the option at the index does not |
| `Sequencer.Configure` | app/sequencer.go:92-96 | options apply in order; the run fails iff some option rejects, with the first rejection's error; otherwise each field holds the value of the last option setting it |
| `Sequencer.NewSequencer` | app/sequencer.go:83-99 | an app is returned iff there is a logger and every option accepts; the errors are "logger cannot be nil" or the first rejection wrapped; staged is empty |
| `Sequencer.IdentityAndAddressSuffice` | app/sequencer.go:88-90 | identity and address alone build an app, with state and stream server unset |
| `Sequencer.EmptyIdentityRejected` | app/sequencer.go:38-42 | an empty identity aborts construction even when a valid option follows |
| `Sequencer.NilCollaboratorsRejected` | app/sequencer.go:58-77 | a nil state, a nil stream server or a nil logger aborts construction |
| `Ledger.BytesToHash` | app/sequence.go:31 | always 32 bytes |
| `Ledger.Line` | app/sequence.go:31-32 | 67 characters: "0x", 64 lower-case hex digits, a newline |
| `Ledger.OpenSequenceFile` | app/sequence.go:21-28 | the file `dseq.txt` joined to the home directory, keeping its existing content |
| `Ledger.NewSink` | app/sink.go:21-28 | the file `dseq.txt` joined to the home directory, keeping its existing content |
| `Ledger.Write` | app/sequence.go:30-36 | appends exactly one line; a failed write leaves the file as it was and is not reported |
| `Ledger.Kept` | app/sequence.go:33-35 | the surviving transactions are never more than were written and all come from the run |
| `Ledger.WriteAll` | app/consensus.go:130-132 | a run of writes keeps the path and leaves the old content followed by the lines of exactly the transactions whose write succeeded, in order |
| `Ledger.KeptWithoutFaults` | app/sequence.go:33-35 | with no failed write every transaction is kept |
| `Ledger.KeptAllFaults` | app/sequence.go:33-35 | when every write fails no line is added |
| `Ledger.SecondWriteLost` | app/sequence.go:33-35 | of two transactions whose second write fails, only the first line is added |
| `Ledger.BytesToHashLayout` | app/sequence.go:31 | longer input keeps its last 32 bytes; shorter input is left-padded with zero bytes |
| `Ledger.LineEqualIff` | app/sequence.go:31-32 | two transactions share a line iff their 32-byte alignments agree |
| `Ledger.LeadingZerosCollide` | app/sequence.go:31 | `[0x01]` and `[0x00, 0x01]` give the same line |
| `Ledger.LineReadsBack` | app/sequence.go:32 | the hex digits of a line decode to `BytesToHash(data)` |
| `Ledger.WriteAllAppendsLines` | app/consensus.go:130-132 | without failed writes, a run appends the transactions' lines in order |
| `Ledger.LinesAppend` | app/consensus.go:130-132 | the lines of two runs in sequence are the lines of the joined run |
| `Ledger.LedgerPath` | app/sequence.go:13-22 | under a non-empty home directory the path is `<home>/dseq.txt` |
| `Ledger.SinkSharesSequenceFile` | app/sink.go:13-27 | the sink and the sequence open the same file with the same content |
| `Consensus.InitChain` | app/consensus.go:13-16 | an empty response and no error for any request |
| `Consensus.ProcessProposal` | app/consensus.go:34-40 | every proposal is accepted, with no error |
| `Consensus.ExtendVote` | app/consensus.go:113-116 | an empty vote extension and no error |
| `Consensus.VerifyVoteExtension` | app/consensus.go:118-121 | an empty response (status UNKNOWN) and no error |
| `Consensus.PrepareProposal` | app/consensus.go:18-32 | for any draws `j` in `[0, i]`, the result is a permutation of the proposal (same length, same multiset), namely the Fisher–Yates order those draws select |
| `Consensus.ShuffleSelfDraws` | app/consensus.go:24-27 | when every draw picks its own index, the order is kept |
| `Consensus.ShuffleTwo` | app/consensus.go:24-27 | with two transactions, draw 0 swaps them and draw 1 keeps them |
| `Consensus.FirstTxFault` | app/consensus.go:69-88 | the first transaction index whose append fails, or the count when none does |
| `Consensus.AppendTxsStep` | app/consensus.go:69-88 | one turn of the loop: a failing append stops it after staging and counting that transaction; a successful one adds its entry to the pending ones and goes on |
| `Consensus.AppendTxsOutcome` | app/consensus.go:69-88 | the loop stops at the first failing append; it has staged and counted every transaction up to and including that one, but left only the earlier entries pending |
| `Consensus.FinalizeBlock` | app/consensus.go:50-111 | a response is returned iff no stream call fails. It then commits exactly the block's entries, adds the transaction count to Size (wrapping), sets Height, stages the transactions, returns one OK result per transaction and the hash of the new state. The database is untouched (no Save) |
| `Consensus.BlockUnitShape` | app/consensus.go:60-99 | a block contributes `|txs| + 2` entries: an empty type-1 marker, one type-1 entry per transaction carrying its bytes in order, and an empty type-3 marker. None is typed 2 |
| `Consensus.FinalizeRollsBack` | app/consensus.go:79-99 | after a failed transaction or block-end append, there is no response and the committed log is unchanged. Size has counted the transactions up to and including the failing one; Height is unchanged. A successful rollback returns no error; a failed one returns the rollback error's cause |
| `Consensus.FinalizeStopsWithoutRollback` | app/consensus.go:53-104 | a failed Start, block-start append or Commit returns its own error without rollback; the operation stays open after the last two. Staged is reset on entry |
| `Consensus.NoFaultsFinalize` | app/consensus.go:55-104 | with no faults and no operation in flight, every stream call succeeds |
| `Consensus.BlockStartFailureWedgesStream` | app/consensus.go:60-63 | after a failed block-start append, the next FinalizeBlock fails because Start is refused |
| `Consensus.EmptyBlock` | app/consensus.go:55-104 | an empty block commits only its two markers, keeps Size and sets Height |
| `Consensus.OneBlockCounters` | app/consensus.go:69-111 | a fault-free block leaves the stream quiescent for the next one, adds its transaction count to Size (wrapping), sets Height and stages its transactions |
| `Consensus.TwoBlocks` | app/consensus.go:50-111 | two fault-free blocks both succeed and commit both units in order, with no operation left open |
| `Consensus.Commit` | app/consensus.go:123-140 | appends to the ledger the lines of exactly the staged transactions whose write succeeds, in order, before saving. The error is returned iff Save fails, so the lines are written even then. Staged is not cleared. On success the stored record decodes to the current Size and Height |
| `Consensus.CommitTwiceRepeatsLines` | app/consensus.go:130-132 | a second Commit without a block in between writes the same lines again |
| `Consensus.BlockCommitLedger` | app/consensus.go:130-132 | a fault-free block and Commit append exactly the block's lines to the ledger |
| `Consensus.CommitCloseReopen` | app/consensus.go:134-137 | after a successful Commit, close and reopen give back the committed counters |
| `Consensus.BlockCommitReopen` | app/consensus.go:101-137 | after a fault-free block and Commit, close and reopen give back the block's Size and Height |
| `ReadOnlyPhases.Info` | app/info.go:10-22 | no error. The data decodes to the current Size and Height, with "size" first; AppVersion is 1; LastBlockHeight is Height; LastBlockAppHash is 8 bytes whose value is `uint64(Size)` |
| `ReadOnlyPhases.InfoDataIsSavedRecord` | app/info.go:11-14 | the data is the same text Save writes for the state |
| `ReadOnlyPhases.InfoAfterBlock` | app/info.go:19-20 | after a fault-free block, Info reports that block's height and the app hash FinalizeBlock returned |
| `ReadOnlyPhases.CheckTx` | app/check.go:9-13 | every transaction is admitted with code 0 and no error, whatever its bytes |
| `ReadOnlyPhases.Query` | app/query.go:9-12 | every request gets an empty response and no error |
| `Reader.KindName` | cmd/read.go:53-63 | "block start", "transaction" and "block end" exactly for 1, 2 and 3; "unknown type n" otherwise |
| `Reader.PadLeft` | cmd/read.go:65 | right-aligns in the width with leading spaces and never cuts a longer text |
| `Reader.HexutilEncode` | cmd/read.go:65 | "0x" followed by two characters per byte |
| `Reader.LayoutFields` | cmd/read.go:65 | where the number, the type name and the payload sit between the separators, and the line ends with a newline |
| `Reader.FormatLine` | cmd/read.go:65 | the line is the number field, a separator (space, vertical bar, space), the type field, the same separator, then "0x" and the payload's hex, and a newline |
| `Reader.PrintEntryNum` | cmd/read.go:48-67 | a nil entry gives the error "received nil entry" and prints nothing; every other entry prints its line with no error |
| `Reader.KindNameInjective` | cmd/read.go:53-63 | distinct entry types never print the same name |
| `Reader.PayloadReadsBack` | cmd/read.go:65 | two entries with the same number and type print the same line only if their payloads are equal |
| `Reader.LineOpensWithNumber` | cmd/read.go:65 | an entry's line opens with its right-aligned number field |
| `Reader.NilEntryRefused` | cmd/read.go:49-51 | a nil entry's error text is "received nil entry" |
| `Reader.FormatEmptyPayload` | cmd/read.go:65 | a line with no payload ends in "0x" and a newline |
| `Reader.FinalizedEntriesNeverTransaction` | cmd/read.go:55-58 | no entry a block writes is named "transaction", and each transaction entry is named "block start" |
| `Config.NewConfig` | app/config/config.go:21-29 | port 6900, log level "info", an empty moniker, `dseq.bin` and `config/node_key.json` joined to the home directory |
| `Config.Load` | app/config/config.go:32-45 | a failed read is wrapped and changes nothing. Otherwise the moniker and log level are always overwritten, the port only when the configured one is positive (as its low 16 bits), and the other fields are kept |
| `Config.Validate` | app/config/config.go:48-59 | succeeds iff home, port and moniker are all set; otherwise it reports the first failure in the order home, port, moniker |
| `Config.DefaultsNeverValidate` | app/config/config.go:55-57 | the defaults never validate, because the moniker is empty |
| `Config.DefaultPaths` | app/config/config.go:26-27 | the state file, key file and config file paths under a non-empty home |
| `Config.PortTruncation` | app/config/config.go:40-41 | port 65536 loads as 0 and then fails validation; 70000 loads as 4464; 0 keeps 6900 |
| `Config.LoadedDefaultsValidate` | app/config/config.go:38-59 | the loaded defaults validate iff home and moniker are set and the configured port is absent or does not truncate to 0 |
| `Config.FailedLoadKeepsDefaults` | app/config/config.go:34-36 | a failed read keeps the defaults, which then fail validation |
| `Middleware.Chain` | app/middleware/middleware.go:18-25 | the chained handler is `m1(m2(…mn(next)))` |
| `Middleware.NestEmpty` | app/middleware/middleware.go:18-24 | an empty chain returns the handler unchanged |
| `Middleware.NestAppend` | app/middleware/middleware.go:20-22 | chaining `a ++ b` is chaining `a` around the chain of `b` |
| `Middleware.NestTwo` | app/middleware/middleware.go:20-22 | with two middlewares the first listed is outermost |
| `Middleware.NewResponseWriter` | app/middleware/middleware.go:131-133 | a fresh wrapper reports 200 and has forwarded nothing |
| `Middleware.WriteHeader` | app/middleware/middleware.go:136-139 | the code becomes the status and is forwarded once |
| `Middleware.StatusIsLastWritten` | app/middleware/middleware.go:136-139 | after any sequence of WriteHeader calls, every code was forwarded in order and the status is the last one written |
| `Middleware.FreshWriterStatus` | app/middleware/middleware.go:131-139 | a fresh wrapper reports 200 until the first WriteHeader and the last written code after it |
| `Health.RecordCheck` | app/health/health.go:100-111 | a passing run records UP with no error text, a failing run DOWN with the error's text; other checks' results are kept |
| `Health.AddCheck` | app/health/health.go:70-76 | checks are keyed by name and others are kept |
| `Health.ReAddReplaces` | app/health/health.go:74 | adding a check under a name already used replaces the earlier check |
| `Health.HandleHealth` | app/health/health.go:118-146 | the details are exactly the recorded results; the status is DOWN iff some result is DOWN; the code is 503 for DOWN and 200 otherwise |
| `Health.HandleReady` | app/health/health.go:149-162 | 503 iff some recorded result is DOWN, else 200, which is the same verdict HandleHealth gives |
| `Health.NoResultsIsHealthy` | app/health/health.go:122-133 | with no recorded results the service is UP |
| `Health.RecordedRunDecides` | app/health/health.go:100-133 | a failing run makes the service DOWN; a passing run of the only failing check makes it UP again |

## Left out

- The datastream server, LevelDB and the file system are in-memory records with failure oracles. File layout, directory creation, the stream type `StSequencer`, network ports and the entry numbers the server assigns (only logged) are not modelled.
- Logging is not modelled. This covers every logger call, the `log.Printf` of a failed ledger write, and `log.Fatalf` when the ledger file cannot be opened (which ends the process).
- `rand.Intn` in PrepareProposal becomes the `draws` parameter: any `draws[i]` in `[0, i]`.
- `Consensus.PrepareProposal` swaps within a sequence value instead of the copied slice; the result it returns is the same.
- `json.Unmarshal` leniency is library behaviour and is not modelled. This covers other field orders, unknown fields and white space. The decoder accepts the record shape Save writes, `{"size":N,"height":M}`, with any JSON int tokens in int64 range. Like the library, it also reads "-0" as zero, a text Save never writes (`StateRecord.NegativeZeroAccepted`). A record it rejects makes the open fail with a fixed inner message, not the library's text.
- `Paths.Join` does not model `filepath.Clean` (".." and repeated "/"), since only plain directory names are joined here.
- `Config.Load` takes the already-read settings and does not model the viper library. That leaves out the TOML parsing, the string conversion of other value types, and the path of the configuration file beyond `ConfigFilePath`. A missing key reads as "" or 0.
- `ReadOnlyPhases.Info` leaves out the `Version` field (`version.ABCIVersion`), a constant of CometBFT.
- `ReadOnlyPhases.CheckTx` and `ReadOnlyPhases.Query` return only the response fields the code sets.
- `Consensus.FinalizeBlock` requires both the state and the stream server to be set. The code dereferences both without a check, so a nil one panics, which is not modelled.
- `ReadOnlyPhases.Info` and `Consensus.Commit` require the state to be set, for the same reason.
- `Consensus.Commit` takes the ledger file as a parameter. The `app.sequence` field it writes through is not declared in app/sequencer.go.
- `AppState.Close` releases the handle even when a first close reports a failure, so a later close reports `ErrClosed`. Whether the database keeps the handle after a failed close is library behaviour the model fixes this way.
- `Ledger.Write` models a write as all-or-nothing. A partial write of a line is not modelled.
- `Reader.PrintEntryNum` returns the printed line rather than writing it to standard output.
- The rest of cmd/read.go (`ReadStream`, the network client, signal handling) is not modelled.
- cmd/start.go, cmd/load.go and main.go are not part of this model (node wiring and a load generator).
- app/logging, app/tracing and app/metrics are not part of this model.
- The Logging, Metrics, Tracing and Recovery middlewares are not modelled (timing, HTTP I/O, panics). Handlers are abstract values.
- Parts of the health service are not modelled: its HTTP server, the ticker goroutines, the lock, the context timeout, the JSON body text, and the `Start`/`Stop`/`New` functions. The clock readings are parameters. A check's function is an outcome passed to `Health.RecordCheck`.
- `Health.HandleHealth` visits the results in an unspecified order, as Go's map iteration does; the contract is order-independent.
