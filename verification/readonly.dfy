/** The phases that only read the application: Info (app/info.go), CheckTx
    (app/check.go) and Query (app/query.go). Each is a function of the
    application, so none can change Size, Height, the staged transactions or
    the stream log. */
module ReadOnlyPhases {
  import opened Optional
  import opened Numeric
  import opened AppState
  import opened Sequencer
  import StateRecord
  import Consensus

  /** The fields of `ResponseInfo` the application fills in. */
  datatype InfoResponse = InfoResponse(data: string, appVersion: nat, lastBlockHeight: int64, lastBlockAppHash: Bytes)

  /** `Info`: the counters as the JSON object `{"size":…,"height":…}`, the
      application version, the last height and the state hash. */
  function Info(app: App): (r: Consensus.Reply<InfoResponse>)
    requires app.state.Some?
    ensures r.err.None? && r.resp.Some?
    ensures StateRecord.Decode(r.resp.value.data)
            == Some(StateRecord.Counters(app.state.value.size, app.state.value.height))
    ensures StateRecord.SizeOpen <= r.resp.value.data
    ensures r.resp.value.appVersion == 1
    ensures r.resp.value.lastBlockHeight == app.state.value.height
    ensures |r.resp.value.lastBlockAppHash| == 8
    ensures FromBigEndian(r.resp.value.lastBlockAppHash) == ToUint64(app.state.value.size)
  {
    var st := app.state.value;
    var c := StateRecord.Counters(st.size, st.height);
    StateRecord.RoundTrip(c);
    Consensus.Reply(Some(InfoResponse(StateRecord.Encode(c), AppVersion, st.height, Hash(st))), None)
  }

  /** Info reports exactly what a fresh open of the saved record would load:
      its data is the record text Save writes for the same counters. */
  lemma InfoDataIsSavedRecord(app: App)
    requires app.state.Some? && app.state.value.db.open
    ensures Info(app).resp.value.data == Save(app.state.value, None).state.db.disk[StateKey]
  {
  }

  /** After a fault-free block, Info reports the block's height and the hash
      of the new Size, which is the app hash FinalizeBlock returned. */
  lemma InfoAfterBlock(app: App, height: int64, txs: seq<Bytes>)
    requires app.Wired() && StreamLog.Quiescent(app.stream.value)
    ensures var fin := Consensus.FinalizeBlock(app, height, txs, Consensus.NoFaults);
      var info := Info(fin.app).resp.value;
      && info.lastBlockHeight == height
      && info.lastBlockAppHash == fin.resp.value.appHash
  {
    Consensus.NoFaultsFinalize(app.stream.value, |txs|);
  }

  /** `ResponseCheckTx` reduced to its result code. */
  datatype CheckTxResponse = CheckTxResponse(code: nat)

  /** `CheckTx`: every transaction is admitted with code OK (0), whatever
      its bytes. */
  function CheckTx(app: App, tx: Bytes): (r: Consensus.Reply<CheckTxResponse>)
    ensures r.err.None? && r.resp.Some? && r.resp.value.code == 0
  {
    Consensus.Reply(Some(CheckTxResponse(0)), None)
  }

  /** The fields of `ResponseQuery`: result code, key, value and log. */
  datatype QueryResponse = QueryResponse(code: nat, key: Bytes, value: Bytes, log: string)

  /** `Query`: an empty response for every request. */
  function Query(app: App, path: string, data: Bytes): (r: Consensus.Reply<QueryResponse>)
    ensures r.err.None? && r.resp == Some(QueryResponse(0, [], [], ""))
  {
    Consensus.Reply(Some(QueryResponse(0, [], [], "")), None)
  }
}
