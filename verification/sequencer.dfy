/** The sequencer application of app/sequencer.go and its construction from
    functional options, applied in order and failing fast. */
module Sequencer {
  import opened Optional
  import opened Numeric
  import opened Errors
  import opened AppState
  import opened StreamLog

  const AppVersion: nat := 1

  /** A 20-byte account address (`common.Address`). */
  type Address = a: Bytes | |a| == 20 witness [0, 0, 0, 0, 0, 0, 0, 0, 0, 0, 0, 0, 0, 0, 0, 0, 0, 0, 0, 0]

  const ZeroAddress: Address := [0, 0, 0, 0, 0, 0, 0, 0, 0, 0, 0, 0, 0, 0, 0, 0, 0, 0, 0, 0]

  /** `SequencerApplication`: identity, address, the state store, the
      transactions staged by the last FinalizeBlock, and the stream server.
      The logger is left out; the state and the stream server may be unset. */
  datatype App = App(id: string, addr: Address, state: Option<State>, staged: seq<Bytes>, stream: Option<Log>) {

    /** Both collaborators the block lifecycle dereferences are present. */
    predicate Wired() {
      state.Some? && stream.Some?
    }
  }

  /** The four option constructors; `None` stands for a nil argument. */
  datatype Opt =
    | WithIdentity(identity: string)
    | WithAddress(address: Address)
    | WithState(st: Option<State>)
    | WithDataServer(ds: Option<Log>)

  /** Whether an option accepts its argument. */
  predicate Accepts(o: Opt) {
    match o
    case WithIdentity(id) => id != ""
    case WithAddress(a) => a != ZeroAddress
    case WithState(st) => st.Some?
    case WithDataServer(ds) => ds.Some?
  }

  /** The error an option reports for its argument. */
  function Rejection(o: Opt): Error {
    match o
    case WithIdentity(_) => Plain("identity cannot be empty")
    case WithAddress(_) => Plain("address cannot be zero")
    case WithState(_) => Plain("state cannot be nil")
    case WithDataServer(_) => Plain("data server cannot be nil")
  }

  /** An application after an option was applied, or the option's error. */
  datatype Applied = Applied(app: App, err: Option<Error>)

  /** Runs one option against the application being built. */
  function ApplyOption(app: App, o: Opt): (r: Applied)
    ensures r.err.None? <==> Accepts(o)
    ensures r.err.Some? ==> r.err.value == Rejection(o) && r.app == app
    ensures r.app.staged == app.staged
  {
    if !Accepts(o) then Applied(app, Some(Rejection(o)))
    else match o
      case WithIdentity(id) => Applied(app.(id := id), None)
      case WithAddress(a) => Applied(app.(addr := a), None)
      case WithState(st) => Applied(app.(state := st), None)
      case WithDataServer(ds) => Applied(app.(stream := ds), None)
  }

  /** Index of the first option that rejects its argument, or |opts|. */
  function FirstRejected(opts: seq<Opt>): (k: nat)
    ensures k <= |opts|
    ensures forall i :: 0 <= i < k ==> Accepts(opts[i])
    ensures k < |opts| ==> !Accepts(opts[k])
  {
    if |opts| == 0 || !Accepts(opts[0]) then 0 else 1 + FirstRejected(opts[1..])
  }

  // ---- which value each field ends up with ----

  function IdentityOf(o: Opt): Option<string> {
    if o.WithIdentity? then Some(o.identity) else None
  }

  function AddressOf(o: Opt): Option<Address> {
    if o.WithAddress? then Some(o.address) else None
  }

  function StateOf(o: Opt): Option<Option<State>> {
    if o.WithState? then Some(o.st) else None
  }

  function DataServerOf(o: Opt): Option<Option<Log>> {
    if o.WithDataServer? then Some(o.ds) else None
  }

  /** What each option says about one field (None: it says nothing). */
  function Picks<T>(opts: seq<Opt>, pick: Opt -> Option<T>): (r: seq<Option<T>>)
    ensures |r| == |opts|
  {
    if |opts| == 0 then [] else [pick(opts[0])] + Picks(opts[1..], pick)
  }

  /** The value set by the last setting in `xs`, or `dflt` when none sets it. */
  function LastSet<T>(xs: seq<Option<T>>, dflt: T): T
    decreases |xs|
  {
    if |xs| == 0 then dflt
    else if xs[|xs| - 1].Some? then xs[|xs| - 1].value
    else LastSet(xs[..|xs| - 1], dflt)
  }

  /** Applying the first setting and then the rest agrees with "the last one wins". */
  lemma {:induction false} LastSetCons<T>(x: Option<T>, xs: seq<Option<T>>, dflt: T)
    ensures LastSet([x] + xs, dflt) == LastSet(xs, x.GetOr(dflt))
    decreases |xs|
  {
    if |xs| > 0 {
      assert ([x] + xs)[..|xs|] == [x] + xs[..|xs| - 1];
      LastSetCons(x, xs[..|xs| - 1], dflt);
    } else {
      assert ([x] + xs)[..0] == [];
    }
  }

  /** Applies the options in order, stopping at the first that fails. */
  function Configure(app: App, opts: seq<Opt>): (r: Applied)
    ensures r.err.None? <==> (forall i :: 0 <= i < |opts| ==> Accepts(opts[i]))
    ensures r.err.Some? ==> r.err.value == Rejection(opts[FirstRejected(opts)])
    ensures r.app.staged == app.staged
    ensures r.err.None? ==> r.app.id == LastSet(Picks(opts, IdentityOf), app.id)
    ensures r.err.None? ==> r.app.addr == LastSet(Picks(opts, AddressOf), app.addr)
    ensures r.err.None? ==> r.app.state == LastSet(Picks(opts, StateOf), app.state)
    ensures r.err.None? ==> r.app.stream == LastSet(Picks(opts, DataServerOf), app.stream)
    decreases |opts|
  {
    if |opts| == 0 then Applied(app, None)
    else if !Accepts(opts[0]) then ApplyOption(app, opts[0])
    else
      ConfigureStep(app, opts);
      Configure(ApplyOption(app, opts[0]).app, opts[1..])
  }

  /** The settings after the first option, seen from the application it produced. */
  lemma ConfigureStep(app: App, opts: seq<Opt>)
    requires |opts| > 0 && Accepts(opts[0])
    ensures var next := ApplyOption(app, opts[0]).app;
      && LastSet(Picks(opts, IdentityOf), app.id) == LastSet(Picks(opts[1..], IdentityOf), next.id)
      && LastSet(Picks(opts, AddressOf), app.addr) == LastSet(Picks(opts[1..], AddressOf), next.addr)
      && LastSet(Picks(opts, StateOf), app.state) == LastSet(Picks(opts[1..], StateOf), next.state)
      && LastSet(Picks(opts, DataServerOf), app.stream) == LastSet(Picks(opts[1..], DataServerOf), next.stream)
      && FirstRejected(opts) == 1 + FirstRejected(opts[1..])
  {
    LastPickCons(opts, IdentityOf, app.id);
    LastPickCons(opts, AddressOf, app.addr);
    LastPickCons(opts, StateOf, app.state);
    LastPickCons(opts, DataServerOf, app.stream);
  }

  /** The first option's setting of a field becomes the default the rest override. */
  lemma LastPickCons<T>(opts: seq<Opt>, pick: Opt -> Option<T>, dflt: T)
    requires |opts| > 0
    ensures LastSet(Picks(opts, pick), dflt) == LastSet(Picks(opts[1..], pick), pick(opts[0]).GetOr(dflt))
  {
    LastSetCons(pick(opts[0]), Picks(opts[1..], pick), dflt);
  }

  /** The application before any option: no identity, the zero address, no collaborators. */
  const Blank: App := App("", ZeroAddress, None, [], None)

  /** What `NewSequencer` returns: an application or an error, never both. */
  datatype Built = Built(app: Option<App>, err: Option<Error>)

  /** `NewSequencer`: requires a logger, then applies the options in order;
      the first failing option aborts construction. */
  function NewSequencer(hasLogger: bool, opts: seq<Opt>): (r: Built)
    ensures r.app.Some? <==> r.err.None?
    ensures r.app.Some? <==> hasLogger && forall i :: 0 <= i < |opts| ==> Accepts(opts[i])
    ensures !hasLogger ==> r.err == Some(Plain("logger cannot be nil"))
    ensures hasLogger && r.err.Some? ==>
      r.err == Some(Wrapped("failed to apply option", Rejection(opts[FirstRejected(opts)])))
    ensures r.app.Some? ==> r.app.value.staged == []
    ensures r.app.Some? ==> r.app.value.id == LastSet(Picks(opts, IdentityOf), "")
    ensures r.app.Some? ==> r.app.value.addr == LastSet(Picks(opts, AddressOf), ZeroAddress)
    ensures r.app.Some? ==> r.app.value.state == LastSet(Picks(opts, StateOf), None)
    ensures r.app.Some? ==> r.app.value.stream == LastSet(Picks(opts, DataServerOf), None)
  {
    if !hasLogger then Built(None, Some(Plain("logger cannot be nil")))
    else
      var c := Configure(Blank, opts);
      if c.err.Some? then Built(None, Some(Wrapped("failed to apply option", c.err.value)))
      else Built(Some(c.app), None)
  }

  // ---- properties ----

  /** Identity and address alone build an application, leaving the state
      and the stream server unset. */
  lemma IdentityAndAddressSuffice(id: string, a: Address)
    requires id != "" && a != ZeroAddress
    ensures var r := NewSequencer(true, [WithIdentity(id), WithAddress(a)]);
      r.app.Some? && r.app.value.id == id && r.app.value.addr == a
      && r.app.value.state.None? && r.app.value.stream.None? && r.app.value.staged == []
  {
    var opts := [WithIdentity(id), WithAddress(a)];
    assert Picks(opts, IdentityOf) == [Some(id), None];
    assert Picks(opts, AddressOf) == [None, Some(a)];
    assert Picks(opts, StateOf) == [None, None];
    assert Picks(opts, DataServerOf) == [None, None];
    assert [Some(id), None][..1] == [Some(id)];
    var noState: seq<Option<Option<State>>> := [None, None];
    var noServer: seq<Option<Option<Log>>> := [None, None];
    assert noState[..1][..0] == [] && noServer[..1][..0] == [];
    assert LastSet(Picks(opts, IdentityOf), "") == id;
    assert LastSet(Picks(opts, StateOf), None) == None;
    assert LastSet(Picks(opts, DataServerOf), None) == None;
  }

  /** An empty identity is rejected even when a valid option follows it. */
  lemma EmptyIdentityRejected(a: Address)
    ensures NewSequencer(true, [WithIdentity(""), WithAddress(a)]).app.None?
    ensures NewSequencer(true, [WithIdentity(""), WithAddress(a)]).err
         == Some(Wrapped("failed to apply option", Plain("identity cannot be empty")))
  {
  }

  /** A nil state or stream server is rejected. */
  lemma NilCollaboratorsRejected()
    ensures NewSequencer(true, [WithState(None)]).app.None?
    ensures NewSequencer(true, [WithDataServer(None)]).app.None?
    ensures NewSequencer(false, []).app.None?
  {
  }
}
