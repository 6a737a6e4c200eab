/** The health service of app/health/health.go, reduced to its rules: how a
    check run is recorded, how checks are registered, and how the recorded
    results are turned into the health and readiness answers. Clocks are
    parameters; the tickers, goroutines, lock and HTTP server are not part
    of this model. */
module Health {
  import opened Optional
  import opened Errors

  /** A check's status, reported as "UP" or "DOWN". */
  datatype Status = Up | Down

  /** The result of one check run: the error text is "" when the check passed. */
  datatype CheckResult = CheckResult(status: Status, error: string, timestamp: int)

  /** A registered check; the check function itself is an oracle of
      `RecordCheck`. */
  datatype Check = Check(name: string, timeout: int, interval: int)

  type Results = map<string, CheckResult>

  /** One tick of `runCheck`: the result for `name` becomes UP with no error
      when the check returned nil, and DOWN with the error's text otherwise.
      `now` and `later` are the two clock readings the source takes. */
  function RecordCheck(results: Results, name: string, outcome: Option<Error>, now: int, later: int): (r: Results)
    ensures r.Keys == results.Keys + {name}
    ensures outcome.None? ==> r[name] == CheckResult(Up, "", now)
    ensures outcome.Some? ==> r[name] == CheckResult(Down, Message(outcome.value), later)
    ensures forall k :: k in results && k != name ==> r[k] == results[k]
  {
    var up := results[name := CheckResult(Up, "", now)];
    if outcome.Some? then up[name := CheckResult(Down, Message(outcome.value), later)] else up
  }

  /** `AddCheck`: checks are keyed by name. */
  function AddCheck(checks: map<string, Check>, c: Check): (r: map<string, Check>)
    ensures r.Keys == checks.Keys + {c.name}
    ensures r[c.name] == c
    ensures forall k :: k in checks && k != c.name ==> r[k] == checks[k]
  {
    checks[c.name := c]
  }

  /** Some recorded result is DOWN. */
  predicate AnyDown(results: Results) {
    exists k :: k in results && results[k].status == Down
  }

  const StatusOK: int := 200
  const StatusServiceUnavailable: int := 503

  /** The body of a health answer. */
  datatype HealthReport = HealthReport(status: Status, timestamp: int, details: Results)

  /** `handleHealth`: copies every recorded result into the details,
      turning the overall status DOWN on any DOWN result, and answers 503
      when the overall status is DOWN, 200 otherwise. */
  method HandleHealth(results: Results, now: int) returns (report: HealthReport, code: int)
    ensures report.details == results
    ensures report.status == Down <==> AnyDown(results)
    ensures report.timestamp == now
    ensures code == (if report.status == Down then StatusServiceUnavailable else StatusOK)
  {
    var details: Results := map[];
    var status := Up;
    var pending := results.Keys;
    while pending != {}
      invariant pending <= results.Keys
      invariant details.Keys == results.Keys - pending
      invariant forall k :: k in details ==> details[k] == results[k]
      invariant status == Down <==> exists k :: k in details && details[k].status == Down
      decreases pending
    {
      var name :| name in pending;
      details := details[name := results[name]];
      if results[name].status == Down {
        status := Down;
      }
      pending := pending - {name};
    }
    report := HealthReport(status, now, details);
    code := if status == Down then StatusServiceUnavailable else StatusOK;
  }

  /** `handleReady`: 503 as soon as a DOWN result is met, 200 when none is. */
  method HandleReady(results: Results) returns (code: int)
    ensures code == StatusServiceUnavailable <==> AnyDown(results)
    ensures code == StatusOK <==> !AnyDown(results)
  {
    var pending := results.Keys;
    while pending != {}
      invariant pending <= results.Keys
      invariant forall k :: k in results.Keys - pending ==> results[k].status == Up
      decreases pending
    {
      var name :| name in pending;
      if results[name].status == Down {
        return StatusServiceUnavailable;
      }
      pending := pending - {name};
    }
    return StatusOK;
  }

  // ---- properties ----

  /** With no recorded results the service is healthy. */
  lemma NoResultsIsHealthy()
    ensures !AnyDown(map[])
  {
  }

  /** A failing run makes the service unhealthy, and a passing run of the
      only failing check makes it healthy again. */
  lemma RecordedRunDecides(results: Results, name: string, outcome: Option<Error>, now: int, later: int)
    ensures outcome.Some? ==> AnyDown(RecordCheck(results, name, outcome, now, later))
    ensures outcome.None? && (forall k :: k in results && k != name ==> results[k].status == Up)
            ==> !AnyDown(RecordCheck(results, name, outcome, now, later))
  {
    var r := RecordCheck(results, name, outcome, now, later);
    if outcome.Some? {
      assert r[name].status == Down;
    }
  }

  /** Adding a check under a name already in use replaces the earlier one. */
  lemma ReAddReplaces(checks: map<string, Check>, c1: Check, c2: Check)
    requires c1.name == c2.name
    ensures AddCheck(AddCheck(checks, c1), c2) == AddCheck(checks, c2)
  {
  }
}
