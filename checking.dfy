/** Performing the checks of one host: folding a check function's results
    into the service state sent to the monitoring core, deciding which
    services are checked and which results are submitted, and reporting the
    plugins that received no monitoring data.

    Collaborators whose definitions live elsewhere are parameters:
    `State.worst` (`worst`), the `state_markers` table (`markers`), the
    regular-expression match of a plugin-name pattern (`matches`), the
    time-period oracle `check_timeperiod` (`periodActive`) and the outcome of
    calling a plugin's check function (`CheckOutcome`). */
module Checking {
  import opened Wrappers
  import opened Strings
  import opened Collections
  import opened CheckApi

  /** What the monitoring core receives for one service. `Output` is the
      plain `ServiceCheckResult(state, output, metrics)`; the other
      variants stand for its named constructors (`item_not_found()`,
      `check_not_implemented()`, `received_no_data()`,
      `cluster_received_no_data(nodes)`), whose texts are defined outside
      this model. */
  datatype ServiceCheckResult =
    | Output(state: int, output: string, metrics: seq<Metric>)
    | ItemNotFound
    | CheckNotImplemented
    | ReceivedNoData
    | ClusterReceivedNoData(nodes: seq<string>)

  // ---------------------------------------------------------------------
  // _add_state_marker and _aggregate_results
  // ---------------------------------------------------------------------

  /** Appends `stateMarker` unless the text already contains it. */
  function AddStateMarker(resultStr: string, stateMarker: string): (r: string)
    ensures Contains(r, stateMarker)
    ensures Contains(resultStr, stateMarker) ==> r == resultStr
    ensures !Contains(resultStr, stateMarker) ==> r == resultStr + stateMarker
  {
    if Contains(resultStr, stateMarker) then resultStr
    else
      ContainsSuffix(resultStr, stateMarker);
      resultStr + stateMarker
  }

  /** Adding the same marker twice changes nothing more. */
  lemma AddStateMarkerIdempotent(s: string, marker: string)
    ensures AddStateMarker(AddStateMarker(s, marker), marker) == AddStateMarker(s, marker)
  {
  }

  /** The marker for one result: the state's marker when the service has
      several results, nothing otherwise. */
  function MarkerFor(needsMarker: bool, markers: State -> string, state: State): string
  {
    if needsMarker then markers(state) else ""
  }

  /** The summary lines the loop collects from `rs`: one per result with a
      non-empty summary, marked. */
  function Summaries(rs: seq<CheckFunctionResult>, needsMarker: bool, markers: State -> string): seq<string>
  {
    if |rs| == 0 then []
    else
      var last := rs[|rs| - 1];
      Summaries(rs[..|rs| - 1], needsMarker, markers)
        + (if last.summary != "" then [AddStateMarker(last.summary, MarkerFor(needsMarker, markers, last.state))] else [])
  }

  /** The details lines the loop collects from `rs`: one per result, marked. */
  function Details(rs: seq<CheckFunctionResult>, needsMarker: bool, markers: State -> string): seq<string>
  {
    if |rs| == 0 then []
    else
      var last := rs[|rs| - 1];
      Details(rs[..|rs| - 1], needsMarker, markers)
        + [AddStateMarker(last.details, MarkerFor(needsMarker, markers, last.state))]
  }

  /** `State.worst` folded over the results' states, starting from OK. */
  function WorstState(rs: seq<CheckFunctionResult>, worst: (State, State) -> State): State
  {
    if |rs| == 0 then OK else worst(WorstState(rs[..|rs| - 1], worst), rs[|rs| - 1].state)
  }

  /** The summary used when no result has one. */
  function EverythingOk(count: nat): string
  {
    "Everything looks OK - " + NatToString(count) + " detail" + (if count == 1 then "" else "s") + " available"
  }

  /** The service result `_aggregate_results` computes. */
  function Aggregate(perfdata: seq<Metric>, results: seq<CheckFunctionResult>,
                     worst: (State, State) -> State, markers: State -> string): ServiceCheckResult
  {
    var needsMarker := |results| > 1;
    var summaries := Summaries(results, needsMarker, markers);
    var details := Details(results, needsMarker, markers);
    if details == [] then ItemNotFound
    else
      var summaries' := if summaries == [] then [EverythingOk(|details|)] else summaries;
      Output(WorstState(results, worst).Int(), Strip(Join("\n", [Join(", ", summaries')] + details)), perfdata)
  }

  /** `_aggregate_results`: walks the results once, folding the state and
      collecting summary and details lines. */
  method AggregateResults(perfdata: seq<Metric>, results: seq<CheckFunctionResult>,
                          worst: (State, State) -> State, markers: State -> string)
    returns (r: ServiceCheckResult)
    ensures r == Aggregate(perfdata, results, worst, markers)
  {
    var needsMarker := |results| > 1;
    var summaries: seq<string> := [];
    var details: seq<string> := [];
    var status := OK;
    var i := 0;
    while i < |results|
      invariant 0 <= i <= |results|
      invariant summaries == Summaries(results[..i], needsMarker, markers)
      invariant details == Details(results[..i], needsMarker, markers)
      invariant status == WorstState(results[..i], worst)
    {
      var result := results[i];
      assert results[..i + 1][..i] == results[..i];
      status := worst(status, result.state);
      var stateMarker := if needsMarker then markers(result.state) else "";
      if result.summary != "" {
        summaries := summaries + [AddStateMarker(result.summary, stateMarker)];
      }
      details := details + [AddStateMarker(result.details, stateMarker)];
      i := i + 1;
    }
    assert results[..i] == results;
    if details == [] {
      return ItemNotFound;
    }
    if summaries == [] {
      var count := |details|;
      summaries := summaries + [EverythingOk(count)];
    }
    var allText := [Join(", ", summaries)] + details;
    r := Output(status.Int(), Strip(Join("\n", allText)), perfdata);
  }

  /** Every result contributes exactly one details line, the i-th result's
      details with its marker. */
  lemma {:induction false} DetailsAt(rs: seq<CheckFunctionResult>, needsMarker: bool, markers: State -> string)
    ensures |Details(rs, needsMarker, markers)| == |rs|
    ensures forall i :: 0 <= i < |rs| ==>
      Details(rs, needsMarker, markers)[i] == AddStateMarker(rs[i].details, MarkerFor(needsMarker, markers, rs[i].state))
  {
    if |rs| > 0 {
      DetailsAt(rs[..|rs| - 1], needsMarker, markers);
    }
  }

  /** The marked summaries of `kept`, in order. */
  function MarkedSummaries(kept: seq<CheckFunctionResult>, needsMarker: bool, markers: State -> string): seq<string>
  {
    seq(|kept|, i requires 0 <= i < |kept| => AddStateMarker(kept[i].summary, MarkerFor(needsMarker, markers, kept[i].state)))
  }

  /** Only results with a non-empty summary contribute summary lines: the
      summary lines are the marked summaries of exactly those results. */
  lemma {:induction false} SummariesOfFilter(rs: seq<CheckFunctionResult>, needsMarker: bool, markers: State -> string)
    ensures Summaries(rs, needsMarker, markers)
              == MarkedSummaries(Filter(rs, (r: CheckFunctionResult) => r.summary != ""), needsMarker, markers)
  {
    var keep := (r: CheckFunctionResult) => r.summary != "";
    if |rs| > 0 {
      var init, last := rs[..|rs| - 1], rs[|rs| - 1];
      SummariesOfFilter(init, needsMarker, markers);
      assert rs == init + [last];
      FilterConcat(init, [last], keep);
      var tail := if keep(last) then [last] else [];
      assert Filter([last], keep) == tail by {
        assert Filter([last], keep) == tail + Filter([last][1..], keep);
        assert [last][1..] == [];
      }
      var added := if last.summary != "" then [AddStateMarker(last.summary, MarkerFor(needsMarker, markers, last.state))] else [];
      assert Summaries(rs, needsMarker, markers) == Summaries(init, needsMarker, markers) + added;
      MarkedSummariesConcat(Filter(init, keep), tail, needsMarker, markers);
      assert MarkedSummaries(tail, needsMarker, markers) == added;
    }
  }

  lemma MarkedSummariesConcat(a: seq<CheckFunctionResult>, b: seq<CheckFunctionResult>, needsMarker: bool, markers: State -> string)
    ensures MarkedSummaries(a + b, needsMarker, markers) == MarkedSummaries(a, needsMarker, markers) + MarkedSummaries(b, needsMarker, markers)
  {
  }

  /** The summary list is empty exactly when no result has a summary. */
  lemma {:induction false} SummariesEmpty(rs: seq<CheckFunctionResult>, needsMarker: bool, markers: State -> string)
    ensures Summaries(rs, needsMarker, markers) == [] <==> forall i :: 0 <= i < |rs| ==> rs[i].summary == ""
  {
    if |rs| > 0 {
      SummariesEmpty(rs[..|rs| - 1], needsMarker, markers);
    }
  }

  /** With a single result no marker is added: its summary and details are
      used verbatim, and the state is `worst(OK, state)`. */
  lemma SingleResultVerbatim(perfdata: seq<Metric>, r: CheckFunctionResult,
                             worst: (State, State) -> State, markers: State -> string)
    ensures Details([r], false, markers) == [r.details]
    ensures Summaries([r], false, markers) == (if r.summary != "" then [r.summary] else [])
    ensures Aggregate(perfdata, [r], worst, markers).Output?
    ensures Aggregate(perfdata, [r], worst, markers).state == worst(OK, r.state).Int()
  {
    assert [r][..0] == [];
    assert Details([r], false, markers) == Details([], false, markers) + [AddStateMarker(r.details, "")];
    assert WorstState([r], worst) == worst(WorstState([], worst), r.state);
  }

  /** With several results every details line carries its result's state
      marker. */
  lemma MarkedDetails(rs: seq<CheckFunctionResult>, markers: State -> string)
    requires |rs| > 1
    ensures |Details(rs, true, markers)| == |rs|
    ensures forall i :: 0 <= i < |rs| ==> Contains(Details(rs, true, markers)[i], markers(rs[i].state))
  {
    DetailsAt(rs, true, markers);
  }

  /** An empty result list means the check found no item. */
  lemma AggregateEmpty(perfdata: seq<Metric>, worst: (State, State) -> State, markers: State -> string)
    ensures Aggregate(perfdata, [], worst, markers) == ItemNotFound
  {
  }

  /** Any non-empty result list gives a plain service result with the
      metrics passed through and, when no result has a summary, the
      "Everything looks OK" summary counting all details lines. */
  lemma AggregateNonEmpty(perfdata: seq<Metric>, rs: seq<CheckFunctionResult>,
                          worst: (State, State) -> State, markers: State -> string)
    requires |rs| > 0
    ensures var a := Aggregate(perfdata, rs, worst, markers);
      a.Output? && a.metrics == perfdata && a.state == WorstState(rs, worst).Int()
    ensures (forall i :: 0 <= i < |rs| ==> rs[i].summary == "") ==>
      Aggregate(perfdata, rs, worst, markers).output
        == Strip(Join("\n", [EverythingOk(|rs|)] + Details(rs, |rs| > 1, markers)))
  {
    DetailsAt(rs, |rs| > 1, markers);
    SummariesEmpty(rs, |rs| > 1, markers);
  }

  /** The wording for one details line ("detail") and for two ("details"). */
  lemma EverythingOkWording()
    ensures EverythingOk(1) == "Everything looks OK - 1 detail available"
    ensures EverythingOk(2) == "Everything looks OK - 2 details available"
  {
  }

  /** When `worst` always picks one of its arguments, the service state is
      OK or the state of one of the results. */
  lemma {:induction false} WorstStateIsAResultState(rs: seq<CheckFunctionResult>, worst: (State, State) -> State)
    requires forall a: State, b: State :: worst(a, b) == a || worst(a, b) == b
    ensures WorstState(rs, worst) == OK || exists i :: 0 <= i < |rs| && WorstState(rs, worst) == rs[i].state
  {
    if |rs| > 0 {
      var init := rs[..|rs| - 1];
      WorstStateIsAResultState(init, worst);
      if WorstState(init, worst) != OK && WorstState(rs, worst) != rs[|rs| - 1].state {
        var i :| 0 <= i < |init| && WorstState(init, worst) == init[i].state;
        assert rs[i] == init[i];
      }
    }
  }

  // ---------------------------------------------------------------------
  // _get_clustered_service_node_keys
  // ---------------------------------------------------------------------

  datatype SourceType = HOST | MANAGEMENT

  datatype HostKey = HostKey(hostname: string, sourceType: SourceType)

  /** The nodes of a cluster that a clustered service is assigned to,
      falling back to all nodes when it is assigned to none. */
  function UsedNodes(clusterName: string, serviceDescr: string, clusterNodes: seq<string>,
                     effectiveHost: (string, string) -> string): seq<string>
  {
    var assignedNodes := Filter(clusterNodes, (n: string) => clusterName == effectiveHost(n, serviceDescr));
    if assignedNodes != [] then assignedNodes else clusterNodes
  }

  /** `_get_clustered_service_node_keys`: one host key of the given source
      type per used node, in the order of `clusterNodes`. */
  function ClusteredServiceNodeKeys(clusterName: string, sourceType: SourceType, serviceDescr: string,
                                    clusterNodes: seq<string>, effectiveHost: (string, string) -> string)
    : (r: seq<HostKey>)
    ensures forall k :: k in r ==> k.sourceType == sourceType && k.hostname in clusterNodes
    ensures |r| == 0 <==> |clusterNodes| == 0
    ensures forall n :: n in clusterNodes && clusterName == effectiveHost(n, serviceDescr) ==> HostKey(n, sourceType) in r
    ensures (exists n :: n in clusterNodes && clusterName == effectiveHost(n, serviceDescr)) ==>
      forall k :: k in r ==> clusterName == effectiveHost(k.hostname, serviceDescr)
    ensures (forall n :: n in clusterNodes ==> clusterName != effectiveHost(n, serviceDescr)) ==>
      |r| == |clusterNodes| && forall i :: 0 <= i < |r| ==> r[i].hostname == clusterNodes[i]
  {
    var used := UsedNodes(clusterName, serviceDescr, clusterNodes, effectiveHost);
    var r := seq(|used|, i requires 0 <= i < |used| => HostKey(used[i], sourceType));
    assert forall n :: n in used ==> HostKey(n, sourceType) in r by {
      forall n | n in used ensures HostKey(n, sourceType) in r {
        var i :| 0 <= i < |used| && used[i] == n;
        assert r[i] == HostKey(n, sourceType);
      }
    }
    assert (forall n :: n in clusterNodes ==> clusterName != effectiveHost(n, serviceDescr)) ==> used == clusterNodes by {
      var assignedNodes := Filter(clusterNodes, (n: string) => clusterName == effectiveHost(n, serviceDescr));
      if assignedNodes != [] { assert assignedNodes[0] in assignedNodes; }
    }
    assert |clusterNodes| > 0 ==> |used| > 0 by {
      if |clusterNodes| > 0 && used == [] { assert false; }
    }
    r
  }

  /** The host names of the keys, in order. */
  function Hostnames(keys: seq<HostKey>): seq<string>
  {
    seq(|keys|, i requires 0 <= i < |keys| => keys[i].hostname)
  }

  /** When some node assigns the service to the cluster, the keys name
      exactly the assigned nodes in their order. */
  lemma ClusteredKeysAreAssignedNodes(clusterName: string, sourceType: SourceType, serviceDescr: string,
                                      clusterNodes: seq<string>, effectiveHost: (string, string) -> string)
    requires exists n :: n in clusterNodes && clusterName == effectiveHost(n, serviceDescr)
    ensures Hostnames(ClusteredServiceNodeKeys(clusterName, sourceType, serviceDescr, clusterNodes, effectiveHost))
      == Filter(clusterNodes, (n: string) => clusterName == effectiveHost(n, serviceDescr))
  {
    var assignedNodes := Filter(clusterNodes, (n: string) => clusterName == effectiveHost(n, serviceDescr));
    var n :| n in clusterNodes && clusterName == effectiveHost(n, serviceDescr);
    assert n in assignedNodes;
  }

  // ---------------------------------------------------------------------
  // service_outside_check_period, get_aggregated_result, check_host_services
  // ---------------------------------------------------------------------

  /** A service is skipped only when it has a check period that is not
      active now. */
  function ServiceOutsideCheckPeriod(description: string, period: Option<string>,
                                     periodActive: string -> bool): (r: bool)
    ensures period.None? ==> !r
    ensures period.Some? ==> (r <==> !periodActive(period.value))
  {
    if period.None? then false
    else if periodActive(period.value) then false
    else true
  }

  /** A configured service: the name of its check plugin, its description
      and its item. */
  datatype ConfiguredService = ConfiguredService(checkPluginName: string, description: string, item: Option<string>)

  datatype AggregatedResult = AggregatedResult(
    service: ConfiguredService,
    submit: bool,
    dataReceived: bool,
    result: ServiceCheckResult,
    cacheInfo: Option<(int, int)>)

  /** What calling the check function came to: its metrics and results,
      an `IgnoreResultsError` with its message, an `MKTimeout`, or any other
      exception together with the crash report text made for it. */
  datatype CheckOutcome =
    | Returned(metrics: seq<Metric>, results: seq<CheckFunctionResult>)
    | IgnoreResults(message: string)
    | Timeout
    | Crashed(crashReport: string)

  /** The exceptions that leave `get_aggregated_result` instead of becoming
      a result. */
  datatype Raised = TimeoutRaised | CrashRaised

  /** `get_aggregated_result`, given whether any section data was found for
      the service, what its check function call came to, whether debug mode
      is on and the cache info of the sections used. */
  function GetAggregatedResult(
    hostName: string, isCluster: bool, clusterNodes: seq<string>,
    effectiveHost: (string, string) -> string,
    service: ConfiguredService, dataFound: bool, outcome: CheckOutcome, debug: bool,
    cacheInfo: Option<(int, int)>, worst: (State, State) -> State, markers: State -> string)
    : (r: Result<AggregatedResult, Raised>)
    ensures r.Ok? ==> r.value.service == service
    ensures r.Ok? ==> (r.value.dataReceived <==> dataFound)
    ensures r.Err? <==> dataFound && (outcome.Timeout? || (outcome.Crashed? && debug))
    ensures r.Ok? ==> (r.value.submit <==> dataFound && !outcome.IgnoreResults?)
    ensures !dataFound ==> r.Ok? && r.value.result == (if isCluster then ClusterReceivedNoData(
      Hostnames(ClusteredServiceNodeKeys(hostName, HOST, service.description, clusterNodes, effectiveHost)))
      else ReceivedNoData)
    ensures !dataFound ==> r.Ok? && r.value.cacheInfo == None
    ensures dataFound && outcome.Returned? ==>
      r == Ok(AggregatedResult(service, true, true, Aggregate(outcome.metrics, outcome.results, worst, markers), cacheInfo))
    ensures dataFound && outcome.IgnoreResults? ==>
      r == Ok(AggregatedResult(service, false, true,
        Output(0, if outcome.message != "" then outcome.message else "No service summary available", []), None))
    ensures dataFound && outcome.Crashed? && !debug ==>
      r == Ok(AggregatedResult(service, true, true, Output(3, outcome.crashReport, []), cacheInfo))
  {
    if !dataFound then
      // the source type does not change the host names of the node keys
      var errorResult := if isCluster
        then ClusterReceivedNoData(Hostnames(ClusteredServiceNodeKeys(hostName, HOST, service.description, clusterNodes, effectiveHost)))
        else ReceivedNoData;
      Ok(AggregatedResult(service, false, false, errorResult, None))
    else
      match outcome
      case Returned(metrics, results) =>
        Ok(AggregatedResult(service, true, true, Aggregate(metrics, results, worst, markers), cacheInfo))
      case IgnoreResults(message) =>
        var msg := if message != "" then message else "No service summary available";
        Ok(AggregatedResult(service, false, true, Output(0, msg, []), None))
      case Timeout => Err(TimeoutRaised)
      case Crashed(report) =>
        if debug then Err(CrashRaised)
        else Ok(AggregatedResult(service, true, true, Output(3, report, []), cacheInfo))
  }

  /** Which check plugins to run: all of them, or the named ones. */
  datatype PluginSelection = Everything | Only(names: set<string>)

  predicate RunsPlugin(run: PluginSelection, name: string)
  {
    run.Everything? || name in run.names
  }

  /** The host being checked and the collaborators `check_host_services`
      consults for each service: which plugins are to run and which exist,
      the services' check periods and the time-period oracle, the section
      data found for a service, the outcome of its check function and the
      cache info of its sections. */
  datatype Host = Host(
    hostName: string,
    isCluster: bool,
    clusterNodes: seq<string>,
    effectiveHost: (string, string) -> string,
    runPluginNames: PluginSelection,
    checkPlugins: set<string>,
    checkPeriod: string -> Option<string>,
    periodActive: string -> bool,
    dataFound: ConfiguredService -> bool,
    outcome: ConfiguredService -> CheckOutcome,
    cacheInfo: ConfiguredService -> Option<(int, int)>,
    debug: bool,
    worst: (State, State) -> State,
    markers: State -> string)

  /** The service filter of `check_host_services`. */
  predicate IsChecked(h: Host, s: ConfiguredService)
  {
    RunsPlugin(h.runPluginNames, s.checkPluginName)
      && !ServiceOutsideCheckPeriod(s.description, h.checkPeriod(s.description), h.periodActive)
  }

  /** The result `check_host_services` makes for one checked service. */
  function ServiceResult(h: Host, s: ConfiguredService): Result<AggregatedResult, Raised>
  {
    if s.checkPluginName !in h.checkPlugins then
      Ok(AggregatedResult(s, true, true, CheckNotImplemented, None))
    else
      GetAggregatedResult(h.hostName, h.isCluster, h.clusterNodes, h.effectiveHost, s,
        h.dataFound(s), h.outcome(s), h.debug, h.cacheInfo(s), h.worst, h.markers)
  }

  /** The results for `services` in order, or the first exception raised. */
  function HostServices(h: Host, services: seq<ConfiguredService>): Result<seq<AggregatedResult>, Raised>
  {
    if |services| == 0 then Ok([])
    else
      var init := HostServices(h, services[..|services| - 1]);
      var s := services[|services| - 1];
      if init.Err? then init
      else if !IsChecked(h, s) then init
      else
        match ServiceResult(h, s)
        case Err(e) => Err(e)
        case Ok(a) => Ok(init.value + [a])
  }

  /** `check_host_services`: the loop over the services that appends one
      result per checked service. */
  method CheckHostServices(h: Host, services: seq<ConfiguredService>)
    returns (r: Result<seq<AggregatedResult>, Raised>)
    ensures r == HostServices(h, services)
  {
    var submittables: seq<AggregatedResult> := [];
    var i := 0;
    while i < |services|
      invariant 0 <= i <= |services|
      invariant HostServices(h, services[..i]) == Ok(submittables)
    {
      var service := services[i];
      assert services[..i + 1][..i] == services[..i];
      if IsChecked(h, service) {
        var submittable;
        if service.checkPluginName !in h.checkPlugins {
          submittable := AggregatedResult(service, true, true, CheckNotImplemented, None);
        } else {
          var outcome := GetAggregatedResult(h.hostName, h.isCluster, h.clusterNodes, h.effectiveHost,
            service, h.dataFound(service), h.outcome(service), h.debug, h.cacheInfo(service), h.worst, h.markers);
          if outcome.Err? {
            ErrSticks(h, services, i + 1);
            return Err(outcome.error);
          }
          submittable := outcome.value;
        }
        submittables := submittables + [submittable];
      }
      i := i + 1;
    }
    assert services[..i] == services;
    r := Ok(submittables);
  }

  /** Once an exception is raised, the remaining services do not matter. */
  lemma {:induction false} ErrSticks(h: Host, services: seq<ConfiguredService>, k: nat)
    requires k <= |services| && HostServices(h, services[..k]).Err?
    ensures HostServices(h, services) == HostServices(h, services[..k])
    decreases |services| - k
  {
    if k < |services| {
      assert services[..k + 1][..k] == services[..k];
      ErrSticks(h, services, k + 1);
    } else {
      assert services[..k] == services;
    }
  }

  /** Exactly the checked services get a result, in their order, each
      result naming its own service. */
  lemma {:induction false} HostServicesAreCheckedOnes(h: Host, services: seq<ConfiguredService>)
    requires HostServices(h, services).Ok?
    ensures var rs := HostServices(h, services).value;
      var checked := Filter(services, (s: ConfiguredService) => IsChecked(h, s));
      |rs| == |checked| && forall i :: 0 <= i < |rs| ==> rs[i].service == checked[i]
  {
    var keep := (s: ConfiguredService) => IsChecked(h, s);
    if |services| > 0 {
      var init, last := services[..|services| - 1], services[|services| - 1];
      HostServicesAreCheckedOnes(h, init);
      assert services == init + [last];
      FilterConcat(init, [last], keep);
      assert Filter([last], keep) == (if keep(last) then [last] else []) + Filter([last][1..], keep);
    }
  }

  /** A service whose plugin does not exist is submitted as "not
      implemented" with data received; a service without data is not
      submitted; a check that asks to ignore its results is not submitted
      but counts as having received data. */
  lemma ServiceResultFlags(h: Host, s: ConfiguredService)
    ensures s.checkPluginName !in h.checkPlugins ==>
      ServiceResult(h, s) == Ok(AggregatedResult(s, true, true, CheckNotImplemented, None))
    ensures s.checkPluginName in h.checkPlugins && !h.dataFound(s) ==>
      ServiceResult(h, s).Ok? && !ServiceResult(h, s).value.submit && !ServiceResult(h, s).value.dataReceived
    ensures s.checkPluginName in h.checkPlugins && h.dataFound(s) && h.outcome(s).IgnoreResults? ==>
      ServiceResult(h, s).Ok? && !ServiceResult(h, s).value.submit && ServiceResult(h, s).value.dataReceived
  {
  }

  // ---------------------------------------------------------------------
  // _check_plugins_missing_data
  // ---------------------------------------------------------------------

  /** The parts of the exit spec read here: `missing_sections` (default 1)
      and `specific_missing_sections` (default empty), a list of
      (pattern, state) pairs. */
  datatype ExitSpec = ExitSpec(missingSections: Option<int>, specificMissingSections: Option<seq<(string, int)>>)

  datatype ActiveCheckResult = ActiveCheckResult(state: int, summary: string)

  function MissingStatus(e: ExitSpec): int
  {
    if e.missingSections.Some? then e.missingSections.value else 1
  }

  function SpecificSpec(e: ExitSpec): seq<(string, int)>
  {
    if e.specificMissingSections.Some? then e.specificMissingSections.value else []
  }

  /** The state of the first pattern matching the plugin name, if any. */
  function Classify(name: string, spec: seq<(string, int)>, matches: (string, string) -> bool): (r: Option<int>)
    ensures r.Some? <==> exists k :: 0 <= k < |spec| && matches(spec[k].0, name)
    ensures r.Some? ==> exists k :: 0 <= k < |spec| && matches(spec[k].0, name) && r.value == spec[k].1 &&
                                    forall j :: 0 <= j < k ==> !matches(spec[j].0, name)
  {
    if |spec| == 0 then None
    else if matches(spec[0].0, name) then Some(spec[0].1)
    else
      var r := Classify(name, spec[1..], matches);
      assert forall k :: 1 <= k < |spec| ==> spec[k] == spec[1..][k - 1];
      r
  }

  /** The order `sorted` uses on (plugin name, state) pairs. */
  function PairLt(a: (string, int), b: (string, int)): bool
  {
    StrLt(a.0, b.0) || (a.0 == b.0 && a.1 < b.1)
  }

  lemma PairLtOrder()
    ensures StrictOrder(PairLt) && Total(PairLt)
  {
    StrLtOrder();
    forall a: (string, int), b: (string, int), c: (string, int) | PairLt(a, b) && PairLt(b, c)
      ensures PairLt(a, c)
    {
      if StrLt(a.0, b.0) && StrLt(b.0, c.0) { StrLtTransitive(a.0, b.0, c.0); }
    }
    forall a: (string, int) ensures !PairLt(a, a) { StrLtIrreflexive(a.0); }
    forall a: (string, int), b: (string, int) | a != b ensures PairLt(a, b) || PairLt(b, a) {
      if a.0 != b.0 { StrLtTotal(a.0, b.0); }
    }
  }

  /** The names of the plugins of services that received no data. */
  function PluginsMissingData(results: seq<AggregatedResult>): set<string>
  {
    set i | 0 <= i < |results| && !results[i].dataReceived :: results[i].service.checkPluginName
  }

  /** The plugins matching no pattern. */
  function GenericPlugins(names: set<string>, spec: seq<(string, int)>, matches: (string, string) -> bool): set<string>
  {
    set n | n in names && Classify(n, spec, matches).None?
  }

  /** The plugins matching a pattern, with the state of the first match. */
  function SpecificPlugins(names: set<string>, spec: seq<(string, int)>, matches: (string, string) -> bool)
    : set<(string, int)>
  {
    set n | n in names && Classify(n, spec, matches).Some? :: (n, Classify(n, spec, matches).value)
  }

  function SpecificResults(sp: seq<(string, int)>): seq<ActiveCheckResult>
  {
    seq(|sp|, i requires 0 <= i < |sp| => ActiveCheckResult(sp[i].1, sp[i].0))
  }

  /** What `_check_plugins_missing_data` yields. */
  ghost function MissingData(results: seq<AggregatedResult>, e: ExitSpec, matches: (string, string) -> bool)
    : seq<ActiveCheckResult>
  {
    if forall i :: 0 <= i < |results| ==> results[i].dataReceived then []
    else if forall i :: 0 <= i < |results| ==> !results[i].dataReceived then
      [ActiveCheckResult(MissingStatus(e), "Missing monitoring data for all plugins")]
    else MixedData(PluginsMissingData(results), e, matches)
  }

  /** The results when some plugins sent data and the plugins `names` did
      not: one line for the generic ones, then one per specific one. */
  ghost function MixedData(names: set<string>, e: ExitSpec, matches: (string, string) -> bool): seq<ActiveCheckResult>
  {
    StrLtOrder();
    PairLtOrder();
    var generic := SortedSet(StrLt, GenericPlugins(names, SpecificSpec(e), matches));
    var specific := SortedSet(PairLt, SpecificPlugins(names, SpecificSpec(e), matches));
    [ActiveCheckResult(MissingStatus(e), "Missing monitoring data for plugins: " + Join(", ", generic))]
      + SpecificResults(specific)
  }

  /** `_check_plugins_missing_data`: classifies each plugin without data by
      the first matching pattern, then reports the generic ones together and
      the specific ones one by one, each group sorted. */
  method CheckPluginsMissingData(results: seq<AggregatedResult>, e: ExitSpec, matches: (string, string) -> bool)
    returns (out: seq<ActiveCheckResult>)
    ensures out == MissingData(results, e, matches)
  {
    var missingStatus := MissingStatus(e);
    var spec := SpecificSpec(e);

    if forall i :: 0 <= i < |results| ==> results[i].dataReceived {
      return [];
    }
    if forall i :: 0 <= i < |results| ==> !results[i].dataReceived {
      return [ActiveCheckResult(missingStatus, "Missing monitoring data for all plugins")];
    }

    var pluginsMissingData := PluginsMissingData(results);
    var genericPlugins, specificPlugins := ClassifyPlugins(pluginsMissingData, spec, matches);

    StrLtOrder();
    PairLtOrder();
    var genericSorted := SortSet(StrLt, genericPlugins);
    var specificSorted := SortSet(PairLt, specificPlugins);
    var pluginList := Join(", ", genericSorted);
    out := [ActiveCheckResult(missingStatus, "Missing monitoring data for plugins: " + pluginList)]
      + SpecificResults(specificSorted);
    MixedDataForm(pluginsMissingData, e, matches);
  }

  /** The classification loop of `_check_plugins_missing_data`: each name
      goes to the specific group with the state of the first pattern that
      matches it, or to the generic group when none does. */
  method ClassifyPlugins(names: set<string>, spec: seq<(string, int)>, matches: (string, string) -> bool)
    returns (genericPlugins: set<string>, specificPlugins: set<(string, int)>)
    ensures genericPlugins == GenericPlugins(names, spec, matches)
    ensures specificPlugins == SpecificPlugins(names, spec, matches)
  {
    specificPlugins := {};
    genericPlugins := {};
    var remaining := names;
    while remaining != {}
      invariant remaining <= names
      invariant genericPlugins == GenericPlugins(names - remaining, spec, matches)
      invariant specificPlugins == SpecificPlugins(names - remaining, spec, matches)
      decreases |remaining|
    {
      var name :| name in remaining;
      var done := names - remaining;
      var j := 0;
      var hit: Option<int> := None;
      while j < |spec|
        invariant 0 <= j <= |spec|
        invariant hit.None? ==> Classify(name, spec, matches) == Classify(name, spec[j..], matches)
        invariant hit.Some? ==> hit == Classify(name, spec, matches)
        invariant specificPlugins == SpecificPlugins(done, spec, matches)
                                     + (if hit.Some? then {(name, hit.value)} else {})
      {
        var (pattern, status) := spec[j];
        if matches(pattern, name) {
          specificPlugins := specificPlugins + {(name, status)};
          hit := Some(status);
          break;
        }
        assert spec[j..][1..] == spec[j + 1..];
        j := j + 1;
      }
      if hit.None? {
        genericPlugins := genericPlugins + {name};
      }
      assert names - (remaining - {name}) == done + {name};
      ClassifiedSets(done, name, spec, matches);
      remaining := remaining - {name};
    }
    assert names - remaining == names;
  }

  /** Adding one name to the classified names adds it to exactly one of the
      two groups. */
  lemma ClassifiedSets(done: set<string>, name: string, spec: seq<(string, int)>, matches: (string, string) -> bool)
    ensures Classify(name, spec, matches).None? ==>
      GenericPlugins(done + {name}, spec, matches) == GenericPlugins(done, spec, matches) + {name}
      && SpecificPlugins(done + {name}, spec, matches) == SpecificPlugins(done, spec, matches)
    ensures Classify(name, spec, matches).Some? ==>
      GenericPlugins(done + {name}, spec, matches) == GenericPlugins(done, spec, matches)
      && SpecificPlugins(done + {name}, spec, matches)
        == SpecificPlugins(done, spec, matches) + {(name, Classify(name, spec, matches).value)}
  {
  }

  /** Nothing is reported when every service received data, including when
      there are no services. */
  lemma MissingDataAllReceived(results: seq<AggregatedResult>, e: ExitSpec, matches: (string, string) -> bool)
    requires forall i :: 0 <= i < |results| ==> results[i].dataReceived
    ensures MissingData(results, e, matches) == []
  {
  }

  /** One "all plugins" result with the `missing_sections` state is reported
      when no service received data. */
  lemma MissingDataNoneReceived(results: seq<AggregatedResult>, e: ExitSpec, matches: (string, string) -> bool)
    requires |results| > 0
    requires forall i :: 0 <= i < |results| ==> !results[i].dataReceived
    ensures MissingData(results, e, matches)
      == [ActiveCheckResult(MissingStatus(e), "Missing monitoring data for all plugins")]
  {
    assert !results[0].dataReceived;
  }

  /** In the mixed case the first result lists the generic plugins (possibly
      none) sorted by name with the `missing_sections` state, followed by one
      result per specific plugin with its pattern's state, sorted by name
      and state. */
  lemma MissingDataMixed(results: seq<AggregatedResult>, e: ExitSpec, matches: (string, string) -> bool)
    requires exists i :: 0 <= i < |results| && results[i].dataReceived
    requires exists i :: 0 <= i < |results| && !results[i].dataReceived
    ensures var out := MissingData(results, e, matches);
      var names := PluginsMissingData(results);
      var specific := SpecificPlugins(names, SpecificSpec(e), matches);
      |out| == 1 + |specific|
      && out[0].state == MissingStatus(e)
      && (forall k :: 1 <= k < |out| ==> (out[k].summary, out[k].state) in specific)
      && (forall k, l :: 1 <= k < l < |out| ==> PairLt((out[k].summary, out[k].state), (out[l].summary, out[l].state)))
    ensures var names := PluginsMissingData(results);
      StrictOrder(StrLt) && Total(StrLt) &&
      MissingData(results, e, matches)[0].summary == "Missing monitoring data for plugins: "
        + Join(", ", SortedSet(StrLt, GenericPlugins(names, SpecificSpec(e), matches)))
  {
    var names := PluginsMissingData(results);
    StrLtOrder();
    PairLtOrder();
    var spSet := SpecificPlugins(names, SpecificSpec(e), matches);
    var sp := SortedSet(PairLt, spSet);
    var i0 :| 0 <= i0 < |results| && results[i0].dataReceived;
    var i1 :| 0 <= i1 < |results| && !results[i1].dataReceived;
    MixedForm(results, e, matches, i0, i1);
    MixedDataForm(names, e, matches);
    MixedSpecific(sp, spSet);
  }

  /** With some plugins with and some without data, the result is the
      generic line followed by the specific ones. */
  lemma MixedForm(results: seq<AggregatedResult>, e: ExitSpec, matches: (string, string) -> bool, withData: nat, withoutData: nat)
    requires withData < |results| && results[withData].dataReceived
    requires withoutData < |results| && !results[withoutData].dataReceived
    ensures MissingData(results, e, matches) == MixedData(PluginsMissingData(results), e, matches)
  {
  }

  lemma MixedDataForm(names: set<string>, e: ExitSpec, matches: (string, string) -> bool)
    ensures StrictOrder(StrLt) && Total(StrLt) && StrictOrder(PairLt) && Total(PairLt)
    ensures MixedData(names, e, matches) ==
      [ActiveCheckResult(MissingStatus(e), "Missing monitoring data for plugins: "
         + Join(", ", SortedSet(StrLt, GenericPlugins(names, SpecificSpec(e), matches))))]
      + SpecificResults(SortedSet(PairLt, SpecificPlugins(names, SpecificSpec(e), matches)))
  {
    StrLtOrder();
    PairLtOrder();
  }

  /** The specific results list the sorted pairs, one each. */
  lemma MixedSpecific(sp: seq<(string, int)>, spSet: set<(string, int)>)
    requires StrictOrder(PairLt) && Total(PairLt)
    requires sp == SortedSet(PairLt, spSet)
    ensures |SpecificResults(sp)| == |spSet|
    ensures forall k :: 0 <= k < |sp| ==> (SpecificResults(sp)[k].summary, SpecificResults(sp)[k].state) in spSet
    ensures forall k, l :: 0 <= k < l < |sp| ==>
      PairLt((SpecificResults(sp)[k].summary, SpecificResults(sp)[k].state), (SpecificResults(sp)[l].summary, SpecificResults(sp)[l].state))
  {
    StrictNoDup(PairLt, sp);
    NoDupCard(sp, spSet);
  }

  /** Every plugin without data is in exactly one of the two groups. */
  lemma MissingPluginsPartition(names: set<string>, spec: seq<(string, int)>, matches: (string, string) -> bool, n: string)
    requires n in names
    ensures n in GenericPlugins(names, spec, matches) <==>
            forall st :: (n, st) !in SpecificPlugins(names, spec, matches)
  {
    if n !in GenericPlugins(names, spec, matches) {
      assert (n, Classify(n, spec, matches).value) in SpecificPlugins(names, spec, matches);
    }
  }

  lemma StrictNoDup<T(!new)>(lt: (T, T) -> bool, s: seq<T>)
    requires Irreflexive(lt) && StrictlySorted(lt, s)
    ensures NoDup(s)
  {
  }

  /** A duplicate-free list has as many elements as the set it enumerates. */
  lemma {:induction false} NoDupCard<T(!new)>(s: seq<T>, t: set<T>)
    requires NoDup(s) && forall x :: x in s <==> x in t
    ensures |s| == |t|
  {
    if |s| > 0 {
      var rest := s[1..];
      assert NoDup(rest) by {
        forall i, j | 0 <= i < j < |rest| ensures rest[i] != rest[j] {
          assert rest[i] == s[i + 1] && rest[j] == s[j + 1];
        }
      }
      assert s[0] !in rest;
      forall x ensures x in rest <==> x in t - {s[0]} {
        if x in rest { var k :| 0 <= k < |rest| && rest[k] == x; assert s[k + 1] == x; }
        if x in t - {s[0]} { var k :| 0 <= k < |s| && s[k] == x; assert k != 0; assert rest[k - 1] == x; }
      }
      NoDupCard(rest, t - {s[0]});
    } else {
      assert forall x :: x !in t;
      assert t == {};
    }
  }
}
