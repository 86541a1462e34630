# Checkmk core pieces in Dafny

This project models six self-contained pieces of Checkmk and proves properties about them.

- **Checking** (`checking.dfy`, over `check_api.dfy`) covers how the checks of one host are carried out:
  - `_aggregate_results` folds a check function's results into one service state and output text;
  - `_add_state_marker`;
  - the outcome branches of `get_aggregated_result`, which decide what is submitted and what counts as data received;
  - the service filter of `check_host_services`;
  - `service_outside_check_period`;
  - `_get_clustered_service_node_keys`;
  - `_check_plugins_missing_data`, which sorts the plugins that received no data into generic and specific results.

  `State.worst`, the `state_markers` table, the pattern matcher, the time-period oracle and the outcome of a check function call are parameters.
- **Selection** (`selection.dfy`) models the row selection of the GUI's tables as a `Page` class. The class holds the selected row names together with the texts of the row-info element and the menu label. Checkboxes are `Checkbox` objects with a name, a failed flag and a checked flag. The page methods toggle, bulk-select, bulk-deselect and initialise the selection, and they find the row range of a group.
- **GraylogFailures** (`graylog.dfy`) covers the Graylog index failures check:
  - the failure record and its message, which is either structured or plain;
  - the human-readable rendering;
  - discovery;
  - the summary and notice of `_failure_results`;
  - the early exits of `check`.
- **EventConsole** (`event_console.dfy`) models the Event Console's event table as a class that maps IDs to events and holds the next ID. Around it are a parser for status-socket command lines and the `DELETE` and `DELETE_EVENTS_OF_HOST` commands.
- **ItemState** (`item_state.dfy`) models `get_rate` over the keyed item-state store: its three error conditions, the `onwrap` modes and `allow_negative`.
- **KubeAgent** (`agent_kube.dfy`) covers the Kubernetes special agent's container resource aggregation, the pod filters, `pod_name` and the grouping of pods by phase.

The shared modules are support code: `wrappers.dfy` (Option and Result), `strings.dfy` (join, split, decimal digits, strip, string order) and `collections.dfy` (filter, insertion sort, the sorted sequence of a set).

Where a behaviour is visible only through its test, the model states what the test asserts. The test's cases are proved as lemmas about the general definition. This applies to the Event Console, `get_rate` and the Kubernetes agent.

## Model

| member | source | states |
|---|---|---|
| Checking.AddStateMarker | cmk/base/agent_based/checking/_checking.py:582-586 | the result always contains the marker; it is the input unchanged when the marker already occurs, and input plus marker otherwise |
| Checking.AddStateMarkerIdempotent | cmk/base/agent_based/checking/_checking.py:582-586 | adding the same marker twice gives the same text as adding it once |
| Checking.AggregateResults | cmk/base/agent_based/checking/_checking.py:589-626 | the loop that folds state, summaries and details computes exactly the aggregate service result `Aggregate` |
| Checking.DetailsAt | cmk/base/agent_based/checking/_checking.py:598-614 | every result contributes exactly one details line: its details, with its marker added when markers are used |
| Checking.SummariesOfFilter | cmk/base/agent_based/checking/_checking.py:598-614 | the summaries are exactly the marked summaries of the results whose summary is non-empty, in order |
| Checking.MarkedSummariesConcat | cmk/base/agent_based/checking/_checking.py:598-614 | marking summaries distributes over concatenation of the result list |
| Checking.SummariesEmpty | cmk/base/agent_based/checking/_checking.py:598-614 | there are no summary lines if and only if every result's summary is empty |
| Checking.SingleResultVerbatim | cmk/base/agent_based/checking/_checking.py:595-601 | with a single result, summary and details are taken verbatim without markers, and the state is worst(OK, its state) |
| Checking.MarkedDetails | cmk/base/agent_based/checking/_checking.py:595-614 | with more than one result, every details line contains the marker of its result's state |
| Checking.AggregateEmpty | cmk/base/agent_based/checking/_checking.py:616-618 | no results give `item_not_found` |
| Checking.AggregateNonEmpty | cmk/base/agent_based/checking/_checking.py:598-626 | any non-empty list gives a plain result with the fold of worst over the states and the metrics passed through; without summaries the output is the stripped "Everything looks OK" line followed by all details |
| Checking.EverythingOkWording | cmk/base/agent_based/checking/_checking.py:620-622 | "detail" is singular for one details line and plural for two |
| Checking.WorstStateIsAResultState | cmk/base/agent_based/checking/_checking.py:598-604 | when worst picks one of its arguments, the aggregate state is OK or the state of some result |
| Checking.ClusteredServiceNodeKeys | cmk/base/agent_based/checking/_checking.py:500-515 | keys carry the given source type and name cluster nodes; every node assigned to the cluster is kept; when some node is assigned only assigned nodes are kept; when none is, all nodes are kept in order; the result is empty exactly for no nodes |
| Checking.ClusteredKeysAreAssignedNodes | cmk/base/agent_based/checking/_checking.py:509-515 | when some node is assigned to the cluster, the key host names are exactly the assigned nodes in node order |
| Checking.ServiceOutsideCheckPeriod | cmk/base/agent_based/checking/_checking.py:352-359 | a service is outside its check period exactly when it has a period and that period is not active |
| Checking.GetAggregatedResult | cmk/base/agent_based/checking/_checking.py:382-497 | the result keeps the service; data received iff section data was found; a timeout, or a crash in debug mode, raises only when data was found; submitted iff data was found and results were not ignored; with data, a returned outcome gives the aggregate of its metrics and results with the cache info, ignored results give state OK with the outcome's message or "No service summary available" and no cache info, and a crash outside debug mode gives state UNKNOWN with the crash report and the cache info; without data the result has no cache info and is received-no-data or, for a cluster, cluster-received-no-data over the used nodes of `_get_clustered_service_node_keys` (lines 539-563) |
| Checking.CheckHostServices | cmk/base/agent_based/checking/_checking.py:286-349 | the loop over the services computes `HostServices`: one result per checked service in order, or the first exception raised |
| Checking.ErrSticks | cmk/base/agent_based/checking/_checking.py:286-349 | once a service raises, the outcome for the whole list is that exception |
| Checking.HostServicesAreCheckedOnes | cmk/base/agent_based/checking/_checking.py:312-317 | the results are exactly those of the services that pass the plugin and check-period filter, in order |
| Checking.ServiceResultFlags | cmk/base/agent_based/checking/_checking.py:318-325 | a missing plugin gives a submitted not-implemented result; a service without data is neither submitted nor has data; ignored results are not submitted but have data |
| Checking.Classify | cmk/base/agent_based/checking/_checking.py:267-274 | a plugin is specific iff some pattern matches, and then it gets the status of the first matching pattern |
| Checking.PairLtOrder | cmk/base/agent_based/checking/_checking.py:281-283 | the order used to sort (plugin, status) pairs is a strict total order |
| Checking.CheckPluginsMissingData | cmk/base/agent_based/checking/_checking.py:239-283 | the method computes the missing-data results `MissingData` |
| Checking.ClassifyPlugins | cmk/base/agent_based/checking/_checking.py:266-274 | the nested loop fills the generic and specific sets exactly as classification by first match defines them |
| Checking.ClassifiedSets | cmk/base/agent_based/checking/_checking.py:267-274 | one classification step adds the plugin to the generic set when no pattern matches, and otherwise adds its (name, status) pair to the specific set |
| Checking.MissingDataAllReceived | cmk/base/agent_based/checking/_checking.py:252-253 | nothing is reported when every service received data, including no services |
| Checking.MissingDataNoneReceived | cmk/base/agent_based/checking/_checking.py:249-260 | when no service received data, exactly one "Missing monitoring data for all plugins" result with the missing-sections status is reported |
| Checking.MissingDataMixed | cmk/base/agent_based/checking/_checking.py:262-283 | in the mixed case, the first result lists the sorted generic plugins (possibly none); it is followed by one result per specific pair, each a pair of the specific set, in strictly ascending order and covering the set |
| Checking.MixedForm | cmk/base/agent_based/checking/_checking.py:262-283 | with a service that has data and one that has none, the missing-data results take the mixed form |
| Checking.MixedDataForm | cmk/base/agent_based/checking/_checking.py:276-283 | the mixed form is the generic result over the sorted generic names followed by the sorted specific results |
| Checking.MixedSpecific | cmk/base/agent_based/checking/_checking.py:281-283 | the specific results are as many as the specific pairs, each one of them, in strictly ascending order |
| Checking.MissingPluginsPartition | cmk/base/agent_based/checking/_checking.py:262-274 | every plugin without data is generic if and only if no pattern matches it |
| Selection.Checkbox.constructor | web/htdocs/js/modules/selection.ts:77-101 | a checkbox with the given name, failed class and checked state |
| Selection.RemoveFirst | web/htdocs/js/modules/selection.ts:107-112 | splicing out a present name removes one occurrence; an absent name leaves the list unchanged |
| Selection.RemoveFirstNoDup | web/htdocs/js/modules/selection.ts:107-112 | removing from a duplicate-free list keeps it duplicate-free and removes exactly that name |
| Selection.ToggleMembership | web/htdocs/js/modules/selection.ts:104-116 | toggling keeps the list duplicate-free, flips the toggled name's membership and leaves every other name alone |
| Selection.AppendAbsentNoDup | web/htdocs/js/modules/selection.ts:107-112 | appending an absent name keeps the list duplicate-free |
| Selection.ToggleTwice | web/htdocs/js/modules/selection.ts:104-116 | toggling an absent name twice restores the list exactly |
| Selection.AppendedRemoved | web/htdocs/js/modules/selection.ts:216-227 | removing a just-appended absent name gives back the original list |
| Selection.AddNamesContents | web/htdocs/js/modules/selection.ts:336-339 | bulk-adding keeps the list duplicate-free, contains the old and the added names and nothing else, and extends the old list |
| Selection.RemoveNamesContents | web/htdocs/js/modules/selection.ts:316-324 | bulk-removing keeps the list duplicate-free and leaves exactly the old names not removed |
| Selection.RowInfoText | web/htdocs/js/modules/selection.ts:254-267 | the new row-info text starts with the count followed by "/" |
| Selection.SplitAtSlash | web/htdocs/js/modules/selection.ts:254-267 | a rewritten row-info text has at least two "/"-separated parts |
| Selection.RowInfoRest | web/htdocs/js/modules/selection.ts:254-267 | the part kept after the count's slash has no slash, so a later update finds it again as the second part |
| Selection.RowInfoIdempotent | web/htdocs/js/modules/selection.ts:254-267 | repeating the update with the same count does not change the text, whatever the original text |
| Selection.RowInfoRecount | web/htdocs/js/modules/selection.ts:254-267 | updating with one count and then another gives the same text as updating directly with the second, whatever the original text |
| Selection.NamesStep | web/htdocs/js/modules/selection.ts:316-324 | the names of one more checkbox are the earlier names plus its name |
| Selection.RemoveNamesStep | web/htdocs/js/modules/selection.ts:316-324 | bulk removal is removal of one name after another |
| Selection.AddNamesStep | web/htdocs/js/modules/selection.ts:328-341 | bulk addition is addition of one absent name after another |
| Selection.SelectedNamesContents | web/htdocs/js/modules/selection.ts:328-341 | the names selected are exactly those of the given checkboxes, restricted to failed ones when only failed are asked for |
| Selection.SelectedNamesStep | web/htdocs/js/modules/selection.ts:328-341 | one more checkbox adds its name exactly when it is selected |
| Selection.ToggleAllEmpty | web/htdocs/js/modules/selection.ts:281-313 | the deselect branch is taken vacuously for no checkboxes and leaves the selection unchanged |
| Selection.ToggledAllContents | web/htdocs/js/modules/selection.ts:281-313 | toggling all keeps the list duplicate-free; when all are selected, none is afterwards; otherwise the selected, or only-failed, names are added and no name is lost |
| Selection.GroupRangeUnique | web/htdocs/js/modules/selection.ts:355-387 | a row's group range is unique |
| Selection.HeaderRowGroupStartsAfterIt | web/htdocs/js/modules/selection.ts:359-368 | for a checkbox in a group header row, the group starts right after that row |
| Selection.GroupRange | web/htdocs/js/modules/selection.ts:355-387 | the index scans compute the half-open range after the last group header at or before the row (or 0) up to the next header (or the row count) |
| Selection.GroupBoxesInRows | web/htdocs/js/modules/selection.ts:382-388 | the checkboxes gathered for a group are checkboxes of the table's rows |
| Selection.Page.constructor | web/htdocs/js/modules/selection.ts:36-37 | a page with the given selection, row-info text and menu label |
| Selection.Page.UpdateRowSelectionInformation | web/htdocs/js/modules/selection.ts:254-267 | the row-info text is rewritten with the current count; selection and label are unchanged |
| Selection.Page.TableInitRowselect | web/htdocs/js/modules/selection.ts:44-73 | each checkbox is checked iff its name is selected; the selection is unchanged |
| Selection.Page.ToggleBox | web/htdocs/js/modules/selection.ts:104-116 | the box's name is toggled in the selection and the row info is updated |
| Selection.Page.ToggleRow | web/htdocs/js/modules/selection.ts:195-237 | a click on anything but a cell or label is passed on; a row without a checkbox is ignored; otherwise the box flips, its name is toggled and the row info is updated |
| Selection.Page.RemoveSelectedRows | web/htdocs/js/modules/selection.ts:316-326 | every given checkbox is unchecked, exactly their names are removed and the row info is updated |
| Selection.Page.DeselectEach | web/htdocs/js/modules/selection.ts:318-324 | the loop unchecks every box and removes their names |
| Selection.Page.DeselectOne | web/htdocs/js/modules/selection.ts:318-324 | one loop step unchecks the next box and removes its name |
| Selection.Page.SelectAllRows | web/htdocs/js/modules/selection.ts:328-345 | every selected checkbox (all, or the failed ones) is checked, the others are untouched, their absent names are appended and the row info is updated |
| Selection.Page.SelectEach | web/htdocs/js/modules/selection.ts:330-341 | the loop checks the selected boxes and appends their absent names |
| Selection.Page.SelectOne | web/htdocs/js/modules/selection.ts:330-341 | one loop step checks the next box if it is selected and appends its name if absent |
| Selection.Page.ToggleAllRows | web/htdocs/js/modules/selection.ts:274-314 | the deselect branch is taken exactly when all names are selected, otherwise all (or only failed) are selected and every other checkbox keeps its state; the menu label names the action |
| Selection.Page.ToggleGroupRows | web/htdocs/js/modules/selection.ts:348-389 | the group's range is found; if all of the group's boxes were selected they are all unchecked, otherwise all of them (or only the failed ones) are checked and the rest keep their state; checkboxes outside the group keep their state |
| GraylogFailures.MakeFailure | cmk/base/plugins/agent_based/graylog_failures.py:36-50 | a text message that decodes is replaced by the decoded failure message; text that is no JSON stays; JSON that is no failure message is an error; other messages are kept |
| GraylogFailures.MessageLines | cmk/base/plugins/agent_based/graylog_failures.py:20-24 | one "Type: " line and one "Reason: " line, each only for a set field, type first |
| GraylogFailures.FailureLinesNonEmpty | cmk/base/plugins/agent_based/graylog_failures.py:52-58 | every rendered line is non-empty |
| GraylogFailures.FailureLinesCount | cmk/base/plugins/agent_based/graylog_failures.py:52-58 | a failure renders one line per set string field plus the lines of a structured message |
| GraylogFailures.JoinNonEmpty | cmk/base/plugins/agent_based/graylog_failures.py:92-95 | joining parts whose first is non-empty gives a non-empty text |
| GraylogFailures.RenderingEmpty | cmk/base/plugins/agent_based/graylog_failures.py:52-58 | a failure renders to the empty text exactly when it has no timestamp, no index, and no message or a structured message with neither type nor reason |
| GraylogFailures.RenderingPlain | cmk/base/plugins/agent_based/graylog_failures.py:52-58 | a failure with timestamp, index and plain message renders as "Timestamp: …, Index: …, Message: …" |
| GraylogFailures.KeyLtOrder | cmk/base/plugins/agent_based/graylog_failures.py:92-93 | the (timestamp, index) sort key order is a strict order |
| GraylogFailures.SortedFailures | cmk/base/plugins/agent_based/graylog_failures.py:92-93 | the sorted failures are a permutation of the failures, ordered by (timestamp, index) |
| GraylogFailures.SortedFailuresStable | cmk/base/plugins/agent_based/graylog_failures.py:92-93 | the sort is stable: failures with equal (timestamp, index) keep their input order |
| GraylogFailures.NonEmptyRenderings | cmk/base/plugins/agent_based/graylog_failures.py:91-95 | the details are non-empty renderings of the failures, and every non-empty rendering is among them |
| GraylogFailures.FailureResults | cmk/base/plugins/agent_based/graylog_failures.py:90-108 | nothing iff every failure renders empty; otherwise an OK summary with the distinct index count and an OK notice joining the sorted non-empty renderings by newlines |
| GraylogFailures.IndexCountBounds | cmk/base/plugins/agent_based/graylog_failures.py:100 | the distinct index count is at most the number of failures, and one when all failures name the same index |
| GraylogFailures.IndexCountAtMost | cmk/base/plugins/agent_based/graylog_failures.py:100 | the distinct index count is at most the number of failures |
| GraylogFailures.Discover | cmk/base/plugins/agent_based/graylog_failures.py:84-87 | one service iff failures are present, none otherwise |
| GraylogFailures.Check | cmk/base/plugins/agent_based/graylog_failures.py:111-140 | nothing without failures or total; only the total levels without a count; total and count levels for a zero count; otherwise these followed by the failure results |
| EventConsole.ParseIds | tests/unit/cmk/ec/test_ec_delete.py:15-86 | every ID text is parsed as a number, or the first text that is no number is reported |
| EventConsole.ParseCommand | tests/unit/cmk/ec/test_ec_delete.py:15-111 | a line without the "COMMAND " prefix is no command; a parsed command has exactly three ';'-separated parts, the last being the user |
| EventConsole.ParseIdTexts | tests/unit/cmk/ec/test_ec_delete.py:15-54 | parsing the decimal texts of IDs gives back the IDs |
| EventConsole.JoinHasNo | tests/unit/cmk/ec/test_ec_delete.py:51 | parts and separator without a character join to a text without it |
| EventConsole.ParseFormat | tests/unit/cmk/ec/test_ec_delete.py:15-111 | every command whose arguments contain no separators parses back from its command line |
| EventConsole.ParseSent | tests/unit/cmk/ec/test_ec_delete.py:15-111 | a line formatted from such a command parses to that command |
| EventConsole.ParseDelete | tests/unit/cmk/ec/test_ec_delete.py:15-86 | "COMMAND DELETE;<ids>;<user>" with a non-empty comma-separated ID list parses to a delete of those IDs |
| EventConsole.TestIdTexts | tests/unit/cmk/ec/test_ec_delete.py:26-51 | the ID lists of the tests are written "1", "2" and "1,2" |
| EventConsole.ParseDeleteOfHost | tests/unit/cmk/ec/test_ec_delete.py:108 | "COMMAND DELETE_EVENTS_OF_HOST;<host>;<user>" parses to a delete by that host |
| EventConsole.UnknownVerb | tests/unit/cmk/ec/test_ec_delete.py:26 | another verb is reported as an unknown command |
| EventConsole.WithoutHost | tests/unit/cmk/ec/test_ec_delete.py:89-111 | exactly the events of other hosts remain, unchanged |
| EventConsole.EventStatus.constructor | tests/unit/cmk/ec/test_ec_delete.py:15-23 | a fresh table is empty and its next ID is 1 |
| EventConsole.EventStatus.NewEvent | tests/unit/cmk/ec/test_ec_delete.py:22-54 | a new event gets the next ID, which was unused; it is added and the next ID advances |
| EventConsole.EventStatus.DeleteEvents | tests/unit/cmk/ec/test_ec_delete.py:24-86 | the listed IDs are removed, missing ones ignored |
| EventConsole.EventStatus.DeleteEventsOfHost | tests/unit/cmk/ec/test_ec_delete.py:106-111 | the events of that host are removed |
| EventConsole.EventStatus.HandleCommand | tests/unit/cmk/ec/test_ec_delete.py:15-111 | a command line is parsed and, when it parses, executed; otherwise the table is unchanged |
| EventConsole.DeleteRemovesExactly | tests/unit/cmk/ec/test_ec_delete.py:76-86 | exactly the events not listed remain, unchanged, and deleting again is a no-op |
| EventConsole.DeleteOneShrinks | tests/unit/cmk/ec/test_ec_delete.py:24-81 | deleting one present ID shrinks the table by one |
| EventConsole.ScenarioSteps | tests/unit/cmk/ec/test_ec_delete.py:15-111 | each delete of the tests leaves the table the tests expect |
| EventConsole.TestLines | tests/unit/cmk/ec/test_ec_delete.py:26-83 | the command lines of the tests are the delete lines of their ID lists |
| EventConsole.DeleteEventScenario | tests/unit/cmk/ec/test_ec_delete.py:15-29 | one event, deleted by its ID, leaves none |
| EventConsole.DeleteMultipleScenario | tests/unit/cmk/ec/test_ec_delete.py:32-54 | two events deleted with "1,2" leave none |
| EventConsole.DeletePartiallyExistingScenario | tests/unit/cmk/ec/test_ec_delete.py:57-86 | deleting 2 leaves one event, then deleting "1,2" leaves none |
| EventConsole.DeleteEventsOfHostScenario | tests/unit/cmk/ec/test_ec_delete.py:89-111 | both events of host ABC1 are deleted, matching the host and not the core host |
| ItemState.RateError.Message | tests/unit/cmk/base/test_item_state_rate_and_average.py:14-28 | every error has a non-empty message |
| ItemState.Rate | tests/unit/cmk/base/test_item_state_rate_and_average.py:14-51 | an error iff onwrap is RAISE and no rate can be computed, and then the reason; 0.0 for ZERO and SKIP in that case; otherwise the rate times the elapsed time is the rise; never negative unless negative rates are allowed |
| ItemState.ItemStateStore.constructor | tests/unit/cmk/base/test_item_state_rate_and_average.py:22-28 | an empty store |
| ItemState.ItemStateStore.Set | tests/unit/cmk/base/test_item_state_rate_and_average.py:22-51 | the key is stored with the given state |
| ItemState.ItemStateStore.GetRate | tests/unit/cmk/base/test_item_state_rate_and_average.py:27-51 | the result is the rate from the sample stored before the call; the new sample is stored |
| ItemState.RateRaises | tests/unit/cmk/base/test_item_state_rate_and_average.py:14-28 | "No time difference", "Value overflow" and "Counter initialization" for the three cases of the test |
| ItemState.RateValues | tests/unit/cmk/base/test_item_state_rate_and_average.py:31-51 | the five rates of the test: 0.0, 0.0, 0.0, 0.5 and -1.0 |
| ItemState.AllowNegativeOnlyAffectsOverflow | tests/unit/cmk/base/test_item_state_rate_and_average.py:38-50 | allowing negative rates changes the result exactly for a later sample with a lower value |
| ItemState.OneSecondRate | tests/unit/cmk/base/test_item_state_rate_and_average.py:31-51 | a rise of delta within one second is a rate of delta |
| ItemState.SuccessiveRates | tests/unit/cmk/base/test_item_state_rate_and_average.py:22-28 | on a store, the first call raises counter initialization and the next gives the rise per second |
| KubeAgent.CountUnspecified | tests/unit/cmk/special_agents/agent_kube/test_agent_kube_api.py:74-102 | the count of unspecified entries is at most the number of entries |
| KubeAgent.CountZeroed | tests/unit/cmk/special_agents/agent_kube/test_agent_kube_api.py:105-114 | the count of zeroed entries is at most the number of entries |
| KubeAgent.AggregateResources | tests/unit/cmk/special_agents/agent_kube/test_agent_kube_api.py:74-114 | the total count is the number of containers, and the other counts are bounded by it |
| KubeAgent.ZeroedAreSpecified | tests/unit/cmk/special_agents/agent_kube/test_agent_kube_api.py:105-114 | unspecified and zeroed entries are disjoint |
| KubeAgent.TalliesConcat | tests/unit/cmk/special_agents/agent_kube/test_agent_kube_api.py:74-114 | sums and counts distribute over concatenation |
| KubeAgent.AggregateConcat | tests/unit/cmk/special_agents/agent_kube/test_agent_kube_api.py:196-272 | aggregating two container lists gives the combination of their aggregates |
| KubeAgent.AggregateEmpty | tests/unit/cmk/special_agents/agent_kube/test_agent_kube_api.py:275-288 | no containers give all-zero sums and counts |
| KubeAgent.AggregateOne | tests/unit/cmk/special_agents/agent_kube/test_agent_kube_api.py:196-233 | one fully specified container gives its request and limit with a total of one |
| KubeAgent.AggregateUnspecifiedRequest | tests/unit/cmk/special_agents/agent_kube/test_agent_kube_api.py:74-87 | the test's containers sum their specified requests and count the one unspecified request |
| KubeAgent.AggregateUnspecifiedLimit | tests/unit/cmk/special_agents/agent_kube/test_agent_kube_api.py:90-102 | the test's containers sum their specified limits and count the one unspecified limit |
| KubeAgent.AggregateZeroedLimits | tests/unit/cmk/special_agents/agent_kube/test_agent_kube_api.py:105-114 | a limit of 0 is counted as zeroed |
| KubeAgent.Replicate | tests/unit/cmk/special_agents/agent_kube/test_agent_kube_api.py:196-272 | n copies of the value |
| KubeAgent.AggregateReplicated | tests/unit/cmk/special_agents/agent_kube/test_agent_kube_api.py:196-272 | n identical fully specified containers give n times the request and limit, a total of n and no other counts |
| KubeAgent.ContainersOf | tests/unit/cmk/special_agents/agent_kube/test_agent_kube_api.py:196-233 | the containers are exactly those of the given pods |
| KubeAgent.CollectResources | tests/unit/cmk/special_agents/agent_kube/test_agent_kube_api.py:196-288 | collecting from pods aggregates their containers; no pods give no resources |
| KubeAgent.ContainersOfReplicated | tests/unit/cmk/special_agents/agent_kube/test_agent_kube_api.py:196-233 | the containers of n copies of a pod are n copies of its container list |
| KubeAgent.CollectReplicated | tests/unit/cmk/special_agents/agent_kube/test_agent_kube_api.py:196-272 | n copies of a pod with one fully specified container give n times its request and limit and a total of n |
| KubeAgent.SingleFlatten | tests/unit/cmk/special_agents/agent_kube/test_agent_kube_api.py:196-233 | n copies of a one-container list flatten to n copies of that container |
| KubeAgent.PodName | tests/unit/cmk/special_agents/agent_kube/test_agent_kube_api.py:136-145 | the name, or namespace, "_" and name, of the stated length |
| KubeAgent.PodNameSplits | tests/unit/cmk/special_agents/agent_kube/test_agent_kube_api.py:136-145 | a namespace without "_" is recovered from the prefixed name, and so is the name |
| KubeAgent.PodNameTest | tests/unit/cmk/special_agents/agent_kube/test_agent_kube_api.py:136-145 | "name" and "namespace_name" for the test's pod |
| KubeAgent.FilterPodsByNamespace | tests/unit/cmk/special_agents/agent_kube/test_agent_kube_api.py:148-155 | exactly the pods of that namespace are kept |
| KubeAgent.FilterPodsByCronJob | tests/unit/cmk/special_agents/agent_kube/test_agent_kube_api.py:157-170 | exactly the pods whose uid belongs to the cron job are kept |
| KubeAgent.FilterPodsByPhase | tests/unit/cmk/special_agents/agent_kube/test_agent_kube_api.py:173-193 | exactly the pods of that phase are kept |
| KubeAgent.FilterTests | tests/unit/cmk/special_agents/agent_kube/test_agent_kube_api.py:148-170 | the namespace and cron job filters of the tests keep only the first pod |
| KubeAgent.FilterKeepsAll | tests/unit/cmk/special_agents/agent_kube/test_agent_kube_api.py:117-133 | a filter every pod passes keeps the list as it is |
| KubeAgent.NamespaceFilterConcat | tests/unit/cmk/special_agents/agent_kube/test_agent_kube_api.py:148-155 | the namespace filter preserves order across concatenation |
| KubeAgent.PhaseFilterDistinct | tests/unit/cmk/special_agents/agent_kube/test_agent_kube_api.py:173-193 | among pods of pairwise distinct phases, one per phase as in the test, a phase filter keeps exactly the pod of that phase |
| KubeAgent.NoneMatch | tests/unit/cmk/special_agents/agent_kube/test_agent_kube_api.py:117-133 | a filter no pod passes keeps nothing |
| KubeAgent.PodResourcesFromPods | tests/unit/cmk/special_agents/agent_kube/test_agent_kube_api.py:117-133 | every pod is listed under exactly one phase |
| KubeAgent.PhasesPartition | tests/unit/cmk/special_agents/agent_kube/test_agent_kube_api.py:117-133 | the five phase filters together keep every pod exactly once |
| KubeAgent.AllRunning | tests/unit/cmk/special_agents/agent_kube/test_agent_kube_api.py:117-133 | for running pods, their names in order are under running and every other list is empty |

## Left out

- `execute_checkmk_checks`, `_do_inventory_actions_during_checking_for`, `_timing_results`, crash-dump creation, value-store contexts, `plugin_contexts`, `Submitter.submit` and `_final_read_only_check_parameters`: fetching, disk writes, timing and I/O; the crash report is a value of `CheckOutcome`.
- Checking.ServiceOutsideCheckPeriod: the verbose and very verbose console messages that report a skipped service are output only and not modelled.
- `State.worst`, `state_markers`, the regular-expression match, `check_timeperiod` and the check function itself: their definitions are outside this model and they are parameters.
- Checking.GetAggregatedResult: the named `ServiceCheckResult` constructors are variants without their texts, which are defined outside this model.
- Checking.ClassifyPlugins: the nested loop of `_check_plugins_missing_data` is a method of its own; the sorting of the two sets is the uniqueness of the sorted sequence of a set rather than Python's `sorted`.
- `selection.ts`: DOM traversal, hover highlighting, event handler installation, the AJAX `set_rowselection` posts that persist the selection, selection enabling and `update_bulk_moveto`: they are browser I/O.
- Selection.Page.ToggleRow: event propagation and the target's tag are reduced to an optional tag name and an outcome value.
- Selection.Page.SelectEach: the loops of `select_all_rows` and `remove_selected_rows` are step methods of their own, the ghost list before the loop carries the bookkeeping.
- `parse` of the Graylog section: JSON deserialisation and pydantic validation are outside this model; decoding a message is a parameter.
- GraylogFailures.MakeFailure: the overwrite of the message after construction is a function returning the finished failure.
- GraylogFailures.FailureResults: requires the sort keys of all failures to be pairwise comparable, because Python raises `TypeError` when comparing `None` with a string; that exception is not modelled.
- `check_levels` and `render.timespan`: they are parameters.
- Event Console: the status socket, `handle_client`'s I/O, locking, user authorisation, event replication and event fields other than host, text and core host; `cmk.ec.main` is not part of this model, so the table and the parser follow the wire format the tests use, and the user of a command is parsed but not acted on.
- EventConsole.ParseCommand: IDs are plain decimal digit strings; Python's `int` also accepts signs, underscores and surrounding whitespace.
- `get_average`: exponential smoothing over floating-point values.
- ItemState.Rate: `cmk/base/item_state.py` is not part of this model; SKIP is modelled as returning 0.0, like ZERO, and `is_rate` is not modelled; the new sample is stored on every call, as the tests' successive calls assume.
- KubeAgent: `cmk/special_agents/agent_kube.py` is not part of this model; the functions follow what the tests assert, and `_pod_resources_from_api_pods` is a function over a pod list.
- Floating point: quantities and times are exact `real` numbers.
