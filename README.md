# ksck: Kudu's cluster consistency checker, modelled in Dafny

Kudu's `ksck` checks a running cluster from the outside. It asks the master for
the tablet servers, the tables and the tablets of each table (with their
replicas). Then it runs its checks against that metadata:

- it can connect to the master and to every tablet server;
- every tablet has enough replicas and a leader;
- the replicas of every selected tablet return the same data checksum.

The checksum check starts one asynchronous scan per (tablet, replica) pair. A
`ChecksumResultReporter` collects the answers: it keeps a countdown of the
answers still expected and a map tablet id -> replica uuid -> (Status,
checksum).

The model has five modules:

- `Statuses`: Kudu's `Status`, its error codes, `uint64` and `Option`.
- `Topology`: `Replica` is a value. `KsckTablet` and `KsckTable` are classes
  whose replica list and tablet list the fetch step replaces as a whole.
- `Checksums`: the reporter is a class with fields for the countdown and the
  map. A ghost history `reports` of its ReportResult/ReportError calls, and the
  invariant `Valid()`, tie both fields to pure functions of that history:
  `Outstanding` for the countdown and `Recorded` for the map.
- `Cluster`: the collaborators `KsckTabletServer` and `KsckMaster`, and
  `KsckCluster`. In Kudu the collaborators are abstract classes, implemented
  once over RPC and once by a test double. Here each is a class whose remote
  answers are fields, e.g. `connectReply`, `scanReplies` and `tablesReply`.
  The network is therefore an input of the model. The methods' contracts are
  the guarantees the abstract interface documents, e.g. "only modified if the
  call returns OK" and "if the dispatch is OK the reporter is called back".
- `Checker`: the `Ksck` class with its checks. Beside it are the pure
  specification functions the checks are proved against:
  - `VerifyTablet` and `VerifyTable` for table consistency;
  - `SelectTablets` for the table/tablet selection rule;
  - `ChecksumReports` for what reaches the reporter when a list of pairs is
    scanned;
  - `Summarize` and `ChecksumStatus` for the verdict;
  - lemmas about these functions, including three concrete two-tablet,
    three-replica scenarios.

A scan answer that would arrive after the caller stops waiting is modelled as
`ScanReply(Ok, None)`: the dispatch was accepted but nothing reached the
reporter in time. With that, `Ksck.ChecksumData` is proved equal, as a
function of the tablet servers' snapshot (`ServersView`), to "scan every pair
of `SelectTablets`, then compare". The master promises that its tablet server
map is keyed by each server's permanent uuid (ksck.h:227-229). The model
carries that promise as `KsckMaster.Valid()` and `KsckCluster.Valid()`, and
`ChecksumData` requires it. From it, `ChecksumVerdict` gives two facts about
the result of `ChecksumData`:

- it is OK exactly when every selected replica reported OK and the replicas
  of each tablet agree;
- it is TimedOut exactly when some selected pair is missing.

Without the keying, a server filed under another server's uuid could answer
for it, and neither fact need hold.

The model is written from the declarations and comments in ksck.h. The bodies
in ksck.cc are not modelled line by line. Where the header leaves a choice
open, the model makes these choices:

- `FetchTableAndTabletInfo` retrieves tablet servers, then tables, then each
  table's tablets, and stops at the first call that fails.
- The header (ksck.h:187-189) asks the caller to report a scan that could
  not be dispatched, and the checker does. The checker also reports two
  further failures into the reporter, for every pair to be counted: a replica
  whose tablet server uuid is not in the tablet server map (NotFound), and a
  tablet server the checker cannot connect to (the connect error).
- The checksum verdict is decided in this order: TimedOut unless every result
  came in, then Corruption if the OK results of some tablet disagree, then
  Aborted if some replica reported an error, else OK.
- The reporter's countdown (a `CountDownLatch`, whose header
  `countdown_latch.h` is not part of this model) stops at zero.
- A tablet is good when it has at least `num_replicas` replicas and at least
  one of them is the leader, as ksck.h:308-309 says ("enough replicas and a
  leader"). The model does not adopt the stricter rule that the count must
  equal the replication factor and that exactly one replica must lead.

## Model

| member | source | states |
|---|---|---|
| `Topology.KsckTablet.constructor` | src/kudu/tools/ksck.h:56-58 | a new tablet has the given id and no replicas |
| `Topology.KsckTablet.SetReplicas` | src/kudu/tools/ksck.h:68-70 | the replica list becomes exactly the given list, in order; nothing else changes |
| `Topology.KsckTable.constructor` | src/kudu/tools/ksck.h:80-84 | a new table has the given name and replication factor and no tablets |
| `Topology.KsckTable.SetTablets` | src/kudu/tools/ksck.h:98-100 | the tablet list becomes exactly the given list, in order; nothing else changes |
| `Checksums.Record` | src/kudu/tools/ksck.h:151-153 | the map update of one response: writes the (tablet, replica) entry, creates the tablet's inner map when needed, leaves every other entry as it was |
| `Checksums.Outstanding` | src/kudu/tools/ksck.h:137-145 | the countdown after n responses: expected - n until it reaches zero; zero exactly when at least `expected` responses came in |
| `Checksums.RecordedIsLastReport` | src/kudu/tools/ksck.h:155-158 | the map's entry for a pair is the result of the last report for that pair (a later report overwrites) |
| `Checksums.LastReportIffReported` | src/kudu/tools/ksck.h:155-158 | a pair has a last report exactly when it reported at all |
| `Checksums.LastReportAt` | src/kudu/tools/ksck.h:155-158 | a report whose pair no later report repeats is that pair's last report |
| `Checksums.RecordedEntries` | src/kudu/tools/ksck.h:155-158 | the map holds an entry for a pair exactly when the pair reported, and then its last result |
| `Checksums.RecordedKeys` | src/kudu/tools/ksck.h:155-158 | the map's tablet keys are exactly the tablets that reported; each inner key set is exactly the replicas that reported for that tablet |
| `Checksums.ChecksumResultReporter.constructor` | src/kudu/tools/ksck.h:122-123 | the countdown starts at the number of replicas queried, and the map starts empty |
| `Checksums.ChecksumResultReporter.ReportResult` | src/kudu/tools/ksck.h:125-129 | the pair's entry becomes (OK, checksum), other entries are unchanged, the countdown goes down by one (not below zero), and the invariant is kept |
| `Checksums.ChecksumResultReporter.ReportError` | src/kudu/tools/ksck.h:131-135 | the pair's entry becomes (status, 0), other entries are unchanged, the countdown goes down by one (not below zero), and the invariant is kept |
| `Checksums.ChecksumResultReporter.HandleResponse` | src/kudu/tools/ksck.h:150-158 | writes the entry, counts down once, and appends the report to the history, keeping the countdown and the map in line with the history |
| `Checksums.ChecksumResultReporter.AllReported` | src/kudu/tools/ksck.h:144-145 | true exactly when at least the expected number of results and errors have been reported |
| `Checksums.ChecksumResultReporter.Checksums` | src/kudu/tools/ksck.h:147-148 | the returned map's keys are the tablets and replicas that reported, and each entry is the last result reported for that pair |
| `Cluster.CompletionReports` | src/kudu/tools/ksck.h:186-193 | an accepted scan reports at most once, under its own tablet id and replica uuid; a refused one reports nothing |
| `Cluster.KsckTabletServer.constructor` | src/kudu/tools/ksck.h:169-171 | a new tablet server has the given uuid and replies, and is not connected |
| `Cluster.KsckTabletServer.IsConnected` | src/kudu/tools/ksck.h:177-178 | true exactly when Connect() has been called at least once and its last call succeeded |
| `Cluster.KsckTabletServer.Connect` | src/kudu/tools/ksck.h:174-178 | returns the server's connect reply; afterwards the server is connected exactly when that reply is OK |
| `Cluster.KsckTabletServer.EnsureConnected` | src/kudu/tools/ksck.h:180-184 | OK without calling Connect when already connected (the connection state is unchanged); otherwise exactly one Connect and its result; connected exactly when the result is OK |
| `Cluster.KsckTabletServer.RunTabletChecksumScanAsync` | src/kudu/tools/ksck.h:186-193 | returns the dispatch status. When it is not OK the reporter is untouched. When it is OK the scan reports at most once, under its tablet id and this server's uuid |
| `Cluster.KsckMaster.constructor` | src/kudu/tools/ksck.h:209-212 | a new master has the given replies and is not connected; its tablet server map must be keyed by permanent uuid, and the master is then valid |
| `Cluster.KsckMaster.IsConnected` | src/kudu/tools/ksck.h:218-219 | true exactly when Connect() has been called at least once and its last call succeeded |
| `Cluster.KsckMaster.Connect` | src/kudu/tools/ksck.h:215-219 | returns the master's connect reply; afterwards the master is connected exactly when that reply is OK |
| `Cluster.KsckMaster.EnsureConnected` | src/kudu/tools/ksck.h:221-225 | OK without calling Connect when already connected (the connection state is unchanged); otherwise exactly one Connect and its result; connected exactly when the result is OK |
| `Cluster.KsckMaster.FetchedPrefix` | src/kudu/tools/ksck.h:237-239 | the number of leading tables whose tablet retrieval succeeds: all before it succeed and the one at it fails |
| `Cluster.KsckMaster.RetrieveTabletServers` | src/kudu/tools/ksck.h:227-230 | returns the master's status; the cluster's tablet server map is replaced only if that status is OK, and is then keyed by permanent uuid |
| `Cluster.KsckMaster.RetrieveTablesList` | src/kudu/tools/ksck.h:232-235 | returns the master's status; the cluster's table list is replaced only if that status is OK |
| `Cluster.KsckMaster.RetrieveTabletsList` | src/kudu/tools/ksck.h:237-239 | returns the master's status for that table; the table's tablet list is replaced only if that status is OK |
| `Cluster.KsckCluster.constructor` | src/kudu/tools/ksck.h:248-250 | a new cluster has the given master, no tablet servers and no tables, and its (empty) map is keyed by uuid |
| `Cluster.KsckCluster.RetrieveTabletServers` | src/kudu/tools/ksck.h:271-272 | delegates to the master: the map changes only on OK, and stays keyed by uuid |
| `Cluster.KsckCluster.RetrieveTablesList` | src/kudu/tools/ksck.h:274-275 | delegates to the master: the table list changes only on OK |
| `Cluster.KsckCluster.RetrieveTabletsList` | src/kudu/tools/ksck.h:277-278 | delegates to the master: the table's tablets change only on OK |
| `Cluster.KsckCluster.RetrieveAllTabletsLists` | src/kudu/tools/ksck.h:253-255 | retrieves each table's tablets in order. It stops at the first failure and returns it. Tables before it are populated; the rest are untouched |
| `Cluster.KsckCluster.FetchTableAndTabletInfo` | src/kudu/tools/ksck.h:253-255 | runs tablet servers, then tables, then tablets, and is fail-fast. A failed step leaves what it would have written as it was and its status is returned unchanged |
| `Checker.CountLeaders` | src/kudu/tools/ksck.h:335 | at most one per replica, and positive exactly when some replica is the leader |
| `Checker.VerifyTablet` | src/kudu/tools/ksck.h:308-311 | a tablet is good exactly when it has at least the table's replication factor of replicas and some replica is the leader |
| `Checker.AllTabletsGood` | src/kudu/tools/ksck.h:331 | true exactly when every tablet of the list verifies |
| `Checker.VerifyTable` | src/kudu/tools/ksck.h:331 | a table is good exactly when every one of its tablets verifies against its replication factor |
| `Checker.BadTables` | src/kudu/tools/ksck.h:308-311 | the names listed are exactly those of the tables that fail VerifyTable |
| `Checker.HealthyTabletExample` | src/kudu/tools/ksck.h:308-311 | follower, follower, leader against factor 3 is good |
| `Checker.LeaderlessTabletExample` | src/kudu/tools/ksck.h:308-311 | three followers against factor 3 is bad: a leader is required |
| `Checker.UnderReplicatedTabletExample` | src/kudu/tools/ksck.h:308-311 | two replicas against factor 3 is bad, with or without a leader |
| `Checker.AllowedTablets` | src/kudu/tools/ksck.h:315 | keeps exactly the tablets whose id the tablet allow-list allows; an empty list allows all |
| `Checker.SelectTablets` | src/kudu/tools/ksck.h:313-317 | selects only tablets of allowed tables with allowed ids, and every such tablet |
| `Checker.SelectionRule` | src/kudu/tools/ksck.h:314-317 | case by case: both lists empty selects all tablets; one list filters by it; both take the intersection |
| `Checker.ScanReports` | src/kudu/tools/ksck.h:186-193 | one pair's scan reports at most once, and only under that pair. An unknown server gives one NotFound report. A failed connect gives one report of the connect error, and a refused dispatch one report of the dispatch error. A pair goes unreported exactly when its server is reachable, accepts the scan and does not answer in time |
| `Checker.ServerScanReports` | src/kudu/tools/ksck.h:186-193 | with the server found: a failed connect or a refused dispatch gives exactly one report of that error. Nothing is reported exactly when the scan is accepted and its answer does not arrive in time |
| `Checker.ChecksumReportsAppend` | src/kudu/tools/ksck.h:313-323 | scanning one list of pairs and then another delivers the first list's reports followed by the second's |
| `Checker.ChecksumReportsLength` | src/kudu/tools/ksck.h:137-145 | at most one report per scanned pair, and one per pair exactly when every scan reported |
| `Checker.SummaryMeaning` | src/kudu/tools/ksck.h:313-323 | a selected pair is missing exactly when it has no entry; a pair failed exactly when its entry is an error; a tablet is mismatched exactly when two of its replicas reported OK with different checksums |
| `Checker.VerdictOrder` | src/kudu/tools/ksck.h:313-323 | the verdict is one of OK, TimedOut, Corruption and Aborted. TimedOut exactly when not all came in; Corruption exactly when all came in and a tablet is mismatched; Aborted exactly when all came in, none is mismatched and some replica failed; OK otherwise |
| `Checker.ChecksumReportsFor` | src/kudu/tools/ksck.h:313-323 | a pair has a report exactly when it was selected and its scan reported |
| `Checker.ChecksumResultsArePairs` | src/kudu/tools/ksck.h:313-323 | the reporter's map has an entry exactly for the selected pairs whose scan reported, and for nothing outside the selection |
| `Checker.AllReportedIffNoneMissing` | src/kudu/tools/ksck.h:144-145 | the reporter has seen all expected results exactly when no selected pair is missing from its map |
| `Checker.CleanSummaryAgrees` | src/kudu/tools/ksck.h:313-323 | nothing missing, mismatched or failed implies every pair reported OK and each tablet's replicas agree |
| `Checker.AgreementCleansSummary` | src/kudu/tools/ksck.h:313-323 | every pair reporting OK with agreeing checksums implies nothing missing, mismatched or failed |
| `Checker.ChecksumVerdict` | src/kudu/tools/ksck.h:313-323 | the checksum check passes exactly when every selected replica reported OK and each tablet's replicas agree; it times out exactly when a selected pair is missing |
| `Checker.ChecksumReportsOfEach` | src/kudu/tools/ksck.h:313-323 | when each pair's scan delivers exactly one given report, the pairs deliver those reports in order |
| `Checker.ScenarioReports` | src/kudu/tools/ksck.h:313-323 | two tablets on three servers deliver five 1234 reports, then whatever the last scan delivers |
| `Checker.TimeoutScenario` | src/kudu/tools/ksck.h:318-319 | five of six replicas report and one never does: TimedOut, naming exactly the one missing pair |
| `Checker.AgreementScenario` | src/kudu/tools/ksck.h:313-323 | all six replicas report 1234: the check passes |
| `Checker.MismatchScenario` | src/kudu/tools/ksck.h:313-323 | one replica of t2 reports a different checksum: Corruption, with t2 the only mismatched tablet |
| `Checker.Ksck.constructor` | src/kudu/tools/ksck.h:289-291 | the checker runs against the given cluster |
| `Checker.Ksck.CheckMasterRunning` | src/kudu/tools/ksck.h:294-295 | the master's EnsureConnected result; the master is then connected exactly when it is OK |
| `Checker.Ksck.FetchTableAndTabletInfo` | src/kudu/tools/ksck.h:297-298 | succeeds exactly when every retrieve call does; then the cluster holds the master's servers, tables and each table's tablets. On failure it returns the failing call's status, and leaves that step's output and everything after it as it was; the uuid keying is kept |
| `Checker.Ksck.ConnectToTabletServer` | src/kudu/tools/ksck.h:304-306 | the tablet server's EnsureConnected result; the server is then connected exactly when it is OK |
| `Checker.Ksck.CheckTabletServersRunning` | src/kudu/tools/ksck.h:300-302 | tries every tablet server, going on past failures. It returns exactly the unreachable ones, and OK only when there are none |
| `Checker.Ksck.CheckTablesConsistency` | src/kudu/tools/ksck.h:308-311 | names exactly the bad tables; OK exactly when every table verifies, Corruption otherwise |
| `Checker.Ksck.ScanReplica` | src/kudu/tools/ksck.h:186-193 | the reports that reach the reporter for one replica are exactly ScanReports of the snapshot |
| `Checker.Ksck.ScanOnServer` | src/kudu/tools/ksck.h:186-193 | connects, then dispatches; a failure of either is reported into the reporter by the checker |
| `Checker.Ksck.ScanTablet` | src/kudu/tools/ksck.h:313-323 | scans every replica of one tablet in order: the reporter receives exactly ChecksumReports of its pairs |
| `Checker.Ksck.ScanTablets` | src/kudu/tools/ksck.h:313-323 | scans every selected tablet in order: the reporter receives exactly ChecksumReports of all their pairs |
| `Checker.Ksck.CompareChecksums` | src/kudu/tools/ksck.h:137-148 | TimedOut unless every expected result came in, otherwise the verdict of comparing the reporter's map |
| `Checker.Ksck.ChecksumData` | src/kudu/tools/ksck.h:313-323 | the summary and status are those of scanning every pair of the selected tablets into a fresh reporter expecting one result per pair; the status is OK exactly when every selected replica reported OK and the replicas of each tablet agree, and TimedOut exactly when a selected pair is missing; the servers' snapshot is unchanged |

## Left out

- `ChecksumResultReporter::WaitFor` (ksck.h:137-142) and the `timeout` argument of `ChecksumData`: time is not modelled. A scan whose answer would come after the deadline is a `ScanReply` whose completion is `None`, and answers arriving after the check are ignored.
- `VerifyTableWithTimeout` (ksck.h:332-334): its fixed-interval retry until the table verifies or a deadline passes needs a clock and sleeping; only the single-shot `VerifyTable` is modelled.
- `CheckAssignments` (ksck.h:325-328): the query for the placement a tablet server reports is not among the collaborator calls the header declares, so there is nothing to compare against.
- The checks of key-range contiguity and staleness (ksck.h:55, 308): no tablet carries start or end keys in this version of the code.
- `Schema` (ksck.h:80, 90-92, 192): the table's schema and the schema passed to the scan are not modelled, as the scan's answer is an input.
- `KsckTabletServer::address` (ksck.h:199): only used in messages.
- The spin lock (ksck.h:156) and the concurrent completions: every report is one sequential step, and completions arrive in the order the checker issues the scans. No other interleaving is modelled.
- `shared_ptr` ownership and the destructors: Dafny's heap is garbage-collected, so the reporter's lifetime beyond the check is not a concern here.
- Status messages are descriptive strings; contracts compare Status codes and the exact strings the model builds, not Kudu's wording.
- `Checksums.ChecksumResultReporter.constructor`: takes a `nat`, whereas the C++ takes an `int`; a negative count and 32-bit overflow of `int` are not modelled.
- `Checker.Ksck.ChecksumData`: the summary names the mismatched tablets but not which of their replicas diverge. The per-replica results are available from the reporter's map.
- `is_follower` (ksck.h:37-39) is carried on every replica but no check reads it, as in the header's declared checks.
- A collaborator's answers are fixed for the whole run. `connectReply`, `scanReplies` and the master's replies are fields that no call changes, so a second Connect after a failed one answers as the first did. Kudu's servers may answer differently each time. This constancy is also what lets `Ksck.ChecksumData` be stated over one snapshot of the tablet servers, although the checker reconnects once per replica.
- `src/rpc/rpc_context.h` (how a tablet server answers an inbound scan call) is not part of this model: the server's answers are inputs.
