/**
 * Ksck's checks over a populated cluster: master and tablet-server
 * reachability, table consistency (enough replicas and a leader per tablet)
 * and the checksum workflow (select tablets, scan every replica into a fresh
 * reporter, then compare what came back).
 */
module Checker {
  import opened Statuses
  import opened Topology
  import opened Checksums
  import opened Cluster

  // ---------------------------------------------------------------------------
  // Table consistency
  // ---------------------------------------------------------------------------

  /** The number of replicas flagged as leader. */
  function CountLeaders(rs: seq<Replica>): (n: nat)
    ensures n <= |rs|
    ensures n > 0 <==> exists i :: 0 <= i < |rs| && rs[i].isLeader
  {
    if rs == [] then 0
    else
      var rest := CountLeaders(rs[1..]);
      assert forall i :: 0 < i < |rs| ==> rs[i] == rs[1..][i - 1];
      (if rs[0].isLeader then 1 else 0) + rest
  }

  /**
   * A tablet is good when it has at least as many replicas as its table's
   * replication factor and at least one of them is the leader.
   */
  function VerifyTablet(tablet: KsckTablet, tableNumReplicas: int): (good: bool)
    reads tablet
    ensures good <==> |tablet.replicas| >= tableNumReplicas
                      && exists i :: 0 <= i < |tablet.replicas| && tablet.replicas[i].isLeader
  {
    var replicas := tablet.replicas;
    var enoughReplicas := |replicas| >= tableNumReplicas;
    var leaders := CountLeaders(replicas);
    enoughReplicas && leaders > 0
  }

  /** Every tablet of `tablets` verifies against `tableNumReplicas`. */
  function AllTabletsGood(tablets: seq<KsckTablet>, tableNumReplicas: int): (good: bool)
    reads tablets
    ensures good <==> forall i :: 0 <= i < |tablets| ==> VerifyTablet(tablets[i], tableNumReplicas)
  {
    if tablets == [] then true
    else
      var rest := AllTabletsGood(tablets[1..], tableNumReplicas);
      assert forall i :: 0 < i < |tablets| ==> tablets[i] == tablets[1..][i - 1];
      VerifyTablet(tablets[0], tableNumReplicas) && rest
  }

  /** A table is good only when all its tablets are. */
  function VerifyTable(table: KsckTable): (good: bool)
    reads table, table.tablets
    ensures good <==> forall t :: t in table.tablets ==> VerifyTablet(t, table.numReplicas)
  {
    AllTabletsGood(table.tablets, table.numReplicas)
  }

  /** Every tablet object of the given tables: the frame of checks over them. */
  function AllTablets(tables: seq<KsckTable>): (r: set<KsckTablet>)
    reads tables
    ensures forall i, t :: 0 <= i < |tables| && t in tables[i].tablets ==> t in r
  {
    set table, t | table in tables && t in table.tablets :: t
  }

  /** The names of the tables that fail VerifyTable, in order. */
  function BadTables(tables: seq<KsckTable>): (names: seq<string>)
    reads tables, AllTablets(tables)
    ensures forall x :: x in names <==> exists i :: 0 <= i < |tables| && tables[i].name == x && !VerifyTable(tables[i])
    decreases |tables|
  {
    if tables == [] then []
    else
      var front, last := tables[..|tables| - 1], tables[|tables| - 1];
      assert forall i :: 0 <= i < |front| ==> front[i] == tables[i];
      BadTables(front) + (if VerifyTable(last) then [] else [last.name])
  }

  /** A tablet of replication factor 3 with replicas follower, follower, leader is good. */
  lemma HealthyTabletExample(tablet: KsckTablet)
    requires tablet.replicas == [Replica("ts1", false, true), Replica("ts2", false, true), Replica("ts3", true, false)]
    ensures VerifyTablet(tablet, 3)
  {
    assert tablet.replicas[2].isLeader;
  }

  /** The same tablet without a leader is bad. */
  lemma LeaderlessTabletExample(tablet: KsckTablet)
    requires tablet.replicas == [Replica("ts1", false, true), Replica("ts2", false, true), Replica("ts3", false, true)]
    ensures !VerifyTablet(tablet, 3)
  {
  }

  /** Two replicas against a replication factor of 3 is bad, leader or not. */
  lemma UnderReplicatedTabletExample(tablet: KsckTablet)
    requires |tablet.replicas| == 2
    ensures !VerifyTablet(tablet, 3)
  {
  }

  // ---------------------------------------------------------------------------
  // Checksum target selection
  // ---------------------------------------------------------------------------

  /** An empty allow-list allows every name. */
  predicate Allowed(name: string, allowList: seq<string>)
  {
    allowList == [] || name in allowList
  }

  /** A tablet belongs to one of `tables` whose name is in `names` (all of them when `names` is empty). */
  predicate InTables(t: KsckTablet, tables: seq<KsckTable>, names: seq<string>)
    reads tables
  {
    exists i :: 0 <= i < |tables| && Allowed(tables[i].name, names) && t in tables[i].tablets
  }

  /** The tablets of `tablets` whose id `tabletFilter` allows, in order. */
  function AllowedTablets(tablets: seq<KsckTablet>, tabletFilter: seq<string>): (r: seq<KsckTablet>)
    ensures forall k :: 0 <= k < |r| ==> r[k] in tablets && Allowed(r[k].id, tabletFilter)
    ensures forall j :: 0 <= j < |tablets| && Allowed(tablets[j].id, tabletFilter) ==> tablets[j] in r
  {
    if tablets == [] then []
    else
      var rest := AllowedTablets(tablets[1..], tabletFilter);
      assert forall j :: 0 < j < |tablets| ==> tablets[j] == tablets[1..][j - 1];
      (if Allowed(tablets[0].id, tabletFilter) then [tablets[0]] else []) + rest
  }

  /**
   * The tablets ChecksumData scans: those of the tables `tableFilter`
   * allows whose id `tabletFilter` allows, table by table.
   */
  function SelectTablets(tables: seq<KsckTable>, tableFilter: seq<string>, tabletFilter: seq<string>): (r: seq<KsckTablet>)
    reads tables
    ensures forall k :: 0 <= k < |r| ==> InTables(r[k], tables, tableFilter) && Allowed(r[k].id, tabletFilter)
    ensures forall i, j ::
              (0 <= i < |tables| && 0 <= j < |tables[i].tablets| &&
               Allowed(tables[i].name, tableFilter) && Allowed(tables[i].tablets[j].id, tabletFilter)) ==>
              tables[i].tablets[j] in r
  {
    if tables == [] then []
    else
      var rest := SelectTablets(tables[1..], tableFilter, tabletFilter);
      assert forall i :: 0 < i < |tables| ==> tables[i] == tables[1..][i - 1];
      (if Allowed(tables[0].name, tableFilter) then AllowedTablets(tables[0].tablets, tabletFilter) else []) + rest
  }

  /**
   * The selection rule case by case: both lists empty selects every tablet;
   * a table list keeps only tablets of named tables; a tablet list keeps
   * only named tablets; both keep the intersection.
   */
  lemma SelectionRule(tables: seq<KsckTable>, tableFilter: seq<string>, tabletFilter: seq<string>, t: KsckTablet)
    ensures tableFilter == [] && tabletFilter == [] ==>
              (t in SelectTablets(tables, tableFilter, tabletFilter) <==> InTables(t, tables, []))
    ensures tableFilter != [] && tabletFilter == [] ==>
              (t in SelectTablets(tables, tableFilter, tabletFilter) <==> InTables(t, tables, tableFilter))
    ensures tableFilter == [] && tabletFilter != [] ==>
              (t in SelectTablets(tables, tableFilter, tabletFilter) <==> InTables(t, tables, []) && t.id in tabletFilter)
    ensures tableFilter != [] && tabletFilter != [] ==>
              (t in SelectTablets(tables, tableFilter, tabletFilter) <==>
                 (exists i :: 0 <= i < |tables| && tables[i].name in tableFilter && t in tables[i].tablets)
                 && t.id in tabletFilter)
  {
  }

  // ---------------------------------------------------------------------------
  // Checksum scans and their verdict
  // ---------------------------------------------------------------------------

  /** A (tablet id, replica uuid) pair. */
  type Pair = (string, string)

  /** The (tablet, replica) pairs of one tablet, in replica order. */
  function PairsOf(tabletId: string, rs: seq<Replica>): (ps: seq<Pair>)
    ensures |ps| == |rs|
    ensures forall i :: 0 <= i < |rs| ==> ps[i] == (tabletId, rs[i].tsUuid)
  {
    seq(|rs|, i requires 0 <= i < |rs| => (tabletId, rs[i].tsUuid))
  }

  /** A tablet as the checksum scan uses it: its id and its replicas. */
  type Entry = (string, seq<Replica>)

  /** The ids and replica lists of `tablets`, as values. */
  function Entries(tablets: seq<KsckTablet>): (es: seq<Entry>)
    reads tablets
    ensures |es| == |tablets|
    ensures forall k :: 0 <= k < |tablets| ==> es[k] == (tablets[k].id, tablets[k].replicas)
  {
    seq(|tablets|, k reads tablets requires 0 <= k < |tablets| => (tablets[k].id, tablets[k].replicas))
  }

  /** The (tablet, replica) pairs of all of `es`, tablet by tablet. */
  function EntryPairs(es: seq<Entry>): seq<Pair>
    decreases |es|
  {
    if es == [] then []
    else EntryPairs(es[..|es| - 1]) + PairsOf(es[|es| - 1].0, es[|es| - 1].1)
  }

  /** The (tablet, replica) pairs of all of `tablets`, tablet by tablet. */
  function ReplicaPairs(tablets: seq<KsckTablet>): seq<Pair>
    reads tablets
  {
    EntryPairs(Entries(tablets))
  }

  /** The tablet servers of `view` are keyed by their own uuid, as a TSMap is. */
  predicate KeyedByUuid(view: map<string, ServerView>)
  {
    forall u :: u in view ==> view[u].uuid == u
  }

  /** The view of a map keyed by uuid is keyed by uuid. */
  lemma ServersViewKeyed(servers: map<string, KsckTabletServer>)
    requires KeyedServers(servers)
    ensures KeyedByUuid(ServersView(servers))
  {
  }

  /**
   * What reaches the reporter for one (tablet, replica) pair before the
   * deadline: a NotFound error when no tablet server has that uuid, the
   * connection error when the server cannot be reached, the dispatch error
   * when the scan cannot be sent (these three the checker reports itself),
   * and otherwise whatever the server's scan reports in time, if anything.
   */
  function ScanReports(view: map<string, ServerView>, p: Pair): (rs: seq<Report>)
    ensures |rs| <= 1
    ensures KeyedByUuid(view) ==> forall r :: r in rs ==> r.tabletId == p.0 && r.replicaUuid == p.1
    ensures p.1 !in view ==> rs == [Report(p.0, p.1, (Error(NotFound, "tablet server not found"), 0))]
    ensures p.1 in view && !view[p.1].connectOutcome.Ok? ==> rs == [Report(p.0, p.1, (view[p.1].connectOutcome, 0))]
    ensures p.1 in view && view[p.1].connectOutcome.Ok? && !ReplyFor(view[p.1].scanReplies, p.0).dispatch.Ok? ==>
              rs == [Report(p.0, p.1, (ReplyFor(view[p.1].scanReplies, p.0).dispatch, 0))]
    ensures rs == [] <==> p.1 in view && view[p.1].connectOutcome.Ok? &&
                          ReplyFor(view[p.1].scanReplies, p.0).dispatch.Ok? && ReplyFor(view[p.1].scanReplies, p.0).completion.None?
  {
    if p.1 !in view then [Report(p.0, p.1, (Error(NotFound, "tablet server not found"), 0))]
    else ServerScanReports(view[p.1], p.0, p.1)
  }

  /** ScanReports for a replica whose tablet server exists. */
  function ServerScanReports(server: ServerView, tabletId: string, uuid: string): (rs: seq<Report>)
    ensures |rs| <= 1
    ensures server.uuid == uuid ==> forall r :: r in rs ==> r.tabletId == tabletId && r.replicaUuid == uuid
    ensures !server.connectOutcome.Ok? ==> rs == [Report(tabletId, uuid, (server.connectOutcome, 0))]
    ensures server.connectOutcome.Ok? && !ReplyFor(server.scanReplies, tabletId).dispatch.Ok? ==>
              rs == [Report(tabletId, uuid, (ReplyFor(server.scanReplies, tabletId).dispatch, 0))]
    ensures rs == [] <==> server.connectOutcome.Ok? && ReplyFor(server.scanReplies, tabletId).dispatch.Ok? &&
                          ReplyFor(server.scanReplies, tabletId).completion.None?
  {
    if !server.connectOutcome.Ok? then [Report(tabletId, uuid, (server.connectOutcome, 0))]
    else
      var reply := ReplyFor(server.scanReplies, tabletId);
      if !reply.dispatch.Ok? then [Report(tabletId, uuid, (reply.dispatch, 0))]
      else CompletionReports(tabletId, server.uuid, reply)
  }

  /** Every report that reaches the reporter when the pairs `ps` are scanned in order. */
  function ChecksumReports(view: map<string, ServerView>, ps: seq<Pair>): seq<Report>
    decreases |ps|
  {
    if ps == [] then []
    else ChecksumReports(view, ps[..|ps| - 1]) + ScanReports(view, ps[|ps| - 1])
  }

  /** One more scanned pair extends the reports by that pair's reports. */
  lemma ScanStep(view: map<string, ServerView>, before: seq<Report>, ps: seq<Pair>, j: nat, r0: seq<Report>, r1: seq<Report>)
    requires j < |ps|
    requires r0 == before + ChecksumReports(view, ps[..j])
    requires r1 == r0 + ScanReports(view, ps[j])
    ensures r1 == before + ChecksumReports(view, ps[..j + 1])
  {
    assert ps[..j + 1][..j] == ps[..j];
  }

  /** Scanning `a` then `b` delivers the reports of `a` then those of `b`. */
  lemma {:induction false} ChecksumReportsAppend(view: map<string, ServerView>, a: seq<Pair>, b: seq<Pair>)
    ensures ChecksumReports(view, a + b) == ChecksumReports(view, a) + ChecksumReports(view, b)
    decreases |b|
  {
    if b == [] {
      assert a + b == a;
    } else {
      var b' := b[..|b| - 1];
      ChecksumReportsAppend(view, a, b');
      assert (a + b)[..|a + b| - 1] == a + b';
      assert (a + b)[|a + b| - 1] == b[|b| - 1];
      ConcatAssoc(ChecksumReports(view, a), ChecksumReports(view, b'), ScanReports(view, b[|b| - 1]));
    }
  }

  /** One more scanned tablet extends the reports by the reports of its pairs. */
  lemma TabletStep(view: map<string, ServerView>, before: seq<Report>, es: seq<Entry>, i: nat, r0: seq<Report>, r1: seq<Report>)
    requires i < |es|
    requires r0 == before + ChecksumReports(view, EntryPairs(es[..i]))
    requires r1 == r0 + ChecksumReports(view, PairsOf(es[i].0, es[i].1))
    ensures r1 == before + ChecksumReports(view, EntryPairs(es[..i + 1]))
  {
    var done, these := EntryPairs(es[..i]), PairsOf(es[i].0, es[i].1);
    assert EntryPairs(es[..i + 1]) == done + these by {
      assert es[..i + 1][..i] == es[..i];
    }
    ChecksumReportsAppend(view, done, these);
    ConcatAssoc(before, ChecksumReports(view, done), ChecksumReports(view, these));
  }

  /** Concatenation of reports is associative. */
  lemma ConcatAssoc(a: seq<Report>, b: seq<Report>, c: seq<Report>)
    ensures (a + b) + c == a + (b + c)
  {
  }

  /** The replicas of one tablet that reported OK all reported the same checksum. */
  predicate Agree(rm: ReplicaResultMap)
  {
    forall a, b :: a in rm && b in rm && rm[a].0.Ok? && rm[b].0.Ok? ==> rm[a].1 == rm[b].1
  }

  /**
   * What the comparison finds: the expected pairs with no result, the
   * tablets whose replicas disagree, and the pairs that reported an error.
   */
  datatype ChecksumSummary = ChecksumSummary(missing: set<Pair>, mismatched: set<string>, failed: set<Pair>)

  function Summarize(pairs: seq<Pair>, results: TabletResultMap): ChecksumSummary
  {
    ChecksumSummary(
      set p | p in pairs && Lookup(results, p.0, p.1).None?,
      set t | t in results && !Agree(results[t]),
      set t, u | t in results && u in results[t] && !results[t][u].0.Ok? :: (t, u))
  }

  /**
   * What the summary means in terms of single entries: a selected pair is
   * missing when it has no entry, a pair has failed when its entry is an
   * error, and a tablet is mismatched when two of its replicas reported OK
   * with different checksums.
   */
  lemma SummaryMeaning(pairs: seq<Pair>, results: TabletResultMap, t: string, u: string)
    ensures var summary := Summarize(pairs, results);
            && ((t, u) in summary.missing <==> (t, u) in pairs && Lookup(results, t, u).None?)
            && ((t, u) in summary.failed <==> Lookup(results, t, u).Some? && !Lookup(results, t, u).value.0.Ok?)
            && (t in summary.mismatched <==>
                  exists a, b :: Lookup(results, t, a).Some? && Lookup(results, t, b).Some? &&
                                 Lookup(results, t, a).value.0.Ok? && Lookup(results, t, b).value.0.Ok? &&
                                 Lookup(results, t, a).value.1 != Lookup(results, t, b).value.1)
  {
    var summary := Summarize(pairs, results);
    if t in summary.mismatched {
      var a, b :| a in results[t] && b in results[t] && results[t][a].0.Ok? && results[t][b].0.Ok? && results[t][a].1 != results[t][b].1;
      assert Lookup(results, t, a).Some? && Lookup(results, t, b).Some?;
    }
    if exists a, b :: Lookup(results, t, a).Some? && Lookup(results, t, b).Some? &&
                      Lookup(results, t, a).value.0.Ok? && Lookup(results, t, b).value.0.Ok? &&
                      Lookup(results, t, a).value.1 != Lookup(results, t, b).value.1 {
      var a, b :| Lookup(results, t, a).Some? && Lookup(results, t, b).Some? &&
                  Lookup(results, t, a).value.0.Ok? && Lookup(results, t, b).value.0.Ok? &&
                  Lookup(results, t, a).value.1 != Lookup(results, t, b).value.1;
      assert !Agree(results[t]);
    }
  }

  /**
   * The Status of ChecksumData: TimedOut when not every replica reported in
   * time, else Corruption on a checksum mismatch, else Aborted when a replica
   * reported an error, else OK.
   */
  function ChecksumStatus(allReported: bool, summary: ChecksumSummary): Status
  {
    if !allReported then Error(TimedOut, "checksum scan did not complete within the timeout")
    else if summary.mismatched != {} then Error(Corruption, "checksum mismatches were detected")
    else if summary.failed != {} then Error(Aborted, "errors were detected")
    else Ok
  }

  /**
   * The verdict's precedence: a timeout hides everything else, a mismatch
   * hides replica errors, and OK means complete, agreeing and error-free.
   */
  lemma VerdictOrder(allReported: bool, summary: ChecksumSummary)
    ensures var s := ChecksumStatus(allReported, summary);
            && (s.Ok? <==> allReported && summary.mismatched == {} && summary.failed == {})
            && (s.Error? ==> s.code in {TimedOut, Corruption, Aborted})
            && (s.Error? && s.code == TimedOut <==> !allReported)
            && (s.Error? && s.code == Corruption <==> allReported && summary.mismatched != {})
            && (s.Error? && s.code == Aborted <==> allReported && summary.mismatched == {} && summary.failed != {})
  {
  }

  /** At most one report per pair; one for every pair exactly when every scan reported. */
  lemma {:induction false} ChecksumReportsLength(view: map<string, ServerView>, ps: seq<Pair>)
    ensures |ChecksumReports(view, ps)| <= |ps|
    ensures |ChecksumReports(view, ps)| == |ps| <==> forall i :: 0 <= i < |ps| ==> |ScanReports(view, ps[i])| == 1
    decreases |ps|
  {
    if ps != [] {
      var front := ps[..|ps| - 1];
      ChecksumReportsLength(view, front);
      assert forall i :: 0 <= i < |front| ==> front[i] == ps[i];
    }
  }

  /** With servers keyed by uuid, a pair has a report exactly when it was scanned and its scan reported. */
  lemma {:induction false} ChecksumReportsFor(view: map<string, ServerView>, ps: seq<Pair>, t: string, u: string)
    requires KeyedByUuid(view)
    ensures Reported(ChecksumReports(view, ps), t, u) <==> (t, u) in ps && |ScanReports(view, (t, u))| == 1
    decreases |ps|
  {
    if ps != [] {
      var front, last := ps[..|ps| - 1], ps[|ps| - 1];
      ChecksumReportsFor(view, front, t, u);
      ReportedAppend(ChecksumReports(view, front), ScanReports(view, last), t, u);
      ReportedScan(view, last, t, u);
      assert (t, u) in ps <==> (t, u) in front || (t, u) == last;
    }
  }

  /** With servers keyed by uuid, one pair's scan reports for (t, u) exactly when it is that pair and it reported. */
  lemma ReportedScan(view: map<string, ServerView>, p: Pair, t: string, u: string)
    requires KeyedByUuid(view)
    ensures Reported(ScanReports(view, p), t, u) <==> p == (t, u) && |ScanReports(view, p)| == 1
  {
    var rs := ScanReports(view, p);
    if |rs| == 1 {
      assert rs[0] in rs;
    }
  }

  /**
   * With servers keyed by uuid, the reporter's map holds an entry exactly for
   * the scanned pairs whose scan reported; in particular nothing outside the
   * selected pairs.
   */
  lemma ChecksumResultsArePairs(view: map<string, ServerView>, ps: seq<Pair>, t: string, u: string)
    requires KeyedByUuid(view)
    ensures Lookup(Recorded(ChecksumReports(view, ps)), t, u).Some? <==> (t, u) in ps && |ScanReports(view, (t, u))| == 1
  {
    RecordedEntries(ChecksumReports(view, ps), t, u);
    ChecksumReportsFor(view, ps, t, u);
  }

  /**
   * With servers keyed by uuid, the reporter's count reaches zero exactly
   * when no selected pair is missing from its map.
   */
  lemma AllReportedIffNoneMissing(view: map<string, ServerView>, ps: seq<Pair>)
    requires KeyedByUuid(view)
    ensures |ChecksumReports(view, ps)| == |ps| <==> Summarize(ps, Recorded(ChecksumReports(view, ps))).missing == {}
  {
    var results := Recorded(ChecksumReports(view, ps));
    ChecksumReportsLength(view, ps);
    forall p | p in ps ensures Lookup(results, p.0, p.1).Some? <==> |ScanReports(view, p)| == 1 {
      ChecksumResultsArePairs(view, ps, p.0, p.1);
    }
    if Summarize(ps, results).missing == {} {
      forall i | 0 <= i < |ps| ensures |ScanReports(view, ps[i])| == 1 {
        assert ps[i] !in Summarize(ps, results).missing;
      }
    } else {
      var p :| p in Summarize(ps, results).missing;
      var i :| 0 <= i < |ps| && ps[i] == p;
    }
  }

  /** Every selected pair reported OK, and the pairs of one tablet reported one checksum. */
  predicate AllAgreeOk(ps: seq<Pair>, results: TabletResultMap)
  {
    && (forall p :: p in ps ==> Lookup(results, p.0, p.1).Some? && Lookup(results, p.0, p.1).value.0.Ok?)
    && (forall p, q :: p in ps && q in ps && p.0 == q.0 ==>
          Lookup(results, p.0, p.1).Some? && Lookup(results, q.0, q.1).Some? &&
          Lookup(results, p.0, p.1).value.1 == Lookup(results, q.0, q.1).value.1)
  }

  /** A summary with nothing missing, mismatched or failed means every pair reported OK and agreed. */
  lemma CleanSummaryAgrees(ps: seq<Pair>, results: TabletResultMap)
    requires var summary := Summarize(ps, results);
             summary.missing == {} && summary.mismatched == {} && summary.failed == {}
    ensures AllAgreeOk(ps, results)
  {
    var summary := Summarize(ps, results);
    forall p | p in ps ensures Lookup(results, p.0, p.1).Some? && Lookup(results, p.0, p.1).value.0.Ok? {
      assert p !in summary.missing;
      assert (p.0, p.1) !in summary.failed;
    }
    forall p, q | p in ps && q in ps && p.0 == q.0
      ensures Lookup(results, p.0, p.1).Some? && Lookup(results, q.0, q.1).Some?
      ensures Lookup(results, p.0, p.1).value.1 == Lookup(results, q.0, q.1).value.1
    {
      assert p !in summary.missing && q !in summary.missing;
      assert p.0 !in summary.mismatched;
      assert (p.0, p.1) !in summary.failed && (q.0, q.1) !in summary.failed;
    }
  }

  /**
   * When the results hold entries for the pairs `ps` only, every pair
   * reporting OK and agreeing leaves nothing missing, mismatched or failed.
   */
  lemma AgreementCleansSummary(ps: seq<Pair>, results: TabletResultMap)
    requires forall t, u :: Lookup(results, t, u).Some? ==> (t, u) in ps
    requires AllAgreeOk(ps, results)
    ensures var summary := Summarize(ps, results);
            summary.missing == {} && summary.mismatched == {} && summary.failed == {}
  {
    var summary := Summarize(ps, results);
    assert summary.missing == {};
    assert summary.failed == {} by {
      forall t, u | t in results && u in results[t] ensures results[t][u].0.Ok? {
        assert Lookup(results, t, u).Some?;
      }
    }
    assert summary.mismatched == {} by {
      forall t | t in results ensures Agree(results[t]) {
        forall a, b | a in results[t] && b in results[t] && results[t][a].0.Ok? && results[t][b].0.Ok?
          ensures results[t][a].1 == results[t][b].1
        {
          assert Lookup(results, t, a).Some? && Lookup(results, t, b).Some?;
          assert (t, a) in ps && (t, b) in ps;
        }
      }
    }
  }

  /**
   * With servers keyed by uuid, the checksum check passes exactly when every
   * selected replica reported OK and the replicas of each tablet agree, and
   * it times out exactly when some selected replica is missing.
   */
  lemma ChecksumVerdict(view: map<string, ServerView>, ps: seq<Pair>)
    requires KeyedByUuid(view)
    ensures var results := Recorded(ChecksumReports(view, ps));
            var status := ChecksumStatus(|ChecksumReports(view, ps)| == |ps|, Summarize(ps, results));
            && (status.Ok? <==> AllAgreeOk(ps, results))
            && (status.Error? && status.code == TimedOut <==> Summarize(ps, results).missing != {})
  {
    var results := Recorded(ChecksumReports(view, ps));
    AllReportedIffNoneMissing(view, ps);
    forall t, u | Lookup(results, t, u).Some? ensures (t, u) in ps {
      ChecksumResultsArePairs(view, ps, t, u);
    }
    if AllAgreeOk(ps, results) {
      AgreementCleansSummary(ps, results);
    }
    var summary := Summarize(ps, results);
    if summary.missing == {} && summary.mismatched == {} && summary.failed == {} {
      CleanSummaryAgrees(ps, results);
    }
  }

  /** ChecksumVerdict applied to one status and summary. */
  lemma VerdictOf(view: map<string, ServerView>, ps: seq<Pair>, s: Status, summary: ChecksumSummary)
    requires KeyedByUuid(view)
    requires summary == Summarize(ps, Recorded(ChecksumReports(view, ps)))
    requires s == ChecksumStatus(|ChecksumReports(view, ps)| == |ps|, summary)
    ensures s.Ok? <==> AllAgreeOk(ps, Recorded(ChecksumReports(view, ps)))
    ensures s.Error? && s.code == TimedOut <==> summary.missing != {}
  {
    ChecksumVerdict(view, ps);
  }

  // Two tablets with three replicas each, every tablet server reachable.

  /** The names in a scenario: tablets t1 and t2, each with a replica on servers s1, s2 and s3. */
  datatype Names = Names(t1: string, t2: string, s1: string, s2: string, s3: string)

  predicate Distinct(n: Names)
  {
    n.t1 != n.t2 && n.s1 != n.s2 && n.s1 != n.s3 && n.s2 != n.s3
  }

  /** The six (tablet, replica) pairs of the scenario, tablet by tablet. */
  function ScenarioPairs(n: Names): seq<Pair>
  {
    [(n.t1, n.s1), (n.t1, n.s2), (n.t1, n.s3), (n.t2, n.s1), (n.t2, n.s2), (n.t2, n.s3)]
  }

  /** Three reachable servers; s3 answers a scan of t2 with `late`, every other scan with 1234. */
  function ScenarioView(n: Names, late: ScanReply): map<string, ServerView>
  {
    var good := ScanReply(Ok, Some(ChecksumOf(1234)));
    map[n.s1 := ServerView(n.s1, Ok, map[n.t1 := good, n.t2 := good]),
        n.s2 := ServerView(n.s2, Ok, map[n.t1 := good, n.t2 := good]),
        n.s3 := ServerView(n.s3, Ok, map[n.t1 := good, n.t2 := late])]
  }

  /** The 1234 reports of the first five scenario pairs, in scan order. */
  function ScenarioGood(n: Names): (rs: seq<Report>)
    ensures |rs| == 5
    ensures forall i :: 0 <= i < 5 ==> rs[i] == Report(ScenarioPairs(n)[i].0, ScenarioPairs(n)[i].1, (Ok, 1234))
  {
    var ps := ScenarioPairs(n);
    seq(5, i requires 0 <= i < 5 => Report(ps[i].0, ps[i].1, (Ok, 1234)))
  }

  /** Scanning one of the first five scenario pairs delivers its 1234 report. */
  lemma ScenarioScanAt(n: Names, late: ScanReply, i: nat)
    requires Distinct(n) && i < 5
    ensures ScanReports(ScenarioView(n, late), ScenarioPairs(n)[i]) == [ScenarioGood(n)[i]]
  {
  }

  /** Scanning (t2, s3) delivers what `late` delivers. */
  lemma ScenarioScanLast(n: Names, late: ScanReply)
    requires Distinct(n) && late.dispatch.Ok?
    ensures ScanReports(ScenarioView(n, late), ScenarioPairs(n)[5]) == CompletionReports(n.t2, n.s3, late)
  {
  }

  /** Scanning the pairs `ps` then `p` delivers their reports then `p`'s. */
  lemma ChecksumReportsSnoc(view: map<string, ServerView>, ps: seq<Pair>, p: Pair)
    ensures ChecksumReports(view, ps + [p]) == ChecksumReports(view, ps) + ScanReports(view, p)
  {
    ChecksumReportsAppend(view, ps, [p]);
    assert [p][..0] == [];
  }

  /** A prefix is the one before it plus its last element. */
  lemma PrefixSnoc<T>(s: seq<T>, k: nat)
    requires 0 < k <= |s|
    ensures s[..k] == s[..k - 1] + [s[k - 1]]
  {
  }

  /** When the i-th pair's scan delivers exactly rs[i], the first k pairs deliver the first k of rs. */
  lemma {:induction false} ChecksumReportsOfEach(view: map<string, ServerView>, ps: seq<Pair>, rs: seq<Report>, k: nat)
    requires k <= |ps| && k <= |rs|
    requires forall i :: 0 <= i < k ==> ScanReports(view, ps[i]) == [rs[i]]
    ensures ChecksumReports(view, ps[..k]) == rs[..k]
  {
    if k > 0 {
      ChecksumReportsOfEach(view, ps, rs, k - 1);
      PrefixSnoc(ps, k);
      PrefixSnoc(rs, k);
      ChecksumReportsSnoc(view, ps[..k - 1], ps[k - 1]);
      assert ScanReports(view, ps[k - 1]) == [rs[k - 1]];
    }
  }

  /** Scanning the scenario delivers five 1234 reports, then whatever s3's scan of t2 delivers. */
  lemma ScenarioReports(n: Names, late: ScanReply)
    requires Distinct(n) && late.dispatch.Ok?
    ensures ChecksumReports(ScenarioView(n, late), ScenarioPairs(n)) == ScenarioGood(n) + CompletionReports(n.t2, n.s3, late)
  {
    var ps := ScenarioPairs(n);
    forall i | 0 <= i < 5 ensures ScanReports(ScenarioView(n, late), ps[i]) == [ScenarioGood(n)[i]] {
      ScenarioScanAt(n, late, i);
    }
    ChecksumReportsOfEach(ScenarioView(n, late), ps, ScenarioGood(n), 5);
    assert ps == ps[..5] + [ps[5]];
    ChecksumReportsSnoc(ScenarioView(n, late), ps[..5], ps[5]);
    ScenarioScanLast(n, late);
    assert ScenarioGood(n)[..5] == ScenarioGood(n);
  }

  /** The scenario pairs are pairwise distinct. */
  lemma ScenarioPairsDistinct(n: Names, i: nat, j: nat)
    requires Distinct(n) && i < j < 6
    ensures ScenarioPairs(n)[i] != ScenarioPairs(n)[j]
  {
  }

  /** Without an answer from s3 for t2, every scenario pair but (t2, s3) has an entry. */
  lemma ScenarioGoodEntries(n: Names, i: nat)
    requires Distinct(n) && i < 6
    ensures Lookup(Recorded(ScenarioGood(n)), ScenarioPairs(n)[i].0, ScenarioPairs(n)[i].1).None? <==> i == 5
  {
    var rs, ps := ScenarioGood(n), ScenarioPairs(n);
    RecordedEntries(rs, ps[i].0, ps[i].1);
    if i < 5 {
      assert rs[i].tabletId == ps[i].0 && rs[i].replicaUuid == ps[i].1;
    } else {
      forall j | 0 <= j < 5 ensures (rs[j].tabletId, rs[j].replicaUuid) != ps[5] {
        ScenarioPairsDistinct(n, j, 5);
      }
    }
  }

  /** The scenario's reports when s3 answers `c` for t2. */
  function ScenarioAnswered(n: Names, c: uint64): seq<Report>
  {
    ScenarioGood(n) + [Report(n.t2, n.s3, (Ok, c))]
  }

  /** With s3 answering `c` for t2, each scenario pair's entry is its own report. */
  lemma ScenarioAnsweredEntries(n: Names, c: uint64, i: nat)
    requires Distinct(n) && i < 6
    ensures Lookup(Recorded(ScenarioAnswered(n, c)), ScenarioPairs(n)[i].0, ScenarioPairs(n)[i].1)
              == Some((Ok, if i == 5 then c else 1234))
  {
    var rs, ps := ScenarioAnswered(n, c), ScenarioPairs(n);
    assert rs[i].tabletId == ps[i].0 && rs[i].replicaUuid == ps[i].1;
    forall j | i < j < 6 ensures (rs[j].tabletId, rs[j].replicaUuid) != (rs[i].tabletId, rs[i].replicaUuid) {
      ScenarioPairsDistinct(n, i, j);
    }
    LastReportAt(rs, i);
    RecordedIsLastReport(rs, rs[i].tabletId, rs[i].replicaUuid);
  }

  /** With s3 answering `c` for t2, the results hold the scenario pairs' reports and nothing else. */
  lemma ScenarioAnsweredResults(n: Names, c: uint64)
    requires Distinct(n)
    ensures var results, ps := Recorded(ScenarioAnswered(n, c)), ScenarioPairs(n);
            && (forall i :: 0 <= i < 6 ==> Lookup(results, ps[i].0, ps[i].1) == Some((Ok, if i == 5 then c else 1234)))
            && (forall t, u :: Lookup(results, t, u).Some? ==> (t, u) in ps)
  {
    var rs, ps := ScenarioAnswered(n, c), ScenarioPairs(n);
    forall i | 0 <= i < 6 ensures Lookup(Recorded(rs), ps[i].0, ps[i].1) == Some((Ok, if i == 5 then c else 1234)) {
      ScenarioAnsweredEntries(n, c, i);
    }
    forall t, u | Lookup(Recorded(rs), t, u).Some? ensures (t, u) in ps {
      RecordedEntries(rs, t, u);
      var j :| 0 <= j < |rs| && rs[j].tabletId == t && rs[j].replicaUuid == u;
      assert ps[j] == (t, u);
    }
  }

  /**
   * Five replicas report 1234 and s3's scan of t2 does not answer in time:
   * the check times out, naming exactly that pair as missing.
   */
  lemma TimeoutScenario(n: Names)
    requires Distinct(n)
    ensures var view, ps := ScenarioView(n, ScanReply(Ok, None)), ScenarioPairs(n);
            var reports := ChecksumReports(view, ps);
            var summary := Summarize(ps, Recorded(reports));
            && |reports| == 5
            && ChecksumStatus(|reports| == |ps|, summary) == Error(TimedOut, "checksum scan did not complete within the timeout")
            && summary.missing == {(n.t2, n.s3)}
  {
    ScenarioReports(n, ScanReply(Ok, None));
    assert ChecksumReports(ScenarioView(n, ScanReply(Ok, None)), ScenarioPairs(n)) == ScenarioGood(n);
    ScenarioMissing(n);
  }

  /** Only (t2, s3) is missing from the results of the five 1234 reports. */
  lemma ScenarioMissing(n: Names)
    requires Distinct(n)
    ensures Summarize(ScenarioPairs(n), Recorded(ScenarioGood(n))).missing == {(n.t2, n.s3)}
  {
    var ps := ScenarioPairs(n);
    var results := Recorded(ScenarioGood(n));
    forall i | 0 <= i < 6 ensures Lookup(results, ps[i].0, ps[i].1).None? <==> i == 5 {
      ScenarioGoodEntries(n, i);
    }
    var missing := Summarize(ps, results).missing;
    forall p | p in missing ensures p == ps[5] {
      var i :| 0 <= i < 6 && ps[i] == p;
    }
    assert ps[5] in missing;
  }

  /** All six replicas report 1234: the check passes. */
  lemma AgreementScenario(n: Names)
    requires Distinct(n)
    ensures var view, ps := ScenarioView(n, ScanReply(Ok, Some(ChecksumOf(1234)))), ScenarioPairs(n);
            var reports := ChecksumReports(view, ps);
            ChecksumStatus(|reports| == |ps|, Summarize(ps, Recorded(reports))) == Ok
  {
    var late := ScanReply(Ok, Some(ChecksumOf(1234)));
    ScenarioReports(n, late);
    assert ChecksumReports(ScenarioView(n, late), ScenarioPairs(n)) == ScenarioAnswered(n, 1234);
    ScenarioAgreed(n);
  }

  /** The results of six 1234 reports are clean. */
  lemma ScenarioAgreed(n: Names)
    requires Distinct(n)
    ensures var summary := Summarize(ScenarioPairs(n), Recorded(ScenarioAnswered(n, 1234)));
            summary.missing == {} && summary.mismatched == {} && summary.failed == {}
  {
    var results := Recorded(ScenarioAnswered(n, 1234));
    ScenarioAnsweredResults(n, 1234);
    ScenarioAgreement(n, results);
    AgreementCleansSummary(ScenarioPairs(n), results);
  }

  /** Results with 1234 for every scenario pair agree. */
  lemma ScenarioAgreement(n: Names, results: TabletResultMap)
    requires forall i :: 0 <= i < 6 ==> Lookup(results, ScenarioPairs(n)[i].0, ScenarioPairs(n)[i].1) == Some((Ok, 1234))
    ensures AllAgreeOk(ScenarioPairs(n), results)
  {
  }

  /** s3 reports 999 for t2 where every other replica reports 1234: a mismatch on t2 alone. */
  lemma MismatchScenario(n: Names)
    requires Distinct(n)
    ensures var view, ps := ScenarioView(n, ScanReply(Ok, Some(ChecksumOf(999)))), ScenarioPairs(n);
            var reports := ChecksumReports(view, ps);
            var summary := Summarize(ps, Recorded(reports));
            && ChecksumStatus(|reports| == |ps|, summary) == Error(Corruption, "checksum mismatches were detected")
            && summary.mismatched == {n.t2}
  {
    var late := ScanReply(Ok, Some(ChecksumOf(999)));
    var ps := ScenarioPairs(n);
    ScenarioReports(n, late);
    assert ChecksumReports(ScenarioView(n, late), ps) == ScenarioAnswered(n, 999);
    ScenarioAnsweredResults(n, 999);
    ScenarioMismatch(n, Recorded(ScenarioAnswered(n, 999)));
  }

  /** Results with 1234 for every scenario pair but 999 for (t2, s3), and nothing else, disagree on t2 alone. */
  lemma ScenarioMismatch(n: Names, results: TabletResultMap)
    requires Distinct(n)
    requires var ps := ScenarioPairs(n);
             && (forall i :: 0 <= i < 6 ==> Lookup(results, ps[i].0, ps[i].1) == Some((Ok, if i == 5 then 999 else 1234)))
             && (forall t, u :: Lookup(results, t, u).Some? ==> (t, u) in ps)
    ensures Summarize(ScenarioPairs(n), results).mismatched == {n.t2}
  {
    var ps := ScenarioPairs(n);
    assert Lookup(results, ps[3].0, ps[3].1).Some? && Lookup(results, ps[5].0, ps[5].1).Some?;
    assert !Agree(results[n.t2]);
    forall t | t in results && !Agree(results[t]) ensures t == n.t2 {
      var a, b :| a in results[t] && b in results[t] && results[t][a].0.Ok? && results[t][b].0.Ok? && results[t][a].1 != results[t][b].1;
      assert Lookup(results, t, a).Some? && Lookup(results, t, b).Some?;
      var i :| 0 <= i < 6 && ps[i] == (t, a);
      var j :| 0 <= j < 6 && ps[j] == (t, b);
    }
  }

  // ---------------------------------------------------------------------------
  // The checker
  // ---------------------------------------------------------------------------

  /** Runs the checks against `cluster`, which FetchTableAndTabletInfo has populated. */
  class Ksck {
    const cluster: KsckCluster

    constructor (cluster: KsckCluster)
      ensures this.cluster == cluster
    {
      this.cluster := cluster;
    }

    /** Connects to the master unless already connected. */
    method CheckMasterRunning() returns (s: Status)
      modifies cluster.master`connection
      ensures s == old(cluster.master.ConnectOutcome())
      ensures cluster.master.IsConnected() == s.Ok?
      ensures old(cluster.master.IsConnected()) ==> cluster.master.connection == old(cluster.master.connection)
    {
      s := cluster.master.EnsureConnected();
    }

    /**
     * Populates the cluster from the master: tablet servers, then tables, then
     * each table's tablets, stopping at the first call that fails and
     * returning its Status. It succeeds exactly when every retrieve call
     * does, and then the cluster holds the master's tablet servers (keyed by
     * uuid), its tables and each table's tablets.
     */
    method FetchTableAndTabletInfo() returns (s: Status)
      requires cluster.Valid()
      modifies cluster`tabletServers, cluster`tables, cluster.master.tablesReply.1
      ensures cluster.Valid()
      ensures var m := cluster.master;
              s.Ok? <==> m.tabletServersReply.0.Ok? && m.tablesReply.0.Ok? && m.FetchedPrefix(m.tablesReply.1) == |m.tablesReply.1|
      ensures s.Ok? ==>
                && cluster.tabletServers == cluster.master.tabletServersReply.1
                && cluster.tables == cluster.master.tablesReply.1
                && forall t :: t in cluster.tables ==> t.tablets == cluster.master.TabletsReplyFor(t.name).1
      ensures var m := cluster.master;
              !m.tabletServersReply.0.Ok? ==>
                s == m.tabletServersReply.0 && cluster.tabletServers == old(cluster.tabletServers) && cluster.tables == old(cluster.tables)
      ensures var m := cluster.master;
              m.tabletServersReply.0.Ok? && !m.tablesReply.0.Ok? ==>
                s == m.tablesReply.0 && cluster.tables == old(cluster.tables)
      ensures var m := cluster.master;
              !(m.tabletServersReply.0.Ok? && m.tablesReply.0.Ok?) ==>
                forall t :: t in m.tablesReply.1 ==> t.tablets == old(t.tablets)
      ensures var m := cluster.master;
              var k := m.FetchedPrefix(m.tablesReply.1);
              m.tabletServersReply.0.Ok? && m.tablesReply.0.Ok? && k < |m.tablesReply.1| ==>
                && s == m.TabletsReplyFor(m.tablesReply.1[k].name).0
                && (forall t :: t in m.tablesReply.1[..k] ==> t.tablets == m.TabletsReplyFor(t.name).1)
                && (forall t :: t in m.tablesReply.1 && t !in m.tablesReply.1[..k] ==> t.tablets == old(t.tablets))
    {
      s := cluster.FetchTableAndTabletInfo();
      if s.Ok? {
        assert cluster.tables[..|cluster.tables|] == cluster.tables;
      }
    }

    /** Connects to one tablet server unless already connected. */
    method ConnectToTabletServer(ts: KsckTabletServer) returns (s: Status)
      modifies ts`connection
      ensures s == old(ts.ConnectOutcome())
      ensures ts.IsConnected() == s.Ok?
      ensures ts.View() == old(ts.View())
    {
      s := ts.EnsureConnected();
    }

    /**
     * Tries to connect to every tablet server, going on past failures; the
     * result lists every server that could not be reached.
     */
    method CheckTabletServersRunning() returns (s: Status, unreachable: set<string>)
      modifies cluster.tabletServers.Values
      ensures unreachable == set u | u in cluster.tabletServers && !old(cluster.tabletServers[u].ConnectOutcome()).Ok?
      ensures forall u :: u in cluster.tabletServers ==>
                cluster.tabletServers[u].IsConnected() == old(cluster.tabletServers[u].ConnectOutcome()).Ok?
      ensures s == if unreachable == {} then Ok else Error(NetworkError, "Not all Tablet Servers are reachable")
      ensures ServersView(cluster.tabletServers) == old(ServersView(cluster.tabletServers))
    {
      var servers := cluster.tabletServers;
      var todo := servers.Keys;
      unreachable := {};
      while todo != {}
        invariant todo <= servers.Keys
        invariant forall u :: u in servers ==> servers[u].View() == old(servers[u].View())
        invariant forall u :: u in servers.Keys - todo ==> servers[u].IsConnected() == old(servers[u].ConnectOutcome()).Ok?
        invariant unreachable == set u | u in servers.Keys - todo && !old(servers[u].ConnectOutcome()).Ok?
        decreases todo
      {
        var u :| u in todo;
        var st := ConnectToTabletServer(servers[u]);
        if !st.Ok? {
          unreachable := unreachable + {u};
        }
        todo := todo - {u};
      }
      s := if unreachable == {} then Ok else Error(NetworkError, "Not all Tablet Servers are reachable");
    }

    /**
     * Verifies every table, going on past bad ones; the result names every
     * bad table.
     */
    method CheckTablesConsistency() returns (s: Status, badTables: seq<string>)
      ensures badTables == BadTables(cluster.tables)
      ensures s.Ok? <==> forall t :: t in cluster.tables ==> VerifyTable(t)
      ensures !s.Ok? ==> s.code == Corruption
    {
      var tables := cluster.tables;
      badTables := [];
      var i := 0;
      while i < |tables|
        invariant 0 <= i <= |tables|
        invariant badTables == BadTables(tables[..i])
      {
        if !VerifyTable(tables[i]) {
          badTables := badTables + [tables[i].name];
        }
        assert tables[..i + 1][..i] == tables[..i];
        i := i + 1;
      }
      assert tables[..i] == tables;
      if badTables != [] {
        assert badTables[0] in badTables;
        var k :| 0 <= k < |tables| && tables[k].name == badTables[0] && !VerifyTable(tables[k]);
        assert tables[k] in tables;
      } else {
        forall t | t in tables ensures VerifyTable(t) {
          var k :| 0 <= k < |tables| && tables[k] == t;
          assert tables[k].name !in badTables;
        }
      }
      s := if badTables == [] then Ok else Error(Corruption, "table(s) are bad");
    }

    /**
     * Scans one replica into `reporter`, reporting on the server's behalf
     * whatever prevents the scan from being sent.
     */
    method ScanReplica(tabletId: string, uuid: string, reporter: ChecksumResultReporter, ghost view: map<string, ServerView>)
      requires reporter.Valid() && Presents(cluster.tabletServers, view)
      modifies reporter, cluster.tabletServers.Values
      ensures reporter.Valid() && Presents(cluster.tabletServers, view)
      ensures reporter.reports == old(reporter.reports) + ScanReports(view, (tabletId, uuid))
    {
      if uuid !in cluster.tabletServers {
        reporter.ReportError(tabletId, uuid, Error(NotFound, "tablet server not found"));
        return;
      }
      var ts := cluster.tabletServers[uuid];
      ScanOnServer(tabletId, uuid, ts, reporter);
    }

    /** ScanReplica once the replica's tablet server `ts` is found. */
    method ScanOnServer(tabletId: string, uuid: string, ts: KsckTabletServer, reporter: ChecksumResultReporter)
      requires reporter.Valid()
      modifies reporter, ts`connection
      ensures reporter.Valid()
      ensures reporter.reports == old(reporter.reports) + ServerScanReports(old(ts.View()), tabletId, uuid)
      ensures ts.View() == old(ts.View())
    {
      var connected := ConnectToTabletServer(ts);
      if !connected.Ok? {
        reporter.ReportError(tabletId, uuid, connected);
        return;
      }
      var dispatched := ts.RunTabletChecksumScanAsync(tabletId, reporter);
      if !dispatched.Ok? {
        reporter.ReportError(tabletId, uuid, dispatched);
      }
    }

    /**
     * Checksums the selected tablets: scans every replica of every selected
     * tablet into a reporter expecting one result per replica, then compares
     * what came back. The result is TimedOut when some replica did not report,
     * else Corruption on a mismatch, else Aborted on an error, else OK.
     */
    method ChecksumData(tableFilter: seq<string>, tabletFilter: seq<string>) returns (s: Status, summary: ChecksumSummary)
      requires cluster.Valid()
      modifies cluster.tabletServers.Values
      ensures var pairs := old(ReplicaPairs(SelectTablets(cluster.tables, tableFilter, tabletFilter)));
              var reports := ChecksumReports(old(ServersView(cluster.tabletServers)), pairs);
              && summary == Summarize(pairs, Recorded(reports))
              && s == ChecksumStatus(|reports| == |pairs|, summary)
              && (s.Ok? <==> AllAgreeOk(pairs, Recorded(reports)))
              && (s.Error? && s.code == TimedOut <==> summary.missing != {})
      ensures ServersView(cluster.tabletServers) == old(ServersView(cluster.tabletServers))
    {
      var selected := SelectTablets(cluster.tables, tableFilter, tabletFilter);
      var entries := Entries(selected);
      var pairs := EntryPairs(entries);
      assert pairs == ReplicaPairs(SelectTablets(cluster.tables, tableFilter, tabletFilter));
      ghost var view := ServersView(cluster.tabletServers);
      var reporter := new ChecksumResultReporter(|pairs|);
      ScanTablets(entries, reporter, view);
      assert reporter.reports == ChecksumReports(view, pairs);
      ChecksumReportsLength(view, pairs);
      PresentsView(cluster.tabletServers, view);
      s, summary := CompareChecksums(pairs, reporter);
      ServersViewKeyed(cluster.tabletServers);
      VerdictOf(view, pairs, s, summary);
    }

    /** Scans every replica of every tablet of `entries`, tablet by tablet, into `reporter`. */
    method ScanTablets(entries: seq<Entry>, reporter: ChecksumResultReporter, ghost view: map<string, ServerView>)
      requires reporter.Valid() && Presents(cluster.tabletServers, view)
      modifies reporter, cluster.tabletServers.Values
      ensures reporter.Valid() && Presents(cluster.tabletServers, view)
      ensures reporter.reports == old(reporter.reports) + ChecksumReports(view, EntryPairs(entries))
    {
      ghost var before := reporter.reports;
      var i := 0;
      while i < |entries|
        invariant 0 <= i <= |entries|
        invariant reporter.Valid() && Presents(cluster.tabletServers, view)
        invariant reporter.reports == before + ChecksumReports(view, EntryPairs(entries[..i]))
      {
        ghost var r0 := reporter.reports;
        ScanTablet(entries[i].0, entries[i].1, reporter, view);
        TabletStep(view, before, entries, i, r0, reporter.reports);
        i := i + 1;
      }
      assert entries[..i] == entries;
    }

    /**
     * Once the scans of `pairs` have reported into `reporter`: TimedOut
     * unless every expected result came in, otherwise the verdict of the
     * comparison of the reporter's results.
     */
    method CompareChecksums(pairs: seq<Pair>, reporter: ChecksumResultReporter) returns (s: Status, summary: ChecksumSummary)
      requires reporter.Valid() && reporter.expected == |pairs| && |reporter.reports| <= |pairs|
      ensures summary == Summarize(pairs, Recorded(reporter.reports))
      ensures s == ChecksumStatus(|reporter.reports| == |pairs|, summary)
    {
      var allReported := reporter.AllReported();
      var results := reporter.Checksums();
      summary := Summarize(pairs, results);
      s := ChecksumStatus(allReported, summary);
    }

    /** Scans every replica of `tablet`, in order, into `reporter`. */
    method ScanTablet(tabletId: string, replicas: seq<Replica>, reporter: ChecksumResultReporter, ghost view: map<string, ServerView>)
      requires reporter.Valid() && Presents(cluster.tabletServers, view)
      modifies reporter, cluster.tabletServers.Values
      ensures reporter.Valid() && Presents(cluster.tabletServers, view)
      ensures reporter.reports == old(reporter.reports) + ChecksumReports(view, PairsOf(tabletId, replicas))
    {
      ghost var before := reporter.reports;
      ghost var pairs := PairsOf(tabletId, replicas);
      var j := 0;
      while j < |replicas|
        invariant 0 <= j <= |replicas|
        invariant reporter.Valid() && Presents(cluster.tabletServers, view)
        invariant reporter.reports == before + ChecksumReports(view, pairs[..j])
      {
        ghost var r0 := reporter.reports;
        ScanReplica(tabletId, replicas[j].tsUuid, reporter, view);
        ScanStep(view, before, pairs, j, r0, reporter.reports);
        j := j + 1;
      }
      assert pairs[..j] == pairs;
    }
  }
}
