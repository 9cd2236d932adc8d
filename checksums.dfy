/**
 * ChecksumResultReporter: the collector that the asynchronous checksum scans
 * report into. It holds a countdown of the responses still expected and the
 * map tablet id -> replica uuid -> (Status, checksum). The spin lock that
 * guards the map and the blocking, time-bounded wait are not modelled: every
 * report is one sequential step.
 */
module Checksums {
  import opened Statuses

  /** What one replica reported: its Status and, on OK, its checksum. */
  type ResultPair = (Status, uint64)
  type ReplicaResultMap = map<string, ResultPair>
  type TabletResultMap = map<string, ReplicaResultMap>

  /** One call of ReportResult or ReportError. */
  datatype Report = Report(tabletId: string, replicaUuid: string, result: ResultPair)

  /** The entry the map holds for (t, u), if any. */
  function Lookup(m: TabletResultMap, t: string, u: string): Option<ResultPair>
  {
    if t in m && u in m[t] then Some(m[t][u]) else None
  }

  /**
   * The map update HandleResponse makes: the entry for the report's
   * (tablet, replica) is written, creating the tablet's inner map when it is
   * the first report for that tablet; every other entry stays as it was.
   */
  function Record(m: TabletResultMap, r: Report): (m': TabletResultMap)
    ensures m'.Keys == m.Keys + {r.tabletId}
    ensures m'[r.tabletId].Keys ==
              (if r.tabletId in m then m[r.tabletId].Keys else {}) + {r.replicaUuid}
    ensures Lookup(m', r.tabletId, r.replicaUuid) == Some(r.result)
    ensures forall t, u :: (t, u) != (r.tabletId, r.replicaUuid) ==> Lookup(m', t, u) == Lookup(m, t, u)
  {
    var inner := if r.tabletId in m then m[r.tabletId] else map[];
    m[r.tabletId := inner[r.replicaUuid := r.result]]
  }

  /** The map after the reports `rs`, made in order, into an empty map. */
  function Recorded(rs: seq<Report>): TabletResultMap
    decreases |rs|
  {
    if rs == [] then map[] else Record(Recorded(rs[..|rs| - 1]), rs[|rs| - 1])
  }

  /** Some report in `rs` is for tablet `t` and replica `u`. */
  predicate Reported(rs: seq<Report>, t: string, u: string)
  {
    exists i :: 0 <= i < |rs| && rs[i].tabletId == t && rs[i].replicaUuid == u
  }

  /** A pair reported in `a + b` exactly when it reported in `a` or in `b`. */
  lemma ReportedAppend(a: seq<Report>, b: seq<Report>, t: string, u: string)
    ensures Reported(a + b, t, u) <==> Reported(a, t, u) || Reported(b, t, u)
  {
    if Reported(a + b, t, u) {
      var i :| 0 <= i < |a + b| && (a + b)[i].tabletId == t && (a + b)[i].replicaUuid == u;
      if i >= |a| {
        assert b[i - |a|] == (a + b)[i];
      }
    }
    if Reported(a, t, u) {
      var i :| 0 <= i < |a| && a[i].tabletId == t && a[i].replicaUuid == u;
      assert (a + b)[i] == a[i];
    }
    if Reported(b, t, u) {
      var i :| 0 <= i < |b| && b[i].tabletId == t && b[i].replicaUuid == u;
      assert (a + b)[|a| + i] == b[i];
    }
  }

  /** The result of the last report in `rs` for (t, u), if there is one. */
  function LastReport(rs: seq<Report>, t: string, u: string): Option<ResultPair>
    decreases |rs|
  {
    if rs == [] then None
    else if rs[|rs| - 1].tabletId == t && rs[|rs| - 1].replicaUuid == u then Some(rs[|rs| - 1].result)
    else LastReport(rs[..|rs| - 1], t, u)
  }

  /** The latch's count after `reported` count-downs from `expected`; it stops at zero. */
  function Outstanding(expected: nat, reported: nat): (n: nat)
    ensures reported <= expected ==> n == expected - reported
    ensures n == 0 <==> reported >= expected
  {
    if reported < expected then expected - reported else 0
  }

  /** A later report for the same (tablet, replica) overwrites an earlier one. */
  lemma {:induction false} RecordedIsLastReport(rs: seq<Report>, t: string, u: string)
    ensures Lookup(Recorded(rs), t, u) == LastReport(rs, t, u)
    decreases |rs|
  {
    if rs != [] {
      RecordedIsLastReport(rs[..|rs| - 1], t, u);
    }
  }

  /** There is a last report for (t, u) exactly when (t, u) reported at all. */
  lemma {:induction false} LastReportIffReported(rs: seq<Report>, t: string, u: string)
    ensures LastReport(rs, t, u).Some? <==> Reported(rs, t, u)
    decreases |rs|
  {
    if rs != [] {
      var front := rs[..|rs| - 1];
      LastReportIffReported(front, t, u);
      if Reported(rs, t, u) && !(rs[|rs| - 1].tabletId == t && rs[|rs| - 1].replicaUuid == u) {
        var i :| 0 <= i < |rs| && rs[i].tabletId == t && rs[i].replicaUuid == u;
        assert front[i] == rs[i];
      }
      if Reported(front, t, u) {
        var i :| 0 <= i < |front| && front[i].tabletId == t && front[i].replicaUuid == u;
        assert rs[i] == front[i];
      }
    }
  }

  /** A report that no later report repeats the pair of is the last one for its pair. */
  lemma {:induction false} LastReportAt(rs: seq<Report>, i: nat)
    requires i < |rs|
    requires forall j :: i < j < |rs| ==> (rs[j].tabletId, rs[j].replicaUuid) != (rs[i].tabletId, rs[i].replicaUuid)
    ensures LastReport(rs, rs[i].tabletId, rs[i].replicaUuid) == Some(rs[i].result)
    decreases |rs|
  {
    if i < |rs| - 1 {
      var front := rs[..|rs| - 1];
      assert front[i] == rs[i];
      LastReportAt(front, i);
    }
  }

  /**
   * The map holds an entry for (t, u) exactly when some report was for
   * (t, u), and then it holds that pair's last result.
   */
  lemma RecordedEntries(rs: seq<Report>, t: string, u: string)
    ensures (t in Recorded(rs) && u in Recorded(rs)[t]) <==> Reported(rs, t, u)
    ensures Reported(rs, t, u) ==> Some(Recorded(rs)[t][u]) == LastReport(rs, t, u)
  {
    RecordedIsLastReport(rs, t, u);
    LastReportIffReported(rs, t, u);
  }

  /** Some report in `rs` is for tablet `t`. */
  predicate TabletReported(rs: seq<Report>, t: string)
  {
    exists i :: 0 <= i < |rs| && rs[i].tabletId == t
  }

  /**
   * The keys of the map are exactly the tablet ids that reported, and each
   * tablet's inner keys are exactly the replica uuids that reported for it.
   */
  lemma {:induction false} RecordedKeys(rs: seq<Report>)
    ensures forall t :: t in Recorded(rs) <==> TabletReported(rs, t)
    ensures forall t, u :: t in Recorded(rs) ==> (u in Recorded(rs)[t] <==> Reported(rs, t, u))
    decreases |rs|
  {
    if rs != [] {
      var front, last := rs[..|rs| - 1], rs[|rs| - 1];
      RecordedKeys(front);
      forall t ensures t in Recorded(rs) <==> TabletReported(rs, t) {
        if TabletReported(rs, t) && t != last.tabletId {
          var i :| 0 <= i < |rs| && rs[i].tabletId == t;
          assert front[i] == rs[i];
        }
        if TabletReported(front, t) {
          var i :| 0 <= i < |front| && front[i].tabletId == t;
          assert rs[i] == front[i];
        }
      }
      forall t, u | t in Recorded(rs) ensures u in Recorded(rs)[t] <==> Reported(rs, t, u) {
        RecordedEntries(rs, t, u);
      }
    }
  }

  /**
   * The collector of checksum results. `reports` is the history of
   * ReportResult and ReportError calls; Valid() ties the countdown and the
   * map to it.
   */
  class ChecksumResultReporter {
    /** num_tablet_replicas: the number of (tablet, replica) results expected. */
    const expected: nat
    /** The count of the `responses_` latch. */
    var responses: nat
    /** `checksums_`: tablet id -> replica uuid -> (Status, checksum). */
    var checksumMap: TabletResultMap
    ghost var reports: seq<Report>

    ghost predicate Valid()
      reads this
    {
      && responses == Outstanding(expected, |reports|)
      && checksumMap == Recorded(reports)
    }

    constructor (numTabletReplicas: nat)
      ensures Valid()
      ensures expected == numTabletReplicas && responses == numTabletReplicas
      ensures checksumMap == map[] && reports == []
    {
      expected := numTabletReplicas;
      responses := numTabletReplicas;
      checksumMap := map[];
      reports := [];
    }

    /** Records a successful scan: the entry becomes (OK, checksum). */
    method ReportResult(tabletId: string, replicaUuid: string, checksum: uint64)
      requires Valid()
      modifies this
      ensures Valid()
      ensures reports == old(reports) + [Report(tabletId, replicaUuid, (Ok, checksum))]
      ensures Lookup(checksumMap, tabletId, replicaUuid) == Some((Ok, checksum))
      ensures forall t, u :: (t, u) != (tabletId, replicaUuid) ==>
                Lookup(checksumMap, t, u) == Lookup(old(checksumMap), t, u)
      ensures responses == if old(responses) == 0 then 0 else old(responses) - 1
    {
      HandleResponse(tabletId, replicaUuid, Ok, checksum);
    }

    /** Records a failed scan: the entry becomes (status, 0). */
    method ReportError(tabletId: string, replicaUuid: string, status: Status)
      requires Valid()
      modifies this
      ensures Valid()
      ensures reports == old(reports) + [Report(tabletId, replicaUuid, (status, 0))]
      ensures Lookup(checksumMap, tabletId, replicaUuid) == Some((status, 0))
      ensures forall t, u :: (t, u) != (tabletId, replicaUuid) ==>
                Lookup(checksumMap, t, u) == Lookup(old(checksumMap), t, u)
      ensures responses == if old(responses) == 0 then 0 else old(responses) - 1
    {
      HandleResponse(tabletId, replicaUuid, status, 0);
    }

    /**
     * Writes the entry for (tabletId, replicaUuid) and counts the latch down
     * once; a latch already at zero stays at zero.
     */
    method HandleResponse(tabletId: string, replicaUuid: string, status: Status, checksum: uint64)
      requires Valid()
      modifies this
      ensures Valid()
      ensures reports == old(reports) + [Report(tabletId, replicaUuid, (status, checksum))]
      ensures checksumMap == Record(old(checksumMap), Report(tabletId, replicaUuid, (status, checksum)))
      ensures responses == if old(responses) == 0 then 0 else old(responses) - 1
    {
      var r := Report(tabletId, replicaUuid, (status, checksum));
      checksumMap := Record(checksumMap, r);
      if responses > 0 {
        responses := responses - 1;
      }
      reports := reports + [r];
      assert reports[..|reports| - 1] == old(reports);
    }

    /** True iff every expected replica has reported, i.e. the latch is at zero. */
    function AllReported(): (r: bool)
      reads this
      requires Valid()
      ensures r <==> |reports| >= expected
    {
      responses == 0
    }

    /**
     * A copy of the result map: its keys are the tablets that reported, its
     * inner keys the replicas that reported for each, and each entry is the
     * last result reported for it.
     */
    function Checksums(): (m: TabletResultMap)
      reads this
      requires Valid()
      ensures forall t :: t in m <==> TabletReported(reports, t)
      ensures forall t, u :: t in m ==> (u in m[t] <==> Reported(reports, t, u))
      ensures forall t, u :: Lookup(m, t, u) == LastReport(reports, t, u)
    {
      RecordedKeys(reports);
      assert forall t, u :: Lookup(checksumMap, t, u) == LastReport(reports, t, u) by {
        forall t, u ensures Lookup(checksumMap, t, u) == LastReport(reports, t, u) {
          RecordedIsLastReport(reports, t, u);
        }
      }
      checksumMap
    }
  }
}
