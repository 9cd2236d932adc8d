/**
 * The collaborators ksck talks to: a tablet server, the master, and the
 * cluster that the master's answers populate.
 *
 * In Kudu these collaborators are abstract classes implemented once against
 * a real cluster (over RPC) and once by a test double. Here each is one
 * class whose remote answers are fields (`connectReply`, `scanReplies`,
 * `tabletServersReply`, ...): whatever the network would answer is an input
 * of the model. The methods' postconditions state the guarantees the
 * abstract interface promises: a retrieve call changes its output only when
 * it returns OK, and a checksum scan that was accepted reports at most once.
 */
module Cluster {
  import opened Statuses
  import opened Topology
  import opened Checksums

  /** What a tablet server's scan eventually reports. */
  datatype ScanCompletion = ChecksumOf(value: uint64) | Failed(error: Status)

  /**
   * How a tablet server answers a checksum scan of one tablet: `dispatch` is
   * what the asynchronous call returns; when that is OK, `completion` is the
   * report that reaches the reporter before the caller stops waiting (None:
   * it does not arrive in time).
   */
  datatype ScanReply = ScanReply(dispatch: Status, completion: Option<ScanCompletion>)

  /** A tablet id the server was told nothing about: accepted, never answered in time. */
  function ReplyFor(replies: map<string, ScanReply>, tabletId: string): ScanReply
  {
    if tabletId in replies then replies[tabletId] else ScanReply(Ok, None)
  }

  /**
   * The reports a scan of `tabletId` on the server `uuid` delivers: none if
   * the dispatch failed, one if the completion arrives in time.
   */
  function CompletionReports(tabletId: string, uuid: string, reply: ScanReply): (rs: seq<Report>)
    ensures |rs| <= 1
    ensures !reply.dispatch.Ok? ==> rs == []
    ensures |rs| == 1 <==> reply.dispatch.Ok? && reply.completion.Some?
    ensures forall r :: r in rs ==> r.tabletId == tabletId && r.replicaUuid == uuid
  {
    if !reply.dispatch.Ok? then []
    else match reply.completion
      case None => []
      case Some(ChecksumOf(v)) => [Report(tabletId, uuid, (Ok, v))]
      case Some(Failed(e)) => [Report(tabletId, uuid, (e, 0))]
  }

  /** What a tablet server's next EnsureConnected and scans would do. */
  datatype ServerView = ServerView(uuid: string, connectOutcome: Status, scanReplies: map<string, ScanReply>)

  /** How many times Connect() has been called and what the last call returned. */
  datatype ConnectState = ConnectState(attempts: nat, last: Option<Status>)

  /** A connection state in which a last result exists exactly when Connect() has been called. */
  type ConnectLog = c: ConnectState | (c.attempts == 0) == c.last.None? witness ConnectState(0, None)

  /** A tablet server, known by its permanent uuid. */
  class KsckTabletServer {
    const uuid: string
    var connection: ConnectLog
    /** What Connect() answers. */
    var connectReply: Status
    /** How scans of each tablet are answered. */
    var scanReplies: map<string, ScanReply>

    constructor (uuid: string, connectReply: Status, scanReplies: map<string, ScanReply>)
      ensures this.uuid == uuid && this.connectReply == connectReply && this.scanReplies == scanReplies
      ensures !IsConnected() && connection.attempts == 0
    {
      this.uuid := uuid;
      this.connectReply := connectReply;
      this.scanReplies := scanReplies;
      connection := ConnectState(0, None);
    }

    /** True iff Connect() has been called and its last call succeeded. */
    function IsConnected(): (r: bool)
      reads this
      ensures r <==> connection.attempts > 0 && connection.last.value.Ok?
    {
      connection.last == Some(Ok)
    }

    /** What EnsureConnected() would return now. */
    function ConnectOutcome(): Status
      reads this
    {
      if IsConnected() then Ok else connectReply
    }

    function View(): ServerView
      reads this
    {
      ServerView(uuid, ConnectOutcome(), scanReplies)
    }

    /** Connects to the server; afterwards it is connected iff that succeeded. */
    method Connect() returns (s: Status)
      modifies this`connection
      ensures s == connectReply
      ensures IsConnected() == s.Ok?
      ensures connection.attempts == old(connection.attempts) + 1
    {
      s := connectReply;
      connection := ConnectState(connection.attempts + 1, Some(s));
    }

    /**
     * OK without calling Connect() when already connected; otherwise
     * Connect()'s result. Either way the server is then connected iff the
     * result is OK, and what it presents to the checker is unchanged.
     */
    method EnsureConnected() returns (s: Status)
      modifies this`connection
      ensures old(IsConnected()) ==> s == Ok && IsConnected() && connection == old(connection)
      ensures !old(IsConnected()) ==> s == connectReply && connection.attempts == old(connection.attempts) + 1
      ensures IsConnected() == s.Ok?
      ensures View() == old(View())
    {
      if IsConnected() {
        return Ok;
      }
      s := Connect();
    }

    /**
     * Starts a checksum scan of `tabletId`. When the returned Status is not
     * OK the reporter is left alone (the caller must report the failure);
     * when it is OK the scan reports at most once, under this server's uuid.
     */
    method RunTabletChecksumScanAsync(tabletId: string, reporter: ChecksumResultReporter) returns (s: Status)
      requires reporter.Valid()
      modifies reporter
      ensures reporter.Valid()
      ensures s == ReplyFor(scanReplies, tabletId).dispatch
      ensures !s.Ok? ==> reporter.reports == old(reporter.reports) && reporter.checksumMap == old(reporter.checksumMap)
      ensures reporter.reports == old(reporter.reports) + CompletionReports(tabletId, uuid, ReplyFor(scanReplies, tabletId))
    {
      var reply := ReplyFor(scanReplies, tabletId);
      s := reply.dispatch;
      if s.Ok? {
        match reply.completion {
          case None =>
          case Some(ChecksumOf(v)) => reporter.ReportResult(tabletId, uuid, v);
          case Some(Failed(e)) => reporter.ReportError(tabletId, uuid, e);
        }
      }
    }
  }

  /** The view of every tablet server of a TSMap, by map key. */
  function ServersView(servers: map<string, KsckTabletServer>): (v: map<string, ServerView>)
    reads servers.Values
    ensures v.Keys == servers.Keys
    ensures forall u :: u in servers ==> v[u] == servers[u].View()
  {
    map u | u in servers :: servers[u].View()
  }

  /** Each server of `servers` presents the view `view` holds under its key. */
  ghost predicate Presents(servers: map<string, KsckTabletServer>, view: map<string, ServerView>)
    reads servers.Values
  {
    servers.Keys == view.Keys && forall u :: u in servers ==> servers[u].View() == view[u]
  }

  /** Servers presenting `view` have ServersView `view`. */
  lemma PresentsView(servers: map<string, KsckTabletServer>, view: map<string, ServerView>)
    requires Presents(servers, view)
    ensures ServersView(servers) == view
  {
  }

  /** The tablet servers of `servers` are keyed by their own permanent uuid, as a TSMap is. */
  predicate KeyedServers(servers: map<string, KsckTabletServer>)
  {
    forall u :: u in servers ==> servers[u].uuid == u
  }

  /** The master. Its answers to the retrieve calls are fields. */
  class KsckMaster {
    var connection: ConnectLog
    var connectReply: Status
    /** The answer to RetrieveTabletServers: a TSMap keyed by permanent uuid. */
    const tabletServersReply: (Status, map<string, KsckTabletServer>)
    /** The answer to RetrieveTablesList. */
    var tablesReply: (Status, seq<KsckTable>)
    /** The answer to RetrieveTabletsList, by table name. */
    var tabletsReplies: map<string, (Status, seq<KsckTablet>)>

    /** The master's tablet server map is keyed by permanent uuid. */
    predicate Valid()
    {
      KeyedServers(tabletServersReply.1)
    }

    constructor (connectReply: Status,
                 tabletServersReply: (Status, map<string, KsckTabletServer>),
                 tablesReply: (Status, seq<KsckTable>),
                 tabletsReplies: map<string, (Status, seq<KsckTablet>)>)
      requires KeyedServers(tabletServersReply.1)
      ensures Valid()
      ensures this.connectReply == connectReply && this.tabletServersReply == tabletServersReply
      ensures this.tablesReply == tablesReply && this.tabletsReplies == tabletsReplies
      ensures !IsConnected() && connection.attempts == 0
    {
      this.connectReply := connectReply;
      this.tabletServersReply := tabletServersReply;
      this.tablesReply := tablesReply;
      this.tabletsReplies := tabletsReplies;
      connection := ConnectState(0, None);
    }

    /** True iff Connect() has been called and its last call succeeded. */
    function IsConnected(): (r: bool)
      reads this
      ensures r <==> connection.attempts > 0 && connection.last.value.Ok?
    {
      connection.last == Some(Ok)
    }

    /** What EnsureConnected() would return now. */
    function ConnectOutcome(): Status
      reads this
    {
      if IsConnected() then Ok else connectReply
    }

    /** Connects to the master; afterwards it is connected iff that succeeded. */
    method Connect() returns (s: Status)
      modifies this`connection
      ensures s == connectReply
      ensures IsConnected() == s.Ok?
      ensures connection.attempts == old(connection.attempts) + 1
    {
      s := connectReply;
      connection := ConnectState(connection.attempts + 1, Some(s));
    }

    /** OK without calling Connect() when already connected; otherwise Connect()'s result. */
    method EnsureConnected() returns (s: Status)
      modifies this`connection
      ensures old(IsConnected()) ==> s == Ok && IsConnected() && connection == old(connection)
      ensures !old(IsConnected()) ==> s == connectReply && connection.attempts == old(connection.attempts) + 1
      ensures IsConnected() == s.Ok?
      ensures ConnectOutcome() == old(ConnectOutcome())
    {
      if IsConnected() {
        return Ok;
      }
      s := Connect();
    }

    /** The answer to RetrieveTabletsList for the table called `name`. */
    function TabletsReplyFor(name: string): (Status, seq<KsckTablet>)
      reads this
    {
      if name in tabletsReplies then tabletsReplies[name]
      else (Error(NotFound, "table not found"), [])
    }

    /**
     * How many tables, from the front of `ts`, have their tablets retrieved
     * before the first retrieval that fails.
     */
    function FetchedPrefix(ts: seq<KsckTable>): (k: nat)
      reads this
      ensures k <= |ts|
      ensures forall i :: 0 <= i < k ==> TabletsReplyFor(ts[i].name).0.Ok?
      ensures k < |ts| ==> !TabletsReplyFor(ts[k].name).0.Ok?
    {
      if ts == [] || !TabletsReplyFor(ts[0].name).0.Ok? then 0
      else 1 + FetchedPrefix(ts[1..])
    }

    /**
     * Stores the tablet servers in `cluster` only if the call returns OK;
     * the stored map is keyed by permanent uuid.
     */
    method RetrieveTabletServers(cluster: KsckCluster) returns (s: Status)
      requires Valid()
      modifies cluster`tabletServers
      ensures s == tabletServersReply.0
      ensures s.Ok? ==> KeyedServers(cluster.tabletServers)
      ensures cluster.tabletServers == if s.Ok? then tabletServersReply.1 else old(cluster.tabletServers)
    {
      s := tabletServersReply.0;
      if s.Ok? {
        cluster.tabletServers := tabletServersReply.1;
      }
    }

    /** Stores the tables in `cluster` only if the call returns OK. */
    method RetrieveTablesList(cluster: KsckCluster) returns (s: Status)
      modifies cluster`tables
      ensures s == tablesReply.0
      ensures cluster.tables == if s.Ok? then tablesReply.1 else old(cluster.tables)
    {
      s := tablesReply.0;
      if s.Ok? {
        cluster.tables := tablesReply.1;
      }
    }

    /** Replaces the table's tablet list only if the call returns OK. */
    method RetrieveTabletsList(table: KsckTable) returns (s: Status)
      modifies table`tablets
      ensures s == TabletsReplyFor(table.name).0
      ensures table.tablets == if s.Ok? then TabletsReplyFor(table.name).1 else old(table.tablets)
    {
      var reply := TabletsReplyFor(table.name);
      s := reply.0;
      if s.Ok? {
        table.SetTablets(reply.1);
      }
    }
  }

  /** The cluster as the master describes it. */
  class KsckCluster {
    const master: KsckMaster
    /** TSMap: tablet servers keyed by permanent uuid. */
    var tabletServers: map<string, KsckTabletServer>
    var tables: seq<KsckTable>

    /** The master's map is keyed by uuid, and so is the one stored here. */
    predicate Valid()
      reads this
    {
      master.Valid() && KeyedServers(tabletServers)
    }

    constructor (master: KsckMaster)
      requires master.Valid()
      ensures Valid()
      ensures this.master == master && tabletServers == map[] && tables == []
    {
      this.master := master;
      tabletServers := map[];
      tables := [];
    }

    method RetrieveTabletServers() returns (s: Status)
      requires Valid()
      modifies this`tabletServers
      ensures Valid()
      ensures s == master.tabletServersReply.0
      ensures tabletServers == if s.Ok? then master.tabletServersReply.1 else old(tabletServers)
    {
      s := master.RetrieveTabletServers(this);
    }

    method RetrieveTablesList() returns (s: Status)
      modifies this`tables
      ensures s == master.tablesReply.0
      ensures tables == if s.Ok? then master.tablesReply.1 else old(tables)
    {
      s := master.RetrieveTablesList(this);
    }

    method RetrieveTabletsList(table: KsckTable) returns (s: Status)
      modifies table`tablets
      ensures s == master.TabletsReplyFor(table.name).0
      ensures table.tablets == if s.Ok? then master.TabletsReplyFor(table.name).1 else old(table.tablets)
    {
      s := master.RetrieveTabletsList(table);
    }

    /**
     * Retrieves each table's tablets in order, stopping at the first call
     * that fails and returning its Status.
     */
    method RetrieveAllTabletsLists() returns (s: Status)
      modifies tables
      ensures var k := master.FetchedPrefix(tables);
              && s == (if k == |tables| then Ok else master.TabletsReplyFor(tables[k].name).0)
              && (forall t :: t in tables[..k] ==> t.tablets == master.TabletsReplyFor(t.name).1)
              && (forall t :: t in tables && t !in tables[..k] ==> t.tablets == old(t.tablets))
    {
      ghost var k := master.FetchedPrefix(tables);
      var i := 0;
      while i < |tables|
        invariant 0 <= i <= k
        invariant forall t :: t in tables[..i] ==> t.tablets == master.TabletsReplyFor(t.name).1
        invariant forall t :: t in tables && t !in tables[..i] ==> t.tablets == old(t.tablets)
      {
        s := RetrieveTabletsList(tables[i]);
        if !s.Ok? {
          assert i == k;
          return;
        }
        assert tables[..i + 1] == tables[..i] + [tables[i]];
        i := i + 1;
      }
      assert k == |tables| && tables[..k] == tables;
      s := Ok;
    }

    /**
     * Retrieves the tablet servers, then the tables, then each table's
     * tablets, stopping at the first call that fails and returning its
     * Status. A failed call leaves what it would have written as it was.
     */
    method FetchTableAndTabletInfo() returns (s: Status)
      requires Valid()
      modifies this`tabletServers, this`tables, master.tablesReply.1
      ensures Valid()
      ensures !master.tabletServersReply.0.Ok? ==>
                s == master.tabletServersReply.0 && tabletServers == old(tabletServers) && tables == old(tables)
      ensures master.tabletServersReply.0.Ok? ==> tabletServers == master.tabletServersReply.1
      ensures master.tabletServersReply.0.Ok? && !master.tablesReply.0.Ok? ==>
                s == master.tablesReply.0 && tables == old(tables)
      ensures !(master.tabletServersReply.0.Ok? && master.tablesReply.0.Ok?) ==>
                forall t :: t in master.tablesReply.1 ==> t.tablets == old(t.tablets)
      ensures master.tabletServersReply.0.Ok? && master.tablesReply.0.Ok? ==>
                var k := master.FetchedPrefix(tables);
                && tables == master.tablesReply.1
                && s == (if k == |tables| then Ok else master.TabletsReplyFor(tables[k].name).0)
                && (forall t :: t in tables[..k] ==> t.tablets == master.TabletsReplyFor(t.name).1)
                && (forall t :: t in tables && t !in tables[..k] ==> t.tablets == old(t.tablets))
    {
      s := RetrieveTabletServers();
      if !s.Ok? {
        return;
      }
      s := RetrieveTablesList();
      if !s.Ok? {
        return;
      }
      s := RetrieveAllTabletsLists();
    }
  }
}
