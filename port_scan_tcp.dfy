/** `port_scan` over TCP: a connect per port, classified by how it ends; the
    report keeps the open ports, sorted by port. */
module PortScanTcp {
  import opened Wrappers
  import opened NetTypes
  import opened SocketModel
  import opened ScanModel
  import opened PortScan

  /** How one port's probe ended: no socket could be made, the connection was
      established after `rttMs`, or connecting failed with an error. */
  datatype TcpScanAttempt =
    | SocketFailed(err: string)
    | Connected(rttMs: U64)
    | ConnectFailed(kind: IoErrorKind, err: string)

  /** The port state a connect error stands for. */
  function ConnectErrorState(kind: IoErrorKind): PortState
  {
    match kind
    case TimedOut => Filtered
    case ConnectionRefused | ConnectionReset | NotConnected => Closed
    case NetworkUnreachable | HostUnreachable | AddrNotAvailable => Filtered
    case _ => Closed
  }

  /** A connect error means Filtered exactly when the peer could not be
      reached in time or at all; every other error means Closed. */
  lemma ConnectErrorStateFiltered(kind: IoErrorKind)
    ensures ConnectErrorState(kind) != Open
    ensures ConnectErrorState(kind) == Filtered
            <==> kind in {TimedOut, NetworkUnreachable, HostUnreachable, AddrNotAvailable}
  {
  }

  function TcpVerdict(a: TcpScanAttempt): PortVerdict
  {
    match a
    case SocketFailed(e) => PortVerdict(Filtered, None, Some("tcp socket error: " + e))
    case Connected(r) => PortVerdict(Open, Some(r), None)
    case ConnectFailed(k, e) => PortVerdict(ConnectErrorState(k), None, Some(e))
  }

  /** Open exactly when the connection was established, and then with its RTT;
      a failure to make the socket is Filtered. */
  lemma TcpVerdictCases(a: TcpScanAttempt)
    ensures TcpVerdict(a).state == Open <==> a.Connected?
    ensures TcpVerdict(a).rttMs.Some? <==> a.Connected?
    ensures a.Connected? ==> TcpVerdict(a).rttMs == Some(a.rttMs) && TcpVerdict(a).message.None?
    ensures a.SocketFailed? ==> TcpVerdict(a) == PortVerdict(Filtered, None, Some("tcp socket error: " + a.err))
    ensures a.ConnectFailed? ==> TcpVerdict(a).message == Some(a.err)
  {
  }

  function TcpVerdicts(attempts: seq<TcpScanAttempt>): (r: seq<PortVerdict>)
    ensures |r| == |attempts|
  {
    seq(|attempts|, i requires 0 <= i < |attempts| => TcpVerdict(attempts[i]))
  }

  predicate SortedByPort(s: seq<PortScanSample>)
  {
    forall j, k :: 0 <= j < k < |s| ==> s[j].port <= s[k].port
  }

  /** Inserts `x` after every element whose port is not above its own. */
  function InsertByPort(s: seq<PortScanSample>, x: PortScanSample): (r: seq<PortScanSample>)
    ensures |r| == |s| + 1
  {
    if s == [] then [x]
    else if x.port < s[0].port then [x] + s
    else [s[0]] + InsertByPort(s[1..], x)
  }

  lemma {:induction false} InsertByPortKeeps(s: seq<PortScanSample>, x: PortScanSample)
    ensures multiset(InsertByPort(s, x)) == multiset(s) + multiset{x}
    ensures forall y :: y in InsertByPort(s, x) <==> y in s || y == x
  {
    if s != [] && x.port >= s[0].port {
      InsertByPortKeeps(s[1..], x);
      assert s == [s[0]] + s[1..];
    }
  }

  lemma {:induction false} InsertByPortSorted(s: seq<PortScanSample>, x: PortScanSample)
    requires SortedByPort(s)
    ensures SortedByPort(InsertByPort(s, x))
  {
    if s != [] && x.port >= s[0].port {
      InsertByPortSorted(s[1..], x);
      InsertByPortKeeps(s[1..], x);
      var r := InsertByPort(s, x);
      assert r == [s[0]] + InsertByPort(s[1..], x);
      forall k | 0 < k < |r|
        ensures s[0].port <= r[k].port
      {
        assert r[k] in InsertByPort(s[1..], x);
      }
    }
  }

  /** `sort_by_key(|s| s.port)` */
  method SortByPort(s: seq<PortScanSample>) returns (r: seq<PortScanSample>)
    ensures SortedByPort(r) && multiset(r) == multiset(s)
  {
    r := [];
    var i := 0;
    while i < |s|
      invariant i <= |s|
      invariant SortedByPort(r) && multiset(r) == multiset(s[..i])
    {
      InsertByPortSorted(r, s[i]);
      InsertByPortKeeps(r, s[i]);
      assert s[..i + 1] == s[..i] + [s[i]];
      r := InsertByPort(r, s[i]);
      i := i + 1;
    }
    assert s[..i] == s;
  }

  /** `port_scan` with TCP. `ports` is what `expand_ports` gives, `shuffled`
      the shuffle used when not ordered, `attempts[i]` how the probe of the
      `i`-th dispatched port ends, `order` the order the probes finish in and
      `db` the TCP service database. */
  method TcpPortScan(runId: string, setting: PortScanSetting, ports: seq<U16>, shuffled: seq<U16>,
                     attempts: seq<TcpScanAttempt>, order: seq<nat>, db: map<U16, string>)
    returns (report: PortScanReport, progress: seq<PortScanSample>, done: PortScanReport)
    requires !setting.ordered ==> multiset(shuffled) == multiset(ports)
    requires |attempts| == |ports| && IsCompletionOrder(order, |ports|)
    ensures var dispatched := DispatchOrder(ports, shuffled, setting.ordered);
            progress == Completions(setting.ip, dispatched, TcpVerdicts(attempts), order, |ports|, Wrap32(|ports|))
    ensures report.runId == runId && report.ip == setting.ip && report.hostname == setting.hostname
            && report.protocol == setting.protocol
    ensures done == report
    ensures SortedByPort(report.samples) && multiset(report.samples) == multiset(OpenOf(progress, db))
  {
    var dispatched := DispatchOrder(ports, shuffled, setting.ordered);
    var open;
    progress, open := CollectSamples(setting.ip, dispatched, TcpVerdicts(attempts), order, db);
    var sorted := SortByPort(open);
    report := PortScanReport(runId, setting.ip, setting.hostname, setting.protocol, sorted);
    // `portscan:done` carries a copy of the report that is returned.
    done := report;
  }

  /** The report holds exactly the open ports, each named from the database. */
  lemma TcpReportExact(report: PortScanReport, progress: seq<PortScanSample>, db: map<U16, string>)
    requires multiset(report.samples) == multiset(OpenOf(progress, db))
    ensures forall x :: x in report.samples <==>
              exists y :: y in progress && y.state == Open && x == y.(serviceName := ServiceName(db, y.port))
  {
    OpenOfExact(progress, db);
    forall x
      ensures x in report.samples <==> x in OpenOf(progress, db)
    {
      assert x in report.samples <==> x in multiset(report.samples);
    }
  }
}
