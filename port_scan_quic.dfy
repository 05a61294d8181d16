/** `port_scan` over QUIC: a handshake per port, classified by how it ends; the
    report keeps the open ports in the order their probes finished. */
module PortScanQuic {
  import opened Wrappers
  import opened NetTypes
  import opened SocketModel
  import opened ScanModel
  import opened PortScan

  /** How one port's probe ended: the QUIC endpoint could not be made, the
      handshake completed after `rttMs`, or it failed with an error that is an
      `io::Error` of kind `ioKind` or, with `ioKind == None`, some other error
      (the connect deadline among them). */
  datatype QuicScanAttempt =
    | EndpointFailed(err: string)
    | Handshaken(rttMs: U64)
    | HandshakeFailed(ioKind: Option<IoErrorKind>, err: string)

  function QuicVerdict(a: QuicScanAttempt): PortVerdict
  {
    match a
    case EndpointFailed(e) => PortVerdict(Filtered, None, Some("quic endpoint error: " + e))
    case Handshaken(r) => PortVerdict(Open, Some(r), None)
    case HandshakeFailed(k, e) => PortVerdict(if k == Some(TimedOut) then Filtered else Closed, None, Some(e))
  }

  /** Open exactly when the handshake completed, with its RTT; a failed
      handshake is Filtered only for an `io::Error` of kind TimedOut, so an
      error of any other type is Closed. */
  lemma QuicVerdictCases(a: QuicScanAttempt)
    ensures QuicVerdict(a).state == Open <==> a.Handshaken?
    ensures QuicVerdict(a).rttMs.Some? <==> a.Handshaken?
    ensures a.Handshaken? ==> QuicVerdict(a).rttMs == Some(a.rttMs) && QuicVerdict(a).message.None?
    ensures a.EndpointFailed? ==> QuicVerdict(a) == PortVerdict(Filtered, None, Some("quic endpoint error: " + a.err))
    ensures a.HandshakeFailed? ==> (QuicVerdict(a).state == Filtered <==> a.ioKind == Some(TimedOut))
    ensures a.HandshakeFailed? && a.ioKind.None? ==> QuicVerdict(a).state == Closed
  {
  }

  function QuicVerdicts(attempts: seq<QuicScanAttempt>): (r: seq<PortVerdict>)
    ensures |r| == |attempts|
  {
    seq(|attempts|, i requires 0 <= i < |attempts| => QuicVerdict(attempts[i]))
  }

  /** The TLS server name: the configured host name, else the address text. */
  function QuicScanServerName(setting: PortScanSetting, ipText: string): (name: string)
    ensures setting.hostname.Some? ==> name == setting.hostname.value
    ensures setting.hostname.None? ==> name == ipText
  {
    setting.hostname.UnwrapOr(ipText)
  }

  /** `port_scan` with QUIC; the parameters are those of the TCP scan, `db`
      being the UDP service database and `ipText` the address's text.
      `serverName` is the TLS server name every handshake is made with. */
  method QuicPortScan(runId: string, setting: PortScanSetting, ipText: string, ports: seq<U16>, shuffled: seq<U16>,
                      attempts: seq<QuicScanAttempt>, order: seq<nat>, db: map<U16, string>)
    returns (report: PortScanReport, progress: seq<PortScanSample>, serverName: string, done: PortScanReport)
    requires !setting.ordered ==> multiset(shuffled) == multiset(ports)
    requires |attempts| == |ports| && IsCompletionOrder(order, |ports|)
    ensures var dispatched := DispatchOrder(ports, shuffled, setting.ordered);
            progress == Completions(setting.ip, dispatched, QuicVerdicts(attempts), order, |ports|, Wrap32(|ports|))
    ensures report == PortScanReport(runId, setting.ip, setting.hostname, setting.protocol, OpenOf(progress, db))
    ensures done == report
    ensures serverName == QuicScanServerName(setting, ipText)
  {
    var dispatched := DispatchOrder(ports, shuffled, setting.ordered);
    serverName := setting.hostname.UnwrapOr(ipText);
    var open;
    progress, open := CollectSamples(setting.ip, dispatched, QuicVerdicts(attempts), order, db);
    report := PortScanReport(runId, setting.ip, setting.hostname, setting.protocol, open);
    // `portscan:done` carries a copy of the report that is returned.
    done := report;
  }
}
