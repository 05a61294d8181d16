/** `tcp_ping`: `count` TCP connection attempts; the handshake time is the RTT. */
module PingTcp {
  import opened Wrappers
  import opened NetTypes
  import opened ProbeModel
  import opened RttStats
  import opened PingModel
  import opened PingRun
  import opened SocketModel

  /** What happened to one attempt: the socket could not be made, the connection
      was established after `rttMs`, or connecting failed with an error of `kind`. */
  datatype TcpAttempt =
    | SocketFailed(err: string)
    | Connected(rttMs: U64)
    | ConnectFailed(kind: IoErrorKind, err: string)

  /** The destination port: the configured one, 80 by default. */
  function TcpPingPort(setting: PingSetting): (p: U16)
    ensures setting.port.Some? ==> p == setting.port.value
    ensures setting.port.None? ==> p == 80
  {
    setting.port.UnwrapOr(80)
  }

  /** The socket each attempt opens: a stream socket of the destination's
      family with Nagle's algorithm off; the hop limit becomes the IPv4 TTL or
      the IPv6 hop limit. */
  datatype TcpProbeConfig = TcpProbeConfig(ipv6: bool, nodelay: Option<bool>, ttl: Option<Byte>, hoplimit: Option<Byte>)

  function TcpPingConfig(setting: PingSetting): (c: TcpProbeConfig)
    ensures c.ipv6 <==> setting.ip.V6?
    ensures c.nodelay == Some(true)
    ensures setting.ip.V4? ==> c.ttl == Some(setting.hopLimit) && c.hoplimit.None?
    ensures setting.ip.V6? ==> c.hoplimit == Some(setting.hopLimit) && c.ttl.None?
  {
    TcpProbeConfig(setting.ip.V6?, Some(true),
                   if setting.ip.V4? then Some(setting.hopLimit) else None,
                   if setting.ip.V6? then Some(setting.hopLimit) else None)
  }

  function TcpSample(setting: PingSetting, seqNo: U32, a: TcpAttempt): PingSample
  {
    var (rtt, status) :=
      match a
      case SocketFailed(e) => (None, WithErrorMessage("socket error: " + e))
      case Connected(r) => (Some(r), NewStatus())
      case ConnectFailed(k, e) =>
        if k == TimedOut then (None, WithTimeoutMessage(TimeoutText(setting.timeoutMs)))
        else (None, WithErrorMessage("connect error: " + e));
    PingSample(seqNo, setting.ip, setting.hostname, Some(TcpPingPort(setting)), rtt, status, Tcp)
  }

  /** A probe is a reply exactly when the connection was established; a timed-out
      connect is a Timeout and every other failure an Error. */
  lemma TcpSampleReplied(setting: PingSetting, seqNo: U32, a: TcpAttempt)
    ensures var x := TcpSample(setting, seqNo, a);
            (Replied(x) <==> a.Connected?)
            && (x.status.IsOk() <==> x.rttMs.Some?)
            && (a.Connected? ==> x.rttMs == Some(a.rttMs))
            && (x.status.IsTimeout() <==> a.ConnectFailed? && a.kind == TimedOut)
            && x.port == Some(TcpPingPort(setting))
  {
  }

  /** One connection attempt. */
  method TcpProbe(setting: PingSetting, port: U16, seqNo: U32, a: TcpAttempt) returns (sample: PingSample)
    requires port == TcpPingPort(setting)
    ensures sample == TcpSample(setting, seqNo, a)
  {
    if a.SocketFailed? {
      // The socket could not be made: report the probe and go on with the next.
      return PingSample(seqNo, setting.ip, setting.hostname, Some(port), None,
                        WithErrorMessage("socket error: " + a.err), Tcp);
    }
    var status := NewStatus();
    var rtt: Option<U64> := None;
    match a {
      case Connected(r) =>
        rtt := Some(r);
      case ConnectFailed(k, e) =>
        if k == TimedOut {
          status := WithTimeoutMessage(TimeoutText(setting.timeoutMs));
        } else {
          status := WithErrorMessage("connect error: " + e);
        }
    }
    sample := PingSample(seqNo, setting.ip, setting.hostname, Some(port), rtt, status, Tcp);
  }

  /** `tcp_ping`. `configs` are the socket configurations the attempts open,
      one per attempt. */
  method TcpPing(setting: PingSetting, attempts: seq<TcpAttempt>)
    returns (res: Result<PingStat>, events: seq<PingEvent>, configs: seq<TcpProbeConfig>)
    requires |attempts| == setting.count
    ensures |configs| == setting.count && forall i :: 0 <= i < |configs| ==> configs[i] == TcpPingConfig(setting)
    ensures res.Ok? && |res.value.samples| == setting.count
    ensures forall i :: 0 <= i < setting.count ==> res.value.samples[i] == TcpSample(setting, i + 1, attempts[i])
    ensures res.value == DriverStat(setting.ip, setting.hostname, Some(TcpPingPort(setting)), Tcp, res.value.samples)
    ensures events == RunEvents(res.value.samples, setting.count, setting.sendRateMs) + [Finished(res.value)]
  {
    var port := setting.port.UnwrapOr(80);
    var samples: seq<PingSample> := [];
    var rttsOk: seq<U64> := [];
    var received := 0;
    events := [];
    configs := [];
    var seqNo: nat := 1;
    while seqNo <= setting.count
      invariant 1 <= seqNo <= setting.count + 1
      invariant |samples| == seqNo - 1 && |configs| == seqNo - 1
      invariant forall i :: 0 <= i < |configs| ==> configs[i] == TcpPingConfig(setting)
      invariant forall i :: 0 <= i < |samples| ==> samples[i] == TcpSample(setting, i + 1, attempts[i])
      invariant rttsOk == OkRtts(samples) && received == ReplyCount(samples)
      invariant events == RunEvents(samples, setting.count, setting.sendRateMs)
    {
      var cfg := TcpPingConfig(setting);
      configs := configs + [cfg];
      var sample := TcpProbe(setting, port, seqNo, attempts[seqNo - 1]);
      samples, rttsOk, received, events := RecordSample(samples, rttsOk, received, events, sample, setting.count, setting.sendRateMs);
      seqNo := seqNo + 1;
    }
    var stat;
    stat, events := FinishRun(setting.ip, setting.hostname, Some(port), Tcp, samples, rttsOk, events);
    res := Ok(stat);
  }
}
