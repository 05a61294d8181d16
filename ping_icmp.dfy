/** `icmp_ping`: `count` echo requests, one after the other, each waiting up to
    the timeout for a reply. */
module PingIcmp {
  import opened Wrappers
  import opened NetTypes
  import opened ProbeModel
  import opened Packet
  import opened RttStats
  import opened PingModel
  import opened PingRun
  import opened SocketIcmp

  /** What happened to one echo request: the send failed, nothing arrived before
      the timeout, the receive failed, or a buffer arrived after `rttMs`. */
  datatype IcmpAttempt =
    | SendFailed(err: string)
    | NoReply
    | RecvFailed(err: string)
    | Received(view: BufferView, rttMs: U64)

  /** The socket configuration: the hop limit becomes the IPv4 TTL or the IPv6
      hop limit, by the destination's family. */
  function IcmpPingConfig(setting: PingSetting): (c: IcmpConfig)
    ensures setting.ip.V4? ==> c.family.IPV4? && c.ttl == Some(setting.hopLimit) && c.hoplimit.None?
    ensures setting.ip.V6? ==> c.family.IPV6? && c.hoplimit == Some(setting.hopLimit) && c.ttl.None?
    ensures c.sockTypeHint == Dgram && c.bind.None?
  {
    if setting.ip.V4? then NewIcmpConfig(KindV4).WithTtl(setting.hopLimit)
    else NewIcmpConfig(KindV6).WithHoplimit(setting.hopLimit)
  }

  /** The reply test of the destination's family. */
  predicate EchoAccepted(dst: IpAddr, v: BufferView)
  {
    if dst.V4? then ParseIcmpEchoV4(v) else ParseIcmpEchoV6(v)
  }

  /** The sample of probe `seqNo`. */
  function IcmpSample(setting: PingSetting, seqNo: U32, a: IcmpAttempt): PingSample
  {
    var (rtt, status) :=
      match a
      case SendFailed(e) => (None, WithErrorMessage("send error: " + e))
      case NoReply => (None, WithTimeoutMessage(TimeoutText(setting.timeoutMs)))
      case RecvFailed(e) => (None, WithErrorMessage("recv error: " + e))
      case Received(v, r) =>
        if EchoAccepted(setting.ip, v) then (Some(r), NewStatus())
        else (None, WithErrorMessage("unexpected reply"));
    PingSample(seqNo, setting.ip, setting.hostname, None, rtt, status, Icmp)
  }

  /** A probe is a reply exactly when an accepted buffer arrived, and then its
      RTT is the measured one; otherwise it carries no RTT and is not Done. */
  lemma IcmpSampleReplied(setting: PingSetting, seqNo: U32, a: IcmpAttempt)
    ensures var x := IcmpSample(setting, seqNo, a);
            (Replied(x) <==> a.Received? && EchoAccepted(setting.ip, a.view))
            && (x.status.IsOk() <==> x.rttMs.Some?)
            && (Replied(x) ==> x.rttMs.value == a.rttMs)
            && x.seqNo == seqNo && x.port.None?
  {
  }

  /** One echo request and the wait for its reply. */
  method IcmpProbe(setting: PingSetting, seqNo: U32, a: IcmpAttempt) returns (sample: PingSample)
    ensures sample == IcmpSample(setting, seqNo, a)
  {
    var status := NewStatus();
    var rtt: Option<U64> := None;
    match a {
      case SendFailed(e) =>
        status := WithErrorMessage("send error: " + e);
      case NoReply =>
        status := WithTimeoutMessage(TimeoutText(setting.timeoutMs));
      case RecvFailed(e) =>
        status := WithErrorMessage("recv error: " + e);
      case Received(v, r) =>
        var ok := if setting.ip.V4? then ParseIcmpEchoV4(v) else ParseIcmpEchoV6(v);
        if ok {
          rtt := Some(r);
        } else {
          status := WithErrorMessage("unexpected reply");
        }
    }
    sample := PingSample(seqNo, setting.ip, setting.hostname, None, rtt, status, Icmp);
  }

  /** The `count` echo requests, reported one by one. */
  method IcmpProbes(setting: PingSetting, attempts: seq<IcmpAttempt>)
    returns (samples: seq<PingSample>, rttsOk: seq<U64>, events: seq<PingEvent>)
    requires |attempts| == setting.count
    ensures |samples| == setting.count
    ensures forall i :: 0 <= i < setting.count ==> samples[i] == IcmpSample(setting, i + 1, attempts[i])
    ensures rttsOk == OkRtts(samples) && events == RunEvents(samples, setting.count, setting.sendRateMs)
  {
    var received := 0;
    samples := [];
    rttsOk := [];
    events := [];
    var seqNo: nat := 1;
    while seqNo <= setting.count
      invariant 1 <= seqNo <= setting.count + 1
      invariant |samples| == seqNo - 1
      invariant forall i :: 0 <= i < |samples| ==> samples[i] == IcmpSample(setting, i + 1, attempts[i])
      invariant rttsOk == OkRtts(samples) && received == ReplyCount(samples)
      invariant events == RunEvents(samples, setting.count, setting.sendRateMs)
    {
      var sample := IcmpProbe(setting, seqNo, attempts[seqNo - 1]);
      samples, rttsOk, received, events := RecordSample(samples, rttsOk, received, events, sample, setting.count, setting.sendRateMs);
      seqNo := seqNo + 1;
    }
  }

  /** The whole run. `socket` is the outcome of opening the ICMP socket, which
      is asked for with the configuration `config`. */
  method IcmpPing(setting: PingSetting, socket: Result<()>, attempts: seq<IcmpAttempt>)
    returns (res: Result<PingStat>, events: seq<PingEvent>, config: IcmpConfig)
    requires |attempts| == setting.count
    ensures config == IcmpPingConfig(setting)
    ensures socket.Err? ==> res == Err("failed to create ICMP socket: " + socket.error) && events == []
    ensures socket.Ok? ==> res.Ok? && |res.value.samples| == setting.count
    ensures socket.Ok? ==> forall i :: 0 <= i < setting.count ==>
              res.value.samples[i] == IcmpSample(setting, i + 1, attempts[i])
    ensures socket.Ok? ==> res.value == DriverStat(setting.ip, setting.hostname, None, Icmp, res.value.samples)
    ensures socket.Ok? ==> events == RunEvents(res.value.samples, setting.count, setting.sendRateMs) + [Finished(res.value)]
  {
    config := IcmpPingConfig(setting);
    if socket.Err? {
      return Err("failed to create ICMP socket: " + socket.error), [], config;
    }
    var samples, rttsOk;
    samples, rttsOk, events := IcmpProbes(setting, attempts);
    var stat;
    stat, events := FinishRun(setting.ip, setting.hostname, None, Icmp, samples, rttsOk, events);
    res := Ok(stat);
  }
}
