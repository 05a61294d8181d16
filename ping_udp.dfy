/** `udp_ping_icmp_unreach`: `count` UDP datagrams to port 33435, each answered,
    if the destination is up, by an ICMP Destination Unreachable. */
module PingUdp {
  import opened Wrappers
  import opened NetTypes
  import opened ProbeModel
  import opened Packet
  import opened RttStats
  import opened PingModel
  import opened PingRun
  import opened SocketModel
  import opened SocketUdp
  import SocketIcmp

  const BASE_TARGET_UDP_PORT: U16 := 33435

  /** A buffer read from the ICMP socket `rttMs` after the datagram was sent. */
  datatype Arrival = Arrival(view: BufferView, rttMs: U64)

  /** How the wait ended when no Destination Unreachable came: the timer fired,
      or a receive on the ICMP socket failed `rttMs` after the send. */
  datatype ListenEnd = Expired | RecvFailed(err: string, rttMs: U64)

  /** What happened to one datagram: the send failed, or the buffers that arrived
      while waiting and how the wait ended. */
  datatype UdpAttempt =
    | SendFailed(err: string)
    | Listened(arrivals: seq<Arrival>, end: ListenEnd)

  /** The sending socket: the destination's family, the hop limit as TTL or hop
      limit, bound to the unspecified address of that family on any port. */
  function UdpPingConfig(setting: PingSetting): (c: UdpConfig)
    ensures c.family == (if setting.ip.V4? then IPV4 else IPV6) && c.socketType == UdpDgram
    ensures setting.ip.V4? ==> c.ttl == Some(setting.hopLimit) && c.hoplimit.None?
    ensures setting.ip.V6? ==> c.hoplimit == Some(setting.hopLimit) && c.ttl.None?
    ensures c.bindAddr.Some? && c.bindAddr.value.port == 0 && SameFamily(c.bindAddr.value.ip, setting.ip)
  {
    var base := DefaultUdpConfig().(family := if setting.ip.V4? then IPV4 else IPV6);
    var bind := SocketAddr(UnspecifiedLike(setting.ip), 0);
    if setting.ip.V4? then base.(ttl := Some(setting.hopLimit), bindAddr := Some(bind))
    else base.(hoplimit := Some(setting.hopLimit), bindAddr := Some(bind))
  }

  /** The time of the first arrival that is a Destination Unreachable for the
      destination's family, if any. */
  function FirstUnreachable(dst: IpAddr, local: IpAddr, arrivals: seq<Arrival>): (r: Option<U64>)
    ensures r.Some? <==> exists i :: 0 <= i < |arrivals| && IsPortUnreachFor(dst, local, arrivals[i].view)
  {
    if arrivals == [] then None
    else if IsPortUnreachFor(dst, local, arrivals[0].view) then Some(arrivals[0].rttMs)
    else
      var r := FirstUnreachable(dst, local, arrivals[1..]);
      assert forall i :: 0 < i < |arrivals| ==> arrivals[1..][i - 1] == arrivals[i];
      r
  }

  /** The inner receive loop: read buffers until one is a Destination Unreachable. */
  method AwaitUnreachable(dst: IpAddr, local: IpAddr, arrivals: seq<Arrival>) returns (found: Option<U64>)
    ensures found == FirstUnreachable(dst, local, arrivals)
  {
    var i := 0;
    while i < |arrivals|
      invariant 0 <= i <= |arrivals|
      invariant FirstUnreachable(dst, local, arrivals) == FirstUnreachable(dst, local, arrivals[i..])
    {
      assert arrivals[i..][1..] == arrivals[i + 1..];
      var ok := match (dst, local)
        case (V4(_, _, _, _), V4(_, _, _, _)) => IsPortUnreachV4(arrivals[i].view)
        case (V6(_), V6(_)) => IsPortUnreachV6(arrivals[i].view)
        case _ => false;
      if ok {
        return Some(arrivals[i].rttMs);
      }
      i := i + 1;
    }
    return None;
  }

  /** The sample as the source builds it. `matched` is `timeout(..).is_ok()`,
      which is true also when the wait ended with a receive error. */
  function UdpSampleAsWritten(setting: PingSetting, local: IpAddr, seqNo: U32, a: UdpAttempt): PingSample
  {
    var (rtt, status) :=
      match a
      case SendFailed(e) => (None, WithErrorMessage("send error: " + e))
      case Listened(arrivals, end) =>
        var found := FirstUnreachable(setting.ip, local, arrivals);
        if found.Some? then (found, NewStatus())
        else if end.RecvFailed? then (Some(end.rttMs), NewStatus())
        else (None, WithTimeoutMessage(TimeoutText(setting.timeoutMs)));
    PingSample(seqNo, setting.ip, setting.hostname, Some(BASE_TARGET_UDP_PORT), rtt, status, Udp)
  }

  /** As written, a failed receive with no Destination Unreachable at all is
      reported as a reply. */
  lemma RecvErrorCountsAsReply(setting: PingSetting, local: IpAddr)
    ensures Replied(UdpSampleAsWritten(setting, local, 1, Listened([], RecvFailed("recv failed", 7))))
    ensures FirstUnreachable(setting.ip, local, []).None?
  {
  }

  /** The sample with a failed receive reported as an error, as every other
      driver reports it. */
  function UdpSample(setting: PingSetting, local: IpAddr, seqNo: U32, a: UdpAttempt): PingSample
  {
    var (rtt, status) :=
      match a
      case SendFailed(e) => (None, WithErrorMessage("send error: " + e))
      case Listened(arrivals, end) =>
        var found := FirstUnreachable(setting.ip, local, arrivals);
        if found.Some? then (found, NewStatus())
        else if end.RecvFailed? then (None, WithErrorMessage("recv error: " + end.err))
        else (None, WithTimeoutMessage(TimeoutText(setting.timeoutMs)));
    PingSample(seqNo, setting.ip, setting.hostname, Some(BASE_TARGET_UDP_PORT), rtt, status, Udp)
  }

  /** A probe is a reply exactly when a Destination Unreachable of the
      destination's family arrived before the wait ended; it is a Timeout exactly
      when the timer fired first. */
  lemma UdpSampleReplied(setting: PingSetting, local: IpAddr, seqNo: U32, a: UdpAttempt)
    ensures var x := UdpSample(setting, local, seqNo, a);
            (Replied(x) <==> a.Listened? && exists i :: 0 <= i < |a.arrivals| && IsPortUnreachFor(setting.ip, local, a.arrivals[i].view))
            && (x.status.IsOk() <==> x.rttMs.Some?)
            && (x.status.IsTimeout() <==> a.Listened? && FirstUnreachable(setting.ip, local, a.arrivals).None? && a.end.Expired?)
            && x.port == Some(33435)
  {
  }

  /** The two differ only on a failed receive without a Destination Unreachable. */
  lemma AsWrittenDiffersOnlyOnRecvError(setting: PingSetting, local: IpAddr, seqNo: U32, a: UdpAttempt)
    ensures UdpSampleAsWritten(setting, local, seqNo, a) != UdpSample(setting, local, seqNo, a)
            <==> a.Listened? && FirstUnreachable(setting.ip, local, a.arrivals).None? && a.end.RecvFailed?
  {
  }

  /** One probe: send, then wait for a Port Unreachable. */
  method UdpProbe(setting: PingSetting, local: IpAddr, seqNo: U32, a: UdpAttempt) returns (sample: PingSample)
    ensures sample == UdpSample(setting, local, seqNo, a)
  {
    var status := NewStatus();
    var rtt: Option<U64> := None;
    match a {
      case SendFailed(e) =>
        status := WithErrorMessage("send error: " + e);
      case Listened(arrivals, end) =>
        var found := AwaitUnreachable(setting.ip, local, arrivals);
        if found.Some? {
          rtt := found;
        } else if end.RecvFailed? {
          status := WithErrorMessage("recv error: " + end.err);
        } else {
          status := WithTimeoutMessage(TimeoutText(setting.timeoutMs));
        }
    }
    sample := PingSample(seqNo, setting.ip, setting.hostname, Some(BASE_TARGET_UDP_PORT), rtt, status, Udp);
  }

  /** The `count` probes, reported one by one. */
  method UdpProbes(setting: PingSetting, local: IpAddr, attempts: seq<UdpAttempt>)
    returns (samples: seq<PingSample>, rttsOk: seq<U64>, events: seq<PingEvent>)
    requires |attempts| == setting.count
    ensures |samples| == setting.count
    ensures forall i :: 0 <= i < setting.count ==> samples[i] == UdpSample(setting, local, i + 1, attempts[i])
    ensures rttsOk == OkRtts(samples) && events == RunEvents(samples, setting.count, setting.sendRateMs)
  {
    var received := 0;
    samples := [];
    rttsOk := [];
    events := [];
    var seqNo: nat := 1;
    while seqNo <= setting.count
      invariant 1 <= seqNo <= setting.count + 1
      invariant |samples| == seqNo - 1
      invariant forall i :: 0 <= i < |samples| ==> samples[i] == UdpSample(setting, local, i + 1, attempts[i])
      invariant rttsOk == OkRtts(samples) && received == ReplyCount(samples)
      invariant events == RunEvents(samples, setting.count, setting.sendRateMs)
    {
      var sample := UdpProbe(setting, local, seqNo, attempts[seqNo - 1]);
      samples, rttsOk, received, events := RecordSample(samples, rttsOk, received, events, sample, setting.count, setting.sendRateMs);
      seqNo := seqNo + 1;
    }
  }

  /** The whole run. `udpSetup` is the outcome of making the UDP socket and
      reading its local address (the `Ok` value); `icmpSetup` is the error of
      making the ICMP socket, `None` when it opens. Off Windows the sending
      socket is asked for with `sender`, and the listening one with `listener`
      only once the UDP side has succeeded; on Windows no socket is asked for. */
  method UdpPing(setting: PingSetting, platform: Platform, udpSetup: Result<IpAddr>, icmpSetup: Option<string>,
                 attempts: seq<UdpAttempt>)
    returns (res: Result<PingStat>, events: seq<PingEvent>,
             sender: Option<UdpConfig>, listener: Option<SocketIcmp.IcmpConfig>)
    requires |attempts| == setting.count
    ensures platform == Windows ==> sender.None? && listener.None?
    ensures platform != Windows ==> sender == Some(UdpPingConfig(setting))
    ensures platform != Windows && udpSetup.Ok? ==>
              listener == Some(SocketIcmp.NewIcmpConfig(if setting.ip.V4? then SocketIcmp.KindV4 else SocketIcmp.KindV6))
    ensures udpSetup.Err? ==> listener.None?
    ensures platform == Windows ==> res == Err("UDP ping via ICMP Port Unreachable is not supported on Windows.") && events == []
    ensures platform != Windows && udpSetup.Err? ==> res == Err(udpSetup.error) && events == []
    ensures platform != Windows && udpSetup.Ok? && icmpSetup.Some? ==> res == Err(icmpSetup.value) && events == []
    ensures platform != Windows && udpSetup.Ok? && icmpSetup.None? ==> res.Ok? && |res.value.samples| == setting.count
    ensures platform != Windows && udpSetup.Ok? && icmpSetup.None? ==> forall i :: 0 <= i < setting.count ==>
              res.value.samples[i] == UdpSample(setting, udpSetup.value, i + 1, attempts[i])
    ensures platform != Windows && udpSetup.Ok? && icmpSetup.None? ==>
              res.value == DriverStat(setting.ip, setting.hostname, Some(BASE_TARGET_UDP_PORT), Udp, res.value.samples)
    ensures platform != Windows && udpSetup.Ok? && icmpSetup.None? ==>
              events == RunEvents(res.value.samples, setting.count, setting.sendRateMs) + [Finished(res.value)]
  {
    if platform == Windows {
      return Err("UDP ping via ICMP Port Unreachable is not supported on Windows."), [], None, None;
    }
    sender := Some(UdpPingConfig(setting));
    if udpSetup.Err? {
      return Err(udpSetup.error), [], sender, None;
    }
    listener := Some(SocketIcmp.NewIcmpConfig(if setting.ip.V4? then SocketIcmp.KindV4 else SocketIcmp.KindV6));
    if icmpSetup.Some? {
      return Err(icmpSetup.value), [], sender, listener;
    }
    var local := udpSetup.value;
    var samples, rttsOk;
    samples, rttsOk, events := UdpProbes(setting, local, attempts);
    var stat;
    stat, events := FinishRun(setting.ip, setting.hostname, Some(BASE_TARGET_UDP_PORT), Udp, samples, rttsOk, events);
    res := Ok(stat);
  }
}
