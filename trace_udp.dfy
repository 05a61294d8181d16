/** `udp_traceroute`: UDP datagrams with TTL (or hop limit) 1, 2, … to ports
    from 33435 up, the hops' ICMP answers read from one ICMP socket, until a
    Destination Unreachable comes back. */
module TraceUdp {
  import opened Wrappers
  import opened NetTypes
  import opened SocketModel
  import opened SocketIcmp
  import opened SocketUdp
  import opened TraceModel

  const WINDOWS_UNSUPPORTED := "UDP traceroute is not supported on Windows (ICMP capture limitation)."

  /** The ICMP socket that listens for the hops' answers. */
  function UdpTraceIcmpConfig(dst: IpAddr): (c: IcmpConfig)
    ensures c.family == (if dst.V4? then IPV4 else IPV6) && c.ttl.None? && c.hoplimit.None? && c.bind.None?
  {
    NewIcmpConfig(if dst.V4? then KindV4 else KindV6)
  }

  /** The sending socket of one TTL: the destination's family, the TTL as IPv4
      TTL or IPv6 hop limit, bound to the unspecified address on any port. */
  function UdpTraceConfig(dst: IpAddr, ttl: Byte): (c: UdpConfig)
    ensures c.family == (if dst.V4? then IPV4 else IPV6) && c.socketType == UdpDgram
    ensures dst.V4? ==> c.ttl == Some(ttl) && c.hoplimit.None?
    ensures dst.V6? ==> c.hoplimit == Some(ttl) && c.ttl.None?
    ensures c.bindAddr == Some(SocketAddr(UnspecifiedLike(dst), 0))
  {
    var base := DefaultUdpConfig().(family := if dst.V4? then IPV4 else IPV6);
    var bind := SocketAddr(UnspecifiedLike(dst), 0);
    if dst.V4? then base.(ttl := Some(ttl), bindAddr := Some(bind))
    else base.(hoplimit := Some(ttl), bindAddr := Some(bind))
  }

  /** The sending sockets of TTLs 1 to `n`, in order. */
  function UdpTraceConfigs(dst: IpAddr, n: nat): (r: seq<UdpConfig>)
    requires n <= 255
    ensures |r| == n
  {
    if n == 0 then [] else UdpTraceConfigs(dst, n - 1) + [UdpTraceConfig(dst, n)]
  }

  lemma {:induction false} UdpTraceConfigsAt(dst: IpAddr, n: nat, i: nat)
    requires i < n <= 255
    ensures UdpTraceConfigs(dst, n)[i] == UdpTraceConfig(dst, i + 1)
  {
    if i < n - 1 {
      UdpTraceConfigsAt(dst, n - 1, i);
    }
  }

  /** What the UDP traceroute produces: nothing on Windows, nothing when the
      ICMP socket cannot be opened, otherwise the trace of the oracle. */
  function UdpTraceRun(setting: TracerouteSetting, platform: Platform, icmpSocket: Result<()>, oracle: seq<HopOracle>): (r: TraceRun)
    requires |oracle| == setting.maxHops
    ensures platform == Windows ==> r == TraceRun([], Err(WINDOWS_UNSUPPORTED))
    ensures platform != Windows && icmpSocket.Err? ==> r == TraceRun([], Err(icmpSocket.error))
    ensures platform != Windows && icmpSocket.Ok? ==> r == TraceFrom(TraceUdp, setting.ip, setting.maxHops, oracle, 1)
  {
    if platform == Windows then TraceRun([], Err(WINDOWS_UNSUPPORTED))
    else if icmpSocket.Err? then TraceRun([], Err(icmpSocket.error))
    else TraceFrom(TraceUdp, setting.ip, setting.maxHops, oracle, 1)
  }

  /** The UDP traceroute. `icmpSocket` is the outcome of opening the listening
      socket; `oracle[ttl - 1]` is what opening the UDP socket of TTL `ttl`
      and reading its local address gave. */
  method UdpTraceroute(setting: TracerouteSetting, platform: Platform, icmpSocket: Result<()>, oracle: seq<HopOracle>)
    returns (result: Result<bool>, events: seq<TraceHop>, configs: seq<UdpConfig>)
    requires |oracle| == setting.maxHops
    requires forall i :: 0 <= i < |oracle| && oracle[i].Socket? ==> |oracle[i].tries| == setting.triesPerHop
    ensures TraceRun(events, result) == UdpTraceRun(setting, platform, icmpSocket, oracle)
    ensures platform == Windows || icmpSocket.Err? ==> configs == []
    ensures |configs| <= setting.maxHops
    ensures configs == UdpTraceConfigs(setting.ip, |configs|)
  {
    if platform == Windows {
      return Err(WINDOWS_UNSUPPORTED), [], [];
    }
    if icmpSocket.Err? {
      return Err(icmpSocket.error), [], [];
    }
    result, events, configs := TraceHops(setting, oracle);
  }

  /** The TTL loop of the UDP traceroute, once the listening socket is open. */
  method TraceHops(setting: TracerouteSetting, oracle: seq<HopOracle>)
    returns (result: Result<bool>, events: seq<TraceHop>, configs: seq<UdpConfig>)
    requires |oracle| == setting.maxHops
    requires forall i :: 0 <= i < |oracle| && oracle[i].Socket? ==> |oracle[i].tries| == setting.triesPerHop
    ensures TraceRun(events, result) == TraceFrom(TraceUdp, setting.ip, setting.maxHops, oracle, 1)
    ensures |configs| == |events| + (if result.Err? then 1 else 0) <= setting.maxHops
    ensures configs == UdpTraceConfigs(setting.ip, |configs|)
  {
    events := [];
    configs := [];
    var ttl := 1;
    assert [] + TraceFrom(TraceUdp, setting.ip, setting.maxHops, oracle, 1).hops == TraceFrom(TraceUdp, setting.ip, setting.maxHops, oracle, 1).hops;
    while ttl <= setting.maxHops
      invariant 1 <= ttl <= setting.maxHops + 1
      invariant TraceFrom(TraceUdp, setting.ip, setting.maxHops, oracle, 1)
        == TraceRun(events + TraceFrom(TraceUdp, setting.ip, setting.maxHops, oracle, ttl).hops,
                    TraceFrom(TraceUdp, setting.ip, setting.maxHops, oracle, ttl).result)
      invariant |configs| == |events| == ttl - 1
      invariant configs == UdpTraceConfigs(setting.ip, ttl - 1)
    {
      configs := configs + [UdpTraceConfig(setting.ip, ttl)];
      assert configs == UdpTraceConfigs(setting.ip, ttl);
      match oracle[ttl - 1] {
        case NoSocket(e) =>
          TraceFromUnfold(TraceUdp, setting.ip, setting.maxHops, oracle, ttl);
          result := Err(e);
          return;
        case Socket(local, tries) =>
          var best, keys := ProbeHop(TraceUdp, setting.ip, local, ttl, tries);
          TraceAppendHop(TraceUdp, setting.ip, setting.maxHops, oracle, ttl, events, best);
          events := events + [best];
          if best.reached {
            result := Ok(true);
            return;
          }
      }
      ttl := ttl + 1;
    }
    result := Ok(false);
    TraceFromEnd(TraceUdp, setting.ip, setting.maxHops, oracle);
    assert events + [] == events;
  }
}
