/** `icmp_traceroute`: echo requests with TTL (or hop limit) 1, 2, … through a
    fresh ICMP socket per TTL, until an Echo Reply comes back. */
module TraceIcmp {
  import opened Wrappers
  import opened NetTypes
  import opened SocketModel
  import opened SocketIcmp
  import opened TraceModel

  /** The socket of one TTL: the destination's family, the TTL as IPv4 TTL or
      IPv6 hop limit, bound to the source address when it has that family. */
  function IcmpTraceConfig(dst: IpAddr, src: IpAddr, ttl: Byte): (c: IcmpConfig)
    ensures dst.V4? ==> c.family.IPV4? && c.ttl == Some(ttl) && c.hoplimit.None?
    ensures dst.V6? ==> c.family.IPV6? && c.hoplimit == Some(ttl) && c.ttl.None?
    ensures c.bind == (if SameFamily(src, dst) then Some(SocketAddr(src, 0)) else None)
    ensures c.sockTypeHint == Dgram
  {
    if dst.V4? then
      var c := NewIcmpConfig(KindV4).WithTtl(ttl);
      if src.V4? then c.WithBind(SocketAddr(src, 0)) else c
    else
      var c := NewIcmpConfig(KindV6).WithHoplimit(ttl);
      if src.V6? then c.WithBind(SocketAddr(src, 0)) else c
  }

  /** The sockets of TTLs 1 to `n`, in order. */
  function IcmpTraceConfigs(dst: IpAddr, src: IpAddr, n: nat): (r: seq<IcmpConfig>)
    requires n <= 255
    ensures |r| == n
  {
    if n == 0 then [] else IcmpTraceConfigs(dst, src, n - 1) + [IcmpTraceConfig(dst, src, n)]
  }

  lemma {:induction false} IcmpTraceConfigsAt(dst: IpAddr, src: IpAddr, n: nat, i: nat)
    requires i < n <= 255
    ensures IcmpTraceConfigs(dst, src, n)[i] == IcmpTraceConfig(dst, src, i + 1)
  {
    if i < n - 1 {
      IcmpTraceConfigsAt(dst, src, n - 1, i);
    }
  }

  /** The ICMP traceroute. `oracle[ttl - 1]` is what opening the socket of
      TTL `ttl` gave (the local address is not used by this trace); `events`
      are the hops reported, `configs` the sockets asked for. */
  method IcmpTraceroute(setting: TracerouteSetting, src: IpAddr, oracle: seq<HopOracle>)
    returns (result: Result<bool>, events: seq<TraceHop>, configs: seq<IcmpConfig>)
    requires |oracle| == setting.maxHops
    requires forall i :: 0 <= i < |oracle| && oracle[i].Socket? ==> |oracle[i].tries| == setting.triesPerHop
    ensures TraceRun(events, result) == TraceFrom(TraceIcmp, setting.ip, setting.maxHops, oracle, 1)
    ensures |configs| == |events| + (if result.Err? then 1 else 0) <= setting.maxHops
    ensures configs == IcmpTraceConfigs(setting.ip, src, |configs|)
  {
    events := [];
    configs := [];
    var ttl := 1;
    assert [] + TraceFrom(TraceIcmp, setting.ip, setting.maxHops, oracle, 1).hops == TraceFrom(TraceIcmp, setting.ip, setting.maxHops, oracle, 1).hops;
    while ttl <= setting.maxHops
      invariant 1 <= ttl <= setting.maxHops + 1
      invariant TraceFrom(TraceIcmp, setting.ip, setting.maxHops, oracle, 1)
        == TraceRun(events + TraceFrom(TraceIcmp, setting.ip, setting.maxHops, oracle, ttl).hops,
                    TraceFrom(TraceIcmp, setting.ip, setting.maxHops, oracle, ttl).result)
      invariant |configs| == |events| == ttl - 1
      invariant configs == IcmpTraceConfigs(setting.ip, src, ttl - 1)
    {
      configs := configs + [IcmpTraceConfig(setting.ip, src, ttl)];
      assert configs == IcmpTraceConfigs(setting.ip, src, ttl);
      match oracle[ttl - 1] {
        case NoSocket(e) =>
          TraceFromUnfold(TraceIcmp, setting.ip, setting.maxHops, oracle, ttl);
          result := Err(e);
          return;
        case Socket(local, tries) =>
          var best, keys := ProbeHop(TraceIcmp, setting.ip, local, ttl, tries);
          TraceAppendHop(TraceIcmp, setting.ip, setting.maxHops, oracle, ttl, events, best);
          events := events + [best];
          if best.reached {
            result := Ok(true);
            return;
          }
      }
      ttl := ttl + 1;
    }
    result := Ok(false);
    TraceFromEnd(TraceIcmp, setting.ip, setting.maxHops, oracle);
    assert events + [] == events;
  }
}
