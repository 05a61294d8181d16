/** Settings, progress records and reports of the host, port and neighbour
    scans, and the default neighbour-scan setting built from an interface. */
module ScanModel {
  import opened Wrappers
  import opened NetTypes

  datatype PortScanProtocol = ScanTcp | ScanQuic

  datatype TargetPortsPreset = Common | WellKnown | Full | Top1000 | Custom

  datatype PortState = Open | Closed | Filtered

  datatype PortScanSample = PortScanSample(
    ip: IpAddr,
    port: U16,
    state: PortState,
    rttMs: Option<U64>,
    message: Option<string>,
    serviceName: Option<string>,
    done: U32,
    total: U32)

  /** The durable result of a port scan, which the `portscan:done` event also carries. */
  datatype PortScanReport = PortScanReport(
    runId: string,
    ip: IpAddr,
    hostname: Option<string>,
    protocol: PortScanProtocol,
    samples: seq<PortScanSample>)

  datatype PortScanSetting = PortScanSetting(
    ip: IpAddr,
    hostname: Option<string>,
    preset: TargetPortsPreset,
    userPorts: seq<U16>,
    protocol: PortScanProtocol,
    timeoutMs: U64,
    ordered: bool)

  datatype HostState = Alive | Unreachable

  datatype HostScanSetting = HostScanSetting(
    targets: seq<IpAddr>,
    hopLimit: Byte,
    timeoutMs: U64,
    count: U32,
    payload: Option<string>,
    ordered: bool,
    concurrency: Option<nat>)

  datatype HostScanProgress = HostScanProgress(
    ip: IpAddr,
    state: HostState,
    rttMs: Option<U64>,
    message: Option<string>,
    done: U32,
    total: U32)

  /** The durable result of a host scan, which the `hostscan:done` event also carries. */
  datatype HostScanReport = HostScanReport(runId: string, alive: seq<(IpAddr, U64)>, unreachable: seq<IpAddr>, total: U32)

  datatype NeighborHost = NeighborHost(
    ip: IpAddr,
    mac: Option<Mac>,
    vendor: Option<string>,
    rttMs: Option<U64>,
    tags: seq<string>)

  datatype NeighborScanReport = NeighborScanReport(runId: string, neighbors: seq<NeighborHost>, total: U32)

  /** The parts of a `netdev::Interface` the scans read: its own addresses, its
      gateway's addresses per family, and its DNS servers. */
  datatype Gateway = Gateway(ipv4: seq<Ipv4Addr>, ipv6: seq<Ipv6Addr>)
  datatype NetInterface = NetInterface(
    ipv4Addrs: seq<Ipv4Addr>,
    ipv6Addrs: seq<Ipv6Addr>,
    gateway: Option<Gateway>,
    dnsServers: seq<IpAddr>)

  /** `Interface::ip_addrs`: the IPv4 addresses, then the IPv6 ones. */
  function OwnAddrs(iface: NetInterface): (r: seq<IpAddr>)
    ensures forall ip :: ip in r <==> ip in iface.ipv4Addrs || ip in iface.ipv6Addrs
  {
    iface.ipv4Addrs + iface.ipv6Addrs
  }

  /** The host addresses `.1` to `.n` of the /24 holding `gw`, in order. */
  function Subnet24(gw: Ipv4Addr, n: nat): (r: seq<IpAddr>)
    requires n <= 254
    ensures |r| == n
  {
    if n == 0 then [] else Subnet24(gw, n - 1) + [V4(gw.a, gw.b, gw.c, n)]
  }

  lemma {:induction false} Subnet24At(gw: Ipv4Addr, n: nat, i: nat)
    requires i < n <= 254
    ensures Subnet24(gw, n)[i] == V4(gw.a, gw.b, gw.c, i + 1)
  {
    if i < n - 1 {
      Subnet24At(gw, n - 1, i);
    }
  }

  /** The addresses a neighbour scan probes: the hosts of the gateway's first
      IPv4 address' /24, or none without such a gateway address. */
  function NeighborTargets(iface: NetInterface): seq<IpAddr>
  {
    if iface.gateway.Some? && |iface.gateway.value.ipv4| > 0
    then Subnet24(iface.gateway.value.ipv4[0], 254)
    else []
  }

  /** `HostScanSetting::neighbor_scan_default` */
  method NeighborScanDefault(iface: NetInterface) returns (s: HostScanSetting)
    ensures s.targets == NeighborTargets(iface)
    ensures s.hopLimit == 64 && s.timeoutMs == 1000 && s.count == 1
    ensures s.payload == Some("np:neigh") && s.ordered && s.concurrency == Some(100)
  {
    var targets: seq<IpAddr> := [];
    if iface.gateway.Some? && |iface.gateway.value.ipv4| > 0 {
      var gw := iface.gateway.value.ipv4[0];
      var h := 1;
      while h <= 254
        invariant 1 <= h <= 255
        invariant targets == Subnet24(gw, h - 1)
      {
        targets := targets + [V4(gw.a, gw.b, gw.c, h)];
        h := h + 1;
      }
    }
    s := HostScanSetting(targets, 64, 1000, 1, Some("np:neigh"), true, Some(100));
  }

  /** The targets are the 254 hosts of the /24 in ascending order: the network
      and broadcast addresses are left out, every other address of the /24 is
      there, exactly once. */
  lemma NeighborTargetsShape(iface: NetInterface)
    requires iface.gateway.Some? && |iface.gateway.value.ipv4| > 0
    ensures var gw := iface.gateway.value.ipv4[0];
            var t := NeighborTargets(iface);
            |t| == 254
            && (forall i :: 0 <= i < 254 ==> t[i] == V4(gw.a, gw.b, gw.c, i + 1))
            && (forall d: Byte :: V4(gw.a, gw.b, gw.c, d) in t <==> 1 <= d <= 254)
  {
    var gw := iface.gateway.value.ipv4[0];
    var t := NeighborTargets(iface);
    forall i | 0 <= i < 254
      ensures t[i] == V4(gw.a, gw.b, gw.c, i + 1)
    {
      Subnet24At(gw, 254, i);
    }
    forall d: Byte
      ensures V4(gw.a, gw.b, gw.c, d) in t <==> 1 <= d <= 254
    {
      if 1 <= d <= 254 {
        assert t[d - 1] == V4(gw.a, gw.b, gw.c, d);
      }
    }
  }

  /** No gateway, or a gateway without an IPv4 address, gives no targets. */
  lemma NoGatewayNoTargets(iface: NetInterface)
    requires iface.gateway.None? || iface.gateway.value.ipv4 == []
    ensures NeighborTargets(iface) == []
  {
  }
}
