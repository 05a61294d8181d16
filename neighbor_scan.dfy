/** `neighbor_scan`: a host scan of the gateway's /24, then one neighbour
    record per alive host with its hardware address, vendor and tags. */
module NeighborScan {
  import opened Wrappers
  import opened NetTypes
  import opened ScanModel
  import opened PortScan
  import opened HostScan
  import opened NeighModel

  /** The vendor database: a MAC the database knows maps to the entry's
      vendor detail, which may itself be absent. */
  type OuiDb = map<Mac, Option<string>>

  /** The vendor of a hardware address: none without an address or without
      a database entry for it. */
  function VendorOf(oui: OuiDb, mac: Option<Mac>): (r: Option<string>)
    ensures r.Some? <==> mac.Some? && mac.value in oui && oui[mac.value].Some?
    ensures r.Some? ==> r == oui[mac.value]
  {
    match mac
    case None => None
    case Some(m) => if m in oui then oui[m] else None
  }

  /** The address is one of the gateway's addresses of its own family. */
  predicate IsGateway(iface: NetInterface, ip: IpAddr)
  {
    iface.gateway.Some?
    && (match ip
        case V4(_, _, _, _) => ip in iface.gateway.value.ipv4
        case V6(_) => ip in iface.gateway.value.ipv6)
  }

  /** The tags of an alive host: "Self", "Gateway", "DNS", in that order, for
      an own address, a gateway address and a DNS server. */
  function NeighborTags(iface: NetInterface, ip: IpAddr): (tags: seq<string>)
    ensures |tags| <= 3
  {
    (if ip in OwnAddrs(iface) then ["Self"] else [])
    + (if IsGateway(iface, ip) then ["Gateway"] else [])
    + (if ip in iface.dnsServers then ["DNS"] else [])
  }

  /** Each tag is there exactly when its condition holds, at most once, and
      the tags keep the order Self, Gateway, DNS. */
  lemma NeighborTagsExact(iface: NetInterface, ip: IpAddr)
    ensures var tags := NeighborTags(iface, ip);
            ("Self" in tags <==> ip in iface.ipv4Addrs || ip in iface.ipv6Addrs)
            && ("Gateway" in tags <==> IsGateway(iface, ip))
            && ("DNS" in tags <==> ip in iface.dnsServers)
            && (forall t :: t in tags ==> t in ["Self", "Gateway", "DNS"])
            && (forall j, k :: 0 <= j < k < |tags| ==> tags[j] != tags[k])
            && (forall j, k :: 0 <= j < k < |tags| ==> TagRank(tags[j]) < TagRank(tags[k]))
  {
    var own, gw, dns := ip in OwnAddrs(iface), IsGateway(iface, ip), ip in iface.dnsServers;
    var tags := NeighborTags(iface, ip);
    assert tags == (if own then ["Self"] else []) + (if gw then ["Gateway"] else []) + (if dns then ["DNS"] else []);
    forall j, k | 0 <= j < k < |tags|
      ensures TagRank(tags[j]) < TagRank(tags[k])
    {
    }
  }

  /** The position of a tag in the order the tags are added. */
  function TagRank(t: string): nat
  {
    if t == "Self" then 0 else if t == "Gateway" then 1 else 2
  }

  /** The record of one alive host. */
  function NeighborOf(iface: NetInterface, table: NeighborMap, oui: OuiDb, host: (IpAddr, U64)): NeighborHost
  {
    var mac := if host.0 in table then Some(table[host.0]) else None;
    NeighborHost(host.0, mac, VendorOf(oui, mac), Some(host.1), NeighborTags(iface, host.0))
  }

  /** The records of the alive hosts, in their order. */
  function NeighborsOf(iface: NetInterface, table: NeighborMap, oui: OuiDb, alive: seq<(IpAddr, U64)>)
    : (r: seq<NeighborHost>)
    ensures |r| == |alive|
  {
    if alive == [] then []
    else NeighborsOf(iface, table, oui, alive[..|alive| - 1]) + [NeighborOf(iface, table, oui, alive[|alive| - 1])]
  }

  /** Record `i` is the `i`-th alive host: its address, its RTT, the table's
      hardware address for it, that address' vendor and its tags. */
  lemma {:induction false} NeighborsOfAt(iface: NetInterface, table: NeighborMap, oui: OuiDb,
                                         alive: seq<(IpAddr, U64)>, i: nat)
    requires i < |alive|
    ensures var n := NeighborsOf(iface, table, oui, alive)[i];
            n.ip == alive[i].0 && n.rttMs == Some(alive[i].1)
            && (n.mac.Some? <==> alive[i].0 in table)
            && (n.mac.Some? ==> n.mac.value == table[alive[i].0])
            && n.vendor == VendorOf(oui, n.mac)
            && n.tags == NeighborTags(iface, alive[i].0)
  {
    if i < |alive| - 1 {
      NeighborsOfAt(iface, table, oui, alive[..|alive| - 1], i);
    }
  }

  /** The tag pushes of one host. */
  method ClassifyTags(iface: NetInterface, selfIps: seq<IpAddr>, ip: IpAddr) returns (tags: seq<string>)
    requires selfIps == OwnAddrs(iface)
    ensures tags == NeighborTags(iface, ip)
  {
    tags := [];
    if ip in selfIps {
      tags := tags + ["Self"];
    }
    if iface.gateway.Some? {
      match ip {
        case V4(_, _, _, _) =>
          if ip in iface.gateway.value.ipv4 {
            tags := tags + ["Gateway"];
          }
        case V6(_) =>
          if ip in iface.gateway.value.ipv6 {
            tags := tags + ["Gateway"];
          }
      }
    }
    if ip in iface.dnsServers {
      tags := tags + ["DNS"];
    }
  }

  /** The loop over the alive hosts. */
  method CollectNeighbors(iface: NetInterface, table: NeighborMap, oui: OuiDb, alive: seq<(IpAddr, U64)>)
    returns (neighbors: seq<NeighborHost>)
    ensures neighbors == NeighborsOf(iface, table, oui, alive)
  {
    var selfIps := OwnAddrs(iface);
    neighbors := [];
    var k := 0;
    while k < |alive|
      invariant k <= |alive|
      invariant neighbors == NeighborsOf(iface, table, oui, alive[..k])
    {
      assert alive[..k + 1][..k] == alive[..k];
      var (ip, rtt) := alive[k];
      var mac := if ip in table then Some(table[ip]) else None;
      var vendor := None;
      if mac.Some? && mac.value in oui {
        vendor := oui[mac.value];
      }
      var tags := ClassifyTags(iface, selfIps, ip);
      assert vendor == VendorOf(oui, mac);
      neighbors := neighbors + [NeighborHost(ip, mac, vendor, Some(rtt), tags)];
      k := k + 1;
    }
    assert alive[..k] == alive;
  }

  /** The events of a neighbour scan other than the host scan's progress:
      `hostscan:start`, the host scan's own `hostscan:done`, and
      `neighborscan:done`, whose payload is the run id. The progress records
      fall between the first two. */
  datatype NeighborScanEvent =
    | HostScanStart(runId: string)
    | HostScanDone(report: HostScanReport)
    | NeighborScanDone(runId: string)

  /** `neighbor_scan`: `hostscan:start` is emitted, then the host scan runs
      with the default neighbour setting for `iface` (`socketV4`/`socketV6`,
      `attempts` and `order` as for `HostScanRun`); its error is returned as it
      is. Only after it has finished is the neighbour table read, and a failure
      there is returned too; otherwise `neighborscan:done` ends the run. */
  method NeighborScanRun(runId: string, iface: NetInterface, socketV4: Result<()>, socketV6: Result<()>,
                         attempts: seq<seq<EchoAttempt>>, order: seq<nat>,
                         table: Result<NeighborMap>, oui: OuiDb)
    returns (res: Result<NeighborScanReport>, progress: seq<HostScanProgress>, events: seq<NeighborScanEvent>)
    requires |attempts| == |NeighborTargets(iface)| && IsCompletionOrder(order, |NeighborTargets(iface)|)
    requires forall i :: 0 <= i < |attempts| ==> |attempts[i]| == 1
    ensures var targets := NeighborTargets(iface);
            if HasV4(targets) && socketV4.Err? then
              res == Err(socketV4.error) && progress == [] && events == [HostScanStart(runId)]
            else
              progress == HostCompletions(targets, HasV4(targets), HasV6(targets), attempts, order, |targets|, 1000,
                                          Wrap32(|targets|))
              && (var hostReport := HostScanReport(runId, AliveOf(progress), UnreachableOf(progress), Wrap32(|targets|));
                  (table.Err? ==> res == Err(table.error)
                                  && events == [HostScanStart(runId), HostScanDone(hostReport)])
                  && (table.Ok? ==>
                        res == Ok(NeighborScanReport(runId, NeighborsOf(iface, table.value, oui, AliveOf(progress)),
                                                     Wrap32(|targets|)))
                        && events == [HostScanStart(runId), HostScanDone(hostReport), NeighborScanDone(runId)]))
  {
    events := [HostScanStart(runId)];
    NeighborTargetsV4(iface);
    var setting := NeighborScanDefault(iface);
    ghost var targets := NeighborTargets(iface);
    assert DispatchOrder(setting.targets, [], setting.ordered) == targets;
    var scan, configs, hostDone;
    scan, progress, configs, hostDone := HostScanRun(runId, setting, [], socketV4, socketV6, attempts, order);
    if scan.Err? {
      assert HasV4(targets) && socketV4.Err?;
      return Err(scan.error), progress, events;
    }
    assert !(HasV4(targets) && socketV4.Err?);
    ghost var hostReport := HostScanReport(runId, AliveOf(progress), UnreachableOf(progress), Wrap32(|targets|));
    assert scan.value == hostReport && hostDone.value == hostReport;
    events := events + [HostScanDone(hostDone.value)];
    if table.Err? {
      return Err(table.error), progress, events;
    }
    var neighbors := CollectNeighbors(iface, table.value, oui, scan.value.alive);
    events := events + [NeighborScanDone(runId)];
    res := Ok(NeighborScanReport(runId, neighbors, scan.value.total));
  }

  /** The neighbour targets are IPv4 only, so the IPv6 socket is never made. */
  lemma NeighborTargetsV4(iface: NetInterface)
    ensures !HasV6(NeighborTargets(iface))
  {
    if iface.gateway.Some? && |iface.gateway.value.ipv4| > 0 {
      NeighborTargetsShape(iface);
    }
  }

  /** Every neighbour record comes from an alive progress record, with that
      record's RTT; unreachable hosts give none. */
  lemma NeighborsFromAlive(iface: NetInterface, table: NeighborMap, oui: OuiDb, progress: seq<HostScanProgress>,
                           i: nat)
    requires i < |AliveOf(progress)|
    ensures var n := NeighborsOf(iface, table, oui, AliveOf(progress))[i];
            exists y :: y in progress && y.state == Alive && n.ip == y.ip && n.rttMs == Some(y.rttMs.UnwrapOr(0))
  {
    var alive := AliveOf(progress);
    NeighborsOfAt(iface, table, oui, alive, i);
    PartitionExact(progress);
    assert alive[i] in alive;
  }
}
