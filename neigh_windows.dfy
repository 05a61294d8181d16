/** The Windows neighbour table: the rows `GetIpNetTable2` returns for IPv4
    and for IPv6, filtered and merged. */
module NeighWindows {
  import opened Wrappers
  import opened Strings
  import opened NetTypes
  import opened NeighModel

  /** Address families of the Windows socket headers. */
  const AF_INET: U16 := 2
  const AF_INET6: U16 := 23

  /** `NL_NEIGHBOR_STATE` values. */
  const NLNS_UNREACHABLE: int := 0
  const NLNS_INCOMPLETE: int := 1
  const NLNS_PROBE: int := 2
  const NLNS_DELAY: int := 3
  const NLNS_STALE: int := 4
  const NLNS_REACHABLE: int := 5
  const NLNS_PERMANENT: int := 6

  const NO_ERROR: U32 := 0
  /** `IF_MAX_PHYS_ADDRESS_LENGTH`: the size of a row's hardware address. */
  const IF_MAX_PHYS_ADDRESS_LENGTH: nat := 32

  type Octets4 = s: seq<Byte> | |s| == 4 witness [0, 0, 0, 0]
  type PhysAddress = s: seq<Byte> | |s| == IF_MAX_PHYS_ADDRESS_LENGTH
    witness seq(IF_MAX_PHYS_ADDRESS_LENGTH, _ => 0)

  /** `SOCKADDR_INET`: the family and both views of the union. */
  datatype SockaddrInet = SockaddrInet(family: U16, ipv4Addr: Octets4, ipv6Addr: Octets16)

  /** `MIB_IPNET_ROW2`, as far as it is read. */
  datatype IpNetRow = IpNetRow(address: SockaddrInet, physicalAddress: PhysAddress,
                               physicalAddressLength: U32, state: int)

  /** `is_interesting_state` */
  predicate IsInterestingState(state: int)
  {
    state == NLNS_PERMANENT || state == NLNS_REACHABLE || state == NLNS_STALE
    || state == NLNS_DELAY || state == NLNS_PROBE
  }

  /** Of the seven states, exactly the unresolved ones are dropped. */
  lemma InterestingStates(state: int)
    requires NLNS_UNREACHABLE <= state <= NLNS_PERMANENT
    ensures !IsInterestingState(state) <==> state == NLNS_UNREACHABLE || state == NLNS_INCOMPLETE
  {
  }

  /** `sockaddr_inet_to_ip`: the address bytes in order, for the two
      internet families; nothing for any other family. */
  function SockaddrInetToIp(sa: SockaddrInet): (r: Option<IpAddr>)
    ensures sa.family == AF_INET ==> r.Some? && r.value.V4? && [r.value.a, r.value.b, r.value.c, r.value.d] == sa.ipv4Addr
    ensures sa.family == AF_INET6 ==> r == Some(V6(sa.ipv6Addr))
    ensures sa.family != AF_INET && sa.family != AF_INET6 ==> r.None?
  {
    if sa.family == AF_INET then Some(Ipv4Of(sa.ipv4Addr))
    else if sa.family == AF_INET6 then Some(Ipv6Of(sa.ipv6Addr))
    else None
  }

  /** What a row does: an entry for a 6-byte hardware address in an
      interesting state with an internet address. */
  function RowEffect(row: IpNetRow): (e: TableEffect)
    ensures !e.Failure?
  {
    if row.physicalAddressLength != 6 || !IsInterestingState(row.state) then Ignored
    else match SockaddrInetToIp(row.address)
      case Some(ip) => var mac: Mac := row.physicalAddress[..6]; Insert(ip, mac)
      case None => Ignored
  }

  function RowEffects(rows: seq<IpNetRow>): (es: seq<TableEffect>)
    ensures |es| == |rows| && forall i :: 0 <= i < |es| ==> !es[i].Failure?
  {
    if rows == [] then [] else RowEffects(rows[..|rows| - 1]) + [RowEffect(rows[|rows| - 1])]
  }

  lemma {:induction false} RowEffectsAt(rows: seq<IpNetRow>, i: nat)
    requires i < |rows|
    ensures RowEffects(rows)[i] == RowEffect(rows[i])
  {
    if i < |rows| - 1 {
      RowEffectsAt(rows[..|rows| - 1], i);
    }
  }

  /** A row is kept when its hardware address has 6 bytes, its state is
      interesting and its address is of an internet family. */
  predicate KeptRow(row: IpNetRow)
  {
    row.physicalAddressLength == 6 && IsInterestingState(row.state) && SockaddrInetToIp(row.address).Some?
  }

  /** The table of the rows: never an error; an address is in it exactly
      when a kept row has it, and its MAC is the first six hardware-address
      bytes of the last such row. */
  lemma {:induction false} RowTable(rows: seq<IpNetRow>, ip: IpAddr)
    ensures Fold(RowEffects(rows)).IoOk?
    ensures ip in Fold(RowEffects(rows)).value <==>
              exists i :: 0 <= i < |rows| && KeptRow(rows[i]) && SockaddrInetToIp(rows[i].address) == Some(ip)
    ensures ip in Fold(RowEffects(rows)).value ==>
              exists i :: 0 <= i < |rows| && KeptRow(rows[i]) && SockaddrInetToIp(rows[i].address) == Some(ip)
                          && Fold(RowEffects(rows)).value[ip] == rows[i].physicalAddress[..6]
                          && forall j :: i < j < |rows| && KeptRow(rows[j]) ==> SockaddrInetToIp(rows[j].address) != Some(ip)
  {
    var es := RowEffects(rows);
    FoldErr(es);
    FoldKeys(es);
    if ip in Fold(es).value {
      var k :| 0 <= k < |es| && es[k].Insert? && es[k].ip == ip;
      RowEffectsAt(rows, k);
      FoldLastWins(es, ip);
      var i :| 0 <= i < |es| && es[i] == Insert(ip, Fold(es).value[ip])
               && forall j :: i < j < |es| ==> !(es[j].Insert? && es[j].ip == ip);
      RowEffectsAt(rows, i);
      assert KeptRow(rows[i]) && SockaddrInetToIp(rows[i].address) == Some(ip);
      forall j | i < j < |rows| && KeptRow(rows[j])
        ensures SockaddrInetToIp(rows[j].address) != Some(ip)
      {
        RowEffectsAt(rows, j);
      }
    } else {
      forall i | 0 <= i < |rows| && KeptRow(rows[i])
        ensures SockaddrInetToIp(rows[i].address) != Some(ip)
      {
        RowEffectsAt(rows, i);
      }
    }
  }

  /** What `GetIpNetTable2` gives for one family: its return code and the
      table's rows, or nothing for a null table. */
  datatype IpNetCall = IpNetCall(ret: U32, table: Option<seq<IpNetRow>>)

  function DumpError(ret: U32): IoError
  {
    IoError(Other, "GetIpNetTable2 failed: " + DecimalString(ret))
  }

  /** `dump_ipnet`: an error for a non-zero return code, an empty table for
      a null one, otherwise the rows' entries. */
  method DumpIpnet(call: IpNetCall) returns (r: IoResult<NeighborMap>)
    ensures call.ret != NO_ERROR ==> r == IoErr(DumpError(call.ret))
    ensures call.ret == NO_ERROR && call.table.None? ==> r == IoOk(map[])
    ensures call.ret == NO_ERROR && call.table.Some? ==> r == Fold(RowEffects(call.table.value))
  {
    if call.ret != NO_ERROR {
      return IoErr(DumpError(call.ret));
    }
    if call.table.None? {
      return IoOk(map[]);
    }
    var rows := call.table.value;
    var out: NeighborMap := map[];
    var k := 0;
    while k < |rows|
      invariant k <= |rows|
      invariant Fold(RowEffects(rows[..k])) == IoOk(out)
    {
      assert rows[..k + 1][..k] == rows[..k];
      FoldStep(RowEffects(rows[..k]), RowEffect(rows[k]));
      var row := rows[k];
      if row.physicalAddressLength == 6 && IsInterestingState(row.state) {
        var ip := SockaddrInetToIp(row.address);
        if ip.Some? {
          var mac: Mac := [row.physicalAddress[0], row.physicalAddress[1], row.physicalAddress[2],
                           row.physicalAddress[3], row.physicalAddress[4], row.physicalAddress[5]];
          assert mac == row.physicalAddress[..6];
          out := out[ip.value := mac];
        }
      }
      k := k + 1;
    }
    assert rows[..k] == rows;
    r := IoOk(out);
  }

  /** The result of `dump_ipnet`, as `DumpIpnet` computes it. */
  function DumpResult(call: IpNetCall): IoResult<NeighborMap>
  {
    if call.ret != NO_ERROR then IoErr(DumpError(call.ret))
    else if call.table.None? then IoOk(map[])
    else Fold(RowEffects(call.table.value))
  }

  /** The table of a family that failed counts as empty. */
  function OrEmpty(r: IoResult<NeighborMap>): NeighborMap
  {
    if r.IoOk? then r.value else map[]
  }

  /** The IPv4 table extended by the IPv6 table: an address in both keeps
      the IPv6 table's MAC. */
  function Merged(v4: IoResult<NeighborMap>, v6: IoResult<NeighborMap>): (m: NeighborMap)
    ensures forall ip :: ip in m <==> ip in OrEmpty(v4) || ip in OrEmpty(v6)
    ensures forall ip :: ip in OrEmpty(v6) ==> m[ip] == OrEmpty(v6)[ip]
    ensures forall ip :: ip in OrEmpty(v4) && ip !in OrEmpty(v6) ==> m[ip] == OrEmpty(v4)[ip]
  {
    OrEmpty(v4) + OrEmpty(v6)
  }

  /** `get_neighbor_table`: it never fails. */
  method GetNeighborTable(v4Call: IpNetCall, v6Call: IpNetCall) returns (r: IoResult<NeighborMap>)
    ensures r == IoOk(Merged(DumpResult(v4Call), DumpResult(v6Call)))
  {
    var m: NeighborMap := map[];
    var d4 := DumpIpnet(v4Call);
    if d4.IoOk? {
      m := m + d4.value;
    }
    assert m == OrEmpty(d4);
    var d6 := DumpIpnet(v6Call);
    if d6.IoOk? {
      m := m + d6.value;
    }
    assert m == OrEmpty(d4) + OrEmpty(d6);
    r := IoOk(m);
  }
}
