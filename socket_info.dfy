/** Socket listings: TCP states and control flags, the family and protocol
    flag folds, and the per-socket record built from the OS socket table. */
module SocketInfo {
  import opened Wrappers
  import opened NetTypes

  /** `SocketStatus` */
  datatype SocketStatus = Closed | Listen | SynSent | SynReceived | Established | FinWait1 | FinWait2
                        | CloseWait | Closing | LastAck | TimeWait | DeleteTcb | Unknown

  /** The TCP states the socket-table library reports. */
  datatype TcpState = TsClosed | TsListen | TsSynSent | TsSynReceived | TsEstablished | TsFinWait1
                    | TsFinWait2 | TsCloseWait | TsClosing | TsLastAck | TsTimeWait | TsDeleteTcb | TsUnknown

  /** `from_netstat2_state`: each named state to its namesake. */
  function FromNetstatState(s: TcpState): (r: SocketStatus)
    ensures r.Unknown? <==> s.TsUnknown?
  {
    match s
    case TsClosed => Closed
    case TsListen => Listen
    case TsSynSent => SynSent
    case TsSynReceived => SynReceived
    case TsEstablished => Established
    case TsFinWait1 => FinWait1
    case TsFinWait2 => FinWait2
    case TsCloseWait => CloseWait
    case TsClosing => Closing
    case TsLastAck => LastAck
    case TsTimeWait => TimeWait
    case TsDeleteTcb => DeleteTcb
    case TsUnknown => Unknown
  }

  /** No two library states are mapped to the same status. */
  lemma FromNetstatStateInjective(s: TcpState, t: TcpState)
    ensures FromNetstatState(s) == FromNetstatState(t) ==> s == t
  {
  }

  /** The control bits of the TCP header (section 3.1 of RFC 9293). */
  const TCP_FIN: bv8 := 0x01
  const TCP_SYN: bv8 := 0x02
  const TCP_RST: bv8 := 0x04
  const TCP_PSH: bv8 := 0x08
  const TCP_ACK: bv8 := 0x10
  const TCP_URG: bv8 := 0x20
  const TCP_ECE: bv8 := 0x40
  const TCP_CWR: bv8 := 0x80

  /** The control bits of a flags byte, one by one. */
  datatype ControlBits = ControlBits(fin: bool, syn: bool, rst: bool, psh: bool, ack: bool, urg: bool,
                                     ece: bool, cwr: bool)

  function Controls(flags: bv8): ControlBits
  {
    ControlBits(flags & TCP_FIN != 0, flags & TCP_SYN != 0, flags & TCP_RST != 0, flags & TCP_PSH != 0,
                flags & TCP_ACK != 0, flags & TCP_URG != 0, flags & TCP_ECE != 0, flags & TCP_CWR != 0)
  }

  const NONE_SET := ControlBits(false, false, false, false, false, false, false, false)

  /** `from_xenet_tcp_flags`: the flags must match exactly, so any other bit
      set (RST, PSH, URG, ECE, CWR, or a third one of SYN, ACK, FIN) gives
      Unknown. */
  function FromTcpFlags(flags: bv8): (r: SocketStatus)
    ensures r == SynSent <==> Controls(flags) == NONE_SET.(syn := true)
    ensures r == SynReceived <==> Controls(flags) == NONE_SET.(syn := true, ack := true)
    ensures r == Established <==> Controls(flags) == NONE_SET.(ack := true)
    ensures r == Closing <==> Controls(flags) == NONE_SET.(fin := true, ack := true)
    ensures r == FinWait1 <==> Controls(flags) == NONE_SET.(fin := true)
    ensures r in {SynSent, SynReceived, Established, Closing, FinWait1, Unknown}
  {
    if flags == TCP_SYN then SynSent
    else if flags == TCP_SYN | TCP_ACK then SynReceived
    else if flags == TCP_ACK then Established
    else if flags == TCP_FIN | TCP_ACK then Closing
    else if flags == TCP_FIN then FinWait1
    else Unknown
  }

  /** A segment with RST, PSH, URG, ECE or CWR set is never classified. */
  lemma ExtraBitsUnknown(flags: bv8)
    requires flags & (TCP_RST | TCP_PSH | TCP_URG | TCP_ECE | TCP_CWR) != 0
    ensures FromTcpFlags(flags) == Unknown
  {
  }

  /** `Display for SocketStatus` */
  function StatusText(s: SocketStatus): string
  {
    match s
    case Closed => "CLOSED"
    case Listen => "LISTEN"
    case SynSent => "SYN_SENT"
    case SynReceived => "SYN_RCVD"
    case Established => "ESTABLISHED"
    case FinWait1 => "FIN_WAIT_1"
    case FinWait2 => "FIN_WAIT_2"
    case CloseWait => "CLOSE_WAIT"
    case Closing => "CLOSING"
    case LastAck => "LAST_ACK"
    case TimeWait => "TIME_WAIT"
    case DeleteTcb => "DELETE_TCB"
    case Unknown => "UNKNOWN"
  }

  /** The texts tell the statuses apart. */
  lemma StatusTextInjective(s: SocketStatus, t: SocketStatus)
    ensures StatusText(s) == StatusText(t) ==> s == t
  {
  }

  datatype AddressFamily = IPv4 | IPv6
  datatype TransportProtocol = TCP | UDP

  /** `SocketInfoOption` */
  datatype SocketInfoOption = SocketInfoOption(addressFamily: seq<AddressFamily>, transportProtocol: seq<TransportProtocol>)

  /** `SocketInfoOption::default`: both families, both protocols. */
  function DefaultOption(): (o: SocketInfoOption)
    ensures IPv4 in o.addressFamily && IPv6 in o.addressFamily
    ensures TCP in o.transportProtocol && UDP in o.transportProtocol
  {
    SocketInfoOption([IPv4, IPv6], [TCP, UDP])
  }

  /** The family and protocol flag bits of the socket-table library. */
  const AF_FLAG_IPV4: bv8 := 0x01
  const AF_FLAG_IPV6: bv8 := 0x02
  const PROTO_FLAG_TCP: bv8 := 0x01
  const PROTO_FLAG_UDP: bv8 := 0x02

  function FamilyBit(af: AddressFamily): bv8
  {
    if af == IPv4 then AF_FLAG_IPV4 else AF_FLAG_IPV6
  }

  function ProtocolBit(tp: TransportProtocol): bv8
  {
    if tp == TCP then PROTO_FLAG_TCP else PROTO_FLAG_UDP
  }

  /** The flags of the families so far, each one or-ed in. */
  function FamilyFlags(afs: seq<AddressFamily>): bv8
  {
    if afs == [] then 0 else FamilyFlags(afs[..|afs| - 1]) | FamilyBit(afs[|afs| - 1])
  }

  function ProtocolFlags(tps: seq<TransportProtocol>): bv8
  {
    if tps == [] then 0 else ProtocolFlags(tps[..|tps| - 1]) | ProtocolBit(tps[|tps| - 1])
  }

  /** The family flags are the union over the list: a bit is set exactly
      when its family occurs, and no other bit is. */
  lemma {:induction false} FamilyFlagsExact(afs: seq<AddressFamily>)
    ensures FamilyFlags(afs) & !(AF_FLAG_IPV4 | AF_FLAG_IPV6) == 0
    ensures (FamilyFlags(afs) & AF_FLAG_IPV4 != 0) <==> IPv4 in afs
    ensures (FamilyFlags(afs) & AF_FLAG_IPV6 != 0) <==> IPv6 in afs
  {
    if afs != [] {
      var q := afs[..|afs| - 1];
      FamilyFlagsExact(q);
      assert afs == q + [afs[|afs| - 1]];
    }
  }

  lemma {:induction false} ProtocolFlagsExact(tps: seq<TransportProtocol>)
    ensures ProtocolFlags(tps) & !(PROTO_FLAG_TCP | PROTO_FLAG_UDP) == 0
    ensures (ProtocolFlags(tps) & PROTO_FLAG_TCP != 0) <==> TCP in tps
    ensures (ProtocolFlags(tps) & PROTO_FLAG_UDP != 0) <==> UDP in tps
  {
    if tps != [] {
      var q := tps[..|tps| - 1];
      ProtocolFlagsExact(q);
      assert tps == q + [tps[|tps| - 1]];
    }
  }

  /** Order and repetition do not matter: lists with the same members give
      the same flags, and the empty list gives none. */
  lemma FamilyFlagsMembersOnly(a: seq<AddressFamily>, b: seq<AddressFamily>)
    requires forall x :: x in a <==> x in b
    ensures FamilyFlags(a) == FamilyFlags(b)
    ensures FamilyFlags([]) == 0
  {
    FamilyFlagsExact(a);
    FamilyFlagsExact(b);
    BitsDetermine(FamilyFlags(a), FamilyFlags(b));
  }

  lemma ProtocolFlagsMembersOnly(a: seq<TransportProtocol>, b: seq<TransportProtocol>)
    requires forall x :: x in a <==> x in b
    ensures ProtocolFlags(a) == ProtocolFlags(b)
    ensures ProtocolFlags([]) == 0
  {
    ProtocolFlagsExact(a);
    ProtocolFlagsExact(b);
    BitsDetermine(ProtocolFlags(a), ProtocolFlags(b));
  }

  /** Two flag sets within the two low bits that agree on both are equal. */
  lemma BitsDetermine(x: bv8, y: bv8)
    requires x & !0x03 == 0 && y & !0x03 == 0
    requires (x & 0x01 != 0) == (y & 0x01 != 0) && (x & 0x02 != 0) == (y & 0x02 != 0)
    ensures x == y
  {
  }

  /** `get_address_family_flags` */
  method GetAddressFamilyFlags(opt: SocketInfoOption) returns (flags: bv8)
    ensures flags == FamilyFlags(opt.addressFamily)
  {
    flags := 0;
    var k := 0;
    while k < |opt.addressFamily|
      invariant k <= |opt.addressFamily|
      invariant flags == FamilyFlags(opt.addressFamily[..k])
    {
      assert opt.addressFamily[..k + 1][..k] == opt.addressFamily[..k];
      match opt.addressFamily[k] {
        case IPv4 => flags := flags | AF_FLAG_IPV4;
        case IPv6 => flags := flags | AF_FLAG_IPV6;
      }
      k := k + 1;
    }
    assert opt.addressFamily[..k] == opt.addressFamily;
  }

  /** `get_protocol_flags` */
  method GetProtocolFlags(opt: SocketInfoOption) returns (flags: bv8)
    ensures flags == ProtocolFlags(opt.transportProtocol)
  {
    flags := 0;
    var k := 0;
    while k < |opt.transportProtocol|
      invariant k <= |opt.transportProtocol|
      invariant flags == ProtocolFlags(opt.transportProtocol[..k])
    {
      assert opt.transportProtocol[..k + 1][..k] == opt.transportProtocol[..k];
      match opt.transportProtocol[k] {
        case TCP => flags := flags | PROTO_FLAG_TCP;
        case UDP => flags := flags | PROTO_FLAG_UDP;
      }
      k := k + 1;
    }
    assert opt.transportProtocol[..k] == opt.transportProtocol;
  }

  /** A process of the process map; the model carries it as it is. */
  datatype ProcessInfo = ProcessInfo(pid: U32, name: string)

  /** One entry of the OS socket table. */
  datatype ProtocolSocketInfo =
    | TcpSocket(localAddr: IpAddr, localPort: U16, remoteAddr: IpAddr, remotePort: U16, state: TcpState)
    | UdpSocket(localAddr: IpAddr, localPort: U16)
  datatype NetstatSocket = NetstatSocket(protocolSocketInfo: ProtocolSocketInfo, associatedPids: seq<U32>)

  /** `Protocol` of a listed socket. */
  datatype Protocol = ProtoTcp | ProtoUdp

  /** `SocketInfo` */
  datatype SocketRecord = SocketRecord(localIpAddr: IpAddr, localPort: U16, remoteIpAddr: Option<IpAddr>,
                                       remotePort: Option<U16>, protocol: Protocol, status: SocketStatus,
                                       ipVersion: AddressFamily, processes: seq<ProcessInfo>)

  /** The processes of the PIDs found in the map, in the PIDs' order. */
  function ProcessesOf(pids: seq<U32>, pm: map<U32, ProcessInfo>): (r: seq<ProcessInfo>)
    ensures |r| <= |pids|
  {
    if pids == [] then []
    else
      var p := pids[|pids| - 1];
      ProcessesOf(pids[..|pids| - 1], pm) + (if p in pm then [pm[p]] else [])
  }

  /** A listed process is exactly the map's entry for one of the PIDs. */
  lemma {:induction false} ProcessesOfExact(pids: seq<U32>, pm: map<U32, ProcessInfo>)
    ensures forall x :: x in ProcessesOf(pids, pm) <==> exists p :: p in pids && p in pm && pm[p] == x
  {
    if pids != [] {
      var q := pids[..|pids| - 1];
      ProcessesOfExact(q, pm);
      assert pids == q + [pids[|pids| - 1]];
    }
  }

  function FamilyOf(ip: IpAddr): (af: AddressFamily)
    ensures af == IPv4 <==> ip.V4?
  {
    if ip.V4? then IPv4 else IPv6
  }

  /** The record of one socket-table entry. */
  function RecordOf(si: NetstatSocket, pm: map<U32, ProcessInfo>): SocketRecord
  {
    var procs := ProcessesOf(si.associatedPids, pm);
    match si.protocolSocketInfo
    case TcpSocket(la, lp, ra, rp, st) =>
      SocketRecord(la, lp, Some(ra), Some(rp), ProtoTcp, FromNetstatState(st), FamilyOf(la), procs)
    case UdpSocket(la, lp) =>
      SocketRecord(la, lp, None, None, ProtoUdp, Unknown, FamilyOf(la), procs)
  }

  function RecordsOf(sockets: seq<NetstatSocket>, pm: map<U32, ProcessInfo>): (r: seq<SocketRecord>)
    ensures |r| == |sockets|
  {
    if sockets == [] then [] else RecordsOf(sockets[..|sockets| - 1], pm) + [RecordOf(sockets[|sockets| - 1], pm)]
  }

  /** Record `i` describes socket `i`: UDP records have no remote end and an
      Unknown status, TCP records carry the remote end and the mapped state,
      and the IP version is the local address's family. */
  lemma {:induction false} RecordsOfAt(sockets: seq<NetstatSocket>, pm: map<U32, ProcessInfo>, i: nat)
    requires i < |sockets|
    ensures var r := RecordsOf(sockets, pm)[i];
            var si := sockets[i].protocolSocketInfo;
            r.localIpAddr == si.localAddr && r.localPort == si.localPort
            && (r.ipVersion == IPv4 <==> si.localAddr.V4?)
            && r.processes == ProcessesOf(sockets[i].associatedPids, pm)
            && (si.UdpSocket? ==>
                  r.remoteIpAddr.None? && r.remotePort.None? && r.status == Unknown && r.protocol == ProtoUdp)
            && (si.TcpSocket? ==>
                  r.remoteIpAddr == Some(si.remoteAddr) && r.remotePort == Some(si.remotePort)
                  && r.status == FromNetstatState(si.state) && r.protocol == ProtoTcp)
  {
    if i < |sockets| - 1 {
      RecordsOfAt(sockets[..|sockets| - 1], pm, i);
    }
  }

  /** The PID loop of one socket. */
  method CollectProcesses(pids: seq<U32>, pm: map<U32, ProcessInfo>) returns (processes: seq<ProcessInfo>)
    ensures processes == ProcessesOf(pids, pm)
  {
    processes := [];
    var k := 0;
    while k < |pids|
      invariant k <= |pids|
      invariant processes == ProcessesOf(pids[..k], pm)
    {
      assert pids[..k + 1][..k] == pids[..k];
      if pids[k] in pm {
        processes := processes + [pm[pids[k]]];
      }
      k := k + 1;
    }
    assert pids[..k] == pids;
  }

  /** `get_sockets_info`: the flags it asks the socket table for, and the
      records of the entries the table returns (`sockets`), with the
      process map `pm`. */
  method GetSocketsInfo(opt: SocketInfoOption, sockets: seq<NetstatSocket>, pm: map<U32, ProcessInfo>)
    returns (afFlags: bv8, protoFlags: bv8, infos: seq<SocketRecord>)
    ensures afFlags == FamilyFlags(opt.addressFamily) && protoFlags == ProtocolFlags(opt.transportProtocol)
    ensures infos == RecordsOf(sockets, pm)
  {
    afFlags := GetAddressFamilyFlags(opt);
    protoFlags := GetProtocolFlags(opt);
    infos := [];
    var k := 0;
    while k < |sockets|
      invariant k <= |sockets|
      invariant infos == RecordsOf(sockets[..k], pm)
    {
      assert sockets[..k + 1][..k] == sockets[..k];
      var si := sockets[k];
      var processes := CollectProcesses(si.associatedPids, pm);
      match si.protocolSocketInfo {
        case TcpSocket(la, lp, ra, rp, st) =>
          infos := infos + [SocketRecord(la, lp, Some(ra), Some(rp), ProtoTcp, FromNetstatState(st),
                                         if la.V4? then IPv4 else IPv6, processes)];
        case UdpSocket(la, lp) =>
          infos := infos + [SocketRecord(la, lp, None, None, ProtoUdp, Unknown,
                                         if la.V4? then IPv4 else IPv6, processes)];
      }
      k := k + 1;
    }
    assert sockets[..k] == sockets;
  }
}
