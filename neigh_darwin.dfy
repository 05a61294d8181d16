/** The macOS/BSD neighbour table: the `sysctl` routing dump walked record by
    record, each record's sockaddr block walked for its IPv4 address and its
    link-layer address. Multi-byte header fields are little-endian. */
module NeighDarwin {
  import opened Wrappers
  import opened NetTypes
  import opened NeighModel

  const SA_ALIGN: nat := 4
  /** `size_of::<sockaddr>()`: length byte, family byte, 14 data bytes. */
  const SOCKADDR_SIZE: nat := 16
  /** `size_of::<sockaddr_in6>()` */
  const SOCKADDR_IN6_SIZE: nat := 28
  /** `size_of::<sockaddr_dl>()`, and the offset of its `sdl_data`. */
  const SOCKADDR_DL_SIZE: nat := 20
  const SDL_DATA_OFFSET: nat := 8
  /** `size_of::<rt_msghdr>()`, and the offsets of its version and errno. */
  const RT_MSGHDR_SIZE: nat := 92
  const RTM_VERSION_OFFSET: nat := 2
  const RTM_ERRNO_OFFSET: nat := 24
  const RTM_VERSION: Byte := 5

  const AF_INET: Byte := 2
  const AF_LINK: Byte := 18
  const AF_INET6: Byte := 30

  /** `roundup`: the next multiple of the sockaddr alignment, and one whole
      alignment unit for a zero length. */
  function RoundUp(len: nat): (r: nat)
    ensures r > 0 && r % SA_ALIGN == 0
    ensures len == 0 ==> r == SA_ALIGN
    ensures len > 0 ==> len <= r < len + SA_ALIGN
  {
    if len == 0 then SA_ALIGN
    else (len + (SA_ALIGN - 1)) - (len + (SA_ALIGN - 1)) % SA_ALIGN
  }

  /** `code_to_error`: the kind of a routing-message errno, with the errno in
      the message. */
  function CodeToError(err: int): (e: IoError)
    ensures err == 17 ==> e.kind == AlreadyExists
    ensures err == 3 ==> e.kind == NotFound
    ensures err == 3436 ==> e.kind == OutOfMemory
    ensures err !in {17, 3, 3436} ==> e.kind == Other
    ensures e.message == "rtm_errno " + SignedDecimal(err)
  {
    var kind := if err == 17 then AlreadyExists else if err == 3 then NotFound
                else if err == 3436 then OutOfMemory else Other;
    IoError(kind, "rtm_errno " + SignedDecimal(err))
  }

  function Le16(buf: seq<Byte>, at: nat): nat
    requires at + 2 <= |buf|
  {
    var lo: int, hi: int := buf[at], buf[at + 1];
    lo + 0x100 * hi
  }

  /** A little-endian `i32`. */
  function LeI32(buf: seq<Byte>, at: nat): (v: int)
    requires at + 4 <= |buf|
    ensures -0x8000_0000 <= v < 0x8000_0000
  {
    var b0: int, b1: int, b2: int, b3: int := buf[at], buf[at + 1], buf[at + 2], buf[at + 3];
    var u := b0 + 0x100 * b1 + 0x1_0000 * b2 + 0x100_0000 * b3;
    if u >= 0x8000_0000 then u - 0x1_0000_0000 else u
  }

  /** `ip_from_sockaddr` for the record at `o` whose `sa_len` bytes lie in
      `msg`: an IPv4 address from bytes 4..8; an IPv6 address from bytes
      8..24 when the record is a whole `sockaddr_in6`; nothing otherwise. */
  function IpFromSockaddr(msg: seq<Byte>, o: nat): (r: Option<IpAddr>)
    requires o + SOCKADDR_SIZE <= |msg| && o + msg[o] <= |msg|
    ensures msg[o + 1] == AF_INET ==> r == Some(Ipv4Of(msg[o + 4..o + 8]))
    ensures msg[o + 1] == AF_INET6 ==>
              (r.Some? <==> msg[o] >= SOCKADDR_IN6_SIZE) && (r.Some? ==> r.value == Ipv6Of(msg[o + 8..o + 24]))
    ensures msg[o + 1] !in {AF_INET, AF_INET6} ==> r.None?
  {
    if msg[o + 1] == AF_INET then Some(Ipv4Of(msg[o + 4..o + 8]))
    else if msg[o + 1] == AF_INET6 then
      if msg[o] < SOCKADDR_IN6_SIZE then None else Some(Ipv6Of(msg[o + 8..o + 24]))
    else None
  }

  /** The link-layer address of the `sockaddr_dl` at `o`, when its
      `sdl_len` covers the struct, `sdl_alen` is at least 6, `sa_len` covers
      `sdl_len` and the name and address fit in `sdl_len`; it is the six
      bytes after the interface name. (`sa_len` and `sdl_len` are the same
      byte of the record.) */
  function LinkMac(msg: seq<Byte>, o: nat): (r: Option<Mac>)
    requires o + SOCKADDR_SIZE <= |msg| && o + msg[o] <= |msg|
    ensures var saLen, total, nlen, alen := msg[o], msg[o], msg[o + 5], msg[o + 6];
            (r.Some? <==> total >= SOCKADDR_DL_SIZE && alen >= 6 && saLen >= total
                          && SDL_DATA_OFFSET + nlen + alen <= total)
            && (r.Some? ==> o + SDL_DATA_OFFSET + nlen + 6 <= o + saLen
                            && r.value == msg[o + SDL_DATA_OFFSET + nlen..o + SDL_DATA_OFFSET + nlen + 6])
  {
    var saLen, total, nlen, alen := msg[o], msg[o], msg[o + 5], msg[o + 6];
    if total >= SOCKADDR_DL_SIZE && alen >= 6 && saLen >= total && SDL_DATA_OFFSET + nlen + alen <= total
    then var m: Mac := msg[o + SDL_DATA_OFFSET + nlen..o + SDL_DATA_OFFSET + nlen + 6]; Some(m)
    else None
  }

  /** What the pair walk makes of the sockaddr record at `o`. */
  datatype SockView = NoAddr | Overrun | Inet(ip: IpAddr) | Link(mac: Option<Mac>) | OtherFamily

  function SockaddrView(msg: seq<Byte>, o: nat): SockView
    requires o + SOCKADDR_SIZE <= |msg|
  {
    if msg[o] == 0 then NoAddr
    else if o + msg[o] > |msg| then Overrun
    else if msg[o + 1] == AF_INET then
      match IpFromSockaddr(msg, o)
      case Some(ip) => if ip.V4? then Inet(ip) else OtherFamily
      case None => OtherFamily
    else if msg[o + 1] == AF_LINK then Link(LinkMac(msg, o))
    else OtherFamily
  }

  /** The offsets of the records the walk reads from `off` on: each one's
      header lies in the buffer, and each is further on than the one before. */
  function Offsets(msg: seq<Byte>, off: nat): (r: seq<nat>)
    ensures forall i :: 0 <= i < |r| ==> off <= r[i] && r[i] + SOCKADDR_SIZE <= |msg|
    ensures forall i, j :: 0 <= i < j < |r| ==> r[i] < r[j]
    decreases |msg| - off
  {
    if off + SOCKADDR_SIZE > |msg| then [] else [off] + Offsets(msg, off + RoundUp(msg[off]))
  }

  /** The records from `off` on, as the pair walk sees them. */
  function ViewsFrom(msg: seq<Byte>, off: nat): (r: seq<SockView>)
    ensures forall v :: v in r && v.Inet? ==> v.ip.V4?
    decreases |msg| - off
  {
    if off + SOCKADDR_SIZE > |msg| then [] else [SockaddrView(msg, off)] + ViewsFrom(msg, off + RoundUp(msg[off]))
  }

  lemma {:induction false} ViewsFromAt(msg: seq<Byte>, off: nat, i: nat)
    requires i < |Offsets(msg, off)|
    ensures |ViewsFrom(msg, off)| == |Offsets(msg, off)|
    ensures ViewsFrom(msg, off)[i] == SockaddrView(msg, Offsets(msg, off)[i])
    decreases |msg| - off
  {
    var next := off + RoundUp(msg[off]);
    if i > 0 {
      ViewsFromAt(msg, next, i - 1);
    } else if next + SOCKADDR_SIZE <= |msg| {
      ViewsFromAt(msg, next, 0);
    } else {
      assert Offsets(msg, next) == [] && ViewsFrom(msg, next) == [];
    }
  }

  /** The pair walk: an IPv4 address and a link-layer address remembered
      so far; the answer as soon as both are known. */
  function PairScan(views: seq<SockView>, ip: Option<IpAddr>, mac: Option<Mac>): Option<(IpAddr, Mac)>
  {
    if views == [] then None
    else
      match views[0]
      case Inet(a) => if mac.Some? then Some((a, mac.value)) else PairScan(views[1..], Some(a), mac)
      case Link(Some(m)) => if ip.Some? then Some((ip.value, m)) else PairScan(views[1..], ip, Some(m))
      case _ => PairScan(views[1..], ip, mac)
  }

  predicate HasInet(views: seq<SockView>)
  {
    exists i :: 0 <= i < |views| && views[i].Inet?
  }

  predicate HasLink(views: seq<SockView>)
  {
    exists i :: 0 <= i < |views| && views[i].Link? && views[i].mac.Some?
  }

  /** The walk finds nothing exactly when the records (with what is already
      known) lack an IPv4 address or a valid link-layer address. */
  lemma {:induction false} PairScanNone(views: seq<SockView>, ip: Option<IpAddr>, mac: Option<Mac>)
    requires ip.None? || mac.None?
    ensures PairScan(views, ip, mac).None? <==> !((ip.Some? || HasInet(views)) && (mac.Some? || HasLink(views)))
  {
    if views != [] {
      var rest := views[1..];
      assert forall i :: 0 <= i < |rest| ==> rest[i] == views[i + 1];
      assert HasInet(views) <==> views[0].Inet? || HasInet(rest) by {
        if HasInet(views) && !views[0].Inet? {
          var i :| 0 <= i < |views| && views[i].Inet?;
          assert rest[i - 1].Inet?;
        }
      }
      assert HasLink(views) <==> (views[0].Link? && views[0].mac.Some?) || HasLink(rest) by {
        if HasLink(views) && !(views[0].Link? && views[0].mac.Some?) {
          var i :| 0 <= i < |views| && views[i].Link? && views[i].mac.Some?;
          assert rest[i - 1].Link? && rest[i - 1].mac.Some?;
        }
      }
      match views[0]
      case Inet(a) =>
        if mac.None? {
          PairScanNone(rest, Some(a), mac);
        }
      case Link(Some(m)) =>
        if ip.None? {
          PairScanNone(rest, ip, Some(m));
        }
      case _ => PairScanNone(rest, ip, mac);
    }
  }

  /** An answer pairs an address and a link-layer address read from the
      records (or already known). */
  lemma {:induction false} PairScanFound(views: seq<SockView>, ip: Option<IpAddr>, mac: Option<Mac>)
    requires PairScan(views, ip, mac).Some?
    ensures var (a, m) := PairScan(views, ip, mac).value;
            (ip == Some(a) || Inet(a) in views) && (mac == Some(m) || Link(Some(m)) in views)
  {
    var rest := views[1..];
    match views[0]
    case Inet(a) =>
      if mac.None? {
        PairScanFound(rest, Some(a), mac);
      }
    case Link(Some(m)) =>
      if ip.None? {
        PairScanFound(rest, ip, Some(m));
      }
    case _ =>
      PairScanFound(rest, ip, mac);
  }

  /** Once the walk has its answer, the records after it do not matter: it
      stops at the first point both addresses are known. */
  lemma {:induction false} PairScanStops(views: seq<SockView>, more: seq<SockView>, ip: Option<IpAddr>,
                                         mac: Option<Mac>)
    requires PairScan(views, ip, mac).Some?
    ensures PairScan(views + more, ip, mac) == PairScan(views, ip, mac)
  {
    var rest := views[1..];
    assert (views + more)[1..] == rest + more;
    match views[0]
    case Inet(a) =>
      if mac.None? {
        PairScanStops(rest, more, Some(a), mac);
      }
    case Link(Some(m)) =>
      if ip.None? {
        PairScanStops(rest, more, ip, Some(m));
      }
    case _ =>
      PairScanStops(rest, more, ip, mac);
  }

  /** `message_to_arppair`: the sockaddr records of one message's address
      block, walked while a whole `sockaddr` header is left. */
  method MessageToArpPair(msg: seq<Byte>) returns (r: Option<(IpAddr, Mac)>)
    ensures r == PairScan(ViewsFrom(msg, 0), None, None)
  {
    var off := 0;
    var ip: Option<IpAddr> := None;
    var mac: Option<Mac> := None;
    while off + SOCKADDR_SIZE <= |msg|
      invariant PairScan(ViewsFrom(msg, 0), None, None) == PairScan(ViewsFrom(msg, off), ip, mac)
      decreases |msg| - off
    {
      var saLen := msg[off];
      ghost var rest := ViewsFrom(msg, off + RoundUp(saLen));
      assert ViewsFrom(msg, off) == [SockaddrView(msg, off)] + rest;
      assert ([SockaddrView(msg, off)] + rest)[1..] == rest;
      if saLen == 0 {
        off := off + RoundUp(0);
      } else if off + saLen > |msg| {
        off := off + RoundUp(saLen);
      } else {
        if msg[off + 1] == AF_INET {
          var a := IpFromSockaddr(msg, off);
          if a.Some? && a.value.V4? {
            ip := a;
            if mac.Some? {
              return Some((a.value, mac.value));
            }
          }
        } else if msg[off + 1] == AF_LINK {
          var m := LinkMac(msg, off);
          if m.Some? {
            mac := m;
            if ip.Some? {
              return Some((ip.value, m.value));
            }
          }
        }
        off := off + RoundUp(saLen);
      }
    }
    r := None;
  }

  /** The pair of a message's address block. */
  function MessagePair(msg: seq<Byte>): Option<(IpAddr, Mac)>
  {
    PairScan(ViewsFrom(msg, 0), None, None)
  }

  /** The pair's address is always IPv4: IPv6 records are passed over. */
  lemma MessagePairIsV4(msg: seq<Byte>)
    requires MessagePair(msg).Some?
    ensures MessagePair(msg).value.0.V4?
  {
    PairScanFound(ViewsFrom(msg, 0), None, None);
  }

  /** What the table walk does with the record at `off`: stop, skip to the
      next record, fail with the record's errno, or parse the address block
      between two offsets. */
  datatype RecordStep = Stop | Skip(next: nat) | Fail(errno: int) | Parse(start: nat, end: nat)

  /** The record decision as written: a record whose `rtm_msglen` is
      shorter than the header still has its address block sliced from the
      end of the header to the end of the record. */
  function RecordActionAsWritten(buf: seq<Byte>, off: nat): RecordStep
  {
    if off + RT_MSGHDR_SIZE > |buf| then Stop
    else
      var msglen := Le16(buf, off);
      if msglen == 0 || off + msglen > |buf| then Stop
      else if buf[off + RTM_VERSION_OFFSET] != RTM_VERSION then Skip(off + msglen)
      else if LeI32(buf, off + RTM_ERRNO_OFFSET) != 0 then Fail(LeI32(buf, off + RTM_ERRNO_OFFSET))
      else Parse(off + RT_MSGHDR_SIZE, off + msglen)
  }

  /** A 92-byte dump holding one version-5 record that claims to be 10 bytes
      long: the slice `buf[92..10]` is taken, which panics. */
  lemma ShortRecordSliceInverted()
    ensures var buf := seq(RT_MSGHDR_SIZE, i => if i == 0 then 10 else if i == 2 then 5 else 0);
            RecordActionAsWritten(buf, 0) == Parse(92, 10)
  {
    var buf: seq<Byte> := seq(RT_MSGHDR_SIZE, i => if i == 0 then 10 else if i == 2 then 5 else 0);
    assert Le16(buf, 0) == 10;
    assert LeI32(buf, RTM_ERRNO_OFFSET) == 0;
  }

  /** The record decision with a record shorter than its header skipped
      like a record of another version, so every block sliced lies inside
      its record and after the header. */
  function RecordAction(buf: seq<Byte>, off: nat): (a: RecordStep)
    ensures a.Skip? ==> off < a.next <= |buf|
    ensures a.Parse? ==> a.start == off + RT_MSGHDR_SIZE <= a.end <= |buf|
    ensures !a.Stop? ==> off + RT_MSGHDR_SIZE <= |buf|
    ensures a.Fail? ==> a.errno != 0
  {
    if off + RT_MSGHDR_SIZE > |buf| then Stop
    else
      var msglen := Le16(buf, off);
      if msglen == 0 || off + msglen > |buf| then Stop
      else if buf[off + RTM_VERSION_OFFSET] != RTM_VERSION then Skip(off + msglen)
      else if LeI32(buf, off + RTM_ERRNO_OFFSET) != 0 then Fail(LeI32(buf, off + RTM_ERRNO_OFFSET))
      else if msglen < RT_MSGHDR_SIZE then Skip(off + msglen)
      else Parse(off + RT_MSGHDR_SIZE, off + msglen)
  }

  /** The correction changes only the records the original would have
      panicked on. */
  lemma RecordActionAgrees(buf: seq<Byte>, off: nat)
    ensures var w := RecordActionAsWritten(buf, off);
            (w.Parse? && w.start > w.end) || RecordAction(buf, off) == w
  {
  }

  /** A version-5 record with a zero errno, at least a header long, has its
      block parsed; any other version is skipped. */
  lemma RecordActionCases(buf: seq<Byte>, off: nat)
    requires off + RT_MSGHDR_SIZE <= |buf|
    requires 0 < Le16(buf, off) && off + Le16(buf, off) <= |buf|
    ensures buf[off + RTM_VERSION_OFFSET] != RTM_VERSION ==> RecordAction(buf, off) == Skip(off + Le16(buf, off))
    ensures buf[off + RTM_VERSION_OFFSET] == RTM_VERSION && LeI32(buf, off + RTM_ERRNO_OFFSET) != 0
            ==> RecordAction(buf, off).Fail?
    ensures buf[off + RTM_VERSION_OFFSET] == RTM_VERSION && LeI32(buf, off + RTM_ERRNO_OFFSET) == 0
            && Le16(buf, off) >= RT_MSGHDR_SIZE
            ==> RecordAction(buf, off) == Parse(off + RT_MSGHDR_SIZE, off + Le16(buf, off))
  {
  }

  /** The effect of a parsed address block. */
  function BlockEffect(block: seq<Byte>): TableEffect
  {
    match MessagePair(block)
    case Some((ip, mac)) => Insert(ip, mac)
    case None => Ignored
  }

  /** The effects of the records the table walk reads from `off` on, in
      order; a failing record is the last one read. */
  function Effects(buf: seq<Byte>, off: nat): (r: seq<TableEffect>)
    ensures forall i :: 0 <= i < |r| - 1 ==> !r[i].Failure?
    decreases |buf| - off
  {
    match RecordAction(buf, off)
    case Stop => []
    case Skip(next) => [Ignored] + Effects(buf, next)
    case Fail(e) => [Failure(CodeToError(e))]
    case Parse(start, end) => [BlockEffect(buf[start..end])] + Effects(buf, end)
  }

  /** One step of the walk, by the action of the record at `off`. */
  lemma EffectsStep(buf: seq<Byte>, off: nat, done: seq<TableEffect>)
    ensures var a := RecordAction(buf, off);
            (a.Stop? ==> Effects(buf, off) == [])
            && (a.Skip? ==> done + Effects(buf, off) == (done + [Ignored]) + Effects(buf, a.next))
            && (a.Fail? ==> Effects(buf, off) == [Failure(CodeToError(a.errno))])
            && (a.Parse? ==> done + Effects(buf, off)
                             == (done + [BlockEffect(buf[a.start..a.end])]) + Effects(buf, a.end))
  {
  }

  /** The header checks of the record at `off`: the end of the walk on a
      zero or overrunning length, a skip on another version (or a length
      shorter than the header), a failure on a non-zero errno, otherwise the
      address block. */
  method ReadRecord(buf: seq<Byte>, off: nat) returns (a: RecordStep)
    requires off + RT_MSGHDR_SIZE <= |buf|
    ensures a == RecordAction(buf, off)
  {
    var msglen := Le16(buf, off);
    if msglen == 0 || off + msglen > |buf| {
      return Stop;
    }
    if buf[off + RTM_VERSION_OFFSET] != RTM_VERSION {
      return Skip(off + msglen);
    }
    var errno := LeI32(buf, off + RTM_ERRNO_OFFSET);
    if errno != 0 {
      return Fail(errno);
    }
    if msglen < RT_MSGHDR_SIZE {
      return Skip(off + msglen);
    }
    a := Parse(off + RT_MSGHDR_SIZE, off + msglen);
  }

  /** `get_neighbor_table`: the routing dump (or the error of reading it),
      walked while a whole `rt_msghdr` is left. */
  method GetNeighborTable(dump: IoResult<seq<Byte>>) returns (r: IoResult<NeighborMap>)
    ensures dump.IoErr? ==> r == IoErr(dump.error)
    ensures dump.IoOk? ==> r == Fold(Effects(dump.value, 0))
  {
    if dump.IoErr? {
      return IoErr(dump.error);
    }
    var buf := dump.value;
    var arp: NeighborMap := map[];
    var off := 0;
    ghost var done: seq<TableEffect> := [];
    while off + RT_MSGHDR_SIZE <= |buf|
      invariant Effects(buf, 0) == done + Effects(buf, off)
      invariant Fold(done) == IoOk(arp)
      decreases |buf| - off
    {
      var action := ReadRecord(buf, off);
      EffectsStep(buf, off, done);
      match action {
        case Stop =>
          break;
        case Skip(next) =>
          FoldStep(done, Ignored);
          done := done + [Ignored];
          off := next;
        case Fail(errno) =>
          FoldStep(done, Failure(CodeToError(errno)));
          return IoErr(CodeToError(errno));
        case Parse(start, end) =>
          var pair := MessageToArpPair(buf[start..end]);
          ghost var e := BlockEffect(buf[start..end]);
          FoldStep(done, e);
          if pair.Some? {
            arp := arp[pair.value.0 := pair.value.1];
          }
          done := done + [e];
          off := end;
      }
    }
    assert RecordAction(buf, off).Stop?;
    assert done == Effects(buf, 0);
    r := IoOk(arp);
  }
}
