/** The Linux neighbour table: a netlink neighbour dump, with `/proc/net/arp`
    as the fallback. */
module NeighLinux {
  import opened Wrappers
  import opened Strings
  import opened NetTypes
  import opened NeighModel

  const NLMSG_ALIGNTO: nat := 4
  const MIN_NLMSG_HEADER_LEN: nat := 16
  /** `SEQ_BASE` ("npls") and the neighbour dump's sequence number,
      `SEQ_BASE ^ 0x04` (bit 2 of the base is clear, so the XOR adds 4). */
  const SEQ_BASE: U32 := 0x6E_70_6C_73
  const NEIGH_DUMP_SEQ: U32 := SEQ_BASE + 0x04

  /** `nlmsg_align`: the next multiple of 4. */
  function NlmsgAlign(n: nat): (r: nat)
    ensures r % NLMSG_ALIGNTO == 0 && n <= r < n + NLMSG_ALIGNTO
  {
    (n + NLMSG_ALIGNTO - 1) - (n + NLMSG_ALIGNTO - 1) % NLMSG_ALIGNTO
  }

  /** Aligning twice is aligning once; an aligned length stays as it is. */
  lemma NlmsgAlignIdempotent(n: nat)
    ensures NlmsgAlign(NlmsgAlign(n)) == NlmsgAlign(n)
    ensures n % NLMSG_ALIGNTO == 0 ==> NlmsgAlign(n) == n
    ensures NlmsgAlign(0) == 0
  {
  }

  // ---------------------------------------------------------------- MAC text

  predicate IsHexDigit(c: char)
  {
    '0' <= c <= '9' || 'a' <= c <= 'f' || 'A' <= c <= 'F'
  }

  function HexDigitValue(c: char): (v: nat)
    requires IsHexDigit(c)
    ensures v < 16
  {
    if '0' <= c <= '9' then c as int - '0' as int
    else if 'a' <= c <= 'f' then c as int - 'a' as int + 10
    else c as int - 'A' as int + 10
  }

  predicate AllHex(s: string)
  {
    forall i :: 0 <= i < |s| ==> IsHexDigit(s[i])
  }

  /** The value of a string of hexadecimal digits. */
  function HexValue(s: string): nat
    requires AllHex(s)
  {
    if s == [] then 0 else HexValue(s[..|s| - 1]) * 16 + HexDigitValue(s[|s| - 1])
  }

  /** `u8::from_str_radix(p, 16)`: an optional '+' and at least one
      hexadecimal digit, with a value that fits a byte. */
  function FromStrRadix16(p: string): (r: Option<Byte>)
    ensures r.Some? ==> p != [] && p != "+"
  {
    var digits := if p != [] && p[0] == '+' then p[1..] else p;
    if digits == [] || !AllHex(digits) then None
    else if HexValue(digits) < 0x100 then Some(HexValue(digits))
    else None
  }

  /** One group of a MAC text: at most two characters, parsed as hex. */
  function GroupByte(p: string): (r: Option<Byte>)
    ensures r.Some? ==> 1 <= |p| <= 2
  {
    if |p| > 2 then None else FromStrRadix16(p)
  }

  /** The bytes of the groups `parts`, if every group parses. */
  function GroupBytes(parts: seq<string>): (r: Option<seq<Byte>>)
    ensures r.Some? ==> |r.value| == |parts|
  {
    if parts == [] then Some([])
    else
      match (GroupBytes(parts[..|parts| - 1]), GroupByte(parts[|parts| - 1]))
      case (Some(bs), Some(b)) => Some(bs + [b])
      case _ => None
  }

  lemma {:induction false} GroupBytesAt(parts: seq<string>, i: nat)
    requires GroupBytes(parts).Some? && i < |parts|
    ensures GroupByte(parts[i]).Some? && GroupBytes(parts).value[i] == GroupByte(parts[i]).value
  {
    if i < |parts| - 1 {
      GroupBytesAt(parts[..|parts| - 1], i);
    }
  }

  /** A failing group makes the whole text fail. */
  lemma {:induction false} GroupBytesPrefixNone(parts: seq<string>, k: nat)
    requires k <= |parts| && GroupBytes(parts[..k]).None?
    ensures GroupBytes(parts).None?
    decreases |parts|
  {
    if k < |parts| {
      var q := parts[..|parts| - 1];
      assert q[..k] == parts[..k];
      GroupBytesPrefixNone(q, k);
    } else {
      assert parts[..k] == parts;
    }
  }

  /** `s.replace('-', ":")` */
  function DashToColon(s: string): (r: string)
    ensures |r| == |s| && '-' !in r
  {
    seq(|s|, i requires 0 <= i < |s| => if s[i] == '-' then ':' else s[i])
  }

  /** `parse_mac_str`: '-' read as ':', then exactly six groups. */
  function ParseMac(s: string): (r: Option<Mac>)
  {
    var parts := Split(DashToColon(s), ':');
    if |parts| != 6 then None
    else
      match GroupBytes(parts)
      case Some(bs) => var m: Mac := bs; Some(m)
      case None => None
  }

  /** `parse_mac_str`, filling a six-byte buffer group by group. */
  method ParseMacStr(s: string) returns (r: Option<Mac>)
    ensures r == ParseMac(s)
  {
    var cleaned := DashToColon(s);
    var parts := Split(cleaned, ':');
    if |parts| != 6 {
      return None;
    }
    var b := new Byte[6](_ => 0);
    var i := 0;
    while i < 6
      invariant i <= 6
      invariant GroupBytes(parts[..i]) == Some(b[..i])
    {
      assert parts[..i + 1][..i] == parts[..i];
      if |parts[i]| > 2 {
        GroupBytesPrefixNone(parts, i + 1);
        return None;
      }
      var v := FromStrRadix16(parts[i]);
      if v.None? {
        GroupBytesPrefixNone(parts, i + 1);
        return None;
      }
      b[i] := v.value;
      assert b[..i + 1] == b[..i] + [v.value];
      i := i + 1;
    }
    assert parts[..6] == parts && b[..6] == b[..];
    var m: Mac := b[..];
    assert GroupBytes(parts) == Some(b[..]);
    r := Some(m);
  }

  function HexDigit(v: nat, upper: bool): (c: char)
    requires v < 16
    ensures IsHexDigit(c) && HexDigitValue(c) == v && c != ':' && c != '-'
  {
    if v < 10 then ('0' as int + v) as char
    else if upper then ('A' as int + v - 10) as char
    else ('a' as int + v - 10) as char
  }

  /** A byte as two hexadecimal digits (`{:02x}` or `{:02X}`). */
  function Hex2(b: Byte, upper: bool): (s: string)
    ensures |s| == 2 && ':' !in s && '-' !in s
  {
    [HexDigit(b / 16, upper), HexDigit(b % 16, upper)]
  }

  lemma Hex2RoundTrip(b: Byte, upper: bool)
    ensures GroupByte(Hex2(b, upper)) == Some(b)
  {
    var s := Hex2(b, upper);
    assert s[..1][..0] == [];
    assert s[..1] == [s[0]];
    assert HexValue(s[..1]) == b / 16;
    assert HexValue(s) == (b / 16) * 16 + b % 16;
  }

  /** The text of a MAC with separator `sep`. */
  function MacText(m: Mac, sep: char, upper: bool): string
  {
    Join(seq(6, i requires 0 <= i < 6 => Hex2(m[i], upper)), sep)
  }

  lemma DashToColonConcat(a: string, b: string)
    ensures DashToColon(a + b) == DashToColon(a) + DashToColon(b)
  {
  }

  lemma DashToColonNoDash(s: string)
    requires '-' !in s
    ensures DashToColon(s) == s
  {
  }

  lemma {:induction false} DashToColonJoin(parts: seq<string>, sep: char)
    requires sep == ':' || sep == '-'
    requires forall i :: 0 <= i < |parts| ==> '-' !in parts[i]
    ensures DashToColon(Join(parts, sep)) == Join(parts, ':')
  {
    if |parts| == 1 {
      DashToColonNoDash(parts[0]);
    } else if |parts| > 1 {
      DashToColonJoin(parts[1..], sep);
      DashToColonConcat(parts[0] + [sep], Join(parts[1..], sep));
      DashToColonConcat(parts[0], [sep]);
      DashToColonNoDash(parts[0]);
    }
  }

  /** Six bytes written as two-digit hex groups joined by ':' or by '-'
      parse back to the same bytes. */
  lemma MacTextRoundTrip(m: Mac, sep: char, upper: bool)
    requires sep == ':' || sep == '-'
    ensures ParseMac(MacText(m, sep, upper)) == Some(m)
  {
    var parts := seq(6, i requires 0 <= i < 6 => Hex2(m[i], upper));
    DashToColonJoin(parts, sep);
    SplitJoin(parts, ':');
    var split := Split(DashToColon(MacText(m, sep, upper)), ':');
    assert split == parts;
    forall i | 0 <= i < 6
      ensures GroupByte(parts[i]) == Some(m[i])
    {
      Hex2RoundTrip(m[i], upper);
    }
    GroupBytesAllSome(parts, m);
  }

  lemma {:induction false} GroupBytesAllSome(parts: seq<string>, bs: seq<Byte>)
    requires |parts| == |bs| && forall i :: 0 <= i < |parts| ==> GroupByte(parts[i]) == Some(bs[i])
    ensures GroupBytes(parts) == Some(bs)
  {
    if parts != [] {
      GroupBytesAllSome(parts[..|parts| - 1], bs[..|bs| - 1]);
      assert bs == bs[..|bs| - 1] + [bs[|bs| - 1]];
    }
  }

  /** A group of three characters, an empty group and a lone sign are
      refused; a leading '+' and digits of either case are accepted. */
  lemma GroupByteCases()
    ensures GroupByte("001").None? && GroupByte("").None? && GroupByte("+").None? && GroupByte("-1").None?
    ensures GroupByte("+a") == Some(10) && GroupByte("Ff") == Some(255) && GroupByte("7") == Some(7)
  {
    assert "+"[1..] == [];
    var minus := "-1";
    assert minus[0] == '-' && !IsHexDigit(minus[0]);
    assert !AllHex(minus);

    assert "+a"[1..] == "a" && "a"[..0] == [];
    assert HexValue("a") == 10;
    assert "Ff"[..1] == "F" && "F"[..0] == [];
    assert HexValue("F") == 15;
    assert HexValue("Ff") == 255;
    assert "7"[..0] == [] && "7"[0] == '7';
    assert HexValue("7") == 7;
    assert FromStrRadix16("7") == Some(7);
  }

  // ---------------------------------------------------------- /proc/net/arp

  /** The entry a line of `/proc/net/arp` gives: at least six columns, flags
      "0x2" in any case, an IPv4 address and a MAC that parse. */
  function ArpLineEntry(line: string): (r: Option<(IpAddr, Mac)>)
    ensures r.Some? ==> r.value.0.V4?
  {
    var cols := SplitWhitespace(line);
    if |cols| < 6 || !EqIgnoreAsciiCase(cols[2], "0x2") then None
    else
      match (ParseIpv4(cols[0]), ParseMac(cols[3]))
      case (Some(ip), Some(mac)) => Some((ip, mac))
      case _ => None
  }

  /** The entry line `i` gives: none for the header line. */
  function LineEntry(i: nat, line: IoResult<string>): Option<(IpAddr, Mac)>
  {
    if i > 0 && line.IoOk? then ArpLineEntry(line.value) else None
  }

  /** What line `i` does: a read error ends the read, the header line and
      lines without an entry are skipped. */
  function LineEffect(i: nat, line: IoResult<string>): (r: TableEffect)
    ensures r.Failure? <==> line.IoErr?
    ensures r.Insert? <==> LineEntry(i, line).Some?
    ensures r.Insert? ==> LineEntry(i, line) == Some((r.ip, r.mac))
  {
    match line
    case IoErr(e) => Failure(e)
    case IoOk(l) =>
      match LineEntry(i, line)
      case Some((ip, mac)) => Insert(ip, mac)
      case None => Ignored
  }

  function LineEffects(lines: seq<IoResult<string>>, n: nat): (r: seq<TableEffect>)
    requires n <= |lines|
    ensures |r| == n
  {
    if n == 0 then [] else LineEffects(lines, n - 1) + [LineEffect(n - 1, lines[n - 1])]
  }

  lemma {:induction false} LineEffectsAt(lines: seq<IoResult<string>>, n: nat, i: nat)
    requires i < n <= |lines|
    ensures LineEffects(lines, n)[i] == LineEffect(i, lines[i])
  {
    if i < n - 1 {
      LineEffectsAt(lines, n - 1, i);
    }
  }

  lemma Ipv4TextNoWhitespace(a: Byte, b: Byte, c: Byte, d: Byte)
    ensures NoWhitespace(Ipv4Text(a, b, c, d)) && Ipv4Text(a, b, c, d) != ""
  {
    var parts := [DecimalString(a), DecimalString(b), DecimalString(c), DecimalString(d)];
    var t := Ipv4Text(a, b, c, d);
    forall k | 0 <= k < |t|
      ensures !IsWhitespace(t[k])
    {
      JoinChar(parts, '.', k);
    }
    assert |t| >= |parts[0]|;
  }

  lemma MacTextNoWhitespace(m: Mac, upper: bool)
    ensures NoWhitespace(MacText(m, ':', upper)) && MacText(m, ':', upper) != ""
  {
    var parts := seq(6, i requires 0 <= i < 6 => Hex2(m[i], upper));
    var t := MacText(m, ':', upper);
    forall k | 0 <= k < |t|
      ensures !IsWhitespace(t[k])
    {
      JoinChar(parts, ':', k);
    }
    assert |t| >= |parts[0]|;
  }

  /** A line as the kernel writes it (address, hardware type, flags, MAC,
      mask, device, separated by spaces) gives its address and MAC exactly
      when the flags are "0x2" in some case. */
  lemma ArpLineRoundTrip(a: Byte, b: Byte, c: Byte, d: Byte, hwType: string, flags: string, m: Mac,
                         mask: string, dev: string, upper: bool)
    requires hwType != "" && NoWhitespace(hwType) && flags != "" && NoWhitespace(flags)
    requires mask != "" && NoWhitespace(mask) && dev != "" && NoWhitespace(dev)
    ensures var line := Join([Ipv4Text(a, b, c, d), hwType, flags, MacText(m, ':', upper), mask, dev], ' ');
            (ArpLineEntry(line).Some? <==> EqIgnoreAsciiCase(flags, "0x2"))
            && (ArpLineEntry(line).Some? ==> ArpLineEntry(line).value == (V4(a, b, c, d), m))
  {
    var cols := [Ipv4Text(a, b, c, d), hwType, flags, MacText(m, ':', upper), mask, dev];
    Ipv4TextNoWhitespace(a, b, c, d);
    MacTextNoWhitespace(m, upper);
    SplitWhitespaceJoin(cols);
    Ipv4TextRoundTrip(a, b, c, d);
    MacTextRoundTrip(m, ':', upper);
  }

  /** Every entry `/proc/net/arp` gives comes from a line after the header,
      and no later line gives an entry for the same address. */
  lemma {:induction false} ProcArpEntry(lines: seq<IoResult<string>>, ip: IpAddr)
    requires Fold(LineEffects(lines, |lines|)).IoOk? && ip in Fold(LineEffects(lines, |lines|)).value
    ensures var t := Fold(LineEffects(lines, |lines|)).value;
            exists i :: 0 < i < |lines| && LineEntry(i, lines[i]) == Some((ip, t[ip]))
                        && forall j :: i < j < |lines| && LineEntry(j, lines[j]).Some? ==> LineEntry(j, lines[j]).value.0 != ip
  {
    var es := LineEffects(lines, |lines|);
    var t := Fold(es).value;
    FoldLastWins(es, ip);
    var i :| 0 <= i < |es| && es[i] == Insert(ip, t[ip]) && forall j :: i < j < |es| ==> !(es[j].Insert? && es[j].ip == ip);
    LineEffectsAt(lines, |lines|, i);
    forall j | i < j < |lines| && LineEntry(j, lines[j]).Some?
      ensures LineEntry(j, lines[j]).value.0 != ip
    {
      LineEffectsAt(lines, |lines|, j);
    }
  }

  lemma {:induction false} LineEffectsPrefix(lines: seq<IoResult<string>>, more: seq<IoResult<string>>, n: nat)
    requires n <= |lines|
    ensures LineEffects(lines + more, n) == LineEffects(lines, n)
  {
    if n > 0 {
      LineEffectsPrefix(lines, more, n - 1);
      assert (lines + more)[n - 1] == lines[n - 1];
    }
  }

  /** A line after the header that gives an entry sets that address's MAC,
      replacing what an earlier line gave. */
  lemma {:induction false} ProcArpLaterLine(lines: seq<IoResult<string>>, l: string, ip: IpAddr, mac: Mac)
    requires |lines| > 0 && Fold(LineEffects(lines, |lines|)).IoOk? && ArpLineEntry(l) == Some((ip, mac))
    ensures Fold(LineEffects(lines + [IoOk(l)], |lines| + 1)) == IoOk(Fold(LineEffects(lines, |lines|)).value[ip := mac])
  {
    LineEffectsPrefix(lines, [IoOk(l)], |lines|);
    assert (lines + [IoOk(l)])[|lines|] == IoOk(l);
    FoldStep(LineEffects(lines, |lines|), LineEffect(|lines|, IoOk(l)));
  }

  /** `read_proc_net_arp`: the file (or the error of opening it) as its
      lines, each read or failed. */
  method ReadProcNetArp(file: IoResult<seq<IoResult<string>>>) returns (r: IoResult<NeighborMap>)
    ensures file.IoErr? ==> r == IoErr(file.error)
    ensures file.IoOk? ==> r == Fold(LineEffects(file.value, |file.value|))
  {
    if file.IoErr? {
      return IoErr(file.error);
    }
    var lines := file.value;
    var m: NeighborMap := map[];
    var i := 0;
    while i < |lines|
      invariant i <= |lines|
      invariant Fold(LineEffects(lines, i)) == IoOk(m)
    {
      FoldStep(LineEffects(lines, i), LineEffect(i, lines[i]));
      if lines[i].IoErr? {
        FoldErrStays(lines, i + 1);
        return IoErr(lines[i].error);
      }
      var line := lines[i].value;
      if i != 0 {
        var cols := SplitWhitespace(line);
        if |cols| >= 6 {
          if EqIgnoreAsciiCase(cols[2], "0x2") {
            var ip := ParseIpv4(cols[0]);
            if ip.Some? {
              var raw := ParseMacStr(cols[3]);
              if raw.Some? {
                m := m[ip.value := raw.value];
              }
            }
          }
        }
      }
      i := i + 1;
    }
    r := IoOk(m);
  }

  /** Once a line fails the read has failed, whatever follows. */
  lemma {:induction false} FoldErrStays(lines: seq<IoResult<string>>, k: nat)
    requires 0 < k <= |lines| && lines[k - 1].IoErr? && Fold(LineEffects(lines, k - 1)).IoOk?
    ensures Fold(LineEffects(lines, |lines|)) == IoErr(lines[k - 1].error)
    decreases |lines| - k
  {
    FoldStep(LineEffects(lines, k - 1), LineEffect(k - 1, lines[k - 1]));
    FoldErrFrom(lines, k, |lines|);
  }

  lemma {:induction false} FoldErrFrom(lines: seq<IoResult<string>>, k: nat, n: nat)
    requires 0 < k <= n <= |lines| && Fold(LineEffects(lines, k)).IoErr?
    ensures Fold(LineEffects(lines, n)) == Fold(LineEffects(lines, k))
    decreases n - k
  {
    if n > k {
      FoldErrFrom(lines, k, n - 1);
      var prev := LineEffects(lines, n - 1);
      assert LineEffects(lines, n) == prev + [LineEffect(n - 1, lines[n - 1])];
      FoldStep(prev, LineEffect(n - 1, lines[n - 1]));
    }
  }

  // ------------------------------------------------------- netlink messages

  /** `NeighbourAddress` and `NeighbourAttribute`, as far as they matter. */
  datatype NeighAddr = AddrInet(v4: Ipv4Addr) | AddrInet6(v6: Ipv6Addr) | AddrOther(raw: seq<Byte>)
  datatype NeighAttr = Destination(addr: NeighAddr) | LinkLocalAddress(bytes: seq<Byte>) | OtherAttr
  datatype NeighbourMessage = NeighbourMessage(attributes: seq<NeighAttr>)

  /** `neigh_addr_to_ip` */
  function NeighAddrToIp(a: NeighAddr): (r: Option<IpAddr>)
    ensures a.AddrInet? ==> r.Some? && r.value == a.v4
    ensures a.AddrInet6? ==> r.Some? && r.value == a.v6
    ensures a.AddrOther? ==> r.None?
  {
    match a
    case AddrInet(v4) => Some(v4)
    case AddrInet6(v6) => Some(v6)
    case AddrOther(_) => None
  }

  /** The address and link-layer address after the attributes so far: each
      Destination replaces the address (with nothing, if it is of no known
      family), each 6-byte link-layer address replaces the MAC, and
      link-layer addresses of other lengths are ignored. */
  function AttrsScan(attrs: seq<NeighAttr>): (Option<IpAddr>, Option<Mac>)
  {
    if attrs == [] then (None, None)
    else
      var (ip, mac) := AttrsScan(attrs[..|attrs| - 1]);
      match attrs[|attrs| - 1]
      case Destination(a) => (NeighAddrToIp(a), mac)
      case LinkLocalAddress(bytes) => if |bytes| == 6 then (ip, Some(bytes)) else (ip, mac)
      case OtherAttr => (ip, mac)
  }

  predicate IsSixByteLink(a: NeighAttr)
  {
    a.LinkLocalAddress? && |a.bytes| == 6
  }

  /** The address comes from the last Destination attribute, and the MAC is
      the last 6-byte link-layer address. */
  lemma {:induction false} AttrsScanLast(attrs: seq<NeighAttr>)
    ensures var (ip, mac) := AttrsScan(attrs);
            (ip.Some? ==> exists i :: 0 <= i < |attrs| && attrs[i].Destination? && NeighAddrToIp(attrs[i].addr) == ip
                                      && forall j :: i < j < |attrs| ==> !attrs[j].Destination?)
            && (mac.Some? ==> exists i :: 0 <= i < |attrs| && attrs[i] == LinkLocalAddress(mac.value)
                                          && forall j :: i < j < |attrs| ==> !IsSixByteLink(attrs[j]))
            && (mac.None? <==> forall i :: 0 <= i < |attrs| ==> !IsSixByteLink(attrs[i]))
  {
    if attrs != [] {
      var q := attrs[..|attrs| - 1];
      AttrsScanLast(q);
      assert forall i :: 0 <= i < |q| ==> q[i] == attrs[i];
    }
  }

  /** What one neighbour message adds: an entry only with both parts. */
  function NeighEffect(n: NeighbourMessage): TableEffect
  {
    match AttrsScan(n.attributes)
    case (Some(ip), Some(mac)) => Insert(ip, mac)
    case _ => Ignored
  }

  function NeighEffects(neighs: seq<NeighbourMessage>): (r: seq<TableEffect>)
    ensures |r| == |neighs| && forall i :: 0 <= i < |r| ==> !r[i].Failure?
  {
    if neighs == [] then [] else NeighEffects(neighs[..|neighs| - 1]) + [NeighEffect(neighs[|neighs| - 1])]
  }

  /** The attribute loop of one neighbour message. */
  method ScanAttributes(attrs: seq<NeighAttr>) returns (ip: Option<IpAddr>, mac: Option<Mac>)
    ensures (ip, mac) == AttrsScan(attrs)
  {
    ip, mac := None, None;
    var k := 0;
    while k < |attrs|
      invariant k <= |attrs|
      invariant (ip, mac) == AttrsScan(attrs[..k])
    {
      assert attrs[..k + 1][..k] == attrs[..k];
      match attrs[k] {
        case Destination(a) =>
          ip := NeighAddrToIp(a);
        case LinkLocalAddress(bytes) =>
          if |bytes| == 6 {
            mac := Some(bytes);
          }
        case OtherAttr =>
      }
      k := k + 1;
    }
    assert attrs[..k] == attrs;
  }

  /** `neighs_to_map`: never fails. */
  method NeighsToMap(neighs: seq<NeighbourMessage>) returns (r: IoResult<NeighborMap>)
    ensures r == Fold(NeighEffects(neighs)) && r.IoOk?
  {
    var m: NeighborMap := map[];
    var k := 0;
    while k < |neighs|
      invariant k <= |neighs|
      invariant Fold(NeighEffects(neighs[..k])) == IoOk(m)
    {
      assert neighs[..k + 1][..k] == neighs[..k];
      FoldStep(NeighEffects(neighs[..k]), NeighEffect(neighs[k]));
      var ip, mac := ScanAttributes(neighs[k].attributes);
      if ip.Some? && mac.Some? {
        m := m[ip.value := mac.value];
      }
      k := k + 1;
    }
    assert neighs[..k] == neighs;
    r := IoOk(m);
  }

  /** `NetlinkPayload` and the route messages it carries. */
  datatype RouteMessage = NewNeighbour(n: NeighbourMessage) | OtherRoute
  datatype NetlinkPayload = PDone | PError(code: Option<int>) | PNoop | POverrun | PInner(route: RouteMessage)
  datatype NetlinkMessage = NetlinkMessage(length: nat, seqNo: U32, payload: NetlinkPayload)

  /** What the netlink library's `deserialize` makes of the bytes from an
      offset on. */
  datatype Decoded = Decoded(msg: NetlinkMessage) | DecodeError(text: string)

  /** One `recv_from` on the non-blocking socket: a datagram, no data yet
      (with whether the two-second deadline has passed), or an error. */
  datatype RecvEvent = Received(bytes: seq<Byte>) | NoData(expired: bool) | RecvFailed(err: IoError)

  function NetlinkErrorOf(code: int): IoError
  {
    IoError(Other, "netlink error: code=" + SignedDecimal(code))
  }

  /** `recv_multi` from receive `k`, offset `off` in its datagram, with the
      messages kept so far. The receives are finite; running out of them
      counts as the deadline passing. */
  function RecvFrom(recvs: seq<RecvEvent>, k: nat, off: nat, out: seq<NetlinkMessage>, want: U32,
                    des: seq<Byte> -> Decoded): IoResult<seq<NetlinkMessage>>
    decreases |recvs| - k, if k < |recvs| && recvs[k].Received? && off < |recvs[k].bytes| then |recvs[k].bytes| - off else 0
  {
    if k >= |recvs| then IoOk(out)
    else
      match recvs[k]
      case RecvFailed(e) => IoErr(e)
      case NoData(expired) => if expired then IoOk(out) else RecvFrom(recvs, k + 1, 0, out, want, des)
      case Received(buf) =>
        if off >= |buf| || |buf| - off < MIN_NLMSG_HEADER_LEN then RecvFrom(recvs, k + 1, 0, out, want, des)
        else
          match des(buf[off..])
          case DecodeError(t) => IoErr(IoError(InvalidData, "deserialize: " + t))
          case Decoded(msg) =>
            if msg.length < MIN_NLMSG_HEADER_LEN || off + msg.length > |buf| then RecvFrom(recvs, k + 1, 0, out, want, des)
            else
              var next := off + NlmsgAlign(msg.length);
              if msg.seqNo != want then RecvFrom(recvs, k, next, out, want, des)
              else
                match msg.payload
                case PDone => IoOk(out)
                case PError(code) =>
                  if code.Some? then IoErr(NetlinkErrorOf(code.value)) else RecvFrom(recvs, k, next, out, want, des)
                case PNoop => RecvFrom(recvs, k, next, out, want, des)
                case POverrun => RecvFrom(recvs, k, next, out, want, des)
                case PInner(_) => RecvFrom(recvs, k, next, out + [msg], want, des)
  }

  /** Every message kept answers the dump (its sequence number) and carries
      a route message; the ones kept earlier stay, in order. */
  lemma {:induction false} RecvFromKeeps(recvs: seq<RecvEvent>, k: nat, off: nat, out: seq<NetlinkMessage>,
                                         want: U32, des: seq<Byte> -> Decoded)
    requires RecvFrom(recvs, k, off, out, want, des).IoOk?
    ensures var got := RecvFrom(recvs, k, off, out, want, des).value;
            |out| <= |got| && got[..|out|] == out
            && forall i :: |out| <= i < |got| ==> got[i].seqNo == want && got[i].payload.PInner?
    decreases |recvs| - k, if k < |recvs| && recvs[k].Received? && off < |recvs[k].bytes| then |recvs[k].bytes| - off else 0
  {
    if k < |recvs| {
      match recvs[k]
      case RecvFailed(e) =>
      case NoData(expired) =>
        if !expired {
          RecvFromKeeps(recvs, k + 1, 0, out, want, des);
        }
      case Received(buf) =>
        if off >= |buf| || |buf| - off < MIN_NLMSG_HEADER_LEN {
          RecvFromKeeps(recvs, k + 1, 0, out, want, des);
        } else {
          match des(buf[off..])
          case DecodeError(t) =>
          case Decoded(msg) =>
            if msg.length < MIN_NLMSG_HEADER_LEN || off + msg.length > |buf| {
              RecvFromKeeps(recvs, k + 1, 0, out, want, des);
            } else {
              var next := off + NlmsgAlign(msg.length);
              if msg.seqNo != want {
                RecvFromKeeps(recvs, k, next, out, want, des);
              } else {
                match msg.payload
                case PDone =>
                case PError(code) =>
                  if code.None? {
                    RecvFromKeeps(recvs, k, next, out, want, des);
                  }
                case PNoop => RecvFromKeeps(recvs, k, next, out, want, des);
                case POverrun => RecvFromKeeps(recvs, k, next, out, want, des);
                case PInner(_) =>
                  RecvFromKeeps(recvs, k, next, out + [msg], want, des);
                  var got := RecvFrom(recvs, k, next, out + [msg], want, des).value;
                  assert got[..|out|] == (got[..|out| + 1])[..|out|];
              }
            }
        }
    }
  }

  /** The messages of one datagram, from offset `off`, while a whole header
      is left. */
  method WalkDatagram(recvs: seq<RecvEvent>, k: nat, out: seq<NetlinkMessage>, want: U32,
                      des: seq<Byte> -> Decoded)
    returns (finished: bool, r: IoResult<seq<NetlinkMessage>>, out': seq<NetlinkMessage>)
    requires k < |recvs| && recvs[k].Received?
    ensures finished ==> r == RecvFrom(recvs, k, 0, out, want, des)
    ensures !finished ==> RecvFrom(recvs, k, 0, out, want, des) == RecvFrom(recvs, k + 1, 0, out', want, des)
  {
    var buf := recvs[k].bytes;
    var offset := 0;
    out' := out;
    while offset < |buf|
      invariant RecvFrom(recvs, k, 0, out, want, des) == RecvFrom(recvs, k, offset, out', want, des)
      decreases |buf| - offset
    {
      if |buf| - offset < MIN_NLMSG_HEADER_LEN {
        break;
      }
      var d := des(buf[offset..]);
      if d.DecodeError? {
        return true, IoErr(IoError(InvalidData, "deserialize: " + d.text)), out';
      }
      var msg := d.msg;
      var consumed := msg.length;
      if consumed < MIN_NLMSG_HEADER_LEN || offset + consumed > |buf| {
        break;
      }
      if msg.seqNo != want {
        offset := offset + NlmsgAlign(consumed);
        continue;
      }
      match msg.payload {
        case PDone =>
          return true, IoOk(out'), out';
        case PError(code) =>
          if code.Some? {
            return true, IoErr(NetlinkErrorOf(code.value)), out';
          }
        case PNoop =>
        case POverrun =>
        case PInner(_) =>
          out' := out' + [msg];
      }
      offset := offset + NlmsgAlign(consumed);
    }
    finished, r := false, IoOk(out');
  }

  /** `recv_multi` */
  method RecvMulti(recvs: seq<RecvEvent>, want: U32, des: seq<Byte> -> Decoded)
    returns (r: IoResult<seq<NetlinkMessage>>)
    ensures r == RecvFrom(recvs, 0, 0, [], want, des)
  {
    var out: seq<NetlinkMessage> := [];
    var k := 0;
    while k < |recvs|
      invariant k <= |recvs|
      invariant RecvFrom(recvs, 0, 0, [], want, des) == RecvFrom(recvs, k, 0, out, want, des)
      decreases |recvs| - k
    {
      match recvs[k] {
        case Received(_) =>
          var finished, res, out' := WalkDatagram(recvs, k, out, want, des);
          if finished {
            return res;
          }
          out := out';
        case NoData(expired) =>
          if expired {
            return IoOk(out);
          }
        case RecvFailed(e) =>
          return IoErr(e);
      }
      k := k + 1;
    }
    r := IoOk(out);
  }

  /** The neighbour messages among the dump's messages, in order. */
  function NeighboursOf(msgs: seq<NetlinkMessage>): seq<NeighbourMessage>
  {
    if msgs == [] then []
    else
      var m := msgs[|msgs| - 1];
      NeighboursOf(msgs[..|msgs| - 1])
      + (if m.payload.PInner? && m.payload.route.NewNeighbour? then [m.payload.route.n] else [])
  }

  /** How opening the route socket ends: `Socket::new` or `bind_auto`
      failing with their error text, or an open socket. */
  datatype SocketOpen = OpenFailed(text: string) | BindFailed(text: string) | Opened

  function OpenError(o: SocketOpen): IoError
    requires !o.Opened?
  {
    match o
    case OpenFailed(t) => IoError(Other, "netlink open: " + t)
    case BindFailed(t) => IoError(Other, "bind_auto: " + t)
  }

  /** `send_dump`: a request whose serialized length is below the header
      size is refused; otherwise the send's own failure is reported. */
  function SendDump(blen: nat, sent: Result<()>): (r: Option<IoError>)
    ensures blen < MIN_NLMSG_HEADER_LEN ==> r == Some(IoError(InvalidData, "netlink message too short: buffer_len=" + DecimalString(blen)))
    ensures blen >= MIN_NLMSG_HEADER_LEN ==> (r.None? <==> sent.Ok?)
  {
    if blen < MIN_NLMSG_HEADER_LEN then Some(IoError(InvalidData, "netlink message too short: buffer_len=" + DecimalString(blen)))
    else if sent.Err? then Some(IoError(Other, "netlink send: " + sent.error))
    else None
  }

  /** `dump_neigh`: open, send the dump request with sequence number
      `NEIGH_DUMP_SEQ`, collect the answer and keep its neighbour
      messages. `blen` is the serialized request's length. */
  method DumpNeigh(open: SocketOpen, blen: nat, sent: Result<()>, recvs: seq<RecvEvent>, des: seq<Byte> -> Decoded)
    returns (r: IoResult<seq<NeighbourMessage>>)
    ensures !open.Opened? ==> r == IoErr(OpenError(open))
    ensures open.Opened? && SendDump(blen, sent).Some? ==> r == IoErr(SendDump(blen, sent).value)
    ensures open.Opened? && SendDump(blen, sent).None? ==>
              match RecvFrom(recvs, 0, 0, [], NEIGH_DUMP_SEQ, des)
              case IoErr(e) => r == IoErr(e)
              case IoOk(msgs) => r == IoOk(NeighboursOf(msgs))
  {
    if !open.Opened? {
      return IoErr(OpenError(open));
    }
    var seqNo := NEIGH_DUMP_SEQ;
    var sendErr := SendDump(blen, sent);
    if sendErr.Some? {
      return IoErr(sendErr.value);
    }
    var msgs := RecvMulti(recvs, seqNo, des);
    if msgs.IoErr? {
      return IoErr(msgs.error);
    }
    var out: seq<NeighbourMessage> := [];
    var k := 0;
    while k < |msgs.value|
      invariant k <= |msgs.value|
      invariant out == NeighboursOf(msgs.value[..k])
    {
      assert msgs.value[..k + 1][..k] == msgs.value[..k];
      var m := msgs.value[k];
      if m.payload.PInner? && m.payload.route.NewNeighbour? {
        out := out + [m.payload.route.n];
      }
      k := k + 1;
    }
    assert msgs.value[..k] == msgs.value;
    r := IoOk(out);
  }

  /** The fallback choice: the netlink table when it was read and is not
      empty, else the `/proc/net/arp` table when it was read and is not
      empty, else an empty table. */
  function ChooseTable(netlink: IoResult<NeighborMap>, proc: IoResult<NeighborMap>): (r: NeighborMap)
    ensures netlink.IoOk? && netlink.value != map[] ==> r == netlink.value
    ensures !(netlink.IoOk? && netlink.value != map[]) && proc.IoOk? && proc.value != map[] ==> r == proc.value
    ensures r == map[] ==> !(netlink.IoOk? && netlink.value != map[]) && !(proc.IoOk? && proc.value != map[])
  {
    if netlink.IoOk? && netlink.value != map[] then netlink.value
    else if proc.IoOk? && proc.value != map[] then proc.value
    else map[]
  }

  /** `get_neighbor_table`: it never fails. */
  method GetNeighborTable(open: SocketOpen, blen: nat, sent: Result<()>, recvs: seq<RecvEvent>,
                          des: seq<Byte> -> Decoded, file: IoResult<seq<IoResult<string>>>)
    returns (r: IoResult<NeighborMap>)
    ensures r.IoOk?
    ensures var fromNetlink := match DumpNeighResult(open, blen, sent, recvs, des)
                               case IoOk(ns) => Fold(NeighEffects(ns))
                               case IoErr(e) => IoErr(e);
            var fromProc := if file.IoErr? then IoErr(file.error) else Fold(LineEffects(file.value, |file.value|));
            r == IoOk(ChooseTable(fromNetlink, fromProc))
  {
    var neighs := DumpNeigh(open, blen, sent, recvs, des);
    if neighs.IoOk? {
      var m := NeighsToMap(neighs.value);
      if m.IoOk? && m.value != map[] {
        return IoOk(m.value);
      }
    }
    var p := ReadProcNetArp(file);
    if p.IoOk? && p.value != map[] {
      return IoOk(p.value);
    }
    r := IoOk(map[]);
  }

  /** The result `DumpNeigh` computes. */
  function DumpNeighResult(open: SocketOpen, blen: nat, sent: Result<()>, recvs: seq<RecvEvent>,
                           des: seq<Byte> -> Decoded): IoResult<seq<NeighbourMessage>>
  {
    if !open.Opened? then IoErr(OpenError(open))
    else if SendDump(blen, sent).Some? then IoErr(SendDump(blen, sent).value)
    else match RecvFrom(recvs, 0, 0, [], NEIGH_DUMP_SEQ, des)
      case IoErr(e) => IoErr(e)
      case IoOk(msgs) => IoOk(NeighboursOf(msgs))
  }
}
