/** Machine integers, addresses and the decoded view of a received ICMP buffer. */
module NetTypes {
  import opened Wrappers
  import opened Strings

  type Byte = x: int | 0 <= x < 0x100
  type U16 = x: int | 0 <= x < 0x1_0000
  type U32 = x: int | 0 <= x < 0x1_0000_0000
  type U64 = x: int | 0 <= x < 0x1_0000_0000_0000_0000
  const U64_MAX: U64 := 0xFFFF_FFFF_FFFF_FFFF

  type Octets16 = s: seq<Byte> | |s| == 16 witness [0,0,0,0,0,0,0,0,0,0,0,0,0,0,0,0]
  /** A 48-bit hardware address, `[u8; 6]`. */
  type Mac = s: seq<Byte> | |s| == 6 witness [0,0,0,0,0,0]

  /** `std::net::IpAddr` */
  datatype IpAddr = V4(a: Byte, b: Byte, c: Byte, d: Byte) | V6(octets: Octets16)

  type Ipv4Addr = ip: IpAddr | ip.V4? witness V4(0, 0, 0, 0)
  type Ipv6Addr = ip: IpAddr | ip.V6? witness V6([0,0,0,0,0,0,0,0,0,0,0,0,0,0,0,0])

  predicate SameFamily(x: IpAddr, y: IpAddr)
  {
    x.V4? == y.V4?
  }

  /** The unspecified address (`0.0.0.0` or `::`) of the family of `ip`. */
  function UnspecifiedLike(ip: IpAddr): (r: IpAddr)
    ensures SameFamily(r, ip)
  {
    if ip.V4? then V4(0, 0, 0, 0) else V6([0,0,0,0,0,0,0,0,0,0,0,0,0,0,0,0])
  }

  /** Dotted-decimal text of an IPv4 address, as `Ipv4Addr`'s `Display` writes it. */
  function Ipv4Text(a: Byte, b: Byte, c: Byte, d: Byte): string
  {
    Join([DecimalString(a), DecimalString(b), DecimalString(c), DecimalString(d)], '.')
  }

  predicate IsDigitString(s: string)
  {
    forall i :: 0 <= i < |s| ==> '0' <= s[i] <= '9'
  }

  /** One dotted-quad component as `Ipv4Addr::from_str` reads it: one to three
      decimal digits, no leading zero unless the component is "0", at most 255. */
  function ParseOctet(s: string): Option<Byte>
  {
    if 1 <= |s| <= 3 && IsDigitString(s) && !(|s| > 1 && s[0] == '0') && DecimalValue(s) < 256
    then Some(DecimalValue(s) as Byte)
    else None
  }

  /** `s.parse::<Ipv4Addr>()` */
  function ParseIpv4(s: string): (r: Option<IpAddr>)
    ensures r.Some? ==> r.value.V4?
  {
    var parts := Split(s, '.');
    if |parts| != 4 then None
    else
      match (ParseOctet(parts[0]), ParseOctet(parts[1]), ParseOctet(parts[2]), ParseOctet(parts[3]))
      case (Some(a), Some(b), Some(c), Some(d)) => Some(V4(a, b, c, d))
      case _ => None
  }

  lemma OctetRoundTrip(n: Byte)
    ensures ParseOctet(DecimalString(n)) == Some(n)
    ensures '.' !in DecimalString(n)
  {
    DecimalRoundTrip(n);
    ShortDecimal(n);
    var s := DecimalString(n);
    assert IsDigitString(s);
    assert forall i :: 0 <= i < |s| ==> s[i] != '.';
  }

  lemma ShortDecimal(n: Byte)
    ensures |DecimalString(n)| <= 3
  {
    if n >= 10 {
      var q := n / 10;
      assert q < 26;
      if q >= 10 {
        assert q / 10 < 10;
        assert |DecimalString(q)| == |DecimalString(q / 10)| + 1 == 2;
      }
      assert |DecimalString(n)| == |DecimalString(q)| + 1;
    }
  }

  /** The text the kernel writes for an IPv4 address parses back to it. */
  lemma Ipv4TextRoundTrip(a: Byte, b: Byte, c: Byte, d: Byte)
    ensures ParseIpv4(Ipv4Text(a, b, c, d)) == Some(V4(a, b, c, d))
  {
    OctetRoundTrip(a); OctetRoundTrip(b); OctetRoundTrip(c); OctetRoundTrip(d);
    var parts := [DecimalString(a), DecimalString(b), DecimalString(c), DecimalString(d)];
    SplitJoin(parts, '.');
  }

  /** How a received buffer decodes: as an IPv4 datagram (its protocol number and,
      when the payload is a well-formed ICMP message, its type) and as a bare
      ICMPv6 message (its type). Either view may be absent. */
  datatype Ipv4View = Ipv4View(protocol: Byte, icmpType: Option<Byte>)
  datatype BufferView = BufferView(ipv4: Option<Ipv4View>, icmpv6Type: Option<Byte>)

  const IP_PROTO_ICMP: Byte := 1
  /** ICMP types of RFC 792 and ICMPv6 types of RFC 4443. */
  const ICMP_ECHO_REPLY: Byte := 0
  const ICMP_DEST_UNREACHABLE: Byte := 3
  const ICMPV6_DEST_UNREACHABLE: Byte := 1
  const ICMPV6_ECHO_REPLY: Byte := 129

  /** The ICMP type of an IPv4 datagram carrying ICMP, if any. */
  function Icmpv4TypeOf(v: BufferView): Option<Byte>
  {
    if v.ipv4.Some? && v.ipv4.value.protocol == IP_PROTO_ICMP then v.ipv4.value.icmpType else None
  }
}
