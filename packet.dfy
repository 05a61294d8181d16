/** The reply classifiers of the probes, on the decoded view of a received buffer. */
module Packet {
  import opened Wrappers
  import opened NetTypes

  /** `parse_icmp_echo_v4(buf).is_some()`: an IPv4 datagram carrying an ICMP Echo Reply. */
  predicate ParseIcmpEchoV4(v: BufferView)
  {
    Icmpv4TypeOf(v) == Some(ICMP_ECHO_REPLY)
  }

  /** `parse_icmp_echo_v6(buf).is_some()`: ANY well-formed ICMPv6 message is accepted,
      an Echo Reply or not. */
  predicate ParseIcmpEchoV6(v: BufferView)
  {
    v.icmpv6Type.Some?
  }

  /** `is_echo_reply` of the ICMP traceroute: the message type is Echo Reply
      for the destination's family. */
  predicate IsEchoReply(dst: IpAddr, v: BufferView)
  {
    if dst.V4? then Icmpv4TypeOf(v) == Some(ICMP_ECHO_REPLY)
    else v.icmpv6Type == Some(ICMPV6_ECHO_REPLY)
  }

  /** `is_port_unreach_v4` (an IPv4 datagram carrying ICMP Destination Unreachable). */
  predicate IsPortUnreachV4(v: BufferView)
  {
    Icmpv4TypeOf(v) == Some(ICMP_DEST_UNREACHABLE)
  }

  /** `is_port_unreach_v6` (an ICMPv6 Destination Unreachable). */
  predicate IsPortUnreachV6(v: BufferView)
  {
    v.icmpv6Type == Some(ICMPV6_DEST_UNREACHABLE)
  }

  /** The UDP probes' destination test: the reply is judged by the classifier of
      the destination's family when the local socket has that family too. */
  predicate IsPortUnreachFor(dst: IpAddr, local: IpAddr, v: BufferView)
  {
    if dst.V4? && local.V4? then IsPortUnreachV4(v)
    else if dst.V6? && local.V6? then IsPortUnreachV6(v)
    else false
  }

  /** The ICMPv6 ping accepts every message the traceroute accepts as an echo
      reply, and also messages that are not echo replies at all (a Destination
      Unreachable, say). */
  lemma PingV6AcceptsMoreThanEchoReplies(dst: IpAddr)
    requires dst.V6?
    ensures forall v :: IsEchoReply(dst, v) ==> ParseIcmpEchoV6(v)
    ensures var u := BufferView(None, Some(ICMPV6_DEST_UNREACHABLE));
            ParseIcmpEchoV6(u) && !IsEchoReply(dst, u) && IsPortUnreachV6(u)
  {
  }

  /** For either family, a message is never both an echo reply and a
      Destination Unreachable, whatever the destination. */
  lemma EchoAndUnreachableExclusive(v: BufferView)
    ensures !(ParseIcmpEchoV4(v) && IsPortUnreachV4(v))
    ensures forall dst: IpAddr :: dst.V6? ==> !(IsEchoReply(dst, v) && IsPortUnreachV6(v))
  {
  }
}
