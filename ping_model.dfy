/** Ping protocols, settings, samples and statistics. */
module PingModel {
  import opened Wrappers
  import opened Strings
  import opened NetTypes
  import opened ProbeModel
  import opened RttStats

  datatype PingProtocol = Icmp | Tcp | Udp | Quic | Http

  /** `Display for PingProtocol` */
  function ProtocolName(p: PingProtocol): string
  {
    match p
    case Icmp => "ICMP"
    case Tcp => "TCP"
    case Udp => "UDP"
    case Quic => "QUIC"
    case Http => "HTTP"
  }

  /** `PingProtocol::from_str`: the lower-cased text must be one of the five names.
      `Err(())` is `None`. */
  function ParseProtocol(s: string): (r: Option<PingProtocol>)
    ensures r.Some? ==> AsciiLower(s) == AsciiLower(ProtocolName(r.value))
  {
    var l := AsciiLower(s);
    if l == "icmp" then Some(Icmp)
    else if l == "tcp" then Some(Tcp)
    else if l == "udp" then Some(Udp)
    else if l == "quic" then Some(Quic)
    else if l == "http" then Some(Http)
    else None
  }

  /** Parsing accepts a text exactly when it equals some protocol's name up to
      ASCII case, and then yields that protocol. */
  lemma ParseProtocolExact(s: string, p: PingProtocol)
    ensures ParseProtocol(s) == Some(p) <==> AsciiLower(s) == AsciiLower(ProtocolName(p))
  {
    assert AsciiLower("ICMP") == "icmp";
    assert AsciiLower("TCP") == "tcp";
    assert AsciiLower("UDP") == "udp";
    assert AsciiLower("QUIC") == "quic";
    assert AsciiLower("HTTP") == "http";
  }

  /** What `Display` writes, `from_str` reads back. */
  lemma ParseDisplayRoundTrip(p: PingProtocol)
    ensures ParseProtocol(ProtocolName(p)) == Some(p)
  {
    ParseProtocolExact(ProtocolName(p), p);
  }

  datatype PingSetting = PingSetting(
    ip: IpAddr,
    hostname: Option<string>,
    port: Option<U16>,
    hopLimit: Byte,
    protocol: PingProtocol,
    count: U32,
    timeoutMs: U64,
    sendRateMs: U64)

  datatype PingSample = PingSample(
    seqNo: U32,
    ip: IpAddr,
    hostname: Option<string>,
    port: Option<U16>,
    rttMs: Option<U64>,
    status: ProbeStatus,
    protocol: PingProtocol)

  datatype PingStat = PingStat(
    ip: IpAddr,
    hostname: Option<string>,
    port: Option<U16>,
    protocol: PingProtocol,
    samples: seq<PingSample>,
    transmitted: nat,
    received: nat,
    min: Option<U64>,
    avg: Option<U64>,
    max: Option<U64>)

  /** A sample the drivers count as received: status Done and an RTT present. */
  predicate Replied(x: PingSample)
  {
    x.status.IsOk() && x.rttMs.Some?
  }

  /** Number of samples whose status is Done, whatever their RTT. */
  function OkCount(s: seq<PingSample>): nat
  {
    if s == [] then 0 else OkCount(s[..|s| - 1]) + (if s[|s| - 1].status.IsOk() then 1 else 0)
  }

  /** Number of samples that are `Replied`. */
  function ReplyCount(s: seq<PingSample>): nat
  {
    if s == [] then 0 else ReplyCount(s[..|s| - 1]) + (if Replied(s[|s| - 1]) then 1 else 0)
  }

  /** The RTTs of the replied samples, in sample order. */
  function OkRtts(s: seq<PingSample>): seq<U64>
  {
    if s == [] then [] else OkRtts(s[..|s| - 1]) + (if Replied(s[|s| - 1]) then [s[|s| - 1].rttMs.value] else [])
  }

  lemma {:induction false} CountsBounded(s: seq<PingSample>)
    ensures |OkRtts(s)| == ReplyCount(s) <= OkCount(s) <= |s|
  {
    if s != [] { CountsBounded(s[..|s| - 1]); }
  }

  /** `OkRtts` holds the RTT of every replied sample and nothing else. */
  lemma {:induction false} OkRttsMembers(s: seq<PingSample>)
    ensures forall i :: 0 <= i < |s| && Replied(s[i]) ==> s[i].rttMs.value in OkRtts(s)
    ensures forall x :: x in OkRtts(s) ==> exists i :: 0 <= i < |s| && Replied(s[i]) && s[i].rttMs.value == x
  {
    if s != [] {
      var p := s[..|s| - 1];
      OkRttsMembers(p);
      forall i | 0 <= i < |s| && Replied(s[i]) ensures s[i].rttMs.value in OkRtts(s) {
        if i < |p| { assert p[i] == s[i]; }
      }
      forall x | x in OkRtts(s) ensures exists i :: 0 <= i < |s| && Replied(s[i]) && s[i].rttMs.value == x {
        if x in OkRtts(p) {
          var i :| 0 <= i < |p| && Replied(p[i]) && p[i].rttMs.value == x;
          assert s[i] == p[i];
        } else {
          assert Replied(s[|s| - 1]) && s[|s| - 1].rttMs.value == x;
        }
      }
    }
  }

  /** Samples in which Done goes with an RTT and every other status goes without one. */
  predicate Consistent(s: seq<PingSample>)
  {
    forall i :: 0 <= i < |s| ==> (s[i].status.IsOk() <==> s[i].rttMs.Some?)
  }

  /** For consistent samples both ways of counting replies agree. */
  lemma {:induction false} ConsistentCountsAgree(s: seq<PingSample>)
    requires Consistent(s)
    ensures ReplyCount(s) == OkCount(s)
  {
    if s != [] {
      assert Consistent(s[..|s| - 1]) by {
        forall i | 0 <= i < |s| - 1 ensures s[..|s| - 1][i] == s[i] {}
      }
      ConsistentCountsAgree(s[..|s| - 1]);
    }
  }

  /** `PingStat::from_samples`: the samples are kept, every sample is counted as
      transmitted, a Done sample is counted as received whether or not it has an
      RTT, and the summary is over the RTTs of the replied samples. */
  function FromSamples(ip: IpAddr, hostname: Option<string>, port: Option<U16>, protocol: PingProtocol,
                       samples: seq<PingSample>): (r: PingStat)
    ensures r.samples == samples && r.ip == ip && r.hostname == hostname && r.port == port && r.protocol == protocol
    ensures r.transmitted == |samples| && r.received == OkCount(samples) <= r.transmitted
    ensures r.min.Some? <==> exists i :: 0 <= i < |samples| && Replied(samples[i])
    ensures r.min.Some? ==> r.avg.Some? && r.max.Some? && r.min.value <= r.avg.value <= r.max.value
    ensures r.min.Some? <==> OkRtts(samples) != []
    ensures OkRtts(samples) != [] ==> r.avg == Some(Sum(OkRtts(samples)) / |OkRtts(samples)|)
    ensures r.min.Some? ==> (exists i :: 0 <= i < |samples| && Replied(samples[i]) && samples[i].rttMs.value == r.min.value)
                            && (exists i :: 0 <= i < |samples| && Replied(samples[i]) && samples[i].rttMs.value == r.max.value)
    ensures r.min.Some? ==> forall i :: 0 <= i < |samples| && Replied(samples[i]) ==>
              r.min.value <= samples[i].rttMs.value <= r.max.value
    ensures r.min.None? ==> r.avg.None? && r.max.None?
  {
    var rtts := OkRtts(samples);
    CountsBounded(samples);
    OkRttsMembers(samples);
    if rtts == [] then
      PingStat(ip, hostname, port, protocol, samples, |samples|, OkCount(samples), None, None, None)
    else
      MinMaxBound(rtts);
      MinLeMeanLeMax(rtts);
      assert rtts[0] in rtts;
      PingStat(ip, hostname, port, protocol, samples, |samples|, OkCount(samples),
               Some(SeqMin(rtts)), Some(Sum(rtts) / |rtts|), Some(SeqMax(rtts)))
  }
}
