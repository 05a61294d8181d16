/** Ports with their transport, hosts, and endpoints that collect tags and
    ports and merge with one another. */
module Endpoints {
  import opened Wrappers
  import opened Strings
  import opened NetTypes

  datatype TransportProtocol = Tcp | Udp | Quic

  datatype Port = Port(number: U16, transport: TransportProtocol)

  datatype SocketAddr = SocketAddr(ip: IpAddr, port: U16)

  /** `Port::new` */
  function NewPort(number: U16, transport: TransportProtocol): (p: Port)
    ensures p.number == number && p.transport == transport
  {
    Port(number, transport)
  }

  /** `Port::from((number, transport))` */
  function PortFrom(t: (U16, TransportProtocol)): (p: Port)
    ensures p.number == t.0 && p.transport == t.1
  {
    Port(t.0, t.1)
  }

  lemma PortFromIsNew(number: U16, transport: TransportProtocol)
    ensures PortFrom((number, transport)) == NewPort(number, transport)
  {
  }

  /** `Port::socket_addr` */
  function PortSocketAddr(p: Port, ip: IpAddr): (a: SocketAddr)
    ensures a.ip == ip && a.port == p.number
  {
    SocketAddr(ip, p.number)
  }

  function TransportName(t: TransportProtocol): (s: string)
    ensures ':' !in s && |s| >= 3
  {
    match t
    case Tcp => "tcp"
    case Udp => "udp"
    case Quic => "quic"
  }

  /** `Port`'s `Display`: the transport's name, a colon, the number. */
  function PortText(p: Port): string
  {
    TransportName(p.transport) + ":" + DecimalString(p.number)
  }

  /** The text splits at its one colon into the transport's name and the
      decimal number, so different ports have different texts. */
  lemma PortTextParts(p: Port)
    ensures Split(PortText(p), ':') == [TransportName(p.transport), DecimalString(p.number)]
    ensures DecimalValue(DecimalString(p.number)) == p.number
  {
    var parts := [TransportName(p.transport), DecimalString(p.number)];
    assert ':' !in DecimalString(p.number);
    assert Join(parts, ':') == PortText(p);
    SplitJoin(parts, ':');
    DecimalRoundTrip(p.number);
  }

  lemma PortTextInjective(p: Port, q: Port)
    requires PortText(p) == PortText(q)
    ensures p == q
  {
    PortTextParts(p);
    PortTextParts(q);
    assert TransportName(p.transport) == TransportName(q.transport);
  }

  /** `Host` */
  datatype Host = Host(ip: IpAddr, hostname: Option<string>)

  /** `Host::new`: no hostname. */
  function NewHost(ip: IpAddr): (h: Host)
    ensures h.ip == ip && h.hostname.None?
  {
    Host(ip, None)
  }

  function HostWithHostname(ip: IpAddr, hostname: string): (h: Host)
    ensures h.ip == ip && h.hostname == Some(hostname)
  {
    Host(ip, Some(hostname))
  }

  /** `xs` after pushing `x` unless it is already there. */
  function Upserted<T(==,!new)>(xs: seq<T>, x: T): (r: seq<T>)
    ensures x in r && forall y :: y in r <==> y in xs || y == x
  {
    if x in xs then xs else xs + [x]
  }

  /** Upserting twice is upserting once, and an element already there
      changes nothing. */
  lemma UpsertedIdempotent<T(!new)>(xs: seq<T>, x: T)
    ensures Upserted(Upserted(xs, x), x) == Upserted(xs, x)
    ensures x in xs ==> Upserted(xs, x) == xs
    ensures x !in xs ==> Upserted(xs, x) == xs + [x]
  {
  }

  /** `xs` after upserting every element of `ys` in turn. */
  function UpsertAll<T(==,!new)>(xs: seq<T>, ys: seq<T>): (r: seq<T>)
  {
    if ys == [] then xs else Upserted(UpsertAll(xs, ys[..|ys| - 1]), ys[|ys| - 1])
  }

  /** `r` holds no two equal elements at or after position `from`, nor one
      there equal to an earlier one. */
  predicate NoDuplicatesFrom<T(==,!new)>(r: seq<T>, from: nat)
  {
    forall i, j :: 0 <= i < j < |r| && from <= j ==> r[i] != r[j]
  }

  /** `xs` stays a prefix, every element of either is there and nothing
      else, and the elements added after `xs` are new and pairwise distinct. */
  lemma {:induction false} UpsertAllMerges<T(!new)>(xs: seq<T>, ys: seq<T>)
    ensures var r := UpsertAll(xs, ys);
            |xs| <= |r| && r[..|xs|] == xs
            && (forall y :: y in r <==> y in xs || y in ys)
            && NoDuplicatesFrom(r, |xs|)
  {
    if ys != [] {
      var q := UpsertAll(xs, ys[..|ys| - 1]);
      UpsertAllMerges(xs, ys[..|ys| - 1]);
      var y := ys[|ys| - 1];
      assert ys == ys[..|ys| - 1] + [y];
      if y !in q {
        var r := q + [y];
        assert r[..|xs|] == q[..|xs|];
        forall i, j | 0 <= i < j < |r| && |xs| <= j
          ensures r[i] != r[j]
        {
          if j == |q| {
            assert r[i] == q[i] && q[i] in q;
          }
        }
      }
    }
  }

  /** With no duplicates to start with, the merge has none. */
  lemma UpsertAllDistinct<T(!new)>(xs: seq<T>, ys: seq<T>)
    requires NoDuplicatesFrom(xs, 0)
    ensures NoDuplicatesFrom(UpsertAll(xs, ys), 0)
  {
    var r := UpsertAll(xs, ys);
    UpsertAllMerges(xs, ys);
    forall i, j | 0 <= i < j < |r|
      ensures r[i] != r[j]
    {
      if j < |xs| {
        assert r[i] == xs[i] && r[j] == xs[j];
      }
    }
  }

  /** The socket addresses of the ports with transport `t`, in order. */
  function PortAddrs(ip: IpAddr, ports: seq<Port>, t: TransportProtocol): (r: seq<SocketAddr>)
    ensures |r| <= |ports|
  {
    if ports == [] then []
    else
      var p := ports[|ports| - 1];
      PortAddrs(ip, ports[..|ports| - 1], t) + (if p.transport == t then [PortSocketAddr(p, ip)] else [])
  }

  /** An address is there exactly when a port of transport `t` has its
      number, and every address carries `ip`. */
  lemma {:induction false} PortAddrsExact(ip: IpAddr, ports: seq<Port>, t: TransportProtocol)
    ensures forall a :: a in PortAddrs(ip, ports, t) <==> exists p :: p in ports && p.transport == t && a == SocketAddr(ip, p.number)
  {
    if ports != [] {
      var q := ports[..|ports| - 1];
      PortAddrsExact(ip, q, t);
      assert ports == q + [ports[|ports| - 1]];
    }
  }

  /** A port of another transport adds nothing, one of transport `t` adds
      its address at the end: the addresses keep the ports' order. */
  lemma PortAddrsAppend(ip: IpAddr, ports: seq<Port>, p: Port, t: TransportProtocol)
    ensures PortAddrs(ip, ports + [p], t) == PortAddrs(ip, ports, t) + (if p.transport == t then [SocketAddr(ip, p.number)] else [])
  {
    assert (ports + [p])[..|ports|] == ports;
  }

  /** `Endpoint`: an address, what is known about it, its tags and ports. */
  class Endpoint {
    var ip: IpAddr
    var hostname: Option<string>
    var macAddr: Option<Mac>
    var tags: seq<string>
    var ports: seq<Port>

    /** `Endpoint::new` */
    constructor (ip: IpAddr)
      ensures this.ip == ip && hostname.None? && macAddr.None? && tags == [] && ports == []
    {
      this.ip := ip;
      hostname := None;
      macAddr := None;
      tags := [];
      ports := [];
    }

    /** `Endpoint::with_hostname` */
    constructor WithHostname(ip: IpAddr, hostname: string)
      ensures this.ip == ip && this.hostname == Some(hostname) && macAddr.None? && tags == [] && ports == []
    {
      this.ip := ip;
      this.hostname := Some(hostname);
      macAddr := None;
      tags := [];
      ports := [];
    }

    /** `upsert_port`: the port is there afterwards; it is appended when new. */
    method UpsertPort(port: Port)
      modifies this
      ensures ports == Upserted(old(ports), port)
      ensures port in ports && (port in old(ports) ==> ports == old(ports))
      ensures ip == old(ip) && hostname == old(hostname) && macAddr == old(macAddr) && tags == old(tags)
    {
      if port !in ports {
        ports := ports + [port];
      }
    }

    /** `merge`: hostname and hardware address are kept when known and taken
        from `other` otherwise; `other`'s tags and ports, as they were on
        entry, are upserted in order. */
    method Merge(other: Endpoint)
      modifies this
      ensures hostname == (if old(hostname).None? then old(other.hostname) else old(hostname))
      ensures macAddr == (if old(macAddr).None? then old(other.macAddr) else old(macAddr))
      ensures tags == UpsertAll(old(tags), old(other.tags))
      ensures ports == UpsertAll(old(ports), old(other.ports))
      ensures ip == old(ip)
    {
      var otherTags, otherPorts := other.tags, other.ports;
      var newTags, newPorts := tags, ports;
      var k := 0;
      while k < |otherTags|
        invariant k <= |otherTags|
        invariant newTags == UpsertAll(old(tags), otherTags[..k])
      {
        assert otherTags[..k + 1][..k] == otherTags[..k];
        var t := otherTags[k];
        if t !in newTags {
          newTags := newTags + [t];
        }
        k := k + 1;
      }
      assert otherTags[..k] == otherTags;
      k := 0;
      while k < |otherPorts|
        invariant k <= |otherPorts|
        invariant newPorts == UpsertAll(old(ports), otherPorts[..k])
      {
        assert otherPorts[..k + 1][..k] == otherPorts[..k];
        var p := otherPorts[k];
        if p !in newPorts {
          newPorts := newPorts + [p];
        }
        k := k + 1;
      }
      assert otherPorts[..k] == otherPorts;
      if hostname.None? {
        hostname := other.hostname;
      }
      if macAddr.None? {
        macAddr := other.macAddr;
      }
      tags, ports := newTags, newPorts;
    }

    /** `socket_addrs`: one address per port of transport `t`, in order. */
    function SocketAddrs(t: TransportProtocol): (r: seq<SocketAddr>)
      reads this
      ensures forall a :: a in r <==> exists p :: p in ports && p.transport == t && a == SocketAddr(ip, p.number)
    {
      PortAddrsExact(ip, ports, t);
      PortAddrs(ip, ports, t)
    }
  }

  /** `Endpoint::default()`'s address. */
  const UNSPECIFIED_V4: IpAddr := V4(0, 0, 0, 0)
}
