/** `IcmpConfig` and the construction of `AsyncIcmpSocket`. */
module SocketIcmp {
  import opened Wrappers
  import opened NetTypes
  import opened SocketModel

  datatype IcmpKind = KindV4 | KindV6

  datatype IcmpSocketType = Dgram | Raw
  {
    predicate IsDgram() { this == Dgram }
    predicate IsRaw() { this == Raw }
  }

  /** `IcmpSocketType::from_sock_type`; the panic on any other type is `None`. */
  function FromSockType(t: SockType): (r: Option<IcmpSocketType>)
    ensures r.Some? <==> t == DGRAM || t == RAW
  {
    match t
    case DGRAM => Some(Dgram)
    case RAW => Some(Raw)
    case _ => None
  }

  /** `IcmpSocketType::to_sock_type` */
  function ToSockType(x: IcmpSocketType): (r: SockType)
    ensures r == DGRAM || r == RAW
  {
    match x
    case Dgram => DGRAM
    case Raw => RAW
  }

  /** The two conversions are inverse on DGRAM and RAW. */
  lemma SockTypeRoundTrip(x: IcmpSocketType, t: SockType)
    ensures FromSockType(ToSockType(x)) == Some(x)
    ensures FromSockType(t) == Some(x) ==> ToSockType(x) == t
  {
  }

  datatype IcmpConfig = IcmpConfig(
    family: SocketFamily,
    bind: Option<SocketAddr>,
    ttl: Option<U32>,
    hoplimit: Option<U32>,
    readTimeoutMs: Option<nat>,
    writeTimeoutMs: Option<nat>,
    iface: Option<string>,
    sockTypeHint: IcmpSocketType,
    fib: Option<U32>)
  {
    function WithBind(addr: SocketAddr): IcmpConfig { this.(bind := Some(addr)) }
    function WithTtl(t: U32): IcmpConfig { this.(ttl := Some(t)) }
    function WithHoplimit(h: U32): IcmpConfig { this.(hoplimit := Some(h)) }
    function WithReadTimeout(ms: nat): IcmpConfig { this.(readTimeoutMs := Some(ms)) }
    function WithWriteTimeout(ms: nat): IcmpConfig { this.(writeTimeoutMs := Some(ms)) }
    function WithInterface(name: string): IcmpConfig { this.(iface := Some(name)) }
    function WithSockType(t: IcmpSocketType): IcmpConfig { this.(sockTypeHint := t) }
    function WithFib(f: U32): IcmpConfig { this.(fib := Some(f)) }
  }

  /** Exactly one of `is_dgram` and `is_raw` holds. */
  lemma DgramOrRaw(t: IcmpSocketType)
    ensures t.IsDgram() <==> !t.IsRaw()
  {
  }

  /** Each builder sets its own field and leaves every other field as it was:
      putting the old value back gives the configuration it started from. */
  lemma BuildersSetOwnField(c: IcmpConfig, addr: SocketAddr, n: U32, ms: nat, name: string, t: IcmpSocketType)
    ensures c.WithBind(addr).bind == Some(addr) && c.WithBind(addr).(bind := c.bind) == c
    ensures c.WithTtl(n).ttl == Some(n) && c.WithTtl(n).(ttl := c.ttl) == c
    ensures c.WithHoplimit(n).hoplimit == Some(n) && c.WithHoplimit(n).(hoplimit := c.hoplimit) == c
    ensures c.WithReadTimeout(ms).readTimeoutMs == Some(ms) && c.WithReadTimeout(ms).(readTimeoutMs := c.readTimeoutMs) == c
    ensures c.WithWriteTimeout(ms).writeTimeoutMs == Some(ms) && c.WithWriteTimeout(ms).(writeTimeoutMs := c.writeTimeoutMs) == c
    ensures c.WithInterface(name).iface == Some(name) && c.WithInterface(name).(iface := c.iface) == c
    ensures c.WithSockType(t).sockTypeHint == t && c.WithSockType(t).(sockTypeHint := c.sockTypeHint) == c
    ensures c.WithFib(n).fib == Some(n) && c.WithFib(n).(fib := c.fib) == c
  {
  }

  /** `IcmpConfig::new`: the family of the kind, DGRAM preferred, no option set. */
  function NewIcmpConfig(kind: IcmpKind): (c: IcmpConfig)
    ensures c.family == (if kind == KindV4 then IPV4 else IPV6)
    ensures c.sockTypeHint == Dgram
    ensures c.bind.None? && c.ttl.None? && c.hoplimit.None? && c.readTimeoutMs.None?
    ensures c.writeTimeoutMs.None? && c.iface.None? && c.fib.None?
  {
    IcmpConfig(if kind == KindV4 then IPV4 else IPV6, None, None, None, None, None, None, Dgram, None)
  }

  /** The calls `AsyncIcmpSocket::new` makes once the socket exists, in order:
      non-blocking mode, then each option that is set; FIB only on FreeBSD, the
      device binding only on Linux; the address binding last. */
  function IcmpOptionCalls(c: IcmpConfig, platform: Platform): seq<SocketCall>
  {
    [SetNonblocking]
    + (if c.ttl.Some? then [SetTtl(c.ttl.value)] else [])
    + (if c.hoplimit.Some? then [SetUnicastHops(c.hoplimit.value)] else [])
    + (if c.readTimeoutMs.Some? then [SetReadTimeout(c.readTimeoutMs.value)] else [])
    + (if c.writeTimeoutMs.Some? then [SetWriteTimeout(c.writeTimeoutMs.value)] else [])
    + (if platform == FreeBsd && c.fib.Some? then [SetFib(c.fib.value)] else [])
    + (if platform == Linux && c.iface.Some? then [BindDevice(c.iface.value)] else [])
    + (if c.bind.Some? then [Bind(c.bind.value)] else [])
  }

  /** Every set option is applied and nothing else is: a TTL call appears exactly
      when a TTL is configured, with that value, and likewise for the hop limit
      and the bind address. */
  lemma OptionCallsFollowConfig(c: IcmpConfig, platform: Platform)
    ensures forall t: U32 :: SetTtl(t) in IcmpOptionCalls(c, platform) <==> c.ttl == Some(t)
    ensures forall h: U32 :: SetUnicastHops(h) in IcmpOptionCalls(c, platform) <==> c.hoplimit == Some(h)
    ensures forall a :: Bind(a) in IcmpOptionCalls(c, platform) <==> c.bind == Some(a)
    ensures IcmpOptionCalls(c, platform)[0] == SetNonblocking
    ensures c.bind.Some? ==> IcmpOptionCalls(c, platform)[|IcmpOptionCalls(c, platform)| - 1] == Bind(c.bind.value)
  {
    TtlCallFollowsConfig(c, platform);
    HopsCallFollowsConfig(c, platform);
    BindCallFollowsConfig(c, platform);
  }

  lemma TtlCallFollowsConfig(c: IcmpConfig, platform: Platform)
    ensures forall t: U32 :: SetTtl(t) in IcmpOptionCalls(c, platform) <==> c.ttl == Some(t)
  {
  }

  lemma HopsCallFollowsConfig(c: IcmpConfig, platform: Platform)
    ensures forall h: U32 :: SetUnicastHops(h) in IcmpOptionCalls(c, platform) <==> c.hoplimit == Some(h)
  {
  }

  lemma BindCallFollowsConfig(c: IcmpConfig, platform: Platform)
    ensures forall a :: Bind(a) in IcmpOptionCalls(c, platform) <==> c.bind == Some(a)
    ensures IcmpOptionCalls(c, platform)[0] == SetNonblocking
    ensures c.bind.Some? ==> IcmpOptionCalls(c, platform)[|IcmpOptionCalls(c, platform)| - 1] == Bind(c.bind.value)
  {
  }

  /** The state of an opened `AsyncIcmpSocket`. */
  datatype IcmpSocket = IcmpSocket(socketType: IcmpSocketType, family: SocketFamily)

  function Alternate(x: IcmpSocketType): IcmpSocketType
  {
    if x.IsDgram() then Raw else Dgram
  }

  /** `AsyncIcmpSocket::new`: the hinted type is tried first and the other type
      only when that fails; then the option calls run in order and the first
      failure is the error. `create` and `failure` stand for the operating system. */
  function OpenIcmpSocket(c: IcmpConfig, platform: Platform,
                          create: SockType -> Option<string>,
                          failure: SocketCall -> Option<string>): (r: Result<IcmpSocket>)
    ensures r.Ok? <==> (create(ToSockType(c.sockTypeHint)).None? || create(ToSockType(Alternate(c.sockTypeHint))).None?)
                       && forall i :: 0 <= i < |IcmpOptionCalls(c, platform)| ==> failure(IcmpOptionCalls(c, platform)[i]).None?
    ensures r.Ok? ==> r.value.family == c.family
    ensures r.Ok? ==> r.value.socketType == if create(ToSockType(c.sockTypeHint)).None? then c.sockTypeHint else Alternate(c.sockTypeHint)
  {
    var hinted := ToSockType(c.sockTypeHint);
    var alt := if c.sockTypeHint.IsDgram() then RAW else DGRAM;
    var created: Result<SockType> :=
      if create(hinted).None? then Ok(hinted)
      else if create(alt).None? then Ok(alt)
      else Err(create(alt).value);
    if created.Err? then Err(created.error)
    else
      match FirstFailure(IcmpOptionCalls(c, platform), failure)
      case Some(e) => Err(e)
      case None =>
        match FromSockType(created.value)
        case Some(t) => Ok(IcmpSocket(t, c.family))
        case None => assert false; Err("invalid ICMP socket type")
  }

  /** `AsyncIcmpSocket::icmp_kind` */
  function KindOf(s: IcmpSocket): (k: IcmpKind)
    ensures (k == KindV4) <==> s.family == IPV4
  {
    if s.family == IPV4 then KindV4 else KindV6
  }

  /** A socket opened from `IcmpConfig::new(kind)` reports that kind back. */
  lemma OpenedKeepsKind(kind: IcmpKind, platform: Platform,
                        create: SockType -> Option<string>, failure: SocketCall -> Option<string>)
    requires OpenIcmpSocket(NewIcmpConfig(kind), platform, create, failure).Ok?
    ensures KindOf(OpenIcmpSocket(NewIcmpConfig(kind), platform, create, failure).value) == kind
  {
  }
}
