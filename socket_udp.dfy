/** `UdpConfig` and `AsyncUdpSocket::from_config`. */
module SocketUdp {
  import opened Wrappers
  import opened NetTypes
  import opened SocketModel

  datatype UdpSocketType = UdpDgram | UdpRaw
  {
    predicate IsDgram() { this == UdpDgram }
    predicate IsRaw() { this == UdpRaw }
  }

  /** `UdpSocketType::to_sock_type`: one-to-one onto DGRAM and RAW. */
  function UdpToSockType(x: UdpSocketType): (r: SockType)
    ensures r == DGRAM <==> x.IsDgram()
    ensures r == RAW <==> x.IsRaw()
  {
    match x
    case UdpDgram => DGRAM
    case UdpRaw => RAW
  }

  datatype UdpConfig = UdpConfig(
    family: SocketFamily,
    socketType: UdpSocketType,
    bindAddr: Option<SocketAddr>,
    reuseAddr: Option<bool>,
    broadcast: Option<bool>,
    ttl: Option<U32>,
    hoplimit: Option<U32>,
    readTimeoutMs: Option<nat>,
    writeTimeoutMs: Option<nat>,
    bindDevice: Option<string>)
  {
    function WithBindAddr(a: SocketAddr): UdpConfig { this.(bindAddr := Some(a)) }
    function WithReuseAddr(on: bool): UdpConfig { this.(reuseAddr := Some(on)) }
    function WithBroadcast(on: bool): UdpConfig { this.(broadcast := Some(on)) }
    function WithTtl(t: U32): UdpConfig { this.(ttl := Some(t)) }
    function WithHoplimit(h: U32): UdpConfig { this.(hoplimit := Some(h)) }
    function WithReadTimeout(ms: nat): UdpConfig { this.(readTimeoutMs := Some(ms)) }
    function WithWriteTimeout(ms: nat): UdpConfig { this.(writeTimeoutMs := Some(ms)) }
    function WithBindDevice(name: string): UdpConfig { this.(bindDevice := Some(name)) }
  }

  /** Exactly one of `is_dgram` and `is_raw` holds. */
  lemma UdpDgramOrRaw(t: UdpSocketType)
    ensures t.IsDgram() <==> !t.IsRaw()
  {
  }

  /** Each builder sets its own field to the given value and leaves every other
      field as it was. */
  lemma UdpBuildersSetOwnField(c: UdpConfig, addr: SocketAddr, on: bool, n: U32, ms: nat, name: string)
    ensures c.WithBindAddr(addr).bindAddr == Some(addr) && c.WithBindAddr(addr).(bindAddr := c.bindAddr) == c
    ensures c.WithReuseAddr(on).reuseAddr == Some(on) && c.WithReuseAddr(on).(reuseAddr := c.reuseAddr) == c
    ensures c.WithBroadcast(on).broadcast == Some(on) && c.WithBroadcast(on).(broadcast := c.broadcast) == c
    ensures c.WithTtl(n).ttl == Some(n) && c.WithTtl(n).(ttl := c.ttl) == c
    ensures c.WithHoplimit(n).hoplimit == Some(n) && c.WithHoplimit(n).(hoplimit := c.hoplimit) == c
    ensures c.WithReadTimeout(ms).readTimeoutMs == Some(ms) && c.WithReadTimeout(ms).(readTimeoutMs := c.readTimeoutMs) == c
    ensures c.WithWriteTimeout(ms).writeTimeoutMs == Some(ms) && c.WithWriteTimeout(ms).(writeTimeoutMs := c.writeTimeoutMs) == c
    ensures c.WithBindDevice(name).bindDevice == Some(name) && c.WithBindDevice(name).(bindDevice := c.bindDevice) == c
  {
  }

  /** `UdpConfig::default` (and `UdpConfig::new`): IPv4, DGRAM, no option set. */
  function DefaultUdpConfig(): (c: UdpConfig)
    ensures c.family == IPV4 && c.socketType == UdpDgram
    ensures c.bindAddr.None? && c.reuseAddr.None? && c.broadcast.None? && c.ttl.None?
    ensures c.hoplimit.None? && c.readTimeoutMs.None? && c.writeTimeoutMs.None? && c.bindDevice.None?
  {
    UdpConfig(IPV4, UdpDgram, None, None, None, None, None, None, None, None)
  }

  /** The calls `from_config` makes once the socket exists, in order. */
  function UdpOptionCalls(c: UdpConfig, platform: Platform): seq<SocketCall>
  {
    [SetNonblocking]
    + (if c.reuseAddr.Some? then [SetReuseAddress(c.reuseAddr.value)] else [])
    + (if c.broadcast.Some? then [SetBroadcast(c.broadcast.value)] else [])
    + (if c.ttl.Some? then [SetTtl(c.ttl.value)] else [])
    + (if c.hoplimit.Some? then [SetUnicastHops(c.hoplimit.value)] else [])
    + (if c.readTimeoutMs.Some? then [SetReadTimeout(c.readTimeoutMs.value)] else [])
    + (if c.writeTimeoutMs.Some? then [SetWriteTimeout(c.writeTimeoutMs.value)] else [])
    + (if platform == Linux && c.bindDevice.Some? then [BindDevice(c.bindDevice.value)] else [])
    + (if c.bindAddr.Some? then [Bind(c.bindAddr.value)] else [])
  }

  /** Exactly the configured hop limits are applied. */
  lemma UdpOptionCallsFollowConfig(c: UdpConfig, platform: Platform, t: U32)
    ensures SetTtl(t) in UdpOptionCalls(c, platform) <==> c.ttl == Some(t)
    ensures SetUnicastHops(t) in UdpOptionCalls(c, platform) <==> c.hoplimit == Some(t)
  {
  }

  /** Exactly the configured address reuse and broadcast flags are applied. */
  lemma UdpFlagCallsFollowConfig(c: UdpConfig, platform: Platform, on: bool)
    ensures SetReuseAddress(on) in UdpOptionCalls(c, platform) <==> c.reuseAddr == Some(on)
    ensures SetBroadcast(on) in UdpOptionCalls(c, platform) <==> c.broadcast == Some(on)
  {
  }

  /** Exactly the configured timeouts are applied. */
  lemma UdpTimeoutCallsFollowConfig(c: UdpConfig, platform: Platform, ms: nat)
    ensures SetReadTimeout(ms) in UdpOptionCalls(c, platform) <==> c.readTimeoutMs == Some(ms)
    ensures SetWriteTimeout(ms) in UdpOptionCalls(c, platform) <==> c.writeTimeoutMs == Some(ms)
  {
  }

  /** Exactly the configured bind is applied, and it comes last; the device is
      bound only on Linux. */
  lemma UdpBindComesLast(c: UdpConfig, platform: Platform, a: SocketAddr, n: string)
    ensures Bind(a) in UdpOptionCalls(c, platform) <==> c.bindAddr == Some(a)
    ensures BindDevice(n) in UdpOptionCalls(c, platform) <==> platform == Linux && c.bindDevice == Some(n)
    ensures c.bindAddr.Some? ==> UdpOptionCalls(c, platform)[|UdpOptionCalls(c, platform)| - 1] == Bind(c.bindAddr.value)
  {
  }

  /** `AsyncUdpSocket::from_config`: the socket of the configured family and type
      is created (no fallback), then the option calls run, then the socket is
      handed to tokio; the first failure is the error. `create`, `failure` and
      `fromStd` (the outcome of `UdpSocket::from_std`) stand for the operating
      system. */
  function OpenUdpSocket(c: UdpConfig, platform: Platform, create: SockType -> Option<string>,
                         failure: SocketCall -> Option<string>, fromStd: Option<string>): (r: Result<()>)
    ensures r.Ok? <==> create(UdpToSockType(c.socketType)).None?
                       && (forall i :: 0 <= i < |UdpOptionCalls(c, platform)| ==> failure(UdpOptionCalls(c, platform)[i]).None?)
                       && fromStd.None?
    ensures create(UdpToSockType(c.socketType)).Some? ==> r == Err(create(UdpToSockType(c.socketType)).value)
    ensures (create(UdpToSockType(c.socketType)).None? && FirstFailure(UdpOptionCalls(c, platform), failure).Some?)
            ==> r == Err(FirstFailure(UdpOptionCalls(c, platform), failure).value)
    ensures (create(UdpToSockType(c.socketType)).None? && FirstFailure(UdpOptionCalls(c, platform), failure).None?
             && fromStd.Some?) ==> r == Err(fromStd.value)
  {
    var made := create(UdpToSockType(c.socketType));
    if made.Some? then Err(made.value)
    else
      match FirstFailure(UdpOptionCalls(c, platform), failure)
      case Some(e) => Err(e)
      case None => if fromStd.Some? then Err(fromStd.value) else Ok(())
  }
}
