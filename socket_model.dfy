/** What the probe sockets are asked to do, as seen from the calls they make on
    the operating system's socket. */
module SocketModel {
  import opened Wrappers
  import opened NetTypes

  /** `crate::socket::SocketFamily` */
  datatype SocketFamily = IPV4 | IPV6

  /** The `socket2::Type` values the core can meet. */
  datatype SockType = DGRAM | RAW | STREAM | SEQPACKET

  datatype SocketAddr = SocketAddr(ip: IpAddr, port: U16)

  /** The operating systems whose builds differ in which options are applied. */
  datatype Platform = Linux | FreeBsd | MacOs | Windows

  /** The `std::io::ErrorKind` values the probes tell apart; `OtherKind` is any other. */
  datatype IoErrorKind =
    | TimedOut
    | ConnectionRefused
    | ConnectionReset
    | NotConnected
    | NetworkUnreachable
    | HostUnreachable
    | AddrNotAvailable
    | WouldBlock
    | OtherKind

  /** One call on the operating system's socket, with its argument. */
  datatype SocketCall =
    | SetNonblocking
    | SetReuseAddress(on: bool)
    | SetBroadcast(on: bool)
    | SetTtl(ttl: U32)
    | SetUnicastHops(hops: U32)
    | SetReadTimeout(ms: nat)
    | SetWriteTimeout(ms: nat)
    | SetFib(fib: U32)
    | BindDevice(name: string)
    | Bind(addr: SocketAddr)

  /** The calls of `calls` in order; the first that fails ends the sequence
      (the `?` after each call). `None` when every call succeeds. */
  function FirstFailure(calls: seq<SocketCall>, failure: SocketCall -> Option<string>): (r: Option<string>)
    ensures r.None? <==> forall i :: 0 <= i < |calls| ==> failure(calls[i]).None?
    ensures r.Some? ==> exists i :: 0 <= i < |calls| && failure(calls[i]) == r
                                    && forall j :: 0 <= j < i ==> failure(calls[j]).None?
  {
    if calls == [] then None
    else if failure(calls[0]).Some? then failure(calls[0])
    else
      var rest := FirstFailure(calls[1..], failure);
      assert forall i :: 0 <= i < |calls| - 1 ==> calls[1..][i] == calls[i + 1];
      if rest.Some? then
        var k :| 0 <= k < |calls| - 1 && failure(calls[1..][k]) == rest
                 && forall j :: 0 <= j < k ==> failure(calls[1..][j]).None?;
        assert failure(calls[k + 1]) == rest;
        assert forall j :: 0 <= j < k + 1 ==> failure(calls[j]).None? by {
          forall j | 0 <= j < k + 1 ensures failure(calls[j]).None? {
            if j > 0 { assert calls[j] == calls[1..][j - 1]; }
          }
        }
        rest
      else rest
  }
}
