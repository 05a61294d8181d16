/** The public address of the machine: a generic endpoint (which may answer
    over either family) and an IPv4-only endpoint are asked, and the two
    answers are sorted into an IPv4 and an IPv6 slot. The HTTP exchanges are
    an oracle: `FetchOutcome` says how each one ended. */
module Internet {
  import opened Wrappers
  import opened Strings
  import opened NetTypes

  const IPSTRUCT_URL: string := "https://api.ipstruct.com/ip"
  const IPSTRUCT_V4_URL: string := "https://ipv4.ipstruct.com/ip"
  const IP_VERSION_6: string := "v6"

  /** `IpInfo` */
  datatype IpInfo = IpInfo(ipVersion: string, ipAddrDec: string, ipAddr: string, hostName: string,
                           network: string, asn: string, asName: string, countryCode: string,
                           countryName: string)

  /** `IpInfoDual` */
  datatype IpInfoDual = IpInfoDual(ipv4: Option<IpInfo>, ipv6: Option<IpInfo>)

  /** How one GET ended: the request failed, or a response came with a
      status (its code and the text it displays as) and a body that is an
      `IpInfo` or is not. */
  datatype FetchOutcome =
    | SendFailed
    | Responded(code: nat, statusText: string, body: Option<IpInfo>)

  predicate IsSuccess(code: nat) { 200 <= code <= 299 }

  /** `fetch_public_ip`: the answer, or the error of the step that failed. */
  function FetchPublicIp(url: string, o: FetchOutcome): (r: Result<Option<IpInfo>>)
    ensures r.Ok? <==> o.Responded? && IsSuccess(o.code) && o.body.Some?
    ensures r.Ok? ==> r.value == o.body
    ensures o.SendFailed? ==> r == Err("GET " + url)
    ensures o.Responded? && !IsSuccess(o.code) ==> r == Err(url + " -> HTTP " + o.statusText)
    ensures o.Responded? && IsSuccess(o.code) && o.body.None? ==> r == Err("parse json IpInfo")
  {
    match o
    case SendFailed => Err("GET " + url)
    case Responded(code, text, body) =>
      if !IsSuccess(code) then Err(url + " -> HTTP " + text)
      else if body.None? then Err("parse json IpInfo")
      else Ok(body)
  }

  /** The answer a fetch contributes: failures count as none. */
  function Answer(url: string, o: FetchOutcome): (a: Option<IpInfo>)
    ensures a.Some? <==> o.Responded? && IsSuccess(o.code) && o.body.Some?
    ensures a.Some? ==> a == o.body
  {
    var r := FetchPublicIp(url, o);
    if r.Ok? then r.value else None
  }

  /** `is_ipv6` */
  predicate IsIpv6(info: IpInfo)
  {
    info.ipVersion == IP_VERSION_6 || Contains(info.ipAddr, ":")
  }

  /** An answer is taken for IPv6 exactly when it says "v6" or its address
      has a ':'. */
  lemma IsIpv6Colon(info: IpInfo)
    ensures IsIpv6(info) <==> info.ipVersion == IP_VERSION_6 || ':' in info.ipAddr
  {
    ContainsChar(info.ipAddr, ':');
  }

  /** A dotted-quad answer that does not claim "v6" is an IPv4 answer. */
  lemma DottedQuadIsNotIpv6(info: IpInfo, a: Byte, b: Byte, c: Byte, d: Byte)
    requires info.ipAddr == Ipv4Text(a, b, c, d) && info.ipVersion != IP_VERSION_6
    ensures !IsIpv6(info)
  {
    IsIpv6Colon(info);
    var parts := [DecimalString(a), DecimalString(b), DecimalString(c), DecimalString(d)];
    if ':' in info.ipAddr {
      var k :| 0 <= k < |info.ipAddr| && info.ipAddr[k] == ':';
      JoinChar(parts, '.', k);
    }
  }

  /** The choice of `get_public_ip` between the answers, failures counting as
      no answer. */
  function Select(any: Option<IpInfo>, v4opt: Option<IpInfo>): (r: IpInfoDual)
    ensures any.Some? && IsIpv6(any.value) ==> r == IpInfoDual(v4opt, any)
    ensures any.Some? && !IsIpv6(any.value) ==> r == IpInfoDual(any, None)
    ensures any.None? ==> r == IpInfoDual(v4opt, None)
  {
    match any
    case Some(info) => if IsIpv6(info) then IpInfoDual(v4opt, Some(info)) else IpInfoDual(Some(info), None)
    case None => IpInfoDual(v4opt, None)
  }

  /** The IPv6 slot only ever holds an answer taken for IPv6, from the
      generic endpoint; the IPv4 slot holds the generic answer or the
      IPv4-only endpoint's. */
  lemma SelectSlots(any: Option<IpInfo>, v4opt: Option<IpInfo>)
    ensures Select(any, v4opt).ipv6.Some? ==> any.Some? && Select(any, v4opt).ipv6 == any && IsIpv6(any.value)
    ensures Select(any, v4opt).ipv4 == any || Select(any, v4opt).ipv4 == v4opt
    ensures Select(any, v4opt).ipv4 == any && any.Some? ==> !IsIpv6(any.value) || any == v4opt
  {
  }

  /** `get_public_ip`: an error only when the client cannot be built. */
  function GetPublicIp(client: Result<()>, anyFetch: FetchOutcome, v4Fetch: FetchOutcome): (r: Result<IpInfoDual>)
    ensures client.Err? ==> r == Err("build http client")
    ensures client.Ok? ==> r == Ok(Select(Answer(IPSTRUCT_URL, anyFetch), Answer(IPSTRUCT_V4_URL, v4Fetch)))
    ensures client.Ok? && r.value.ipv6.Some? ==> anyFetch.Responded? && r.value.ipv6 == anyFetch.body
    ensures client.Ok? && anyFetch.SendFailed? ==> r.value.ipv6.None?
  {
    if client.Err? then Err("build http client")
    else
      var anyRes := FetchPublicIp(IPSTRUCT_URL, anyFetch);
      var v4Res := FetchPublicIp(IPSTRUCT_V4_URL, v4Fetch);
      var any := if anyRes.Ok? then anyRes.value else None;
      var v4opt := if v4Res.Ok? then v4Res.value else None;
      Ok(Select(any, v4opt))
  }
}
