/** `http_ping`: `count` GET requests; the time to the response head is the RTT. */
module PingHttp {
  import opened Wrappers
  import opened Strings
  import opened NetTypes
  import opened ProbeModel
  import opened RttStats
  import opened PingModel
  import opened PingRun

  /** What happened to one request: no response before the timeout, the client
      reported an error, or a response arrived after `rttMs`. */
  datatype HttpAttempt =
    | NoResponse
    | ClientFailed(err: string)
    | Responded(rttMs: U64)

  /** The host text: the configured host name, else the address's text `ipText`. */
  function HttpHost(setting: PingSetting, ipText: string): string
  {
    setting.hostname.UnwrapOr(ipText)
  }

  /** The port: the configured one, else 443 for a host given as an https URL and 80 otherwise. */
  function HttpPort(setting: PingSetting, host: string): (p: U16)
    ensures setting.port.Some? ==> p == setting.port.value
    ensures setting.port.None? ==> (p == 443 <==> StartsWith(host, "https://"))
    ensures setting.port.None? ==> (p == 80 <==> !StartsWith(host, "https://"))
  {
    if setting.port.Some? then setting.port.value
    else if StartsWith(host, "https://") then 443 else 80
  }

  /** The request URL as the source builds it: a host that is already a URL is
      used as is; otherwise `{scheme}://{host}:{port}/`, https exactly on port 443.
      An IPv6 address text is put into the authority without brackets. */
  function HttpUrlAsWritten(host: string, port: U16): string
  {
    if StartsWith(host, "http://") || StartsWith(host, "https://") then host
    else (if port == 443 then "https://" else "http://") + host + ":" + DecimalString(port) + "/"
  }

  /** An authority `host:port` whose host is either free of colons or an IPv6
      literal in brackets, as section 3.2.2 of RFC 3986 requires. */
  predicate AuthorityHostWellFormed(host: string)
  {
    ':' !in host || (|host| >= 2 && host[0] == '[' && host[|host| - 1] == ']')
  }

  /** For an IPv6 destination without a host name the URL built as written puts
      the bare address in the authority: `http://::1:80/`. */
  lemma Ipv6UrlUnbracketed()
    ensures HttpUrlAsWritten("::1", 80) == "http://::1:80/"
    ensures !AuthorityHostWellFormed("::1")
  {
    assert DecimalString(80) == "80" by {
      assert DecimalString(8) == "8";
    }
  }

  /** The host as it goes into the authority: an address text with colons is bracketed. */
  function AuthorityHost(host: string): (h: string)
    ensures AuthorityHostWellFormed(h)
  {
    if ':' in host && !(|host| >= 2 && host[0] == '[' && host[|host| - 1] == ']') then "[" + host + "]" else host
  }

  /** The request URL with an IPv6 address text bracketed; host names, IPv4
      texts and ready URLs give the same URL as the source. */
  function HttpUrl(host: string, port: U16): (url: string)
    ensures ':' !in host ==> url == HttpUrlAsWritten(host, port)
    ensures StartsWith(host, "http://") || StartsWith(host, "https://") ==> url == host
  {
    if StartsWith(host, "http://") || StartsWith(host, "https://") then host
    else (if port == 443 then "https://" else "http://") + AuthorityHost(host) + ":" + DecimalString(port) + "/"
  }

  /** The URL always names a scheme: a ready URL keeps its own, a built one is
      https exactly on port 443; a built URL's host is well-formed. */
  lemma HttpUrlScheme(host: string, port: U16)
    requires !StartsWith(host, "http://") && !StartsWith(host, "https://")
    ensures StartsWith(HttpUrl(host, port), if port == 443 then "https://" else "http://")
    ensures AuthorityHostWellFormed(AuthorityHost(host))
  {
    var prefix := if port == 443 then "https://" else "http://";
    var rest := AuthorityHost(host) + ":" + DecimalString(port) + "/";
    assert HttpUrl(host, port) == prefix + rest;
    StartsWithConcat(prefix, rest);
  }

  function HttpSample(setting: PingSetting, port: U16, seqNo: U32, a: HttpAttempt): PingSample
  {
    var (rtt, status) :=
      match a
      case NoResponse => (None, WithTimeoutMessage(TimeoutText(setting.timeoutMs)))
      case ClientFailed(e) => (None, WithErrorMessage("http error: " + e))
      case Responded(r) => (Some(r), NewStatus());
    PingSample(seqNo, setting.ip, setting.hostname, Some(port), rtt, status, Http)
  }

  /** A probe is a reply exactly when a response arrived, whatever its status code. */
  lemma HttpSampleReplied(setting: PingSetting, port: U16, seqNo: U32, a: HttpAttempt)
    ensures var x := HttpSample(setting, port, seqNo, a);
            (Replied(x) <==> a.Responded?) && (x.status.IsOk() <==> x.rttMs.Some?)
            && (x.status.IsTimeout() <==> a.NoResponse?)
  {
  }

  /** One request. */
  method HttpProbe(setting: PingSetting, port: U16, seqNo: U32, a: HttpAttempt) returns (sample: PingSample)
    ensures sample == HttpSample(setting, port, seqNo, a)
  {
    var status := NewStatus();
    var rtt: Option<U64> := None;
    match a {
      case NoResponse =>
        status := WithTimeoutMessage(TimeoutText(setting.timeoutMs));
      case ClientFailed(e) =>
        status := WithErrorMessage("http error: " + e);
      case Responded(r) =>
        rtt := Some(r);
    }
    sample := PingSample(seqNo, setting.ip, setting.hostname, Some(port), rtt, status, Http);
  }

  /** The `count` requests, reported one by one. */
  method HttpProbes(setting: PingSetting, port: U16, attempts: seq<HttpAttempt>)
    returns (samples: seq<PingSample>, rttsOk: seq<U64>, events: seq<PingEvent>)
    requires |attempts| == setting.count
    ensures |samples| == setting.count
    ensures forall i :: 0 <= i < setting.count ==> samples[i] == HttpSample(setting, port, i + 1, attempts[i])
    ensures rttsOk == OkRtts(samples) && events == RunEvents(samples, setting.count, setting.sendRateMs)
  {
    var received := 0;
    samples := [];
    rttsOk := [];
    events := [];
    var seqNo: nat := 1;
    while seqNo <= setting.count
      invariant 1 <= seqNo <= setting.count + 1
      invariant |samples| == seqNo - 1
      invariant forall i :: 0 <= i < |samples| ==> samples[i] == HttpSample(setting, port, i + 1, attempts[i])
      invariant rttsOk == OkRtts(samples) && received == ReplyCount(samples)
      invariant events == RunEvents(samples, setting.count, setting.sendRateMs)
    {
      var sample := HttpProbe(setting, port, seqNo, attempts[seqNo - 1]);
      samples, rttsOk, received, events := RecordSample(samples, rttsOk, received, events, sample, setting.count, setting.sendRateMs);
      seqNo := seqNo + 1;
    }
  }

  /** The whole run. `client` is the outcome of building the HTTP client; `ipText` is the
      destination address's text. `url` is what each request asks for. */
  method HttpPing(setting: PingSetting, ipText: string, client: Result<()>, attempts: seq<HttpAttempt>)
    returns (res: Result<PingStat>, events: seq<PingEvent>, url: string)
    requires |attempts| == setting.count
    ensures var host := HttpHost(setting, ipText);
            url == HttpUrl(host, HttpPort(setting, host))
    ensures client.Err? ==> res == Err(client.error) && events == []
    ensures client.Ok? ==> res.Ok? && |res.value.samples| == setting.count
    ensures client.Ok? ==> forall i :: 0 <= i < setting.count ==>
              res.value.samples[i] == HttpSample(setting, HttpPort(setting, HttpHost(setting, ipText)), i + 1, attempts[i])
    ensures client.Ok? ==> res.value == DriverStat(setting.ip, setting.hostname,
              Some(HttpPort(setting, HttpHost(setting, ipText))), Http, res.value.samples)
    ensures client.Ok? ==> events == RunEvents(res.value.samples, setting.count, setting.sendRateMs) + [Finished(res.value)]
  {
    var host := setting.hostname.UnwrapOr(ipText);
    var port: U16 := if setting.port.Some? then setting.port.value else if StartsWith(host, "https://") then 443 else 80;
    url := HttpUrl(host, port);
    if client.Err? {
      return Err(client.error), [], url;
    }
    var samples, rttsOk;
    samples, rttsOk, events := HttpProbes(setting, port, attempts);
    var stat;
    stat, events := FinishRun(setting.ip, setting.hostname, Some(port), Http, samples, rttsOk, events);
    res := Ok(stat);
  }
}
