/** `quic_ping`: `count` QUIC handshakes; the handshake time is the RTT. */
module PingQuic {
  import opened Wrappers
  import opened Strings
  import opened NetTypes
  import opened ProbeModel
  import opened RttStats
  import opened PingModel
  import opened PingRun

  /** How one handshake ends: completed after `rttMs`, or failed with the error
      text `msg`. */
  datatype QuicAttempt =
    | Handshaken(rttMs: U64)
    | ConnectFailed(msg: string)

  /** The port: the configured one, 443 by default. */
  function QuicPingPort(setting: PingSetting): (p: U16)
    ensures setting.port.Some? ==> p == setting.port.value
    ensures setting.port.None? ==> p == 443
  {
    setting.port.UnwrapOr(443)
  }

  /** The TLS server name: the configured host name, else "netpulsar.local". */
  function QuicServerName(setting: PingSetting): (name: string)
    ensures setting.hostname.Some? ==> name == setting.hostname.value
    ensures setting.hostname.None? ==> name == "netpulsar.local"
  {
    setting.hostname.UnwrapOr("netpulsar.local")
  }

  /** An error text that reads as a timeout once lower-cased. */
  predicate IsTimeoutText(msg: string)
  {
    Contains(AsciiLower(msg), "elapsed") || Contains(AsciiLower(msg), "timeout")
  }

  function QuicSample(setting: PingSetting, seqNo: U32, a: QuicAttempt): PingSample
  {
    var (rtt, status) :=
      match a
      case Handshaken(r) => (Some(r), NewStatus())
      case ConnectFailed(m) =>
        if IsTimeoutText(m) then (None, WithTimeoutMessage(TimeoutText(setting.timeoutMs)))
        else (None, WithErrorMessage("connect error: " + m));
    PingSample(seqNo, setting.ip, setting.hostname, Some(QuicPingPort(setting)), rtt, status, Quic)
  }

  /** The samples of the first `|attempts|` probes. */
  function QuicSamples(setting: PingSetting, attempts: seq<QuicAttempt>): (s: seq<PingSample>)
    requires |attempts| < 0x1_0000_0000
    ensures |s| == |attempts|
  {
    if attempts == [] then []
    else QuicSamples(setting, attempts[..|attempts| - 1]) + [QuicSample(setting, |attempts|, attempts[|attempts| - 1])]
  }

  /** Sample `i` is the one made from handshake `i`, numbered from 1. */
  lemma {:induction false} QuicSamplesAt(setting: PingSetting, attempts: seq<QuicAttempt>, i: nat)
    requires i < |attempts| < 0x1_0000_0000
    ensures QuicSamples(setting, attempts)[i] == QuicSample(setting, i + 1, attempts[i])
    decreases |attempts|
  {
    if i < |attempts| - 1 {
      QuicSamplesAt(setting, attempts[..|attempts| - 1], i);
    }
  }

  lemma QuicSamplesStep(setting: PingSetting, attempts: seq<QuicAttempt>, n: nat)
    requires n < |attempts| < 0x1_0000_0000
    ensures QuicSamples(setting, attempts[..n + 1]) == QuicSamples(setting, attempts[..n]) + [QuicSample(setting, n + 1, attempts[n])]
  {
    assert attempts[..n + 1][..n] == attempts[..n];
  }

  /** A probe is a reply exactly when the handshake completed; a failure whose
      text mentions a timeout is a Timeout, any other an Error that keeps the text. */
  lemma QuicSampleReplied(setting: PingSetting, seqNo: U32, a: QuicAttempt)
    ensures var x := QuicSample(setting, seqNo, a);
            (Replied(x) <==> a.Handshaken?) && (x.status.IsOk() <==> x.rttMs.Some?)
            && (x.status.IsTimeout() <==> a.ConnectFailed? && IsTimeoutText(a.msg))
            && (a.ConnectFailed? && !IsTimeoutText(a.msg) ==> x.status.message == "connect error: " + a.msg)
  {
  }

  /** The position of the first probe whose endpoint could not be made. */
  function FirstEndpointFailure(endpoints: seq<Option<string>>): (r: Option<nat>)
    ensures r.Some? ==> r.value < |endpoints| && endpoints[r.value].Some?
                        && forall i :: 0 <= i < r.value ==> endpoints[i].None?
    ensures r.None? ==> forall i :: 0 <= i < |endpoints| ==> endpoints[i].None?
  {
    if endpoints == [] then None
    else if endpoints[0].Some? then Some(0)
    else
      match FirstEndpointFailure(endpoints[1..])
      case Some(k) => Some(k + 1)
      case None => None
  }

  lemma FirstEndpointFailureIs(endpoints: seq<Option<string>>, k: nat)
    requires k < |endpoints| && endpoints[k].Some?
    requires forall i :: 0 <= i < k ==> endpoints[i].None?
    ensures FirstEndpointFailure(endpoints) == Some(k)
  {
    var r := FirstEndpointFailure(endpoints);
    assert r.Some?;
    assert !(r.value < k) && !(r.value > k);
  }

  /** One handshake, once the endpoint exists. */
  method QuicProbe(setting: PingSetting, port: U16, seqNo: U32, a: QuicAttempt) returns (sample: PingSample)
    requires port == QuicPingPort(setting)
    ensures sample == QuicSample(setting, seqNo, a)
  {
    var status := NewStatus();
    var rtt: Option<U64> := None;
    match a {
      case Handshaken(r) =>
        rtt := Some(r);
      case ConnectFailed(m) =>
        var lower := AsciiLower(m);
        if Contains(lower, "elapsed") || Contains(lower, "timeout") {
          status := WithTimeoutMessage(TimeoutText(setting.timeoutMs));
        } else {
          status := WithErrorMessage("connect error: " + m);
        }
    }
    sample := PingSample(seqNo, setting.ip, setting.hostname, Some(port), rtt, status, Quic);
  }

  /** The probe loop: it stops at the first probe whose endpoint could not be
      made, having reported every probe before it. `endpoints[i]` is the error
      of making the endpoint of probe `i + 1`, if any; `attempts[i]` how that
      probe's handshake ends. */
  method QuicProbes(setting: PingSetting, endpoints: seq<Option<string>>, attempts: seq<QuicAttempt>)
    returns (failed: Option<string>, samples: seq<PingSample>, rttsOk: seq<U64>, events: seq<PingEvent>)
    requires |endpoints| == |attempts| == setting.count
    ensures match FirstEndpointFailure(endpoints)
            case Some(k) => failed == endpoints[k] && samples == QuicSamples(setting, attempts[..k])
            case None => failed == None && samples == QuicSamples(setting, attempts)
    ensures rttsOk == OkRtts(samples) && events == RunEvents(samples, setting.count, setting.sendRateMs)
  {
    var port := QuicPingPort(setting);
    samples := [];
    rttsOk := [];
    var received := 0;
    events := [];
    var seqNo: nat := 1;
    while seqNo <= setting.count && endpoints[seqNo - 1].None?
      invariant 1 <= seqNo <= setting.count + 1
      invariant forall i :: 0 <= i < seqNo - 1 ==> endpoints[i].None?
      invariant samples == QuicSamples(setting, attempts[..seqNo - 1])
      invariant rttsOk == OkRtts(samples) && received == ReplyCount(samples)
      invariant events == RunEvents(samples, setting.count, setting.sendRateMs)
    {
      var sample := QuicProbe(setting, port, seqNo, attempts[seqNo - 1]);
      QuicSamplesStep(setting, attempts, seqNo - 1);
      samples, rttsOk, received, events := RecordSample(samples, rttsOk, received, events, sample, setting.count, setting.sendRateMs);
      seqNo := seqNo + 1;
    }
    if seqNo <= setting.count {
      FirstEndpointFailureIs(endpoints, seqNo - 1);
      failed := endpoints[seqNo - 1];
    } else {
      assert attempts[..seqNo - 1] == attempts;
      failed := None;
    }
  }

  /** A failure to make the endpoint ends the run with that error and without
      `ping:done`; the probes before it have been reported. Every handshake is
      made with the TLS server name `serverName`. */
  method QuicPing(setting: PingSetting, endpoints: seq<Option<string>>, attempts: seq<QuicAttempt>)
    returns (res: Result<PingStat>, events: seq<PingEvent>, serverName: string)
    requires |endpoints| == |attempts| == setting.count
    ensures serverName == QuicServerName(setting)
    ensures match FirstEndpointFailure(endpoints)
            case Some(k) =>
              res == Err(endpoints[k].value)
              && events == RunEvents(QuicSamples(setting, attempts[..k]), setting.count, setting.sendRateMs)
            case None =>
              res.Ok? && res.value.samples == QuicSamples(setting, attempts)
              && res.value == DriverStat(setting.ip, setting.hostname, Some(QuicPingPort(setting)), Quic, res.value.samples)
              && events == RunEvents(res.value.samples, setting.count, setting.sendRateMs) + [Finished(res.value)]
  {
    serverName := setting.hostname.UnwrapOr("netpulsar.local");
    var failed, samples, rttsOk;
    failed, samples, rttsOk, events := QuicProbes(setting, endpoints, attempts);
    if failed.Some? {
      return Err(failed.value), events, serverName;
    }
    var stat;
    stat, events := FinishRun(setting.ip, setting.hostname, Some(QuicPingPort(setting)), Quic, samples, rttsOk, events);
    res := Ok(stat);
  }
}
