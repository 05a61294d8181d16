/** What every ping driver shares: the events a run emits and the statistics it
    returns, as functions of the samples gathered so far. */
module PingRun {
  import opened Wrappers
  import opened Strings
  import opened NetTypes
  import opened RttStats
  import opened ProbeModel
  import opened PingModel

  /** `ping:progress` (sample, transmitted, received), the pause between two
      probes, and `ping:done` with the final statistics. */
  datatype PingEvent =
    | Progress(sample: PingSample, transmitted: nat, received: nat)
    | Pause(ms: U64)
    | Finished(stat: PingStat)

  /** The events of a run of `count` probes after its first `|samples|` probes:
      each probe is reported with its position and the replies counted so far,
      and followed by a pause unless it is the last probe of the run. */
  function RunEvents(samples: seq<PingSample>, count: nat, rateMs: U64): seq<PingEvent>
  {
    if samples == [] then []
    else
      var k := |samples|;
      RunEvents(samples[..k - 1], count, rateMs)
      + [Progress(samples[k - 1], k, ReplyCount(samples))]
      + (if k != count then [Pause(rateMs)] else [])
  }

  /** The status message of a probe that got no answer in time. */
  function TimeoutText(timeoutMs: U64): string
  {
    "timeout (>" + DecimalString(timeoutMs) + "ms)"
  }

  /** The statistics a driver returns: every sample counted as transmitted, the
      replied ones counted as received, summarised over their RTTs. */
  function DriverStat(ip: IpAddr, hostname: Option<string>, port: Option<U16>, protocol: PingProtocol,
                      samples: seq<PingSample>): PingStat
  {
    var s := Summarize(OkRtts(samples));
    PingStat(ip, hostname, port, protocol, samples, |samples|, ReplyCount(samples), s.min, s.avg, s.max)
  }

  /** One more sample extends each of the running quantities by that sample alone. */
  lemma AppendSample(samples: seq<PingSample>, x: PingSample, count: nat, rateMs: U64)
    ensures ReplyCount(samples + [x]) == ReplyCount(samples) + (if Replied(x) then 1 else 0)
    ensures OkRtts(samples + [x]) == OkRtts(samples) + (if Replied(x) then [x.rttMs.value] else [])
    ensures RunEvents(samples + [x], count, rateMs)
            == RunEvents(samples, count, rateMs) + [Progress(x, |samples| + 1, ReplyCount(samples + [x]))]
               + (if |samples| + 1 != count then [Pause(rateMs)] else [])
  {
    assert (samples + [x])[..|samples|] == samples;
  }

  /** The end of every probe of a driver: a reply's RTT joins the RTTs and the
      received count, the probe is reported, and unless it is the last one the
      driver pauses. */
  method RecordSample(samples: seq<PingSample>, rttsOk: seq<U64>, received: nat, events: seq<PingEvent>,
                      sample: PingSample, count: nat, rateMs: U64)
    returns (samples': seq<PingSample>, rttsOk': seq<U64>, received': nat, events': seq<PingEvent>)
    requires rttsOk == OkRtts(samples) && received == ReplyCount(samples) && events == RunEvents(samples, count, rateMs)
    ensures samples' == samples + [sample]
    ensures rttsOk' == OkRtts(samples') && received' == ReplyCount(samples') && events' == RunEvents(samples', count, rateMs)
  {
    AppendSample(samples, sample, count, rateMs);
    rttsOk' := rttsOk;
    received' := received;
    if Replied(sample) {
      rttsOk' := rttsOk + [sample.rttMs.value];
      received' := received + 1;
    }
    events' := events + [Progress(sample, |samples| + 1, received')];
    samples' := samples + [sample];
    if |samples'| != count {
      events' := events' + [Pause(rateMs)];
    }
  }

  /** The end of a driver's run: the statistics over its samples and the
      `ping:done` event that carries them. */
  method FinishRun(ip: IpAddr, hostname: Option<string>, port: Option<U16>, protocol: PingProtocol,
                   samples: seq<PingSample>, rttsOk: seq<U64>, events: seq<PingEvent>)
    returns (stat: PingStat, events': seq<PingEvent>)
    requires rttsOk == OkRtts(samples)
    ensures stat == DriverStat(ip, hostname, port, protocol, samples)
    ensures events' == events + [Finished(stat)]
  {
    var summary := SummarizeRtts(rttsOk);
    stat := PingStat(ip, hostname, port, protocol, samples, |samples|, ReplyCount(samples),
                     summary.min, summary.avg, summary.max);
    events' := events + [Finished(stat)];
  }

  function PauseCount(events: seq<PingEvent>): nat
  {
    if events == [] then 0 else PauseCount(events[..|events| - 1]) + (if events[|events| - 1].Pause? then 1 else 0)
  }

  lemma PauseCountAppend(a: seq<PingEvent>, b: seq<PingEvent>)
    ensures PauseCount(a + b) == PauseCount(a) + PauseCount(b)
    decreases |b|
  {
    if b != [] {
      assert (a + b)[..|a + b| - 1] == a + b[..|b| - 1];
      PauseCountAppend(a, b[..|b| - 1]);
    } else {
      assert a + b == a;
    }
  }

  /** A completed run of `count` probes sleeps `count - 1` times: between two
      probes and never after the last one. */
  lemma {:induction false} PausesBetweenProbes(samples: seq<PingSample>, count: nat, rateMs: U64)
    requires |samples| <= count
    ensures PauseCount(RunEvents(samples, count, rateMs)) == if |samples| == count && count > 0 then count - 1 else |samples|
    ensures |samples| == count > 0 ==> RunEvents(samples, count, rateMs)[|RunEvents(samples, count, rateMs)| - 1].Progress?
  {
    if samples != [] {
      var k := |samples|;
      var p := samples[..k - 1];
      PausesBetweenProbes(p, count, rateMs);
      var e := Progress(samples[k - 1], k, ReplyCount(samples));
      var tail := [e] + (if k != count then [Pause(rateMs)] else []);
      assert RunEvents(samples, count, rateMs) == RunEvents(p, count, rateMs) + tail;
      PauseCountAppend(RunEvents(p, count, rateMs), tail);
      assert [e][..0] == [];
      assert PauseCount([e]) == 0;
      assert |p| == k - 1 && PauseCount(RunEvents(p, count, rateMs)) == k - 1;
      if k != count {
        assert tail == [e, Pause(rateMs)];
        assert tail[..1] == [e];
        assert PauseCount(tail) == 1;
      } else {
        assert tail == [e];
        assert PauseCount(tail) == 0;
      }
    }
  }

  lemma ReplyCountPrefix(s: seq<PingSample>, n: nat)
    requires n <= |s|
    ensures ReplyCount(s[..n]) <= n
  {
    CountsBounded(s[..n]);
  }

  /** Every progress event reports the probe at its position, the number of the
      probes sent so far as `transmitted`, and the replies among them as
      `received`, which never exceeds `transmitted`. */
  lemma {:induction false} ProgressCounters(samples: seq<PingSample>, count: nat, rateMs: U64)
    ensures forall e :: e in RunEvents(samples, count, rateMs) && e.Progress? ==>
              1 <= e.transmitted <= |samples| && e.sample == samples[e.transmitted - 1]
              && e.received == ReplyCount(samples[..e.transmitted]) && e.received <= e.transmitted
  {
    if samples != [] {
      var k := |samples|;
      var p := samples[..k - 1];
      ProgressCounters(p, count, rateMs);
      forall e | e in RunEvents(samples, count, rateMs) && e.Progress?
        ensures 1 <= e.transmitted <= k && e.sample == samples[e.transmitted - 1]
                && e.received == ReplyCount(samples[..e.transmitted]) && e.received <= e.transmitted
      {
        if e in RunEvents(p, count, rateMs) {
          assert p[..e.transmitted] == samples[..e.transmitted];
        } else {
          assert samples[..k] == samples;
        }
        ReplyCountPrefix(samples, e.transmitted);
      }
    }
  }

  /** For consistent samples a driver's statistics are those of
      `PingStat::from_samples`. */
  lemma DriverStatIsFromSamples(ip: IpAddr, hostname: Option<string>, port: Option<U16>, protocol: PingProtocol,
                                samples: seq<PingSample>)
    requires Consistent(samples)
    ensures DriverStat(ip, hostname, port, protocol, samples) == FromSamples(ip, hostname, port, protocol, samples)
  {
    ConsistentCountsAgree(samples);
  }
}
