/** `traceroute`: normalise the setting, announce it, run the trace of the
    chosen protocol, and announce the outcome when the trace did not fail. */
module Traceroute {
  import opened Wrappers
  import opened NetTypes
  import opened SocketModel
  import opened TraceModel
  import opened TraceIcmp
  import opened TraceUdp

  /** The events of one traceroute: `traceroute:start`, one
      `traceroute:progress` per hop, and `traceroute:done`. */
  datatype TraceEvent =
    | Start(setting: TracerouteSetting)
    | Progress(hop: TraceHop)
    | Done(reached: bool, hops: Byte, ip: IpAddr, hostname: Option<string>, protocol: TraceProtocol)

  function ProgressEvents(hops: seq<TraceHop>): (r: seq<TraceEvent>)
    ensures |r| == |hops| && forall i :: 0 <= i < |hops| ==> r[i] == Progress(hops[i])
  {
    seq(|hops|, i requires 0 <= i < |hops| => Progress(hops[i]))
  }

  /** The trace the sanitized setting `s` asks for. */
  function RunFor(s: TracerouteSetting, platform: Platform, icmpSocket: Result<()>, oracle: seq<HopOracle>): TraceRun
    requires |oracle| == s.maxHops
  {
    match s.protocol
    case TraceIcmp => TraceFrom(TraceIcmp, s.ip, s.maxHops, oracle, 1)
    case TraceUdp => UdpTraceRun(s, platform, icmpSocket, oracle)
  }

  /** The result of a traceroute whose trace gave `run`. */
  function OutcomeResult(run: TraceRun): Result<()>
  {
    if run.result.Ok? then Ok(()) else Err(run.result.error)
  }

  /** The events of a traceroute of the sanitized setting `s` whose trace gave `run`. */
  function OutcomeEvents(s: TracerouteSetting, run: TraceRun): seq<TraceEvent>
  {
    var tail := if run.result.Ok? then [Done(run.result.value, s.maxHops, s.ip, s.hostname, s.protocol)] else [];
    [Start(s)] + ProgressEvents(run.hops) + tail
  }

  /** `icmpSocket` is the outcome of opening the UDP trace's listening socket
      and `oracle` the per-TTL sockets, both for the sanitized setting. */
  method RunTraceroute(setting: TracerouteSetting, src: IpAddr, platform: Platform, icmpSocket: Result<()>, oracle: seq<HopOracle>)
    returns (result: Result<()>, events: seq<TraceEvent>)
    requires |oracle| == Sanitize(setting).maxHops
    requires forall i :: 0 <= i < |oracle| && oracle[i].Socket? ==> |oracle[i].tries| == Sanitize(setting).triesPerHop
    ensures var s := Sanitize(setting);
            result == OutcomeResult(RunFor(s, platform, icmpSocket, oracle))
            && events == OutcomeEvents(s, RunFor(s, platform, icmpSocket, oracle))
  {
    var s := Sanitize(setting);
    events := [Start(s)];
    var reached: Result<bool>;
    var hops: seq<TraceHop>;
    match s.protocol {
      case TraceIcmp =>
        var configs;
        reached, hops, configs := IcmpTraceroute(s, src, oracle);
      case TraceUdp =>
        var configs;
        reached, hops, configs := UdpTraceroute(s, platform, icmpSocket, oracle);
    }
    events := events + ProgressEvents(hops);
    if reached.Err? {
      result := Err(reached.error);
      assert events + [] == events;
      return;
    }
    events := events + [Done(reached.value, s.maxHops, s.ip, s.hostname, s.protocol)];
    result := Ok(());
  }

  /** The trace of a sanitized setting reports at most `max_hops` hops, numbered
      from 1, and gives `Ok(true)` exactly when the last of them was reached. */
  lemma RunShape(s: TracerouteSetting, platform: Platform, icmpSocket: Result<()>, oracle: seq<HopOracle>)
    requires |oracle| == s.maxHops
    ensures var run := RunFor(s, platform, icmpSocket, oracle);
            |run.hops| <= s.maxHops
            && (forall i :: 0 <= i < |run.hops| ==> run.hops[i].hop == i + 1)
            && (run.result == Ok(true) <==> |run.hops| > 0 && run.hops[|run.hops| - 1].reached)
  {
    match s.protocol {
      case TraceIcmp =>
        TraceNumbering(TraceIcmp, s.ip, s.maxHops, oracle, 1);
        TraceReach(TraceIcmp, s.ip, s.maxHops, oracle, 1);
      case TraceUdp =>
        if platform != Windows && icmpSocket.Ok? {
          TraceNumbering(TraceUdp, s.ip, s.maxHops, oracle, 1);
          TraceReach(TraceUdp, s.ip, s.maxHops, oracle, 1);
        }
    }
  }

  /** A traceroute starts with the sanitized setting and then reports each hop
      in turn; it ends with `done` exactly when the trace did not fail, and
      `done` says "reached" exactly when the last hop reported was reached. */
  lemma OutcomeShape(setting: TracerouteSetting, platform: Platform, icmpSocket: Result<()>, oracle: seq<HopOracle>)
    requires |oracle| == Sanitize(setting).maxHops
    ensures var s := Sanitize(setting);
            var run := RunFor(s, platform, icmpSocket, oracle);
            var events := OutcomeEvents(s, run);
            var n := |run.hops|;
            events[0] == Start(s)
            && |events| == n + (if run.result.Ok? then 2 else 1)
            && events[1..n + 1] == ProgressEvents(run.hops)
            && (run.result.Ok? ==> events[n + 1] == Done(n > 0 && run.hops[n - 1].reached, s.maxHops, s.ip, s.hostname, s.protocol))
  {
    var s := Sanitize(setting);
    var run := RunFor(s, platform, icmpSocket, oracle);
    RunShape(s, platform, icmpSocket, oracle);
    var p := ProgressEvents(run.hops);
    var events := OutcomeEvents(s, run);
    if run.result.Ok? {
      assert events == [Start(s)] + p + [Done(run.result.value, s.maxHops, s.ip, s.hostname, s.protocol)];
    } else {
      assert events == [Start(s)] + p;
    }
    assert events[1..|p| + 1] == p;
  }
}
