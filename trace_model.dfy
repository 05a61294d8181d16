/** Traceroute settings, hop records, and the per-hop probing both traceroutes
    share: up to `tries_per_hop` probes per TTL, the reply with the smallest RTT
    represents the hop, an error ends the hop's probes, and a reply from the
    destination ends the trace. */
module TraceModel {
  import opened Wrappers
  import opened NetTypes
  import opened Packet

  datatype TraceProtocol = TraceIcmp | TraceUdp

  datatype TracerouteSetting = TracerouteSetting(
    ip: IpAddr,
    hostname: Option<string>,
    maxHops: Byte,
    triesPerHop: Byte,
    timeoutMs: U64,
    protocol: TraceProtocol)

  datatype TraceHop = TraceHop(hop: Byte, ip: Option<IpAddr>, rttMs: Option<U64>, reached: bool, note: Option<string>)

  /** `TraceHop::timeout` */
  function TimeoutHop(hop: Byte): (h: TraceHop)
    ensures h.hop == hop && h.ip.None? && h.rttMs.None? && !h.reached && h.note == Some("timeout")
  {
    TraceHop(hop, None, None, false, Some("timeout"))
  }

  /** `sanitize_setting`: a zero hop count means 30, a zero try count means 1;
      everything else is kept. */
  function Sanitize(s: TracerouteSetting): (r: TracerouteSetting)
    ensures r.maxHops >= 1 && r.triesPerHop >= 1
    ensures s.maxHops != 0 ==> r.maxHops == s.maxHops
    ensures s.maxHops == 0 ==> r.maxHops == 30
    ensures s.triesPerHop != 0 ==> r.triesPerHop == s.triesPerHop
    ensures s.triesPerHop == 0 ==> r.triesPerHop == 1
    ensures r.ip == s.ip && r.hostname == s.hostname && r.timeoutMs == s.timeoutMs && r.protocol == s.protocol
  {
    s.(maxHops := if s.maxHops == 0 then 30 else s.maxHops,
       triesPerHop := if s.triesPerHop == 0 then 1 else s.triesPerHop)
  }

  lemma SanitizeIdempotent(s: TracerouteSetting)
    ensures Sanitize(Sanitize(s)) == Sanitize(s)
  {
  }

  /** What happened to one probe: the send failed, nothing arrived in time, the
      receive failed, or a buffer arrived from `from` after `rttMs`. */
  datatype TryOutcome =
    | SendFailed(err: string)
    | NoReply
    | RecvFailed(err: string)
    | Reply(from: IpAddr, rttMs: U64, view: BufferView)

  /** Whether a reply shows the destination was reached: an Echo Reply for the
      ICMP trace, a Destination Unreachable of the destination's family (judged
      with the UDP socket's local address `local`) for the UDP trace. */
  predicate Reaches(proto: TraceProtocol, dst: IpAddr, local: IpAddr, v: BufferView)
  {
    match proto
    case TraceIcmp => IsEchoReply(dst, v)
    case TraceUdp => IsPortUnreachFor(dst, local, v)
  }

  predicate IsReaching(proto: TraceProtocol, dst: IpAddr, local: IpAddr, t: TryOutcome)
  {
    t.Reply? && Reaches(proto, dst, local, t.view)
  }

  function InitialHop(ttl: Byte): TraceHop
  {
    TraceHop(ttl, None, None, false, None)
  }

  /** A reply is adopted as the hop's representative when the hop has no RTT yet
      or the reply's RTT is strictly smaller; adopting clears the note. */
  function Adopt(best: TraceHop, from: IpAddr, rttMs: U64): TraceHop
  {
    if best.rttMs.None? || rttMs < best.rttMs.value then best.(rttMs := Some(rttMs), ip := Some(from), note := None)
    else best
  }

  /** The hop being built, whether its probes have ended early (an error, or
      the destination reached), and how many probes were sent. */
  datatype HopState = HopState(best: TraceHop, stopped: bool, tried: nat)

  function Step(proto: TraceProtocol, dst: IpAddr, local: IpAddr, s: HopState, t: TryOutcome): HopState
  {
    if s.stopped then s
    else
      match t
      case SendFailed(e) => HopState(s.best.(note := Some("send error: " + e)), true, s.tried + 1)
      case NoReply => s.(tried := s.tried + 1)
      case RecvFailed(e) => HopState(s.best.(note := Some("recv error: " + e)), true, s.tried + 1)
      case Reply(from, rtt, v) =>
        var b := Adopt(s.best, from, rtt);
        if Reaches(proto, dst, local, v) then HopState(b.(reached := true), true, s.tried + 1)
        else HopState(b, false, s.tried + 1)
  }

  /** The state of the hop at TTL `ttl` after the probes `tries`. */
  function Walk(proto: TraceProtocol, dst: IpAddr, local: IpAddr, ttl: Byte, tries: seq<TryOutcome>): (r: HopState)
    ensures r.tried <= |tries|
    ensures !r.stopped ==> r.tried == |tries|
    ensures r.best.hop == ttl
  {
    if tries == [] then HopState(InitialHop(ttl), false, 0)
    else Step(proto, dst, local, Walk(proto, dst, local, ttl, tries[..|tries| - 1]), tries[|tries| - 1])
  }

  /** A hop with neither an address nor a note gets the note "timeout". */
  function FinishHop(best: TraceHop): TraceHop
  {
    if best.ip.None? && best.note.None? then best.(note := Some("timeout")) else best
  }

  /** The hop record reported for TTL `ttl`. */
  function HopReport(proto: TraceProtocol, dst: IpAddr, local: IpAddr, ttl: Byte, tries: seq<TryOutcome>): TraceHop
  {
    var s := Walk(proto, dst, local, ttl, tries);
    if s.best.reached then s.best else FinishHop(s.best)
  }

  /** Once the probes of a hop have ended, later outcomes change nothing. */
  lemma {:induction false} WalkStopped(proto: TraceProtocol, dst: IpAddr, local: IpAddr, ttl: Byte, tries: seq<TryOutcome>, k: nat)
    requires k <= |tries| && Walk(proto, dst, local, ttl, tries[..k]).stopped
    ensures Walk(proto, dst, local, ttl, tries) == Walk(proto, dst, local, ttl, tries[..k])
    decreases |tries|
  {
    if k < |tries| {
      var p := tries[..|tries| - 1];
      assert p[..k] == tries[..k];
      WalkStopped(proto, dst, local, ttl, p, k);
    } else {
      assert tries[..k] == tries;
    }
  }

  /** The index of the earliest reply with the smallest RTT among `ts`. */
  function BestIndex(ts: seq<TryOutcome>): (r: Option<nat>)
    ensures r.Some? ==> r.value < |ts| && ts[r.value].Reply?
  {
    if ts == [] then None
    else
      var b := BestIndex(ts[..|ts| - 1]);
      var t := ts[|ts| - 1];
      if t.Reply? && (b.None? || t.rttMs < ts[b.value].rttMs) then Some(|ts| - 1) else b
  }

  /** `BestIndex` is a reply whose RTT no reply undercuts and every earlier
      reply exceeds; it is absent exactly when there is no reply. */
  lemma {:induction false} BestIndexIsEarliestMinimum(ts: seq<TryOutcome>)
    ensures BestIndex(ts).None? <==> forall j :: 0 <= j < |ts| ==> !ts[j].Reply?
    ensures BestIndex(ts).Some? ==> var b := BestIndex(ts).value;
              (forall j :: 0 <= j < |ts| && ts[j].Reply? ==> ts[j].rttMs >= ts[b].rttMs)
              && (forall j :: 0 <= j < b && ts[j].Reply? ==> ts[j].rttMs > ts[b].rttMs)
  {
    if ts != [] {
      var p := ts[..|ts| - 1];
      BestIndexIsEarliestMinimum(p);
      assert forall j :: 0 <= j < |p| ==> p[j] == ts[j];
    }
  }

  /** `h` carries the RTT and sender of the earliest fastest reply among `ts`,
      and neither when `ts` holds no reply. */
  predicate CarriesBest(ts: seq<TryOutcome>, h: TraceHop)
  {
    var b := BestIndex(ts);
    (b.None? ==> h.rttMs.None? && h.ip.None?)
    && (b.Some? ==> h.rttMs == Some(ts[b.value].rttMs) && h.ip == Some(ts[b.value].from))
  }

  /** The hop's RTT and address are those of the earliest fastest reply among
      the probes sent, and are absent together when no reply came. */
  lemma {:induction false} BestIsEarliestMinimum(proto: TraceProtocol, dst: IpAddr, local: IpAddr, ttl: Byte, tries: seq<TryOutcome>)
    ensures var s := Walk(proto, dst, local, ttl, tries);
            CarriesBest(tries[..s.tried], s.best)
  {
    if tries != [] {
      var p := tries[..|tries| - 1];
      BestIsEarliestMinimum(proto, dst, local, ttl, p);
      var sp := Walk(proto, dst, local, ttl, p);
      assert p[..sp.tried] == tries[..sp.tried];
      var t := tries[|tries| - 1];
      var s := Walk(proto, dst, local, ttl, tries);
      if !sp.stopped {
        assert tries[..s.tried] == p + [t];
        assert p[..sp.tried] == p;
        StepKeepsOrAdopts(proto, dst, local, sp, t);
        CarriesBestStep(p, t, sp.best, s.best);
      }
    }
  }

  lemma CarriesBestStep(p: seq<TryOutcome>, t: TryOutcome, before: TraceHop, after: TraceHop)
    requires CarriesBest(p, before)
    requires t.Reply? ==> (after.rttMs, after.ip) == (Adopt(before, t.from, t.rttMs).rttMs, Adopt(before, t.from, t.rttMs).ip)
    requires !t.Reply? ==> (after.rttMs, after.ip) == (before.rttMs, before.ip)
    ensures CarriesBest(p + [t], after)
  {
    assert (p + [t])[..|p|] == p;
    assert forall i :: 0 <= i < |p| ==> (p + [t])[i] == p[i];
  }

  /** A probe that is not an error changes the hop's RTT and address only by
      adopting a reply; an error leaves them as they were. */
  lemma StepKeepsOrAdopts(proto: TraceProtocol, dst: IpAddr, local: IpAddr, s: HopState, t: TryOutcome)
    requires !s.stopped
    ensures var n := Step(proto, dst, local, s, t);
            if t.Reply? then (n.best.rttMs, n.best.ip) == (Adopt(s.best, t.from, t.rttMs).rttMs, Adopt(s.best, t.from, t.rttMs).ip)
            else (n.best.rttMs, n.best.ip) == (s.best.rttMs, s.best.ip)
  {
  }

  /** A probe after which the hop goes on to its next probe. */
  predicate Continues(proto: TraceProtocol, dst: IpAddr, local: IpAddr, t: TryOutcome)
  {
    t.NoReply? || (t.Reply? && !Reaches(proto, dst, local, t.view))
  }

  function ErrorNote(t: TryOutcome): Option<string>
  {
    match t
    case SendFailed(e) => Some("send error: " + e)
    case RecvFailed(e) => Some("recv error: " + e)
    case _ => None
  }

  /** Every probe but the last one sent lets the hop go on; the hop stopped
      early exactly when the last one sent did not, it is reached exactly when
      that last one was a reply, and its note is the error that stopped it. */
  lemma {:induction false} HowHopEnds(proto: TraceProtocol, dst: IpAddr, local: IpAddr, ttl: Byte, tries: seq<TryOutcome>)
    ensures var s := Walk(proto, dst, local, ttl, tries);
            (forall i :: 0 <= i < s.tried - 1 ==> Continues(proto, dst, local, tries[i]))
            && (s.stopped <==> s.tried > 0 && !Continues(proto, dst, local, tries[s.tried - 1]))
            && (s.best.reached <==> s.stopped && tries[s.tried - 1].Reply?)
            && s.best.note == (if s.stopped then ErrorNote(tries[s.tried - 1]) else None)
  {
    if tries != [] {
      var p := tries[..|tries| - 1];
      HowHopEnds(proto, dst, local, ttl, p);
      var sp := Walk(proto, dst, local, ttl, p);
      assert forall i :: 0 <= i < |p| ==> p[i] == tries[i];
    }
  }

  /** A reached hop carries the address and RTT of a reply and no note. */
  lemma ReachedHopShape(proto: TraceProtocol, dst: IpAddr, local: IpAddr, ttl: Byte, tries: seq<TryOutcome>)
    ensures var h := HopReport(proto, dst, local, ttl, tries);
            h.hop == ttl && (h.reached ==> h.ip.Some? && h.rttMs.Some? && h.note.None?)
  {
    var s := Walk(proto, dst, local, ttl, tries);
    HowHopEnds(proto, dst, local, ttl, tries);
    BestIsEarliestMinimum(proto, dst, local, ttl, tries);
    if s.best.reached {
      var ts := tries[..s.tried];
      assert ts[s.tried - 1].Reply?;
      BestIndexIsEarliestMinimum(ts);
    }
  }

  /** An unreached hop is reported with the note "timeout" exactly when every
      probe sent went unanswered. */
  lemma TimeoutNoteIffAllUnanswered(proto: TraceProtocol, dst: IpAddr, local: IpAddr, ttl: Byte, tries: seq<TryOutcome>)
    ensures var s := Walk(proto, dst, local, ttl, tries);
            var h := HopReport(proto, dst, local, ttl, tries);
            h.note == Some("timeout") <==> forall i :: 0 <= i < s.tried ==> tries[i].NoReply?
  {
    var s := Walk(proto, dst, local, ttl, tries);
    var ts := tries[..s.tried];
    HowHopEnds(proto, dst, local, ttl, tries);
    BestIsEarliestMinimum(proto, dst, local, ttl, tries);
    BestIndexIsEarliestMinimum(ts);
    assert forall i :: 0 <= i < s.tried ==> ts[i] == tries[i];
    if s.stopped {
      var e := ErrorNote(tries[s.tried - 1]);
      assert e.Some? ==> e.value[0] != 't';
    }
  }

  /** What opening the socket of one TTL gave: an error (which aborts the
      trace), or a socket with local address `local` and the outcome of each
      probe sent through it. */
  datatype HopOracle = NoSocket(err: string) | Socket(local: IpAddr, tries: seq<TryOutcome>)

  /** The hops reported and the trace's result. */
  datatype TraceRun = TraceRun(hops: seq<TraceHop>, result: Result<bool>)

  /** The trace from TTL `ttl` on: a failed socket ends it with that error, a
      reached hop ends it with `Ok(true)`, and running out of TTLs with
      `Ok(false)`. */
  function TraceFrom(proto: TraceProtocol, dst: IpAddr, maxHops: Byte, oracle: seq<HopOracle>, ttl: nat): TraceRun
    requires 1 <= ttl <= maxHops + 1 && |oracle| == maxHops
    decreases maxHops + 1 - ttl
  {
    if ttl > maxHops then TraceRun([], Ok(false))
    else
      match oracle[ttl - 1]
      case NoSocket(e) => TraceRun([], Err(e))
      case Socket(local, tries) =>
        var h := HopReport(proto, dst, local, ttl as Byte, tries);
        if h.reached then TraceRun([h], Ok(true))
        else
          var rest := TraceFrom(proto, dst, maxHops, oracle, ttl + 1);
          TraceRun([h] + rest.hops, rest.result)
  }

  /** The hops are numbered consecutively from `ttl` and never pass `maxHops`;
      `Ok(false)` means every TTL was reported; an error is the error of the
      socket of the TTL after the last reported hop. */
  lemma {:induction false} TraceNumbering(proto: TraceProtocol, dst: IpAddr, maxHops: Byte, oracle: seq<HopOracle>, ttl: nat)
    requires 1 <= ttl <= maxHops + 1 && |oracle| == maxHops
    ensures var r := TraceFrom(proto, dst, maxHops, oracle, ttl);
            (forall i :: 0 <= i < |r.hops| ==> r.hops[i].hop == ttl + i)
            && ttl + |r.hops| <= maxHops + 1
            && (r.result == Ok(false) ==> ttl + |r.hops| == maxHops + 1)
            && (r.result.Err? ==> ttl + |r.hops| <= maxHops && oracle[ttl - 1 + |r.hops|] == NoSocket(r.result.error))
    decreases maxHops + 1 - ttl
  {
    if ttl <= maxHops && oracle[ttl - 1].Socket? {
      var h := HopReport(proto, dst, oracle[ttl - 1].local, ttl as Byte, oracle[ttl - 1].tries);
      if !h.reached {
        TraceNumbering(proto, dst, maxHops, oracle, ttl + 1);
      }
    }
  }

  /** Only the last hop reported can be reached, and it is exactly when the
      result is `Ok(true)`. */
  lemma {:induction false} TraceReach(proto: TraceProtocol, dst: IpAddr, maxHops: Byte, oracle: seq<HopOracle>, ttl: nat)
    requires 1 <= ttl <= maxHops + 1 && |oracle| == maxHops
    ensures var r := TraceFrom(proto, dst, maxHops, oracle, ttl);
            (forall i :: 0 <= i < |r.hops| - 1 ==> !r.hops[i].reached)
            && (r.result == Ok(true) <==> |r.hops| > 0 && r.hops[|r.hops| - 1].reached)
    decreases maxHops + 1 - ttl
  {
    if ttl <= maxHops && oracle[ttl - 1].Socket? {
      var h := HopReport(proto, dst, oracle[ttl - 1].local, ttl as Byte, oracle[ttl - 1].tries);
      if !h.reached {
        TraceReach(proto, dst, maxHops, oracle, ttl + 1);
        var rest := TraceFrom(proto, dst, maxHops, oracle, ttl + 1);
        assert TraceFrom(proto, dst, maxHops, oracle, ttl).hops == [h] + rest.hops;
      }
    }
  }

  /** The sequence number of the echo request for try `t` at TTL `ttl`,
      `(ttl << 8) | t` in 16 bits, which `ShiftOrIsSum` shows is this sum. */
  function EchoSeq(ttl: Byte, t: Byte): U16
  {
    ttl * 256 + t
  }

  /** For 8-bit operands widened to 16 bits, shifting one left by 8 and or-ing
      in the other is the same as `x * 256 + y`. */
  lemma ShiftOrIsSum(x: bv16, y: bv16)
    requires x <= 255 && y <= 255
    ensures (x << 8) | y == x * 256 + y
  {
  }

  /** Different (TTL, try) pairs never share an echo sequence number. */
  lemma EchoSeqDistinct(ttl1: Byte, t1: Byte, ttl2: Byte, t2: Byte)
    requires (ttl1, t1) != (ttl2, t2)
    ensures EchoSeq(ttl1, t1) != EchoSeq(ttl2, t2)
  {
    PairCodeDistinct(ttl1, t1, ttl2, t2);
  }

  lemma PairCodeDistinct(a: Byte, b: Byte, c: Byte, d: Byte)
    requires (a, b) != (c, d)
    ensures a * 256 + b != c * 256 + d
  {
  }

  const BASE_TARGET_UDP_PORT: U16 := 33435

  function WrappingAdd16(a: U16, b: U16): (r: U16)
    ensures r == (a + b) % 65536
  {
    if a + b < 65536 then a + b else a + b - 65536
  }

  /** The destination port of try `t` at TTL `ttl`:
      `33435.wrapping_add(ttl).wrapping_add(t)`. */
  function UdpTracePort(ttl: Byte, t: Byte): U16
  {
    WrappingAdd16(WrappingAdd16(BASE_TARGET_UDP_PORT, ttl), t)
  }

  /** With 8-bit TTL and try numbers the port never wraps; it identifies only
      the sum, so try `t + 1` at one TTL reuses the port of try `t` at the next. */
  lemma UdpTracePortValue(ttl: Byte, t: Byte)
    ensures UdpTracePort(ttl, t) == 33435 + ttl + t
    ensures ttl < 255 && t < 255 ==> UdpTracePort(ttl + 1, t) == UdpTracePort(ttl, t + 1)
  {
  }

  /** The key that identifies try `t` at TTL `ttl` on the wire. */
  function ProbeKey(proto: TraceProtocol, ttl: Byte, t: Byte): U16
  {
    match proto
    case TraceIcmp => EchoSeq(ttl, t)
    case TraceUdp => UdpTracePort(ttl, t)
  }

  /** The keys of tries 0 to `n - 1` at TTL `ttl`, in order. */
  function ProbeKeys(proto: TraceProtocol, ttl: Byte, n: nat): (r: seq<U16>)
    requires n <= 256
    ensures |r| == n
  {
    if n == 0 then [] else ProbeKeys(proto, ttl, n - 1) + [ProbeKey(proto, ttl, n - 1)]
  }

  lemma {:induction false} ProbeKeysAt(proto: TraceProtocol, ttl: Byte, n: nat, i: nat)
    requires i < n <= 256
    ensures ProbeKeys(proto, ttl, n)[i] == ProbeKey(proto, ttl, i)
  {
    if i < n - 1 {
      ProbeKeysAt(proto, ttl, n - 1, i);
    }
  }

  /** The probes of one TTL: send, wait, and fold the outcome into the hop
      until the tries run out, an error ends them or the destination answers.
      `keys` are the sequence numbers or ports of the probes sent. */
  method ProbeHop(proto: TraceProtocol, dst: IpAddr, local: IpAddr, ttl: Byte, tries: seq<TryOutcome>)
    returns (best: TraceHop, keys: seq<U16>)
    requires |tries| <= 255
    ensures best == HopReport(proto, dst, local, ttl, tries)
    ensures keys == ProbeKeys(proto, ttl, Walk(proto, dst, local, ttl, tries).tried)
  {
    best := InitialHop(ttl);
    keys := [];
    var stopped := false;
    var t := 0;
    while t < |tries| && !stopped
      invariant 0 <= t <= |tries|
      invariant Walk(proto, dst, local, ttl, tries[..t]) == HopState(best, stopped, t)
      invariant keys == ProbeKeys(proto, ttl, t)
    {
      keys := keys + [ProbeKey(proto, ttl, t)];
      assert keys == ProbeKeys(proto, ttl, t + 1);
      ghost var before := HopState(best, stopped, t);
      ghost var next := Step(proto, dst, local, before, tries[t]);
      assert tries[..t + 1][..t] == tries[..t];
      assert Walk(proto, dst, local, ttl, tries[..t + 1]) == Step(proto, dst, local, before, tries[t]);
      match tries[t] {
        case SendFailed(e) =>
          best := best.(note := Some("send error: " + e));
          stopped := true;
        case NoReply =>
        case RecvFailed(e) =>
          best := best.(note := Some("recv error: " + e));
          stopped := true;
        case Reply(from, rtt, v) =>
          if best.rttMs.None? || rtt < best.rttMs.value {
            best := best.(rttMs := Some(rtt), ip := Some(from), note := None);
          }
          var isDest := match proto
            case TraceIcmp => IsEchoReply(dst, v)
            case TraceUdp => IsPortUnreachFor(dst, local, v);
          if isDest {
            best := best.(reached := true);
            stopped := true;
          }
      }
      assert HopState(best, stopped, t + 1) == next;
      t := t + 1;
    }
    if stopped {
      WalkStopped(proto, dst, local, ttl, tries, t);
    } else {
      assert tries[..t] == tries;
    }
    assert Walk(proto, dst, local, ttl, tries) == HopState(best, stopped, t);
    if !best.reached && best.ip.None? && best.note.None? {
      best := best.(note := Some("timeout"));
    }
  }

  lemma TraceFromUnfold(proto: TraceProtocol, dst: IpAddr, maxHops: Byte, oracle: seq<HopOracle>, ttl: nat)
    requires 1 <= ttl <= maxHops && |oracle| == maxHops
    ensures oracle[ttl - 1].NoSocket? ==> TraceFrom(proto, dst, maxHops, oracle, ttl) == TraceRun([], Err(oracle[ttl - 1].err))
    ensures oracle[ttl - 1].Socket? ==>
      var h := HopReport(proto, dst, oracle[ttl - 1].local, ttl as Byte, oracle[ttl - 1].tries);
      var rest := TraceFrom(proto, dst, maxHops, oracle, ttl + 1);
      TraceFrom(proto, dst, maxHops, oracle, ttl) == if h.reached then TraceRun([h], Ok(true)) else TraceRun([h] + rest.hops, rest.result)
  {
  }

  /** One reported hop moves the trace from `ttl` to `ttl + 1`, or ends it. */
  lemma TraceAppendHop(proto: TraceProtocol, dst: IpAddr, maxHops: Byte, oracle: seq<HopOracle>, ttl: nat, events: seq<TraceHop>, best: TraceHop)
    requires 1 <= ttl <= maxHops && |oracle| == maxHops && oracle[ttl - 1].Socket?
    requires best == HopReport(proto, dst, oracle[ttl - 1].local, ttl as Byte, oracle[ttl - 1].tries)
    requires TraceFrom(proto, dst, maxHops, oracle, 1)
      == TraceRun(events + TraceFrom(proto, dst, maxHops, oracle, ttl).hops, TraceFrom(proto, dst, maxHops, oracle, ttl).result)
    ensures best.reached ==> TraceFrom(proto, dst, maxHops, oracle, 1) == TraceRun(events + [best], Ok(true))
    ensures !best.reached ==>
              (TraceFrom(proto, dst, maxHops, oracle, 1)
                 == TraceRun((events + [best]) + TraceFrom(proto, dst, maxHops, oracle, ttl + 1).hops,
                             TraceFrom(proto, dst, maxHops, oracle, ttl + 1).result))
  {
    TraceFromUnfold(proto, dst, maxHops, oracle, ttl);
    var rest := TraceFrom(proto, dst, maxHops, oracle, ttl + 1);
    assert events + ([best] + rest.hops) == (events + [best]) + rest.hops;
  }

  lemma TraceFromEnd(proto: TraceProtocol, dst: IpAddr, maxHops: Byte, oracle: seq<HopOracle>)
    requires |oracle| == maxHops
    ensures TraceFrom(proto, dst, maxHops, oracle, maxHops + 1) == TraceRun([], Ok(false))
  {
  }
}
