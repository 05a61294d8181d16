/** `host_scan`: up to `max(count, 1)` echo requests per target until the first
    reply, one socket per address family in use, a pending-reply entry per
    destination, and the alive/unreachable report. */
module HostScan {
  import opened Wrappers
  import opened NetTypes
  import opened Packet
  import opened SocketModel
  import opened SocketIcmp
  import opened ScanModel
  import opened PortScan
  import opened PingRun

  const HOSTS_CONCURRENCY: nat := 256

  /** The echo payload: the configured one, "np:hs" by default. */
  function EchoPayload(setting: HostScanSetting): (p: string)
    ensures setting.payload.Some? ==> p == setting.payload.value
    ensures setting.payload.None? ==> p == "np:hs"
  {
    setting.payload.UnwrapOr("np:hs")
  }

  /** How many probes run at once: the configured number, 256 by default. */
  function Concurrency(setting: HostScanSetting): (n: nat)
    ensures setting.concurrency.Some? ==> n == setting.concurrency.value
    ensures setting.concurrency.None? ==> n == 256
  {
    setting.concurrency.UnwrapOr(HOSTS_CONCURRENCY)
  }

  /** The TTL or hop limit of the scan sockets: never below 1. */
  function ScanHopLimit(setting: HostScanSetting): (h: U32)
    ensures h >= 1 && h >= setting.hopLimit
    ensures setting.hopLimit >= 1 ==> h == setting.hopLimit
  {
    if setting.hopLimit >= 1 then setting.hopLimit else 1
  }

  /** The sends per host: `count`, at least one. */
  function SendsPerHost(setting: HostScanSetting): (n: nat)
    ensures n >= 1 && (setting.count >= 1 ==> n == setting.count)
  {
    if setting.count >= 1 then setting.count else 1
  }

  function V4SocketConfig(setting: HostScanSetting): IcmpConfig
  {
    NewIcmpConfig(KindV4).WithTtl(ScanHopLimit(setting))
  }

  function V6SocketConfig(setting: HostScanSetting): IcmpConfig
  {
    NewIcmpConfig(KindV6).WithHoplimit(ScanHopLimit(setting))
  }

  /** The IPv4 socket has its TTL set and the IPv6 socket its hop limit. */
  lemma SocketConfigsOfFamily(setting: HostScanSetting)
    ensures V4SocketConfig(setting).family == IPV4 && V4SocketConfig(setting).ttl == Some(ScanHopLimit(setting))
    ensures V4SocketConfig(setting).hoplimit.None?
    ensures V6SocketConfig(setting).family == IPV6 && V6SocketConfig(setting).hoplimit == Some(ScanHopLimit(setting))
    ensures V6SocketConfig(setting).ttl.None?
  {
  }

  predicate HasV4(targets: seq<IpAddr>)
  {
    exists ip :: ip in targets && ip.V4?
  }

  predicate HasV6(targets: seq<IpAddr>)
  {
    exists ip :: ip in targets && ip.V6?
  }

  /** The pending-reply entries: the sequence number of the echo request each
      destination waits on. */
  type PendingMap = map<IpAddr, nat>

  /** The receiver: a buffer from `from` that parses as an echo reply of the
      socket's family takes the waiting entry of `from`, if there is one, and
      wakes its sender; anything else is ignored. */
  function Receive(pending: PendingMap, isV6: bool, from: IpAddr, v: BufferView): (r: (PendingMap, Option<nat>))
    ensures var isReply := if isV6 then ParseIcmpEchoV6(v) else ParseIcmpEchoV4(v);
            (isReply && from in pending ==> r == (pending - {from}, Some(pending[from])))
            && (!(isReply && from in pending) ==> r == (pending, None))
  {
    var isReply := if isV6 then ParseIcmpEchoV6(v) else ParseIcmpEchoV4(v);
    if isReply && from in pending then (pending - {from}, Some(pending[from])) else (pending, None)
  }

  /** The receiver's side of one request of `ProbeHost`: after the request
      for `dst` registered its entry `seqNo`, an echo reply of the family from
      `dst` removes exactly that entry and wakes the request with `seqNo` (the
      `Answered` case, which leaves `pending - {dst}`); a reply from another
      address leaves the entry in place, and a buffer that is not an echo reply
      changes nothing, so the request ends by its timeout instead. */
  lemma ReceiveAnswersRegistered(pending: PendingMap, dst: IpAddr, seqNo: nat, from: IpAddr, v: BufferView)
    ensures var isReply := if dst.V6? then ParseIcmpEchoV6(v) else ParseIcmpEchoV4(v);
            var r := Receive(pending[dst := seqNo], dst.V6?, from, v);
            (isReply && from == dst ==> r == (pending - {dst}, Some(seqNo)))
            && (from != dst ==> dst in r.0 && r.0[dst] == seqNo && (r.1.Some? ==> r.0 == pending[dst := seqNo] - {from}))
            && (!isReply ==> r == (pending[dst := seqNo], None))
  {
    var registered := pending[dst := seqNo];
    assert registered - {dst} == pending - {dst};
  }

  /** How one echo request ended: sending failed, the receiver delivered a
      reply after `rttMs`, the reply channel was dropped, or the wait timed out. */
  datatype EchoAttempt =
    | SendFailed(err: string)
    | Answered(rttMs: U64)
    | Canceled
    | Expired

  /** The error text a failed attempt leaves. */
  function AttemptError(a: EchoAttempt, timeoutMs: U64): string
    requires !a.Answered?
  {
    match a
    case SendFailed(e) => "send error: " + e
    case Canceled => "wait canceled"
    case Expired => TimeoutText(timeoutMs)
  }

  datatype HostProbeState = HostProbeState(bestRtt: Option<U64>, lastErr: Option<string>, tried: nat)

  /** The state after the attempts so far; once a reply has come no more
      requests are sent. */
  function HostWalk(attempts: seq<EchoAttempt>, timeoutMs: U64): (s: HostProbeState)
    ensures s.tried <= |attempts|
    ensures s.bestRtt.None? ==> s.tried == |attempts|
  {
    if attempts == [] then HostProbeState(None, None, 0)
    else
      var s := HostWalk(attempts[..|attempts| - 1], timeoutMs);
      if s.bestRtt.Some? then s
      else
        match attempts[|attempts| - 1]
        case Answered(r) => HostProbeState(Some(r), s.lastErr, s.tried + 1)
        case _ => HostProbeState(None, Some(AttemptError(attempts[|attempts| - 1], timeoutMs)), s.tried + 1)
  }

  /** The first answered attempt, if any. */
  function FirstAnswer(attempts: seq<EchoAttempt>): (r: Option<nat>)
    ensures r.Some? ==> r.value < |attempts| && attempts[r.value].Answered?
                        && forall i :: 0 <= i < r.value ==> !attempts[i].Answered?
    ensures r.None? ==> forall i :: 0 <= i < |attempts| ==> !attempts[i].Answered?
  {
    if attempts == [] then None
    else
      match FirstAnswer(attempts[..|attempts| - 1])
      case Some(k) => Some(k)
      case None => if attempts[|attempts| - 1].Answered? then Some(|attempts| - 1) else None
  }

  /** A host gets requests until the first reply, whose RTT it then carries;
      without a reply every request is sent and the last one's error stays. */
  lemma {:induction false} HostWalkFirstAnswer(attempts: seq<EchoAttempt>, timeoutMs: U64)
    ensures var s := HostWalk(attempts, timeoutMs);
            match FirstAnswer(attempts)
            case Some(k) => s.bestRtt == Some(attempts[k].rttMs) && s.tried == k + 1
            case None =>
              s.bestRtt.None? && s.tried == |attempts|
              && (attempts != [] ==> s.lastErr == Some(AttemptError(attempts[|attempts| - 1], timeoutMs)))
  {
    if attempts != [] {
      HostWalkFirstAnswer(attempts[..|attempts| - 1], timeoutMs);
    }
  }

  lemma {:induction false} HostWalkStopped(attempts: seq<EchoAttempt>, timeoutMs: U64, k: nat)
    requires k <= |attempts| && HostWalk(attempts[..k], timeoutMs).bestRtt.Some?
    ensures HostWalk(attempts, timeoutMs) == HostWalk(attempts[..k], timeoutMs)
    decreases |attempts|
  {
    if k < |attempts| {
      var p := attempts[..|attempts| - 1];
      assert p[..k] == attempts[..k];
      HostWalkStopped(p, timeoutMs, k);
    } else {
      assert attempts[..k] == attempts;
    }
  }

  /** What one host's task reports, before the done counter is read. */
  datatype HostOutcome = HostOutcome(state: HostState, rttMs: Option<U64>, message: Option<string>)

  function OutcomeOf(s: HostProbeState): HostOutcome
  {
    if s.bestRtt.Some? then HostOutcome(Alive, s.bestRtt, None) else HostOutcome(Unreachable, None, s.lastErr)
  }

  const NO_SOCKET_MESSAGE: string := "no suitable socket for IP family"

  /** The probe run of one target, with `hasV4`/`hasV6` telling which sockets exist. */
  function HostTask(dst: IpAddr, hasV4: bool, hasV6: bool, attempts: seq<EchoAttempt>, timeoutMs: U64): (o: HostOutcome)
    ensures o.state == Alive <==> o.rttMs.Some?
  {
    if (dst.V4? && !hasV4) || (dst.V6? && !hasV6) then HostOutcome(Unreachable, None, Some(NO_SOCKET_MESSAGE))
    else OutcomeOf(HostWalk(attempts, timeoutMs))
  }

  /** The requests to one host: each registers the destination's pending entry
      before it is sent; a failed send, a timeout and a delivered reply (taken
      by the receiver) each remove it again. */
  method ProbeHost(dst: IpAddr, attempts: seq<EchoAttempt>, timeoutMs: U64, pending: PendingMap)
    returns (outcome: HostOutcome, pendingOut: PendingMap)
    requires |attempts| >= 1
    ensures outcome == OutcomeOf(HostWalk(attempts, timeoutMs))
    ensures pendingOut == pending - {dst}
  {
    var best: Option<U64> := None;
    var lastErr: Option<string> := None;
    pendingOut := pending;
    var t := 0;
    while t < |attempts| && best.None?
      invariant t <= |attempts|
      invariant HostWalk(attempts[..t], timeoutMs) == HostProbeState(best, lastErr, t)
      invariant pendingOut == if t == 0 then pending else pending - {dst}
    {
      assert attempts[..t + 1][..t] == attempts[..t];
      pendingOut := pendingOut[dst := t + 1];
      match attempts[t] {
        case SendFailed(e) =>
          pendingOut := pendingOut - {dst};
          lastErr := Some("send error: " + e);
        case Answered(r) =>
          // The receiver took the entry (`ReceiveAnswersRegistered`).
          pendingOut := pendingOut - {dst};
          // `best_rtt.map_or(rtt, |b| b.min(rtt))` with no earlier reply: `rtt`.
          best := Some(r);
        case Canceled =>
          pendingOut := pendingOut - {dst};
          lastErr := Some("wait canceled");
        case Expired =>
          pendingOut := pendingOut - {dst};
          lastErr := Some(TimeoutText(timeoutMs));
      }
      t := t + 1;
    }
    if t < |attempts| {
      HostWalkStopped(attempts, timeoutMs, t);
    } else {
      assert attempts[..t] == attempts;
    }
    outcome := if best.Some? then HostOutcome(Alive, best, None) else HostOutcome(Unreachable, None, lastErr);
  }

  function HostProgress(dst: IpAddr, o: HostOutcome, done: U32, total: U32): HostScanProgress
  {
    HostScanProgress(dst, o.state, o.rttMs, o.message, done, total)
  }

  /** The progress records of the first `m` hosts to finish. */
  function HostCompletions(targets: seq<IpAddr>, hasV4: bool, hasV6: bool, attempts: seq<seq<EchoAttempt>>,
                           order: seq<nat>, m: nat, timeoutMs: U64, total: U32): (r: seq<HostScanProgress>)
    requires |attempts| == |targets| && m <= |order|
    requires forall j :: 0 <= j < |order| ==> order[j] < |targets|
    ensures |r| == m
  {
    if m == 0 then []
    else
      var i := order[m - 1];
      HostCompletions(targets, hasV4, hasV6, attempts, order, m - 1, timeoutMs, total)
      + [HostProgress(targets[i], HostTask(targets[i], hasV4, hasV6, attempts[i], timeoutMs), Wrap32(m), total)]
  }

  lemma {:induction false} HostCompletionsAt(targets: seq<IpAddr>, hasV4: bool, hasV6: bool,
                                             attempts: seq<seq<EchoAttempt>>, order: seq<nat>,
                                             m: nat, timeoutMs: U64, total: U32, j: nat)
    requires |attempts| == |targets| && j < m <= |order|
    requires forall j :: 0 <= j < |order| ==> order[j] < |targets|
    ensures var i := order[j];
            HostCompletions(targets, hasV4, hasV6, attempts, order, m, timeoutMs, total)[j]
            == HostProgress(targets[i], HostTask(targets[i], hasV4, hasV6, attempts[i], timeoutMs), Wrap32(j + 1), total)
  {
    if j < m - 1 {
      HostCompletionsAt(targets, hasV4, hasV6, attempts, order, m - 1, timeoutMs, total, j);
    }
  }

  /** The report's lists, in the order the hosts finished. */
  function AliveOf(p: seq<HostScanProgress>): seq<(IpAddr, U64)>
  {
    if p == [] then []
    else AliveOf(p[..|p| - 1])
         + (if p[|p| - 1].state == Alive then [(p[|p| - 1].ip, p[|p| - 1].rttMs.UnwrapOr(0))] else [])
  }

  function UnreachableOf(p: seq<HostScanProgress>): seq<IpAddr>
  {
    if p == [] then []
    else UnreachableOf(p[..|p| - 1]) + (if p[|p| - 1].state == Unreachable then [p[|p| - 1].ip] else [])
  }

  /** Every host is in exactly one of the two lists. */
  lemma {:induction false} PartitionSizes(p: seq<HostScanProgress>)
    ensures |AliveOf(p)| + |UnreachableOf(p)| == |p|
  {
    if p != [] {
      PartitionSizes(p[..|p| - 1]);
    }
  }

  /** The alive list holds exactly the alive records, each with its RTT, and
      the unreachable list exactly the addresses of the others. */
  lemma {:induction false} PartitionExact(p: seq<HostScanProgress>)
    ensures forall x :: x in AliveOf(p) <==> exists y :: y in p && y.state == Alive && x == (y.ip, y.rttMs.UnwrapOr(0))
    ensures forall ip :: ip in UnreachableOf(p) <==> exists y :: y in p && y.state == Unreachable && ip == y.ip
  {
    if p != [] {
      var q := p[..|p| - 1];
      PartitionExact(q);
      assert p == q + [p[|p| - 1]];
    }
  }

  lemma AppendProgress(p: seq<HostScanProgress>, x: HostScanProgress)
    ensures AliveOf(p + [x]) == AliveOf(p) + (if x.state == Alive then [(x.ip, x.rttMs.UnwrapOr(0))] else [])
    ensures UnreachableOf(p + [x]) == UnreachableOf(p) + (if x.state == Unreachable then [x.ip] else [])
  {
    assert (p + [x])[..|p|] == p;
  }

  /** The probe run of one target: the missing-socket report, or the requests
      over the socket of its family, which keep that family's pending map. */
  method RunHostTask(dst: IpAddr, hasV4: bool, hasV6: bool, attempts: seq<EchoAttempt>, timeoutMs: U64,
                     pendingV4: PendingMap, pendingV6: PendingMap)
    returns (outcome: HostOutcome, pendingV4': PendingMap, pendingV6': PendingMap)
    requires |attempts| >= 1
    ensures outcome == HostTask(dst, hasV4, hasV6, attempts, timeoutMs)
    ensures pendingV4' == (if dst.V4? && hasV4 then pendingV4 - {dst} else pendingV4)
    ensures pendingV6' == (if dst.V6? && hasV6 then pendingV6 - {dst} else pendingV6)
  {
    pendingV4', pendingV6' := pendingV4, pendingV6;
    if (dst.V4? && !hasV4) || (dst.V6? && !hasV6) {
      outcome := HostOutcome(Unreachable, None, Some(NO_SOCKET_MESSAGE));
    } else if dst.V4? {
      outcome, pendingV4' := ProbeHost(dst, attempts, timeoutMs, pendingV4);
    } else {
      outcome, pendingV6' := ProbeHost(dst, attempts, timeoutMs, pendingV6);
    }
  }

  /** The probe runs, one after another in the order they finish, each
      reported as it finishes and sorted into the alive or unreachable list. */
  method CollectHosts(targets: seq<IpAddr>, hasV4: bool, hasV6: bool, attempts: seq<seq<EchoAttempt>>,
                      order: seq<nat>, timeoutMs: U64)
    returns (progress: seq<HostScanProgress>, alive: seq<(IpAddr, U64)>, unreachable: seq<IpAddr>)
    requires |attempts| == |targets| && IsCompletionOrder(order, |targets|)
    requires forall i :: 0 <= i < |attempts| ==> |attempts[i]| >= 1
    ensures progress == HostCompletions(targets, hasV4, hasV6, attempts, order, |targets|, timeoutMs, Wrap32(|targets|))
    ensures alive == AliveOf(progress) && unreachable == UnreachableOf(progress)
  {
    var total := Wrap32(|targets|);
    var pendingV4: PendingMap := map[];
    var pendingV6: PendingMap := map[];
    progress, alive, unreachable := [], [], [];
    var doneCounter: U32 := 0;
    var j := 0;
    while j < |targets|
      invariant j <= |targets| && doneCounter == Wrap32(j)
      invariant progress == HostCompletions(targets, hasV4, hasV6, attempts, order, j, timeoutMs, total)
      invariant alive == AliveOf(progress) && unreachable == UnreachableOf(progress)
    {
      var i := order[j];
      var outcome;
      outcome, pendingV4, pendingV6 := RunHostTask(targets[i], hasV4, hasV6, attempts[i], timeoutMs, pendingV4, pendingV6);
      Wrap32Succ(j);
      doneCounter := (doneCounter + 1) % 0x1_0000_0000;
      var p := HostProgress(targets[i], outcome, doneCounter, total);
      AppendProgress(progress, p);
      progress := progress + [p];
      if p.state == Alive {
        alive := alive + [(p.ip, p.rttMs.UnwrapOr(0))];
      } else {
        unreachable := unreachable + [p.ip];
      }
      j := j + 1;
    }
  }

  /** `host_scan`. `shuffled` is the shuffle used when not ordered, `socketV4`
      and `socketV6` whether making each family's socket succeeds,
      `attempts[i]` how the requests to the `i`-th dispatched target end, and
      `order` the order the hosts finish in. The sockets opened are returned
      as their configurations, in the order they are made. */
  method HostScanRun(runId: string, setting: HostScanSetting, shuffled: seq<IpAddr>, socketV4: Result<()>,
                     socketV6: Result<()>, attempts: seq<seq<EchoAttempt>>, order: seq<nat>)
    returns (res: Result<HostScanReport>, progress: seq<HostScanProgress>, configs: seq<IcmpConfig>,
             done: Option<HostScanReport>)
    requires !setting.ordered ==> multiset(shuffled) == multiset(setting.targets)
    requires |attempts| == |setting.targets| && IsCompletionOrder(order, |setting.targets|)
    requires forall i :: 0 <= i < |attempts| ==> |attempts[i]| == SendsPerHost(setting)
    ensures var targets := DispatchOrder(setting.targets, shuffled, setting.ordered);
            configs == (if HasV4(targets) then [V4SocketConfig(setting)] else [])
                       + (if HasV6(targets) && !(HasV4(targets) && socketV4.Err?) then [V6SocketConfig(setting)] else [])
    ensures var targets := DispatchOrder(setting.targets, shuffled, setting.ordered);
            if HasV4(targets) && socketV4.Err? then res == Err(socketV4.error) && progress == []
            else if HasV6(targets) && socketV6.Err? then res == Err(socketV6.error) && progress == []
            else
              res.Ok?
              && progress == HostCompletions(targets, HasV4(targets), HasV6(targets), attempts, order, |targets|,
                                             setting.timeoutMs, Wrap32(|targets|))
              && res.value == HostScanReport(runId, AliveOf(progress), UnreachableOf(progress), Wrap32(|targets|))
    ensures done.Some? <==> res.Ok?
    ensures done.Some? ==> done.value == res.value
  {
    var targets := DispatchOrder(setting.targets, shuffled, setting.ordered);
    var total := Wrap32(|targets|);
    progress := [];
    configs := [];
    var hasV4 := HasV4(targets);
    if hasV4 {
      configs := configs + [V4SocketConfig(setting)];
      if socketV4.Err? {
        return Err(socketV4.error), progress, configs, None;
      }
    }
    var hasV6 := HasV6(targets);
    if hasV6 {
      configs := configs + [V6SocketConfig(setting)];
      if socketV6.Err? {
        return Err(socketV6.error), progress, configs, None;
      }
    }
    var alive, unreachable;
    progress, alive, unreachable := CollectHosts(targets, hasV4, hasV6, attempts, order, setting.timeoutMs);
    var report := HostScanReport(runId, alive, unreachable, total);
    // `hostscan:done` carries a copy of the report that is returned.
    done := Some(report);
    res := Ok(report);
  }

  /** Each target has the socket of its family, so no host ever reports the
      missing-socket message: an alive host carries the RTT of its first reply
      and an unreachable one the error of its last request. */
  lemma HostTaskWithSocket(targets: seq<IpAddr>, i: nat, attempts: seq<EchoAttempt>, timeoutMs: U64)
    requires i < |targets| && |attempts| >= 1
    ensures var o := HostTask(targets[i], HasV4(targets), HasV6(targets), attempts, timeoutMs);
            match FirstAnswer(attempts)
            case Some(k) => o == HostOutcome(Alive, Some(attempts[k].rttMs), None)
            case None => o == HostOutcome(Unreachable, None, Some(AttemptError(attempts[|attempts| - 1], timeoutMs)))
  {
    assert targets[i] in targets;
    HostWalkFirstAnswer(attempts, timeoutMs);
  }

  /** One progress record per host, `done` running 1..total in finishing order,
      an RTT exactly on the alive ones. */
  lemma HostCompletionsShape(targets: seq<IpAddr>, attempts: seq<seq<EchoAttempt>>, order: seq<nat>, timeoutMs: U64)
    requires |attempts| == |targets| < 0x1_0000_0000 && IsCompletionOrder(order, |targets|)
    ensures var p := HostCompletions(targets, HasV4(targets), HasV6(targets), attempts, order, |targets|, timeoutMs,
                                     Wrap32(|targets|));
            (forall j :: 0 <= j < |p| ==> p[j].done == j + 1 && p[j].total == |targets| && p[j].ip == targets[order[j]])
            && (forall j :: 0 <= j < |p| ==> (p[j].state == Alive <==> p[j].rttMs.Some?))
  {
    var hasV4, hasV6 := HasV4(targets), HasV6(targets);
    var total := Wrap32(|targets|);
    var p := HostCompletions(targets, hasV4, hasV6, attempts, order, |targets|, timeoutMs, total);
    forall j | 0 <= j < |p|
      ensures p[j].done == j + 1 && p[j].total == |targets| && p[j].ip == targets[order[j]]
      ensures p[j].state == Alive <==> p[j].rttMs.Some?
    {
      HostCompletionsAt(targets, hasV4, hasV6, attempts, order, |targets|, timeoutMs, total, j);
    }
  }

  /** Every host lands in exactly one of the report's lists. */
  lemma HostReportSizes(targets: seq<IpAddr>, attempts: seq<seq<EchoAttempt>>, order: seq<nat>, timeoutMs: U64)
    requires |attempts| == |targets| && IsCompletionOrder(order, |targets|)
    ensures var p := HostCompletions(targets, HasV4(targets), HasV6(targets), attempts, order, |targets|, timeoutMs,
                                     Wrap32(|targets|));
            |AliveOf(p)| + |UnreachableOf(p)| == |targets|
  {
    var p := HostCompletions(targets, HasV4(targets), HasV6(targets), attempts, order, |targets|, timeoutMs,
                             Wrap32(|targets|));
    PartitionSizes(p);
  }
}
