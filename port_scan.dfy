/** What the TCP and QUIC port scans share: the ports in dispatch order, one
    progress sample per port numbered in completion order, and the collection
    of the open ports with their service names. */
module PortScan {
  import opened Wrappers
  import opened NetTypes
  import opened ScanModel

  /** A `u32` counter or length cast: the value modulo 2^32. */
  function Wrap32(n: nat): (r: U32)
    ensures n < 0x1_0000_0000 ==> r == n
  {
    n % 0x1_0000_0000
  }

  /** Bumping a wrapped counter wraps the bumped count. */
  lemma Wrap32Succ(n: nat)
    ensures (Wrap32(n) + 1) % 0x1_0000_0000 == Wrap32(n + 1)
  {
  }

  /** The order the probes are started in: the expanded ports as they are, or
      a shuffle of them (which the model receives) when not ordered. */
  function DispatchOrder<T>(items: seq<T>, shuffled: seq<T>, ordered: bool): (r: seq<T>)
    requires !ordered ==> multiset(shuffled) == multiset(items)
    ensures multiset(r) == multiset(items) && |r| == |items|
    ensures ordered ==> r == items
  {
    if ordered then items
    else
      assert |shuffled| == |multiset(shuffled)| == |multiset(items)| == |items|;
      shuffled
  }

  /** `order[j]` is the position, in dispatch order, of the `j + 1`-th probe to
      finish: every probe finishes exactly once. */
  predicate IsCompletionOrder(order: seq<nat>, n: nat)
  {
    |order| == n
    && (forall j :: 0 <= j < n ==> order[j] < n)
    && (forall j, k :: 0 <= j < k < n ==> order[j] != order[k])
    && (forall i :: 0 <= i < n ==> i in order)
  }

  /** How one probe ended: its state, its RTT and its message. */
  datatype PortVerdict = PortVerdict(state: PortState, rttMs: Option<U64>, message: Option<string>)

  /** A progress sample: no service name yet, `done` as the shared counter
      reads after this probe. */
  function ProgressSample(ip: IpAddr, port: U16, v: PortVerdict, done: U32, total: U32): PortScanSample
  {
    PortScanSample(ip, port, v.state, v.rttMs, v.message, None, done, total)
  }

  /** The progress samples of the first `m` probes to finish. */
  function Completions(ip: IpAddr, ports: seq<U16>, verdicts: seq<PortVerdict>, order: seq<nat>, m: nat,
                       total: U32): (r: seq<PortScanSample>)
    requires |verdicts| == |ports| && m <= |order|
    requires forall j :: 0 <= j < |order| ==> order[j] < |ports|
    ensures |r| == m
  {
    if m == 0 then []
    else Completions(ip, ports, verdicts, order, m - 1, total)
         + [ProgressSample(ip, ports[order[m - 1]], verdicts[order[m - 1]], Wrap32(m), total)]
  }

  lemma {:induction false} CompletionsAt(ip: IpAddr, ports: seq<U16>, verdicts: seq<PortVerdict>, order: seq<nat>,
                                         m: nat, total: U32, j: nat)
    requires |verdicts| == |ports| && j < m <= |order|
    requires forall j :: 0 <= j < |order| ==> order[j] < |ports|
    ensures Completions(ip, ports, verdicts, order, m, total)[j]
            == ProgressSample(ip, ports[order[j]], verdicts[order[j]], Wrap32(j + 1), total)
  {
    if j < m - 1 {
      CompletionsAt(ip, ports, verdicts, order, m - 1, total, j);
    }
  }

  /** Sample `j` reports the probe `order[j]` with `done == j + 1`, so the
      `done` values are distinct and run from 1 to `total`. */
  lemma CompletionsShape(ip: IpAddr, ports: seq<U16>, verdicts: seq<PortVerdict>, order: seq<nat>)
    requires |verdicts| == |ports| < 0x1_0000_0000 && IsCompletionOrder(order, |ports|)
    ensures var p := Completions(ip, ports, verdicts, order, |ports|, Wrap32(|ports|));
            |p| == |ports|
            && (forall j :: 0 <= j < |p| ==> p[j] == ProgressSample(ip, ports[order[j]], verdicts[order[j]], j + 1, |ports|))
            && (forall j :: 0 <= j < |p| ==> 1 <= p[j].done <= p[j].total == |ports| && p[j].serviceName.None?)
            && (forall j, k :: 0 <= j < k < |p| ==> p[j].done != p[k].done)
  {
    var p := Completions(ip, ports, verdicts, order, |ports|, Wrap32(|ports|));
    forall j | 0 <= j < |p|
      ensures p[j] == ProgressSample(ip, ports[order[j]], verdicts[order[j]], j + 1, |ports|)
    {
      CompletionsAt(ip, ports, verdicts, order, |ports|, Wrap32(|ports|), j);
    }
  }

  /** The probe of every port is reported, exactly once. */
  lemma CompletionsCover(ip: IpAddr, ports: seq<U16>, verdicts: seq<PortVerdict>, order: seq<nat>, i: nat)
    requires |verdicts| == |ports| && IsCompletionOrder(order, |ports|) && i < |ports|
    ensures exists j :: 0 <= j < |ports| && order[j] == i
                        && Completions(ip, ports, verdicts, order, |ports|, Wrap32(|ports|))[j].port == ports[i]
    ensures forall j, k :: 0 <= j < k < |ports| && order[j] == i ==> order[k] != i
  {
    assert i in order;
    var j :| 0 <= j < |order| && order[j] == i;
    CompletionsAt(ip, ports, verdicts, order, |ports|, Wrap32(|ports|), j);
  }

  /** The service database entry for a port, if any. */
  function ServiceName(db: map<U16, string>, port: U16): (r: Option<string>)
    ensures r.Some? <==> port in db
  {
    if port in db then Some(db[port]) else None
  }

  /** What the collector keeps of the progress samples, in the order they
      arrive: the Open ones, each with its service name. */
  function OpenOf(p: seq<PortScanSample>, db: map<U16, string>): (r: seq<PortScanSample>)
    ensures |r| <= |p|
  {
    if p == [] then []
    else
      var x := p[|p| - 1];
      OpenOf(p[..|p| - 1], db) + (if x.state == Open then [x.(serviceName := ServiceName(db, x.port))] else [])
  }

  /** The report holds exactly the Open samples, each named from the database,
      and nothing else. */
  lemma {:induction false} OpenOfExact(p: seq<PortScanSample>, db: map<U16, string>)
    ensures forall x :: x in OpenOf(p, db) ==> x.state == Open && x.serviceName == ServiceName(db, x.port)
    ensures forall x :: x in OpenOf(p, db) <==> exists y :: y in p && y.state == Open && x == y.(serviceName := ServiceName(db, y.port))
  {
    if p != [] {
      var q := p[..|p| - 1];
      OpenOfExact(q, db);
      assert p == q + [p[|p| - 1]];
    }
  }

  lemma OpenOfAppend(p: seq<PortScanSample>, x: PortScanSample, db: map<U16, string>)
    ensures OpenOf(p + [x], db) == OpenOf(p, db) + (if x.state == Open then [x.(serviceName := ServiceName(db, x.port))] else [])
  {
    assert (p + [x])[..|p|] == p;
  }

  /** The scan loop both scanners share: the probes finish in `order`, each
      is reported as it finishes, and the open ones are collected. */
  method CollectSamples(ip: IpAddr, ports: seq<U16>, verdicts: seq<PortVerdict>, order: seq<nat>,
                        db: map<U16, string>)
    returns (progress: seq<PortScanSample>, open: seq<PortScanSample>)
    requires |verdicts| == |ports| && IsCompletionOrder(order, |ports|)
    ensures progress == Completions(ip, ports, verdicts, order, |ports|, Wrap32(|ports|))
    ensures open == OpenOf(progress, db)
  {
    var total := Wrap32(|ports|);
    var doneCounter: U32 := 0;
    progress := [];
    open := [];
    var j := 0;
    while j < |ports|
      invariant j <= |ports|
      invariant doneCounter == Wrap32(j)
      invariant progress == Completions(ip, ports, verdicts, order, j, total)
      invariant open == OpenOf(progress, db)
    {
      var i := order[j];
      Wrap32Succ(j);
      doneCounter := (doneCounter + 1) % 0x1_0000_0000;
      var sample := ProgressSample(ip, ports[i], verdicts[i], doneCounter, total);
      OpenOfAppend(progress, sample, db);
      progress := progress + [sample];
      if sample.state == Open {
        open := open + [sample.(serviceName := ServiceName(db, sample.port))];
      }
      j := j + 1;
    }
  }
}
