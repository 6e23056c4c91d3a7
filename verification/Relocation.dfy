/** The automatic relocation of S1: the effective resource request of a pod, the capacity
    check of a candidate node, and the choice among candidates. */
module Relocation {
  import opened Options
  import opened Sequences

  type Amount = x: real | x >= 0.0

  datatype Container = Container(request: Amount, restartable: bool)

  /** A pod template as one resource sees it. */
  datatype Demand = Demand(containers: seq<Container>, initContainers: seq<Container>, podLevel: Amount,
      overhead: Amount)

  function Max(a: real, b: real): real {
    if a < b then b else a
  }

  function Total(cs: seq<Container>): Amount {
    if cs == [] then 0.0 else cs[0].request + Total(cs[1..])
  }

  // ---- the start-up sequence ----

  function Restartable(cs: seq<Container>): seq<Container> {
    if cs == [] then [] else (if cs[0].restartable then [cs[0]] else []) + Restartable(cs[1..])
  }

  /** What runs at step i: an init container beside the sidecars started before it, and in the
      last step all main containers beside all sidecars. */
  function RunningAt(d: Demand, i: nat): seq<Container>
    requires i <= |d.initContainers|
  {
    if i < |d.initContainers| then Restartable(d.initContainers[..i]) + [d.initContainers[i]]
    else d.containers + Restartable(d.initContainers)
  }

  /** m is the largest total over the start-up sequence. */
  ghost predicate IsPeak(d: Demand, m: real) {
    && (forall i :: 0 <= i <= |d.initContainers| ==> Total(RunningAt(d, i)) <= m)
    && (exists i :: 0 <= i <= |d.initContainers| && Total(RunningAt(d, i)) == m)
  }

  /** The largest total over the first n steps. */
  function PeakBefore(d: Demand, n: nat): Amount
    requires n <= |d.initContainers| + 1
  {
    if n == 0 then 0.0 else Max(PeakBefore(d, n - 1), Total(RunningAt(d, n - 1)))
  }

  /** The effective request: the peak, raised to the pod-level request, plus the overhead. */
  function Effective(d: Demand): Amount {
    Max(PeakBefore(d, |d.initContainers| + 1), d.podLevel) + d.overhead
  }

  lemma {:induction false} PeakBound(d: Demand, n: nat)
    requires n <= |d.initContainers| + 1
    ensures forall i :: 0 <= i < n ==> Total(RunningAt(d, i)) <= PeakBefore(d, n)
    ensures n > 0 ==> exists i :: 0 <= i < n && Total(RunningAt(d, i)) == PeakBefore(d, n)
  {
    hide RunningAt, Total, PeakBefore;
    if n > 0 {
      var last: Amount := Total(RunningAt(d, n - 1));
      PeakStep(d, n);
      PeakBound(d, n - 1);
      if n > 1 && last < PeakBefore(d, n - 1) {
        var i :| 0 <= i < n - 1 && Total(RunningAt(d, i)) == PeakBefore(d, n - 1);
      }
    }
  }

  lemma PeakStep(d: Demand, n: nat)
    requires 0 < n <= |d.initContainers| + 1
    ensures PeakBefore(d, n) == Max(PeakBefore(d, n - 1), Total(RunningAt(d, n - 1)))
    ensures n == 1 ==> PeakBefore(d, n - 1) == 0.0
  {}

  /** The effective request is the peak of the start-up sequence, or the pod-level request if
      that is larger, plus the overhead. */
  lemma EffectiveIsPeak(d: Demand)
    ensures exists m :: IsPeak(d, m) && Effective(d) == Max(m, d.podLevel) + d.overhead
  {
    var n := |d.initContainers| + 1;
    PeakBound(d, n);
    assert IsPeak(d, PeakBefore(d, n));
  }

  lemma {:induction false} TotalAppend(a: seq<Container>, b: seq<Container>)
    ensures Total(a + b) == Total(a) + Total(b)
  {
    if a == [] {
      assert a + b == b;
    } else {
      assert (a + b)[1..] == a[1..] + b;
      TotalAppend(a[1..], b);
    }
  }

  lemma {:induction false} RestartableAppend(cs: seq<Container>, c: Container)
    ensures Restartable(cs + [c]) == Restartable(cs) + (if c.restartable then [c] else [])
  {
    if cs == [] {
      assert cs + [c] == [c] && [c][1..] == [];
    } else {
      assert (cs + [c])[1..] == cs[1..] + [c];
      RestartableAppend(cs[1..], c);
      var head := if cs[0].restartable then [cs[0]] else [];
      var last := if c.restartable then [c] else [];
      assert head + (Restartable(cs[1..]) + last) == head + Restartable(cs[1..]) + last;
    }
  }

  /** One step of the loop against the start-up sequence. */
  lemma StartupStep(d: Demand, i: nat)
    requires i < |d.initContainers|
    ensures var c := d.initContainers[i];
            var before := Total(Restartable(d.initContainers[..i]));
            && Total(RunningAt(d, i)) == before + c.request
            && Total(Restartable(d.initContainers[..i + 1])) == before + (if c.restartable then c.request else 0.0)
  {
    var c := d.initContainers[i];
    assert d.initContainers[..i + 1] == d.initContainers[..i] + [c];
    RestartableAppend(d.initContainers[..i], c);
    var before := Restartable(d.initContainers[..i]);
    TotalAppend(before, [c]);
    assert Total([c]) == c.request;
    assert before + [] == before;
  }

  /** `requests`: one pass with a running sidecar sum and a running maximum. */
  method Requests(d: Demand) returns (r: real)
    ensures r == Effective(d)
  {
    hide Total, Restartable, RunningAt;
    var regular := Total(d.containers);
    var sidecars, init := 0.0, 0.0;
    NoContainers();
    for i := 0 to |d.initContainers|
      invariant sidecars == Total(Restartable(d.initContainers[..i]))
      invariant init == PeakBefore(d, i)
    {
      StartupStep(d, i);
      var value := d.initContainers[i].request;
      if d.initContainers[i].restartable {
        sidecars := sidecars + value;
        init := Max(init, sidecars);
      } else {
        init := Max(init, sidecars + value);
      }
    }
    assert d.initContainers[..|d.initContainers|] == d.initContainers;
    LastStep(d);
    r := Max(Max(regular + sidecars, init), d.podLevel) + d.overhead;
  }

  lemma NoContainers()
    ensures Total(Restartable([])) == 0.0
  {}

  lemma LastStep(d: Demand)
    ensures Total(RunningAt(d, |d.initContainers|)) == Total(d.containers) + Total(Restartable(d.initContainers))
  {
    TotalAppend(d.containers, Restartable(d.initContainers));
  }

  // ---- capacity ----

  datatype Resource = Cpu | Memory

  datatype PodSpec = PodSpec(cpu: Demand, memory: Demand) {
    function For(r: Resource): Demand {
      match r case Cpu => cpu case Memory => memory
    }
  }

  datatype Pod = Pod(spec: PodSpec, node: Option<string>, finished: bool)

  datatype Node = Node(name: string, cpu: Amount, memory: Amount) {
    function Allocatable(r: Resource): Amount {
      match r case Cpu => cpu case Memory => memory
    }
  }

  datatype HostMetrics = HostMetrics(cpuUtilization: real, cpuPressure: real, memoryAvailable: real,
                                     memoryPressure: Option<real>, ioPressure: Option<real>)

  /** Reasons other than capacity and host metrics: readiness, selectors, affinity and taints. */
  datatype Reason =
    | Policy(text: string) | Insufficient(resource: Resource) | CpuBusy | MemoryLow | OtherPressure

  predicate Occupies(p: Pod, node: Node) {
    p.node == Some(node.name) && !p.finished
  }

  /** Effective requests of the unfinished pods on a node. */
  function Used(pods: seq<Pod>, node: Node, r: Resource): Amount {
    if pods == [] then 0.0
    else (if Occupies(pods[0], node) then Effective(pods[0].spec.For(r)) else 0.0) + Used(pods[1..], node, r)
  }

  lemma {:induction false} UsedAppend(pods: seq<Pod>, p: Pod, node: Node, r: Resource)
    ensures Used(pods + [p], node, r) ==
            Used(pods, node, r) + (if Occupies(p, node) then Effective(p.spec.For(r)) else 0.0)
  {
    hide Effective;
    if pods == [] {
      assert pods + [p] == [p] && [p][1..] == [];
    } else {
      assert (pods + [p])[1..] == pods[1..] + [p];
      UsedAppend(pods[1..], p, node, r);
    }
  }

  method MeasureUsed(pods: seq<Pod>, node: Node, r: Resource) returns (used: real)
    ensures used == Used(pods, node, r)
  {
    hide Effective;
    used := 0.0;
    for i := 0 to |pods|
      invariant used == Used(pods[..i], node, r)
    {
      UsedAppend(pods[..i], pods[i], node, r);
      assert pods[..i + 1] == pods[..i] + [pods[i]];
      if pods[i].node == Some(node.name) && !pods[i].finished {
        var request := Requests(pods[i].spec.For(r));
        used := used + request;
      }
    }
    assert pods[..|pods|] == pods;
  }

  lemma {:induction false} UsedJoin(a: seq<Pod>, b: seq<Pod>, node: Node, r: Resource)
    ensures Used(a + b, node, r) == Used(a, node, r) + Used(b, node, r)
  {
    hide Effective;
    if a == [] {
      assert a + b == b;
    } else {
      assert (a + b)[1..] == a[1..] + b;
      UsedJoin(a[1..], b, node, r);
    }
  }

  /** The order in which the pods are listed does not matter. */
  lemma {:induction false} UsedIgnoresOrder(a: seq<Pod>, b: seq<Pod>, node: Node, r: Resource)
    requires multiset(a) == multiset(b)
    ensures Used(a, node, r) == Used(b, node, r)
  {
    if a != [] {
      hide Effective;
      var i := PlaceOfHead<Pod>(a, b);
      UsedIgnoresOrder(a[1..], b[..i] + b[i + 1..], node, r);
      UsedJoin(b[..i], b[i + 1..], node, r);
      UsedJoin(b[..i], b[i..], node, r);
      assert b == b[..i] + b[i..] && b[i..][1..] == b[i + 1..];
    } else {
      EmptyBag<Pod>(b);
    }
  }

  predicate Pressed(o: Option<real>) {
    o.None? || o.value >= 0.02
  }

  predicate HostBusy(m: HostMetrics) {
    || m.cpuUtilization >= 0.7 || m.cpuPressure >= 0.02
    || m.memoryAvailable < 536870912.0
    || Pressed(m.memoryPressure) || Pressed(m.ioPressure)
  }

  /** `candidate_reasons`, given the reasons its selector and taint rules produced. */
  method CandidateReasons(node: Node, pods: seq<Pod>, spec: PodSpec, policy: seq<Reason>, metrics: HostMetrics)
    returns (reasons: seq<Reason>)
    ensures reasons == [] <==> policy == [] && !HostBusy(metrics) && forall r ::
              Used(pods, node, r) + Effective(spec.For(r)) <= node.Allocatable(r)
    ensures forall r :: Insufficient(r) in reasons <==>
              Insufficient(r) in policy || Used(pods, node, r) + Effective(spec.For(r)) > node.Allocatable(r)
  {
    hide Effective, Used;
    reasons := policy;
    var used := MeasureUsed(pods, node, Cpu);
    var request := Requests(spec.For(Cpu));
    if node.Allocatable(Cpu) - used < request { reasons := reasons + [Insufficient(Cpu)]; }
    used := MeasureUsed(pods, node, Memory);
    request := Requests(spec.For(Memory));
    if node.Allocatable(Memory) - used < request { reasons := reasons + [Insufficient(Memory)]; }
    if metrics.cpuUtilization >= 0.7 || metrics.cpuPressure >= 0.02 { reasons := reasons + [CpuBusy]; }
    if metrics.memoryAvailable < 536870912.0 { reasons := reasons + [MemoryLow]; }
    if metrics.memoryPressure.None? || metrics.memoryPressure.value >= 0.02
       || metrics.ioPressure.None? || metrics.ioPressure.value >= 0.02
    {
      reasons := reasons + [OtherPressure];
    }
  }

  /** Placing the pod on a node that the check accepted keeps the node within its allocatable
      CPU and memory, for the pods of the same snapshot. */
  lemma PlacementFits(node: Node, pods: seq<Pod>, spec: PodSpec, r: Resource)
    requires Used(pods, node, r) + Effective(spec.For(r)) <= node.Allocatable(r)
    ensures Used(pods + [Pod(spec, Some(node.name), false)], node, r) <= node.Allocatable(r)
  {
    UsedAppend(pods, Pod(spec, Some(node.name), false), node, r);
  }

  // ---- the choice ----

  datatype Candidate = Candidate(cpuUtilization: real, name: string)

  /** Lexicographic order on names, by character code. */
  predicate NameLess(a: string, b: string) {
    b != [] && (a == [] || a[0] < b[0] || (a[0] == b[0] && NameLess(a[1..], b[1..])))
  }

  /** Names are ordered by the first character in which they differ, and a prefix comes first. */
  lemma {:induction false} NameOrder(p: string, a: string, b: string)
    requires b != [] && (a == [] || a[0] < b[0])
    ensures NameLess(p + a, p + b) && !NameLess(p + b, p + a)
  {
    if p == [] {
      assert p + a == a && p + b == b;
    } else {
      assert (p + a)[1..] == p[1..] + a && (p + b)[1..] == p[1..] + b;
      NameOrder(p[1..], a, b);
    }
  }

  predicate Before(a: Candidate, b: Candidate) {
    a.cpuUtilization < b.cpuUtilization || (a.cpuUtilization == b.cpuUtilization && NameLess(a.name, b.name))
  }

  lemma {:induction false} NamesTotal(a: string, b: string)
    ensures a == b || NameLess(a, b) || NameLess(b, a)
  {
    if a != [] && b != [] && a[0] == b[0] {
      NamesTotal(a[1..], b[1..]);
      assert a == [a[0]] + a[1..] && b == [b[0]] + b[1..];
    }
  }

  lemma {:induction false} NamesAsymmetric(a: string, b: string)
    requires NameLess(a, b)
    ensures !NameLess(b, a)
  {
    if a != [] && a[0] == b[0] { NamesAsymmetric(a[1..], b[1..]); }
  }

  lemma {:induction false} NamesTransitive(a: string, b: string, c: string)
    requires !NameLess(a, b) && !NameLess(b, c)
    ensures !NameLess(a, c)
  {
    NamesTotal(b, a);
    if a != [] && b != [] && c != [] && a[0] == b[0] == c[0] { NamesTransitive(a[1..], b[1..], c[1..]); }
  }

  lemma NotBeforeTransitive(a: Candidate, b: Candidate, c: Candidate)
    requires !Before(a, b) && !Before(b, c)
    ensures !Before(a, c)
  {
    if a.cpuUtilization == b.cpuUtilization == c.cpuUtilization { NamesTransitive(a.name, b.name, c.name); }
  }

  ghost predicate Least(c: Candidate, cs: seq<Candidate>) {
    c in cs && forall d :: d in cs ==> !Before(d, c)
  }

  /** min(candidates, key=(cpu_utilization, name)); an empty list defers the relocation. */
  method Choose(candidates: seq<Candidate>) returns (chosen: Option<Candidate>)
    ensures chosen.None? <==> candidates == []
    ensures chosen.Some? ==> Least(chosen.value, candidates)
    ensures chosen.Some? ==> forall k :: 0 <= k < |candidates| ==>
              || chosen.value.cpuUtilization < candidates[k].cpuUtilization
              || (chosen.value.cpuUtilization == candidates[k].cpuUtilization
                  && !NameLess(candidates[k].name, chosen.value.name))
  {
    if candidates == [] { return None; }
    hide Before;
    var best := candidates[0];
    NamesReflexive(best);
    for i := 1 to |candidates|
      invariant best in candidates[..i]
      invariant forall k :: 0 <= k < i ==> !Before(candidates[k], best)
    {
      if Before(candidates[i], best) {
        forall k | 0 <= k < i
          ensures !Before(candidates[k], candidates[i])
        {
          BeforeAsymmetric(candidates[i], best);
          NotBeforeTransitive(candidates[k], best, candidates[i]);
        }
        best := candidates[i];
        NamesReflexive(best);
      }
    }
    return Some(best);
  }

  lemma BeforeAsymmetric(a: Candidate, b: Candidate)
    requires Before(a, b)
    ensures !Before(b, a)
  {
    if a.cpuUtilization == b.cpuUtilization { NamesAsymmetric(a.name, b.name); }
  }

  lemma NamesReflexive(c: Candidate)
    ensures !Before(c, c)
  {
    if Before(c, c) { BeforeAsymmetric(c, c); }
  }

  /** Nodes have distinct names, so the chosen node does not depend on the listing order. */
  lemma ChoiceIgnoresOrder(a: seq<Candidate>, b: seq<Candidate>, c: Candidate, d: Candidate)
    requires multiset(a) == multiset(b) && Least(c, a) && Least(d, b)
    ensures c == d
  {
    assert c in multiset(b) && d in multiset(a);
    assert c in b && d in a;
    NamesTotal(c.name, d.name);
  }

  // ---- the listings ----

  /** A node as the relocation lists it: `eligible` says that it is a worker with one matching Machine
      and a fresh sample; `policy` is what its selectors and taints say of the pod. */
  datatype Listed = Listed(node: Node, eligible: bool, policy: seq<Reason>, metrics: HostMetrics)

  /** Has the node no reason against it? */
  predicate Accepts(x: Listed, pods: seq<Pod>, spec: PodSpec) {
    && x.eligible && x.policy == [] && !HostBusy(x.metrics)
    && (forall r :: Used(pods, x.node, r) + Effective(spec.For(r)) <= x.node.Allocatable(r))
  }

  function Candidates(nodes: seq<Listed>, pods: seq<Pod>, spec: PodSpec): seq<Candidate> {
    if nodes == [] then []
    else (if Accepts(nodes[0], pods, spec) then [Candidate(nodes[0].metrics.cpuUtilization,
      nodes[0].node.name)] else [])
         + Candidates(nodes[1..], pods, spec)
  }

  /** The loop over the nodes and the choice after it. */
  method MoveService(nodes: seq<Listed>, pods: seq<Pod>, spec: PodSpec) returns (chosen: Option<Candidate>)
    ensures chosen.None? <==> forall i :: 0 <= i < |nodes| ==> !Accepts(nodes[i], pods, spec)
    ensures chosen.Some? ==> Least(chosen.value, Candidates(nodes, pods, spec))
  {
    hide Accepts, Effective, Used, Least;
    var candidates: seq<Candidate> := [];
    for i := 0 to |nodes|
      invariant candidates == Candidates(nodes[..i], pods, spec)
      invariant candidates == [] <==> forall k :: 0 <= k < i ==> !Accepts(nodes[k], pods, spec)
    {
      var x := nodes[i];
      assert nodes[..i + 1] == nodes[..i] + [x];
      CandidatesJoin(nodes[..i], [x], pods, spec);
      assert [x][1..] == [];
      AcceptsIsNoReason(x, pods, spec);
      if x.eligible {
        var reasons := CandidateReasons(x.node, pods, spec, x.policy, x.metrics);
        if reasons == [] { candidates := candidates + [Candidate(x.metrics.cpuUtilization, x.node.name)]; }
      }
    }
    assert nodes[..|nodes|] == nodes;
    chosen := Choose(candidates);
  }

  lemma AcceptsIsNoReason(x: Listed, pods: seq<Pod>, spec: PodSpec)
    ensures Accepts(x, pods, spec) <==>
            x.eligible && x.policy == [] && !HostBusy(x.metrics) && forall r ::
              Used(pods, x.node, r) + Effective(spec.For(r)) <= x.node.Allocatable(r)
  {}

  lemma {:induction false} CandidatesJoin(a: seq<Listed>, b: seq<Listed>, pods: seq<Pod>, spec: PodSpec)
    ensures Candidates(a + b, pods, spec) == Candidates(a, pods, spec) + Candidates(b, pods, spec)
  {
    hide Accepts;
    if a == [] {
      assert a + b == b;
    } else {
      assert (a + b)[1..] == a[1..] + b;
      CandidatesJoin(a[1..], b, pods, spec);
    }
  }

  lemma AcceptsIgnoresOrder(x: Listed, pods: seq<Pod>, others: seq<Pod>, spec: PodSpec)
    requires multiset(pods) == multiset(others)
    ensures Accepts(x, pods, spec) <==> Accepts(x, others, spec)
  {
    hide Effective, Used;
    UsedIgnoresOrder(pods, others, x.node, Cpu);
    UsedIgnoresOrder(pods, others, x.node, Memory);
  }

  lemma {:induction false} CandidatesIgnorePods(nodes: seq<Listed>, pods: seq<Pod>, others: seq<Pod>, spec: PodSpec)
    requires multiset(pods) == multiset(others)
    ensures Candidates(nodes, pods, spec) == Candidates(nodes, others, spec)
  {
    hide Accepts;
    if nodes != [] {
      AcceptsIgnoresOrder(nodes[0], pods, others, spec);
      CandidatesIgnorePods(nodes[1..], pods, others, spec);
    }
  }

  lemma {:induction false} CandidatesIgnoreOrder(a: seq<Listed>, b: seq<Listed>, pods: seq<Pod>, spec: PodSpec)
    requires multiset(a) == multiset(b)
    ensures multiset(Candidates(a, pods, spec)) == multiset(Candidates(b, pods, spec))
  {
    hide Accepts;
    if a != [] {
      var i := PlaceOfHead<Listed>(a, b);
      CandidatesIgnoreOrder(a[1..], b[..i] + b[i + 1..], pods, spec);
      CandidatesJoin(b[..i], b[i + 1..], pods, spec);
      CandidatesJoin(b[..i], b[i..], pods, spec);
      assert b == b[..i] + b[i..] && b[i..][1..] == b[i + 1..];
    } else {
      EmptyBag<Listed>(b);
    }
  }

  /** The node that a relocation chooses depends neither on the order in which the nodes are listed nor
      on the order in which the pods are. */
  lemma DestinationIgnoresListings(a: seq<Listed>, b: seq<Listed>, pods: seq<Pod>, others: seq<Pod>, spec: PodSpec,
                                   c: Candidate, d: Candidate)
    requires multiset(a) == multiset(b) && multiset(pods) == multiset(others)
    requires Least(c, Candidates(a, pods, spec)) && Least(d, Candidates(b, others, spec))
    ensures c == d
  {
    hide Least, Candidates;
    CandidatesIgnoreOrder(a, b, pods, spec);
    CandidatesIgnorePods(b, pods, others, spec);
    ChoiceIgnoresOrder(Candidates(a, pods, spec), Candidates(b, others, spec), c, d);
  }
}
