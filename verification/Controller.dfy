/**
 * The DHCPv4 controller (keadhcp4server_controller.go): the objects it wants, in the order it
 * applies them, and the methods that apply them to the cluster.
 */
module Controller {
  import opened Options
  import opened Strings
  import opened Names
  import opened ApiServer
  import opened Runs
  import opened Builders
  import opened Spec
  import opened Outcomes
  import opened Templates

  /** What a reconcile derives from the resource before it touches the cluster. */
  datatype Plan = Plan(
    namespace: string,
    cr: string,
    replicas: nat,
    ha: bool,
    peers: seq<HAPeer>,
    hostsValid: bool,
    haPort: int,
    httpPort: Option<int>,
    stork: Option<(int, int)>,
    openShift: bool)

  const COMPONENT := Dhcp4

  /** Rendering for a server name; `None` is a rendering error. The empty name means no override. */
  type Renderer = string -> Option<string>

  function ServerName(p: Plan, ordinal: nat): string {
    if ordinal < |p.peers| then p.peers[ordinal].name else "server" + Decimal(ordinal + 1)
  }

  function Params(p: Plan, port: int): ServiceParams { ServiceParams(p.namespace, p.cr, COMPONENT, port, "TCP") }

  function HAConfigMap(p: Plan, ordinal: nat, config: string): Object {
    BuildConfigMap(p.namespace, HAConfigMapName(p.cr, COMPONENT, ordinal), p.cr, COMPONENT, config)
  }

  /** One ConfigMap per ordinal that renders; errors on it are logged only. */
  function HAConfigSteps(p: Plan, render: Renderer, n: nat): seq<Step> {
    if n == 0 then []
    else
      var config := render(ServerName(p, n - 1));
      HAConfigSteps(p, render, n - 1)
      + if config.Some? then [Apply(HAConfigMap(p, n - 1, config.value), false)] else []
  }

  function PerPodSteps(p: Plan, n: nat): seq<Step> {
    if n == 0 then []
    else PerPodSteps(p, n - 1) + [Apply(BuildPerPodService(Params(p, p.haPort), n - 1), true)]
  }

  function HAWorkloadSteps(p: Plan, w: PodSpec): seq<Step> {
    [Apply(BuildHeadlessService(Params(p, p.haPort)), true)]
    + PerPodSteps(p, p.replicas)
    + [Check(p.hostsValid), Apply(BuildWorkload(StatefulSet, p.namespace, p.cr, COMPONENT, w), true)]
  }

  function TailSteps(p: Plan): seq<Step> { ControlSteps(p) + StorkSteps(p) }

  function ControlSteps(p: Plan): seq<Step> {
    if p.httpPort.Some? then [Apply(BuildService(Params(p, p.httpPort.value)), true)] else []
  }

  /** Errors on the monitor and on the Route are logged only. */
  function StorkSteps(p: Plan): seq<Step> {
    if p.stork.None? then []
    else
      [Apply(BuildPodMonitor(p.namespace, p.cr, COMPONENT), false),
       Apply(BuildStorkMetricsService(p.namespace, p.cr, COMPONENT, p.stork.value.0, p.stork.value.1), true)]
      + if p.openShift then [Apply(BuildStorkMetricsRoute(p.namespace, p.cr, COMPONENT), false)] else []
  }

  function AccountStep(p: Plan): Step { Apply(BuildServiceAccount(p.namespace, p.cr, COMPONENT), true) }

  function HASteps(p: Plan, render: Renderer, w: PodSpec): seq<Step> {
    HAConfigSteps(p, render, p.replicas) + [AccountStep(p)] + HAWorkloadSteps(p, w) + TailSteps(p)
  }

  function PlainSteps(p: Plan, config: string, w: PodSpec): seq<Step> {
    [Apply(BuildConfigMap(p.namespace, ConfigMapName(p.cr, COMPONENT), p.cr, COMPONENT, config), true),
     AccountStep(p),
     Apply(BuildWorkload(Deployment, p.namespace, p.cr, COMPONENT, w), true)]
    + TailSteps(p)
  }

  /** Every object one reconcile of the resource applies; without HA a rendering error comes first. */
  function DesiredSteps(p: Plan, render: Renderer, w: PodSpec): seq<Step> {
    if p.ha then HASteps(p, render, w)
    else match render("")
      case Some(config) => PlainSteps(p, config, w)
      case None => [Check(false)]
  }

  // ---------- the desired objects never overwrite each other ----------

  ghost predicate Separate(a: seq<Step>, b: seq<Step>) {
    forall x, y | x in a && y in b && x.Apply? && y.Apply? :: x.desired.id != y.desired.id
  }

  lemma AppendDistinct(a: seq<Step>, b: seq<Step>)
    requires DistinctIds(a) && DistinctIds(b) && Separate(a, b)
    ensures DistinctIds(a + b)
  {
    var s := a + b;
    forall i, j | 0 <= i < j < |s| && s[i].Apply? && s[j].Apply?
      ensures s[i].desired.id != s[j].desired.id
    {
      if i < |a| <= j { assert s[i] in a && s[j] in b; }
    }
  }

  lemma {:induction false} HAConfigsDistinct(p: Plan, render: Renderer, n: nat)
    ensures ValidSteps(HAConfigSteps(p, render, n)) && DistinctIds(HAConfigSteps(p, render, n))
    ensures forall s | s in HAConfigSteps(p, render, n) ::
              s.Apply? && s.desired.id.kind == ConfigMap
              && exists i: nat :: i < n && s.desired.id.name == HAConfigMapName(p.cr, COMPONENT, i)
  {
    if n > 0 {
      HAConfigsDistinct(p, render, n - 1);
      var front := HAConfigSteps(p, render, n - 1);
      var config := render(ServerName(p, n - 1));
      if config.Some? {
        var last := [Apply(HAConfigMap(p, n - 1, config.value), false)];
        forall x, y | x in front && y in last ensures x.desired.id != y.desired.id {
          var i: nat :| i < n - 1 && x.desired.id.name == HAConfigMapName(p.cr, COMPONENT, i);
          if x.desired.id == y.desired.id {
            OrdinalsDiffer(p.cr, i, n - 1);
          }
        }
        AppendDistinct(front, last);
      } else {
        assert HAConfigSteps(p, render, n) == front;
      }
    }
  }

  lemma OrdinalsDiffer(cr: string, i: nat, j: nat)
    ensures HAConfigMapName(cr, COMPONENT, i) == HAConfigMapName(cr, COMPONENT, j) ==> i == j
  {
    if HAConfigMapName(cr, COMPONENT, i) == HAConfigMapName(cr, COMPONENT, j) {
      RoleNameDecodes(cr, COMPONENT, Ordinal(i), cr, COMPONENT, Ordinal(j));
    }
  }

  lemma {:induction false} PerPodDistinct(p: Plan, n: nat)
    ensures ValidSteps(PerPodSteps(p, n)) && DistinctIds(PerPodSteps(p, n)) && ChecksPass(PerPodSteps(p, n))
    ensures forall s | s in PerPodSteps(p, n) :: s.Apply? && InRole(p, s.desired.id, n)
  {
    if n > 0 {
      PerPodDistinct(p, n - 1);
      var front, last := PerPodSteps(p, n - 1), [Apply(BuildPerPodService(Params(p, p.haPort), n - 1), true)];
      assert RoleName(p.cr, COMPONENT, Ordinal(n - 1)) == PerPodServiceName(p.cr, COMPONENT, n - 1);
      forall x, y | x in front && y in last ensures x.desired.id != y.desired.id {
        var i: nat :| i < n - 1 && x.desired.id.name == RoleName(p.cr, COMPONENT, Ordinal(i));
        if x.desired.id == y.desired.id {
          RoleNameDecodes(p.cr, COMPONENT, Ordinal(i), p.cr, COMPONENT, Ordinal(n - 1));
        }
      }
      AppendDistinct(front, last);
    }
  }

  /** The Service of an ordinal below `n`. */
  ghost predicate InRole(p: Plan, id: Id, n: nat) {
    id.kind == Service && exists i: nat :: i < n && id.name == RoleName(p.cr, COMPONENT, Ordinal(i))
  }

  lemma RolesSeparate(p: Plan, id: Id, n: nat, r: Role)
    requires InRole(p, id, n) && !r.Ordinal?
    ensures id.name != RoleName(p.cr, COMPONENT, r)
  {
    var i: nat :| i < n && id.name == RoleName(p.cr, COMPONENT, Ordinal(i));
    if id.name == RoleName(p.cr, COMPONENT, r) {
      RoleNameDecodes(p.cr, COMPONENT, Ordinal(i), p.cr, COMPONENT, r);
    }
  }

  lemma FixedRolesDiffer(cr: string)
    ensures HeadlessServiceName(cr, COMPONENT) != ServiceName(cr, COMPONENT)
    ensures HeadlessServiceName(cr, COMPONENT) != StorkMetricsServiceName(cr, COMPONENT)
    ensures ServiceName(cr, COMPONENT) != StorkMetricsServiceName(cr, COMPONENT)
  {
    assert |HeadlessServiceName(cr, COMPONENT)| == |ServiceName(cr, COMPONENT)| + 3;
    assert |StorkMetricsServiceName(cr, COMPONENT)| == |ServiceName(cr, COMPONENT)| + 6;
  }

  lemma TailDistinct(p: Plan)
    ensures ValidSteps(TailSteps(p)) && DistinctIds(TailSteps(p)) && ChecksPass(TailSteps(p))
    ensures forall s | s in TailSteps(p) :: s.Apply? && s.desired.id.kind in {Service, PodMonitor, Route}
    ensures forall s | s in TailSteps(p) && s.desired.id.kind == Service ::
              s.desired.id.name in {RoleName(p.cr, COMPONENT, Plain), RoleName(p.cr, COMPONENT, StorkMetrics)}
  {
    FixedRolesDiffer(p.cr);
    StorkDistinct(p);
    JoinSteps(ControlSteps(p), StorkSteps(p));
    AppendDistinct(ControlSteps(p), StorkSteps(p));
  }

  lemma StorkDistinct(p: Plan)
    ensures ValidSteps(StorkSteps(p)) && DistinctIds(StorkSteps(p)) && ChecksPass(StorkSteps(p))
    ensures forall s | s in StorkSteps(p) :: s.Apply? && s.desired.id.kind in {Service, PodMonitor, Route}
    ensures forall s | s in StorkSteps(p) && s.desired.id.kind == Service ::
              s.desired.id.name == StorkMetricsServiceName(p.cr, COMPONENT)
  {
    if p.stork.Some? {
      var a := [Apply(BuildPodMonitor(p.namespace, p.cr, COMPONENT), false),
                Apply(BuildStorkMetricsService(p.namespace, p.cr, COMPONENT, p.stork.value.0, p.stork.value.1), true)];
      var b := if p.openShift then [Apply(BuildStorkMetricsRoute(p.namespace, p.cr, COMPONENT), false)] else [];
      AppendDistinct(a, b);
    }
  }

  lemma HAWorkloadDistinct(p: Plan, w: PodSpec)
    ensures ValidSteps(HAWorkloadSteps(p, w)) && DistinctIds(HAWorkloadSteps(p, w))
    ensures ChecksPass(HAWorkloadSteps(p, w)) <==> p.hostsValid
  {
    var a, b := [Apply(BuildHeadlessService(Params(p, p.haPort)), true)], PerPodSteps(p, p.replicas);
    var c := [Check(p.hostsValid), Apply(BuildWorkload(StatefulSet, p.namespace, p.cr, COMPONENT, w), true)];
    PerPodDistinct(p, p.replicas);
    forall x, y | x in a && y in b ensures x.desired.id != y.desired.id {
      RolesSeparate(p, y.desired.id, p.replicas, Headless);
    }
    AppendDistinct(a, b);
    AppendDistinct(a + b, c);
    JoinSteps(a, b);
    JoinSteps(a + b, c);
    assert ChecksPass(c) <==> c[0].ok;
  }

  lemma HAWorkloadNames(p: Plan, w: PodSpec, s: Step)
    requires s in HAWorkloadSteps(p, w) && s.Apply?
    ensures s.desired.id.kind in {Service, StatefulSet}
    ensures s.desired.id.kind == Service ==>
              s.desired.id.name == RoleName(p.cr, COMPONENT, Headless) || InRole(p, s.desired.id, p.replicas)
  {
    PerPodDistinct(p, p.replicas);
  }

  /** An object none of the tail steps applies. */
  predicate OutsideTail(p: Plan, id: Id) {
    && id.kind !in {PodMonitor, Route}
    && (id.kind == Service ==> id.name !in {RoleName(p.cr, COMPONENT, Plain), RoleName(p.cr, COMPONENT, StorkMetrics)})
  }

  lemma AppendTail(p: Plan, a: seq<Step>)
    requires ValidSteps(a) && DistinctIds(a) && forall s | s in a && s.Apply? :: OutsideTail(p, s.desired.id)
    ensures ValidSteps(a + TailSteps(p)) && DistinctIds(a + TailSteps(p))
    ensures ChecksPass(a + TailSteps(p)) <==> ChecksPass(a)
  {
    var t := TailSteps(p);
    TailDistinct(p);
    forall x: Step, y: Step | x in a && y in t && x.Apply? && y.Apply?
      ensures x.desired.id != y.desired.id
    {
      assert OutsideTail(p, x.desired.id) && !OutsideTail(p, y.desired.id);
    }
    AppendDistinct(a, t);
    assert forall s | s in a :: s in a + t;
  }

  lemma HAFrontDistinct(p: Plan, render: Renderer)
    ensures var front := HAConfigSteps(p, render, p.replicas) + [AccountStep(p)];
            && ValidSteps(front) && DistinctIds(front) && ChecksPass(front)
            && forall s | s in front :: s.Apply? && s.desired.id.kind in {ConfigMap, ServiceAccount}
  {
    HAConfigsDistinct(p, render, p.replicas);
    AppendDistinct(HAConfigSteps(p, render, p.replicas), [AccountStep(p)]);
  }

  lemma HAWorkloadOutsideTail(p: Plan, id: Id)
    requires id.kind == Service ==> id.name == RoleName(p.cr, COMPONENT, Headless) || InRole(p, id, p.replicas)
    requires id.kind !in {PodMonitor, Route}
    ensures OutsideTail(p, id)
  {
    if id.kind == Service {
      FixedRolesDiffer(p.cr);
      if InRole(p, id, p.replicas) {
        RolesSeparate(p, id, p.replicas, Plain);
        RolesSeparate(p, id, p.replicas, StorkMetrics);
      }
    }
  }

  lemma HAStepsDistinct(p: Plan, render: Renderer, w: PodSpec)
    ensures ValidSteps(HASteps(p, render, w)) && DistinctIds(HASteps(p, render, w))
    ensures ChecksPass(HASteps(p, render, w)) <==> p.hostsValid
  {
    var a, c := HAConfigSteps(p, render, p.replicas) + [AccountStep(p)], HAWorkloadSteps(p, w);
    HAFrontDistinct(p, render);
    HAWorkloadDistinct(p, w);
    forall x: Step, y: Step | x in a && y in c && x.Apply? && y.Apply? ensures x.desired.id != y.desired.id {
      HAWorkloadNames(p, w, y);
    }
    AppendDistinct(a, c);
    forall s: Step | s in a + c && s.Apply? ensures OutsideTail(p, s.desired.id) {
      if s in c { HAWorkloadNames(p, w, s); HAWorkloadOutsideTail(p, s.desired.id); } else { assert s in a; }
    }
    JoinSteps(a, c);
    AppendTail(p, a + c);
  }

  lemma JoinSteps(a: seq<Step>, b: seq<Step>)
    ensures ValidSteps(a) && ValidSteps(b) ==> ValidSteps(a + b)
    ensures ChecksPass(a + b) <==> ChecksPass(a) && ChecksPass(b)
  {
    assert forall s :: s in a + b <==> s in a || s in b;
  }

  lemma PlainStepsDistinct(p: Plan, config: string, w: PodSpec)
    ensures ValidSteps(PlainSteps(p, config, w)) && DistinctIds(PlainSteps(p, config, w)) && ChecksPass(PlainSteps(p, config, w))
  {
    var a := [Apply(BuildConfigMap(p.namespace, ConfigMapName(p.cr, COMPONENT), p.cr, COMPONENT, config), true),
              AccountStep(p),
              Apply(BuildWorkload(Deployment, p.namespace, p.cr, COMPONENT, w), true)];
    AppendTail(p, a);
  }

  /** The desired objects of a resource are admissible and have pairwise different identities. */
  lemma DesiredDistinct(p: Plan, render: Renderer, w: PodSpec)
    ensures ValidSteps(DesiredSteps(p, render, w)) && DistinctIds(DesiredSteps(p, render, w))
    ensures ChecksPass(DesiredSteps(p, render, w)) <==> if p.ha then p.hostsValid else render("").Some?
  {
    if p.ha {
      HAStepsDistinct(p, render, w);
    } else if render("").Some? {
      PlainStepsDistinct(p, render("").value, w);
    } else {
      assert Check(false) in DesiredSteps(p, render, w);
    }
  }

  // ---------- the reconcile methods ----------

  /** `hash` stands for the 16 hexadecimal digits of ComputeHash. */
  function CombinedHash(p: Plan, render: Renderer, hash: string -> string, n: nat): string {
    if n == 0 then ""
    else
      var config := render(ServerName(p, n - 1));
      CombinedHash(p, render, hash, n - 1) + if config.Some? then hash(config.value) else ""
  }

  function HAHash(p: Plan, render: Renderer, hash: string -> string): string {
    hash(CombinedHash(p, render, hash, p.replicas))
  }

  lemma {:induction false} HAConfigStepsPrefix(p: Plan, render: Renderer, m: nat, n: nat)
    requires m <= n
    ensures HAConfigSteps(p, render, m) <= HAConfigSteps(p, render, n)
  {
    if m < n { HAConfigStepsPrefix(p, render, m, n - 1); }
  }

  lemma OneMore(d: Body -> Body, store: Store, owner: string, steps: seq<Step>, calls: seq<Call>, n: nat)
    requires |steps| == |calls| && n < |steps|
    ensures var (mid, ok) := Run(d, store, owner, steps[..n], calls[..n]);
            Run(d, store, owner, steps[..n + 1], calls[..n + 1])
            == if ok then StepOne(d, mid, owner, steps[n], calls[n]) else (mid, false)
  {
    assert steps[..n + 1][..n] == steps[..n] && calls[..n + 1][..n] == calls[..n];
  }

  lemma {:induction false} AbortSticks(d: Body -> Body, store: Store, owner: string, steps: seq<Step>, calls: seq<Call>, n: nat)
    requires |steps| == |calls| && n <= |steps|
    requires !Run(d, store, owner, steps[..n], calls[..n]).1
    ensures Run(d, store, owner, steps, calls) == Run(d, store, owner, steps[..n], calls[..n])
  {
    assert steps == steps[..n] + steps[n..] && calls == calls[..n] + calls[n..];
    RunAppend(d, store, owner, steps[..n], calls[..n], steps[n..], calls[n..]);
  }

  /** The next fatal object of a run: either the run goes on, or this was its end. */
  lemma FatalStep(d: Body -> Body, store: Store, owner: string, steps: seq<Step>, calls: seq<Call>, n: nat,
                  mid: Store, desired: Object)
    requires |steps| == |calls| && n < |steps| && steps[n] == Apply(desired, true)
    requires Run(d, store, owner, steps[..n], calls[..n]) == (mid, true)
    ensures var (after, ok) := ReconcileOne(d, mid, owner, desired, calls[n]);
            && Run(d, store, owner, steps[..n + 1], calls[..n + 1]) == (after, ok)
            && (!ok ==> Run(d, store, owner, steps, calls) == (after, false))
  {
    OneMore(d, store, owner, steps, calls, n);
    if !ReconcileOne(d, mid, owner, desired, calls[n]).1 {
      AbortSticks(d, store, owner, steps, calls, n + 1);
    }
  }

  /** An object whose errors are only logged never ends the run. */
  lemma LoggedStep(d: Body -> Body, store: Store, owner: string, front: seq<Step>, calls: seq<Call>,
                   mid: Store, desired: Object)
    requires |front| < |calls| && Run(d, store, owner, front, calls[..|front|]) == (mid, true)
    ensures Run(d, store, owner, front + [Apply(desired, false)], calls[..|front| + 1])
            == (ReconcileOne(d, mid, owner, desired, calls[|front|]).0, true)
  {
    var steps, n := front + [Apply(desired, false)], |front|;
    assert steps[..n] == front && calls[..n + 1][..n] == calls[..n];
  }

  method ReconcileHAConfigs(cluster: Cluster, owner: string, p: Plan, render: Renderer, hash: string -> string, calls: seq<Call>)
    returns (configHash: string)
    requires |calls| == |HAConfigSteps(p, render, p.replicas)|
    modifies cluster
    ensures (cluster.store, true)
            == Run(cluster.defaulting, old(cluster.store), owner, HAConfigSteps(p, render, p.replicas), calls)
    ensures configHash == hash(CombinedHash(p, render, hash, p.replicas))
  {
    ghost var before := cluster.store;
    var combinedHash, k := "", 0;
    for i := 0 to p.replicas
      invariant k == |HAConfigSteps(p, render, i)| <= |calls|
      invariant combinedHash == CombinedHash(p, render, hash, i)
      invariant (cluster.store, true)
                == Run(cluster.defaulting, old(cluster.store), owner, HAConfigSteps(p, render, i), calls[..k])
    {
      HAConfigStepsPrefix(p, render, i + 1, p.replicas);
      match render(ServerName(p, i)) {
        case None =>
          assert HAConfigSteps(p, render, i + 1) == HAConfigSteps(p, render, i);
        case Some(config) =>
          combinedHash := combinedHash + hash(config);
          var cm := HAConfigMap(p, i, config);
          LoggedStep(cluster.defaulting, before, owner, HAConfigSteps(p, render, i), calls, cluster.store, cm);
          var ok := cluster.ReconcileResource(owner, cm, calls[k]);
          k := k + 1;
      }
    }
    assert calls[..k] == calls;
    configHash := hash(combinedHash);
  }

  /** Headless Service, per-pod Services, host name validation, StatefulSet: the first error is returned. */
  method ReconcileHAWorkload(cluster: Cluster, owner: string, p: Plan, w: PodSpec, calls: seq<Call>) returns (ok: bool)
    requires |calls| == |HAWorkloadSteps(p, w)|
    modifies cluster
    ensures (cluster.store, ok)
            == Run(cluster.defaulting, old(cluster.store), owner, HAWorkloadSteps(p, w), calls)
  {
    ghost var d, before, steps := cluster.defaulting, cluster.store, HAWorkloadSteps(p, w);
    PerPodLength(p, p.replicas);
    assert steps[..0] == [] && calls[..0] == [];
    var headless := BuildHeadlessService(Params(p, p.haPort));
    FatalStep(d, before, owner, steps, calls, 0, before, headless);
    ok := cluster.ReconcileResource(owner, headless, calls[0]);
    if !ok {
      return;
    }
    for i := 0 to p.replicas
      invariant (cluster.store, true) == Run(d, before, owner, steps[..i + 1], calls[..i + 1])
    {
      PerPodAt(p, i, p.replicas);
      var service := BuildPerPodService(Params(p, p.haPort), i);
      FatalStep(d, before, owner, steps, calls, i + 1, cluster.store, service);
      ok := cluster.ReconcileResource(owner, service, calls[i + 1]);
      if !ok {
        return;
      }
    }
    var n := p.replicas + 1;
    OneMore(d, before, owner, steps, calls, n);
    if !p.hostsValid {
      AbortSticks(d, before, owner, steps, calls, n + 1);
      return false;
    }
    var sts := BuildWorkload(StatefulSet, p.namespace, p.cr, COMPONENT, w);
    FatalStep(d, before, owner, steps, calls, n + 1, cluster.store, sts);
    assert steps[..n + 2] == steps && calls[..n + 2] == calls;
    ok := cluster.ReconcileResource(owner, sts, calls[n + 1]);
  }

  lemma {:induction false} PerPodLength(p: Plan, n: nat)
    ensures |PerPodSteps(p, n)| == n
  {
    if n > 0 { PerPodLength(p, n - 1); }
  }

  lemma {:induction false} PerPodAt(p: Plan, i: nat, n: nat)
    requires i < n
    ensures |PerPodSteps(p, n)| == n
    ensures PerPodSteps(p, n)[i] == Apply(BuildPerPodService(Params(p, p.haPort), i), true)
  {
    PerPodLength(p, n - 1);
    if i < n - 1 { PerPodAt(p, i, n - 1); }
  }

  method ReconcileControlService(cluster: Cluster, owner: string, p: Plan, calls: seq<Call>) returns (ok: bool)
    requires |calls| == |ControlSteps(p)|
    modifies cluster
    ensures (cluster.store, ok) == Run(cluster.defaulting, old(cluster.store), owner, ControlSteps(p), calls)
  {
    if p.httpPort.None? {
      return true;
    }
    assert ControlSteps(p)[..0] == [] && calls[..0] == [];
    ok := cluster.ReconcileResource(owner, BuildService(Params(p, p.httpPort.value)), calls[0]);
  }

  /** Monitor, metrics Service and Route; errors on monitor and Route are only logged. */
  method ReconcileStorkMonitoring(cluster: Cluster, owner: string, p: Plan, calls: seq<Call>) returns (ok: bool)
    requires |calls| == |StorkSteps(p)|
    modifies cluster
    ensures (cluster.store, ok) == Run(cluster.defaulting, old(cluster.store), owner, StorkSteps(p), calls)
  {
    if p.stork.None? {
      return true;
    }
    ghost var d, before, steps := cluster.defaulting, cluster.store, StorkSteps(p);
    assert steps[..0] == [] && calls[..0] == [];
    assert steps[..|steps|] == steps && calls[..|steps|] == calls;
    OneMore(d, before, owner, steps, calls, 0);
    var logged := cluster.ReconcileResource(owner, BuildPodMonitor(p.namespace, p.cr, COMPONENT), calls[0]);
    var service := BuildStorkMetricsService(p.namespace, p.cr, COMPONENT, p.stork.value.0, p.stork.value.1);
    FatalStep(d, before, owner, steps, calls, 1, cluster.store, service);
    ok := cluster.ReconcileResource(owner, service, calls[1]);
    if ok && p.openShift {
      OneMore(d, before, owner, steps, calls, 2);
      logged := cluster.ReconcileResource(owner, BuildStorkMetricsRoute(p.namespace, p.cr, COMPONENT), calls[2]);
    }
  }

  method ReconcileTail(cluster: Cluster, owner: string, p: Plan, calls: seq<Call>) returns (ok: bool)
    requires |calls| == |TailSteps(p)|
    modifies cluster
    ensures (cluster.store, ok) == Run(cluster.defaulting, old(cluster.store), owner, TailSteps(p), calls)
  {
    var k := if p.httpPort.Some? then 1 else 0;
    assert calls == calls[..k] + calls[k..];
    RunAppend(cluster.defaulting, cluster.store, owner, ControlSteps(p), calls[..k], StorkSteps(p), calls[k..]);
    ok := ReconcileControlService(cluster, owner, p, calls[..k]);
    if ok {
      ok := ReconcileStorkMonitoring(cluster, owner, p, calls[k..]);
    }
  }

  method ReconcileAccount(cluster: Cluster, owner: string, p: Plan, c: Call) returns (ok: bool)
    modifies cluster
    ensures (cluster.store, ok) == Run(cluster.defaulting, old(cluster.store), owner, [AccountStep(p)], [c])
  {
    assert [AccountStep(p)][..0] == [] && [c][..0] == [];
    ok := cluster.ReconcileResource(owner, BuildServiceAccount(p.namespace, p.cr, COMPONENT), c);
  }

  /** Continue a run unless it was aborted. */
  function Continue(d: Body -> Body, r: (Store, bool), owner: string, b: seq<Step>, cb: seq<Call>): (Store, bool)
    requires |b| == |cb|
  {
    if r.1 then Run(d, r.0, owner, b, cb) else r
  }

  lemma TwoParts(d: Body -> Body, store: Store, owner: string, a: seq<Step>, b: seq<Step>, calls: seq<Call>)
    requires |calls| == |a| + |b|
    ensures Run(d, store, owner, a + b, calls) == Continue(d, Run(d, store, owner, a, calls[..|a|]), owner, b, calls[|a|..])
  {
    assert calls == calls[..|a|] + calls[|a|..];
    RunAppend(d, store, owner, a, calls[..|a|], b, calls[|a|..]);
  }

  function HAFront(p: Plan, render: Renderer): seq<Step> { HAConfigSteps(p, render, p.replicas) + [AccountStep(p)] }

  function HABack(p: Plan, w: PodSpec): seq<Step> { HAWorkloadSteps(p, w) + TailSteps(p) }

  lemma HASplits(p: Plan, render: Renderer, w: PodSpec)
    ensures HASteps(p, render, w) == HAFront(p, render) + HABack(p, w)
  {
    ThreeJoin(HAFront(p, render), HAWorkloadSteps(p, w), TailSteps(p));
  }

  lemma ThreeJoin<T>(a: seq<T>, b: seq<T>, c: seq<T>)
    ensures a + b + c == a + (b + c)
  {
  }

  /** ConfigMaps and account. */
  method ReconcileHAFront(cluster: Cluster, owner: string, p: Plan, render: Renderer, hash: string -> string, calls: seq<Call>)
    returns (ok: bool, configHash: string)
    requires |calls| == |HAFront(p, render)|
    modifies cluster
    ensures (cluster.store, ok) == Run(cluster.defaulting, old(cluster.store), owner, HAFront(p, render), calls)
    ensures configHash == HAHash(p, render, hash)
  {
    var m := |HAConfigSteps(p, render, p.replicas)|;
    TwoParts(cluster.defaulting, cluster.store, owner, HAConfigSteps(p, render, p.replicas), [AccountStep(p)], calls);
    configHash := ReconcileHAConfigs(cluster, owner, p, render, hash, calls[..m]);
    assert calls[m..] == [calls[m]];
    ok := ReconcileAccount(cluster, owner, p, calls[m]);
  }

  /** Workload and what follows it. */
  method ReconcileHABack(cluster: Cluster, owner: string, p: Plan, w: PodSpec, calls: seq<Call>) returns (ok: bool)
    requires |calls| == |HABack(p, w)|
    modifies cluster
    ensures (cluster.store, ok) == Run(cluster.defaulting, old(cluster.store), owner, HABack(p, w), calls)
  {
    var n := p.replicas + 3;
    PerPodLength(p, p.replicas);
    TwoParts(cluster.defaulting, cluster.store, owner, HAWorkloadSteps(p, w), TailSteps(p), calls);
    ok := ReconcileHAWorkload(cluster, owner, p, w, calls[..n]);
    if ok {
      ok := ReconcileTail(cluster, owner, p, calls[n..]);
    }
  }

  /** The HA branch of Reconcile. */
  method ReconcileHA(cluster: Cluster, owner: string, p: Plan, render: Renderer, hash: string -> string,
                     build: string -> PodSpec, calls: seq<Call>) returns (ok: bool, configHash: string)
    requires |calls| == |HASteps(p, render, build(HAHash(p, render, hash)))|
    modifies cluster
    ensures (cluster.store, ok)
            == Run(cluster.defaulting, old(cluster.store), owner, HASteps(p, render, build(HAHash(p, render, hash))), calls)
    ensures configHash == HAHash(p, render, hash)
  {
    ghost var w := build(HAHash(p, render, hash));
    HASplits(p, render, w);
    TwoParts(cluster.defaulting, cluster.store, owner, HAFront(p, render), HABack(p, w), calls);
    var m := |HAConfigSteps(p, render, p.replicas)| + 1;
    ok, configHash := ReconcileHAFront(cluster, owner, p, render, hash, calls[..m]);
    if ok {
      ok := ReconcileHABack(cluster, owner, p, build(configHash), calls[m..]);
    }
  }

  method ReconcilePlain(cluster: Cluster, owner: string, p: Plan, config: string, w: PodSpec, calls: seq<Call>) returns (ok: bool)
    requires |calls| == |PlainSteps(p, config, w)|
    modifies cluster
    ensures (cluster.store, ok) == Run(cluster.defaulting, old(cluster.store), owner, PlainSteps(p, config, w), calls)
  {
    ghost var d, before, steps := cluster.defaulting, cluster.store, PlainSteps(p, config, w);
    assert steps == steps[..3] + TailSteps(p) && calls == calls[..3] + calls[3..];
    assert steps[..0] == [] && calls[..0] == [];
    var objects := [BuildConfigMap(p.namespace, ConfigMapName(p.cr, COMPONENT), p.cr, COMPONENT, config),
                    BuildServiceAccount(p.namespace, p.cr, COMPONENT),
                    BuildWorkload(Deployment, p.namespace, p.cr, COMPONENT, w)];
    ok := true;
    for i := 0 to 3
      invariant ok && (cluster.store, true) == Run(d, before, owner, steps[..i], calls[..i])
    {
      OneMore(d, before, owner, steps, calls, i);
      ok := cluster.ReconcileResource(owner, objects[i], calls[i]);
      if !ok {
        AbortSticks(d, before, owner, steps, calls, i + 1);
        return;
      }
    }
    ok := ReconcileTail(cluster, owner, p, calls[3..]);
    RunAppend(d, before, owner, steps[..3], calls[..3], TailSteps(p), calls[3..]);
  }

  /** The hash that goes into the pod template. */
  function ConfigHash(p: Plan, render: Renderer, hash: string -> string): string {
    if p.ha then HAHash(p, render, hash)
    else match render("") case Some(config) => hash(config) case None => ""
  }

  /** One reconcile of the resource: exactly the run of its desired steps, with the workload built from the hash. */
  method Reconcile(cluster: Cluster, owner: string, p: Plan, render: Renderer, hash: string -> string,
                   build: string -> PodSpec, calls: seq<Call>) returns (ok: bool, configHash: string)
    requires |calls| == |DesiredSteps(p, render, build(ConfigHash(p, render, hash)))|
    modifies cluster
    ensures (cluster.store, ok) == Run(cluster.defaulting, old(cluster.store), owner,
                                       DesiredSteps(p, render, build(ConfigHash(p, render, hash))), calls)
    ensures configHash == ConfigHash(p, render, hash)
  {
    if p.ha {
      ok, configHash := ReconcileHA(cluster, owner, p, render, hash, build, calls);
    } else {
      match render("") {
        case None =>
          assert DesiredSteps(p, render, build(""))[..0] == [];
          ok, configHash := false, "";
        case Some(config) =>
          configHash := hash(config);
          ok := ReconcilePlain(cluster, owner, p, config, build(configHash), calls);
      }
    }
  }
}
