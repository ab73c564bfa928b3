/**
 * What the DHCPv4 controller achieves over any number of reconciles: convergence under failures,
 * exactly what swallowed and foreign errors cost, and independence of other resources.
 */
module Convergence {
  import opened Options
  import opened Strings
  import opened Names
  import opened ApiServer
  import opened Runs
  import opened Outcomes
  import opened Builders
  import opened Templates
  import opened Controller

  // ---------- convergence of the resource ----------

  function WorkloadObject(p: Plan, w: PodSpec): Object {
    BuildWorkload(if p.ha then StatefulSet else Deployment, p.namespace, p.cr, COMPONENT, w)
  }

  predicate ChecksOf(p: Plan, render: Renderer) { if p.ha then p.hostsValid else render("").Some? }

  /** Where the workload stands in the list; the rest of the list does not depend on it. */
  lemma WorkloadPosition(p: Plan, render: Renderer, w: PodSpec, v: PodSpec) returns (k: nat)
    requires ChecksOf(p, render)
    ensures k < |DesiredSteps(p, render, w)| && DesiredSteps(p, render, w)[k] == Apply(WorkloadObject(p, w), true)
    ensures Variant(DesiredSteps(p, render, w), DesiredSteps(p, render, v), WorkloadObject(p, w).id)
  {
    if p.ha {
      k := |HAConfigSteps(p, render, p.replicas)| + 1 + |PerPodSteps(p, p.replicas)| + 2;
      HAPosition(p, render, w, k);
      HAPosition(p, render, v, k);
      SpliceVariant(HAUpToWorkload(p, render), WorkloadObject(p, w), WorkloadObject(p, v), TailSteps(p));
    } else {
      k := 2;
      PlainPosition(p, render("").value, w);
      PlainPosition(p, render("").value, v);
      SpliceVariant(PlainUpToWorkload(p, render("").value), WorkloadObject(p, w), WorkloadObject(p, v), TailSteps(p));
    }
  }

  function PlainUpToWorkload(p: Plan, config: string): seq<Step> {
    [Apply(BuildConfigMap(p.namespace, ConfigMapName(p.cr, COMPONENT), p.cr, COMPONENT, config), true), AccountStep(p)]
  }

  lemma PlainPosition(p: Plan, config: string, w: PodSpec)
    ensures |PlainUpToWorkload(p, config)| == 2
    ensures PlainSteps(p, config, w)
            == PlainUpToWorkload(p, config) + [Apply(BuildWorkload(Deployment, p.namespace, p.cr, COMPONENT, w), true)] + TailSteps(p)
  {
    var x := Apply(BuildWorkload(Deployment, p.namespace, p.cr, COMPONENT, w), true);
    var f := PlainUpToWorkload(p, config);
    assert f + [x] == [f[0], f[1], x];
  }

  lemma SpliceVariant(front: seq<Step>, x: Object, y: Object, back: seq<Step>)
    requires x.id == y.id && x.body.Workload? && y.body.Workload?
    ensures var a, b := front + [Apply(x, true)] + back, front + [Apply(y, true)] + back;
            |front| < |a| && a[|front|] == Apply(x, true) && Variant(a, b, x.id)
  {
  }

  /** The list of a resource with high availability up to its StatefulSet. */
  function HAUpToWorkload(p: Plan, render: Renderer): seq<Step> {
    HAConfigSteps(p, render, p.replicas) + [AccountStep(p)]
    + [Apply(BuildHeadlessService(Params(p, p.haPort)), true)] + PerPodSteps(p, p.replicas) + [Check(p.hostsValid)]
  }

  lemma HAPosition(p: Plan, render: Renderer, w: PodSpec, k: nat)
    requires k == |HAConfigSteps(p, render, p.replicas)| + 1 + |PerPodSteps(p, p.replicas)| + 2
    ensures |HAUpToWorkload(p, render)| == k
    ensures HASteps(p, render, w)
            == HAUpToWorkload(p, render) + [Apply(BuildWorkload(StatefulSet, p.namespace, p.cr, COMPONENT, w), true)] + TailSteps(p)
  {
    var a, b, c, e := HAConfigSteps(p, render, p.replicas), [AccountStep(p)], PerPodSteps(p, p.replicas), TailSteps(p);
    var h, x := [Apply(BuildHeadlessService(Params(p, p.haPort)), true)], [Check(p.hostsValid)];
    var y := [Apply(BuildWorkload(StatefulSet, p.namespace, p.cr, COMPONENT, w), true)];
    assert [x[0], y[0]] == x + y;
    Reassociate(a, b, h, c, x, y, e);
  }

  lemma Reassociate<T>(a: seq<T>, b: seq<T>, h: seq<T>, c: seq<T>, x: seq<T>, y: seq<T>, e: seq<T>)
    ensures a + b + (h + c + (x + y)) + e == a + b + h + c + x + y + e
  {
  }

  /** One reconcile: the workload it wants and what its calls come to. */
  datatype Pass = Pass(workload: PodSpec, calls: seq<Call>)

  function EditOf(p: Plan, render: Renderer, pass: Pass): Edit { Edit(DesiredSteps(p, render, pass.workload), pass.calls) }

  function EditsOf(p: Plan, render: Renderer, passes: seq<Pass>): (r: seq<Edit>)
    ensures |r| == |passes| && forall i | 0 <= i < |passes| :: r[i] == EditOf(p, render, passes[i])
  {
    seq(|passes|, i requires 0 <= i < |passes| => EditOf(p, render, passes[i]))
  }

  predicate ValidPasses(p: Plan, render: Renderer, passes: seq<Pass>) {
    forall pass | pass in passes :: |pass.calls| == |DesiredSteps(p, render, pass.workload)| && ValidCalls(pass.calls)
  }

  lemma EditsAreVariants(p: Plan, render: Renderer, w: PodSpec, passes: seq<Pass>) returns (k: nat)
    requires ChecksOf(p, render) && ValidPasses(p, render, passes)
    ensures ValidEdits(EditsOf(p, render, passes))
    ensures k < |DesiredSteps(p, render, w)| && DesiredSteps(p, render, w)[k] == Apply(WorkloadObject(p, w), true)
    ensures Variants(DesiredSteps(p, render, w), EditsOf(p, render, passes), WorkloadObject(p, w).id)
  {
    k := WorkloadPosition(p, render, w, w);
    var edits := EditsOf(p, render, passes);
    forall e | e in edits
      ensures |e.steps| == |e.calls| && ValidSteps(e.steps) && ValidCalls(e.calls)
      ensures Variant(DesiredSteps(p, render, w), e.steps, WorkloadObject(p, w).id)
    {
      var i :| 0 <= i < |edits| && edits[i] == e;
      assert passes[i] in passes;
      DesiredDistinct(p, render, passes[i].workload);
      var _ := WorkloadPosition(p, render, w, passes[i].workload);
    }
  }

  /** The workload in the store is the one some reconcile of the list wanted. */
  ghost predicate WorkloadOfSome(d: Body -> Body, store: Store, owner: string, p: Plan, passes: seq<Pass>) {
    exists pass :: pass in passes && Conforms(d, store, owner, WorkloadObject(p, pass.workload))
  }

  /**
   * Any number of reconciles of one resource, failing anywhere, each wanting a workload of its
   * own: every other object converges for good, and the workload in the store is untouched or the one
   * some of these reconciles wanted, which it is from the first failure-free reconcile on.
   */
  lemma Dhcp4Converges(d: Body -> Body, store: Store, owner: string, p: Plan, render: Renderer, w: PodSpec, passes: seq<Pass>)
    requires OnlyDefaults(d) && ValidStore(d, store) && ChecksOf(p, render) && ValidPasses(p, render, passes)
    requires AllUnobstructed(store, owner, DesiredSteps(p, render, w))
    ensures ValidEdits(EditsOf(p, render, passes))
    ensures var after, id := Evolve(d, store, owner, EditsOf(p, render, passes)), WorkloadObject(p, w).id;
            && FixedPart(d, store, after, owner, DesiredSteps(p, render, w), id, SomeFailureFree(EditsOf(p, render, passes)))
            && (SameObject(store, after, id) || WorkloadOfSome(d, after, owner, p, passes))
            && (SomeFailureFree(EditsOf(p, render, passes)) ==> WorkloadOfSome(d, after, owner, p, passes))
  {
    var k := EditsAreVariants(p, render, w, passes);
    var edits := EditsOf(p, render, passes);
    DesiredDistinct(p, render, w);
    VariantsConverge(d, store, owner, DesiredSteps(p, render, w), k, edits);
    if SomeVariantConforms(d, Evolve(d, store, owner, edits), owner, edits, WorkloadObject(p, w).id) {
      VariantIsWorkload(d, Evolve(d, store, owner, edits), owner, p, render, w, passes);
    }
  }

  lemma VariantIsWorkload(d: Body -> Body, store: Store, owner: string, p: Plan, render: Renderer, w: PodSpec, passes: seq<Pass>)
    requires ChecksOf(p, render)
    requires SomeVariantConforms(d, store, owner, EditsOf(p, render, passes), WorkloadObject(p, w).id)
    ensures WorkloadOfSome(d, store, owner, p, passes)
  {
    var edits, id := EditsOf(p, render, passes), WorkloadObject(p, w).id;
    var e, s :| e in edits && s in e.steps && s.Apply? && s.desired.id == id && Conforms(d, store, owner, s.desired);
    var i :| 0 <= i < |edits| && edits[i] == e;
    var pass := passes[i];
    var k := WorkloadPosition(p, render, pass.workload, pass.workload);
    DesiredDistinct(p, render, pass.workload);
    var j :| 0 <= j < |e.steps| && e.steps[j] == s;
    assert j == k;
    assert pass in passes;
  }

  /** When all reconciles want the same workload, it converges like everything else. */
  lemma SameWorkloadConverges(d: Body -> Body, store: Store, owner: string, p: Plan, render: Renderer, w: PodSpec, passes: seq<Pass>)
    requires OnlyDefaults(d) && ValidStore(d, store) && ChecksOf(p, render) && ValidPasses(p, render, passes)
    requires AllUnobstructed(store, owner, DesiredSteps(p, render, w))
    requires forall pass | pass in passes :: pass.workload == w
    ensures ValidEdits(EditsOf(p, render, passes))
    ensures var after := Evolve(d, store, owner, EditsOf(p, render, passes));
            && Preserved(d, store, after, owner, DesiredSteps(p, render, w))
            && (SomeFailureFree(EditsOf(p, render, passes)) ==> AllConform(d, after, owner, DesiredSteps(p, render, w)))
  {
    var _ := EditsAreVariants(p, render, w, passes);
    DesiredDistinct(p, render, w);
    SameEdits(d, store, owner, DesiredSteps(p, render, w), EditsOf(p, render, passes));
  }

  lemma {:induction false} SameEdits(d: Body -> Body, store: Store, owner: string, steps: seq<Step>, edits: seq<Edit>)
    requires OnlyDefaults(d) && ValidStore(d, store) && ValidSteps(steps) && DistinctIds(steps) && ChecksPass(steps)
    requires AllUnobstructed(store, owner, steps) && ValidEdits(edits) && forall e | e in edits :: e.steps == steps
    ensures Preserved(d, store, Evolve(d, store, owner, edits), owner, steps)
    ensures SomeFailureFree(edits) ==> AllConform(d, Evolve(d, store, owner, edits), owner, steps)
  {
    if edits != [] {
      var n := |edits| - 1;
      SameEdits(d, store, owner, steps, edits[..n]);
      assert edits[n] in edits;
      Convergence(d, Evolve(d, store, owner, edits[..n]), owner, steps, edits[n].calls);
      assert SomeFailureFree(edits) ==> SomeFailureFree(edits[..n]) || FailureFree(edits[n].calls);
    }
  }

  // ---------- what the code's error handling means ----------

  /** How many ordinals below `i` render, that is, the position of the ConfigMap of ordinal `i`. */
  function ConfigMapPosition(p: Plan, render: Renderer, i: nat): nat { |HAConfigSteps(p, render, i)| }

  lemma {:induction false} ConfigStepsNeverAbort(d: Body -> Body, store: Store, owner: string, p: Plan, render: Renderer,
                                                 n: nat, calls: seq<Call>)
    requires |calls| == |HAConfigSteps(p, render, n)|
    ensures Run(d, store, owner, HAConfigSteps(p, render, n), calls).1
  {
    if n > 0 {
      var front := HAConfigSteps(p, render, n - 1);
      if render(ServerName(p, n - 1)).Some? {
        ConfigStepsNeverAbort(d, store, owner, p, render, n - 1, calls[..|front|]);
        var steps := HAConfigSteps(p, render, n);
        assert steps[..|steps| - 1] == front;
      } else {
        assert HAConfigSteps(p, render, n) == front;
        ConfigStepsNeverAbort(d, store, owner, p, render, n - 1, calls);
      }
    }
  }

  lemma ConfigMapAt(p: Plan, render: Renderer, w: PodSpec, i: nat)
    requires p.ha && i < p.replicas && render(ServerName(p, i)).Some?
    ensures var k, steps := ConfigMapPosition(p, render, i), DesiredSteps(p, render, w);
            && k < |steps| && steps[k] == Apply(HAConfigMap(p, i, render(ServerName(p, i)).value), false)
            && steps[..k] == HAConfigSteps(p, render, i)
  {
    var front, next := HAConfigSteps(p, render, i), HAConfigSteps(p, render, i + 1);
    HAConfigStepsPrefix(p, render, i, i + 1);
    HAConfigStepsPrefix(p, render, i + 1, p.replicas);
    var all := HAConfigSteps(p, render, p.replicas);
    assert next == front + [Apply(HAConfigMap(p, i, render(ServerName(p, i)).value), false)];
    assert all[..|next|] == next && all[|front|] == next[|front|];
    PrefixOfHASteps(p, render, w, all);
  }

  lemma PrefixOfHASteps(p: Plan, render: Renderer, w: PodSpec, all: seq<Step>)
    requires p.ha && all == HAConfigSteps(p, render, p.replicas)
    ensures all <= DesiredSteps(p, render, w)
  {
  }

  /**
   * Errors on HA ConfigMaps are swallowed. After every run, whatever else happens in it and
   * whatever it returns, the ConfigMap of an ordinal conforms exactly if it did before, or if its own
   * call was readable and its write took effect: a run can report success without it.
   */
  lemma SwallowedConfigMapError(d: Body -> Body, store: Store, owner: string, p: Plan, render: Renderer, w: PodSpec,
                                calls: seq<Call>, i: nat)
    requires OnlyDefaults(d) && ValidStore(d, store) && |calls| == |DesiredSteps(p, render, w)| && ValidCalls(calls)
    requires p.ha && i < p.replicas && render(ServerName(p, i)).Some?
    requires Unobstructed(store, owner, HAConfigMap(p, i, render(ServerName(p, i)).value))
    ensures ConfigMapPosition(p, render, i) < |calls|
    ensures var cm, c := HAConfigMap(p, i, render(ServerName(p, i)).value), calls[ConfigMapPosition(p, render, i)];
            Conforms(d, Run(d, store, owner, DesiredSteps(p, render, w), calls).0, owner, cm)
            <==> Conforms(d, store, owner, cm) || (c.readable && !c.write.Rejected?)
  {
    var k := ConfigMapPosition(p, render, i);
    DesiredDistinct(p, render, w);
    ConfigMapAt(p, render, w, i);
    ConfigStepsNeverAbort(d, store, owner, p, render, i, calls[..k]);
    StepConformsExactly(d, store, owner, DesiredSteps(p, render, w), calls, k);
  }

  /** A reconcile without failing calls reaches its end exactly when all checks pass and no fatal object is foreign. */
  lemma ReconcileEndsExactly(d: Body -> Body, store: Store, owner: string, p: Plan, render: Renderer, w: PodSpec, calls: seq<Call>)
    requires OnlyDefaults(d) && ValidStore(d, store) && |calls| == |DesiredSteps(p, render, w)| && FailureFree(calls)
    ensures Run(d, store, owner, DesiredSteps(p, render, w), calls).1
            <==> ChecksOf(p, render) && !FatalForeign(store, owner, DesiredSteps(p, render, w))
  {
    DesiredDistinct(p, render, w);
    EndsExactly(d, store, owner, DesiredSteps(p, render, w), calls);
  }

  /** Which errors end a reconcile: all but those on ConfigMaps of ordinals, on the monitor and on the Route. */
  predicate EndsReconcile(p: Plan, kind: Kind) { kind !in {PodMonitor, Route} && !(p.ha && kind == ConfigMap) }

  lemma FatalKinds(p: Plan, render: Renderer, w: PodSpec, s: Step)
    requires s in DesiredSteps(p, render, w) && s.Apply?
    ensures s.fatal <==> EndsReconcile(p, s.desired.id.kind)
  {
    if s in TailSteps(p) {
      TailFatal(p, s);
    } else if p.ha {
      HAFatal(p, render, w, s);
    }
  }

  lemma TailFatal(p: Plan, s: Step)
    requires s in TailSteps(p)
    ensures s.Apply? && s.desired.id.kind != ConfigMap && (s.fatal <==> s.desired.id.kind !in {PodMonitor, Route})
  {
    if s in StorkSteps(p) {
      StorkFatal(p, s);
    }
  }

  lemma StorkFatal(p: Plan, s: Step)
    requires s in StorkSteps(p)
    ensures s.Apply? && s.desired.id.kind != ConfigMap && (s.fatal <==> s.desired.id.kind !in {PodMonitor, Route})
  {
  }

  lemma HAFatal(p: Plan, render: Renderer, w: PodSpec, s: Step)
    requires p.ha && s in HASteps(p, render, w) && s !in TailSteps(p) && s.Apply?
    ensures s.fatal <==> EndsReconcile(p, s.desired.id.kind)
  {
    if s in HAConfigSteps(p, render, p.replicas) {
      HAConfigsDistinct(p, render, p.replicas);
      ConfigsNotFatal(p, render, p.replicas, s);
    } else if s in PerPodSteps(p, p.replicas) {
      PerPodDistinct(p, p.replicas);
      PerPodFatal(p, p.replicas, s);
    }
  }

  lemma {:induction false} ConfigsNotFatal(p: Plan, render: Renderer, n: nat, s: Step)
    requires s in HAConfigSteps(p, render, n)
    ensures s.Apply? && !s.fatal
  {
    if s in HAConfigSteps(p, render, n - 1) {
      ConfigsNotFatal(p, render, n - 1, s);
    }
  }

  lemma {:induction false} PerPodFatal(p: Plan, n: nat, s: Step)
    requires s in PerPodSteps(p, n)
    ensures s.Apply? && s.fatal
  {
    if s in PerPodSteps(p, n - 1) {
      PerPodFatal(p, n - 1, s);
    }
  }

  /**
   * Whatever fails in a reconcile, it returns without error exactly when the host names are valid
   * or the configuration renders, and every call succeeds but those on ConfigMaps of ordinals, on
   * the monitor and on the Route; a call succeeds or fails as it would on the store at the start.
   */
  lemma ReconcileSucceedsExactly(d: Body -> Body, store: Store, owner: string, p: Plan, render: Renderer, w: PodSpec, calls: seq<Call>)
    requires OnlyDefaults(d) && ValidStore(d, store) && |calls| == |DesiredSteps(p, render, w)| && ValidCalls(calls)
    ensures var steps := DesiredSteps(p, render, w);
            Run(d, store, owner, steps, calls).1 <==>
              && ChecksOf(p, render)
              && forall i | 0 <= i < |steps| && steps[i].Apply? && EndsReconcile(p, steps[i].desired.id.kind) ::
                   ReconcileOne(d, store, owner, steps[i].desired, calls[i]).1
  {
    var steps := DesiredSteps(p, render, w);
    DesiredDistinct(p, render, w);
    SucceedsExactly(d, store, owner, steps, calls);
    forall i | 0 <= i < |steps| && steps[i].Apply? ensures steps[i].fatal <==> EndsReconcile(p, steps[i].desired.id.kind) {
      FatalKinds(p, render, w, steps[i]);
    }
    ChecksAt(steps);
  }

  lemma ChecksAt(steps: seq<Step>)
    ensures ChecksPass(steps) <==> forall i | 0 <= i < |steps| && steps[i].Check? :: steps[i].ok
  {
    if forall i | 0 <= i < |steps| && steps[i].Check? :: steps[i].ok {
      forall s | s in steps && s.Check? ensures s.ok {
        var i :| 0 <= i < |steps| && steps[i] == s;
      }
    }
  }

  /**
   * The service account name carries no component: two resources of the same name but different
   * kinds want the same account under different owners. Whoever comes second, with or without
   * high availability, never gets past it, and no reconcile of it creates anything but ConfigMaps.
   */
  lemma SharedServiceAccountBlocks(d: Body -> Body, store: Store, owner: string, p: Plan, render: Renderer, w: PodSpec, calls: seq<Call>)
    requires OnlyDefaults(d) && ValidStore(d, store)
    requires |calls| == |DesiredSteps(p, render, w)| && ValidCalls(calls)
    requires ForeignIn(store, owner, Id(ServiceAccount, p.namespace, ServiceAccountName(p.cr)))
    ensures var (after, ok) := Run(d, store, owner, DesiredSteps(p, render, w), calls);
            !ok && forall id: Id | id.kind != ConfigMap :: SameObject(store, after, id)
  {
    DesiredDistinct(p, render, w);
    if p.ha || render("").Some? {
      var n := AccountPosition(p, render, w);
      BlockedBehindConfigMaps(d, store, owner, DesiredSteps(p, render, w), calls, n);
    } else {
      assert DesiredSteps(p, render, w)[..0] == [];
    }
  }

  lemma BlockedBehindConfigMaps(d: Body -> Body, store: Store, owner: string, steps: seq<Step>, calls: seq<Call>, n: nat)
    requires OnlyDefaults(d) && ValidStore(d, store) && ValidSteps(steps) && DistinctIds(steps)
    requires |calls| == |steps| && ValidCalls(calls) && n < |steps| && steps[n].Apply? && steps[n].fatal
    requires ForeignIn(store, owner, steps[n].desired.id)
    requires forall s | s in steps[..n] :: s.Apply? && s.desired.id.kind == ConfigMap
    ensures var (after, ok) := Run(d, store, owner, steps, calls);
            !ok && forall id: Id | id.kind != ConfigMap :: SameObject(store, after, id)
  {
    var a, s, b := steps[..n], steps[n], steps[n + 1..];
    assert steps == a + [s] + b;
    assert forall x | x in a :: x in steps;
    NotMentionedBefore(steps, n);
    RunLeavesAlone(d, store, owner, a, calls[..n], s.desired.id);
    ForeignBlocks(d, store, owner, a, s, b, calls);
    forall id: Id | id.kind != ConfigMap ensures SameObject(store, Run(d, store, owner, a, calls[..n]).0, id) {
      RunLeavesAlone(d, store, owner, a, calls[..n], id);
    }
  }

  /** The account comes right behind the ConfigMaps. */
  lemma AccountPosition(p: Plan, render: Renderer, w: PodSpec) returns (n: nat)
    requires p.ha || render("").Some?
    ensures var steps := DesiredSteps(p, render, w);
            && n < |steps| && steps[n] == AccountStep(p)
            && forall s | s in steps[..n] :: s.Apply? && s.desired.id.kind == ConfigMap
  {
    if p.ha {
      var configs := HAConfigSteps(p, render, p.replicas);
      n := |configs|;
      HAConfigsDistinct(p, render, p.replicas);
      PrefixOfHASteps(p, render, w, configs);
      AccountBehind(configs, AccountStep(p), HAWorkloadSteps(p, w), TailSteps(p));
      assert DesiredSteps(p, render, w)[..n] == configs;
    } else {
      n := 1;
    }
  }

  lemma AccountBehind(a: seq<Step>, s: Step, c: seq<Step>, e: seq<Step>)
    ensures |a| < |a + [s] + c + e| && (a + [s] + c + e)[|a|] == s
  {
  }

  // ---------- different resources ----------

  /** The names of everything a resource applies. */
  lemma NamesOfSteps(p: Plan, render: Renderer, w: PodSpec, s: Step)
    requires s in DesiredSteps(p, render, w) && s.Apply?
    ensures s.desired.id.namespace == p.namespace
    ensures s.desired.id.kind == ServiceAccount ==> s.desired.id.name == ServiceAccountName(p.cr)
    ensures s.desired.id.kind != ServiceAccount ==> exists r: Role :: s.desired.id.name == RoleName(p.cr, COMPONENT, r)
  {
    if p.ha {
      NamesOfHASteps(p, render, w, s);
    } else {
      assert RoleName(p.cr, COMPONENT, Plain) == ConfigMapName(p.cr, COMPONENT);
      if s in TailSteps(p) {
        NamesOfTail(p, s);
      }
    }
  }

  lemma NamesOfTail(p: Plan, s: Step)
    requires s in TailSteps(p)
    ensures s.Apply? && s.desired.id.namespace == p.namespace && s.desired.id.kind != ServiceAccount
    ensures exists r: Role :: s.desired.id.name == RoleName(p.cr, COMPONENT, r)
  {
    assert RoleName(p.cr, COMPONENT, Plain) == ServiceName(p.cr, COMPONENT);
    assert RoleName(p.cr, COMPONENT, StorkMetrics) == StorkMetricsServiceName(p.cr, COMPONENT);
  }

  lemma NamesOfHASteps(p: Plan, render: Renderer, w: PodSpec, s: Step)
    requires s in HASteps(p, render, w) && s.Apply?
    ensures s.desired.id.namespace == p.namespace
    ensures s.desired.id.kind == ServiceAccount ==> s.desired.id.name == ServiceAccountName(p.cr)
    ensures s.desired.id.kind != ServiceAccount ==> exists r: Role :: s.desired.id.name == RoleName(p.cr, COMPONENT, r)
  {
    assert RoleName(p.cr, COMPONENT, Plain) == StatefulSetName(p.cr, COMPONENT);
    assert RoleName(p.cr, COMPONENT, Headless) == HeadlessServiceName(p.cr, COMPONENT);
    if s in HAConfigSteps(p, render, p.replicas) {
      HAConfigsDistinct(p, render, p.replicas);
      InNamespace(p, render, p.replicas, s);
      var i: nat :| s.desired.id.name == HAConfigMapName(p.cr, COMPONENT, i);
      SameFormat(p.cr, i);
      assert s.desired.id.name == RoleName(p.cr, COMPONENT, Ordinal(i));
    } else if s in PerPodSteps(p, p.replicas) {
      PerPodDistinct(p, p.replicas);
      InNamespace(p, render, p.replicas, s);
      var i: nat :| s.desired.id.name == RoleName(p.cr, COMPONENT, Ordinal(i));
    } else if s in TailSteps(p) {
      NamesOfTail(p, s);
    }
  }

  lemma SameFormat(cr: string, i: nat)
    ensures HAConfigMapName(cr, COMPONENT, i) == RoleName(cr, COMPONENT, Ordinal(i))
  {
  }

  lemma {:induction false} InNamespace(p: Plan, render: Renderer, n: nat, s: Step)
    requires s in HAConfigSteps(p, render, n) || s in PerPodSteps(p, n)
    ensures s.Apply? && s.desired.id.namespace == p.namespace
  {
    if s in HAConfigSteps(p, render, n - 1) || s in PerPodSteps(p, n - 1) {
      InNamespace(p, render, n - 1, s);
    }
  }

  /** Two resources of different names or namespaces want no object in common. */
  lemma PlansApart(p: Plan, render: Renderer, w: PodSpec, p': Plan, render': Renderer, w': PodSpec, id: Id)
    requires Mentions(DesiredSteps(p, render, w), id) && Mentions(DesiredSteps(p', render', w'), id)
    ensures p.namespace == p'.namespace && p.cr == p'.cr
  {
    var s :| s in DesiredSteps(p, render, w) && s.Apply? && s.desired.id == id;
    var t :| t in DesiredSteps(p', render', w') && t.Apply? && t.desired.id == id;
    NamesOfSteps(p, render, w, s);
    NamesOfSteps(p', render', w', t);
    if id.kind == ServiceAccount {
      CrNameDecodes(p.cr, p'.cr);
    } else {
      var r: Role :| id.name == RoleName(p.cr, COMPONENT, r);
      var q: Role :| id.name == RoleName(p'.cr, COMPONENT, q);
      RoleNameDecodes(p.cr, COMPONENT, r, p'.cr, COMPONENT, q);
    }
  }

  /** No run of one resource, failing anywhere, touches an object another resource wants. */
  lemma ResourcesLeaveEachOtherAlone(d: Body -> Body, store: Store, owner: string, p: Plan, render: Renderer, w: PodSpec,
                                     calls: seq<Call>, p': Plan, render': Renderer, w': PodSpec)
    requires OnlyDefaults(d) && ValidStore(d, store) && |calls| == |DesiredSteps(p, render, w)| && ValidCalls(calls)
    requires (p.namespace, p.cr) != (p'.namespace, p'.cr)
    ensures var after := Run(d, store, owner, DesiredSteps(p, render, w), calls).0;
            && (forall id | Mentions(DesiredSteps(p', render', w'), id) :: SameObject(store, after, id))
            && (forall owner' :: AllConform(d, after, owner', DesiredSteps(p', render', w'))
                                 <==> AllConform(d, store, owner', DesiredSteps(p', render', w')))
  {
    var after := Run(d, store, owner, DesiredSteps(p, render, w), calls).0;
    DesiredDistinct(p, render, w);
    forall id | Mentions(DesiredSteps(p', render', w'), id) ensures SameObject(store, after, id) {
      if Mentions(DesiredSteps(p, render, w), id) {
        PlansApart(p, render, w, p', render', w', id);
      }
      RunLeavesAlone(d, store, owner, DesiredSteps(p, render, w), calls, id);
    }
    SameConformity(d, store, after, DesiredSteps(p', render', w'));
  }

  lemma SameConformity(d: Body -> Body, store: Store, after: Store, steps: seq<Step>)
    requires forall id | Mentions(steps, id) :: SameObject(store, after, id)
    ensures forall owner :: AllConform(d, after, owner, steps) <==> AllConform(d, store, owner, steps)
  {
    forall s: Step | s in steps && s.Apply? ensures SameObject(store, after, s.desired.id) {
      assert Mentions(steps, s.desired.id);
    }
  }
}
