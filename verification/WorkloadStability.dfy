/**
 * How far the workload of a DHCPv4 resource is stable from reconcile to reconcile: it follows the
 * order of Go maps and the results of lookups whose errors are swallowed.
 */
module WorkloadStability {
  import opened Options
  import opened Strings
  import opened Rewriting
  import opened Names
  import opened HostNames
  import opened Spec
  import opened Secrets
  import opened ApiServer
  import opened Builders
  import opened Templates
  import opened PodTemplate
  import opened HaWiring
  import opened StorkAgent
  import opened Runs
  import opened Outcomes
  import opened Controller
  import opened Convergence
  import opened Dhcp4Server
  import Nad

  // ---------- orders of a map ----------

  /** There is an order of the peer commands. */
  ghost function SomeOps(m: map<string, string>): (ops: seq<ScriptOp>)
    ensures Enumerates(ops, m) && |ops| == |m|
    decreases |m|
  {
    if m == map[] then []
    else
      var h :| h in m;
      var rest := SomeOps(m - {h});
      MoreOps(m, h, rest);
      rest + [ResolvePeer(h, m[h])]
  }

  lemma MoreOps(m: map<string, string>, h: string, rest: seq<ScriptOp>)
    requires h in m && Enumerates(rest, m - {h}) && |rest| == |m - {h}|
    ensures Enumerates(rest + [ResolvePeer(h, m[h])], m) && |rest| + 1 == |m|
  {
    forall k | 0 <= k < |rest| ensures rest[k] != ResolvePeer(h, m[h]) {
      assert rest[k] in rest;
    }
    forall k | k in m ensures ResolvePeer(k, m[k]) in rest + [ResolvePeer(h, m[h])] {
      if k != h { assert k in m - {h} && (m - {h})[k] == m[k]; }
    }
    assert (m - {h}).Keys == m.Keys - {h};
    assert |m.Keys - {h}| == |m.Keys| - 1;
  }

  function Swapped<T>(s: seq<T>): seq<T>
    requires |s| >= 2
  {
    [s[1], s[0]] + s[2..]
  }

  lemma SwappedKeeps<T>(s: seq<T>)
    requires |s| >= 2 && Distinct(s)
    ensures Distinct(Swapped(s)) && Swapped(s) != s && forall x :: x in Swapped(s) <==> x in s
  {
    var t := Swapped(s);
    assert t[0] == s[1] && s[0] != s[1];
    forall i, j | 0 <= i < j < |t| ensures t[i] != t[j] {
    }
    forall x ensures x in t <==> x in s {
      if x in t {
        var i :| 0 <= i < |t| && t[i] == x;
        assert x == s[if i == 0 then 1 else if i == 1 then 0 else i];
      }
      if x in s {
        var i :| 0 <= i < |s| && s[i] == x;
        assert x == t[if i == 0 then 1 else if i == 1 then 0 else i];
      }
    }
  }

  /** A map with two entries has two orders. */
  lemma TwoOrdersOfPeers(m: map<string, string>) returns (ops: seq<ScriptOp>, other: seq<ScriptOp>)
    requires |m| >= 2
    ensures Enumerates(ops, m) && Enumerates(other, m) && ops != other
  {
    ops := SomeOps(m);
    other := Swapped(ops);
    SwappedKeeps(ops);
  }

  lemma TwoOrdersOfArms(m: map<nat, string>) returns (arms: seq<Arm>, other: seq<Arm>)
    requires |m| >= 2
    ensures Nad.EnumeratesArms(arms, m) && Nad.EnumeratesArms(other, m) && arms != other
  {
    arms := Nad.SomeArms(m);
    other := Swapped(arms);
    SwappedKeeps(arms);
    ArmsByMembers(arms, other, m);
  }

  lemma ArmsByMembers(arms: seq<Arm>, other: seq<Arm>, m: map<nat, string>)
    requires Nad.EnumeratesArms(arms, m) && Distinct(other) && forall x :: x in other <==> x in arms
    ensures Nad.EnumeratesArms(other, m)
  {
  }

  lemma FirstMembers<T>(s: seq<T>)
    ensures s != [] ==> s[0] in s
    ensures Distinct(s) && |s| >= 2 ==> s[0] != s[1]
  {
  }

  lemma AtMostOne<K, V>(m: map<K, V>, h: K, k: K)
    requires |m| <= 1 && h in m && k in m
    ensures h == k
  {
    if h != k {
      assert {h, k} <= m.Keys;
      SubsetSize({h, k}, m.Keys);
    }
  }

  lemma SubsetSize<K>(a: set<K>, b: set<K>)
    requires a <= b
    ensures |a| <= |b|
  {
    assert b == a + (b - a);
  }

  /** A map with at most one entry has one order. */
  lemma OneOrderOfPeers(ops: seq<ScriptOp>, other: seq<ScriptOp>, m: map<string, string>)
    requires |m| <= 1 && Enumerates(ops, m) && Enumerates(other, m)
    ensures ops == other
  {
    if m == map[] {
      FirstMembers(ops);
      FirstMembers(other);
    } else {
      var h :| h in m;
      OnlyOp(ops, m, h);
      OnlyOp(other, m, h);
    }
  }

  lemma OnlyOp(ops: seq<ScriptOp>, m: map<string, string>, h: string)
    requires |m| <= 1 && h in m && Enumerates(ops, m)
    ensures ops == [ResolvePeer(h, m[h])]
  {
    forall i | 0 <= i < |ops| ensures ops[i] == ResolvePeer(h, m[h]) {
      assert ops[i] in ops;
      AtMostOne(m, ops[i].configHost, h);
    }
    assert ResolvePeer(h, m[h]) in ops;
    FirstMembers(ops);
  }

  lemma OneOrderOfArms(arms: seq<Arm>, other: seq<Arm>, m: map<nat, string>)
    requires |m| <= 1 && Nad.EnumeratesArms(arms, m) && Nad.EnumeratesArms(other, m)
    ensures arms == other
  {
    if m == map[] {
      FirstMembers(arms);
      FirstMembers(other);
    } else {
      var i :| i in m;
      OnlyArm(arms, m, i);
      OnlyArm(other, m, i);
    }
  }

  lemma OnlyArm(arms: seq<Arm>, m: map<nat, string>, i: nat)
    requires |m| <= 1 && i in m && Nad.EnumeratesArms(arms, m)
    ensures arms == [Arm(Decimal(i), m[i])]
  {
    forall k | 0 <= k < |arms| ensures arms[k] == Arm(Decimal(i), m[i]) {
      assert arms[k] in arms;
      var j: nat :| j in m && arms[k] == Arm(Decimal(j), m[j]);
      AtMostOne(m, j, i);
    }
    assert Arm(Decimal(i), m[i]) in arms;
    FirstMembers(arms);
  }

  // ---------- when two reconciles want the same workload ----------

  predicate Guarded(s: Server) { Nad.NadGuard(IfaceOf(s), SubnetOf(s), COMMAND) }

  function StaticOf(s: Server): map<nat, string> { Nad.StaticAddresses(FilledPeers(s)) }

  /** The orders the two reconciles saw are the same as far as they reach the workload. */
  predicate SameOrders(s: Server, v: Visit, u: Visit) {
    HA(s) ==> v.peerOps == u.peerOps && (Guarded(s) && StaticOf(s) != map[] ==> v.arms == u.arms)
  }

  lemma WorkloadsEqualExactly(s: Server, world: World, v: Visit, u: Visit, configHash: string)
    ensures WorkloadOf(s, world, v, configHash) == WorkloadOf(s, world, u, configHash)
            <==> SameOrders(s, v, u) && LookupsAgree(s.stork, v.lookups, u.lookups)
  {
    SidecarsAgree(s.stork, v.lookups, u.lookups);
    if HA(s) {
      TemplatesEqualExactly(ParamsOf(s, world), v.peerOps, u.peerOps);
    }
  }

  lemma TemplatesEqualExactly(p: StatefulSetParams, ops: seq<ScriptOp>, other: seq<ScriptOp>)
    ensures StatefulSetTemplate(p, ops) == StatefulSetTemplate(p, other) <==> ops == other
  {
    var x, y := StatefulSetTemplate(p, ops).script, StatefulSetTemplate(p, other).script;
    if x == y {
      assert |ops| == |other|;
      assert x[..|ops|] == ops && y[..|other|] == other;
    }
  }

  /** There is only one order in which the maps of this resource can be visited. */
  predicate OneOrder(s: Server, world: World) {
    HA(s) ==> |PeerHosts(s, world)| <= 1 && (Guarded(s) ==> |StaticOf(s)| <= 1)
  }

  /** Whatever orders two reconciles with these lookups see, they want the same workload. */
  ghost predicate AlwaysSameWorkload(s: Server, world: World, l: Lookups, m: Lookups, configHash: string) {
    forall v, u | ValidVisit(s, world, v) && ValidVisit(s, world, u) && v.lookups == l && u.lookups == m ::
      WorkloadOf(s, world, v, configHash) == WorkloadOf(s, world, u, configHash)
  }

  lemma SomeVisit(s: Server, world: World, l: Lookups) returns (v: Visit)
    ensures ValidVisit(s, world, v) && v.lookups == l
  {
    v := Visit(SomeOps(PeerHosts(s, world)), Nad.SomeArms(StaticOf(s)), l);
  }

  lemma TwoOrders(s: Server, world: World, l: Lookups, m: Lookups) returns (v: Visit, u: Visit)
    requires !OneOrder(s, world)
    ensures ValidVisit(s, world, v) && ValidVisit(s, world, u) && v.lookups == l && u.lookups == m
    ensures !SameOrders(s, v, u)
  {
    v := SomeVisit(s, world, l);
    u := SomeVisit(s, world, m);
    if |PeerHosts(s, world)| >= 2 {
      var ops, other := TwoOrdersOfPeers(PeerHosts(s, world));
      v, u := v.(peerOps := ops), u.(peerOps := other);
    } else {
      var arms, other := TwoOrdersOfArms(StaticOf(s));
      v, u := v.(arms := arms), u.(arms := other);
    }
  }

  /**
   * The desired workload is the same in every reconcile exactly when the peer map has at most one
   * entry, so has the map of static addresses if the pods take addresses at all, and Stork is
   * off or its lookups lead to the same server and token.
   */
  lemma SameWorkloadExactly(s: Server, world: World, l: Lookups, m: Lookups, configHash: string)
    requires HA(s) ==> HostsValid(FilledPeers(s), world.parse)
    ensures AlwaysSameWorkload(s, world, l, m, configHash) <==> OneOrder(s, world) && LookupsAgree(s.stork, l, m)
  {
    if !OneOrder(s, world) {
      var v, u := TwoOrders(s, world, l, m);
      WorkloadsEqualExactly(s, world, v, u, configHash);
    } else if !LookupsAgree(s.stork, l, m) {
      var v := SomeVisit(s, world, l);
      var u := SomeVisit(s, world, m);
      WorkloadsEqualExactly(s, world, v, u, configHash);
    } else {
      forall v, u | ValidVisit(s, world, v) && ValidVisit(s, world, u) && v.lookups == l && u.lookups == m
        ensures WorkloadOf(s, world, v, configHash) == WorkloadOf(s, world, u, configHash)
      {
        OrdersAgree(s, world, v, u);
        WorkloadsEqualExactly(s, world, v, u, configHash);
      }
    }
  }

  lemma OrdersAgree(s: Server, world: World, v: Visit, u: Visit)
    requires HA(s) ==> HostsValid(FilledPeers(s), world.parse)
    requires OneOrder(s, world) && ValidVisit(s, world, v) && ValidVisit(s, world, u)
    ensures SameOrders(s, v, u)
  {
    if HA(s) {
      OneOrderOfPeers(v.peerOps, u.peerOps, PeerHosts(s, world));
      if Guarded(s) {
        OneOrderOfArms(v.arms, u.arms, StaticOf(s));
      }
    }
  }

  // ---------- what happens otherwise ----------

  /** A stored workload carries what the operator built, for one workload only. */
  lemma OneWorkloadConforms(d: Body -> Body, store: Store, owner: string, p: Plan, w: PodSpec, x: PodSpec)
    requires KeepsPods(d) && w.Pods? && x.Pods? && w.settings == x.settings
    requires Conforms(d, store, owner, WorkloadObject(p, w)) && Conforms(d, store, owner, WorkloadObject(p, x))
    ensures w == x
  {
    var a, b := d(Workload(w)), d(Workload(x));
    assert a == b;
    assert a.spec == w.(settings := a.spec.settings) && b.spec == x.(settings := b.spec.settings);
    assert w == a.spec.(settings := w.settings) && x == b.spec.(settings := x.settings);
  }

  /**
   * If two reconciles want different workloads, a failure-free reconcile of the second kind
   * overwrites a workload that conformed for the first.
   */
  lemma ConformingWorkloadOverwritten(d: Body -> Body, store: Store, owner: string, s: Server, world: World,
                                      v: Visit, u: Visit, calls: seq<Call>)
    requires OnlyDefaults(d) && KeepsPods(d) && ValidStore(d, store) && ChecksOf(PlanOf(s, world), RendererOf(s, world))
    requires AllUnobstructed(store, owner, StepsOf(s, world, u))
    requires |calls| == |StepsOf(s, world, u)| && ValidCalls(calls) && FailureFree(calls)
    requires DesiredWorkload(s, world, v) != DesiredWorkload(s, world, u)
    requires Conforms(d, store, owner, WorkloadObject(PlanOf(s, world), DesiredWorkload(s, world, v)))
    ensures !Conforms(d, Run(d, store, owner, StepsOf(s, world, u), calls).0, owner,
                      WorkloadObject(PlanOf(s, world), DesiredWorkload(s, world, v)))
  {
    var p, w, x := PlanOf(s, world), DesiredWorkload(s, world, v), DesiredWorkload(s, world, u);
    var steps := StepsOf(s, world, u);
    var after := Run(d, store, owner, steps, calls).0;
    DesiredDistinct(p, RendererOf(s, world), x);
    Runs.Convergence(d, store, owner, steps, calls);
    var k := WorkloadPosition(p, RendererOf(s, world), x, x);
    assert steps[k] in steps;
    if Conforms(d, after, owner, WorkloadObject(p, w)) {
      OneWorkloadConforms(d, after, owner, p, w, x);
    }
  }

  /** Two reconciles in a row, none of their calls failing, from any unobstructed store. */
  ghost predicate OverwrittenInTurn(d: Body -> Body, store: Store, owner: string, s: Server, world: World,
                                    v: Visit, u: Visit, calls: seq<Call>, calls': seq<Call>)
    requires |calls| == |StepsOf(s, world, v)| && |calls'| == |StepsOf(s, world, u)|
  {
    var mine := WorkloadObject(PlanOf(s, world), DesiredWorkload(s, world, v));
    var first := Run(d, store, owner, StepsOf(s, world, v), calls).0;
    Conforms(d, first, owner, mine) && !Conforms(d, Run(d, first, owner, StepsOf(s, world, u), calls').0, owner, mine)
  }

  lemma DifferentWorkloadsOverwrite(d: Body -> Body, store: Store, owner: string, s: Server, world: World,
                                    v: Visit, u: Visit, calls: seq<Call>, calls': seq<Call>)
    requires OnlyDefaults(d) && KeepsPods(d) && ValidStore(d, store) && ChecksOf(PlanOf(s, world), RendererOf(s, world))
    requires AllUnobstructed(store, owner, StepsOf(s, world, v))
    requires |calls| == |StepsOf(s, world, v)| && |calls'| == |StepsOf(s, world, u)|
    requires ValidCalls(calls) && FailureFree(calls) && ValidCalls(calls') && FailureFree(calls')
    requires DesiredWorkload(s, world, v) != DesiredWorkload(s, world, u)
    ensures OverwrittenInTurn(d, store, owner, s, world, v, u, calls, calls')
  {
    var p, render, w, x := PlanOf(s, world), RendererOf(s, world), DesiredWorkload(s, world, v), DesiredWorkload(s, world, u);
    var steps := StepsOf(s, world, v);
    var first := Run(d, store, owner, steps, calls).0;
    DesiredDistinct(p, render, w);
    Runs.Convergence(d, store, owner, steps, calls);
    var k := WorkloadPosition(p, render, w, x);
    assert steps[k] in steps;
    VariantKeeps(first, owner, steps, StepsOf(s, world, u), WorkloadObject(p, w).id);
    ConformingWorkloadOverwritten(d, first, owner, s, world, v, u, calls');
  }

  /** Obstacles do not depend on the visit. */
  lemma UnobstructedForAll(store: Store, owner: string, s: Server, world: World, v: Visit, u: Visit)
    requires ChecksOf(PlanOf(s, world), RendererOf(s, world)) && AllUnobstructed(store, owner, StepsOf(s, world, v))
    ensures AllUnobstructed(store, owner, StepsOf(s, world, u))
  {
    var k := WorkloadPosition(PlanOf(s, world), RendererOf(s, world), DesiredWorkload(s, world, v), DesiredWorkload(s, world, u));
    VariantKeeps(store, owner, StepsOf(s, world, v), StepsOf(s, world, u),
                 WorkloadObject(PlanOf(s, world), DesiredWorkload(s, world, v)).id);
  }

  /** A failing input: two peers. For some two orders of their map a conforming StatefulSet is overwritten. */
  lemma TwoPeersOverwrite(d: Body -> Body, store: Store, owner: string, s: Server, world: World, any: Visit,
                          calls: seq<Call>, calls': seq<Call>) returns (v: Visit, u: Visit)
    requires OnlyDefaults(d) && KeepsPods(d) && ValidStore(d, store) && HA(s) && HostsValid(FilledPeers(s), world.parse)
    requires |PeerHosts(s, world)| >= 2
    requires AllUnobstructed(store, owner, StepsOf(s, world, any))
    requires |calls| == |calls'| == StepCount(s, world)
    requires ValidCalls(calls) && FailureFree(calls) && ValidCalls(calls') && FailureFree(calls')
    ensures ValidVisit(s, world, v) && ValidVisit(s, world, u) && v.lookups == u.lookups == any.lookups
    ensures |StepsOf(s, world, v)| == |StepsOf(s, world, u)| == StepCount(s, world)
    ensures OverwrittenInTurn(d, store, owner, s, world, v, u, calls, calls')
  {
    v, u := TwoOrders(s, world, any.lookups, any.lookups);
    WorkloadsEqualExactly(s, world, v, u, HashOf(s, world));
    UnobstructedForAll(store, owner, s, world, any, v);
    SameCount(s, world, DesiredWorkload(s, world, v));
    SameCount(s, world, DesiredWorkload(s, world, u));
    DifferentWorkloadsOverwrite(d, store, owner, s, world, v, u, calls, calls');
  }

  /**
   * Another failing input: a Stork server found by lookup. A reconcile whose lookup fails, which is
   * swallowed, overwrites the conforming workload although the resource has not changed.
   */
  lemma FailingLookupOverwrites(d: Body -> Body, store: Store, owner: string, s: Server, world: World, v: Visit,
                                calls: seq<Call>, calls': seq<Call>)
    requires OnlyDefaults(d) && KeepsPods(d) && ValidStore(d, store) && ChecksOf(PlanOf(s, world), RendererOf(s, world))
    requires s.stork.Some? && s.stork.value.serverURL == ""
    requires v.lookups.server.Some?
    requires ValidVisit(s, world, v) && AllUnobstructed(store, owner, StepsOf(s, world, v))
    requires |calls| == |calls'| == StepCount(s, world)
    requires ValidCalls(calls) && FailureFree(calls) && ValidCalls(calls') && FailureFree(calls')
    ensures var u := v.(lookups := v.lookups.(server := None));
            && ValidVisit(s, world, u)
            && |StepsOf(s, world, v)| == |StepsOf(s, world, u)| == StepCount(s, world)
            && OverwrittenInTurn(d, store, owner, s, world, v, u, calls, calls')
  {
    var u := v.(lookups := v.lookups.(server := None));
    WorkloadsEqualExactly(s, world, v, u, HashOf(s, world));
    SameCount(s, world, DesiredWorkload(s, world, v));
    SameCount(s, world, DesiredWorkload(s, world, u));
    DifferentWorkloadsOverwrite(d, store, owner, s, world, v, u, calls, calls');
  }

  // ---------- histories ----------

  /** One reconcile of a history: what it saw, and what its calls came to. */
  datatype Reconciled = Reconciled(visit: Visit, calls: seq<Call>)

  ghost predicate ValidHistory(s: Server, world: World, history: seq<Reconciled>) {
    forall h | h in history :: ValidVisit(s, world, h.visit) && |h.calls| == StepCount(s, world) && ValidCalls(h.calls)
  }

  function PassesOf(s: Server, world: World, history: seq<Reconciled>): (r: seq<Pass>)
    ensures |r| == |history|
    ensures forall i | 0 <= i < |history| :: r[i] == Pass(DesiredWorkload(s, world, history[i].visit), history[i].calls)
  {
    seq(|history|, i requires 0 <= i < |history| => Pass(DesiredWorkload(s, world, history[i].visit), history[i].calls))
  }

  lemma HistoryPasses(s: Server, world: World, history: seq<Reconciled>)
    requires ValidHistory(s, world, history)
    ensures ValidPasses(PlanOf(s, world), RendererOf(s, world), PassesOf(s, world, history))
  {
    var passes := PassesOf(s, world, history);
    forall pass | pass in passes
      ensures |pass.calls| == |DesiredSteps(PlanOf(s, world), RendererOf(s, world), pass.workload)| && ValidCalls(pass.calls)
    {
      var i :| 0 <= i < |passes| && passes[i] == pass;
      assert history[i] in history;
      SameCount(s, world, pass.workload);
    }
  }

  ghost predicate WorkloadOfVisit(d: Body -> Body, store: Store, owner: string, s: Server, world: World, history: seq<Reconciled>) {
    exists h :: h in history && Conforms(d, store, owner, WorkloadObject(PlanOf(s, world), DesiredWorkload(s, world, h.visit)))
  }

  lemma SomeVisitWanted(d: Body -> Body, store: Store, owner: string, s: Server, world: World, history: seq<Reconciled>)
    ensures WorkloadOfSome(d, store, owner, PlanOf(s, world), PassesOf(s, world, history))
            ==> WorkloadOfVisit(d, store, owner, s, world, history)
  {
    var p, passes := PlanOf(s, world), PassesOf(s, world, history);
    if WorkloadOfSome(d, store, owner, p, passes) {
      var pass :| pass in passes && Conforms(d, store, owner, WorkloadObject(p, pass.workload));
      var i :| 0 <= i < |passes| && passes[i] == pass;
      assert history[i] in history;
    }
  }

  /** What a history of reconciles comes to. */
  ghost predicate Converged(d: Body -> Body, store: Store, after: Store, owner: string, s: Server, world: World, v: Visit,
                            history: seq<Reconciled>)
  {
    var id := WorkloadObject(PlanOf(s, world), DesiredWorkload(s, world, v)).id;
    && FixedPart(d, store, after, owner, StepsOf(s, world, v), id, exists h :: h in history && FailureFree(h.calls))
    && (SameObject(store, after, id) || WorkloadOfVisit(d, after, owner, s, world, history))
    && ((exists h :: h in history && FailureFree(h.calls)) ==> WorkloadOfVisit(d, after, owner, s, world, history))
  }

  /**
   * Any number of reconciles of one resource, failing anywhere, in any orders and with any
   * results of their lookups: every object but the workload converges for good, and the workload in
   * the store is untouched or the one of some of these reconciles, which it is from the first
   * failure-free reconcile on.
   */
  lemma ServerConverges(d: Body -> Body, store: Store, owner: string, s: Server, world: World, v: Visit, history: seq<Reconciled>)
    requires OnlyDefaults(d) && ValidStore(d, store) && ChecksOf(PlanOf(s, world), RendererOf(s, world))
    requires AllUnobstructed(store, owner, StepsOf(s, world, v)) && ValidHistory(s, world, history)
    ensures ValidEdits(EditsOf(PlanOf(s, world), RendererOf(s, world), PassesOf(s, world, history)))
    ensures Converged(d, store, Evolve(d, store, owner, EditsOf(PlanOf(s, world), RendererOf(s, world), PassesOf(s, world, history))),
                      owner, s, world, v, history)
  {
    var p, render, passes := PlanOf(s, world), RendererOf(s, world), PassesOf(s, world, history);
    HistoryPasses(s, world, history);
    Dhcp4Converges(d, store, owner, p, render, DesiredWorkload(s, world, v), passes);
    SameFailures(p, render, passes, history);
    SomeVisitWanted(d, Evolve(d, store, owner, EditsOf(p, render, passes)), owner, s, world, history);
  }

  lemma SameFailures(p: Plan, render: Controller.Renderer, passes: seq<Pass>, history: seq<Reconciled>)
    requires |passes| == |history| && forall i | 0 <= i < |history| :: passes[i].calls == history[i].calls
    ensures SomeFailureFree(EditsOf(p, render, passes)) <==> exists h :: h in history && FailureFree(h.calls)
  {
    var edits := EditsOf(p, render, passes);
    if h :| h in history && FailureFree(h.calls) {
      var i :| 0 <= i < |history| && history[i] == h;
      assert edits[i] in edits && edits[i].calls == h.calls;
    }
    if e :| e in edits && FailureFree(e.calls) {
      var i :| 0 <= i < |edits| && edits[i] == e;
      assert history[i] in history && history[i].calls == e.calls;
    }
  }

  /** A store in which the workload of one visit and everything else conform is converged for that visit. */
  lemma ConvergedForVisit(d: Body -> Body, before: Store, store: Store, owner: string, p: Plan, render: Controller.Renderer,
                          w: PodSpec, x: PodSpec)
    requires ChecksOf(p, render) && Conforms(d, store, owner, WorkloadObject(p, x))
    requires FixedPart(d, before, store, owner, DesiredSteps(p, render, w), WorkloadObject(p, w).id, true)
    ensures AllConform(d, store, owner, DesiredSteps(p, render, x))
  {
    var steps, other := DesiredSteps(p, render, w), DesiredSteps(p, render, x);
    var k := WorkloadPosition(p, render, x, w);
    DesiredDistinct(p, render, x);
    forall s | s in other && s.Apply? ensures Conforms(d, store, owner, s.desired) {
      var i :| 0 <= i < |other| && other[i] == s;
      if i != k {
        assert s.desired.id != other[k].desired.id;
        assert steps[i] == s && steps[i] in steps;
      }
    }
  }

  /**
   * After any history with a failure-free reconcile the cluster is converged for the visit of some
   * reconcile of the history: everything that holds of converged clusters holds of it.
   */
  lemma ConvergedForSome(d: Body -> Body, store: Store, after: Store, owner: string, s: Server, world: World, v: Visit,
                         history: seq<Reconciled>)
    requires ChecksOf(PlanOf(s, world), RendererOf(s, world)) && Converged(d, store, after, owner, s, world, v, history)
    requires exists h :: h in history && FailureFree(h.calls)
    ensures exists h :: h in history && AllConform(d, after, owner, StepsOf(s, world, h.visit))
  {
    var p, render := PlanOf(s, world), RendererOf(s, world);
    var h :| h in history && Conforms(d, after, owner, WorkloadObject(p, DesiredWorkload(s, world, h.visit)));
    ConvergedForVisit(d, store, after, owner, p, render, DesiredWorkload(s, world, v), DesiredWorkload(s, world, h.visit));
  }

  // ---------- different texts, same effect ----------

  /** The address a pod takes does not depend on the order of the static addresses. */
  lemma SameAddresses(s: Server, world: World, v: Visit, u: Visit, ordinal: nat)
    requires HA(s) && HostsValid(FilledPeers(s), world.parse) && ValidVisit(s, world, v) && ValidVisit(s, world, u)
    ensures var sts := StatefulSetName(s.cr, COMPONENT);
            && Nad.GuardedStart(StartOf(s, v)) && Nad.GuardedStart(StartOf(s, u))
            && AllDigits(AfterLastDash(PodName(sts, ordinal)))
            && Nad.PodAddress(StartOf(s, v), PodName(sts, ordinal)) == Nad.PodAddress(StartOf(s, u), PodName(sts, ordinal))
  {
    Nad.OrdinalOfPod(StatefulSetName(s.cr, COMPONENT), ordinal);
    if StartOf(s, v).FromCases? {
      Nad.ArmOrderIrrelevant(v.arms, StaticOf(s), ordinal);
      Nad.ArmOrderIrrelevant(u.arms, StaticOf(s), ordinal);
    }
  }

  /** All peers have generated URLs. */
  predicate GeneratedURLs(s: Server) { HA(s) && AllFilled(FilledPeers(s), SiteOf(s), SocketPort(s)) }

  /** A resource whose peers all leave out their URLs has generated ones. */
  lemma OmittedURLsAreGenerated(s: Server)
    requires HA(s) && forall peer | peer in s.spec.highAvailability.value.peers :: peer.url == ""
    ensures GeneratedURLs(s)
  {
    var peers := s.spec.highAvailability.value.peers;
    forall i | 0 <= i < |peers| ensures FilledPeers(s)[i].url == SiteOf(s).URL(i, SocketPort(s)) {
      assert peers[i] in peers;
    }
  }

  /**
   * Whatever URLs the peers have, generated or written by hand: on a text on which the peer
   * commands of one reconcile do not interfere, those of every reconcile do the same.
   */
  lemma SameEffectOnQuietTexts(s: Server, world: World, v: Visit, u: Visit, pod: Pod, t: string)
    requires HA(s) && HostsValid(FilledPeers(s), world.parse) && ValidVisit(s, world, v) && ValidVisit(s, world, u)
    requires AllResolve(v.peerOps) ==>
               var rules := PeerRules(v.peerOps, SiteOf(s).Sts(), pod);
               PrefixFree(rules) && StartFree(rules) && AllIndependent(t, rules)
    ensures AllResolve(v.peerOps) && AllResolve(u.peerOps)
    ensures Sequential(t, PeerRules(v.peerOps, SiteOf(s).Sts(), pod)) == Sequential(t, PeerRules(u.peerOps, SiteOf(s).Sts(), pod))
  {
    HostMapValid(FilledPeers(s), world.parse, SiteOf(s));
    AnyHostsOrderIrrelevant(t, v.peerOps, u.peerOps, PeerHosts(s, world), SiteOf(s), pod);
  }

  /**
   * With generated URLs the peer commands of any two reconciles rewrite every text without
   * overlapping host names alike, in every pod.
   */
  lemma SameEffect(s: Server, world: World, v: Visit, u: Visit, pod: Pod, t: string)
    requires GeneratedURLs(s) && SiteOf(s).Valid() && ParsesHttp(world.parse) && GoodPod(pod)
    requires ValidVisit(s, world, v) && ValidVisit(s, world, u)
    requires NoHostOverlap(t, SiteOf(s).Sts(), s.namespace, |FilledPeers(s)|)
    ensures HostsValid(FilledPeers(s), world.parse) && AllResolve(v.peerOps) && AllResolve(u.peerOps)
    ensures Sequential(t, PeerRules(v.peerOps, SiteOf(s).Sts(), pod)) == Sequential(t, PeerRules(u.peerOps, SiteOf(s).Sts(), pod))
  {
    FilledHostMap(FilledPeers(s), world.parse, SiteOf(s), SocketPort(s));
    ScriptOrderIrrelevant(t, v.peerOps, u.peerOps, PeerHosts(s, world), |FilledPeers(s)|, SiteOf(s), pod);
  }
}
