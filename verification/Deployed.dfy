/**
 * What a converged cluster holds for a DHCPv4 resource, said in terms of its spec: which objects
 * there are, where the Services listen and which pods they reach, what the workload mounts, and the
 * hash it carries.
 */
module Deployed {
  import opened Options
  import opened Strings
  import opened Names
  import opened Spec
  import opened Secrets
  import opened ApiServer
  import opened Builders
  import opened Templates
  import opened PodTemplate
  import opened HaWiring
  import opened Runs
  import opened Outcomes
  import opened Dhcp4Server
  import opened HaConfigs
  import opened StorkAgent
  import C = Controller
  import ChangeDetection
  import Convergence
  import Nad

  // ---------- which objects there are ----------

  lemma MentionsJoin(a: seq<Step>, b: seq<Step>, id: Id)
    ensures Mentions(a + b, id) <==> Mentions(a, id) || Mentions(b, id)
  {
    if s :| s in a && s.Apply? && s.desired.id == id { assert s in a + b; }
    if s :| s in b && s.Apply? && s.desired.id == id { assert s in a + b; }
  }

  lemma MentionsOne(s: Step, id: Id)
    ensures Mentions([s], id) <==> s.Apply? && s.desired.id == id
  {
    assert s in [s];
  }

  /** A ConfigMap of one of the first `n` ordinals. */
  predicate ConfigMapBelow(p: C.Plan, n: nat, id: Id) {
    exists i: nat :: i < n && id == Id(ConfigMap, p.namespace, HAConfigMapName(p.cr, Dhcp4, i))
  }

  lemma OneConfigMapMore(p: C.Plan, n: nat, id: Id)
    ensures ConfigMapBelow(p, n + 1, id) <==>
            ConfigMapBelow(p, n, id) || id == Id(ConfigMap, p.namespace, HAConfigMapName(p.cr, Dhcp4, n))
  {
  }

  lemma {:induction false} ConfigMapIds(p: C.Plan, render: C.Renderer, n: nat, id: Id)
    requires forall name :: render(name).Some?
    ensures Mentions(C.HAConfigSteps(p, render, n), id) <==> ConfigMapBelow(p, n, id)
  {
    if n > 0 {
      ConfigMapIds(p, render, n - 1, id);
      ConfigMapJoins(p, render, n - 1, id);
      OneConfigMapMore(p, n - 1, id);
    }
  }

  lemma ConfigMapJoins(p: C.Plan, render: C.Renderer, n: nat, id: Id)
    requires forall name :: render(name).Some?
    ensures Mentions(C.HAConfigSteps(p, render, n + 1), id) <==>
            Mentions(C.HAConfigSteps(p, render, n), id) || id == Id(ConfigMap, p.namespace, HAConfigMapName(p.cr, Dhcp4, n))
  {
    var last := Apply(C.HAConfigMap(p, n, render(C.ServerName(p, n)).value), false);
    MentionsJoin(C.HAConfigSteps(p, render, n), [last], id);
    MentionsOne(last, id);
  }

  lemma {:induction false} PerPodIds(p: C.Plan, n: nat, id: Id)
    ensures Mentions(C.PerPodSteps(p, n), id) <==>
            exists i: nat :: i < n && id == Id(Service, p.namespace, PerPodServiceName(p.cr, Dhcp4, i))
  {
    if n > 0 {
      PerPodIds(p, n - 1, id);
      var last := Apply(BuildPerPodService(C.Params(p, p.haPort), n - 1), true);
      MentionsJoin(C.PerPodSteps(p, n - 1), [last], id);
      MentionsOne(last, id);
    }
  }

  /** The objects behind the workload. */
  predicate TailWanted(p: C.Plan, id: Id) {
    || (p.httpPort.Some? && id == Id(Service, p.namespace, ServiceName(p.cr, Dhcp4)))
    || (p.stork.Some? && id == Id(PodMonitor, p.namespace, StatefulSetName(p.cr, Dhcp4)))
    || (p.stork.Some? && id == Id(Service, p.namespace, StorkMetricsServiceName(p.cr, Dhcp4)))
    || (p.stork.Some? && p.openShift && id == Id(Route, p.namespace, StorkMetricsServiceName(p.cr, Dhcp4)))
  }

  lemma TailIds(p: C.Plan, id: Id)
    ensures Mentions(C.TailSteps(p), id) <==> TailWanted(p, id)
  {
    MentionsJoin(C.ControlSteps(p), C.StorkSteps(p), id);
    if p.httpPort.Some? {
      MentionsOne(Apply(BuildService(C.Params(p, p.httpPort.value)), true), id);
    }
    if p.stork.Some? {
      StorkIds(p, id);
    }
  }

  lemma StorkIds(p: C.Plan, id: Id)
    requires p.stork.Some?
    ensures Mentions(C.StorkSteps(p), id) <==>
            || id == Id(PodMonitor, p.namespace, StatefulSetName(p.cr, Dhcp4))
            || id == Id(Service, p.namespace, StorkMetricsServiceName(p.cr, Dhcp4))
            || (p.openShift && id == Id(Route, p.namespace, StorkMetricsServiceName(p.cr, Dhcp4)))
  {
    var monitor := Apply(BuildPodMonitor(p.namespace, p.cr, Dhcp4), false);
    var service := Apply(BuildStorkMetricsService(p.namespace, p.cr, Dhcp4, p.stork.value.0, p.stork.value.1), true);
    var route := if p.openShift then [Apply(BuildStorkMetricsRoute(p.namespace, p.cr, Dhcp4), false)] else [];
    assert [monitor, service] == [monitor] + [service];
    MentionsJoin([monitor, service], route, id);
    MentionsJoin([monitor], [service], id);
    MentionsOne(monitor, id);
    MentionsOne(service, id);
    if p.openShift {
      MentionsOne(route[0], id);
    }
  }

  predicate HAWanted(p: C.Plan, id: Id) {
    || ConfigMapBelow(p, p.replicas, id)
    || id == Id(ServiceAccount, p.namespace, ServiceAccountName(p.cr))
    || id == Id(Service, p.namespace, HeadlessServiceName(p.cr, Dhcp4))
    || (exists i: nat :: i < p.replicas && id == Id(Service, p.namespace, PerPodServiceName(p.cr, Dhcp4, i)))
    || id == Id(StatefulSet, p.namespace, StatefulSetName(p.cr, Dhcp4))
  }

  lemma HAIds(p: C.Plan, render: C.Renderer, w: PodSpec, id: Id)
    requires forall name :: render(name).Some?
    ensures Mentions(C.HASteps(p, render, w), id) <==> HAWanted(p, id) || TailWanted(p, id)
  {
    var configs, account, tail := C.HAConfigSteps(p, render, p.replicas), [C.AccountStep(p)], C.TailSteps(p);
    MentionsJoin(configs + account + C.HAWorkloadSteps(p, w), tail, id);
    MentionsJoin(configs + account, C.HAWorkloadSteps(p, w), id);
    MentionsJoin(configs, account, id);
    ConfigMapIds(p, render, p.replicas, id);
    MentionsOne(C.AccountStep(p), id);
    HAWorkloadIds(p, w, id);
    TailIds(p, id);
  }

  lemma HAWorkloadIds(p: C.Plan, w: PodSpec, id: Id)
    ensures Mentions(C.HAWorkloadSteps(p, w), id) <==>
            || id == Id(Service, p.namespace, HeadlessServiceName(p.cr, Dhcp4))
            || (exists i: nat :: i < p.replicas && id == Id(Service, p.namespace, PerPodServiceName(p.cr, Dhcp4, i)))
            || id == Id(StatefulSet, p.namespace, StatefulSetName(p.cr, Dhcp4))
  {
    var headless := Apply(BuildHeadlessService(C.Params(p, p.haPort)), true);
    var check, sts := Check(p.hostsValid), Apply(BuildWorkload(StatefulSet, p.namespace, p.cr, Dhcp4, w), true);
    assert [check, sts] == [check] + [sts];
    MentionsJoin([headless] + C.PerPodSteps(p, p.replicas), [check, sts], id);
    MentionsJoin([headless], C.PerPodSteps(p, p.replicas), id);
    MentionsJoin([check], [sts], id);
    MentionsOne(headless, id);
    PerPodIds(p, p.replicas, id);
    MentionsOne(check, id);
    MentionsOne(sts, id);
  }

  lemma PlainIds(p: C.Plan, config: string, w: PodSpec, id: Id)
    ensures Mentions(C.PlainSteps(p, config, w), id) <==>
            || id == Id(ConfigMap, p.namespace, ConfigMapName(p.cr, Dhcp4))
            || id == Id(ServiceAccount, p.namespace, ServiceAccountName(p.cr))
            || id == Id(Deployment, p.namespace, StatefulSetName(p.cr, Dhcp4))
            || TailWanted(p, id)
  {
    var cm := Apply(BuildConfigMap(p.namespace, ConfigMapName(p.cr, Dhcp4), p.cr, Dhcp4, config), true);
    var deployment := Apply(BuildWorkload(Deployment, p.namespace, p.cr, Dhcp4, w), true);
    assert [cm, C.AccountStep(p), deployment] == [cm] + [C.AccountStep(p)] + [deployment];
    MentionsJoin([cm, C.AccountStep(p), deployment], C.TailSteps(p), id);
    MentionsJoin([cm] + [C.AccountStep(p)], [deployment], id);
    MentionsJoin([cm], [C.AccountStep(p)], id);
    MentionsOne(cm, id);
    MentionsOne(C.AccountStep(p), id);
    MentionsOne(deployment, id);
    TailIds(p, id);
  }

  /** The control socket speaks HTTP. */
  predicate ServesHttp(s: Server) { s.spec.controlSocket.Some? && s.spec.controlSocket.value.socketType == "http" }

  /** The number of pods: as given, or one. */
  function Pods(s: Server): nat { match s.spec.replicas case Some(n) => n case None => 1 }

  /** The objects of a resource, kind by kind. */
  predicate Wanted(s: Server, world: World, id: Id) {
    && id.namespace == s.namespace
    && match id.kind
       case ServiceAccount => id.name == ServiceAccountName(s.cr)
       case ConfigMap =>
         if HA(s) then exists i: nat :: i < Pods(s) && id.name == HAConfigMapName(s.cr, Dhcp4, i)
         else id.name == ConfigMapName(s.cr, Dhcp4)
       case StatefulSet => HA(s) && id.name == StatefulSetName(s.cr, Dhcp4)
       case Deployment => !HA(s) && id.name == StatefulSetName(s.cr, Dhcp4)
       case Service =>
         || (HA(s) && id.name == HeadlessServiceName(s.cr, Dhcp4))
         || (HA(s) && exists i: nat :: i < Pods(s) && id.name == PerPodServiceName(s.cr, Dhcp4, i))
         || (ServesHttp(s) && id.name == ServiceName(s.cr, Dhcp4))
         || (s.stork.Some? && id.name == StorkMetricsServiceName(s.cr, Dhcp4))
       case PodMonitor => s.stork.Some? && id.name == StatefulSetName(s.cr, Dhcp4)
       case Route => s.stork.Some? && world.openShift && id.name == StorkMetricsServiceName(s.cr, Dhcp4)
       case Secret => false
  }

  /**
   * The objects a reconcile applies are exactly these: the control Service if and only if the
   * control socket speaks HTTP, the Stork objects if and only if the agent is on, the Route only on
   * OpenShift, and one ConfigMap and one Service per ordinal only with high availability.
   */
  lemma ObjectsExactly(s: Server, world: World, v: Visit, id: Id)
    ensures Mentions(StepsOf(s, world, v), id) <==> Wanted(s, world, id)
  {
    if HA(s) {
      HAIds(PlanOf(s, world), RendererOf(s, world), DesiredWorkload(s, world, v), id);
      HAWantedIs(s, world, PlanOf(s, world), id);
    } else {
      PlainIds(PlanOf(s, world), world.marshal(ConfigTree(s, "")), DesiredWorkload(s, world, v), id);
      PlainWantedIs(s, world, PlanOf(s, world), id);
    }
  }

  /** What a plan takes from its resource. */
  ghost predicate PlanFits(p: C.Plan, s: Server, world: World) {
    && p.namespace == s.namespace && p.cr == s.cr && p.replicas == Pods(s) && p.ha == HA(s)
    && (p.httpPort.Some? <==> ServesHttp(s)) && (p.stork.Some? <==> s.stork.Some?) && p.openShift == world.openShift
  }

  lemma PlanOfFits(s: Server, world: World)
    ensures PlanFits(PlanOf(s, world), s, world)
  {
  }

  lemma HAWantedIs(s: Server, world: World, p: C.Plan, id: Id)
    requires HA(s) && p == PlanOf(s, world)
    ensures Wanted(s, world, id) <==> HAWanted(p, id) || TailWanted(p, id)
  {
    PlanOfFits(s, world);
    HAWantedAs(s, world, p, id);
  }

  lemma HAWantedAs(s: Server, world: World, p: C.Plan, id: Id)
    requires HA(s) && PlanFits(p, s, world)
    ensures Wanted(s, world, id) <==> HAWanted(p, id) || TailWanted(p, id)
  {
  }

  lemma PlainWantedIs(s: Server, world: World, p: C.Plan, id: Id)
    requires !HA(s) && p == PlanOf(s, world)
    ensures Wanted(s, world, id) <==>
            || id == Id(ConfigMap, p.namespace, ConfigMapName(p.cr, Dhcp4))
            || id == Id(ServiceAccount, p.namespace, ServiceAccountName(p.cr))
            || id == Id(Deployment, p.namespace, StatefulSetName(p.cr, Dhcp4))
            || TailWanted(p, id)
  {
    PlanOfFits(s, world);
  }

  /** The labels by which a user finds what belongs to a resource. */
  predicate Labelled(labels: map<string, string>, cr: string) {
    labels == map["app.kubernetes.io/name" := "kea", "app.kubernetes.io/instance" := cr,
                  "app.kubernetes.io/component" := "dhcp4", "app.kubernetes.io/managed-by" := "kea-operator",
                  "app.kubernetes.io/part-of" := "kea-dhcp"]
  }

  ghost predicate StepsLabelled(steps: seq<Step>, cr: string) {
    forall s | s in steps && s.Apply? :: Labelled(s.desired.labels, cr)
  }

  lemma {:induction false} ConfigMapsLabelled(p: C.Plan, render: C.Renderer, n: nat)
    ensures StepsLabelled(C.HAConfigSteps(p, render, n), p.cr)
  {
    if n > 0 {
      ConfigMapsLabelled(p, render, n - 1);
    }
  }

  lemma {:induction false} PerPodLabelled(p: C.Plan, n: nat)
    ensures StepsLabelled(C.PerPodSteps(p, n), p.cr)
  {
    if n > 0 {
      PerPodLabelled(p, n - 1);
    }
  }

  lemma TailLabelled(p: C.Plan)
    ensures StepsLabelled(C.TailSteps(p), p.cr)
  {
    assert StepsLabelled(C.ControlSteps(p), p.cr);
    assert StepsLabelled(C.StorkSteps(p), p.cr);
  }

  lemma AllLabelled(p: C.Plan, render: C.Renderer, w: PodSpec)
    ensures StepsLabelled(C.DesiredSteps(p, render, w), p.cr)
  {
    TailLabelled(p);
    ConfigMapsLabelled(p, render, p.replicas);
    PerPodLabelled(p, p.replicas);
    assert StepsLabelled([C.AccountStep(p)], p.cr);
    assert StepsLabelled(C.HAWorkloadSteps(p, w), p.cr);
  }

  /** In a converged cluster every object of a resource is there, carries its labels and belongs to it. */
  lemma ObjectsLabelled(d: Body -> Body, store: Store, owner: string, s: Server, world: World, v: Visit, id: Id)
    requires AllConform(d, store, owner, StepsOf(s, world, v)) && Wanted(s, world, id)
    ensures id in store && Labelled(store[id].labels, s.cr) && store[id].owner == Some(owner)
  {
    ObjectsExactly(s, world, v, id);
    AllLabelled(PlanOf(s, world), RendererOf(s, world), DesiredWorkload(s, world, v));
    var step :| step in StepsOf(s, world, v) && step.Apply? && step.desired.id == id;
    assert Conforms(d, store, owner, step.desired);
  }

  // ---------- where the Services listen, and whom they reach ----------

  /** The Service selects the pods of this resource, of all ordinals, and no others. */
  ghost predicate SelectsAll(store: Store, s: Server, id: Id) {
    forall cr, c, k: nat :: Selects(SelectorOf(store, id), PodLabels(cr, c, k)) <==> (cr, c) == (s.cr, Dhcp4)
  }

  lemma LabelsSelect(cr: string, c: Component, cr': string, c': Component, k: nat)
    ensures Selects(CommonLabels(cr, c), PodLabels(cr', c', k)) <==> (cr', c') == (cr, c)
  {
    var labels, pod := CommonLabels(cr, c), PodLabels(cr', c', k);
    LabelKeysDiffer();
    assert "app.kubernetes.io/instance" in labels && "app.kubernetes.io/component" in labels;
    if Selects(labels, pod) {
      assert pod["app.kubernetes.io/instance"] == cr' && pod["app.kubernetes.io/component"] == c'.Text();
      ComponentText(c, c');
    }
  }

  lemma LabelKeysDiffer()
    ensures |"app.kubernetes.io/name"| == 22 && |"app.kubernetes.io/instance"| == 26 && |"app.kubernetes.io/component"| == 27
    ensures |"app.kubernetes.io/managed-by"| == 28 && |"app.kubernetes.io/part-of"| == 25 && POD_NAME_LABEL[0] == 's'
  {
  }

  lemma ComponentText(c: Component, c': Component)
    ensures c.Text() == c'.Text() ==> c == c'
  {
    if c.Text() == c'.Text() {
      assert c.Text()[|c.Text()| - 1] == c'.Text()[|c'.Text()| - 1];
    }
  }

  lemma ServiceSelectsAll(d: Body -> Body, store: Store, owner: string, s: Server, desired: Object)
    requires OnlyDefaults(d) && Conforms(d, store, owner, desired) && desired.body.ServiceSpec?
    requires desired.body.selector == CommonLabels(s.cr, Dhcp4)
    ensures SelectsAll(store, s, desired.id)
  {
    forall cr, c, k: nat
      ensures Selects(SelectorOf(store, desired.id), PodLabels(cr, c, k)) <==> (cr, c) == (s.cr, Dhcp4)
    {
      LabelsSelect(s.cr, Dhcp4, cr, c, k);
    }
  }

  /**
   * The headless Service, through which the pods of a StatefulSet get their names: without an
   * address of its own, for pods that are not ready yet as well, at the port of the peers.
   */
  lemma HeadlessService(d: Body -> Body, store: Store, owner: string, s: Server, world: World, v: Visit)
    requires OnlyDefaults(d) && KeepsPorts(d) && HA(s) && AllConform(d, store, owner, StepsOf(s, world, v))
    ensures var id := Id(Service, s.namespace, HeadlessServiceName(s.cr, Dhcp4));
            && ListensOn(store, id, SocketPort(s)) && SelectsAll(store, s, id) && URLPort(s.spec, SocketPort(s))
            && store[id].body.clusterIP == "None" && store[id].body.publishNotReady
  {
    HeadlessConforms(d, store, owner, s, world, v);
    HeadlessListens(d, store, owner, s, C.Params(PlanOf(s, world), PlanOf(s, world).haPort));
  }

  lemma HeadlessListens(d: Body -> Body, store: Store, owner: string, s: Server, p: ServiceParams)
    requires OnlyDefaults(d) && KeepsPorts(d) && Conforms(d, store, owner, BuildHeadlessService(p))
    requires p == ServiceParams(s.namespace, s.cr, Dhcp4, SocketPort(s), "TCP")
    ensures var id := Id(Service, s.namespace, HeadlessServiceName(s.cr, Dhcp4));
            && ListensOn(store, id, SocketPort(s)) && SelectsAll(store, s, id) && URLPort(s.spec, SocketPort(s))
            && store[id].body.clusterIP == "None" && store[id].body.publishNotReady
  {
    ServiceListens(d, store, owner, BuildHeadlessService(p), SocketPort(s));
    ServiceSelectsAll(d, store, owner, s, BuildHeadlessService(p));
    NotReadyKept(d, store, owner, BuildHeadlessService(p));
  }

  lemma HeadlessConforms(d: Body -> Body, store: Store, owner: string, s: Server, world: World, v: Visit)
    requires HA(s) && AllConform(d, store, owner, StepsOf(s, world, v))
    ensures var p := PlanOf(s, world);
            && Conforms(d, store, owner, BuildHeadlessService(C.Params(p, p.haPort)))
            && C.Params(p, p.haPort) == ServiceParams(s.namespace, s.cr, Dhcp4, SocketPort(s), "TCP")
  {
    var p, w := PlanOf(s, world), DesiredWorkload(s, world, v);
    var headless := BuildHeadlessService(C.Params(p, p.haPort));
    assert Apply(headless, true) in C.HAWorkloadSteps(p, w);
    assert Apply(headless, true) in StepsOf(s, world, v);
  }

  lemma NotReadyKept(d: Body -> Body, store: Store, owner: string, desired: Object)
    requires KeepsPorts(d) && Conforms(d, store, owner, desired) && desired.body.ServiceSpec?
    requires forall p | p in desired.body.ports :: p.protocol != ""
    ensures store[desired.id].body.ServiceSpec? && store[desired.id].body.publishNotReady == desired.body.publishNotReady
  {
    var live := store[desired.id].body;
    var merged := desired.body.(clusterIP := live.clusterIP, clusterIPs := live.clusterIPs);
    assert live == d(merged);
  }

  /** The control Service of a control socket that speaks HTTP: at the port of the socket, or 8000. */
  lemma ControlService(d: Body -> Body, store: Store, owner: string, s: Server, world: World, v: Visit)
    requires OnlyDefaults(d) && KeepsPorts(d) && AllConform(d, store, owner, StepsOf(s, world, v))
    requires ServesHttp(s) && Convergence.ChecksOf(PlanOf(s, world), RendererOf(s, world))
    ensures var id := Id(Service, s.namespace, ServiceName(s.cr, Dhcp4));
            && ListensOn(store, id, SocketPort(s)) && SelectsAll(store, s, id) && URLPort(s.spec, SocketPort(s))
  {
    var p := PlanOf(s, world);
    var service := BuildService(C.Params(p, p.httpPort.value));
    assert Apply(service, true) in C.ControlSteps(p);
    InTail(p, RendererOf(s, world), DesiredWorkload(s, world, v), Apply(service, true));
    ServiceListens(d, store, owner, service, SocketPort(s));
    ServiceSelectsAll(d, store, owner, s, service);
  }

  lemma InTail(p: C.Plan, render: C.Renderer, w: PodSpec, s: Step)
    requires s in C.TailSteps(p) && (p.ha || render("").Some?)
    ensures s in C.DesiredSteps(p, render, w)
  {
  }

  /**
   * The metrics Service leads to the ports the Stork sidecar is told to listen on, on all addresses;
   * settings of the user come last.
   */
  lemma MetricsService(d: Body -> Body, store: Store, owner: string, s: Server, world: World, v: Visit)
    requires OnlyDefaults(d) && KeepsPorts(d) && s.stork.Some? && AllConform(d, store, owner, StepsOf(s, world, v))
    ensures var id := Id(Service, s.namespace, StorkMetricsServiceName(s.cr, Dhcp4));
            && id in store && store[id].body.ServiceSpec? && SelectsAll(store, s, id)
            && |store[id].body.ports| == 2
            && store[id].body.ports[0].targetPort == NamedPort("stork-prom")
            && store[id].body.ports[0].port == (match s.stork.value.prometheusPort case Some(n) => n case None => 9547)
            && store[id].body.ports[1].targetPort == NamedPort("stork-agent")
            && store[id].body.ports[1].port == (match s.stork.value.port case Some(n) => n case None => 8080)
            && EnvSetting("STORK_AGENT_PROMETHEUS_KEA_EXPORTER_PORT", ShownPort(store[id].body.ports[0].port))
               in SidecarOf(s.stork, v.lookups)
            && EnvSetting("STORK_AGENT_PORT", ShownPort(store[id].body.ports[1].port)) in SidecarOf(s.stork, v.lookups)
            && EnvSetting("STORK_AGENT_PROMETHEUS_KEA_EXPORTER_ADDRESS", "0.0.0.0") in SidecarOf(s.stork, v.lookups)
            && EndsWith(SidecarOf(s.stork, v.lookups), s.stork.value.extraEnv)
  {
    var cfg := s.stork.value;
    MetricsConforms(d, store, owner, s, world, v);
    MetricsListen(d, store, owner, s, AgentPort(cfg), PrometheusPort(cfg));
    SidecarPorts(cfg, v.lookups);
  }

  lemma MetricsListen(d: Body -> Body, store: Store, owner: string, s: Server, agentPort: int, promPort: int)
    requires OnlyDefaults(d) && KeepsPorts(d)
    requires Conforms(d, store, owner, BuildStorkMetricsService(s.namespace, s.cr, Dhcp4, agentPort, promPort))
    ensures var id := Id(Service, s.namespace, StorkMetricsServiceName(s.cr, Dhcp4));
            && id in store && store[id].body.ServiceSpec? && SelectsAll(store, s, id)
            && |store[id].body.ports| == 2
            && store[id].body.ports[0].targetPort == NamedPort("stork-prom") && store[id].body.ports[0].port == promPort
            && store[id].body.ports[1].targetPort == NamedPort("stork-agent") && store[id].body.ports[1].port == agentPort
  {
    var service := BuildStorkMetricsService(s.namespace, s.cr, Dhcp4, agentPort, promPort);
    ServiceSelectsAll(d, store, owner, s, service);
    PortsKept(d, store, owner, service);
  }

  lemma MetricsConforms(d: Body -> Body, store: Store, owner: string, s: Server, world: World, v: Visit)
    requires s.stork.Some? && AllConform(d, store, owner, StepsOf(s, world, v))
    ensures Conforms(d, store, owner, BuildStorkMetricsService(s.namespace, s.cr, Dhcp4, AgentPort(s.stork.value),
                                                               PrometheusPort(s.stork.value)))
  {
    var p := PlanOf(s, world);
    var service := BuildStorkMetricsService(p.namespace, p.cr, Dhcp4, p.stork.value.0, p.stork.value.1);
    assert Apply(service, true) in C.StorkSteps(p);
    InTail(p, RendererOf(s, world), DesiredWorkload(s, world, v), Apply(service, true));
  }

  lemma PortsKept(d: Body -> Body, store: Store, owner: string, desired: Object)
    requires KeepsPorts(d) && Conforms(d, store, owner, desired) && desired.body.ServiceSpec?
    requires forall p | p in desired.body.ports :: p.protocol != ""
    ensures store[desired.id].body.ServiceSpec? && store[desired.id].body.ports == desired.body.ports
  {
    var live := store[desired.id].body;
    assert live == d(desired.body.(clusterIP := live.clusterIP, clusterIPs := live.clusterIPs));
  }

  lemma SidecarPorts(cfg: StorkConfig, l: Lookups)
    ensures EnvSetting("STORK_AGENT_PROMETHEUS_KEA_EXPORTER_PORT", Decimal(PrometheusPort(cfg))) in SidecarOf(Some(cfg), l)
    ensures EnvSetting("STORK_AGENT_PORT", Decimal(AgentPort(cfg))) in SidecarOf(Some(cfg), l)
    ensures EnvSetting("STORK_AGENT_PROMETHEUS_KEA_EXPORTER_ADDRESS", "0.0.0.0") in SidecarOf(Some(cfg), l)
    ensures EndsWith(SidecarOf(Some(cfg), l), cfg.extraEnv)
  {
    var env := SidecarEnv(cfg, ResolveAgent(cfg, l));
    assert env[0] in env && env[1] in env && env[2] in env;
  }

  /** The settings of the user come last, so they win. */
  predicate EndsWith(env: seq<EnvSetting>, last: seq<EnvSetting>) { |last| <= |env| && env[|env| - |last|..] == last }

  function ShownPort(port: int): string { if port >= 0 then Decimal(port) else "" }

  // ---------- what the pods mount ----------

  /** The volume behind a path in a container. */
  function VolumeAt(t: Template, mounts: seq<Mount>, path: string): Option<Volume> {
    match MountAt(mounts, path) case None => None case Some(m) => VolumeNamed(t.volumes, m.name)
  }

  lemma Leads(t: Template, mounts: seq<Mount>, m: Mount, v: Volume)
    requires DistinctPaths(mounts) && DistinctVolumes(t.volumes) && m in mounts && v in t.volumes && m.name == v.name
    ensures VolumeAt(t, mounts, m.path) == Some(v)
  {
    MountFound(mounts, m);
    VolumeFound(t.volumes, v);
  }

  /**
   * What the init script writes is what Kea reads: the writable mount of the init container and
   * the mount of Kea, and of the Stork sidecar, lead to one and the same volume of the pod, and a
   * TLS Secret is mounted where the documentation says.
   */
  lemma ActiveConfigShared(p: StatefulSetParams, peerOps: seq<ScriptOp>)
    ensures var t := StatefulSetTemplate(p, peerOps);
            && VolumeAt(t, t.initMounts, "/etc/kea/active").Some?
            && VolumeAt(t, t.initMounts, "/etc/kea/active").value.source == EmptyDir
            && !MountAt(t.initMounts, "/etc/kea/active").value.readOnly
            && VolumeAt(t, t.mainMounts, "/etc/kea") == VolumeAt(t, t.initMounts, "/etc/kea/active")
            && MountAt(t.mainMounts, "/etc/kea").value.readOnly
            && (p.stork ==> VolumeAt(t, t.storkMounts, "/etc/kea") == VolumeAt(t, t.initMounts, "/etc/kea/active"))
            && (p.tlsSecret != "" ==> VolumeAt(t, t.mainMounts, "/etc/kea/tls") == Some(Volume("kea-tls", FromSecret(p.tlsSecret))))
  {
    var t := StatefulSetTemplate(p, peerOps);
    StatefulSetClosed(p, peerOps);
    assert t.volumes[0] == ACTIVE_CONFIG && t.initMounts[0] == INIT_MOUNTS[0] && t.mainMounts[0] == MAIN_MOUNTS[0];
    Leads(t, t.initMounts, INIT_MOUNTS[0], ACTIVE_CONFIG);
    MountFound(t.initMounts, INIT_MOUNTS[0]);
    Leads(t, t.mainMounts, MAIN_MOUNTS[0], ACTIVE_CONFIG);
    MountFound(t.mainMounts, MAIN_MOUNTS[0]);
    if p.stork {
      assert t.storkMounts[0] == Mount("kea-active-config", "/etc/kea", true);
      Leads(t, t.storkMounts, t.storkMounts[0], ACTIVE_CONFIG);
    }
    if p.tlsSecret != "" {
      var volume, mount := Volume("kea-tls", FromSecret(p.tlsSecret)), Mount("kea-tls", "/etc/kea/tls", true);
      assert t.volumes[|t.volumes| - 1] == volume && t.mainMounts[|t.mainMounts| - 1] == mount;
      Leads(t, t.mainMounts, mount, volume);
    }
  }

  /** Where a Deployment mounts its ConfigMap: at the place Kea reads, unless there is something to expand. */
  function PlainPath(envVars: seq<EnvVar>): string { if envVars == [] then "/etc/kea" else "/etc/kea-template" }

  lemma StorkPathsDistinct(volume: string)
    ensures DistinctPaths(StorkMounts(volume))
  {
    assert |"/etc/kea"| == 8 && |"/var/run/kea"| == 12;
  }

  lemma PlainVolumes(p: DeploymentParams)
    ensures var t := DeploymentTemplate(p);
            && VolumeAt(t, t.mainMounts, PlainPath(p.secretEnvVars)) == Some(Volume("kea-config", FromConfigMap(p.configMapName)))
            && (p.secretEnvVars != [] ==> VolumeAt(t, t.mainMounts, "/etc/kea") == Some(Volume("kea-config-rendered", EmptyDir)))
            && (p.stork ==> VolumeAt(t, t.storkMounts, "/etc/kea") == Some(Volume("kea-config", FromConfigMap(p.configMapName))))
            && t.env == p.secretEnvVars
  {
    var t := DeploymentTemplate(p);
    DeploymentVolumesDistinct(p);
    DeploymentPathsDistinct(p);
    var config := Mount("kea-config", PlainPath(p.secretEnvVars), true);
    assert t.volumes[0] == Volume("kea-config", FromConfigMap(p.configMapName)) && t.mainMounts[0] == config;
    Leads(t, t.mainMounts, config, t.volumes[0]);
    if p.secretEnvVars != [] {
      assert t.volumes[3] == Volume("kea-config-rendered", EmptyDir);
      assert t.mainMounts[3] == Mount("kea-config-rendered", "/etc/kea", false);
      Leads(t, t.mainMounts, t.mainMounts[3], t.volumes[3]);
    }
    if p.stork {
      assert t.storkMounts[0] == Mount("kea-config", "/etc/kea", true);
      StorkPathsDistinct("kea-config");
      Leads(t, t.storkMounts, t.storkMounts[0], t.volumes[0]);
    }
  }

  /** The pods of the workload in the store. */
  function StoredPods(store: Store, kind: Kind, s: Server): Option<PodSpec> {
    var id := Id(kind, s.namespace, StatefulSetName(s.cr, Dhcp4));
    if id in store && store[id].body.Workload? then Some(store[id].body.spec) else None
  }

  /** The stored workload is the desired one, but for the settings defaulting completes. */
  lemma StoredWorkload(d: Body -> Body, store: Store, owner: string, s: Server, world: World, v: Visit)
    requires KeepsPods(d) && Convergence.ChecksOf(PlanOf(s, world), RendererOf(s, world))
    requires AllConform(d, store, owner, StepsOf(s, world, v))
    ensures var w, kind := DesiredWorkload(s, world, v), if HA(s) then StatefulSet else Deployment;
            && StoredPods(store, kind, s).Some? && StoredPods(store, kind, s).value.Pods?
            && StoredPods(store, kind, s).value == w.(settings := StoredPods(store, kind, s).value.settings)
            && store[Id(kind, s.namespace, StatefulSetName(s.cr, Dhcp4))].body == d(Workload(w))
  {
    var p, render, w := PlanOf(s, world), RendererOf(s, world), DesiredWorkload(s, world, v);
    var k := Convergence.WorkloadPosition(p, render, w, w);
    assert C.DesiredSteps(p, render, w)[k] in StepsOf(s, world, v);
    assert Conforms(d, store, owner, Convergence.WorkloadObject(p, w));
  }

  /**
   * Without high availability: in a converged cluster Kea finds the configuration rendered for
   * the resource. The ConfigMap with its text is mounted where Kea reads; with secret variables it is
   * mounted as a template, next to an empty volume where Kea reads. The Stork sidecar reads the text
   * in the ConfigMap in both cases.
   */
  lemma PlainConfig(d: Body -> Body, store: Store, owner: string, s: Server, world: World, v: Visit)
    requires KeepsData(d) && KeepsPods(d) && !HA(s) && AllConform(d, store, owner, StepsOf(s, world, v))
    ensures var pods := StoredPods(store, Deployment, s);
            && pods.Some? && pods.value.Pods?
            && var t := pods.value.template;
               var config := VolumeAt(t, t.mainMounts, PlainPath(SecretEnvVars(s.spec)));
               && config.Some?
               && FileIn(store, s.namespace, config.value, "kea-dhcp4.conf") == Some(world.marshal(ConfigTree(s, "")))
               && (SecretEnvVars(s.spec) != [] ==>
                     && VolumeAt(t, t.mainMounts, "/etc/kea").Some?
                     && VolumeAt(t, t.mainMounts, "/etc/kea").value.source == EmptyDir)
               && (s.stork.Some? ==> VolumeAt(t, t.storkMounts, "/etc/kea") == config)
               && t.env == SecretEnvVars(s.spec)
  {
    PlainText(d, store, owner, s, world, v);
    StoredWorkload(d, store, owner, s, world, v);
    PlainVolumes(PlainParamsOf(s));
    FileOfConfigMap(store, s, world.marshal(ConfigTree(s, "")));
  }

  /** The ConfigMap of a resource without high availability holds its text. */
  predicate TextStored(store: Store, s: Server, text: string) {
    var id := Id(ConfigMap, s.namespace, ConfigMapName(s.cr, Dhcp4));
    id in store && store[id].body == Data(map["kea-dhcp4.conf" := text])
  }

  lemma PlainText(d: Body -> Body, store: Store, owner: string, s: Server, world: World, v: Visit)
    requires KeepsData(d) && !HA(s) && AllConform(d, store, owner, StepsOf(s, world, v))
    ensures TextStored(store, s, world.marshal(ConfigTree(s, "")))
  {
    var p, text := PlanOf(s, world), world.marshal(ConfigTree(s, ""));
    var cm := BuildConfigMap(p.namespace, ConfigMapName(p.cr, Dhcp4), p.cr, Dhcp4, text);
    assert Apply(cm, true) in C.PlainSteps(p, text, DesiredWorkload(s, world, v));
    assert Conforms(d, store, owner, cm);
  }

  lemma FileOfConfigMap(store: Store, s: Server, text: string)
    requires TextStored(store, s, text)
    ensures FileIn(store, s.namespace, Volume("kea-config", FromConfigMap(ConfigMapName(s.cr, Dhcp4))), "kea-dhcp4.conf") == Some(text)
  {
  }

  /** With high availability: Kea reads what the init script selected and rewrote. */
  lemma StartedMounts(d: Body -> Body, store: Store, owner: string, s: Server, world: World, v: Visit)
    requires KeepsPods(d) && HA(s) && HostsValid(FilledPeers(s), world.parse) && AllConform(d, store, owner, StepsOf(s, world, v))
    ensures StoredTemplate(store, s).Some?
    ensures var t := StoredTemplate(store, s).value;
            && VolumeAt(t, t.initMounts, "/etc/kea/active").Some?
            && VolumeAt(t, t.initMounts, "/etc/kea/active").value.source == EmptyDir
            && VolumeAt(t, t.mainMounts, "/etc/kea") == VolumeAt(t, t.initMounts, "/etc/kea/active")
            && (s.stork.Some? ==> VolumeAt(t, t.storkMounts, "/etc/kea") == VolumeAt(t, t.initMounts, "/etc/kea/active"))
            && (s.spec.highAvailability.value.tlsSecret.Some? && s.spec.highAvailability.value.tlsSecret.value != "" ==>
                  VolumeAt(t, t.mainMounts, "/etc/kea/tls")
                  == Some(Volume("kea-tls", FromSecret(s.spec.highAvailability.value.tlsSecret.value))))
  {
    StoredTemplateIs(d, store, owner, s, PlanOf(s, world), RendererOf(s, world), DesiredWorkload(s, world, v));
    ActiveConfigShared(ParamsOf(s, world), v.peerOps);
  }

  // ---------- the hash and the rest of the workload ----------

  /**
   * The workload in a converged cluster has as many pods as the resource asks for, the sidecar
   * its lookups came to, expands the secret variables where no init script does, and carries the
   * hash of what it was rendered from: of the configuration without high availability, of the joined
   * hashes of all ordinals with it.
   */
  lemma WorkloadCarries(d: Body -> Body, store: Store, owner: string, s: Server, world: World, v: Visit)
    requires KeepsPods(d) && Convergence.ChecksOf(PlanOf(s, world), RendererOf(s, world))
    requires AllConform(d, store, owner, StepsOf(s, world, v))
    ensures var pods := StoredPods(store, if HA(s) then StatefulSet else Deployment, s);
            && pods.Some? && pods.value.Pods?
            && pods.value.replicas == Pods(s)
            && pods.value.sidecar == SidecarOf(s.stork, v.lookups)
            && |pods.value.expansions| == (if HA(s) then 0 else |SecretEnvVars(s.spec)|)
            && (forall i | 0 <= i < |pods.value.expansions| :: pods.value.expansions[i] == SecretEnvVars(s.spec)[i].name)
            && pods.value.configHash ==
               if HA(s) then
                 world.hash(ChangeDetection.JoinHashes(world.hash,
                   ChangeDetection.RenderedConfigs(PlanOf(s, world), RendererOf(s, world), Pods(s))))
               else world.hash(world.marshal(ConfigTree(s, "")))
  {
    StoredWorkload(d, store, owner, s, world, v);
    ChangeDetection.JoinedHashes(PlanOf(s, world), RendererOf(s, world), world.hash, Pods(s));
  }

  /**
   * Two resources without high availability: their workloads carry the same hash exactly when
   * they run with the same configuration, as long as these two texts do not collide.
   */
  lemma PlainHashTells(d: Body -> Body, store: Store, owner: string, s: Server, v: Visit,
                       store': Store, owner': string, s': Server, v': Visit, world: World)
    requires KeepsPods(d) && !HA(s) && !HA(s')
    requires AllConform(d, store, owner, StepsOf(s, world, v)) && AllConform(d, store', owner', StepsOf(s', world, v'))
    requires var a, b := world.marshal(ConfigTree(s, "")), world.marshal(ConfigTree(s', ""));
             world.hash(a) == world.hash(b) ==> a == b
    ensures var pods, pods' := StoredPods(store, Deployment, s), StoredPods(store', Deployment, s');
            && pods.Some? && pods.value.Pods? && pods'.Some? && pods'.value.Pods?
            && (pods.value.configHash == pods'.value.configHash <==>
                  world.marshal(ConfigTree(s, "")) == world.marshal(ConfigTree(s', "")))
  {
    WorkloadCarries(d, store, owner, s, world, v);
    WorkloadCarries(d, store', owner', s', world, v');
  }

  /**
   * Two resources with high availability: their workloads carry the same hash exactly when they
   * have the same number of pods and the same configuration for every ordinal, as long as no two
   * of the texts that were hashed collide.
   */
  lemma HAHashTells(d: Body -> Body, store: Store, owner: string, s: Server, v: Visit,
                    store': Store, owner': string, s': Server, v': Visit, world: World)
    requires KeepsPods(d) && HA(s) && HA(s')
    requires HostsValid(FilledPeers(s), world.parse) && HostsValid(FilledPeers(s'), world.parse)
    requires AllConform(d, store, owner, StepsOf(s, world, v)) && AllConform(d, store', owner', StepsOf(s', world, v'))
    requires ChangeDetection.FixedWidth(world.hash)
    requires ChangeDetection.NoCollision(PlanOf(s, world), RendererOf(s, world), PlanOf(s', world), RendererOf(s', world), world.hash)
    ensures var pods, pods' := StoredPods(store, StatefulSet, s), StoredPods(store', StatefulSet, s');
            && pods.Some? && pods.value.Pods? && pods'.Some? && pods'.value.Pods?
            && (pods.value.configHash == pods'.value.configHash <==>
                  Pods(s) == Pods(s') && forall o: nat | o < Pods(s) :: ConfigText(s, world, o) == ConfigText(s', world, o))
  {
    HAHashStored(d, store, owner, s, world, v);
    HAHashStored(d, store', owner', s', world, v');
    ChangeDetection.EqualHashSameConfigs(PlanOf(s, world), RendererOf(s, world), PlanOf(s', world), RendererOf(s', world), world.hash);
    forall o: nat
      ensures RendererOf(s, world)(C.ServerName(PlanOf(s, world), o)) == Some(ConfigText(s, world, o))
      ensures RendererOf(s', world)(C.ServerName(PlanOf(s', world), o)) == Some(ConfigText(s', world, o))
    {
    }
  }

  /** The text rendered for an ordinal. */
  function ConfigText(s: Server, world: World, o: nat): string { world.marshal(ConfigOf(s, world, o)) }

  lemma HAHashStored(d: Body -> Body, store: Store, owner: string, s: Server, world: World, v: Visit)
    requires KeepsPods(d) && HA(s) && HostsValid(FilledPeers(s), world.parse) && AllConform(d, store, owner, StepsOf(s, world, v))
    ensures var pods := StoredPods(store, StatefulSet, s);
            && pods.Some? && pods.value.Pods?
            && pods.value.configHash == ChangeDetection.TemplateHash(PlanOf(s, world), RendererOf(s, world), world.hash)
    ensures PlanOf(s, world).replicas == Pods(s)
  {
    StoredWorkload(d, store, owner, s, world, v);
  }

  // ---------- in which order things appear ----------

  /**
   * Whatever fails in it, a reconcile returns without error exactly when no peer has an invalid host
   * name and every call succeeds, as it would on the store at the start; errors on the monitor, the
   * Route and the ConfigMaps of ordinals do not count.
   */
  lemma ServerSucceedsExactly(d: Body -> Body, store: Store, owner: string, s: Server, world: World, v: Visit, calls: seq<Call>)
    requires OnlyDefaults(d) && ValidStore(d, store) && |calls| == |StepsOf(s, world, v)| && ValidCalls(calls)
    ensures var steps := StepsOf(s, world, v);
            Run(d, store, owner, steps, calls).1 <==>
              && (HA(s) ==> HostsValid(FilledPeers(s), world.parse))
              && forall i | 0 <= i < |steps| && steps[i].Apply? && steps[i].desired.id.kind !in {PodMonitor, Route}
                            && !(HA(s) && steps[i].desired.id.kind == ConfigMap) ::
                   ReconcileOne(d, store, owner, steps[i].desired, calls[i]).1
  {
    Convergence.ReconcileSucceedsExactly(d, store, owner, PlanOf(s, world), RendererOf(s, world), DesiredWorkload(s, world, v), calls);
  }

  /** A peer with an invalid host name fails every reconcile, and none changes the workload or anything behind it. */
  lemma InvalidHostBlocks(d: Body -> Body, store: Store, owner: string, s: Server, world: World, v: Visit, calls: seq<Call>, id: Id)
    requires OnlyDefaults(d) && ValidStore(d, store) && |calls| == |StepsOf(s, world, v)| && ValidCalls(calls)
    requires HA(s) && !HostsValid(FilledPeers(s), world.parse)
    requires id.kind == StatefulSet || id == Id(Service, s.namespace, ServiceName(s.cr, Dhcp4))
    ensures var (after, ok) := Run(d, store, owner, StepsOf(s, world, v), calls);
            !ok && SameObject(store, after, id)
  {
    var p, render, w := PlanOf(s, world), RendererOf(s, world), DesiredWorkload(s, world, v);
    InvalidPlanBlocks(d, store, owner, p, render, w, calls, id);
  }

  lemma InvalidPlanBlocks(d: Body -> Body, store: Store, owner: string, p: C.Plan, render: C.Renderer, w: PodSpec,
                          calls: seq<Call>, id: Id)
    requires OnlyDefaults(d) && ValidStore(d, store) && |calls| == |C.DesiredSteps(p, render, w)| && ValidCalls(calls)
    requires p.ha && !p.hostsValid && forall name :: render(name).Some?
    requires id.kind == StatefulSet || id == Id(Service, p.namespace, ServiceName(p.cr, Dhcp4))
    ensures var (after, ok) := Run(d, store, owner, C.DesiredSteps(p, render, w), calls);
            !ok && SameObject(store, after, id)
  {
    var front, back := BeforeCheck(p, render), [Apply(Convergence.WorkloadObject(p, w), true)] + C.TailSteps(p);
    Convergence.HAPosition(p, render, w, |front| + 1);
    SplitAtCheck(front, Apply(Convergence.WorkloadObject(p, w), true), C.TailSteps(p));
    C.DesiredDistinct(p, render, w);
    assert forall step | step in front :: step in C.DesiredSteps(p, render, w);
    FrontAvoids(p, render, id);
    CheckBlocks(d, store, owner, front, back, calls);
    RunLeavesAlone(d, store, owner, front, calls[..|front|], id);
  }

  function BeforeCheck(p: C.Plan, render: C.Renderer): seq<Step> {
    C.HAConfigSteps(p, render, p.replicas) + [C.AccountStep(p)]
    + [Apply(BuildHeadlessService(C.Params(p, p.haPort)), true)] + C.PerPodSteps(p, p.replicas)
  }

  lemma SplitAtCheck(front: seq<Step>, x: Step, tail: seq<Step>)
    ensures front + [Check(false)] + [x] + tail == front + [Check(false)] + ([x] + tail)
  {
  }

  lemma FrontAvoids(p: C.Plan, render: C.Renderer, id: Id)
    requires forall name :: render(name).Some?
    requires id.kind == StatefulSet || id == Id(Service, p.namespace, ServiceName(p.cr, Dhcp4))
    ensures !Mentions(BeforeCheck(p, render), id)
  {
    var configs, account := C.HAConfigSteps(p, render, p.replicas), [C.AccountStep(p)];
    var headless, services := Apply(BuildHeadlessService(C.Params(p, p.haPort)), true), C.PerPodSteps(p, p.replicas);
    MentionsJoin(configs + account + [headless], services, id);
    MentionsJoin(configs + account, [headless], id);
    MentionsJoin(configs, account, id);
    ConfigMapIds(p, render, p.replicas, id);
    MentionsOne(C.AccountStep(p), id);
    MentionsOne(headless, id);
    PerPodIds(p, p.replicas, id);
    forall i: nat ensures |PerPodServiceName(p.cr, Dhcp4, i)| > |ServiceName(p.cr, Dhcp4)| {
    }
    assert |HeadlessServiceName(p.cr, Dhcp4)| > |ServiceName(p.cr, Dhcp4)|;
  }

  /** Nothing happens behind a check that fails. */
  lemma CheckBlocks(d: Body -> Body, store: Store, owner: string, front: seq<Step>, back: seq<Step>, calls: seq<Call>)
    requires |calls| == |front| + 1 + |back|
    ensures Run(d, store, owner, front + [Check(false)] + back, calls)
            == (Run(d, store, owner, front, calls[..|front|]).0, false)
  {
    var n := |front|;
    assert calls == calls[..n] + [calls[n]] + calls[n + 1..];
    RunAppend(d, store, owner, front + [Check(false)], calls[..n] + [calls[n]], back, calls[n + 1..]);
    RunAppend(d, store, owner, front, calls[..n], [Check(false)], [calls[n]]);
    assert [Check(false)][..0] == [] && [calls[n]][..0] == [];
  }

  /**
   * A reconcile that creates or changes the workload, aborted anywhere behind it, has established
   * what the pods need first: with high availability the headless and all per-pod Services, without
   * it the ConfigMap, and the service account in both cases.
   */
  lemma WorkloadComesAfter(d: Body -> Body, store: Store, owner: string, s: Server, world: World, v: Visit, calls: seq<Call>,
                           id: Id)
    requires OnlyDefaults(d) && ValidStore(d, store) && Convergence.ChecksOf(PlanOf(s, world), RendererOf(s, world))
    requires |calls| == |StepsOf(s, world, v)| && ValidCalls(calls) && AllUnobstructed(store, owner, StepsOf(s, world, v))
    requires var after := Run(d, store, owner, StepsOf(s, world, v), calls).0;
             !SameObject(store, after, Convergence.WorkloadObject(PlanOf(s, world), DesiredWorkload(s, world, v)).id)
    requires Needed(s, id)
    ensures ConformsIn(d, Run(d, store, owner, StepsOf(s, world, v), calls).0, owner, StepsOf(s, world, v), id)
  {
    var p, render, w := PlanOf(s, world), RendererOf(s, world), DesiredWorkload(s, world, v);
    C.DesiredDistinct(p, render, w);
    var i, k := NeededBefore(s, world, v, id);
    EarlierEstablished(d, store, owner, StepsOf(s, world, v), calls, i, k);
    assert StepsOf(s, world, v)[i] in StepsOf(s, world, v);
  }

  /** The object of this identity conforms to what the list wants of it. */
  ghost predicate ConformsIn(d: Body -> Body, store: Store, owner: string, steps: seq<Step>, id: Id) {
    exists s :: s in steps && s.Apply? && s.desired.id == id && Conforms(d, store, owner, s.desired)
  }

  /** What the pods need before they start. */
  predicate Needed(s: Server, id: Id) {
    && id.namespace == s.namespace
    && (|| (id.kind == ServiceAccount && id.name == ServiceAccountName(s.cr))
        || (HA(s) && id.kind == Service && id.name == HeadlessServiceName(s.cr, Dhcp4))
        || (HA(s) && id.kind == Service && exists j: nat :: j < Pods(s) && id.name == PerPodServiceName(s.cr, Dhcp4, j))
        || (!HA(s) && id.kind == ConfigMap && id.name == ConfigMapName(s.cr, Dhcp4)))
  }

  /** Such an object stands in front of the workload, and errors on it end the reconcile. */
  lemma NeededBefore(s: Server, world: World, v: Visit, id: Id) returns (i: nat, k: nat)
    requires Convergence.ChecksOf(PlanOf(s, world), RendererOf(s, world)) && Needed(s, id)
    ensures var steps, w := StepsOf(s, world, v), DesiredWorkload(s, world, v);
            && i < k < |steps| && steps[i].Apply? && steps[i].fatal && steps[i].desired.id == id
            && steps[k] == Apply(Convergence.WorkloadObject(PlanOf(s, world), w), true)
  {
    if HA(s) {
      i, k := HANeededBefore(PlanOf(s, world), RendererOf(s, world), DesiredWorkload(s, world, v), id);
    } else {
      i, k := if id.kind == ConfigMap then 0 else 1, 2;
    }
  }

  lemma HANeededBefore(p: C.Plan, render: C.Renderer, w: PodSpec, id: Id) returns (i: nat, k: nat)
    requires p.ha && p.hostsValid && id.namespace == p.namespace
    requires || (id.kind == ServiceAccount && id.name == ServiceAccountName(p.cr))
             || (id.kind == Service && id.name == HeadlessServiceName(p.cr, Dhcp4))
             || (id.kind == Service && exists j: nat :: j < p.replicas && id.name == PerPodServiceName(p.cr, Dhcp4, j))
    ensures var steps := C.DesiredSteps(p, render, w);
            && i < k < |steps| && steps[i].Apply? && steps[i].fatal && steps[i].desired.id == id
            && steps[k] == Apply(Convergence.WorkloadObject(p, w), true)
  {
    var front := Convergence.HAUpToWorkload(p, render);
    k := |front|;
    Convergence.HAPosition(p, render, w, k);
    i := InFront(p, render, id);
    Between(front, Apply(Convergence.WorkloadObject(p, w), true), C.TailSteps(p), i);
  }

  lemma Between(front: seq<Step>, x: Step, back: seq<Step>, i: nat)
    requires i < |front|
    ensures var all := front + [x] + back; |front| < |all| && all[i] == front[i] && all[|front|] == x
  {
  }

  lemma InFront(p: C.Plan, render: C.Renderer, id: Id) returns (i: nat)
    requires p.ha && id.namespace == p.namespace
    requires || (id.kind == ServiceAccount && id.name == ServiceAccountName(p.cr))
             || (id.kind == Service && id.name == HeadlessServiceName(p.cr, Dhcp4))
             || (id.kind == Service && exists j: nat :: j < p.replicas && id.name == PerPodServiceName(p.cr, Dhcp4, j))
    ensures var front := Convergence.HAUpToWorkload(p, render);
            i < |front| && front[i].Apply? && front[i].fatal && front[i].desired.id == id
  {
    var configs := C.HAConfigSteps(p, render, p.replicas);
    C.PerPodLength(p, p.replicas);
    if id.kind == ServiceAccount {
      i := |configs|;
    } else if id.name == HeadlessServiceName(p.cr, Dhcp4) {
      i := |configs| + 1;
    } else {
      var j: nat :| j < p.replicas && id.name == PerPodServiceName(p.cr, Dhcp4, j);
      C.PerPodAt(p, j, p.replicas);
      i := |configs| + 2 + j;
    }
  }
}
