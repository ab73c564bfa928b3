/** Resource builders: Services (service.go), ConfigMaps, service accounts and monitors. */
module Builders {
  import opened Options
  import opened Strings
  import opened Names
  import opened ApiServer
  import T = Templates

  const POD_NAME_LABEL := "statefulset.kubernetes.io/pod-name"

  function CommonLabels(cr: string, c: Component): map<string, string> {
    map["app.kubernetes.io/name" := "kea",
        "app.kubernetes.io/instance" := cr,
        "app.kubernetes.io/component" := c.Text(),
        "app.kubernetes.io/managed-by" := "kea-operator",
        "app.kubernetes.io/part-of" := "kea-dhcp"]
  }

  datatype ServiceParams = ServiceParams(namespace: string, cr: string, component: Component, port: int, protocol: string)

  function ComponentPort(p: ServiceParams): ServicePort {
    ServicePort(p.component.Text(), p.port, IntPort(p.port), if p.protocol == "" then "TCP" else p.protocol)
  }

  function BuildHeadlessService(p: ServiceParams): Object {
    Object(Id(Service, p.namespace, HeadlessServiceName(p.cr, p.component)),
           CommonLabels(p.cr, p.component), None,
           ServiceSpec(CommonLabels(p.cr, p.component), [ComponentPort(p)], true, "None", []), "")
  }

  function BuildService(p: ServiceParams): Object {
    Object(Id(Service, p.namespace, ServiceName(p.cr, p.component)),
           CommonLabels(p.cr, p.component), None,
           ServiceSpec(CommonLabels(p.cr, p.component), [ComponentPort(p)], false, "", []), "")
  }

  function BuildPerPodService(p: ServiceParams, ordinal: nat): Object {
    Object(Id(Service, p.namespace, PerPodServiceName(p.cr, p.component, ordinal)),
           CommonLabels(p.cr, p.component), None,
           ServiceSpec(map[POD_NAME_LABEL := PodName(StatefulSetName(p.cr, p.component), ordinal)],
                       [ComponentPort(p)], false, "", []), "")
  }

  function BuildStorkMetricsService(namespace: string, cr: string, c: Component, agentPort: int, promPort: int): Object {
    Object(Id(Service, namespace, StorkMetricsServiceName(cr, c)),
           CommonLabels(cr, c), None,
           ServiceSpec(CommonLabels(cr, c),
                       [ServicePort("stork-prom", promPort, NamedPort("stork-prom"), "TCP"),
                        ServicePort("stork-agent", agentPort, NamedPort("stork-agent"), "TCP")],
                       false, "", []), "")
  }

  function BuildServiceAccount(namespace: string, cr: string, c: Component): Object {
    Object(Id(ServiceAccount, namespace, ServiceAccountName(cr)), CommonLabels(cr, c), None, Account(""), "")
  }

  function ConfigFileName(c: Component): string {
    match c
    case Dhcp4 => "kea-dhcp4.conf"
    case Dhcp6 => "kea-dhcp6.conf"
    case CtrlAgent => "kea-ctrl-agent.conf"
    case Ddns => "kea-dhcp-ddns.conf"
    case StorkServer => "kea-stork-server.conf"
  }

  function BuildConfigMap(namespace: string, name: string, cr: string, c: Component, config: string): Object {
    Object(Id(ConfigMap, namespace, name), CommonLabels(cr, c), None, Data(map[ConfigFileName(c) := config]), "")
  }

  function BuildWorkload(kind: Kind, namespace: string, cr: string, c: Component, spec: T.PodSpec): Object {
    Object(Id(kind, namespace, StatefulSetName(cr, c)), CommonLabels(cr, c), None, Workload(spec), "")
  }

  function BuildPodMonitor(namespace: string, cr: string, c: Component): Object {
    Object(Id(PodMonitor, namespace, StatefulSetName(cr, c)), CommonLabels(cr, c), None,
           Workload(T.OtherSpec("port stork-prom, path /metrics, interval 30s")), "")
  }

  /** The Route of the Stork metrics carries the name of the Service it leads to. */
  function BuildStorkMetricsRoute(namespace: string, cr: string, c: Component): Object {
    Object(Id(Route, namespace, StorkMetricsServiceName(cr, c)), CommonLabels(cr, c), None,
           Workload(T.OtherSpec("to " + StorkMetricsServiceName(cr, c) + ", port stork-prom, tls edge")), "")
  }

  // ---------- which pods a Service selects ----------

  predicate Selects(selector: map<string, string>, labels: map<string, string>) {
    forall k | k in selector :: k in labels && labels[k] == selector[k]
  }

  /** Labels of a StatefulSet pod: those of the template, plus its name. */
  function PodLabels(cr: string, c: Component, ordinal: nat): map<string, string> {
    CommonLabels(cr, c)[POD_NAME_LABEL := PodName(StatefulSetName(cr, c), ordinal)]
  }

  lemma PodNameDecodes(cr: string, c: Component, i: nat, cr': string, c': Component, j: nat)
    requires PodName(StatefulSetName(cr, c), i) == PodName(StatefulSetName(cr', c'), j)
    ensures cr == cr' && c == c' && i == j
  {
    assert RoleName(cr, c, Ordinal(i)) == PodName(StatefulSetName(cr, c), i);
    assert RoleName(cr', c', Ordinal(j)) == PodName(StatefulSetName(cr', c'), j);
    RoleNameDecodes(cr, c, Ordinal(i), cr', c', Ordinal(j));
  }

  /** A per-pod Service selects the pod of its ordinal and no pod of any other ordinal, component or resource. */
  lemma PerPodSelectsOnePod(p: ServiceParams, i: nat, cr: string, c: Component, j: nat)
    ensures Selects(BuildPerPodService(p, i).body.selector, PodLabels(cr, c, j))
            <==> (p.cr, p.component, i) == (cr, c, j)
  {
    var selector, labels := BuildPerPodService(p, i).body.selector, PodLabels(cr, c, j);
    assert POD_NAME_LABEL in selector;
    if Selects(selector, labels) {
      assert selector[POD_NAME_LABEL] == labels[POD_NAME_LABEL];
      PodNameDecodes(p.cr, p.component, i, cr, c, j);
    }
  }
}
