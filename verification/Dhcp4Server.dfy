/**
 * The DHCPv4 resource from its spec to the objects in the cluster: everything a reconcile derives
 * from the spec, from the order in which it visits its maps, and from its lookups.
 */
module Dhcp4Server {
  import opened Options
  import opened Strings
  import opened Names
  import opened Spec
  import opened Secrets
  import opened ApiServer
  import opened Builders
  import opened Templates
  import opened PodTemplate
  import opened HaWiring
  import opened StorkAgent
  import opened Runs
  import opened Controller
  import Json
  import Nad
  import Render
  import Renderer

  /** `settings` is what the workload copies from the resource: image, placement and the like. */
  datatype Server = Server(namespace: string, cr: string, spec: Dhcp4Spec, stork: Option<StorkConfig>, settings: string)

  /** URL parsing, JSON text, the hash, and the platform. */
  datatype World = World(parse: UrlHost, marshal: Json.Json -> string, hash: string -> string, openShift: bool)

  const COMMAND := "/usr/sbin/kea-dhcp4"

  function SiteOf(s: Server): Site { Site(s.namespace, s.cr, COMPONENT) }

  function ReplicasOf(s: Server): nat { if s.spec.replicas.Some? then s.spec.replicas.value else 1 }

  predicate HA(s: Server) { s.spec.highAvailability.Some? }

  /** The port of the control socket; the API admits ports from 1 on. */
  function SocketPort(s: Server): nat {
    var cs := s.spec.controlSocket;
    if cs.Some? && cs.value.socketPort.Some? && cs.value.socketPort.value >= 0 then cs.value.socketPort.value else 8000
  }

  /** The peers with their URLs filled in. */
  function FilledPeers(s: Server): (r: seq<HAPeer>)
    ensures HA(s) ==> |r| == |s.spec.highAvailability.value.peers|
  {
    if !HA(s) then []
    else
      var peers := s.spec.highAvailability.value.peers;
      seq(|peers|, i requires 0 <= i < |peers| => Filled(peers[i], s.namespace, s.cr, COMPONENT, i, SocketPort(s)))
  }

  function FilledSpec(s: Server): Dhcp4Spec {
    if !HA(s) then s.spec
    else s.spec.(highAvailability := Some(s.spec.highAvailability.value.(peers := FilledPeers(s))))
  }

  /** The placeholders of every database. */
  function CredsOf(spec: Dhcp4Spec): Credentials {
    var dbs := spec.hostsDatabases;
    Credentials(DbCredentialEnvVars("KEA_LEASE_DB", spec.leaseDatabase).1,
                DbCredentialEnvVars("KEA_HOSTS_DB", spec.hostsDatabase).1,
                seq(|dbs|, i requires 0 <= i < |dbs| => DbCredentialEnvVars(HostsPrefix(i), Some(dbs[i])).1))
  }

  /** The configuration for a server name. */
  function ConfigTree(s: Server, name: string): Json.Json {
    Render.RootTree(FilledSpec(s), CredsOf(FilledSpec(s)), name)
  }

  function RendererOf(s: Server, world: World): Controller.Renderer { name => Some(world.marshal(ConfigTree(s, name))) }

  function PlanOf(s: Server, world: World): Plan {
    Plan(s.namespace, s.cr, ReplicasOf(s), HA(s), FilledPeers(s), HostsValid(FilledPeers(s), world.parse), SocketPort(s),
         if s.spec.controlSocket.Some? && s.spec.controlSocket.value.socketType == "http" then Some(SocketPort(s)) else None,
         if s.stork.Some? then Some((AgentPort(s.stork.value), PrometheusPort(s.stork.value))) else None,
         world.openShift)
  }

  // ---------- the workload ----------

  /** What one reconcile depends on beside the resource: the order of its maps, and its lookups. */
  datatype Visit = Visit(peerOps: seq<ScriptOp>, arms: seq<Arm>, lookups: Lookups)

  function PeerHosts(s: Server, world: World): map<string, string> { HostMap(FilledPeers(s), world.parse, SiteOf(s)) }

  ghost predicate ValidVisit(s: Server, world: World, v: Visit) {
    HA(s) && HostsValid(FilledPeers(s), world.parse) ==>
      && Enumerates(v.peerOps, PeerHosts(s, world))
      && Nad.EnumeratesArms(v.arms, Nad.StaticAddresses(FilledPeers(s)))
  }

  function TLSSecret(s: Server): string {
    if HA(s) && s.spec.highAvailability.value.tlsSecret.Some? then s.spec.highAvailability.value.tlsSecret.value else ""
  }

  function ConfigMapNames(s: Server, n: nat): map<nat, string> {
    map i: nat | i < n :: HAConfigMapName(s.cr, COMPONENT, i)
  }

  function ParamsOf(s: Server, world: World): StatefulSetParams {
    StatefulSetParams(s.cr, COMPONENT, Some(ReplicasOf(s)), ConfigMapNames(s, ReplicasOf(s)), PeerHosts(s, world),
                      TLSSecret(s), s.stork.Some?, SecretEnvVars(FilledSpec(s)))
  }

  function PlainParamsOf(s: Server): DeploymentParams {
    DeploymentParams(ConfigMapName(s.cr, COMPONENT), TLSSecret(s), s.stork.Some?, SecretEnvVars(s.spec))
  }

  function IfaceOf(s: Server): string { Nad.NadInterface(s.spec.interfacesConfig.interfaces) }

  function SubnetOf(s: Server): string { Nad.NadSubnet(s.spec.subnet4) }

  function StartOf(s: Server, v: Visit): Start {
    Nad.StatefulSetStart(IfaceOf(s), SubnetOf(s), COMMAND, Nad.StaticAddresses(FilledPeers(s)), v.arms)
  }

  function EnvNames(envVars: seq<EnvVar>): seq<string> {
    seq(|envVars|, i requires 0 <= i < |envVars| => envVars[i].name)
  }

  function StatefulSetOf(s: Server, world: World, v: Visit, configHash: string): PodSpec {
    Pods(ReplicasOf(s), StatefulSetTemplate(ParamsOf(s, world), v.peerOps), StartOf(s, v), [],
         SidecarOf(s.stork, v.lookups), configHash, s.settings)
  }

  function DeploymentOf(s: Server, v: Visit, configHash: string): PodSpec {
    Pods(ReplicasOf(s), DeploymentTemplate(PlainParamsOf(s)), Nad.DeploymentStart(IfaceOf(s), SubnetOf(s), COMMAND),
         EnvNames(SecretEnvVars(s.spec)), SidecarOf(s.stork, v.lookups), configHash, s.settings)
  }

  function WorkloadOf(s: Server, world: World, v: Visit, configHash: string): PodSpec {
    if HA(s) then StatefulSetOf(s, world, v, configHash) else DeploymentOf(s, v, configHash)
  }

  function HashOf(s: Server, world: World): string { ConfigHash(PlanOf(s, world), RendererOf(s, world), world.hash) }

  /** The workload one reconcile wants. */
  function DesiredWorkload(s: Server, world: World, v: Visit): PodSpec { WorkloadOf(s, world, v, HashOf(s, world)) }

  /** Everything one reconcile applies. */
  function StepsOf(s: Server, world: World, v: Visit): seq<Step> {
    DesiredSteps(PlanOf(s, world), RendererOf(s, world), DesiredWorkload(s, world, v))
  }

  /** The number of objects does not depend on the visit. */
  function StepCount(s: Server, world: World): nat {
    |DesiredSteps(PlanOf(s, world), RendererOf(s, world), OtherSpec(""))|
  }

  lemma SameCount(s: Server, world: World, w: PodSpec)
    ensures |DesiredSteps(PlanOf(s, world), RendererOf(s, world), w)| == StepCount(s, world)
  {
  }

  // ---------- the code ----------

  lemma FilledIs(s: Server, filled: Dhcp4Spec)
    requires HA(s) && filled.highAvailability.Some?
    requires filled == s.spec.(highAvailability := filled.highAvailability)
    requires filled.highAvailability.value ==
             s.spec.highAvailability.value.(peers := filled.highAvailability.value.peers)
    requires |filled.highAvailability.value.peers| == |s.spec.highAvailability.value.peers|
    requires forall i | 0 <= i < |filled.highAvailability.value.peers| ::
               filled.highAvailability.value.peers[i] ==
               Filled(s.spec.highAvailability.value.peers[i], s.namespace, s.cr, COMPONENT, i, SocketPort(s))
    ensures filled == FilledSpec(s)
  {
    assert filled.highAvailability.value.peers == FilledPeers(s);
  }

  method FillSpec(s: Server) returns (filled: Dhcp4Spec)
    ensures filled == FilledSpec(s)
  {
    var resource := new Resource(s.spec);
    if HA(s) {
      resource.FillPeerURLs(s.namespace, s.cr, COMPONENT, SocketPort(s));
      FilledIs(s, resource.spec);
    }
    filled := resource.spec;
  }

  /** Rendering depends on the placeholders of existing databases only. */
  lemma TreeOfAligned(spec: Dhcp4Spec, creds: Credentials, name: string)
    requires Aligned(spec, creds)
    ensures Render.RootTree(spec, creds, name) == Render.RootTree(spec, CredsOf(spec), name)
  {
    assert Render.DatabaseElems(spec.hostsDatabases, creds.hostsDBs)
        == Render.DatabaseElems(spec.hostsDatabases, CredsOf(spec).hostsDBs);
  }

  /** From the spec to the text: fill the URLs, collect the placeholders, render, serialise. */
  method RenderConfig(s: Server, world: World, name: string) returns (text: string)
    ensures text == world.marshal(ConfigTree(s, name))
  {
    var filled := FillSpec(s);
    var envVars, creds := CollectCredentials(filled);
    var tree := RenderTree(filled, creds, name);
    text := world.marshal(tree);
  }

  method RenderTree(spec: Dhcp4Spec, creds: Credentials, name: string) returns (tree: Json.Json)
    requires Aligned(spec, creds)
    ensures tree == Render.RootTree(spec, CredsOf(spec), name)
  {
    TreeOfAligned(spec, creds, name);
    tree := Renderer.RenderInternal(spec, creds, name);
  }

  /** The loop that names the ConfigMap of every ordinal. */
  method BuildConfigMapNames(s: Server) returns (names: map<nat, string>)
    ensures names == ConfigMapNames(s, ReplicasOf(s))
  {
    names := map[];
    for i := 0 to ReplicasOf(s)
      invariant names == ConfigMapNames(s, i)
    {
      names := names[i := HAConfigMapName(s.cr, COMPONENT, i)];
    }
  }

  method BuildSidecar(cfg: Option<StorkConfig>, lookups: Lookups) returns (env: seq<EnvSetting>)
    ensures env == SidecarOf(cfg, lookups)
  {
    env := [];
    if cfg.Some? {
      env := BuildSidecarEnv(cfg.value, ResolveAgent(cfg.value, lookups));
    }
  }

  /** The StatefulSet without its hash; `peers` is the result of building the host name map. */
  method BuildHAPods(s: Server, world: World, lookups: Lookups) returns (w: PodSpec, ghost v: Visit)
    requires HA(s) && HostsValid(FilledPeers(s), world.parse)
    ensures ValidVisit(s, world, v) && v.lookups == lookups && w == StatefulSetOf(s, world, v, "")
  {
    var filled := FillSpec(s);
    var peers := filled.highAvailability.value.peers;
    var envVars, creds := CollectCredentials(filled);
    var hosts := BuildHostMap(peers, world.parse, SiteOf(s));
    var names := BuildConfigMapNames(s);
    var fixed := Nad.BuildStaticAddresses(peers);
    var iface := Nad.FindNadInterface(s.spec.interfacesConfig.interfaces);
    var params := StatefulSetParams(s.cr, COMPONENT, Some(ReplicasOf(s)), names, hosts.value, TLSSecret(s), s.stork.Some?, envVars);
    assert params == ParamsOf(s, world);
    var template := BuildStatefulSet(params);
    var start := Nad.BuildStart(iface, SubnetOf(s), COMMAND, fixed);
    var sidecar := BuildSidecar(s.stork, lookups);
    w := Pods(ReplicasOf(s), template, start, [], sidecar, "", s.settings);
    ghost var arms := Nad.SomeArms(fixed);
    v := Visit(PeerOps(params, template), if start.FromCases? then start.arms else arms, lookups);
  }

  method BuildPlainPods(s: Server, lookups: Lookups) returns (w: PodSpec)
    requires !HA(s)
    ensures forall v: Visit | v.lookups == lookups :: w == DeploymentOf(s, v, "")
  {
    var envVars, creds := CollectCredentials(s.spec);
    var iface := Nad.FindNadInterface(s.spec.interfacesConfig.interfaces);
    var template := BuildDeployment(DeploymentParams(ConfigMapName(s.cr, COMPONENT), TLSSecret(s), s.stork.Some?, envVars));
    var sidecar := BuildSidecar(s.stork, lookups);
    w := Pods(ReplicasOf(s), template, Nad.DeploymentStart(iface, SubnetOf(s), COMMAND), EnvNames(envVars), sidecar, "", s.settings);
  }

  /** The workload for a hash. */
  function WithHash(w: PodSpec, configHash: string): PodSpec {
    if w.Pods? then w.(configHash := configHash) else w
  }

  /**
   * One reconcile of the resource, from its spec: exactly the run of the steps of some visit, that
   * is, of some order of its maps and of the results of its lookups.
   */
  method Reconcile(cluster: Cluster, owner: string, s: Server, world: World, lookups: Lookups, calls: seq<Call>)
    returns (ok: bool, ghost v: Visit)
    requires |calls| == StepCount(s, world)
    modifies cluster
    ensures ValidVisit(s, world, v) && v.lookups == lookups && |StepsOf(s, world, v)| == StepCount(s, world)
    ensures (cluster.store, ok) == Run(cluster.defaulting, old(cluster.store), owner, StepsOf(s, world, v), calls)
  {
    var w: PodSpec;
    v := Visit([], [], lookups);
    if !HA(s) {
      w := BuildPlainPods(s, lookups);
    } else if HostsValid(FilledPeers(s), world.parse) {
      w, v := BuildHAPods(s, world, lookups);
    } else {
      w := StatefulSetOf(s, world, Visit([], [], lookups), "");
    }
    assert w == WorkloadOf(s, world, v, "");
    var build: string -> PodSpec := h => WithHash(w, h);
    assert build(HashOf(s, world)) == DesiredWorkload(s, world, v);
    SameCount(s, world, DesiredWorkload(s, world, v));
    var configHash;
    ok, configHash := Controller.Reconcile(cluster, owner, PlanOf(s, world), RendererOf(s, world), world.hash, build, calls);
  }
}
