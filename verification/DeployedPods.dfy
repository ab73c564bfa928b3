/**
 * What the pods of a converged cluster do: which addresses they take, which directories they share,
 * and how far the status of the resource tells the truth about them.
 */
module DeployedPods {
  import opened Options
  import opened Strings
  import opened Names
  import opened Spec
  import opened Secrets
  import opened ApiServer
  import opened Builders
  import opened Templates
  import opened PodTemplate
  import opened HaWiring
  import opened Runs
  import opened Dhcp4Server
  import opened HaConfigs
  import opened Deployed
  import C = Controller
  import Convergence
  import N = Nad
  import Status

  // ---------- the second network ----------

  /**
   * The resource asks for addresses of the second network: interface `k` is the first that is not
   * standard, the first subnet is this block, and nothing in them stops the shell.
   */
  predicate Attached(s: Server, k: nat, ip: N.Ip, prefix: nat) {
    var interfaces := s.spec.interfacesConfig.interfaces;
    && k < |interfaces| && interfaces[k] !in {"*", "eth0", "lo"} && interfaces[k] != ""
    && (forall i | 0 <= i < k :: interfaces[i] in {"*", "eth0", "lo"})
    && (forall c | c in interfaces[k] :: N.WordChar(c))
    && s.spec.subnet4 != [] && s.spec.subnet4[0].subnet == N.Cidr(ip, prefix) && prefix < 100
  }

  lemma {:induction false} FirstInterface(interfaces: seq<string>, k: nat)
    requires k < |interfaces| && interfaces[k] !in {"*", "eth0", "lo"}
    requires forall i | 0 <= i < k :: interfaces[i] in {"*", "eth0", "lo"}
    ensures N.NadInterface(interfaces) == interfaces[k]
  {
    if k > 0 {
      assert interfaces[0] in {"*", "eth0", "lo"};
      FirstInterface(interfaces[1..], k - 1);
    }
  }

  lemma CommandIsSafe()
    ensures forall c | c in COMMAND :: N.WordChar(c) || c == '/'
  {
    assert "._-"[2] == '-';
    assert forall c | c in COMMAND :: 'a' <= c <= 'z' || c == '4' || c == '-' || c == '/';
  }

  lemma GuardOf(s: Server, k: nat, ip: N.Ip, prefix: nat)
    requires Attached(s, k, ip, prefix)
    ensures IfaceOf(s) == s.spec.interfacesConfig.interfaces[k] && SubnetOf(s) == N.Cidr(ip, prefix)
    ensures N.NadGuard(IfaceOf(s), SubnetOf(s), COMMAND)
  {
    FirstInterface(s.spec.interfacesConfig.interfaces, k);
    N.CidrIsSafe(ip, prefix);
    CommandIsSafe();
  }

  /** The start of the stored pods. */
  function StoredStart(store: Store, kind: Kind, s: Server): Start {
    var pods := StoredPods(store, kind, s);
    if pods.Some? && pods.value.Pods? then pods.value.start else NoAddress
  }

  lemma StartStored(d: Body -> Body, store: Store, owner: string, s: Server, world: World, v: Visit)
    requires KeepsPods(d) && Convergence.ChecksOf(PlanOf(s, world), RendererOf(s, world))
    requires AllConform(d, store, owner, StepsOf(s, world, v))
    ensures HA(s) ==> StoredStart(store, StatefulSet, s) == StartOf(s, v)
    ensures !HA(s) ==> StoredStart(store, Deployment, s) == N.DeploymentStart(IfaceOf(s), SubnetOf(s), COMMAND)
  {
    StoredWorkload(d, store, owner, s, world, v);
  }

  lemma StartFits(s: Server, world: World, v: Visit)
    requires HA(s) && HostsValid(FilledPeers(s), world.parse) && ValidVisit(s, world, v)
    ensures N.IsStart(StartOf(s, v), IfaceOf(s), SubnetOf(s), COMMAND, N.StaticAddresses(s.spec.highAvailability.value.peers))
  {
    assert N.StaticAddresses(FilledPeers(s)) == N.StaticAddresses(s.spec.highAvailability.value.peers);
  }

  /** Pod `i` of the StatefulSet in the store, in terms of the start it is given. */
  function AddressOf(store: Store, s: Server, i: nat): Option<string> {
    var start, name := StoredStart(store, StatefulSet, s), PodName(StatefulSetName(s.cr, Dhcp4), i);
    if N.GuardedStart(start) && AllDigits(AfterLastDash(name)) then N.PodAddress(start, name) else None
  }

  /**
   * In a converged cluster pod `i` of a resource with high availability takes the address peer `i`
   * was given, and if it was given none, that of the first subnet with `i + 2` added to its last
   * number; on the first interface that is not standard.
   */
  lemma PodsTakeAddresses(d: Body -> Body, store: Store, owner: string, s: Server, world: World, v: Visit,
                          k: nat, ip: N.Ip, prefix: nat, i: nat)
    requires KeepsPods(d) && HA(s) && HostsValid(FilledPeers(s), world.parse) && ValidVisit(s, world, v)
    requires AllConform(d, store, owner, StepsOf(s, world, v)) && Attached(s, k, ip, prefix)
    ensures var start, peers := StoredStart(store, StatefulSet, s), s.spec.highAvailability.value.peers;
            && !start.NoAddress? && start.iface == s.spec.interfacesConfig.interfaces[k]
            && AddressOf(store, s, i) ==
               Some((if i < |peers| && peers[i].address != "" then peers[i].address
                     else Decimal(ip.a) + "." + Decimal(ip.b) + "." + Decimal(ip.c) + "." + Decimal(ip.d + i + 2))
                    + "/" + Decimal(prefix))
  {
    StartStored(d, store, owner, s, world, v);
    StartFits(s, world, v);
    GuardOf(s, k, ip, prefix);
    N.PodTakesOwnAddress(ip, prefix, StartOf(s, v), IfaceOf(s), COMMAND, s.spec.highAvailability.value.peers,
                         StatefulSetName(s.cr, Dhcp4), i);
  }

  /** Without high availability all pods take the first of these addresses, or none where secrets are expanded. */
  lemma PlainPodsTakeAddress(d: Body -> Body, store: Store, owner: string, s: Server, world: World, v: Visit,
                             k: nat, ip: N.Ip, prefix: nat)
    requires KeepsPods(d) && !HA(s) && AllConform(d, store, owner, StepsOf(s, world, v)) && Attached(s, k, ip, prefix)
    ensures var start := StoredStart(store, Deployment, s);
            && !start.NoAddress? && start.iface == s.spec.interfacesConfig.interfaces[k] && N.GuardedStart(start)
            && N.DeploymentAddress(start, SecretEnvVars(s.spec) != []) ==
               if SecretEnvVars(s.spec) != [] then None
               else Some(Decimal(ip.a) + "." + Decimal(ip.b) + "." + Decimal(ip.c) + "." + Decimal(ip.d + 2) + "/" + Decimal(prefix))
  {
    StartStored(d, store, owner, s, world, v);
    GuardOf(s, k, ip, prefix);
    N.AutoAddressIs(ip, prefix, 0);
  }

  // ---------- what the status says ----------

  /** What the last part of a reconcile reports. */
  function ReportOf(s: Server, configHash: string, generation: int, parse: N.ParseCIDR): Status.Report {
    Status.Report(generation, configHash, ConfigMapName(s.cr, C.COMPONENT), N.NadAddresses(SubnetOf(s), ReplicasOf(s), parse))
  }

  method BuildReport(s: Server, configHash: string, generation: int, parse: N.ParseCIDR) returns (r: Status.Report)
    ensures r == ReportOf(s, configHash, generation, parse)
  {
    var addresses := N.ComputeNadAddresses(SubnetOf(s), ReplicasOf(s), parse);
    r := Status.Report(generation, configHash, ConfigMapName(s.cr, C.COMPONENT), addresses);
  }

  /**
   * The reported ConfigMap is one the reconcile writes exactly without high availability: with it
   * there is one per ordinal, and none by this name.
   */
  lemma ReportedConfigMap(s: Server, world: World, v: Visit, configHash: string, generation: int, parse: N.ParseCIDR)
    ensures var id := Id(ConfigMap, s.namespace, ReportOf(s, configHash, generation, parse).configMapRef);
            Mentions(StepsOf(s, world, v), id) <==> !HA(s)
  {
    var id := Id(ConfigMap, s.namespace, ReportOf(s, configHash, generation, parse).configMapRef);
    ObjectsExactly(s, world, v, id);
    forall i: nat ensures HAConfigMapName(s.cr, Dhcp4, i) != ConfigMapName(s.cr, Dhcp4) {
      assert |HAConfigMapName(s.cr, Dhcp4, i)| > |ConfigMapName(s.cr, Dhcp4)|;
    }
  }

  /** The hash in the status is the hash the pods of a converged cluster carry. */
  lemma ReportedHash(d: Body -> Body, store: Store, owner: string, s: Server, world: World, v: Visit, generation: int, parse: N.ParseCIDR)
    requires KeepsPods(d) && Convergence.ChecksOf(PlanOf(s, world), RendererOf(s, world))
    requires AllConform(d, store, owner, StepsOf(s, world, v))
    ensures var pods := StoredPods(store, if HA(s) then StatefulSet else Deployment, s);
            && pods.Some? && pods.value.Pods?
            && pods.value.configHash == ReportOf(s, HashOf(s, world), generation, parse).configHash
  {
    StoredWorkload(d, store, owner, s, world, v);
  }

  /**
   * In a converged cluster with high availability pod `i` has the address the status reports for it
   * exactly if its static address is the reported one, or it has none and the last number does not
   * run over.
   */
  lemma ReportedAddress(d: Body -> Body, store: Store, owner: string, s: Server, world: World, v: Visit,
                        k: nat, ip: N.Ip, prefix: nat, generation: int, parse: N.ParseCIDR, i: nat)
    requires KeepsPods(d) && HA(s) && HostsValid(FilledPeers(s), world.parse) && ValidVisit(s, world, v)
    requires AllConform(d, store, owner, StepsOf(s, world, v)) && Attached(s, k, ip, prefix)
    requires parse(N.Cidr(ip, prefix)) == Some(ip) && i < Deployed.Pods(s)
    ensures var reported, peers := ReportOf(s, "", generation, parse).nadAddresses, s.spec.highAvailability.value.peers;
            && |reported| == Deployed.Pods(s)
            && (AddressOf(store, s, i) == Some(reported[i] + "/" + Decimal(prefix)) <==>
                  if i < |peers| && peers[i].address != "" then peers[i].address == reported[i] else ip.d + i + 2 <= 255)
  {
    StartStored(d, store, owner, s, world, v);
    StartFits(s, world, v);
    GuardOf(s, k, ip, prefix);
    ReportedEntries(s, ip, prefix, generation, parse);
    Compared(StartOf(s, v), IfaceOf(s), ip, prefix, s.spec.highAvailability.value.peers, StatefulSetName(s.cr, Dhcp4), i);
  }

  lemma ReportedEntries(s: Server, ip: N.Ip, prefix: nat, generation: int, parse: N.ParseCIDR)
    requires SubnetOf(s) == N.Cidr(ip, prefix) && parse(N.Cidr(ip, prefix)) == Some(ip)
    ensures var reported := ReportOf(s, "", generation, parse).nadAddresses;
            |reported| == Deployed.Pods(s) && forall i | 0 <= i < |reported| :: reported[i] == N.Entry(ip, i).Text()
  {
    assert N.Cidr(ip, prefix) != "";
  }

  lemma Compared(start: Start, iface: string, ip: N.Ip, prefix: nat, peers: seq<HAPeer>, sts: string, i: nat)
    requires N.IsStart(start, iface, N.Cidr(ip, prefix), COMMAND, N.StaticAddresses(peers))
    requires N.NadGuard(iface, N.Cidr(ip, prefix), COMMAND)
    ensures N.GuardedStart(start) && AllDigits(AfterLastDash(PodName(sts, i)))
    ensures N.PodAddress(start, PodName(sts, i)) == Some(N.Entry(ip, i).Text() + "/" + Decimal(prefix)) <==>
            if i < |peers| && peers[i].address != "" then peers[i].address == N.Entry(ip, i).Text() else ip.d + i + 2 <= 255
  {
    N.ReportMatchesPod(ip, prefix, start, iface, COMMAND, N.StaticAddresses(peers), sts, i);
  }

  // ---------- what the init script is made of ----------

  /** A text without any character that means something to the shell or to `sed`, but for the dot. */
  predicate Word(s: string) { forall c | c in s :: N.Harmless(c) && c != '/' }

  lemma {:induction false} HostMapWords(peers: seq<HAPeer>, parse: UrlHost, site: Site)
    requires HostsValid(peers, parse)
    ensures forall h | h in HostMap(peers, parse, site) :: Word(h) && h != ""
  {
    if peers != [] {
      var last := |peers| - 1;
      HostMapWords(peers[..last], parse, site);
      assert peers[last] in peers;
    }
  }

  /**
   * Whatever URLs and database settings the resource has: host names and variables that get into
   * the script of a stored StatefulSet consist of letters, digits, `.`, `_` and `-`.
   */
  lemma ScriptIsHarmless(d: Body -> Body, store: Store, owner: string, s: Server, world: World, v: Visit, op: ScriptOp)
    requires KeepsPods(d) && HA(s) && HostsValid(FilledPeers(s), world.parse) && ValidVisit(s, world, v)
    requires AllConform(d, store, owner, StepsOf(s, world, v))
    ensures StoredTemplate(store, s).Some?
    ensures op in StoredTemplate(store, s).value.script ==>
              match op
              case ResolvePeer(configHost, _) => configHost != "" && Word(configHost)
              case ExpandSecret(env) => env != "" && Word(env)
  {
    StoredTemplateIs(d, store, owner, s, PlanOf(s, world), RendererOf(s, world), DesiredWorkload(s, world, v));
    HostMapWords(FilledPeers(s), world.parse, SiteOf(s));
    if op in SecretOps(SecretEnvVars(FilledSpec(s))) {
      VariableIsWord(FilledSpec(s), op);
    }
  }

  lemma VariableIsWord(spec: Dhcp4Spec, op: ScriptOp)
    requires op in SecretOps(SecretEnvVars(spec))
    ensures op.ExpandSecret? && op.env != "" && Word(op.env)
  {
    var i :| 0 <= i < |SecretEnvVars(spec)| && op == ExpandSecret(SecretEnvVars(spec)[i].name);
    SlotsMatch(spec);
    EnvNameChars(SlotsOfSpec(spec)[i]);
    assert forall c | c in op.env :: NameChar(c);
  }

  // ---------- the directories of a pod ----------

  /** A path leads to a directory of this name, which lives as long as the pod and can be written. */
  predicate Writes(t: Template, mounts: seq<Mount>, path: string, volume: string) {
    && VolumeAt(t, mounts, path) == Some(Volume(volume, EmptyDir))
    && MountAt(mounts, path).Some? && !MountAt(mounts, path).value.readOnly
  }

  lemma WritesTo(t: Template, mounts: seq<Mount>, m: Mount, v: Volume)
    requires DistinctPaths(mounts) && DistinctVolumes(t.volumes) && m in mounts && v in t.volumes && m.name == v.name
    requires !m.readOnly && v.source == EmptyDir
    ensures Writes(t, mounts, m.path, v.name)
  {
    Leads(t, mounts, m, v);
    MountFound(mounts, m);
  }

  /** All containers that use sockets find them in the same place, and leases have a place of their own. */
  predicate SharesDirectories(t: Template, init: bool, stork: bool) {
    && Writes(t, t.mainMounts, "/var/run/kea", "kea-run")
    && Writes(t, t.mainMounts, "/var/lib/kea", "kea-leases")
    && (init ==> Writes(t, t.initMounts, "/var/run/kea", "kea-run"))
    && (stork ==> Writes(t, t.storkMounts, "/var/run/kea", "kea-run"))
  }

  lemma StatefulSetShares(p: StatefulSetParams, peerOps: seq<ScriptOp>)
    ensures SharesDirectories(StatefulSetTemplate(p, peerOps), true, p.stork)
  {
    var t := StatefulSetTemplate(p, peerOps);
    StatefulSetClosed(p, peerOps);
    assert t.volumes[1] == RUN && t.volumes[2] == LEASES && t.initMounts[1] == INIT_MOUNTS[1];
    assert t.mainMounts[1] == MAIN_MOUNTS[1] && t.mainMounts[2] == MAIN_MOUNTS[2];
    WritesTo(t, t.mainMounts, MAIN_MOUNTS[1], RUN);
    WritesTo(t, t.mainMounts, MAIN_MOUNTS[2], LEASES);
    WritesTo(t, t.initMounts, INIT_MOUNTS[1], RUN);
    if p.stork {
      WritesTo(t, t.storkMounts, t.storkMounts[1], RUN);
    }
  }

  /** Where a template is expanded the result can be written. */
  lemma DeploymentShares(p: DeploymentParams)
    ensures SharesDirectories(DeploymentTemplate(p), false, p.stork)
    ensures var t := DeploymentTemplate(p);
            p.secretEnvVars != [] ==> Writes(t, t.mainMounts, "/etc/kea", "kea-config-rendered")
  {
    var t := DeploymentTemplate(p);
    DeploymentClosed(p);
    assert t.volumes[1] == RUN && t.volumes[2] == LEASES;
    assert t.mainMounts[1] == Mount("kea-run", "/var/run/kea", false);
    assert t.mainMounts[2] == Mount("kea-leases", "/var/lib/kea", false);
    WritesTo(t, t.mainMounts, t.mainMounts[1], RUN);
    WritesTo(t, t.mainMounts, t.mainMounts[2], LEASES);
    if p.stork {
      WritesTo(t, t.storkMounts, t.storkMounts[1], RUN);
    }
    if p.secretEnvVars != [] {
      assert t.volumes[3] == Volume("kea-config-rendered", EmptyDir);
      assert t.mainMounts[3] == Mount("kea-config-rendered", "/etc/kea", false);
      WritesTo(t, t.mainMounts, t.mainMounts[3], t.volumes[3]);
    }
  }

  /**
   * In a converged cluster Kea, its init container and the Stork sidecar share the directory of the
   * control socket, and Kea can write its leases; what the workload copies from the resource is that
   * of the resource, completed by defaulting.
   */
  lemma PodsShareDirectories(d: Body -> Body, store: Store, owner: string, s: Server, world: World, v: Visit)
    requires KeepsPods(d) && Convergence.ChecksOf(PlanOf(s, world), RendererOf(s, world))
    requires AllConform(d, store, owner, StepsOf(s, world, v))
    ensures var kind := if HA(s) then StatefulSet else Deployment;
            var pods := StoredPods(store, kind, s);
            && pods.Some? && pods.value.Pods?
            && SharesDirectories(pods.value.template, HA(s), s.stork.Some?)
            && (!HA(s) && SecretEnvVars(s.spec) != [] ==>
                  Writes(pods.value.template, pods.value.template.mainMounts, "/etc/kea", "kea-config-rendered"))
            && store[Id(kind, s.namespace, StatefulSetName(s.cr, Dhcp4))].body
               == d(Workload(pods.value.(settings := s.settings)))
  {
    StoredWorkload(d, store, owner, s, world, v);
    if HA(s) {
      StatefulSetShares(ParamsOf(s, world), v.peerOps);
    } else {
      DeploymentShares(PlainParamsOf(s));
    }
  }
}
