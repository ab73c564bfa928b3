/**
 * High availability as a whole, from the spec of the resource to the configuration a started pod
 * runs with: which text it mounts, what its init script does to it, and what the result says.
 */
module HaConfigs {
  import opened Options
  import opened Strings
  import opened Rewriting
  import opened Names
  import opened Spec
  import opened Secrets
  import opened ApiServer
  import opened Builders
  import opened Templates
  import opened PodTemplate
  import opened HaWiring
  import opened HostNames
  import opened Runs
  import opened Dhcp4Server
  import opened Serializer
  import C = Controller
  import Convergence
  import WorkloadStability
  import Json
  import Render
  import HaListener

  // ---------- what a configuration says ----------

  /** The high-availability settings Kea finds in a configuration. */
  function ConfiguredHA(config: Json.Json): Option<HAConfig> { Render.Decode(config).spec.highAvailability }

  /** The settings call this server `name` and list the given peers, in order, with their names and URLs. */
  predicate Says(ha: Option<HAConfig>, name: string, peers: seq<HAPeer>) {
    && ha.Some? && ha.value.thisServerName == name && |ha.value.peers| == |peers|
    && forall j | 0 <= j < |peers| :: ha.value.peers[j].name == peers[j].name && ha.value.peers[j].url == peers[j].url
  }

  /** The server name of an ordinal: that of its peer, unless the peer has none. */
  function NameOf(s: Server, o: nat): string
    requires HA(s) && o < |FilledPeers(s)|
  {
    if FilledPeers(s)[o].name != "" then FilledPeers(s)[o].name else s.spec.highAvailability.value.thisServerName
  }

  /**
   * The configuration of ordinal `o` calls this server by the name of peer `o` and lists every
   * peer with its name and URL in order; a peer without a name falls back to the name in the spec.
   */
  lemma PerOrdinalConfig(s: Server, world: World, o: nat)
    requires HA(s) && o < |FilledPeers(s)|
    ensures Says(ConfiguredHA(ConfigTree(s, C.ServerName(PlanOf(s, world), o))), NameOf(s, o), FilledPeers(s))
  {
    var ha, name := FilledSpec(s).highAvailability.value, C.ServerName(PlanOf(s, world), o);
    assert ha.peers == FilledPeers(s) && name == FilledPeers(s)[o].name;
    DecodedHA(FilledSpec(s), CredsOf(FilledSpec(s)), name);
    NormSays(ha, Render.EffectiveName(ha, name));
  }

  /**
   * The peers a resource runs with are its own. A written URL stays; an omitted one names the pod of
   * the peer's ordinal behind the headless Service of the resource, as Kubernetes does.
   */
  lemma PeersAreOwn(s: Server, i: nat)
    requires HA(s) && i < |s.spec.highAvailability.value.peers|
    ensures var peer := s.spec.highAvailability.value.peers[i];
            var host := PodName(StatefulSetName(s.cr, Dhcp4), i) + "." + HeadlessServiceName(s.cr, Dhcp4)
                        + "." + s.namespace + ".svc.cluster.local";
            FilledPeers(s)[i] == peer.(url :=
              if peer.url != "" then peer.url else "http://" + host + ":" + Decimal(SocketPort(s)) + "/")
  {
    BehindHeadless(SiteOf(s), i);
  }

  lemma BehindHeadless(site: Site, i: nat)
    ensures site.Host(i) == PodName(site.Sts(), i) + "." + HeadlessServiceName(site.cr, site.component)
                            + "." + site.ns + ".svc.cluster.local"
  {
    var pod, sts := PodName(site.Sts(), i) + ".", site.Sts();
    assert pod + (sts + "-hl") == pod + sts + "-hl";
  }

  /** An ordinal without a peer gets a name of its own. */
  lemma SpareOrdinalConfig(s: Server, world: World, o: nat)
    requires HA(s) && o >= |FilledPeers(s)|
    ensures Says(ConfiguredHA(ConfigTree(s, C.ServerName(PlanOf(s, world), o))), "server" + Decimal(o + 1), FilledPeers(s))
  {
    var ha, name := FilledSpec(s).highAvailability.value, C.ServerName(PlanOf(s, world), o);
    assert ha.peers == FilledPeers(s);
    DecodedHA(FilledSpec(s), CredsOf(FilledSpec(s)), name);
    NormSays(ha, Render.EffectiveName(ha, name));
  }

  lemma NormSays(ha: HAConfig, name: string)
    ensures Says(Some(Render.NormHA(ha, name)), name, ha.peers)
  {
  }

  lemma DecodedHA(spec: Dhcp4Spec, creds: Credentials, override: string)
    requires spec.highAvailability.Some?
    ensures var ha := spec.highAvailability.value;
            ConfiguredHA(Render.RootTree(spec, creds, override)) ==
            Some(Render.NormHA(ha, Render.EffectiveName(ha, override)))
  {
    Render.RoundTrip(spec, creds, override);
  }

  // ---------- the same configuration with rewritten strings ----------

  /** The peers with every string rewritten. */
  function MapPeers(f: string -> string, peers: seq<HAPeer>): (r: seq<HAPeer>)
    ensures |r| == |peers|
    ensures forall i | 0 <= i < |peers| :: r[i] == peers[i].(name := f(peers[i].name), url := f(peers[i].url))
  {
    seq(|peers|, i requires 0 <= i < |peers| => peers[i].(name := f(peers[i].name), url := f(peers[i].url)))
  }

  lemma MappedPeer(f: string -> string, p: HAPeer)
    ensures var q := Render.DecodePeer(MapLeaves(f, Render.PeerTree(p))); q.name == f(p.name) && q.url == f(p.url)
  {
    var m := Render.Of(Render.PeerTree(p));
    MappedLookup(f, m, Json.NAME);
    MappedLookup(f, m, Json.URL);
  }

  lemma MappedHATree(f: string -> string, ha: HAConfig, name: string, port: int)
    ensures Says(Some(Render.DecodeHA(MapLeaves(f, Render.HATree(ha, name, port)))), f(name), MapPeers(f, ha.peers))
  {
    var m := Render.Of(Render.HATree(ha, name, port));
    MappedLookup(f, m, Json.THIS_SERVER_NAME);
    MappedLookup(f, m, Json.PEERS);
    HATreeFields(ha, name, port);
    MappedElems(f, Render.PeerTrees(ha.peers));
    forall i | 0 <= i < |ha.peers|
      ensures var q := Render.DecodePeer(MapLeaves(f, Render.PeerTree(ha.peers[i])));
              q.name == f(ha.peers[i].name) && q.url == f(ha.peers[i].url)
    {
      MappedPeer(f, ha.peers[i]);
    }
    DecodedPeers(f, ha, Render.DecodeHA(MapLeaves(f, Render.HATree(ha, name, port))).peers);
  }

  lemma HATreeFields(ha: HAConfig, name: string, port: int)
    ensures var m := Render.Of(Render.HATree(ha, name, port));
            && Json.Lookup(m, Json.THIS_SERVER_NAME) == Some(Json.Str(name))
            && Json.Lookup(m, Json.PEERS) == Render.PeerTrees(ha.peers)
            && Render.HATree(ha, name, port) == Json.Obj(m)
  {
  }

  lemma DecodedPeers(f: string -> string, ha: HAConfig, peers: seq<HAPeer>)
    requires peers == Render.DecodePeers(MapField(f, Render.PeerTrees(ha.peers)))
    requires forall i | 0 <= i < |ha.peers| ::
               var q := Render.DecodePeer(MapLeaves(f, Render.PeerTree(ha.peers[i])));
               q.name == f(ha.peers[i].name) && q.url == f(ha.peers[i].url)
    ensures |peers| == |ha.peers|
    ensures forall i | 0 <= i < |ha.peers| :: peers[i].name == f(ha.peers[i].name) && peers[i].url == f(ha.peers[i].url)
  {
    MappedElems(f, Render.PeerTrees(ha.peers));
  }

  lemma MappedParameters(f: string -> string, tree: Json.Json)
    ensures var hook := MapLeaves(f, Render.HookTree(HookLibrary(Render.HA_LIBRARY, Parsed(Render.HAParameters(tree)))));
            Json.ElemsOf(Json.Lookup(Json.FieldsOf(Json.Lookup(Render.Of(hook), Json.PARAMETERS)), Json.HIGH_AVAILABILITY))
            == [MapLeaves(f, tree)]
  {
    var params := Render.HAParameters(tree);
    var m := Render.Of(Render.HookTree(HookLibrary(Render.HA_LIBRARY, Parsed(params))));
    MappedLookup(f, m, Json.PARAMETERS);
    assert Json.Lookup(m, Json.PARAMETERS) == Some(params);
    MappedFields(f, Some(params), Json.HIGH_AVAILABILITY);
    assert Json.Lookup(Json.FieldsOf(Some(params)), Json.HIGH_AVAILABILITY) == Some(Json.Arr([tree]));
    MappedElems(f, Some(Json.Arr([tree])));
    assert MapElems(f, [tree]) == [MapLeaves(f, tree)];
  }

  /** The hook of HA in a rewritten tree, if the name of its library is not touched. */
  lemma MappedHook(f: string -> string, ha: HAConfig, name: string, port: int)
    requires f(Render.HA_LIBRARY) == Render.HA_LIBRARY
    ensures var tree := Render.HATree(ha, name, port);
            var hook := MapLeaves(f, Render.HookTree(HookLibrary(Render.HA_LIBRARY, Parsed(Render.HAParameters(tree)))));
            && Render.DecodeHook(hook).library == Render.HA_LIBRARY
            && Json.ElemsOf(Json.Lookup(Json.FieldsOf(Json.Lookup(Render.Of(hook), Json.PARAMETERS)), Json.HIGH_AVAILABILITY))
               == [MapLeaves(f, tree)]
  {
    var tree := Render.HATree(ha, name, port);
    var m := Render.Of(Render.HookTree(HookLibrary(Render.HA_LIBRARY, Parsed(Render.HAParameters(tree)))));
    MappedLookup(f, m, Json.LIBRARY);
    MappedParameters(f, tree);
  }

  /** The hooks of a rewritten tree are the rewritten hooks. */
  lemma MappedHooks(f: string -> string, spec: Dhcp4Spec, creds: Credentials, name: string)
    ensures Json.ElemsOf(Json.Lookup(Render.Dhcp4Of(MapLeaves(f, Render.RootTree(spec, creds, name))), Json.HOOKS_LIBRARIES))
            == MapElems(f, Render.HookElems(spec, name))
  {
    var hooks := Render.HookElems(spec, name);
    var m := Json.Put(Render.Shared(spec, creds), Json.HOOKS_LIBRARIES, Json.Array(hooks));
    NoHooksShared(spec, creds);
    Render.HooksOfRoot(Render.Shared(spec, creds), hooks);
    RootMapped(f, m);
    MappedLookup(f, m, Json.HOOKS_LIBRARIES);
    MappedElems(f, Json.Lookup(m, Json.HOOKS_LIBRARIES));
    Render.Dhcp4OfRoot(m);
  }

  lemma NoHooksShared(spec: Dhcp4Spec, creds: Credentials)
    ensures Json.Lookup(Render.Shared(spec, creds), Json.HOOKS_LIBRARIES) == None
  {
    Render.SharedLookups(spec, creds);
    Render.LastSectionLookups(spec, creds);
  }

  lemma RootMapped(f: string -> string, m: Json.Fields)
    ensures Render.Dhcp4Of(MapLeaves(f, Render.RootOf(m))) == Json.FieldsOf(Some(MapLeaves(f, Json.Obj(m))))
  {
    var root := Json.Put(map[], Json.DHCP4, Some(Json.Obj(m)));
    MappedLookup(f, root, Json.DHCP4);
    assert Json.Lookup(root, Json.DHCP4) == Some(Json.Obj(m));
  }

  /** What the rewritten configuration says about high availability is what the configuration says, rewritten. */
  lemma MappedHA(f: string -> string, spec: Dhcp4Spec, creds: Credentials, name: string)
    requires spec.highAvailability.Some? && f(Render.HA_LIBRARY) == Render.HA_LIBRARY
    ensures var ha := spec.highAvailability.value;
            Says(ConfiguredHA(MapLeaves(f, Render.RootTree(spec, creds, name))),
                 f(Render.EffectiveName(ha, name)), MapPeers(f, ha.peers))
  {
    var ha := spec.highAvailability.value;
    var effective, port := Render.EffectiveName(ha, name), Render.HAPort(spec.controlSocket);
    MappedHooks(f, spec, creds, name);
    MappedHook(f, ha, effective, port);
    MappedHATree(f, ha, effective, port);
    DecodesLastHook(f, spec, name);
    ReadsHooks(MapLeaves(f, Render.RootTree(spec, creds, name)), MapElems(f, Render.HookElems(spec, name)));
  }

  lemma ReadsHooks(j: Json.Json, hooks: seq<Json.Json>)
    requires Json.ElemsOf(Json.Lookup(Render.Dhcp4Of(j), Json.HOOKS_LIBRARIES)) == hooks
    ensures ConfiguredHA(j) == Render.DecodeHAHook(hooks)
  {
  }

  lemma DecodesLastHook(f: string -> string, spec: Dhcp4Spec, name: string)
    requires spec.highAvailability.Some? && f(Render.HA_LIBRARY) == Render.HA_LIBRARY
    ensures var ha := spec.highAvailability.value;
            var tree := Render.HATree(ha, Render.EffectiveName(ha, name), Render.HAPort(spec.controlSocket));
            Render.DecodeHAHook(MapElems(f, Render.HookElems(spec, name))) == Some(Render.DecodeHA(MapLeaves(f, tree)))
  {
    var ha := spec.highAvailability.value;
    var tree := Render.HATree(ha, Render.EffectiveName(ha, name), Render.HAPort(spec.controlSocket));
    var hook := Render.HookTree(HookLibrary(Render.HA_LIBRARY, Parsed(Render.HAParameters(tree))));
    var hooks := Render.HookElems(spec, name);
    assert hooks[|hooks| - 1] == hook;
    MappedHook(f, ha, Render.EffectiveName(ha, name), Render.HAPort(spec.controlSocket));
    assert MapElems(f, hooks)[|hooks| - 1] == MapLeaves(f, hook);
  }

  // ---------- the text a pod mounts ----------

  function MountAt(mounts: seq<Mount>, path: string): Option<Mount> {
    if mounts == [] then None else if mounts[0].path == path then Some(mounts[0]) else MountAt(mounts[1..], path)
  }

  function VolumeNamed(volumes: seq<Volume>, name: string): Option<Volume> {
    if volumes == [] then None else if volumes[0].name == name then Some(volumes[0]) else VolumeNamed(volumes[1..], name)
  }

  lemma {:induction false} MountFound(mounts: seq<Mount>, m: Mount)
    requires DistinctPaths(mounts) && m in mounts
    ensures MountAt(mounts, m.path) == Some(m)
  {
    if mounts[0] != m {
      assert mounts[0].path != m.path by {
        var i :| 0 <= i < |mounts| && mounts[i] == m;
      }
      MountFound(mounts[1..], m);
    }
  }

  lemma {:induction false} VolumeFound(volumes: seq<Volume>, v: Volume)
    requires DistinctVolumes(volumes) && v in volumes
    ensures VolumeNamed(volumes, v.name) == Some(v)
  {
    if volumes[0] != v {
      assert volumes[0].name != v.name by {
        var i :| 0 <= i < |volumes| && volumes[i] == v;
      }
      VolumeFound(volumes[1..], v);
    }
  }

  /** A file of a volume of ConfigMap data. */
  function FileIn(store: Store, ns: string, v: Volume, file: string): Option<string> {
    if !v.source.FromConfigMap? then None
    else
      var id := Id(ConfigMap, ns, v.source.name);
      if id in store && store[id].body.Data? && file in store[id].body.data then Some(store[id].body.data[file]) else None
  }

  /** The file the init script copies in a pod with this host name: from the mount of its ordinal. */
  function SelectedConfig(store: Store, ns: string, t: Template, hostname: string): Option<string> {
    match MountAt(t.initMounts, CONFIGS_PATH + AfterLastDash(hostname))
    case None => None
    case Some(m) =>
      match VolumeNamed(t.volumes, m.name)
      case None => None
      case Some(v) => FileIn(store, ns, v, ConfigFileName(C.COMPONENT))
  }

  lemma {:induction false} HAConfigStepIn(p: C.Plan, render: C.Renderer, i: nat, n: nat)
    requires i < n && render(C.ServerName(p, i)).Some?
    ensures Apply(C.HAConfigMap(p, i, render(C.ServerName(p, i)).value), false) in C.HAConfigSteps(p, render, n)
  {
    if i < n - 1 {
      HAConfigStepIn(p, render, i, n - 1);
    }
  }

  lemma PerPodStepIn(p: C.Plan, render: C.Renderer, w: PodSpec, i: nat)
    requires p.ha && i < p.replicas
    ensures Apply(BuildPerPodService(C.Params(p, p.haPort), i), true) in C.DesiredSteps(p, render, w)
  {
    C.PerPodAt(p, i, p.replicas);
    assert Apply(BuildPerPodService(C.Params(p, p.haPort), i), true) in C.PerPodSteps(p, p.replicas);
    assert Apply(BuildPerPodService(C.Params(p, p.haPort), i), true) in C.HAWorkloadSteps(p, w);
  }

  /** The ConfigMap of an ordinal in a converged store. */
  lemma ConfigMapHolds(d: Body -> Body, store: Store, owner: string, p: C.Plan, render: C.Renderer, w: PodSpec, o: nat)
    requires KeepsData(d) && p.ha && o < p.replicas && render(C.ServerName(p, o)).Some?
    requires AllConform(d, store, owner, C.DesiredSteps(p, render, w))
    ensures var id := Id(ConfigMap, p.namespace, HAConfigMapName(p.cr, C.COMPONENT, o));
            id in store && store[id].body == Data(map[ConfigFileName(C.COMPONENT) := render(C.ServerName(p, o)).value])
  {
    HAConfigStepIn(p, render, o, p.replicas);
    var step := Apply(C.HAConfigMap(p, o, render(C.ServerName(p, o)).value), false);
    Convergence.PrefixOfHASteps(p, render, w, C.HAConfigSteps(p, render, p.replicas));
    assert step in C.DesiredSteps(p, render, w);
    assert Conforms(d, store, owner, step.desired);
  }

  /** What the mount of an ordinal leads to: its own volume, backed by its own ConfigMap. */
  lemma MountLeadsHome(p: StatefulSetParams, peerOps: seq<ScriptOp>, o: nat)
    requires o < Replicas(p)
    ensures var t := StatefulSetTemplate(p, peerOps);
            && MountAt(t.initMounts, CONFIGS_PATH + Decimal(o)) == Some(ConfigMount(o))
            && VolumeNamed(t.volumes, ConfigMount(o).name) == Some(ConfigVolume(p, o))
  {
    var t := StatefulSetTemplate(p, peerOps);
    StatefulSetClosed(p, peerOps);
    MountFound(t.initMounts, ConfigMount(o));
    VolumeFound(t.volumes, ConfigVolume(p, o));
  }

  /** The template of the StatefulSet in the store. */
  function StoredTemplate(store: Store, s: Server): Option<Template> {
    var id := Id(StatefulSet, s.namespace, StatefulSetName(s.cr, C.COMPONENT));
    if id in store && store[id].body.Workload? && store[id].body.spec.Pods? then Some(store[id].body.spec.template) else None
  }

  lemma StoredTemplateIs(d: Body -> Body, store: Store, owner: string, s: Server, p: C.Plan, render: C.Renderer, w: PodSpec)
    requires KeepsPods(d) && p.ha && p.hostsValid && w.Pods? && (p.namespace, p.cr) == (s.namespace, s.cr)
    requires AllConform(d, store, owner, C.DesiredSteps(p, render, w))
    ensures StoredTemplate(store, s) == Some(w.template)
  {
    var k := Convergence.WorkloadPosition(p, render, w, w);
    assert C.DesiredSteps(p, render, w)[k] in C.DesiredSteps(p, render, w);
    assert Conforms(d, store, owner, Convergence.WorkloadObject(p, w));
  }

  /**
   * In a converged cluster the pod of ordinal `o` copies the configuration rendered for ordinal
   * `o`: along its mount, its volume and its ConfigMap, as the stored StatefulSet describes them.
   */
  lemma MountedConfig(d: Body -> Body, store: Store, owner: string, s: Server, p: C.Plan, render: C.Renderer, w: PodSpec,
                      params: StatefulSetParams, peerOps: seq<ScriptOp>, o: nat)
    requires KeepsData(d) && KeepsPods(d) && p.ha && p.hostsValid && o < p.replicas == Replicas(params)
    requires (p.namespace, p.cr) == (s.namespace, s.cr) && render(C.ServerName(p, o)).Some?
    requires params.configMapNames == ConfigMapNames(s, p.replicas)
    requires w.Pods? && w.template == StatefulSetTemplate(params, peerOps)
    requires AllConform(d, store, owner, C.DesiredSteps(p, render, w))
    ensures StoredTemplate(store, s) == Some(StatefulSetTemplate(params, peerOps))
    ensures SelectedConfig(store, s.namespace, StatefulSetTemplate(params, peerOps), PodName(StatefulSetName(s.cr, C.COMPONENT), o))
            == render(C.ServerName(p, o))
  {
    StoredTemplateIs(d, store, owner, s, p, render, w);
    OrdinalFromHostname(StatefulSetName(s.cr, C.COMPONENT), o);
    ConfigMapHolds(d, store, owner, p, render, w, o);
    NameOfOrdinal(s, p.replicas, o);
    SelectedIs(store, s.namespace, params, peerOps, PodName(StatefulSetName(s.cr, C.COMPONENT), o), o, render(C.ServerName(p, o)).value);
  }

  lemma NameOfOrdinal(s: Server, n: nat, o: nat)
    requires o < n
    ensures o in ConfigMapNames(s, n) && ConfigMapNames(s, n)[o] == HAConfigMapName(s.cr, C.COMPONENT, o)
  {
  }

  lemma SelectedIs(store: Store, ns: string, p: StatefulSetParams, peerOps: seq<ScriptOp>, hostname: string, o: nat, text: string)
    requires o < Replicas(p) && o in p.configMapNames && AfterLastDash(hostname) == Decimal(o)
    requires var id := Id(ConfigMap, ns, p.configMapNames[o]);
             id in store && store[id].body == Data(map[ConfigFileName(C.COMPONENT) := text])
    ensures SelectedConfig(store, ns, StatefulSetTemplate(p, peerOps), hostname) == Some(text)
  {
    MountLeadsHome(p, peerOps, o);
    assert ConfigVolume(p, o).source == FromConfigMap(p.configMapNames[o]);
  }

  // ---------- the script of the pod ----------

  /** The substitution of one command, if it performs one. */
  function RulesOfOp(op: ScriptOp, sts: string, pod: Pod): seq<Rule> {
    match op
    case ResolvePeer(_, _) => (match PeerRule(op, sts, pod) case Some(rule) => [rule] case None => [])
    case ExpandSecret(env) => [Rule("$" + env, pod.vars(env))]
  }

  /** The substitutions of a script, command by command. */
  function RulesOfScript(ops: seq<ScriptOp>, sts: string, pod: Pod): seq<Rule> {
    if ops == [] then []
    else RulesOfScript(ops[..|ops| - 1], sts, pod) + RulesOfOp(ops[|ops| - 1], sts, pod)
  }

  lemma {:induction false} PeerPart(ops: seq<ScriptOp>, sts: string, pod: Pod)
    requires AllResolve(ops)
    ensures RulesOfScript(ops, sts, pod) == PeerRules(ops, sts, pod)
  {
    if ops != [] {
      assert ops[|ops| - 1] in ops && forall op | op in ops[..|ops| - 1] :: op in ops;
      PeerPart(ops[..|ops| - 1], sts, pod);
    }
  }

  lemma OneMoreOp(ops: seq<ScriptOp>, op: ScriptOp, sts: string, pod: Pod)
    ensures RulesOfScript(ops + [op], sts, pod) == RulesOfScript(ops, sts, pod) + RulesOfOp(op, sts, pod)
  {
    assert (ops + [op])[..|ops + [op]| - 1] == ops;
  }

  function VarRules(envVars: seq<EnvVar>, pod: Pod): (r: seq<Rule>)
    ensures |r| == |envVars|
    ensures forall i | 0 <= i < |envVars| :: r[i] == Rule("$" + envVars[i].name, pod.vars(envVars[i].name))
  {
    seq(|envVars|, i requires 0 <= i < |envVars| => Rule("$" + envVars[i].name, pod.vars(envVars[i].name)))
  }

  lemma {:induction false} SecretPart(peerOps: seq<ScriptOp>, envVars: seq<EnvVar>, sts: string, pod: Pod)
    ensures RulesOfScript(peerOps + SecretOps(envVars), sts, pod) == RulesOfScript(peerOps, sts, pod) + VarRules(envVars, pod)
  {
    if envVars == [] {
      assert peerOps + SecretOps(envVars) == peerOps;
    } else {
      var n := |envVars| - 1;
      var op := ExpandSecret(envVars[n].name);
      SecretPart(peerOps, envVars[..n], sts, pod);
      OneMoreOp(peerOps + SecretOps(envVars[..n]), op, sts, pod);
      LastVariable(envVars, pod);
      C.ThreeJoin(peerOps, SecretOps(envVars[..n]), [op]);
      C.ThreeJoin(RulesOfScript(peerOps, sts, pod), VarRules(envVars[..n], pod), RulesOfOp(op, sts, pod));
    }
  }

  lemma LastVariable(envVars: seq<EnvVar>, pod: Pod)
    requires envVars != []
    ensures var n := |envVars| - 1;
            && SecretOps(envVars) == SecretOps(envVars[..n]) + [ExpandSecret(envVars[n].name)]
            && VarRules(envVars, pod) == VarRules(envVars[..n], pod) + [Rule("$" + envVars[n].name, pod.vars(envVars[n].name))]
  {
  }

  /** Variables and slots mean the same rules. */
  lemma SlotRules(envVars: seq<EnvVar>, slots: seq<Slot>, pod: Pod)
    requires NamesOf(envVars, slots)
    ensures VarRules(envVars, pod) == SecretRules(slots, pod.Secret)
  {
    forall i | 0 <= i < |slots| ensures VarRules(envVars, pod)[i] == SecretRules(slots, pod.Secret)[i] {
      assert envVars[i].name == EnvName(slots[i]);
    }
  }

  /** The script of the template performs the substitutions of the peers, then those of the secrets of the spec. */
  lemma RulesOfTemplate(s: Server, world: World, peerOps: seq<ScriptOp>, pod: Pod)
    requires AllResolve(peerOps)
    ensures RulesOfScript(StatefulSetTemplate(ParamsOf(s, world), peerOps).script, SiteOf(s).Sts(), pod)
            == InitRules(peerOps, SlotsOfSpec(FilledSpec(s)), SiteOf(s), pod)
  {
    SlotsMatch(FilledSpec(s));
    PeerPart(peerOps, SiteOf(s).Sts(), pod);
    SecretPart(peerOps, SecretEnvVars(FilledSpec(s)), SiteOf(s).Sts(), pod);
    SlotRules(SecretEnvVars(FilledSpec(s)), SlotsOfSpec(FilledSpec(s)), pod);
  }

  /** The configuration a pod runs with: its selected text after its whole script; no text if it finds none. */
  function FinalText(store: Store, s: Server, pod: Pod): Option<string> {
    var sts := StatefulSetName(s.cr, C.COMPONENT);
    match StoredTemplate(store, s)
    case None => None
    case Some(t) =>
      match SelectedConfig(store, s.namespace, t, PodName(sts, pod.ordinal))
      case None => None
      case Some(text) =>
        var rules := RulesOfScript(t.script, sts, pod);
        if AllPatterns(rules) then Some(Sequential(text, rules)) else None
  }

  predicate AllPatterns(rules: seq<Rule>) { WellFormed(rules) }

  // ---------- everything together ----------

  /** A resource with high availability whose peers have generated URLs, with a replica for every peer. */
  ghost predicate GeneratedHA(s: Server, world: World) {
    && HA(s) && WorkloadStability.GeneratedURLs(s) && SiteOf(s).Valid() && |FilledPeers(s)| <= ReplicasOf(s)
    && ParsesHttp(world.parse)
  }

  /** Leaving all URLs out is enough. */
  lemma OmittedURLsSuffice(s: Server, world: World)
    requires HA(s) && SiteOf(s).Valid() && |FilledPeers(s)| <= ReplicasOf(s) && ParsesHttp(world.parse)
    requires forall peer | peer in s.spec.highAvailability.value.peers :: peer.url == ""
    ensures GeneratedHA(s, world)
  {
    WorkloadStability.OmittedURLsAreGenerated(s);
  }

  /** A pod as the script expects it, in a cluster whose DNS knows the Services of the store, which have addresses. */
  ghost predicate GoodEnvironment(pod: Pod, store: Store, s: Server) {
    GoodPod(pod) && ServesDNS(pod.dns, store, s.namespace) && Allocated(store, SiteOf(s), |FilledPeers(s)|)
  }

  /** The substitutions of one pod. */
  function PodRules(s: Server, v: Visit, pod: Pod): seq<Rule>
    requires AllResolve(v.peerOps)
  {
    InitRules(v.peerOps, SlotsOfSpec(FilledSpec(s)), SiteOf(s), pod)
  }

  /** The address that belongs into the URL of peer `j` in this pod. */
  function AddressOf(store: Store, s: Server, pod: Pod, j: nat): string {
    if j == pod.ordinal then pod.ip else ClusterIP(store, ServiceId(SiteOf(s), j))
  }

  lemma VisitResolves(s: Server, world: World, v: Visit, pod: Pod)
    requires GeneratedHA(s, world) && ValidVisit(s, world, v)
    ensures HostsValid(FilledPeers(s), world.parse) && PeerMap(PeerHosts(s, world), |FilledPeers(s)|, SiteOf(s))
    ensures AllResolve(v.peerOps) && Enumerates(v.peerOps, PeerHosts(s, world)) && NoQuotes(PodRules(s, v, pod))
  {
    FilledHostMap(FilledPeers(s), world.parse, SiteOf(s), SocketPort(s));
    PeersOfTemplate(v.peerOps, PeerHosts(s, world), |FilledPeers(s)|, SiteOf(s));
    InitRulesShape(v.peerOps, SlotsOfSpec(FilledSpec(s)), SiteOf(s), pod);
  }

  /** The peers as a started pod should know them. */
  function StartedPeers(store: Store, s: Server, v: Visit, pod: Pod): (r: seq<HAPeer>)
    requires AllResolve(v.peerOps)
    ensures |r| == |FilledPeers(s)|
    ensures forall j | 0 <= j < |r| ::
              r[j] == FilledPeers(s)[j].(name := Sequential(FilledPeers(s)[j].name, PodRules(s, v, pod)),
                                         url := HttpURL(AddressOf(store, s, pod, j), SocketPort(s)))
  {
    seq(|FilledPeers(s)|, j requires 0 <= j < |FilledPeers(s)| =>
      FilledPeers(s)[j].(name := Sequential(FilledPeers(s)[j].name, PodRules(s, v, pod)),
                         url := HttpURL(AddressOf(store, s, pod, j), SocketPort(s))))
  }

  lemma StartedURL(store: Store, s: Server, world: World, v: Visit, pod: Pod, j: nat)
    requires GeneratedHA(s, world) && ValidVisit(s, world, v) && GoodEnvironment(pod, store, s)
    requires pod.ordinal < |FilledPeers(s)| && j < |FilledPeers(s)|
    ensures AllResolve(v.peerOps) && WellFormed(PodRules(s, v, pod))
    ensures Sequential(FilledPeers(s)[j].url, PodRules(s, v, pod)) == HttpURL(AddressOf(store, s, pod, j), SocketPort(s))
  {
    VisitResolves(s, world, v, pod);
    FoundByName(pod.dns, store, SiteOf(s), |FilledPeers(s)|, j);
    PeerURLAlone(j, SocketPort(s), v.peerOps, PeerHosts(s, world), |FilledPeers(s)|, SlotsOfSpec(FilledSpec(s)), SiteOf(s), pod);
  }

  lemma LibraryDots()
    ensures '$' !in Render.HA_LIBRARY
    ensures forall x | 0 <= x < |Render.HA_LIBRARY| && Render.HA_LIBRARY[x] == '.' :: x == 29
  {
    var a, b := "/usr/lib/kea/hooks/libdhcp_ha", "so";
    assert Render.HA_LIBRARY == a + "." + b;
  }

  /** The script does not touch the library name by which Kea's hooks are found. */
  lemma LibraryKept(s: Server, world: World, v: Visit, pod: Pod)
    requires GeneratedHA(s, world) && ValidVisit(s, world, v)
    ensures AllResolve(v.peerOps) && WellFormed(PodRules(s, v, pod))
    ensures Sequential(Render.HA_LIBRARY, PodRules(s, v, pod)) == Render.HA_LIBRARY
  {
    VisitResolves(s, world, v, pod);
    LibraryDots();
    OneDotIsSafe(Render.HA_LIBRARY, 29, v.peerOps, PeerHosts(s, world), |FilledPeers(s)|, SlotsOfSpec(FilledSpec(s)), SiteOf(s), pod);
  }

  lemma FinalTextIs(store: Store, s: Server, pod: Pod, t: Template, text: string, rules: seq<Rule>)
    requires StoredTemplate(store, s) == Some(t)
    requires SelectedConfig(store, s.namespace, t, PodName(StatefulSetName(s.cr, C.COMPONENT), pod.ordinal)) == Some(text)
    requires RulesOfScript(t.script, StatefulSetName(s.cr, C.COMPONENT), pod) == rules && WellFormed(rules)
    ensures FinalText(store, s, pod) == Some(Sequential(text, rules))
  {
  }

  /** What pod `o` mounts, as the text of the configuration of ordinal `o`. */
  lemma PodMounts(d: Body -> Body, store: Store, owner: string, s: Server, world: World, v: Visit, o: nat)
    requires KeepsData(d) && KeepsPods(d) && HA(s) && HostsValid(FilledPeers(s), world.parse) && o < ReplicasOf(s)
    requires AllConform(d, store, owner, StepsOf(s, world, v))
    ensures var t := StatefulSetTemplate(ParamsOf(s, world), v.peerOps);
            && StoredTemplate(store, s) == Some(t)
            && SelectedConfig(store, s.namespace, t, PodName(StatefulSetName(s.cr, C.COMPONENT), o))
               == RendererOf(s, world)(C.ServerName(PlanOf(s, world), o))
  {
    MountedConfig(d, store, owner, s, PlanOf(s, world), RendererOf(s, world), DesiredWorkload(s, world, v),
                  ParamsOf(s, world), v.peerOps, o);
  }

  /** The text pod `o` runs with, for any configuration text mounted for it. */
  lemma PodRuns(d: Body -> Body, store: Store, owner: string, s: Server, world: World, v: Visit, pod: Pod, text: string)
    requires KeepsData(d) && KeepsPods(d) && GeneratedHA(s, world) && ValidVisit(s, world, v) && pod.ordinal < ReplicasOf(s)
    requires AllConform(d, store, owner, StepsOf(s, world, v))
    requires RendererOf(s, world)(C.ServerName(PlanOf(s, world), pod.ordinal)) == Some(text)
    ensures AllResolve(v.peerOps) && WellFormed(PodRules(s, v, pod))
    ensures FinalText(store, s, pod) == Some(Sequential(text, PodRules(s, v, pod)))
  {
    VisitResolves(s, world, v, pod);
    PodMounts(d, store, owner, s, world, v, pod.ordinal);
    RulesOfTemplate(s, world, v.peerOps, pod);
    FinalTextIs(store, s, pod, StatefulSetTemplate(ParamsOf(s, world), v.peerOps), text, PodRules(s, v, pod));
  }

  /** The configuration of an ordinal. */
  function ConfigOf(s: Server, world: World, o: nat): Json.Json { ConfigTree(s, C.ServerName(PlanOf(s, world), o)) }

  /**
   * End to end, from the spec to the running pod. In a converged cluster the text pod `o` of a peer runs
   * with is the configuration of ordinal `o` with every string rewritten. It calls this server by the
   * name of peer `o`, gives peer `o` the pod's own address, and every other peer `j` the ClusterIP of
   * a Service that selects pod `j` of this resource and no other pod of any resource. That Service
   * listens on the port in the URL and hands it on to the same port of the pod, where a control
   * socket with a port makes Kea listen on all addresses.
   */
  lemma StartedPod(d: Body -> Body, store: Store, owner: string, s: Server, world: World, ser: Serializer, v: Visit,
                   pod: Pod, config: Json.Json)
    requires OnlyDefaults(d) && KeepsData(d) && KeepsPods(d) && KeepsPorts(d) && GeneratedHA(s, world) && ValidVisit(s, world, v)
    requires AllConform(d, store, owner, StepsOf(s, world, v)) && GoodEnvironment(pod, store, s) && pod.ordinal < |FilledPeers(s)|
    requires Sound(ser) && (forall j :: world.marshal(j) == TextOfTree(ser, j)) && config == ConfigOf(s, world, pod.ordinal)
    requires AllResolve(v.peerOps) && WellFormed(PodRules(s, v, pod))
    requires FrameUntouched(ser, config, PodRules(s, v, pod)) && EscapeCommutes(ser, config, PodRules(s, v, pod))
    ensures var running := MapLeaves(Rewriter(PodRules(s, v, pod)), config);
            && FinalText(store, s, pod) == Some(TextOfTree(ser, running))
            && Says(ConfiguredHA(running), Sequential(NameOf(s, pod.ordinal), PodRules(s, v, pod)), StartedPeers(store, s, v, pod))
            && if HaListener.HasPort(s.spec) then HaListener.Listens(HaListener.HAEntry(running), SocketPort(s))
               else HaListener.NoListener(HaListener.HAEntry(running))
    ensures forall j: nat | j < ReplicasOf(s) ::
              SelectsExactly(store, s, j) && ListensOn(store, ServiceId(SiteOf(s), j), SocketPort(s))
  {
    VisitResolves(s, world, v, pod);
    PodRuns(d, store, owner, s, world, v, pod, world.marshal(config));
    TextRewritten(ser, config, PodRules(s, v, pod));
    StartedSays(store, s, world, v, pod, config);
    StartedListener(s, world, v, pod, config);
    ServicesSelect(d, store, owner, s, world, v);
    ServicesListen(d, store, owner, s, world, v);
  }

  lemma StartedListener(s: Server, world: World, v: Visit, pod: Pod, config: Json.Json)
    requires GeneratedHA(s, world) && ValidVisit(s, world, v) && config == ConfigOf(s, world, pod.ordinal)
    ensures AllResolve(v.peerOps) && WellFormed(PodRules(s, v, pod))
    ensures var entry := HaListener.HAEntry(MapLeaves(Rewriter(PodRules(s, v, pod)), config));
            if HaListener.HasPort(s.spec) then HaListener.Listens(entry, SocketPort(s)) else HaListener.NoListener(entry)
  {
    ListenerAddressKept(s, world, v, pod);
    MappedListener(Rewriter(PodRules(s, v, pod)), FilledSpec(s), CredsOf(FilledSpec(s)), C.ServerName(PlanOf(s, world), pod.ordinal));
  }

  /** The port of the generated URLs: that of the control socket, or 8000. */
  predicate URLPort(spec: Dhcp4Spec, port: int) {
    if spec.controlSocket.Some? && spec.controlSocket.value.socketPort.Some? && spec.controlSocket.value.socketPort.value >= 0
    then port == spec.controlSocket.value.socketPort.value
    else port == 8000
  }

  /** The per-pod Services listen where the URLs of the peers say. */
  lemma ServicesListen(d: Body -> Body, store: Store, owner: string, s: Server, world: World, v: Visit)
    requires OnlyDefaults(d) && KeepsPorts(d) && HA(s) && AllConform(d, store, owner, StepsOf(s, world, v))
    ensures URLPort(s.spec, SocketPort(s))
    ensures forall j: nat | j < ReplicasOf(s) :: ListensOn(store, ServiceId(SiteOf(s), j), SocketPort(s))
  {
    var p, render := PlanOf(s, world), RendererOf(s, world);
    forall j: nat | j < ReplicasOf(s) ensures ListensOn(store, ServiceId(SiteOf(s), j), SocketPort(s)) {
      PerPodStepIn(p, render, DesiredWorkload(s, world, v), j);
      ServiceListens(d, store, owner, BuildPerPodService(C.Params(p, p.haPort), j), SocketPort(s));
    }
  }

  /** A conforming Service has the ports it is wanted with. */
  lemma ServiceListens(d: Body -> Body, store: Store, owner: string, desired: Object, port: int)
    requires OnlyDefaults(d) && KeepsPorts(d) && Conforms(d, store, owner, desired) && desired.body.ServiceSpec?
    requires |desired.body.ports| == 1 && desired.body.ports[0].port == port
    requires desired.body.ports[0].targetPort == IntPort(port) && desired.body.ports[0].protocol == "TCP"
    ensures ListensOn(store, desired.id, port)
  {
    var live := store[desired.id].body;
    var merged := desired.body.(clusterIP := live.clusterIP, clusterIPs := live.clusterIPs);
    assert live == d(merged) && merged.ports == desired.body.ports;
  }

  /** The script does not touch the address of the listener: host names start with letters, placeholders with `$`. */
  lemma ListenerAddressKept(s: Server, world: World, v: Visit, pod: Pod)
    requires GeneratedHA(s, world) && ValidVisit(s, world, v)
    ensures AllResolve(v.peerOps) && WellFormed(PodRules(s, v, pod))
    ensures Sequential("0.0.0.0", PodRules(s, v, pod)) == "0.0.0.0"
  {
    VisitResolves(s, world, v, pod);
    NoLettersIsSafe("0.0.0.0", v.peerOps, PeerHosts(s, world), |FilledPeers(s)|, SlotsOfSpec(FilledSpec(s)), SiteOf(s), pod);
  }

  /** The listener in a rewritten tree. */
  lemma MappedListener(f: string -> string, spec: Dhcp4Spec, creds: Credentials, name: string)
    requires spec.highAvailability.Some? && f("0.0.0.0") == "0.0.0.0"
    ensures var entry := HaListener.HAEntry(MapLeaves(f, Render.RootTree(spec, creds, name)));
            if HaListener.HasPort(spec) then HaListener.Listens(entry, spec.controlSocket.value.socketPort.value)
            else HaListener.NoListener(entry)
  {
    var ha, port := spec.highAvailability.value, Render.HAPort(spec.controlSocket);
    MappedHooks(f, spec, creds, name);
    MappedEntry(f, spec, name);
    HaListener.TreeListens(ha, Render.EffectiveName(ha, name), port);
    HATreeFields(ha, Render.EffectiveName(ha, name), port);
    MappedListens(f, Render.Of(Render.HATree(ha, Render.EffectiveName(ha, name), port)), port);
  }

  lemma MappedListens(f: string -> string, m: Json.Fields, port: int)
    requires f("0.0.0.0") == "0.0.0.0"
    ensures var after := Render.Of(MapLeaves(f, Json.Obj(m)));
            && (HaListener.Listens(m, port) ==> HaListener.Listens(after, port))
            && (HaListener.NoListener(m) ==> HaListener.NoListener(after))
  {
    MappedLookup(f, m, Json.HTTP_DEDICATED_LISTENER);
    MappedLookup(f, m, Json.HTTP_LISTENER_ADDRESS);
    MappedLookup(f, m, Json.HTTP_LISTENER_PORT);
  }

  lemma MappedEntry(f: string -> string, spec: Dhcp4Spec, name: string)
    requires spec.highAvailability.Some?
    ensures var ha := spec.highAvailability.value;
            var tree := Render.HATree(ha, Render.EffectiveName(ha, name), Render.HAPort(spec.controlSocket));
            HaListener.EntryIn(MapElems(f, Render.HookElems(spec, name))) == Render.Of(MapLeaves(f, tree))
  {
    var ha := spec.highAvailability.value;
    var tree := Render.HATree(ha, Render.EffectiveName(ha, name), Render.HAPort(spec.controlSocket));
    var hook := Render.HookTree(HookLibrary(Render.HA_LIBRARY, Parsed(Render.HAParameters(tree))));
    var hooks := Render.HookElems(spec, name);
    assert hooks[|hooks| - 1] == hook;
    MappedParameters(f, tree);
    assert MapElems(f, hooks)[|hooks| - 1] == MapLeaves(f, hook);
  }

  /** The Service of peer `j` selects pod `j` of this resource and no other pod of any resource. */
  ghost predicate SelectsExactly(store: Store, s: Server, j: nat) {
    forall cr, c, k: nat ::
      Selects(SelectorOf(store, ServiceId(SiteOf(s), j)), PodLabels(cr, c, k)) <==> (cr, c, k) == (s.cr, C.COMPONENT, j)
  }

  lemma SaysOf(f: string -> string, spec: Dhcp4Spec, creds: Credentials, name: string, peers: seq<HAPeer>)
    requires spec.highAvailability.Some? && f(Render.HA_LIBRARY) == Render.HA_LIBRARY
    requires MapPeers(f, spec.highAvailability.value.peers) == peers
    ensures Says(ConfiguredHA(MapLeaves(f, Render.RootTree(spec, creds, name))),
                 f(Render.EffectiveName(spec.highAvailability.value, name)), peers)
  {
    MappedHA(f, spec, creds, name);
  }

  lemma StartedSays(store: Store, s: Server, world: World, v: Visit, pod: Pod, config: Json.Json)
    requires GeneratedHA(s, world) && ValidVisit(s, world, v) && GoodEnvironment(pod, store, s) && pod.ordinal < |FilledPeers(s)|
    requires config == ConfigOf(s, world, pod.ordinal)
    ensures AllResolve(v.peerOps) && WellFormed(PodRules(s, v, pod))
    ensures var running := MapLeaves(Rewriter(PodRules(s, v, pod)), config);
            Says(ConfiguredHA(running), Sequential(NameOf(s, pod.ordinal), PodRules(s, v, pod)), StartedPeers(store, s, v, pod))
  {
    LibraryKept(s, world, v, pod);
    PeersStart(store, s, world, v, pod);
    EffectiveIsName(s, world, pod.ordinal);
    SaysOf(Rewriter(PodRules(s, v, pod)), FilledSpec(s), CredsOf(FilledSpec(s)), C.ServerName(PlanOf(s, world), pod.ordinal),
           StartedPeers(store, s, v, pod));
  }

  lemma PeersStart(store: Store, s: Server, world: World, v: Visit, pod: Pod)
    requires GeneratedHA(s, world) && ValidVisit(s, world, v) && GoodEnvironment(pod, store, s) && pod.ordinal < |FilledPeers(s)|
    ensures AllResolve(v.peerOps) && WellFormed(PodRules(s, v, pod))
    ensures MapPeers(Rewriter(PodRules(s, v, pod)), FilledPeers(s)) == StartedPeers(store, s, v, pod)
  {
    VisitResolves(s, world, v, pod);
    var f := Rewriter(PodRules(s, v, pod));
    forall j | 0 <= j < |FilledPeers(s)|
      ensures MapPeers(f, FilledPeers(s))[j] == StartedPeers(store, s, v, pod)[j]
    {
      StartedURL(store, s, world, v, pod, j);
    }
  }

  lemma EffectiveIsName(s: Server, world: World, o: nat)
    requires HA(s) && o < |FilledPeers(s)|
    ensures FilledSpec(s).highAvailability.Some? && FilledSpec(s).highAvailability.value.peers == FilledPeers(s)
    ensures Render.EffectiveName(FilledSpec(s).highAvailability.value, C.ServerName(PlanOf(s, world), o)) == NameOf(s, o)
  {
  }

  lemma ServicesSelect(d: Body -> Body, store: Store, owner: string, s: Server, world: World, v: Visit)
    requires OnlyDefaults(d) && HA(s) && AllConform(d, store, owner, StepsOf(s, world, v))
    ensures forall j: nat | j < ReplicasOf(s) :: SelectsExactly(store, s, j)
  {
    var p, render := PlanOf(s, world), RendererOf(s, world);
    forall j: nat | j < ReplicasOf(s) ensures SelectsExactly(store, s, j) {
      PerPodStepIn(p, render, DesiredWorkload(s, world, v), j);
      ServiceOfPeer(d, store, owner, C.Params(p, p.haPort), SiteOf(s), j);
    }
  }

  /**
   * If the peers have distinct names in which no host name and no placeholder occurs, the running
   * configuration of pod `o` identifies peer `o`, and no other, as this server.
   */
  lemma StartedIdentity(store: Store, s: Server, world: World, v: Visit, pod: Pod)
    requires GeneratedHA(s, world) && ValidVisit(s, world, v) && GoodEnvironment(pod, store, s) && pod.ordinal < |FilledPeers(s)|
    requires AllResolve(v.peerOps) && WellFormed(PodRules(s, v, pod))
    requires forall j | 0 <= j < |FilledPeers(s)| ::
               FilledPeers(s)[j].name != "" && NothingOccurs(FilledPeers(s)[j].name, PodRules(s, v, pod))
    requires forall i, j | 0 <= i < j < |FilledPeers(s)| :: FilledPeers(s)[i].name != FilledPeers(s)[j].name
    ensures Sequential(NameOf(s, pod.ordinal), PodRules(s, v, pod)) == FilledPeers(s)[pod.ordinal].name
    ensures forall j | 0 <= j < |FilledPeers(s)| ::
              StartedPeers(store, s, v, pod)[j].name == Sequential(NameOf(s, pod.ordinal), PodRules(s, v, pod)) <==> j == pod.ordinal
  {
    forall j | 0 <= j < |FilledPeers(s)|
      ensures Sequential(FilledPeers(s)[j].name, PodRules(s, v, pod)) == FilledPeers(s)[j].name
    {
      NothingReplaced(FilledPeers(s)[j].name, PodRules(s, v, pod));
    }
  }

  /** Text without dots and `$` is not touched, so the structure of an ordinary configuration is not. */
  lemma QuietFrame(s: Server, world: World, ser: Serializer, v: Visit, pod: Pod, config: Json.Json)
    requires GeneratedHA(s, world) && ValidVisit(s, world, v)
    requires forall part | part in ser.frame(Blank(config)) :: '.' !in part && '$' !in part
    ensures AllResolve(v.peerOps) && WellFormed(PodRules(s, v, pod)) && FrameUntouched(ser, config, PodRules(s, v, pod))
  {
    VisitResolves(s, world, v, pod);
    forall part | part in ser.frame(Blank(config)) ensures Sequential(part, PodRules(s, v, pod)) == part {
      OneDotIsSafe(part, 0, v.peerOps, PeerHosts(s, world), |FilledPeers(s)|, SlotsOfSpec(FilledSpec(s)), SiteOf(s), pod);
    }
  }
}
