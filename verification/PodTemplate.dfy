/**
 * Pod templates (statefulset.go, deployment.go, stork.go): volumes, mounts and the init script.
 * Go visits maps in an unspecified order; the loops below choose any next key.
 */
module PodTemplate {
  import opened Options
  import opened Strings
  import opened Names
  import opened Secrets
  import opened Templates

  const ACTIVE_CONFIG := Volume("kea-active-config", EmptyDir)
  const RUN := Volume("kea-run", EmptyDir)
  const LEASES := Volume("kea-leases", EmptyDir)
  const CONFIGS_PATH := "/etc/kea/configs/"

  datatype StatefulSetParams = StatefulSetParams(
    cr: string,
    component: Component,
    replicas: Option<nat>,
    configMapNames: map<nat, string>,
    peerHostnames: map<string, string>,
    tlsSecret: string,
    stork: bool,
    secretEnvVars: seq<EnvVar>)

  function Replicas(p: StatefulSetParams): nat { if p.replicas.Some? then p.replicas.value else 2 }

  function ConfigVolumeName(i: nat): string { "kea-config-" + Decimal(i) }

  function ConfigVolume(p: StatefulSetParams, i: nat): Volume {
    Volume(ConfigVolumeName(i),
           FromConfigMap(if i in p.configMapNames then p.configMapNames[i] else HAConfigMapName(p.cr, p.component, i)))
  }

  function ConfigMount(i: nat): Mount { Mount(ConfigVolumeName(i), CONFIGS_PATH + Decimal(i), true) }

  /** A loop over a map produced one command per entry, in some order. */
  ghost predicate Enumerates(ops: seq<ScriptOp>, m: map<string, string>) {
    && Distinct(ops)
    && (forall op | op in ops :: op.ResolvePeer? && op.configHost in m && op.serviceHost == m[op.configHost])
    && (forall h | h in m :: ResolvePeer(h, m[h]) in ops)
  }

  function ConfigVolumes(p: StatefulSetParams, n: nat): (s: seq<Volume>)
    ensures |s| == n && forall i | 0 <= i < n :: s[i] == ConfigVolume(p, i)
  {
    seq(n, i requires 0 <= i < n => ConfigVolume(p, i))
  }

  function ConfigMounts(n: nat): (s: seq<Mount>)
    ensures |s| == n && forall i | 0 <= i < n :: s[i] == ConfigMount(i)
  {
    seq(n, i requires 0 <= i < n => ConfigMount(i))
  }

  function SecretOps(envVars: seq<EnvVar>): (s: seq<ScriptOp>)
    ensures |s| == |envVars| && forall i | 0 <= i < |envVars| :: s[i] == ExpandSecret(envVars[i].name)
  {
    seq(|envVars|, i requires 0 <= i < |envVars| => ExpandSecret(envVars[i].name))
  }

  const INIT_MOUNTS :=
    [Mount("kea-active-config", "/etc/kea/active", false), Mount("kea-run", "/var/run/kea", false)]

  const MAIN_MOUNTS :=
    [Mount("kea-active-config", "/etc/kea", true), Mount("kea-run", "/var/run/kea", false),
     Mount("kea-leases", "/var/lib/kea", false)]

  function TLSVolumes(secret: string): seq<Volume> {
    if secret != "" then [Volume("kea-tls", FromSecret(secret))] else []
  }

  function TLSMounts(secret: string): seq<Mount> {
    if secret != "" then [Mount("kea-tls", "/etc/kea/tls", true)] else []
  }

  /** The template for one visiting order of the peer map. */
  function StatefulSetTemplate(p: StatefulSetParams, peerOps: seq<ScriptOp>): Template {
    Template([ACTIVE_CONFIG, RUN, LEASES] + ConfigVolumes(p, Replicas(p)) + TLSVolumes(p.tlsSecret),
             INIT_MOUNTS + ConfigMounts(Replicas(p)),
             MAIN_MOUNTS + TLSMounts(p.tlsSecret),
             if p.stork then StorkMounts("kea-active-config") else [],
             peerOps + SecretOps(p.secretEnvVars),
             p.secretEnvVars)
  }

  /** The commands in front of those for the secrets. */
  function PeerOps(p: StatefulSetParams, t: Template): seq<ScriptOp>
    requires |t.script| >= |p.secretEnvVars|
  {
    t.script[..|t.script| - |p.secretEnvVars|]
  }

  method BuildStatefulSet(p: StatefulSetParams) returns (t: Template)
    ensures |t.script| >= |p.secretEnvVars|
    ensures Enumerates(PeerOps(p, t), p.peerHostnames) && t == StatefulSetTemplate(p, PeerOps(p, t))
  {
    var volumes, initMounts := BuildConfigVolumes(p, [ACTIVE_CONFIG, RUN, LEASES], INIT_MOUNTS);
    var mainMounts := MAIN_MOUNTS;
    if p.tlsSecret != "" {
      volumes := volumes + [Volume("kea-tls", FromSecret(p.tlsSecret))];
      mainMounts := mainMounts + [Mount("kea-tls", "/etc/kea/tls", true)];
    }
    var peerOps := BuildPeerCommands(p.peerHostnames);
    var script := BuildSecretCommands(p.secretEnvVars, peerOps);
    t := Template(volumes, initMounts, mainMounts, if p.stork then StorkMounts("kea-active-config") else [], script,
                  p.secretEnvVars);
    assert PeerOps(p, t) == peerOps;
  }

  /** The loop over the ordinals: one volume and one init mount each. */
  method BuildConfigVolumes(p: StatefulSetParams, firstVolumes: seq<Volume>, firstMounts: seq<Mount>)
    returns (volumes: seq<Volume>, initMounts: seq<Mount>)
    ensures volumes == firstVolumes + ConfigVolumes(p, Replicas(p))
    ensures initMounts == firstMounts + ConfigMounts(Replicas(p))
  {
    volumes, initMounts := firstVolumes, firstMounts;
    for i := 0 to Replicas(p)
      invariant volumes == firstVolumes + ConfigVolumes(p, i)
      invariant initMounts == firstMounts + ConfigMounts(i)
    {
      assert ConfigVolumes(p, i) + [ConfigVolume(p, i)] == ConfigVolumes(p, i + 1);
      assert ConfigMounts(i) + [ConfigMount(i)] == ConfigMounts(i + 1);
      volumes := volumes + [ConfigVolume(p, i)];
      initMounts := initMounts + [ConfigMount(i)];
    }
  }

  /** The loop over the secret variables. */
  method BuildSecretCommands(envVars: seq<EnvVar>, first: seq<ScriptOp>) returns (script: seq<ScriptOp>)
    ensures script == first + SecretOps(envVars)
  {
    script := first;
    for i := 0 to |envVars|
      invariant script == first + SecretOps(envVars[..i])
    {
      assert SecretOps(envVars[..i]) + [ExpandSecret(envVars[i].name)] == SecretOps(envVars[..i + 1]);
      script := script + [ExpandSecret(envVars[i].name)];
    }
    assert envVars[..|envVars|] == envVars;
  }

  /** The loop over the peer host names. */
  method BuildPeerCommands(m: map<string, string>) returns (ops: seq<ScriptOp>)
    ensures Enumerates(ops, m)
  {
    ops := [];
    var left := m.Keys;
    while left != {}
      invariant left <= m.Keys && Distinct(ops)
      invariant forall op | op in ops ::
                  op.ResolvePeer? && op.configHost in m && op.configHost !in left && op.serviceHost == m[op.configHost]
      invariant forall h | h in m && h !in left :: ResolvePeer(h, m[h]) in ops
      decreases left
    {
      var h :| h in left;
      ops := ops + [ResolvePeer(h, m[h])];
      left := left - {h};
    }
  }

  function StorkMounts(configVolume: string): seq<Mount> {
    [Mount(configVolume, "/etc/kea", true), Mount("kea-run", "/var/run/kea", false)]
  }

  // ---------- Deployments ----------

  datatype DeploymentParams = DeploymentParams(
    configMapName: string,
    tlsSecret: string,
    stork: bool,
    secretEnvVars: seq<EnvVar>)

  function DeploymentTemplate(p: DeploymentParams): Template {
    var hasSecrets := p.secretEnvVars != [];
    Template([Volume("kea-config", FromConfigMap(p.configMapName)), RUN, LEASES]
             + (if hasSecrets then [Volume("kea-config-rendered", EmptyDir)] else []) + TLSVolumes(p.tlsSecret),
             [],
             [Mount("kea-config", if hasSecrets then "/etc/kea-template" else "/etc/kea", true),
              Mount("kea-run", "/var/run/kea", false), Mount("kea-leases", "/var/lib/kea", false)]
             + (if hasSecrets then [Mount("kea-config-rendered", "/etc/kea", false)] else []) + TLSMounts(p.tlsSecret),
             if p.stork then StorkMounts("kea-config") else [],
             [],
             p.secretEnvVars)
  }

  method BuildDeployment(p: DeploymentParams) returns (t: Template)
    ensures t == DeploymentTemplate(p)
  {
    var hasSecrets := |p.secretEnvVars| > 0;
    var volumes := [Volume("kea-config", FromConfigMap(p.configMapName)), RUN, LEASES];
    var mounts := [Mount("kea-config", if hasSecrets then "/etc/kea-template" else "/etc/kea", true),
                   Mount("kea-run", "/var/run/kea", false), Mount("kea-leases", "/var/lib/kea", false)];
    if hasSecrets {
      volumes := volumes + [Volume("kea-config-rendered", EmptyDir)];
      mounts := mounts + [Mount("kea-config-rendered", "/etc/kea", false)];
    }
    if p.tlsSecret != "" {
      volumes := volumes + [Volume("kea-tls", FromSecret(p.tlsSecret))];
      mounts := mounts + [Mount("kea-tls", "/etc/kea/tls", true)];
    }
    t := Template(volumes, [], mounts, if p.stork then StorkMounts("kea-config") else [], [], p.secretEnvVars);
  }

  // ---------- templates are closed ----------

  predicate DistinctVolumes(vs: seq<Volume>) { forall i, j | 0 <= i < j < |vs| :: vs[i].name != vs[j].name }

  predicate DistinctPaths(ms: seq<Mount>) { forall i, j | 0 <= i < j < |ms| :: ms[i].path != ms[j].path }

  predicate Declared(ms: seq<Mount>, vs: seq<Volume>) { forall m | m in ms :: exists v :: v in vs && v.name == m.name }

  /** Volume names are distinct; every mount names a declared volume; paths are distinct per container. */
  predicate Closed(t: Template) {
    && DistinctVolumes(t.volumes)
    && Declared(t.initMounts, t.volumes) && DistinctPaths(t.initMounts)
    && Declared(t.mainMounts, t.volumes) && DistinctPaths(t.mainMounts)
    && Declared(t.storkMounts, t.volumes) && DistinctPaths(t.storkMounts)
  }

  lemma ConfigNamesDiffer(i: nat, j: nat)
    ensures ConfigVolumeName(i) == ConfigVolumeName(j) ==> i == j
    ensures ConfigMount(i).path == ConfigMount(j).path ==> i == j
  {
    assert ConfigVolumeName(i)[11..] == Decimal(i) && ConfigVolumeName(j)[11..] == Decimal(j);
    assert ConfigMount(i).path[|CONFIGS_PATH|..] == Decimal(i);
    assert ConfigMount(j).path[|CONFIGS_PATH|..] == Decimal(j);
    if Decimal(i) == Decimal(j) {
      DecimalInjective(i, j);
    }
  }

  lemma ConfigVolumesDistinct(p: StatefulSetParams)
    ensures DistinctVolumes(ConfigVolumes(p, Replicas(p)))
    ensures forall v | v in ConfigVolumes(p, Replicas(p)) :: |v.name| > 4 && v.name[4] == 'c'
  {
    var vs := ConfigVolumes(p, Replicas(p));
    forall i, j | 0 <= i < j < |vs| ensures vs[i].name != vs[j].name {
      ConfigNamesDiffer(i, j);
    }
    forall v | v in vs ensures |v.name| > 4 && v.name[4] == 'c' {
      var i :| 0 <= i < |vs| && v == vs[i];
      ConfigLandmarks(i);
    }
  }

  lemma ConfigMountsDistinct(n: nat)
    ensures DistinctPaths(ConfigMounts(n))
    ensures forall m | m in ConfigMounts(n) :: |m.path| > 9 && m.path[1] == 'e' && m.path[9] == 'c'
  {
    var ms := ConfigMounts(n);
    forall i, j | 0 <= i < j < |ms| ensures ms[i].path != ms[j].path {
      ConfigNamesDiffer(i, j);
    }
    forall m | m in ms ensures |m.path| > 9 && m.path[1] == 'e' && m.path[9] == 'c' {
      var i :| 0 <= i < |ms| && m == ms[i];
      ConfigLandmarks(i);
    }
  }

  lemma ConfigLandmarks(i: nat)
    ensures |ConfigVolumeName(i)| > 4 && ConfigVolumeName(i)[4] == 'c'
    ensures var path := ConfigMount(i).path; |path| > 9 && path[1] == 'e' && path[9] == 'c'
  {
  }

  lemma VolumesAppend(a: seq<Volume>, b: seq<Volume>)
    requires DistinctVolumes(a) && DistinctVolumes(b) && forall x, y | x in a && y in b :: x.name != y.name
    ensures DistinctVolumes(a + b)
  {
    forall i, j | 0 <= i < j < |a + b| ensures (a + b)[i].name != (a + b)[j].name {
      if i < |a| <= j { assert a[i] in a && b[j - |a|] in b; }
    }
  }

  lemma PathsAppend(a: seq<Mount>, b: seq<Mount>)
    requires DistinctPaths(a) && DistinctPaths(b) && forall x, y | x in a && y in b :: x.path != y.path
    ensures DistinctPaths(a + b)
  {
    forall i, j | 0 <= i < j < |a + b| ensures (a + b)[i].path != (a + b)[j].path {
      if i < |a| <= j { assert a[i] in a && b[j - |a|] in b; }
    }
  }

  lemma StatefulSetVolumesDistinct(p: StatefulSetParams)
    ensures DistinctVolumes([ACTIVE_CONFIG, RUN, LEASES] + ConfigVolumes(p, Replicas(p)) + TLSVolumes(p.tlsSecret))
  {
    var a, b, c := [ACTIVE_CONFIG, RUN, LEASES], ConfigVolumes(p, Replicas(p)), TLSVolumes(p.tlsSecret);
    ConfigVolumesDistinct(p);
    assert DistinctVolumes(a) && forall v | v in a :: |v.name| > 4 && v.name[4] in ['a', 'r', 'l'];
    VolumesAppend(a, b);
    assert DistinctVolumes(c) && forall v | v in c :: |v.name| > 4 && v.name[4] == 't';
    assert forall v | v in a + b :: v in a || v in b;
    VolumesAppend(a + b, c);
  }

  /**
   * For all replica counts and options the template is closed, and ordinal `i` mounts, under the
   * path the init script copies from, the ConfigMap recorded for that ordinal.
   */
  lemma StatefulSetClosed(p: StatefulSetParams, peerOps: seq<ScriptOp>)
    ensures var t := StatefulSetTemplate(p, peerOps);
            && Closed(t)
            && forall i: nat | i < Replicas(p) ::
                 ConfigVolume(p, i) in t.volumes && ConfigMount(i) in t.initMounts
                 && ConfigMount(i).name == ConfigVolume(p, i).name
  {
    var t := StatefulSetTemplate(p, peerOps);
    StatefulSetVolumesDistinct(p);
    assert t.volumes[0] == ACTIVE_CONFIG && t.volumes[1] == RUN && t.volumes[2] == LEASES;
    forall i: nat | i < Replicas(p)
      ensures ConfigVolume(p, i) in t.volumes && ConfigMount(i) in t.initMounts
    {
      assert t.volumes[3 + i] == ConfigVolume(p, i) && t.initMounts[2 + i] == ConfigMount(i);
    }
    InitMountsClosed(p, t.volumes);
    assert p.tlsSecret != "" ==> t.volumes[|t.volumes| - 1].name == "kea-tls";
    MainMountsClosed(t.volumes, p.tlsSecret);
  }

  lemma InitMountsClosed(p: StatefulSetParams, volumes: seq<Volume>)
    requires ACTIVE_CONFIG in volumes && RUN in volumes
    requires forall i: nat | i < Replicas(p) :: ConfigVolume(p, i) in volumes
    ensures Declared(INIT_MOUNTS + ConfigMounts(Replicas(p)), volumes)
    ensures DistinctPaths(INIT_MOUNTS + ConfigMounts(Replicas(p)))
  {
    ConfigMountsDistinct(Replicas(p));
    assert DistinctPaths(INIT_MOUNTS);
    assert INIT_MOUNTS[0].path[9] == 'a' && INIT_MOUNTS[1].path[1] == 'v';
    PathsAppend(INIT_MOUNTS, ConfigMounts(Replicas(p)));
    forall m | m in INIT_MOUNTS + ConfigMounts(Replicas(p)) ensures exists v :: v in volumes && v.name == m.name {
      if m !in INIT_MOUNTS {
        var i :| 0 <= i < Replicas(p) && m == ConfigMounts(Replicas(p))[i];
        assert ConfigVolume(p, i) in volumes && ConfigVolume(p, i).name == m.name;
      }
    }
  }

  lemma MainMountsClosed(volumes: seq<Volume>, tls: string)
    requires ACTIVE_CONFIG in volumes && RUN in volumes && LEASES in volumes
    requires tls != "" ==> exists v :: v in volumes && v.name == "kea-tls"
    ensures Declared(MAIN_MOUNTS + TLSMounts(tls), volumes) && DistinctPaths(MAIN_MOUNTS + TLSMounts(tls))
    ensures Declared(StorkMounts("kea-active-config"), volumes) && DistinctPaths(StorkMounts("kea-active-config"))
  {
  }

  lemma DeploymentVolumesDistinct(p: DeploymentParams)
    ensures DistinctVolumes(DeploymentTemplate(p).volumes)
  {
    var a := [Volume("kea-config", FromConfigMap(p.configMapName)), RUN, LEASES];
    var b := if p.secretEnvVars != [] then [Volume("kea-config-rendered", EmptyDir)] else [];
    assert a[0].name[4] == 'c' && a[1].name[4] == 'r' && a[2].name[4] == 'l';
    assert forall v | v in a :: |v.name| <= 10;
    assert forall v | v in b :: |v.name| == 19;
    VolumesAppend(a, b);
    assert forall v | v in a + b :: v.name[4] in ['c', 'r', 'l'];
    assert forall v | v in TLSVolumes(p.tlsSecret) :: v.name[4] == 't';
    VolumesAppend(a + b, TLSVolumes(p.tlsSecret));
  }

  lemma DeploymentPathsDistinct(p: DeploymentParams)
    ensures DistinctPaths(DeploymentTemplate(p).mainMounts)
  {
    var hasSecrets := p.secretEnvVars != [];
    var a := [Mount("kea-config", if hasSecrets then "/etc/kea-template" else "/etc/kea", true),
              Mount("kea-run", "/var/run/kea", false), Mount("kea-leases", "/var/lib/kea", false)];
    var b := if hasSecrets then [Mount("kea-config-rendered", "/etc/kea", false)] else [];
    assert a[0].path[1] == 'e' && a[1].path[5] == 'r' && a[2].path[5] == 'l' && a[1].path[1] == 'v' && a[2].path[1] == 'v';
    assert forall m | m in b :: |m.path| == 8 && m.path[1] == 'e';
    PathsAppend(a, b);
    var c := TLSMounts(p.tlsSecret);
    assert forall m | m in a + b :: |m.path| == 17 || |m.path| == 8 || m.path[1] == 'v';
    assert forall m | m in c :: |m.path| == 12 && m.path[1] == 'e';
    PathsAppend(a + b, c);
  }

  lemma DeploymentClosed(p: DeploymentParams)
    ensures Closed(DeploymentTemplate(p))
    ensures Volume("kea-config", FromConfigMap(p.configMapName)) in DeploymentTemplate(p).volumes
  {
    var t := DeploymentTemplate(p);
    DeploymentVolumesDistinct(p);
    DeploymentPathsDistinct(p);
    assert t.volumes[0].name == "kea-config" && t.volumes[1] == RUN && t.volumes[2] == LEASES;
    DeploymentDeclared(p, t.volumes, t.volumes[0]);
  }

  lemma DeploymentDeclared(p: DeploymentParams, volumes: seq<Volume>, config: Volume)
    requires volumes == DeploymentTemplate(p).volumes
    requires config in volumes && config.name == "kea-config" && RUN in volumes && LEASES in volumes
    ensures Declared(DeploymentTemplate(p).mainMounts, volumes)
    ensures Declared(StorkMounts("kea-config"), volumes) && DistinctPaths(StorkMounts("kea-config"))
  {
    var rendered, tls := Volume("kea-config-rendered", EmptyDir), Volume("kea-tls", FromSecret(p.tlsSecret));
    assert p.secretEnvVars != [] ==> volumes[3] == rendered;
    assert p.tlsSecret != "" ==> volumes[|volumes| - 1] == tls;
    assert StorkMounts("kea-config")[0].path[1] == 'e' && StorkMounts("kea-config")[1].path[1] == 'v';
  }
}
