/**
 * Database credentials from the Secret to the running configuration: which variable every
 * rendered placeholder names, which entry of which Secret that variable holds, and what is left of
 * the placeholder after the init script.
 */
module DatabaseLogin {
  import opened Options
  import opened Strings
  import opened Rewriting
  import opened Names
  import opened Spec
  import opened Secrets
  import opened ApiServer
  import opened Templates
  import opened PodTemplate
  import opened HaWiring
  import opened Dhcp4Server
  import opened Serializer
  import opened HaConfigs
  import opened Runs
  import C = Controller
  import Json
  import Render

  // ---------- what the placeholders name ----------

  /** User and password are placeholders of variables that hold the two entries of the Secret. */
  ghost predicate PointsTo(c: DBCredentials, secret: string, envVars: seq<EnvVar>) {
    && (exists e :: e in envVars && e.secret == secret && e.key == "username" && c.user == "$" + e.name)
    && (exists e :: e in envVars && e.secret == secret && e.key == "password" && c.password == "$" + e.name)
  }

  /** The credentials of a database: pointing to its Secret if it has one, empty otherwise. */
  ghost predicate Points(c: DBCredentials, db: Option<DatabaseConfig>, envVars: seq<EnvVar>) {
    if db.Some? && db.value.credentialsSecretRef.Some? then PointsTo(c, db.value.credentialsSecretRef.value, envVars)
    else c == NO_CREDENTIALS
  }

  /** All credentials of a configuration. */
  ghost predicate AllPoint(c: Credentials, spec: Dhcp4Spec, envVars: seq<EnvVar>) {
    && Points(c.lease, spec.leaseDatabase, envVars)
    && Points(c.hosts, spec.hostsDatabase, envVars)
    && |c.hostsDBs| == |spec.hostsDatabases|
    && forall i | 0 <= i < |c.hostsDBs| :: Points(c.hostsDBs[i], Some(spec.hostsDatabases[i]), envVars)
  }

  lemma OnePoints(prefix: string, db: Option<DatabaseConfig>, envVars: seq<EnvVar>)
    requires forall e | e in DbCredentialEnvVars(prefix, db).0 :: e in envVars
    ensures Points(DbCredentialEnvVars(prefix, db).1, db, envVars)
  {
    if HasRef(db) {
      var own := DbCredentialEnvVars(prefix, db).0;
      assert own[0] in own && own[1] in own;
      assert "$" + own[0].name == "$" + prefix + "_USER" && "$" + own[1].name == "$" + prefix + "_PASSWORD";
    }
  }

  lemma {:induction false} HostsVarsOf(dbs: seq<DatabaseConfig>, i: nat, e: EnvVar)
    requires i < |dbs| && e in DbCredentialEnvVars(HostsPrefix(i), Some(dbs[i])).0
    ensures e in HostsEnvVars(dbs)
  {
    var last := |dbs| - 1;
    if i < last {
      HostsVarsOf(dbs[..last], i, e);
    }
  }

  /** The placeholders of a resource all point to the right entries. */
  lemma PlaceholdersPoint(spec: Dhcp4Spec)
    ensures AllPoint(CredsOf(spec), spec, SecretEnvVars(spec))
  {
    var envVars := SecretEnvVars(spec);
    OnePoints("KEA_LEASE_DB", spec.leaseDatabase, envVars);
    OnePoints("KEA_HOSTS_DB", spec.hostsDatabase, envVars);
    forall i | 0 <= i < |spec.hostsDatabases|
      ensures Points(CredsOf(spec).hostsDBs[i], Some(spec.hostsDatabases[i]), envVars)
    {
      forall e | e in DbCredentialEnvVars(HostsPrefix(i), Some(spec.hostsDatabases[i])).0 ensures e in envVars {
        HostsVarsOf(spec.hostsDatabases, i, e);
      }
      OnePoints(HostsPrefix(i), Some(spec.hostsDatabases[i]), envVars);
    }
  }

  // ---------- what a configuration says ----------

  /** User and password in the section of a database. */
  function LoginIn(section: Json.Json): DBCredentials {
    DBCredentials(TextIn(section, Json.USER), TextIn(section, Json.PASSWORD))
  }

  function TextIn(section: Json.Json, key: Json.Key): string {
    match Json.Lookup(Render.Of(section), key) case Some(j) => Json.StringOf(j) case None => ""
  }

  function OptLoginIn(section: Option<Json.Json>): DBCredentials {
    match section case Some(j) => LoginIn(j) case None => NO_CREDENTIALS
  }

  /** The credentials Kea finds in a configuration. */
  function ConfiguredLogins(config: Json.Json): Credentials {
    var m := Render.Dhcp4Of(config);
    Credentials(OptLoginIn(Json.Lookup(m, Json.LEASE_DATABASE)), OptLoginIn(Json.Lookup(m, Json.HOSTS_DATABASE)),
                Render.MapSeq(LoginIn, Json.ElemsOf(Json.Lookup(m, Json.HOSTS_DATABASES))))
  }

  /** The sections of the databases in a tree. */
  lemma DatabaseSections(spec: Dhcp4Spec, creds: Credentials, name: string)
    ensures var m := Render.Dhcp4Of(Render.RootTree(spec, creds, name));
            && Json.Lookup(m, Json.LEASE_DATABASE) == Render.OptDatabaseTree(spec.leaseDatabase, creds.lease)
            && Json.Lookup(m, Json.HOSTS_DATABASE) == Render.OptDatabaseTree(spec.hostsDatabase, creds.hosts)
            && Json.Lookup(m, Json.HOSTS_DATABASES) == Render.DatabaseTrees(spec.hostsDatabases, creds.hostsDBs)
  {
    Render.SharedLookups(spec, creds);
    Render.FirstSectionLookups(spec, creds);
    Render.Dhcp4OfRoot(Json.Put(Render.Shared(spec, creds), Json.HOOKS_LIBRARIES, Json.Array(Render.HookElems(spec, name))));
  }

  /** The credentials of the databases that exist. */
  function Effective(spec: Dhcp4Spec, creds: Credentials): Credentials {
    Credentials(if spec.leaseDatabase.Some? then creds.lease else NO_CREDENTIALS,
                if spec.hostsDatabase.Some? then creds.hosts else NO_CREDENTIALS,
                Render.NormCredentials(|spec.hostsDatabases|, creds.hostsDBs))
  }

  lemma LoginsOfTree(spec: Dhcp4Spec, creds: Credentials, name: string)
    ensures ConfiguredLogins(Render.RootTree(spec, creds, name)) == Effective(spec, creds)
  {
    DatabaseSections(spec, creds, name);
    LoginOfOpt(spec.leaseDatabase, creds.lease);
    LoginOfOpt(spec.hostsDatabase, creds.hosts);
    LoginsOfList(spec.hostsDatabases, creds.hostsDBs);
  }

  lemma LoginsOfList(dbs: seq<DatabaseConfig>, creds: seq<DBCredentials>)
    ensures Render.MapSeq(LoginIn, Json.ElemsOf(Render.DatabaseTrees(dbs, creds))) == Render.NormCredentials(|dbs|, creds)
  {
    forall i | 0 <= i < |dbs| ensures LoginIn(Render.DatabaseElems(dbs, creds)[i]) == CredentialsAt(creds, i) {
      LoginOfOpt(Some(dbs[i]), CredentialsAt(creds, i));
    }
  }

  lemma LoginOfOpt(db: Option<DatabaseConfig>, c: DBCredentials)
    ensures OptLoginIn(Render.OptDatabaseTree(db, c)) == if db.Some? then c else NO_CREDENTIALS
  {
    if db.Some? {
      CredentialFields(db.value, c);
    }
  }

  /**
   * In the configuration of every resource the credentials of every database with a Secret are
   * placeholders of variables that hold `username` and `password` of that very Secret; databases
   * without one have none.
   */
  lemma RenderedLogins(s: Server, name: string)
    ensures AllPoint(ConfiguredLogins(ConfigTree(s, name)), FilledSpec(s), SecretEnvVars(FilledSpec(s)))
  {
    LoginsOfTree(FilledSpec(s), CredsOf(FilledSpec(s)), name);
    PlaceholdersPoint(FilledSpec(s));
  }

  // ---------- the same with rewritten strings ----------

  /** A credential that is there, rewritten; one that is not stays away. */
  function Rewritten(f: string -> string, c: DBCredentials): DBCredentials {
    DBCredentials(if c.user == "" then "" else f(c.user), if c.password == "" then "" else f(c.password))
  }

  lemma CredentialFields(db: DatabaseConfig, c: DBCredentials)
    ensures var m := Render.Of(Render.DatabaseTree(db, c));
            && Json.Lookup(m, Json.USER) == Json.Text(c.user) && Json.Lookup(m, Json.PASSWORD) == Json.Text(c.password)
            && Render.DatabaseTree(db, c) == Json.Obj(m)
  {
  }

  lemma MappedDatabase(f: string -> string, db: DatabaseConfig, c: DBCredentials)
    ensures LoginIn(MapLeaves(f, Render.DatabaseTree(db, c))) == Rewritten(f, c)
  {
    CredentialFields(db, c);
    var m := Render.Of(Render.DatabaseTree(db, c));
    MappedLookup(f, m, Json.USER);
    MappedLookup(f, m, Json.PASSWORD);
  }

  lemma MappedOptDatabase(f: string -> string, db: Option<DatabaseConfig>, c: DBCredentials)
    ensures OptLoginIn(MapField(f, Render.OptDatabaseTree(db, c)))
            == if db.Some? then Rewritten(f, c) else NO_CREDENTIALS
  {
    if db.Some? {
      MappedDatabase(f, db.value, c);
    }
  }

  lemma MappedDatabases(f: string -> string, dbs: seq<DatabaseConfig>, creds: seq<DBCredentials>)
    ensures var r := Render.MapSeq(LoginIn, Json.ElemsOf(MapField(f, Render.DatabaseTrees(dbs, creds))));
            |r| == |dbs| && forall i | 0 <= i < |dbs| :: r[i] == Rewritten(f, CredentialsAt(creds, i))
  {
    MappedElems(f, Render.DatabaseTrees(dbs, creds));
    forall i | 0 <= i < |dbs|
      ensures LoginIn(MapLeaves(f, Render.DatabaseElems(dbs, creds)[i])) == Rewritten(f, CredentialsAt(creds, i))
    {
      MappedDatabase(f, dbs[i], CredentialsAt(creds, i));
    }
  }

  /** The sections of a rewritten tree are the rewritten sections. */
  lemma MappedSection(f: string -> string, spec: Dhcp4Spec, creds: Credentials, name: string, key: Json.Key)
    ensures Json.Lookup(Render.Dhcp4Of(MapLeaves(f, Render.RootTree(spec, creds, name))), key)
            == MapField(f, Json.Lookup(Render.Dhcp4Of(Render.RootTree(spec, creds, name)), key))
  {
    var m := Json.Put(Render.Shared(spec, creds), Json.HOOKS_LIBRARIES, Json.Array(Render.HookElems(spec, name)));
    RootMapped(f, m);
    MappedLookup(f, m, key);
    Render.Dhcp4OfRoot(m);
  }

  /** Every credential of a configuration is rewritten. */
  ghost predicate LoginsRewritten(f: string -> string, before: Credentials, after: Credentials) {
    && after.lease == Rewritten(f, before.lease) && after.hosts == Rewritten(f, before.hosts)
    && |after.hostsDBs| == |before.hostsDBs|
    && forall i | 0 <= i < |after.hostsDBs| :: after.hostsDBs[i] == Rewritten(f, before.hostsDBs[i])
  }

  lemma MappedLogins(f: string -> string, spec: Dhcp4Spec, creds: Credentials, name: string)
    ensures LoginsRewritten(f, Effective(spec, creds), ConfiguredLogins(MapLeaves(f, Render.RootTree(spec, creds, name))))
  {
    DatabaseSections(spec, creds, name);
    MappedSection(f, spec, creds, name, Json.LEASE_DATABASE);
    MappedSection(f, spec, creds, name, Json.HOSTS_DATABASE);
    MappedSection(f, spec, creds, name, Json.HOSTS_DATABASES);
    MappedOptDatabase(f, spec.leaseDatabase, creds.lease);
    MappedOptDatabase(f, spec.hostsDatabase, creds.hosts);
    MappedDatabases(f, spec.hostsDatabases, creds.hostsDBs);
  }

  // ---------- what the script makes of them ----------

  /** The entries of the Secrets of the namespace. */
  type SecretData = (string, string) -> string

  /** The variables of a container hold the entries they refer to. */
  ghost predicate VariablesSet(pod: Pod, envVars: seq<EnvVar>, secrets: SecretData) {
    forall e | e in envVars :: pod.vars(e.name) == secrets(e.secret, e.key)
  }

  /** A placeholder ends up as the value of its variable. */
  lemma PlaceholderExpanded(s: Server, world: World, v: Visit, pod: Pod, e: EnvVar)
    requires GeneratedHA(s, world) && ValidVisit(s, world, v) && GoodPod(pod) && e in SecretEnvVars(FilledSpec(s))
    ensures AllResolve(v.peerOps) && WellFormed(PodRules(s, v, pod))
    ensures Sequential("$" + e.name, PodRules(s, v, pod)) == pod.vars(e.name)
  {
    VisitResolves(s, world, v, pod);
    var slots := SlotsOfSpec(FilledSpec(s));
    SlotsMatch(FilledSpec(s));
    var j :| 0 <= j < |SecretEnvVars(FilledSpec(s))| && SecretEnvVars(FilledSpec(s))[j] == e;
    assert e.name == EnvName(slots[j]) && "$" + e.name == Placeholder(slots[j]);
    SlotExpanded(v.peerOps, PeerHosts(s, world), |FilledPeers(s)|, slots, j, SiteOf(s), pod);
  }

  lemma SlotExpanded(peerOps: seq<ScriptOp>, m: map<string, string>, n: nat, slots: seq<Slot>, j: nat, site: Site, pod: Pod)
    requires site.Valid() && Enumerates(peerOps, m) && PeerMap(m, n, site) && AllResolve(peerOps)
    requires Distinct(slots) && j < |slots| && GoodPod(pod)
    ensures WellFormed(InitRules(peerOps, slots, site, pod))
    ensures Sequential(Placeholder(slots[j]), InitRules(peerOps, slots, site, pod)) == pod.Secret(slots[j])
  {
    PeersOfTemplate(peerOps, m, n, site);
    InitRulesShape(peerOps, slots, site, pod);
    ScriptRules(peerOps, site, pod);
    var peers, secrets := PeerRules(peerOps, site.Sts(), pod), SecretRules(slots, pod.Secret);
    NoDotInPlaceholder(slots[j]);
    PeerPatterns(peers, site, pod);
    DotlessUntouched(Placeholder(slots[j]), peers);
    SequentialAppend(Placeholder(slots[j]), peers, secrets);
    SecretRulesHaveSigil(slots, pod.Secret);
    OwnValue(secrets, '$', j, "");
    assert Placeholder(slots[j]) + "" == Placeholder(slots[j]) && pod.Secret(slots[j]) + "" == pod.Secret(slots[j]);
  }

  lemma NoDotInPlaceholder(s: Slot)
    ensures '.' !in Placeholder(s)
  {
    PlaceholderShape(s);
  }

  /** User and password are the two entries of the Secret. */
  predicate LoginIs(c: DBCredentials, db: Option<DatabaseConfig>, secrets: SecretData) {
    if db.Some? && db.value.credentialsSecretRef.Some? then
      && c.user == secrets(db.value.credentialsSecretRef.value, "username")
      && c.password == secrets(db.value.credentialsSecretRef.value, "password")
    else c == NO_CREDENTIALS
  }

  /** All logins of a configuration are those of the Secrets its databases refer to. */
  ghost predicate LoginsAre(c: Credentials, spec: Dhcp4Spec, secrets: SecretData) {
    && LoginIs(c.lease, spec.leaseDatabase, secrets)
    && LoginIs(c.hosts, spec.hostsDatabase, secrets)
    && |c.hostsDBs| == |spec.hostsDatabases|
    && forall i | 0 <= i < |c.hostsDBs| :: LoginIs(c.hostsDBs[i], Some(spec.hostsDatabases[i]), secrets)
  }

  lemma PointedLogin(c: DBCredentials, db: Option<DatabaseConfig>, envVars: seq<EnvVar>, f: string -> string, secrets: SecretData)
    requires Points(c, db, envVars)
    requires forall e | e in envVars :: f("$" + e.name) == secrets(e.secret, e.key)
    ensures LoginIs(Rewritten(f, c), db, secrets)
  {
    if HasRef(db) {
      var secret := db.value.credentialsSecretRef.value;
      var u :| u in envVars && u.secret == secret && u.key == "username" && c.user == "$" + u.name;
      var p :| p in envVars && p.secret == secret && p.key == "password" && c.password == "$" + p.name;
      assert f(c.user) == secrets(secret, "username") && f(c.password) == secrets(secret, "password");
    }
  }

  lemma AllPointedLogins(c: Credentials, after: Credentials, spec: Dhcp4Spec, envVars: seq<EnvVar>, f: string -> string,
                         secrets: SecretData)
    requires AllPoint(c, spec, envVars) && LoginsRewritten(f, c, after)
    requires forall e | e in envVars :: f("$" + e.name) == secrets(e.secret, e.key)
    ensures LoginsAre(after, spec, secrets)
  {
    PointedLogin(c.lease, spec.leaseDatabase, envVars, f, secrets);
    PointedLogin(c.hosts, spec.hostsDatabase, envVars, f, secrets);
    forall i | 0 <= i < |after.hostsDBs| ensures LoginIs(after.hostsDBs[i], Some(spec.hostsDatabases[i]), secrets) {
      PointedLogin(c.hostsDBs[i], Some(spec.hostsDatabases[i]), envVars, f, secrets);
    }
  }

  /**
   * From the Secret to Kea. In a converged cluster, in a pod whose init container holds the
   * variables its template gives it, the configuration the pod runs with logs in to every database
   * with user and password of the Secret that database refers to, in this order.
   */
  lemma StartedLogins(d: Body -> Body, store: Store, owner: string, s: Server, world: World, v: Visit, pod: Pod,
                      template: Template, secrets: SecretData)
    requires KeepsPods(d) && GeneratedHA(s, world) && ValidVisit(s, world, v) && GoodPod(pod)
    requires AllConform(d, store, owner, StepsOf(s, world, v))
    requires StoredTemplate(store, s) == Some(template) && VariablesSet(pod, template.env, secrets)
    ensures AllResolve(v.peerOps) && WellFormed(PodRules(s, v, pod))
    ensures var running := MapLeaves(Rewriter(PodRules(s, v, pod)), ConfigOf(s, world, pod.ordinal));
            LoginsAre(ConfiguredLogins(running), s.spec, secrets)
  {
    VisitResolves(s, world, v, pod);
    var spec := FilledSpec(s);
    StoredTemplateIs(d, store, owner, s, PlanOf(s, world), RendererOf(s, world), DesiredWorkload(s, world, v));
    assert template.env == SecretEnvVars(spec);
    var f := Rewriter(PodRules(s, v, pod));
    forall e | e in SecretEnvVars(spec) ensures f("$" + e.name) == secrets(e.secret, e.key) {
      PlaceholderExpanded(s, world, v, pod, e);
    }
    PlaceholdersPoint(spec);
    MappedLogins(f, spec, CredsOf(spec), C.ServerName(PlanOf(s, world), pod.ordinal));
    AllPointedLogins(Effective(spec, CredsOf(spec)), ConfiguredLogins(MapLeaves(f, ConfigOf(s, world, pod.ordinal))), spec,
                     SecretEnvVars(spec), f, secrets);
  }
}
