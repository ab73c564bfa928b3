/**
 * The Stork server controller (keastorkserver_controller.go): generated credentials are created
 * on the first reconcile and never touched again.
 */
module StorkCredentials {
  import opened Options
  import opened Names
  import opened ApiServer
  import opened Builders
  import T = Templates

  datatype StorkPlan = StorkPlan(namespace: string, cr: string, workload: T.PodSpec, port: int, openShift: bool)

  /** The first lookup of a Secret: from up-to-date data, failing, or from a cache that has not seen the Secret. */
  datatype Lookup = Current | Failing | Stale

  /** `random` is the encoded random value, `None` if the random source fails. */
  datatype Attempt = Attempt(lookup: Lookup, random: Option<string>, call: Call)

  /** What the environment does during one reconcile. */
  datatype Environment = Environment(
    account: Call, admin: Attempt, token: Attempt, deployment: Call, service: Call, route: Call)

  function AdminId(p: StorkPlan): Id { Id(Secret, p.namespace, StorkAdminSecretName(p.cr)) }

  function TokenId(p: StorkPlan): Id { Id(Secret, p.namespace, StorkServerTokenSecretName(p.cr)) }

  function SecretObject(id: Id, cr: string, data: map<string, string>): Object {
    Object(id, CommonLabels(cr, StorkServer), None, Data(data), "")
  }

  /** The password satisfies the policy of upper-case and special characters. */
  function AdminSecret(p: StorkPlan, random: string): Object {
    SecretObject(AdminId(p), p.cr, map["username" := "admin", "password" := random + "!A"])
  }

  function TokenSecret(p: StorkPlan, random: string): Object {
    SecretObject(TokenId(p), p.cr, map["token" := random])
  }

  function StorkService(p: StorkPlan): Object {
    var labels := CommonLabels(p.cr, StorkServer);
    Object(Id(Service, p.namespace, ServiceName(p.cr, StorkServer)), labels, None,
           ServiceSpec(labels, [ServicePort("http", p.port, NamedPort("http"), "TCP")], false, "", []), "")
  }

  function StorkRoute(p: StorkPlan): Object {
    Object(Id(Route, p.namespace, ServiceName(p.cr, StorkServer)), CommonLabels(p.cr, StorkServer), None,
           Workload(T.OtherSpec("to " + ServiceName(p.cr, StorkServer) + ", port http, tls edge")), "")
  }

  // ---------- one reconcile ----------

  /** Get-or-create of one Secret. */
  function Ensure(d: Body -> Body, store: Store, owner: string, id: Id, make: string -> Object, a: Attempt): (Store, bool) {
    if a.lookup.Failing? then (store, false)
    else if a.lookup.Current? && id in store then (store, true)
    else
      match a.random
      case None => (store, false)
      case Some(random) => ReconcileOne(d, store, owner, make(random), a.call)
  }

  function ReconcileStork(d: Body -> Body, store: Store, owner: string, p: StorkPlan, e: Environment): (Store, bool) {
    var (s1, ok1) := ReconcileOne(d, store, owner, BuildServiceAccount(p.namespace, p.cr, StorkServer), e.account);
    if !ok1 then (s1, false)
    else
      var (s2, ok2) := Ensure(d, s1, owner, AdminId(p), r => AdminSecret(p, r), e.admin);
      if !ok2 then (s2, false)
      else
        var (s3, ok3) := Ensure(d, s2, owner, TokenId(p), r => TokenSecret(p, r), e.token);
        if !ok3 then (s3, false)
        else
          var (s4, ok4) := ReconcileOne(
            d, s3, owner, BuildWorkload(Deployment, p.namespace, p.cr, StorkServer, p.workload), e.deployment);
          if !ok4 then (s4, false)
          else
            var (s5, ok5) := ReconcileOne(d, s4, owner, StorkService(p), e.service);
            (if ok5 then Exposed(d, s5, owner, p, e.route) else s5, ok5)
  }

  /** The Route of the web interface, on OpenShift only; an error is only logged. */
  function Exposed(d: Body -> Body, store: Store, owner: string, p: StorkPlan, c: Call): Store {
    if p.openShift then ReconcileOne(d, store, owner, StorkRoute(p), c).0 else store
  }

  method EnsureSecret(cluster: Cluster, owner: string, id: Id, make: string -> Object, a: Attempt) returns (ok: bool)
    modifies cluster
    ensures (cluster.store, ok) == Ensure(cluster.defaulting, old(cluster.store), owner, id, make, a)
  {
    if a.lookup.Failing? {
      return false;
    }
    var found := a.lookup.Current? && id in cluster.store;
    if !found {
      // generated on first creation only
      if a.random.None? {
        return false;
      }
      ok := cluster.ReconcileResource(owner, make(a.random.value), a.call);
      return;
    }
    ok := true;
  }

  method Reconcile(cluster: Cluster, owner: string, p: StorkPlan, e: Environment) returns (ok: bool)
    modifies cluster
    ensures (cluster.store, ok) == ReconcileStork(cluster.defaulting, old(cluster.store), owner, p, e)
  {
    ok := cluster.ReconcileResource(owner, BuildServiceAccount(p.namespace, p.cr, StorkServer), e.account);
    if !ok {
      return;
    }
    ok := EnsureSecret(cluster, owner, AdminId(p), r => AdminSecret(p, r), e.admin);
    if !ok {
      return;
    }
    ok := EnsureSecret(cluster, owner, TokenId(p), r => TokenSecret(p, r), e.token);
    if !ok {
      return;
    }
    ok := cluster.ReconcileResource(
      owner, BuildWorkload(Deployment, p.namespace, p.cr, StorkServer, p.workload), e.deployment);
    if !ok {
      return;
    }
    ok := cluster.ReconcileResource(owner, StorkService(p), e.service);
    if !ok {
      return;
    }
    if p.openShift {
      var _ := cluster.ReconcileResource(owner, StorkRoute(p), e.route);
    }
  }

  // ---------- written once ----------

  /** The exact condition under which a get-or-create changes an existing Secret. */
  lemma OverwrittenExactly(d: Body -> Body, store: Store, owner: string, id: Id, make: string -> Object, a: Attempt)
    requires KeepsData(d) && id in store && store[id].id == id
    requires forall r :: make(r).id == id && make(r).body.Data?
    ensures var after := Ensure(d, store, owner, id, make, a).0;
            && id in after
            && (after[id].body != store[id].body <==>
                  && a.lookup.Stale? && a.random.Some?
                  && a.call.readable && !a.call.write.Rejected? && !Foreign(store[id], owner)
                  && make(a.random.value).body != store[id].body)
            && (!a.lookup.Stale? ==> after == store)
  {
  }

  lemma OthersKept(d: Body -> Body, store: Store, owner: string, desired: Object, c: Call, id: Id)
    requires desired.id != id && (desired.id in store ==> store[desired.id].id == desired.id)
    ensures var after := ReconcileOne(d, store, owner, desired, c).0;
            (id in after <==> id in store) && (id in store ==> after[id] == store[id])
  {
  }

  predicate WellKeyed(store: Store) { forall id | id in store :: store[id].id == id }

  predicate CurrentReads(e: Environment) { !e.admin.lookup.Stale? && !e.token.lookup.Stale? }

  /** What one reconcile can do to a Secret it found missing: nothing, or create it with this reconcile's value. */
  ghost predicate Fresh(store: Store, id: Id, make: string -> Object, a: Attempt) {
    id in store ==> a.random.Some? && store[id].body == make(a.random.value).body
  }

  /** The effect of a reconcile on the two Secrets: existing ones stay, missing ones are created from its own values. */
  ghost predicate SecretsKept(store: Store, after: Store, p: StorkPlan, e: Environment) {
    && WellKeyed(after)
    && (AdminId(p) in store ==> AdminId(p) in after && after[AdminId(p)] == store[AdminId(p)])
    && (TokenId(p) in store ==> TokenId(p) in after && after[TokenId(p)] == store[TokenId(p)])
    && (AdminId(p) !in store ==> Fresh(after, AdminId(p), r => AdminSecret(p, r), e.admin))
    && (TokenId(p) !in store ==> Fresh(after, TokenId(p), r => TokenSecret(p, r), e.token))
  }

  lemma EnsureEffect(d: Body -> Body, store: Store, owner: string, id: Id, make: string -> Object, a: Attempt, other: Id)
    requires KeepsData(d) && WellKeyed(store) && !a.lookup.Stale? && other != id
    requires forall r :: make(r).id == id && make(r).body.Data?
    ensures var after := Ensure(d, store, owner, id, make, a).0;
            && WellKeyed(after)
            && (id in store ==> after == store)
            && (id !in store ==> Fresh(after, id, make, a))
            && (other in after <==> other in store) && (other in store ==> after[other] == store[other])
  {
  }

  lemma KeyedStep(d: Body -> Body, store: Store, owner: string, desired: Object, c: Call)
    requires WellKeyed(store)
    ensures WellKeyed(ReconcileOne(d, store, owner, desired, c).0)
  {
  }

  /** One object that is no Secret leaves both Secrets alone. */
  lemma PlainStep(d: Body -> Body, store: Store, owner: string, desired: Object, c: Call, p: StorkPlan)
    requires WellKeyed(store) && desired.id.kind != Secret
    ensures var after := ReconcileOne(d, store, owner, desired, c).0; WellKeyed(after) && SameSecrets(store, after, p)
  {
    KeyedStep(d, store, owner, desired, c);
    OthersKept(d, store, owner, desired, c, AdminId(p));
    OthersKept(d, store, owner, desired, c, TokenId(p));
  }

  predicate SameSecrets(store: Store, after: Store, p: StorkPlan) {
    && (AdminId(p) in after <==> AdminId(p) in store) && (AdminId(p) in store ==> after[AdminId(p)] == store[AdminId(p)])
    && (TokenId(p) in after <==> TokenId(p) in store) && (TokenId(p) in store ==> after[TokenId(p)] == store[TokenId(p)])
  }

  lemma MiddleSteps(d: Body -> Body, s1: Store, owner: string, p: StorkPlan, e: Environment)
    requires KeepsData(d) && WellKeyed(s1) && CurrentReads(e)
    ensures var s2 := Ensure(d, s1, owner, AdminId(p), r => AdminSecret(p, r), e.admin).0;
            var s3 := Ensure(d, s2, owner, TokenId(p), r => TokenSecret(p, r), e.token).0;
            SecretsKept(s1, s2, p, e) && SecretsKept(s1, s3, p, e)
  {
    CrNameDecodes(p.cr, p.cr);
    var admin, token := r => AdminSecret(p, r), r => TokenSecret(p, r);
    EnsureEffect(d, s1, owner, AdminId(p), admin, e.admin, TokenId(p));
    var s2 := Ensure(d, s1, owner, AdminId(p), admin, e.admin).0;
    EnsureEffect(d, s2, owner, TokenId(p), token, e.token, AdminId(p));
  }

  lemma KeptThenSame(store: Store, mid: Store, after: Store, p: StorkPlan, e: Environment)
    requires SecretsKept(store, mid, p, e) && SameSecrets(mid, after, p) && WellKeyed(after)
    ensures SecretsKept(store, after, p, e)
  {
  }

  lemma SameThenKept(store: Store, mid: Store, after: Store, p: StorkPlan, e: Environment)
    requires SameSecrets(store, mid, p) && SecretsKept(mid, after, p, e)
    ensures SecretsKept(store, after, p, e)
  {
  }

  /** One reconcile with current reads, failing anywhere, keeps existing credentials. */
  lemma ReconcileKeepsSecrets(d: Body -> Body, store: Store, owner: string, p: StorkPlan, e: Environment)
    requires KeepsData(d) && WellKeyed(store) && CurrentReads(e)
    ensures SecretsKept(store, ReconcileStork(d, store, owner, p, e).0, p, e)
  {
    var account := BuildServiceAccount(p.namespace, p.cr, StorkServer);
    var deployment := BuildWorkload(Deployment, p.namespace, p.cr, StorkServer, p.workload);
    PlainStep(d, store, owner, account, e.account, p);
    var (s1, ok1) := ReconcileOne(d, store, owner, account, e.account);
    KeptThenSame(store, store, s1, p, e);
    if ok1 {
      MiddleSteps(d, s1, owner, p, e);
      var (s2, ok2) := Ensure(d, s1, owner, AdminId(p), r => AdminSecret(p, r), e.admin);
      SameThenKept(store, s1, s2, p, e);
      if ok2 {
        var (s3, ok3) := Ensure(d, s2, owner, TokenId(p), r => TokenSecret(p, r), e.token);
        SameThenKept(store, s1, s3, p, e);
        if ok3 {
          PlainStep(d, s3, owner, deployment, e.deployment, p);
          var (s4, ok4) := ReconcileOne(d, s3, owner, deployment, e.deployment);
          KeptThenSame(store, s3, s4, p, e);
          PlainStep(d, s4, owner, StorkService(p), e.service, p);
          var (s5, ok5) := ReconcileOne(d, s4, owner, StorkService(p), e.service);
          KeptThenSame(store, s4, s5, p, e);
          PlainStep(d, s5, owner, StorkRoute(p), e.route, p);
          KeptThenSame(store, s5, ReconcileOne(d, s5, owner, StorkRoute(p), e.route).0, p, e);
        }
      }
    }
  }

  // ---------- any number of reconciles ----------

  /** A reconcile of the resource as it then is. */
  datatype Visit = Visit(plan: StorkPlan, env: Environment)

  predicate SameResource(visits: seq<Visit>, p: StorkPlan) {
    forall v | v in visits :: (v.plan.namespace, v.plan.cr) == (p.namespace, p.cr) && CurrentReads(v.env)
  }

  function After(d: Body -> Body, store: Store, owner: string, visits: seq<Visit>): Store {
    if visits == [] then store
    else
      var last := visits[|visits| - 1];
      ReconcileStork(d, After(d, store, owner, visits[..|visits| - 1]), owner, last.plan, last.env).0
  }

  /**
   * Over any run of reconciles with current reads, whatever else changes in the resource and
   * wherever calls fail, password and token keep the value they had after the first `k` reconciles.
   */
  lemma {:induction false} CredentialsNeverChange(d: Body -> Body, store: Store, owner: string, visits: seq<Visit>, k: nat, p: StorkPlan)
    requires KeepsData(d) && WellKeyed(store) && SameResource(visits, p) && k <= |visits|
    ensures var before, after := After(d, store, owner, visits[..k]), After(d, store, owner, visits);
            && WellKeyed(after)
            && forall id | id in {AdminId(p), TokenId(p)} && id in before :: id in after && after[id] == before[id]
  {
    if k < |visits| {
      var n := |visits| - 1;
      assert visits[..n][..k] == visits[..k] && visits[n] in visits;
      CredentialsNeverChange(d, store, owner, visits[..n], k, p);
      ReconcileKeepsSecrets(d, After(d, store, owner, visits[..n]), owner, visits[n].plan, visits[n].env);
    } else {
      assert visits[..k] == visits;
      StaysKeyed(d, store, owner, visits, p);
    }
  }

  lemma {:induction false} StaysKeyed(d: Body -> Body, store: Store, owner: string, visits: seq<Visit>, p: StorkPlan)
    requires KeepsData(d) && WellKeyed(store) && SameResource(visits, p)
    ensures WellKeyed(After(d, store, owner, visits))
  {
    if visits != [] {
      var n := |visits| - 1;
      assert visits[n] in visits;
      StaysKeyed(d, store, owner, visits[..n], p);
      ReconcileKeepsSecrets(d, After(d, store, owner, visits[..n]), owner, visits[n].plan, visits[n].env);
    }
  }

  /** The password is the value of reconcile `k`, before which there was none, with a suffix for the password policy. */
  ghost predicate PasswordFrom(d: Body -> Body, store: Store, owner: string, visits: seq<Visit>, k: nat, p: StorkPlan) {
    && k < |visits| && AdminId(p) !in After(d, store, owner, visits[..k])
    && visits[k].env.admin.random.Some?
    && var after := After(d, store, owner, visits);
       && AdminId(p) in after
       && after[AdminId(p)].body == Data(map["username" := "admin", "password" := visits[k].env.admin.random.value + "!A"])
  }

  /** A password that exists was generated by exactly the reconcile that first stored it. */
  lemma {:induction false} PasswordOrigin(d: Body -> Body, store: Store, owner: string, visits: seq<Visit>, p: StorkPlan)
    requires KeepsData(d) && WellKeyed(store) && SameResource(visits, p) && AdminId(p) !in store
    ensures AdminId(p) in After(d, store, owner, visits) ==> exists k :: PasswordFrom(d, store, owner, visits, k, p)
  {
    if visits != [] && AdminId(p) in After(d, store, owner, visits) {
      var n := |visits| - 1;
      var before := After(d, store, owner, visits[..n]);
      assert visits[n] in visits;
      StaysKeyed(d, store, owner, visits[..n], p);
      ReconcileKeepsSecrets(d, before, owner, visits[n].plan, visits[n].env);
      if AdminId(p) in before {
        PasswordOrigin(d, store, owner, visits[..n], p);
        var k: nat :| PasswordFrom(d, store, owner, visits[..n], k, p);
        assert visits[..n][..k] == visits[..k];
        assert PasswordFrom(d, store, owner, visits, k, p);
      } else {
        assert PasswordFrom(d, store, owner, visits, n, p);
      }
    }
  }

  /** The token is the value of reconcile `k`, before which there was none. */
  ghost predicate TokenFrom(d: Body -> Body, store: Store, owner: string, visits: seq<Visit>, k: nat, p: StorkPlan) {
    && k < |visits| && TokenId(p) !in After(d, store, owner, visits[..k])
    && visits[k].env.token.random.Some?
    && var after := After(d, store, owner, visits);
       TokenId(p) in after && after[TokenId(p)].body == Data(map["token" := visits[k].env.token.random.value])
  }

  /** So was a token that exists. */
  lemma {:induction false} TokenOrigin(d: Body -> Body, store: Store, owner: string, visits: seq<Visit>, p: StorkPlan)
    requires KeepsData(d) && WellKeyed(store) && SameResource(visits, p) && TokenId(p) !in store
    ensures TokenId(p) in After(d, store, owner, visits) ==> exists k :: TokenFrom(d, store, owner, visits, k, p)
  {
    if visits != [] && TokenId(p) in After(d, store, owner, visits) {
      var n := |visits| - 1;
      var before := After(d, store, owner, visits[..n]);
      assert visits[n] in visits;
      StaysKeyed(d, store, owner, visits[..n], p);
      ReconcileKeepsSecrets(d, before, owner, visits[n].plan, visits[n].env);
      if TokenId(p) in before {
        TokenOrigin(d, store, owner, visits[..n], p);
        var k: nat :| TokenFrom(d, store, owner, visits[..n], k, p);
        assert visits[..n][..k] == visits[..k];
        assert TokenFrom(d, store, owner, visits, k, p);
      } else {
        assert TokenFrom(d, store, owner, visits, n, p);
      }
    }
  }
}
