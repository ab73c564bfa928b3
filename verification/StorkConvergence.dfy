/**
 * What a reconcile of a Stork server (keastorkserver_controller.go) establishes, and in which order:
 * for any failures, and exactly when there are none.
 */
module StorkConvergence {
  import opened Options
  import opened Names
  import opened ApiServer
  import opened Builders
  import opened StorkCredentials

  function StorkAccount(p: StorkPlan): Object { BuildServiceAccount(p.namespace, p.cr, StorkServer) }

  function StorkDeployment(p: StorkPlan): Object {
    BuildWorkload(Deployment, p.namespace, p.cr, StorkServer, p.workload)
  }

  predicate ValidEnvironment(e: Environment) {
    && ValidCall(e.account) && ValidCall(e.admin.call) && ValidCall(e.token.call)
    && ValidCall(e.deployment) && ValidCall(e.service) && ValidCall(e.route)
  }

  /** A step that touches one identity only and deletes nothing. */
  ghost predicate Touches(d: Body -> Body, store: Store, after: Store, id: Id) {
    && ValidStore(d, after) && store.Keys <= after.Keys <= store.Keys + {id}
    && forall other | other in store && other != id :: after[other] == store[other]
  }

  lemma EnsureStep(d: Body -> Body, store: Store, owner: string, id: Id, make: string -> Object, a: Attempt)
    requires OnlyDefaults(d) && ValidStore(d, store) && ValidCall(a.call)
    requires forall r :: make(r).id == id && ValidDesired(make(r)) && make(r).body.Data?
    ensures var (after, ok) := Ensure(d, store, owner, id, make, a);
            Touches(d, store, after, id) && (ok ==> id in after)
  {
    if a.random.Some? {
      OneStep(d, store, owner, make(a.random.value), a.call);
      if ReconcileOne(d, store, owner, make(a.random.value), a.call).1 {
        SuccessConforms(d, store, owner, make(a.random.value), a.call);
      }
    }
  }

  lemma ObjectStep(d: Body -> Body, store: Store, owner: string, desired: Object, c: Call)
    requires OnlyDefaults(d) && ValidStore(d, store) && ValidCall(c) && ValidDesired(desired)
    requires desired.body.ServiceSpec? ==> desired.body.clusterIP == ""
    ensures var (after, ok) := ReconcileOne(d, store, owner, desired, c);
            Touches(d, store, after, desired.id) && (ok ==> Conforms(d, after, owner, desired))
  {
    OneStep(d, store, owner, desired, c);
    if ReconcileOne(d, store, owner, desired, c).1 {
      SuccessConforms(d, store, owner, desired, c);
    }
  }

  /** The first part of a reconcile: the account and both Secrets. */
  function Front(d: Body -> Body, store: Store, owner: string, p: StorkPlan, e: Environment): (Store, bool) {
    var (s1, ok1) := ReconcileOne(d, store, owner, StorkAccount(p), e.account);
    if !ok1 then (s1, false)
    else
      var (s2, ok2) := Ensure(d, s1, owner, AdminId(p), r => AdminSecret(p, r), e.admin);
      if !ok2 then (s2, false) else Ensure(d, s2, owner, TokenId(p), r => TokenSecret(p, r), e.token)
  }

  /** The second part: the Deployment, the Service and the Route. */
  function Back(d: Body -> Body, store: Store, owner: string, p: StorkPlan, e: Environment): (Store, bool) {
    var (s4, ok4) := ReconcileOne(d, store, owner, StorkDeployment(p), e.deployment);
    if !ok4 then (s4, false)
    else
      var (s5, ok5) := ReconcileOne(d, s4, owner, StorkService(p), e.service);
      (if ok5 then Exposed(d, s5, owner, p, e.route) else s5, ok5)
  }

  lemma TwoParts(d: Body -> Body, store: Store, owner: string, p: StorkPlan, e: Environment)
    ensures var (mid, ok) := Front(d, store, owner, p, e);
            ReconcileStork(d, store, owner, p, e) == if ok then Back(d, mid, owner, p, e) else (mid, false)
  {
  }

  /** The account conforms and both Secrets exist. */
  predicate FrontDone(d: Body -> Body, store: Store, owner: string, p: StorkPlan) {
    Conforms(d, store, owner, StorkAccount(p)) && AdminId(p) in store && TokenId(p) in store
  }

  /** Objects other than service accounts and Secrets are as they were. */
  ghost predicate OthersSame(store: Store, after: Store) {
    forall id: Id | id.kind !in {ServiceAccount, Secret} ::
      (id in after <==> id in store) && (id in store ==> after[id] == store[id])
  }

  lemma TouchKeeps(d: Body -> Body, store: Store, after: Store, owner: string, id: Id, o: Object)
    requires Touches(d, store, after, id)
    ensures id.kind in {ServiceAccount, Secret} ==> OthersSame(store, after)
    ensures o.id != id && Conforms(d, store, owner, o) ==> Conforms(d, after, owner, o)
  {
  }

  lemma FrontEstablishes(d: Body -> Body, store: Store, owner: string, p: StorkPlan, e: Environment)
    requires OnlyDefaults(d) && ValidStore(d, store) && ValidEnvironment(e)
    ensures var (after, ok) := Front(d, store, owner, p, e);
            ValidStore(d, after) && OthersSame(store, after) && (ok ==> FrontDone(d, after, owner, p))
  {
    ObjectStep(d, store, owner, StorkAccount(p), e.account);
    var (s1, ok1) := ReconcileOne(d, store, owner, StorkAccount(p), e.account);
    TouchKeeps(d, store, s1, owner, StorkAccount(p).id, StorkAccount(p));
    if ok1 {
      SecretsEstablish(d, s1, owner, p, e);
    }
  }

  lemma SecretsEstablish(d: Body -> Body, s1: Store, owner: string, p: StorkPlan, e: Environment)
    requires OnlyDefaults(d) && ValidStore(d, s1) && ValidEnvironment(e) && Conforms(d, s1, owner, StorkAccount(p))
    ensures var (s2, ok2) := Ensure(d, s1, owner, AdminId(p), r => AdminSecret(p, r), e.admin);
            var (s3, ok3) := Ensure(d, s2, owner, TokenId(p), r => TokenSecret(p, r), e.token);
            && ValidStore(d, s2) && OthersSame(s1, s2)
            && ValidStore(d, s3) && OthersSame(s1, s3) && (ok2 && ok3 ==> FrontDone(d, s3, owner, p))
  {
    EnsureStep(d, s1, owner, AdminId(p), r => AdminSecret(p, r), e.admin);
    var s2 := Ensure(d, s1, owner, AdminId(p), r => AdminSecret(p, r), e.admin).0;
    TouchKeeps(d, s1, s2, owner, AdminId(p), StorkAccount(p));
    EnsureStep(d, s2, owner, TokenId(p), r => TokenSecret(p, r), e.token);
    TouchKeeps(d, s2, Ensure(d, s2, owner, TokenId(p), r => TokenSecret(p, r), e.token).0, owner, TokenId(p), StorkAccount(p));
  }

  /** Service accounts and Secrets stay. */
  ghost predicate FrontKept(store: Store, after: Store) {
    forall id: Id | id in store && id.kind in {ServiceAccount, Secret} :: id in after && after[id] == store[id]
  }

  lemma BackEstablishes(d: Body -> Body, store: Store, owner: string, p: StorkPlan, e: Environment)
    requires OnlyDefaults(d) && ValidStore(d, store) && ValidEnvironment(e)
    ensures var (after, ok) := Back(d, store, owner, p, e);
            && (ok ==> Conforms(d, after, owner, StorkDeployment(p)) && Conforms(d, after, owner, StorkService(p)))
            && FrontKept(store, after)
  {
    ObjectStep(d, store, owner, StorkDeployment(p), e.deployment);
    var (s4, ok4) := ReconcileOne(d, store, owner, StorkDeployment(p), e.deployment);
    if ok4 {
      ServiceEstablished(d, s4, owner, p, e);
    }
  }

  lemma ServiceEstablished(d: Body -> Body, s4: Store, owner: string, p: StorkPlan, e: Environment)
    requires OnlyDefaults(d) && ValidStore(d, s4) && ValidEnvironment(e) && Conforms(d, s4, owner, StorkDeployment(p))
    ensures var (s5, ok5) := ReconcileOne(d, s4, owner, StorkService(p), e.service);
            var after := if ok5 then Exposed(d, s5, owner, p, e.route) else s5;
            && (ok5 ==> Conforms(d, after, owner, StorkDeployment(p)) && Conforms(d, after, owner, StorkService(p)))
            && FrontKept(s4, after)
  {
    ObjectStep(d, s4, owner, StorkService(p), e.service);
    var (s5, ok5) := ReconcileOne(d, s4, owner, StorkService(p), e.service);
    TouchKeeps(d, s4, s5, owner, StorkService(p).id, StorkDeployment(p));
    if ok5 {
      OneStep(d, s5, owner, StorkRoute(p), e.route);
    }
  }

  /**
   * A reconcile of a Stork server that reports success has established the account, the Deployment
   * and the Service, and both Secrets exist, whatever was there before and whatever failed.
   */
  lemma StorkEstablished(d: Body -> Body, store: Store, owner: string, p: StorkPlan, e: Environment)
    requires OnlyDefaults(d) && ValidStore(d, store) && ValidEnvironment(e)
    ensures var (after, ok) := ReconcileStork(d, store, owner, p, e);
            ok ==>
              && Conforms(d, after, owner, BuildServiceAccount(p.namespace, p.cr, StorkServer))
              && Id(Secret, p.namespace, StorkAdminSecretName(p.cr)) in after
              && Id(Secret, p.namespace, StorkServerTokenSecretName(p.cr)) in after
              && Conforms(d, after, owner, BuildWorkload(Deployment, p.namespace, p.cr, StorkServer, p.workload))
              && Conforms(d, after, owner, StorkService(p))
  {
    TwoParts(d, store, owner, p, e);
    FrontEstablishes(d, store, owner, p, e);
    var (mid, ok) := Front(d, store, owner, p, e);
    if ok {
      BackEstablishes(d, mid, owner, p, e);
    }
  }

  /**
   * A reconcile that creates or changes anything but the account and the Secrets has both Secrets in
   * place: the pods of a Stork server never start without credentials.
   */
  lemma SecretsComeFirst(d: Body -> Body, store: Store, owner: string, p: StorkPlan, e: Environment, id: Id)
    requires OnlyDefaults(d) && ValidStore(d, store) && ValidEnvironment(e) && id.kind !in {ServiceAccount, Secret}
    ensures var after := ReconcileStork(d, store, owner, p, e).0;
            ((id in after <==> id in store) && (id in store ==> after[id] == store[id])) || FrontDone(d, after, owner, p)
  {
    TwoParts(d, store, owner, p, e);
    FrontEstablishes(d, store, owner, p, e);
    var (mid, ok) := Front(d, store, owner, p, e);
    if ok {
      BackEstablishes(d, mid, owner, p, e);
    }
  }

  /**
   * The web interface is exposed on OpenShift only, and there only behind a Service that is in
   * place.
   */
  lemma ExposedExactly(d: Body -> Body, store: Store, owner: string, p: StorkPlan, e: Environment)
    requires OnlyDefaults(d) && ValidStore(d, store) && ValidEnvironment(e)
    ensures var (after, ok) := ReconcileStork(d, store, owner, p, e);
            var id := Id(Route, p.namespace, ServiceName(p.cr, StorkServer));
            && (!p.openShift || !ok ==> (id in after <==> id in store) && (id in store ==> after[id] == store[id]))
            && (p.openShift && ok && Succeeds(e.route) && Free(store, owner, id) ==> Conforms(d, after, owner, StorkRoute(p)))
  {
    TwoParts(d, store, owner, p, e);
    FrontEstablishes(d, store, owner, p, e);
    var (mid, ok) := Front(d, store, owner, p, e);
    if ok {
      RouteInBack(d, mid, owner, p, e);
    }
  }

  lemma RouteInBack(d: Body -> Body, store: Store, owner: string, p: StorkPlan, e: Environment)
    requires OnlyDefaults(d) && ValidStore(d, store) && ValidEnvironment(e)
    ensures var (after, ok) := Back(d, store, owner, p, e);
            var id := Id(Route, p.namespace, ServiceName(p.cr, StorkServer));
            && (!p.openShift || !ok ==> (id in after <==> id in store) && (id in store ==> after[id] == store[id]))
            && (p.openShift && ok && Succeeds(e.route) && Free(store, owner, id) ==> Conforms(d, after, owner, StorkRoute(p)))
  {
    ObjectStep(d, store, owner, StorkDeployment(p), e.deployment);
    var (s4, ok4) := ReconcileOne(d, store, owner, StorkDeployment(p), e.deployment);
    if ok4 {
      ObjectStep(d, s4, owner, StorkService(p), e.service);
      var (s5, ok5) := ReconcileOne(d, s4, owner, StorkService(p), e.service);
      if ok5 && p.openShift && Succeeds(e.route) {
        SucceedsUnlessForeign(d, s5, owner, StorkRoute(p), e.route);
        ObjectStep(d, s5, owner, StorkRoute(p), e.route);
      }
    }
  }

  /** Nothing fails during this reconcile; the Route may. */
  predicate NothingFails(e: Environment) {
    && Succeeds(e.account) && Succeeds(e.deployment) && Succeeds(e.service)
    && Fine(e.admin) && Fine(e.token)
  }

  predicate Fine(a: Attempt) { a.lookup.Current? && a.random.Some? && Succeeds(a.call) }

  /** No other controller has this object. */
  predicate Free(store: Store, owner: string, id: Id) { id in store ==> !Foreign(store[id], owner) }

  lemma FineEnsures(d: Body -> Body, store: Store, owner: string, id: Id, make: string -> Object, a: Attempt)
    requires Fine(a) && forall r :: make(r).id == id
    ensures Ensure(d, store, owner, id, make, a).1
  {
    if id !in store {
      SucceedsUnlessForeign(d, store, owner, make(a.random.value), a.call);
    }
  }

  /**
   * A reconcile without failures succeeds exactly if no other controller has the account, the
   * Deployment or the Service. Who controls the Secrets does not matter: an existing one is left alone.
   */
  lemma StorkSucceedsExactly(d: Body -> Body, store: Store, owner: string, p: StorkPlan, e: Environment)
    requires OnlyDefaults(d) && ValidStore(d, store) && ValidEnvironment(e) && NothingFails(e)
    ensures ReconcileStork(d, store, owner, p, e).1 <==>
              && Free(store, owner, Id(ServiceAccount, p.namespace, ServiceAccountName(p.cr)))
              && Free(store, owner, Id(Deployment, p.namespace, StatefulSetName(p.cr, StorkServer)))
              && Free(store, owner, Id(Service, p.namespace, ServiceName(p.cr, StorkServer)))
  {
    TwoParts(d, store, owner, p, e);
    FrontEstablishes(d, store, owner, p, e);
    FrontSucceeds(d, store, owner, p, e);
    var (mid, ok) := Front(d, store, owner, p, e);
    if ok {
      SucceedsUnlessForeign(d, mid, owner, StorkDeployment(p), e.deployment);
      ObjectStep(d, mid, owner, StorkDeployment(p), e.deployment);
      var s4 := ReconcileOne(d, mid, owner, StorkDeployment(p), e.deployment).0;
      SucceedsUnlessForeign(d, s4, owner, StorkService(p), e.service);
    }
  }

  lemma FrontSucceeds(d: Body -> Body, store: Store, owner: string, p: StorkPlan, e: Environment)
    requires NothingFails(e)
    ensures Front(d, store, owner, p, e).1 <==> Free(store, owner, StorkAccount(p).id)
  {
    SucceedsUnlessForeign(d, store, owner, StorkAccount(p), e.account);
    var s1 := ReconcileOne(d, store, owner, StorkAccount(p), e.account).0;
    FineEnsures(d, s1, owner, AdminId(p), r => AdminSecret(p, r), e.admin);
    var s2 := Ensure(d, s1, owner, AdminId(p), r => AdminSecret(p, r), e.admin).0;
    FineEnsures(d, s2, owner, TokenId(p), r => TokenSecret(p, r), e.token);
  }
}
