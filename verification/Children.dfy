/**
 * The umbrella resource (keaserver_controller.go) and its five children: creation, update and
 * deletion of the child resources.
 */
module Children {
  import opened Options
  import opened Names
  import Status
  import A = ApiServer

  /** The umbrella: `owner` is the identity written into controller references; a missing spec is `None`. */
  datatype Umbrella = Umbrella(
    namespace: string,
    name: string,
    owner: string,
    dhcp4: Option<string>,
    dhcp6: Option<string>,
    controlAgent: Option<string>,
    dhcpDdns: Option<string>,
    storkServer: Option<string>)
  {
    function SpecOf(c: Component): Option<string> {
      match c
      case Dhcp4 => dhcp4
      case Dhcp6 => dhcp6
      case CtrlAgent => controlAgent
      case Ddns => dhcpDdns
      case StorkServer => storkServer
    }

    function ChildOf(c: Component): ChildId { ChildId(c, namespace, ChildName(name, c)) }
  }

  /** The order in which a reconcile visits the children. */
  const CHILDREN: seq<Component> := [Dhcp4, Dhcp6, CtrlAgent, Ddns, StorkServer]

  function ChildName(umbrella: string, c: Component): string { umbrella + "-" + c.Text() }

  /** A child resource is identified by its kind, here the component, its namespace and its name. */
  datatype ChildId = ChildId(component: Component, namespace: string, name: string)

  datatype Child = Child(spec: string, owner: Option<string>, status: Status.Status)

  type ChildStore = map<ChildId, Child>

  /** What the API server does with the calls for one child: the lookup, the read inside create-or-update, the write. */
  datatype ChildCall = ChildCall(lookup: bool, read: bool, write: A.Write)

  /** Server-side defaulting of child specs, by component. */
  type Defaulting = (Component, string) -> string

  ghost predicate Idempotent(d: Defaulting) { forall c, s :: d(c, d(c, s)) == d(c, s) }

  predicate Succeeds(call: ChildCall) { call.lookup && call.read && call.write.Applied? }

  // ---------- one child ----------

  function Write(d: Defaulting, store: ChildStore, id: ChildId, child: Child, w: A.Write): (ChildStore, bool) {
    (if w.Rejected? then store else store[id := child.(spec := d(id.component, child.spec))], w.Applied?)
  }

  /** The store after the reconcile of one child, and whether it returned without error. */
  function ReconcileOne(d: Defaulting, store: ChildStore, u: Umbrella, c: Component, call: ChildCall): (ChildStore, bool) {
    var id := u.ChildOf(c);
    match u.SpecOf(c)
    case None =>
      if !call.lookup then (store, false)
      else if id !in store then (store, true)
      else (if call.write.Rejected? then store else store - {id}, call.write.Applied?)
    case Some(spec) =>
      if !call.read then (store, false)
      else if id !in store then Write(d, store, id, Child(spec, Some(u.owner), Status.EMPTY), call.write)
      else if A.OtherController(store[id].owner, u.owner) then (store, false)
      else
        var updated := store[id].(spec := spec, owner := Some(u.owner));
        if updated == store[id] then (store, true) else Write(d, store, id, updated, call.write)
  }

  /** The result of the first `n` children and how many of them were reconciled without error; an error ends the run. */
  function Process(d: Defaulting, store: ChildStore, u: Umbrella, calls: seq<ChildCall>, n: nat): (r: (ChildStore, nat))
    requires |calls| == |CHILDREN| && n <= |CHILDREN|
    ensures r.1 <= n
  {
    if n == 0 then (store, 0)
    else
      var (before, done) := Process(d, store, u, calls, n - 1);
      if done < n - 1 then (before, done)
      else
        var (after, ok) := ReconcileOne(d, before, u, CHILDREN[n - 1], calls[n - 1]);
        (after, if ok then n else n - 1)
  }

  /** The API server as far as children are concerned. */
  class ChildCluster {
    var store: ChildStore
    const defaulting: Defaulting

    constructor (d: Defaulting)
      ensures store == map[] && defaulting == d
    {
      store := map[];
      defaulting := d;
    }

    method Put(id: ChildId, child: Child, w: A.Write) returns (ok: bool)
      modifies this
      ensures (store, ok) == Write(defaulting, old(store), id, child, w)
    {
      if !w.Rejected? {
        store := store[id := child.(spec := defaulting(id.component, child.spec))];
      }
      ok := w.Applied?;
    }

    /** Creates, updates or deletes the child of one component. */
    method ReconcileChild(u: Umbrella, c: Component, call: ChildCall) returns (ok: bool)
      modifies this
      ensures (store, ok) == ReconcileOne(defaulting, old(store), u, c, call)
    {
      var id := u.ChildOf(c);
      var found := call.lookup && id in store;
      if u.SpecOf(c).None? {
        if found {
          if !call.write.Rejected? {
            store := store - {id};
          }
          return call.write.Applied?;
        }
        return call.lookup;
      }
      var spec := u.SpecOf(c).value;
      if !call.read {
        return false;
      }
      if id !in store {
        ok := Put(id, Child(spec, Some(u.owner), Status.EMPTY), call.write);
        return;
      }
      var child := store[id];
      child := child.(spec := spec);
      if A.OtherController(child.owner, u.owner) {
        return false;
      }
      child := child.(owner := Some(u.owner));
      if child == store[id] {
        return true;
      }
      ok := Put(id, child, call.write);
    }

    /** The five children in their order; `done` of them were reconciled before an error, if any. */
    method ReconcileChildren(u: Umbrella, calls: seq<ChildCall>) returns (ok: bool, ghost done: nat)
      requires |calls| == |CHILDREN|
      modifies this
      ensures (store, done) == Process(defaulting, old(store), u, calls, |CHILDREN|)
      ensures ok <==> done == |CHILDREN|
    {
      ghost var d, before := defaulting, store;
      assert Process(d, before, u, calls, 0) == (store, 0);
      ok := ReconcileChild(u, Dhcp4, calls[0]);
      if !ok {
        AbortedEarly(d, before, u, calls, 1);
        return false, 0;
      }
      assert Process(d, before, u, calls, 1) == (store, 1);
      ok := ReconcileChild(u, Dhcp6, calls[1]);
      if !ok {
        AbortedEarly(d, before, u, calls, 2);
        return false, 1;
      }
      assert Process(d, before, u, calls, 2) == (store, 2);
      ok := ReconcileChild(u, CtrlAgent, calls[2]);
      if !ok {
        AbortedEarly(d, before, u, calls, 3);
        return false, 2;
      }
      assert Process(d, before, u, calls, 3) == (store, 3);
      ok := ReconcileChild(u, Ddns, calls[3]);
      if !ok {
        AbortedEarly(d, before, u, calls, 4);
        return false, 3;
      }
      assert Process(d, before, u, calls, 4) == (store, 4);
      ok := ReconcileChild(u, StorkServer, calls[4]);
      done := if ok then 5 else 4;
    }
  }

  lemma {:induction false} AbortedEarly(d: Defaulting, store: ChildStore, u: Umbrella, calls: seq<ChildCall>, m: nat)
    requires |calls| == |CHILDREN| && m <= |CHILDREN| && Process(d, store, u, calls, m).1 < m
    ensures Process(d, store, u, calls, |CHILDREN|) == Process(d, store, u, calls, m)
    decreases |CHILDREN| - m
  {
    if m < |CHILDREN| {
      assert Process(d, store, u, calls, m + 1) == Process(d, store, u, calls, m);
      AbortedEarly(d, store, u, calls, m + 1);
    }
  }

  // ---------- what a reconcile establishes ----------

  /** The child exists exactly when it is configured, with the parent's spec and controller reference. */
  predicate Established(d: Defaulting, store: ChildStore, u: Umbrella, c: Component) {
    var id := u.ChildOf(c);
    match u.SpecOf(c)
    case None => id !in store
    case Some(spec) => id in store && store[id].spec == d(c, spec) && store[id].owner == Some(u.owner)
  }

  /** No configured child is controlled by somebody else. */
  predicate Unobstructed(store: ChildStore, u: Umbrella, c: Component) {
    u.SpecOf(c).Some? && u.ChildOf(c) in store ==> !A.OtherController(store[u.ChildOf(c)].owner, u.owner)
  }

  /** Success establishes the child; what was established stays so through any failure; nobody else is touched. */
  lemma ChildStep(d: Defaulting, store: ChildStore, u: Umbrella, c: Component, call: ChildCall)
    requires Idempotent(d)
    ensures var (after, ok) := ReconcileOne(d, store, u, c, call);
            && (ok && Settled(d, store, u, c) ==> Established(d, after, u, c))
            && (Settled(d, store, u, c) ==> Settled(d, after, u, c))
            && (Established(d, store, u, c) ==> Established(d, after, u, c))
            && (Succeeds(call) ==> (ok <==> Unobstructed(store, u, c)))
            && (Unobstructed(store, u, c) ==> Unobstructed(after, u, c))
            && (forall id | id != u.ChildOf(c) :: (id in after <==> id in store) && (id in store ==> after[id] == store[id]))
            && (u.ChildOf(c) in store && u.ChildOf(c) in after ==>
                  after[u.ChildOf(c)].status == store[u.ChildOf(c)].status)
  {
  }

  /** The stored spec has been through defaulting, as everything an API server stores. */
  predicate Settled(d: Defaulting, store: ChildStore, u: Umbrella, c: Component) {
    u.ChildOf(c) in store ==> d(c, store[u.ChildOf(c)].spec) == store[u.ChildOf(c)].spec
  }

  predicate AllSettled(d: Defaulting, store: ChildStore, u: Umbrella) { forall c: Component :: Settled(d, store, u, c) }

  predicate AllUnobstructed(store: ChildStore, u: Umbrella) { forall c: Component :: Unobstructed(store, u, c) }

  predicate AllEstablished(d: Defaulting, store: ChildStore, u: Umbrella) { forall c: Component :: Established(d, store, u, c) }

  lemma AllVisited(c: Component)
    ensures c in CHILDREN
  {
    match c
    case Dhcp4 => assert CHILDREN[0] == c;
    case Dhcp6 => assert CHILDREN[1] == c;
    case CtrlAgent => assert CHILDREN[2] == c;
    case Ddns => assert CHILDREN[3] == c;
    case StorkServer => assert CHILDREN[4] == c;
  }

  /** The children of an umbrella. */
  predicate IsChild(u: Umbrella, id: ChildId) { exists c: Component :: id == u.ChildOf(c) }

  /** Nothing established is lost, no new obstacle appears, and nobody else's child is touched. */
  ghost predicate Kept(d: Defaulting, store: ChildStore, after: ChildStore, u: Umbrella) {
    && (AllSettled(d, store, u) ==> AllSettled(d, after, u))
    && (AllUnobstructed(store, u) ==> AllUnobstructed(after, u))
    && (forall c: Component | Established(d, store, u, c) :: Established(d, after, u, c))
    && (forall id | !IsChild(u, id) :: (id in after <==> id in store) && (id in store ==> after[id] == store[id]))
  }

  lemma KeptTransitive(d: Defaulting, a: ChildStore, b: ChildStore, c: ChildStore, u: Umbrella)
    requires Kept(d, a, b, u) && Kept(d, b, c, u)
    ensures Kept(d, a, c, u)
  {
  }

  lemma StepKeeps(d: Defaulting, store: ChildStore, u: Umbrella, c: Component, call: ChildCall)
    requires Idempotent(d) && AllSettled(d, store, u)
    ensures var (after, ok) := ReconcileOne(d, store, u, c, call);
            && Kept(d, store, after, u)
            && (ok ==> Established(d, after, u, c))
            && (Succeeds(call) && AllUnobstructed(store, u) ==> ok)
  {
    ChildStep(d, store, u, c, call);
    var after := ReconcileOne(d, store, u, c, call).0;
    forall o: Component
      ensures Established(d, store, u, o) ==> Established(d, after, u, o)
      ensures Settled(d, store, u, o) ==> Settled(d, after, u, o)
      ensures Unobstructed(store, u, o) ==> Unobstructed(after, u, o)
    {
      assert o != c ==> u.ChildOf(o).component != u.ChildOf(c).component;
    }
  }

  lemma NextEstablished(d: Defaulting, store: ChildStore, before: ChildStore, u: Umbrella, n: nat, call: ChildCall)
    requires Idempotent(d) && AllSettled(d, store, u) && n < |CHILDREN| && Kept(d, store, before, u)
    requires forall i | 0 <= i < n :: Established(d, before, u, CHILDREN[i])
    ensures var (after, ok) := ReconcileOne(d, before, u, CHILDREN[n], call);
            && Kept(d, store, after, u)
            && (forall i | 0 <= i < n :: Established(d, after, u, CHILDREN[i]))
            && (ok ==> Established(d, after, u, CHILDREN[n]))
            && (Succeeds(call) && AllUnobstructed(store, u) ==> ok)
  {
    StepKeeps(d, before, u, CHILDREN[n], call);
    KeptTransitive(d, store, before, ReconcileOne(d, before, u, CHILDREN[n], call).0, u);
  }

  /**
   * A run that processes `done` of its first `n` children establishes exactly this prefix, loses
   * no established child and touches nobody else's children.
   */
  lemma {:induction false} PrefixEstablished(d: Defaulting, store: ChildStore, u: Umbrella, calls: seq<ChildCall>, n: nat)
    requires Idempotent(d) && AllSettled(d, store, u) && |calls| == |CHILDREN| && n <= |CHILDREN|
    ensures var (after, done) := Process(d, store, u, calls, n);
            && Kept(d, store, after, u)
            && (forall i | 0 <= i < done :: Established(d, after, u, CHILDREN[i]))
            && ((forall i | 0 <= i < n :: Succeeds(calls[i])) && AllUnobstructed(store, u) ==> done == n)
  {
    if n > 0 {
      PrefixEstablished(d, store, u, calls, n - 1);
      var (before, done) := Process(d, store, u, calls, n - 1);
      if done == n - 1 {
        NextEstablished(d, store, before, u, n - 1, calls[n - 1]);
      }
    }
  }

  /**
   * Convergence: a run without failing calls, with no configured child under foreign control,
   * leaves every child established: configured ones exist as specified, all others are gone.
   */
  lemma UmbrellaConverges(d: Defaulting, store: ChildStore, u: Umbrella, calls: seq<ChildCall>)
    requires Idempotent(d) && AllSettled(d, store, u) && AllUnobstructed(store, u)
    requires |calls| == |CHILDREN| && forall call | call in calls :: Succeeds(call)
    ensures var (after, done) := Process(d, store, u, calls, |CHILDREN|);
            done == |CHILDREN| && AllEstablished(d, after, u)
  {
    PrefixEstablished(d, store, u, calls, |CHILDREN|);
    var after := Process(d, store, u, calls, |CHILDREN|).0;
    forall c: Component ensures Established(d, after, u, c) {
      AllVisited(c);
    }
  }

  lemma RunKeeps(d: Defaulting, store: ChildStore, u: Umbrella, calls: seq<ChildCall>)
    requires Idempotent(d) && AllSettled(d, store, u) && AllUnobstructed(store, u) && |calls| == |CHILDREN|
    ensures var after := Process(d, store, u, calls, |CHILDREN|).0;
            && Kept(d, store, after, u) && AllSettled(d, after, u) && AllUnobstructed(after, u)
            && ((forall call | call in calls :: Succeeds(call)) ==> AllEstablished(d, after, u))
  {
    PrefixEstablished(d, store, u, calls, |CHILDREN|);
    if forall call | call in calls :: Succeeds(call) {
      UmbrellaConverges(d, store, u, calls);
    }
  }

  /** Any number of runs for one spec. */
  function Runs(d: Defaulting, store: ChildStore, u: Umbrella, runs: seq<seq<ChildCall>>): ChildStore
    requires forall calls | calls in runs :: |calls| == |CHILDREN|
  {
    if runs == [] then store
    else Process(d, Runs(d, store, u, runs[..|runs| - 1]), u, runs[|runs| - 1], |CHILDREN|).0
  }

  /**
   * Over any history of runs for one spec, failing anywhere, an established child is never lost,
   * and after one failure-free run all of them stay established.
   */
  lemma {:induction false} UmbrellaStaysConverged(d: Defaulting, store: ChildStore, u: Umbrella, runs: seq<seq<ChildCall>>)
    requires Idempotent(d) && AllSettled(d, store, u) && AllUnobstructed(store, u)
    requires forall calls | calls in runs :: |calls| == |CHILDREN|
    ensures var after := Runs(d, store, u, runs);
            && Kept(d, store, after, u) && AllSettled(d, after, u) && AllUnobstructed(after, u)
            && ((exists calls :: calls in runs && forall call | call in calls :: Succeeds(call)) ==>
                  AllEstablished(d, after, u))
  {
    if runs != [] {
      var n := |runs| - 1;
      UmbrellaStaysConverged(d, store, u, runs[..n]);
      var before := Runs(d, store, u, runs[..n]);
      assert runs[n] in runs;
      var after := Runs(d, store, u, runs);
      RunKeeps(d, before, u, runs[n]);
      KeptTransitive(d, store, before, after, u);
      forall calls | calls in runs && forall call | call in calls :: Succeeds(call)
        ensures AllEstablished(d, after, u)
      {
        if calls != runs[n] { assert calls in runs[..n]; }
      }
    }
  }

  /** Once all children are established no run changes the store, even if its writes fail. */
  lemma {:induction false} EstablishedIsFixpoint(d: Defaulting, store: ChildStore, u: Umbrella, calls: seq<ChildCall>, n: nat)
    requires Idempotent(d) && AllEstablished(d, store, u) && |calls| == |CHILDREN| && n <= |CHILDREN|
    ensures Process(d, store, u, calls, n).0 == store
  {
    if n > 0 {
      EstablishedIsFixpoint(d, store, u, calls, n - 1);
      var c := CHILDREN[n - 1];
      assert Established(d, store, u, c);
      if u.SpecOf(c).Some? {
        assert store[u.ChildOf(c) := store[u.ChildOf(c)]] == store;
      }
    }
  }

  // ---------- children under foreign control ----------

  /** Would the child of component number `i` be reconciled without error, as things stand in `store`? */
  predicate Passes(d: Defaulting, store: ChildStore, u: Umbrella, calls: seq<ChildCall>, i: nat)
    requires |calls| == |CHILDREN| && i < |CHILDREN|
  {
    ReconcileOne(d, store, u, CHILDREN[i], calls[i]).1
  }

  predicate SameEntry(store: ChildStore, after: ChildStore, id: ChildId) {
    (id in after <==> id in store) && (id in store ==> after[id] == store[id])
  }

  lemma ChildrenDiffer(u: Umbrella, i: nat, j: nat)
    requires i < |CHILDREN| && j < |CHILDREN| && i != j
    ensures u.ChildOf(CHILDREN[i]) != u.ChildOf(CHILDREN[j])
  {
    assert u.ChildOf(CHILDREN[i]).component == CHILDREN[i] && u.ChildOf(CHILDREN[j]).component == CHILDREN[j];
  }

  lemma SameOutcome(d: Defaulting, store: ChildStore, before: ChildStore, u: Umbrella, c: Component, call: ChildCall)
    requires SameEntry(store, before, u.ChildOf(c))
    ensures ReconcileOne(d, before, u, c, call).1 == ReconcileOne(d, store, u, c, call).1
  {
  }

  lemma OtherChildKept(d: Defaulting, store: ChildStore, u: Umbrella, c: Component, call: ChildCall, id: ChildId)
    requires id != u.ChildOf(c)
    ensures SameEntry(store, ReconcileOne(d, store, u, c, call).0, id)
  {
  }

  /** The first `n` children do not touch a later one. */
  lemma {:induction false} LaterUntouched(d: Defaulting, store: ChildStore, u: Umbrella, calls: seq<ChildCall>, n: nat, i: nat)
    requires |calls| == |CHILDREN| && n <= i < |CHILDREN|
    ensures SameEntry(store, Process(d, store, u, calls, n).0, u.ChildOf(CHILDREN[i]))
  {
    if n > 0 {
      LaterUntouched(d, store, u, calls, n - 1, i);
      ChildrenDiffer(u, i, n - 1);
      OtherChildKept(d, Process(d, store, u, calls, n - 1).0, u, CHILDREN[n - 1], calls[n - 1], u.ChildOf(CHILDREN[i]));
    }
  }

  /** A run gets through its first `n` children exactly when each of them passes in the store it starts from. */
  lemma {:induction false} ReachesExactly(d: Defaulting, store: ChildStore, u: Umbrella, calls: seq<ChildCall>, n: nat)
    requires |calls| == |CHILDREN| && n <= |CHILDREN|
    ensures Process(d, store, u, calls, n).1 == n <==> forall i: nat | i < n :: Passes(d, store, u, calls, i)
  {
    if n > 0 {
      ReachesExactly(d, store, u, calls, n - 1);
      LaterUntouched(d, store, u, calls, n - 1, n - 1);
      SameOutcome(d, store, Process(d, store, u, calls, n - 1).0, u, CHILDREN[n - 1], calls[n - 1]);
      assert (forall i: nat | i < n :: Passes(d, store, u, calls, i)) <==>
        (forall i: nat | i < n - 1 :: Passes(d, store, u, calls, i)) && Passes(d, store, u, calls, n - 1);
    }
  }

  /** Later children leave the child of component number `i` as it is. */
  lemma {:induction false} LaterChildrenKeep(d: Defaulting, store: ChildStore, u: Umbrella, calls: seq<ChildCall>, i: nat, n: nat)
    requires |calls| == |CHILDREN| && i < n <= |CHILDREN|
    ensures SameEntry(Process(d, store, u, calls, i + 1).0, Process(d, store, u, calls, n).0, u.ChildOf(CHILDREN[i]))
  {
    if n > i + 1 {
      LaterChildrenKeep(d, store, u, calls, i, n - 1);
      ChildrenDiffer(u, i, n - 1);
      OtherChildKept(d, Process(d, store, u, calls, n - 1).0, u, CHILDREN[n - 1], calls[n - 1], u.ChildOf(CHILDREN[i]));
    }
  }

  /**
   * A child somebody else controls is either left exactly as it is or deleted, and it is deleted
   * exactly when its component is not configured, everything before it passes, it can be looked
   * up and the deletion takes effect: nobody asks who controls it.
   */
  lemma ForeignDeletedExactly(d: Defaulting, store: ChildStore, u: Umbrella, calls: seq<ChildCall>, i: nat)
    requires |calls| == |CHILDREN| && i < |CHILDREN|
    requires u.ChildOf(CHILDREN[i]) in store && A.OtherController(store[u.ChildOf(CHILDREN[i])].owner, u.owner)
    ensures var id, after := u.ChildOf(CHILDREN[i]), Process(d, store, u, calls, |CHILDREN|).0;
            && (id in after ==> after[id] == store[id])
            && (id !in after <==>
                  && u.SpecOf(CHILDREN[i]).None?
                  && (forall k: nat | k < i :: Passes(d, store, u, calls, k))
                  && calls[i].lookup && !calls[i].write.Rejected?)
  {
    ReachesExactly(d, store, u, calls, i);
    LaterUntouched(d, store, u, calls, i, i);
    LaterChildrenKeep(d, store, u, calls, i, |CHILDREN|);
  }

  lemma ChangedAfter(d: Defaulting, store: ChildStore, u: Umbrella, calls: seq<ChildCall>, i: nat)
    requires |calls| == |CHILDREN| && i < |CHILDREN|
    requires !SameEntry(store, Process(d, store, u, calls, |CHILDREN|).0, u.ChildOf(CHILDREN[i]))
    ensures forall k: nat | k < i :: Passes(d, store, u, calls, k)
  {
    ReachesExactly(d, store, u, calls, i);
    LaterUntouched(d, store, u, calls, i, i);
    if Process(d, store, u, calls, i).1 < i {
      AbortedEarly(d, store, u, calls, i);
    }
  }

  /** Children change in a fixed order: none before all those of the kinds before it have gone through. */
  lemma ChildrenInOrder(d: Defaulting, store: ChildStore, u: Umbrella, calls: seq<ChildCall>)
    requires |calls| == 5
    ensures var after := Process(d, store, u, calls, 5).0;
            && (!SameEntry(store, after, u.ChildOf(Dhcp6)) ==> ReconcileOne(d, store, u, Dhcp4, calls[0]).1)
            && (!SameEntry(store, after, u.ChildOf(CtrlAgent)) ==> ReconcileOne(d, store, u, Dhcp6, calls[1]).1)
            && (!SameEntry(store, after, u.ChildOf(Ddns)) ==> ReconcileOne(d, store, u, CtrlAgent, calls[2]).1)
            && (!SameEntry(store, after, u.ChildOf(StorkServer)) ==> ReconcileOne(d, store, u, Ddns, calls[3]).1)
  {
    forall i: nat | i < 5 && !SameEntry(store, Process(d, store, u, calls, 5).0, u.ChildOf(CHILDREN[i]))
      ensures forall k: nat | k < i :: Passes(d, store, u, calls, k)
    {
      ChangedAfter(d, store, u, calls, i);
    }
    assert CHILDREN[1] == Dhcp6 && CHILDREN[2] == CtrlAgent && CHILDREN[3] == Ddns && CHILDREN[4] == StorkServer;
    assert forall k: nat | k < 5 :: Passes(d, store, u, calls, k) == ReconcileOne(d, store, u, CHILDREN[k], calls[k]).1;
  }

  /** Different umbrellas, or different components of one, never share a child. */
  lemma ChildrenApart(u: Umbrella, c: Component, u': Umbrella, c': Component)
    requires u.ChildOf(c) == u'.ChildOf(c')
    ensures u.namespace == u'.namespace && u.name == u'.name && c == c'
  {
    PlainDecodes(u.name, c, u'.name, c');
  }
}
