/**
 * The API server as a store of objects, and the create-or-update engine of reconciler.go
 * that drives it. Every call can fail: a read, or a write that is rejected, or a write that
 * is applied although the client is told that it failed.
 */
module ApiServer {
  import opened Options
  import T = Templates

  datatype Kind = ConfigMap | Deployment | StatefulSet | Service | Secret | ServiceAccount | PodMonitor | Route

  datatype Id = Id(kind: Kind, namespace: string, name: string)

  datatype TargetPort = IntPort(number: int) | NamedPort(portName: string)

  datatype ServicePort = ServicePort(name: string, port: int, targetPort: TargetPort, protocol: string)

  datatype Body =
    | Data(data: map<string, string>)
    | Workload(spec: T.PodSpec)
    | ServiceSpec(selector: map<string, string>, ports: seq<ServicePort>, publishNotReady: bool,
                  clusterIP: string, clusterIPs: seq<string>)
    | Account(tokens: string)

  /** `server` stands for all metadata and status that only the server side writes. */
  datatype Object = Object(id: Id, labels: map<string, string>, owner: Option<string>, body: Body, server: string)

  type Store = map<Id, Object>

  predicate BodyFits(kind: Kind, body: Body) {
    match kind
    case ConfigMap => body.Data?
    case Secret => body.Data?
    case Service => body.ServiceSpec?
    case ServiceAccount => body.Account?
    case _ => body.Workload?
  }

  // ---------- what the server does with a write ----------

  /** Allocation of a ClusterIP for a Service that has none. */
  function Allocate(body: Body, ip: string): Body {
    if !body.ServiceSpec? then body
    else
      var c := if body.clusterIP == "" then ip else body.clusterIP;
      body.(clusterIP := c, clusterIPs := if body.clusterIPs == [] then [c] else body.clusterIPs)
  }

  /** Defaulting is idempotent; it keeps the kind of body, the addresses and selector of a Service, and service accounts. */
  ghost predicate OnlyDefaults(d: Body -> Body) {
    forall b: Body ::
      && d(d(b)) == d(b)
      && (b.Data? <==> d(b).Data?) && (b.Workload? <==> d(b).Workload?)
      && (b.ServiceSpec? <==> d(b).ServiceSpec?)
      && (b.Account? ==> d(b) == b)
      && (b.ServiceSpec? ==>
            d(b).selector == b.selector && d(b).clusterIP == b.clusterIP && d(b).clusterIPs == b.clusterIPs)
  }

  /** Ports that say everything are not changed by defaulting. */
  ghost predicate KeepsPorts(d: Body -> Body) {
    forall b: Body | b.ServiceSpec? && (forall p | p in b.ports :: p.protocol != "") ::
      d(b).ServiceSpec? && d(b).ports == b.ports && d(b).publishNotReady == b.publishNotReady
  }

  /** ConfigMaps and Secrets are not subject to defaulting. */
  ghost predicate KeepsData(d: Body -> Body) { forall data :: d(Data(data)) == Data(data) }

  /** Defaulting completes the settings of a workload and keeps what the operator builds itself. */
  ghost predicate KeepsPods(d: Body -> Body) {
    forall spec: T.PodSpec | spec.Pods? ::
      var live := d(Workload(spec));
      live.Workload? && live.spec.Pods? && live.spec == spec.(settings := live.spec.settings)
  }

  /** Every stored object has been admitted: it fits its kind, is defaulted, and Services have addresses. */
  ghost predicate ValidStore(d: Body -> Body, store: Store) {
    forall id | id in store ::
      var o := store[id];
      && o.id == id && BodyFits(id.kind, o.body) && d(o.body) == o.body
      && (o.body.ServiceSpec? ==> o.body.clusterIP != "" && o.body.clusterIPs != [])
  }

  function Admitted(d: Body -> Body, o: Object, ip: string): Object {
    o.(body := d(Allocate(o.body, ip)))
  }

  // ---------- the mutate function ----------

  /** The live object with the captured desired state put back. */
  function Mutate(live: Object, desired: Object, owner: string): Object {
    var body :=
      match desired.body
      case Account(_) => live.body
      case ServiceSpec(_, _, _, _, _) =>
        if live.body.ServiceSpec? then
          desired.body.(
            clusterIP := if live.body.clusterIP != "" then live.body.clusterIP else desired.body.clusterIP,
            clusterIPs := if live.body.clusterIPs != [] then live.body.clusterIPs else desired.body.clusterIPs)
        else desired.body
      case _ => desired.body;
    live.(labels := desired.labels, owner := Some(owner), body := body)
  }

  /** A controller other than `owner`. */
  predicate OtherController(controller: Option<string>, owner: string) { controller.Some? && controller.value != owner }

  predicate Foreign(o: Object, owner: string) { OtherController(o.owner, owner) }

  // ---------- one reconcileResource call ----------

  datatype Write = Applied | Rejected | Unacknowledged

  /** What the environment does with one create-or-update; `ip` is the address it would allocate. */
  datatype Call = Call(readable: bool, write: Write, ip: string)

  predicate Succeeds(c: Call) { c.readable && c.write.Applied? && c.ip != "" }

  predicate ValidCall(c: Call) { c.ip != "" }

  function WriteResult(d: Body -> Body, store: Store, o: Object, c: Call): (Store, bool) {
    (if c.write.Rejected? then store else store[o.id := Admitted(d, o, c.ip)], c.write.Applied?)
  }

  function ReconcileOne(d: Body -> Body, store: Store, owner: string, desired: Object, c: Call): (Store, bool) {
    if !c.readable then (store, false)
    else if desired.id !in store then WriteResult(d, store, desired.(owner := Some(owner)), c)
    else
      var live := store[desired.id];
      if Foreign(live, owner) then (store, false)
      else
        var updated := Mutate(live, desired, owner);
        if updated == live then (store, true) else WriteResult(d, store, updated, c)
  }

  /** The API server with its defaulting; the only state the controllers share. */
  class Cluster {
    var store: Store
    const defaulting: Body -> Body

    constructor (d: Body -> Body)
      ensures store == map[] && defaulting == d
    {
      store := map[];
      defaulting := d;
    }

    method Put(o: Object, c: Call) returns (ok: bool)
      modifies this
      ensures (store, ok) == WriteResult(defaulting, old(store), o, c)
    {
      if !c.write.Rejected? {
        store := store[o.id := Admitted(defaulting, o, c.ip)];
      }
      ok := c.write.Applied?;
    }

    /** Captures the desired state, lets the live object overwrite it, and puts the desired state back. */
    method ReconcileResource(owner: string, desired: Object, c: Call) returns (ok: bool)
      modifies this
      ensures (store, ok) == ReconcileOne(defaulting, old(store), owner, desired, c)
    {
      var obj := desired.(owner := Some(owner));
      if !c.readable {
        return false;
      }
      if desired.id !in store {
        ok := Put(obj, c);
        return;
      }
      var live := store[desired.id];
      obj := live;
      if Foreign(obj, owner) {
        return false;
      }
      match desired.body {
        case Account(_) =>
        case ServiceSpec(_, _, _, _, _) =>
          obj := obj.(body := desired.body);
          if live.body.ServiceSpec? {
            if live.body.clusterIP != "" {
              obj := obj.(body := obj.body.(clusterIP := live.body.clusterIP));
            }
            if live.body.clusterIPs != [] {
              obj := obj.(body := obj.body.(clusterIPs := live.body.clusterIPs));
            }
          }
        case Data(_) =>
          obj := obj.(body := desired.body);
        case Workload(_) =>
          obj := obj.(body := desired.body);
      }
      obj := obj.(labels := desired.labels, owner := Some(owner));
      assert obj == Mutate(live, desired, owner);
      if obj == live {
        return true;
      }
      ok := Put(obj, c);
    }
  }

  // ---------- conformity ----------

  /** A live body carries the desired one, up to defaulting, server-side tokens and allocated addresses. */
  predicate BodyConforms(d: Body -> Body, desired: Body, live: Body) {
    match desired
    case Account(_) => live.Account?
    case ServiceSpec(_, _, _, ip, ips) =>
      && live.ServiceSpec? && live.clusterIP != "" && live.clusterIPs != []
      && (ip != "" ==> live.clusterIP == ip)
      && (ips != [] ==> live.clusterIPs == ips)
      && live == d(desired.(clusterIP := live.clusterIP, clusterIPs := live.clusterIPs))
    case _ => live == d(desired)
  }

  predicate Conforms(d: Body -> Body, store: Store, owner: string, desired: Object) {
    && desired.id in store
    && store[desired.id].labels == desired.labels
    && store[desired.id].owner == Some(owner)
    && BodyConforms(d, desired.body, store[desired.id].body)
  }

  predicate ValidDesired(o: Object) {
    && BodyFits(o.id.kind, o.body)
    && (o.body.ServiceSpec? ==> o.body.clusterIPs == [])
    && (o.body.Account? ==> o.body.tokens == "")
  }

  /** A Service whose live address contradicts the desired one cannot be reconciled into conformity. */
  predicate AddressCompatible(store: Store, desired: Object) {
    && desired.id in store && desired.body.ServiceSpec?
    && store[desired.id].body.ServiceSpec? && desired.body.clusterIP != ""
    ==> store[desired.id].body.clusterIP == desired.body.clusterIP
  }

  /** Nothing in the store stands in the way: no foreign controller, no contradicting address. */
  predicate Unobstructed(store: Store, owner: string, desired: Object) {
    && AddressCompatible(store, desired)
    && (desired.id in store ==> !Foreign(store[desired.id], owner))
  }

  /** Reconciling a conforming object leaves the whole store as it is, whatever the environment does. */
  lemma ConformingIsFixpoint(d: Body -> Body, store: Store, owner: string, desired: Object, c: Call)
    requires OnlyDefaults(d) && ValidStore(d, store) && ValidDesired(desired)
    requires Conforms(d, store, owner, desired)
    ensures ReconcileOne(d, store, owner, desired, c).0 == store
    ensures Succeeds(c) ==> ReconcileOne(d, store, owner, desired, c).1
  {
    var live := store[desired.id];
    var updated := Mutate(live, desired, owner);
    assert Admitted(d, updated, c.ip) == live;
    assert store[desired.id := live] == store;
  }

  /** What one call may change: its own object only, which stays admissible; nothing is deleted or obstructed. */
  lemma OneStep(d: Body -> Body, store: Store, owner: string, desired: Object, c: Call)
    requires OnlyDefaults(d) && ValidStore(d, store) && ValidDesired(desired) && ValidCall(c)
    ensures var after := ReconcileOne(d, store, owner, desired, c).0;
            && ValidStore(d, after) && store.Keys <= after.Keys <= store.Keys + {desired.id}
            && (forall id | id in store && id != desired.id :: after[id] == store[id])
            && (Unobstructed(store, owner, desired) ==> Unobstructed(after, owner, desired))
  {
    if c.readable && desired.id !in store {
      WriteStaysValid(d, store, desired.(owner := Some(owner)), c);
    } else if c.readable && !Foreign(store[desired.id], owner) {
      WriteStaysValid(d, store, Mutate(store[desired.id], desired, owner), c);
    }
  }

  /** The server admits what it stores. */
  lemma WriteStaysValid(d: Body -> Body, store: Store, o: Object, c: Call)
    requires OnlyDefaults(d) && ValidStore(d, store) && ValidCall(c) && BodyFits(o.id.kind, o.body)
    ensures ValidStore(d, WriteResult(d, store, o, c).0)
  {
  }

  /** A call that reports success leaves its object conforming, whatever was there before. */
  lemma SuccessConforms(d: Body -> Body, store: Store, owner: string, desired: Object, c: Call)
    requires OnlyDefaults(d) && ValidStore(d, store) && ValidDesired(desired) && ValidCall(c)
    requires AddressCompatible(store, desired)
    requires ReconcileOne(d, store, owner, desired, c).1
    ensures Conforms(d, ReconcileOne(d, store, owner, desired, c).0, owner, desired)
  {
  }

  /** A call without failures reports success exactly when no foreign controller owns the object. */
  lemma SucceedsUnlessForeign(d: Body -> Body, store: Store, owner: string, desired: Object, c: Call)
    requires Succeeds(c)
    ensures ReconcileOne(d, store, owner, desired, c).1 <==> (desired.id in store ==> !Foreign(store[desired.id], owner))
    ensures desired.id in store && Foreign(store[desired.id], owner) ==>
              ReconcileOne(d, store, owner, desired, c).0 == store
  {
  }

  /** The address of a Service survives every call for every desired state. */
  lemma AddressKept(d: Body -> Body, store: Store, owner: string, desired: Object, c: Call, id: Id)
    requires OnlyDefaults(d) && ValidStore(d, store) && ValidDesired(desired) && ValidCall(c)
    requires id in store && id.kind == Service
    ensures var after := ReconcileOne(d, store, owner, desired, c).0;
            && id in after && after[id].body.ServiceSpec?
            && after[id].body.clusterIP == store[id].body.clusterIP
            && after[id].body.clusterIPs == store[id].body.clusterIPs
  {
  }
}
