/**
 * Whole controller runs: a controller applies a list of desired objects in order, stops at the
 * first error it does not swallow, and is started again any number of times.
 */
module Runs {
  import opened Options
  import opened ApiServer

  /** Apply one object (an error may be fatal or only logged), or check a condition of the spec. */
  datatype Step =
    | Apply(desired: Object, fatal: bool)
    | Check(ok: bool)

  predicate ValidSteps(steps: seq<Step>) {
    forall s | s in steps && s.Apply? :: ValidDesired(s.desired)
  }

  predicate DistinctIds(steps: seq<Step>) {
    forall i, j | 0 <= i < j < |steps| && steps[i].Apply? && steps[j].Apply? ::
      steps[i].desired.id != steps[j].desired.id
  }

  predicate ChecksPass(steps: seq<Step>) { forall s | s in steps && s.Check? :: s.ok }

  predicate ValidCalls(calls: seq<Call>) { forall c | c in calls :: ValidCall(c) }

  /** No call of the run fails. */
  predicate FailureFree(calls: seq<Call>) { forall c | c in calls :: Succeeds(c) }

  function StepOne(d: Body -> Body, store: Store, owner: string, s: Step, c: Call): (Store, bool) {
    match s
    case Apply(desired, fatal) =>
      var (after, ok) := ReconcileOne(d, store, owner, desired, c);
      (after, ok || !fatal)
    case Check(ok) => (store, ok)
  }

  /** The store after the run, and whether the run reached its end without returning an error. */
  function Run(d: Body -> Body, store: Store, owner: string, steps: seq<Step>, calls: seq<Call>): (Store, bool)
    requires |steps| == |calls|
  {
    if steps == [] then (store, true)
    else
      var n := |steps| - 1;
      var (before, ok) := Run(d, store, owner, steps[..n], calls[..n]);
      if !ok then (before, false) else StepOne(d, before, owner, steps[n], calls[n])
  }

  lemma {:induction false} RunAppend(d: Body -> Body, store: Store, owner: string,
                                     a: seq<Step>, ca: seq<Call>, b: seq<Step>, cb: seq<Call>)
    requires |a| == |ca| && |b| == |cb|
    ensures var (mid, ok) := Run(d, store, owner, a, ca);
            Run(d, store, owner, a + b, ca + cb) == if ok then Run(d, mid, owner, b, cb) else (mid, false)
  {
    if b == [] {
      assert a + b == a && ca + cb == ca;
    } else {
      var n := |b| - 1;
      RunAppend(d, store, owner, a, ca, b[..n], cb[..n]);
      assert (a + b)[..|a + b| - 1] == a + b[..n];
      assert (ca + cb)[..|a + b| - 1] == ca + cb[..n];
    }
  }

  // ---------- what every run keeps ----------

  predicate AllUnobstructed(store: Store, owner: string, steps: seq<Step>) {
    forall s | s in steps && s.Apply? :: Unobstructed(store, owner, s.desired)
  }

  /**
   * Whatever fails wherever: the store stays valid, no object disappears, objects outside the
   * list are untouched, no obstacle appears, and no conforming object stops conforming.
   */
  ghost predicate Preserved(d: Body -> Body, store: Store, after: Store, owner: string, steps: seq<Step>) {
    && ValidStore(d, after)
    && store.Keys <= after.Keys
    && (forall id | id in after && !Mentions(steps, id) :: id in store && after[id] == store[id])
    && AllUnobstructed(after, owner, steps)
    && forall s | s in steps && s.Apply? && Conforms(d, store, owner, s.desired) ::
         Conforms(d, after, owner, s.desired) && after[s.desired.id] == store[s.desired.id]
  }

  predicate Mentions(steps: seq<Step>, id: Id) { exists s :: s in steps && s.Apply? && s.desired.id == id }

  lemma StepPreserves(d: Body -> Body, store: Store, owner: string, steps: seq<Step>, s: Step, c: Call)
    requires OnlyDefaults(d) && ValidStore(d, store) && ValidSteps(steps) && DistinctIds(steps) && ValidCall(c)
    requires AllUnobstructed(store, owner, steps) && s in steps
    ensures Preserved(d, store, StepOne(d, store, owner, s, c).0, owner, steps)
    ensures StepOne(d, store, owner, s, c).1 && s.Apply? && s.fatal ==>
              Conforms(d, StepOne(d, store, owner, s, c).0, owner, s.desired)
    ensures Succeeds(c) && s.Apply? ==>
              StepOne(d, store, owner, s, c).1 && Conforms(d, StepOne(d, store, owner, s, c).0, owner, s.desired)
  {
    if s.Apply? {
      var after := ReconcileOne(d, store, owner, s.desired, c).0;
      OneStep(d, store, owner, s.desired, c);
      if ReconcileOne(d, store, owner, s.desired, c).1 {
        SuccessConforms(d, store, owner, s.desired, c);
      }
      if Conforms(d, store, owner, s.desired) {
        ConformingIsFixpoint(d, store, owner, s.desired, c);
      }
      assert Mentions(steps, s.desired.id);
      forall e | e in steps && e.Apply? && e != s
        ensures e.desired.id != s.desired.id
      {
        var i :| 0 <= i < |steps| && steps[i] == e;
        var j :| 0 <= j < |steps| && steps[j] == s;
        assert i != j;
      }
    }
  }

  lemma {:induction false} PrefixRun(d: Body -> Body, store: Store, owner: string, steps: seq<Step>, calls: seq<Call>, n: nat)
    requires OnlyDefaults(d) && ValidStore(d, store) && ValidSteps(steps) && DistinctIds(steps)
    requires |steps| == |calls| && ValidCalls(calls) && AllUnobstructed(store, owner, steps) && n <= |steps|
    ensures var (after, ok) := Run(d, store, owner, steps[..n], calls[..n]);
            && Preserved(d, store, after, owner, steps)
            && (ok ==> forall i | 0 <= i < n && steps[i].Apply? && steps[i].fatal ::
                         Conforms(d, after, owner, steps[i].desired))
            && (FailureFree(calls) && ChecksPass(steps) ==>
                  ok && forall i | 0 <= i < n && steps[i].Apply? :: Conforms(d, after, owner, steps[i].desired))
  {
    if n > 0 {
      PrefixRun(d, store, owner, steps, calls, n - 1);
      assert steps[..n][..n - 1] == steps[..n - 1] && calls[..n][..n - 1] == calls[..n - 1];
      var (mid, ok) := Run(d, store, owner, steps[..n - 1], calls[..n - 1]);
      assert steps[n - 1] in steps && calls[n - 1] in calls;
      StepPreserves(d, mid, owner, steps, steps[n - 1], calls[n - 1]);
    }
  }

  /**
   * One run from any unobstructed store. Aborted anywhere, it never turns a conforming object
   * non-conforming; reaching its end, every object whose errors are fatal conforms; without a
   * failing call every object of the list conforms.
   */
  lemma Convergence(d: Body -> Body, store: Store, owner: string, steps: seq<Step>, calls: seq<Call>)
    requires OnlyDefaults(d) && ValidStore(d, store) && ValidSteps(steps) && DistinctIds(steps)
    requires |steps| == |calls| && ValidCalls(calls) && AllUnobstructed(store, owner, steps)
    ensures var (after, ok) := Run(d, store, owner, steps, calls);
            && Preserved(d, store, after, owner, steps)
            && (ok ==> forall s | s in steps && s.Apply? && s.fatal :: Conforms(d, after, owner, s.desired))
            && (FailureFree(calls) && ChecksPass(steps) ==> ok && AllConform(d, after, owner, steps))
  {
    PrefixRun(d, store, owner, steps, calls, |steps|);
    assert steps[..|steps|] == steps && calls[..|steps|] == calls;
    var after := Run(d, store, owner, steps, calls).0;
    forall s | s in steps && s.Apply?
      ensures Run(d, store, owner, steps, calls).1 && s.fatal ==> Conforms(d, after, owner, s.desired)
      ensures FailureFree(calls) && ChecksPass(steps) ==> Conforms(d, after, owner, s.desired)
    {
      var i :| 0 <= i < |steps| && steps[i] == s;
    }
  }

  predicate AllConform(d: Body -> Body, store: Store, owner: string, steps: seq<Step>) {
    forall s | s in steps && s.Apply? :: Conforms(d, store, owner, s.desired)
  }

  /** Once everything conforms, no run for the same list changes the store, however its calls fail. */
  lemma {:induction false} ConvergedIsFixpoint(d: Body -> Body, store: Store, owner: string, steps: seq<Step>, calls: seq<Call>)
    requires OnlyDefaults(d) && ValidStore(d, store) && ValidSteps(steps) && |steps| == |calls|
    requires AllConform(d, store, owner, steps)
    ensures Run(d, store, owner, steps, calls).0 == store
    ensures FailureFree(calls) && ChecksPass(steps) ==> Run(d, store, owner, steps, calls).1
  {
    if steps != [] {
      var n := |steps| - 1;
      ConvergedIsFixpoint(d, store, owner, steps[..n], calls[..n]);
      assert steps[n] in steps;
      if steps[n].Apply? {
        ConformingIsFixpoint(d, store, owner, steps[n].desired, calls[n]);
      }
    }
  }

  /** Any number of runs of one controller with a fixed spec. */
  function History(d: Body -> Body, store: Store, owner: string, steps: seq<Step>, runs: seq<seq<Call>>): Store
    requires forall calls | calls in runs :: |calls| == |steps|
  {
    if runs == [] then store
    else
      var n := |runs| - 1;
      Run(d, History(d, store, owner, steps, runs[..n]), owner, steps, runs[n]).0
  }

  /**
   * Over every history with a fixed spec conformity is never lost, and from the first
   * failure-free run on everything conforms, no matter how the other runs fail.
   */
  lemma {:induction false} EventualConvergence(d: Body -> Body, store: Store, owner: string, steps: seq<Step>, runs: seq<seq<Call>>)
    requires OnlyDefaults(d) && ValidStore(d, store) && ValidSteps(steps) && DistinctIds(steps)
    requires AllUnobstructed(store, owner, steps) && ChecksPass(steps)
    requires forall calls | calls in runs :: |calls| == |steps| && ValidCalls(calls)
    ensures var after := History(d, store, owner, steps, runs);
            && Preserved(d, store, after, owner, steps)
            && ((exists calls :: calls in runs && FailureFree(calls)) ==> AllConform(d, after, owner, steps))
  {
    if runs != [] {
      var n := |runs| - 1;
      EventualConvergence(d, store, owner, steps, runs[..n]);
      assert runs[n] in runs;
      Convergence(d, History(d, store, owner, steps, runs[..n]), owner, steps, runs[n]);
    }
  }

  /** How many objects of the list do not conform. */
  function Missing(d: Body -> Body, store: Store, owner: string, steps: seq<Step>): nat {
    if steps == [] then 0
    else
      var s := steps[|steps| - 1];
      Missing(d, store, owner, steps[..|steps| - 1])
      + if s.Apply? && !Conforms(d, store, owner, s.desired) then 1 else 0
  }

  lemma {:induction false} MissingCounts(d: Body -> Body, store: Store, after: Store, owner: string, steps: seq<Step>)
    requires forall s | s in steps && s.Apply? && Conforms(d, store, owner, s.desired) :: Conforms(d, after, owner, s.desired)
    ensures Missing(d, after, owner, steps) <= Missing(d, store, owner, steps)
    ensures Missing(d, store, owner, steps) == 0 <==> AllConform(d, store, owner, steps)
  {
    if steps != [] {
      var n := |steps| - 1;
      assert forall s | s in steps[..n] :: s in steps;
      assert steps[n] in steps && forall s | s in steps :: s in steps[..n] || s == steps[n];
      MissingCounts(d, store, after, owner, steps[..n]);
    }
  }

  /** The number of non-conforming objects never grows, and is zero after a failure-free run. */
  lemma MissingNeverGrows(d: Body -> Body, store: Store, owner: string, steps: seq<Step>, calls: seq<Call>)
    requires OnlyDefaults(d) && ValidStore(d, store) && ValidSteps(steps) && DistinctIds(steps)
    requires |steps| == |calls| && ValidCalls(calls) && AllUnobstructed(store, owner, steps)
    ensures var after := Run(d, store, owner, steps, calls).0;
            && Missing(d, after, owner, steps) <= Missing(d, store, owner, steps)
            && (FailureFree(calls) && ChecksPass(steps) ==> Missing(d, after, owner, steps) == 0)
  {
    var after := Run(d, store, owner, steps, calls).0;
    Convergence(d, store, owner, steps, calls);
    MissingCounts(d, store, after, owner, steps);
    MissingCounts(d, after, after, owner, steps);
  }

  /** A fatal object owned by another controller blocks the run before everything that follows it. */
  lemma ForeignBlocks(d: Body -> Body, store: Store, owner: string, a: seq<Step>, s: Step, b: seq<Step>, calls: seq<Call>)
    requires |calls| == |a| + 1 + |b| && s.Apply? && s.fatal
    requires var mid := Run(d, store, owner, a, calls[..|a|]).0;
             s.desired.id in mid && Foreign(mid[s.desired.id], owner)
    ensures Run(d, store, owner, a + [s] + b, calls) == (Run(d, store, owner, a, calls[..|a|]).0, false)
  {
    var n := |a|;
    RunAppend(d, store, owner, a, calls[..n], [s], calls[n..n + 1]);
    RunAppend(d, store, owner, a + [s], calls[..n] + calls[n..n + 1], b, calls[n + 1..]);
    assert calls == calls[..n] + calls[n..n + 1] + calls[n + 1..];
    var mid := Run(d, store, owner, a, calls[..n]).0;
    assert [s][..0] == [] && calls[n..n + 1][..0] == [];
    assert Run(d, mid, owner, [], []) == (mid, true);
  }

  // ---------- addresses over any history ----------

  /** A run for one version of a spec; versions may differ from run to run. */
  datatype Edit = Edit(steps: seq<Step>, calls: seq<Call>)

  predicate ValidEdits(edits: seq<Edit>) {
    forall e | e in edits :: |e.steps| == |e.calls| && ValidSteps(e.steps) && ValidCalls(e.calls)
  }

  function Evolve(d: Body -> Body, store: Store, owner: string, edits: seq<Edit>): Store
    requires ValidEdits(edits)
  {
    if edits == [] then store
    else
      var n := |edits| - 1;
      Run(d, Evolve(d, store, owner, edits[..n]), owner, edits[n].steps, edits[n].calls).0
  }

  ghost predicate SameAddress(store: Store, after: Store, id: Id) {
    && id in store && id in after && store[id].body.ServiceSpec? && after[id].body.ServiceSpec?
    && after[id].body.clusterIP == store[id].body.clusterIP
    && after[id].body.clusterIPs == store[id].body.clusterIPs
  }

  lemma {:induction false} RunKeepsAddress(d: Body -> Body, store: Store, owner: string, steps: seq<Step>, calls: seq<Call>, id: Id)
    requires OnlyDefaults(d) && ValidStore(d, store) && ValidSteps(steps) && |steps| == |calls| && ValidCalls(calls)
    requires id in store && id.kind == Service
    ensures var after := Run(d, store, owner, steps, calls).0; ValidStore(d, after) && SameAddress(store, after, id)
  {
    if steps != [] {
      var n := |steps| - 1;
      RunKeepsAddress(d, store, owner, steps[..n], calls[..n], id);
      var mid := Run(d, store, owner, steps[..n], calls[..n]).0;
      assert steps[n] in steps && calls[n] in calls;
      if steps[n].Apply? {
        OneStep(d, mid, owner, steps[n].desired, calls[n]);
        AddressKept(d, mid, owner, steps[n].desired, calls[n], id);
      }
    }
  }

  /** No interleaving of spec edits, runs and failures changes the addresses of an existing Service. */
  lemma {:induction false} AddressStability(d: Body -> Body, store: Store, owner: string, edits: seq<Edit>, id: Id)
    requires OnlyDefaults(d) && ValidStore(d, store) && ValidEdits(edits)
    requires id in store && id.kind == Service
    ensures var after := Evolve(d, store, owner, edits); ValidStore(d, after) && SameAddress(store, after, id)
  {
    if edits != [] {
      var n := |edits| - 1;
      AddressStability(d, store, owner, edits[..n], id);
      assert edits[n] in edits;
      RunKeepsAddress(d, Evolve(d, store, owner, edits[..n]), owner, edits[n].steps, edits[n].calls, id);
    }
  }
}
