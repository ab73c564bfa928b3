/**
 * What a run does to one of its objects: exactly when a run reaches its end, exactly when an
 * object conforms after it, and what is kept when one object of the list varies from run to run.
 */
module Outcomes {
  import opened Options
  import opened ApiServer
  import opened Runs

  // ---------- one object within a run ----------

  lemma {:induction false} RunStaysValid(d: Body -> Body, store: Store, owner: string, steps: seq<Step>, calls: seq<Call>)
    requires OnlyDefaults(d) && ValidStore(d, store) && ValidSteps(steps) && |steps| == |calls| && ValidCalls(calls)
    ensures ValidStore(d, Run(d, store, owner, steps, calls).0)
  {
    if steps != [] {
      var n := |steps| - 1;
      assert steps[n] in steps && calls[n] in calls;
      RunStaysValid(d, store, owner, steps[..n], calls[..n]);
      if steps[n].Apply? {
        OneStep(d, Run(d, store, owner, steps[..n], calls[..n]).0, owner, steps[n].desired, calls[n]);
      }
    }
  }

  /** The object is the same, or absent as before. */
  predicate SameObject(store: Store, after: Store, id: Id) {
    (id in after <==> id in store) && (id in store ==> after[id] == store[id])
  }

  /** A run touches only objects it mentions. */
  lemma {:induction false} RunLeavesAlone(d: Body -> Body, store: Store, owner: string, steps: seq<Step>, calls: seq<Call>, id: Id)
    requires OnlyDefaults(d) && ValidStore(d, store) && ValidSteps(steps) && |steps| == |calls| && ValidCalls(calls)
    requires !Mentions(steps, id)
    ensures SameObject(store, Run(d, store, owner, steps, calls).0, id)
  {
    if steps != [] {
      var n := |steps| - 1;
      assert steps[n] in steps && calls[n] in calls;
      RunStaysValid(d, store, owner, steps[..n], calls[..n]);
      RunLeavesAlone(d, store, owner, steps[..n], calls[..n], id);
      if steps[n].Apply? {
        OneStep(d, Run(d, store, owner, steps[..n], calls[..n]).0, owner, steps[n].desired, calls[n]);
      }
    }
  }

  lemma NotMentionedBefore(steps: seq<Step>, k: nat)
    requires DistinctIds(steps) && k < |steps| && steps[k].Apply?
    ensures !Mentions(steps[..k], steps[k].desired.id) && !Mentions(steps[k + 1..], steps[k].desired.id)
  {
  }

  /** One call, exactly: the object conforms if it did, or if the call read it and its write took effect. */
  lemma CallConformsExactly(d: Body -> Body, store: Store, owner: string, desired: Object, c: Call)
    requires OnlyDefaults(d) && ValidStore(d, store) && ValidDesired(desired) && ValidCall(c)
    requires Unobstructed(store, owner, desired)
    ensures Conforms(d, ReconcileOne(d, store, owner, desired, c).0, owner, desired)
            <==> Conforms(d, store, owner, desired) || (c.readable && !c.write.Rejected?)
  {
    if Conforms(d, store, owner, desired) {
      ConformingIsFixpoint(d, store, owner, desired, c);
    } else if c.readable && !c.write.Rejected? {
      SuccessConforms(d, store, owner, desired, c.(write := Applied));
    }
  }

  /** The store around step `k` of a run that reaches it. */
  lemma AroundStep(d: Body -> Body, store: Store, owner: string, steps: seq<Step>, calls: seq<Call>, k: nat)
    returns (before: Store, after: Store)
    requires OnlyDefaults(d) && ValidStore(d, store) && ValidSteps(steps) && DistinctIds(steps)
    requires |steps| == |calls| && ValidCalls(calls) && k < |steps| && steps[k].Apply?
    requires Run(d, store, owner, steps[..k], calls[..k]).1
    ensures ValidStore(d, before) && SameObject(store, before, steps[k].desired.id)
    ensures after == ReconcileOne(d, before, owner, steps[k].desired, calls[k]).0
    ensures SameObject(after, Run(d, store, owner, steps, calls).0, steps[k].desired.id)
  {
    var a, s, b := steps[..k], steps[k], steps[k + 1..];
    var ca, cs, cb := calls[..k], calls[k], calls[k + 1..];
    assert s in steps && cs in calls;
    NotMentionedBefore(steps, k);
    before := Run(d, store, owner, a, ca).0;
    RunStaysValid(d, store, owner, a, ca);
    RunLeavesAlone(d, store, owner, a, ca, s.desired.id);
    after := ReconcileOne(d, before, owner, s.desired, cs).0;
    OneStep(d, before, owner, s.desired, cs);
    assert steps == a + [s] + b && calls == ca + [cs] + cb;
    RunAppend(d, store, owner, a, ca, [s], [cs]);
    assert [s][..0] == [] && [cs][..0] == [];
    RunAppend(d, store, owner, a + [s], ca + [cs], b, cb);
    RunLeavesAlone(d, after, owner, b, cb, s.desired.id);
  }

  /**
   * Whatever fails in a run that reaches step `k`, fatal or not: its object conforms afterwards
   * exactly if it did before, or if its own call was readable and its write took effect.
   */
  lemma StepConformsExactly(d: Body -> Body, store: Store, owner: string, steps: seq<Step>, calls: seq<Call>, k: nat)
    requires OnlyDefaults(d) && ValidStore(d, store) && ValidSteps(steps) && DistinctIds(steps)
    requires |steps| == |calls| && ValidCalls(calls) && k < |steps| && steps[k].Apply?
    requires Unobstructed(store, owner, steps[k].desired) && Run(d, store, owner, steps[..k], calls[..k]).1
    ensures Conforms(d, Run(d, store, owner, steps, calls).0, owner, steps[k].desired)
            <==> Conforms(d, store, owner, steps[k].desired) || (calls[k].readable && !calls[k].write.Rejected?)
  {
    var before, after := AroundStep(d, store, owner, steps, calls, k);
    assert steps[k] in steps && calls[k] in calls;
    CallConformsExactly(d, before, owner, steps[k].desired, calls[k]);
  }

  // ---------- which runs reach their end ----------

  predicate ForeignIn(store: Store, owner: string, id: Id) { id in store && Foreign(store[id], owner) }

  /** Some fatal object is controlled by somebody else. */
  predicate FatalForeign(store: Store, owner: string, steps: seq<Step>) {
    exists s :: s in steps && s.Apply? && s.fatal && ForeignIn(store, owner, s.desired.id)
  }

  /** A run without failing calls reaches its end exactly when all checks pass and no fatal object is foreign. */
  lemma {:induction false} EndsExactly(d: Body -> Body, store: Store, owner: string, steps: seq<Step>, calls: seq<Call>)
    requires OnlyDefaults(d) && ValidStore(d, store) && ValidSteps(steps) && DistinctIds(steps)
    requires |steps| == |calls| && FailureFree(calls)
    ensures Run(d, store, owner, steps, calls).1 <==> ChecksPass(steps) && !FatalForeign(store, owner, steps)
  {
    if steps != [] {
      var n := |steps| - 1;
      var front, last := steps[..n], steps[n];
      assert forall s | s in front :: s in steps;
      assert last in steps && calls[n] in calls && forall c | c in calls[..n] :: c in calls;
      EndsExactly(d, store, owner, front, calls[..n]);
      assert forall s | s in steps :: s in front || s == last;
      if last.Apply? {
        NotMentionedBefore(steps, n);
        RunLeavesAlone(d, store, owner, front, calls[..n], last.desired.id);
        SucceedsUnlessForeign(d, Run(d, store, owner, front, calls[..n]).0, owner, last.desired, calls[n]);
      }
    }
  }

  /** The outcome of a call depends on its own object alone. */
  lemma SameOutcome(d: Body -> Body, store: Store, before: Store, owner: string, desired: Object, c: Call)
    requires SameObject(store, before, desired.id)
    ensures ReconcileOne(d, before, owner, desired, c).1 == ReconcileOne(d, store, owner, desired, c).1
  {
  }

  /** A step stops the run: a check that fails, or a fatal object whose call, made on the store the run starts from, fails. */
  predicate Stops(d: Body -> Body, store: Store, owner: string, s: Step, c: Call) {
    if s.Check? then !s.ok else s.fatal && !ReconcileOne(d, store, owner, s.desired, c).1
  }

  /** Whatever fails in a run, it reaches its end exactly when no step stops it. */
  lemma {:induction false} SucceedsExactly(d: Body -> Body, store: Store, owner: string, steps: seq<Step>, calls: seq<Call>)
    requires OnlyDefaults(d) && ValidStore(d, store) && ValidSteps(steps) && DistinctIds(steps)
    requires |steps| == |calls| && ValidCalls(calls)
    ensures Run(d, store, owner, steps, calls).1 <==>
            forall i | 0 <= i < |steps| :: !Stops(d, store, owner, steps[i], calls[i])
  {
    if steps != [] {
      var n := |steps| - 1;
      var front, last := steps[..n], steps[n];
      assert forall s | s in front :: s in steps;
      assert last in steps && calls[n] in calls && forall c | c in calls[..n] :: c in calls;
      SucceedsExactly(d, store, owner, front, calls[..n]);
      assert forall i | 0 <= i < n :: front[i] == steps[i] && calls[..n][i] == calls[i];
      if last.Apply? {
        NotMentionedBefore(steps, n);
        RunLeavesAlone(d, store, owner, front, calls[..n], last.desired.id);
        SameOutcome(d, store, Run(d, store, owner, front, calls[..n]).0, owner, last.desired, calls[n]);
      }
    }
  }

  /** A run that touches the object of step `k` has established every fatal object in front of it, and leaves it so. */
  lemma EarlierEstablished(d: Body -> Body, store: Store, owner: string, steps: seq<Step>, calls: seq<Call>, i: nat, k: nat)
    requires OnlyDefaults(d) && ValidStore(d, store) && ValidSteps(steps) && DistinctIds(steps)
    requires |steps| == |calls| && ValidCalls(calls) && AllUnobstructed(store, owner, steps)
    requires i < k < |steps| && steps[k].Apply? && steps[i].Apply? && steps[i].fatal
    requires !SameObject(store, Run(d, store, owner, steps, calls).0, steps[k].desired.id)
    ensures Conforms(d, Run(d, store, owner, steps, calls).0, owner, steps[i].desired)
  {
    NotMentionedBefore(steps, k);
    assert forall s | s in steps[..k] :: s in steps;
    assert forall c | c in calls[..k] :: c in calls;
    if !Run(d, store, owner, steps[..k], calls[..k]).1 {
      AbortedBefore(d, store, owner, steps, calls, k);
      RunLeavesAlone(d, store, owner, steps[..k], calls[..k], steps[k].desired.id);
    } else {
      ReachedEstablishes(d, store, owner, steps, calls, i, k);
    }
  }

  lemma ReachedEstablishes(d: Body -> Body, store: Store, owner: string, steps: seq<Step>, calls: seq<Call>, i: nat, k: nat)
    requires OnlyDefaults(d) && ValidStore(d, store) && ValidSteps(steps) && DistinctIds(steps)
    requires |steps| == |calls| && ValidCalls(calls) && AllUnobstructed(store, owner, steps)
    requires i < k <= |steps| && steps[i].Apply? && steps[i].fatal && Run(d, store, owner, steps[..k], calls[..k]).1
    ensures Conforms(d, Run(d, store, owner, steps, calls).0, owner, steps[i].desired)
  {
    assert steps == steps[..k] + steps[k..] && calls == calls[..k] + calls[k..];
    assert forall c | c in calls[..k] :: c in calls;
    PrefixValid(store, owner, steps, k);
    Convergence(d, store, owner, steps[..k], calls[..k]);
    assert steps[..k][i] in steps[..k];
    RunStaysValid(d, store, owner, steps[..k], calls[..k]);
    RunAppend(d, store, owner, steps[..k], calls[..k], steps[k..], calls[k..]);
    LaterLeaveAlone(d, Run(d, store, owner, steps[..k], calls[..k]).0, owner, steps, calls, i, k);
  }

  lemma PrefixValid(store: Store, owner: string, steps: seq<Step>, k: nat)
    requires ValidSteps(steps) && DistinctIds(steps) && AllUnobstructed(store, owner, steps) && k <= |steps|
    ensures ValidSteps(steps[..k]) && DistinctIds(steps[..k]) && AllUnobstructed(store, owner, steps[..k])
  {
    assert forall s | s in steps[..k] :: s in steps;
  }

  lemma LaterLeaveAlone(d: Body -> Body, mid: Store, owner: string, steps: seq<Step>, calls: seq<Call>, i: nat, k: nat)
    requires OnlyDefaults(d) && ValidStore(d, mid) && ValidSteps(steps) && DistinctIds(steps)
    requires |steps| == |calls| && ValidCalls(calls) && i < k <= |steps| && steps[i].Apply?
    ensures SameObject(mid, Run(d, mid, owner, steps[k..], calls[k..]).0, steps[i].desired.id)
  {
    assert forall s | s in steps[k..] :: s in steps;
    assert forall c | c in calls[k..] :: c in calls;
    forall s | s in steps[k..] && s.Apply? ensures s.desired.id != steps[i].desired.id {
      var j :| 0 <= j < |steps[k..]| && steps[k..][j] == s;
      assert steps[k + j] == s;
    }
    RunLeavesAlone(d, mid, owner, steps[k..], calls[k..], steps[i].desired.id);
  }

  /** A foreign fatal object ends every run, whatever else fails. */
  lemma {:induction false} ForeignNeverEnds(d: Body -> Body, store: Store, owner: string, steps: seq<Step>, calls: seq<Call>)
    requires OnlyDefaults(d) && ValidStore(d, store) && ValidSteps(steps) && DistinctIds(steps)
    requires |steps| == |calls| && ValidCalls(calls) && FatalForeign(store, owner, steps)
    ensures !Run(d, store, owner, steps, calls).1
  {
    var n := |steps| - 1;
    var front, last := steps[..n], steps[n];
    assert forall s | s in front :: s in steps;
    assert last in steps && forall c | c in calls[..n] :: c in calls;
    if FatalForeign(store, owner, front) {
      ForeignNeverEnds(d, store, owner, front, calls[..n]);
    } else {
      assert forall s | s in steps :: s in front || s == last;
      NotMentionedBefore(steps, n);
      RunLeavesAlone(d, store, owner, front, calls[..n], last.desired.id);
    }
  }

  // ---------- edits of the spec ----------

  /** A call neither takes an object from another controller nor gives one away. */
  lemma CallKeepsForeign(d: Body -> Body, store: Store, owner: string, desired: Object, c: Call, id: Id)
    requires OnlyDefaults(d) && ValidStore(d, store) && ValidDesired(desired) && ValidCall(c)
    ensures ForeignIn(ReconcileOne(d, store, owner, desired, c).0, owner, id) <==> ForeignIn(store, owner, id)
  {
  }

  lemma {:induction false} RunKeepsForeign(d: Body -> Body, store: Store, owner: string, steps: seq<Step>, calls: seq<Call>, id: Id)
    requires OnlyDefaults(d) && ValidStore(d, store) && ValidSteps(steps) && |steps| == |calls| && ValidCalls(calls)
    ensures ForeignIn(Run(d, store, owner, steps, calls).0, owner, id) <==> ForeignIn(store, owner, id)
  {
    if steps != [] {
      var n := |steps| - 1;
      assert steps[n] in steps && calls[n] in calls;
      RunKeepsForeign(d, store, owner, steps[..n], calls[..n], id);
      RunStaysValid(d, store, owner, steps[..n], calls[..n]);
      if steps[n].Apply? {
        CallKeepsForeign(d, Run(d, store, owner, steps[..n], calls[..n]).0, owner, steps[n].desired, calls[n], id);
      }
    }
  }

  lemma {:induction false} EditsKeepForeign(d: Body -> Body, store: Store, owner: string, edits: seq<Edit>, id: Id)
    requires OnlyDefaults(d) && ValidStore(d, store) && ValidEdits(edits)
    ensures var after := Evolve(d, store, owner, edits);
            ValidStore(d, after) && (ForeignIn(after, owner, id) <==> ForeignIn(store, owner, id))
  {
    if edits != [] {
      var n := |edits| - 1;
      assert edits[n] in edits;
      EditsKeepForeign(d, store, owner, edits[..n], id);
      RunStaysValid(d, Evolve(d, store, owner, edits[..n]), owner, edits[n].steps, edits[n].calls);
      RunKeepsForeign(d, Evolve(d, store, owner, edits[..n]), owner, edits[n].steps, edits[n].calls, id);
    }
  }

  /** The desired Service at the addresses an existing one has. */
  function AtAddressOf(desired: Body, live: Body): Body
    requires desired.ServiceSpec? && live.ServiceSpec?
  {
    desired.(clusterIP := live.clusterIP, clusterIPs := live.clusterIPs)
  }

  /** Whether a Service with fixed addresses can conform is decided by its owner and its address. */
  lemma ServiceConformsExactly(d: Body -> Body, before: Store, mid: Store, after: Store, owner: string, desired: Object,
                               c: Call)
    requires OnlyDefaults(d) && ValidStore(d, mid) && ValidDesired(desired) && ValidCall(c)
    requires desired.id.kind == Service && c.readable && !c.write.Rejected?
    requires SameAddress(before, mid, desired.id) && SameAddress(before, after, desired.id)
    requires ForeignIn(mid, owner, desired.id) <==> ForeignIn(before, owner, desired.id)
    requires after == ReconcileOne(d, mid, owner, desired, c).0
    ensures Conforms(d, after, owner, desired) <==> Unobstructed(before, owner, desired)
  {
    CallKeepsForeign(d, mid, owner, desired, c, desired.id);
    if Unobstructed(before, owner, desired) {
      CallConformsExactly(d, mid, owner, desired, c);
    }
  }

  /**
   * After any history of edits whose last run is free of failures and reaches the Service, an
   * existing Service conforms to the last spec exactly if nothing stood in its way from the start; its
   * labels, selector and ports are then those of the last spec, at the addresses it always had.
   */
  lemma ServiceFollowsLastSpec(d: Body -> Body, store: Store, owner: string, edits: seq<Edit>, k: nat)
    requires OnlyDefaults(d) && ValidStore(d, store) && ValidEdits(edits) && edits != []
    requires var e := edits[|edits| - 1];
             && DistinctIds(e.steps) && FailureFree(e.calls) && k < |e.steps| && e.steps[k].Apply?
             && ChecksPass(e.steps[..k]) && !FatalForeign(store, owner, e.steps[..k])
             && e.steps[k].desired.id.kind == Service && e.steps[k].desired.id in store
    ensures var desired, after := edits[|edits| - 1].steps[k].desired, Evolve(d, store, owner, edits);
            && SameAddress(store, after, desired.id)
            && (Conforms(d, after, owner, desired) <==> Unobstructed(store, owner, desired))
            && (Unobstructed(store, owner, desired) ==>
                  && after[desired.id].labels == desired.labels
                  && desired.body.ServiceSpec?
                  && after[desired.id].body == d(AtAddressOf(desired.body, store[desired.id].body)))
  {
    var n, e := |edits| - 1, edits[|edits| - 1];
    assert e in edits && e.steps[k] in e.steps && e.calls[k] in e.calls;
    var mid, desired := Evolve(d, store, owner, edits[..n]), e.steps[k].desired;
    AddressStability(d, store, owner, edits[..n], desired.id);
    AddressStability(d, store, owner, edits, desired.id);
    EditsKeepForeign(d, store, owner, edits[..n], desired.id);
    ReachedByLastRun(d, store, mid, owner, edits, k);
    var before, after := AroundStep(d, mid, owner, e.steps, e.calls, k);
    AddressKept(d, before, owner, desired, e.calls[k], desired.id);
    ServiceConformsExactly(d, store, before, after, owner, desired, e.calls[k]);
  }

  lemma ReachedByLastRun(d: Body -> Body, store: Store, mid: Store, owner: string, edits: seq<Edit>, k: nat)
    requires OnlyDefaults(d) && ValidStore(d, store) && ValidEdits(edits) && edits != []
    requires mid == Evolve(d, store, owner, edits[..|edits| - 1])
    requires var e := edits[|edits| - 1];
             && DistinctIds(e.steps) && FailureFree(e.calls) && k <= |e.steps|
             && ChecksPass(e.steps[..k]) && !FatalForeign(store, owner, e.steps[..k])
    ensures ValidStore(d, mid)
    ensures var e := edits[|edits| - 1]; Run(d, mid, owner, e.steps[..k], e.calls[..k]).1
  {
    var n, e := |edits| - 1, edits[|edits| - 1];
    assert e in edits;
    EditsKeepForeign(d, store, owner, edits[..n], Id(Service, "", ""));
    forall s | s in e.steps[..k] && s.Apply?
      ensures ForeignIn(mid, owner, s.desired.id) <==> ForeignIn(store, owner, s.desired.id)
    {
      EditsKeepForeign(d, store, owner, edits[..n], s.desired.id);
    }
    assert forall s | s in e.steps[..k] :: s in e.steps;
    assert forall c | c in e.calls[..k] :: c in e.calls;
    EndsExactly(d, mid, owner, e.steps[..k], e.calls[..k]);
  }

  // ---------- one object of the list varies from run to run ----------

  /** The same list, except that the object `id` may have another body. */
  predicate Variant(steps: seq<Step>, other: seq<Step>, id: Id) {
    && |steps| == |other|
    && forall i | 0 <= i < |steps| && other[i] != steps[i] ::
         && steps[i].Apply? && other[i].Apply? && steps[i].desired.id == id == other[i].desired.id
         && !steps[i].desired.body.ServiceSpec? && !other[i].desired.body.ServiceSpec?
  }

  predicate Variants(steps: seq<Step>, edits: seq<Edit>, id: Id) {
    forall e | e in edits :: Variant(steps, e.steps, id)
  }

  lemma VariantKeeps(store: Store, owner: string, steps: seq<Step>, other: seq<Step>, id: Id)
    requires Variant(steps, other, id)
    ensures DistinctIds(steps) ==> DistinctIds(other)
    ensures ChecksPass(steps) ==> ChecksPass(other)
    ensures AllUnobstructed(store, owner, steps) <==> AllUnobstructed(store, owner, other)
  {
    forall i | 0 <= i < |steps| && steps[i].Apply?
      ensures other[i].Apply? && other[i].desired.id == steps[i].desired.id
      ensures Unobstructed(store, owner, steps[i].desired) <==> Unobstructed(store, owner, other[i].desired)
    {
    }
    if DistinctIds(steps) {
      forall i, j | 0 <= i < j < |other| && other[i].Apply? && other[j].Apply?
        ensures other[i].desired.id != other[j].desired.id
      {
        assert steps[i].Apply? && steps[j].Apply?;
      }
    }
    if ChecksPass(steps) {
      forall s | s in other && s.Check? ensures s.ok {
        var i :| 0 <= i < |other| && other[i] == s;
        assert steps[i] in steps;
      }
    }
    UnobstructedAt(store, owner, steps);
    UnobstructedAt(store, owner, other);
  }

  lemma UnobstructedAt(store: Store, owner: string, steps: seq<Step>)
    ensures AllUnobstructed(store, owner, steps)
            <==> forall i | 0 <= i < |steps| && steps[i].Apply? :: Unobstructed(store, owner, steps[i].desired)
  {
    forall s | s in steps && s.Apply?
      ensures exists i :: 0 <= i < |steps| && steps[i] == s
    {
    }
  }

  /** One of the variants of the object conforms. */
  ghost predicate SomeVariantConforms(d: Body -> Body, store: Store, owner: string, edits: seq<Edit>, id: Id) {
    exists e, s :: e in edits && s in e.steps && s.Apply? && s.desired.id == id && Conforms(d, store, owner, s.desired)
  }

  /** The object is as it was before all runs, or carries one of the variants. */
  ghost predicate CarriesVariant(d: Body -> Body, store: Store, after: Store, owner: string, edits: seq<Edit>, id: Id) {
    SameObject(store, after, id) || SomeVariantConforms(d, after, owner, edits, id)
  }

  /** One run leaves the object alone or makes its own variant conform, and the latter if no call fails. */
  lemma RunCarriesVariant(d: Body -> Body, store: Store, owner: string, e: Edit, k: nat)
    requires OnlyDefaults(d) && ValidStore(d, store) && ValidSteps(e.steps) && DistinctIds(e.steps)
    requires |e.steps| == |e.calls| && ValidCalls(e.calls) && AllUnobstructed(store, owner, e.steps)
    requires k < |e.steps| && e.steps[k].Apply?
    ensures var after := Run(d, store, owner, e.steps, e.calls).0;
            && (SameObject(store, after, e.steps[k].desired.id) || Conforms(d, after, owner, e.steps[k].desired))
            && (FailureFree(e.calls) && ChecksPass(e.steps) ==> Conforms(d, after, owner, e.steps[k].desired))
  {
    var s := e.steps[k];
    assert s in e.steps && e.calls[k] in e.calls;
    Convergence(d, store, owner, e.steps, e.calls);
    if Run(d, store, owner, e.steps[..k], e.calls[..k]).1 {
      var before, after := AroundStep(d, store, owner, e.steps, e.calls, k);
      if e.calls[k].readable && !e.calls[k].write.Rejected? {
        CallConformsExactly(d, before, owner, s.desired, e.calls[k]);
      } else {
        assert after == before;
      }
    } else {
      AbortedBefore(d, store, owner, e.steps, e.calls, k);
      NotMentionedBefore(e.steps, k);
      RunLeavesAlone(d, store, owner, e.steps[..k], e.calls[..k], s.desired.id);
    }
  }

  lemma AbortedBefore(d: Body -> Body, store: Store, owner: string, steps: seq<Step>, calls: seq<Call>, k: nat)
    requires |steps| == |calls| && k <= |steps| && !Run(d, store, owner, steps[..k], calls[..k]).1
    ensures Run(d, store, owner, steps, calls) == Run(d, store, owner, steps[..k], calls[..k])
  {
    assert steps == steps[..k] + steps[k..] && calls == calls[..k] + calls[k..];
    RunAppend(d, store, owner, steps[..k], calls[..k], steps[k..], calls[k..]);
  }

  ghost predicate SomeFailureFree(edits: seq<Edit>) { exists e :: e in edits && FailureFree(e.calls) }

  /** What a history of variants keeps of the objects that do not vary. */
  ghost predicate FixedPart(d: Body -> Body, store: Store, after: Store, owner: string, steps: seq<Step>, id: Id, converged: bool) {
    && ValidStore(d, after) && AllUnobstructed(after, owner, steps)
    && forall s | s in steps && s.Apply? && s.desired.id != id ::
         && (Conforms(d, store, owner, s.desired) ==>
               Conforms(d, after, owner, s.desired) && after[s.desired.id] == store[s.desired.id])
         && (converged ==> Conforms(d, after, owner, s.desired))
  }

  lemma FixedPartStep(d: Body -> Body, store: Store, mid: Store, owner: string, steps: seq<Step>, id: Id, converged: bool, e: Edit)
    requires OnlyDefaults(d) && FixedPart(d, store, mid, owner, steps, id, converged)
    requires DistinctIds(steps) && ChecksPass(steps) && Variant(steps, e.steps, id)
    requires ValidSteps(e.steps) && |e.steps| == |e.calls| && ValidCalls(e.calls)
    ensures FixedPart(d, store, Run(d, mid, owner, e.steps, e.calls).0, owner, steps, id, converged || FailureFree(e.calls))
  {
    VariantKeeps(mid, owner, steps, e.steps, id);
    Convergence(d, mid, owner, e.steps, e.calls);
    VariantKeeps(Run(d, mid, owner, e.steps, e.calls).0, owner, steps, e.steps, id);
    forall s | s in steps && s.Apply? && s.desired.id != id ensures s in e.steps {
      var i :| 0 <= i < |steps| && steps[i] == s;
      assert e.steps[i] == s;
    }
  }

  /**
   * A history of runs whose lists differ in the body of one object, failing anywhere: every other
   * object converges for good; the varying one is untouched or carries one of its variants, and
   * carries one from the first failure-free run on.
   */
  lemma {:induction false} VariantsConverge(d: Body -> Body, store: Store, owner: string, steps: seq<Step>, k: nat, edits: seq<Edit>)
    requires OnlyDefaults(d) && ValidStore(d, store) && ValidEdits(edits) && DistinctIds(steps) && ChecksPass(steps)
    requires AllUnobstructed(store, owner, steps) && k < |steps| && steps[k].Apply?
    requires Variants(steps, edits, steps[k].desired.id)
    ensures var after, id := Evolve(d, store, owner, edits), steps[k].desired.id;
            && FixedPart(d, store, after, owner, steps, id, SomeFailureFree(edits))
            && CarriesVariant(d, store, after, owner, edits, id)
            && (SomeFailureFree(edits) ==> SomeVariantConforms(d, after, owner, edits, id))
  {
    var id := steps[k].desired.id;
    if edits != [] {
      var n := |edits| - 1;
      var e := edits[n];
      assert e in edits && forall x | x in edits[..n] :: x in edits;
      VariantsConverge(d, store, owner, steps, k, edits[..n]);
      var mid := Evolve(d, store, owner, edits[..n]);
      FixedPartStep(d, store, mid, owner, steps, id, SomeFailureFree(edits[..n]), e);
      assert SomeFailureFree(edits) <==> SomeFailureFree(edits[..n]) || FailureFree(e.calls);
      VariantKeeps(mid, owner, steps, e.steps, id);
      RunCarriesVariant(d, mid, owner, e, k);
      VariantStep(d, store, mid, owner, edits, k, id);
    }
  }

  lemma VariantStep(d: Body -> Body, store: Store, mid: Store, owner: string, edits: seq<Edit>, k: nat, id: Id)
    requires edits != [] && ValidEdits(edits)
    requires var e := edits[|edits| - 1]; k < |e.steps| && e.steps[k].Apply? && e.steps[k].desired.id == id
    requires CarriesVariant(d, store, mid, owner, edits[..|edits| - 1], id)
    requires var e := edits[|edits| - 1];
             var after := Run(d, mid, owner, e.steps, e.calls).0;
             SameObject(mid, after, id) || Conforms(d, after, owner, e.steps[k].desired)
    ensures var e := edits[|edits| - 1];
            var after := Run(d, mid, owner, e.steps, e.calls).0;
            && CarriesVariant(d, store, after, owner, edits, id)
            && (SomeVariantConforms(d, mid, owner, edits[..|edits| - 1], id) || Conforms(d, after, owner, e.steps[k].desired) ==>
                  SomeVariantConforms(d, after, owner, edits, id))
  {
    var n := |edits| - 1;
    var e := edits[n];
    var after := Run(d, mid, owner, e.steps, e.calls).0;
    assert e in edits && e.steps[k] in e.steps;
    if Conforms(d, after, owner, e.steps[k].desired) {
      assert SomeVariantConforms(d, after, owner, edits, id);
    } else if SomeVariantConforms(d, mid, owner, edits[..n], id) {
      var f, s :| f in edits[..n] && s in f.steps && s.Apply? && s.desired.id == id && Conforms(d, mid, owner, s.desired);
      assert Conforms(d, after, owner, s.desired) && f in edits;
    }
  }
}
