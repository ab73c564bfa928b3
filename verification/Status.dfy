/**
 * The status of a server resource over its whole life: every reconcile reads the stored status,
 * changes a copy, and may or may not get to write it back.
 */
module Status {
  import opened Options
  import opened Strings
  import opened Conditions

  const READY := "Ready"
  const CONFIG_VALID := "ConfigurationValid"
  const PROGRESSING := "Progressing"

  const PHASE_RUNNING := "Running"
  const PHASE_PROGRESSING := "Progressing"
  const PHASE_ERROR := "Error"

  /** What a reconcile reports besides readiness; a Stork server leaves hash, ConfigMap and addresses empty. */
  datatype Report = Report(observedGeneration: int, configHash: string, configMapRef: string, nadAddresses: seq<string>)

  datatype Status = Status(phase: string, readyReplicas: nat, report: Report, conditions: seq<Condition>)

  /** A resource that has never been reconciled. */
  const EMPTY := Status("", 0, Report(0, "", "", []), [])

  /** Clock readings of the setCondition calls of one reconcile. */
  datatype Clock = Clock(config: string, ready: string, progressing: string)

  /**
   * How a reconcile ends, with all it learns from the cluster. `written` says whether the API
   * server applied the status write, whatever it told the client.
   */
  datatype Outcome =
    | Aborted
    | RenderFailed(message: string, now: Clock, written: bool)
    | Finished(report: Report, readyReplicas: nat, replicas: nat, now: Clock, written: bool)

  predicate AllReady(o: Outcome)
    requires o.Finished?
  {
    o.readyReplicas > 0 && o.readyReplicas == o.replicas
  }

  /** The setCondition calls of a reconcile; a Stork server has no configuration to render. */
  function Updates(rendered: bool, o: Outcome): seq<Update> {
    match o
    case Aborted => []
    case RenderFailed(message, now, _) => [Update(CONFIG_VALID, "False", "RenderError", message, now.config)]
    case Finished(_, readyReplicas, replicas, now, _) =>
      (if rendered then
         [Update(CONFIG_VALID, "True", "ConfigRendered", "Configuration rendered successfully", now.config)]
       else [])
      + if AllReady(o) then
          [Update(READY, "True", "DeploymentReady", "All replicas are ready", now.ready),
           Update(PROGRESSING, "False", "DeploymentComplete", "Deployment is complete", now.progressing)]
        else
          [Update(READY, "False", "DeploymentProgressing",
                  Decimal(readyReplicas) + "/" + Decimal(replicas) + " replicas ready", now.ready),
           Update(PROGRESSING, "True", "DeploymentProgressing", "Waiting for replicas", now.progressing)]
  }

  predicate Written(o: Outcome) { !o.Aborted? && o.written }

  /** The stored status after a reconcile. */
  function Step(rendered: bool, s: Status, o: Outcome): Status {
    if !Written(o) then s
    else
      var conditions := Replay(s.conditions, Updates(rendered, o));
      match o
      case RenderFailed(_, _, _) => s.(phase := PHASE_ERROR, conditions := conditions)
      case Finished(report, readyReplicas, _, _, _) =>
        Status(if AllReady(o) then PHASE_RUNNING else PHASE_PROGRESSING, readyReplicas, report, conditions)
  }

  // ---------- the code ----------

  /** The resource in memory during one reconcile. */
  class Server {
    var phase: string
    var readyReplicas: nat
    var configHash: string
    var configMapRef: string
    var observedGeneration: int
    var nadAddresses: seq<string>
    const list: ConditionList

    constructor (s: Status)
      ensures fresh(list) && Value() == s
    {
      phase := s.phase;
      readyReplicas := s.readyReplicas;
      configHash := s.report.configHash;
      configMapRef := s.report.configMapRef;
      observedGeneration := s.report.observedGeneration;
      nadAddresses := s.report.nadAddresses;
      list := new ConditionList(s.conditions);
    }

    function Value(): Status
      reads this, list
    {
      Status(phase, readyReplicas, Report(observedGeneration, configHash, configMapRef, nadAddresses), list.conditions)
    }

    /** The last part of every reconcile: counts, phase and conditions from the ready replicas. */
    method UpdateStatus(report: Report, ready: nat, replicas: nat, now: Clock)
      modifies this, list
      ensures var o := Finished(report, ready, replicas, now, true);
              Value() == Status(if AllReady(o) then PHASE_RUNNING else PHASE_PROGRESSING, ready, report,
                                Replay(old(list.conditions), Updates(false, o)))
    {
      readyReplicas := ready;
      configHash := report.configHash;
      configMapRef := report.configMapRef;
      observedGeneration := report.observedGeneration;
      nadAddresses := report.nadAddresses;
      ghost var us := Updates(false, Finished(report, ready, replicas, now, true));
      TwoCalls(list.conditions, us[0], us[1]);
      if ready > 0 && ready == replicas {
        phase := PHASE_RUNNING;
        list.Set(READY, "True", "DeploymentReady", "All replicas are ready", now.ready);
        list.Set(PROGRESSING, "False", "DeploymentComplete", "Deployment is complete", now.progressing);
      } else {
        phase := PHASE_PROGRESSING;
        list.Set(READY, "False", "DeploymentProgressing",
                 Decimal(ready) + "/" + Decimal(replicas) + " replicas ready", now.ready);
        list.Set(PROGRESSING, "True", "DeploymentProgressing", "Waiting for replicas", now.progressing);
      }
    }
  }

  lemma TwoCalls(cs: seq<Condition>, a: Update, b: Update)
    ensures Replay(cs, [a]) == SetCondition(cs, a)
    ensures Replay(cs, [a, b]) == SetCondition(SetCondition(cs, a), b)
  {
    assert [a][..0] == [] && [a, b][..1] == [a];
  }

  /** The stored resource; the status is written with optimistic locking, so a write never hits another version. */
  class Stored {
    var status: Status

    constructor ()
      ensures status == EMPTY
    {
      status := EMPTY;
    }

    method Reconcile(rendered: bool, o: Outcome)
      requires o.RenderFailed? ==> rendered
      modifies this
      ensures status == Step(rendered, old(status), o)
    {
      var server := new Server(status);
      ghost var before := status.conditions;
      match o {
        case Aborted =>
        case RenderFailed(message, now, written) =>
          TwoCalls(before, Updates(rendered, o)[0], Updates(rendered, o)[0]);
          server.list.Set(CONFIG_VALID, "False", "RenderError", message, now.config);
          server.phase := PHASE_ERROR;
          if written {
            status := server.Value();
          }
        case Finished(report, readyReplicas, replicas, now, written) =>
          UpdatesSplit(before, rendered, o);
          if rendered {
            server.list.Set(CONFIG_VALID, "True", "ConfigRendered", "Configuration rendered successfully", now.config);
          }
          server.UpdateStatus(report, readyReplicas, replicas, now);
          if written {
            status := server.Value();
          }
      }
    }
  }

  lemma {:induction false} ReplayAppend(cs: seq<Condition>, a: seq<Update>, b: seq<Update>)
    ensures Replay(cs, a + b) == Replay(Replay(cs, a), b)
  {
    if b == [] {
      assert a + b == a;
    } else {
      assert (a + b)[..|a + b| - 1] == a + b[..|b| - 1];
      ReplayAppend(cs, a, b[..|b| - 1]);
    }
  }

  lemma UpdatesSplit(cs: seq<Condition>, rendered: bool, o: Outcome)
    requires o.Finished?
    ensures var valid := Update(CONFIG_VALID, "True", "ConfigRendered", "Configuration rendered successfully", o.now.config);
            Replay(cs, Updates(rendered, o)) ==
            Replay(if rendered then SetCondition(cs, valid) else cs, Updates(false, o))
    ensures Updates(false, o) == Updates(false, Finished(o.report, o.readyReplicas, o.replicas, o.now, true))
  {
    var valid := Update(CONFIG_VALID, "True", "ConfigRendered", "Configuration rendered successfully", o.now.config);
    if rendered {
      assert Updates(true, o) == [valid] + Updates(false, o);
      ReplayAppend(cs, [valid], Updates(false, o));
      TwoCalls(cs, valid, valid);
    }
  }

  // ---------- safety over every life ----------

  function Life(rendered: bool, outcomes: seq<Outcome>): Status {
    if outcomes == [] then EMPTY
    else Step(rendered, Life(rendered, outcomes[..|outcomes| - 1]), outcomes[|outcomes| - 1])
  }

  /** The status a condition type has in the list. */
  predicate Says(s: Status, kind: string, status: string) {
    Find(s.conditions, kind).Some? && Find(s.conditions, kind).value.status == status
  }

  /** What can be told from a stored status. */
  predicate Safe(rendered: bool, s: Status) {
    && UniqueTypes(s.conditions)
    && s.phase in ["", PHASE_RUNNING, PHASE_PROGRESSING, PHASE_ERROR]
    && (s.phase == PHASE_RUNNING ==>
          Says(s, READY, "True") && Says(s, PROGRESSING, "False") && s.readyReplicas > 0)
    && (s.phase == PHASE_PROGRESSING ==> Says(s, READY, "False") && Says(s, PROGRESSING, "True"))
    && (rendered && s.phase in [PHASE_RUNNING, PHASE_PROGRESSING] ==> Says(s, CONFIG_VALID, "True"))
    && (s.phase == PHASE_ERROR <==> Says(s, CONFIG_VALID, "False"))
    && (!rendered ==> Find(s.conditions, CONFIG_VALID).None?)
    && (s.phase == "" ==> s == EMPTY)
  }

  predicate ValidOutcomes(rendered: bool, outcomes: seq<Outcome>) {
    forall o | o in outcomes && o.RenderFailed? :: rendered
  }

  lemma SetSays(cs: seq<Condition>, u: Update)
    ensures var after := SetCondition(cs, u);
            && (UniqueTypes(cs) ==> UniqueTypes(after))
            && Find(after, u.kind).Some? && Carries(Find(after, u.kind).value, u)
            && forall kind | kind != u.kind :: Find(after, kind) == Find(cs, kind)
  {
    SetRefinesMap(cs, u);
  }

  lemma KindsDiffer()
    ensures READY != CONFIG_VALID && READY != PROGRESSING && CONFIG_VALID != PROGRESSING
    ensures PHASE_RUNNING != PHASE_PROGRESSING && PHASE_RUNNING != PHASE_ERROR && PHASE_PROGRESSING != PHASE_ERROR
    ensures "True" != "False"
  {
    assert READY[0] == 'R' && CONFIG_VALID[0] == 'C' && PROGRESSING[0] == 'P';
    assert PHASE_RUNNING[0] == 'R' && PHASE_PROGRESSING[0] == 'P' && PHASE_ERROR[0] == 'E';
    assert "True"[0] == 'T' && "False"[0] == 'F';
  }

  /** What the Ready condition tells a reader. */
  function ReadyMessage(readyReplicas: nat, replicas: nat): string {
    if readyReplicas > 0 && readyReplicas == replicas then "All replicas are ready"
    else Decimal(readyReplicas) + "/" + Decimal(replicas) + " replicas ready"
  }

  lemma FinishedSays(rendered: bool, s: Status, o: Outcome)
    requires UniqueTypes(s.conditions) && o.Finished? && o.written
    ensures var after := Step(rendered, s, o);
            && UniqueTypes(after.conditions)
            && Says(after, READY, if AllReady(o) then "True" else "False")
            && Find(after.conditions, READY).value.message == ReadyMessage(o.readyReplicas, o.replicas)
            && Says(after, PROGRESSING, if AllReady(o) then "False" else "True")
            && if rendered then Says(after, CONFIG_VALID, "True")
               else Find(after.conditions, CONFIG_VALID) == Find(s.conditions, CONFIG_VALID)
  {
    KindsDiffer();
    UpdatesSplit(s.conditions, rendered, o);
    var valid := Update(CONFIG_VALID, "True", "ConfigRendered", "Configuration rendered successfully", o.now.config);
    SetSays(s.conditions, valid);
    var cs := if rendered then SetCondition(s.conditions, valid) else s.conditions;
    var us := Updates(false, o);
    assert us == [us[0], us[1]] && us[0].kind == READY && us[1].kind == PROGRESSING;
    TwoSay(cs, us[0], us[1]);
  }

  lemma TwoSay(cs: seq<Condition>, a: Update, b: Update)
    requires UniqueTypes(cs) && a.kind != b.kind
    ensures var after := Replay(cs, [a, b]);
            && UniqueTypes(after)
            && Find(after, a.kind).Some? && Carries(Find(after, a.kind).value, a)
            && Find(after, b.kind).Some? && Carries(Find(after, b.kind).value, b)
            && forall kind | kind != a.kind && kind != b.kind :: Find(after, kind) == Find(cs, kind)
  {
    TwoCalls(cs, a, b);
    SetSays(cs, a);
    SetSays(SetCondition(cs, a), b);
  }

  /** A render error changes nothing but phase and ConfigurationValid: Ready keeps its old, possibly true, value. */
  lemma RenderErrorKeepsReady(rendered: bool, s: Status, o: Outcome)
    requires o.RenderFailed? && o.written
    ensures var after := Step(rendered, s, o);
            && (UniqueTypes(s.conditions) ==> UniqueTypes(after.conditions))
            && Says(after, CONFIG_VALID, "False") && after.phase == PHASE_ERROR
            && Find(after.conditions, CONFIG_VALID).value.message == o.message
            && Find(after.conditions, READY) == Find(s.conditions, READY)
            && Find(after.conditions, PROGRESSING) == Find(s.conditions, PROGRESSING)
            && after.readyReplicas == s.readyReplicas && after.report == s.report
  {
    KindsDiffer();
    var u := Updates(rendered, o)[0];
    TwoCalls(s.conditions, u, u);
    SetSays(s.conditions, u);
  }

  lemma StepSafe(rendered: bool, s: Status, o: Outcome)
    requires Safe(rendered, s) && (o.RenderFailed? ==> rendered)
    ensures Safe(rendered, Step(rendered, s, o))
  {
    KindsDiffer();
    if Written(o) {
      if o.Finished? {
        FinishedSays(rendered, s, o);
      } else {
        RenderErrorKeepsReady(rendered, s, o);
      }
    }
  }

  /** Every status that can ever be stored is safe. */
  lemma {:induction false} StatusSafety(rendered: bool, outcomes: seq<Outcome>)
    requires ValidOutcomes(rendered, outcomes)
    ensures Safe(rendered, Life(rendered, outcomes))
  {
    KindsDiffer();
    if outcomes != [] {
      var n := |outcomes| - 1;
      StatusSafety(rendered, outcomes[..n]);
      assert outcomes[n] in outcomes;
      StepSafe(rendered, Life(rendered, outcomes[..n]), outcomes[n]);
    }
  }

  // ---------- what the phase and the conditions report ----------

  /** The last reconcile whose status write was applied. */
  function LastWritten(outcomes: seq<Outcome>): Option<Outcome> {
    if outcomes == [] then None
    else
      var last := outcomes[|outcomes| - 1];
      if Written(last) then Some(last) else LastWritten(outcomes[..|outcomes| - 1])
  }

  /** The phase is decided by the last written reconcile alone. */
  lemma {:induction false} PhaseReports(rendered: bool, outcomes: seq<Outcome>)
    ensures var s, last := Life(rendered, outcomes), LastWritten(outcomes);
            && (s.phase == PHASE_RUNNING <==>
                  && last.Some? && last.value.Finished?
                  && last.value.readyReplicas > 0 && last.value.readyReplicas == last.value.replicas)
            && (s.phase == PHASE_PROGRESSING <==>
                  && last.Some? && last.value.Finished?
                  && (last.value.readyReplicas == 0 || last.value.readyReplicas != last.value.replicas))
            && (s.phase == PHASE_ERROR <==> last.Some? && last.value.RenderFailed?)
            && (last.Some? && last.value.Finished? ==>
                  s.readyReplicas == last.value.readyReplicas && s.report == last.value.report)
  {
    KindsDiffer();
    if outcomes != [] {
      PhaseReports(rendered, outcomes[..|outcomes| - 1]);
    }
  }

  /** The last written reconcile that got as far as counting replicas. */
  function LastFinished(outcomes: seq<Outcome>): (r: Option<Outcome>)
    ensures r.Some? ==> r.value.Finished?
  {
    if outcomes == [] then None
    else
      var last := outcomes[|outcomes| - 1];
      if Written(last) && last.Finished? then Some(last) else LastFinished(outcomes[..|outcomes| - 1])
  }

  lemma {:induction false} ReadyReports(rendered: bool, outcomes: seq<Outcome>)
    ensures var s, last := Life(rendered, outcomes), LastFinished(outcomes);
            && UniqueTypes(s.conditions)
            && (Says(s, READY, "True") <==>
                  last.Some? && last.value.readyReplicas > 0 && last.value.readyReplicas == last.value.replicas)
            && (Says(s, READY, "False") <==>
                  last.Some? && (last.value.readyReplicas == 0 || last.value.readyReplicas != last.value.replicas))
            && (last.Some? ==>
                  Find(s.conditions, READY).value.message == ReadyMessage(last.value.readyReplicas, last.value.replicas))
  {
    KindsDiffer();
    if outcomes != [] {
      var n := |outcomes| - 1;
      ReadyReports(rendered, outcomes[..n]);
      var o, before := outcomes[n], Life(rendered, outcomes[..n]);
      if Written(o) && o.Finished? {
        FinishedSays(rendered, before, o);
      } else if Written(o) {
        RenderErrorKeepsReady(rendered, before, o);
      }
    }
  }

  /**
   * A resource is stored in phase Error with Ready true exactly when the last written reconcile
   * failed to render and the last written one that counted replicas found all of them ready.
   */
  lemma ErrorWithReadyExactly(rendered: bool, outcomes: seq<Outcome>)
    ensures var s, last, counted := Life(rendered, outcomes), LastWritten(outcomes), LastFinished(outcomes);
            s.phase == PHASE_ERROR && Says(s, READY, "True") <==>
              && last.Some? && last.value.RenderFailed?
              && counted.Some? && counted.value.readyReplicas > 0 && counted.value.readyReplicas == counted.value.replicas
  {
    PhaseReports(rendered, outcomes);
    ReadyReports(rendered, outcomes);
  }

  lemma ErrorWithReadyTrue(report: Report, message: string, now: Clock)
    ensures var s := Life(true, [Finished(report, 1, 1, now, true), RenderFailed(message, now, true)]);
            s.phase == PHASE_ERROR && Says(s, READY, "True")
  {
    var outcomes := [Finished(report, 1, 1, now, true), RenderFailed(message, now, true)];
    assert outcomes[..1] == [outcomes[0]];
    ErrorWithReadyExactly(true, outcomes);
  }

  /** The setCondition calls whose effect was stored. */
  function Calls(rendered: bool, outcomes: seq<Outcome>): seq<Update> {
    if outcomes == [] then []
    else
      var last := outcomes[|outcomes| - 1];
      Calls(rendered, outcomes[..|outcomes| - 1]) + if Written(last) then Updates(rendered, last) else []
  }

  /**
   * The stored conditions are the replay of the written calls, so each transition time is that
   * of the written reconcile that introduced the condition's current status.
   */
  lemma {:induction false} ConditionsReport(rendered: bool, outcomes: seq<Outcome>, kind: string)
    ensures Life(rendered, outcomes).conditions == Replay([], Calls(rendered, outcomes))
    ensures var cs, calls := Life(rendered, outcomes).conditions, Calls(rendered, outcomes);
            && (Find(cs, kind).None? <==> Latest(calls, kind).None?)
            && (Find(cs, kind).Some? ==> exists t :: Explained(calls, kind, Find(cs, kind).value, t))
  {
    if outcomes != [] {
      var n := |outcomes| - 1;
      ConditionsReport(rendered, outcomes[..n], kind);
      ReplayAppend([], Calls(rendered, outcomes[..n]), if Written(outcomes[n]) then Updates(rendered, outcomes[n]) else []);
    }
    History(Calls(rendered, outcomes), kind);
  }
}
