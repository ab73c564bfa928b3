/** The status the umbrella resource reports about its children (keaserver_controller.go). */
module UmbrellaStatus {
  import opened Options
  import opened Names
  import opened Conditions
  import opened Children
  import S = Status

  const PHASE_PENDING := "Pending"

  // ---------- one child ----------

  /** `seen` is what the lookup of the child returned: `None` if it failed or found nothing. */
  predicate ChildReady(seen: Option<S.Status>) {
    && seen.Some? && seen.value.phase == S.PHASE_RUNNING
    && var ready := Find(seen.value.conditions, S.READY);
       ready.None? || ready.value.status == "True"
  }

  method IsChildReady(seen: Option<S.Status>) returns (ready: bool)
    ensures ready == ChildReady(seen)
  {
    if seen.None? || seen.value.phase != S.PHASE_RUNNING {
      return false;
    }
    var conditions := seen.value.conditions;
    for i := 0 to |conditions|
      invariant forall k | 0 <= k < i :: conditions[k].kind != S.READY
    {
      if conditions[i].kind == S.READY {
        assert Position(conditions, S.READY) == i;
        return conditions[i].status == "True";
      }
    }
    ready := true;
  }

  /** Only the Stork server renders no configuration. */
  predicate Renders(c: Component) { c != StorkServer }

  /** A status some sequence of reconciles of a child of this kind can leave behind. */
  ghost predicate Reachable(c: Component, s: S.Status) {
    exists outcomes :: S.ValidOutcomes(Renders(c), outcomes) && s == S.Life(Renders(c), outcomes)
  }

  /**
   * For every status a child controller can produce, readiness is the phase alone: the Ready
   * condition is always there and agrees, so the fallback for a missing condition never decides.
   */
  lemma ReadyIsRunning(c: Component, s: S.Status)
    requires Reachable(c, s)
    ensures ChildReady(Some(s)) <==> s.phase == S.PHASE_RUNNING
    ensures s.phase == S.PHASE_RUNNING ==> S.Says(s, S.READY, "True") && s.readyReplicas > 0
  {
    var outcomes :| S.ValidOutcomes(Renders(c), outcomes) && s == S.Life(Renders(c), outcomes);
    S.StatusSafety(Renders(c), outcomes);
  }

  /** A child is ready exactly when its last written reconcile found all its replicas ready. */
  lemma ReadyMeansAllReplicas(c: Component, outcomes: seq<S.Outcome>)
    requires S.ValidOutcomes(Renders(c), outcomes)
    ensures ChildReady(Some(S.Life(Renders(c), outcomes))) <==>
            var last := S.LastWritten(outcomes);
            && last.Some? && last.value.Finished?
            && last.value.readyReplicas > 0 && last.value.readyReplicas == last.value.replicas
  {
    ReadyIsRunning(c, S.Life(Renders(c), outcomes));
    S.PhaseReports(Renders(c), outcomes);
  }

  // ---------- all children ----------

  datatype UmbrellaStatus = UmbrellaStatus(
    dhcp4Ready: bool,
    dhcp6Ready: bool,
    controlAgentReady: bool,
    dhcpDdnsReady: bool,
    storkServerReady: bool,
    phase: string,
    observedGeneration: int,
    conditions: seq<Condition>)

  const UNREPORTED := UmbrellaStatus(false, false, false, false, false, "", 0, [])

  /** What one reconcile that processed all children sees of them, and whether its status write was applied. */
  datatype Report = Report(
    u: Umbrella,
    seen: Component -> Option<S.Status>,
    generation: int,
    nowReady: string,
    nowProgressing: string,
    written: bool)

  predicate Configured(u: Umbrella, c: Component) { u.SpecOf(c).Some? }

  predicate AnyConfigured(u: Umbrella) { exists c: Component :: Configured(u, c) }

  predicate AllConfiguredReady(r: Report) { forall c: Component | Configured(r.u, c) :: ChildReady(r.seen(c)) }

  function OverallPhase(r: Report): string {
    if !AnyConfigured(r.u) then PHASE_PENDING
    else if AllConfiguredReady(r) then S.PHASE_RUNNING
    else S.PHASE_PROGRESSING
  }

  function Updates(r: Report): seq<Update> {
    if !AnyConfigured(r.u) then
      [Update(S.READY, "False", "NoComponents", "No components configured", r.nowReady)]
    else if AllConfiguredReady(r) then
      [Update(S.READY, "True", "AllComponentsReady", "All configured components are ready", r.nowReady),
       Update(S.PROGRESSING, "False", "DeploymentComplete", "All components deployed", r.nowProgressing)]
    else
      [Update(S.READY, "False", "ComponentsProgressing", "Some components are not yet ready", r.nowReady),
       Update(S.PROGRESSING, "True", "ComponentsProgressing", "Waiting for components", r.nowProgressing)]
  }

  function Reported(s: UmbrellaStatus, r: Report): UmbrellaStatus {
    UmbrellaStatus(
      ChildReady(r.seen(Dhcp4)), ChildReady(r.seen(Dhcp6)), ChildReady(r.seen(CtrlAgent)),
      ChildReady(r.seen(Ddns)), ChildReady(r.seen(StorkServer)),
      OverallPhase(r), r.generation, Replay(s.conditions, Updates(r)))
  }

  /** The umbrella in memory during one reconcile. */
  class Server {
    var status: UmbrellaStatus
    const list: ConditionList

    constructor (s: UmbrellaStatus)
      ensures fresh(list) && status == s && list.conditions == s.conditions
    {
      status := s;
      list := new ConditionList(s.conditions);
    }

    function Value(): UmbrellaStatus
      reads this, list
    {
      status.(conditions := list.conditions)
    }

    /** The flags over the configured components. */
    method CheckComponents(u: Umbrella) returns (anyConfigured: bool, allReady: bool)
      ensures anyConfigured <==>
              u.dhcp4.Some? || u.dhcp6.Some? || u.controlAgent.Some? || u.dhcpDdns.Some? || u.storkServer.Some?
      ensures allReady <==>
              && (u.dhcp4.Some? ==> status.dhcp4Ready)
              && (u.dhcp6.Some? ==> status.dhcp6Ready)
              && (u.controlAgent.Some? ==> status.controlAgentReady)
              && (u.dhcpDdns.Some? ==> status.dhcpDdnsReady)
              && (u.storkServer.Some? ==> status.storkServerReady)
    {
      allReady, anyConfigured := true, false;
      if u.dhcp4.Some? {
        anyConfigured := true;
        if !status.dhcp4Ready { allReady := false; }
      }
      if u.dhcp6.Some? {
        anyConfigured := true;
        if !status.dhcp6Ready { allReady := false; }
      }
      if u.controlAgent.Some? {
        anyConfigured := true;
        if !status.controlAgentReady { allReady := false; }
      }
      if u.dhcpDdns.Some? {
        anyConfigured := true;
        if !status.dhcpDdnsReady { allReady := false; }
      }
      if u.storkServer.Some? {
        anyConfigured := true;
        if !status.storkServerReady { allReady := false; }
      }
    }

    method Aggregate(r: Report)
      modifies this, list
      ensures Value() == Reported(old(Value()), r)
    {
      var dhcp4Ready := IsChildReady(r.seen(Dhcp4));
      var dhcp6Ready := IsChildReady(r.seen(Dhcp6));
      var controlAgentReady := IsChildReady(r.seen(CtrlAgent));
      var dhcpDdnsReady := IsChildReady(r.seen(Ddns));
      var storkServerReady := IsChildReady(r.seen(StorkServer));
      status := status.(dhcp4Ready := dhcp4Ready, dhcp6Ready := dhcp6Ready, controlAgentReady := controlAgentReady,
                        dhcpDdnsReady := dhcpDdnsReady, storkServerReady := storkServerReady,
                        observedGeneration := r.generation);
      var anyConfigured, allReady := CheckComponents(r.u);
      FiveConfigured(r.u);
      FiveReady(r);
      SetOverallPhase(r, anyConfigured, allReady);
    }

    /** The end of the aggregation: phase and conditions. */
    method SetOverallPhase(r: Report, anyConfigured: bool, allReady: bool)
      requires anyConfigured == AnyConfigured(r.u) && allReady == AllConfiguredReady(r)
      modifies this, list
      ensures list.conditions == Replay(old(list.conditions), Updates(r))
      ensures status == old(status).(phase := OverallPhase(r))
    {
      ghost var us := Updates(r);
      S.TwoCalls(list.conditions, us[0], us[|us| - 1]);
      if !anyConfigured {
        status := status.(phase := PHASE_PENDING);
        list.Set(S.READY, "False", "NoComponents", "No components configured", r.nowReady);
      } else if allReady {
        status := status.(phase := S.PHASE_RUNNING);
        list.Set(S.READY, "True", "AllComponentsReady", "All configured components are ready", r.nowReady);
        list.Set(S.PROGRESSING, "False", "DeploymentComplete", "All components deployed", r.nowProgressing);
      } else {
        status := status.(phase := S.PHASE_PROGRESSING);
        list.Set(S.READY, "False", "ComponentsProgressing", "Some components are not yet ready", r.nowReady);
        list.Set(S.PROGRESSING, "True", "ComponentsProgressing", "Waiting for components", r.nowProgressing);
      }
    }
  }

  lemma FiveConfigured(u: Umbrella)
    ensures AnyConfigured(u) <==>
            u.dhcp4.Some? || u.dhcp6.Some? || u.controlAgent.Some? || u.dhcpDdns.Some? || u.storkServer.Some?
  {
    if u.dhcp4.Some? { assert Configured(u, Dhcp4); }
    if u.dhcp6.Some? { assert Configured(u, Dhcp6); }
    if u.controlAgent.Some? { assert Configured(u, CtrlAgent); }
    if u.dhcpDdns.Some? { assert Configured(u, Ddns); }
    if u.storkServer.Some? { assert Configured(u, StorkServer); }
  }

  lemma FiveReady(r: Report)
    ensures AllConfiguredReady(r) <==>
            && (r.u.dhcp4.Some? ==> ChildReady(r.seen(Dhcp4)))
            && (r.u.dhcp6.Some? ==> ChildReady(r.seen(Dhcp6)))
            && (r.u.controlAgent.Some? ==> ChildReady(r.seen(CtrlAgent)))
            && (r.u.dhcpDdns.Some? ==> ChildReady(r.seen(Ddns)))
            && (r.u.storkServer.Some? ==> ChildReady(r.seen(StorkServer)))
  {
    assert Configured(r.u, Dhcp4) <==> r.u.dhcp4.Some?;
    assert Configured(r.u, Dhcp6) <==> r.u.dhcp6.Some?;
    assert Configured(r.u, CtrlAgent) <==> r.u.controlAgent.Some?;
    assert Configured(r.u, Ddns) <==> r.u.dhcpDdns.Some?;
    assert Configured(r.u, StorkServer) <==> r.u.storkServer.Some?;
  }

  /** With children in states their controllers can produce, the phase is what the children's phases say. */
  lemma PhaseAggregates(r: Report)
    requires forall c: Component | r.seen(c).Some? :: Reachable(c, r.seen(c).value)
    ensures OverallPhase(r) == PHASE_PENDING <==> forall c: Component :: r.u.SpecOf(c).None?
    ensures OverallPhase(r) == S.PHASE_RUNNING <==>
            && (exists c: Component :: r.u.SpecOf(c).Some?)
            && forall c: Component | r.u.SpecOf(c).Some? :: r.seen(c).Some? && r.seen(c).value.phase == S.PHASE_RUNNING
    ensures OverallPhase(r) in [PHASE_PENDING, S.PHASE_RUNNING, S.PHASE_PROGRESSING]
  {
    PhasesDiffer();
    forall c: Component
      ensures ChildReady(r.seen(c)) <==> r.seen(c).Some? && r.seen(c).value.phase == S.PHASE_RUNNING
    {
      if r.seen(c).Some? {
        ReadyIsRunning(c, r.seen(c).value);
      }
    }
    assert forall c: Component :: Configured(r.u, c) <==> r.u.SpecOf(c).Some?;
  }

  /** The report looked at this store and every lookup worked. */
  ghost predicate SeenIn(r: Report, store: ChildStore) {
    forall c: Component :: r.seen(c) == if r.u.ChildOf(c) in store then Some(store[r.u.ChildOf(c)].status) else None
  }

  /**
   * Once the children are established, the phase speaks about the children that exist: Pending
   * means there is none, Running that there are some and all of them run.
   */
  lemma ConvergedPhase(d: Defaulting, store: ChildStore, r: Report)
    requires AllEstablished(d, store, r.u) && SeenIn(r, store)
    requires forall id | id in store :: Reachable(id.component, store[id].status)
    ensures OverallPhase(r) == PHASE_PENDING <==> forall id | id in store :: !IsChild(r.u, id)
    ensures OverallPhase(r) == S.PHASE_RUNNING <==>
            && (exists id :: id in store && IsChild(r.u, id))
            && forall id | id in store && IsChild(r.u, id) :: store[id].status.phase == S.PHASE_RUNNING
  {
    forall c: Component
      ensures r.u.SpecOf(c).Some? <==> r.u.ChildOf(c) in store
      ensures IsChild(r.u, r.u.ChildOf(c))
    {
      assert Established(d, store, r.u, c);
    }
    PhaseAggregates(r);
  }

  lemma PhasesDiffer()
    ensures PHASE_PENDING != S.PHASE_RUNNING && PHASE_PENDING != S.PHASE_PROGRESSING
    ensures S.PHASE_RUNNING != S.PHASE_PROGRESSING
  {
    assert PHASE_PENDING[1] == 'e' && S.PHASE_RUNNING[1] == 'u' && S.PHASE_PROGRESSING[1] == 'r';
  }

  // ---------- every life of the umbrella ----------

  /** Reconciles that fail before the report change nothing here and are left out of the list. */
  function Life(reports: seq<Report>): UmbrellaStatus {
    if reports == [] then UNREPORTED
    else
      var s, r := Life(reports[..|reports| - 1]), reports[|reports| - 1];
      if r.written then Reported(s, r) else s
  }

  predicate Says(s: UmbrellaStatus, kind: string, status: string) {
    Find(s.conditions, kind).Some? && Find(s.conditions, kind).value.status == status
  }

  predicate Safe(s: UmbrellaStatus) {
    && UniqueTypes(s.conditions)
    && s.phase in ["", PHASE_PENDING, S.PHASE_RUNNING, S.PHASE_PROGRESSING]
    && (s.phase == S.PHASE_RUNNING ==> Says(s, S.READY, "True") && Says(s, S.PROGRESSING, "False"))
    && (s.phase == S.PHASE_PROGRESSING ==> Says(s, S.READY, "False") && Says(s, S.PROGRESSING, "True"))
    && (s.phase == PHASE_PENDING ==> Says(s, S.READY, "False"))
  }

  lemma ReportSafe(s: UmbrellaStatus, r: Report)
    requires UniqueTypes(s.conditions)
    ensures Safe(Reported(s, r))
    ensures !AnyConfigured(r.u) ==> Find(Reported(s, r).conditions, S.PROGRESSING) == Find(s.conditions, S.PROGRESSING)
  {
    S.KindsDiffer();
    PhasesDiffer();
    var us := Updates(r);
    if AnyConfigured(r.u) {
      assert us == [us[0], us[1]] && us[0].kind == S.READY && us[1].kind == S.PROGRESSING;
      S.TwoSay(s.conditions, us[0], us[1]);
    } else {
      S.TwoCalls(s.conditions, us[0], us[0]);
      S.SetSays(s.conditions, us[0]);
    }
  }

  /** Every stored umbrella status is safe. */
  lemma {:induction false} UmbrellaSafety(reports: seq<Report>)
    ensures Safe(Life(reports))
  {
    PhasesDiffer();
    if reports != [] {
      var n := |reports| - 1;
      UmbrellaSafety(reports[..n]);
      if reports[n].written {
        ReportSafe(Life(reports[..n]), reports[n]);
      }
    }
  }

  // ---------- what phase and Progressing report ----------

  /** The last report whose status write was applied. */
  function LastWritten(reports: seq<Report>): Option<Report> {
    if reports == [] then None
    else
      var last := reports[|reports| - 1];
      if last.written then Some(last) else LastWritten(reports[..|reports| - 1])
  }

  /** The last written report of an umbrella with components. */
  function LastConfiguring(reports: seq<Report>): Option<Report> {
    if reports == [] then None
    else
      var last := reports[|reports| - 1];
      if last.written && AnyConfigured(last.u) then Some(last) else LastConfiguring(reports[..|reports| - 1])
  }

  /** What one report says about progress. */
  lemma ReportSays(s: UmbrellaStatus, r: Report)
    requires UniqueTypes(s.conditions)
    ensures var after := Reported(s, r);
            && UniqueTypes(after.conditions)
            && (after.phase == PHASE_PENDING <==> !AnyConfigured(r.u))
            && (Says(after, S.PROGRESSING, "True") <==>
                  if AnyConfigured(r.u) then !AllConfiguredReady(r) else Says(s, S.PROGRESSING, "True"))
  {
    S.KindsDiffer();
    PhasesDiffer();
    ReportSafe(s, r);
  }

  /**
   * The last written report decides whether the umbrella is pending, the last one with components
   * whether it claims to progress.
   */
  lemma {:induction false} ProgressReports(reports: seq<Report>)
    ensures var s, last, configuring := Life(reports), LastWritten(reports), LastConfiguring(reports);
            && UniqueTypes(s.conditions)
            && (s.phase == PHASE_PENDING <==> last.Some? && !AnyConfigured(last.value.u))
            && (Says(s, S.PROGRESSING, "True") <==> configuring.Some? && !AllConfiguredReady(configuring.value))
  {
    if reports != [] {
      var n := |reports| - 1;
      ProgressReports(reports[..n]);
      if reports[n].written {
        ReportSays(Life(reports[..n]), reports[n]);
      }
    }
  }

  /** The flag of a component. */
  function FlagOf(s: UmbrellaStatus, c: Component): bool {
    match c
    case Dhcp4 => s.dhcp4Ready
    case Dhcp6 => s.dhcp6Ready
    case CtrlAgent => s.controlAgentReady
    case Ddns => s.dhcpDdnsReady
    case StorkServer => s.storkServerReady
  }

  /**
   * The flag of every component is set exactly when the last written report saw its child running,
   * and the generation is the one that report was about.
   */
  lemma {:induction false} FlagsReport(reports: seq<Report>, c: Component)
    requires forall r | r in reports && r.seen(c).Some? :: Reachable(c, r.seen(c).value)
    ensures var s, last := Life(reports), LastWritten(reports);
            && (FlagOf(s, c) <==>
                  last.Some? && last.value.seen(c).Some? && last.value.seen(c).value.phase == S.PHASE_RUNNING)
            && (last.Some? ==> s.observedGeneration == last.value.generation)
  {
    if reports != [] {
      var n := |reports| - 1;
      assert reports[n] in reports;
      FlagsReport(reports[..n], c);
      if reports[n].written && reports[n].seen(c).Some? {
        ReadyIsRunning(c, reports[n].seen(c).value);
      }
    }
  }

  /**
   * An umbrella is stored as pending and progressing exactly when the last written report found
   * no components, and the last written one that found some did not find all of them ready.
   */
  lemma PendingProgressesExactly(reports: seq<Report>)
    ensures var s, last, configuring := Life(reports), LastWritten(reports), LastConfiguring(reports);
            s.phase == PHASE_PENDING && Says(s, S.PROGRESSING, "True") <==>
              && last.Some? && !AnyConfigured(last.value.u)
              && configuring.Some? && !AllConfiguredReady(configuring.value)
  {
    ProgressReports(reports);
  }

  /** An instance: an umbrella whose last configured components were not all ready loses all of them. */
  lemma PendingKeepsProgressing(reports: seq<Report>, r: Report)
    requires r.written && !AnyConfigured(r.u) && Says(Life(reports), S.PROGRESSING, "True")
    ensures Life(reports + [r]).phase == PHASE_PENDING && Says(Life(reports + [r]), S.PROGRESSING, "True")
  {
    assert (reports + [r])[..|reports|] == reports;
    ProgressReports(reports);
    PendingProgressesExactly(reports + [r]);
  }
}
