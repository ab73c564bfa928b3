/** Status conditions (setCondition of reconciler.go). */
module Conditions {
  import opened Options

  /** `lastTransition` is a formatted clock reading; nothing depends on its format. */
  datatype Condition = Condition(kind: string, status: string, lastTransition: string, reason: string, message: string)

  /** One call of setCondition at the time `now`. */
  datatype Update = Update(kind: string, status: string, reason: string, message: string, now: string)

  function Fresh(u: Update): Condition { Condition(u.kind, u.status, u.now, u.reason, u.message) }

  /** The entry of the same type after the call. */
  function Merged(c: Condition, u: Update): Condition {
    Condition(c.kind, u.status, if c.status != u.status then u.now else c.lastTransition, u.reason, u.message)
  }

  /** The position of the first entry of a type. */
  function Position(cs: seq<Condition>, kind: string): (i: nat)
    ensures i <= |cs| && (i < |cs| ==> cs[i].kind == kind)
    ensures forall k | 0 <= k < i :: cs[k].kind != kind
  {
    if cs == [] || cs[0].kind == kind then 0 else 1 + Position(cs[1..], kind)
  }

  function SetCondition(cs: seq<Condition>, u: Update): seq<Condition> {
    var i := Position(cs, u.kind);
    if i < |cs| then cs[i := Merged(cs[i], u)] else cs + [Fresh(u)]
  }

  class ConditionList {
    var conditions: seq<Condition>

    constructor (cs: seq<Condition>)
      ensures conditions == cs
    {
      conditions := cs;
    }

    method Set(kind: string, status: string, reason: string, message: string, now: string)
      modifies this
      ensures conditions == SetCondition(old(conditions), Update(kind, status, reason, message, now))
    {
      for i := 0 to |conditions|
        invariant conditions == old(conditions)
        invariant forall k | 0 <= k < i :: conditions[k].kind != kind
      {
        var c := conditions[i];
        if c.kind == kind {
          if c.status != status {
            conditions := conditions[i := conditions[i].(lastTransition := now)];
          }
          conditions := conditions[i := conditions[i].(status := status)];
          conditions := conditions[i := conditions[i].(reason := reason)];
          conditions := conditions[i := conditions[i].(message := message)];
          return;
        }
      }
      conditions := conditions + [Condition(kind, status, now, reason, message)];
    }
  }

  // ---------- the list as a map from types to conditions ----------

  function Find(cs: seq<Condition>, kind: string): (r: Option<Condition>)
    ensures r.Some? ==> r.value in cs && r.value.kind == kind
    ensures r.None? ==> forall c | c in cs :: c.kind != kind
  {
    var i := Position(cs, kind);
    if i < |cs| then Some(cs[i]) else None
  }

  predicate UniqueTypes(cs: seq<Condition>) { forall i, j | 0 <= i < j < |cs| :: cs[i].kind != cs[j].kind }

  /**
   * A call is a map update: it rewrites the entry of its type or appends one, looks up all other
   * types as before, keeps the order of the list and the uniqueness of its types.
   */
  lemma SetRefinesMap(cs: seq<Condition>, u: Update)
    ensures var after := SetCondition(cs, u);
            && (forall kind :: Find(after, kind) ==
                 if kind != u.kind then Find(cs, kind)
                 else if Find(cs, kind).None? then Some(Fresh(u))
                 else Some(Merged(Find(cs, kind).value, u)))
            && (forall i | 0 <= i < |cs| :: after[i].kind == cs[i].kind && (cs[i].kind != u.kind ==> after[i] == cs[i]))
            && |after| == |cs| + (if Find(cs, u.kind).None? then 1 else 0)
            && (UniqueTypes(cs) ==> UniqueTypes(after))
  {
    var after := SetCondition(cs, u);
    var at := Position(cs, u.kind);
    forall kind
      ensures Find(after, kind) ==
              if kind != u.kind then Find(cs, kind)
              else if Find(cs, kind).None? then Some(Fresh(u))
              else Some(Merged(Find(cs, kind).value, u))
    {
      SamePosition(cs, after, kind);
    }
  }

  /** Entries of the same types in the same places are found in the same places. */
  lemma SamePosition(cs: seq<Condition>, after: seq<Condition>, kind: string)
    requires |cs| <= |after| && forall i | 0 <= i < |cs| :: after[i].kind == cs[i].kind
    ensures Position(cs, kind) < |cs| ==> Position(after, kind) == Position(cs, kind)
    ensures Position(cs, kind) == |cs| ==> Position(after, kind) >= |cs|
  {
    var i, j := Position(cs, kind), Position(after, kind);
    if i < |cs| && j < i {
      assert after[j].kind == cs[j].kind;
    }
  }

  // ---------- any sequence of calls ----------

  function Replay(cs: seq<Condition>, calls: seq<Update>): seq<Condition> {
    if calls == [] then cs
    else SetCondition(Replay(cs, calls[..|calls| - 1]), calls[|calls| - 1])
  }

  /** The last call for a type. */
  function Latest(calls: seq<Update>, kind: string): (r: Option<Update>)
    ensures r.Some? ==> r.value in calls && r.value.kind == kind
    ensures r.None? ==> forall u | u in calls :: u.kind != kind
  {
    if calls == [] then None
    else
      var last := calls[|calls| - 1];
      if last.kind == kind then Some(last) else Latest(calls[..|calls| - 1], kind)
  }

  /** Call `t` introduced the current status of a type: it changed it or came first, and no later call changed it. */
  ghost predicate Introduced(calls: seq<Update>, kind: string, t: nat) {
    && t < |calls| && calls[t].kind == kind
    && (Latest(calls[..t], kind).Some? ==> Latest(calls[..t], kind).value.status != calls[t].status)
    && forall k | t < k < |calls| && calls[k].kind == kind :: calls[k].status == calls[t].status
  }

  predicate Carries(c: Condition, u: Update) {
    c.status == u.status && c.reason == u.reason && c.message == u.message
  }

  /** Status, reason and message are those of the last call; the transition time is that of call `t`. */
  ghost predicate Explained(calls: seq<Update>, kind: string, c: Condition, t: nat) {
    && c.kind == kind
    && Latest(calls, kind).Some? && Carries(c, Latest(calls, kind).value)
    && Introduced(calls, kind, t) && c.lastTransition == calls[t].now
  }

  /**
   * After any sequence of calls the types are unique, a type is present exactly when some call
   * set it, and its entry is explained by the calls.
   */
  lemma {:induction false} History(calls: seq<Update>, kind: string)
    ensures var cs := Replay([], calls);
            && UniqueTypes(cs)
            && (Find(cs, kind).None? <==> Latest(calls, kind).None?)
            && (Find(cs, kind).Some? ==> exists t :: Explained(calls, kind, Find(cs, kind).value, t))
  {
    if calls != [] {
      var n := |calls| - 1;
      var front, u := calls[..n], calls[n];
      History(front, kind);
      var before := Replay([], front);
      SetRefinesMap(before, u);
      if u.kind != kind {
        if Find(before, kind).Some? {
          var t: nat :| Explained(front, kind, Find(before, kind).value, t);
          StillIntroduced(calls, kind, t);
          assert Explained(calls, kind, Find(Replay([], calls), kind).value, t);
        }
      } else if Find(before, kind).Some? && Find(before, kind).value.status == u.status {
        var t: nat :| Explained(front, kind, Find(before, kind).value, t);
        LatestStatus(front, kind, t);
        StillIntroduced(calls, kind, t);
        assert Explained(calls, kind, Find(Replay([], calls), kind).value, t);
      } else {
        assert Introduced(calls, kind, n);
        assert Explained(calls, kind, Find(Replay([], calls), kind).value, n);
      }
    }
  }

  /** A call of another type, or of the same status, does not change who introduced the status. */
  lemma StillIntroduced(calls: seq<Update>, kind: string, t: nat)
    requires calls != [] && Introduced(calls[..|calls| - 1], kind, t)
    requires var u := calls[|calls| - 1]; u.kind == kind ==> u.status == calls[t].status
    ensures Introduced(calls, kind, t) && calls[..|calls| - 1][t] == calls[t]
  {
    assert calls[..|calls| - 1][..t] == calls[..t];
    forall k | t < k < |calls| && calls[k].kind == kind ensures calls[k].status == calls[t].status {
      if k < |calls| - 1 { assert calls[..|calls| - 1][k] == calls[k]; }
    }
  }

  lemma {:induction false} LatestStatus(calls: seq<Update>, kind: string, t: nat)
    requires Introduced(calls, kind, t)
    ensures Latest(calls, kind).Some? && Latest(calls, kind).value.status == calls[t].status
  {
    var n := |calls| - 1;
    if calls[n].kind != kind {
      assert calls[..n][..t] == calls[..t];
      LatestStatus(calls[..n], kind, t);
    }
  }

  /** The introducing call is unique, so the transition time is determined by the calls. */
  lemma IntroducedOnce(calls: seq<Update>, kind: string, s: nat, t: nat)
    requires Introduced(calls, kind, s) && Introduced(calls, kind, t)
    ensures s == t
  {
    if s < t {
      LatestBetween(calls, kind, s, t);
    } else if t < s {
      LatestBetween(calls, kind, t, s);
    }
  }

  lemma {:induction false} LatestBetween(calls: seq<Update>, kind: string, s: nat, t: nat)
    requires s < t <= |calls| && calls[s].kind == kind
    requires forall k | s < k < |calls| && calls[k].kind == kind :: calls[k].status == calls[s].status
    ensures Latest(calls[..t], kind).Some? && Latest(calls[..t], kind).value.status == calls[s].status
  {
    assert calls[..t][..t - 1] == calls[..t - 1];
    if calls[t - 1].kind != kind {
      LatestBetween(calls, kind, s, t - 1);
    }
  }
}
