/** Aggregation of resource results and the converge state machine (pkg/component/converge.go). */
module Converge {
  import opened Options
  import opened Statuses
  import opened Conditions

  /** What a resource's grace handler would answer. */
  datatype Grading = NotGraceful | Graceful(status: Status) | GraceFails

  /** `graded` is the source's GraceStatus pointer, filled by EvaluateGrace. */
  datatype Result = Result(status: Status, required: bool, grading: Grading, graded: Option<Status>)

  predicate AllHealthy(results: seq<Result>) {
    forall r <- results :: r.status.IsHealthy()
  }

  // filterParticipators

  predicate Participates(r: Result) {
    r.status == GuardBlocked || r.required
  }

  function Participators(results: seq<Result>): seq<Result> {
    if results == [] then []
    else
      var init := Participators(results[..|results| - 1]);
      if Participates(results[|results| - 1]) then init + [results[|results| - 1]] else init
  }

  method FilterParticipators(results: seq<Result>) returns (kept: seq<Result>)
    ensures kept == Participators(results)
  {
    kept := [];
    for i := 0 to |results|
      invariant kept == Participators(results[..i])
    {
      assert results[..i + 1][..i] == results[..i];
      if results[i].status == GuardBlocked {
        kept := kept + [results[i]];
        continue;
      }
      if results[i].required {
        kept := kept + [results[i]];
      }
    }
    assert results[..|results|] == results;
  }

  lemma {:induction false} ParticipatorsExactly(results: seq<Result>, r: Result)
    ensures r in Participators(results) <==> r in results && Participates(r)
  {
    if results != [] {
      ParticipatorsExactly(results[..|results| - 1], r);
      assert results == results[..|results| - 1] + [results[|results| - 1]];
    }
  }

  // convergeSummary

  function MaxConverge(results: seq<Result>): Status {
    if results == [] then NONE
    else
      var max := MaxConverge(results[..|results| - 1]);
      var last := results[|results| - 1].status;
      if last.ConvergePriority() > max.ConvergePriority() then last else max
  }

  function ConvergeSummary(results: seq<Result>): Status {
    if MaxConverge(results) == NONE then Healthy else MaxConverge(results)
  }

  method ComputeConvergeSummary(results: seq<Result>) returns (max: Status)
    ensures max == ConvergeSummary(results)
  {
    max := NONE;
    for i := 0 to |results|
      invariant max == MaxConverge(results[..i])
    {
      assert results[..i + 1][..i] == results[..i];
      if results[i].status.ConvergePriority() > max.ConvergePriority() {
        max := results[i].status;
      }
    }
    assert results[..|results|] == results;
    if max == NONE {
      max := Healthy;
    }
  }

  lemma {:induction false} MaxConvergeIsMax(results: seq<Result>)
    ensures forall r <- results :: r.status.ConvergePriority() <= MaxConverge(results).ConvergePriority()
    ensures MaxConverge(results).ConvergePriority() > 0 ==> exists r <- results :: r.status == MaxConverge(results)
    ensures MaxConverge(results).ConvergePriority() == 0 ==> MaxConverge(results) == NONE
  {
    if results != [] {
      var init, last := results[..|results| - 1], results[|results| - 1];
      MaxConvergeIsMax(init);
      assert results == init + [last];
      forall r | r in results ensures r in init || r == last {
      }
      assert last in results && forall r <- init :: r in results;
    }
  }

  /** The summary is the one recognised status of greatest priority, whatever the registration order
      of the resources; when no result carries a recognised status it is Healthy. */
  lemma ConvergeSummaryMeaning(results: seq<Result>, s: Status)
    ensures ConvergeSummary(results) == s <==>
            || (s.ConvergePriority() > 0
                && (exists r <- results :: r.status == s)
                && forall r <- results :: r.status.ConvergePriority() <= s.ConvergePriority())
            || (s == Healthy && forall r <- results :: r.status.ConvergePriority() == 0)
  {
    MaxConvergeIsMax(results);
    PrioritiesIdentify(s, MaxConverge(results));
  }

  /** The converging statuses, the one that governs before the ones it governs. */
  const URGENCY := [
    AliveFailing, OperationFailing, CompletionFailing, GuardBlocked, AliveScaling, CompletionRunning, AliveUpdating,
    AliveCreating, OperationPending, CompletionPending, Healthy, Operational, Completed]

  predicate Present(results: seq<Result>, s: Status) {
    exists r <- results :: r.status == s
  }

  /** Some result carries the k-th status of that list, and none an earlier one. */
  predicate Governs(results: seq<Result>, k: nat) {
    k < |URGENCY| && Present(results, URGENCY[k]) && forall j :: 0 <= j < k ==> !Present(results, URGENCY[j])
  }

  /** The summary is the first status of that list that some result carries, and Healthy when there is none. */
  lemma SummaryByUrgency(results: seq<Result>)
    ensures forall k: nat | Governs(results, k) :: ConvergeSummary(results) == URGENCY[k]
    ensures (forall k :: 0 <= k < |URGENCY| ==> !Present(results, URGENCY[k])) ==> ConvergeSummary(results) == Healthy
  {
    var summary := ConvergeSummary(results);
    ConvergeSummaryMeaning(results, summary);
    forall k: nat | Governs(results, k) ensures summary == URGENCY[k] {
      UrgencyIsPriority(summary, k);
    }
    if forall k :: 0 <= k < |URGENCY| ==> !Present(results, URGENCY[k]) {
      UrgencyIsPriority(summary, 0);
    }
  }

  lemma UrgencyIsPriority(s: Status, k: nat)
    requires k < |URGENCY|
    ensures URGENCY[k].ConvergePriority() > 0
    ensures s.ConvergePriority() > 0 ==> s in URGENCY
    ensures s.ConvergePriority() > URGENCY[k].ConvergePriority() ==> s in URGENCY[..k]
    ensures s.ConvergePriority() == URGENCY[k].ConvergePriority() ==> s == URGENCY[k]
  {
    assert s.ConvergePriority() > 0 ==> URGENCY[13 - s.ConvergePriority()] == s;
  }

  /** The summary signals health exactly when no result carries a recognised unready status. */
  lemma SummaryUnreadyIff(results: seq<Result>)
    ensures ConvergeSummary(results).IsUnready() <==> exists r <- results :: r.status.IsUnready()
    ensures ConvergeSummary(results).IsUnready() || ConvergeSummary(results).IsHealthy()
  {
    MaxConvergeIsMax(results);
  }

  // evaluateGrace and graceSummary

  predicate GradingFails(r: Result) {
    r.status != GuardBlocked && r.grading == GraceFails
  }

  function Evaluated(r: Result): Result {
    if r.status == GuardBlocked then r.(graded := Some(Down))
    else if r.grading.Graceful? then r.(graded := Some(r.grading.status))
    else r
  }

  function EvaluatedAll(results: seq<Result>): seq<Result> {
    seq(|results|, i requires 0 <= i < |results| => Evaluated(results[i]))
  }

  method EvaluateGrace(results: array<Result>) returns (ok: bool)
    modifies results
    ensures ok <==> !exists r <- old(results[..]) :: GradingFails(r)
    ensures ok ==> results[..] == EvaluatedAll(old(results[..]))
  {
    var i := 0;
    while i < results.Length
      invariant 0 <= i <= results.Length
      invariant forall j ::
                  0 <= j < i ==> results[j] == Evaluated(old(results[..])[j]) && !GradingFails(old(results[..])[j])
      invariant forall j :: i <= j < results.Length ==> results[j] == old(results[..])[j]
    {
      if results[i].status == GuardBlocked {
        results[i] := results[i].(graded := Some(Down));
        i := i + 1;
        continue;
      }
      if results[i].grading.Graceful? {
        results[i] := results[i].(graded := Some(results[i].grading.status));
      } else if results[i].grading == GraceFails {
        assert GradingFails(old(results[..])[i]);
        return false;
      }
      i := i + 1;
    }
    return true;
  }

  function MaxGrace(results: seq<Result>): Status {
    if results == [] then NONE
    else
      var max := MaxGrace(results[..|results| - 1]);
      var last := results[|results| - 1].graded;
      if last.Some? && last.value.GracePriority() > max.GracePriority() then last.value else max
  }

  function GraceSummary(results: seq<Result>): Status {
    if forall r <- results :: r.graded == None then Down
    else if MaxGrace(results) == NONE || MaxGrace(results) == Healthy then Healthy
    else MaxGrace(results)
  }

  method ComputeGraceSummary(results: seq<Result>) returns (summary: Status)
    ensures summary == GraceSummary(results)
  {
    var max, anyGraceful := NONE, false;
    for i := 0 to |results|
      invariant max == MaxGrace(results[..i])
      invariant anyGraceful <==> exists r <- results[..i] :: r.graded != None
    {
      assert results[..i + 1] == results[..i] + [results[i]];
      if results[i].graded == None {
        continue;
      }
      anyGraceful := true;
      if results[i].graded.value.GracePriority() > max.GracePriority() {
        max := results[i].graded.value;
      }
    }
    assert results[..|results|] == results;
    if !anyGraceful {
      return Down;
    }
    if max == NONE || max == Healthy {
      return Healthy;
    }
    return max;
  }

  lemma {:induction false} MaxGraceIsMax(results: seq<Result>)
    ensures forall r <- results :: r.graded.Some? ==>
              r.graded.value.GracePriority() <= MaxGrace(results).GracePriority()
    ensures MaxGrace(results) == NONE || exists r <- results :: r.graded == Some(MaxGrace(results))
    ensures MaxGrace(results) != NONE ==> MaxGrace(results).GracePriority() > 0
  {
    if results != [] {
      MaxGraceIsMax(results[..|results| - 1]);
      assert results == results[..|results| - 1] + [results[|results| - 1]];
    }
  }

  /** Down wins, Degraded is next, and nothing graded at all counts as Down. */
  lemma GraceSummaryMeaning(results: seq<Result>)
    ensures GraceSummary(results) == Down <==>
            (forall r <- results :: r.graded == None) || (exists r <- results :: r.graded == Some(Down))
    ensures GraceSummary(results) == Degraded <==>
            (exists r <- results :: r.graded == Some(Degraded)) && !exists r <- results :: r.graded == Some(Down)
    ensures GraceSummary(results) in {Healthy, Degraded, Down}
  {
    MaxGraceIsMax(results);
  }

  // The grace deadline

  function TransitionOf(c: Condition): Time {
    if c.time.Some? then c.time.value else 0
  }

  /** A grace period of 0 never ends; otherwise now must lie strictly after the deadline. */
  predicate GraceExpired(gracePeriod: nat, transition: Time, now: Time) {
    gracePeriod != 0 && now > transition + gracePeriod
  }

  // newConvergingStatusCondition

  function NewConverging(results: seq<Result>, gracePeriod: nat, previous: Condition, now: Time,
                         generation: int): Condition {
    if AllHealthy(results) then ConditionReady(previous.ctype, generation)
    else if !previous.reason.GraceTimed() then ConvergingCondition(previous.ctype, ConvergeSummary(results), generation)
    else
      var reason := if previous.reason.Sticky() then previous.reason else ConvergeSummary(results);
      var steady := previous.(reason := reason, generation := generation);
      if !GraceExpired(gracePeriod, TransitionOf(previous), now) then steady
      else if exists r <- results :: GradingFails(r) then ConditionError(previous.ctype, generation)
      else
        var summary := GraceSummary(EvaluatedAll(results));
        if summary == Down || summary == Degraded then GraceCondition(previous.ctype, summary, generation) else steady
  }

  method NewConvergingStatusCondition(
    results: array<Result>, gracePeriod: nat, previous: Condition, now: Time, generation: int)
    returns (cond: Condition)
    modifies results
    ensures cond == NewConverging(old(results[..]), gracePeriod, previous, now, generation)
  {
    if AllHealthy(results[..]) {
      return ConditionReady(previous.ctype, generation);
    }
    var status := previous.reason;
    var convergeSummary := ComputeConvergeSummary(results[..]);
    if !status.GraceTimed() {
      return ConvergingCondition(previous.ctype, convergeSummary, generation);
    }
    if !status.Sticky() {
      status := convergeSummary;
    }
    if GraceExpired(gracePeriod, TransitionOf(previous), now) {
      var ok := EvaluateGrace(results);
      if !ok {
        return ConditionError(previous.ctype, generation);
      }
      var summary := ComputeGraceSummary(results[..]);
      if summary == Down || summary == Degraded {
        return GraceCondition(previous.ctype, summary, generation);
      }
    }
    return previous.(reason := status, generation := generation);
  }

  /** Exactly when the converge step reports True, from a previous condition that is not itself a
      True grace-timed one: all participators are healthy, or the machine starts afresh and no
      participator carries a recognised unready status. The second case is the only way to report
      True over an unhealthy participator. */
  lemma ReadyExactly(results: seq<Result>, gracePeriod: nat, previous: Condition, now: Time, generation: int)
    requires previous.ready ==> !previous.reason.GraceTimed()
    ensures NewConverging(results, gracePeriod, previous, now, generation).ready <==>
            || AllHealthy(results)
            || (!previous.reason.GraceTimed() && forall r <- results :: !r.status.IsUnready())
  {
    SummaryUnreadyIff(results);
  }

  /** A custom handler that answers an unknown status makes a fresh component True. */
  lemma UnrecognisedReportsReady(gracePeriod: nat, now: Time, generation: int)
    ensures var odd := [Result(Unrecognised("Warming"), true, NotGraceful, None)];
            var cond := NewConverging(odd, gracePeriod, ConditionUnknown("Ready", generation), now, generation);
            !AllHealthy(odd) && cond.ready && cond.reason == Healthy
  {
  }

  /** Participator statuses a converging handler of the source may answer. */
  predicate Recognised(results: seq<Result>) {
    forall r <- results :: r.status.ConvergePriority() > 0
  }

  /** An unready step over recognised statuses writes a False, grace-timed condition, and it carries
      either the previous transition time or none. */
  lemma UnreadyStep(results: seq<Result>, gracePeriod: nat, previous: Condition, now: Time, generation: int)
    requires Recognised(results) && !AllHealthy(results)
    requires previous.ready ==> !previous.reason.GraceTimed()
    ensures var cond := NewConverging(results, gracePeriod, previous, now, generation);
            && !cond.ready && cond.reason.GraceTimed()
            && (cond.time == None || (previous.reason.GraceTimed() && cond.time == previous.time))
  {
    SummaryUnreadyIff(results);
  }

  /** The reason an unready step writes while the grace period runs: creating, updating and scaling stay what they
      are; from anywhere else the component takes over the summary of its results. */
  lemma ReasonWithinGrace(results: seq<Result>, gracePeriod: nat, previous: Condition, now: Time, generation: int)
    requires !AllHealthy(results)
    requires previous.reason.GraceTimed() ==> gracePeriod == 0 || now <= TransitionOf(previous) + gracePeriod
    ensures NewConverging(results, gracePeriod, previous, now, generation).reason ==
            if previous.reason in {AliveCreating, AliveUpdating, AliveScaling} then previous.reason
            else ConvergeSummary(results)
  {
  }

  predicate GradedAs(r: Result, status: Status) {
    if r.status == GuardBlocked then status == Down else r.grading == Graceful(status)
  }

  /** What an unready step past the deadline writes, by cause. In every other case, and only then, it
      leaves a progressing reason in place. */
  lemma GradedExactly(results: seq<Result>, gracePeriod: nat, previous: Condition, now: Time, generation: int)
    requires !AllHealthy(results) && previous.reason.GraceTimed()
    requires GraceExpired(gracePeriod, TransitionOf(previous), now)
    requires forall r <- results :: r.graded == None
    ensures var reason := NewConverging(results, gracePeriod, previous, now, generation).reason;
            var fails := exists r <- results :: GradingFails(r);
            var ungraded := forall r <- results :: r.status != GuardBlocked && r.grading == NotGraceful;
            var down := exists r <- results :: GradedAs(r, Down);
            var degraded := exists r <- results :: GradedAs(r, Degraded);
            && (reason == Error <==> fails)
            && (reason == Down <==> !fails && (ungraded || down))
            && (reason == Degraded <==> !fails && degraded && !down)
            && (reason.ConvergePriority() > 0 <==> !fails && !ungraded && !down && !degraded)
  {
    SummaryUnreadyIff(results);
    if !exists r <- results :: GradingFails(r) {
      GradingMeaning(results);
    }
  }

  lemma GradingMeaning(results: seq<Result>)
    requires forall r <- results :: r.graded == None
    requires !exists r <- results :: GradingFails(r)
    ensures var summary := GraceSummary(EvaluatedAll(results));
            var ungraded := forall r <- results :: r.status != GuardBlocked && r.grading == NotGraceful;
            && (summary == Down <==> ungraded || exists r <- results :: GradedAs(r, Down))
            && (summary == Degraded <==>
                (exists r <- results :: GradedAs(r, Degraded)) && !exists r <- results :: GradedAs(r, Down))
  {
    EvaluatedKeeps(results, Down);
    EvaluatedKeeps(results, Degraded);
    GraceSummaryMeaning(EvaluatedAll(results));
    UngradedKeeps(results);
  }

  lemma EvaluatedKeeps(results: seq<Result>, s: Status)
    requires s == Down || s == Degraded
    requires forall r <- results :: r.graded == None
    ensures (exists r <- EvaluatedAll(results) :: r.graded == Some(s)) <==> exists r <- results :: GradedAs(r, s)
  {
    var evaluated := EvaluatedAll(results);
    if r :| r in evaluated && r.graded == Some(s) {
      var i :| 0 <= i < |evaluated| && evaluated[i] == r;
      assert GradedAs(results[i], s);
    }
    if r :| r in results && GradedAs(r, s) {
      var i :| 0 <= i < |results| && results[i] == r;
      assert evaluated[i].graded == Some(s);
    }
  }

  lemma UngradedKeeps(results: seq<Result>)
    requires forall r <- results :: r.graded == None
    requires !exists r <- results :: GradingFails(r)
    ensures (forall r <- EvaluatedAll(results) :: r.graded == None) <==>
            (forall r <- results :: r.status != GuardBlocked && r.grading == NotGraceful)
  {
    var evaluated := EvaluatedAll(results);
    forall i | 0 <= i < |results|
      ensures evaluated[i].graded == None <==> results[i].status != GuardBlocked && results[i].grading == NotGraceful
    {
      assert !GradingFails(results[i]);
      assert results[i].grading.NotGraceful? || results[i].grading.Graceful? || results[i].grading.GraceFails?;
    }
    if forall r <- evaluated :: r.graded == None {
      forall r | r in results ensures r.status != GuardBlocked && r.grading == NotGraceful {
        var i :| 0 <= i < |results| && results[i] == r;
        assert evaluated[i] in evaluated;
      }
    }
  }
}
