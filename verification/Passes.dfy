/** What one reconcile pass does to the component's condition (Reconcile in
    pkg/component/component.go), and what holds over whole runs of passes. */
module Passes {
  import opened Options
  import opened Statuses
  import opened Conditions
  import opened Converge
  import opened Timer
  import opened Handlers

  datatype GateOutcome = NoGate | GateEnabled | GateDisabled | GateFailed

  /** A prerequisite's answer; an error and an unrecognised status are both CheckFailed. */
  datatype Check = Met | NotMet | CheckFailed

  /** Everything a pass observes: the outcome of each stage it may reach, and the clock readings. */
  datatype Facts = Facts(
    mapperPresent: bool,
    gate: GateOutcome, cleanupDone: bool,     // deletes and orphans of a disabled gate
    checks: seq<Check>,                       // one per registered prerequisite
    suspended: bool, suspension: Option<seq<Status>>,
    reconciled: Option<seq<Result>>,          // None when reconcileResources failed
    finished: bool,                           // deletes and orphans after the condition was set
    gracePeriod: nat, generation: int,
    now: Time, wall: Time, failWall: Time)

  // evaluatePrerequisites

  predicate AllMet(checks: seq<Check>) {
    forall check <- checks :: check == Met
  }

  /** The first answer that is not Met. */
  function Verdict(checks: seq<Check>): Check {
    if checks == [] then Met else if checks[0] != Met then checks[0] else Verdict(checks[1..])
  }

  lemma {:induction false} VerdictExactly(checks: seq<Check>)
    ensures Verdict(checks) == Met <==> AllMet(checks)
    ensures Verdict(checks) != Met ==>
              exists i :: 0 <= i < |checks| && checks[i] == Verdict(checks) && AllMet(checks[..i])
  {
    if checks != [] {
      VerdictExactly(checks[1..]);
      AllMetStep(checks, |checks|);
      if checks[0] != Met {
        assert checks[0] == Verdict(checks) && AllMet(checks[..0]);
      } else if Verdict(checks) != Met {
        var i :| 0 <= i < |checks[1..]| && checks[1..][i] == Verdict(checks) && AllMet(checks[1..][..i]);
        AllMetStep(checks, i + 1);
        assert checks[i + 1] == Verdict(checks) && AllMet(checks[..i + 1]);
      }
    }
  }

  lemma AllMetStep(checks: seq<Check>, n: nat)
    requires 1 <= n <= |checks|
    ensures AllMet(checks[..n]) <==> checks[0] == Met && AllMet(checks[1..][..n - 1])
    ensures checks[..|checks|] == checks && checks[1..][..|checks| - 1] == checks[1..]
  {
    var rest := checks[1..][..n - 1];
    assert checks[..n] == [checks[0]] + rest;
    assert checks[0] in checks[..n] && forall c <- rest :: c in checks[..n];
  }

  method EvaluatePrerequisites(checks: seq<Check>) returns (verdict: Check)
    ensures verdict == Verdict(checks)
    ensures verdict == Met <==> AllMet(checks)
  {
    VerdictExactly(checks);
    for i := 0 to |checks|
      invariant Verdict(checks) == Verdict(checks[i..])
    {
      assert checks[i..][0] == checks[i] && checks[i..][1..] == checks[i + 1..];
      match checks[i] {
        case Met => continue;
        case NotMet => return NotMet;
        case CheckFailed => return CheckFailed;
      }
    }
    return Met;
  }

  predicate BarrierActive(reason: Status) {
    reason == Unknown || reason == PrerequisiteNotMet || reason == Disabled || reason == FeatureGateError
  }

  // suspensionResults.summary

  function MaxSuspension(results: seq<Status>): Status {
    if results == [] then NONE
    else
      var max := MaxSuspension(results[..|results| - 1]);
      var last := results[|results| - 1];
      if last.SuspensionPriority() > max.SuspensionPriority() then last else max
  }

  function SuspensionSummary(results: seq<Status>): Status {
    if MaxSuspension(results) == NONE then Suspended else MaxSuspension(results)
  }

  method ComputeSuspensionSummary(results: seq<Status>) returns (max: Status)
    ensures max == SuspensionSummary(results)
  {
    max := NONE;
    for i := 0 to |results|
      invariant max == MaxSuspension(results[..i])
    {
      assert results[..i + 1][..i] == results[..i];
      if results[i].SuspensionPriority() > max.SuspensionPriority() {
        max := results[i];
      }
    }
    assert results[..|results|] == results;
    if max == NONE || max == Suspended {
      return Suspended;
    }
  }

  /** Suspended is reported exactly when no resource is still Suspending or PendingSuspension. */
  lemma {:induction false} SuspensionSummaryMeaning(results: seq<Status>)
    ensures SuspensionSummary(results) == Suspended <==> Suspending !in results && PendingSuspension !in results
    ensures SuspensionSummary(results) == PendingSuspension <==> PendingSuspension in results
    ensures SuspensionSummary(results) in {Suspended, Suspending, PendingSuspension}
  {
    if results != [] {
      SuspensionSummaryMeaning(results[..|results| - 1]);
      assert results == results[..|results| - 1] + [results[|results| - 1]];
    }
  }

  // Reconcile

  predicate GateOpen(f: Facts) {
    f.gate == NoGate || f.gate == GateEnabled
  }

  predicate Evaluates(stored: Option<Condition>, f: Facts) {
    && f.mapperPresent && GateOpen(f) && f.checks != []
    && (stored == None || BarrierActive(stored.value.reason))
  }

  /** The pass reaches the stage that applies, reads or suspends resources. */
  predicate Engages(stored: Option<Condition>, f: Facts) {
    f.mapperPresent && GateOpen(f) && (Evaluates(stored, f) ==> AllMet(f.checks))
  }

  function Fail(stored: Option<Condition>, ctype: string, f: Facts): Condition {
    Merge(stored, ConditionError(ctype, f.generation), f.failWall)
  }

  /** The condition the converge step of the pass leaves. */
  function ConvergeStep(stored: Option<Condition>, ctype: string, results: seq<Result>, f: Facts): Condition {
    var previous := Current(stored, ctype, f.generation);
    var cond := NewConverging(Participators(results), f.gracePeriod, previous, f.now, f.generation);
    if previous.reason.Converging() then Merge(stored, cond, f.wall) else cond.(time := Some(f.now))
  }

  /** The condition in memory when the pass returns. */
  function Outcome(stored: Option<Condition>, ctype: string, f: Facts): Condition {
    if !f.mapperPresent then Fail(stored, ctype, f)
    else if f.gate == GateFailed then Merge(stored, ConditionFeatureGateError(ctype, f.generation), f.wall)
    else if f.gate == GateDisabled then
      if f.cleanupDone then Merge(stored, ConditionDisabled(ctype, f.generation), f.wall) else Fail(stored, ctype, f)
    else if !Engages(stored, f) then Merge(stored, ConditionPrerequisiteNotMet(ctype, f.generation), f.wall)
    else if f.suspended then
      if f.suspension == None then Fail(stored, ctype, f)
      else
        var summary := SuspensionSummary(f.suspension.value);
        var cond := Merge(stored, SuspendingCondition(ctype, summary, f.generation), f.wall);
        if f.finished then cond else Fail(Some(cond), ctype, f)
    else if f.reconciled == None then Fail(stored, ctype, f)
    else
      var cond := ConvergeStep(stored, ctype, f.reconciled.value, f);
      if f.finished then cond else Fail(Some(cond), ctype, f)
  }

  /** Which stage a pass ended in shows in the reason it leaves: each of these reasons exactly when its stage wrote
      it. */
  lemma ReasonExactly(stored: Option<Condition>, ctype: string, f: Facts)
    ensures var reason := Outcome(stored, ctype, f).reason;
            && (reason == FeatureGateError <==> f.mapperPresent && f.gate == GateFailed)
            && (reason == Disabled <==> f.mapperPresent && f.gate == GateDisabled && f.cleanupDone)
            && (reason == PrerequisiteNotMet <==>
                && f.mapperPresent && f.gate in {NoGate, GateEnabled} && !AllMet(f.checks)
                && (stored == None || stored.value.reason in {Unknown, PrerequisiteNotMet, Disabled, FeatureGateError}))
            && (reason in {Suspended, Suspending, PendingSuspension} <==>
                Engages(stored, f) && f.suspended && f.suspension.Some? && f.finished)
            && (reason in {Suspended, Suspending, PendingSuspension} ==>
                reason == SuspensionSummary(f.suspension.value))
            && (!f.mapperPresent || (f.gate == GateDisabled && !f.cleanupDone) ==> reason == Error)
            && (Engages(stored, f) && (if f.suspended then f.suspension == None else f.reconciled == None) ==>
                reason == Error)
            && (Engages(stored, f) && !f.finished ==> reason == Error)
  {
    hide NewConverging, Participators, SuspensionSummary;
    if Engages(stored, f) {
      if f.suspended && f.suspension.Some? {
        SuspensionSummaryMeaning(f.suspension.value);
      } else if !f.suspended && f.reconciled.Some? {
        ConvergeReason(Participators(f.reconciled.value), f.gracePeriod, Current(stored, ctype, f.generation), f.now,
                       f.generation);
      }
    }
  }

  // Runs. Between passes the controller flushes the status; the API server keeps whole seconds, and a
  // flush that conflicts leaves the stored condition as it was.

  datatype Pass = Pass(facts: Facts, landed: bool)

  function Persist(c: Condition): Condition {
    c.(time := Some(Truncate(TransitionOf(c))))
  }

  function Stored(start: Option<Condition>, ctype: string, passes: seq<Pass>): Option<Condition> {
    if passes == [] then start
    else
      var before := Stored(start, ctype, passes[..|passes| - 1]);
      var last := passes[|passes| - 1];
      if last.landed then Some(Persist(Outcome(before, ctype, last.facts))) else before
  }

  lemma StoredStep(start: Option<Condition>, ctype: string, passes: seq<Pass>, k: nat)
    requires k < |passes|
    ensures Stored(start, ctype, passes[..k + 1]) ==
            var before := Stored(start, ctype, passes[..k]);
            if passes[k].landed then Some(Persist(Outcome(before, ctype, passes[k].facts))) else before
  {
    assert passes[..k + 1][..k] == passes[..k];
  }

  // The prerequisite barrier over runs

  predicate StoredBarrier(stored: Option<Condition>) {
    stored == None || BarrierActive(stored.value.reason)
  }

  /** The two failures that write Error before the barrier is looked at. */
  predicate FailsBeforeBarrier(f: Facts) {
    !f.mapperPresent || (f.gate == GateDisabled && !f.cleanupDone)
  }

  lemma ConvergeReason(results: seq<Result>, gracePeriod: nat, previous: Condition, now: Time, generation: int)
    ensures NewConverging(results, gracePeriod, previous, now, generation).reason.Converging()
  {
    SummaryUnreadyIff(results);
  }

  lemma EngagedReason(stored: Option<Condition>, ctype: string, f: Facts)
    requires Engages(stored, f)
    ensures !BarrierActive(Outcome(stored, ctype, f).reason)
  {
    if f.suspended && f.suspension.Some? {
      SuspensionSummaryMeaning(f.suspension.value);
    } else if !f.suspended && f.reconciled.Some? {
      var previous := Current(stored, ctype, f.generation);
      ConvergeReason(Participators(f.reconciled.value), f.gracePeriod, previous, f.now, f.generation);
    }
  }

  /** With prerequisites registered, one pass opens an active barrier exactly when every prerequisite was
      met behind an open gate, or one of the two early failures wrote Error over it. */
  lemma BarrierOpensExactly(stored: Option<Condition>, ctype: string, f: Facts)
    requires StoredBarrier(stored) && f.checks != []
    ensures !BarrierActive(Outcome(stored, ctype, f).reason) <==>
            FailsBeforeBarrier(f) || (GateOpen(f) && AllMet(f.checks))
  {
    if Engages(stored, f) {
      EngagedReason(stored, ctype, f);
    }
  }

  /** A passed barrier closes again exactly in a pass whose gate errors, or is disabled and cleaned up. */
  lemma BarrierClosesExactly(stored: Option<Condition>, ctype: string, f: Facts)
    requires !StoredBarrier(stored)
    ensures BarrierActive(Outcome(stored, ctype, f).reason) <==>
            f.mapperPresent && (f.gate == GateFailed || (f.gate == GateDisabled && f.cleanupDone))
  {
    if Engages(stored, f) {
      EngagedReason(stored, ctype, f);
    }
  }

  /** Pass k evaluated its prerequisites and found every one met. */
  predicate MeetsAll(ctype: string, passes: seq<Pass>, k: nat)
    requires k < |passes|
  {
    Evaluates(Stored(None, ctype, passes[..k]), passes[k].facts) && AllMet(passes[k].facts.checks)
  }

  /** Barrier over runs, whatever flushes are lost: a component that starts without a condition applies,
      reads or suspends nothing in pass k unless some pass up to k evaluated its prerequisites and found
      every one met, or an earlier pass stored an Error written before the barrier. */
  lemma {:induction false} BarrierOverRuns(ctype: string, passes: seq<Pass>, k: nat)
    requires k < |passes|
    requires forall p <- passes :: p.facts.checks != []
    requires Engages(Stored(None, ctype, passes[..k]), passes[k].facts)
    ensures || (exists j :: 0 <= j <= k && MeetsAll(ctype, passes, j))
            || (exists j :: 0 <= j < k && passes[j].landed && FailsBeforeBarrier(passes[j].facts))
  {
    if !(exists j :: 0 <= j < k && MeetsAll(ctype, passes, j))
       && !(exists j :: 0 <= j < k && passes[j].landed && FailsBeforeBarrier(passes[j].facts)) {
      BarrierStays(ctype, passes, k);
      assert MeetsAll(ctype, passes, k);
    }
  }

  lemma {:induction false} BarrierStays(ctype: string, passes: seq<Pass>, n: nat)
    requires n <= |passes|
    requires forall p <- passes :: p.facts.checks != []
    requires forall j :: 0 <= j < n ==> !MeetsAll(ctype, passes, j)
    requires forall j :: 0 <= j < n ==> !(passes[j].landed && FailsBeforeBarrier(passes[j].facts))
    ensures StoredBarrier(Stored(None, ctype, passes[..n]))
  {
    if n > 0 {
      BarrierStays(ctype, passes, n - 1);
      StoredStep(None, ctype, passes, n - 1);
      var before, f := Stored(None, ctype, passes[..n - 1]), passes[n - 1].facts;
      if passes[n - 1].landed {
        assert !MeetsAll(ctype, passes, n - 1);
        BarrierOpensExactly(before, ctype, f);
      }
    } else {
      assert passes[..0] == [];
    }
  }

  /** A passed barrier is not evaluated again before a pass whose gate errors or is disabled. */
  lemma {:induction false} PassedBarrierStays(start: Option<Condition>, ctype: string, passes: seq<Pass>, k: nat)
    requires k < |passes| && !StoredBarrier(start)
    requires forall j :: 0 <= j < k ==> GateOpen(passes[j].facts)
    ensures !StoredBarrier(Stored(start, ctype, passes[..k]))
    ensures !Evaluates(Stored(start, ctype, passes[..k]), passes[k].facts)
  {
    if k > 0 {
      PassedBarrierStays(start, ctype, passes, k - 1);
      StoredStep(start, ctype, passes, k - 1);
      BarrierClosesExactly(Stored(start, ctype, passes[..k - 1]), ctype, passes[k - 1].facts);
    } else {
      assert passes[..0] == [];
    }
  }

  /** Why the early failures are hypotheses: a pass without a RESTMapper lets the next one past a
      prerequisite that was never met. */
  lemma NilMapperBypassesBarrier(ctype: string, f: Facts, g: Facts)
    requires !f.mapperPresent && g.mapperPresent && GateOpen(g) && g.checks == [NotMet] == f.checks
    ensures Engages(Stored(None, ctype, [Pass(f, true)]), g)
  {
  }

  // The grace clock over runs

  predicate ConvergesUnready(f: Facts) {
    && f.mapperPresent && GateOpen(f) && !f.suspended && f.reconciled.Some?
    && Recognised(Participators(f.reconciled.value)) && !AllHealthy(Participators(f.reconciled.value))
  }

  predicate ConvergesReady(f: Facts) {
    f.mapperPresent && GateOpen(f) && !f.suspended && f.reconciled.Some?
        && AllHealthy(Participators(f.reconciled.value))
  }

  /** A pass that stays in the machine without becoming ready: it fails early, or converges unready. */
  predicate UnreadyOrFailing(f: Facts) {
    GateOpen(f) && !f.suspended && (!f.mapperPresent || f.reconciled == None || ConvergesUnready(f))
  }

  predicate GraceRunning(c: Condition) {
    !c.ready && c.reason.GraceTimed()
  }

  /** The transition time an unready converge step leaves, from the condition it finds: its own clock when it
      enters the machine, even from False to False, the wall clock when it leaves a True condition of the
      machine, and elsewhere the time it finds. */
  function ClockAfter(stored: Option<Condition>, now: Time, wall: Time): Time {
    if stored == None || !stored.value.reason.Converging() then now
    else if stored.value.ready then wall
    else TransitionOf(stored.value)
  }

  /** A delete or orphan failure later in the same pass keeps the stamp. */
  lemma EntryStamps(stored: Option<Condition>, ctype: string, f: Facts)
    requires ConvergesUnready(f) && Engages(stored, f)
    requires stored.Some? && stored.value.ready ==> !stored.value.reason.GraceTimed()
    ensures GraceRunning(Outcome(stored, ctype, f))
    ensures TransitionOf(Outcome(stored, ctype, f)) == ClockAfter(stored, f.now, f.wall)
  {
    var previous := Current(stored, ctype, f.generation);
    if previous.reason.GraceTimed() {
      UnreadyStep(Participators(f.reconciled.value), f.gracePeriod, previous, f.now, f.generation);
    } else {
      UnreadyStepFresh(Participators(f.reconciled.value), f.gracePeriod, previous, f.now, f.generation);
    }
  }

  /** The same by the reason that is stored: a new component, and one that was held back, gated off or suspended,
      starts its clock with the step; one that was ready starts it when it stops being; and one that was
      converging, graded or failing keeps the clock it has. */
  lemma ClockByReason(stored: Option<Condition>, now: Time, wall: Time)
    ensures stored == None || stored.value.reason in {Unknown, PrerequisiteNotMet, Disabled, FeatureGateError,
                                                      PendingSuspension, Suspending, Suspended} ==>
              ClockAfter(stored, now, wall) == now
    ensures stored.Some? && stored.value.ready && stored.value.reason in {Healthy, Operational, Completed} ==>
              ClockAfter(stored, now, wall) == wall
    ensures stored.Some? && !stored.value.ready && stored.value.time.Some? && stored.value.reason in
              {AliveCreating, AliveUpdating, AliveScaling, AliveFailing, OperationPending, OperationFailing,
               CompletionPending, CompletionRunning, CompletionFailing, GuardBlocked, Degraded, Down, Error} ==>
              ClockAfter(stored, now, wall) == stored.value.time.value
  {
  }

  lemma UnreadyStepFresh(results: seq<Result>, gracePeriod: nat, previous: Condition, now: Time, generation: int)
    requires Recognised(results) && !AllHealthy(results) && !previous.reason.GraceTimed()
    ensures var cond := NewConverging(results, gracePeriod, previous, now, generation);
            !cond.ready && cond.reason.GraceTimed() && cond.time == None
  {
    SummaryUnreadyIff(results);
  }

  /** One pass while the clock runs, gate open and not suspended: the transition time changes exactly when
      the converge step is ready, even if a later delete or orphan failure turns the condition back to
      Error within the same pass. */
  lemma ClockExactly(stored: Condition, ctype: string, f: Facts)
    requires GraceRunning(stored) && GateOpen(f) && !f.suspended
    requires UnreadyOrFailing(f) || ConvergesReady(f)
    ensures Outcome(Some(stored), ctype, f).time ==
            if ConvergesReady(f) then Some(if f.finished then f.wall else f.failWall) else stored.time
    ensures UnreadyOrFailing(f) ==> GraceRunning(Outcome(Some(stored), ctype, f)) && !ConvergesReady(f)
  {
    hide NewConverging, Participators, AllHealthy, Recognised;
    if ConvergesUnready(f) {
      UnreadyStep(Participators(f.reconciled.value), f.gracePeriod, stored, f.now, f.generation);
    } else if ConvergesReady(f) {
      ReadyStep(Participators(f.reconciled.value), f.gracePeriod, stored, f.now, f.generation);
    }
  }

  lemma ReadyStep(results: seq<Result>, gracePeriod: nat, previous: Condition, now: Time, generation: int)
    requires AllHealthy(results)
    ensures NewConverging(results, gracePeriod, previous, now, generation) == ConditionReady(previous.ctype, generation)
  {
  }

  lemma TruncateTwice(t: Time)
    ensures Truncate(Truncate(t)) == Truncate(t)
  {
  }

  /** The clock of the run: it runs from the start, or its first pass starts it and the write lands. */
  predicate ClockStarts(start: Option<Condition>, passes: seq<Pass>) {
    || (start.Some? && GraceRunning(start.value))
    || (passes != [] && passes[0].landed && ConvergesUnready(passes[0].facts) && Engages(start, passes[0].facts)
        && (start.Some? && start.value.ready ==> !start.value.reason.GraceTimed()))
  }

  function ClockOf(start: Option<Condition>, passes: seq<Pass>): Time
    requires ClockStarts(start, passes)
  {
    if start.Some? && GraceRunning(start.value) then TransitionOf(start.value)
    else ClockAfter(start, passes[0].facts.now, passes[0].facts.wall)
  }

  /** Grace clock over runs, from outside the machine, from Healthy, or with the clock already running: every
      unready or failing pass, with any flush lost, sees and leaves the time of its start, in whole seconds
      once a write has landed, whatever reasons come between. */
  lemma {:induction false} GraceClockOverRuns(start: Option<Condition>, ctype: string, passes: seq<Pass>, n: nat)
    requires n <= |passes| && ClockStarts(start, passes[..n])
    requires forall j :: 0 <= j < n ==> UnreadyOrFailing(passes[j].facts)
    ensures var c, clock := Stored(start, ctype, passes[..n]), ClockOf(start, passes[..n]);
            && c.Some? && GraceRunning(c.value)
            && TransitionOf(c.value) ==
               if exists j :: 0 <= j < n && passes[j].landed then Truncate(clock) else clock
  {
    hide Outcome, NewConverging, Engages, ConvergesUnready, ConvergesReady, GateOpen, Truncate, UnreadyOrFailing;
    if n == 0 {
      assert passes[..0] == [];
    } else {
      var before, last := Stored(start, ctype, passes[..n - 1]), passes[n - 1];
      var clock := ClockOf(start, passes[..n]);
      StoredStep(start, ctype, passes, n - 1);
      TruncateTwice(clock);
      if n > 1 || (start.Some? && GraceRunning(start.value)) {
        assert n > 1 ==> passes[..n - 1][0] == passes[..n][0];
        GraceClockOverRuns(start, ctype, passes, n - 1);
        UnreadyKeepsClock(before.value, ctype, last.facts);
      } else {
        assert passes[..0] == [];
        EntryStamps(start, ctype, last.facts);
      }
    }
  }

  lemma UnreadyKeepsClock(stored: Condition, ctype: string, f: Facts)
    requires GraceRunning(stored) && UnreadyOrFailing(f)
    ensures GraceRunning(Outcome(Some(stored), ctype, f))
    ensures TransitionOf(Outcome(Some(stored), ctype, f)) == TransitionOf(stored)
  {
    ClockExactly(stored, ctype, f);
  }

  /** The end-to-end promise of the grace period over the built-in primitives: in a run of unready or
      failing passes, a pass that converges unready more than the grace period after the clock of the run
      started ends Degraded or Down, or Error when its own deletes or orphans fail. */
  lemma UnreadyRunIsGraded(start: Option<Condition>, ctype: string, passes: seq<Pass>, k: nat)
    requires k < |passes| && ClockStarts(start, passes[..k])
    requires forall j :: 0 <= j <= k ==> UnreadyOrFailing(passes[j].facts)
    requires ConvergesUnready(passes[k].facts)
    requires forall r <- passes[k].facts.reconciled.value :: FromPrimitive(r)
    requires passes[k].facts.gracePeriod > 0
    requires passes[k].facts.now > ClockOf(start, passes[..k]) + passes[k].facts.gracePeriod
    ensures var reason := Outcome(Stored(start, ctype, passes[..k]), ctype, passes[k].facts).reason;
            reason in if passes[k].facts.finished then {Degraded, Down} else {Error}
  {
    GraceClockOverRuns(start, ctype, passes, k);
    WholeSeconds(ClockOf(start, passes[..k]), 0);
    UnreadyPastDeadline(Stored(start, ctype, passes[..k]).value, ctype, passes[k].facts);
  }

  lemma UnreadyPastDeadline(stored: Condition, ctype: string, f: Facts)
    requires GraceRunning(stored) && ConvergesUnready(f)
    requires forall r <- f.reconciled.value :: FromPrimitive(r)
    requires GraceExpired(f.gracePeriod, TransitionOf(stored), f.now)
    ensures Outcome(Some(stored), ctype, f).reason in if f.finished then {Degraded, Down} else {Error}
  {
    hide NewConverging, Participators, AllHealthy, GraceExpired, FromPrimitive, Recognised;
    var results := Participators(f.reconciled.value);
    forall r | r in results ensures FromPrimitive(r) {
      ParticipatorsExactly(f.reconciled.value, r);
    }
    NoReasonOutlivesGrace(results, f.gracePeriod, stored, f.now, f.generation);
  }

  /** The requeue promise: a controller that comes back after the delay it was given, on the condition in
      memory or on what the API server kept of it, finds an unready pass graded, or Error when its own
      deletes or orphans fail; and that pass asks for no further delay, however late one looks. */
  lemma RequeueGrades(seen: Condition, stored: Condition, ctype: string, convergedAt: Option<Time>, now: Time,
                      f: Facts, later: Time)
    requires GraceRunning(seen) && seen.time.Some? && (stored == seen || stored == Persist(seen))
    requires convergedAt.Some? ==> convergedAt.value <= now
    requires GraceRemaining(seen, f.gracePeriod, convergedAt, now).Some?
    requires f.now >= now + GraceRemaining(seen, f.gracePeriod, convergedAt, now).value
    requires ConvergesUnready(f) && forall r <- f.reconciled.value :: FromPrimitive(r)
    ensures var after := Outcome(Some(stored), ctype, f);
            && after.reason in (if f.finished then {Degraded, Down} else {Error})
            && GraceRemaining(after, f.gracePeriod, Some(f.now), later) == None
  {
    TimerSound(seen, f.gracePeriod, convergedAt, now, f.now);
    UnreadyPastDeadline(stored, ctype, f);
    ClockExactly(stored, ctype, f);
    NoRequeueLoop(seen, f.gracePeriod, convergedAt, now, f.now, Outcome(Some(stored), ctype, f), later);
  }

  // Readiness over runs

  predicate Consistent(c: Condition) {
    c.ready <==> c.reason == Healthy || c.reason == Suspended || c.reason == Disabled
  }

  predicate ResultsRecognised(f: Facts) {
    f.reconciled.Some? ==> Recognised(Participators(f.reconciled.value))
  }

  lemma ConvergeStepConsistent(stored: Option<Condition>, ctype: string, results: seq<Result>, f: Facts)
    requires stored.Some? ==> Consistent(stored.value)
    requires Recognised(Participators(results))
    ensures var cond := ConvergeStep(stored, ctype, results, f);
            Consistent(cond) && cond.generation == f.generation
                && (cond.reason == Healthy <==> AllHealthy(Participators(results)))
            && cond.reason != Suspended && cond.reason != Disabled
  {
    var participators, previous := Participators(results), Current(stored, ctype, f.generation);
    if !AllHealthy(participators) {
      UnreadyStep(participators, f.gracePeriod, previous, f.now, f.generation);
    }
  }

  /** Past the deadline the step grades the results, or fails to. */
  predicate Grades(results: seq<Result>, gracePeriod: nat, previous: Condition, now: Time) {
    && GraceExpired(gracePeriod, TransitionOf(previous), now)
    && ((exists r <- results :: GradingFails(r)) || GraceSummary(EvaluatedAll(results)) != Healthy)
  }

  /** Among ready results: the summary is Healthy, not a healthy task or operator. */
  predicate Plain(results: seq<Result>) {
    || (exists r <- results :: r.status == Healthy)
    || (forall r <- results :: r.status != Operational && r.status != Completed)
  }

  /** No participator is recognised as unready, yet not all are healthy: some status is unknown. Then a fresh
      machine writes True with the reason of a healthy task or operator, unless some participator is Healthy,
      and a running clock that is neither sticky nor past its deadline writes False with reason Healthy, unless
      only healthy tasks and operators are recognised. */
  predicate Misreports(stored: Option<Condition>, ctype: string, f: Facts) {
    && Engages(stored, f) && !f.suspended && f.reconciled.Some? && f.finished
    && var results, previous := Participators(f.reconciled.value), Current(stored, ctype, f.generation);
       && !AllHealthy(results) && (forall r <- results :: !r.status.IsUnready())
       && if !previous.reason.GraceTimed() then !Plain(results)
          else Plain(results) && !previous.reason.Sticky() && !Grades(results, f.gracePeriod, previous, f.now)
  }

  /** One pass over any statuses, known or not: exactly when the condition it leaves is True for another
      reason than Healthy, Suspended and Disabled, or False for one of these. */
  lemma ConsistentExactly(stored: Option<Condition>, ctype: string, f: Facts)
    requires stored.Some? ==> Consistent(stored.value)
    ensures Consistent(Outcome(stored, ctype, f)) <==> !Misreports(stored, ctype, f)
  {
    hide EvaluatedAll, AllHealthy, Participators, GradingFails, NewConverging, Plain, Grades;
    if !Engages(stored, f) {
    } else if f.suspended {
      if f.suspension.Some? {
        SuspensionSummaryMeaning(f.suspension.value);
      }
    } else if f.reconciled.Some? && f.finished {
      ConvergedExactly(Participators(f.reconciled.value), f.gracePeriod, Current(stored, ctype, f.generation), f.now,
                       f.generation);
    }
  }

  lemma ConvergedExactly(results: seq<Result>, gracePeriod: nat, previous: Condition, now: Time, generation: int)
    requires Consistent(previous)
    ensures Consistent(NewConverging(results, gracePeriod, previous, now, generation)) <==>
            || AllHealthy(results) || (exists r <- results :: r.status.IsUnready())
            || if !previous.reason.GraceTimed() then Plain(results)
               else !Plain(results) || previous.reason.Sticky() || Grades(results, gracePeriod, previous, now)
  {
    hide AllHealthy, ConvergeSummary, GraceSummary, EvaluatedAll, GradingFails, Plain, GraceExpired;
    SummaryUnreadyIff(results);
    if !exists r <- results :: r.status.IsUnready() {
      PlainSummary(results);
    }
    GraceSummaryMeaning(EvaluatedAll(results));
  }

  lemma PlainSummary(results: seq<Result>)
    requires forall r <- results :: !r.status.IsUnready()
    ensures ConvergeSummary(results) == Healthy <==> Plain(results)
    ensures ConvergeSummary(results) in {Healthy, Operational, Completed}
  {
    ConvergeSummaryMeaning(results, Healthy);
    SummaryUnreadyIff(results);
  }

  /** Two inputs with one unknown status: from False with reason AliveFailing the step writes False with
      reason Healthy, and a fresh component beside an operational resource becomes True with reason
      Operational. */
  lemma UnknownStatusMisreports(ctype: string, generation: int, time: Time, now: Time)
    ensures var odd := Result(Unrecognised("Warming"), true, NotGraceful, None);
            var failing := Condition(ctype, false, AliveFailing, generation, Some(time));
            var cond := NewConverging([odd], 0, failing, now, generation);
            !cond.ready && cond.reason == Healthy
    ensures var odd := Result(Unrecognised("Warming"), true, NotGraceful, None);
            var operational := Result(Operational, true, NotGraceful, None);
            var cond := NewConverging([odd, operational], 0, ConditionUnknown(ctype, generation), now, generation);
            cond.ready && cond.reason == Operational
  {
  }

  lemma StepConsistent(stored: Option<Condition>, ctype: string, f: Facts)
    requires stored.Some? ==> Consistent(stored.value)
    requires ResultsRecognised(f)
    ensures Consistent(Outcome(stored, ctype, f))
    ensures Outcome(stored, ctype, f).reason == Healthy ==> ConvergesReady(f) && f.finished && Engages(stored, f)
    ensures Outcome(stored, ctype, f).generation == f.generation
  {
    hide ConvergeStep, AllHealthy, Participators, SuspensionSummary;
    if !Engages(stored, f) {
      assert Outcome(stored, ctype, f).reason != Healthy;
    } else if f.suspended {
      if f.suspension.Some? {
        SuspensionSummaryMeaning(f.suspension.value);
      }
      assert Outcome(stored, ctype, f).reason != Healthy;
    } else if f.reconciled.Some? {
      ConvergeStepConsistent(stored, ctype, f.reconciled.value, f);
    }
  }

  /** In every state a run reaches over recognised resource statuses, stored or in memory, the condition
      is True exactly for the reasons Healthy, Suspended and Disabled; and a pass ending Healthy engaged,
      found every participator healthy, and finished its deletes and orphans. */
  lemma {:induction false} ReadinessOverRuns(start: Option<Condition>, ctype: string, passes: seq<Pass>, k: nat)
    requires k < |passes| && (start.Some? ==> Consistent(start.value))
    requires forall j :: 0 <= j <= k ==> ResultsRecognised(passes[j].facts)
    ensures var before := Stored(start, ctype, passes[..k]);
            && (before.Some? ==> Consistent(before.value))
            && Consistent(Outcome(before, ctype, passes[k].facts))
            && (Outcome(before, ctype, passes[k].facts).reason == Healthy ==>
                ConvergesReady(passes[k].facts) && passes[k].facts.finished && Engages(before, passes[k].facts))
  {
    if k > 0 {
      ReadinessOverRuns(start, ctype, passes, k - 1);
      StoredStep(start, ctype, passes, k - 1);
    } else {
      assert passes[..0] == [];
    }
    StepConsistent(Stored(start, ctype, passes[..k]), ctype, passes[k].facts);
  }
}
