/** The requeue timer of the grace period (graceRemaining and its callers). */
module Timer {
  import opened Options
  import opened Statuses
  import opened Conditions
  import opened Converge

  const SECOND: nat := 1_000_000_000

  /** Time.Truncate(time.Second); also what the API server keeps of a transition time. */
  function Truncate(t: Time): Time {
    t / SECOND * SECOND
  }

  const OVERDUE_GRACE_REQUEUE: nat := SECOND

  function GraceRemaining(cond: Condition, gracePeriod: nat, convergedAt: Option<Time>, now: Time): Option<nat> {
    if !cond.reason.GraceTimed() || cond.reason == Degraded || cond.reason == Down then None
    else if gracePeriod == 0 then None
    else if convergedAt.Some? && GraceExpired(gracePeriod, TransitionOf(cond), convergedAt.value) then None
    else
      var requeueAt := Truncate(TransitionOf(cond) + gracePeriod) + SECOND;
      if requeueAt > now then Some(requeueAt - now)
      else if convergedAt == None then None
      else Some(OVERDUE_GRACE_REQUEUE)
  }

  /** Exactly when a delay is returned: the reason is grace-timed and not yet graded, a grace period is
      set, the last converge step did not already find it expired, and, with no converge step known, the
      requeue instant still lies ahead. */
  lemma PendingExactly(cond: Condition, gracePeriod: nat, convergedAt: Option<Time>, now: Time)
    ensures GraceRemaining(cond, gracePeriod, convergedAt, now).Some? <==>
            && cond.reason.GraceTimed() && cond.reason !in {Degraded, Down} && gracePeriod > 0
            && (convergedAt.Some? ==> convergedAt.value <= TransitionOf(cond) + gracePeriod)
            && (convergedAt == None ==> now / SECOND <= (TransitionOf(cond) + gracePeriod) / SECOND)
  {
  }

  lemma WholeSeconds(deadline: Time, now: Time)
    ensures Truncate(deadline) <= deadline < Truncate(deadline) + SECOND
    ensures now < Truncate(deadline) + SECOND <==> now / SECOND <= deadline / SECOND
  {
  }

  /** A converge step at or after the end of the returned delay finds the grace period expired, both for
      the transition time in memory and for the whole seconds the API server kept of it; and the delay
      exceeds what is left of the period by at most one second. */
  lemma TimerSound(cond: Condition, gracePeriod: nat, convergedAt: Option<Time>, now: Time, later: Time)
    requires convergedAt.Some? ==> convergedAt.value <= now
    requires GraceRemaining(cond, gracePeriod, convergedAt, now).Some?
    requires later >= now + GraceRemaining(cond, gracePeriod, convergedAt, now).value
    ensures GraceExpired(gracePeriod, TransitionOf(cond), later)
    ensures GraceExpired(gracePeriod, Truncate(TransitionOf(cond)), later)
    ensures var rest := if TransitionOf(cond) + gracePeriod > now then TransitionOf(cond) + gracePeriod - now else 0;
            0 < GraceRemaining(cond, gracePeriod, convergedAt, now).value <= rest + SECOND
  {
  }

  /** No requeue loop: once a converge step ran at the end of a delay, the same transition time, kept or
      truncated, and whatever reason that step left, yields no further delay at any later moment. */
  lemma NoRequeueLoop(cond: Condition, gracePeriod: nat, convergedAt: Option<Time>, now: Time,
                      later: Time, after: Condition, muchLater: Time)
    requires convergedAt.Some? ==> convergedAt.value <= now
    requires GraceRemaining(cond, gracePeriod, convergedAt, now).Some?
    requires later >= now + GraceRemaining(cond, gracePeriod, convergedAt, now).value
    requires after.time.Some? && (after.time == cond.time || after.time == Some(Truncate(TransitionOf(cond))))
    ensures GraceRemaining(after, gracePeriod, Some(later), muchLater) == None
  {
  }

  /** EarliestGraceRemaining over the delays of several components. */
  method EarliestGraceRemaining(delays: seq<Option<nat>>) returns (earliest: Option<nat>)
    ensures earliest == None <==> forall d <- delays :: d == None
    ensures earliest.Some? ==> earliest in delays && forall d <- delays :: d.Some? ==> earliest.value <= d.value
  {
    earliest := None;
    for i := 0 to |delays|
      invariant earliest == None ==> forall d <- delays[..i] :: d == None
      invariant earliest.Some? ==> earliest in delays[..i] && forall d <- delays[..i] :: d.Some? ==>
                  earliest.value <= d.value
    {
      assert delays[..i + 1] == delays[..i] + [delays[i]];
      if delays[i].Some? && (earliest == None || delays[i].value < earliest.value) {
        earliest := delays[i];
      }
    }
    assert delays[..|delays|] == delays;
  }
}
