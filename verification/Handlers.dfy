/** The default converge and grace handlers of the Deployment, DaemonSet, HorizontalPodAutoscaler and
    Ingress primitives, and why no unready reason outlives the grace period over them. */
module Handlers {
  import opened Options
  import opened Statuses
  import opened Conditions
  import opened Converge

  datatype Operation = Created | Updated | NoChange

  /** StaleGenerationStatus (pkg/component/concepts/converging.go). */
  function StaleGenerationStatus(op: Operation, observed: int, generation: int): Option<Status> {
    if observed >= generation then None
    else Some(if op == Created then AliveCreating else AliveUpdating)
  }

  datatype Deployment = Deployment(
    generation: int, observedGeneration: int, paused: bool, specReplicas: Option<int>,
    replicas: int, readyReplicas: int, updatedReplicas: int)
  {
    function Desired(): int {
      if specReplicas == None then 1 else specReplicas.value
    }

    predicate PendingRollout() {
      if paused then replicas > Desired()
      else updatedReplicas < Desired() || updatedReplicas > Desired() || replicas > updatedReplicas
    }

    function Converge(op: Operation): Status {
      var stale := StaleGenerationStatus(op, observedGeneration, generation);
      if stale.Some? then stale.value
      else if readyReplicas != Desired() then
        match op
        case Created => AliveCreating
        case Updated => AliveUpdating
        case NoChange => AliveScaling
      else if PendingRollout() then
        if op == Created then AliveCreating else AliveUpdating
      else Healthy
    }

    function Grace(): Status {
      if readyReplicas == 0 && Desired() > 0 then Down
      else if observedGeneration < generation then Degraded
      else if readyReplicas != Desired() then Degraded
      else if PendingRollout() then Degraded
      else Healthy
    }
  }

  datatype DaemonSet = DaemonSet(
    generation: int, observedGeneration: int, onDelete: bool,
    desiredScheduled: int, ready: int, updatedScheduled: int)
  {
    predicate PendingRollout() {
      !onDelete && updatedScheduled < desiredScheduled
    }

    function Converge(op: Operation): Status {
      var stale := StaleGenerationStatus(op, observedGeneration, generation);
      if stale.Some? then stale.value
      else if desiredScheduled == 0 then Healthy
      else if ready != desiredScheduled then
        match op
        case Created => AliveCreating
        case Updated => AliveUpdating
        case NoChange => AliveScaling
      else if PendingRollout() then
        if op == Created then AliveCreating else AliveUpdating
      else Healthy
    }

    function Grace(): Status {
      if ready == 0 && desiredScheduled > 0 then Down
      else if observedGeneration < generation then Degraded
      else if desiredScheduled == 0 then Healthy
      else if ready != desiredScheduled then Degraded
      else if PendingRollout() then Degraded
      else Healthy
    }
  }

  /** The status of an HPA condition; `Other` is a string outside the API's three. */
  datatype Truth = IsTrue | IsFalse | IsUnknown | Other

  datatype HpaConditionType = ScalingActive | AbleToScale | ScalingLimited
  datatype HpaCondition = HpaCondition(ctype: HpaConditionType, status: Truth)
  datatype Hpa = Hpa(conditions: seq<HpaCondition>)
  {
    function FindCondition(ctype: HpaConditionType): Option<HpaCondition>
      decreases |conditions|
    {
      if conditions == [] then None
      else if conditions[0].ctype == ctype then Some(conditions[0])
      else Hpa(conditions[1..]).FindCondition(ctype)
    }

    function Converge(): Status {
      var scalingActive, ableToScale := FindCondition(ScalingActive), FindCondition(AbleToScale);
      if ableToScale.Some? && ableToScale.value.status == IsFalse then OperationFailing
      else if scalingActive.Some? then
        match scalingActive.value.status
        case IsTrue => Operational
        case IsFalse => OperationFailing
        case IsUnknown => OperationPending
        case Other => OperationPending
      else OperationPending
    }

    function Grace(): Status {
      var scalingActive, ableToScale := FindCondition(ScalingActive), FindCondition(AbleToScale);
      if ableToScale.Some? && ableToScale.value.status == IsFalse then Down
      else if scalingActive.Some? then
        match scalingActive.value.status
        case IsTrue => Healthy
        case IsFalse => Down
        case _ => Degraded
      else Degraded
    }
  }

  datatype Address = Address(ip: string, hostname: string)
  datatype Ingress = Ingress(addresses: seq<Address>)
  {
    predicate Assigned() {
      exists a <- addresses :: a.ip != "" || a.hostname != ""
    }

    function Converge(): Status {
      if Assigned() then Operational else OperationPending
    }

    function Grace(): Status {
      if Assigned() then Healthy else Degraded
    }
  }

  /** A resource built on one of the four primitives, with the operation its apply performed. */
  datatype Primitive =
    | OnDeployment(deployment: Deployment)
    | OnDaemonSet(daemonSet: DaemonSet)
    | OnHpa(hpa: Hpa)
    | OnIngress(ingress: Ingress)
  {
    function Converge(op: Operation): Status {
      match this
      case OnDeployment(d) => d.Converge(op)
      case OnDaemonSet(d) => d.Converge(op)
      case OnHpa(h) => h.Converge()
      case OnIngress(i) => i.Converge()
    }

    function Grace(): Status {
      match this
      case OnDeployment(d) => d.Grace()
      case OnDaemonSet(d) => d.Grace()
      case OnHpa(h) => h.Grace()
      case OnIngress(i) => i.Grace()
    }
  }

  /** Converge and grace agree on every object, whatever the apply did. An unready object is graded
      Degraded or Down, never something else. */
  lemma HandlersAgree(p: Primitive, op: Operation)
    ensures p.Converge(op).IsHealthy() <==> p.Grace() == Healthy
    ensures p.Grace() in {Healthy, Degraded, Down}
    ensures p.Converge(op).ConvergePriority() > 0
  {
  }

  /** A Deployment is healthy exactly when the controller has seen the current spec, as many replicas are ready as
      are wanted (one when the spec does not say), and no others are left: none of an old template and none too
      many; while it is paused old ones may be left. Down means that none is ready although some are wanted. */
  lemma DeploymentHealth(d: Deployment, op: Operation)
    ensures var desired := if d.specReplicas.Some? then d.specReplicas.value else 1;
            && (d.Converge(op) == Healthy <==>
                && d.observedGeneration >= d.generation && d.readyReplicas == desired
                && if d.paused then d.replicas <= desired
                   else d.updatedReplicas == desired && d.replicas <= desired)
            && (d.Grace() == Down <==> d.readyReplicas == 0 && desired > 0)
    ensures d.Converge(op) in if op == Created then {Healthy, AliveCreating}
                              else if op == Updated then {Healthy, AliveUpdating}
                              else {Healthy, AliveUpdating, AliveScaling}
    ensures d.Converge(op) == AliveScaling ==> op == NoChange && d.observedGeneration >= d.generation
  {
  }

  /** A DaemonSet is healthy exactly when the controller has seen the current spec and every scheduled pod is ready
      and, unless pods are replaced on deletion only, updated; with nothing scheduled that holds at once. */
  lemma DaemonSetHealth(d: DaemonSet, op: Operation)
    ensures d.Converge(op) == Healthy <==>
            && d.observedGeneration >= d.generation
            && (d.desiredScheduled == 0 ||
                (d.ready == d.desiredScheduled && (d.onDelete || d.updatedScheduled >= d.desiredScheduled)))
    ensures d.Grace() == Down <==> d.ready == 0 && d.desiredScheduled > 0
  {
  }

  /** The condition of the type that counts: the first one. */
  ghost predicate FirstIs(h: Hpa, ctype: HpaConditionType, status: Truth) {
    exists k :: 0 <= k < |h.conditions| && h.conditions[k] == HpaCondition(ctype, status)
                && forall j :: 0 <= j < k ==> h.conditions[j].ctype != ctype
  }

  lemma {:induction false} FindFirst(h: Hpa, ctype: HpaConditionType)
    ensures h.FindCondition(ctype).Some? ==> FirstIs(h, ctype, h.FindCondition(ctype).value.status)
    ensures forall status :: FirstIs(h, ctype, status) ==> h.FindCondition(ctype) == Some(HpaCondition(ctype, status))
    decreases |h.conditions|
  {
    if h.conditions != [] && h.conditions[0].ctype != ctype {
      var rest := Hpa(h.conditions[1..]);
      FindFirst(rest, ctype);
      if rest.FindCondition(ctype).Some? {
        var status := rest.FindCondition(ctype).value.status;
        var k :| 0 <= k < |rest.conditions| && rest.conditions[k] == HpaCondition(ctype, status)
                 && forall j :: 0 <= j < k ==> rest.conditions[j].ctype != ctype;
        assert h.conditions[k + 1] == HpaCondition(ctype, status);
      }
      forall status | FirstIs(h, ctype, status) ensures FirstIs(rest, ctype, status) {
        var k :| 0 <= k < |h.conditions| && h.conditions[k] == HpaCondition(ctype, status)
                 && forall j :: 0 <= j < k ==> h.conditions[j].ctype != ctype;
        assert rest.conditions[k - 1] == HpaCondition(ctype, status);
      }
    }
  }

  /** An HPA is operational exactly when scaling is active and the target can be scaled as far as is known; it
      fails exactly when one of the two is denied. */
  lemma HpaHealth(h: Hpa)
    ensures h.Converge() == Operational <==> FirstIs(h, ScalingActive, IsTrue) && !FirstIs(h, AbleToScale, IsFalse)
    ensures h.Converge() == OperationFailing <==> FirstIs(h, ScalingActive, IsFalse) || FirstIs(h, AbleToScale, IsFalse)
    ensures h.Grace() == Down <==> h.Converge() == OperationFailing
  {
    FindFirst(h, ScalingActive);
    FindFirst(h, AbleToScale);
  }

  /** A result the engine built from a primitive, or a Blocked one. */
  ghost predicate FromPrimitive(r: Result) {
    r.graded == None &&
    (r.status == GuardBlocked ||
     exists p: Primitive, op: Operation :: r.status == p.Converge(op) && r.grading == Graceful(p.Grace()))
  }

  /** No unready reason outlives the grace period: once the deadline of a grace-timed condition has
      passed, an unready converge step over these primitives ends Degraded or Down. */
  lemma NoReasonOutlivesGrace(results: seq<Result>, gracePeriod: nat, previous: Condition, now: Time, generation: int)
    requires forall r <- results :: FromPrimitive(r)
    requires previous.reason.GraceTimed() && GraceExpired(gracePeriod, TransitionOf(previous), now)
    ensures NewConverging(results, gracePeriod, previous, now, generation).reason in {Healthy, Degraded, Down}
    ensures NewConverging(results, gracePeriod, previous, now, generation).reason == Healthy <==> AllHealthy(results)
  {
    if !AllHealthy(results) {
      var r :| r in results && !r.status.IsHealthy();
      forall q | q in results ensures !GradingFails(q) {
      }
      if r.status != GuardBlocked {
        var p: Primitive, op: Operation :| r.status == p.Converge(op) && r.grading == Graceful(p.Grace());
        HandlersAgree(p, op);
        assert GradedAs(r, Degraded) || GradedAs(r, Down);
      } else {
        assert GradedAs(r, Down);
      }
      GradedExactly(results, gracePeriod, previous, now, generation);
    }
  }

  /** A handler pair that disagrees, as a custom grace handler may, keeps a progressing reason forever. */
  lemma DisagreeingHandlersNeverGrade(previous: Condition, gracePeriod: nat, now: Time, generation: int)
    requires previous.reason == AliveCreating
    ensures var odd := [Result(AliveScaling, true, Graceful(Healthy), None)];
            NewConverging(odd, gracePeriod, previous, now, generation).reason == AliveCreating
  {
    var odd := [Result(AliveScaling, true, Graceful(Healthy), None)];
    assert !odd[0].status.IsHealthy();
    if GraceExpired(gracePeriod, TransitionOf(previous), now) {
      GradedExactly(odd, gracePeriod, previous, now, generation);
      assert forall r <- odd :: !GradingFails(r) && !GradedAs(r, Down) && !GradedAs(r, Degraded);
    }
  }
}
