/** Component and resource statuses (pkg/component/status.go).

    The source keeps every status in a string; the constants of the converging, operational,
    completable, guard, suspension and grace vocabularies overlap there. One datatype stands for all
    of them, and any other string is `Unrecognised`. The empty string, the start value of every
    "maximum so far" in the source, is `NONE`. */
module Statuses {

  datatype Status =
    | Unknown
    | Error
    | Healthy
    | AliveCreating
    | AliveScaling
    | AliveUpdating
    | AliveFailing
    | Operational
    | OperationPending
    | OperationFailing
    | Completed
    | CompletionPending
    | CompletionRunning
    | CompletionFailing
    | GuardBlocked
    | PrerequisiteNotMet
    | Disabled
    | FeatureGateError
    | PendingSuspension
    | Suspending
    | Suspended
    | Degraded
    | Down
    | Unrecognised(text: string)
  {
    /** Priority of a resource's converging status; 0 for anything that is not one. */
    function ConvergePriority(): nat {
      match this
      case Completed => 1
      case Operational => 2
      case Healthy => 3
      case CompletionPending => 4
      case OperationPending => 5
      case AliveCreating => 6
      case AliveUpdating => 7
      case CompletionRunning => 8
      case AliveScaling => 9
      case GuardBlocked => 10
      case CompletionFailing => 11
      case OperationFailing => 12
      case AliveFailing => 13
      case _ => 0
    }

    /** Priority of a component's status when several components are aggregated. */
    function Priority(): nat {
      match this
      case Disabled => 14
      case PrerequisiteNotMet => 10
      case Suspended => 15
      case Suspending => 16
      case PendingSuspension => 17
      case Degraded => 18
      case Down => 19
      case Error => 20
      case FeatureGateError => 20
      case _ => ConvergePriority()
    }

    function GracePriority(): nat {
      match this
      case Healthy => 1
      case Degraded => 2
      case Down => 3
      case _ => 0
    }

    function SuspensionPriority(): nat {
      match this
      case Suspended => 1
      case Suspending => 2
      case PendingSuspension => 3
      case _ => 0
    }

    predicate IsHealthy() {
      this == Healthy || this == Operational || this == Completed
    }

    /** A converging status the source knows that signals an unready resource. */
    predicate IsUnready() {
      ConvergePriority() > 3
    }

    /** The reason was written by the converge state machine (or by a failure). */
    predicate Converging() {
      match this
      case Unknown | Disabled | FeatureGateError | PrerequisiteNotMet => false
      case PendingSuspension | Suspending | Suspended => false
      case _ => true
    }

    predicate GraceTimed() {
      Converging() && !IsHealthy()
    }

    predicate Sticky() {
      this == AliveCreating || this == AliveUpdating || this == AliveScaling
    }
  }

  const NONE := Unrecognised("")

  /** Two statuses of equal non-zero priority are the same status, in the three tables that pick a
      single representative. */
  lemma PrioritiesIdentify(a: Status, b: Status)
    ensures a.ConvergePriority() == b.ConvergePriority() > 0 ==> a == b
    ensures a.GracePriority() == b.GracePriority() > 0 ==> a == b
    ensures a.SuspensionPriority() == b.SuspensionPriority() > 0 ==> a == b
  {
  }
}
