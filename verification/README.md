# The reconcile engine of the operator component framework, modelled in Dafny

A component of the framework owns a set of Kubernetes objects on behalf of a custom resource and reports
one status condition for all of them. This project models a reconcile pass of such a component and proves
what holds of every pass, of every run of passes, and under any interference by other clients of the API
server. It also models the mutators that shape the objects, the data cells between them, the builder, and
two smaller parts of the repository: the Markdown link rewriter and the comparison of label selectors.

`dafny verify dfyconfig.toml` checks everything.

## How the model is built

* **The API server** (`ApiServer.dfy`) is a store of versioned objects shared with other clients, with
  optimistic concurrency as in the "Concurrency Control and Consistency" section of the Kubernetes API
  Conventions: every write stores a version never used before, a conditional write lands only on a live
  object with exactly the version it names, and a read may answer with any past state. Every call takes the
  actions other clients complete before it and whether it fails, so a statement over all calls is a
  statement over all interleavings. The server rejects a write that would give an object two controller
  references. A ghost log records the component's own writes with the object each one landed on.
* **The write paths** are the imperative procedures of the source over that server: deletion
  (`Deletion.dfy`), apply (`Apply.dfy`), suspension (`Suspension.dfy`), orphaning (`Orphan.dfy`) and the
  normal pass with its guards and data cells (`DataFlow.dfy`, `Engine.dfy`). What an entry applies is a function
  of the cells it declares (`Entries.dfy`).
* **The condition** is a state machine over time in nanoseconds: `Statuses.dfy`, `Conditions.dfy`,
  `Converge.dfy`, `Timer.dfy`, and the status handlers of four built-in primitives in `Handlers.dfy`.
  `Passes.dfy` condenses a pass into the facts it observes, and proves the theorems over runs of passes in
  which any status write may be lost and the API server truncates times to whole seconds.
* **The component** (`Building.dfy`, `ResourceOptions.dfy`, `Components.dfy`, `Controller.dfy`) ties the two
  together: `Reconcile` is the source's method on the server, the owner and the cells; its contract says
  that the condition it leaves is the one `Passes` computes, which writes it may make, and what it did to
  the entries. Every outcome of an entry, a deletion or a release is accounted for under any interference, so that
  what a pass ending Healthy, Suspended or Disabled has done can be read off its condition; and without interference
  the objects a pass finds decide exactly what it does. `Controller.Run` repeats it as a controller does, building
  the component anew for every request, and the theorems over runs are stated once more for what it did.
* **The mutators** are in `Mutators.dfy`, `Editors.dfy`, `ReplayOrder.dfy` and `Replay.dfy`; the small cores in
  `Links.dfy`, `RelativePaths.dfy`, `Selectors.dfy` and `Aggregation.dfy`, with `Strings.dfy` underneath.

The main results are marked as such in the table below; the other rows are the steps to them, or smaller facts.

What the environment answers is a parameter: gates, prerequisites, user-written handlers, guards and edits
(as functions of their inputs), clocks, faults, and the actions of other clients.

## What turned out false, and what holds instead

* A converging handler that answers an unknown status makes a fresh component report True with reason
  Healthy (`Converge.UnrecognisedReportsReady`); `Converge.ReadyExactly` says exactly when True is reported.
  Beside an operational resource it makes it True with reason Operational, and from AliveFailing it writes
  False with reason Healthy (`Passes.UnknownStatusMisreports`). So the theorems that True means Healthy,
  Suspended or Disabled are over recognised statuses, and `Passes.ConsistentExactly` is the exact condition for
  one pass over any statuses.
* The prerequisite barrier looks only at the stored reason. A pass without a RESTMapper, or one whose
  disabled-gate cleanup fails, stores Error and thereby lets the next pass through
  (`Passes.NilMapperBypassesBarrier`); `Passes.BarrierOpensExactly` gives both ways past it.
* A pass that converges Healthy and then fails a delete or an orphaning ends with Error and a new transition
  time, although the stored condition was False before and after (`Passes.ClockExactly`).
* DeleteOnlyIfOwned does not keep a suspension from writing to an object that does not reference the owner
  (docs/component.md:125 says so for the case that no deletion is asked for). An undisturbed suspension of such
  an entry writes to owned objects only if and only if a first DeleteOnSuspend answer asks for the deletion, or
  the component stands aside, or the API server rejects the apply, or the object references the owner already
  (`Suspension.OwnedExactly`). `Suspension.SuspendsForeignObject` is a failing input: an entry that cannot own
  the object another owner controls.
* The table in docs/component.md:564-565 gives PendingSuspension and Suspending the condition status True; the
  code sets True for Suspended alone (pkg/component/conditions.go:48-61), and so does the model.
* A grace handler that disagrees with its converging handler keeps a progressing reason for ever
  (`Handlers.DisagreeingHandlersNeverGrade`); the four built-in pairs agree on every object.
* Running the plans again can change the order of containers (`Replay.ReplayReorders`), so replay is proved by
  container name. The order is kept if and only if no presence operation ensures, for good, a name that some
  operation removes before a name that none removes, and that the list does not hold yet, is first ensured
  (`ReplayOrder.ReplayKeepsExactly`, and `Replay.DefaultSuspensionKeepsOrderExactly` for a whole suspension).
* The relative path from a document at the top level has one parent reference too many
  (`RelativePaths.TopLevelFails`); `RelativePaths.RoundTrip` gives the exact condition.
* The canonical key of an expression does not tell no values from one empty value, nor a NUL in a name from
  the separator (`Selectors.Collisions`); `Selectors.EqualExactly` gives the meaning it does compare, and
  `Selectors.EqualUpToOrder` says that this is equality of (key, operator, multiset of values) for all other
  NUL-free selectors. For all strings the condition is `Selectors.EqualByTokens`.

## Model

| member | source | states |
|---|---|---|
| `Statuses.PrioritiesIdentify` | pkg/component/status.go:55-85 | two statuses with the same non-zero priority are the same one, so a maximum by priority names one status whatever the order |
| `Conditions.PutIsolates` | pkg/component/component.go:554-562 | writing one component's condition is read back by that component and seen by no other that shares the owner |
| `Conditions.PutKeepsOrder` | pkg/component/component.go:554-562 | the order of condition types never changes, and a type is appended only when absent |
| `Conditions.PutTwice` | pkg/component/component.go:641-645 | of two writes in one pass the later stands |
| `Conditions.Owner.ReplaceStatusCondition` | pkg/component/component.go:554-562 | the condition is stored verbatim, transition time included, at the place of its type |
| `Conditions.Owner.SetStatusCondition` | pkg/component/conditions.go:160-162 | the stored transition time survives an unchanged status; a changed one takes the given time or the wall clock |
| `Converge.FilterParticipators` | pkg/component/converge.go:35-54 | keeps, in order, the results that participate |
| `Converge.ParticipatorsExactly` | pkg/component/converge.go:35-54 | a result participates exactly when it is Blocked or its entry is required |
| `Converge.ComputeConvergeSummary` | pkg/component/converge.go:61-92 | computes the summary below |
| `Converge.ConvergeSummaryMeaning` | pkg/component/converge.go:61-92 | the summary is the one recognised status of greatest priority among the results, in any order; Healthy when there is none |
| `Converge.SummaryUnreadyIff` | pkg/component/converge.go:61-92 | it signals unready exactly when some result carries a recognised unready status |
| `Converge.SummaryByUrgency` | pkg/component/status.go:55-85 | the summary is the first status of the order of urgency, written out, that some result carries; Healthy when there is none |
| `Converge.EvaluateGrace` | pkg/component/converge.go:97-126 | grades every result in place, Blocked as Down, or fails exactly when a handler of an unblocked result does |
| `Converge.ComputeGraceSummary` | pkg/component/converge.go:131-168 | computes the grace summary below |
| `Converge.GraceSummaryMeaning` | pkg/component/converge.go:131-168 | Down exactly when nothing was graded or something was graded Down; else Degraded exactly when something was |
| `Converge.NewConvergingStatusCondition` | pkg/component/converge.go:272-351 | the converge step on an array it grades in place equals the transition function |
| `Converge.ReadyExactly` | pkg/component/converge.go:283-303 | exactly when the step reports True |
| `Converge.UnrecognisedReportsReady` | pkg/component/converge.go:71-73 | an unknown status reports True and Healthy: a concrete input |
| `Converge.UnreadyStep` | pkg/component/converge.go:283-350 | an unready step over recognised statuses writes a False, grace-timed condition with the old transition time or none |
| `Converge.GradedExactly` | pkg/component/converge.go:311-350 | **Main result.** Past the deadline: exactly when the step writes Error, Down, Degraded or keeps a progressing reason, by handlers |
| `Converge.ReasonWithinGrace` | pkg/component/converge.go:283-309 | while the grace period runs an unready step keeps creating, updating and scaling as they are, and from any other reason takes over the summary |
| `Handlers.HandlersAgree` | pkg/primitives/deployment/handlers.go:25-160 | **Main result.** For Deployment, DaemonSet, HPA and Ingress, converge-healthy equals grace-Healthy on every object and after every operation, and an unready object is graded Degraded or Down |
| `Handlers.DeploymentHealth` | pkg/primitives/deployment/handlers.go:80-117 | a Deployment is healthy exactly when the current spec is observed, as many replicas are ready as wanted and no others are left (paused: none too many), and Down exactly when none is ready although some are wanted; which progressing status each operation reports |
| `Handlers.DaemonSetHealth` | pkg/primitives/daemonset/handlers.go:27-150 | the same for a DaemonSet by its scheduled, ready and updated pods |
| `Handlers.HpaHealth` | pkg/primitives/hpa/handlers.go:20-186 | an HPA is operational exactly when its first ScalingActive condition is true and AbleToScale is not false, and failing exactly when one of the two is false |
| `Handlers.NoReasonOutlivesGrace` | pkg/component/converge.go:311-320 | past the deadline of a grace-timed condition, a step over Blocked results and these primitives ends Healthy, Degraded or Down, and Healthy only if all are |
| `Handlers.DisagreeingHandlersNeverGrade` | pkg/component/converge.go:311-350 | a disagreeing handler pair keeps AliveCreating past any deadline |
| `Timer.PendingExactly` | pkg/component/converge.go:190-228 | exactly when a requeue delay is returned |
| `Timer.TimerSound` | pkg/component/converge.go:190-228 | at the end of the delay the period is expired for the time in memory and for its whole-second truncation, and the delay exceeds the rest by at most a second |
| `Timer.NoRequeueLoop` | pkg/component/converge.go:190-228 | after a converge step at the end of the delay, the same transition time yields no further delay |
| `Timer.EarliestGraceRemaining` | pkg/component/component.go:231-243 | the least delay of several components, none exactly when none has one |
| `Passes.VerdictExactly` | pkg/component/component.go:607-623 | the first answer that is not Met decides |
| `Passes.EvaluatePrerequisites` | pkg/component/component.go:607-623 | the loop finds that answer, and Met exactly when all are |
| `Passes.ComputeSuspensionSummary` | pkg/component/suspend.go:22-46 | computes the suspension summary |
| `Passes.SuspensionSummaryMeaning` | pkg/component/suspend.go:22-46 | Suspended exactly when no resource is still Suspending or PendingSuspension; PendingSuspension exactly when one is |
| `Passes.BarrierOpensExactly` | pkg/component/component.go:432-476 | a pass opens an active barrier exactly when all prerequisites are met behind an open gate, or an early failure stores Error |
| `Passes.BarrierClosesExactly` | pkg/component/component.go:432-449 | a passed barrier closes exactly in a gate-error pass or a cleaned-up disabled pass |
| `Passes.BarrierOverRuns` | pkg/component/component.go:457-476 | **Main result.** Over any run from no condition, with any status writes lost: nothing is applied, read or suspended before a pass evaluated its prerequisites and found all met, or stored an early Error |
| `Passes.PassedBarrierStays` | pkg/component/component.go:590-600 | a passed barrier is not evaluated again while the gate is open |
| `Passes.NilMapperBypassesBarrier` | pkg/component/component.go:424-430 | the early failure is a real way past the barrier: a concrete run |
| `Passes.EntryStamps` | pkg/component/component.go:525-537 | an unready converge step leaves its own now when it enters the machine, also from False to False, the wall clock when it leaves Healthy, and the time it finds while the clock runs |
| `Passes.ClockByReason` | pkg/component/component.go:525-537 | the same by the stored reason, every reason named: which ones start the clock, restart it, or keep it |
| `Passes.ClockExactly` | pkg/component/component.go:514-546 | while the grace clock runs, one pass changes the transition time exactly when its converge step is ready |
| `Passes.GraceClockOverRuns` | pkg/component/component.go:514-546 | **Main result.** Through any run of unready or failing passes, with writes lost, that began outside the machine, from Healthy or with the clock running, the transition time stays that of the start, in whole seconds once a write has landed |
| `Passes.UnreadyRunIsGraded` | pkg/component/converge.go:172-184 | **Main result.** Such a run over the built-in primitives is graded Degraded or Down by the first unready converge step after the period, counted from that time |
| `Passes.RequeueGrades` | pkg/component/converge.go:190-228 | a controller that comes back after the returned delay finds an unready pass over the built-in primitives graded, and is not asked to come back again |
| `Passes.ReasonExactly` | pkg/component/component.go:407-547 | which stage a pass ended in shows in its reason: FeatureGateError, Disabled, PrerequisiteNotMet and the suspension reasons exactly when their stage wrote them, and Error for each of the failures |
| `Passes.ReadinessOverRuns` | pkg/component/component.go:407-547 | over recognised statuses, in every state reached from no condition or a consistent one, True holds exactly for Healthy, Suspended and Disabled, and Healthy only after a ready converge step and finished deletes and orphans |
| `Passes.ConsistentExactly` | pkg/component/converge.go:283-350 | over any statuses, known or not: exactly when one pass leaves a True condition with another reason, or a False one with reason Healthy |
| `Passes.UnknownStatusMisreports` | pkg/component/converge.go:61-92 | both ways it happens, from one unknown status: concrete inputs |
| `ApiServer.Server.Get` | pkg/component/create.go:417-449 | a read answers a state the object really had, or a past absence; a live one exactly the present state |
| `ApiServer.Server.Delete` | pkg/component/delete.go:103-166 | a delete with preconditions lands only on exactly the observed object; every outcome accounted for |
| `ApiServer.Server.Apply` | pkg/component/create.go:106-125 | an apply lands on the live object, or with a resourceVersion only on that one, and merges the fields and references it declares; undisturbed it is rejected exactly when the object would get a second controller |
| `ApiServer.Server.Update` | pkg/component/orphan.go:29-82 | an update lands only on exactly the object that was read, and never with two controllers |
| `Deletion.ObserveController` | pkg/component/create.go:417-449 | reports the object it read and whether that one has a foreign controller |
| `Deletion.DeleteEntry` | pkg/component/delete.go:103-166 | **Main result.** Under any interference and stale reads, a removed object satisfied the entry's options at that instant; otherwise nothing was written, and what was read and what is there justify the outcome (Justified); without interference a permitted object goes and any other stays; exactly when a changed object is an error |
| `Deletion.DeleteResources` | pkg/component/delete.go:53-91 | every write is such a deletion of some entry, one event each in order; the loop goes on after failures; events and errors are exactly the removed and the failed entries, each justified; undisturbed every permitted object that remains is reported and no other object changes |
| `Apply.ApplyResource` | pkg/component/create.go:49-172 | at most one write, of the declared content, only onto the observed object when one is given; a reported success wrote and no step of it failed; a conflict means that the observed object is not live; undisturbed an apply the API server rejects is an error, and else Created, Updated or NoChange as the live object says |
| `Apply.NoChangeExactly` | pkg/component/create.go:130-172 | the operation an apply reports: NoChange exactly when nothing but the version of the live object is new, Created exactly when there was none |
| `Apply.NeverTakesOver` | pkg/component/resource_options.go:188-190 | **Main result.** An apply with the owner's reference never lands on an object another owner controls at that instant, whatever other clients do |
| `Apply.RefusedExactly` | docs/primitives.md:142-147 | over references with distinct owners the rejection is exactly foreign control |
| `Suspension.AppliedIsOwned` | pkg/component/create.go:460-500 | what an apply with the owner's reference leaves carries it, and nobody else controls it |
| `Suspension.CheckSuspension` | pkg/component/suspend.go:117-186 | writes nothing; hands on an object only if it read it with the owner's reference; stands aside only for a reason it met, and a failed read is never answered; undisturbed it stands aside exactly for absent, foreign and unowned objects |
| `Suspension.ApplySuspension` | pkg/component/suspend.go:189-240 | an apply of the given content and then at most a delete; a conflict is answered Suspending, so never Suspended, and a failing step is never answered (Reported); undisturbed it fails exactly where the API server rejects the apply, and else the apply lands on the live object and the object goes exactly when asked for |
| `Suspension.FinishSuspension` | pkg/component/suspend.go:189-240 | after the apply the extractions fill their cells, then the status and the delete |
| `Suspension.ConcludeSuspension` | pkg/component/suspend.go:211-240 | at most one delete, permitted at that instant, after Suspended was reported; undisturbed a deletable object goes exactly when asked for |
| `Suspension.SuspendResource` | pkg/component/suspend.go:101-244 | **Main result.** Under any interference: an apply of the suspended content, computed from the cells, and then at most a permitted delete after Suspended was reported (Turn), and an answer that a met reason to stand aside or the success of every step accounts for (Answered); undisturbed it stands aside, fails where the API server rejects the apply, or exactly the apply lands and the object is gone exactly when asked for (UndisturbedTurn); and with DeleteOnlyIfOwned exactly when every object written to references the owner |
| `Suspension.TurnIsSafe` | pkg/component/suspend.go:163-190 | what follows for each such write: for DeleteOnlyIfOwned with delete-on-suspend it lands on an object with the owner's reference at that instant, a delete is permitted, and no apply with the owner's reference takes over a foreign-controlled object |
| `Suspension.OwnedExactly` | pkg/component/suspend.go:137-186 | exactly when an undisturbed suspension with DeleteOnlyIfOwned writes to owned objects only |
| `Suspension.AsideExactly` | pkg/component/suspend.go:117-186 | exactly when an undisturbed suspension leaves the object of an entry alone, read off the options, the answer and the object |
| `Suspension.NoChurn` | pkg/component/suspend.go:80-99 | a suspension that deleted its object is the last one to write: the next finds it absent and creates nothing |
| `Suspension.SuspendsForeignObject` | pkg/component/suspend.go:137-186 | a failing input: without delete-on-suspend it applies to an object another owner controls |
| `Suspension.SuspendResources` | pkg/component/suspend.go:51-77 | **Main result.** The writes of the loop are those of its suspendable entries, in order, each with the content computed from the cells as they stood; its results are exactly the entries' answers, each accounted for, or an error when one has none; undisturbed these are the entries' own answers, or an error when the API server rejects one, and every entry's object is left as UndisturbedTurn says; it fails only where something disturbed it or such an object once lived |
| `Orphan.WithoutExactly` | pkg/component/orphan.go:86-94 | exactly the owner's references go; the list shrinks exactly when there was one |
| `Orphan.WithoutDistributes` | pkg/component/orphan.go:29-82 | the kept references keep their order |
| `Orphan.OrphanResource` | pkg/component/orphan.go:29-82 | **Main result.** For any number of conflicts, an event is recorded exactly when one update landed, and it changed nothing but the owner's references; neither event nor failure means that the object was absent or not the owner's when it was last read, and a failure that a call failed or other clients acted; undisturbed the object is released unless a call fails |
| `Orphan.OrphanResources` | pkg/component/orphan.go:29-82 | one such update per event over all resources, going on after failures; events and errors are exactly the released and the failed ones; where only calls fail, none but the failed ones is owned afterwards and every other object is as it was |
| `ResourceOptions.Resolve` | pkg/component/resource_options.go:266-372 | refuses exactly the listed combinations and a failing gate, else the options mean what the list of them says |
| `ResourceOptions.ResolveResourceOptions` | pkg/component/resource_options.go:253-262 | the same for the option functions applied in order |
| `ResourceOptions.ResolvedIsSafe` | pkg/component/resource_options.go:358-360 | a read-only resource is never marked for deletion or orphaning, none for both, ownership never gates an unowned one, and the two options for an absent object exclude each other |
| `DataFlow.Data.Require` | pkg/component/concepts/data.go:67-73 | the stored value exactly when the cell is set |
| `DataFlow.OccurrencesExactly` | pkg/component/data.go:90-97 | the collected cells are exactly the produced ones, each once |
| `DataFlow.CheckReads` | pkg/component/data.go:65-83 | an entry's reads raise no error exactly when each is produced earlier and no name is bound to another cell |
| `DataFlow.CheckWrites` | pkg/component/data.go:85-98 | an entry's writes raise no error exactly when none is nil and no name is bound to another cell, and extend the cells in first-producer order |
| `DataFlow.ValidateDataTopology` | pkg/component/data.go:40-102 | **Main result.** No error exactly when every read has a strictly earlier producer, no cell is nil and names are unique |
| `Engine.GuardStatus` | pkg/generic/resource_base.go:232-259 | Blocked exactly when a guarded cell is unset or the custom guard blocks; data guards come first |
| `Entries.ExtractData` | pkg/generic/resource_base.go:164-177 | fills the declared cells in order, up to a failure, and no other |
| `Entries.LatestProducer` | pkg/generic/data.go:32-50 | the cells of a pass hold exactly what has a producer that ran, each with the last extraction of the latest one |
| `Engine.OpenGuard` | pkg/generic/resource_base.go:232-245 | behind an open guard every guarded cell is set |
| `Engine.ProcessEntry` | pkg/component/create.go:341-395 | a read-only entry is never written, any other at most once, with the content its mutations compute from its cells; under any interference Blocked means that an object another owner controlled lived under the key, a read-only entry comes to exactly what its read met, and Done that no call failed; undisturbed it is Blocked, Skipped or Done exactly by the object that is there (ComesTo), its handler hears what the apply really did, and an object another owner controls blocks before any write, or fails the apply, as the options say |
| `Engine.ReadEntry` | pkg/component/read.go:17-53 | reads without writing; unless the read went to a past object, it succeeds exactly when its three steps do, and fails as not found exactly when the first failing step does |
| `Engine.ReconcileEntry` | pkg/component/create.go:320-401 | one turn: a closed guard blocks and a failing one fails before any call, behind an open one the outcome is accounted for exactly as above (Accounted); touched only behind an open guard, a processed managed entry applied the content computed from the cells exactly once, extraction only by a processed entry; it goes on exactly when nothing failed |
| `Engine.ReconcileResources` | pkg/component/create.go:312-404 | **Main result.** Entries in order, going on exactly from processed and skipped ones; the writes are exactly their applies, in that order, each with the content computed from the cells as the entries before had filled them; every outcome is accounted for by its guard, its options and the objects it met; results are exactly those of the outcomes; every applied or read entry finds each guarded cell set, and each cell with the value of the latest earlier processed producer of this pass; the cells end as the extractions left them; it gives up only where something failed or the API server rejects the apply |
| `Engine.UndisturbedPass` | pkg/component/create.go:312-404 | in an undisturbed pass a closed guard blocks an entry, and behind an open one the object it has when the pass begins decides exactly whether it is Blocked, Skipped or Done |
| `Engine.NothingInTheWay` | pkg/component/create.go:312-404 | **Main result.** An undisturbed pass over a validated data flow reaches and processes every entry exactly when, as it begins, every custom guard is open, every read object is there, and no applied one is kept from the owner by its options or by the API server |
| `Building.AllAcceptedExactly` | pkg/component/builder.go:126-176 | all registrations take effect exactly when each is sound and the identities are distinct |
| `Building.AcceptedDistinct` | pkg/component/builder.go:146-157 | no identity is registered twice |
| `Building.PlacesPartition` | pkg/component/builder.go:159-175 | the reconcile, delete and orphan lists hold each identity as often as the registrations |
| `Building.EveryRegistrationPlaced` | pkg/component/builder.go:159-175 | each registration stands in the list its options name and in no other |
| `Building.OptionsHonoured` | pkg/component/builder.go:159-175 | by its options alone: a registration is in the orphan list exactly for OrphanWhen(true), in the delete list exactly for DeleteWhen(true) or a last gate that is disabled, in the reconcile list exactly for neither; its key is in no other |
| `Building.RegistrationOrder` | pkg/component/builder.go:159-175 | each list keeps the order of the registrations |
| `Building.HistoryPartitions` | pkg/component/builder.go:126-176 | after any registrations an identity lies in at most one list, and a read-only entry only in the reconcile list |
| `Building.CellsCovered` | pkg/component/builder.go:63-65 | the cells a component clears include every cell its entries mention |
| `Building.Builder.WithResource` | pkg/component/builder.go:126-176 | either the registration takes effect in its list or an error is recorded and the lists stay; OptionsHonoured says which list |
| `Building.Builder.IncludeWhen` | pkg/component/builder.go:198-210 | registers nothing when false, an error for a nil function, else as WithResource |
| `Building.Builder.WithGracePeriod` | pkg/component/builder.go:247-254 | a negative period is refused and recorded |
| `Building.Builder.WithFeatureGate` | pkg/component/builder.go:267-280 | a second gate is refused and recorded, a nil one ignored |
| `Building.Builder.Build` | pkg/component/builder.go:50-71 | **Main result.** Succeeds exactly when no call failed, name and type were given and the data flow is sound; then every registration lies in exactly the list its own options ask for (Honoured), and the lists keep the order of the registrations |
| `Components.ManagedExactly` | pkg/component/component.go:627-635 | the managed entries are those that are not read-only |
| `Components.ManagedResources` | pkg/component/component.go:627-635 | the loop collects them in order |
| `Components.ManagedDistinct` | pkg/component/component.go:577-586 | managed, deleted and orphaned identities never coincide |
| `Components.ReadOnlyUntouched` | pkg/component/component.go:577-586 | no write a component may make names a read-only entry |
| `Components.AppliedAs` | pkg/component/create.go:460-500 | what an apply of an entry leaves: the declared fields on top of those there were; the owner's references gone when unowned, the owner as controller beside the other references when it can own the object, and the references as they were otherwise |
| `Components.RegistrationKept` | pkg/component/resource_options.go:96-245 | **Main result.** What the options of a registration promise of every write a pass of the built component may make to its object: none when read-only, only a release exactly for OrphanWhen(true), only a delete for DeleteWhen(true) or a disabled gate, a delete only as BlockOnForeignController and DeleteOnlyIfOwned permit, and no apply with the owner's reference onto another owner's object |
| `Components.HealthyProcessedAll` | pkg/component/create.go:312-404 | all participators healthy means every entry was processed, none blocked, each required one with a status healthy |
| `Components.HealthyPass` | pkg/component/component.go:502-546 | a pass ending Healthy processed every entry that way, and none of its deletes and releases failed |
| `Components.SuspendedPass` | pkg/component/component.go:480-500 | **Main result.** A pass ending Suspended, under any interference: every suspendable managed entry was left alone for a reason the pass met, or its suspended content was applied, its data extracted, no suspension still under way reported and the delete it asked for not failed; and none of the deletes and releases failed |
| `Components.DisabledPass` | pkg/component/component.go:441-454 | a pass ending Disabled: no deletion of a managed object and no release failed, and where nobody interfered none of these objects that may be deleted is left and no orphan is owned |
| `Components.UndisturbedProcessesAll` | pkg/component/component.go:502-512 | a normal pass without interference processes every entry exactly when nothing stood in the way of any when it began |
| `Components.UndisturbedPassIsHealthy` | pkg/component/component.go:502-546 | **Main result.** When moreover the handlers that count answer healthy and no delete or release is disturbed, the pass ends True and Healthy from any condition, returns no error, and leaves nothing that is to go |
| `Components.FailureShows` | pkg/component/component.go:407-547 | when a pass returns an error, by the condition it leaves; an Error condition without one comes from results that could not be graded |
| `Components.Component.Finish` | pkg/component/component.go:538-546 | deletes and then orphans, each write safe. Under any interference: each outcome is justified, no release is tried after a failed delete, and success means exactly that nothing failed; without, success means that nothing that may be deleted is left and no orphan is owned, only a failing call prevents it, and every other object is as it was |
| `Components.Component.SuspendManaged` | pkg/component/component.go:480-485 | the managed entries are suspended one by one, each with its suspended content; every write is safe, and on an owned object where the options ask for it; every answer is accounted for; undisturbed the statuses are the entries' own answers, or an error where the API server rejects an apply, and every object is left as it should be |
| `Components.Component.SuspensionPass` | pkg/component/component.go:480-500 | the suspended branch leaves the condition Passes computes from those answers, and to the end of the pass the objects as the suspension left them |
| `Components.Component.Converge` | pkg/component/component.go:512-536 | the converge step: stamped and replaced when entering the machine, merged otherwise |
| `Components.Component.ConvergePass` | pkg/component/component.go:502-546 | the normal branch leaves that condition and the record of its entries, outcomes, provenance and content included: applies first, in registration order, then deletions and releases |
| `Components.Component.Conclude` | pkg/component/component.go:490-546 | the deletes and orphans that end either branch, with all Finish says of them, and the Error condition on top exactly when they fail |
| `Components.Component.GateOff` | pkg/component/component.go:441-454 | a disabled gate deletes everything managed and releases the orphans, with all Finish says of them; Disabled exactly when none failed, Error otherwise |
| `Components.Component.Engage` | pkg/component/component.go:480-547 | behind gate and prerequisites: the suspended or the normal branch, with all Reconcile says of it |
| `Components.Component.ClearCells` | pkg/component/component.go:417-421 | no cell an entry mentions is set when the pass begins |
| `Components.Component.Reconcile` | pkg/component/component.go:407-547 | **Main result.** Any pass on any path (PassEnded): the condition, the convergence time, exactly when it returns an error, safe writes only, nothing applied unless the pass engages, a normal and a suspended pass entry by entry with every outcome and answer accounted for and the content of every apply, each value used from the latest producer of this pass, the cells as these left them, deletes and releases reported finished exactly when none failed, and undisturbed every suspended object as it should be and nothing left behind that is to go |
| `Components.Component.GraceRemaining` | pkg/component/component.go:220-225 | a delay exactly while a grace period is pending: never while suspended, graded, or once the last converge step ran past the deadline; at its end the period is over for both times, and it overshoots by at most a second |
| `Controller.FindKept` | pkg/component/component.go:691-708 | a flush keeps every condition, in whole seconds |
| `Controller.HeldBackNeverEngages` | pkg/component/component.go:457-476 | a component held back over its past does not engage |
| `Controller.Run` | pkg/component/component.go:668-690 | **Main result.** Over any run of requests, each with the component as built for it, so suspended, resumed or changed in between: what every pass did in the world the last one left, the stored condition as the facts lead to it, all writes safe and sparing read-only objects, and nothing applied while held back |
| `Controller.ResultKnown` | pkg/component/create.go:312-404 | the results of a pass are Blocked or answers of its handlers, so known statuses and built-in primitives can be read off the requests |
| `Controller.RunIsReadyRightly` | pkg/component/component.go:407-547 | **Main result.** Over recognised statuses, in every pass of every such run True holds exactly for Healthy, Suspended and Disabled, and a pass ending Healthy processed every reconcile entry, found every required status healthy, and failed no delete or release; where nobody interfered with these, nothing that is to go is left |
| `Controller.RunKeepsClock` | pkg/component/component.go:514-546 | **Main result.** A run that never becomes ready keeps, stored, the time its clock started at, whether it began outside the machine, from Healthy, or with the clock running |
| `Controller.RunIsGraded` | pkg/component/converge.go:172-184 | **Main result.** Such a run over the built-in primitives is graded by the first converge step after the period |
| `Mutators.ApplyPresenceOp` | pkg/primitives/deployment/mutator.go:447-470 | replaces in place, appends, removes the first of the name, or does nothing |
| `Mutators.PresenceRefinesMap` | pkg/primitives/deployment/mutator.go:447-470 | on unique names this is a map update by name, keeps names unique and the other containers in order |
| `Mutators.ByNameExactly` | pkg/primitives/deployment/mutator.go:447-470 | the map by name holds exactly the list's containers |
| `Mutators.ApplyContainerEdits` | pkg/primitives/cronjob/mutator.go:348-372 | the nested loops, with the state at a failing edit |
| `Mutators.EditFirstPointwise` | pkg/primitives/deployment/mutator.go:389-414 | each container goes through its own selected edits, whatever happens to others |
| `Mutators.LoopOrderIrrelevant` | pkg/primitives/deployment/mutator.go:389-414 | **Main result.** Container by container fails exactly when edit by edit on snapshots does, and otherwise gives the same containers |
| `Mutators.ApplyEdits` | pkg/primitives/deployment/mutator.go:350-357 | edits of one target in order up to the first failure |
| `Mutators.Mutator.Record` | pkg/primitives/deployment/mutator.go:97-146 | a recorder appends to the active plan only; nil selectors and edits are ignored |
| `Mutators.EveryCallRecorded` | pkg/primitives/deployment/mutator.go:97-146 | every call is in the plan, in the list of its category |
| `Mutators.OnlyCallsRecorded` | pkg/primitives/deployment/mutator.go:97-146 | and nothing else is |
| `Mutators.Mutator.Apply` | pkg/primitives/deployment/mutator.go:347-445 | every plan in order, eight categories each, up to the first failure; plans stay recorded (what that comes to: PlanExactly, FeaturesChain) |
| `Mutators.PlanExactly` | pkg/primitives/deployment/mutator.go:347-445 | **Main result.** What one feature comes to, without the steps in between: metadata and spec edits on what it finds, template and pod edits on what the spec edits left, containers on what the pod edits left; it fails exactly when one of these does |
| `Mutators.EditsChain` | pkg/primitives/deployment/mutator.go:350-357 | the edits of one category make a chain of values, each from the one before, none skipped, up to the first that fails |
| `Mutators.FeaturesChain` | pkg/primitives/deployment/mutator.go:347-445 | so do the features, and Apply fails exactly when one it reaches does |
| `Mutators.MetadataLands` | pkg/primitives/deployment/mutator.go:350-357 | what a feature's metadata edits establish, and none breaks again, is in the object's metadata |
| `Mutators.SpecLands` | pkg/primitives/deployment/mutator.go:359-366 | the same for its spec edits, whatever its other edits do |
| `Mutators.TemplateLands` | pkg/primitives/deployment/mutator.go:369-377 | the same for its template edits and the template's metadata, whatever its spec edits did to the template |
| `Mutators.PodLands` | pkg/primitives/deployment/mutator.go:379-387 | the same for its pod edits, outside the lists of containers |
| `Mutators.FeatureLands` | pkg/primitives/deployment/mutator.go:347-445 | what a feature establishes is there after Apply unless a later feature breaks it |
| `Mutators.TemplateKeyStays` | pkg/primitives/deployment/mutator.go:369-377 | in particular a key its template edits put, when no later edit touches it |
| `Mutators.EnsuredThenEdited` | pkg/primitives/deployment/mutator.go:347-445 | a container a feature ensures, and does not touch again, is there for that feature's container edits, whatever its spec and pod edits do |
| `Mutators.EnsuredInitThenEdited` | pkg/primitives/deployment/mutator.go:416-441 | the same for init containers |
| `Mutators.CategoriesCommute` | pkg/primitives/deployment/mutator.go:321-338 | **Main result.** Only the order within a category counts: neighbouring calls of different categories may be swapped |
| `Mutators.ApplyIntent` | pkg/feature/feature.go:33-49 | fails for a failing gate, a nil or failing function; a disabled gate records nothing |
| `Mutators.ApplyMutations` | pkg/generic/mutate_helper.go:13-57 | one plan per mutation, applied once, and a second time with the suspender's plan |
| `Mutators.DisabledLeavesNoTrace` | pkg/feature/feature.go:33-49 | a mutation whose gate is disabled is as if it had never been registered, in a suspension too |
| `Mutators.SuspendedHasNoReplicas` | pkg/primitives/deployment/handlers.go:179-182 | whatever the mutations do, the default suspension ends with replicas 0 and adds no failure of its own |
| `Editors.SetEnvRefinesMap` | pkg/mutation/editors/container.go:31-39 | ensuring a variable is a map update by name |
| `Editors.DropEnvRefinesMap` | pkg/mutation/editors/container.go:49-53 | removing a variable removes the name |
| `Editors.SetEnvNames` | pkg/mutation/editors/container.go:31-39 | names stay unique, and the list holds the new variable and exactly the variables of other names |
| `Editors.DropEnvNames` | pkg/mutation/editors/container.go:49-53 | names stay unique, and exactly the variables of other names stay |
| `Editors.DropArgExactly` | pkg/mutation/editors/container.go:78-82 | removes every occurrence of the argument and no other |
| `Editors.ContainerEditor.EnsureEnvVar` | pkg/mutation/editors/container.go:31-39 | the loop replaces the first variable of the name or appends |
| `Editors.ContainerEditor.RemoveEnvVar` | pkg/mutation/editors/container.go:49-53 | the loop keeps the others in order |
| `Editors.ContainerEditor.RemoveArg` | pkg/mutation/editors/container.go:78-82 | the loop keeps the others in order |
| `Replay.ExecTwice` | pkg/generic/mutate_helper.go:29-54 | any sequence of appearing, vanishing and keyed changes under one name is idempotent as a whole |
| `Replay.EditAllAt` | pkg/primitives/deployment/mutator.go:389-414 | keyed edits by name act on each name alone |
| `Replay.PlansAt` | pkg/primitives/deployment/mutator.go:347-445 | running all plans shows, under each name, what its own operations make of it |
| `Replay.SuspensionReplays` | pkg/generic/mutate_helper.go:29-54 | **Main result.** The suspended object shows under every container name what the unsuspended one shows plus the suspender's edits, although every plan ran twice |
| `Replay.DefaultSuspensionShowsTheSame` | pkg/primitives/deployment/handlers.go:179-182 | with the default suspension both show the same containers |
| `Replay.ReplayReorders` | pkg/primitives/deployment/mutator.go:447-470 | the order of containers may change on replay: a family of plans |
| `ReplayOrder.SecondRunKeeps` | pkg/primitives/deployment/mutator.go:447-470 | a second run changes nothing but the order: what no operation removes comes first, what some operation removes follows |
| `ReplayOrder.OrderKeptExactly` | pkg/primitives/deployment/mutator.go:447-470 | exactly when the names keep their order, read off the names and the operations before either run |
| `ReplayOrder.ReplayKeepsExactly` | pkg/primitives/deployment/mutator.go:447-470 | **Main result.** The same for the whole list of containers |
| `Replay.DefaultSuspensionKeepsOrderExactly` | pkg/generic/mutate_helper.go:29-54 | the same for the containers of a Deployment suspended by default, over all its mutations |
| `Links.ClosingDelimiter` | internal/pluginsync/sync.go:298-314 | the least index of a backtick run of exactly the delimiter's length that no neighbour extends, or -1, for every string |
| `Links.PartsConserve` | internal/pluginsync/sync.go:273-295 | cutting a paragraph into prose and code spans loses nothing |
| `Links.CodeIsSpan` | internal/pluginsync/sync.go:273-295 | each code span is two runs of equal length around a text without such a run (section 6.1 of the CommonMark Spec 0.31.2) |
| `Links.SpanFoundExactly` | internal/pluginsync/sync.go:273-295 | a code span is found exactly when the first run of backticks is followed by one of its length |
| `Links.NextSpanEnds` | internal/pluginsync/sync.go:273-295 | it begins with that first run and ends with the nearest match |
| `Links.MapOutsideCodeSpans` | internal/pluginsync/sync.go:273-295 | prose goes through the function, code spans stay |
| `Links.MapProseAt` | internal/pluginsync/sync.go:273-295 | every part comes out at its own place, mapped or verbatim by its kind |
| `Links.ReplaceFirstGroup` | internal/pluginsync/sync.go:243-253 | only the matched groups change |
| `Links.ReplacedAt` | internal/pluginsync/sync.go:243-253 | every matched group comes out mapped, between the text before and after it |
| `Links.RewriteParagraph` | internal/pluginsync/sync.go:209-213 | the patterns are applied one after the other (RewriteInTurn) |
| `Links.RewriteInTurn` | internal/pluginsync/sync.go:209-213 | rewriting with two lists of patterns is rewriting with the one and then with the other |
| `Links.RewriteOnly` | internal/pluginsync/sync.go:209-213 | a text that only one pattern matches, whichever, has every group of that pattern mapped |
| `Links.SplitConserves` | internal/pluginsync/sync.go:219-219 | splitting after line feeds loses nothing and cuts at every line feed |
| `Links.MapLinks` | internal/pluginsync/sync.go:206-240 | **Main result.** The line loop with its paragraph and fence state equals the mapping by blocks |
| `Links.IdentityConserves` | internal/pluginsync/sync.go:206-240 | **Main result.** With the identity function the input comes back, for every text and any patterns |
| `Links.LinksMapped` | internal/pluginsync/sync.go:206-240 | **Main result.** A paragraph without code spans that only one pattern matches, whichever, comes out at its place with every group of that pattern mapped |
| `Links.ParagraphMapped` | internal/pluginsync/sync.go:218-238 | every paragraph comes out rewritten right after the output of the lines before it |
| `Links.FencedVerbatim` | internal/pluginsync/sync.go:222-232 | a line that opens, fills or closes a fenced block, and a blank line, stands verbatim right after the output of the lines before it, for any function |
| `Links.BlocksAreIndependent` | internal/pluginsync/sync.go:218-238 | after a blank line outside fences, or a closing fence line, the rewriting starts afresh: no paragraph or code span reaches across |
| `Links.FenceStaysOpen` | internal/pluginsync/sync.go:256-270 | a fence stays open over every line that does not close it |
| `Links.FenceCloses` | internal/pluginsync/sync.go:222-232 | the first line that closes it ends a fenced block |
| `Links.FenceMarkerExactly` | internal/pluginsync/sync.go:256-270 | a line, trimmed, opens a fence exactly when it begins with three backticks or three tildes; the marker is the longest such run, and exactly a run of its character, at least as long, closes it |
| `Links.TrimExactly` | internal/pluginsync/sync.go:218-220 | trimming takes spaces off both ends and all of them; a line is blank exactly when it holds nothing else |
| `Strings.SortCanonical` | pkg/mutation/editors/hpaspec.go:157-168 | sorted lists are equal exactly when the multisets are |
| `RelativePaths.RelativePath` | internal/pluginsync/sync.go:145-156 | the loop computes the relative path over the common folders |
| `RelativePaths.RoundTrip` | internal/pluginsync/sync.go:145-156 | **Main result.** For a clean target, joining the folder with the relative path gives it back exactly when the folder's part past the shared one consists of names |
| `RelativePaths.FolderRoundTrip` | internal/pluginsync/sync.go:145-156 | a document inside named folders always gets back |
| `RelativePaths.TopLevelFails` | internal/pluginsync/sync.go:146-146 | a document at the top level never does |
| `Selectors.LabelSelectorsEqual` | pkg/mutation/editors/hpaspec.go:144-171 | nil handling, labels, lengths and sorted canonical keys |
| `Selectors.CanonExactly` | pkg/mutation/editors/hpaspec.go:157-164 | canonical keys of NUL-free expressions are equal exactly when key, operator and values as a multiset are, up to the list of one empty string |
| `Selectors.TokensExactly` | pkg/mutation/editors/hpaspec.go:159-168 | for all strings: two expressions have one canonical key exactly when key, operator and sorted values, cut at every NUL, are the same list of tokens |
| `Selectors.EqualExactly` | pkg/mutation/editors/hpaspec.go:144-171 | the comparison holds exactly when labels are equal and expressions are the same multiset of meanings |
| `Selectors.EqualByTokens` | pkg/mutation/editors/hpaspec.go:144-171 | **Main result.** For all strings: the comparison holds exactly when labels are equal and the expressions, each as the tokens between its NULs, are the same multiset |
| `Selectors.EqualUpToOrder` | pkg/mutation/editors/hpaspec.go:141-171 | reordering expressions and values never shows, for any strings; over NUL-free strings without a list of one empty string nothing else passes |
| `Selectors.Collisions` | pkg/mutation/editors/hpaspec.go:159-168 | different expressions with one key: two concrete families |
| `Selectors.MatchingIsEquivalence` | pkg/mutation/editors/hpaspec.go:96-139 | matching is a partial equivalence on all metrics, reflexive exactly for those with a source |
| `Selectors.HPASpecEditor.EnsureMetric` | pkg/mutation/editors/hpaspec.go:56-64 | the loop replaces the first match or appends |
| `Selectors.EnsureIsUpsert` | pkg/mutation/editors/hpaspec.go:56-64 | one entry per identity is kept, other metrics stay, and it is idempotent exactly for metrics with a source |
| `Selectors.ApartStay` | pkg/mutation/editors/hpaspec.go:96-139 | ensuring a metric never touches one of another kind, name, container, described object or label |
| `Selectors.SameIsReplaced` | pkg/mutation/editors/hpaspec.go:96-139 | and replaces the one of the same kind, names, described object and selector, up to order |
| `Aggregation.Aggregate` | pkg/component/aggregate.go:62-103 | True exactly for a non-empty list of True conditions; reason and name come from the governing component |
| `Aggregation.WeightIsOrder` | pkg/component/aggregate.go:110-119 | superseding is the strict order by (not True, priority) |
| `Aggregation.GoverningExactly` | pkg/component/aggregate.go:78-90 | **Main result.** The governing component is the first of greatest weight, and only that one |
| `Aggregation.GoverningByAttention` | pkg/component/status.go:221-266 | the governing condition is False when any is, and no other of the same truth comes earlier in the order of attention, written out |
| `Aggregation.OrderIrrelevant` | pkg/component/aggregate.go:78-95 | truth and governing weight do not depend on the order of the components |
| `Aggregation.TruthFollowsGovernor` | pkg/component/aggregate.go:78-95 | the aggregate is True exactly when the governing condition is |

## Left out

- ApplyResource: server-side apply is a merge of the declared fields and of the owner reference; dropping fields by field ownership, finalizers and admission are not modelled.
- ProcessEntry: under interference an apply without the owner's reference (an unowned entry, or one the owner's scope keeps from referencing) may land on an object another owner claimed after the check; the source accepts that race (pkg/component/delete.go:142-146).
- Reconcile: messages, events other than those of deletion and orphaning, logs, metrics and the hash in the field manager are formatting.
- SuspensionReplays: ensured containers carry no variables and no arguments, because the source stores them with slices shared between the plan and the live object, which a model on values cannot see; edits by index or that rename are outside the property.
- MapLinks: the two regular expressions are arbitrary functions that answer ordered disjoint ranges; which links they match, and full CommonMark, are not part of this model.
- RoundTrip: is about relative paths and a clean target, as links between documents are; rooted paths are only computed.
- EnsureMetric: RemoveMetric, the setters and the target of a metric beyond its identity.
- Record: one method stands for the recorders of a plan, with the kind of edit as its argument; convenience wrappers over them are the same calls.
- Writes that land although the call reports a failure, such as a timeout after the server accepted the apply or delete itself; failures after a landed apply are modelled.
- The identity of a resource and the key of its object are one thing here; two identities for one object are a configuration mistake the builder does not detect either.
- The CronJob, DaemonSet, Job and Pod mutators beyond the container phases they share with the Deployment mutator, and the status handlers of Job and Pod.
- DataTopology, Preview, RegisteredMutations, FiringSet and readResources, which report without deciding anything.
- The client, the cache, the RESTMapper, schemes, reflection and deep copies; the CLI, templates, dashboards, simulator and end-to-end framework.
