/** The normal pass over the registered resources: guards, reads, applies and data extraction
    (reconcileResources in pkg/component/create.go, readResource in read.go, GuardStatus in
    pkg/generic/resource_base.go). */
module Engine {
  import opened Options
  import opened Statuses
  import opened Handlers
  import opened Converge
  import opened ApiServer
  import opened Deletion
  import opened Apply
  import opened ResourceOptions
  import opened DataFlow
  import opened Entries

  datatype CustomGuard = Unblocked | Blocks | GuardFails

  /** An error, and whether apierrors.IsNotFound holds of it. */
  datatype Failure = NoError | NotFoundError | OtherError

  /** The answers one resource's handlers give in a pass, and what other clients do meanwhile. A static
      resource has no converging handler; a handler that fails yields None, and so does an extraction. */
  datatype EntryEnv = EntryEnv(
    guard: CustomGuard, control: DeleteEnv, view: View, read: Call, record: Failure, apply: ApplyEnv,
    handler: Option<Operation -> Option<Status>>, handlerNotFound: bool, grading: Grading, extracted: seq<Option<int>>)

  ghost predicate Troubled(env: EntryEnv) {
    || env.guard == GuardFails || env.control.Faulty() || env.read.fault || env.record != NoError || env.apply.Faulty()
    || (env.handler.Some? && exists op :: env.handler.value(op) == None) || None in env.extracted
  }

  /** No other client acts while the entry is processed, its reads are live, and nothing fails. */
  ghost predicate Undisturbed(env: EntryEnv) {
    env.control.Calm() && env.view == Live && env.read.others == [] && env.apply.Calm() && !Troubled(env)
  }

  /** The moment an entry is applied or read, and the cells as they stand then. */
  datatype Step = Step(index: nat, cells: map<Data, int>)

  /** Which entries a pass has processed. */
  function Dones(outcomes: seq<Processed>): (dones: seq<bool>)
    ensures |dones| == |outcomes|
  {
    seq(|outcomes|, i requires 0 <= i < |outcomes| => outcomes[i].Done?)
  }

  function Extractions(envs: seq<EntryEnv>): (extracted: seq<seq<Option<int>>>)
    ensures |extracted| == |envs|
  {
    seq(|envs|, i requires 0 <= i < |envs| => envs[i].extracted)
  }

  /** The cells a pass has filled. */
  ghost function CellsAfter(entries: seq<Entry>, envs: seq<EntryEnv>, outcomes: seq<Processed>): map<Data, int>
    requires |outcomes| <= |entries| == |envs|
  {
    CellsFilled(entries, Extractions(envs), Dones(outcomes))
  }

  /** `v` is what the latest processed producer of `c` extracted. */
  ghost predicate FromLatest(c: Data, v: int, entries: seq<Entry>, envs: seq<EntryEnv>, outcomes: seq<Processed>)
    requires |outcomes| <= |entries| == |envs|
  {
    FromLatestProducer(c, v, entries, Extractions(envs), Dones(outcomes))
  }

  ghost predicate AllRan(entries: seq<Entry>, envs: seq<EntryEnv>, outcomes: seq<Processed>)
    requires |outcomes| <= |entries| == |envs|
  {
    Complete(entries, Extractions(envs), Dones(outcomes))
  }

  /** GuardStatus: declared data guards first, then the custom guard. */
  method GuardStatus(e: Entry, guard: CustomGuard) returns (r: CustomGuard)
    requires null !in ReadCells(e)
    ensures r == Blocks <==> MissingData(e) || guard == Blocks
    ensures r == GuardFails <==> !MissingData(e) && guard == GuardFails
  {
    var missing := 0;
    for k := 0 to |e.consumes|
      invariant missing > 0 <==>
                  exists j :: 0 <= j < k && !e.consumes[j].optional && ReadCells(e)[j] != null && !ReadCells(e)[j].isSet
    {
      assert ReadCells(e)[k] in ReadCells(e);
      if e.consumes[k].optional || e.consumes[k].cell.isSet {
        continue;
      }
      missing := missing + 1;
    }
    return if missing > 0 then Blocks else guard;
  }

  ghost predicate MissingData(e: Entry)
    reads set c: Data | c in ReadCells(e)
  {
    exists j :: 0 <= j < |e.consumes| && !e.consumes[j].optional && ReadCells(e)[j] != null &&
                (assert ReadCells(e)[j] in ReadCells(e); !ReadCells(e)[j].isSet)
  }

  /** Blocked and Skipped leave the entry unprocessed; Done carries the converging status, if any. */
  datatype Processed = Blocked | Skipped | Done(status: Option<Status>) | ProcessFailed

  /** The handler answered `status` for some operation; a read-only entry is always asked about NoChange. */
  ghost predicate Answered(env: EntryEnv, readOnly: bool, status: Option<Status>) {
    if env.handler == None then status == None
    else status.Some? && exists op :: env.handler.value(op) == status && (readOnly ==> op == NoChange)
  }

  /** Some guarded cell is not set, or the custom guard blocks. */
  ghost predicate Closed(e: Entry, env: EntryEnv, cells: map<Data, int>) {
    (exists r <- e.consumes :: !r.optional && r.cell != null && r.cell !in cells) || env.guard == Blocks
  }

  predicate Foreign(objects: map<Key, Object>, key: Key, owner: Uid) {
    key in objects && ForeignControlled(objects[key], owner)
  }

  /** The options keep the entry from an object that another owner controls. */
  predicate KeptFrom(objects: map<Key, Object>, e: Entry, owner: Uid) {
    !e.options.readOnly && e.options.blockOnForeignController && Foreign(objects, e.key, owner)
  }

  /** Some object that lived under the key had another controller. */
  ghost predicate OnceForeign(archive: map<Version, Object>, key: Key, owner: Uid) {
    exists v <- archive :: archive[v].key == key && ForeignControlled(archive[v], owner)
  }

  /** The first of a read's three steps that fails meets a not-found error. */
  ghost predicate NotThere(e: Entry, env: EntryEnv, objects: map<Key, Object>) {
    && !env.read.fault
    && (|| env.view == PastAbsent || e.key !in objects || env.record == NotFoundError
        || (env.record == NoError && env.handler.Some? && env.handler.value(NoChange) == None && env.handlerNotFound))
  }

  /** All three steps of a read succeed. */
  ghost predicate Readable(e: Entry, env: EntryEnv, objects: map<Key, Object>) {
    && !env.read.fault && env.view != PastAbsent && e.key in objects && env.record == NoError
    && (env.handler.Some? ==> env.handler.value(NoChange).Some?)
  }

  /** What a read-only entry comes to by what its read met. */
  ghost predicate ReadComesTo(e: Entry, env: EntryEnv, outcome: Processed, objects: map<Key, Object>) {
    && (outcome == Skipped <==> e.options.ignoreIfAbsent && NotThere(e, env, objects))
    && (outcome == Blocked <==> e.options.blockOnAbsence && !e.options.ignoreIfAbsent && NotThere(e, env, objects))
    && (outcome.Done? <==> Readable(e, env, objects))
  }

  /** Why an entry behind an open guard came to `outcome`, whatever other clients do. It is skipped or blocked only
      if a read met no object where the options say what to do then, or the controller check read one that another
      owner controls; it is done only if no call failed; and unless the read went to a past object, what it met
      decides. */
  ghost predicate Explained(e: Entry, env: EntryEnv, outcome: Processed, objects: map<Key, Object>,
                            archive: map<Version, Object>, owner: Uid) {
    && (e.options.readOnly && !env.view.Past? ==> ReadComesTo(e, env, outcome, objects))
    && match outcome
       case Skipped => e.options.readOnly && e.options.ignoreIfAbsent && NotThere(e, env, objects)
       case Blocked =>
         if e.options.readOnly
         then e.options.blockOnAbsence && !e.options.ignoreIfAbsent && NotThere(e, env, objects)
         else e.options.blockOnForeignController && OnceForeign(archive, e.key, owner)
       case Done(status) => Answered(env, e.options.readOnly, status) && !Failing(e, env)
       case ProcessFailed => true
  }

  /** A call that the entry cannot be processed without fails. */
  predicate Failing(e: Entry, env: EntryEnv) {
    if e.options.readOnly then env.read.fault || env.record != NoError
    else env.apply.Faulty() || (e.options.blockOnForeignController && env.control.read.fault)
  }

  /** What an undisturbed entry behind an open guard comes to, by the object that is there. */
  ghost predicate ComesTo(e: Entry, outcome: Processed, objects: map<Key, Object>, owner: Uid) {
    && (outcome == Blocked <==>
        if e.options.readOnly then e.key !in objects && e.options.blockOnAbsence && !e.options.ignoreIfAbsent
        else KeptFrom(objects, e, owner))
    && (outcome == Skipped <==> e.options.readOnly && e.key !in objects && e.options.ignoreIfAbsent)
    && (outcome.Done? <==>
        if e.options.readOnly then e.key in objects
        else !KeptFrom(objects, e, owner) && !Refuses(objects, e.key, RefsOf(e, owner)))
  }

  /** The controller check and the read or apply of one entry whose guard is open. */
  method ProcessEntry(server: Server, owner: Uid, e: Entry, env: EntryEnv) returns (r: Processed, ghost touched: bool)
    requires server.Valid() && null !in ReadCells(e)
    modifies server
    ensures server.Valid() && server.Extends()
    ensures server.writes == old(server.writes) ||
            (!e.options.readOnly && touched
             && |server.writes| > 0 && server.Wrote(server.writes[|server.writes| - 1])
             && Lands(server.writes[|server.writes| - 1], DesiredOf(e, owner, old(Values(e))), None))
    ensures Explained(e, env, r, server.objects, server.archive, owner)
    ensures r == Blocked && !e.options.readOnly ==> !touched
    ensures r.Done? ==> touched
    ensures r.Done? && !e.options.readOnly ==> server.writes != old(server.writes)
    ensures r == ProcessFailed ==> MayFail(e, env) || RefusesEntry(server.objects, e, owner)
    ensures Undisturbed(env) ==>
              && ComesTo(e, r, old(server.objects), owner) && OthersKept(old(server.objects), server.objects, e.key)
              && (!r.Done? ==> server.objects == old(server.objects) && server.writes == old(server.writes))
    // Without interference the handler hears what the apply did, and another owner's object blocks the
    // entry before any write.
    ensures !e.options.readOnly && env.control.Calm() && env.apply.Calm() && !env.apply.Faulty() && r.Done?
              && env.handler.Some? ==>
              && e.key in server.objects
              && r.status == env.handler.value(Changed(old(server.objects), server.objects, e.key))
    ensures env.control.Calm() && !env.control.Faulty() && KeptFrom(old(server.objects), e, owner) ==>
              r == Blocked && server.objects == old(server.objects) && server.writes == old(server.writes)
    // Without the option the API server rejects the apply instead.
    ensures !e.options.blockOnForeignController && env.apply.Calm() && !env.apply.Faulty()
              && RefusesEntry(old(server.objects), e, owner)
            ==> r == ProcessFailed && server.objects == old(server.objects) && server.writes == old(server.writes)
  {
    touched := false;
    if e.options.blockOnForeignController && !e.options.readOnly {
      var observation := ObserveController(server, owner, e.key, env.control.view, env.control.read);
      if observation == ObservationFailed {
        return ProcessFailed, touched;
      }
      if observation.foreign {
        assert server.archive[observation.live.value.version] == observation.live.value;
        return Blocked, touched;
      }
    }

    touched := true;
    if e.options.readOnly {
      var status, error := ReadEntry(server, e, env);
      if error == NotFoundError && e.options.ignoreIfAbsent {
        return Skipped, touched;
      }
      if error == NotFoundError && e.options.blockOnAbsence {
        return Blocked, touched;
      }
      return if error == NoError then Done(status) else ProcessFailed, touched;
    }
    var reply := ApplyResource(server, DesiredOf(e, owner, Values(e)), None, env.apply);
    if !reply.ApplyDone? {
      return ProcessFailed, touched;
    }
    if env.handler == None {
      return Done(None), touched;
    }
    var status := env.handler.value(reply.operation);
    return if status == None then ProcessFailed else Done(status), touched;
  }

  /** readResource: any of its three steps may fail with a not-found error. */
  method ReadEntry(server: Server, e: Entry, env: EntryEnv) returns (status: Option<Status>, error: Failure)
    requires server.Valid()
    modifies server
    ensures server.Untouched()
    ensures error == NoError ==> Answered(env, true, status) && env.record == NoError
    ensures error == NotFoundError ==> NotThere(e, env, server.objects)
    ensures error == NoError ==> !env.read.fault
    ensures !env.view.Past? ==>
              && (error == NotFoundError <==> NotThere(e, env, server.objects))
              && (error == NoError <==> Readable(e, env, server.objects))
    ensures env.read.others == [] ==> server.objects == old(server.objects)
    ensures env.view == Live && !Troubled(env) ==>
              error == if e.key in server.objects then NoError else NotFoundError
    ensures error != NoError ==>
              || env.read.fault || env.record == error || (env.handler.Some? && env.handler.value(NoChange) == None)
              || (error == NotFoundError && (env.view == Live ==> e.key !in server.objects))
  {
    status := None;
    var read := server.Get(e.key, env.view, env.read);
    if !read.Found? {
      return status, if read == Absent then NotFoundError else OtherError;
    }
    if env.record != NoError {
      return status, env.record;
    }
    if env.handler == None {
      return status, NoError;
    }
    status := env.handler.value(NoChange);
    error := if status.Some? then NoError else if env.handlerNotFound then NotFoundError else OtherError;
  }

  /** The pass gives up on the entry: a handler, a call or an extraction failed, or a read-only object is
      absent and no option says what to do. */
  ghost predicate MayFail(e: Entry, env: EntryEnv) {
    Troubled(env) || (e.options.readOnly && !e.options.ignoreIfAbsent && !e.options.blockOnAbsence)
  }

  /** The entry's object has another controller, and the API server rejects the entry's apply. */
  predicate RefusesEntry(objects: map<Key, Object>, e: Entry, owner: Uid) {
    !e.options.readOnly && Refuses(objects, e.key, RefsOf(e, owner))
  }

  /** The result an outcome contributes; Blocked and a converging status do, the rest is silent. */
  function ResultOf(e: Entry, env: EntryEnv, outcome: Processed): seq<Result> {
    match outcome
    case Blocked => [Result(GuardBlocked, e.options.required, env.grading, None)]
    case Done(Some(status)) => [Result(status, e.options.required, env.grading, None)]
    case _ => []
  }

  ghost function ResultsOf(entries: seq<Entry>, envs: seq<EntryEnv>, outcomes: seq<Processed>): seq<Result>
    requires |outcomes| <= |entries| == |envs|
  {
    if outcomes == [] then []
    else
      var n := |outcomes| - 1;
      ResultsOf(entries, envs, outcomes[..n]) + ResultOf(entries[n], envs[n], outcomes[n])
  }

  /** What holds at the moment an entry is applied or read: every cell it guards on is set, the cells are
      those the processed entries before it filled, and each holds the value of the latest of these that
      produces it. */
  ghost predicate Provenance(s: Step, entries: seq<Entry>, envs: seq<EntryEnv>, outcomes: seq<Processed>)
    requires |outcomes| <= |entries| == |envs|
  {
    && s.index < |outcomes|
    && (forall r <- entries[s.index].consumes :: !r.optional ==> r.cell != null && r.cell in s.cells)
    && s.cells == CellsAfter(entries, envs, outcomes[..s.index])
    && (forall c <- s.cells :: FromLatest(c, s.cells[c], entries, envs, outcomes[..s.index]))
  }

  /** An outcome accounted for, by the cells the entry met, the objects `before` and `after` it and everything stored
      up to then: a closed guard blocks it and a failing one fails it, with no call made; behind an open one
      Explained says why it came to that, and without interference ComesTo says exactly what becomes of it. */
  ghost predicate Accounted(e: Entry, env: EntryEnv, outcome: Processed, cells: map<Data, int>,
                            before: map<Key, Object>, after: map<Key, Object>, archive: map<Version, Object>,
                            owner: Uid) {
    && (if Closed(e, env, cells) then outcome == Blocked && after == before
        else if env.guard == GuardFails then outcome == ProcessFailed && after == before
        else Explained(e, env, outcome, after, archive, owner))
    && (Undisturbed(env) ==>
        && OthersKept(before, after, e.key) && (!outcome.Done? ==> after == before)
        && (!Closed(e, env, cells) ==> ComesTo(e, outcome, before, owner)))
  }

  lemma AccountedLater(e: Entry, env: EntryEnv, outcome: Processed, cells: map<Data, int>, before: map<Key, Object>,
                       after: map<Key, Object>, archive: map<Version, Object>, later: map<Version, Object>, owner: Uid)
    requires Accounted(e, env, outcome, cells, before, after, archive, owner)
    requires forall v <- archive :: v in later && later[v] == archive[v]
    ensures Accounted(e, env, outcome, cells, before, after, later, owner)
  {
    hide ComesTo, Undisturbed, Closed, NotThere, Answered, OthersKept, ForeignControlled, ReadComesTo, Failing;
    if OnceForeign(archive, e.key, owner) {
      var v :| v in archive && archive[v].key == e.key && ForeignControlled(archive[v], owner);
      assert later[v] == archive[v];
    }
  }

  ghost predicate WellFormed(entries: seq<Entry>, envs: seq<EntryEnv>) {
    && |entries| == |envs|
    && null !in Declared(entries)
    && forall i :: 0 <= i < |entries| ==> |envs[i].extracted| == |entries[i].produces|
  }

  /** Entry `e` applied its content once if it was processed as a managed entry, at most once if it failed,
      and not at all if it was blocked, skipped or read. The content is what its mutations make of `values`. */
  ghost predicate Entered(writes: seq<Write>, e: Entry, outcome: Processed, owner: Uid, values: map<Data, int>) {
    && |writes| <= 1 && (e.options.readOnly || outcome == Blocked || outcome == Skipped ==> writes == [])
    && (outcome.Done? && !e.options.readOnly ==> writes != [])
    && (writes != [] ==> Lands(writes[0], DesiredOf(e, owner, values), None))
  }

  /** What the mutations of entry i can read: the cells the entries before it filled. */
  ghost function ValuesAt(entries: seq<Entry>, envs: seq<EntryEnv>, outcomes: seq<Processed>, i: nat): map<Data, int>
    requires i < |entries| == |envs| && i <= |outcomes|
  {
    ValuesIn(CellsAfter(entries, envs, outcomes[..i]), entries[i])
  }

  /** The writes of a pass are those of its entries, in registration order, each with the content computed
      from the cells as the pass had filled them. */
  ghost predicate Ledger(writes: seq<Write>, turns: seq<seq<Write>>, entries: seq<Entry>, envs: seq<EntryEnv>,
                         outcomes: seq<Processed>, owner: Uid)
    requires |outcomes| <= |entries| == |envs|
  {
    && |turns| == |outcomes| && writes == Flat(turns)
    && forall i :: 0 <= i < |turns| ==>
         Entered(turns[i], entries[i], outcomes[i], owner, ValuesAt(entries, envs, outcomes, i))
  }

  /** One turn: the entry was touched behind an open guard, and filled its cells if it was processed. */
  ghost predicate Turned(e: Entry, env: EntryEnv, r: Processed, touched: bool, cells: map<Data, int>,
                         cells': map<Data, int>, before: map<Key, Object>, after: map<Key, Object>,
                         archive: map<Version, Object>, owner: Uid)
  {
    && Accounted(e, env, r, cells, before, after, archive, owner) && (r.Done? ==> touched)
    && (touched ==> forall c <- e.consumes :: !c.optional ==> c.cell != null && c.cell in cells)
    && cells' == if r.Done? then Filled(cells, e, env.extracted, |e.produces|) else cells
  }

  lemma GuardMatches(e: Entry, env: EntryEnv, cells: set<Data>)
    requires forall c: Data? <- ReadCells(e) :: c != null && c in cells
    ensures Closed(e, env, Snapshot(cells)) <==> MissingData(e) || env.guard == Blocks
  {
    if r :| r in e.consumes && !r.optional && r.cell != null && r.cell !in Snapshot(cells) {
      var k :| 0 <= k < |e.consumes| && e.consumes[k] == r;
      assert ReadCells(e)[k] == r.cell && ReadCells(e)[k] in ReadCells(e);
    }
    if MissingData(e) {
      var j :| 0 <= j < |e.consumes| && !e.consumes[j].optional && ReadCells(e)[j] != null
               && (assert ReadCells(e)[j] in ReadCells(e); !ReadCells(e)[j].isSet);
      assert e.consumes[j] in e.consumes && e.consumes[j].cell !in Snapshot(cells);
    }
  }

  /** One turn of the loop: guard, controller check, read or apply, extraction. */
  method ReconcileEntry(server: Server, owner: Uid, e: Entry, env: EntryEnv, ghost cells: set<Data>)
    returns (r: Processed, ok: bool, ghost touched: bool)
    requires server.Valid() && Wired(e, env.extracted, cells)
    modifies server, cells
    ensures server.Valid() && server.Extends() && old(server.writes) <= server.writes
    ensures Entered(server.writes[|old(server.writes)|..], e, r, owner, ValuesIn(old(Snapshot(cells)), e))
    ensures Turned(e, env, r, touched, old(Snapshot(cells)), Snapshot(cells), old(server.objects), server.objects,
                   server.archive, owner)
    ensures ok <==> r != ProcessFailed && (r.Done? ==> None !in env.extracted)
    ensures !ok ==> MayFail(e, env) || RefusesEntry(server.objects, e, owner)
  {
    hide Explained, ComesTo, Filled, Lands, RefusesEntry;
    touched := false;
    OthersKeptSame(server.objects, e.key);
    GuardMatches(e, env, cells);
    var guard := GuardStatus(e, env.guard);
    if guard == GuardFails {
      return ProcessFailed, false, touched;
    }
    if guard == Blocks {
      return Blocked, true, touched;
    }
    OpenGuard(e, cells);
    ValuesMatch(e, cells);
    r, touched := ProcessEntry(server, owner, e, env);
    assert server.writes != old(server.writes) ==>
        server.writes[|old(server.writes)|..] == [server.writes[|server.writes| - 1]];
    ok := r != ProcessFailed;
    if r.Done? {
      ok := ExtractData(e, env.extracted, cells);
    }
  }

  ghost predicate AllProvenance(steps: seq<Step>, entries: seq<Entry>, envs: seq<EntryEnv>, outcomes: seq<Processed>)
    requires |outcomes| <= |entries| == |envs|
  {
    forall s <- steps :: Provenance(s, entries, envs, outcomes)
  }

  ghost predicate StepsCover(steps: seq<Step>, outcomes: seq<Processed>) {
    forall i :: 0 <= i < |outcomes| && outcomes[i].Done? ==> exists s <- steps :: s.index == i
  }

  /** Every outcome so far is accounted for; `worlds` are the objects at the start and after each entry. */
  ghost predicate AllAccounted(entries: seq<Entry>, envs: seq<EntryEnv>, outcomes: seq<Processed>,
                               worlds: seq<map<Key, Object>>, archive: map<Version, Object>, owner: Uid)
    requires |outcomes| <= |entries| == |envs| && |worlds| == |outcomes| + 1
  {
    forall i :: 0 <= i < |outcomes| ==>
      Accounted(entries[i], envs[i], outcomes[i], CellsAfter(entries, envs, outcomes[..i]), worlds[i], worlds[i + 1],
                archive, owner)
  }

  /** The record of a pass so far: one step for every processed entry, each with its provenance. */
  ghost predicate Trace(steps: seq<Step>, entries: seq<Entry>, envs: seq<EntryEnv>, outcomes: seq<Processed>)
    requires |outcomes| <= |entries| == |envs|
  {
    AllProvenance(steps, entries, envs, outcomes) && StepsCover(steps, outcomes)
  }

  lemma TraceGrows(steps: seq<Step>, entries: seq<Entry>, envs: seq<EntryEnv>, outcomes: seq<Processed>,
                   cells: map<Data, int>, cells': map<Data, int>, r: Processed, touched: bool)
    requires |outcomes| < |entries| == |envs|
    requires Trace(steps, entries, envs, outcomes) && AllRan(entries, envs, outcomes)
    requires cells == CellsAfter(entries, envs, outcomes)
    requires r.Done? ==> touched
    requires touched ==> forall c <- entries[|outcomes|].consumes :: !c.optional ==> c.cell != null && c.cell in cells
    requires cells' == if r.Done? then Filled(cells, entries[|outcomes|], envs[|outcomes|].extracted,
                                              |entries[|outcomes|].produces|) else cells
    ensures Trace(if touched then steps + [Step(|outcomes|, cells)] else steps, entries, envs, outcomes + [r])
    ensures cells' == CellsAfter(entries, envs, outcomes + [r])
  {
    hide CellsAfter, Filled, FromLatest, AllProvenance, StepsCover, AllRan;
    ProvenanceGrows(steps, entries, envs, outcomes, r, Step(|outcomes|, cells), touched);
    CoverGrows(steps, outcomes, r, Step(|outcomes|, cells), touched);
    CellsAfterStep(entries, envs, outcomes, r);
  }

  lemma DonesMore(outcomes: seq<Processed>, r: Processed)
    ensures Dones(outcomes + [r]) == Dones(outcomes) + [r.Done?]
  {
  }

  lemma CellsAfterStep(entries: seq<Entry>, envs: seq<EntryEnv>, outcomes: seq<Processed>, r: Processed)
    requires |outcomes| < |entries| == |envs|
    ensures CellsAfter(entries, envs, outcomes + [r]) ==
            var before, n := CellsAfter(entries, envs, outcomes), |outcomes|;
            if r.Done? then Filled(before, entries[n], envs[n].extracted, |entries[n].produces|) else before
  {
    DonesMore(outcomes, r);
    CellsFilledMore(entries, Extractions(envs), Dones(outcomes), r.Done?);
  }

  lemma ProvenanceGrows(steps: seq<Step>, entries: seq<Entry>, envs: seq<EntryEnv>, outcomes: seq<Processed>,
                        r: Processed, step: Step, touched: bool)
    requires |outcomes| < |entries| == |envs|
    requires AllProvenance(steps, entries, envs, outcomes) && AllRan(entries, envs, outcomes)
    requires step.index == |outcomes| && step.cells == CellsAfter(entries, envs, outcomes)
    requires touched ==> forall c <- entries[|outcomes|].consumes :: !c.optional ==>
               c.cell != null && c.cell in step.cells
    ensures AllProvenance(if touched then steps + [step] else steps, entries, envs, outcomes + [r])
  {
    hide CellsAfter, FromLatest, AllRan;
    assert (outcomes + [r])[..|outcomes|] == outcomes;
    forall c | c in step.cells ensures FromLatest(c, step.cells[c], entries, envs, outcomes) {
      LatestRan(entries, envs, outcomes, c);
    }
    forall s | s in steps ensures Provenance(s, entries, envs, outcomes + [r]) {
      assert Provenance(s, entries, envs, outcomes);
      assert (outcomes + [r])[..s.index] == outcomes[..s.index];
    }
  }

  lemma LatestRan(entries: seq<Entry>, envs: seq<EntryEnv>, outcomes: seq<Processed>, c: Data)
    requires |outcomes| <= |entries| == |envs| && AllRan(entries, envs, outcomes)
    requires c in CellsAfter(entries, envs, outcomes)
    ensures FromLatest(c, CellsAfter(entries, envs, outcomes)[c], entries, envs, outcomes)
  {
    LatestProducer(entries, Extractions(envs), Dones(outcomes), c);
  }

  lemma CoverGrows(steps: seq<Step>, outcomes: seq<Processed>, r: Processed, step: Step, touched: bool)
    requires StepsCover(steps, outcomes) && step.index == |outcomes| && (r.Done? ==> touched)
    ensures StepsCover(if touched then steps + [step] else steps, outcomes + [r])
  {
  }

  lemma AllAccountedLater(entries: seq<Entry>, envs: seq<EntryEnv>, outcomes: seq<Processed>,
                          worlds: seq<map<Key, Object>>, earlier: map<Version, Object>, archive: map<Version, Object>,
                          owner: Uid)
    requires |outcomes| <= |entries| == |envs| && |worlds| == |outcomes| + 1
    requires AllAccounted(entries, envs, outcomes, worlds, earlier, owner)
    requires forall v <- earlier :: v in archive && archive[v] == earlier[v]
    ensures AllAccounted(entries, envs, outcomes, worlds, archive, owner)
  {
    hide Accounted, CellsAfter;
    forall i | 0 <= i < |outcomes|
      ensures Accounted(entries[i], envs[i], outcomes[i], CellsAfter(entries, envs, outcomes[..i]), worlds[i],
                        worlds[i + 1], archive, owner)
    {
      AccountedLater(entries[i], envs[i], outcomes[i], CellsAfter(entries, envs, outcomes[..i]), worlds[i],
                     worlds[i + 1], earlier, archive, owner);
    }
  }

  lemma AccountedGrows(entries: seq<Entry>, envs: seq<EntryEnv>, outcomes: seq<Processed>, r: Processed,
                       worlds: seq<map<Key, Object>>, after: map<Key, Object>, earlier: map<Version, Object>,
                       archive: map<Version, Object>, owner: Uid)
    requires |outcomes| < |entries| == |envs| && |worlds| == |outcomes| + 1
    requires AllAccounted(entries, envs, outcomes, worlds, earlier, owner)
    requires forall v <- earlier :: v in archive && archive[v] == earlier[v]
    requires Accounted(entries[|outcomes|], envs[|outcomes|], r, CellsAfter(entries, envs, outcomes),
                       worlds[|outcomes|], after, archive, owner)
    ensures AllAccounted(entries, envs, outcomes + [r], worlds + [after], archive, owner)
  {
    hide Accounted, CellsAfter;
    var n, outcomes', worlds' := |outcomes|, outcomes + [r], worlds + [after];
    AllAccountedLater(entries, envs, outcomes, worlds, earlier, archive, owner);
    forall i | 0 <= i <= n
      ensures Accounted(entries[i], envs[i], outcomes'[i], CellsAfter(entries, envs, outcomes'[..i]), worlds'[i],
                        worlds'[i + 1], archive, owner)
    {
      assert outcomes'[..i] == outcomes[..i];
      if i == n {
        assert outcomes[..n] == outcomes;
      }
    }
  }

  lemma LedgerGrows(start: seq<Write>, middle: seq<Write>, end: seq<Write>, turns: seq<seq<Write>>, entries: seq<Entry>,
                    envs: seq<EntryEnv>, outcomes: seq<Processed>, r: Processed, owner: Uid)
    requires |outcomes| < |entries| == |envs| && start <= middle <= end
    requires Ledger(middle[|start|..], turns, entries, envs, outcomes, owner)
    requires Entered(end[|middle|..], entries[|outcomes|], r, owner,
                     ValuesIn(CellsAfter(entries, envs, outcomes), entries[|outcomes|]))
    ensures Ledger(end[|start|..], turns + [end[|middle|..]], entries, envs, outcomes + [r], owner)
  {
    hide Entered, CellsAfter, ValuesIn;
    assert end[|start|..] == middle[|start|..] + end[|middle|..];
    FlatMore(turns, end[|middle|..]);
    assert (outcomes + [r])[..|outcomes|] == outcomes;
    var turns' := turns + [end[|middle|..]];
    forall i | 0 <= i < |turns'|
      ensures Entered(turns'[i], entries[i], (outcomes + [r])[i], owner, ValuesAt(entries, envs, outcomes + [r], i))
    {
      if i < |turns| {
        assert (outcomes + [r])[..i] == outcomes[..i];
        assert Entered(turns[i], entries[i], outcomes[i], owner, ValuesAt(entries, envs, outcomes, i));
      }
    }
  }

  /** What the pass over the entries has recorded: their writes in order, the provenance of what they used, the
      cells they filled, and why each came to what it came to. */
  ghost predicate Recorded(writes: seq<Write>, cells: map<Data, int>, objects: map<Key, Object>,
                           archive: map<Version, Object>, outcomes: seq<Processed>, steps: seq<Step>,
                           turns: seq<seq<Write>>, worlds: seq<map<Key, Object>>, entries: seq<Entry>,
                           envs: seq<EntryEnv>, owner: Uid)
    requires |outcomes| <= |entries| == |envs|
  {
    && Ledger(writes, turns, entries, envs, outcomes, owner) && Trace(steps, entries, envs, outcomes)
    && cells == CellsAfter(entries, envs, outcomes)
    && |worlds| == |outcomes| + 1 && worlds[|outcomes|] == objects
    && AllAccounted(entries, envs, outcomes, worlds, archive, owner)
  }

  /** The pass gave up on its last entry: it failed there, for a reason or because the API server rejects the entry's
      apply on the object as it stands, or one of the entry's extractions failed. */
  ghost predicate GivesUp(objects: map<Key, Object>, entries: seq<Entry>, envs: seq<EntryEnv>,
                          outcomes: seq<Processed>, owner: Uid)
    requires |outcomes| <= |entries| == |envs|
  {
    && outcomes != []
    && var i := |outcomes| - 1;
       && (outcomes[i] == ProcessFailed || (outcomes[i].Done? && None in envs[i].extracted))
       && (MayFail(entries[i], envs[i]) || RefusesEntry(objects, entries[i], owner))
  }

  /** The pass goes on only from an entry that was processed and extracted its data, or was skipped. */
  ghost predicate WentOn(envs: seq<EntryEnv>, outcomes: seq<Processed>)
    requires |outcomes| <= |envs|
  {
    forall i :: 0 <= i < |outcomes| - 1 ==>
      outcomes[i] == Skipped || (outcomes[i].Done? && None !in envs[i].extracted)
  }

  /** The results are those of all outcomes, none of them failed, and the entries were exhausted or the last
      one blocked; or the pass gave up. */
  ghost predicate Ends(results: Option<seq<Result>>, objects: map<Key, Object>, entries: seq<Entry>,
                       envs: seq<EntryEnv>, outcomes: seq<Processed>, owner: Uid)
    requires |outcomes| <= |entries| == |envs|
  {
    && WentOn(envs, outcomes)
    && if results == None then GivesUp(objects, entries, envs, outcomes, owner)
    else
      && results.value == ResultsOf(entries, envs, outcomes) && ProcessFailed !in outcomes
      && (|outcomes| == |entries| || (outcomes != [] && outcomes[|outcomes| - 1] == Blocked))
  }

  /** Processes the entries in registration order until one is blocked or fails. */
  method ReconcileResources(server: Server, owner: Uid, entries: seq<Entry>, envs: seq<EntryEnv>)
    returns (results: Option<seq<Result>>, ghost outcomes: seq<Processed>, ghost steps: seq<Step>,
             ghost turns: seq<seq<Write>>, ghost worlds: seq<map<Key, Object>>)
    requires server.Valid() && WellFormed(entries, envs)
    requires forall c <- CellSet(entries) :: !c.isSet
    modifies server, CellSet(entries)
    ensures server.Valid() && server.Extends() && old(server.writes) <= server.writes
    ensures |outcomes| <= |entries| && worlds != [] && worlds[0] == old(server.objects)
    ensures Recorded(server.writes[|old(server.writes)|..], Snapshot(CellSet(entries)), server.objects, server.archive,
                     outcomes, steps, turns, worlds, entries, envs, owner)
    ensures Ends(results, server.objects, entries, envs, outcomes, owner)
  {
    var collected := [];
    outcomes, steps, turns, worlds := [], [], [], [server.objects];
    ghost var cells := CellSet(entries);
    assert Snapshot(cells) == map[];
    assert server.writes[|old(server.writes)|..] == [];
    hide ValuesIn, Recorded, Going, Entered, MayFail, RefusesEntry, ResultOf, Snapshot, CellSet, ReadCells,
         WellFormed, Wired, Server.Valid, Turned, Ends, Ledger, Trace, CellsAfter, ResultsOf;
    Begin(entries, envs, server.objects, server.archive, owner);
    for i := 0 to |entries|
      invariant server.Valid() && server.Extends() && old(server.writes) <= server.writes && |outcomes| == i
      invariant worlds != [] && worlds[0] == old(server.objects)
      invariant Recorded(server.writes[|old(server.writes)|..], Snapshot(cells), server.objects, server.archive,
                         outcomes, steps, turns, worlds, entries, envs, owner)
      invariant Going(collected, outcomes, entries, envs) && Blocked !in outcomes
    {
      var r, ok;
      r, ok, steps, turns :=
        ReconcileNext(server, owner, entries, envs, i, collected, outcomes, steps, turns, worlds, old(server.writes));
      worlds := worlds + [server.objects];
      outcomes, collected := outcomes + [r], collected + ResultOf(entries[i], envs[i], r);
      if !ok {
        return None, outcomes, steps, turns, worlds;
      }
      if r == Blocked {
        break;
      }
    }
    GotThrough(server.objects, collected, outcomes, entries, envs, owner);
    return Some(collected), outcomes, steps, turns, worlds;
  }

  /** Entry i of the loop, and what it adds to the record. */
  method ReconcileNext(server: Server, owner: Uid, entries: seq<Entry>, envs: seq<EntryEnv>, i: nat,
                       ghost collected: seq<Result>, ghost outcomes: seq<Processed>, ghost steps: seq<Step>,
                       ghost turns: seq<seq<Write>>, ghost worlds: seq<map<Key, Object>>, ghost start: seq<Write>)
    returns (r: Processed, ok: bool, ghost steps': seq<Step>, ghost turns': seq<seq<Write>>)
    requires server.Valid() && WellFormed(entries, envs) && i == |outcomes| < |entries| && start <= server.writes
    requires Recorded(server.writes[|start|..], Snapshot(CellSet(entries)), server.objects, server.archive, outcomes,
                      steps, turns, worlds, entries, envs, owner)
    requires Going(collected, outcomes, entries, envs) && Blocked !in outcomes
    modifies server, CellSet(entries)
    ensures server.Valid() && server.Extends() && old(server.writes) <= server.writes
    ensures Recorded(server.writes[|start|..], Snapshot(CellSet(entries)), server.objects, server.archive,
                     outcomes + [r], steps', turns', worlds + [server.objects], entries, envs, owner)
    ensures ok ==> Going(collected + ResultOf(entries[i], envs[i], r), outcomes + [r], entries, envs)
    ensures !ok ==> Ends(None, server.objects, entries, envs, outcomes + [r], owner)
  {
    hide ValuesIn, Recorded, Going, Entered, MayFail, RefusesEntry, ResultOf, Snapshot, CellSet, ReadCells, Declared,
         Wired, Server.Valid, Turned, Ends;
    EntryWired(entries, envs, i);
    ghost var before, standing, cells := server.writes, Snapshot(CellSet(entries)), CellSet(entries);
    ghost var objects, earlier := server.objects, server.archive;
    ghost var touched;
    r, ok, touched := ReconcileEntry(server, owner, entries[i], envs[i], cells);
    Advance(start, before, server.writes, cells, standing, Snapshot(cells), objects, server.objects, earlier,
            server.archive, collected, outcomes, steps, turns, worlds, entries, envs, owner, r, ok, touched);
    steps' := if touched then steps + [Step(i, standing)] else steps;
    turns' := turns + [server.writes[|before|..]];
    if !ok {
      GaveUp(server.objects, collected, entries, envs, outcomes, r, owner);
    }
  }

  /** Nothing has failed so far. */
  ghost predicate Going(collected: seq<Result>, outcomes: seq<Processed>, entries: seq<Entry>, envs: seq<EntryEnv>)
    requires |outcomes| <= |entries| == |envs|
  {
    && AllRan(entries, envs, outcomes) && collected == ResultsOf(entries, envs, outcomes)
    && ProcessFailed !in outcomes
  }

  lemma Begin(entries: seq<Entry>, envs: seq<EntryEnv>, objects: map<Key, Object>, archive: map<Version, Object>,
              owner: Uid)
    requires |entries| == |envs|
    ensures Recorded([], map[], objects, archive, [], [], [], [objects], entries, envs, owner)
    ensures Going([], [], entries, envs)
  {
  }

  lemma GotThrough(objects: map<Key, Object>, collected: seq<Result>, outcomes: seq<Processed>, entries: seq<Entry>,
                   envs: seq<EntryEnv>, owner: Uid)
    requires |outcomes| <= |entries| == |envs| && Going(collected, outcomes, entries, envs)
    requires outcomes != [] ==> Blocked !in outcomes[..|outcomes| - 1]
    requires |outcomes| == |entries| || (outcomes != [] && outcomes[|outcomes| - 1] == Blocked)
    ensures Ends(Some(collected), objects, entries, envs, outcomes, owner)
  {
    Unhindered(entries, envs, outcomes, if outcomes == [] then 0 else |outcomes| - 1);
  }

  /** Entries that neither failed nor blocked were processed with all their data extracted, or skipped. */
  lemma Unhindered(entries: seq<Entry>, envs: seq<EntryEnv>, outcomes: seq<Processed>, n: nat)
    requires n <= |outcomes| <= |entries| == |envs| && AllRan(entries, envs, outcomes)
    requires ProcessFailed !in outcomes && Blocked !in outcomes[..n]
    ensures forall i :: 0 <= i < n ==> outcomes[i] == Skipped || (outcomes[i].Done? && None !in envs[i].extracted)
  {
    forall i | 0 <= i < n ensures outcomes[i] == Skipped || (outcomes[i].Done? && None !in envs[i].extracted) {
      assert outcomes[i] in outcomes && outcomes[..n][i] == outcomes[i];
      assert Dones(outcomes)[i] == outcomes[i].Done? && Extractions(envs)[i] == envs[i].extracted;
    }
  }

  lemma Advance(start: seq<Write>, middle: seq<Write>, end: seq<Write>, all: set<Data>, cells: map<Data, int>,
                cells': map<Data, int>, objects: map<Key, Object>, objects': map<Key, Object>,
                earlier: map<Version, Object>, archive: map<Version, Object>, collected: seq<Result>,
                outcomes: seq<Processed>, steps: seq<Step>, turns: seq<seq<Write>>, worlds: seq<map<Key, Object>>,
                entries: seq<Entry>, envs: seq<EntryEnv>, owner: Uid, r: Processed, ok: bool, touched: bool)
    requires |outcomes| < |entries| == |envs| && start <= middle <= end
    requires Recorded(middle[|start|..], cells, objects, earlier, outcomes, steps, turns, worlds, entries, envs, owner)
    requires Going(collected, outcomes, entries, envs)
    requires forall v <- earlier :: v in archive && archive[v] == earlier[v]
    requires Entered(end[|middle|..], entries[|outcomes|], r, owner, ValuesIn(cells, entries[|outcomes|]))
    requires Turned(entries[|outcomes|], envs[|outcomes|], r, touched, cells, cells', objects, objects', archive, owner)
    requires Wired(entries[|outcomes|], envs[|outcomes|].extracted, all)
    requires ok ==> r != ProcessFailed && (r.Done? ==> None !in envs[|outcomes|].extracted)
    ensures Recorded(end[|start|..], cells', objects', archive, outcomes + [r],
                     if touched then steps + [Step(|outcomes|, cells)] else steps, turns + [end[|middle|..]],
                     worlds + [objects'], entries, envs, owner)
    ensures ok ==> Going(collected + ResultOf(entries[|outcomes|], envs[|outcomes|], r), outcomes + [r], entries, envs)
  {
    hide Ledger, Trace, CellsAfter, AllRan, ResultsOf, ResultOf, Entered, ValuesIn, Accounted, AllAccounted;
    LedgerGrows(start, middle, end, turns, entries, envs, outcomes, r, owner);
    TraceGrows(steps, entries, envs, outcomes, cells, cells', r, touched);
    AccountedGrows(entries, envs, outcomes, r, worlds, objects', earlier, archive, owner);
    ResultsStep(entries, envs, outcomes, r);
    AllRanMore(entries, envs, outcomes, r);
  }

  lemma GaveUp(objects: map<Key, Object>, collected: seq<Result>, entries: seq<Entry>, envs: seq<EntryEnv>,
               outcomes: seq<Processed>, r: Processed, owner: Uid)
    requires |outcomes| < |entries| == |envs| && Going(collected, outcomes, entries, envs) && Blocked !in outcomes
    requires r == ProcessFailed || (r.Done? && None in envs[|outcomes|].extracted)
    requires MayFail(entries[|outcomes|], envs[|outcomes|]) || RefusesEntry(objects, entries[|outcomes|], owner)
    ensures Ends(None, objects, entries, envs, outcomes + [r], owner)
  {
    assert outcomes[..|outcomes|] == outcomes;
    Unhindered(entries, envs, outcomes, |outcomes|);
  }

  lemma AllRanMore(entries: seq<Entry>, envs: seq<EntryEnv>, outcomes: seq<Processed>, r: Processed)
    requires |outcomes| < |entries| == |envs| && AllRan(entries, envs, outcomes)
    requires null !in entries[|outcomes|].produces && |envs[|outcomes|].extracted| == |entries[|outcomes|].produces|
    ensures (r.Done? ==> None !in envs[|outcomes|].extracted) ==> AllRan(entries, envs, outcomes + [r])
  {
  }

  lemma ResultsStep(entries: seq<Entry>, envs: seq<EntryEnv>, outcomes: seq<Processed>, r: Processed)
    requires |outcomes| < |entries| == |envs|
    ensures ResultsOf(entries, envs, outcomes + [r]) ==
            ResultsOf(entries, envs, outcomes) + ResultOf(entries[|outcomes|], envs[|outcomes|], r)
  {
    assert (outcomes + [r])[..|outcomes|] == outcomes;
  }

  lemma EntryWired(entries: seq<Entry>, envs: seq<EntryEnv>, i: nat)
    requires WellFormed(entries, envs) && i < |entries|
    ensures Wired(entries[i], envs[i].extracted, CellSet(entries))
  {
    EntryCells(entries, i);
  }

  /** Behind an open guard every guarded cell is set. */
  lemma OpenGuard(e: Entry, cells: set<Data>)
    requires !MissingData(e)
    requires forall c: Data? <- ReadCells(e) :: c != null && c in cells
    ensures forall r <- e.consumes :: !r.optional ==> r.cell != null && r.cell in Snapshot(cells)
  {
    forall r | r in e.consumes && !r.optional ensures r.cell != null && r.cell in Snapshot(cells) {
      var k :| 0 <= k < |e.consumes| && e.consumes[k] == r;
      assert ReadCells(e)[k] == r.cell && ReadCells(e)[k] in ReadCells(e);
    }
  }

  // A whole pass without interference

  /** The entries are processed undisturbed, and each has an object of its own. */
  ghost predicate AllUndisturbed(entries: seq<Entry>, envs: seq<EntryEnv>) {
    && (forall env <- envs :: Undisturbed(env))
    && (forall i, j :: 0 <= i < j < |entries| ==> entries[i].key != entries[j].key)
  }

  /** An undisturbed pass leaves the objects of the entries it has not reached as they were. */
  lemma {:induction false} NotReached(entries: seq<Entry>, envs: seq<EntryEnv>, outcomes: seq<Processed>,
                                      worlds: seq<map<Key, Object>>, archive: map<Version, Object>, owner: Uid,
                                      i: nat, k: nat)
    requires i <= |outcomes| <= |entries| == |envs| && |worlds| == |outcomes| + 1 && i <= k < |entries|
    requires AllAccounted(entries, envs, outcomes, worlds, archive, owner) && AllUndisturbed(entries, envs)
    ensures SameAt(worlds[0], worlds[i], entries[k].key)
  {
    hide Explained, ComesTo, Closed, CellsAfter, Undisturbed;
    if i > 0 {
      NotReached(entries, envs, outcomes, worlds, archive, owner, i - 1, k);
      assert Accounted(entries[i - 1], envs[i - 1], outcomes[i - 1], CellsAfter(entries, envs, outcomes[..i - 1]),
                       worlds[i - 1], worlds[i], archive, owner);
      assert envs[i - 1] in envs;
    }
  }

  lemma ComesToSame(e: Entry, outcome: Processed, before: map<Key, Object>, after: map<Key, Object>, owner: Uid)
    requires SameAt(before, after, e.key)
    ensures ComesTo(e, outcome, before, owner) <==> ComesTo(e, outcome, after, owner)
  {
    hide ForeignControlled, PatchRefs, OneController;
  }

  /** In an undisturbed pass a closed guard blocks an entry, and behind an open one the object it has when the pass
      begins decides what becomes of it. */
  lemma UndisturbedPass(entries: seq<Entry>, envs: seq<EntryEnv>, outcomes: seq<Processed>,
                        worlds: seq<map<Key, Object>>, archive: map<Version, Object>, owner: Uid, i: nat)
    requires i < |outcomes| <= |entries| == |envs| && |worlds| == |outcomes| + 1
    requires AllAccounted(entries, envs, outcomes, worlds, archive, owner) && AllUndisturbed(entries, envs)
    ensures if Closed(entries[i], envs[i], CellsAfter(entries, envs, outcomes[..i])) then outcomes[i] == Blocked
            else ComesTo(entries[i], outcomes[i], worlds[0], owner)
  {
    hide Explained, ComesTo, Closed, CellsAfter, Undisturbed, SameAt, OthersKept;
    NotReached(entries, envs, outcomes, worlds, archive, owner, i, i);
    ComesToSame(entries[i], outcomes[i], worlds[0], worlds[i], owner);
    assert Accounted(entries[i], envs[i], outcomes[i], CellsAfter(entries, envs, outcomes[..i]), worlds[i],
                     worlds[i + 1], archive, owner);
    assert envs[i] in envs;
  }

  /** Nothing stands in the entry's way: its custom guard is open, and the object is there to read, or neither the
      options nor the API server keep the entry from applying it. */
  ghost predicate Clear(e: Entry, env: EntryEnv, objects: map<Key, Object>, owner: Uid) {
    && env.guard == Unblocked
    && (if e.options.readOnly then e.key in objects
        else !KeptFrom(objects, e, owner) && !Refuses(objects, e.key, RefsOf(e, owner)))
  }

  ghost predicate AllClear(entries: seq<Entry>, envs: seq<EntryEnv>, objects: map<Key, Object>, owner: Uid)
    requires |entries| == |envs|
  {
    forall i :: 0 <= i < |entries| ==> Clear(entries[i], envs[i], objects, owner)
  }

  predicate AllDone(outcomes: seq<Processed>) {
    forall r <- outcomes :: r.Done?
  }

  lemma {:induction false} ProducerOf(entries: seq<Entry>, c: Data) returns (j: nat)
    requires c in Produced(entries)
    ensures j < |entries| && c in entries[j].produces
  {
    var n := |entries| - 1;
    if c in entries[n].produces {
      j := n;
    } else {
      j := ProducerOf(entries[..n], c);
    }
  }

  lemma NoNullProduced(entries: seq<Entry>, i: nat)
    requires null !in Declared(entries) && i < |entries|
    ensures null !in entries[i].produces
  {
    EntryCells(entries, i);
  }

  /** Behind processed entries, every cell an entry reads has been filled. */
  lemma GuardsOpen(entries: seq<Entry>, envs: seq<EntryEnv>, outcomes: seq<Processed>)
    requires |outcomes| < |entries| && WellFormed(entries, envs) && ProducedEarlier(entries)
    requires AllDone(outcomes) && forall env <- envs :: None !in env.extracted
    ensures forall r <- entries[|outcomes|].consumes :: r.cell != null ==> r.cell in CellsAfter(entries, envs, outcomes)
  {
    hide CellsFilled, FromLatestProducer, Declared, Produced;
    var n, dones := |outcomes|, Dones(outcomes);
    var e := entries[n];
    forall j | 0 <= j < n
      ensures null !in entries[j].produces && None !in Extractions(envs)[j]
    {
      NoNullProduced(entries, j);
      assert envs[j] in envs;
    }
    forall r | r in e.consumes && r.cell != null ensures r.cell in CellsAfter(entries, envs, outcomes) {
      var k :| 0 <= k < |e.consumes| && e.consumes[k] == r;
      assert ReadCells(e)[k] in ReadCells(e);
      var j := ProducerOf(entries[..n], r.cell);
      assert outcomes[j] in outcomes;
      LatestProducer(entries, Extractions(envs), dones, r.cell);
    }
  }

  lemma {:induction false} DoneSoFar(entries: seq<Entry>, envs: seq<EntryEnv>, outcomes: seq<Processed>,
                                     worlds: seq<map<Key, Object>>, archive: map<Version, Object>, owner: Uid, n: nat)
    requires n <= |outcomes| <= |entries| == |envs| && |worlds| == |outcomes| + 1
    requires WellFormed(entries, envs) && ProducedEarlier(entries) && AllUndisturbed(entries, envs)
    requires AllAccounted(entries, envs, outcomes, worlds, archive, owner) && AllClear(entries, envs, worlds[0], owner)
    ensures AllDone(outcomes[..n])
  {
    hide CellsAfter, AllAccounted, WellFormed, ProducedEarlier, KeptFrom, Refuses;
    if n > 0 {
      var i := n - 1;
      DoneSoFar(entries, envs, outcomes, worlds, archive, owner, i);
      assert envs[i] in envs && Clear(entries[i], envs[i], worlds[0], owner);
      GuardsOpen(entries, envs, outcomes[..i]);
      UndisturbedPass(entries, envs, outcomes, worlds, archive, owner, i);
      assert outcomes[..n] == outcomes[..i] + [outcomes[i]];
    }
  }

  /** An undisturbed pass over a component whose data flow was validated reaches every entry and processes it
      exactly when nothing stood in the way of any when the pass began. */
  lemma NothingInTheWay(results: Option<seq<Result>>, objects: map<Key, Object>, entries: seq<Entry>,
                        envs: seq<EntryEnv>, outcomes: seq<Processed>, worlds: seq<map<Key, Object>>,
                        archive: map<Version, Object>, owner: Uid)
    requires |outcomes| <= |entries| == |envs| && |worlds| == |outcomes| + 1
    requires WellFormed(entries, envs) && TopologyOk(entries) && AllUndisturbed(entries, envs)
    requires AllAccounted(entries, envs, outcomes, worlds, archive, owner)
    requires Ends(results, objects, entries, envs, outcomes, owner)
    ensures AllClear(entries, envs, worlds[0], owner) <==>
            results.Some? && |outcomes| == |entries| && AllDone(outcomes)
  {
    hide AllAccounted, WellFormed, ProducedEarlier, NamesUnique, Declared, CellsAfter, MayFail, RefusesEntry, ResultsOf;
    if AllClear(entries, envs, worlds[0], owner) {
      DoneSoFar(entries, envs, outcomes, worlds, archive, owner, |outcomes|);
      assert outcomes[..|outcomes|] == outcomes;
      if outcomes != [] {
        assert envs[|outcomes| - 1] in envs && outcomes[|outcomes| - 1] in outcomes;
      }
    }
    if |outcomes| == |entries| && AllDone(outcomes) {
      forall i | 0 <= i < |entries| ensures Clear(entries[i], envs[i], worlds[0], owner) {
        assert outcomes[i] in outcomes && envs[i] in envs;
        UndisturbedPass(entries, envs, outcomes, worlds, archive, owner, i);
      }
    }
  }
}
