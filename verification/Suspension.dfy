/** Suspension of resources (pkg/component/suspend.go). */
module Suspension {
  import opened Options
  import opened Statuses
  import opened ApiServer
  import opened Deletion
  import opened Apply
  import opened DataFlow
  import opened Entries

  /** The answers a suspendable resource gives during one call, and what other clients do meanwhile. */
  datatype SuspendEnv = SuspendEnv(
    suspendable: bool,
    control: DeleteEnv,                // observeController; only its view and read matter
    deleteOnSuspend: bool,             // first answer
    existing: DeleteEnv,               // the existence read; only its view and read matter
    suspendFails: bool,
    apply: ApplyEnv,
    extracted: seq<Option<int>>,       // what its extractions answer after the apply, None for an error
    status: Option<Status>,            // SuspensionStatus, None for an error
    deleteOnSuspendAgain: bool,        // second answer
    deletion: DeleteEnv)
  {
    predicate Calm() {
      control.Calm() && existing.Calm() && apply.Calm() && deletion.Calm()
    }
    /** The resource reports Suspended and asks to be deleted. */
    predicate Asks() {
      status == Some(Suspended) && deleteOnSuspendAgain
    }
    predicate Faulty() {
      control.Faulty() || existing.Faulty() || suspendFails || apply.Faulty() || None in extracted
      || status == None || deletion.Faulty()
    }
  }

  /** The deletion is asked for, and its first call fails. */
  predicate DeleteFails(p: Protection, env: SuspendEnv) {
    env.Asks() && if p.Guarded() then env.deletion.read.fault else env.deletion.delete.fault
  }

  /** The delete that may conclude a suspension. */
  ghost predicate Concludes(w: Write, owner: Uid, key: Key, p: Protection, env: SuspendEnv) {
    w.Deleted? && w.before.key == key && MayDelete(w.before, owner, p) && env.Asks()
  }

  /** What the writing half may write for one entry: at most an apply and then a delete, of the entry's
      own object; the delete only once the resource reported Suspended. */
  ghost predicate SuspensionWrites(writes: seq<Write>, desired: Desired, observed: Option<Object>, p: Protection,
                                   owner: Uid, env: SuspendEnv) {
    && |writes| <= 2
    && (|writes| > 0 ==> Lands(writes[0], desired, observed))
    && (|writes| > 1 ==> Concludes(writes[1], owner, desired.key, p, env))
  }

  /** The object the write landed on existed and carried the owner's reference at that instant. */
  predicate OnOwned(w: Write, owner: Uid) {
    match w
    case Deleted(before) => OwnedBy(before, owner)
    case Applied(previous, _) => previous.Some? && OwnedBy(previous.value, owner)
    case Updated(before, _) => OwnedBy(before, owner)
  }

  /** An apply with the owner's reference found no other controller on the object. */
  predicate TakesNothingOver(w: Write, refs: RefPatch, owner: Uid) {
    w.Applied? && w.previous.Some? && refs == Own(owner) ==> !ForeignControlled(w.previous.value, owner)
  }

  /** Something outside the component went wrong while it suspended the entry. */
  predicate Disturbed(p: Protection, env: SuspendEnv) {
    env.Faulty() || (p.blockOnForeignController && !env.Calm())
  }

  /** What a suspension of one entry may write, whatever other clients do: an apply of its suspended content,
      computed from `values`, and then a delete; for DeleteOnlyIfOwned with delete-on-suspend the apply lands
      only on an object that was read with the owner's reference. `ran` is whether its extractions ran. */
  ghost predicate Turn(writes: seq<Write>, ran: bool, owner: Uid, e: Entry, values: map<Data, int>, env: SuspendEnv) {
    var p := ProtectionOf(e.options);
    && (ran ==> writes != [])
    && exists observed: Option<Object> ::
         && SuspensionWrites(writes, SuspendedOf(e, owner, values), observed, p, owner, env)
         && (writes != [] && p.deleteOnlyIfOwned && env.deleteOnSuspend ==>
               observed.Some? && OwnedBy(observed.value, owner))
  }

  /** What follows for each write of a turn. */
  ghost predicate SafeIn(w: Write, owner: Uid, e: Entry, env: SuspendEnv) {
    && w.Target() == e.key && !w.Updated?
    && (w.Deleted? ==> MayDelete(w.before, owner, ProtectionOf(e.options)) && env.Asks())
    && (e.options.deleteOnlyIfOwned && env.deleteOnSuspend ==> OnOwned(w, owner))
    && TakesNothingOver(w, RefsOf(e, owner), owner)
  }

  lemma TurnIsSafe(writes: seq<Write>, ran: bool, owner: Uid, e: Entry, values: map<Data, int>, env: SuspendEnv,
                   w: Write)
    requires Turn(writes, ran, owner, e, values, env) && w in writes
    ensures SafeIn(w, owner, e, env)
  {
    var desired := SuspendedOf(e, owner, values);
    var observed: Option<Object> :| SuspensionWrites(writes, desired, observed, ProtectionOf(e.options), owner, env)
      && (writes != [] && e.options.deleteOnlyIfOwned && env.deleteOnSuspend ==>
            observed.Some? && OwnedBy(observed.value, owner));
    if w == writes[0] {
      if w.previous.Some? && desired.refs == Own(owner) {
        NeverTakesOver(w, desired, observed, owner);
      }
    }
  }

  /** An undisturbed turn, and what it leaves under the entry's key. Where the component stands aside or the
      API server rejects the apply nothing happens; elsewhere exactly the apply lands on the live object, and
      the object is then gone exactly when that was asked for and the options permit it. */
  ghost predicate UndisturbedTurn(writes: seq<Write>, ran: bool, before: map<Key, Object>, after: map<Key, Object>,
                                  owner: Uid, e: Entry, values: map<Data, int>, env: SuspendEnv) {
    if StandsAside(before, e.key, owner, ProtectionOf(e.options), env) || Refuses(before, e.key, RefsOf(e, owner))
    then writes == [] && !ran && SameAt(before, after, e.key)
    else ran && AppliedFully(writes, before, after, SuspendedOf(e, owner, values), ProtectionOf(e.options), owner, env)
  }

  ghost predicate AppliedFully(writes: seq<Write>, before: map<Key, Object>, after: map<Key, Object>,
                               desired: Desired, p: Protection, owner: Uid, env: SuspendEnv) {
    && |writes| > 0 && Lands(writes[0], desired, None)
    && writes[0].previous == (if desired.key in before then Some(before[desired.key]) else None)
    && if env.Asks() && MayDelete(writes[0].after, owner, p)
       then writes == [writes[0], Deleted(writes[0].after)] && desired.key !in after
       else writes == [writes[0]] && desired.key in after && after[desired.key] == writes[0].after
  }

  /** Every object the suspension writes to carries the owner's reference at that instant. */
  predicate StaysOwned(objects: map<Key, Object>, owner: Uid, e: Entry, env: SuspendEnv) {
    || env.deleteOnSuspend || StandsAside(objects, e.key, owner, ProtectionOf(e.options), env)
    || Refuses(objects, e.key, RefsOf(e, owner)) || (e.key in objects && OwnedBy(objects[e.key], owner))
  }

  /** Exactly when an undisturbed suspension of an entry with DeleteOnlyIfOwned writes to owned objects only:
      the option alone does not promise it while no deletion is asked for. */
  lemma OwnedExactly(writes: seq<Write>, ran: bool, before: map<Key, Object>, after: map<Key, Object>,
                     owner: Uid, e: Entry, values: map<Data, int>, env: SuspendEnv)
    requires e.options.deleteOnlyIfOwned && UndisturbedTurn(writes, ran, before, after, owner, e, values, env)
    ensures (forall w <- writes :: OnOwned(w, owner)) <==> StaysOwned(before, owner, e, env)
  {
    if writes != [] {
      assert writes[0] in writes;
    }
  }

  /** Exactly when an undisturbed suspension of an entry leaves its object alone, read off the options, the answer and
      the object: what would only be deleted again is not created, what another owner controls or does not
      reference the owner is not touched where the options say so, and what the API server rejects is not applied. */
  lemma AsideExactly(writes: seq<Write>, ran: bool, before: map<Key, Object>, after: map<Key, Object>,
                     owner: Uid, e: Entry, values: map<Data, int>, env: SuspendEnv)
    requires UndisturbedTurn(writes, ran, before, after, owner, e, values, env)
    ensures writes == [] <==>
            || (e.key !in before && env.deleteOnSuspend)
            || (e.key in before && e.options.blockOnForeignController && ForeignControlled(before[e.key], owner))
            || (e.key in before && e.options.deleteOnlyIfOwned && env.deleteOnSuspend && !OwnedBy(before[e.key], owner))
            || Refuses(before, e.key, RefsOf(e, owner))
    ensures writes == [] ==> SameAt(before, after, e.key)
  {
    hide ForeignControlled, OwnedBy, Lands, Refuses;
  }

  /** A suspension that deleted its object is the last one to write: the next finds it absent and creates nothing. */
  lemma NoChurn(writes: seq<Write>, ran: bool, before: map<Key, Object>, middle: map<Key, Object>, again: seq<Write>,
                ranAgain: bool, after: map<Key, Object>, owner: Uid, e: Entry, values: map<Data, int>,
                later: map<Data, int>, env: SuspendEnv, next: SuspendEnv)
    requires UndisturbedTurn(writes, ran, before, middle, owner, e, values, env)
    requires env.Asks() && |writes| == 2 && next.deleteOnSuspend
    requires UndisturbedTurn(again, ranAgain, middle, after, owner, e, later, next)
    ensures again == [] && e.key !in after
  {
    hide ForeignControlled, OwnedBy, Lands, Refuses, MayDelete;
    AsideExactly(again, ranAgain, middle, after, owner, e, later, next);
  }

  /** A failing input: an object another owner controls, an entry that cannot own it, and no deletion asked
      for. The suspension applies to that object. */
  lemma SuspendsForeignObject(writes: seq<Write>, ran: bool, after: map<Key, Object>, o: Object, owner: Uid,
                              e: Entry, values: map<Data, int>, env: SuspendEnv, other: Uid)
    requires other != owner && o.key == e.key && o.refs == [Ref(other, true)]
    requires e.options.deleteOnlyIfOwned && !e.options.blockOnForeignController && !e.options.unowned && !e.ownable
    requires !env.deleteOnSuspend
    requires UndisturbedTurn(writes, ran, map[e.key := o], after, owner, e, values, env)
    ensures writes != [] && writes[0].Applied? && writes[0].previous == Some(o)
    ensures ForeignControlled(o, owner) && !OnOwned(writes[0], owner)
  {
  }

  datatype Verdict = Proceed(observed: Option<Object>) | Answer(status: Option<Status>)

  predicate StandsAside(objects: map<Key, Object>, key: Key, owner: Uid, p: Protection, env: SuspendEnv) {
    || (env.deleteOnSuspend && key !in objects)
    || (p.blockOnForeignController && key in objects && ForeignControlled(objects[key], owner))
    || (p.deleteOnlyIfOwned && env.deleteOnSuspend && key in objects && !OwnedBy(objects[key], owner))
  }

  /** What a suspension that stands aside has met, whatever other clients do: an object under foreign control, no
      object where it would only be deleted again, or one without the owner's reference. */
  ghost predicate MetAside(archive: map<Version, Object>, objects: map<Key, Object>, owner: Uid, key: Key,
                           p: Protection, env: SuspendEnv) {
    || (p.blockOnForeignController && !env.control.read.fault &&
        exists v <- archive :: archive[v].key == key && ForeignControlled(archive[v], owner))
    || (env.deleteOnSuspend && !env.existing.read.fault && (env.existing.view == PastAbsent || key !in objects))
    || (env.deleteOnSuspend && !env.existing.read.fault && p.deleteOnlyIfOwned &&
        exists v <- archive :: archive[v].key == key && !OwnedBy(archive[v], owner))
  }

  /** The checks of a suspension before its first write: it stands aside for an absent object that would
      only be deleted again, and for an object that is not the owner's to suspend. */
  method CheckSuspension(server: Server, owner: Uid, key: Key, p: Protection, env: SuspendEnv) returns (v: Verdict)
    requires server.Valid()
    modifies server
    ensures server.Untouched()
    ensures env.Calm() ==> server.objects == old(server.objects)
    ensures v == Answer(None) ==>
              || (p.blockOnForeignController && env.control.read.fault)
              || (env.deleteOnSuspend && env.existing.read.fault)
    ensures p.blockOnForeignController && env.control.read.fault ==> v == Answer(None)
    ensures env.deleteOnSuspend && env.existing.read.fault ==> v.Answer?
    ensures v == Answer(Some(Suspended)) ==> MetAside(server.archive, server.objects, owner, key, p, env)
    ensures v.Answer? ==> v.status in {None, Some(Suspended)}
    ensures v.Proceed? ==> (v.observed.Some? <==> p.deleteOnlyIfOwned && env.deleteOnSuspend)
    ensures v.Proceed? && v.observed.Some? ==>
              v.observed.value.key == key && server.Archived(v.observed.value) && OwnedBy(v.observed.value, owner)
    ensures env.Calm() && !env.Faulty() ==> (v.Answer? <==> StandsAside(old(server.objects), key, owner, p, env))
    ensures env.Calm() && v.Proceed? && v.observed.Some? ==>
              key in server.objects && server.objects[key] == v.observed.value
  {
    if p.blockOnForeignController {
      var observation := ObserveController(server, owner, key, env.control.view, env.control.read);
      if observation == ObservationFailed {
        return Answer(None);
      }
      if observation.foreign {
        assert server.archive[observation.live.value.version] == observation.live.value;
        return Answer(Some(Suspended));
      }
    }
    if !env.deleteOnSuspend {
      return Proceed(None);
    }
    var existing := server.Get(key, env.existing.view, env.existing.read);
    if existing == Absent {
      return Answer(Some(Suspended));
    }
    if existing == ReadFailed {
      return Answer(None);
    }
    if !p.deleteOnlyIfOwned {
      return Proceed(None);
    }
    if !(exists r <- existing.live.refs :: r.uid == owner) {
      assert server.archive[existing.live.version] == existing.live && !OwnedBy(existing.live, owner);
      return Answer(Some(Suspended));
    }
    return Proceed(Some(existing.live));
  }

  /** After the extractions: the status, and the delete. */
  method ConcludeSuspension(server: Server, owner: Uid, key: Key, p: Protection, env: SuspendEnv)
    returns (r: Option<Status>)
    requires server.Valid()
    modifies server
    ensures server.Valid() && server.Extends()
    ensures server.writes == old(server.writes) ||
            (|server.writes| > 0 && server.Wrote(server.writes[|server.writes| - 1]) &&
             Concludes(server.writes[|server.writes| - 1], owner, key, p, env))
    ensures env.Calm() ==> OthersKept(old(server.objects), server.objects, key)
    ensures r == None ==> Disturbed(p, env)
    ensures r.Some? ==> r == env.status
    ensures DeleteFails(p, env) ==> r == None
    ensures env.Calm() && !env.Faulty() && key in old(server.objects) ==>
              && r == env.status
              && if env.Asks() && MayDelete(old(server.objects)[key], owner, p)
                 then
                   && server.writes == old(server.writes) + [Deleted(old(server.objects)[key])]
                   && key !in server.objects
                 else server.writes == old(server.writes) && server.objects == old(server.objects)
  {
    if env.status == None {
      return None;
    }
    if env.status.value != Suspended || !env.deleteOnSuspendAgain {
      return env.status;
    }
    var outcome, _ := DeleteEntry(server, owner, key, p, env.deletion);
    return if outcome == DeleteFailed then None else env.status;
  }

  /** After the apply: the extractions, then the status and the delete. */
  method FinishSuspension(server: Server, owner: Uid, e: Entry, key: Key, env: SuspendEnv, ghost cells: set<Data>)
    returns (r: Option<Status>)
    requires server.Valid() && Wired(e, env.extracted, cells)
    modifies server, cells
    ensures server.Valid() && server.Extends()
    ensures Snapshot(cells) == Filled(old(Snapshot(cells)), e, env.extracted, |e.produces|)
    ensures server.writes == old(server.writes) ||
            (|server.writes| > 0 && server.Wrote(server.writes[|server.writes| - 1]) &&
             Concludes(server.writes[|server.writes| - 1], owner, key, ProtectionOf(e.options), env))
    ensures env.Calm() ==> OthersKept(old(server.objects), server.objects, key)
    ensures r == None ==> Disturbed(ProtectionOf(e.options), env)
    ensures r.Some? ==> r == env.status && None !in env.extracted && !DeleteFails(ProtectionOf(e.options), env)
    ensures env.Calm() && !env.Faulty() && key in old(server.objects) ==>
              && r == env.status
              && if env.Asks() && MayDelete(old(server.objects)[key], owner, ProtectionOf(e.options))
                 then
                   && server.writes == old(server.writes) + [Deleted(old(server.objects)[key])]
                   && key !in server.objects
                 else server.writes == old(server.writes) && server.objects == old(server.objects)
  {
    hide Snapshot, Filled, MayDelete;
    var extracted := ExtractData(e, env.extracted, cells);
    if !extracted {
      return None;
    }
    r := ConcludeSuspension(server, owner, key, ProtectionOf(e.options), env);
  }

  predicate StillLive(objects: map<Key, Object>, key: Key, observed: Option<Object>) {
    observed.Some? ==> key in objects && objects[key] == observed.value
  }

  /** Answers come from the resource alone, after every step succeeded; a conflict of the apply with the object
      that was read is reported as Suspending, so never as Suspended; and a failing step is never answered. */
  ghost predicate Reported(r: Option<Status>, ran: bool, conflict: bool, p: Protection, env: SuspendEnv) {
    r.Some? ==>
      && !env.suspendFails && !env.apply.Stops()
      && if ran then r == env.status && !env.apply.statusFails && None !in env.extracted && !DeleteFails(p, env)
         else conflict && r == Some(Suspending)
  }

  /** The writing half of a suspension: an apply that lands only on `observed` when that is given, and a
      delete once the resource reports Suspended. */
  method ApplySuspension(server: Server, owner: Uid, e: Entry, desired: Desired, observed: Option<Object>,
                         env: SuspendEnv, ghost cells: set<Data>)
    returns (r: Option<Status>, ghost ran: bool)
    requires server.Valid() && Wired(e, env.extracted, cells)
    requires observed.Some? ==>
               observed.value.key == desired.key && server.Archived(observed.value) && e.options.deleteOnlyIfOwned
    modifies server, cells
    ensures server.Valid() && server.Extends() && old(server.writes) <= server.writes
    ensures SuspensionWrites(server.writes[|old(server.writes)|..], desired, observed, ProtectionOf(e.options), owner,
                             env)
    ensures ran ==> server.writes != old(server.writes)
    ensures Snapshot(cells) ==
            if ran then Filled(old(Snapshot(cells)), e, env.extracted, |e.produces|) else old(Snapshot(cells))
    ensures env.Calm() ==> OthersKept(old(server.objects), server.objects, desired.key)
    ensures Reported(r, ran, observed.Some?, ProtectionOf(e.options), env)
    ensures r.Some? && !ran ==> !StillLive(server.objects, desired.key, observed)
    ensures r == None ==>
              Disturbed(ProtectionOf(e.options), env) || Refuses(server.objects, desired.key, desired.refs)
    ensures env.Calm() && !env.Faulty() && StillLive(old(server.objects), desired.key, observed) ==>
              if Refuses(old(server.objects), desired.key, desired.refs)
              then r == None && !ran && server.writes == old(server.writes) && server.objects == old(server.objects)
              else && r == env.status && ran
                   && AppliedFully(server.writes[|old(server.writes)|..], old(server.objects), server.objects, desired,
                                   ProtectionOf(e.options), owner, env)
  {
    hide PatchRefs, OneController, MayDelete, OwnedBy, ForeignControlled, Snapshot, Filled, SuspensionWrites, Lands,
         AppliedFully, Refuses, Concludes, Wired, OthersKept, Server.Valid;
    ran := false;
    ghost var start, world := server.writes, server.objects;
    OthersKeptSame(world, desired.key);
    TwoWrites(start, start, start, desired, observed, ProtectionOf(e.options), owner, env);
    if env.suspendFails {
      return None, ran;
    }
    var reply := ApplyResource(server, desired, observed, env.apply);
    ghost var middle, applied := server.objects, server.writes;
    TwoWrites(start, applied, applied, desired, observed, ProtectionOf(e.options), owner, env);
    if !reply.ApplyDone? {
      return if reply == ApplyConflict then Some(Suspending) else None, ran;
    }
    ran := true;
    r := FinishSuspension(server, owner, e, desired.key, env, cells);
    OthersKeptTwice(world, middle, server.objects, desired.key);
    TwoWrites(start, applied, server.writes, desired, observed, ProtectionOf(e.options), owner, env);
    if env.Calm() && !env.Faulty() && desired.key in middle && middle[desired.key] == applied[|start|].after
        && applied[|start|].previous ==
             (if desired.key in world then Some(world[desired.key]) else None) {
      Fully(server.writes[|start|..], world, middle, server.objects, desired, ProtectionOf(e.options),
            owner, env);
    }
  }

  lemma OthersKeptTwice(before: map<Key, Object>, middle: map<Key, Object>, after: map<Key, Object>, key: Key)
    ensures OthersKept(before, middle, key) && OthersKept(middle, after, key) ==> OthersKept(before, after, key)
  {
  }

  /** An apply, if one landed, and a delete, if one landed after it. */
  lemma TwoWrites(start: seq<Write>, applied: seq<Write>, end: seq<Write>, desired: Desired, observed: Option<Object>,
                  p: Protection, owner: Uid, env: SuspendEnv)
    requires applied == start ||
             (|applied| > 0 && applied == start + [applied[|applied| - 1]]
              && Lands(applied[|applied| - 1], desired, observed))
    requires end == applied ||
             (applied != start && |end| > 0 && end == applied + [end[|end| - 1]]
              && Concludes(end[|end| - 1], owner, desired.key, p, env))
    ensures start <= end && SuspensionWrites(end[|start|..], desired, observed, p, owner, env)
    ensures applied != start ==> Lands(end[|start|..][0], desired, None) && end[|start|..][0].Applied?
    ensures end[|start|..] == (if applied == start then [] else [applied[|applied| - 1]])
                              + if end == applied then [] else [end[|end| - 1]]
  {
    hide Lands, MayDelete;
    if applied != start {
      LandsAnywhere(applied[|applied| - 1], desired, observed);
    }
  }

  lemma Fully(writes: seq<Write>, before: map<Key, Object>, middle: map<Key, Object>, after: map<Key, Object>,
              desired: Desired, p: Protection, owner: Uid, env: SuspendEnv)
    requires |writes| > 0 && Lands(writes[0], desired, None)
    requires writes[0].previous == (if desired.key in before then Some(before[desired.key]) else None)
    requires desired.key in middle && middle[desired.key] == writes[0].after
    requires if env.Asks() && MayDelete(middle[desired.key], owner, p)
             then writes == [writes[0], Deleted(middle[desired.key])] && desired.key !in after
             else writes == [writes[0]] && after == middle
    ensures AppliedFully(writes, before, after, desired, p, owner, env)
  {
  }

  lemma LandsAnywhere(w: Write, desired: Desired, observed: Option<Object>)
    requires Lands(w, desired, observed)
    ensures Lands(w, desired, None) && w.Applied?
  {
  }

  /** What an apply with the owner's reference leaves is the owner's, and nobody else controls it. */
  lemma AppliedIsOwned(w: Write, desired: Desired, observed: Option<Object>, owner: Uid, p: Protection)
    requires Lands(w, desired, observed) && desired.refs == Own(owner)
    ensures OwnedBy(w.after, owner) && !ForeignControlled(w.after, owner) && MayDelete(w.after, owner, p)
  {
    var refs := if w.previous.Some? then w.previous.value.refs else [];
    SetControllerSets(refs, owner);
    var i :| 0 <= i < |w.after.refs| && w.after.refs[i] == Ref(owner, true);
    assert w.after.refs[i] in w.after.refs;
    SoleController(w.after.refs, i);
  }

  lemma {:induction false} SoleController(refs: seq<Ref>, i: nat)
    requires OneController(refs) && i < |refs| && refs[i].controller
    ensures ControllerOf(refs) == Some(refs[i])
  {
    if i > 0 {
      assert !refs[0].controller;
      assert forall j :: 0 <= j < |refs| - 1 ==> refs[1..][j] == refs[j + 1];
      SoleController(refs[1..], i - 1);
    }
  }

  /** The answer for an entry is accounted for, whatever other clients do: the component stood aside for a reason it
      met, or every step up to the answer succeeded. */
  ghost predicate Answered(answer: Option<Status>, ran: bool, archive: map<Version, Object>, objects: map<Key, Object>,
                           owner: Uid, e: Entry, env: SuspendEnv) {
    var p := ProtectionOf(e.options);
    && (answer.Some? ==> !(p.blockOnForeignController && env.control.read.fault))
    && (|| (answer == Some(Suspended) && !ran && MetAside(archive, objects, owner, e.key, p, env))
        || Reported(answer, ran, p.deleteOnlyIfOwned && env.deleteOnSuspend, p, env))
  }

  lemma AnsweredLater(answer: Option<Status>, ran: bool, archive: map<Version, Object>, later: map<Version, Object>,
                      objects: map<Key, Object>, owner: Uid, e: Entry, env: SuspendEnv)
    requires Answered(answer, ran, archive, objects, owner, e, env)
    requires forall v <- archive :: v in later && later[v] == archive[v]
    ensures Answered(answer, ran, later, objects, owner, e, env)
  {
    hide Reported, ForeignControlled, OwnedBy;
    if v :| v in archive && archive[v].key == e.key && ForeignControlled(archive[v], owner) {
      assert later[v] == archive[v];
    }
    if v :| v in archive && archive[v].key == e.key && !OwnedBy(archive[v], owner) {
      assert later[v] == archive[v];
    }
  }

  /** Suspends one resource: Turn says what it may write under any interference, UndisturbedTurn what it
      writes and leaves without. */
  method SuspendResource(server: Server, owner: Uid, e: Entry, env: SuspendEnv, ghost cells: set<Data>)
    returns (r: Option<Status>, ghost ran: bool)
    requires server.Valid() && Wired(e, env.extracted, cells)
    modifies server, cells
    ensures server.Valid() && server.Extends() && old(server.writes) <= server.writes
    ensures Turn(server.writes[|old(server.writes)|..], ran, owner, e, ValuesIn(old(Snapshot(cells)), e), env)
    ensures Snapshot(cells) ==
            if ran then Filled(old(Snapshot(cells)), e, env.extracted, |e.produces|) else old(Snapshot(cells))
    ensures env.Calm() ==> OthersKept(old(server.objects), server.objects, e.key)
    ensures r == None ==> Disturbed(ProtectionOf(e.options), env) || Refuses(server.objects, e.key, RefsOf(e, owner))
    ensures Answered(r, ran, server.archive, server.objects, owner, e, env)
    ensures env.Calm() && !env.Faulty() ==>
              && r == AnswerOf(old(server.objects), owner, e, env)
              && UndisturbedTurn(server.writes[|old(server.writes)|..], ran, old(server.objects), server.objects,
                                 owner, e, ValuesIn(old(Snapshot(cells)), e), env)
    ensures env.Calm() && !env.Faulty() && e.options.deleteOnlyIfOwned ==>
              ((forall w <- server.writes[|old(server.writes)|..] :: OnOwned(w, owner)) <==>
               StaysOwned(old(server.objects), owner, e, env))
  {
    hide Snapshot, Filled, Lands, MayDelete, Refuses, OwnedBy, ForeignControlled, StaysOwned;
    ValuesMatch(e, cells);
    ran := false;
    var verdict := CheckSuspension(server, owner, e.key, ProtectionOf(e.options), env);
    match verdict {
      case Answer(status) =>
        assert SuspensionWrites([], SuspendedOf(e, owner, old(Values(e))), None, ProtectionOf(e.options), owner, env);
        assert server.writes[|old(server.writes)|..] == [];
        r := status;
      case Proceed(observed) =>
        r, ran := ApplySuspension(server, owner, e, SuspendedOf(e, owner, Values(e)), observed, env, cells);
    }
    if env.Calm() && !env.Faulty() && e.options.deleteOnlyIfOwned {
      OwnedExactly(server.writes[|old(server.writes)|..], ran, old(server.objects), server.objects, owner, e,
                   ValuesIn(old(Snapshot(cells)), e), env);
    }
  }

  /** What an undisturbed suspension of one entry answers: Suspended where the component stands aside, None
      when the API server rejects its apply, the resource's own answer elsewhere. */
  function AnswerOf(objects: map<Key, Object>, owner: Uid, e: Entry, env: SuspendEnv): Option<Status> {
    if StandsAside(objects, e.key, owner, ProtectionOf(e.options), env) then Some(Suspended)
    else if Refuses(objects, e.key, RefsOf(e, owner)) then None
    else env.status
  }

  // All suspendable entries of a pass, in order

  function Extractions(envs: seq<SuspendEnv>): (extracted: seq<seq<Option<int>>>)
    ensures |extracted| == |envs|
  {
    seq(|envs|, i requires 0 <= i < |envs| => envs[i].extracted)
  }

  /** What the mutations of entry i can read: the cells the entries suspended before it filled. */
  ghost function ValuesAt(entries: seq<Entry>, envs: seq<SuspendEnv>, ran: seq<bool>, i: nat): map<Data, int>
    requires i < |entries| == |envs| && i <= |ran|
  {
    ValuesIn(CellsFilled(entries, Extractions(envs), ran[..i]), entries[i])
  }

  /** The turn of an entry in the loop; one that cannot be suspended has none. */
  ghost predicate EntryTurn(writes: seq<Write>, ran: bool, owner: Uid, e: Entry, values: map<Data, int>,
                            env: SuspendEnv) {
    if env.suspendable then Turn(writes, ran, owner, e, values, env) else writes == [] && !ran
  }

  ghost predicate EntryLeft(writes: seq<Write>, ran: bool, before: map<Key, Object>, after: map<Key, Object>,
                            owner: Uid, e: Entry, values: map<Data, int>, env: SuspendEnv) {
    if env.suspendable then UndisturbedTurn(writes, ran, before, after, owner, e, values, env)
    else SameAt(before, after, e.key)
  }

  /** The entry was disturbed, or some object that once lived under its key would make the API server reject
      its apply. */
  ghost predicate EntryDisturbed(archive: map<Version, Object>, owner: Uid, e: Entry, env: SuspendEnv) {
    && env.suspendable
    && (Disturbed(ProtectionOf(e.options), env) ||
        exists v <- archive ::
          archive[v].key == e.key && !OneController(PatchRefs(archive[v].refs, RefsOf(e, owner))))
  }

  /** The writes of a suspension are those of its entries, in registration order. */
  ghost predicate Ledger(writes: seq<Write>, turns: seq<seq<Write>>, ran: seq<bool>, entries: seq<Entry>,
                         envs: seq<SuspendEnv>, owner: Uid)
    requires |ran| <= |entries| == |envs|
  {
    && |turns| == |ran| && writes == Flat(turns)
    && forall i :: 0 <= i < |turns| ==>
         EntryTurn(turns[i], ran[i], owner, entries[i], ValuesAt(entries, envs, ran, i), envs[i])
  }

  /** What an undisturbed suspension leaves of every entry's object. */
  ghost predicate Left(turns: seq<seq<Write>>, ran: seq<bool>, before: map<Key, Object>, after: map<Key, Object>,
                       entries: seq<Entry>, envs: seq<SuspendEnv>, owner: Uid)
    requires |turns| == |ran| <= |entries| == |envs|
  {
    forall i :: 0 <= i < |turns| ==>
      EntryLeft(turns[i], ran[i], before, after, owner, entries[i], ValuesAt(entries, envs, ran, i), envs[i])
  }

  ghost predicate Undisturbed(entries: seq<Entry>, envs: seq<SuspendEnv>) {
    && |envs| == |entries|
    && (forall env <- envs :: env.Calm() && !env.Faulty())
    && (forall i, j :: 0 <= i < j < |entries| ==> entries[i].key != entries[j].key)
  }

  /** The answers of the first n entries, or None when one of them has none. */
  function Answers(objects: map<Key, Object>, owner: Uid, entries: seq<Entry>, envs: seq<SuspendEnv>, n: nat)
    : Option<seq<Status>>
    requires n <= |entries| == |envs|
  {
    if n == 0 then Some([])
    else
      var init := Answers(objects, owner, entries, envs, n - 1);
      if !envs[n - 1].suspendable then init
      else
        var answer := AnswerOf(objects, owner, entries[n - 1], envs[n - 1]);
        if init == None || answer == None then None else Some(init.value + [answer.value])
  }

  /** What the loop makes of the entries' answers: an error when a suspendable entry has none, else all of them in
      order. */
  function Collected(answers: seq<Option<Status>>, envs: seq<SuspendEnv>): Option<seq<Status>>
    requires |answers| <= |envs|
  {
    if answers == [] then Some([])
    else
      var n := |answers| - 1;
      var init := Collected(answers[..n], envs);
      if !envs[n].suspendable then init
      else if init == None || answers[n] == None then None
      else Some(init.value + [answers[n].value])
  }

  lemma CollectedMore(answers: seq<Option<Status>>, answer: Option<Status>, envs: seq<SuspendEnv>)
    requires |answers| < |envs|
    ensures Collected(answers + [answer], envs) ==
            var init := Collected(answers, envs);
            if !envs[|answers|].suspendable then init
            else if init == None || answer == None then None
            else Some(init.value + [answer.value])
  {
    assert (answers + [answer])[..|answers|] == answers;
  }

  /** Without an error every suspendable entry answered, and its answer is among the results. */
  lemma {:induction false} CollectedHolds(answers: seq<Option<Status>>, envs: seq<SuspendEnv>, i: nat)
    requires i < |answers| <= |envs| && Collected(answers, envs).Some? && envs[i].suspendable
    ensures answers[i].Some? && answers[i].value in Collected(answers, envs).value
  {
    var n := |answers| - 1;
    if i < n {
      CollectedHolds(answers[..n], envs, i);
    }
  }

  /** Every answer so far is accounted for; `worlds` are the objects after each entry. */
  ghost predicate AllAnswered(answers: seq<Option<Status>>, ran: seq<bool>, worlds: seq<map<Key, Object>>,
                              archive: map<Version, Object>, owner: Uid, entries: seq<Entry>, envs: seq<SuspendEnv>)
    requires |answers| == |ran| == |worlds| <= |entries| == |envs|
  {
    forall i :: 0 <= i < |answers| && envs[i].suspendable ==>
      Answered(answers[i], ran[i], archive, worlds[i], owner, entries[i], envs[i])
  }

  lemma AllAnsweredLater(answers: seq<Option<Status>>, ran: seq<bool>, worlds: seq<map<Key, Object>>,
                         archive: map<Version, Object>, later: map<Version, Object>, owner: Uid, entries: seq<Entry>,
                         envs: seq<SuspendEnv>)
    requires |answers| == |ran| == |worlds| <= |entries| == |envs|
    requires AllAnswered(answers, ran, worlds, archive, owner, entries, envs)
    requires forall v <- archive :: v in later && later[v] == archive[v]
    ensures AllAnswered(answers, ran, worlds, later, owner, entries, envs)
  {
    hide Answered;
    forall i | 0 <= i < |answers| && envs[i].suspendable
      ensures Answered(answers[i], ran[i], later, worlds[i], owner, entries[i], envs[i])
    {
      AnsweredLater(answers[i], ran[i], archive, later, worlds[i], owner, entries[i], envs[i]);
    }
  }

  lemma AllAnsweredMore(answers: seq<Option<Status>>, ran: seq<bool>, worlds: seq<map<Key, Object>>,
                        earlier: map<Version, Object>, archive: map<Version, Object>, owner: Uid, entries: seq<Entry>,
                        envs: seq<SuspendEnv>, answer: Option<Status>, filled: bool, world: map<Key, Object>)
    requires |answers| == |ran| == |worlds| < |entries| == |envs|
    requires AllAnswered(answers, ran, worlds, earlier, owner, entries, envs)
    requires forall v <- earlier :: v in archive && archive[v] == earlier[v]
    requires envs[|answers|].suspendable ==>
               Answered(answer, filled, archive, world, owner, entries[|answers|], envs[|answers|])
    ensures AllAnswered(answers + [answer], ran + [filled], worlds + [world], archive, owner, entries, envs)
  {
    hide Answered;
    AllAnsweredLater(answers, ran, worlds, earlier, archive, owner, entries, envs);
  }

  /** What the loop has recorded of the first entries: their writes in order, with the content computed from the
      cells as they stood, the cells they filled, and where their answers come from; undisturbed, exactly the
      entries' own answers, and the state Left describes; and an error only where something disturbed an entry. */
  ghost predicate Progress(writes: seq<Write>, cells: map<Data, int>, world: map<Key, Object>,
                           objects: map<Key, Object>, archive: map<Version, Object>, turns: seq<seq<Write>>,
                           ran: seq<bool>, answers: seq<Option<Status>>, worlds: seq<map<Key, Object>>,
                           entries: seq<Entry>, envs: seq<SuspendEnv>, owner: Uid) {
    && |turns| == |ran| == |answers| == |worlds| <= |entries| == |envs|
    && Ledger(writes, turns, ran, entries, envs, owner) && cells == CellsFilled(entries, Extractions(envs), ran)
    && AllAnswered(answers, ran, worlds, archive, owner, entries, envs)
    && (Undisturbed(entries, envs) ==>
        && Collected(answers, envs) == Answers(world, owner, entries, envs, |ran|)
        && Left(turns, ran, world, objects, entries, envs, owner) && KeptFrom(world, objects, entries, |ran|))
    && (Collected(answers, envs) == None ==> SomeDisturbed(archive, owner, entries, envs, |ran|))
  }

  /** Suspends as many resources as possible; None when any of them failed. Progress says what each entry wrote and
      answered. */
  method SuspendResources(server: Server, owner: Uid, entries: seq<Entry>, envs: seq<SuspendEnv>,
                          ghost cells: set<Data>)
    returns (results: Option<seq<Status>>, ghost turns: seq<seq<Write>>, ghost ran: seq<bool>,
             ghost answers: seq<Option<Status>>, ghost worlds: seq<map<Key, Object>>)
    requires server.Valid() && |envs| == |entries| && Snapshot(cells) == map[]
    requires forall i :: 0 <= i < |entries| ==> Wired(entries[i], envs[i].extracted, cells)
    modifies server, cells
    ensures server.Valid() && server.Extends() && old(server.writes) <= server.writes
    ensures |answers| == |ran| == |entries| && results == Collected(answers, envs)
    ensures Progress(server.writes[|old(server.writes)|..], Snapshot(cells), old(server.objects), server.objects,
                     server.archive, turns, ran, answers, worlds, entries, envs, owner)
  {
    var statuses, failed := [], false;
    turns, ran, answers, worlds := [], [], [], [];
    ghost var start, world := server.writes, server.objects;
    assert server.writes[|start|..] == [];
    hide Progress, Server.Valid, Snapshot, Wired, Collected;
    Nothing(world, server.archive, owner, entries, envs);
    for i := 0 to |entries|
      invariant server.Valid() && server.Extends() && start <= server.writes && |answers| == |ran| == i
      invariant Collected(answers, envs) == if failed then None else Some(statuses)
      invariant Progress(server.writes[|start|..], Snapshot(cells), world, server.objects, server.archive, turns, ran,
                         answers, worlds, entries, envs, owner)
    {
      ghost var middle := server.writes;
      var status;
      ghost var filled;
      status, filled := SuspendNext(server, owner, entries, envs, i, start, world, turns, ran, answers, worlds, cells);
      CollectedMore(answers, status, envs);
      turns, ran := turns + [server.writes[|middle|..]], ran + [filled];
      answers, worlds := answers + [status], worlds + [server.objects];
      if envs[i].suspendable {
        if status == None {
          failed := true;
        } else {
          statuses := statuses + [status.value];
        }
      }
    }
    return if failed then None else Some(statuses), turns, ran, answers, worlds;
  }

  /** Entry i of the loop, and what it adds to the record. */
  method SuspendNext(server: Server, owner: Uid, entries: seq<Entry>, envs: seq<SuspendEnv>, i: nat,
                     ghost start: seq<Write>, ghost world: map<Key, Object>, ghost turns: seq<seq<Write>>,
                     ghost ran: seq<bool>, ghost answers: seq<Option<Status>>, ghost worlds: seq<map<Key, Object>>,
                     ghost cells: set<Data>)
    returns (status: Option<Status>, ghost filled: bool)
    requires server.Valid() && i == |ran| < |entries| == |envs| && start <= server.writes
    requires Wired(entries[i], envs[i].extracted, cells)
    requires Progress(server.writes[|start|..], Snapshot(cells), world, server.objects, server.archive, turns, ran,
                      answers, worlds, entries, envs, owner)
    modifies server, cells
    ensures server.Valid() && server.Extends() && old(server.writes) <= server.writes
    ensures Progress(server.writes[|start|..], Snapshot(cells), world, server.objects, server.archive,
                     turns + [server.writes[|old(server.writes)|..]], ran + [filled], answers + [status],
                     worlds + [server.objects], entries, envs, owner)
  {
    hide Progress, EntryDisturbed, EntryTurn, EntryLeft, AnswerOf, Answered, Server.Valid, Snapshot, Filled, Wired,
         OthersKept;
    ghost var middle, before, earlier, standing := server.writes, server.objects, server.archive, Snapshot(cells);
    status, filled := SuspendEntry(server, owner, entries[i], envs[i], cells);
    ProgressMore(start, middle, server.writes, standing, Snapshot(cells), world, before, server.objects, earlier,
                 server.archive, turns, ran, answers, worlds, entries, envs, owner, status, filled);
  }

  /** One entry of the loop. */
  method SuspendEntry(server: Server, owner: Uid, e: Entry, env: SuspendEnv, ghost cells: set<Data>)
    returns (status: Option<Status>, ghost ran: bool)
    requires server.Valid() && Wired(e, env.extracted, cells)
    modifies server, cells
    ensures server.Valid() && server.Extends() && old(server.writes) <= server.writes
    ensures EntryTurn(server.writes[|old(server.writes)|..], ran, owner, e, ValuesIn(old(Snapshot(cells)), e), env)
    ensures Snapshot(cells) ==
            if ran then Filled(old(Snapshot(cells)), e, env.extracted, |e.produces|) else old(Snapshot(cells))
    ensures env.Calm() ==> OthersKept(old(server.objects), server.objects, e.key)
    ensures env.suspendable ==> Answered(status, ran, server.archive, server.objects, owner, e, env)
    ensures env.suspendable && status == None ==> EntryDisturbed(server.archive, owner, e, env)
    ensures env.Calm() && !env.Faulty() ==>
              && (env.suspendable ==> status == AnswerOf(old(server.objects), owner, e, env))
              && EntryLeft(server.writes[|old(server.writes)|..], ran, old(server.objects), server.objects, owner, e,
                           ValuesIn(old(Snapshot(cells)), e), env)
  {
    hide Turn, UndisturbedTurn, AnswerOf, Snapshot, Filled, Wired, PatchRefs, OneController, Answered;
    if !env.suspendable {
      assert server.writes[|old(server.writes)|..] == [];
      return None, false;
    }
    status, ran := SuspendResource(server, owner, e, env, cells);
    if Refuses(server.objects, e.key, RefsOf(e, owner)) {
      RefusesLive(server.objects, e.key, RefsOf(e, owner));
      assert server.Archived(server.objects[e.key]);
    }
  }

  lemma RefusesLive(objects: map<Key, Object>, key: Key, patch: RefPatch)
    requires Refuses(objects, key, patch)
    ensures key in objects
  {
  }

  ghost predicate SomeDisturbed(archive: map<Version, Object>, owner: Uid, entries: seq<Entry>, envs: seq<SuspendEnv>,
                                n: nat)
    requires n <= |entries| == |envs|
  {
    exists i :: 0 <= i < n && EntryDisturbed(archive, owner, entries[i], envs[i])
  }

  /** The objects of the entries from the i-th on are as they were. */
  ghost predicate KeptFrom(before: map<Key, Object>, now: map<Key, Object>, entries: seq<Entry>, i: nat) {
    forall j :: i <= j < |entries| ==> SameAt(before, now, entries[j].key)
  }

  lemma Nothing(objects: map<Key, Object>, archive: map<Version, Object>, owner: Uid, entries: seq<Entry>,
                envs: seq<SuspendEnv>)
    requires |envs| == |entries|
    ensures Collected([], envs) == Some([])
    ensures Progress([], map[], objects, objects, archive, [], [], [], [], entries, envs, owner)
  {
  }

  /** One more entry in the record. */
  lemma ProgressMore(start: seq<Write>, middle: seq<Write>, end: seq<Write>, cells: map<Data, int>,
                     cells': map<Data, int>, world: map<Key, Object>, before: map<Key, Object>,
                     after: map<Key, Object>, earlier: map<Version, Object>, archive: map<Version, Object>,
                     turns: seq<seq<Write>>, ran: seq<bool>, answers: seq<Option<Status>>,
                     worlds: seq<map<Key, Object>>, entries: seq<Entry>, envs: seq<SuspendEnv>, owner: Uid,
                     status: Option<Status>, filled: bool)
    requires |ran| < |entries| == |envs| && start <= middle <= end
    requires forall v <- earlier :: v in archive && archive[v] == earlier[v]
    requires Progress(middle[|start|..], cells, world, before, earlier, turns, ran, answers, worlds, entries, envs,
                      owner)
    requires EntryTurn(end[|middle|..], filled, owner, entries[|ran|], ValuesIn(cells, entries[|ran|]), envs[|ran|])
    requires cells' == if filled then Filled(cells, entries[|ran|], envs[|ran|].extracted, |entries[|ran|].produces|)
                       else cells
    requires envs[|ran|].suspendable ==>
               && Answered(status, filled, archive, after, owner, entries[|ran|], envs[|ran|])
               && (status == None ==> EntryDisturbed(archive, owner, entries[|ran|], envs[|ran|]))
    requires envs[|ran|].Calm() && !envs[|ran|].Faulty() ==>
               && OthersKept(before, after, entries[|ran|].key)
               && (envs[|ran|].suspendable ==> status == AnswerOf(before, owner, entries[|ran|], envs[|ran|]))
               && EntryLeft(end[|middle|..], filled, before, after, owner, entries[|ran|],
                            ValuesIn(cells, entries[|ran|]), envs[|ran|])
    ensures Progress(end[|start|..], cells', world, after, archive, turns + [end[|middle|..]], ran + [filled],
                     answers + [status], worlds + [after], entries, envs, owner)
  {
    hide Ledger, CellsFilled, AllAnswered, Collected, Answers, AnswerOf, Left, KeptFrom, SomeDisturbed, EntryDisturbed,
         EntryTurn, EntryLeft, Answered, Filled, ValuesIn, OthersKept, SuspendEnv.Calm, SuspendEnv.Faulty;
    var n := |ran|;
    LedgerMore(start, middle, end, turns, ran, entries, envs, owner, filled);
    CellsFilledMore(entries, Extractions(envs), ran, filled);
    CollectedMore(answers, status, envs);
    AllAnsweredMore(answers, ran, worlds, earlier, archive, owner, entries, envs, status, filled, after);
    DisturbedMore(earlier, archive, owner, entries, envs, n);
    if Undisturbed(entries, envs) {
      assert envs[n] in envs;
      LeftMore(turns, ran, world, before, after, entries, envs, owner, end[|middle|..], filled);
      AnswersMore(world, before, owner, entries, envs, n, answers, status);
    }
  }

  lemma LedgerMore(start: seq<Write>, middle: seq<Write>, end: seq<Write>, turns: seq<seq<Write>>, ran: seq<bool>,
                   entries: seq<Entry>, envs: seq<SuspendEnv>, owner: Uid, filled: bool)
    requires |ran| < |entries| == |envs| && start <= middle <= end
    requires Ledger(middle[|start|..], turns, ran, entries, envs, owner)
    requires EntryTurn(end[|middle|..], filled, owner, entries[|ran|],
                       ValuesIn(CellsFilled(entries, Extractions(envs), ran), entries[|ran|]), envs[|ran|])
    ensures Ledger(end[|start|..], turns + [end[|middle|..]], ran + [filled], entries, envs, owner)
  {
    hide EntryTurn, CellsFilled, ValuesIn;
    assert end[|start|..] == middle[|start|..] + end[|middle|..];
    FlatMore(turns, end[|middle|..]);
    ValuesMore(entries, envs, ran, filled);
  }

  lemma ValuesMore(entries: seq<Entry>, envs: seq<SuspendEnv>, ran: seq<bool>, filled: bool)
    requires |ran| < |entries| == |envs|
    ensures forall i :: 0 <= i < |ran| ==> ValuesAt(entries, envs, ran + [filled], i) == ValuesAt(entries, envs, ran, i)
    ensures ValuesAt(entries, envs, ran + [filled], |ran|) ==
            ValuesIn(CellsFilled(entries, Extractions(envs), ran), entries[|ran|])
  {
    assert forall i :: 0 <= i <= |ran| ==> (ran + [filled])[..i] == ran[..i];
    assert ran[..|ran|] == ran;
  }

  /** A turn's end state is a matter of the entry's own object. */
  lemma LeftElsewhere(writes: seq<Write>, ran: bool, before: map<Key, Object>, after: map<Key, Object>,
                      before': map<Key, Object>, after': map<Key, Object>, owner: Uid, e: Entry,
                      values: map<Data, int>, env: SuspendEnv)
    requires EntryLeft(writes, ran, before, after, owner, e, values, env)
    requires SameAt(before, before', e.key) && SameAt(after, after', e.key)
    ensures EntryLeft(writes, ran, before', after', owner, e, values, env)
  {
    hide PatchRefs, OneController, MayDelete, OwnedBy, ForeignControlled, Lands;
  }

  lemma LeftMore(turns: seq<seq<Write>>, ran: seq<bool>, world: map<Key, Object>, before: map<Key, Object>,
                 after: map<Key, Object>, entries: seq<Entry>, envs: seq<SuspendEnv>, owner: Uid, turn: seq<Write>,
                 filled: bool)
    requires |turns| == |ran| < |entries| == |envs| && Undisturbed(entries, envs)
    requires Left(turns, ran, world, before, entries, envs, owner) && KeptFrom(world, before, entries, |ran|)
    requires OthersKept(before, after, entries[|ran|].key)
    requires EntryLeft(turn, filled, before, after, owner, entries[|ran|],
                       ValuesIn(CellsFilled(entries, Extractions(envs), ran), entries[|ran|]), envs[|ran|])
    ensures Left(turns + [turn], ran + [filled], world, after, entries, envs, owner)
    ensures KeptFrom(world, after, entries, |ran| + 1)
  {
    hide EntryLeft, CellsFilled, ValuesIn, ValuesAt;
    var n := |ran|;
    ValuesMore(entries, envs, ran, filled);
    forall i | 0 <= i <= n
      ensures EntryLeft((turns + [turn])[i], (ran + [filled])[i], world, after, owner, entries[i],
                        ValuesAt(entries, envs, ran + [filled], i), envs[i])
    {
      if i < n {
        LeftElsewhere(turns[i], ran[i], world, before, world, after, owner, entries[i], ValuesAt(entries, envs, ran, i),
                      envs[i]);
      } else {
        LeftElsewhere(turn, filled, before, after, world, after, owner, entries[n],
                      ValuesAt(entries, envs, ran + [filled], n), envs[n]);
      }
    }
  }

  /** What follows a suspension and spares the entries' objects leaves their state alone. */
  lemma LeftAfter(turns: seq<seq<Write>>, ran: seq<bool>, before: map<Key, Object>, middle: map<Key, Object>,
                  after: map<Key, Object>, entries: seq<Entry>, envs: seq<SuspendEnv>, owner: Uid)
    requires |turns| == |ran| <= |entries| == |envs|
    requires Left(turns, ran, before, middle, entries, envs, owner) && KeptFrom(middle, after, entries, 0)
    ensures Left(turns, ran, before, after, entries, envs, owner)
  {
    hide EntryLeft, ValuesAt;
    forall i | 0 <= i < |turns|
      ensures EntryLeft(turns[i], ran[i], before, after, owner, entries[i], ValuesAt(entries, envs, ran, i), envs[i])
    {
      LeftElsewhere(turns[i], ran[i], before, middle, before, after, owner, entries[i], ValuesAt(entries, envs, ran, i),
                    envs[i]);
    }
  }

  lemma AnswersMore(world: map<Key, Object>, before: map<Key, Object>, owner: Uid, entries: seq<Entry>,
                    envs: seq<SuspendEnv>, i: nat, answers: seq<Option<Status>>, status: Option<Status>)
    requires i == |answers| < |entries| == |envs| && KeptFrom(world, before, entries, i)
    requires Collected(answers, envs) == Answers(world, owner, entries, envs, i)
    requires envs[i].suspendable ==> status == AnswerOf(before, owner, entries[i], envs[i])
    ensures Collected(answers + [status], envs) == Answers(world, owner, entries, envs, i + 1)
  {
    hide PatchRefs, OneController, OwnedBy, ForeignControlled, Collected;
    CollectedMore(answers, status, envs);
    assert SameAt(world, before, entries[i].key);
  }

  lemma DisturbedMore(earlier: map<Version, Object>, archive: map<Version, Object>, owner: Uid, entries: seq<Entry>,
                      envs: seq<SuspendEnv>, i: nat)
    requires i < |entries| == |envs| && forall v <- earlier :: v in archive && archive[v] == earlier[v]
    ensures SomeDisturbed(earlier, owner, entries, envs, i) ==> SomeDisturbed(archive, owner, entries, envs, i + 1)
    ensures EntryDisturbed(archive, owner, entries[i], envs[i]) ==> SomeDisturbed(archive, owner, entries, envs, i + 1)
  {
    hide EntryDisturbed;
    DisturbedLater(earlier, archive, owner, entries, envs, i);
  }

  /** A disturbance stays one as the archive grows. */
  lemma DisturbedLater(archive: map<Version, Object>, later: map<Version, Object>, owner: Uid, entries: seq<Entry>,
                       envs: seq<SuspendEnv>, n: nat)
    requires n <= |entries| == |envs| && forall v <- archive :: v in later && later[v] == archive[v]
    ensures SomeDisturbed(archive, owner, entries, envs, n) ==> SomeDisturbed(later, owner, entries, envs, n)
  {
    if SomeDisturbed(archive, owner, entries, envs, n) {
      var j :| 0 <= j < n && EntryDisturbed(archive, owner, entries[j], envs[j]);
      assert EntryDisturbed(later, owner, entries[j], envs[j]);
    }
  }
}
