/** Ownership-guarded deletion (pkg/component/delete.go, observeController in create.go, ownedBy in
    orphan.go). */
module Deletion {
  import opened Options
  import opened ApiServer

  /** The part of resourceOptions that deletion and suspension consult. */
  datatype Protection = Protection(blockOnForeignController: bool, deleteOnlyIfOwned: bool)
  {
    predicate Guarded() {
      blockOnForeignController || deleteOnlyIfOwned
    }
  }

  predicate OwnedBy(o: Object, owner: Uid) {
    exists r <- o.refs :: r.uid == owner
  }

  /** metav1.GetControllerOf: the first reference marked as controller. */
  function ControllerOf(refs: seq<Ref>): Option<Ref> {
    if refs == [] then None
    else if refs[0].controller then Some(refs[0])
    else ControllerOf(refs[1..])
  }

  predicate ForeignControlled(o: Object, owner: Uid) {
    ControllerOf(o.refs).Some? && ControllerOf(o.refs).value.uid != owner
  }

  /** What the options promise of every object a delete removes. */
  predicate MayDelete(o: Object, owner: Uid, p: Protection) {
    && (p.blockOnForeignController ==> !ForeignControlled(o, owner))
    && (p.deleteOnlyIfOwned ==> OwnedBy(o, owner))
  }

  datatype Target = Target(key: Key, protection: Protection)

  predicate Deletable(objects: map<Key, Object>, t: Target, owner: Uid) {
    t.key in objects && MayDelete(objects[t.key], owner, t.protection)
  }

  datatype Observation = Observed(live: Option<Object>, foreign: bool) | ObservationFailed

  method ObserveController(server: Server, owner: Uid, key: Key, view: View, call: Call) returns (r: Observation)
    requires server.Valid()
    modifies server
    ensures server.Untouched()
    ensures call.others == [] ==> server.objects == old(server.objects)
    ensures r == ObservationFailed <==> call.fault
    ensures r.Observed? && r.live.Some? ==>
              r.live.value.key == key && server.Archived(r.live.value)
                  && r.foreign == ForeignControlled(r.live.value, owner)
    ensures r.Observed? && r.live == None ==> !r.foreign
    ensures view == Live && r.Observed? ==>
              r.live == if key in server.objects then Some(server.objects[key]) else None
    ensures r.Observed? && r.live == None ==> view == PastAbsent || key !in server.objects
  {
    var read := server.Get(key, view, call);
    match read {
      case ReadFailed => return ObservationFailed;
      case Absent => return Observed(None, false);
      case Found(live) =>
        var controller := ControllerOf(live.refs);
        return Observed(Some(live), controller.Some? && controller.value.uid != owner);
    }
  }

  datatype Outcome = Removed | LeftInPlace | DeleteFailed

  datatype DeleteEnv = DeleteEnv(view: View, read: Call, delete: Call)
  {
    predicate Calm() {
      view == Live && read.others == [] && delete.others == []
    }
    predicate Faulty() {
      read.fault || delete.fault
    }
  }

  /** The record of one deletion: its outcome, what the controller check read, and the objects at its end. */
  datatype Removal = Removal(outcome: Outcome, seen: Option<Object>, world: map<Key, Object>)

  /** Why a deletion ended as it did, whatever other clients do: after Removed the object is gone; an object is left
      in place only if there is none, or its absence was read from the past, or the object that was read must not
      be deleted, or it changed since and DeleteOnlyIfOwned lets it be; and a deletion fails only for a failing
      call, or a changed object without that option. */
  predicate Justified(m: Removal, t: Target, env: DeleteEnv, archive: map<Version, Object>, owner: Uid) {
    var changed := m.seen.Some? && t.key in m.world && m.world[t.key] != m.seen.value;
    match m.outcome
    case Removed => t.key !in m.world
    case LeftInPlace =>
      || t.key !in m.world
      || (t.protection.Guarded() && m.seen == None && env.view == PastAbsent)
      || (m.seen.Some? && m.seen.value.key == t.key
          && m.seen.value.version in archive && archive[m.seen.value.version] == m.seen.value
          && (!MayDelete(m.seen.value, owner, t.protection) || (t.protection.deleteOnlyIfOwned && changed)))
    case DeleteFailed =>
      || env.Faulty()
      || (t.protection.Guarded() && !t.protection.deleteOnlyIfOwned && changed
          && MayDelete(m.seen.value, owner, t.protection))
  }

  /** Deletes one object. Whatever other clients do between the read and the delete, and however stale
      the read is, an object that is removed satisfied the entry's options at that instant. `seen` is
      what the controller check read. */
  method DeleteEntry(server: Server, owner: Uid, key: Key, p: Protection, env: DeleteEnv)
    returns (r: Outcome, ghost seen: Option<Object>)
    requires server.Valid()
    modifies server
    ensures r == Removed ==>
              && |server.writes| > 0 && server.Wrote(server.writes[|server.writes| - 1])
              && var w := server.writes[|server.writes| - 1];
                 w.Deleted? && w.before.key == key && MayDelete(w.before, owner, p)
    ensures r != Removed ==> server.Untouched()
    ensures Justified(Removal(r, seen, server.objects), Target(key, p), env, server.archive, owner)
    ensures (p.Guarded() && env.read.fault) || (!p.Guarded() && env.delete.fault) ==> r == DeleteFailed
    // Without interference a permitted object goes and any other stays.
    ensures env.Calm() && r == LeftInPlace ==> !Deletable(old(server.objects), Target(key, p), owner)
    ensures env.Calm() && r == Removed ==>
              && Deletable(old(server.objects), Target(key, p), owner)
              && server.writes[|server.writes| - 1] == Deleted(old(server.objects)[key])
    ensures env.Calm() && r == DeleteFailed ==> env.Faulty()
    ensures env.Calm() ==> server.objects == if r == Removed then old(server.objects) - {key} else old(server.objects)
    // A changed object fails the reconcile only when DeleteOnlyIfOwned is not set.
    ensures !env.Faulty() ==>
              (r == DeleteFailed <==>
               && p.Guarded() && !p.deleteOnlyIfOwned && seen.Some? && MayDelete(seen.value, owner, p)
               && key in server.objects && server.objects[key] != seen.value)
  {
    seen := None;
    if !p.blockOnForeignController && !p.deleteOnlyIfOwned {
      var reply := server.Delete(key, None, env.delete);
      match reply {
        case Landed => return Removed, seen;
        case NotFound => return LeftInPlace, seen;
        case _ => return DeleteFailed, seen;
      }
    }

    var observation := ObserveController(server, owner, key, env.view, env.read);
    if observation == ObservationFailed {
      return DeleteFailed, seen;
    }
    seen := observation.live;
    if observation.live == None {
      return LeftInPlace, seen;
    }
    var live := observation.live.value;
    if p.blockOnForeignController && observation.foreign {
      return LeftInPlace, seen;
    }
    if p.deleteOnlyIfOwned && !(exists r <- live.refs :: r.uid == owner) {
      return LeftInPlace, seen;
    }

    var reply := server.Delete(key, Some(live), env.delete);
    match reply {
      case Landed => return Removed, seen;
      case NotFound => return LeftInPlace, seen;
      case Conflict => return if p.deleteOnlyIfOwned then LeftInPlace else DeleteFailed, seen;
      case Failed => return DeleteFailed, seen;
    }
  }

  /** The writes `now` holds beyond `before` are deletions the options of some target permit. */
  ghost predicate OnlyPermitted(writes: seq<Write>, targets: seq<Target>, owner: Uid) {
    forall w <- writes ::
        w.Deleted? && exists t <- targets :: t.key == w.before.key && MayDelete(w.before, owner, t.protection)
  }

  /** The keys of the targets whose deletion ended that way, in order. */
  function KeysWith(targets: seq<Target>, removals: seq<Removal>, outcome: Outcome): seq<Key>
    requires |removals| <= |targets|
  {
    if removals == [] then []
    else
      var n := |removals| - 1;
      KeysWith(targets, removals[..n], outcome) + if removals[n].outcome == outcome then [targets[n].key] else []
  }

  lemma KeysWithMore(targets: seq<Target>, removals: seq<Removal>, m: Removal, outcome: Outcome)
    requires |removals| < |targets|
    ensures KeysWith(targets, removals + [m], outcome) ==
            KeysWith(targets, removals, outcome) + if m.outcome == outcome then [targets[|removals|].key] else []
  {
  }

  /** None is reported exactly when none ended that way. */
  lemma {:induction false} KeysWithNone(targets: seq<Target>, removals: seq<Removal>, outcome: Outcome)
    requires |removals| <= |targets|
    ensures KeysWith(targets, removals, outcome) == [] <==> forall m <- removals :: m.outcome != outcome
  {
    if removals != [] {
      var n := |removals| - 1;
      KeysWithNone(targets, removals[..n], outcome);
      assert removals == removals[..n] + [removals[n]];
    }
  }

  predicate AllJustified(removals: seq<Removal>, targets: seq<Target>, envs: seq<DeleteEnv>,
                         archive: map<Version, Object>, owner: Uid)
    requires |removals| <= |targets| == |envs|
  {
    forall i :: 0 <= i < |removals| ==> Justified(removals[i], targets[i], envs[i], archive, owner)
  }

  lemma JustifiedLater(removals: seq<Removal>, targets: seq<Target>, envs: seq<DeleteEnv>,
                       earlier: map<Version, Object>, archive: map<Version, Object>, owner: Uid)
    requires |removals| <= |targets| == |envs| && AllJustified(removals, targets, envs, earlier, owner)
    requires forall v <- earlier :: v in archive && archive[v] == earlier[v]
    ensures AllJustified(removals, targets, envs, archive, owner)
  {
    hide MayDelete;
  }

  lemma JustifiedMore(removals: seq<Removal>, m: Removal, targets: seq<Target>, envs: seq<DeleteEnv>,
                      earlier: map<Version, Object>, archive: map<Version, Object>, owner: Uid)
    requires |removals| < |targets| == |envs| && AllJustified(removals, targets, envs, earlier, owner)
    requires Justified(m, targets[|removals|], envs[|removals|], archive, owner)
    requires forall v <- earlier :: v in archive && archive[v] == earlier[v]
    ensures AllJustified(removals + [m], targets, envs, archive, owner)
  {
    hide MayDelete;
  }

  /** Objects of targets may be gone; everything else is as it was. */
  ghost predicate OnlyGone(before: map<Key, Object>, after: map<Key, Object>, targets: seq<Target>) {
    && (forall k <- after :: k in before && after[k] == before[k])
    && (forall k <- before :: k in after || exists t <- targets :: t.key == k)
  }

  /** Without interference each of the first n targets was attempted, whatever failed around it: only objects
      of targets are gone, a permitted one that is still there failed, and only a target whose own calls
      failed is reported. */
  ghost predicate Attempted(before: map<Key, Object>, now: map<Key, Object>, targets: seq<Target>, envs: seq<DeleteEnv>,
                            failed: seq<Key>, n: nat, owner: Uid)
    requires n <= |targets| == |envs|
  {
    && OnlyGone(before, now, targets)
    && (forall j :: 0 <= j < n && Deletable(now, targets[j], owner) ==> targets[j].key in failed)
    && (forall k <- failed :: exists j :: 0 <= j < |targets| && targets[j].key == k && envs[j].Faulty())
  }

  /** Deletes every target, going on after failures; `events` are the recorded deletion events and
      `failed` the joined errors. */
  method DeleteResources(server: Server, owner: Uid, targets: seq<Target>, envs: seq<DeleteEnv>)
    returns (events: seq<Key>, failed: seq<Key>, ghost removals: seq<Removal>)
    requires server.Valid() && |envs| == |targets|
    modifies server
    ensures |removals| == |targets| && AllJustified(removals, targets, envs, server.archive, owner)
    ensures failed == KeysWith(targets, removals, DeleteFailed) && events == KeysWith(targets, removals, Removed)
    ensures server.Valid() && server.Extends()
    ensures old(server.writes) <= server.writes
    ensures OnlyPermitted(server.writes[|old(server.writes)|..], targets, owner)
    ensures |server.writes| == |old(server.writes)| + |events|
    ensures forall i :: 0 <= i < |events| ==> server.writes[|old(server.writes)| + i].Target() == events[i]
    ensures (forall env <- envs :: env.Calm()) ==>
              Attempted(old(server.objects), server.objects, targets, envs, failed, |targets|, owner)
  {
    events, failed, removals := [], [], [];
    ghost var start, world := server.writes, server.objects;
    assert server.writes[|start|..] == [];
    hide OnlyPermitted, Attempted, MayDelete, Server.Valid, Justified, AllJustified, KeysWith;
    NothingDeleted(world, targets, envs, owner);
    for i := 0 to |targets|
      invariant server.Valid() && server.Extends() && start <= server.writes
      invariant OnlyPermitted(server.writes[|start|..], targets, owner)
      invariant |removals| == i && AllJustified(removals, targets, envs, server.archive, owner)
      invariant failed == KeysWith(targets, removals, DeleteFailed) && events == KeysWith(targets, removals, Removed)
      invariant |server.writes| == |start| + |events|
      invariant forall j :: 0 <= j < |events| ==> server.writes[|start| + j].Target() == events[j]
      invariant (forall env <- envs :: env.Calm()) ==>
                  Attempted(world, server.objects, targets, envs, failed, i, owner)
    {
      ghost var before, standing, missed, earlier := server.writes, server.objects, failed, server.archive;
      ghost var seen;
      var r;
      r, seen := DeleteEntry(server, owner, targets[i].key, targets[i].protection, envs[i]);
      match r {
        case Removed =>
          ghost var w := server.writes[|before|];
          PermittedMore(before[|start|..], w, targets, i, owner);
          assert server.writes[|start|..] == before[|start|..] + [w];
          events := events + [targets[i].key];
        case LeftInPlace =>
        case DeleteFailed =>
          failed := failed + [targets[i].key];
      }
      ghost var m := Removal(r, seen, server.objects);
      JustifiedMore(removals, m, targets, envs, earlier, server.archive, owner);
      KeysWithMore(targets, removals, m, DeleteFailed);
      KeysWithMore(targets, removals, m, Removed);
      removals := removals + [m];
      if forall env <- envs :: env.Calm() {
        AttemptedMore(world, standing, server.objects, targets, envs, missed, i, r, owner);
      }
    }
  }

  lemma NothingDeleted(objects: map<Key, Object>, targets: seq<Target>, envs: seq<DeleteEnv>, owner: Uid)
    requires |targets| == |envs|
    ensures OnlyPermitted([], targets, owner) && Attempted(objects, objects, targets, envs, [], 0, owner)
    ensures forall archive :: AllJustified([], targets, envs, archive, owner)
    ensures forall outcome :: KeysWith(targets, [], outcome) == []
  {
  }

  lemma PermittedMore(writes: seq<Write>, w: Write, targets: seq<Target>, i: nat, owner: Uid)
    requires i < |targets| && OnlyPermitted(writes, targets, owner)
    requires w.Deleted? && w.before.key == targets[i].key && MayDelete(w.before, owner, targets[i].protection)
    ensures OnlyPermitted(writes + [w], targets, owner)
  {
    assert targets[i] in targets;
  }

  lemma AttemptedMore(before: map<Key, Object>, middle: map<Key, Object>, after: map<Key, Object>, targets: seq<Target>,
                      envs: seq<DeleteEnv>, failed: seq<Key>, i: nat, r: Outcome, owner: Uid)
    requires i < |targets| == |envs| && Attempted(before, middle, targets, envs, failed, i, owner)
    requires after == if r == Removed then middle - {targets[i].key} else middle
    requires r == LeftInPlace ==> !Deletable(middle, targets[i], owner)
    requires r == DeleteFailed ==> envs[i].Faulty()
    ensures Attempted(before, after, targets, envs, if r == DeleteFailed then failed + [targets[i].key] else failed,
                      i + 1, owner)
  {
    hide MayDelete;
    assert targets[i] in targets;
  }
}
