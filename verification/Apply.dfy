/** Applying one managed resource (applyResource and mutateResource in pkg/component/create.go). */
module Apply {
  import opened Options
  import opened ApiServer
  import opened Deletion
  import opened Handlers

  /** What the component wants of an object: its fields, and whether it carries the owner reference. */
  datatype Desired = Desired(key: Key, fields: map<string, string>, refs: RefPatch)

  datatype ApplyEnv = ApplyEnv(
    view: View, read: Call,      // the existence check
    mutateFails: bool,
    patch: Call,
    statusFails: bool)           // comparing the result or the status handler fails after the write
  {
    predicate Calm() {
      view == Live && read.others == [] && patch.others == []
    }
    /** Something fails before the write. */
    predicate Stops() {
      read.fault || mutateFails || patch.fault
    }
    predicate Faulty() {
      Stops() || statusFails
    }
  }

  datatype ApplyReply = ApplyDone(operation: Operation) | ApplyConflict | ApplyFailed

  /** Applies `desired`, only onto `observed` when that is given. Exactly one write lands unless the
      apply conflicts, is rejected or fails before it; a failure after the write is still a failure. */
  method ApplyResource(server: Server, desired: Desired, observed: Option<Object>, env: ApplyEnv)
    returns (r: ApplyReply)
    requires server.Valid()
    requires observed.Some? ==> observed.value.key == desired.key && server.Archived(observed.value)
    modifies server
    ensures server.Valid() && server.Extends()
    ensures server.writes == old(server.writes) ||
            (|server.writes| > 0 && server.Wrote(server.writes[|server.writes| - 1])
             && Lands(server.writes[|server.writes| - 1], desired, observed))
    ensures r.ApplyDone? ==> server.writes != old(server.writes)
    // No failing step is ever reported as done, or as a conflict; a conflict means that another object than the
    // observed one, or none, is live.
    ensures env.Faulty() ==> !r.ApplyDone?
    ensures env.Stops() ==> r == ApplyFailed && server.writes == old(server.writes)
    ensures r == ApplyConflict ==>
              && server.writes == old(server.writes) && observed.Some?
              && !(desired.key in server.objects && server.objects[desired.key] == observed.value)
    ensures r == ApplyFailed ==>
              || env.Faulty()
              || (server.writes == old(server.writes) && Refuses(server.objects, desired.key, desired.refs))
    ensures env.Calm() ==> OthersKept(old(server.objects), server.objects, desired.key)
    ensures env.Calm() && !env.Faulty() ==>
              if observed.Some?
                 && !(desired.key in old(server.objects) && old(server.objects)[desired.key] == observed.value)
              then r == ApplyConflict && server.objects == old(server.objects)
              else if Refuses(old(server.objects), desired.key, desired.refs)
              then r == ApplyFailed && server.objects == old(server.objects) && server.writes == old(server.writes)
              else
                && r.ApplyDone?
                && desired.key in server.objects && r.operation ==
                     Changed(old(server.objects), server.objects, desired.key)
                && server.objects[desired.key] == server.writes[|server.writes| - 1].after
                && server.writes[|server.writes| - 1].previous ==
                   (if desired.key in old(server.objects) then Some(old(server.objects)[desired.key]) else None)
  {
    hide PatchRefs, OneController, Refuses, OthersKept, Server.Valid;
    OthersKeptSame(server.objects, desired.key);
    var existing := server.Get(desired.key, env.view, env.read);
    if existing == ReadFailed || env.mutateFails {
      return ApplyFailed;
    }
    var reply := server.Apply(desired.key, desired.refs, desired.fields, observed, env.patch);
    if reply == Failed || reply == Invalid {
      return ApplyFailed;
    }
    if reply == Conflict {
      return ApplyConflict;
    }
    if env.statusFails {
      return ApplyFailed;
    }
    var applied := server.objects[desired.key];
    return ApplyDone(
      if existing == Absent then Created
      else if existing.live.refs == applied.refs && existing.live.fields == applied.fields
          && existing.live.uid == applied.uid then NoChange
      else Operation.Updated);
  }

  lemma OthersKeptSame(objects: map<Key, Object>, key: Key)
    ensures OthersKept(objects, objects, key)
  {
  }

  /** The comparison of appliedObjectChanged: everything but server bookkeeping. */
  predicate SameContent(a: Object, b: Object) {
    a.uid == b.uid && a.refs == b.refs && a.fields == b.fields
  }

  /** What an apply did to the live object. */
  function Changed(before: map<Key, Object>, after: map<Key, Object>, key: Key): Operation
    requires key in after
  {
    if key !in before then Created else if SameContent(before[key], after[key]) then NoChange else Operation.Updated
  }

  /** NoChange means that nothing but the version of the live object is new. */
  lemma NoChangeExactly(before: map<Key, Object>, after: map<Key, Object>, key: Key)
    requires key in after && after[key].key == key && (key in before ==> before[key].key == key)
    ensures Changed(before, after, key) == Created <==> key !in before
    ensures Changed(before, after, key) == NoChange <==>
            key in before && after[key] == before[key].(version := after[key].version)
  {
  }

  ghost predicate Lands(w: Write, desired: Desired, observed: Option<Object>) {
    && w.Applied? && w.after.key == desired.key
    && (observed.Some? ==> w.previous == observed)
    && w.after.refs == PatchRefs(if w.previous.Some? then w.previous.value.refs else [], desired.refs)
    && w.after.fields == (if w.previous.Some? then w.previous.value.fields else map[]) + desired.fields
    && OneController(w.after.refs)
  }

  /** An apply that carries the owner's reference never takes over an object that another owner controls
      at that instant, whatever other clients do: the API server rejects the second controller. */
  lemma NeverTakesOver(w: Write, desired: Desired, observed: Option<Object>, owner: Uid)
    requires Lands(w, desired, observed) && desired.refs == Own(owner) && w.previous.Some?
    ensures !ForeignControlled(w.previous.value, owner)
  {
    if ForeignControlled(w.previous.value, owner) {
      var r := ControllerIn(w.previous.value.refs);
      SecondController(w.previous.value.refs, owner, r);
    }
  }

  lemma {:induction false} ControllerIn(refs: seq<Ref>) returns (r: Ref)
    requires ControllerOf(refs).Some?
    ensures r == ControllerOf(refs).value && r in refs && r.controller
  {
    if refs[0].controller {
      r := refs[0];
    } else {
      r := ControllerIn(refs[1..]);
    }
  }

  /** On an object whose references have distinct owners, the rejection is exactly foreign control. */
  lemma RefusedExactly(o: Object, owner: Uid)
    requires OneController(o.refs) && forall i, j :: 0 <= i < j < |o.refs| ==> o.refs[i].uid != o.refs[j].uid
    ensures Refuses(map[o.key := o], o.key, Own(owner)) <==> ForeignControlled(o, owner)
  {
    if ForeignControlled(o, owner) {
      var r := ControllerIn(o.refs);
      SecondController(o.refs, owner, r);
    } else {
      OwnControllerStays(o.refs, owner);
    }
  }

  lemma {:induction false} OwnControllerStays(refs: seq<Ref>, uid: Uid)
    requires OneController(refs) && forall i, j :: 0 <= i < j < |refs| ==> refs[i].uid != refs[j].uid
    requires ControllerOf(refs).Some? ==> ControllerOf(refs).value.uid == uid
    ensures OneController(SetController(refs, uid))
  {
    if refs != [] {
      var rest := refs[1..];
      assert forall i :: 0 <= i < |rest| ==> rest[i] == refs[i + 1];
      if refs[0].uid != uid {
        OwnControllerStays(rest, uid);
      } else {
        if ControllerOf(rest).Some? {
          var r := ControllerIn(rest);
        }
        NoController(rest);
      }
    }
  }

  lemma {:induction false} NoController(refs: seq<Ref>)
    requires ControllerOf(refs) == None
    ensures forall r <- refs :: !r.controller
  {
    if refs != [] {
      NoController(refs[1..]);
    }
  }
}
