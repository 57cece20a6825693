/** The API server as the component sees it: a store shared with other clients, with optimistic
    concurrency as in the "Concurrency Control and Consistency" section of the Kubernetes API
    Conventions. Every write stores a version never used before; a conditional write lands only on a
    live object with exactly the version it names (pkg/component/create.go:32-35).

    The component is one thread of API calls. Each call takes the actions that other clients complete
    since the previous call, whether the call fails without effect, and, for a read, which past state
    a lagging cache answers with. A theorem over all of these is a theorem over all interleavings. */
module ApiServer {
  import opened Options

  type Key = string
  type Uid = nat
  type Version = nat

  datatype Ref = Ref(uid: Uid, controller: bool)
  datatype Object = Object(key: Key, uid: Uid, version: Version, refs: seq<Ref>, fields: map<string, string>)

  /** What another client may do. Put updates in place or creates; Replace deletes and recreates. */
  datatype Action =
    | Put(key: Key, refs: seq<Ref>, fields: map<string, string>)
    | Replace(key: Key, refs: seq<Ref>, fields: map<string, string>)
    | Remove(key: Key)

  datatype Call = Call(others: seq<Action>, fault: bool)

  datatype View = Live | Past(version: Version) | PastAbsent

  datatype Read = Found(live: Object) | Absent | ReadFailed

  /** Invalid is the API server's validation: an object has at most one controller reference. */
  datatype Reply = Landed | NotFound | Conflict | Invalid | Failed

  /** A write of the component that landed, with the object it landed on. */
  datatype Write =
    | Deleted(before: Object)
    | Applied(previous: Option<Object>, after: Object)
    | Updated(before: Object, after: Object)
  {
    function Target(): Key {
      match this
      case Deleted(before) => before.key
      case Applied(_, after) => after.key
      case Updated(before, _) => before.key
    }
  }

  /** How an apply treats the owner's reference: sets it as controller, drops it, or leaves it out. */
  datatype RefPatch = Own(uid: Uid) | Disown(uid: Uid) | Leave

  function SetController(refs: seq<Ref>, uid: Uid): seq<Ref> {
    if refs == [] then [Ref(uid, true)]
    else if refs[0].uid == uid then [Ref(uid, true)] + refs[1..]
    else [refs[0]] + SetController(refs[1..], uid)
  }

  /** The references that do not point at `uid`, in order. */
  function Without(refs: seq<Ref>, uid: Uid): seq<Ref> {
    if refs == [] then []
    else if refs[0].uid == uid then Without(refs[1..], uid)
    else [refs[0]] + Without(refs[1..], uid)
  }

  function PatchRefs(refs: seq<Ref>, patch: RefPatch): seq<Ref> {
    match patch
    case Own(uid) => SetController(refs, uid)
    case Disown(uid) => Without(refs, uid)
    case Leave => refs
  }

  predicate OneController(refs: seq<Ref>) {
    forall i, j :: 0 <= i < j < |refs| ==> !(refs[i].controller && refs[j].controller)
  }

  function RefsAt(objects: map<Key, Object>, key: Key): seq<Ref> {
    if key in objects then objects[key].refs else []
  }

  /** The API server would reject an apply of `patch`: it would add a second controller. */
  predicate Refuses(objects: map<Key, Object>, key: Key, patch: RefPatch) {
    !OneController(PatchRefs(RefsAt(objects, key), patch))
  }

  lemma {:induction false} SetControllerSets(refs: seq<Ref>, uid: Uid)
    ensures exists i :: 0 <= i < |SetController(refs, uid)| && SetController(refs, uid)[i] == Ref(uid, true)
    ensures forall r <- refs :: r.uid != uid ==> r in SetController(refs, uid)
  {
    if refs == [] || refs[0].uid == uid {
      assert SetController(refs, uid)[0] == Ref(uid, true);
    } else {
      SetControllerSets(refs[1..], uid);
      var i :| 0 <= i < |SetController(refs[1..], uid)| && SetController(refs[1..], uid)[i] == Ref(uid, true);
      assert SetController(refs, uid)[i + 1] == Ref(uid, true);
    }
  }

  /** Setting the owner as controller beside another controller makes two. */
  lemma SecondController(refs: seq<Ref>, uid: Uid, r: Ref)
    requires r in refs && r.controller && r.uid != uid
    ensures !OneController(SetController(refs, uid))
  {
    SetControllerSets(refs, uid);
    var set' := SetController(refs, uid);
    var i :| 0 <= i < |set'| && set'[i] == Ref(uid, true);
    var j :| 0 <= j < |set'| && set'[j] == r;
    assert i != j;
  }

  lemma OneControllerCons(r: Ref, rest: seq<Ref>)
    ensures OneController([r] + rest) <==> OneController(rest) && (r.controller ==> forall q <- rest :: !q.controller)
  {
    var all := [r] + rest;
    assert forall i :: 0 <= i < |rest| ==> all[i + 1] == rest[i];
    if OneController(rest) && (r.controller ==> forall q <- rest :: !q.controller) {
      forall i, j | 0 <= i < j < |all| ensures !(all[i].controller && all[j].controller) {
        assert all[j] == rest[j - 1] && all[j] in rest;
      }
    }
    if OneController(all) {
      forall i, j | 0 <= i < j < |rest| ensures !(rest[i].controller && rest[j].controller) {
        assert all[i + 1] == rest[i] && all[j + 1] == rest[j];
      }
      forall q | q in rest && r.controller ensures !q.controller {
        var i :| 0 <= i < |rest| && rest[i] == q;
        assert all[0] == r && all[i + 1] == q;
      }
    }
  }

  /** Dropping references keeps a single controller single. */
  lemma {:induction false} WithoutOneController(refs: seq<Ref>, uid: Uid)
    requires OneController(refs)
    ensures OneController(Without(refs, uid)) && forall r <- Without(refs, uid) :: r in refs
  {
    hide OneController;
    if refs == [] {
      assert Without(refs, uid) == refs;
    } else {
      assert refs == [refs[0]] + refs[1..];
      OneControllerCons(refs[0], refs[1..]);
      WithoutOneController(refs[1..], uid);
      OneControllerCons(refs[0], Without(refs[1..], uid));
    }
  }

  predicate OthersKept(before: map<Key, Object>, after: map<Key, Object>, key: Key) {
    forall k <- before.Keys + after.Keys :: k != key ==> k in before && k in after && before[k] == after[k]
  }

  predicate SameAt(before: map<Key, Object>, after: map<Key, Object>, key: Key) {
    (key in before <==> key in after) && (key in before ==> before[key] == after[key])
  }

  class Server {
    var objects: map<Key, Object>
    var archive: map<Version, Object>   // every object ever stored, by its version
    var next: Version
    ghost var writes: seq<Write>        // the component's own writes

    ghost predicate Valid()
      reads this
    {
      && (forall k <- objects :: objects[k].key == k && Archived(objects[k]))
      && (forall v <- archive :: v < next && archive[v].version == v && OneController(archive[v].refs))
    }

    ghost predicate Archived(o: Object)
      reads this
    {
      o.version in archive && archive[o.version] == o
    }

    /** The store moved on without a write of the component. */
    twostate predicate Untouched()
      reads this
    {
      Valid() && writes == old(writes) && Extends()
    }

    twostate predicate Extends()
      reads this
    {
      forall v <- old(archive) :: v in archive && archive[v] == old(archive[v])
    }

    /** One write `w` of the component was appended. */
    twostate predicate Wrote(w: Write)
      reads this
    {
      Valid() && writes == old(writes) + [w] && Extends()
    }

    constructor ()
      ensures Valid() && objects == map[] && writes == []
    {
      objects, archive, next, writes := map[], map[], 0, [];
    }

    method Store(o: Object) returns (stored: Object)
      requires Valid() && OneController(o.refs)
      modifies this
      ensures Untouched() && stored == o.(version := old(next)) && objects == old(objects)[o.key := stored]
      ensures next == old(next) + 1
    {
      stored := o.(version := next);
      objects, archive, next := objects[o.key := stored], archive[next := stored], next + 1;
    }

    /** Other clients act; the API server rejects what would give an object two controllers. */
    method Interfere(actions: seq<Action>)
      requires Valid()
      modifies this
      ensures Untouched()
      ensures actions == [] ==> objects == old(objects)
      ensures forall k :: (forall a <- actions :: a.key != k) ==>
                (k in objects <==> k in old(objects)) && (k in objects ==> objects[k] == old(objects[k]))
    {
      for i := 0 to |actions|
        invariant Untouched()
        invariant i == 0 ==> objects == old(objects)
        invariant forall k :: (forall a <- actions :: a.key != k) ==>
                    (k in objects <==> k in old(objects)) && (k in objects ==> objects[k] == old(objects[k]))
      {
        match actions[i] {
          case Put(key, refs, fields) =>
            if !OneController(refs) {
              continue;
            }
            var uid := if key in objects then objects[key].uid else next;
            var _ := Store(Object(key, uid, 0, refs, fields));
          case Replace(key, refs, fields) =>
            if !OneController(refs) {
              continue;
            }
            var _ := Store(Object(key, next, 0, refs, fields));
          case Remove(key) =>
            objects := objects - {key};
        }
      }
    }

    /** A read answers with a state the object really had, live or past, or with a past absence. */
    method Get(key: Key, view: View, call: Call) returns (r: Read)
      requires Valid()
      modifies this
      ensures Untouched()
      ensures call.others == [] ==> objects == old(objects)
      ensures r == ReadFailed <==> call.fault
      ensures r.Found? ==> r.live.key == key && Archived(r.live)
      ensures view == Live && !call.fault ==> r == if key in objects then Found(objects[key]) else Absent
      ensures r == Absent ==> view == PastAbsent || key !in objects
      ensures view == PastAbsent && !call.fault ==> r == Absent
    {
      Interfere(call.others);
      if call.fault {
        return ReadFailed;
      }
      match view {
        case Past(version) =>
          if version in archive && archive[version].key == key {
            return Found(archive[version]);
          }
        case PastAbsent => return Absent;
        case Live =>
      }
      return if key in objects then Found(objects[key]) else Absent;
    }

    /** Delete, with the UID and resourceVersion of `observed` as preconditions when it is given. */
    method Delete(key: Key, observed: Option<Object>, call: Call) returns (r: Reply)
      requires Valid()
      requires observed.Some? ==> observed.value.key == key && Archived(observed.value)
      modifies this
      ensures call.others == [] && r != Landed ==> objects == old(objects)
      ensures r == Failed <==> call.fault
      ensures r != Invalid
      ensures r == Landed ==> |writes| > 0 && Wrote(writes[|writes| - 1]) && key !in objects
      ensures r == Landed ==> var w := writes[|writes| - 1];
                w.Deleted? && w.before.key == key && (observed.Some? ==> w.before == observed.value)
      ensures r == Landed && call.others == [] ==>
                && key in old(objects) && writes[|writes| - 1].before == old(objects)[key]
                && objects == old(objects) - {key}
      ensures r == NotFound ==> Untouched() && key !in objects
      ensures r == Conflict ==> Untouched() && key in objects && observed.Some? && objects[key] != observed.value
      ensures r == Failed ==> Untouched()
    {
      Interfere(call.others);
      if call.fault {
        return Failed;
      }
      if key !in objects {
        return NotFound;
      }
      if observed.Some? && (objects[key].uid != observed.value.uid || objects[key].version != observed.value.version) {
        return Conflict;
      }
      writes := writes + [Deleted(objects[key])];
      objects := objects - {key};
      return Landed;
    }

    /** Server-Side Apply, conditional on the resourceVersion of `observed` when it is given. */
    method Apply(key: Key, refs: RefPatch, fields: map<string, string>, observed: Option<Object>, call: Call)
      returns (r: Reply)
      requires Valid()
      requires observed.Some? ==> observed.value.key == key && Archived(observed.value)
      modifies this
      ensures r != NotFound
      ensures call.others == [] && r != Landed ==> objects == old(objects)
      ensures call.others == [] ==> OthersKept(old(objects), objects, key)
      ensures r == Failed <==> call.fault
      ensures r == Landed ==> |writes| > 0 && Wrote(writes[|writes| - 1])
      ensures r == Landed ==> var w := writes[|writes| - 1];
                && w.Applied? && w.after.key == key && key in objects && objects[key] == w.after
                && (observed.Some? ==> w.previous == observed)
                && (w.previous.Some? ==> w.after.uid == w.previous.value.uid)
                && OneController(w.after.refs)
                && w.after.refs == PatchRefs(if w.previous.Some? then w.previous.value.refs else [], refs)
                && w.after.fields == (if w.previous.Some? then w.previous.value.fields else map[]) + fields
      ensures r == Conflict ==> Untouched() && observed.Some? && !(key in objects && objects[key] == observed.value)
      ensures r == Invalid ==> Untouched() && Refuses(objects, key, refs)
      ensures call.others == [] && !call.fault ==>
                if observed.Some? && !(key in old(objects) && old(objects)[key] == observed.value) then r == Conflict
                else if Refuses(old(objects), key, refs) then r == Invalid
                else && r == Landed && objects == old(objects)[key := writes[|writes| - 1].after]
                     && writes[|writes| - 1].previous == if key in old(objects) then Some(old(objects)[key]) else None
      ensures r == Failed ==> Untouched()
    {
      hide PatchRefs, OneController;
      Interfere(call.others);
      if call.fault {
        return Failed;
      }
      if observed.Some? && (key !in objects || objects[key].version != observed.value.version) {
        return Conflict;
      }
      var previous := if key in objects then Some(objects[key]) else None;
      var base := if key in objects then objects[key] else Object(key, next, 0, [], map[]);
      if !OneController(PatchRefs(base.refs, refs)) {
        return Invalid;
      }
      var stored := Store(base.(refs := PatchRefs(base.refs, refs), fields := base.fields + fields));
      writes := writes + [Applied(previous, stored)];
      return Landed;
    }

    /** Update of an object that was read before, conditional on its resourceVersion. */
    method Update(observed: Object, refs: seq<Ref>, call: Call) returns (r: Reply)
      requires Valid() && Archived(observed)
      modifies this
      ensures r == Failed <==> call.fault
      ensures r == Landed ==> |writes| > 0 && Wrote(writes[|writes| - 1])
      ensures r == Landed ==> var w := writes[|writes| - 1];
                && w.Updated? && w.before == observed
                && w.after == observed.(refs := refs, version := w.after.version) && w.after.version != observed.version
                && observed.key in objects && objects[observed.key] == w.after
      ensures r == Conflict ==> Untouched() && observed.key in objects && objects[observed.key] != observed
      ensures r == NotFound ==> Untouched() && observed.key !in objects
      ensures call.others == [] && !call.fault && observed.key in old(objects)
                && old(objects)[observed.key] == observed ==>
                r == if OneController(refs) then Landed else Invalid
      ensures r == Invalid ==> Untouched() && !OneController(refs)
      ensures call.others == [] ==> OthersKept(old(objects), objects, observed.key)
      ensures r == Failed ==> Untouched()
    {
      hide OneController;
      Interfere(call.others);
      if call.fault {
        return Failed;
      }
      if observed.key !in objects {
        return NotFound;
      }
      if objects[observed.key].version != observed.version {
        return Conflict;
      }
      if !OneController(refs) {
        return Invalid;
      }
      var stored := Store(observed.(refs := refs));
      writes := writes + [Updated(observed, stored)];
      return Landed;
    }
  }
}
