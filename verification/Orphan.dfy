/** Orphaning: releasing a live object from the owner without changing anything else of it
    (pkg/component/orphan.go). */
module Orphan {
  import opened Options
  import opened ApiServer
  import opened Deletion

  lemma WithoutCons(r: Ref, rest: seq<Ref>, uid: Uid)
    ensures Without([r] + rest, uid) == (if r.uid == uid then [] else [r]) + Without(rest, uid)
  {
    assert ([r] + rest)[1..] == rest;
  }

  lemma {:induction false} WithoutDistributes(a: seq<Ref>, b: seq<Ref>, uid: Uid)
    ensures Without(a + b, uid) == Without(a, uid) + Without(b, uid)
  {
    hide Without;
    if a == [] {
      assert a + b == b;
      NothingWithout(uid);
    } else {
      var head := if a[0].uid == uid then [] else [a[0]];
      assert a == [a[0]] + a[1..] && a + b == [a[0]] + (a[1..] + b);
      WithoutCons(a[0], a[1..], uid);
      WithoutCons(a[0], a[1..] + b, uid);
      WithoutDistributes(a[1..], b, uid);
      Associate(head, Without(a[1..], uid), Without(b, uid));
    }
  }

  lemma NothingWithout(uid: Uid)
    ensures Without([], uid) == []
  {
  }

  lemma Associate(a: seq<Ref>, b: seq<Ref>, c: seq<Ref>)
    ensures a + (b + c) == (a + b) + c
  {
  }

  /** Without keeps exactly the references to others, each as often as before, and it shortens the list
      exactly when the owner is referenced. (That it keeps their order is WithoutDistributes.) */
  lemma {:induction false} WithoutExactly(refs: seq<Ref>, uid: Uid, r: Ref)
    ensures multiset(Without(refs, uid))[r] == if r.uid == uid then 0 else multiset(refs)[r]
    ensures |Without(refs, uid)| <= |refs|
    ensures |Without(refs, uid)| != |refs| <==> exists q <- refs :: q.uid == uid
  {
    if refs != [] {
      WithoutExactly(refs[1..], uid, r);
      assert refs == [refs[0]] + refs[1..];
    }
  }

  lemma {:induction false} WithoutOwner(refs: seq<Ref>, uid: Uid)
    ensures forall r <- Without(refs, uid) :: r.uid != uid
    ensures |Without(refs, uid)| == |refs| <==> forall r <- refs :: r.uid != uid
    ensures |Without(refs, uid)| <= |refs|
  {
    if refs != [] {
      WithoutOwner(refs[1..], uid);
    }
  }

  datatype OrphanEnv = OrphanEnv(view: View, read: Call, update: Call)
  {
    predicate Calm() {
      view == Live && read.others == [] && update.others == []
    }
    predicate Faulty() {
      read.fault || update.fault
    }
  }

  /** The write of an orphaning: precisely the owner's references are gone. */
  predicate Releases(w: Write, key: Key, owner: Uid) {
    && w.Updated? && w.before.key == key && OwnedBy(w.before, owner)
    && w.after == w.before.(refs := Without(w.before.refs, owner), version := w.after.version)
  }

  /** The record of one orphaning, with the objects at its end. */
  datatype Release = Release(event: bool, failed: bool, world: map<Key, Object>)

  predicate Held(objects: map<Key, Object>, key: Key, owner: Uid) {
    key in objects && OwnedBy(objects[key], owner)
  }

  /** Why an orphaning ended as it did, whatever other clients do: after an event the object is there and not held;
      with neither event nor failure it was absent or not held when it was last read; and it fails only for a
      failing call or for conflicts at every attempt. */
  ghost predicate Justified(m: Release, key: Key, attempts: seq<OrphanEnv>, archive: map<Version, Object>, owner: Uid) {
    && !(m.event && m.failed)
    && (m.event ==> key in m.world && !Held(m.world, key, owner))
    && (!m.event && !m.failed ==>
        && ((forall a <- attempts :: a.view == Live) ==> !Held(m.world, key, owner))
        && (|| key !in m.world || (exists a <- attempts :: a.view == PastAbsent)
            || exists v <- archive :: archive[v].key == key && !OwnedBy(archive[v], owner)))
    && (m.failed ==> exists a <- attempts :: !a.Calm() || a.Faulty())
  }

  /** One resource, with one element of `attempts` for every try RetryOnConflict allows. An event is
      recorded exactly when one update landed, however the conflicts fall. */
  method OrphanResource(server: Server, owner: Uid, key: Key, attempts: seq<OrphanEnv>)
    returns (event: bool, failed: bool)
    requires server.Valid() && attempts != []
    modifies server
    ensures event ==> |server.writes| > 0 && server.Wrote(server.writes[|server.writes| - 1]) &&
                      Releases(server.writes[|server.writes| - 1], key, owner)
    ensures !event ==> server.Untouched()
    ensures Justified(Release(event, failed, server.objects), key, attempts, server.archive, owner)
    ensures attempts[0].Calm() ==>
              && OthersKept(old(server.objects), server.objects, key)
              && (failed ==> attempts[0].Faulty())
              && (!failed ==> !Held(server.objects, key, owner) && (event <==> Held(old(server.objects), key, owner)))
  {
    event, failed := false, false;
    for i := 0 to |attempts|
      invariant !event && !failed
      invariant server.Untouched()
      invariant i == 0 ==> server.objects == old(server.objects)
      invariant i > 0 ==> !attempts[0].Calm()
    {
      var env := attempts[i];
      assert env in attempts;
      var read := server.Get(key, env.view, env.read);
      if read == Absent {
        return;
      }
      if read == ReadFailed {
        failed := true;
        return;
      }
      var refs := read.live.refs;
      var kept := Without(refs, owner);
      WithoutOwner(refs, owner);
      WithoutOneController(refs, owner);
      if |kept| == |refs| {
        assert server.archive[read.live.version] == read.live && !OwnedBy(read.live, owner);
        return;
      }
      var reply := server.Update(read.live, kept, env.update);
      assert reply != Landed ==> !env.Calm() || env.Faulty();
      match reply {
        case Landed =>
          event := true;
          return;
        case Conflict =>
        case _ =>
          failed := true;
          return;
      }
    }
    assert attempts[0] in attempts;
    failed := true;
  }

  /** No other client acts while the objects are released, and no two of them are the same. */
  ghost predicate Calm(keys: seq<Key>, envs: seq<seq<OrphanEnv>>) {
    && |envs| == |keys|
    && (forall i :: 0 <= i < |keys| ==> envs[i] != [] && envs[i][0].Calm())
    && (forall i, j :: 0 <= i < j < |keys| ==> keys[i] != keys[j])
  }

  /** None of the objects whose orphaning did not fail carries the owner's reference any more, and every other
      object is as it was. */
  ghost predicate Released(before: map<Key, Object>, after: map<Key, Object>, keys: seq<Key>, releases: seq<Release>,
                           envs: seq<seq<OrphanEnv>>, owner: Uid)
    requires |releases| <= |keys| == |envs|
  {
    && (forall i :: 0 <= i < |releases| ==>
          && (releases[i].failed ==> envs[i] != [] && envs[i][0].Faulty())
          && (!releases[i].failed ==>
              !Held(after, keys[i], owner) && (releases[i].event <==> Held(before, keys[i], owner))))
    && (forall k <- before.Keys + after.Keys :: k !in keys[..|releases|] ==>
          k in before && k in after && before[k] == after[k])
  }

  /** The keys of the orphanings that failed, or of those that were recorded as events, in order. */
  function KeysWith(keys: seq<Key>, releases: seq<Release>, failed: bool): seq<Key>
    requires |releases| <= |keys|
  {
    if releases == [] then []
    else
      var n := |releases| - 1;
      KeysWith(keys, releases[..n], failed) +
      if (if failed then releases[n].failed else releases[n].event) then [keys[n]] else []
  }

  lemma KeysWithMore(keys: seq<Key>, releases: seq<Release>, m: Release, failed: bool)
    requires |releases| < |keys|
    ensures KeysWith(keys, releases + [m], failed) ==
            KeysWith(keys, releases, failed) + if (if failed then m.failed else m.event) then [keys[|releases|]] else []
  {
  }

  lemma {:induction false} NoFailure(keys: seq<Key>, releases: seq<Release>)
    requires |releases| <= |keys|
    ensures KeysWith(keys, releases, true) == [] <==> forall m <- releases :: !m.failed
  {
    if releases != [] {
      var n := |releases| - 1;
      NoFailure(keys, releases[..n]);
      assert releases == releases[..n] + [releases[n]];
    }
  }

  ghost predicate AllJustified(releases: seq<Release>, keys: seq<Key>, envs: seq<seq<OrphanEnv>>,
                               archive: map<Version, Object>, owner: Uid)
    requires |releases| <= |keys| == |envs|
  {
    forall i :: 0 <= i < |releases| ==> Justified(releases[i], keys[i], envs[i], archive, owner)
  }

  lemma JustifiedMore(releases: seq<Release>, m: Release, keys: seq<Key>, envs: seq<seq<OrphanEnv>>,
                      earlier: map<Version, Object>, archive: map<Version, Object>, owner: Uid)
    requires |releases| < |keys| == |envs| && AllJustified(releases, keys, envs, earlier, owner)
    requires Justified(m, keys[|releases|], envs[|releases|], archive, owner)
    requires forall v <- earlier :: v in archive && archive[v] == earlier[v]
    ensures AllJustified(releases + [m], keys, envs, archive, owner)
  {
    forall i | 0 <= i < |releases| ensures Justified(releases[i], keys[i], envs[i], archive, owner) {
      assert Justified(releases[i], keys[i], envs[i], earlier, owner);
    }
  }

  /** Orphans every resource, going on after failures. */
  method OrphanResources(server: Server, owner: Uid, keys: seq<Key>, envs: seq<seq<OrphanEnv>>)
    returns (events: seq<Key>, failed: seq<Key>, ghost releases: seq<Release>)
    requires server.Valid() && |envs| == |keys| && forall i :: 0 <= i < |envs| ==> envs[i] != []
    modifies server
    ensures server.Valid() && server.Extends()
    ensures old(server.writes) <= server.writes && |server.writes| == |old(server.writes)| + |events|
    ensures forall i :: 0 <= i < |events| ==>
              events[i] in keys && Releases(server.writes[|old(server.writes)| + i], events[i], owner)
    ensures |releases| == |keys| && AllJustified(releases, keys, envs, server.archive, owner)
    ensures failed == KeysWith(keys, releases, true) && events == KeysWith(keys, releases, false)
    ensures Calm(keys, envs) ==> Released(old(server.objects), server.objects, keys, releases, envs, owner)
  {
    events, failed, releases := [], [], [];
    ghost var start, world := server.writes, server.objects;
    hide AllJustified, Justified, KeysWith, Released, Releases, OthersKept;
    NothingReleased(world, keys, envs, owner);
    for i := 0 to |keys|
      invariant server.Valid() && server.Extends()
      invariant start <= server.writes && |server.writes| == |start| + |events|
      invariant forall j :: 0 <= j < |events| ==>
                  events[j] in keys && Releases(server.writes[|start| + j], events[j], owner)
      invariant |releases| == i && AllJustified(releases, keys, envs, server.archive, owner)
      invariant failed == KeysWith(keys, releases, true) && events == KeysWith(keys, releases, false)
      invariant Calm(keys, envs) ==> Released(world, server.objects, keys, releases, envs, owner)
    {
      ghost var standing, earlier := server.objects, server.archive;
      var event, error := OrphanResource(server, owner, keys[i], envs[i]);
      ghost var m := Release(event, error, server.objects);
      JustifiedMore(releases, m, keys, envs, earlier, server.archive, owner);
      KeysWithMore(keys, releases, m, true);
      KeysWithMore(keys, releases, m, false);
      if Calm(keys, envs) {
        ReleasedMore(world, standing, server.objects, keys, releases, m, envs, owner);
      }
      releases := releases + [m];
      if error {
        failed := failed + [keys[i]];
      }
      if event {
        events := events + [keys[i]];
      }
    }
  }

  lemma NothingReleased(objects: map<Key, Object>, keys: seq<Key>, envs: seq<seq<OrphanEnv>>, owner: Uid)
    requires |keys| == |envs|
    ensures Released(objects, objects, keys, [], envs, owner) && forall f :: KeysWith(keys, [], f) == []
    ensures forall archive :: AllJustified([], keys, envs, archive, owner)
  {
  }

  lemma ReleasedMore(before: map<Key, Object>, middle: map<Key, Object>, after: map<Key, Object>, keys: seq<Key>,
                     releases: seq<Release>, m: Release, envs: seq<seq<OrphanEnv>>, owner: Uid)
    requires |releases| < |keys| == |envs| && Calm(keys, envs)
    requires Released(before, middle, keys, releases, envs, owner) && OthersKept(middle, after, keys[|releases|])
    requires m.failed ==> envs[|releases|][0].Faulty()
    requires !m.failed ==>
               && !Held(after, keys[|releases|], owner)
               && (m.event <==> Held(middle, keys[|releases|], owner))
    ensures Released(before, after, keys, releases + [m], envs, owner)
  {
    hide OwnedBy;
    var n := |releases|;
    assert keys[..n + 1] == keys[..n] + [keys[n]] && keys[n] !in keys[..n];
  }
}
