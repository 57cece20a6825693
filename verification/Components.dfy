/** One component and its reconcile pass (Reconcile in pkg/component/component.go): the stages, the
    condition they leave on the owner, and the writes they make. */
module Components {
  import opened Options
  import opened Statuses
  import opened Conditions
  import opened Converge
  import opened Timer
  import opened Passes
  import opened ApiServer
  import opened ResourceOptions
  import opened DataFlow
  import opened Entries
  import opened Building
  import opened Apply
  import Deletion
  import Orphan
  import Suspension
  import Engine

  /** What one pass meets: answers of gates, prerequisites and handlers, interference, and the clocks. */
  datatype PassEnv = PassEnv(
    mapperPresent: bool, gate: GateOutcome, checks: seq<Check>,
    cleanup: seq<Deletion.DeleteEnv>,       // deletions of a disabled gate
    suspensions: seq<Suspension.SuspendEnv>,
    entries: seq<Engine.EntryEnv>,
    deletions: seq<Deletion.DeleteEnv>,
    orphans: seq<seq<Orphan.OrphanEnv>>,
    now: Time, wall: Time, failWall: Time)

  function Managed(entries: seq<Entry>): seq<Entry> {
    if entries == [] then []
    else
      var init, last := Managed(entries[..|entries| - 1]), entries[|entries| - 1];
      if last.options.readOnly then init else init + [last]
  }

  lemma {:induction false} ManagedExactly(entries: seq<Entry>, e: Entry)
    ensures e in Managed(entries) <==> e in entries && !e.options.readOnly
  {
    if entries != [] {
      ManagedExactly(entries[..|entries| - 1], e);
      assert entries == entries[..|entries| - 1] + [entries[|entries| - 1]];
    }
  }

  method ManagedResources(entries: seq<Entry>) returns (managed: seq<Entry>)
    ensures managed == Managed(entries)
  {
    managed := [];
    for i := 0 to |entries|
      invariant managed == Managed(entries[..i])
    {
      assert entries[..i + 1][..i] == entries[..i];
      if !entries[i].options.readOnly {
        managed := managed + [entries[i]];
      }
    }
    assert entries[..|entries|] == entries;
  }

  function Targets(entries: seq<Entry>): (targets: seq<Deletion.Target>)
    ensures |targets| == |entries|
  {
    seq(|entries|, i requires 0 <= i < |entries| =>
      Deletion.Target(entries[i].key, ProtectionOf(entries[i].options)))
  }

  function AllManaged(plan: Blueprint): seq<Entry> {
    Managed(plan.reconcile) + plan.delete
  }

  ghost predicate Fits(env: PassEnv, plan: Blueprint) {
    && (env.gate == NoGate <==> !plan.gated) && |env.checks| == plan.prerequisites
    && |env.cleanup| == |AllManaged(plan)| && |env.suspensions| == |Managed(plan.reconcile)|
    && (forall i :: 0 <= i < |env.suspensions| ==>
         |env.suspensions[i].extracted| == |Managed(plan.reconcile)[i].produces|)
    && |env.entries| == |plan.reconcile| && Engine.WellFormed(plan.reconcile, env.entries)
    && |env.deletions| == |plan.delete| && |env.orphans| == |plan.orphan|
    && forall i :: 0 <= i < |env.orphans| ==> env.orphans[i] != []
  }

  // What a pass may write

  /** The applies of the entry carry the owner's reference. */
  predicate Owning(e: Entry) {
    !e.options.unowned && e.ownable
  }

  /** A removed object satisfied the options of an entry at that instant; an apply went to an entry the
      component manages, and never with the owner's reference to an object that another owner controls at
      that instant; an update released an orphan from the owner and changed nothing else. */
  ghost predicate SafeWrite(w: Write, plan: Blueprint, owner: Uid) {
    match w
    case Deleted(before) =>
      exists e <- AllManaged(plan) ::
        e.key == before.key && Deletion.MayDelete(before, owner, ProtectionOf(e.options))
    case Applied(previous, after) =>
      exists e <- Managed(plan.reconcile) ::
        e.key == after.key && (Owning(e) && previous.Some? ==> !Deletion.ForeignControlled(previous.value, owner))
    case Updated(before, _) => before.key in plan.orphan && Orphan.Releases(w, before.key, owner)
  }

  ghost predicate AllSafe(writes: seq<Write>, plan: Blueprint, owner: Uid) {
    forall w <- writes :: SafeWrite(w, plan, owner)
  }

  ghost predicate NoApply(writes: seq<Write>) {
    forall w <- writes :: !w.Applied?
  }

  /** The write respects DeleteOnlyIfOwned where the entry is asked to be deleted. */
  ghost predicate OwnedWhere(w: Write, e: Entry, owner: Uid, env: Suspension.SuspendEnv) {
    w.Target() == e.key && e.options.deleteOnlyIfOwned && env.deleteOnSuspend ==> Suspension.OnOwned(w, owner)
  }

  /** A suspension touches an entry with DeleteOnlyIfOwned and delete-on-suspend only while it is owned. */
  ghost predicate OwnedOnly(writes: seq<Write>, plan: Blueprint, owner: Uid, envs: seq<Suspension.SuspendEnv>)
    requires |envs| == |Managed(plan.reconcile)|
  {
    forall w <- writes, i: nat | i < |envs| ::
      OwnedWhere(w, Managed(plan.reconcile)[i], owner, envs[i])
  }

  /** What an apply of an entry leaves of its object: the fields its mutations declare, on top of those it had. The
      object of an unowned entry loses the owner's references only; one that the owner can own has the owner as
      its controller beside the references it had; any other keeps its references. */
  lemma AppliedAs(w: Write, e: Entry, owner: Uid, values: map<Data, int>, observed: Option<Object>)
    requires Lands(w, DesiredOf(e, owner, values), observed)
    ensures var declared, had := e.content(values), if w.previous.Some? then w.previous.value.fields else map[];
            forall f ::
              && (f in w.after.fields <==> f in declared || f in had)
              && (f in declared ==> w.after.fields[f] == declared[f])
              && (f in had && f !in declared ==> w.after.fields[f] == had[f])
    ensures var refs := if w.previous.Some? then w.previous.value.refs else [];
            && (e.options.unowned || e.ownable ==>
                forall r: Ref :: r.uid != owner ==> (r in w.after.refs <==> r in refs))
            && (e.options.unowned ==> !Deletion.OwnedBy(w.after, owner))
            && (Owning(e) ==> Deletion.ControllerOf(w.after.refs) == Some(Ref(owner, true)))
            && (!e.options.unowned && !e.ownable ==> w.after.refs == refs)
  {
    hide Without, SetController, Deletion.ControllerOf;
    var refs := if w.previous.Some? then w.previous.value.refs else [];
    if e.options.unowned {
      Orphan.WithoutOwner(refs, owner);
      OthersStay(refs, owner);
    } else if e.ownable {
      SetControllerSets(refs, owner);
      var i :| 0 <= i < |w.after.refs| && w.after.refs[i] == Ref(owner, true);
      Suspension.SoleController(w.after.refs, i);
      OthersSet(refs, owner);
    }
  }

  lemma OthersStay(refs: seq<Ref>, uid: Uid)
    ensures forall r: Ref :: r.uid != uid ==> (r in Without(refs, uid) <==> r in refs)
  {
    forall r: Ref | r.uid != uid ensures r in Without(refs, uid) <==> r in refs {
      Orphan.WithoutExactly(refs, uid, r);
      assert r in Without(refs, uid) <==> multiset(Without(refs, uid))[r] > 0;
      assert r in refs <==> multiset(refs)[r] > 0;
    }
  }

  lemma {:induction false} OthersSet(refs: seq<Ref>, uid: Uid)
    ensures forall r: Ref :: r.uid != uid ==> (r in SetController(refs, uid) <==> r in refs)
  {
    if refs != [] {
      OthersSet(refs[1..], uid);
      assert refs == [refs[0]] + refs[1..];
    }
  }

  lemma SplitWrites(start: seq<Write>, middle: seq<Write>, end: seq<Write>)
    requires start <= middle <= end
    ensures end[|start|..] == middle[|start|..] + end[|middle|..]
  {
  }

  lemma DistinctEntries(entries: seq<Entry>, i: nat, j: nat)
    requires i < j < |entries|
    requires multiset(Keys(entries))[entries[i].key] <= 1
    ensures entries[i].key != entries[j].key
  {
    if entries[i].key == entries[j].key {
      TwoKeys(Keys(entries), i, j);
    }
  }

  lemma {:induction false} ManagedKeys(entries: seq<Entry>, k: Key)
    ensures multiset(Keys(Managed(entries)))[k] <= multiset(Keys(entries))[k]
  {
    if entries != [] {
      var init, last := entries[..|entries| - 1], entries[|entries| - 1];
      ManagedKeys(init, k);
      assert entries == init + [last];
      KeysStep(init, last);
      KeysStep(Managed(init), last);
    }
  }

  lemma KeyCounted(entries: seq<Entry>, e: Entry)
    requires e in entries
    ensures multiset(Keys(entries))[e.key] >= 1
  {
    var i :| 0 <= i < |entries| && entries[i] == e;
    assert Keys(entries)[i] in Keys(entries);
  }

  lemma SharedKey(entries: seq<Entry>, d: Entry, e: Entry)
    requires d in entries && e in entries && d != e && d.key == e.key
    ensures multiset(Keys(entries))[e.key] >= 2
  {
    var i :| 0 <= i < |entries| && entries[i] == d;
    var j :| 0 <= j < |entries| && entries[j] == e;
    TwoKeys(Keys(entries), if i < j then i else j, if i < j then j else i);
  }

  /** In a built component the managed entries have distinct identities, none of them also to delete. */
  lemma ManagedDistinct(plan: Blueprint)
    requires Sound(plan)
    ensures forall i, j :: 0 <= i < j < |Managed(plan.reconcile)| ==>
              Managed(plan.reconcile)[i].key != Managed(plan.reconcile)[j].key
    ensures forall e <- Managed(plan.reconcile), d <- plan.delete :: e.key != d.key
    ensures forall e <- Managed(plan.reconcile) :: e.key !in plan.orphan
  {
    var managed := Managed(plan.reconcile);
    forall i, j | 0 <= i < j < |managed| ensures managed[i].key != managed[j].key {
      ManagedKeys(plan.reconcile, managed[i].key);
      DistinctEntries(managed, i, j);
    }
    forall e | e in managed ensures e.key !in plan.orphan && forall d <- plan.delete :: e.key != d.key {
      ManagedKeys(plan.reconcile, e.key);
      KeyCounted(managed, e);
      forall d | d in plan.delete ensures e.key != d.key {
        KeyCounted(plan.delete, d);
      }
    }
  }

  lemma OrphansDistinct(plan: Blueprint)
    requires Sound(plan)
    ensures forall i, j :: 0 <= i < j < |plan.orphan| ==> plan.orphan[i] != plan.orphan[j]
    ensures forall e <- AllManaged(plan) :: e.key !in plan.orphan
  {
    forall i, j | 0 <= i < j < |plan.orphan| ensures plan.orphan[i] != plan.orphan[j] {
      if plan.orphan[i] == plan.orphan[j] {
        TwoKeys(plan.orphan, i, j);
      }
    }
    ManagedDistinct(plan);
    forall e | e in plan.delete ensures e.key !in plan.orphan {
      KeyCounted(plan.delete, e);
    }
  }

  /** Releasing the orphans touches no object of the entries. */
  lemma CleanedAfter(left: map<Key, Object>, after: map<Key, Object>, entries: seq<Entry>,
                     releases: seq<Orphan.Release>, orphans: seq<seq<Orphan.OrphanEnv>>, plan: Blueprint, owner: Uid)
    requires forall t <- Targets(entries) :: !Deletion.Deletable(left, t, owner)
    requires |releases| == |plan.orphan| == |orphans| && forall m <- releases :: !m.failed
    requires Orphan.Released(left, after, plan.orphan, releases, orphans, owner)
    requires forall e <- entries :: e.key !in plan.orphan
    ensures Cleaned(after, entries, plan, owner)
  {
    forall k | k in plan.orphan ensures !Orphan.Held(after, k, owner) {
      var i :| 0 <= i < |plan.orphan| && plan.orphan[i] == k;
      assert releases[i] in releases;
    }
    forall t | t in Targets(entries) ensures !Deletion.Deletable(after, t, owner) {
      var i :| 0 <= i < |entries| && Targets(entries)[i] == t;
      assert entries[i] in entries && t.key == entries[i].key;
    }
  }

  /** Every object that is neither an orphan nor one of the entries' is as it was. */
  ghost predicate Spared(before: map<Key, Object>, after: map<Key, Object>, entries: seq<Entry>, plan: Blueprint) {
    forall k :: k !in plan.orphan && (forall e <- entries :: e.key != k) ==> SameAt(before, after, k)
  }

  lemma SparedAfter(before: map<Key, Object>, left: map<Key, Object>, after: map<Key, Object>, entries: seq<Entry>,
                    releases: seq<Orphan.Release>, orphans: seq<seq<Orphan.OrphanEnv>>, plan: Blueprint, owner: Uid)
    requires Deletion.OnlyGone(before, left, Targets(entries)) && |releases| <= |plan.orphan| == |orphans|
    requires Orphan.Released(left, after, plan.orphan, releases, orphans, owner)
    ensures Spared(before, after, entries, plan)
  {
    forall k | k !in plan.orphan && forall e <- entries :: e.key != k ensures SameAt(before, after, k) {
      forall t | t in Targets(entries) ensures t.key != k {
        var i :| 0 <= i < |entries| && Targets(entries)[i] == t;
        assert entries[i] in entries;
      }
      if k in before {
        assert k in left;
      }
      if k in after {
        assert k in left;
      }
    }
  }

  /** No safe write of a built component names a read-only entry. */
  lemma ReadOnlyUntouched(w: Write, plan: Blueprint, owner: Uid, e: Entry)
    requires Sound(plan) && SafeWrite(w, plan, owner)
    requires e in plan.reconcile && e.options.readOnly
    ensures w.Target() != e.key
  {
    KeyCounted(plan.reconcile, e);
    if w.Target() == e.key && !w.Updated? {
      var d :| d in AllManaged(plan) && d.key == e.key;
      if d in plan.delete {
        KeyCounted(plan.delete, d);
      } else {
        assert AllManaged(plan) == Managed(plan.reconcile) + plan.delete;
        ManagedExactly(plan.reconcile, d);
        SharedKey(plan.reconcile, d, e);
      }
    }
  }

  lemma KeyInOneList(plan: Blueprint, k: Key)
    requires Sound(plan)
    ensures k in Keys(plan.reconcile) ==> k !in Keys(plan.delete) && k !in plan.orphan
    ensures k in Keys(plan.delete) ==> k !in plan.orphan
  {
    assert k in Keys(plan.reconcile) <==> multiset(Keys(plan.reconcile))[k] > 0;
    assert k in Keys(plan.delete) <==> multiset(Keys(plan.delete))[k] > 0;
    assert k in plan.orphan <==> multiset(plan.orphan)[k] > 0;
  }

  /** The entry that a safe write other than a release concerns. */
  lemma WriteConcerns(w: Write, plan: Blueprint, owner: Uid) returns (e: Entry)
    requires SafeWrite(w, plan, owner) && !w.Updated?
    ensures e.key == w.Target() && (e in plan.delete || e in plan.reconcile)
    ensures w.Deleted? ==> Deletion.MayDelete(w.before, owner, ProtectionOf(e.options))
    ensures w.Applied? ==>
              && e in plan.reconcile
              && (Owning(e) && w.previous.Some? ==> !Deletion.ForeignControlled(w.previous.value, owner))
  {
    hide Deletion.MayDelete, Deletion.ForeignControlled, Managed;
    if w.Deleted? {
      e :| e in AllManaged(plan) && e.key == w.Target()
           && Deletion.MayDelete(w.before, owner, ProtectionOf(e.options));
    } else {
      e :| e in Managed(plan.reconcile) && e.key == w.Target()
           && (Owning(e) && w.previous.Some? ==> !Deletion.ForeignControlled(w.previous.value, owner));
    }
    ManagedExactly(plan.reconcile, e);
  }

  lemma KeyOf(entries: seq<Entry>, e: Entry)
    requires e in entries
    ensures e.key in Keys(entries)
  {
    var i :| 0 <= i < |entries| && entries[i] == e;
    assert Keys(entries)[i] == e.key;
  }

  /** What the options of a registration promise of every safe write to its object, in a component that honours
      them: the object of a read-only one is never written to, that of one to orphan only ever released, that of
      one to delete only ever deleted; a delete respects the controller and the ownership where the options ask
      for it, and an apply with the owner's reference takes nothing over. */
  lemma RegistrationKept(r: Registration, plan: Blueprint, w: Write, owner: Uid)
    requires Sound(plan) && SafeWrite(w, plan, owner) && r.Sound() && w.Target() == r.resource.key
    requires Honoured(r, plan.reconcile, plan.delete, plan.orphan)
    ensures ReadOnly !in r.opts
    ensures OrphanWhen(true) in r.opts <==> w.Updated?
    ensures w.Updated? ==> Orphan.Releases(w, r.resource.key, owner)
    ensures DeleteWhen(true) in r.opts || GatedOff(r.opts) ==> w.Deleted?
    ensures w.Deleted? && BlockOnForeignController in r.opts ==> !Deletion.ForeignControlled(w.before, owner)
    ensures w.Deleted? && DeleteOnlyIfOwned in r.opts ==> Deletion.OwnedBy(w.before, owner)
    ensures w.Applied? && Unowned !in r.opts && r.resource.ownable && w.previous.Some? ==>
              !Deletion.ForeignControlled(w.previous.value, owner)
  {
    hide Sound, GatedOff, LastGate, Rejected, SafeWrite, Orphan.Releases, Keys, Deletion.ForeignControlled,
         Deletion.OwnedBy;
    KeyInOneList(plan, r.resource.key);
    ReadOnlyKept(r, plan, w, owner);
    if w.Updated? {
      ReleaseOf(w, plan, owner);
    } else {
      var e := WriteConcerns(w, plan, owner);
      RegisteredOnce(r, plan, e);
    }
  }

  lemma ReleaseOf(w: Write, plan: Blueprint, owner: Uid)
    requires SafeWrite(w, plan, owner) && w.Updated?
    ensures w.Target() in plan.orphan && Orphan.Releases(w, w.Target(), owner)
  {
  }

  lemma ReadOnlyKept(r: Registration, plan: Blueprint, w: Write, owner: Uid)
    requires Sound(plan) && SafeWrite(w, plan, owner) && r.Sound() && w.Target() == r.resource.key
    requires Honoured(r, plan.reconcile, plan.delete, plan.orphan)
    ensures ReadOnly !in r.opts
  {
    hide Sound, SafeWrite, GatedOff, LastGate;
    if ReadOnly in r.opts {
      GatedOffExactly(r.opts);
      assert r.Entry() in plan.reconcile;
      ReadOnlyUntouched(w, plan, owner, r.Entry());
    }
  }

  /** The entry under a registration's identity is the registered one, and never one to release. */
  lemma RegisteredOnce(r: Registration, plan: Blueprint, e: Entry)
    requires Sound(plan) && r.resource.Resource? && Honoured(r, plan.reconcile, plan.delete, plan.orphan)
    requires (e in plan.delete || e in plan.reconcile) && e.key == r.resource.key
    ensures e == r.Entry() && r.resource.key !in plan.orphan
    ensures e in plan.reconcile <==> r.resource.key !in Keys(plan.delete)
  {
    hide GatedOff, Meaning, Keys;
    KeyInOneList(plan, e.key);
    if e in plan.delete {
      KeyOf(plan.delete, e);
      SameKeySameEntry(plan.delete, e, r.Entry());
    }
    if e in plan.reconcile {
      KeyOf(plan.reconcile, e);
      SameKeySameEntry(plan.reconcile, e, r.Entry());
    }
  }

  // What a pass ending Healthy went through

  /** Every entry was applied, read or skipped as absent, and each required one with a status is healthy. */
  ghost predicate AllProcessed(entries: seq<Entry>, outcomes: seq<Engine.Processed>) {
    && |outcomes| == |entries|
    && forall i :: 0 <= i < |entries| ==>
         || outcomes[i] == Engine.Skipped
         || (outcomes[i].Done? &&
             (outcomes[i].status.Some? && entries[i].options.required ==> outcomes[i].status.value.IsHealthy()))
  }

  lemma {:induction false} ResultIn(entries: seq<Entry>, envs: seq<Engine.EntryEnv>, outcomes: seq<Engine.Processed>,
                                    i: nat)
    requires i < |outcomes| <= |entries| == |envs|
    ensures forall r <- Engine.ResultOf(entries[i], envs[i], outcomes[i]) ::
              r in Engine.ResultsOf(entries, envs, outcomes)
  {
    var n := |outcomes| - 1;
    if i < n {
      ResultIn(entries, envs, outcomes[..n], i);
    }
  }

  lemma {:induction false} ResultFrom(entries: seq<Entry>, envs: seq<Engine.EntryEnv>, outcomes: seq<Engine.Processed>,
                                      r: Result)
    returns (i: nat)
    requires |outcomes| <= |entries| == |envs| && r in Engine.ResultsOf(entries, envs, outcomes)
    ensures i < |outcomes| && r in Engine.ResultOf(entries[i], envs[i], outcomes[i])
  {
    var n := |outcomes| - 1;
    if r in Engine.ResultsOf(entries, envs, outcomes[..n]) {
      i := ResultFrom(entries, envs, outcomes[..n], r);
    } else {
      i := n;
    }
  }

  lemma HealthyProcessedAll(entries: seq<Entry>, envs: seq<Engine.EntryEnv>, outcomes: seq<Engine.Processed>)
    requires |outcomes| <= |entries| == |envs|
    requires |outcomes| == |entries| || (outcomes != [] && outcomes[|outcomes| - 1] == Engine.Blocked)
    requires Engine.ProcessFailed !in outcomes
    requires AllHealthy(Participators(Engine.ResultsOf(entries, envs, outcomes)))
    ensures AllProcessed(entries, outcomes)
  {
    var results := Engine.ResultsOf(entries, envs, outcomes);
    forall i | 0 <= i < |outcomes|
      ensures outcomes[i] != Engine.Blocked
      ensures outcomes[i].Done? && outcomes[i].status.Some? && entries[i].options.required ==>
                outcomes[i].status.value.IsHealthy()
    {
      ResultIn(entries, envs, outcomes, i);
      var own := Engine.ResultOf(entries[i], envs[i], outcomes[i]);
      if own != [] {
        assert own[0] in own;
        ParticipatorsExactly(results, own[0]);
      }
      assert outcomes[i] in outcomes;
    }
  }

  // The pass

  /** The facts of a pass agree with what its environment, its plan and its owner give. */
  ghost predicate Observes(f: Facts, env: PassEnv, plan: Blueprint, generation: int) {
    && f.mapperPresent == env.mapperPresent && f.gate == env.gate && f.checks == env.checks
    && f.suspended == plan.suspended && f.gracePeriod == plan.gracePeriod && f.generation == generation
    && f.now == env.now && f.wall == env.wall && f.failWall == env.failWall
  }

  /** The record of a pass: its facts, the outcome of each entry, the moments entries were applied or read, the
      writes of each entry, the objects at the start and after each entry (in a suspended pass only after), in a
      suspended pass whether its extractions ran and its answer, and what became of the objects to delete and to
      release. */
  datatype Account = Account(
    facts: Facts, outcomes: seq<Engine.Processed>, steps: seq<Engine.Step>, turns: seq<seq<Write>>,
    worlds: seq<map<Key, Object>>, ran: seq<bool>, answers: seq<Option<Status>>,
    removals: seq<Deletion.Removal>, releases: seq<Orphan.Release>)

  /** The world of one pass: the objects before and after it, everything stored up to its end, and the
      component's writes in it. */
  datatype Span = Span(before: map<Key, Object>, after: map<Key, Object>, archive: map<Version, Object>,
                       writes: seq<Write>)

  /** What a normal pass did entry by entry: values used come from this pass, each outcome is accounted for by the
      entry's guard and object, and the pass gives up only where something failed or the API server refuses an
      apply on the objects as they stand. */
  ghost predicate Happened(run: Account, span: Span, plan: Blueprint, envs: seq<Engine.EntryEnv>, owner: Uid)
    requires |plan.reconcile| == |envs|
  {
    var outcomes, worlds := run.outcomes, run.worlds;
    && |outcomes| <= |envs| && |worlds| == |outcomes| + 1 && worlds[0] == span.before
    && Engine.Trace(run.steps, plan.reconcile, envs, outcomes)
    && Engine.AllAccounted(plan.reconcile, envs, outcomes, worlds, span.archive, owner)
    && Engine.Ends(run.facts.reconciled, span.after, plan.reconcile, envs, outcomes, owner)
  }

  /** The writes of a normal pass begin with the applies of its entries, in registration order, each with the
      content computed from the cells as the pass had filled them; what follows are deletions and releases. */
  ghost predicate AppliedInOrder(writes: seq<Write>, run: Account, plan: Blueprint, envs: seq<Engine.EntryEnv>,
                                 owner: Uid)
    requires |envs| == |plan.reconcile|
  {
    var applies := Flat(run.turns);
    && |run.outcomes| <= |plan.reconcile|
    && Engine.Ledger(applies, run.turns, plan.reconcile, envs, run.outcomes, owner)
    && applies <= writes && NoApply(writes[|applies|..])
  }

  /** The writes of a suspended pass begin with those of its suspendable managed entries, in registration
      order, each an apply of the suspended content and then a delete as Suspension.Turn allows; what follows
      are deletions and releases. */
  ghost predicate SuspendedInOrder(writes: seq<Write>, turns: seq<seq<Write>>, ran: seq<bool>, plan: Blueprint,
                                   envs: seq<Suspension.SuspendEnv>, owner: Uid)
    requires |envs| == |Managed(plan.reconcile)|
  {
    var first := Flat(turns);
    && |ran| == |envs|
    && Suspension.Ledger(first, turns, ran, Managed(plan.reconcile), envs, owner)
    && first <= writes && NoApply(writes[|first|..])
  }

  ghost predicate Quiet(envs: seq<Suspension.SuspendEnv>) {
    forall env <- envs :: env.Calm() && !env.Faulty()
  }

  /** Where the results of the suspension stage come from: the answers of the suspendable managed entries, each
      accounted for whatever other clients do, or an error when one has none. Undisturbed, these are Suspended where
      the component stands aside, an error where the API server rejects an apply, and the resource's own answer
      elsewhere; and the stage fails only where something disturbed it, or such an object once lived. */
  ghost predicate AnswersOf(statuses: Option<seq<Status>>, answers: seq<Option<Status>>, ran: seq<bool>,
                            worlds: seq<map<Key, Object>>, span: Span, plan: Blueprint, owner: Uid,
                            envs: seq<Suspension.SuspendEnv>)
    requires |envs| == |Managed(plan.reconcile)|
  {
    var managed := Managed(plan.reconcile);
    && |answers| == |ran| == |worlds| == |envs| && statuses == Suspension.Collected(answers, envs)
    && Suspension.AllAnswered(answers, ran, worlds, span.archive, owner, managed, envs)
    && (Quiet(envs) ==> statuses == Suspension.Answers(span.before, owner, managed, envs, |managed|))
    && (statuses == None ==> Suspension.SomeDisturbed(span.archive, owner, managed, envs, |managed|))
  }

  lemma AnswersLater(statuses: Option<seq<Status>>, answers: seq<Option<Status>>, ran: seq<bool>,
                     worlds: seq<map<Key, Object>>, span: Span, later: Span, plan: Blueprint, owner: Uid,
                     envs: seq<Suspension.SuspendEnv>)
    requires |envs| == |Managed(plan.reconcile)| && AnswersOf(statuses, answers, ran, worlds, span, plan, owner, envs)
    requires later.before == span.before
    requires forall v <- span.archive :: v in later.archive && later.archive[v] == span.archive[v]
    ensures AnswersOf(statuses, answers, ran, worlds, later, plan, owner, envs)
  {
    hide Suspension.AllAnswered, Suspension.SomeDisturbed, Suspension.Answers, Suspension.Collected, Managed;
    var managed := Managed(plan.reconcile);
    Suspension.AllAnsweredLater(answers, ran, worlds, span.archive, later.archive, owner, managed, envs);
    Suspension.DisturbedLater(span.archive, later.archive, owner, managed, envs, |envs|);
  }

  /** The state an undisturbed suspension leaves of every managed entry's object: untouched where the
      component stands aside or the API server rejects the apply; elsewhere exactly the suspended content
      was applied, and the object is gone exactly when that was asked for. */
  ghost predicate Halted(turns: seq<seq<Write>>, ran: seq<bool>, before: map<Key, Object>, after: map<Key, Object>,
                         plan: Blueprint, envs: seq<Suspension.SuspendEnv>, owner: Uid)
    requires |envs| == |Managed(plan.reconcile)|
  {
    && |turns| == |ran| == |envs|
    && Suspension.Left(turns, ran, before, after, Managed(plan.reconcile), envs, owner)
  }

  // What an undisturbed pass leaves behind

  /** No other client acts while objects are deleted and released; calls may still fail. */
  ghost predicate AllCalm(envs: seq<Deletion.DeleteEnv>, orphans: seq<seq<Orphan.OrphanEnv>>) {
    && (forall env <- envs :: env.Calm())
    && (forall i :: 0 <= i < |orphans| ==> orphans[i] != [] && orphans[i][0].Calm())
  }

  ghost predicate Faultless(envs: seq<Deletion.DeleteEnv>, orphans: seq<seq<Orphan.OrphanEnv>>) {
    && (forall env <- envs :: !env.Faulty())
    && (forall i :: 0 <= i < |orphans| ==> orphans[i] != [] && !orphans[i][0].Faulty())
  }

  /** None of the entries' objects that may be deleted is left, and the orphans are released. */
  ghost predicate Cleaned(objects: map<Key, Object>, entries: seq<Entry>, plan: Blueprint, owner: Uid) {
    && (forall t <- Targets(entries) :: !Deletion.Deletable(objects, t, owner))
    && (forall k <- plan.orphan :: !Orphan.Held(objects, k, owner))
  }

  /** How the deletes and releases that end a pass went. Whatever other clients do, each outcome is justified, no
      release is tried after a failed deletion, and success means that no deletion and no release failed.
      Without interference, success means that nothing that is to go is left, and only a failing call can
      prevent it. */
  ghost predicate Finished(ok: bool, removals: seq<Deletion.Removal>, releases: seq<Orphan.Release>,
                           objects: map<Key, Object>, archive: map<Version, Object>, entries: seq<Entry>,
                           envs: seq<Deletion.DeleteEnv>, orphans: seq<seq<Orphan.OrphanEnv>>, plan: Blueprint,
                           owner: Uid)
    requires |envs| == |entries| && |orphans| == |plan.orphan|
  {
    && |removals| == |entries| && |releases| <= |plan.orphan|
    && Deletion.AllJustified(removals, Targets(entries), envs, archive, owner)
    && Orphan.AllJustified(releases, plan.orphan, orphans, archive, owner)
    && (if exists m <- removals :: m.outcome == Deletion.DeleteFailed then !ok && releases == []
        else |releases| == |plan.orphan| && (ok <==> forall m <- releases :: !m.failed))
    && (AllCalm(envs, orphans) ==>
        && (ok ==> Cleaned(objects, entries, plan, owner)) && (Faultless(envs, orphans) ==> ok))
  }

  /** What deletions of the entries and releases of the orphans may write. */
  ghost predicate Tidied(writes: seq<Write>, entries: seq<Entry>, plan: Blueprint, owner: Uid) {
    && AllSafe(writes, plan, owner) && NoApply(writes)
    && forall w <- writes :: w.Updated? || exists e <- entries :: e.key == w.Target()
  }

  lemma TidiedApart(writes: seq<Write>, entries: seq<Entry>, plan: Blueprint, owner: Uid)
    requires Tidied(writes, entries, plan, owner)
    ensures AllSafe(writes, plan, owner) && NoApply(writes)
  {
  }

  lemma DeletionsTidy(writes: seq<Write>, entries: seq<Entry>, plan: Blueprint, owner: Uid)
    requires Deletion.OnlyPermitted(writes, Targets(entries), owner) && forall e <- entries :: e in AllManaged(plan)
    ensures Tidied(writes, entries, plan, owner)
  {
    forall w | w in writes
      ensures SafeWrite(w, plan, owner) && w.Deleted? && exists e <- entries :: e.key == w.Target()
    {
      var t :| t in Targets(entries) && t.key == w.before.key && Deletion.MayDelete(w.before, owner, t.protection);
      var i :| 0 <= i < |entries| && Targets(entries)[i] == t;
      assert entries[i] in entries && entries[i] in AllManaged(plan);
    }
  }

  lemma ReleasesTidy(start: seq<Write>, middle: seq<Write>, end: seq<Write>, released: seq<Key>, entries: seq<Entry>,
                     plan: Blueprint, owner: Uid)
    requires start <= middle <= end && Tidied(middle[|start|..], entries, plan, owner)
    requires |end| == |middle| + |released| && forall i :: 0 <= i < |released| ==>
               released[i] in plan.orphan && Orphan.Releases(end[|middle|..][i], released[i], owner)
    ensures Tidied(end[|start|..], entries, plan, owner)
  {
    hide Orphan.Releases;
    SplitWrites(start, middle, end);
    forall w | w in end[|middle|..] ensures SafeWrite(w, plan, owner) && w.Updated? {
      var i :| 0 <= i < |released| && end[|middle|..][i] == w;
      Released(w, released[i], plan, owner);
    }
  }

  lemma Released(w: Write, key: Key, plan: Blueprint, owner: Uid)
    requires key in plan.orphan && Orphan.Releases(w, key, owner)
    ensures SafeWrite(w, plan, owner) && w.Updated?
  {
  }

  lemma SomeKey(keys: seq<Key>)
    ensures keys != [] ==> exists k :: k in keys
  {
    if keys != [] {
      assert keys[0] in keys;
    }
  }

  lemma CalmEach(envs: seq<Deletion.DeleteEnv>, orphans: seq<seq<Orphan.OrphanEnv>>)
    requires AllCalm(envs, orphans)
    ensures forall env <- envs :: env.Calm()
  {
  }

  /** Deletions without interference leave what failed and what the options keep, and fail only for a failing call;
      the orphanings after them concern other objects. */
  lemma CalmDeletions(before: map<Key, Object>, left: map<Key, Object>, failed: seq<Key>, entries: seq<Entry>,
                      envs: seq<Deletion.DeleteEnv>, orphans: seq<seq<Orphan.OrphanEnv>>, plan: Blueprint, owner: Uid)
    requires Sound(plan) && |envs| == |entries| && forall e <- entries :: e in AllManaged(plan)
    requires |orphans| == |plan.orphan| && AllCalm(envs, orphans)
    requires Deletion.Attempted(before, left, Targets(entries), envs, failed, |entries|, owner)
    ensures Deletion.OnlyGone(before, left, Targets(entries))
    ensures failed == [] ==> forall t <- Targets(entries) :: !Deletion.Deletable(left, t, owner)
    ensures Faultless(envs, orphans) ==> failed == []
    ensures Orphan.Calm(plan.orphan, orphans) && forall e <- entries :: e.key !in plan.orphan
  {
    hide Sound, AllManaged, Deletion.Deletable, Deletion.OnlyGone;
    OrphansDistinct(plan);
    SomeKey(failed);
  }

  /** Finish stopped at a failed deletion. */
  lemma StoppedShort(before: map<Key, Object>, left: map<Key, Object>, archive: map<Version, Object>,
                     removals: seq<Deletion.Removal>, failed: seq<Key>, entries: seq<Entry>,
                     envs: seq<Deletion.DeleteEnv>, orphans: seq<seq<Orphan.OrphanEnv>>, plan: Blueprint, owner: Uid)
    requires |removals| == |entries| == |envs| && |orphans| == |plan.orphan|
    requires Deletion.AllJustified(removals, Targets(entries), envs, archive, owner)
    requires failed == Deletion.KeysWith(Targets(entries), removals, Deletion.DeleteFailed) && failed != []
    requires AllCalm(envs, orphans) ==>
               && Deletion.OnlyGone(before, left, Targets(entries)) && (Faultless(envs, orphans) ==> failed == [])
    ensures Finished(false, removals, [], left, archive, entries, envs, orphans, plan, owner)
    ensures AllCalm(envs, orphans) ==> Spared(before, left, entries, plan)
  {
    hide AllCalm, Faultless, Cleaned, Spared, Deletion.AllJustified, Deletion.OnlyGone, Orphan.Released;
    Deletion.KeysWithNone(Targets(entries), removals, Deletion.DeleteFailed);
    Orphan.NothingReleased(left, plan.orphan, orphans, owner);
    if AllCalm(envs, orphans) {
      SparedAfter(before, left, left, entries, [], orphans, plan, owner);
    }
  }

  /** Finish went through: every deletion ended without failure, and every orphan was attempted. */
  lemma WentThrough(before: map<Key, Object>, left: map<Key, Object>, after: map<Key, Object>,
                    earlier: map<Version, Object>, archive: map<Version, Object>, removals: seq<Deletion.Removal>,
                    releases: seq<Orphan.Release>, entries: seq<Entry>, envs: seq<Deletion.DeleteEnv>,
                    orphans: seq<seq<Orphan.OrphanEnv>>, plan: Blueprint, owner: Uid)
    requires |removals| == |entries| == |envs| && |releases| == |orphans| == |plan.orphan|
    requires forall v <- earlier :: v in archive && archive[v] == earlier[v]
    requires Deletion.AllJustified(removals, Targets(entries), envs, earlier, owner)
    requires Deletion.KeysWith(Targets(entries), removals, Deletion.DeleteFailed) == []
    requires Orphan.AllJustified(releases, plan.orphan, orphans, archive, owner)
    requires AllCalm(envs, orphans) ==>
               && Deletion.OnlyGone(before, left, Targets(entries)) && (forall e <- entries :: e.key !in plan.orphan)
               && (forall t <- Targets(entries) :: !Deletion.Deletable(left, t, owner))
               && Orphan.Released(left, after, plan.orphan, releases, orphans, owner)
    ensures Finished(Orphan.KeysWith(plan.orphan, releases, true) == [], removals, releases, after, archive, entries,
                     envs, orphans, plan, owner)
    ensures AllCalm(envs, orphans) ==> Spared(before, after, entries, plan)
  {
    hide Cleaned, Spared, Deletion.AllJustified, Deletion.OnlyGone, Deletion.Deletable, Orphan.AllJustified,
         Orphan.Held;
    Deletion.KeysWithNone(Targets(entries), removals, Deletion.DeleteFailed);
    Deletion.JustifiedLater(removals, Targets(entries), envs, earlier, archive, owner);
    Orphan.NoFailure(plan.orphan, releases);
    if AllCalm(envs, orphans) {
      SparedAfter(before, left, after, entries, releases, orphans, plan, owner);
      if forall m <- releases :: !m.failed {
        CleanedAfter(left, after, entries, releases, orphans, plan, owner);
      }
    }
  }

  /** What one pass did: every write is safe, on every path; nothing is applied, read or suspended unless
      the pass engages; a suspension and a normal pass did what their handlers account for, entry by entry;
      without interference a suspension leaves every entry's object as it should be; and a pass that reports
      its deletes and releases finished did finish them. */
  ghost predicate Passed(run: Account, span: Span, stored: Option<Condition>, plan: Blueprint, env: PassEnv,
                         owner: Uid, generation: int)
    requires Fits(env, plan)
  {
    && Observes(run.facts, env, plan, generation) && AllSafe(span.writes, plan, owner)
    && (if Engages(stored, run.facts) then Engaged(run, span, plan, env, owner) else Idle(run, span, plan, env))
    && (env.mapperPresent && env.gate == GateDisabled ==> CleanupFinished(run, span, plan, env, owner))
  }

  /** How the cleanup of a disabled gate went. */
  ghost predicate CleanupFinished(run: Account, span: Span, plan: Blueprint, env: PassEnv, owner: Uid)
    requires Fits(env, plan)
  {
    Finished(run.facts.cleanupDone, run.removals, run.releases, span.after, span.archive, AllManaged(plan), env.cleanup,
             env.orphans, plan, owner)
  }

  /** How the deletes and releases at the end of a suspended or a normal pass went. */
  ghost predicate EndFinished(run: Account, span: Span, plan: Blueprint, env: PassEnv, owner: Uid)
    requires Fits(env, plan)
  {
    Finished(run.facts.finished, run.removals, run.releases, span.after, span.archive, plan.delete, env.deletions,
             env.orphans, plan, owner)
  }

  ghost predicate Engaged(run: Account, span: Span, plan: Blueprint, env: PassEnv, owner: Uid)
    requires Fits(env, plan)
  {
    && (if plan.suspended
        then
          && run.facts.reconciled == None
          && AnswersOf(run.facts.suspension, run.answers, run.ran, run.worlds, span, plan, owner, env.suspensions)
          && OwnedOnly(span.writes, plan, owner, env.suspensions)
          && SuspendedInOrder(span.writes, run.turns, run.ran, plan, env.suspensions, owner)
          && (Quiet(env.suspensions) && (run.facts.suspension == None || AllCalm(env.deletions, env.orphans)) ==>
              Halted(run.turns, run.ran, span.before, span.after, plan, env.suspensions, owner))
        else
          && Happened(run, span, plan, env.entries, owner)
          && AppliedInOrder(span.writes, run, plan, env.entries, owner))
    && ((if plan.suspended then run.facts.suspension.Some? else run.facts.reconciled.Some?) ==>
        EndFinished(run, span, plan, env, owner))
  }

  ghost predicate Idle(run: Account, span: Span, plan: Blueprint, env: PassEnv) {
    && run.outcomes == [] && run.steps == [] && run.facts.reconciled == None && NoApply(span.writes)
    && (!(env.mapperPresent && env.gate == GateDisabled) ==> span.writes == [])
  }

  /** A pass that leaves Healthy, over recognised statuses: every reconcile entry was processed, none was
      Blocked, every required one with a status was healthy, and its deletes and releases were finished. */
  lemma HealthyPass(stored: Option<Condition>, run: Account, span: Span, plan: Blueprint, env: PassEnv, owner: Uid,
                    generation: int)
    requires Fits(env, plan) && Passed(run, span, stored, plan, env, owner, generation)
    requires ResultsRecognised(run.facts) && (stored.Some? ==> Consistent(stored.value))
    requires Outcome(stored, plan.conditionType, run.facts).reason == Healthy
    ensures AllProcessed(plan.reconcile, run.outcomes) && Engages(stored, run.facts)
    ensures run.facts.finished && EndFinished(run, span, plan, env, owner)
  {
    hide Outcome, Engages, Engine.Trace, Engine.AllAccounted, Engine.GivesUp, Engine.ResultsOf, Finished, AllSafe,
         AppliedInOrder, Managed, Engine.WellFormed;
    StepConsistent(stored, plan.conditionType, run.facts);
    HealthyProcessedAll(plan.reconcile, env.entries, run.outcomes);
  }

  /** A normal pass of a built component without interference processes every entry exactly when nothing stood in
      the way of any when it began. */
  lemma UndisturbedProcessesAll(run: Account, span: Span, plan: Blueprint, env: PassEnv, owner: Uid)
    requires Sound(plan) && Fits(env, plan) && Happened(run, span, plan, env.entries, owner)
    requires forall e <- env.entries :: Engine.Undisturbed(e)
    ensures Engine.AllClear(plan.reconcile, env.entries, span.before, owner) <==>
            && run.facts.reconciled.Some? && |run.outcomes| == |plan.reconcile| && Engine.AllDone(run.outcomes)
  {
    hide Engine.Undisturbed, Engine.AllAccounted, Engine.Ends, Engine.Trace, Engine.WellFormed, Engine.AllClear,
         Managed, Engine.AllDone, TopologyOk;
    forall i, j | 0 <= i < j < |plan.reconcile| ensures plan.reconcile[i].key != plan.reconcile[j].key {
      DistinctEntries(plan.reconcile, i, j);
    }
    Engine.NothingInTheWay(run.facts.reconciled, span.after, plan.reconcile, env.entries, run.outcomes, run.worlds,
                           span.archive, owner);
  }

  /** Whatever the pass does to the resources, the answers of their handlers that count are healthy ones. */
  ghost predicate AnswerHealthy(env: PassEnv, plan: Blueprint)
    requires |env.entries| == |plan.reconcile|
  {
    forall i, op | 0 <= i < |plan.reconcile| && env.entries[i].handler.Some? ::
      env.entries[i].handler.value(op).Some? ==>
        var status := env.entries[i].handler.value(op).value;
        status == GuardBlocked || plan.reconcile[i].options.required ==> status.IsHealthy()
  }

  lemma ResultsHealthy(run: Account, span: Span, plan: Blueprint, env: PassEnv, owner: Uid)
    requires |env.entries| == |plan.reconcile| && Happened(run, span, plan, env.entries, owner)
    requires run.facts.reconciled.Some? && Engine.AllDone(run.outcomes) && AnswerHealthy(env, plan)
    ensures AllHealthy(Participators(run.facts.reconciled.value))
  {
    hide Engine.Trace, Engine.Explained, Engine.GivesUp, Engine.ResultsOf, Engine.Accounted, Engine.CellsAfter,
         Participators;
    forall r | r in Participators(run.facts.reconciled.value) ensures r.status.IsHealthy() {
      ParticipatorsExactly(run.facts.reconciled.value, r);
      var i := ResultFrom(plan.reconcile, env.entries, run.outcomes, r);
      assert run.outcomes[i] in run.outcomes;
      DoneAnswered(plan.reconcile[i], env.entries[i], run.outcomes[i],
                   Engine.CellsAfter(plan.reconcile, env.entries, run.outcomes[..i]), run.worlds[i],
                   run.worlds[i + 1], span.archive, owner);
    }
  }

  lemma DoneAnswered(e: Entry, env: Engine.EntryEnv, outcome: Engine.Processed, cells: map<Data, int>,
                     before: map<Key, Object>, after: map<Key, Object>, archive: map<Version, Object>, owner: Uid)
    requires Engine.Accounted(e, env, outcome, cells, before, after, archive, owner) && outcome.Done?
    ensures Engine.Answered(env, e.options.readOnly, outcome.status)
  {
  }

  lemma HealthyStep(stored: Option<Condition>, ctype: string, f: Facts)
    requires Engages(stored, f) && !f.suspended && f.finished && f.reconciled.Some?
    requires AllHealthy(Participators(f.reconciled.value))
    ensures Outcome(stored, ctype, f).ready && Outcome(stored, ctype, f).reason == Healthy
  {
    hide AllHealthy, Participators, EvaluatedAll;
  }

  /** What an undisturbed normal pass comes to when nothing is in any entry's way, every required handler reports
      health and no call fails: the component is True and Healthy, whatever its condition was, the pass returns no
      error, and nothing that is to go is left. */
  lemma UndisturbedPassIsHealthy(stored: Option<Condition>, run: Account, span: Span, plan: Blueprint, env: PassEnv,
                                 owner: Uid, generation: int)
    requires Sound(plan) && Fits(env, plan) && Passed(run, span, stored, plan, env, owner, generation)
    requires Engages(stored, run.facts) && !plan.suspended && AnswerHealthy(env, plan)
    requires forall e <- env.entries :: Engine.Undisturbed(e)
    requires AllCalm(env.deletions, env.orphans) && Faultless(env.deletions, env.orphans)
    requires Engine.AllClear(plan.reconcile, env.entries, span.before, owner)
    ensures var cond := Outcome(stored, plan.conditionType, run.facts); cond.ready && cond.reason == Healthy
    ensures !Fails(stored, run.facts) && Cleaned(span.after, plan.delete, plan, owner)
  {
    hide Sound, Fits, AnswerHealthy, Engine.Undisturbed, AllCalm, Faultless, Engine.AllClear, Engine.AllDone, Happened,
         AppliedInOrder, Cleaned, AllSafe, Outcome, Participators, AllHealthy;
    Sizes(env, plan);
    UndisturbedProcessesAll(run, span, plan, env, owner);
    ResultsHealthy(run, span, plan, env, owner);
    HealthyStep(stored, plan.conditionType, run.facts);
    VerdictExactly(run.facts.checks);
  }

  /** A pass that leaves Suspended: every suspendable managed entry was left alone for a reason the pass met, or its
      suspended content was applied, its data extracted, and the resource reported no suspension still under way;
      and the deletes and releases of the pass were finished. */
  lemma SuspendedPass(stored: Option<Condition>, run: Account, span: Span, plan: Blueprint, env: PassEnv, owner: Uid,
                      generation: int, i: nat)
    requires Fits(env, plan) && Passed(run, span, stored, plan, env, owner, generation)
    requires Outcome(stored, plan.conditionType, run.facts).reason == Suspended
    requires i < |env.suspensions| && env.suspensions[i].suspendable
    ensures Engages(stored, run.facts) && plan.suspended && run.facts.finished
    ensures EndFinished(run, span, plan, env, owner)
    ensures |run.ran| == |run.worlds| == |run.turns| == |env.suspensions|
    ensures var e, s := Managed(plan.reconcile)[i], env.suspensions[i];
            if run.ran[i]
            then
              && run.turns[i] != [] && run.turns[i][0].Applied? && None !in s.extracted
              && s.status.Some? && s.status.value !in {Suspending, PendingSuspension}
              && !Suspension.DeleteFails(ProtectionOf(e.options), s)
            else Suspension.MetAside(span.archive, run.worlds[i], owner, e.key, ProtectionOf(e.options), s)
  {
    hide Outcome, Engages, Finished, AllSafe, OwnedOnly, Halted, Quiet, AllCalm, Managed, Engine.WellFormed,
         Suspension.MetAside, Suspension.Collected, SuspensionSummary;
    ReasonExactly(stored, plan.conditionType, run.facts);
    Suspension.CollectedHolds(run.answers, env.suspensions, i);
    SuspensionSummaryMeaning(run.facts.suspension.value);
    AppliedWhereRan(run, span, plan, env, owner, i);
    assert Suspension.Answered(run.answers[i], run.ran[i], span.archive, run.worlds[i], owner,
                               Managed(plan.reconcile)[i], env.suspensions[i]);
  }

  lemma AppliedWhereRan(run: Account, span: Span, plan: Blueprint, env: PassEnv, owner: Uid, i: nat)
    requires |env.suspensions| == |Managed(plan.reconcile)| && i < |env.suspensions|
    requires SuspendedInOrder(span.writes, run.turns, run.ran, plan, env.suspensions, owner)
    ensures |run.turns| == |run.ran| == |env.suspensions|
    ensures run.ran[i] ==> run.turns[i] != [] && run.turns[i][0].Applied?
  {
    hide Flat, Suspension.ValuesAt, PatchRefs, OneController;
    var values := Suspension.ValuesAt(Managed(plan.reconcile), env.suspensions, run.ran, i);
    assert Suspension.EntryTurn(run.turns[i], run.ran[i], owner, Managed(plan.reconcile)[i], values,
                                env.suspensions[i]);
  }

  /** A pass that leaves Disabled: no deletion of any managed object, to reconcile or to delete, failed and no
      release did; and where nobody interfered, none of these objects that may be deleted is left, and no object to
      release is held. */
  lemma DisabledPass(stored: Option<Condition>, run: Account, span: Span, plan: Blueprint, env: PassEnv, owner: Uid,
                     generation: int)
    requires Fits(env, plan) && Passed(run, span, stored, plan, env, owner, generation)
    requires Outcome(stored, plan.conditionType, run.facts).reason == Disabled
    ensures !Fails(stored, run.facts) && CleanupFinished(run, span, plan, env, owner) && run.facts.cleanupDone
    ensures AllCalm(env.cleanup, env.orphans) ==>
              && (forall e <- plan.reconcile + plan.delete :: !e.options.readOnly || e in plan.delete ==>
                    !Deletion.Deletable(span.after, Deletion.Target(e.key, ProtectionOf(e.options)), owner))
              && (forall k <- plan.orphan :: !Orphan.Held(span.after, k, owner))
  {
    hide Outcome, Deletion.Deletable, AllCalm, Faultless, Orphan.Held, AllSafe, Managed, Engine.WellFormed,
         Deletion.AllJustified, Orphan.AllJustified;
    ReasonExactly(stored, plan.conditionType, run.facts);
    if AllCalm(env.cleanup, env.orphans) {
      forall e | e in plan.reconcile + plan.delete && (!e.options.readOnly || e in plan.delete)
        ensures !Deletion.Deletable(span.after, Deletion.Target(e.key, ProtectionOf(e.options)), owner)
      {
        ManagedExactly(plan.reconcile, e);
        var all := AllManaged(plan);
        assert e in Managed(plan.reconcile) || e in plan.delete;
        assert e in all;
        var i :| 0 <= i < |all| && all[i] == e;
        assert Targets(all)[i] in Targets(all);
      }
    }
  }

  /** The cells as a pass that engaged leaves them. */
  ghost function CellsLeft(run: Account, plan: Blueprint, env: PassEnv): map<Data, int>
    requires Fits(env, plan) && |run.outcomes| <= |plan.reconcile| && |run.ran| <= |env.suspensions|
  {
    if plan.suspended then CellsFilled(Managed(plan.reconcile), Suspension.Extractions(env.suspensions), run.ran)
    else Engine.CellsAfter(plan.reconcile, env.entries, run.outcomes)
  }

  /** One pass on any path, from the conditions it `found` to those it `left` on the owner: it writes the
      condition that Passes computes from the facts of the pass and leaves those of other components alone, it
      fails exactly when a stage failed, and Passed says what it did. After a pass that engaged every cell
      holds what the entries it processed or suspended last extracted into it, and no other cell is set. */
  ghost predicate PassEnded(failed: bool, run: Account, span: Span, found: seq<Condition>, left: seq<Condition>,
                            convergedAt: Option<Time>, cells: map<Data, int>, plan: Blueprint, env: PassEnv, owner: Uid,
                            generation: int)
    requires Fits(env, plan)
  {
    var stored := Find(found, plan.conditionType);
    && left == Conditions.Put(found, Outcome(stored, plan.conditionType, run.facts))
    && (convergedAt == if Engages(stored, run.facts) && !plan.suspended && run.facts.reconciled.Some?
         then Some(env.now) else None)
    && (failed <==> Fails(stored, run.facts))
    && Passed(run, span, stored, plan, env, owner, generation)
    && |run.outcomes| <= |plan.reconcile| && |run.ran| <= |env.suspensions|
    && (Engages(stored, run.facts) ==> cells == CellsLeft(run, plan, env))
  }

  lemma IdleEnd(failed: bool, run: Account, span: Span, found: seq<Condition>, left: seq<Condition>,
                cells: map<Data, int>, plan: Blueprint, env: PassEnv, owner: Uid, generation: int)
    requires Fits(env, plan) && Observes(run.facts, env, plan, generation)
    requires var stored := Find(found, plan.conditionType);
             && !Engages(stored, run.facts) && (failed <==> Fails(stored, run.facts))
             && left == Conditions.Put(found, Outcome(stored, plan.conditionType, run.facts))
    requires Idle(run, span, plan, env) && run.ran == [] && AllSafe(span.writes, plan, owner)
    requires env.mapperPresent && env.gate == GateDisabled ==> CleanupFinished(run, span, plan, env, owner)
    ensures PassEnded(failed, run, span, found, left, None, cells, plan, env, owner, generation)
  {
  }

  lemma EngagedEnd(failed: bool, run: Account, span: Span, found: seq<Condition>, left: seq<Condition>,
                   convergedAt: Option<Time>, cells: map<Data, int>, plan: Blueprint, env: PassEnv, owner: Uid,
                   generation: int)
    requires Fits(env, plan) && Observes(run.facts, env, plan, generation)
    requires Engages(Find(found, plan.conditionType), run.facts)
    requires left == Conditions.Put(found, Outcome(Find(found, plan.conditionType), plan.conditionType, run.facts))
    requires failed <==> Fails(Find(found, plan.conditionType), run.facts)
    requires convergedAt == if !plan.suspended && run.facts.reconciled.Some? then Some(env.now) else None
    requires Engaged(run, span, plan, env, owner) && AllSafe(span.writes, plan, owner)
    requires |run.outcomes| <= |plan.reconcile| && |run.ran| <= |env.suspensions| && cells == CellsLeft(run, plan, env)
    ensures PassEnded(failed, run, span, found, left, convergedAt, cells, plan, env, owner, generation)
  {
  }

  ghost function PlanCells(plan: Blueprint): set<Data> {
    set c | c in plan.cells
  }

  /** What the suspension stage of a pass did: it wrote safely and entry by entry, its answers are those of the
      entries, and undisturbed it left every entry's object as it should be. */
  ghost predicate ManagedSuspended(statuses: Option<seq<Status>>, turns: seq<seq<Write>>, ran: seq<bool>,
                                   answers: seq<Option<Status>>, worlds: seq<map<Key, Object>>, span: Span,
                                   plan: Blueprint, envs: seq<Suspension.SuspendEnv>, owner: Uid)
    requires |envs| == |Managed(plan.reconcile)|
  {
    && |ran| == |envs| && span.writes == Flat(turns) && SuspendedInOrder(span.writes, turns, ran, plan, envs, owner)
    && AllSafe(span.writes, plan, owner) && OwnedOnly(span.writes, plan, owner, envs)
    && AnswersOf(statuses, answers, ran, worlds, span, plan, owner, envs)
    && (Quiet(envs) ==> Halted(turns, ran, span.before, span.after, plan, envs, owner))
  }

  lemma SuspendedAsManaged(statuses: Option<seq<Status>>, cells: map<Data, int>, turns: seq<seq<Write>>,
                           ran: seq<bool>, answers: seq<Option<Status>>, worlds: seq<map<Key, Object>>, span: Span,
                           plan: Blueprint, envs: seq<Suspension.SuspendEnv>, owner: Uid)
    requires Sound(plan) && |envs| == |Managed(plan.reconcile)| == |ran| == |answers|
    requires statuses == Suspension.Collected(answers, envs)
    requires Suspension.Progress(span.writes, cells, span.before, span.after, span.archive, turns, ran, answers, worlds,
                                 Managed(plan.reconcile), envs, owner)
    ensures ManagedSuspended(statuses, turns, ran, answers, worlds, span, plan, envs, owner)
    ensures cells == CellsFilled(Managed(plan.reconcile), Suspension.Extractions(envs), ran)
  {
    hide Sound, Managed, AllSafe, OwnedOnly, Suspension.Ledger, Suspension.Left, Suspension.Answers,
         Suspension.SomeDisturbed, Suspension.Collected, Suspension.AllAnswered, CellsFilled;
    ManagedDistinct(plan);
    FlatLedger(span.writes, turns, ran, Managed(plan.reconcile), envs, owner);
    SuspensionsSafe(turns, ran, plan, owner, envs);
  }

  /** From the suspension stage to the end of the pass: the deletions and releases that follow concern other
      objects. */
  lemma SuspensionEnds(run: Account, halted: Span, span: Span, plan: Blueprint, env: PassEnv, owner: Uid)
    requires Sound(plan) && Fits(env, plan) && plan.suspended && run.facts.reconciled == None && run.outcomes == []
    requires ManagedSuspended(run.facts.suspension, run.turns, run.ran, run.answers, run.worlds, halted, plan,
                              env.suspensions, owner)
    requires span.before == halted.before && halted.writes <= span.writes
    requires run.facts.suspension == None ==> span == halted
    requires run.facts.suspension.Some? ==>
               && (forall v <- halted.archive :: v in span.archive && span.archive[v] == halted.archive[v])
               && Tidied(span.writes[|halted.writes|..], plan.delete, plan, owner)
               && EndFinished(run, span, plan, env, owner)
               && (AllCalm(env.deletions, env.orphans) ==> Spared(halted.after, span.after, plan.delete, plan))
    ensures AllSafe(span.writes, plan, owner) && Engaged(run, span, plan, env, owner)
    ensures |run.ran| == |env.suspensions|
    ensures CellsLeft(run, plan, env) ==
            CellsFilled(Managed(plan.reconcile), Suspension.Extractions(env.suspensions), run.ran)
  {
    hide Sound, Managed, AnswersOf, SuspendedInOrder, Halted, AllSafe, OwnedOnly, Tidied, Finished, Spared, AllCalm,
         Quiet;
    if run.facts.suspension.Some? {
      AnswersLater(run.facts.suspension, run.answers, run.ran, run.worlds, halted, span, plan, owner,
                   env.suspensions);
      var rest := span.writes[|halted.writes|..];
      assert span.writes == halted.writes + rest;
      OwnedAfterFinish(halted.writes, rest, plan, owner, env.suspensions);
      SuspendedFirst(halted.writes, rest, run.turns, run.ran, plan, env.suspensions, owner);
      if Quiet(env.suspensions) && AllCalm(env.deletions, env.orphans) {
        HaltedAfter(run.turns, run.ran, span.before, halted.after, span.after, plan, env.suspensions, owner);
      }
    }
  }

  class Component {
    const plan: Blueprint
    var convergedAt: Option<Time>

    constructor (plan: Blueprint)
      ensures this.plan == plan && convergedAt == None
    {
      this.plan, convergedAt := plan, None;
    }

    /** fail: the Error condition on top of what stands. */
    method Fail(owner: Owner, env: PassEnv)
      modifies owner`conditions
      ensures owner.conditions == WithError(old(owner.conditions), plan.conditionType, owner.generation, env)
    {
      owner.SetStatusCondition(ConditionError(plan.conditionType, owner.generation), env.failWall);
    }

    /** Deletes, then orphans unless a delete failed; `removals` and `releases` record what became of each. */
    method Finish(server: Server, owner: Uid, entries: seq<Entry>, envs: seq<Deletion.DeleteEnv>,
                  orphans: seq<seq<Orphan.OrphanEnv>>)
      returns (ok: bool, ghost removals: seq<Deletion.Removal>, ghost releases: seq<Orphan.Release>)
      requires server.Valid() && Sound(plan) && |envs| == |entries| && forall e <- entries :: e in AllManaged(plan)
      requires |orphans| == |plan.orphan| && forall i :: 0 <= i < |orphans| ==> orphans[i] != []
      modifies server
      ensures server.Valid() && server.Extends() && old(server.writes) <= server.writes
      ensures Tidied(server.writes[|old(server.writes)|..], entries, plan, owner)
      ensures Finished(ok, removals, releases, server.objects, server.archive, entries, envs, orphans, plan, owner)
      ensures AllCalm(envs, orphans) ==> Spared(old(server.objects), server.objects, entries, plan)
    {
      hide Sound, Spared, AllCalm, Faultless, Tidied, Finished, Deletion.OnlyPermitted, Deletion.Attempted,
           Deletion.OnlyGone, Deletion.Deletable, Orphan.Released, Orphan.Releases, AllManaged, Server.Valid,
           Deletion.AllJustified, Orphan.AllJustified, Deletion.KeysWith, Orphan.KeysWith;
      ghost var start, world := server.writes, server.objects;
      var events, failed;
      events, failed, removals := Deletion.DeleteResources(server, owner, Targets(entries), envs);
      releases := [];
      ghost var middle, left, earlier := server.writes, server.objects, server.archive;
      DeletionsTidy(middle[|start|..], entries, plan, owner);
      if AllCalm(envs, orphans) {
        CalmEach(envs, orphans);
        CalmDeletions(world, left, failed, entries, envs, orphans, plan, owner);
      }
      if failed != [] {
        StoppedShort(world, left, earlier, removals, failed, entries, envs, orphans, plan, owner);
        return false, removals, releases;
      }
      var released, stuck;
      released, stuck, releases := Orphan.OrphanResources(server, owner, plan.orphan, orphans);
      assert forall i :: 0 <= i < |released| ==> server.writes[|middle|..][i] == server.writes[|middle| + i];
      ReleasesTidy(start, middle, server.writes, released, entries, plan, owner);
      WentThrough(world, left, server.objects, earlier, server.archive, removals, releases, entries, envs, orphans,
                  plan, owner);
      return stuck == [], removals, releases;
    }

    /** The end of either branch: deletes and orphans, and the Error condition when they fail. */
    method Conclude(server: Server, owner: Owner, env: PassEnv)
      returns (ok: bool, ghost removals: seq<Deletion.Removal>, ghost releases: seq<Orphan.Release>)
      requires server.Valid() && Sound(plan) && Fits(env, plan)
      modifies server, owner`conditions
      ensures server.Valid() && server.Extends() && old(server.writes) <= server.writes
      ensures Tidied(server.writes[|old(server.writes)|..], plan.delete, plan, owner.uid)
      ensures Finished(ok, removals, releases, server.objects, server.archive, plan.delete, env.deletions, env.orphans,
                       plan, owner.uid)
      ensures AllCalm(env.deletions, env.orphans) ==> Spared(old(server.objects), server.objects, plan.delete, plan)
      ensures owner.conditions ==
              if ok then old(owner.conditions)
              else WithError(old(owner.conditions), plan.conditionType, owner.generation, env)
    {
      hide Sound, Fits, Tidied, AllCalm, Finished, Spared, AllManaged, Merge, Conditions.Put, Find, Server.Valid;
      Sizes(env, plan);
      ok, removals, releases := Finish(server, owner.uid, plan.delete, env.deletions, env.orphans);
      if !ok {
        Fail(owner, env);
      }
    }

    method SuspendManaged(server: Server, owner: Uid, envs: seq<Suspension.SuspendEnv>)
      returns (statuses: Option<seq<Status>>, ghost turns: seq<seq<Write>>, ghost ran: seq<bool>,
               ghost answers: seq<Option<Status>>, ghost worlds: seq<map<Key, Object>>)
      requires server.Valid() && Sound(plan) && |envs| == |Managed(plan.reconcile)|
      requires forall i :: 0 <= i < |envs| ==> |envs[i].extracted| == |Managed(plan.reconcile)[i].produces|
      requires forall c <- CellSet(plan.reconcile) :: !c.isSet
      modifies server, CellSet(plan.reconcile)
      ensures server.Valid() && server.Extends() && old(server.writes) <= server.writes
      ensures ManagedSuspended(statuses, turns, ran, answers, worlds,
                               Span(old(server.objects), server.objects, server.archive,
                                    server.writes[|old(server.writes)|..]), plan, envs, owner)
      ensures Snapshot(CellSet(plan.reconcile)) ==
              CellsFilled(Managed(plan.reconcile), Suspension.Extractions(envs), ran)
    {
      ghost var cells, world, start := CellSet(plan.reconcile), server.objects, server.writes;
      assert Snapshot(cells) == map[];
      hide Sound, CellSet, CellsFilled, Suspension.Progress, Suspension.Collected, Wired, ManagedSuspended,
           Server.Valid, Managed;
      var managed := ManagedResources(plan.reconcile);
      ManagedWired(plan, envs, cells);
      statuses, turns, ran, answers, worlds := Suspension.SuspendResources(server, owner, managed, envs, cells);
      SuspendedAsManaged(statuses, Snapshot(cells), turns, ran, answers, worlds,
                         Span(world, server.objects, server.archive, server.writes[|start|..]), plan, envs, owner);
    }

    /** The suspended branch of Reconcile. */
    method SuspensionPass(server: Server, owner: Owner, env: PassEnv, ghost base: Account)
      returns (failed: bool, ghost run: Account)
      requires server.Valid() && Sound(plan) && Fits(env, plan) && plan.suspended
      requires Observes(base.facts, env, plan, owner.generation) && base.facts.reconciled == None && base.outcomes == []
      requires Engages(Find(owner.conditions, plan.conditionType), base.facts)
      requires forall c <- CellSet(plan.reconcile) :: !c.isSet
      modifies server, owner`conditions, CellSet(plan.reconcile)
      ensures server.Valid() && server.Extends() && old(server.writes) <= server.writes
      ensures AllSafe(server.writes[|old(server.writes)|..], plan, owner.uid) && |run.ran| == |env.suspensions|
      ensures Engaged(run, Span(old(server.objects), server.objects, server.archive,
                                server.writes[|old(server.writes)|..]), plan, env, owner.uid)
      ensures run == base.(facts := run.facts, turns := run.turns, ran := run.ran, answers := run.answers,
                           worlds := run.worlds, removals := run.removals, releases := run.releases)
      ensures run.facts == base.facts.(suspension := run.facts.suspension, finished := run.facts.finished)
      ensures var stored := Find(old(owner.conditions), plan.conditionType);
              owner.conditions ==
              Conditions.Put(old(owner.conditions), Outcome(stored, plan.conditionType, run.facts))
      ensures failed <==> run.facts.suspension == None || !run.facts.finished
      ensures Snapshot(CellSet(plan.reconcile)) == CellsLeft(run, plan, env)
    {
      hide AllCalm, Finished, AllSafe, Managed, Sound, Outcome, Engages, Merge, Conditions.Put, Find, Server.Valid,
           CellSet, CellsFilled, Spared, Tidied, Fits, Engaged, CellsLeft, WithError, ManagedSuspended, Snapshot,
           SuspensionSummary, MaxSuspension;
      Sizes(env, plan);
      ghost var start, found, world := server.writes, owner.conditions, server.objects;
      var statuses;
      ghost var turns, ran, answers, worlds;
      statuses, turns, ran, answers, worlds := SuspendManaged(server, owner.uid, env.suspensions);
      run := base.(facts := base.facts.(suspension := statuses, finished := false), turns := turns, ran := ran,
                   answers := answers, worlds := worlds);
      ghost var middle, filled := server.writes, Snapshot(CellSet(plan.reconcile));
      ghost var halted := Span(world, server.objects, server.archive, middle[|start|..]);
      if statuses == None {
        SuspensionEnds(run, halted, halted, plan, env, owner.uid);
        SuspendedCondition(found, found, plan, base.facts, run.facts, env);
        Fail(owner, env);
        return true, run;
      }
      var summary := ComputeSuspensionSummary(statuses.value);
      owner.SetStatusCondition(SuspendingCondition(plan.conditionType, summary, owner.generation), env.wall);
      ghost var set' := owner.conditions;
      var ok;
      ghost var removals, releases;
      ok, removals, releases := Conclude(server, owner, env);
      run := run.(facts := run.facts.(finished := ok), removals := removals, releases := releases);
      SplitWrites(start, middle, server.writes);
      SuspensionEnds(run, halted, Span(world, server.objects, server.archive, server.writes[|start|..]), plan, env,
                     owner.uid);
      SuspendedCondition(found, set', plan, base.facts, run.facts, env);
      assert Snapshot(CellSet(plan.reconcile)) == filled;
      return !ok, run;
    }

    /** The converge step: from the results of the entries to the component's condition. */
    method Converge(owner: Owner, results: seq<Result>, env: PassEnv, ghost base: Facts)
      requires Observes(base, env, plan, owner.generation)
      modifies this`convergedAt, owner`conditions
      ensures convergedAt == Some(env.now)
      ensures var stored := Find(old(owner.conditions), plan.conditionType);
              var cond := ConvergeStep(stored, plan.conditionType, results, base);
              cond.ctype == plan.conditionType && owner.conditions == Conditions.Put(old(owner.conditions), cond)
    {
      hide NewConverging, Participators, Merge, Conditions.Put, Find;
      FindType(owner.conditions, plan.conditionType);
      var previous := Current(Find(owner.conditions, plan.conditionType), plan.conditionType, owner.generation);
      var participators := FilterParticipators(results);
      var graded := new Result[|participators|](i requires 0 <= i < |participators| => participators[i]);
      assert graded[..] == participators;
      var cond := NewConvergingStatusCondition(graded, plan.gracePeriod, previous, env.now, owner.generation);
      StepType(participators, plan.gracePeriod, previous, env.now, owner.generation);
      MergeType(Find(owner.conditions, plan.conditionType), cond, env.wall);
      convergedAt := Some(env.now);
      if previous.reason.Converging() {
        owner.SetStatusCondition(cond, env.wall);
      } else {
        owner.ReplaceStatusCondition(cond.(time := Some(env.now)));
      }
    }

    /** The normal branch of Reconcile. */
    method ConvergePass(server: Server, owner: Owner, env: PassEnv, ghost base: Facts)
      returns (failed: bool, ghost run: Account)
      requires server.Valid() && Sound(plan) && Fits(env, plan) && !plan.suspended
      requires Observes(base, env, plan, owner.generation)
      requires Engages(Find(owner.conditions, plan.conditionType), base)
      requires forall c <- CellSet(plan.reconcile) :: !c.isSet
      modifies this`convergedAt, server, owner`conditions, CellSet(plan.reconcile)
      ensures server.Valid() && server.Extends() && old(server.writes) <= server.writes
      ensures AllSafe(server.writes[|old(server.writes)|..], plan, owner.uid)
      ensures |run.outcomes| <= |plan.reconcile| && run.ran == []
      ensures Engaged(run, Span(old(server.objects), server.objects, server.archive,
                                server.writes[|old(server.writes)|..]), plan, env, owner.uid)
      ensures run.facts == base.(reconciled := run.facts.reconciled, finished := run.facts.finished)
      ensures var stored := Find(old(owner.conditions), plan.conditionType);
              owner.conditions ==
              Conditions.Put(old(owner.conditions), Outcome(stored, plan.conditionType, run.facts))
      ensures failed <==> run.facts.reconciled == None || !run.facts.finished
      ensures convergedAt == if run.facts.reconciled.Some? then Some(env.now) else old(convergedAt)
      ensures Snapshot(CellSet(plan.reconcile)) == CellsLeft(run, plan, env)
    {
      hide AllSafe, NoApply, Managed, Sound, Outcome, Engages, Merge, Conditions.Put, Find, Server.Valid,
           ConvergeStep, WithError, Engine.Ledger, Flat, AllCalm, Finished, Engine.GivesUp, Engine.CellsAfter,
           AppliedInOrder, Engine.Trace, CellSet, Spared, Tidied, Engine.WellFormed, Engine.ResultsOf,
           Engine.AllAccounted;
      ghost var start, found := server.writes, owner.conditions;
      var results;
      ghost var outcomes, steps, turns, worlds;
      results, outcomes, steps, turns, worlds :=
        Engine.ReconcileResources(server, owner.uid, plan.reconcile, env.entries);
      ghost var middle, filled, earlier := server.writes, Snapshot(CellSet(plan.reconcile)), server.archive;
      run := Account(base.(reconciled := results, finished := false), outcomes, steps, turns, worlds, [], [], [], []);
      ApplySafe(middle[|start|..], turns, outcomes, plan, env.entries, owner.uid);
      AppliesFirst(start, middle, middle, run, plan, env.entries, owner.uid);
      if results == None {
        ConvergedCondition(found, found, plan, base, run.facts, env);
        Fail(owner, env);
        return true, run;
      }
      Converge(owner, results.value, env, base);
      ghost var set' := owner.conditions;
      var ok;
      ghost var removals, releases;
      ok, removals, releases := Conclude(server, owner, env);
      run := run.(facts := run.facts.(finished := ok), removals := removals, releases := releases);
      Engine.AllAccountedLater(plan.reconcile, env.entries, outcomes, worlds, earlier, server.archive, owner.uid);
      ConvergedCondition(found, set', plan, base, run.facts, env);
      TidiedApart(server.writes[|middle|..], plan.delete, plan, owner.uid);
      SafeAppend(start, middle, server.writes, plan, owner.uid);
      AppliesFirst(start, middle, server.writes, run, plan, env.entries, owner.uid);
      assert Snapshot(CellSet(plan.reconcile)) == filled;
      return !ok, run;
    }

    method ClearCells()
      requires Sound(plan)
      modifies PlanCells(plan)
      ensures forall c <- CellSet(plan.reconcile) :: !c.isSet
    {
      for i := 0 to |plan.cells|
        invariant forall j :: 0 <= j < i ==> !plan.cells[j].isSet
      {
        plan.cells[i].Clear();
      }
      CellsWithin(plan);
    }

    /** The stage behind the gate and the prerequisites: suspension, or the normal branch. */
    method Engage(server: Server, owner: Owner, env: PassEnv, ghost base: Account)
      returns (failed: bool, ghost run: Account)
      requires server.Valid() && Sound(plan) && Fits(env, plan) && Observes(base.facts, env, plan, owner.generation)
      requires Engages(Find(owner.conditions, plan.conditionType), base.facts) && convergedAt == None
      requires base.outcomes == [] && base.steps == [] && base.facts.reconciled == None
      requires forall c <- CellSet(plan.reconcile) :: !c.isSet
      modifies this`convergedAt, server, owner`conditions, CellSet(plan.reconcile)
      ensures server.Valid() && server.Extends() && old(server.writes) <= server.writes
      ensures PassEnded(failed, run, Span(old(server.objects), server.objects, server.archive,
                                          server.writes[|old(server.writes)|..]),
                        old(owner.conditions), owner.conditions, convergedAt, Snapshot(CellSet(plan.reconcile)), plan,
                        env, owner.uid, owner.generation)
    {
      hide AllSafe, NoApply, OwnedOnly, Managed, Sound, Conditions.Put, Find, Server.Valid, Happened, AnswersOf,
           Halted, AppliedInOrder, SuspendedInOrder, Quiet, AllCalm, Finished, CellSet, CellsFilled, Engine.CellsAfter,
           Engine.WellFormed, Merge, Spared, PassEnded, Outcome, Engaged, CellsLeft, Fits;
      ghost var found, world, start := owner.conditions, server.objects, server.writes;
      if plan.suspended {
        failed, run := SuspensionPass(server, owner, env, base);
      } else {
        failed, run := ConvergePass(server, owner, env, base.facts);
      }
      VerdictExactly(env.checks);
      EngagedEnd(failed, run, Span(world, server.objects, server.archive, server.writes[|start|..]), found,
                 owner.conditions, convergedAt, Snapshot(CellSet(plan.reconcile)), plan, env, owner.uid,
                 owner.generation);
    }

    /** A disabled gate: everything the component manages is deleted, and the orphans are released. */
    method GateOff(server: Server, owner: Owner, env: PassEnv, ghost base: Account)
      returns (failed: bool, ghost run: Account)
      requires server.Valid() && Sound(plan) && Fits(env, plan) && Observes(base.facts, env, plan, owner.generation)
      requires env.mapperPresent && env.gate == GateDisabled && convergedAt == None && base.facts.reconciled == None
      requires base.outcomes == [] && base.steps == [] && base.ran == []
      modifies server, owner`conditions
      ensures server.Valid() && server.Extends() && old(server.writes) <= server.writes
      ensures PassEnded(failed, run, Span(old(server.objects), server.objects, server.archive,
                                          server.writes[|old(server.writes)|..]),
                        old(owner.conditions), owner.conditions, convergedAt, Snapshot(CellSet(plan.reconcile)), plan,
                        env, owner.uid, owner.generation)
    {
      hide AllSafe, NoApply, Managed, Sound, Conditions.Put, Find, Server.Valid, AllCalm, Finished, CellSet, Snapshot,
           Merge, Spared, Fits, PassEnded, Tidied, AllManaged;
      ghost var found, world, start := owner.conditions, server.objects, server.writes;
      Sizes(env, plan);
      AllManagedIs(plan);
      var managed := ManagedResources(plan.reconcile);
      var ok;
      ghost var removals, releases;
      ok, removals, releases := Finish(server, owner.uid, managed + plan.delete, env.cleanup, env.orphans);
      run := base.(facts := base.facts.(cleanupDone := ok), removals := removals, releases := releases);
      TidiedApart(server.writes[|start|..], AllManaged(plan), plan, owner.uid);
      if !ok {
        Fail(owner, env);
      } else {
        owner.SetStatusCondition(ConditionDisabled(plan.conditionType, owner.generation), env.wall);
      }
      failed := !ok;
      IdleEnd(failed, run, Span(world, server.objects, server.archive, server.writes[|start|..]), found,
              owner.conditions, Snapshot(CellSet(plan.reconcile)), plan, env, owner.uid, owner.generation);
    }

    /** One pass, as PassEnded says. */
    method Reconcile(server: Server, owner: Owner, env: PassEnv) returns (failed: bool, ghost run: Account)
      requires server.Valid() && Sound(plan) && Fits(env, plan)
      modifies this`convergedAt, server, owner`conditions, PlanCells(plan)
      ensures server.Valid() && server.Extends() && old(server.writes) <= server.writes
      ensures PassEnded(failed, run, Span(old(server.objects), server.objects, server.archive,
                                          server.writes[|old(server.writes)|..]),
                        old(owner.conditions), owner.conditions, convergedAt, Snapshot(CellSet(plan.reconcile)), plan,
                        env, owner.uid, owner.generation)
    {
      hide AllSafe, NoApply, OwnedOnly, Managed, Sound, Conditions.Put, Find, Server.Valid, AllCalm, Finished, CellSet,
           Snapshot, Merge, Spared, Fits, PassEnded, Tidied, AllManaged, PlanCells;
      ghost var found, world, start := owner.conditions, server.objects, server.writes;
      convergedAt := None;
      Sizes(env, plan);
      ClearCells();
      CellsWithin(plan);
      NothingWritten(plan, owner.uid, env.suspensions);
      ghost var cells, still := Snapshot(CellSet(plan.reconcile)), Span(world, world, server.archive, []);
      assert server.writes[|start|..] == [];
      run := Account(
        Facts(env.mapperPresent, env.gate, false, env.checks, plan.suspended, None, None, false, plan.gracePeriod,
              owner.generation, env.now, env.wall, env.failWall),
        [], [], [], [], [], [], [], []);

      if !env.mapperPresent {
        Fail(owner, env);
        IdleEnd(true, run, still, found, owner.conditions, cells, plan, env, owner.uid, owner.generation);
        return true, run;
      }

      if env.gate == GateFailed {
        owner.SetStatusCondition(ConditionFeatureGateError(plan.conditionType, owner.generation), env.wall);
        IdleEnd(true, run, still, found, owner.conditions, cells, plan, env, owner.uid, owner.generation);
        return true, run;
      }
      if env.gate == GateDisabled {
        failed, run := GateOff(server, owner, env, run);
        return;
      }

      if plan.prerequisites > 0 {
        var current := Current(Find(owner.conditions, plan.conditionType), plan.conditionType, owner.generation);
        if BarrierActive(current.reason) {
          var verdict := EvaluatePrerequisites(env.checks);
          if verdict != Met {
            owner.SetStatusCondition(ConditionPrerequisiteNotMet(plan.conditionType, owner.generation), env.wall);
            failed := verdict == CheckFailed;
            IdleEnd(failed, run, still, found, owner.conditions, cells, plan, env, owner.uid, owner.generation);
            return failed, run;
          }
        }
      }
      failed, run := Engage(server, owner, env, run);
    }

    /** A delay is returned exactly while a grace period is pending: not while suspended, ready, or graded,
        nor once the last converge step ran past the deadline. At its end the period is over for the time
        in memory and for the whole seconds the API server keeps, and it overshoots by at most a second. */
    method GraceRemaining(owner: Owner, now: Time) returns (delay: Option<nat>)
      ensures var current := Current(Find(owner.conditions, plan.conditionType), plan.conditionType, owner.generation);
              var deadline := TransitionOf(current) + plan.gracePeriod;
              && (delay.Some? <==>
                  && !plan.suspended && plan.gracePeriod > 0
                  && current.reason.GraceTimed() && current.reason !in {Degraded, Down}
                  && (convergedAt.Some? ==> convergedAt.value <= deadline)
                  && (convergedAt == None ==> now / SECOND <= deadline / SECOND))
              && (delay.Some? && (convergedAt.Some? ==> convergedAt.value <= now) ==>
                  && 0 < delay.value <= (if deadline > now then deadline - now else 0) + SECOND
                  && forall later :: later >= now + delay.value ==>
                       && GraceExpired(plan.gracePeriod, TransitionOf(current), later)
                       && GraceExpired(plan.gracePeriod, Truncate(TransitionOf(current)), later))
    {
      if plan.suspended {
        return None;
      }
      var current := Current(Find(owner.conditions, plan.conditionType), plan.conditionType, owner.generation);
      PendingExactly(current, plan.gracePeriod, convergedAt, now);
      if Timer.GraceRemaining(current, plan.gracePeriod, convergedAt, now).Some?
          && (convergedAt.Some? ==> convergedAt.value <= now) {
        var delay := Timer.GraceRemaining(current, plan.gracePeriod, convergedAt, now).value;
        forall later | later >= now + delay
          ensures GraceExpired(plan.gracePeriod, TransitionOf(current), later)
          ensures GraceExpired(plan.gracePeriod, Truncate(TransitionOf(current)), later)
        {
          TimerSound(current, plan.gracePeriod, convergedAt, now, later);
        }
        TimerSound(current, plan.gracePeriod, convergedAt, now, now + delay);
      }
      return Timer.GraceRemaining(current, plan.gracePeriod, convergedAt, now);
    }
  }

  /** The pass returns an error. */
  ghost predicate Fails(stored: Option<Condition>, f: Facts) {
    || !f.mapperPresent || f.gate == GateFailed || (f.gate == GateDisabled && !f.cleanupDone)
    || (Evaluates(stored, f) && Verdict(f.checks) == CheckFailed)
    || (Engages(stored, f) && ((if f.suspended then f.suspension == None else f.reconciled == None) || !f.finished))
  }

  /** A pass that returns an error shows it in the condition, and one that writes Error without returning one could not
      grade its results. */
  lemma FailureShows(stored: Option<Condition>, ctype: string, f: Facts)
    ensures var reason := Outcome(stored, ctype, f).reason;
            && (Fails(stored, f) ==> reason in {Error, FeatureGateError, PrerequisiteNotMet})
            && (reason == FeatureGateError || !f.mapperPresent ==> Fails(stored, f))
            && (Engages(stored, f) && !f.finished ==> Fails(stored, f))
            && (f.mapperPresent && f.gate == GateDisabled ==> (Fails(stored, f) <==> reason != Disabled))
            && (reason == PrerequisiteNotMet ==> (Fails(stored, f) <==> Verdict(f.checks) == CheckFailed))
            && (reason == Error && !Fails(stored, f) ==>
                Engages(stored, f) && f.reconciled.Some? && !AllHealthy(Participators(f.reconciled.value)))
  {
    ReasonExactly(stored, ctype, f);
    VerdictExactly(f.checks);
  }

  lemma Sizes(env: PassEnv, plan: Blueprint)
    requires Fits(env, plan)
    ensures |env.deletions| == |plan.delete| && forall e <- plan.delete :: e in AllManaged(plan)
    ensures forall i :: 0 <= i < |env.suspensions| ==>
              |env.suspensions[i].extracted| == |Managed(plan.reconcile)[i].produces|
    ensures (env.gate == NoGate <==> !plan.gated) && |env.checks| == plan.prerequisites
    ensures |env.cleanup| == |AllManaged(plan)| && |env.suspensions| == |Managed(plan.reconcile)|
    ensures |env.orphans| == |plan.orphan| && forall i :: 0 <= i < |env.orphans| ==> env.orphans[i] != []
    ensures |env.entries| == |plan.reconcile|
  {
  }

  lemma AllManagedIs(plan: Blueprint)
    ensures AllManaged(plan) == Managed(plan.reconcile) + plan.delete
  {
  }

  lemma CellsWithin(plan: Blueprint)
    requires Sound(plan)
    ensures CellSet(plan.reconcile) <= PlanCells(plan)
  {
  }

  lemma NothingWritten(plan: Blueprint, owner: Uid, envs: seq<Suspension.SuspendEnv>)
    requires |envs| == |Managed(plan.reconcile)|
    ensures AllSafe([], plan, owner) && NoApply([]) && OwnedOnly([], plan, owner, envs)
  {
  }

  lemma StepType(results: seq<Result>, gracePeriod: nat, previous: Condition, now: Time, generation: int)
    ensures NewConverging(results, gracePeriod, previous, now, generation).ctype == previous.ctype
  {
  }

  lemma MergeType(stored: Option<Condition>, cond: Condition, wall: Time)
    ensures Merge(stored, cond, wall).ctype == cond.ctype
  {
  }

  lemma ApplySafe(writes: seq<Write>, turns: seq<seq<Write>>, outcomes: seq<Engine.Processed>, plan: Blueprint,
                  envs: seq<Engine.EntryEnv>, owner: Uid)
    requires |outcomes| <= |plan.reconcile| == |envs|
    requires Engine.Ledger(writes, turns, plan.reconcile, envs, outcomes, owner)
    ensures AllSafe(writes, plan, owner)
  {
    hide SafeWrite, Flat, Engine.Entered, Engine.ValuesAt;
    forall w | w in writes ensures SafeWrite(w, plan, owner) {
      var i := TurnOf(turns, w);
      EnteredSafe(turns[i], w, plan, i, outcomes[i], Engine.ValuesAt(plan.reconcile, envs, outcomes, i), owner);
    }
  }

  lemma EnteredSafe(turn: seq<Write>, w: Write, plan: Blueprint, i: nat, outcome: Engine.Processed,
                    values: map<Data, int>, owner: Uid)
    requires i < |plan.reconcile| && w in turn && Engine.Entered(turn, plan.reconcile[i], outcome, owner, values)
    ensures SafeWrite(w, plan, owner)
  {
    hide Deletion.ForeignControlled, PatchRefs, OneController;
    var e := plan.reconcile[i];
    assert w == turn[0] && e in plan.reconcile;
    ManagedExactly(plan.reconcile, e);
    LandsOn(w, DesiredOf(e, owner, values));
    if Owning(e) && w.previous.Some? {
      NeverTakesOver(w, DesiredOf(e, owner, values), None, owner);
    }
  }

  lemma LandsOn(w: Write, desired: Desired)
    requires Lands(w, desired, None)
    ensures w.Applied? && w.after.key == desired.key
  {
  }

  lemma {:induction false} TurnOf(turns: seq<seq<Write>>, w: Write) returns (i: nat)
    requires w in Flat(turns)
    ensures i < |turns| && w in turns[i]
  {
    var n := |turns| - 1;
    if w in turns[n] {
      i := n;
    } else {
      i := TurnOf(turns[..n], w);
    }
  }

  lemma SafeAppend(start: seq<Write>, middle: seq<Write>, end: seq<Write>, plan: Blueprint, owner: Uid)
    requires start <= middle <= end
    requires AllSafe(middle[|start|..], plan, owner) && AllSafe(end[|middle|..], plan, owner)
    ensures AllSafe(end[|start|..], plan, owner)
  {
  }

  lemma AppliesFirst(start: seq<Write>, middle: seq<Write>, end: seq<Write>, run: Account, plan: Blueprint,
                     envs: seq<Engine.EntryEnv>, owner: Uid)
    requires start <= middle <= end && |run.outcomes| <= |plan.reconcile| == |envs|
    requires Engine.Ledger(middle[|start|..], run.turns, plan.reconcile, envs, run.outcomes, owner)
    requires NoApply(end[|middle|..]) || middle == end
    ensures AppliedInOrder(end[|start|..], run, plan, envs, owner)
  {
    SplitWrites(start, middle, end);
    assert middle[|start|..] == Flat(run.turns);
    assert end[|start|..][|middle[|start|..]|..] == end[|middle|..];
  }

  /** The conditions after a failure: the Error condition written on top. */
  function WithError(conditions: seq<Condition>, ctype: string, generation: int, env: PassEnv): seq<Condition> {
    Conditions.Put(conditions, Merge(Find(conditions, ctype), ConditionError(ctype, generation), env.failWall))
  }

  /** The condition a suspended pass leaves is the one Passes computes. `set'` are the conditions after the
      suspension stage wrote its own. */
  lemma SuspendedCondition(found: seq<Condition>, set': seq<Condition>, plan: Blueprint, base: Facts, f: Facts,
                           env: PassEnv)
    requires Observes(base, env, plan, base.generation) && base.suspended
    requires Engages(Find(found, plan.conditionType), base)
    requires f == base.(suspension := f.suspension, finished := f.finished)
    requires f.suspension.Some? ==>
               var summary := SuspensionSummary(f.suspension.value);
               var cond := SuspendingCondition(plan.conditionType, summary, f.generation);
               set' == Conditions.Put(found, Merge(Find(found, plan.conditionType), cond, f.wall))
    ensures var outcome := Outcome(Find(found, plan.conditionType), plan.conditionType, f);
            if f.suspension == None
            then WithError(found, plan.conditionType, f.generation, env) == Conditions.Put(found, outcome)
            else (if f.finished then set' else WithError(set', plan.conditionType, f.generation, env)) ==
                 Conditions.Put(found, outcome)
  {
    hide Conditions.Put, Find, SuspensionSummary;
    if f.suspension.Some? {
      var cond := SuspendingCondition(plan.conditionType, SuspensionSummary(f.suspension.value), f.generation);
      FailAfter(found, plan.conditionType, Merge(Find(found, plan.conditionType), cond, f.wall), f);
    }
  }

  /** The same for a pass through the normal branch. */
  lemma ConvergedCondition(found: seq<Condition>, set': seq<Condition>, plan: Blueprint, base: Facts, f: Facts,
                           env: PassEnv)
    requires Observes(base, env, plan, base.generation) && !base.suspended
    requires Engages(Find(found, plan.conditionType), base)
    requires f == base.(reconciled := f.reconciled, finished := f.finished)
    requires f.reconciled.Some? ==>
               var cond := ConvergeStep(Find(found, plan.conditionType), plan.conditionType, f.reconciled.value, base);
               cond.ctype == plan.conditionType && set' == Conditions.Put(found, cond)
    ensures var outcome := Outcome(Find(found, plan.conditionType), plan.conditionType, f);
            if f.reconciled == None
            then WithError(found, plan.conditionType, f.generation, env) == Conditions.Put(found, outcome)
            else (if f.finished then set' else WithError(set', plan.conditionType, f.generation, env)) ==
                 Conditions.Put(found, outcome)
  {
    hide Conditions.Put, Find, NewConverging, Participators;
    if f.reconciled.Some? {
      var cond := ConvergeStep(Find(found, plan.conditionType), plan.conditionType, f.reconciled.value, base);
      FailAfter(found, plan.conditionType, cond, f);
    }
  }

  lemma FlatLedger(writes: seq<Write>, turns: seq<seq<Write>>, ran: seq<bool>, entries: seq<Entry>,
                   envs: seq<Suspension.SuspendEnv>, owner: Uid)
    requires |ran| <= |entries| == |envs| && Suspension.Ledger(writes, turns, ran, entries, envs, owner)
    ensures writes == Flat(turns) && |turns| == |ran|
  {
  }

  lemma SuspendedFirst(first: seq<Write>, rest: seq<Write>, turns: seq<seq<Write>>, ran: seq<bool>, plan: Blueprint,
                       envs: seq<Suspension.SuspendEnv>, owner: Uid)
    requires |envs| == |Managed(plan.reconcile)| && NoApply(rest)
    requires first == Flat(turns) && SuspendedInOrder(first, turns, ran, plan, envs, owner)
    ensures SuspendedInOrder(first + rest, turns, ran, plan, envs, owner)
  {
    hide Suspension.Ledger;
    assert (first + rest)[|first|..] == rest;
  }

  /** The managed entries are registered, so their cells are among the component's. */
  lemma ManagedWired(plan: Blueprint, envs: seq<Suspension.SuspendEnv>, cells: set<Data>)
    requires Sound(plan) && cells == CellSet(plan.reconcile) && |envs| == |Managed(plan.reconcile)|
    requires forall i :: 0 <= i < |envs| ==> |envs[i].extracted| == |Managed(plan.reconcile)[i].produces|
    ensures forall i :: 0 <= i < |envs| ==> Wired(Managed(plan.reconcile)[i], envs[i].extracted, cells)
  {
    var managed := Managed(plan.reconcile);
    forall i | 0 <= i < |envs| ensures Wired(managed[i], envs[i].extracted, cells) {
      ManagedExactly(plan.reconcile, managed[i]);
      var j :| 0 <= j < |plan.reconcile| && plan.reconcile[j] == managed[i];
      EntryCells(plan.reconcile, j);
    }
  }

  lemma HaltedAfter(turns: seq<seq<Write>>, ran: seq<bool>, before: map<Key, Object>, middle: map<Key, Object>,
                    after: map<Key, Object>, plan: Blueprint, envs: seq<Suspension.SuspendEnv>, owner: Uid)
    requires Sound(plan) && |envs| == |Managed(plan.reconcile)|
    requires Halted(turns, ran, before, middle, plan, envs, owner) && Spared(middle, after, plan.delete, plan)
    ensures Halted(turns, ran, before, after, plan, envs, owner)
  {
    hide Suspension.Left, SameAt;
    var managed := Managed(plan.reconcile);
    forall j | 0 <= j < |managed| ensures SameAt(middle, after, managed[j].key) {
      ManagedDistinct(plan);
      assert managed[j] in managed;
    }
    Suspension.LeftAfter(turns, ran, before, middle, after, managed, envs, owner);
  }

  lemma SuspensionSafe(turns: seq<seq<Write>>, ran: seq<bool>, w: Write, plan: Blueprint, owner: Uid,
                       envs: seq<Suspension.SuspendEnv>)
    requires Sound(plan) && |envs| == |Managed(plan.reconcile)| == |ran|
    requires Suspension.Ledger(Flat(turns), turns, ran, Managed(plan.reconcile), envs, owner) && w in Flat(turns)
    ensures SafeWrite(w, plan, owner)
    ensures forall i: nat | i < |envs| :: OwnedWhere(w, Managed(plan.reconcile)[i], owner, envs[i])
  {
    hide Suspension.Turn, Managed, Sound, Deletion.MayDelete, Deletion.ForeignControlled, Suspension.OnOwned;
    var managed := Managed(plan.reconcile);
    var k := TurnOf(turns, w);
    var values := Suspension.ValuesAt(managed, envs, ran, k);
    assert Suspension.EntryTurn(turns[k], ran[k], owner, managed[k], values, envs[k]);
    Suspension.TurnIsSafe(turns[k], ran[k], owner, managed[k], values, envs[k], w);
    assert managed[k] in managed && managed[k] in AllManaged(plan);
    ManagedDistinct(plan);
  }

  lemma SuspensionsSafe(turns: seq<seq<Write>>, ran: seq<bool>, plan: Blueprint, owner: Uid,
                        envs: seq<Suspension.SuspendEnv>)
    requires Sound(plan) && |envs| == |Managed(plan.reconcile)| == |ran|
    requires Suspension.Ledger(Flat(turns), turns, ran, Managed(plan.reconcile), envs, owner)
    ensures AllSafe(Flat(turns), plan, owner) && OwnedOnly(Flat(turns), plan, owner, envs)
  {
    hide SafeWrite, Sound, Suspension.Ledger, Managed;
    forall w | w in Flat(turns)
      ensures SafeWrite(w, plan, owner)
      ensures forall i: nat | i < |envs| :: OwnedWhere(w, Managed(plan.reconcile)[i], owner, envs[i])
    {
      SuspensionSafe(turns, ran, w, plan, owner, envs);
    }
  }

  /** Deletions and releases after a suspension concern other objects. */
  lemma OwnedAfterFinish(first: seq<Write>, rest: seq<Write>, plan: Blueprint, owner: Uid,
                         envs: seq<Suspension.SuspendEnv>)
    requires Sound(plan) && |envs| == |Managed(plan.reconcile)|
    requires AllSafe(first, plan, owner) && OwnedOnly(first, plan, owner, envs)
    requires Tidied(rest, plan.delete, plan, owner)
    ensures AllSafe(first + rest, plan, owner) && OwnedOnly(first + rest, plan, owner, envs) && NoApply(rest)
  {
    forall w, i: nat | w in rest && i < |envs| ensures w.Target() != Managed(plan.reconcile)[i].key {
      ManagedDistinct(plan);
      assert SafeWrite(w, plan, owner) && Managed(plan.reconcile)[i] in Managed(plan.reconcile);
    }
  }

  lemma FailAfter(conditions: seq<Condition>, ctype: string, cond: Condition, f: Facts)
    requires cond.ctype == ctype
    ensures var after := Conditions.Put(conditions, cond);
            Conditions.Put(after, Merge(Find(after, ctype), ConditionError(ctype, f.generation), f.failWall)) ==
            Conditions.Put(conditions, Passes.Fail(Some(cond), ctype, f))
  {
  }
}
