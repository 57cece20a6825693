/** Building a component: registration of resources and the checks of Build (pkg/component/builder.go). */
module Building {
  import opened Options
  import opened ApiServer
  import opened ResourceOptions
  import opened DataFlow

  /** What the caller registers; Nil stands for a nil interface or a typed-nil pointer. */
  datatype Resource =
    | Nil
    | Resource(
        key: Key, content: map<Data, int> -> map<string, string>, suspended: map<Data, int> -> map<string, string>,
        ownable: bool, consumes: seq<Consumption>, produces: seq<Data?>)

  datatype Registration = Registration(resource: Resource, opts: seq<ResourceOption>)
  {
    /** Neither nil nor an invalid combination of options. */
    predicate Sound() {
      resource.Resource? && !Rejected(opts)
    }
    function Entry(): Entry
      requires resource.Resource?
    {
      DataFlow.Entry(resource.key, resource.content, resource.suspended, resource.ownable, Meaning(opts),
                     resource.consumes, resource.produces)
    }
  }

  datatype Place = ToReconcile | ToDelete | ToOrphan

  function PlaceOf(options: Resolved): Place {
    if options.orphan then ToOrphan else if options.delete then ToDelete else ToReconcile
  }

  function Keys(entries: seq<Entry>): (keys: seq<Key>)
    ensures |keys| == |entries|
  {
    seq(|entries|, i requires 0 <= i < |entries| => entries[i].key)
  }

  /** The registrations that take effect: the sound ones whose identity no earlier one claimed. */
  function Accepted(history: seq<Registration>): seq<Entry> {
    if history == [] then [] else Accept(Accepted(history[..|history| - 1]), history[|history| - 1])
  }

  function Accept(entries: seq<Entry>, r: Registration): seq<Entry> {
    if r.Sound() && r.resource.key !in Keys(entries) then entries + [r.Entry()] else entries
  }

  function Placed(entries: seq<Entry>, place: Place): seq<Entry> {
    if entries == [] then []
    else
      var init, last := Placed(entries[..|entries| - 1], place), entries[|entries| - 1];
      if PlaceOf(last.options) == place then init + [last] else init
  }

  predicate AllAccepted(history: seq<Registration>) {
    |Accepted(history)| == |history|
  }

  lemma AcceptedStep(history: seq<Registration>, r: Registration)
    ensures Accepted(history + [r]) == Accept(Accepted(history), r)
  {
  }

  lemma PlacedStep(entries: seq<Entry>, e: Entry, place: Place)
    ensures Placed(entries + [e], place) ==
            if PlaceOf(e.options) == place then Placed(entries, place) + [e] else Placed(entries, place)
  {
  }

  lemma KeysStep(entries: seq<Entry>, e: Entry)
    ensures Keys(entries + [e]) == Keys(entries) + [e.key]
  {
  }

  lemma {:induction false} AcceptedAtMost(history: seq<Registration>)
    ensures |Accepted(history)| <= |history|
  {
    if history != [] {
      AcceptedAtMost(history[..|history| - 1]);
    }
  }

  /** All registrations take effect exactly when each is sound and the identities are pairwise distinct. */
  lemma {:induction false} AllAcceptedExactly(history: seq<Registration>)
    ensures AllAccepted(history) <==>
            && (forall r <- history :: r.Sound())
            && (forall i, j ::
                  0 <= i < j < |history| && history[i].resource.Resource? && history[j].resource.Resource? ==>
                    history[i].resource.key != history[j].resource.key)
    ensures AllAccepted(history) ==> forall i :: 0 <= i < |history| ==>
              history[i].resource.Resource? && Keys(Accepted(history))[i] == history[i].resource.key
  {
    if history != [] {
      var n := |history| - 1;
      var init, last := history[..n], history[n];
      AllAcceptedExactly(init);
      AcceptedAtMost(init);
      assert history == init + [last];
      if AllAccepted(init) && last.Sound() {
        KeysStep(Accepted(init), last.Entry());
        assert last.resource.key in Keys(Accepted(init)) <==>
                 exists i :: 0 <= i < n && init[i].resource.key == last.resource.key;
      }
    }
  }

  /** No identity is registered twice. */
  lemma {:induction false} AcceptedDistinct(history: seq<Registration>, k: Key)
    ensures multiset(Keys(Accepted(history)))[k] <= 1
  {
    if history != [] {
      var init, last := history[..|history| - 1], history[|history| - 1];
      AcceptedDistinct(init, k);
      if last.Sound() && last.resource.key !in Keys(Accepted(init)) {
        KeysStep(Accepted(init), last.Entry());
      }
    }
  }

  /** The three lists together hold each identity as often as the registrations do. */
  lemma {:induction false} PlacesPartition(entries: seq<Entry>)
    ensures multiset(Keys(entries)) ==
            multiset(Keys(Placed(entries, ToReconcile))) + multiset(Keys(Placed(entries, ToDelete)))
            + multiset(Keys(Placed(entries, ToOrphan)))
  {
    if entries != [] {
      var init, last := entries[..|entries| - 1], entries[|entries| - 1];
      PlacesPartition(init);
      assert entries == init + [last];
      KeysStep(init, last);
      KeysStep(Placed(init, PlaceOf(last.options)), last);
    }
  }

  /** An entry stands in the list its options name, with the options of an accepted registration. */
  lemma {:induction false} PlacedExactly(entries: seq<Entry>, place: Place, e: Entry)
    ensures e in Placed(entries, place) <==> e in entries && PlaceOf(e.options) == place
  {
    if entries != [] {
      PlacedExactly(entries[..|entries| - 1], place, e);
      assert entries == entries[..|entries| - 1] + [entries[|entries| - 1]];
    }
  }

  lemma {:induction false} AcceptedFrom(history: seq<Registration>, e: Entry)
    requires e in Accepted(history)
    ensures exists r <- history :: r.Sound() && r.Entry() == e
  {
    var n := |history| - 1;
    if e in Accepted(history[..n]) {
      AcceptedFrom(history[..n], e);
      var r :| r in history[..n] && r.Sound() && r.Entry() == e;
      assert r in history;
    } else {
      assert history[n] in history;
    }
  }

  /** Once every registration took effect, each stands in the list its own options name and in no other. */
  lemma {:induction false} EveryRegistrationPlaced(history: seq<Registration>, r: Registration, place: Place)
    requires AllAccepted(history) && r in history
    ensures r.Sound() && r.Entry() in Accepted(history)
    ensures r.Entry() in Placed(Accepted(history), place) <==> place == PlaceOf(Meaning(r.opts))
  {
    var init := history[..|history| - 1];
    AcceptedAtMost(init);
    if r in init {
      EveryRegistrationPlaced(init, r, place);
    }
    PlacedExactly(Accepted(history), place, r.Entry());
  }

  /** `d` stands before `e`. */
  ghost predicate Ahead(d: Entry, e: Entry, entries: seq<Entry>) {
    exists p, q :: 0 <= p < q < |entries| && entries[p] == d && entries[q] == e
  }

  lemma AheadAppended(entries: seq<Entry>, d: Entry, e: Entry)
    requires d in entries
    ensures Ahead(d, e, entries + [e])
  {
    var p :| 0 <= p < |entries| && entries[p] == d;
    assert (entries + [e])[p] == d && (entries + [e])[|entries|] == e;
  }

  lemma AheadLonger(entries: seq<Entry>, last: Entry, d: Entry, e: Entry)
    requires Ahead(d, e, entries)
    ensures Ahead(d, e, entries + [last])
  {
    var p, q :| 0 <= p < q < |entries| && entries[p] == d && entries[q] == e;
    assert (entries + [last])[p] == d && (entries + [last])[q] == e;
  }

  /** The lists keep the order of the registrations. */
  lemma {:induction false} RegistrationOrder(history: seq<Registration>, i: nat, j: nat, place: Place)
    requires AllAccepted(history) && i < j < |history| && history[i].Sound() && history[j].Sound()
    requires PlaceOf(Meaning(history[i].opts)) == PlaceOf(Meaning(history[j].opts)) == place
    ensures Ahead(history[i].Entry(), history[j].Entry(), Placed(Accepted(history), place))
  {
    hide Meaning, Rejected, PlaceOf, Ahead;
    var n := |history| - 1;
    var init, last := history[..n], history[n];
    AcceptedAtMost(init);
    var before := Placed(Accepted(init), place);
    PlacedStep(Accepted(init), last.Entry(), place);
    if j < n {
      RegistrationOrder(init, i, j, place);
      AheadLonger(before, last.Entry(), history[i].Entry(), history[j].Entry());
    } else {
      EveryRegistrationPlaced(init, history[i], place);
      AheadAppended(before, history[i].Entry(), history[j].Entry());
    }
  }

  /** Of two registrations whose entries stand in the list, the earlier one's stands first. */
  ghost predicate InOrder(history: seq<Registration>, entries: seq<Entry>) {
    forall i, j | 0 <= i < j < |history| && history[i].resource.Resource? && history[j].resource.Resource? ::
      history[i].Entry() in entries && history[j].Entry() in entries ==>
        Ahead(history[i].Entry(), history[j].Entry(), entries)
  }

  lemma ListInOrder(history: seq<Registration>, place: Place)
    requires AllAccepted(history)
    ensures InOrder(history, Placed(Accepted(history), place))
  {
    hide Accepted, Placed, Meaning, Rejected, PlaceOf, Ahead;
    var entries := Placed(Accepted(history), place);
    forall i, j | 0 <= i < j < |history| && history[i].resource.Resource? && history[j].resource.Resource?
                  && history[i].Entry() in entries && history[j].Entry() in entries
      ensures Ahead(history[i].Entry(), history[j].Entry(), entries)
    {
      EveryRegistrationPlaced(history, history[i], place);
      EveryRegistrationPlaced(history, history[j], place);
      RegistrationOrder(history, i, j, place);
    }
  }

  /** What a registration asks for, read off its own options: its object is released exactly when an orphan
      condition holds, deleted exactly when a delete condition holds or its gate is disabled, and reconciled
      exactly when neither is asked for. */
  ghost predicate Honoured(r: Registration, reconcile: seq<Entry>, delete: seq<Entry>, orphan: seq<Key>)
    requires r.resource.Resource?
  {
    var released, deleted := OrphanWhen(true) in r.opts, DeleteWhen(true) in r.opts || GatedOff(r.opts);
    && !(released && deleted)
    && (r.resource.key in orphan <==> released)
    && (r.Entry() in delete <==> deleted)
    && (r.Entry() in reconcile <==> !released && !deleted)
    && (r.resource.key in Keys(delete) <==> deleted)
    && (r.resource.key in Keys(reconcile) <==> !released && !deleted)
  }

  /** Once every registration took effect, the lists hold what its own options ask for. */
  lemma OptionsHonoured(history: seq<Registration>, r: Registration)
    requires AllAccepted(history) && r in history
    ensures r.Sound()
    ensures var entries := Accepted(history);
            Honoured(r, Placed(entries, ToReconcile), Placed(entries, ToDelete), Keys(Placed(entries, ToOrphan)))
  {
    hide Placed, Accepted, Rejected, LastGate, GatedOff;
    var entries := Accepted(history);
    EveryRegistrationPlaced(history, r, ToReconcile);
    EveryRegistrationPlaced(history, r, ToDelete);
    EveryRegistrationPlaced(history, r, ToOrphan);
    GatedOffExactly(r.opts);
    NeverBoth(r.opts);
    KeyPlaced(history, r, ToReconcile);
    KeyPlaced(history, r, ToDelete);
    KeyPlaced(history, r, ToOrphan);
  }

  lemma AllHonoured(history: seq<Registration>)
    requires AllAccepted(history)
    ensures forall q <- history ::
              q.resource.Resource? && Honoured(q, Placed(Accepted(history), ToReconcile),
                                               Placed(Accepted(history), ToDelete),
                                               Keys(Placed(Accepted(history), ToOrphan)))
  {
    hide Honoured, Placed, Accepted, Rejected;
    forall q | q in history
      ensures q.resource.Resource? && Honoured(q, Placed(Accepted(history), ToReconcile),
                                               Placed(Accepted(history), ToDelete),
                                               Keys(Placed(Accepted(history), ToOrphan)))
    {
      OptionsHonoured(history, q);
    }
  }

  /** An identity stands in a list exactly when its entry does. */
  lemma KeyPlaced(history: seq<Registration>, r: Registration, place: Place)
    requires AllAccepted(history) && r in history && r.Sound() && r.Entry() in Accepted(history)
    ensures r.resource.key in Keys(Placed(Accepted(history), place)) <==> r.Entry() in Placed(Accepted(history), place)
  {
    hide Accepted, Placed, Rejected, Meaning;
    var entries := Accepted(history);
    var placed := Placed(entries, place);
    if r.Entry() in placed {
      var i :| 0 <= i < |placed| && placed[i] == r.Entry();
      assert Keys(placed)[i] == r.resource.key;
    }
    if r.resource.key in Keys(placed) {
      var i :| 0 <= i < |placed| && Keys(placed)[i] == r.resource.key;
      PlacedExactly(entries, place, placed[i]);
      AcceptedDistinct(history, r.resource.key);
      SameKeySameEntry(entries, placed[i], r.Entry());
    }
  }

  lemma SameKeySameEntry(entries: seq<Entry>, d: Entry, e: Entry)
    requires d in entries && e in entries && d.key == e.key && multiset(Keys(entries))[e.key] <= 1
    ensures d == e
  {
    var i :| 0 <= i < |entries| && entries[i] == d;
    var j :| 0 <= j < |entries| && entries[j] == e;
    if i != j {
      TwoKeys(Keys(entries), if i < j then i else j, if i < j then j else i);
    }
  }

  lemma TwoKeys(keys: seq<Key>, i: nat, j: nat)
    requires i < j < |keys| && keys[i] == keys[j]
    ensures multiset(keys)[keys[i]] >= 2
  {
    assert keys == keys[..i] + [keys[i]] + keys[i + 1..j] + [keys[j]] + keys[j + 1..];
  }

  /** The lists of a component: identities lie in one list only, read-only entries only among those to
      reconcile, and ownership never gates the deletion of an unowned entry. */
  ghost predicate Partitioned(reconcile: seq<Entry>, delete: seq<Entry>, orphan: seq<Key>) {
    && (forall k :: multiset(Keys(reconcile))[k] + multiset(Keys(delete))[k] + multiset(orphan)[k] <= 1)
    && (forall e <- delete :: !e.options.readOnly)
    && (forall e <- reconcile ::
          e.options.readOnly ==> !e.options.blockOnForeignController && !e.options.deleteOnlyIfOwned)
    && (forall e <- reconcile + delete :: !(e.options.unowned && e.options.deleteOnlyIfOwned))
  }

  lemma HistoryPartitions(history: seq<Registration>)
    ensures Partitioned(Placed(Accepted(history), ToReconcile), Placed(Accepted(history), ToDelete),
                        Keys(Placed(Accepted(history), ToOrphan)))
  {
    var entries := Accepted(history);
    var reconcile, delete, orphan := Placed(entries, ToReconcile), Placed(entries, ToDelete), Placed(entries, ToOrphan);
    forall k ensures multiset(Keys(reconcile))[k] + multiset(Keys(delete))[k] + multiset(Keys(orphan))[k] <= 1 {
      AcceptedDistinct(history, k);
      PlacesPartition(entries);
    }
    forall e | e in delete ensures SafeIn(e, ToDelete) {
      PlacedSafe(history, ToDelete, e);
    }
    forall e | e in reconcile ensures SafeIn(e, ToReconcile) {
      PlacedSafe(history, ToReconcile, e);
    }
  }

  lemma PlacedSafe(history: seq<Registration>, place: Place, e: Entry)
    requires e in Placed(Accepted(history), place)
    ensures SafeIn(e, place)
  {
  }

  predicate SafeIn(e: Entry, place: Place) {
    && (e.options.readOnly ==>
        place == ToReconcile && !e.options.blockOnForeignController && !e.options.deleteOnlyIfOwned)
    && !(e.options.unowned && e.options.deleteOnlyIfOwned)
  }

  datatype BuildError =
    | NameMissing | ConditionTypeMissing | EmptyName | EmptyConditionType | NilResource | InvalidOptions(key: Key)
    | Duplicate(key: Key) | NilBuildFunction | NegativeGracePeriod | GateAlreadySet
    | DataFlowError(error: TopologyError)

  /** The lists and settings a successful Build hands over. */
  datatype Blueprint = Blueprint(
    conditionType: string, suspended: bool, gracePeriod: nat, gated: bool, prerequisites: nat,
    reconcile: seq<Entry>, delete: seq<Entry>, orphan: seq<Key>, cells: seq<Data>)

  class Builder {
    var name: string
    var conditionType: string
    var suspended: bool
    var gracePeriod: nat
    var prerequisites: nat
    var nameSupplied: bool
    var conditionTypeSupplied: bool
    var featureGateSupplied: bool
    var reconcileResources: seq<Entry>
    var deleteResources: seq<Entry>
    var orphanResources: seq<Key>
    var resourceLookup: set<Key>
    var dataCells: seq<Data>
    var buildErrors: seq<BuildError>
    ghost var history: seq<Registration>

    /** The lists are what the registrations so far mean, and every refused one left an error. */
    ghost predicate Valid()
      reads this
    {
      && reconcileResources == Placed(Accepted(history), ToReconcile)
      && deleteResources == Placed(Accepted(history), ToDelete)
      && orphanResources == Keys(Placed(Accepted(history), ToOrphan))
      && (forall k :: k in resourceLookup <==> k in Keys(Accepted(history)))
      && (buildErrors == [] ==> AllAccepted(history))
      && (buildErrors == [] ==> (nameSupplied ==> name != "") && (conditionTypeSupplied ==> conditionType != ""))
    }

    constructor ()
      ensures Valid() && history == [] && buildErrors == []
      ensures !nameSupplied && !conditionTypeSupplied && !featureGateSupplied && !suspended && gracePeriod == 0
      ensures prerequisites == 0
    {
      name, conditionType, suspended, gracePeriod, prerequisites := "", "", false, 0, 0;
      nameSupplied, conditionTypeSupplied, featureGateSupplied := false, false, false;
      reconcileResources, deleteResources, orphanResources, resourceLookup := [], [], [], {};
      dataCells, buildErrors, history := [], [], [];
    }

    method WithName(name: string)
      requires Valid()
      modifies this`name, this`nameSupplied, this`buildErrors
      ensures Valid() && nameSupplied && this.name == name
      ensures buildErrors == old(buildErrors) + if name == "" then [EmptyName] else []
    {
      nameSupplied := true;
      if name == "" {
        buildErrors := buildErrors + [EmptyName];
      }
      this.name := name;
    }

    method WithConditionType(conditionType: string)
      requires Valid()
      modifies this`conditionType, this`conditionTypeSupplied, this`buildErrors
      ensures Valid() && conditionTypeSupplied && this.conditionType == conditionType
      ensures buildErrors == old(buildErrors) + if conditionType == "" then [EmptyConditionType] else []
    {
      conditionTypeSupplied := true;
      if conditionType == "" {
        buildErrors := buildErrors + [EmptyConditionType];
      }
      this.conditionType := conditionType;
    }

    method WithGracePeriod(period: int)
      requires Valid()
      modifies this`gracePeriod, this`buildErrors
      ensures Valid()
      ensures gracePeriod == if period < 0 then old(gracePeriod) else period
      ensures buildErrors == old(buildErrors) + if period < 0 then [NegativeGracePeriod] else []
    {
      if period < 0 {
        buildErrors := buildErrors + [NegativeGracePeriod];
        return;
      }
      gracePeriod := period;
    }

    method WithFeatureGate(isNil: bool)
      requires Valid()
      modifies this`featureGateSupplied, this`buildErrors
      ensures Valid() && (featureGateSupplied <==> old(featureGateSupplied) || !isNil)
      ensures buildErrors == old(buildErrors) + if !isNil && old(featureGateSupplied) then [GateAlreadySet] else []
    {
      if isNil {
        return;
      }
      if featureGateSupplied {
        buildErrors := buildErrors + [GateAlreadySet];
        return;
      }
      featureGateSupplied := true;
    }

    method WithPrerequisite(isNil: bool)
      requires Valid()
      modifies this`prerequisites
      ensures Valid() && prerequisites == old(prerequisites) + if isNil then 0 else 1
    {
      if isNil {
        return;
      }
      prerequisites := prerequisites + 1;
    }

    method Suspend(suspend: bool)
      requires Valid()
      modifies this`suspended
      ensures Valid() && suspended == suspend
    {
      suspended := suspend;
    }

    /** Registers one resource. What the lists become is said by Valid over the extended history. */
    method WithResource(resource: Resource, opts: seq<ResourceOption>)
      requires Valid()
      modifies this`reconcileResources, this`deleteResources, this`orphanResources, this`resourceLookup,
          this`buildErrors, this`history
      ensures Valid() && history == old(history) + [Registration(resource, opts)]
      ensures buildErrors == old(buildErrors) <==> Accepted(history) != Accepted(old(history))
      ensures old(buildErrors) <= buildErrors
    {
      hide Placed, Accepted, Keys, Rejected, Meaning;
      ghost var r := Registration(resource, opts);
      ghost var entries := Accepted(history);
      AcceptedStep(history, r);
      AcceptedAtMost(history);
      history := history + [r];
      if resource.Nil? {
        buildErrors := buildErrors + [NilResource];
        return;
      }
      var options := ResolveResourceOptions(opts);
      if options == None {
        buildErrors := buildErrors + [InvalidOptions(resource.key)];
        return;
      }
      if resource.key in resourceLookup {
        buildErrors := buildErrors + [Duplicate(resource.key)];
        return;
      }
      resourceLookup := resourceLookup + {resource.key};
      var entry := Entry(resource.key, resource.content, resource.suspended, resource.ownable, options.value,
                         resource.consumes, resource.produces);
      KeysStep(entries, entry);
      PlacedStep(entries, entry, ToReconcile);
      PlacedStep(entries, entry, ToDelete);
      PlacedStep(entries, entry, ToOrphan);
      if options.value.orphan {
        KeysStep(Placed(entries, ToOrphan), entry);
        orphanResources := orphanResources + [resource.key];
      } else if options.value.delete {
        deleteResources := deleteResources + [entry];
      } else {
        reconcileResources := reconcileResources + [entry];
      }
    }

    /** IncludeWhen: a false condition registers nothing; None is a nil build function. */
    method IncludeWhen(wanted: bool, build: Option<() -> Resource>, opts: seq<ResourceOption>)
      requires Valid()
      modifies this`reconcileResources, this`deleteResources, this`orphanResources, this`resourceLookup,
          this`buildErrors, this`history
      ensures Valid()
      ensures !wanted ==> history == old(history) && buildErrors == old(buildErrors)
      ensures wanted && build == None ==> history == old(history) && buildErrors != old(buildErrors)
      ensures wanted && build.Some? ==> history == old(history) + [Registration(build.value(), opts)]
      ensures old(buildErrors) <= buildErrors
    {
      if !wanted {
        return;
      }
      if build == None {
        buildErrors := buildErrors + [NilBuildFunction];
        return;
      }
      WithResource(build.value(), opts);
    }

    /** Build succeeds exactly when no earlier call failed, name and condition type were supplied and the
        data flow is sound; then every registration is accounted for in exactly one of the lists. */
    method Build() returns (r: Option<Blueprint>)
      requires Valid()
      modifies this`buildErrors, this`dataCells
      ensures Valid() && old(buildErrors) <= buildErrors
      ensures r.Some? <==>
                old(buildErrors) == [] && nameSupplied && conditionTypeSupplied && TopologyOk(reconcileResources)
      ensures r.Some? ==>
                && r.value.reconcile == reconcileResources && r.value.delete == deleteResources
                && r.value.orphan == orphanResources
                && Sound(r.value) && name != "" && AllAccepted(history)
                && (forall q <- history ::
                      q.resource.Resource? && Honoured(q, r.value.reconcile, r.value.delete, r.value.orphan))
                && InOrder(history, r.value.reconcile) && InOrder(history, r.value.delete)
                && |history| == |reconcileResources| + |deleteResources| + |orphanResources|
                && r.value.conditionType == conditionType && r.value.suspended == suspended
                && r.value.gracePeriod == gracePeriod && r.value.gated == featureGateSupplied
                && r.value.prerequisites == prerequisites
    {
      hide Placed, Accepted, Keys, Partitioned, TopologyOk, FirstOccurrences, Declared, Honoured, Rejected,
           InOrder;
      if !nameSupplied {
        buildErrors := buildErrors + [NameMissing];
      }
      if !conditionTypeSupplied {
        buildErrors := buildErrors + [ConditionTypeMissing];
      }
      var cells, dataErrs := ValidateDataTopology(reconcileResources);
      buildErrors := buildErrors + seq(|dataErrs|, i requires 0 <= i < |dataErrs| => DataFlowError(dataErrs[i]));
      dataCells := cells;
      if buildErrors != [] {
        return None;
      }
      HistoryPartitions(history);
      PlacesPartition(Accepted(history));
      SumOfParts(Keys(Accepted(history)), Keys(reconcileResources), Keys(deleteResources), orphanResources);
      CellsCovered(reconcileResources);
      ListInOrder(history, ToReconcile);
      ListInOrder(history, ToDelete);
      AllHonoured(history);
      return Some(Blueprint(conditionType, suspended, gracePeriod, featureGateSupplied, prerequisites,
                            reconcileResources, deleteResources, orphanResources, dataCells));
    }
  }

  lemma SumOfParts(all: seq<Key>, a: seq<Key>, b: seq<Key>, c: seq<Key>)
    requires multiset(all) == multiset(a) + multiset(b) + multiset(c)
    ensures |all| == |a| + |b| + |c|
  {
    assert |multiset(all)| == |all|;
  }

  /** What every built component relies on. */
  ghost predicate Sound(b: Blueprint) {
    && b.conditionType != "" && Partitioned(b.reconcile, b.delete, b.orphan) && TopologyOk(b.reconcile)
    && forall c: Data? <- Declared(b.reconcile) :: c != null ==> c in b.cells
  }

  /** Clearing the produced cells clears every declared one: whatever is read has a producer. */
  lemma CellsCovered(entries: seq<Entry>)
    requires TopologyOk(entries)
    ensures forall c: Data? <- Declared(entries) :: c != null ==> c in FirstOccurrences(Produced(entries))
  {
    forall c: Data? | c in Declared(entries) && c != null ensures c in FirstOccurrences(Produced(entries)) {
      DeclaredIn(entries, c);
      OccurrencesExactly(Produced(entries), c);
    }
  }

  lemma {:induction false} DeclaredIn(entries: seq<Entry>, c: Data)
    requires ProducedEarlier(entries) && c in Declared(entries)
    ensures c in Produced(entries)
  {
    var n := |entries| - 1;
    assert entries[..n + 1] == entries;
    ProducedEarlierStep(entries, n);
    if c in Declared(entries[..n]) {
      DeclaredIn(entries[..n], c);
    }
  }
}
