/** The plan-and-apply mutator of the Deployment primitive (pkg/primitives/deployment/mutator.go), whose
    container phases the CronJob mutator factors into two functions (pkg/primitives/cronjob/mutator.go),
    and the mutation of one resource that drives it (pkg/generic/mutate_helper.go). */
module Mutators {
  import opened Options
  import opened Passes

  datatype EnvVar = EnvVar(name: string, value: string)
  datatype Container = Container(name: string, image: string, env: seq<EnvVar>, args: seq<string>)
  datatype PodSpec = PodSpec(serviceAccount: string, containers: seq<Container>, initContainers: seq<Container>)
  datatype Template = Template(meta: map<string, string>, pod: PodSpec)
  datatype Spec = Spec(replicas: Option<int>, paused: bool, template: Template)
  datatype Deployment = Deployment(meta: map<string, string>, spec: Spec)

  /** What an edit made of its target; a failed edit may have changed it all the same. */
  datatype Edited<T> = Edited(value: T, failed: bool)

  type Edit<!T> = T -> Edited<T>

  /** The selector sees the container's index and its snapshot. */
  datatype ContainerEdit = ContainerEdit(selects: (nat, Container) -> bool, edit: Edit<Container>)

  datatype PresenceOp = Ensure(container: Container) | Remove(name: string)
  {
    function Name(): string {
      if Ensure? then container.name else name
    }
  }

  datatype Plan = Plan(
    metadataEdits: seq<Edit<map<string, string>>>,
    specEdits: seq<Edit<Spec>>,
    templateEdits: seq<Edit<map<string, string>>>,
    podEdits: seq<Edit<PodSpec>>,
    presence: seq<PresenceOp>, containerEdits: seq<ContainerEdit>,
    initPresence: seq<PresenceOp>, initEdits: seq<ContainerEdit>)

  const NoPlan := Plan([], [], [], [], [], [], [], [])

  // Edits of one target

  /** The edits in order, up to and including the first that fails. */
  function RunEdits<T>(x: T, edits: seq<Edit<T>>): Edited<T> {
    if edits == [] then Edited(x, false)
    else
      var before := RunEdits(x, edits[..|edits| - 1]);
      if before.failed then before else edits[|edits| - 1](before.value)
  }

  lemma RunEditsPrefix<T>(x: T, edits: seq<Edit<T>>, n: nat)
    requires n <= |edits| && RunEdits(x, edits[..n]).failed
    ensures RunEdits(x, edits) == RunEdits(x, edits[..n])
  {
    if n < |edits| {
      assert edits[..|edits| - 1][..n] == edits[..n];
      RunEditsPrefix(x, edits[..|edits| - 1], n);
    } else {
      assert edits[..n] == edits;
    }
  }

  method ApplyEdits<T(!new)>(x: T, edits: seq<Edit<T>>) returns (r: Edited<T>)
    ensures r == RunEdits(x, edits)
  {
    r := Edited(x, false);
    for i := 0 to |edits|
      invariant r == RunEdits(x, edits[..i]) && !r.failed
    {
      assert edits[..i + 1][..i] == edits[..i];
      r := edits[i](r.value);
      if r.failed {
        RunEditsPrefix(x, edits, i + 1);
        return;
      }
    }
    assert edits[..|edits|] == edits;
  }

  /** The edits make a chain of values, each from the one before; only the last edit of the chain may have
      failed, and without a failure every edit is in it. */
  lemma {:induction false} EditsChain<T>(x: T, edits: seq<Edit<T>>) returns (values: seq<T>)
    ensures 0 < |values| <= |edits| + 1 && values[0] == x && values[|values| - 1] == RunEdits(x, edits).value
    ensures forall i :: 0 <= i < |values| - 1 ==> edits[i](values[i]).value == values[i + 1]
    ensures forall i :: 0 <= i < |values| - 2 ==> !edits[i](values[i]).failed
    ensures if RunEdits(x, edits).failed then |values| > 1 && edits[|values| - 2](values[|values| - 2]).failed
            else |values| == |edits| + 1 && (edits != [] ==> !edits[|edits| - 1](values[|edits| - 1]).failed)
  {
    if edits == [] {
      values := [x];
    } else {
      var n := |edits| - 1;
      values := EditsChain(x, edits[..n]);
      if !RunEdits(x, edits[..n]).failed {
        values := values + [edits[n](values[n]).value];
      }
    }
  }

  /** Edit k makes `holds` true, whatever it finds, and no later edit breaks it. */
  ghost predicate Establishes<T(!new)>(edits: seq<Edit<T>>, k: nat, holds: T -> bool) {
    && k < |edits| && (forall x :: holds(edits[k](x).value))
    && forall j, x | k < j < |edits| && holds(x) :: holds(edits[j](x).value)
  }

  lemma {:induction false} EstablishedStays<T(!new)>(x: T, edits: seq<Edit<T>>, k: nat, holds: T -> bool)
    requires Establishes(edits, k, holds) && !RunEdits(x, edits).failed
    ensures holds(RunEdits(x, edits).value)
  {
    var n := |edits| - 1;
    if k < n {
      assert Establishes(edits[..n], k, holds);
      EstablishedStays(x, edits[..n], k, holds);
    }
  }

  // Container presence

  function FirstNamed(containers: seq<Container>, name: string): (k: nat)
    ensures k <= |containers|
    ensures forall j :: 0 <= j < k ==> containers[j].name != name
    ensures k < |containers| ==> containers[k].name == name
  {
    if containers == [] || containers[0].name == name then 0 else 1 + FirstNamed(containers[1..], name)
  }

  function Present(containers: seq<Container>, op: PresenceOp): seq<Container> {
    var k := FirstNamed(containers, op.Name());
    match op
    case Remove(_) => if k < |containers| then containers[..k] + containers[k + 1..] else containers
    case Ensure(c) => if k < |containers| then containers[k := c] else containers + [c]
  }

  method ApplyPresenceOp(containers: seq<Container>, op: PresenceOp) returns (r: seq<Container>)
    ensures r == Present(containers, op)
  {
    var found := -1;
    for i := 0 to |containers|
      invariant found == -1 && forall j :: 0 <= j < i ==> containers[j].name != op.Name()
    {
      if containers[i].name == op.Name() {
        found := i;
        break;
      }
    }
    match op {
      case Remove(_) =>
        if found != -1 {
          return containers[..found] + containers[found + 1..];
        }
        return containers;
      case Ensure(c) =>
        if found != -1 {
          return containers[found := c];
        }
        return containers + [c];
    }
  }

  function PresentAll(containers: seq<Container>, ops: seq<PresenceOp>): seq<Container> {
    if ops == [] then containers else Present(PresentAll(containers, ops[..|ops| - 1]), ops[|ops| - 1])
  }

  method ApplyPresence(containers: seq<Container>, ops: seq<PresenceOp>) returns (r: seq<Container>)
    ensures r == PresentAll(containers, ops)
  {
    r := containers;
    for i := 0 to |ops|
      invariant r == PresentAll(containers, ops[..i])
    {
      assert ops[..i + 1][..i] == ops[..i];
      r := ApplyPresenceOp(r, ops[i]);
    }
    assert ops[..|ops|] == ops;
  }

  predicate UniqueNames(containers: seq<Container>) {
    forall i, j :: 0 <= i < j < |containers| ==> containers[i].name != containers[j].name
  }

  function ByName(containers: seq<Container>): map<string, Container> {
    if containers == [] then map[]
    else ByName(containers[..|containers| - 1])[containers[|containers| - 1].name := containers[|containers| - 1]]
  }

  /** On a list with unique names the map holds exactly the list's containers. */
  lemma {:induction false} ByNameExactly(containers: seq<Container>)
    requires UniqueNames(containers)
    ensures forall c :: c in containers <==> c.name in ByName(containers) && ByName(containers)[c.name] == c
    ensures forall n <- ByName(containers) :: ByName(containers)[n].name == n
  {
    if containers != [] {
      var init, last := containers[..|containers| - 1], containers[|containers| - 1];
      ByNameExactly(init);
      assert containers == init + [last];
      forall c ensures c in containers <==> c.name in ByName(containers) && ByName(containers)[c.name] == c {
        if c in init {
          var i :| 0 <= i < |init| && init[i] == c;
          assert containers[i].name != containers[|init|].name;
        }
      }
    }
  }

  lemma ByNameDetermined(containers: seq<Container>, m: map<string, Container>)
    requires UniqueNames(containers)
    requires forall c :: c in containers <==> c.name in m && m[c.name] == c
    requires forall n <- m :: m[n].name == n
    ensures ByName(containers) == m
  {
    ByNameExactly(containers);
    var found := ByName(containers);
    forall n ensures n in found <==> n in m {
      if n in found { assert found[n] in containers; }
      if n in m { assert m[n] in containers; }
    }
    forall n | n in found ensures found[n] == m[n] {
      assert found[n] in containers;
    }
  }

  /** On lists with unique names a presence operation is an update of the map from name to container. */
  function Updated(m: map<string, Container>, op: PresenceOp): map<string, Container> {
    match op
    case Ensure(c) => m[c.name := c]
    case Remove(n) => m - {n}
  }

  /** It keeps the names unique and every other container in its place in the order. */
  lemma PresenceRefinesMap(containers: seq<Container>, op: PresenceOp)
    requires UniqueNames(containers)
    ensures UniqueNames(Present(containers, op))
    ensures ByName(Present(containers, op)) == Updated(ByName(containers), op)
    ensures Others(Present(containers, op), op.Name()) == Others(containers, op.Name())
  {
    hide Present, ByName, UniqueNames, Others;
    var before, hit, after := Split(containers, op);
    var hit' := if op.Ensure? then [op.container] else [];
    SplitUnique(before, hit, after, hit', op.Name());
    OthersSplit(before, hit, after, op.Name());
    OthersSplit(before, hit', after, op.Name());
    ByNameExactly(containers);
    assert forall c :: c in containers && c.name != op.Name() <==> c in before + after;
    ByNameDetermined(Present(containers, op), Updated(ByName(containers), op));
  }

  lemma Split(containers: seq<Container>, op: PresenceOp)
    returns (before: seq<Container>, hit: seq<Container>, after: seq<Container>)
    requires UniqueNames(containers)
    ensures containers == before + hit + after && |hit| <= 1
    ensures Present(containers, op) == before + (if op.Ensure? then [op.container] else []) + after
    ensures forall c <- before + after :: c.name != op.Name()
    ensures forall c <- hit :: c.name == op.Name()
  {
    hide UniqueNames;
    var k := FirstNamed(containers, op.Name());
    before, hit, after := containers[..k], [], [];
    if k < |containers| {
      RestNamed(containers, k);
      hit, after := [containers[k]], containers[k + 1..];
    }
  }

  lemma RestNamed(containers: seq<Container>, k: nat)
    requires UniqueNames(containers) && k < |containers|
    ensures forall c <- containers[k + 1..] :: c.name != containers[k].name
  {
  }

  lemma SplitUnique(before: seq<Container>, hit: seq<Container>, after: seq<Container>, hit': seq<Container>,
                    name: string)
    requires UniqueNames(before + hit + after) && |hit'| <= 1
    requires forall c <- before + after :: c.name != name
    requires forall c <- hit' :: c.name == name
    ensures UniqueNames(before + hit' + after)
  {
    var all, r := before + hit + after, before + hit' + after;
    forall i, j | 0 <= i < j < |r| ensures r[i].name != r[j].name {
      var b, h, h' := |before|, |hit|, |hit'|;
      var i' := if i < b then i else i - h' + h;
      var j' := if j < b then j else j - h' + h;
      if (i < b || i >= b + h') && (j < b || j >= b + h') {
        assert r[i] == all[i'] && r[j] == all[j'];
      } else {
        assert r[i] in hit' || r[i] in before + after;
        assert r[j] in hit' || r[j] in before + after;
      }
    }
  }

  function Others(containers: seq<Container>, name: string): seq<Container> {
    if containers == [] then []
    else if containers[0].name == name then Others(containers[1..], name)
    else [containers[0]] + Others(containers[1..], name)
  }

  lemma OthersSplit(before: seq<Container>, hit: seq<Container>, after: seq<Container>, name: string)
    requires forall c <- before + after :: c.name != name
    requires forall c <- hit :: c.name == name
    ensures Others(before + hit + after, name) == before + after
  {
    hide Others;
    OthersConcat(before + hit, after, name);
    OthersConcat(before, hit, name);
    assert forall c <- before :: c in before + after;
    assert forall c <- after :: c in before + after;
    OthersOfOthers(before, name);
    OthersOfOthers(after, name);
    OthersOfNamed(hit, name);
  }

  lemma {:induction false} OthersConcat(a: seq<Container>, b: seq<Container>, name: string)
    ensures Others(a + b, name) == Others(a, name) + Others(b, name)
  {
    if a == [] {
      assert a + b == b;
    } else {
      assert (a + b)[1..] == a[1..] + b;
      OthersConcat(a[1..], b, name);
    }
  }

  lemma {:induction false} OthersOfOthers(a: seq<Container>, name: string)
    requires forall c <- a :: c.name != name
    ensures Others(a, name) == a
  {
    if a != [] {
      OthersOfOthers(a[1..], name);
    }
  }

  lemma {:induction false} OthersOfNamed(a: seq<Container>, name: string)
    requires forall c <- a :: c.name == name
    ensures Others(a, name) == []
  {
    if a != [] {
      OthersOfNamed(a[1..], name);
    }
  }

  // Container edits

  /** One container through the edits whose selector matches its snapshot, up to the first that fails. */
  function EditOne(c: Container, i: nat, snapshot: Container, edits: seq<ContainerEdit>): Edited<Container> {
    if edits == [] then Edited(c, false)
    else
      var before, last := EditOne(c, i, snapshot, edits[..|edits| - 1]), edits[|edits| - 1];
      if before.failed || !last.selects(i, snapshot) then before else last.edit(before.value)
  }

  /** The first n containers in order, each against its snapshot from before any edit; a failure stops
      the rest. */
  function EditFirst(containers: seq<Container>, edits: seq<ContainerEdit>, n: nat): (r: Edited<seq<Container>>)
    requires n <= |containers|
    ensures |r.value| == |containers|
    ensures !r.failed ==> forall i :: n <= i < |containers| ==> r.value[i] == containers[i]
  {
    if n == 0 then Edited(containers, false)
    else
      var before := EditFirst(containers, edits, n - 1);
      if before.failed then before
      else
        var c := EditOne(containers[n - 1], n - 1, containers[n - 1], edits);
        Edited(before.value[n - 1 := c.value], c.failed)
  }

  function EditAll(containers: seq<Container>, edits: seq<ContainerEdit>): Edited<seq<Container>> {
    EditFirst(containers, edits, |containers|)
  }

  lemma EditOnePrefix(c: Container, i: nat, snapshot: Container, edits: seq<ContainerEdit>, n: nat)
    requires n <= |edits| && EditOne(c, i, snapshot, edits[..n]).failed
    ensures EditOne(c, i, snapshot, edits) == EditOne(c, i, snapshot, edits[..n])
  {
    if n < |edits| {
      assert edits[..|edits| - 1][..n] == edits[..n];
      EditOnePrefix(c, i, snapshot, edits[..|edits| - 1], n);
    } else {
      assert edits[..n] == edits;
    }
  }

  lemma EditFirstPrefix(containers: seq<Container>, edits: seq<ContainerEdit>, m: nat, n: nat)
    requires m <= n <= |containers| && EditFirst(containers, edits, m).failed
    ensures EditFirst(containers, edits, n) == EditFirst(containers, edits, m)
  {
  }

  method ApplyContainerEdits(containers: seq<Container>, edits: seq<ContainerEdit>) returns (r: Edited<seq<Container>>)
    ensures r == EditAll(containers, edits)
  {
    var snapshots := containers;
    r := Edited(containers, false);
    for i := 0 to |containers|
      invariant r == EditFirst(containers, edits, i) && !r.failed
    {
      var c := containers[i];
      for k := 0 to |edits|
        invariant Edited(c, false) == EditOne(containers[i], i, snapshots[i], edits[..k])
        invariant r == EditFirst(containers, edits, i) && !r.failed
      {
        assert edits[..k + 1][..k] == edits[..k];
        if edits[k].selects(i, snapshots[i]) {
          var e := edits[k].edit(c);
          c := e.value;
          if e.failed {
            EditOnePrefix(containers[i], i, snapshots[i], edits, k + 1);
            EditFirstPrefix(containers, edits, i + 1, |containers|);
            return Edited(r.value[i := c], true);
          }
        }
      }
      assert edits[..|edits|] == edits;
      r := Edited(r.value[i := c], false);
    }
  }

  // Snapshot selection

  /** One edit applied to every container whose snapshot it selects. */
  function EditRound(containers: seq<Container>, snapshots: seq<Container>,
                     e: ContainerEdit): (r: Edited<seq<Container>>)
    requires |containers| == |snapshots|
    ensures |r.value| == |containers|
  {
    Edited(
      seq(|containers|, i requires 0 <= i < |containers| =>
        if e.selects(i, snapshots[i]) then e.edit(containers[i]).value else containers[i]),
      exists i :: 0 <= i < |containers| && e.selects(i, snapshots[i]) && e.edit(containers[i]).failed)
  }

  /** The other loop order: edit by edit, each over all containers, selecting on the snapshots. */
  function EditByEdit(containers: seq<Container>, edits: seq<ContainerEdit>): (r: Edited<seq<Container>>)
    ensures |r.value| == |containers|
  {
    if edits == [] then Edited(containers, false)
    else
      var before := EditByEdit(containers, edits[..|edits| - 1]);
      if before.failed then before else EditRound(before.value, containers, edits[|edits| - 1])
  }

  /** Every container goes through its own selected edits, whatever the others go through. */
  lemma {:induction false} EditFirstPointwise(containers: seq<Container>, edits: seq<ContainerEdit>, n: nat)
    requires n <= |containers|
    ensures var r := EditFirst(containers, edits, n);
            && (r.failed <==> exists i :: 0 <= i < n && EditOne(containers[i], i, containers[i], edits).failed)
            && (!r.failed ==> forall i ::
                 0 <= i < n ==> r.value[i] == EditOne(containers[i], i, containers[i], edits).value)
  {
    if n > 0 {
      EditFirstPointwise(containers, edits, n - 1);
    }
  }

  lemma {:induction false} EditByEditPointwise(containers: seq<Container>, edits: seq<ContainerEdit>)
    ensures var r := EditByEdit(containers, edits);
            && (r.failed <==>
                 exists i :: 0 <= i < |containers| && EditOne(containers[i], i, containers[i], edits).failed)
            && (!r.failed ==> forall i :: 0 <= i < |containers| ==>
                 r.value[i] == EditOne(containers[i], i, containers[i], edits).value)
  {
    if edits != [] {
      var init, last := edits[..|edits| - 1], edits[|edits| - 1];
      EditByEditPointwise(containers, init);
      var before := EditByEdit(containers, init);
      if !before.failed {
        forall i | 0 <= i < |containers|
          ensures EditOne(containers[i], i, containers[i], edits) ==
                  if last.selects(i, containers[i]) then last.edit(before.value[i]) else Edited(before.value[i], false)
        {
          assert !EditOne(containers[i], i, containers[i], init).failed;
        }
      }
    }
  }

  /** Selection on snapshots makes the loop order irrelevant: container by container fails exactly when
      edit by edit does, and otherwise both leave the same containers. What an earlier edit of the feature
      does to a container, a rename included, never decides which later edits select it. */
  lemma LoopOrderIrrelevant(containers: seq<Container>, edits: seq<ContainerEdit>)
    ensures EditAll(containers, edits).failed <==> EditByEdit(containers, edits).failed
    ensures !EditAll(containers, edits).failed ==> EditAll(containers, edits) == EditByEdit(containers, edits)
  {
    EditFirstPointwise(containers, edits, |containers|);
    EditByEditPointwise(containers, edits);
    if !EditAll(containers, edits).failed {
      assert EditAll(containers, edits).value == EditByEdit(containers, edits).value;
    }
  }

  // Plans

  function OnMetadata(d: Deployment, plan: Plan): Edited<Deployment> {
    var r := RunEdits(d.meta, plan.metadataEdits);
    Edited(d.(meta := r.value), r.failed)
  }

  function OnSpec(d: Deployment, plan: Plan): Edited<Deployment> {
    var r := RunEdits(d.spec, plan.specEdits);
    Edited(d.(spec := r.value), r.failed)
  }

  function OnTemplate(d: Deployment, plan: Plan): Edited<Deployment> {
    var r := RunEdits(d.spec.template.meta, plan.templateEdits);
    Edited(d.(spec := d.spec.(template := d.spec.template.(meta := r.value))), r.failed)
  }

  function WithPod(d: Deployment, pod: PodSpec): Deployment {
    d.(spec := d.spec.(template := d.spec.template.(pod := pod)))
  }

  function OnPod(d: Deployment, plan: Plan): Edited<Deployment> {
    var r := RunEdits(d.spec.template.pod, plan.podEdits);
    Edited(WithPod(d, r.value), r.failed)
  }

  function OnContainers(d: Deployment, plan: Plan): Edited<Deployment> {
    var pod := d.spec.template.pod;
    var r := EditAll(PresentAll(pod.containers, plan.presence), plan.containerEdits);
    Edited(WithPod(d, pod.(containers := r.value)), r.failed)
  }

  function OnInitContainers(d: Deployment, plan: Plan): Edited<Deployment> {
    var pod := d.spec.template.pod;
    var r := EditAll(PresentAll(pod.initContainers, plan.initPresence), plan.initEdits);
    Edited(WithPod(d, pod.(initContainers := r.value)), r.failed)
  }

  /** The eight categories of one feature, in their fixed order, up to the first failure. */
  function ApplyPlan(d: Deployment, plan: Plan): Edited<Deployment> {
    var a := OnMetadata(d, plan);
    if a.failed then a else
    var b := OnSpec(a.value, plan);
    if b.failed then b else
    var c := OnTemplate(b.value, plan);
    if c.failed then c else
    var e := OnPod(c.value, plan);
    if e.failed then e else
    var f := OnContainers(e.value, plan);
    if f.failed then f else OnInitContainers(f.value, plan)
  }

  function ApplyPlans(d: Deployment, plans: seq<Plan>): Edited<Deployment> {
    if plans == [] then Edited(d, false)
    else
      var before := ApplyPlans(d, plans[..|plans| - 1]);
      if before.failed then before else ApplyPlan(before.value, plans[|plans| - 1])
  }

  lemma ApplyPlansPrefix(d: Deployment, plans: seq<Plan>, n: nat)
    requires n <= |plans| && ApplyPlans(d, plans[..n]).failed
    ensures ApplyPlans(d, plans) == ApplyPlans(d, plans[..n])
  {
    if n < |plans| {
      assert plans[..|plans| - 1][..n] == plans[..n];
      ApplyPlansPrefix(d, plans[..|plans| - 1], n);
    } else {
      assert plans[..n] == plans;
    }
  }

  /** One call of a recorder. A nil selector or edit (None) is ignored. */
  datatype Recording =
    | OfMetadata(metaEdit: Edit<map<string, string>>)
    | OfSpec(specEdit: Edit<Spec>)
    | OfTemplate(templateEdit: Edit<map<string, string>>)
    | OfPod(podEdit: Edit<PodSpec>)
    | OfPresence(op: PresenceOp)
    | OfContainers(edit: Option<ContainerEdit>)
    | OfInitPresence(initOp: PresenceOp)
    | OfInitContainers(initEdit: Option<ContainerEdit>)

  function Recorded(plan: Plan, r: Recording): Plan {
    match r
    case OfMetadata(e) => plan.(metadataEdits := plan.metadataEdits + [e])
    case OfSpec(e) => plan.(specEdits := plan.specEdits + [e])
    case OfTemplate(e) => plan.(templateEdits := plan.templateEdits + [e])
    case OfPod(e) => plan.(podEdits := plan.podEdits + [e])
    case OfPresence(op) => plan.(presence := plan.presence + [op])
    case OfContainers(e) => if e == None then plan else plan.(containerEdits := plan.containerEdits + [e.value])
    case OfInitPresence(op) => plan.(initPresence := plan.initPresence + [op])
    case OfInitContainers(e) => if e == None then plan else plan.(initEdits := plan.initEdits + [e.value])
  }

  function RecordedAll(plan: Plan, calls: seq<Recording>): Plan {
    if calls == [] then plan else Recorded(RecordedAll(plan, calls[..|calls| - 1]), calls[|calls| - 1])
  }

  class Mutator {
    var current: Deployment
    var plans: seq<Plan>      // the last one is active

    predicate Valid()
      reads this
    {
      plans != []
    }

    constructor (current: Deployment)
      ensures Valid() && this.current == current && plans == [NoPlan]
    {
      this.current, plans := current, [NoPlan];
    }

    method NextFeature()
      modifies this`plans
      ensures Valid() && plans == old(plans) + [NoPlan]
    {
      plans := plans + [NoPlan];
    }

    method Record(r: Recording)
      requires Valid()
      modifies this`plans
      ensures plans == old(plans)[|old(plans)| - 1 := Recorded(old(plans)[|old(plans)| - 1], r)]
    {
      var active := plans[|plans| - 1];
      match r {
        case OfMetadata(e) => active := active.(metadataEdits := active.metadataEdits + [e]);
        case OfSpec(e) => active := active.(specEdits := active.specEdits + [e]);
        case OfTemplate(e) => active := active.(templateEdits := active.templateEdits + [e]);
        case OfPod(e) => active := active.(podEdits := active.podEdits + [e]);
        case OfPresence(op) => active := active.(presence := active.presence + [op]);
        case OfContainers(e) =>
          if e.Some? {
            active := active.(containerEdits := active.containerEdits + [e.value]);
          }
        case OfInitPresence(op) => active := active.(initPresence := active.initPresence + [op]);
        case OfInitContainers(e) =>
          if e.Some? {
            active := active.(initEdits := active.initEdits + [e.value]);
          }
      }
      plans := plans[|plans| - 1 := active];
    }

    method EnsureReplicas(replicas: int)
      requires Valid()
      modifies this`plans
      ensures plans == old(plans)[|old(plans)| - 1 := Recorded(old(plans)[|old(plans)| - 1], SetReplicas(replicas))]
    {
      Record(SetReplicas(replicas));
    }

    /** Runs every plan, in order, on the current object; the plans stay recorded. */
    method Apply() returns (ok: bool)
      modifies this`current
      ensures Edited(current, !ok) == ApplyPlans(old(current), plans)
    {
      hide EditAll, PresentAll, RunEdits;
      for i := 0 to |plans|
        invariant Edited(current, false) == ApplyPlans(old(current), plans[..i])
      {
        assert plans[..i + 1][..i] == plans[..i];
        ok := ApplyOne(plans[i]);
        if !ok {
          ApplyPlansPrefix(old(current), plans, i + 1);
          return;
        }
      }
      assert plans[..|plans|] == plans;
      return true;
    }

    method ApplyOne(plan: Plan) returns (ok: bool)
      modifies this`current
      ensures Edited(current, !ok) == ApplyPlan(old(current), plan)
    {
      hide EditAll, PresentAll, RunEdits;
      var metadata := ApplyEdits(current.meta, plan.metadataEdits);
      current := current.(meta := metadata.value);
      if metadata.failed { return false; }

      var spec := ApplyEdits(current.spec, plan.specEdits);
      current := current.(spec := spec.value);
      if spec.failed { return false; }

      var template := ApplyEdits(current.spec.template.meta, plan.templateEdits);
      current := current.(spec := current.spec.(template := current.spec.template.(meta := template.value)));
      if template.failed { return false; }

      var pod := ApplyEdits(current.spec.template.pod, plan.podEdits);
      current := WithPod(current, pod.value);
      if pod.failed { return false; }

      var containers := ApplyPresence(current.spec.template.pod.containers, plan.presence);
      var edited := ApplyContainerEdits(containers, plan.containerEdits);
      current := WithPod(current, current.spec.template.pod.(containers := edited.value));
      if edited.failed { return false; }

      containers := ApplyPresence(current.spec.template.pod.initContainers, plan.initPresence);
      edited := ApplyContainerEdits(containers, plan.initEdits);
      current := WithPod(current, current.spec.template.pod.(initContainers := edited.value));
      return !edited.failed;
    }
  }

  function SetReplicas(replicas: int): Recording {
    OfSpec((s: Spec) => Edited(s.(replicas := Some(replicas)), false))
  }

  // ApplyMutations

  /** What a mutation's function records, and whether it then fails. */
  datatype Handler = Handler(calls: seq<Recording>, fails: bool)

  /** None is a nil function, which is an error once the gate lets the mutation through. */
  datatype Mutation = Mutation(gate: GateOutcome, handler: Option<Handler>)
  {
    predicate Fails() {
      gate == GateFailed || (gate != GateDisabled && (handler == None || handler.value.fails))
    }
    function PlanOf(): Plan {
      if gate == GateDisabled || handler == None then NoPlan else RecordedAll(NoPlan, handler.value.calls)
    }
  }

  /** One plan per mutation. */
  function PlansOf(mutations: seq<Mutation>): (plans: seq<Plan>)
    ensures |plans| == |mutations|
  {
    seq(|mutations|, i requires 0 <= i < |mutations| => mutations[i].PlanOf())
  }

  predicate SomeFails(mutations: seq<Mutation>) {
    exists i :: 0 <= i < |mutations| && mutations[i].Fails()
  }

  /** All plans run once; with a suspender they run a second time, its own plan last. */
  function Mutated(d: Deployment, mutations: seq<Mutation>, suspender: Option<Handler>): Option<Deployment> {
    var plans := PlansOf(mutations);
    var once := ApplyPlans(d, plans + [NoPlan]);
    if SomeFails(mutations) || once.failed then None
    else if suspender == None then Some(once.value)
    else if suspender.value.fails then None
    else
      var twice := ApplyPlans(once.value, plans + [RecordedAll(NoPlan, suspender.value.calls)]);
      if twice.failed then None else Some(twice.value)
  }

  method RecordAll(mutator: Mutator, calls: seq<Recording>)
    requires mutator.Valid()
    modifies mutator`plans
    ensures mutator.plans ==
              old(mutator.plans)[..|old(mutator.plans)| - 1]
              + [RecordedAll(old(mutator.plans)[|old(mutator.plans)| - 1], calls)]
  {
    ghost var n := |mutator.plans| - 1;
    for i := 0 to |calls|
      invariant mutator.plans == old(mutator.plans)[..n] + [RecordedAll(old(mutator.plans)[n], calls[..i])]
    {
      assert calls[..i + 1][..i] == calls[..i];
      mutator.Record(calls[i]);
    }
    assert calls[..|calls|] == calls;
  }

  method ApplyIntent(mutator: Mutator, m: Mutation) returns (ok: bool)
    requires mutator.Valid()
    modifies mutator`plans
    ensures ok <==> !m.Fails()
    ensures ok && old(mutator.plans)[|old(mutator.plans)| - 1] == NoPlan ==>
              mutator.plans == old(mutator.plans)[..|old(mutator.plans)| - 1] + [m.PlanOf()]
  {
    if m.gate == GateFailed {
      return false;
    }
    if m.gate == GateDisabled {
      return true;
    }
    if m.handler == None {
      return false;
    }
    RecordAll(mutator, m.handler.value.calls);
    return !m.handler.value.fails;
  }

  /** Records every mutation in a feature scope of its own. */
  method RecordMutations(mutator: Mutator, mutations: seq<Mutation>) returns (ok: bool)
    requires mutator.plans == [NoPlan]
    modifies mutator`plans
    ensures ok <==> !SomeFails(mutations)
    ensures ok ==> mutator.plans == PlansOf(mutations) + [NoPlan]
  {
    hide Mutation.Fails, Mutation.PlanOf;
    for i := 0 to |mutations|
      invariant mutator.plans == PlansOf(mutations)[..i] + [NoPlan]
      invariant forall j :: 0 <= j < i ==> !mutations[j].Fails()
    {
      ok := ApplyIntent(mutator, mutations[i]);
      if !ok {
        return false;
      }
      assert PlansOf(mutations)[..i + 1] == PlansOf(mutations)[..i] + [mutations[i].PlanOf()];
      mutator.NextFeature();
    }
    return true;
  }

  method ApplyMutations(current: Deployment, mutations: seq<Mutation>, suspender: Option<Handler>)
    returns (r: Option<Deployment>)
    ensures r == Mutated(current, mutations, suspender)
  {
    hide ApplyPlans, RecordedAll, PlansOf, SomeFails;
    var mutator := new Mutator(current);
    var ok := RecordMutations(mutator, mutations);
    if !ok {
      return None;
    }
    ok := mutator.Apply();
    if !ok {
      return None;
    }
    if suspender.Some? {
      RecordAll(mutator, suspender.value.calls);
      if suspender.value.fails {
        return None;
      }
      ok := mutator.Apply();
      if !ok {
        return None;
      }
    }
    return Some(mutator.current);
  }

  /** DefaultSuspendMutationHandler. */
  function DefaultSuspender(): Handler {
    Handler([SetReplicas(0)], false)
  }

  /** Whatever the mutations do, a Deployment suspended by default ends with zero replicas, and the
      suspension fails only where a mutation or one of the two runs of their plans does. */
  lemma SuspendedHasNoReplicas(d: Deployment, mutations: seq<Mutation>)
    ensures var r := Mutated(d, mutations, Some(DefaultSuspender()));
            var once := ApplyPlans(d, PlansOf(mutations));
            && (r.Some? ==> r.value.spec.replicas == Some(0))
            && (r == None <==> SomeFails(mutations) || once.failed || ApplyPlans(once.value, PlansOf(mutations)).failed)
  {
    var plans, calls := PlansOf(mutations), [SetReplicas(0)];
    assert calls[..0] == [];
    var suspension := RecordedAll(NoPlan, calls);
    assert suspension == NoPlan.(specEdits := [SetReplicas(0).specEdit]);
    OnePlanMore(d, plans, NoPlan);
    var once := ApplyPlans(d, plans);
    if !once.failed {
      NoPlanKeeps(once.value);
      OnePlanMore(once.value, plans, suspension);
      var again := ApplyPlans(once.value, plans);
      if !again.failed {
        SpecOnly(again.value, SetReplicas(0).specEdit);
      }
    }
  }

  lemma OnePlanMore(d: Deployment, plans: seq<Plan>, plan: Plan)
    ensures ApplyPlans(d, plans + [plan]) ==
            var before := ApplyPlans(d, plans); if before.failed then before else ApplyPlan(before.value, plan)
  {
  }

  lemma {:induction false} NoEdits(containers: seq<Container>, n: nat)
    requires n <= |containers|
    ensures EditFirst(containers, [], n) == Edited(containers, false)
  {
    if n > 0 {
      NoEdits(containers, n - 1);
      assert containers[n - 1 := containers[n - 1]] == containers;
    }
  }

  lemma NoPlanKeeps(d: Deployment)
    ensures ApplyPlan(d, NoPlan) == Edited(d, false)
  {
    NoEdits(d.spec.template.pod.containers, |d.spec.template.pod.containers|);
    NoEdits(d.spec.template.pod.initContainers, |d.spec.template.pod.initContainers|);
  }

  /** The mutations whose gate is not disabled. */
  function Enabled(mutations: seq<Mutation>): seq<Mutation> {
    if mutations == [] then []
    else
      var init, last := Enabled(mutations[..|mutations| - 1]), mutations[|mutations| - 1];
      if last.gate == GateDisabled then init else init + [last]
  }

  lemma OneMutationMore(mutations: seq<Mutation>, m: Mutation)
    ensures PlansOf(mutations + [m]) == PlansOf(mutations) + [m.PlanOf()]
    ensures SomeFails(mutations + [m]) <==> SomeFails(mutations) || m.Fails()
  {
    var more := mutations + [m];
    assert more[|mutations|] == m && forall i :: 0 <= i < |mutations| ==> more[i] == mutations[i];
  }

  lemma {:induction false} EnabledSame(d: Deployment, mutations: seq<Mutation>)
    ensures ApplyPlans(d, PlansOf(mutations)) == ApplyPlans(d, PlansOf(Enabled(mutations)))
    ensures SomeFails(mutations) <==> SomeFails(Enabled(mutations))
  {
    if mutations != [] {
      hide ApplyPlans, ApplyPlan, PlansOf, SomeFails, RecordedAll;
      var n := |mutations| - 1;
      var init, last := mutations[..n], mutations[n];
      assert mutations == init + [last];
      EnabledSame(d, init);
      OneMutationMore(init, last);
      OneMutationMore(Enabled(init), last);
      OnePlanMore(d, PlansOf(init), last.PlanOf());
      OnePlanMore(d, PlansOf(Enabled(init)), last.PlanOf());
      NoPlanKeeps(ApplyPlans(d, PlansOf(init)).value);
    }
  }

  /** A mutation whose gate is disabled is as if it had never been registered, in a suspension too. */
  lemma DisabledLeavesNoTrace(d: Deployment, mutations: seq<Mutation>, suspender: Option<Handler>)
    ensures Mutated(d, mutations, suspender) == Mutated(d, Enabled(mutations), suspender)
  {
    hide ApplyPlans, ApplyPlan, PlansOf, SomeFails, RecordedAll, Enabled;
    var plans, enabled := PlansOf(mutations), PlansOf(Enabled(mutations));
    EnabledSame(d, mutations);
    OnePlanMore(d, plans, NoPlan);
    OnePlanMore(d, enabled, NoPlan);
    if suspender.Some? {
      var once, last := ApplyPlans(d, plans + [NoPlan]), RecordedAll(NoPlan, suspender.value.calls);
      EnabledSame(once.value, mutations);
      OnePlanMore(once.value, plans, last);
      OnePlanMore(once.value, enabled, last);
    }
  }

  lemma SpecOnly(d: Deployment, edit: Edit<Spec>)
    requires !edit(d.spec).failed
    ensures ApplyPlan(d, NoPlan.(specEdits := [edit])) == Edited(d.(spec := edit(d.spec).value), false)
  {
    var edits := [edit];
    assert edits[..0] == [];
    assert RunEdits(d.spec, edits) == edit(d.spec);
    var spec := edit(d.spec).value;
    NoEdits(spec.template.pod.containers, |spec.template.pod.containers|);
    NoEdits(spec.template.pod.initContainers, |spec.template.pod.initContainers|);
  }

  // What the order of categories means

  /** Operation k ensures the container and no later one is about its name. */
  predicate EnsuredAt(presence: seq<PresenceOp>, k: nat, c: Container) {
    k < |presence| && presence[k] == Ensure(c) && forall j :: k < j < |presence| ==> presence[j].Name() != c.name
  }

  /** A container that a feature ensures is there for the container edits of the same feature, whatever
      its edits of the spec and of the pod do to the lists before. */
  lemma EnsuredThenEdited(d: Deployment, plan: Plan, k: nat, c: Container)
    requires !ApplyPlan(d, plan).failed && EnsuredAt(plan.presence, k, c)
    ensures var containers := ApplyPlan(d, plan).value.spec.template.pod.containers;
            exists i :: 0 <= i < |containers| && containers[i] == EditOne(c, i, c, plan.containerEdits).value
  {
    hide RunEdits, EditFirst, EditOne, EnsuredAt;
    var e := OnPod(OnTemplate(OnSpec(OnMetadata(d, plan).value, plan).value, plan).value, plan).value;
    EnsuredInList(e.spec.template.pod.containers, plan.presence, plan.containerEdits, k, c);
  }

  lemma EnsuredInitThenEdited(d: Deployment, plan: Plan, k: nat, c: Container)
    requires !ApplyPlan(d, plan).failed && EnsuredAt(plan.initPresence, k, c)
    ensures var containers := ApplyPlan(d, plan).value.spec.template.pod.initContainers;
            exists i :: 0 <= i < |containers| && containers[i] == EditOne(c, i, c, plan.initEdits).value
  {
    hide RunEdits, EditFirst, EditOne, EnsuredAt;
    var e := OnPod(OnTemplate(OnSpec(OnMetadata(d, plan).value, plan).value, plan).value, plan).value;
    var f := OnContainers(e, plan).value;
    EnsuredInList(f.spec.template.pod.initContainers, plan.initPresence, plan.initEdits, k, c);
  }

  lemma EnsuredInList(containers: seq<Container>, presence: seq<PresenceOp>, edits: seq<ContainerEdit>, k: nat,
                      c: Container)
    requires EnsuredAt(presence, k, c) && !EditAll(PresentAll(containers, presence), edits).failed
    ensures var r := EditAll(PresentAll(containers, presence), edits).value;
            exists i :: 0 <= i < |r| && r[i] == EditOne(c, i, c, edits).value
  {
    hide EditOne;
    var list := PresentAll(containers, presence);
    EnsuredRemains(containers, presence, k, c);
    var i := FirstNamed(list, c.name);
    EditFirstPointwise(list, edits, |list|);
    assert EditAll(list, edits).value[i] == EditOne(c, i, c, edits).value;
  }

  /** The container stands at the first place of its name. */
  predicate Leads(containers: seq<Container>, c: Container) {
    var i := FirstNamed(containers, c.name); i < |containers| && containers[i] == c
  }

  lemma {:induction false} EnsuredRemains(containers: seq<Container>, presence: seq<PresenceOp>, k: nat, c: Container)
    requires EnsuredAt(presence, k, c)
    ensures Leads(PresentAll(containers, presence), c)
  {
    hide Present;
    var n := |presence| - 1;
    var before := PresentAll(containers, presence[..n]);
    if k < n {
      EnsuredRemains(containers, presence[..n], k, c);
      OthersLeaveLead(before, presence[n], c);
    } else {
      EnsureLeads(before, c);
    }
  }

  lemma EnsureLeads(containers: seq<Container>, c: Container)
    ensures Leads(Present(containers, Ensure(c)), c)
  {
    var k, r := FirstNamed(containers, c.name), Present(containers, Ensure(c));
    FirstNamedIs(r, c.name, k);
  }

  lemma {:induction false} FirstNamedIs(containers: seq<Container>, name: string, k: nat)
    requires k < |containers| && containers[k].name == name && forall j :: 0 <= j < k ==> containers[j].name != name
    ensures FirstNamed(containers, name) == k
  {
    if k > 0 {
      FirstNamedIs(containers[1..], name, k - 1);
    }
  }

  lemma OthersLeaveLead(containers: seq<Container>, op: PresenceOp, c: Container)
    requires Leads(containers, c) && op.Name() != c.name
    ensures Leads(Present(containers, op), c)
  {
    var i, k, r := FirstNamed(containers, c.name), FirstNamed(containers, op.Name()), Present(containers, op);
    FirstNamedIs(r, c.name, if op.Remove? && k < i then i - 1 else i);
  }

  /** What one feature comes to, category by category, without the steps in between: the edits of the object's
      metadata and of its spec work on what the feature finds; those of the template and of the pod on what
      the spec edits left; the containers on what the pod edits left. */
  lemma PlanExactly(d: Deployment, plan: Plan)
    ensures var meta, spec := RunEdits(d.meta, plan.metadataEdits), RunEdits(d.spec, plan.specEdits);
            var template := RunEdits(spec.value.template.meta, plan.templateEdits);
            var pod := RunEdits(spec.value.template.pod, plan.podEdits);
            var containers := EditAll(PresentAll(pod.value.containers, plan.presence), plan.containerEdits);
            var initial := EditAll(PresentAll(pod.value.initContainers, plan.initPresence), plan.initEdits);
            var r := ApplyPlan(d, plan);
            && (r.failed <==>
                meta.failed || spec.failed || template.failed || pod.failed || containers.failed || initial.failed)
            && (!r.failed ==>
                r.value ==
                Deployment(meta.value,
                           Spec(spec.value.replicas, spec.value.paused,
                                Template(template.value,
                                         pod.value.(containers := containers.value, initContainers := initial.value)))))
  {
    hide RunEdits, EditAll, PresentAll;
  }

  /** A feature whose metadata edits establish something leaves it in the object's metadata. */
  lemma MetadataLands(d: Deployment, plan: Plan, k: nat, holds: map<string, string> -> bool)
    requires !ApplyPlan(d, plan).failed && Establishes(plan.metadataEdits, k, holds)
    ensures holds(ApplyPlan(d, plan).value.meta)
  {
    PlanExactly(d, plan);
    EstablishedStays(d.meta, plan.metadataEdits, k, holds);
  }

  /** What its spec edits establish of the replicas and the pause stays, whatever its other edits do. */
  lemma SpecLands(d: Deployment, plan: Plan, k: nat, holds: Spec -> bool)
    requires !ApplyPlan(d, plan).failed && Establishes(plan.specEdits, k, holds)
    requires forall s, t | holds(s) :: holds(s.(template := t))
    ensures holds(ApplyPlan(d, plan).value.spec)
  {
    hide RunEdits, EditAll, PresentAll;
    PlanExactly(d, plan);
    EstablishedStays(d.spec, plan.specEdits, k, holds);
    var spec, final := RunEdits(d.spec, plan.specEdits).value, ApplyPlan(d, plan).value.spec;
    assert final == spec.(template := final.template);
  }

  /** What its template edits establish stands in the template's metadata, whatever the feature's spec edits did
      to the template. */
  lemma TemplateLands(d: Deployment, plan: Plan, k: nat, holds: map<string, string> -> bool)
    requires !ApplyPlan(d, plan).failed && Establishes(plan.templateEdits, k, holds)
    ensures holds(ApplyPlan(d, plan).value.spec.template.meta)
  {
    PlanExactly(d, plan);
    EstablishedStays(RunEdits(d.spec, plan.specEdits).value.template.meta, plan.templateEdits, k, holds);
  }

  /** What its pod edits establish outside the lists of containers stays, whatever spec and template edits did. */
  lemma PodLands(d: Deployment, plan: Plan, k: nat, holds: PodSpec -> bool)
    requires !ApplyPlan(d, plan).failed && Establishes(plan.podEdits, k, holds)
    requires forall p, a, b | holds(p) :: holds(p.(containers := a, initContainers := b))
    ensures holds(ApplyPlan(d, plan).value.spec.template.pod)
  {
    hide RunEdits, EditAll, PresentAll;
    PlanExactly(d, plan);
    var found := RunEdits(d.spec, plan.specEdits).value.template.pod;
    EstablishedStays(found, plan.podEdits, k, holds);
    var left, final := RunEdits(found, plan.podEdits).value, ApplyPlan(d, plan).value.spec.template.pod;
    assert final == left.(containers := final.containers, initContainers := final.initContainers);
  }

  /** A feature sees the object as the features before it left it, and what it establishes is there at the end
      unless a later feature breaks it: the features in order, none skipped. */
  lemma {:induction false} FeatureLands(d: Deployment, plans: seq<Plan>, k: nat, holds: Deployment -> bool)
    requires k < |plans| && !ApplyPlans(d, plans).failed
    requires forall e :: !ApplyPlan(e, plans[k]).failed ==> holds(ApplyPlan(e, plans[k]).value)
    requires forall j, e | k < j < |plans| && holds(e) :: !ApplyPlan(e, plans[j]).failed ==>
               holds(ApplyPlan(e, plans[j]).value)
    ensures holds(ApplyPlans(d, plans).value)
  {
    hide ApplyPlan;
    var n := |plans| - 1;
    if k < n {
      FeatureLands(d, plans[..n], k, holds);
    }
  }

  /** The features make a chain of objects, each from the one before; only the last feature of the chain may have
      failed, and without a failure every feature is in it. */
  lemma {:induction false} FeaturesChain(d: Deployment, plans: seq<Plan>) returns (objects: seq<Deployment>)
    ensures 0 < |objects| <= |plans| + 1 && objects[0] == d
    ensures objects[|objects| - 1] == ApplyPlans(d, plans).value
    ensures forall i :: 0 <= i < |objects| - 1 ==> ApplyPlan(objects[i], plans[i]).value == objects[i + 1]
    ensures forall i :: 0 <= i < |objects| - 2 ==> !ApplyPlan(objects[i], plans[i]).failed
    ensures if ApplyPlans(d, plans).failed
            then |objects| > 1 && ApplyPlan(objects[|objects| - 2], plans[|objects| - 2]).failed
            else
              && |objects| == |plans| + 1
              && (plans != [] ==> !ApplyPlan(objects[|plans| - 1], plans[|plans| - 1]).failed)
  {
    hide ApplyPlan;
    if plans == [] {
      objects := [d];
    } else {
      var n := |plans| - 1;
      objects := FeaturesChain(d, plans[..n]);
      if !ApplyPlans(d, plans[..n]).failed {
        objects := objects + [ApplyPlan(objects[n], plans[n]).value];
      }
    }
  }

  /** A key that a feature's template edits put is in the pod template after Apply, when neither a later edit of
      the feature nor a later feature touches it. */
  lemma TemplateKeyStays(d: Deployment, plans: seq<Plan>, p: nat, k: nat, key: string, value: string)
    requires p < |plans| && !ApplyPlans(d, plans).failed
    requires var holds := (m: map<string, string>) => key in m && m[key] == value;
             && Establishes(plans[p].templateEdits, k, holds)
             && forall j | p < j < |plans| :: plans[j].templateEdits == [] && plans[j].specEdits == []
    ensures var m := ApplyPlans(d, plans).value.spec.template.meta; key in m && m[key] == value
  {
    hide RunEdits, EditAll, PresentAll, ApplyPlan, Establishes;
    var holds := (m: map<string, string>) => key in m && m[key] == value;
    var there := (e: Deployment) => key in e.spec.template.meta && e.spec.template.meta[key] == value;
    forall e | !ApplyPlan(e, plans[p]).failed ensures there(ApplyPlan(e, plans[p]).value) {
      TemplateLands(e, plans[p], k, holds);
    }
    forall j, e | p < j < |plans| && there(e) && !ApplyPlan(e, plans[j]).failed
      ensures there(ApplyPlan(e, plans[j]).value)
    {
      TemplateUntouched(e, plans[j]);
    }
    FeatureLands(d, plans, p, there);
  }

  lemma TemplateUntouched(d: Deployment, plan: Plan)
    requires !ApplyPlan(d, plan).failed && plan.templateEdits == [] && plan.specEdits == []
    ensures ApplyPlan(d, plan).value.spec.template.meta == d.spec.template.meta
  {
    hide EditAll, PresentAll, ApplyPlan;
    PlanExactly(d, plan);
  }

  /** Every call of a recorder is in the plan, in the list of its own category, and nothing else is. */
  lemma {:induction false} EveryCallRecorded(calls: seq<Recording>, k: nat)
    requires k < |calls|
    ensures var plan := RecordedAll(NoPlan, calls);
            match calls[k]
            case OfMetadata(e) => e in plan.metadataEdits
            case OfSpec(e) => e in plan.specEdits
            case OfTemplate(e) => e in plan.templateEdits
            case OfPod(e) => e in plan.podEdits
            case OfPresence(op) => op in plan.presence
            case OfContainers(e) => e.Some? ==> e.value in plan.containerEdits
            case OfInitPresence(op) => op in plan.initPresence
            case OfInitContainers(e) => e.Some? ==> e.value in plan.initEdits
  {
    var n := |calls| - 1;
    if k < n {
      EveryCallRecorded(calls[..n], k);
    }
  }

  /** How many calls belong to a category; a nil edit is no call. */
  ghost function Calls(calls: seq<Recording>, category: nat): nat {
    if calls == [] then 0
    else
      var n := |calls| - 1;
      Calls(calls[..n], category) +
      if Category(calls[n]) == category && calls[n] != OfContainers(None) && calls[n] != OfInitContainers(None) then 1
      else 0
  }

  lemma {:induction false} OnlyCallsRecorded(calls: seq<Recording>)
    ensures var plan := RecordedAll(NoPlan, calls);
            && |plan.metadataEdits| == Calls(calls, 1) && |plan.specEdits| == Calls(calls, 2)
            && |plan.templateEdits| == Calls(calls, 3) && |plan.podEdits| == Calls(calls, 4)
            && |plan.presence| == Calls(calls, 5) && |plan.containerEdits| == Calls(calls, 6)
            && |plan.initPresence| == Calls(calls, 7) && |plan.initEdits| == Calls(calls, 8)
  {
    if calls != [] {
      OnlyCallsRecorded(calls[..|calls| - 1]);
    }
  }

  /** The recorder a call belongs to. */
  function Category(r: Recording): nat {
    match r
    case OfMetadata(_) => 1
    case OfSpec(_) => 2
    case OfTemplate(_) => 3
    case OfPod(_) => 4
    case OfPresence(_) => 5
    case OfContainers(_) => 6
    case OfInitPresence(_) => 7
    case OfInitContainers(_) => 8
  }

  /** Only the order within a category counts: two neighbouring calls of different categories may be
      swapped anywhere in a feature. */
  lemma {:induction false} CategoriesCommute(plan: Plan, before: seq<Recording>, a: Recording, b: Recording,
                                             after: seq<Recording>)
    requires Category(a) != Category(b)
    ensures RecordedAll(plan, before + [a, b] + after) == RecordedAll(plan, before + [b, a] + after)
  {
    var left, right := before + [a, b] + after, before + [b, a] + after;
    if after == [] {
      assert left[..|left| - 1] == before + [a] && right[..|right| - 1] == before + [b];
      assert (before + [a])[..|before|] == before && (before + [b])[..|before|] == before;
    } else {
      var n := |after| - 1;
      assert left[..|left| - 1] == before + [a, b] + after[..n] && right[..|right| - 1] == before + [b, a] + after[..n];
      CategoriesCommute(plan, before, a, b, after[..n]);
    }
  }
}
