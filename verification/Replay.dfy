/** Running every plan a second time on suspension, as ApplyMutations does over plans that are never
    cleared (pkg/generic/mutate_helper.go), changes nothing a reader of the containers would notice. */
module Replay {
  import opened Options
  import opened Mutators
  import opened Editors
  import opened ReplayOrder

  // The edits the replay property is about

  datatype EditOp = EnsureEnv(ev: EnvVar) | RemoveEnv(name: string) | EnsureArg(arg: string) | RemoveArg(arg: string)

  function Perform(c: Container, op: EditOp): Container {
    match op
    case EnsureEnv(ev) => c.(env := SetEnv(c.env, ev))
    case RemoveEnv(name) => c.(env := DropEnv(c.env, name))
    case EnsureArg(arg) => c.(args := AddArg(c.args, arg))
    case RemoveArg(arg) => c.(args := DropArg(c.args, arg))
  }

  function PerformAll(c: Container, ops: seq<EditOp>): Container {
    if ops == [] then c else Perform(PerformAll(c, ops[..|ops| - 1]), ops[|ops| - 1])
  }

  /** An edit by name, or of all containers: no index, no rename, only keyed edits. */
  datatype ScriptEdit = ScriptEdit(selects: string -> bool, ops: seq<EditOp>)
  datatype Phase = Phase(presence: seq<PresenceOp>, edits: seq<ScriptEdit>)
  datatype Script = Script(main: Phase, init: Phase)

  ghost predicate Realises(edits: seq<ContainerEdit>, script: seq<ScriptEdit>) {
    && |edits| == |script|
    && (forall k, i: nat, c | 0 <= k < |edits| :: edits[k].selects(i, c) == script[k].selects(c.name))
    && (forall k, c | 0 <= k < |edits| :: edits[k].edit(c) == Edited(PerformAll(c, script[k].ops), false))
  }

  /** Ensured containers carry no variables and no arguments. */
  predicate Bare(presence: seq<PresenceOp>) {
    forall k :: 0 <= k < |presence| && presence[k].Ensure? ==>
        presence[k].container.env == [] && presence[k].container.args == []
  }

  /** The plan does to the containers what the script says; its other edits are free, also to fail, as
      long as they leave the containers alone. */
  ghost predicate Follows(plan: Plan, script: Script) {
    && plan.presence == script.main.presence && Bare(plan.presence) && Realises(plan.containerEdits, script.main.edits)
    && plan.initPresence == script.init.presence && Bare(plan.initPresence)
    && Realises(plan.initEdits, script.init.edits)
    && (forall k, s | 0 <= k < |plan.specEdits| ::
          SameContainers(plan.specEdits[k](s).value.template.pod, s.template.pod))
    && (forall k, p | 0 <= k < |plan.podEdits| :: SameContainers(plan.podEdits[k](p).value, p))
  }

  predicate SameContainers(a: PodSpec, b: PodSpec) {
    a.containers == b.containers && a.initContainers == b.initContainers
  }

  // What a reader sees of a container list: by name, an image, variables by name, a set of arguments

  datatype Look = Look(image: string, env: map<string, string>, args: set<string>)

  function LookOf(c: Container): Look {
    Look(c.image, EnvByName(c.env), set a | a in c.args)
  }

  function At(containers: seq<Container>, name: string): Option<Look> {
    var k := FirstNamed(containers, name);
    if k < |containers| then Some(LookOf(containers[k])) else None
  }

  function OnLook(v: Look, op: EditOp): Look {
    match op
    case EnsureEnv(ev) => v.(env := v.env[ev.name := ev.value])
    case RemoveEnv(name) => v.(env := v.env - {name})
    case EnsureArg(arg) => v.(args := v.args + {arg})
    case RemoveArg(arg) => v.(args := v.args - {arg})
  }

  lemma PerformOnLook(c: Container, op: EditOp)
    ensures LookOf(Perform(c, op)) == OnLook(LookOf(c), op) && Perform(c, op).name == c.name
  {
    match op
    case EnsureEnv(ev) => SetEnvRefinesMap(c.env, ev);
    case RemoveEnv(name) => DropEnvRefinesMap(c.env, name);
    case EnsureArg(arg) =>
    case RemoveArg(arg) =>
      forall a ensures a in DropArg(c.args, arg) <==> a in c.args && a != arg {
        DropArgExactly(c.args, arg, a);
      }
  }

  // What a script does to the container of one name

  datatype NameOp = Appear(image: string) | Vanish | Change(op: EditOp)

  function Exec(s: Option<Look>, op: NameOp): Option<Look> {
    match op
    case Appear(image) => Some(Look(image, map[], {}))
    case Vanish => None
    case Change(e) => if s == None then None else Some(OnLook(s.value, e))
  }

  function ExecAll(s: Option<Look>, ops: seq<NameOp>): Option<Look> {
    if ops == [] then s else Exec(ExecAll(s, ops[..|ops| - 1]), ops[|ops| - 1])
  }

  function PresenceFor(presence: seq<PresenceOp>, name: string): seq<NameOp> {
    if presence == [] then []
    else
      var init, last := PresenceFor(presence[..|presence| - 1], name), presence[|presence| - 1];
      if last.Name() != name then init
      else init + [if last.Ensure? then Appear(last.container.image) else Vanish]
  }

  function Changes(ops: seq<EditOp>): (r: seq<NameOp>)
    ensures |r| == |ops|
  {
    seq(|ops|, i requires 0 <= i < |ops| => Change(ops[i]))
  }

  function EditsFor(edits: seq<ScriptEdit>, name: string): seq<NameOp> {
    if edits == [] then []
    else
      var init, last := EditsFor(edits[..|edits| - 1], name), edits[|edits| - 1];
      if last.selects(name) then init + Changes(last.ops) else init
  }

  function PhaseFor(phase: Phase, name: string): seq<NameOp> {
    PresenceFor(phase.presence, name) + EditsFor(phase.edits, name)
  }

  lemma {:induction false} ExecSplit(s: Option<Look>, a: seq<NameOp>, b: seq<NameOp>)
    ensures ExecAll(s, a + b) == ExecAll(ExecAll(s, a), b)
  {
    if b == [] {
      assert a + b == a;
    } else {
      assert (a + b)[..|a + b| - 1] == a + b[..|b| - 1];
      ExecSplit(s, a, b[..|b| - 1]);
    }
  }

  // Replaying what happens to one name

  /** The combined effect of a sequence of operations: either it forgets what was there, or it fixes
      some variables and arguments and leaves the rest. */
  datatype Effect = Fixed(s: Option<Look>) | Patch(env: map<string, Option<string>>, args: map<string, bool>)

  function Act(e: Effect, s: Option<Look>): Option<Look> {
    match e
    case Fixed(f) => f
    case Patch(env, args) =>
      if s == None then None
      else Some(Look(s.value.image, PatchEnv(s.value.env, env), PatchArgs(s.value.args, args)))
  }

  function PatchEnv(env: map<string, string>, patch: map<string, Option<string>>): map<string, string> {
    map k | k in env.Keys + patch.Keys && (k in patch ==> patch[k].Some?) :: if k in patch then patch[k].value
        else env[k]
  }

  function PatchArgs(args: set<string>, patch: map<string, bool>): set<string> {
    set a | a in args + patch.Keys && (a in patch ==> patch[a])
  }

  lemma PatchEnvStep(env: map<string, string>, patch: map<string, Option<string>>, k: string, v: Option<string>)
    ensures PatchEnv(env, patch[k := v]) ==
            if v.Some? then PatchEnv(env, patch)[k := v.value] else PatchEnv(env, patch) - {k}
  {
  }

  lemma PatchArgsStep(args: set<string>, patch: map<string, bool>, a: string, keep: bool)
    ensures PatchArgs(args, patch[a := keep]) == if keep then PatchArgs(args, patch) + {a}
              else PatchArgs(args, patch) - {a}
  {
  }

  function Then(e: Effect, op: NameOp): Effect {
    match op
    case Appear(_) => Fixed(Exec(None, op))
    case Vanish => Fixed(None)
    case Change(c) =>
      match e
      case Fixed(f) => Fixed(Exec(f, op))
      case Patch(env, args) =>
        match c
        case EnsureEnv(ev) => Patch(env[ev.name := Some(ev.value)], args)
        case RemoveEnv(name) => Patch(env[name := None], args)
        case EnsureArg(arg) => Patch(env, args[arg := true])
        case RemoveArg(arg) => Patch(env, args[arg := false])
  }

  function Combined(ops: seq<NameOp>): Effect {
    if ops == [] then Patch(map[], map[]) else Then(Combined(ops[..|ops| - 1]), ops[|ops| - 1])
  }

  lemma ActThen(e: Effect, op: NameOp, s: Option<Look>)
    ensures Act(Then(e, op), s) == Exec(Act(e, s), op)
  {
    if op.Change? && e.Patch? && s.Some? {
      hide PatchEnv, PatchArgs;
      match op.op {
        case EnsureEnv(ev) => PatchEnvStep(s.value.env, e.env, ev.name, Some(ev.value));
        case RemoveEnv(name) => PatchEnvStep(s.value.env, e.env, name, None);
        case EnsureArg(arg) => PatchArgsStep(s.value.args, e.args, arg, true);
        case RemoveArg(arg) => PatchArgsStep(s.value.args, e.args, arg, false);
      }
    }
  }

  lemma ActTwice(e: Effect, s: Option<Look>)
    ensures Act(e, Act(e, s)) == Act(e, s)
  {
    if e.Patch? && s.Some? {
      var once, twice := Act(e, s).value, Act(e, Act(e, s)).value;
      assert twice.env == once.env;
      assert twice.args == once.args;
    }
  }

  lemma {:induction false} ExecActs(s: Option<Look>, ops: seq<NameOp>)
    ensures ExecAll(s, ops) == Act(Combined(ops), s)
  {
    if ops != [] {
      ExecActs(s, ops[..|ops| - 1]);
      ActThen(Combined(ops[..|ops| - 1]), ops[|ops| - 1], s);
    } else if s.Some? {
      assert Act(Combined(ops), s).value.env == s.value.env;
      assert Act(Combined(ops), s).value.args == s.value.args;
    }
  }

  /** Any sequence of these operations is idempotent as a whole, though single steps inside it undo and
      redo each other. */
  lemma ExecTwice(s: Option<Look>, ops: seq<NameOp>)
    ensures ExecAll(ExecAll(s, ops), ops) == ExecAll(s, ops)
  {
    ExecActs(s, ops);
    ExecActs(ExecAll(s, ops), ops);
    ActTwice(Combined(ops), s);
  }

  /** Why containers are compared by name: a feature that removes and re-ensures one container before it
      ensures another swaps the two when it runs again. */
  lemma ReplayReorders(a: Container, b: Container)
    requires a.name != b.name
    ensures var ops := [Remove(b.name), Ensure(b), Ensure(a)];
            PresentAll([], ops) == [b, a] && PresentAll([b] + [a], ops) == [a, b]
  {
    hide Present;
    PresentThree([], Remove(b.name), Ensure(b), Ensure(a));
    PresentThree([b] + [a], Remove(b.name), Ensure(b), Ensure(a));
    PresentAbsent([], b);
    PresentAbsent([b], a);
    PresentAbsent([a], b);
    PresentHead(b, [a]);
    PresentHead(a, [b]);
    assert [] + [b] == [b] && [b] + [a] == [b, a] && [a] + [b] == [a, b];
  }

  lemma PresentAbsent(containers: seq<Container>, c: Container)
    requires forall k :: 0 <= k < |containers| ==> containers[k].name != c.name
    ensures Present(containers, Ensure(c)) == containers + [c] && Present(containers, Remove(c.name)) == containers
  {
  }

  lemma PresentHead(c: Container, rest: seq<Container>)
    ensures Present([c] + rest, Remove(c.name)) == rest && Present([c] + rest, Ensure(c)) == [c] + rest
  {
  }

  lemma PresentThree(containers: seq<Container>, x: PresenceOp, y: PresenceOp, z: PresenceOp)
    ensures PresentAll(containers, [x, y, z]) == Present(Present(Present(containers, x), y), z)
  {
    hide Present;
    assert [x, y, z][..2] == [x, y] && [x, y][..1] == [x] && [x][..0] == [];
    assert PresentAll(containers, [x]) == Present(containers, x);
    assert PresentAll(containers, [x, y]) == Present(Present(containers, x), y);
  }

  // From container lists to what happens to one name

  lemma AtByName(containers: seq<Container>, name: string)
    requires UniqueNames(containers)
    ensures At(containers, name) == if name in ByName(containers) then Some(LookOf(ByName(containers)[name])) else None
  {
  }

  lemma PresentAt(containers: seq<Container>, op: PresenceOp, name: string)
    requires UniqueNames(containers) && Bare([op])
    ensures UniqueNames(Present(containers, op))
    ensures At(Present(containers, op), name) == ExecAll(At(containers, name), PresenceFor([op], name))
  {
    hide Present, ByName, At, UniqueNames, PresenceFor, ExecAll;
    PresenceRefinesMap(containers, op);
    AtByName(containers, name);
    AtByName(Present(containers, op), name);
    PresenceForOne(op, name);
    if op.Name() == name {
      ExecOne(At(containers, name), OneOp(op));
      assert op.Ensure? ==> LookOf(op.container) == Look(op.container.image, map[], {}) by { BareLook(op); }
    } else {
      EmptyExec(At(containers, name));
    }
  }

  function OneOp(op: PresenceOp): NameOp {
    if op.Ensure? then Appear(op.container.image) else Vanish
  }

  lemma PresenceForOne(op: PresenceOp, name: string)
    ensures PresenceFor([op], name) == if op.Name() == name then [OneOp(op)] else []
  {
  }

  lemma ExecOne(s: Option<Look>, op: NameOp)
    ensures ExecAll(s, [op]) == Exec(s, op)
  {
  }

  lemma BareLook(op: PresenceOp)
    requires Bare([op])
    ensures op.Ensure? ==> LookOf(op.container) == Look(op.container.image, map[], {})
  {
    assert [op][0] == op;
  }

  lemma {:induction false} PresentAllAt(containers: seq<Container>, ops: seq<PresenceOp>, name: string)
    requires UniqueNames(containers) && Bare(ops)
    ensures UniqueNames(PresentAll(containers, ops))
    ensures At(PresentAll(containers, ops), name) == ExecAll(At(containers, name), PresenceFor(ops, name))
  {
    hide Present, At, UniqueNames, ExecAll;
    if ops != [] {
      var init, last := ops[..|ops| - 1], ops[|ops| - 1];
      PresentAllAt(containers, init, name);
      PresentAt(PresentAll(containers, init), last, name);
      assert [last][..0] == [] && [last][0] == last;
      assert PresenceFor(ops, name) == PresenceFor(init, name) + PresenceFor([last], name);
      ExecSplit(At(containers, name), PresenceFor(init, name), PresenceFor([last], name));
    } else {
      assert ExecAll(At(containers, name), []) == At(containers, name) by { EmptyExec(At(containers, name)); }
    }
  }

  lemma EmptyExec(s: Option<Look>)
    ensures ExecAll(s, []) == s
  {
  }

  lemma {:induction false} PerformAllLook(c: Container, ops: seq<EditOp>)
    ensures PerformAll(c, ops).name == c.name
    ensures Some(LookOf(PerformAll(c, ops))) == ExecAll(Some(LookOf(c)), Changes(ops))
  {
    if ops != [] {
      var init, last := ops[..|ops| - 1], ops[|ops| - 1];
      PerformAllLook(c, init);
      PerformOnLook(PerformAll(c, init), last);
      assert Changes(ops)[..|ops| - 1] == Changes(init);
    }
  }

  lemma {:induction false} EditOneLook(c: Container, i: nat, snapshot: Container, edits: seq<ContainerEdit>,
                                       script: seq<ScriptEdit>)
    requires Realises(edits, script)
    ensures var r := EditOne(c, i, snapshot, edits);
            !r.failed && r.value.name == c.name && Some(LookOf(r.value)) ==
                ExecAll(Some(LookOf(c)), EditsFor(script, snapshot.name))
  {
    hide LookOf, PerformAll;
    if edits != [] {
      var n := |edits| - 1;
      EditOneLook(c, i, snapshot, edits[..n], script[..n]);
      var before := EditOne(c, i, snapshot, edits[..n]).value;
      assert edits[n].selects(i, snapshot) == script[n].selects(snapshot.name);
      assert edits[n].edit(before) == Edited(PerformAll(before, script[n].ops), false);
      PerformAllLook(before, script[n].ops);
      ExecSplit(Some(LookOf(c)), EditsFor(script[..n], snapshot.name), Changes(script[n].ops));
    }
  }

  lemma {:induction false} FirstNamedSame(a: seq<Container>, b: seq<Container>, name: string)
    requires |a| == |b| && forall i :: 0 <= i < |a| ==> a[i].name == b[i].name
    ensures FirstNamed(a, name) == FirstNamed(b, name)
  {
  }

  lemma EditAllAt(containers: seq<Container>, edits: seq<ContainerEdit>, script: seq<ScriptEdit>, name: string)
    requires Realises(edits, script)
    ensures var r := EditAll(containers, edits);
            && !r.failed
            && At(r.value, name) == ExecAll(At(containers, name), EditsFor(script, name))
            && (UniqueNames(containers) ==> UniqueNames(r.value))
  {
    hide LookOf, EditOne, ExecAll;
    var r := EditAll(containers, edits);
    EditFirstPointwise(containers, edits, |containers|);
    forall i | 0 <= i < |containers|
      ensures var one := EditOne(containers[i], i, containers[i], edits);
              !one.failed && one.value.name == containers[i].name
              && Some(LookOf(one.value)) == ExecAll(Some(LookOf(containers[i])), EditsFor(script, containers[i].name))
    {
      EditOneLook(containers[i], i, containers[i], edits, script);
    }
    FirstNamedSame(containers, r.value, name);
    if FirstNamed(containers, name) == |containers| {
      NothingToEdit(script, name);
    }
  }

  lemma {:induction false} NothingToEdit(script: seq<ScriptEdit>, name: string)
    ensures ExecAll(None, EditsFor(script, name)) == None
  {
    if script != [] {
      var n := |script| - 1;
      NothingToEdit(script[..n], name);
      ExecSplit(None, EditsFor(script[..n], name), Changes(script[n].ops));
      NothingToChange(script[n].ops);
    }
  }

  lemma {:induction false} NothingToChange(ops: seq<EditOp>)
    ensures ExecAll(None, Changes(ops)) == None
  {
    if ops != [] {
      NothingToChange(ops[..|ops| - 1]);
      assert Changes(ops)[..|ops| - 1] == Changes(ops[..|ops| - 1]);
    }
  }

  lemma PhaseAt(containers: seq<Container>, presence: seq<PresenceOp>, edits: seq<ContainerEdit>, phase: Phase,
                name: string)
    requires UniqueNames(containers) && presence == phase.presence && Bare(presence) && Realises(edits, phase.edits)
    ensures var r := EditAll(PresentAll(containers, presence), edits);
            !r.failed && UniqueNames(r.value) && At(r.value, name) ==
                ExecAll(At(containers, name), PhaseFor(phase, name))
  {
    hide UniqueNames, At, PresentAll, EditAll, Realises, Bare, ExecAll, EditsFor, PresenceFor;
    PresentAllAt(containers, presence, name);
    EditAllAt(PresentAll(containers, presence), edits, phase.edits, name);
    ExecSplit(At(containers, name), PresenceFor(presence, name), EditsFor(phase.edits, name));
  }

  lemma {:induction false} SpecKeeps(s: Spec, edits: seq<Edit<Spec>>)
    requires forall k, t | 0 <= k < |edits| :: SameContainers(edits[k](t).value.template.pod, t.template.pod)
    ensures SameContainers(RunEdits(s, edits).value.template.pod, s.template.pod)
  {
    if edits != [] {
      SpecKeeps(s, edits[..|edits| - 1]);
    }
  }

  lemma {:induction false} PodKeeps(p: PodSpec, edits: seq<Edit<PodSpec>>)
    requires forall k, q | 0 <= k < |edits| :: SameContainers(edits[k](q).value, q)
    ensures SameContainers(RunEdits(p, edits).value, p)
  {
    if edits != [] {
      PodKeeps(p, edits[..|edits| - 1]);
    }
  }

  ghost predicate WellNamed(d: Deployment) {
    UniqueNames(d.spec.template.pod.containers) && UniqueNames(d.spec.template.pod.initContainers)
  }

  lemma PlanContainers(d: Deployment, plan: Plan, script: Script)
    requires !ApplyPlan(d, plan).failed && Follows(plan, script)
    ensures var pod := ApplyPlan(d, plan).value.spec.template.pod;
            && pod.containers ==
               EditAll(PresentAll(d.spec.template.pod.containers, plan.presence), plan.containerEdits).value
            && pod.initContainers ==
               EditAll(PresentAll(d.spec.template.pod.initContainers, plan.initPresence), plan.initEdits).value
  {
    hide RunEdits, EditAll, PresentAll, Realises, Bare;
    var a := OnMetadata(d, plan).value;
    SpecKeeps(a.spec, plan.specEdits);
    var c := OnTemplate(OnSpec(a, plan).value, plan).value;
    PodKeeps(c.spec.template.pod, plan.podEdits);
  }

  /** Whether the name is looked for among the init containers. */
  function Shown(d: Deployment, init: bool, name: string): Option<Look> {
    At(if init then d.spec.template.pod.initContainers else d.spec.template.pod.containers, name)
  }

  function ScriptFor(script: Script, init: bool, name: string): seq<NameOp> {
    PhaseFor(if init then script.init else script.main, name)
  }

  lemma PlanAt(d: Deployment, plan: Plan, script: Script, init: bool, name: string)
    requires WellNamed(d) && Follows(plan, script) && !ApplyPlan(d, plan).failed
    ensures WellNamed(ApplyPlan(d, plan).value)
    ensures Shown(ApplyPlan(d, plan).value, init, name) == ExecAll(Shown(d, init, name), ScriptFor(script, init, name))
  {
    PlanContainers(d, plan, script);
    hide At, PresentAll, EditAll, ApplyPlan, PhaseFor, ExecAll, UniqueNames;
    PhaseAt(d.spec.template.pod.containers, plan.presence, plan.containerEdits, script.main, name);
    PhaseAt(d.spec.template.pod.initContainers, plan.initPresence, plan.initEdits, script.init, name);
  }

  function ScriptsFor(scripts: seq<Script>, init: bool, name: string): seq<NameOp> {
    if scripts == [] then []
    else ScriptsFor(scripts[..|scripts| - 1], init, name) + ScriptFor(scripts[|scripts| - 1], init, name)
  }

  lemma {:induction false} PlansAt(d: Deployment, plans: seq<Plan>, scripts: seq<Script>, init: bool, name: string)
    requires WellNamed(d) && |plans| == |scripts| && forall k :: 0 <= k < |plans| ==> Follows(plans[k], scripts[k])
    requires !ApplyPlans(d, plans).failed
    ensures WellNamed(ApplyPlans(d, plans).value)
    ensures Shown(ApplyPlans(d, plans).value, init, name) ==
              ExecAll(Shown(d, init, name), ScriptsFor(scripts, init, name))
  {
    hide Follows, ApplyPlan, Shown, ScriptFor, WellNamed;
    if plans != [] {
      var n := |plans| - 1;
      PlansAt(d, plans[..n], scripts[..n], init, name);
      PlanAt(ApplyPlans(d, plans[..n]).value, plans[n], scripts[n], init, name);
      ExecSplit(Shown(d, init, name), ScriptsFor(scripts[..n], init, name), ScriptFor(scripts[n], init, name));
    }
  }

  /** Suspension replay: for mutations that edit containers as some scripts say, a suspended resource
      shows, under every container name, what the unsuspended one shows plus the suspender's own edits,
      although every plan ran twice. */
  lemma SuspensionReplays(d: Deployment, mutations: seq<Mutation>, suspender: Handler, scripts: seq<Script>,
                          last: Script, init: bool, name: string)
    requires WellNamed(d) && |scripts| == |mutations|
    requires forall k :: 0 <= k < |mutations| ==> Follows(mutations[k].PlanOf(), scripts[k])
    requires Follows(RecordedAll(NoPlan, suspender.calls), last)
    requires Mutated(d, mutations, Some(suspender)).Some?
    ensures var once, suspended := Mutated(d, mutations, None), Mutated(d, mutations, Some(suspender));
            && once.Some? && WellNamed(once.value) && WellNamed(suspended.value)
            && Shown(suspended.value, init, name) == ExecAll(Shown(once.value, init, name), ScriptFor(last, init, name))
  {
    hide Follows, Shown, ScriptFor, WellNamed, ApplyPlan, RecordedAll, ApplyPlans, ExecAll, ScriptsFor;
    var plans, suspension := PlansOf(mutations), RecordedAll(NoPlan, suspender.calls);
    OnePlanMore(d, plans, NoPlan);
    var once := ApplyPlans(d, plans).value;
    NoPlanKeeps(once);
    OnePlanMore(once, plans, suspension);
    var twice := ApplyPlans(once, plans).value;
    PlansAt(d, plans, scripts, init, name);
    PlansAt(once, plans, scripts, init, name);
    PlanAt(twice, suspension, last, init, name);
    ExecTwice(Shown(d, init, name), ScriptsFor(scripts, init, name));
  }

  lemma DefaultFollows(plan: Plan, last: Script)
    requires plan == NoPlan.(specEdits := [SetReplicas(0).specEdit]) && last == Script(Phase([], []), Phase([], []))
    ensures Follows(plan, last)
  {
  }

  /** The default suspension of a Deployment edits no container: both objects show the same. */
  lemma DefaultSuspensionShowsTheSame(d: Deployment, mutations: seq<Mutation>, scripts: seq<Script>, init: bool,
                                      name: string)
    requires WellNamed(d) && |scripts| == |mutations|
    requires forall k :: 0 <= k < |mutations| ==> Follows(mutations[k].PlanOf(), scripts[k])
    requires Mutated(d, mutations, Some(DefaultSuspender())).Some?
    ensures Mutated(d, mutations, None).Some?
    ensures Shown(Mutated(d, mutations, Some(DefaultSuspender())).value, init, name) ==
              Shown(Mutated(d, mutations, None).value, init, name)
  {
    var calls := [SetReplicas(0)];
    assert calls[..0] == [];
    var plan := RecordedAll(NoPlan, calls);
    assert plan == NoPlan.(specEdits := [SetReplicas(0).specEdit]);
    var last := Script(Phase([], []), Phase([], []));
    DefaultFollows(plan, last);
    hide Follows, Mutated, RecordedAll;
    SuspensionReplays(d, mutations, DefaultSuspender(), scripts, last, init, name);
    EmptyExec(Shown(Mutated(d, mutations, None).value, init, name));
  }

  // The order of the containers

  function PresenceOf(script: Script, init: bool): seq<PresenceOp> {
    if init then script.init.presence else script.main.presence
  }

  /** All presence operations of the plans, in order. */
  function PresencesOf(scripts: seq<Script>, init: bool): seq<PresenceOp> {
    if scripts == [] then []
    else PresencesOf(scripts[..|scripts| - 1], init) + PresenceOf(scripts[|scripts| - 1], init)
  }

  function ShownNames(d: Deployment, init: bool): seq<string> {
    Names(if init then d.spec.template.pod.initContainers else d.spec.template.pod.containers)
  }

  lemma EditNames(containers: seq<Container>, edits: seq<ContainerEdit>, script: seq<ScriptEdit>)
    requires Realises(edits, script)
    ensures Names(EditAll(containers, edits).value) == Names(containers)
  {
    hide EditOne, Realises;
    EditFirstPointwise(containers, edits, |containers|);
    forall i | 0 <= i < |containers|
      ensures var one := EditOne(containers[i], i, containers[i], edits);
              !one.failed && one.value.name == containers[i].name
    {
      EditOneLook(containers[i], i, containers[i], edits, script);
    }
  }

  lemma PlanNames(d: Deployment, plan: Plan, script: Script, init: bool)
    requires WellNamed(d) && Follows(plan, script) && !ApplyPlan(d, plan).failed
    ensures WellNamed(ApplyPlan(d, plan).value)
    ensures ShownNames(ApplyPlan(d, plan).value, init) == PlaceAll(ShownNames(d, init), PresenceOf(script, init))
  {
    PlanContainers(d, plan, script);
    PlanAt(d, plan, script, init, "");
    hide PresentAll, EditAll, ApplyPlan, PlaceAll, UniqueNames, Names, Bare, Realises;
    var pod := d.spec.template.pod;
    PlaceAllNames(pod.containers, plan.presence);
    PlaceAllNames(pod.initContainers, plan.initPresence);
    EditNames(PresentAll(pod.containers, plan.presence), plan.containerEdits, script.main.edits);
    EditNames(PresentAll(pod.initContainers, plan.initPresence), plan.initEdits, script.init.edits);
  }

  lemma {:induction false} PlansNames(d: Deployment, plans: seq<Plan>, scripts: seq<Script>, init: bool)
    requires WellNamed(d) && |plans| == |scripts| && forall k :: 0 <= k < |plans| ==> Follows(plans[k], scripts[k])
    requires !ApplyPlans(d, plans).failed
    ensures WellNamed(ApplyPlans(d, plans).value)
    ensures ShownNames(ApplyPlans(d, plans).value, init) == PlaceAll(ShownNames(d, init), PresencesOf(scripts, init))
  {
    hide Follows, ApplyPlan, ShownNames, WellNamed, PresenceOf, PlaceAll;
    if plans != [] {
      var n := |plans| - 1;
      var earlier := PresencesOf(scripts[..n], init);
      PlansNames(d, plans[..n], scripts[..n], init);
      PlanNames(ApplyPlans(d, plans[..n]).value, plans[n], scripts[n], init);
      var all := earlier + PresenceOf(scripts[n], init);
      PlaceAllSplit(ShownNames(d, init), all, |earlier|);
      assert all[..|earlier|] == earlier && all[|earlier|..] == PresenceOf(scripts[n], init);
    } else {
      NothingPlaced(ShownNames(d, init));
    }
  }

  lemma NothingPlaced(names: seq<string>)
    ensures PlaceAll(names, []) == names
  {
  }

  /** Suspending a Deployment by default keeps the order of its containers exactly when the presence
      operations of its mutations do not reorder the list they start from. */
  lemma DefaultSuspensionKeepsOrderExactly(d: Deployment, mutations: seq<Mutation>, scripts: seq<Script>, init: bool)
    requires WellNamed(d) && |scripts| == |mutations|
    requires forall k :: 0 <= k < |mutations| ==> Follows(mutations[k].PlanOf(), scripts[k])
    requires Mutated(d, mutations, Some(DefaultSuspender())).Some?
    ensures Mutated(d, mutations, None).Some?
    ensures ShownNames(Mutated(d, mutations, Some(DefaultSuspender())).value, init) ==
              ShownNames(Mutated(d, mutations, None).value, init)
            <==> !Reorders(ShownNames(d, init), PresencesOf(scripts, init))
  {
    var calls := [SetReplicas(0)];
    assert calls[..0] == [];
    var suspension := RecordedAll(NoPlan, calls);
    assert suspension == NoPlan.(specEdits := [SetReplicas(0).specEdit]);
    var last := Script(Phase([], []), Phase([], []));
    DefaultFollows(suspension, last);
    hide Follows, Mutated, RecordedAll, PlaceAll, Reorders, PresencesOf, ShownNames, WellNamed;
    SuspensionNames(d, mutations, DefaultSuspender(), scripts, last, init);
    NothingPlaced(PlaceAll(ShownNames(Mutated(d, mutations, None).value, init), PresencesOf(scripts, init)));
    ShownUnique(d, init);
    OrderKeptExactly(ShownNames(d, init), PresencesOf(scripts, init));
  }

  /** The names of a suspended object: the presence operations ran twice, the suspender's once. */
  lemma SuspensionNames(d: Deployment, mutations: seq<Mutation>, suspender: Handler, scripts: seq<Script>,
                        last: Script, init: bool)
    requires WellNamed(d) && |scripts| == |mutations|
    requires forall k :: 0 <= k < |mutations| ==> Follows(mutations[k].PlanOf(), scripts[k])
    requires Follows(RecordedAll(NoPlan, suspender.calls), last)
    requires Mutated(d, mutations, Some(suspender)).Some?
    ensures var once, ops := Mutated(d, mutations, None), PresencesOf(scripts, init);
            && once.Some? && ShownNames(once.value, init) == PlaceAll(ShownNames(d, init), ops)
            && ShownNames(Mutated(d, mutations, Some(suspender)).value, init) ==
               PlaceAll(PlaceAll(ShownNames(once.value, init), ops), PresenceOf(last, init))
  {
    hide Follows, ShownNames, WellNamed, ApplyPlan, RecordedAll, ApplyPlans, PlaceAll, PresencesOf;
    var plans, suspension := PlansOf(mutations), RecordedAll(NoPlan, suspender.calls);
    OnePlanMore(d, plans, NoPlan);
    var once := ApplyPlans(d, plans).value;
    NoPlanKeeps(once);
    OnePlanMore(once, plans, suspension);
    PlansNames(d, plans, scripts, init);
    PlansNames(once, plans, scripts, init);
    PlanNames(ApplyPlans(once, plans).value, suspension, last, init);
  }

  lemma ShownUnique(d: Deployment, init: bool)
    requires WellNamed(d)
    ensures Unique(ShownNames(d, init))
  {
  }
}
