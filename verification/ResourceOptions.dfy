/** Resource options and their resolution (pkg/component/resource_options.go). */
module ResourceOptions {
  import opened Options
  import opened Passes

  /** The option constructors; NilOption is a nil option function, Delete() is DeleteWhen(true). */
  datatype ResourceOption =
    | NilOption
    | ReadOnly
    | Unowned
    | DeleteWhen(condition: bool)
    | OrphanWhen(condition: bool)
    | GatedBy(gate: GateOutcome)
    | Auxiliary
    | BlockOnAbsence
    | IgnoreIfAbsent
    | BlockOnForeignController
    | DeleteOnlyIfOwned

  datatype Resolved = Resolved(
    delete: bool, orphan: bool, readOnly: bool, unowned: bool, required: bool,
    blockOnAbsence: bool, ignoreIfAbsent: bool, blockOnForeignController: bool, deleteOnlyIfOwned: bool)

  /** A later gate replaces an earlier one, and a nil gate is no gate. */
  function LastGate(opts: seq<ResourceOption>): GateOutcome {
    if opts == [] then NoGate
    else if opts[|opts| - 1].GatedBy? then opts[|opts| - 1].gate
    else LastGate(opts[..|opts| - 1])
  }

  predicate Deletes(opts: seq<ResourceOption>) {
    DeleteWhen(true) in opts || DeleteWhen(false) in opts
  }

  predicate Orphans(opts: seq<ResourceOption>) {
    OrphanWhen(true) in opts || OrphanWhen(false) in opts
  }

  /** The combinations Build reports, plus a gate whose evaluation fails. */
  predicate Rejected(opts: seq<ResourceOption>) {
    || (BlockOnAbsence in opts && IgnoreIfAbsent in opts)
    || ((BlockOnAbsence in opts || IgnoreIfAbsent in opts) && ReadOnly !in opts)
    || (ReadOnly in opts && (BlockOnForeignController in opts || DeleteOnlyIfOwned in opts))
    || (ReadOnly in opts && (Deletes(opts) || Orphans(opts) || LastGate(opts) != NoGate))
    || (DeleteOnlyIfOwned in opts && Unowned in opts)
    || (Orphans(opts) && (Deletes(opts) || LastGate(opts) != NoGate))
    || LastGate(opts) == GateFailed
  }

  /** The last gate among the options, if any, is disabled. */
  predicate GatedOff(opts: seq<ResourceOption>) {
    exists k :: 0 <= k < |opts| && opts[k] == GatedBy(GateDisabled) && forall j :: k < j < |opts| ==> !opts[j].GatedBy?
  }

  lemma {:induction false} GatedOffExactly(opts: seq<ResourceOption>)
    ensures GatedOff(opts) <==> LastGate(opts) == GateDisabled
    ensures LastGate(opts) == NoGate ==> !GatedOff(opts)
  {
    if opts != [] {
      var n := |opts| - 1;
      GatedOffExactly(opts[..n]);
      if opts[n].GatedBy? {
        assert opts[n] == GatedBy(GateDisabled) ==> GatedOff(opts);
      } else if GatedOff(opts[..n]) {
        var k :| 0 <= k < n && opts[..n][k] == GatedBy(GateDisabled)
                 && forall j :: k < j < n ==> !opts[..n][j].GatedBy?;
        assert opts[k] == GatedBy(GateDisabled);
      }
    }
  }

  lemma NeverBoth(opts: seq<ResourceOption>)
    requires !Rejected(opts)
    ensures OrphanWhen(true) in opts ==> DeleteWhen(true) !in opts && !GatedOff(opts)
  {
    GatedOffExactly(opts);
  }

  datatype ResourceConfig = ResourceConfig(
    readOnly: bool, unowned: bool, deleteConditions: seq<bool>, orphanConditions: seq<bool>, gate: GateOutcome,
    auxiliary: bool, blockOnAbsence: bool, ignoreIfAbsent: bool, blockOnForeignController: bool,
        deleteOnlyIfOwned: bool)
  {
    /** The effect of one option function. */
    function With(opt: ResourceOption): ResourceConfig {
      match opt
      case NilOption => this
      case ReadOnly => this.(readOnly := true)
      case Unowned => this.(unowned := true)
      case DeleteWhen(condition) => this.(deleteConditions := deleteConditions + [condition])
      case OrphanWhen(condition) => this.(orphanConditions := orphanConditions + [condition])
      case GatedBy(g) => this.(gate := g)
      case Auxiliary => this.(auxiliary := true)
      case BlockOnAbsence => this.(blockOnAbsence := true)
      case IgnoreIfAbsent => this.(ignoreIfAbsent := true)
      case BlockOnForeignController => this.(blockOnForeignController := true)
      case DeleteOnlyIfOwned => this.(deleteOnlyIfOwned := true)
    }

    predicate Flags(opts: set<ResourceOption>) {
      && (readOnly <==> ReadOnly in opts) && (unowned <==> Unowned in opts) && (auxiliary <==> Auxiliary in opts)
      && (blockOnAbsence <==> BlockOnAbsence in opts) && (ignoreIfAbsent <==> IgnoreIfAbsent in opts)
      && (blockOnForeignController <==> BlockOnForeignController in opts)
      && (deleteOnlyIfOwned <==> DeleteOnlyIfOwned in opts)
    }

    predicate Triggers(opts: set<ResourceOption>) {
      && (true in deleteConditions <==> DeleteWhen(true) in opts)
      && (false in deleteConditions <==> DeleteWhen(false) in opts)
      && (true in orphanConditions <==> OrphanWhen(true) in opts)
      && (false in orphanConditions <==> OrphanWhen(false) in opts)
    }
  }

  function Given(opts: seq<ResourceOption>): set<ResourceOption> {
    set o | o in opts
  }

  lemma WithFlags(cfg: ResourceConfig, opts: set<ResourceOption>, opt: ResourceOption)
    requires cfg.Flags(opts)
    ensures cfg.With(opt).Flags(opts + {opt})
  {
    hide ResourceConfig.With;
    OwnFlags(cfg, opt);
    OtherFlags(cfg, opt);
  }

  lemma OwnFlags(cfg: ResourceConfig, opt: ResourceOption)
    ensures cfg.With(opt).readOnly == (opt.ReadOnly? || cfg.readOnly)
    ensures cfg.With(opt).unowned == (opt.Unowned? || cfg.unowned)
    ensures cfg.With(opt).auxiliary == (opt.Auxiliary? || cfg.auxiliary)
  {
  }

  lemma OtherFlags(cfg: ResourceConfig, opt: ResourceOption)
    ensures cfg.With(opt).blockOnAbsence == (opt.BlockOnAbsence? || cfg.blockOnAbsence)
    ensures cfg.With(opt).ignoreIfAbsent == (opt.IgnoreIfAbsent? || cfg.ignoreIfAbsent)
    ensures cfg.With(opt).blockOnForeignController == (opt.BlockOnForeignController? || cfg.blockOnForeignController)
    ensures cfg.With(opt).deleteOnlyIfOwned == (opt.DeleteOnlyIfOwned? || cfg.deleteOnlyIfOwned)
  {
  }

  lemma WithTriggers(cfg: ResourceConfig, opts: set<ResourceOption>, opt: ResourceOption)
    requires cfg.Triggers(opts)
    ensures cfg.With(opt).Triggers(opts + {opt})
  {
  }

  /** The config is what the option functions of `opts` wrote. */
  predicate Reflects(cfg: ResourceConfig, opts: seq<ResourceOption>) {
    cfg.Flags(Given(opts)) && cfg.Triggers(Given(opts)) && cfg.gate == LastGate(opts)
  }

  lemma GivenStep(opts: seq<ResourceOption>, i: nat)
    requires i < |opts|
    ensures Given(opts[..i + 1]) == Given(opts[..i]) + {opts[i]}
  {
  }

  lemma LastGateStep(opts: seq<ResourceOption>, i: nat)
    requires i < |opts|
    ensures LastGate(opts[..i + 1]) == if opts[i].GatedBy? then opts[i].gate else LastGate(opts[..i])
  {
    assert opts[..i + 1][..i] == opts[..i];
  }

  lemma WithGate(cfg: ResourceConfig, opt: ResourceOption)
    ensures cfg.With(opt).gate == if opt.GatedBy? then opt.gate else cfg.gate
  {
  }

  lemma FlagsStep(cfg: ResourceConfig, opts: seq<ResourceOption>, i: nat)
    requires i < |opts| && cfg.Flags(Given(opts[..i]))
    ensures cfg.With(opts[i]).Flags(Given(opts[..i + 1]))
  {
    WithFlags(cfg, Given(opts[..i]), opts[i]);
    GivenStep(opts, i);
  }

  lemma TriggersStep(cfg: ResourceConfig, opts: seq<ResourceOption>, i: nat)
    requires i < |opts| && cfg.Triggers(Given(opts[..i]))
    ensures cfg.With(opts[i]).Triggers(Given(opts[..i + 1]))
  {
    WithTriggers(cfg, Given(opts[..i]), opts[i]);
    GivenStep(opts, i);
  }

  /** True exactly when some condition is; the search stops at the first. */
  method AnyTrue(conditions: seq<bool>) returns (any: bool)
    ensures any <==> true in conditions
  {
    for i := 0 to |conditions|
      invariant true !in conditions[..i]
    {
      if conditions[i] {
        return true;
      }
    }
    return false;
  }

  /** What a valid list of options means, read off the list itself: every option counts wherever it
      stands, and only gates replace each other. */
  function Meaning(opts: seq<ResourceOption>): Resolved {
    Resolved(
      LastGate(opts) == GateDisabled || DeleteWhen(true) in opts, OrphanWhen(true) in opts,
      ReadOnly in opts, Unowned in opts, Auxiliary !in opts,
      BlockOnAbsence in opts, IgnoreIfAbsent in opts, BlockOnForeignController in opts, DeleteOnlyIfOwned in opts)
  }

  method Resolve(c: ResourceConfig, ghost opts: seq<ResourceOption>) returns (r: Option<Resolved>)
    requires Reflects(c, opts)
    ensures r == None <==> Rejected(opts)
    ensures r.Some? ==> r.value == Meaning(opts)
  {
    assert |c.deleteConditions| > 0 <==> Deletes(opts) by {
      assert |c.deleteConditions| > 0 ==>
          c.deleteConditions[0] in c.deleteConditions && c.deleteConditions[0] in {true, false};
    }
    assert |c.orphanConditions| > 0 <==> Orphans(opts) by {
      assert |c.orphanConditions| > 0 ==>
          c.orphanConditions[0] in c.orphanConditions && c.orphanConditions[0] in {true, false};
    }
    if c.blockOnAbsence && c.ignoreIfAbsent { return None; }
    if c.blockOnAbsence && !c.readOnly { return None; }
    if c.ignoreIfAbsent && !c.readOnly { return None; }
    if c.blockOnForeignController && c.readOnly { return None; }
    if c.deleteOnlyIfOwned && c.readOnly { return None; }
    if c.deleteOnlyIfOwned && c.unowned { return None; }
    if c.readOnly && |c.deleteConditions| > 0 { return None; }
    if c.readOnly && c.gate != NoGate { return None; }
    if |c.orphanConditions| > 0 {
      if |c.deleteConditions| > 0 { return None; }
      if c.gate != NoGate { return None; }
      if c.readOnly { return None; }
    }
    var shouldDelete := false;
    if c.gate != NoGate {
      if c.gate == GateFailed { return None; }
      shouldDelete := c.gate == GateDisabled;
    }
    if !shouldDelete {
      shouldDelete := AnyTrue(c.deleteConditions);
    }
    var shouldOrphan := AnyTrue(c.orphanConditions);
    return Some(Resolved(shouldDelete, shouldOrphan, c.readOnly, c.unowned, !c.auxiliary,
                         c.blockOnAbsence, c.ignoreIfAbsent, c.blockOnForeignController, c.deleteOnlyIfOwned));
  }

  method ResolveResourceOptions(opts: seq<ResourceOption>) returns (r: Option<Resolved>)
    ensures r == None <==> Rejected(opts)
    ensures r.Some? ==> r.value == Meaning(opts)
  {
    var cfg := ResourceConfig(false, false, [], [], NoGate, false, false, false, false, false);
    for i := 0 to |opts|
      invariant Reflects(cfg, opts[..i])
    {
      FlagsStep(cfg, opts, i);
      TriggersStep(cfg, opts, i);
      LastGateStep(opts, i);
      WithGate(cfg, opts[i]);
      cfg := cfg.With(opts[i]);
    }
    assert opts[..|opts|] == opts;
    r := Resolve(cfg, opts);
  }

  /** Resolution never marks a read-only resource for deletion or orphaning, nor one for both, never lets ownership
      gate the deletion of a resource that carries no owner reference, and leaves no doubt about what absence means. */
  lemma ResolvedIsSafe(opts: seq<ResourceOption>)
    requires !Rejected(opts)
    ensures var r := Meaning(opts);
            && (r.readOnly ==> !r.delete && !r.orphan && !r.blockOnForeignController && !r.deleteOnlyIfOwned)
            && !(r.delete && r.orphan)
            && !(r.deleteOnlyIfOwned && r.unowned)
            && (r.blockOnAbsence || r.ignoreIfAbsent ==> r.readOnly)
            && !(r.blockOnAbsence && r.ignoreIfAbsent)
            && (r.readOnly || r.orphan ==> forall o <- opts :: !o.DeleteWhen?)
            && (r.readOnly ==> forall o <- opts :: !o.OrphanWhen?)
  {
  }
}
