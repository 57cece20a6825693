/** A controller's run: every reconcile request loads the owner, builds the component from it, reconciles the
    component and flushes the owner's status (FlushStatus in pkg/component/component.go). */
module Controller {
  import opened Options
  import opened Conditions
  import opened Timer
  import opened Passes
  import opened ApiServer
  import opened Building
  import opened Components
  import opened Statuses
  import opened Converge
  import opened Handlers
  import opened DataFlow
  import opened Entries
  import Engine

  /** One request: the component as built for it, the owner's generation, what the pass meets, and whether
      the flush lands. */
  datatype Request = Request(plan: Blueprint, generation: int, env: PassEnv, landed: bool)

  /** The request's component was built, for this condition type. */
  ghost predicate Suits(r: Request, ctype: string) {
    Sound(r.plan) && r.plan.conditionType == ctype && Fits(r.env, r.plan)
  }

  ghost predicate AllSuit(requests: seq<Request>, ctype: string) {
    forall i :: 0 <= i < |requests| ==> Suits(requests[i], ctype)
  }

  /** What the API server keeps of the conditions a flush sends. */
  function Kept(conditions: seq<Condition>): seq<Condition> {
    seq(|conditions|, i requires 0 <= i < |conditions| => Persist(conditions[i]))
  }

  lemma {:induction false} FindKept(conditions: seq<Condition>, ctype: string)
    ensures Find(Kept(conditions), ctype) ==
            match Find(conditions, ctype) { case None => None case Some(c) => Some(Persist(c)) }
  {
    if conditions != [] {
      FindKept(conditions[1..], ctype);
      assert Kept(conditions)[1..] == Kept(conditions[1..]);
    }
  }

  /** No pass found all its prerequisites met, and none stored an Error written before the barrier. */
  ghost predicate HeldBack(ctype: string, passes: seq<Pass>) {
    forall j :: 0 <= j < |passes| ==>
      && passes[j].facts.checks != [] && !MeetsAll(ctype, passes, j)
      && !(passes[j].landed && FailsBeforeBarrier(passes[j].facts))
  }

  function PassesOf(runs: seq<Account>, requests: seq<Request>): (passes: seq<Pass>)
    requires |runs| <= |requests|
    ensures |passes| == |runs|
  {
    seq(|runs|, j requires 0 <= j < |runs| => Pass(runs[j].facts, requests[j].landed))
  }

  /** The stored condition that pass k finds. */
  function Before(runs: seq<Account>, requests: seq<Request>, start: Option<Condition>, ctype: string,
                  k: nat): Option<Condition>
    requires k <= |runs| <= |requests|
  {
    Stored(start, ctype, PassesOf(runs, requests)[..k])
  }

  /** A run: each pass did what its request and the condition it found account for, in the world the pass
      before it left. */
  ghost predicate Ran(runs: seq<Account>, spans: seq<Span>, requests: seq<Request>, start: Option<Condition>,
                      ctype: string, uid: Uid)
    requires |runs| == |spans| <= |requests| && AllSuit(requests, ctype)
  {
    forall k :: 0 <= k < |runs| ==> RanAt(runs, spans, requests, start, ctype, uid, k)
  }

  ghost predicate RanAt(runs: seq<Account>, spans: seq<Span>, requests: seq<Request>, start: Option<Condition>,
                        ctype: string, uid: Uid, k: nat)
    requires k < |runs| == |spans| <= |requests| && AllSuit(requests, ctype)
  {
    && Passed(runs[k], spans[k], Before(runs, requests, start, ctype, k), requests[k].plan, requests[k].env, uid,
              requests[k].generation)
    && (k > 0 ==> spans[k].before == spans[k - 1].after)
  }

  lemma PassesOfMore(runs: seq<Account>, run: Account, requests: seq<Request>)
    requires |runs| < |requests|
    ensures PassesOf(runs + [run], requests) == PassesOf(runs, requests) + [Pass(run.facts, requests[|runs|].landed)]
  {
  }

  lemma RanMore(runs: seq<Account>, spans: seq<Span>, requests: seq<Request>, start: Option<Condition>,
                ctype: string, uid: Uid, run: Account, span: Span)
    requires |runs| == |spans| < |requests| && AllSuit(requests, ctype)
    requires Ran(runs, spans, requests, start, ctype, uid)
    requires spans != [] ==> span.before == spans[|spans| - 1].after
    requires Passed(run, span, Before(runs, requests, start, ctype, |runs|), requests[|runs|].plan,
                    requests[|runs|].env, uid, requests[|runs|].generation)
    ensures Ran(runs + [run], spans + [span], requests, start, ctype, uid)
  {
    hide Passed, Stored, Fits, Sound;
    var n := |runs|;
    PassesOfMore(runs, run, requests);
    forall k | 0 <= k <= n ensures RanAt(runs + [run], spans + [span], requests, start, ctype, uid, k) {
      assert PassesOf(runs + [run], requests)[..k] == PassesOf(runs, requests)[..k];
      if k < n {
        assert RanAt(runs, spans, requests, start, ctype, uid, k);
      }
    }
  }

  lemma StoredMore(start: Option<Condition>, ctype: string, passes: seq<Pass>, p: Pass)
    ensures Stored(start, ctype, passes + [p]) ==
            var before := Stored(start, ctype, passes);
            if p.landed then Some(Persist(Outcome(before, ctype, p.facts))) else before
  {
  }

  lemma HeldBackEarlier(ctype: string, passes: seq<Pass>, p: Pass)
    requires HeldBack(ctype, passes + [p])
    ensures HeldBack(ctype, passes)
  {
    var more := passes + [p];
    forall j | 0 <= j < |passes|
      ensures passes[j].facts.checks != [] && !MeetsAll(ctype, passes, j)
      ensures !(passes[j].landed && FailsBeforeBarrier(passes[j].facts))
    {
      assert more[j] == passes[j] && more[..j] == passes[..j];
      assert !MeetsAll(ctype, more, j);
    }
  }

  /** A component held back over its whole past does not engage in a pass that is held back too. */
  lemma HeldBackNeverEngages(ctype: string, passes: seq<Pass>, p: Pass)
    requires HeldBack(ctype, passes + [p])
    ensures HeldBack(ctype, passes) && !Engages(Stored(None, ctype, passes), p.facts)
  {
    HeldBackEarlier(ctype, passes, p);
    var more := passes + [p];
    assert more[..|passes|] == passes && more[|passes|] == p;
    assert forall q <- more :: q.facts.checks != [];
    BarrierStays(ctype, more, |passes|);
    assert !MeetsAll(ctype, more, |passes|);
  }

  /** The writes of a run, pass by pass. */
  function Written(spans: seq<Span>): seq<Write> {
    if spans == [] then [] else Written(spans[..|spans| - 1]) + spans[|spans| - 1].writes
  }

  /** The writes of a pass are safe for the component as built for it, and spare its read-only objects. */
  ghost predicate SafeAndSparing(writes: seq<Write>, plan: Blueprint, uid: Uid) {
    && AllSafe(writes, plan, uid)
    && forall w <- writes, e <- plan.reconcile :: e.options.readOnly ==> w.Target() != e.key
  }

  ghost function CellsOf(requests: seq<Request>): set<Data> {
    set r, c | r in requests && c in PlanCells(r.plan) :: c
  }

  /** The run of a controller over any requests, each with the component as built from the owner it loads, so
      a run may suspend and resume, or change its entries: Ran says what each pass did, the stored condition is
      the one the facts of the passes lead to, every write of every pass is safe and spares the read-only
      objects, and as long as a component that started without a condition is held back, nothing is ever
      applied. */
  method Run(ctype: string, server: Server, uid: Uid, stored: seq<Condition>, requests: seq<Request>)
    returns (after: seq<Condition>, ghost runs: seq<Account>, ghost spans: seq<Span>)
    requires server.Valid() && AllSuit(requests, ctype)
    modifies server, CellsOf(requests)
    ensures server.Valid() && |runs| == |spans| == |requests|
    ensures server.writes == old(server.writes) + Written(spans)
    ensures var start := Find(stored, ctype);
            && Ran(runs, spans, requests, start, ctype, uid)
            && Find(after, ctype) == Before(runs, requests, start, ctype, |runs|)
            && (start == None && HeldBack(ctype, PassesOf(runs, requests)) ==> NoApply(Written(spans)))
    ensures forall k :: 0 <= k < |runs| ==> SafeAndSparing(spans[k].writes, requests[k].plan, uid)
  {
    hide NoApply, Sound, Fits, Passed, Ran, Stored, Find, Outcome, HeldBack, Server.Valid, Engages, Fails, CellsOf,
         SafeAndSparing, PlanCells, AllSuit, PassEnded, Written, PassesOf, Snapshot, CellSet, Persist, Kept;
    ghost var start, begun := Find(stored, ctype), server.writes;
    after, runs, spans := stored, [], [];
    NothingYet(uid, start, ctype, requests);
    for i := 0 to |requests|
      invariant server.Valid() && server.writes == begun + Written(spans)
      invariant |runs| == |spans| == i && Ran(runs, spans, requests, start, ctype, uid)
      invariant spans != [] ==> spans[i - 1].after == server.objects
      invariant Find(after, ctype) == Stored(start, ctype, PassesOf(runs, requests))
      invariant start == None && HeldBack(ctype, PassesOf(runs, requests)) ==> NoApply(Written(spans))
      invariant forall k :: 0 <= k < i ==> SafeAndSparing(spans[k].writes, requests[k].plan, uid)
    {
      var r := requests[i];
      RequestSuits(requests, i, ctype);
      var owner := new Owner(uid, r.generation, after);
      var component := new Component(r.plan);
      ghost var middle, objects := server.writes, server.objects;
      var _, run := component.Reconcile(server, owner, r.env);
      ghost var passes, p := PassesOf(runs, requests), Pass(run.facts, r.landed);
      ghost var span := Span(objects, server.objects, server.archive, server.writes[|middle|..]);
      assert passes[..i] == passes;
      EndedPass(run, span, after, owner.conditions, component.convergedAt, Snapshot(CellSet(r.plan.reconcile)), r, uid,
                ctype);
      RanMore(runs, spans, requests, start, ctype, uid, run, span);
      PassesOfMore(runs, run, requests);
      StoredMore(start, ctype, passes, p);
      WrittenMore(spans, span);
      if start == None && HeldBack(ctype, passes + [p]) {
        HeldBackNeverEngages(ctype, passes, p);
        NoApplyMore(Written(spans), span.writes);
      }
      runs, spans := runs + [run], spans + [span];
      if r.landed {
        after := Kept(owner.conditions);
      }
    }
    assert PassesOf(runs, requests)[..|runs|] == PassesOf(runs, requests);
  }

  lemma RequestSuits(requests: seq<Request>, i: nat, ctype: string)
    requires i < |requests| && AllSuit(requests, ctype)
    ensures Sound(requests[i].plan) && Fits(requests[i].env, requests[i].plan)
    ensures requests[i].plan.conditionType == ctype && PlanCells(requests[i].plan) <= CellsOf(requests)
  {
    assert Suits(requests[i], ctype);
  }

  lemma WrittenMore(spans: seq<Span>, span: Span)
    ensures Written(spans + [span]) == Written(spans) + span.writes
  {
    assert (spans + [span])[..|spans|] == spans;
  }

  /** What the end of a pass means for the run: the condition, and its writes. */
  lemma EndedPass(run: Account, span: Span, found: seq<Condition>, left: seq<Condition>, convergedAt: Option<Time>,
                  cells: map<Data, int>, r: Request, uid: Uid, ctype: string)
    requires Sound(r.plan) && Fits(r.env, r.plan) && r.plan.conditionType == ctype
    requires exists failed ::
               PassEnded(failed, run, span, found, left, convergedAt, cells, r.plan, r.env, uid, r.generation)
    ensures Passed(run, span, Find(found, ctype), r.plan, r.env, uid, r.generation)
    ensures SafeAndSparing(span.writes, r.plan, uid)
    ensures !Engages(Find(found, ctype), run.facts) ==> NoApply(span.writes)
    ensures Find(Kept(left), ctype) == Some(Persist(Outcome(Find(found, ctype), ctype, run.facts)))
  {
    hide Sound, Fits, Outcome, Find, SafeWrite, Engages, Engaged, Conditions.Put, Fails, Observes;
    var stored := Find(found, ctype);
    FindType(found, ctype);
    OutcomeType(stored, ctype, run.facts);
    ConditionWritten(found, Outcome(stored, ctype, run.facts), ctype);
    forall w, e | w in span.writes && e in r.plan.reconcile && e.options.readOnly ensures w.Target() != e.key {
      ReadOnlyUntouched(w, r.plan, uid, e);
    }
  }

  lemma NothingYet(uid: Uid, start: Option<Condition>, ctype: string, requests: seq<Request>)
    requires AllSuit(requests, ctype)
    ensures Written([]) == [] && NoApply([]) && Stored(start, ctype, PassesOf([], requests)) == start
    ensures Ran([], [], requests, start, ctype, uid)
  {
  }

  lemma NoApplyMore(before: seq<Write>, more: seq<Write>)
    ensures NoApply(before + more) <==> NoApply(before) && NoApply(more)
  {
  }

  lemma OutcomeType(stored: Option<Condition>, ctype: string, f: Facts)
    requires stored.Some? ==> stored.value.ctype == ctype
    ensures Outcome(stored, ctype, f).ctype == ctype
  {
  }

  lemma ConditionWritten(conditions: seq<Condition>, cond: Condition, ctype: string)
    requires cond.ctype == ctype
    ensures Find(Kept(Conditions.Put(conditions, cond)), ctype) == Some(Persist(cond))
  {
    PutIsolates(conditions, cond, ctype);
    FindKept(Conditions.Put(conditions, cond), ctype);
  }

  // What holds of every run

  /** The converging handlers answer statuses the framework knows. */
  ghost predicate Knows(env: PassEnv) {
    forall e <- env.entries ::
      e.handler.Some? ==> forall op :: e.handler.value(op).Some? ==> e.handler.value(op).value.ConvergePriority() > 0
  }

  ghost predicate AllKnow(requests: seq<Request>) {
    forall i :: 0 <= i < |requests| ==> Knows(requests[i].env)
  }

  /** Every entry is static or built on one of the four primitives, in the state it has in the pass. */
  ghost predicate OnPrimitives(env: PassEnv) {
    forall e <- env.entries ::
      e.handler.Some? ==>
        exists p: Primitive :: e.grading == Graceful(p.Grace())
                               && forall op :: e.handler.value(op).Some? ==> e.handler.value(op).value == p.Converge(op)
  }

  /** The results of a normal pass are Blocked ones and answers of the handlers. */
  lemma ResultKnown(run: Account, span: Span, plan: Blueprint, env: PassEnv, uid: Uid, r: Result)
    requires Fits(env, plan) && Happened(run, span, plan, env.entries, uid) && run.facts.reconciled.Some?
    requires r in run.facts.reconciled.value
    ensures Knows(env) ==> r.status.ConvergePriority() > 0
    ensures OnPrimitives(env) ==> FromPrimitive(r)
  {
    hide Happened, Fits;
    var e := ResultAnswered(run, span, plan, env, uid, r);
    if r.status != GuardBlocked {
      var op :| e.handler.value(op) == Some(r.status);
      if OnPrimitives(env) {
        var p: Primitive :| e.grading == Graceful(p.Grace())
          && forall op :: e.handler.value(op).Some? ==> e.handler.value(op).value == p.Converge(op);
        assert r.status == p.Converge(op) && r.grading == Graceful(p.Grace());
      }
    }
  }

  lemma ResultAnswered(run: Account, span: Span, plan: Blueprint, env: PassEnv, uid: Uid, r: Result)
    returns (e: Engine.EntryEnv)
    requires Fits(env, plan) && Happened(run, span, plan, env.entries, uid) && run.facts.reconciled.Some?
    requires r in run.facts.reconciled.value
    ensures e in env.entries && r.graded == None && r.grading == e.grading
    ensures r.status == GuardBlocked || (e.handler.Some? && exists op :: e.handler.value(op) == Some(r.status))
  {
    hide Engine.Trace, Engine.GivesUp, Engine.WellFormed, Managed, Engine.ComesTo, Engine.Undisturbed, Engine.Closed,
         Engine.CellsAfter;
    var i := ResultFrom(plan.reconcile, env.entries, run.outcomes, r);
    e := env.entries[i];
    assert Engine.Accounted(plan.reconcile[i], e, run.outcomes[i],
                            Engine.CellsAfter(plan.reconcile, env.entries, run.outcomes[..i]), run.worlds[i],
                            run.worlds[i + 1], span.archive, uid);
  }

  /** The facts of a pass whose handlers know their statuses. */
  lemma ResultsKnown(run: Account, span: Span, stored: Option<Condition>, plan: Blueprint, env: PassEnv, uid: Uid,
                     generation: int)
    requires Fits(env, plan) && Knows(env) && Passed(run, span, stored, plan, env, uid, generation)
    ensures ResultsRecognised(run.facts)
  {
    if run.facts.reconciled.Some? {
      forall r | r in Participators(run.facts.reconciled.value) ensures r.status.ConvergePriority() > 0 {
        ParticipatorsExactly(run.facts.reconciled.value, r);
        ResultKnown(run, span, plan, env, uid, r);
      }
    }
  }

  lemma RanResults(runs: seq<Account>, spans: seq<Span>, requests: seq<Request>, start: Option<Condition>,
                   ctype: string, uid: Uid, k: nat)
    requires k < |runs| == |spans| <= |requests| && AllSuit(requests, ctype) && AllKnow(requests)
    requires Ran(runs, spans, requests, start, ctype, uid)
    ensures ResultsRecognised(runs[k].facts)
    ensures Observes(runs[k].facts, requests[k].env, requests[k].plan, requests[k].generation)
  {
    hide Sound, Fits, Knows, ResultsRecognised;
    assert RanAt(runs, spans, requests, start, ctype, uid, k) && Suits(requests[k], ctype);
    var r := requests[k];
    ResultsKnown(runs[k], spans[k], Before(runs, requests, start, ctype, k), r.plan, r.env, uid, r.generation);
  }

  /** Readiness over runs of a controller whose handlers know their statuses, with the component suspended,
      resumed or changed between requests: in every pass, and in every stored condition, True holds exactly for
      Healthy, Suspended and Disabled; and a pass ending Healthy applied or read every reconcile entry of its
      component or skipped it as absent, found every required one with a status healthy, and finished its
      deletes and releases: none failed, and where nobody interfered with them nothing that is to go is left. */
  lemma RunIsReadyRightly(runs: seq<Account>, spans: seq<Span>, requests: seq<Request>, start: Option<Condition>,
                          ctype: string, uid: Uid, k: nat)
    requires k < |runs| == |spans| <= |requests| && AllSuit(requests, ctype) && AllKnow(requests)
    requires Ran(runs, spans, requests, start, ctype, uid) && (start.Some? ==> Consistent(start.value))
    ensures var before := Before(runs, requests, start, ctype, k);
            var cond := Outcome(before, ctype, runs[k].facts);
            && (before.Some? ==> Consistent(before.value)) && Consistent(cond)
            && (cond.reason == Healthy ==>
                && AllProcessed(requests[k].plan.reconcile, runs[k].outcomes)
                && (assert Suits(requests[k], ctype); runs[k].facts.finished)
                && EndFinished(runs[k], spans[k], requests[k].plan, requests[k].env, uid))
  {
    hide Sound, Fits, Knows, Stored, Outcome, Consistent, ResultsRecognised, Engages, Passed, AllProcessed, Finished;
    var passes := PassesOf(runs, requests);
    forall j | 0 <= j <= k ensures ResultsRecognised(passes[j].facts) {
      RanResults(runs, spans, requests, start, ctype, uid, j);
    }
    ReadinessOverRuns(start, ctype, passes, k);
    assert RanAt(runs, spans, requests, start, ctype, uid, k) && Suits(requests[k], ctype);
    var before := Before(runs, requests, start, ctype, k);
    if Outcome(before, ctype, runs[k].facts).reason == Healthy {
      HealthyPass(before, runs[k], spans[k], requests[k].plan, requests[k].env, uid, requests[k].generation);
    }
  }

  /** No pass up to k converges ready, or is suspended or gated off. */
  ghost predicate NeverReady(runs: seq<Account>, k: nat)
    requires k < |runs|
  {
    forall j :: 0 <= j <= k ==> GateOpen(runs[j].facts) && !runs[j].facts.suspended && !ConvergesReady(runs[j].facts)
  }

  /** The pass got as far as its converge step. */
  predicate Converged(f: Facts) {
    f.mapperPresent && f.reconciled.Some?
  }

  /** The clock of a run that never becomes ready: it runs from the start, or the first pass starts it, from
      outside the machine or from Healthy, and its write lands. */
  predicate RunsClock(runs: seq<Account>, requests: seq<Request>, start: Option<Condition>)
    requires 0 < |runs| <= |requests|
  {
    || (start.Some? && GraceRunning(start.value))
    || (requests[0].landed && Converged(runs[0].facts) && Engages(start, runs[0].facts)
        && (start.Some? && start.value.ready ==> !start.value.reason.GraceTimed()))
  }

  function RunClock(requests: seq<Request>, start: Option<Condition>): Time
    requires requests != []
  {
    if start.Some? && GraceRunning(start.value) then TransitionOf(start.value)
    else ClockAfter(start, requests[0].env.now, requests[0].env.wall)
  }

  lemma NeverReadyFacts(runs: seq<Account>, spans: seq<Span>, requests: seq<Request>, start: Option<Condition>,
                        ctype: string, uid: Uid, k: nat, j: nat)
    requires j <= k < |runs| == |spans| <= |requests| && AllSuit(requests, ctype) && AllKnow(requests)
    requires Ran(runs, spans, requests, start, ctype, uid) && NeverReady(runs, k)
    ensures UnreadyOrFailing(runs[j].facts) && (Converged(runs[j].facts) ==> ConvergesUnready(runs[j].facts))
    ensures Observes(runs[j].facts, requests[j].env, requests[j].plan, requests[j].generation)
  {
    hide AllSuit, AllKnow, Ran;
    RanResults(runs, spans, requests, start, ctype, uid, j);
  }

  lemma ClockRuns(runs: seq<Account>, spans: seq<Span>, requests: seq<Request>, start: Option<Condition>,
                  ctype: string, uid: Uid, k: nat, n: nat)
    requires k < |runs| == |spans| <= |requests| && AllSuit(requests, ctype) && AllKnow(requests)
    requires Ran(runs, spans, requests, start, ctype, uid) && NeverReady(runs, k) && RunsClock(runs, requests, start)
    requires n <= k + 1 && (n == 0 ==> start.Some? && GraceRunning(start.value))
    ensures var passes := PassesOf(runs, requests);
            && ClockStarts(start, passes[..n]) && ClockOf(start, passes[..n]) == RunClock(requests, start)
            && forall j :: 0 <= j <= k ==> UnreadyOrFailing(passes[j].facts)
  {
    hide AllSuit, AllKnow, Stored, Outcome, Engages, Ran, ConvergesUnready, UnreadyOrFailing, NeverReady, Converged;
    forall j | 0 <= j <= k ensures UnreadyOrFailing(PassesOf(runs, requests)[j].facts) {
      NeverReadyFacts(runs, spans, requests, start, ctype, uid, k, j);
    }
    NeverReadyFacts(runs, spans, requests, start, ctype, uid, k, 0);
  }

  /** Grace clock over runs of a controller: a run that never becomes ready keeps, stored, the time its clock
      started at, whatever fails and whatever flushes are lost in between, and whether it began outside the
      converge machine, from Healthy, or with the clock running. */
  lemma RunKeepsClock(runs: seq<Account>, spans: seq<Span>, requests: seq<Request>, start: Option<Condition>,
                      ctype: string, uid: Uid, k: nat)
    requires k < |runs| == |spans| <= |requests| && AllSuit(requests, ctype) && AllKnow(requests)
    requires Ran(runs, spans, requests, start, ctype, uid) && NeverReady(runs, k) && RunsClock(runs, requests, start)
    ensures var c, clock := Before(runs, requests, start, ctype, k + 1), RunClock(requests, start);
            && c.Some? && GraceRunning(c.value)
            && TransitionOf(c.value) ==
               if exists j :: 0 <= j <= k && requests[j].landed then Truncate(clock) else clock
  {
    hide AllSuit, AllKnow, Stored, Ran, NeverReady, RunsClock, UnreadyOrFailing, ClockStarts, ClockOf, RunClock,
         Truncate;
    var passes := PassesOf(runs, requests);
    ClockRuns(runs, spans, requests, start, ctype, uid, k, k + 1);
    GraceClockOverRuns(start, ctype, passes, k + 1);
    assert forall j :: 0 <= j <= k ==> passes[j].landed == requests[j].landed;
  }

  /** The grace period over runs of a controller: such a run over the built-in primitives is graded Degraded or
      Down by the first converge step after the period, or ends with Error when that pass cannot finish its
      deletes and orphans. */
  lemma RunIsGraded(runs: seq<Account>, spans: seq<Span>, requests: seq<Request>, start: Option<Condition>,
                    ctype: string, uid: Uid, k: nat)
    requires k < |runs| == |spans| <= |requests| && AllSuit(requests, ctype) && AllKnow(requests)
    requires Ran(runs, spans, requests, start, ctype, uid) && NeverReady(runs, k) && RunsClock(runs, requests, start)
    requires k == 0 ==> start.Some? && GraceRunning(start.value)
    requires Converged(runs[k].facts) && OnPrimitives(requests[k].env)
    requires requests[k].plan.gracePeriod > 0
    requires requests[k].env.now > RunClock(requests, start) + requests[k].plan.gracePeriod
    ensures var reason := Outcome(Before(runs, requests, start, ctype, k), ctype, runs[k].facts).reason;
            reason in if runs[k].facts.finished then {Degraded, Down} else {Error}
  {
    hide AllSuit, AllKnow, Stored, Outcome, Ran, ConvergesUnready, UnreadyOrFailing, NeverReady, FromPrimitive,
         OnPrimitives, RunsClock, RunClock, ClockStarts, ClockOf;
    ClockRuns(runs, spans, requests, start, ctype, uid, k, k);
    NeverReadyFacts(runs, spans, requests, start, ctype, uid, k, k);
    forall r | r in runs[k].facts.reconciled.value ensures FromPrimitive(r) {
      RanResultsGraded(runs, spans, requests, start, ctype, uid, k, r);
    }
    UnreadyRunIsGraded(start, ctype, PassesOf(runs, requests), k);
  }

  lemma RanResultsGraded(runs: seq<Account>, spans: seq<Span>, requests: seq<Request>, start: Option<Condition>,
                         ctype: string, uid: Uid, k: nat, r: Result)
    requires k < |runs| == |spans| <= |requests| && AllSuit(requests, ctype)
    requires OnPrimitives(requests[k].env) && Ran(runs, spans, requests, start, ctype, uid)
    requires runs[k].facts.reconciled.Some? && r in runs[k].facts.reconciled.value
    ensures FromPrimitive(r)
  {
    hide Fits, Sound;
    assert RanAt(runs, spans, requests, start, ctype, uid, k) && Suits(requests[k], ctype);
    ResultKnown(runs[k], spans[k], requests[k].plan, requests[k].env, uid, r);
  }
}
