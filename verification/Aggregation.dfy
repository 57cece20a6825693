/** Collapsing the conditions of several components into one (pkg/component/aggregate.go). */
module Aggregation {
  import opened Options
  import opened Statuses
  import opened Conditions

  /** What GetCondition answers for one component. */
  datatype Member = Member(name: string, condition: Condition)

  datatype Aggregated = Aggregated(ready: bool, reason: Status, governing: Option<string>)

  predicate Supersedes(candidate: Condition, current: Condition) {
    if candidate.ready != current.ready then current.ready
    else candidate.reason.Priority() > current.reason.Priority()
  }

  method Aggregate(members: seq<Member>) returns (r: Aggregated)
    ensures r.ready <==> members != [] && forall m <- members :: m.condition.ready
    ensures members == [] ==> r.reason == Unknown && r.governing == None
    ensures members != [] ==>
              var g := Governing(members);
              r.reason == members[g].condition.reason && r.governing == Some(members[g].name)
  {
    if members == [] {
      return Aggregated(false, Unknown, None);
    }
    hide Supersedes, Governing;
    var governing, unanimous := 0, true;
    for i := 0 to |members|
      invariant unanimous <==> forall m <- members[..i] :: m.condition.ready
      invariant i == 0 ==> governing == 0
      invariant i > 0 ==> governing == Governing(members[..i])
    {
      assert members[..i + 1] == members[..i] + [members[i]];
      GoverningStep(members, i);
      if !members[i].condition.ready {
        unanimous := false;
      }
      if i == 0 || Supersedes(members[i].condition, members[governing].condition) {
        governing := i;
      }
    }
    assert members[..|members|] == members;
    return Aggregated(unanimous, members[governing].condition.reason, Some(members[governing].name));
  }

  lemma GoverningStep(members: seq<Member>, i: nat)
    requires i < |members|
    ensures Governing(members[..i + 1]) ==
            if i == 0 then 0
            else
              var before := Governing(members[..i]);
              if Supersedes(members[i].condition, members[before].condition) then i else before
  {
    assert members[..i + 1][..i] == members[..i];
  }

  function Governing(members: seq<Member>): (g: nat)
    requires members != []
    ensures g < |members|
  {
    var n := |members| - 1;
    if n == 0 then 0
    else
      var before := Governing(members[..n]);
      if Supersedes(members[n].condition, members[before].condition) then n else before
  }

  /** How much a condition claims the reader's attention: a False one before any True one, then by
      priority. */
  function Weight(c: Condition): nat {
    (if c.ready then 0 else 100) + c.reason.Priority()
  }

  lemma WeightIsOrder(a: Condition, b: Condition)
    ensures Supersedes(a, b) <==> Weight(a) > Weight(b)
  {
  }

  /** The governing member is the first of greatest weight, and there is only one such place. */
  lemma {:induction false} GoverningExactly(members: seq<Member>, g: nat)
    requires g < |members|
    ensures g == Governing(members) <==>
            && (forall j :: 0 <= j < |members| ==> Weight(members[j].condition) <= Weight(members[g].condition))
            && (forall j :: 0 <= j < g ==> Weight(members[j].condition) < Weight(members[g].condition))
  {
    GoverningIsFirst(members);
  }

  lemma {:induction false} GoverningIsFirst(members: seq<Member>)
    requires members != []
    ensures var g := Governing(members);
            && (forall j :: 0 <= j < |members| ==> Weight(members[j].condition) <= Weight(members[g].condition))
            && (forall j :: 0 <= j < g ==> Weight(members[j].condition) < Weight(members[g].condition))
  {
    hide Weight, Supersedes;
    var n := |members| - 1;
    if n > 0 {
      GoverningIsFirst(members[..n]);
      WeightIsOrder(members[n].condition, members[Governing(members[..n])].condition);
    }
  }

  /** The reasons a component may report, the ones that claim more attention first. */
  const ATTENTION := [
    Error, Down, Degraded, PendingSuspension, Suspending, Suspended, Disabled, AliveFailing, OperationFailing,
    CompletionFailing, GuardBlocked, AliveScaling, CompletionRunning, AliveUpdating, AliveCreating, OperationPending,
    CompletionPending, Healthy, Operational, Completed]

  /** Two reasons claim as much attention as another one. */
  function Claim(reason: Status): Status {
    if reason == FeatureGateError then Error else if reason == PrerequisiteNotMet then GuardBlocked else reason
  }

  lemma AttentionIsPriority(i: nat)
    requires i < |ATTENTION|
    ensures ATTENTION[i].Priority() == |ATTENTION| - i
  {
  }

  lemma ClaimIsPriority(reason: Status)
    ensures Claim(reason).Priority() == reason.Priority()
  {
  }

  /** The governing condition is False when any is; and no other of the same truth stands earlier in that list. */
  lemma GoverningByAttention(members: seq<Member>, m: Member, i: nat, j: nat)
    requires m in members && i < |ATTENTION| && j < |ATTENTION|
    ensures var c := members[Governing(members)].condition;
            && (c.ready ==> m.condition.ready)
            && (c.ready == m.condition.ready && Claim(c.reason) == ATTENTION[i]
                  && Claim(m.condition.reason) == ATTENTION[j]
                ==> i <= j)
  {
    hide Governing, Status.Priority, Claim;
    var c := members[Governing(members)].condition;
    AtMostGoverning(members, m);
    TruthFollowsGovernor(members);
    AttentionIsPriority(i);
    AttentionIsPriority(j);
    ClaimIsPriority(c.reason);
    ClaimIsPriority(m.condition.reason);
  }

  /** The governing weight, and with it the truth of the aggregate, does not depend on the order in which
      the components are passed. Only a tie in weight is decided by position. */
  lemma OrderIrrelevant(a: seq<Member>, b: seq<Member>)
    requires a != [] && multiset(a) == multiset(b)
    ensures b != []
    ensures Weight(a[Governing(a)].condition) == Weight(b[Governing(b)].condition)
    ensures (forall m <- a :: m.condition.ready) <==> (forall m <- b :: m.condition.ready)
  {
    hide Weight, Governing;
    assert a[0] in multiset(b);
    SameMembers(a, b);
    AtMostGoverning(a, b[Governing(b)]);
    AtMostGoverning(b, a[Governing(a)]);
  }

  lemma AtMostGoverning(members: seq<Member>, m: Member)
    requires m in members
    ensures Weight(m.condition) <= Weight(members[Governing(members)].condition)
  {
    hide Weight, Governing;
    GoverningIsFirst(members);
    var j :| 0 <= j < |members| && members[j] == m;
  }

  lemma SameMembers(a: seq<Member>, b: seq<Member>)
    requires multiset(a) == multiset(b)
    ensures forall m :: m in a <==> m in b
  {
    forall m ensures m in a <==> m in b {
      assert m in a <==> m in multiset(a);
    }
  }

  /** The aggregate is True exactly when nothing governs it with a False condition. */
  lemma TruthFollowsGovernor(members: seq<Member>)
    requires members != []
    ensures (forall m <- members :: m.condition.ready) <==> members[Governing(members)].condition.ready
  {
  }
}
