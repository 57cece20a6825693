/** The owner's status conditions (pkg/component/conditions.go, and the two ways
    pkg/component/component.go writes them). */
module Conditions {
  import opened Options
  import opened Statuses

  /** Nanoseconds since Go's zero time. */
  type Time = nat

  /** `ready` is the condition status True; `time` is None for Go's zero time. */
  datatype Condition = Condition(ctype: string, ready: bool, reason: Status, generation: int, time: Option<Time>)

  // The constructors of conditions.go. None of them sets a transition time.

  function ConditionReady(ctype: string, generation: int): Condition {
    Condition(ctype, true, Healthy, generation, None)
  }

  function ConditionError(ctype: string, generation: int): Condition {
    Condition(ctype, false, Error, generation, None)
  }

  function ConditionFeatureGateError(ctype: string, generation: int): Condition {
    Condition(ctype, false, FeatureGateError, generation, None)
  }

  function ConditionDisabled(ctype: string, generation: int): Condition {
    Condition(ctype, true, Disabled, generation, None)
  }

  function ConditionPrerequisiteNotMet(ctype: string, generation: int): Condition {
    Condition(ctype, false, PrerequisiteNotMet, generation, None)
  }

  function ConditionUnknown(ctype: string, generation: int): Condition {
    Condition(ctype, false, Unknown, generation, None)
  }

  function ConvergingCondition(ctype: string, converging: Status, generation: int): Condition {
    Condition(ctype, converging.IsHealthy(), converging, generation, None)
  }

  function SuspendingCondition(ctype: string, suspending: Status, generation: int): Condition {
    Condition(ctype, suspending == Suspended, suspending, generation, None)
  }

  function GraceCondition(ctype: string, gracing: Status, generation: int): Condition {
    Condition(ctype, false, gracing, generation, None)
  }

  /** The first condition of the given type (meta.FindStatusCondition). */
  function Find(conditions: seq<Condition>, ctype: string): Option<Condition> {
    if conditions == [] then None
    else if conditions[0].ctype == ctype then Some(conditions[0])
    else Find(conditions[1..], ctype)
  }

  /** GetCondition: a missing condition reads as Unknown. */
  function Current(stored: Option<Condition>, ctype: string, generation: int): Condition {
    match stored
    case Some(c) => c
    case None => ConditionUnknown(ctype, generation)
  }

  /** What meta.SetStatusCondition stores: the old transition time survives an unchanged status, and
      a changed one takes the new condition's time or, when that is zero, the wall clock. */
  function Merge(stored: Option<Condition>, cond: Condition, wall: Time): Condition {
    var stamp := if cond.time.Some? then cond.time else Some(wall);
    if stored.Some? && stored.value.ready == cond.ready
    then cond.(time := stored.value.time)
    else cond.(time := stamp)
  }

  /** `cond` written at the place of the first condition of its type, or appended. */
  function Put(conditions: seq<Condition>, cond: Condition): seq<Condition> {
    if conditions == [] then [cond]
    else if conditions[0].ctype == cond.ctype then [cond] + conditions[1..]
    else [conditions[0]] + Put(conditions[1..], cond)
  }

  function Types(conditions: seq<Condition>): (types: seq<string>)
    ensures |types| == |conditions|
  {
    seq(|conditions|, i requires 0 <= i < |conditions| => conditions[i].ctype)
  }

  /** Writing one component's condition is seen by that component and by no other: several
      components share the owner's list. */
  lemma {:induction false} PutIsolates(conditions: seq<Condition>, cond: Condition, other: string)
    ensures Find(Put(conditions, cond), cond.ctype) == Some(cond)
    ensures other != cond.ctype ==> Find(Put(conditions, cond), other) == Find(conditions, other)
  {
    if conditions != [] && conditions[0].ctype != cond.ctype {
      PutIsolates(conditions[1..], cond, other);
    }
  }

  /** The order of the types never changes, and a type is appended only when it was absent. */
  lemma {:induction false} PutKeepsOrder(conditions: seq<Condition>, cond: Condition)
    ensures Types(Put(conditions, cond)) ==
            Types(conditions) + if Find(conditions, cond.ctype).Some? then [] else [cond.ctype]
  {
    if conditions != [] && conditions[0].ctype != cond.ctype {
      PutKeepsOrder(conditions[1..], cond);
      var tail := Put(conditions[1..], cond);
      assert ([conditions[0]] + tail)[1..] == tail;
      assert Types([conditions[0]] + tail) == [conditions[0].ctype] + Types(tail);
      assert Types(conditions) == [conditions[0].ctype] + Types(conditions[1..]);
    }
  }

  lemma {:induction false} PutAt(conditions: seq<Condition>, cond: Condition, i: nat)
    requires i < |conditions| && conditions[i].ctype == cond.ctype
    requires forall j :: 0 <= j < i ==> conditions[j].ctype != cond.ctype
    ensures Put(conditions, cond) == conditions[i := cond]
    ensures Find(conditions, cond.ctype) == Some(conditions[i])
  {
    if i > 0 {
      PutAt(conditions[1..], cond, i - 1);
    }
  }

  lemma {:induction false} PutAppends(conditions: seq<Condition>, cond: Condition)
    requires forall j :: 0 <= j < |conditions| ==> conditions[j].ctype != cond.ctype
    ensures Put(conditions, cond) == conditions + [cond]
    ensures Find(conditions, cond.ctype) == None
  {
    if conditions != [] {
      PutAppends(conditions[1..], cond);
    }
  }

  lemma {:induction false} FindType(conditions: seq<Condition>, ctype: string)
    ensures Find(conditions, ctype).Some? ==> Find(conditions, ctype).value.ctype == ctype
  {
    if conditions != [] {
      FindType(conditions[1..], ctype);
    }
  }

  /** Of two writes of one type the later stands. */
  lemma {:induction false} PutTwice(conditions: seq<Condition>, first: Condition, second: Condition)
    requires first.ctype == second.ctype
    ensures Put(Put(conditions, first), second) == Put(conditions, second)
  {
    if conditions != [] && conditions[0].ctype != first.ctype {
      PutTwice(conditions[1..], first, second);
      assert Put(conditions, first)[1..] == Put(conditions[1..], first);
    }
  }

  /** The custom resource whose status holds the conditions. */
  class Owner {
    const uid: nat
    var generation: int
    var conditions: seq<Condition>

    constructor (uid: nat, generation: int, conditions: seq<Condition>)
      ensures this.uid == uid && this.generation == generation && this.conditions == conditions
    {
      this.uid := uid;
      this.generation := generation;
      this.conditions := conditions;
    }

    /** replaceStatusCondition: takes the value verbatim, transition time included. */
    method ReplaceStatusCondition(cond: Condition)
      modifies this`conditions
      ensures conditions == Put(old(conditions), cond)
    {
      var i := 0;
      while i < |conditions|
        invariant 0 <= i <= |conditions|
        invariant conditions == old(conditions)
        invariant forall j :: 0 <= j < i ==> conditions[j].ctype != cond.ctype
      {
        if conditions[i].ctype == cond.ctype {
          PutAt(conditions, cond, i);
          conditions := conditions[i := cond];
          return;
        }
        i := i + 1;
      }
      PutAppends(conditions, cond);
      conditions := conditions + [cond];
    }

    /** meta.SetStatusCondition, as applyStatusCondition calls it. */
    method SetStatusCondition(cond: Condition, wall: Time)
      modifies this`conditions
      ensures conditions == Put(old(conditions), Merge(Find(old(conditions), cond.ctype), cond, wall))
    {
      var i := 0;
      while i < |conditions|
        invariant 0 <= i <= |conditions|
        invariant conditions == old(conditions)
        invariant forall j :: 0 <= j < i ==> conditions[j].ctype != cond.ctype
      {
        if conditions[i].ctype == cond.ctype {
          var existing := conditions[i];
          var time := existing.time;
          if existing.ready != cond.ready {
            time := if cond.time.Some? then cond.time else Some(wall);
          }
          PutAt(conditions, cond.(time := time), i);
          conditions := conditions[i := cond.(time := time)];
          return;
        }
        i := i + 1;
      }
      var stamped := cond.(time := if cond.time.Some? then cond.time else Some(wall));
      PutAppends(conditions, stamped);
      conditions := conditions + [stamped];
    }
  }
}
