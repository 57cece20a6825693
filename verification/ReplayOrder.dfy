/** What running the presence operations of a plan again does to the order of the containers
    (applyPresenceOp in pkg/primitives/deployment/mutator.go, ApplyMutations in
    pkg/generic/mutate_helper.go). */
module ReplayOrder {
  import opened Options
  import opened Mutators

  function Names(containers: seq<Container>): (names: seq<string>)
    ensures |names| == |containers|
  {
    seq(|containers|, i requires 0 <= i < |containers| => containers[i].name)
  }

  predicate Unique(names: seq<string>) {
    forall i, j :: 0 <= i < j < |names| ==> names[i] != names[j]
  }

  function Drop(names: seq<string>, n: string): seq<string> {
    if names == [] then []
    else if names[0] == n then Drop(names[1..], n)
    else [names[0]] + Drop(names[1..], n)
  }

  /** A presence operation on the names alone. */
  function Place(names: seq<string>, op: PresenceOp): seq<string> {
    if op.Remove? then Drop(names, op.name)
    else if op.container.name in names then names
    else names + [op.container.name]
  }

  function PlaceAll(names: seq<string>, ops: seq<PresenceOp>): seq<string> {
    if ops == [] then names else Place(PlaceAll(names, ops[..|ops| - 1]), ops[|ops| - 1])
  }

  predicate Removes(ops: seq<PresenceOp>, n: string) {
    exists i :: 0 <= i < |ops| && ops[i] == Remove(n)
  }

  predicate Ensures(ops: seq<PresenceOp>, n: string) {
    exists i :: 0 <= i < |ops| && ops[i].Ensure? && ops[i].Name() == n
  }

  /** The names some operation removes. */
  function Removed(ops: seq<PresenceOp>): set<string> {
    set i | 0 <= i < |ops| && ops[i].Remove? :: ops[i].name
  }

  function Keep(names: seq<string>, which: set<string>): seq<string> {
    if names == [] then []
    else if names[0] in which then [names[0]] + Keep(names[1..], which)
    else Keep(names[1..], which)
  }

  function Leave(names: seq<string>, which: set<string>): seq<string> {
    if names == [] then []
    else if names[0] in which then Leave(names[1..], which)
    else [names[0]] + Leave(names[1..], which)
  }

  // Filters and single operations

  lemma {:induction false} KeepAppend(names: seq<string>, n: string, which: set<string>)
    ensures Keep(names + [n], which) == Keep(names, which) + if n in which then [n] else []
    ensures Leave(names + [n], which) == Leave(names, which) + if n in which then [] else [n]
  {
    if names != [] {
      KeepAppend(names[1..], n, which);
      assert (names + [n])[1..] == names[1..] + [n];
    } else {
      assert (names + [n])[1..] == [];
    }
  }

  lemma {:induction false} KeepIn(names: seq<string>, which: set<string>, n: string)
    ensures n in Keep(names, which) <==> n in names && n in which
    ensures n in Leave(names, which) <==> n in names && n !in which
  {
    if names != [] {
      KeepIn(names[1..], which, n);
      assert names == [names[0]] + names[1..];
    }
  }

  lemma {:induction false} DropIn(names: seq<string>, n: string, m: string)
    ensures m in Drop(names, n) <==> m in names && m != n
  {
    if names != [] {
      DropIn(names[1..], n, m);
      assert names == [names[0]] + names[1..];
    }
  }

  lemma {:induction false} DropAbsent(names: seq<string>, n: string)
    requires n !in names
    ensures Drop(names, n) == names
  {
    if names != [] {
      DropAbsent(names[1..], n);
    }
  }

  lemma {:induction false} KeepDrop(names: seq<string>, n: string, which: set<string>)
    ensures Keep(Drop(names, n), which + {n}) == Drop(Keep(names, which), n)
    ensures n in which ==> Leave(Drop(names, n), which) == Leave(names, which)
  {
    if names != [] {
      KeepDrop(names[1..], n, which);
      var head := names[0];
      if head != n {
        assert ([head] + Drop(names[1..], n))[1..] == Drop(names[1..], n);
        assert ([head] + Keep(names[1..], which))[1..] == Keep(names[1..], which);
      }
    }
  }

  lemma RemovedMore(ops: seq<PresenceOp>, op: PresenceOp)
    ensures Removed(ops + [op]) == if op.Remove? then Removed(ops) + {op.name} else Removed(ops)
  {
    var more := ops + [op];
    assert forall i :: 0 <= i < |ops| ==> more[i] == ops[i];
    assert more[|ops|] == op;
  }

  lemma RemovedExactly(ops: seq<PresenceOp>, n: string)
    ensures n in Removed(ops) <==> Removes(ops, n)
  {
  }

  // A second run, on the names

  /** The removed names end up in the same order from whatever list the operations start. */
  lemma {:induction false} RemovedAlike(a: seq<string>, b: seq<string>, ops: seq<PresenceOp>)
    ensures Keep(PlaceAll(a, ops), Removed(ops)) == Keep(PlaceAll(b, ops), Removed(ops))
  {
    hide Place, Removed;
    if ops == [] {
      NothingRemoved();
      KeepNothing(a);
      KeepNothing(b);
    } else {
      var init, op := ops[..|ops| - 1], ops[|ops| - 1];
      assert ops == init + [op];
      RemovedAlike(a, b, init);
      RemovedMore(init, op);
      PlaceAlike(PlaceAll(a, init), PlaceAll(b, init), op, Removed(init));
    }
  }

  lemma NothingRemoved()
    ensures Removed([]) == {}
  {
  }

  lemma PlaceAlike(x: seq<string>, y: seq<string>, op: PresenceOp, which: set<string>)
    requires Keep(x, which) == Keep(y, which)
    ensures var more := if op.Remove? then which + {op.name} else which;
            Keep(Place(x, op), more) == Keep(Place(y, op), more)
  {
    if op.Remove? {
      KeepDrop(x, op.name, which);
      KeepDrop(y, op.name, which);
    } else {
      KeepIn(x, which, op.container.name);
      KeepIn(y, which, op.container.name);
      KeepAppend(x, op.container.name, which);
      KeepAppend(y, op.container.name, which);
    }
  }

  lemma {:induction false} KeepNothing(names: seq<string>)
    ensures Keep(names, {}) == []
  {
    if names != [] {
      KeepNothing(names[1..]);
    }
  }

  /** The list holds the names that operations ensure and none removes. */
  predicate Settled(s: seq<string>, ops: seq<PresenceOp>, which: set<string>) {
    forall i :: 0 <= i < |ops| ==>
      if ops[i].Remove? then ops[i].name in which else ops[i].container.name in which || ops[i].container.name in s
  }

  /** Names that no operation removes stay where they are, once the ensured ones are there. */
  lemma {:induction false} OthersStay(s: seq<string>, ops: seq<PresenceOp>, which: set<string>)
    requires Settled(s, ops, which)
    ensures Leave(PlaceAll(s, ops), which) == Leave(s, which)
  {
    hide Place;
    if ops != [] {
      var init, op := ops[..|ops| - 1], ops[|ops| - 1];
      OthersStay(s, init, which);
      var x := PlaceAll(s, init);
      if op.Ensure? {
        KeepIn(x, which, op.container.name);
        KeepIn(s, which, op.container.name);
      }
      PlaceStays(x, op, which);
    }
  }

  lemma PlaceStays(x: seq<string>, op: PresenceOp, which: set<string>)
    requires if op.Remove? then op.name in which else op.container.name in which || op.container.name in x
    ensures Leave(Place(x, op), which) == Leave(x, which)
  {
    if op.Remove? {
      KeepDrop(x, op.name, which);
    } else {
      KeepAppend(x, op.container.name, which);
    }
  }

  /** No name of `first` stands before a name outside `all`. */
  predicate Sorted(names: seq<string>, first: set<string>, all: set<string>) {
    forall i, j :: 0 <= i < j < |names| && names[i] in first ==> names[j] in all
  }

  lemma {:induction false} SortedDrop(names: seq<string>, n: string, first: set<string>, all: set<string>)
    requires Sorted(names, first, all)
    ensures Sorted(Drop(names, n), first + {n}, all)
  {
    if names != [] {
      var rest := names[1..];
      assert forall i :: 0 <= i < |rest| ==> rest[i] == names[i + 1];
      SortedDrop(rest, n, first, all);
      if names[0] != n {
        var d := Drop(rest, n);
        forall j | 0 <= j < |d| ensures names[0] in first ==> d[j] in all {
          DropIn(rest, n, d[j]);
          var k :| 0 <= k < |rest| && rest[k] == d[j];
          assert names[k + 1] == d[j];
        }
        var whole := [names[0]] + d;
        forall i, j | 0 <= i < j < |whole| && whole[i] in first + {n} ensures whole[j] in all {
          if i > 0 {
            assert d[i - 1] == whole[i] && d[j - 1] == whole[j];
          } else {
            assert d[j - 1] == whole[j];
          }
        }
      }
    }
  }

  lemma {:induction false} RemovedLast(s: seq<string>, ops: seq<PresenceOp>, which: set<string>)
    requires Settled(s, ops, which)
    ensures Sorted(PlaceAll(s, ops), Removed(ops), which)
  {
    hide Place, Removed;
    if ops == [] {
      NothingRemoved();
    } else {
      var init, op := ops[..|ops| - 1], ops[|ops| - 1];
      assert ops == init + [op];
      RemovedMore(init, op);
      RemovedLast(s, init, which);
      OthersStay(s, init, which);
      if op.Ensure? {
        KeepIn(PlaceAll(s, init), which, op.container.name);
        KeepIn(s, which, op.container.name);
      }
      PlaceSorted(PlaceAll(s, init), op, Removed(init), which);
    }
  }

  lemma PlaceSorted(x: seq<string>, op: PresenceOp, first: set<string>, which: set<string>)
    requires Sorted(x, first, which)
    requires op.Ensure? ==> op.container.name in which || op.container.name in x
    ensures Sorted(Place(x, op), if op.Remove? then first + {op.name} else first, which)
  {
    if op.Remove? {
      SortedDrop(x, op.name, first, which);
    }
  }

  lemma {:induction false} SortedSplits(names: seq<string>, which: set<string>)
    requires Sorted(names, which, which)
    ensures names == Leave(names, which) + Keep(names, which)
  {
    if names != [] {
      if names[0] in which {
        AllIn(names, which);
      } else {
        SortedTail(names, which);
        SortedSplits(names[1..], which);
      }
    }
  }

  lemma SortedTail(names: seq<string>, which: set<string>)
    requires names != [] && Sorted(names, which, which)
    ensures Sorted(names[1..], which, which)
  {
    var rest := names[1..];
    forall i, j | 0 <= i < j < |rest| && rest[i] in which ensures rest[j] in which {
      assert names[i + 1] == rest[i] && names[j + 1] == rest[j];
    }
  }

  lemma {:induction false} AllIn(names: seq<string>, which: set<string>)
    requires forall i :: 0 <= i < |names| ==> names[i] in which
    ensures Leave(names, which) == [] && Keep(names, which) == names
  {
    if names != [] {
      AllIn(names[1..], which);
    }
  }

  lemma {:induction false} EnsuredStays(names: seq<string>, ops: seq<PresenceOp>, n: string)
    requires !Removes(ops, n) && (n in names || Ensures(ops, n))
    ensures n in PlaceAll(names, ops)
  {
    if ops != [] {
      var init, op := ops[..|ops| - 1], ops[|ops| - 1];
      if op.Name() == n {
        assert ops[|ops| - 1] == op;
        assert op.Ensure?;
      } else {
        if Ensures(ops, n) {
          var i :| 0 <= i < |ops| && ops[i].Ensure? && ops[i].Name() == n;
          assert init[i] == ops[i];
        }
        EnsuredStays(names, init, n);
        DropIn(PlaceAll(names, init), op.Name(), n);
      }
    }
  }

  /** The order after a second run: what no operation removes keeps its order and comes first, what some
      operation removes follows in its old order. */
  lemma SecondRun(names: seq<string>, ops: seq<PresenceOp>)
    ensures var s := PlaceAll(names, ops);
            PlaceAll(s, ops) == Leave(s, Removed(ops)) + Keep(s, Removed(ops))
  {
    var s, which := PlaceAll(names, ops), Removed(ops);
    forall i | 0 <= i < |ops|
      ensures if ops[i].Remove? then ops[i].name in which
              else ops[i].container.name in which || ops[i].container.name in s
    {
      if ops[i].Ensure? {
        RemovedExactly(ops, ops[i].container.name);
        if ops[i].container.name !in which {
          EnsuredStays(names, ops, ops[i].container.name);
        }
      }
    }
    RemovedLast(s, ops, which);
    SortedSplits(PlaceAll(s, ops), which);
    OthersStay(s, ops, which);
    RemovedAlike(names, s, ops);
  }

  // From names to containers

  lemma PlaceNames(containers: seq<Container>, op: PresenceOp)
    requires UniqueNames(containers)
    ensures Names(Present(containers, op)) == Place(Names(containers), op)
  {
    hide UniqueNames, Drop;
    var k := FirstNamed(containers, op.Name());
    if op.Ensure? {
      EnsureNames(containers, op.container, k);
    } else if k < |containers| {
      OthersDiffer(containers, k);
      DropOne(Names(containers), op.name, k);
      CutNames(containers, k);
    } else {
      assert op.name !in Names(containers);
      DropAbsent(Names(containers), op.name);
    }
  }

  lemma EnsureNames(containers: seq<Container>, c: Container, k: nat)
    requires k == FirstNamed(containers, c.name)
    ensures c.name in Names(containers) <==> k < |containers|
    ensures k < |containers| ==> Names(containers[k := c]) == Names(containers)
    ensures Names(containers + [c]) == Names(containers) + [c.name]
  {
    if k < |containers| {
      assert Names(containers)[k] == c.name;
    }
  }

  lemma CutNames(containers: seq<Container>, k: nat)
    requires k < |containers|
    ensures Names(containers[..k] + containers[k + 1..]) == Names(containers)[..k] + Names(containers)[k + 1..]
  {
  }

  lemma OthersDiffer(containers: seq<Container>, k: nat)
    requires UniqueNames(containers) && k < |containers|
    ensures forall i :: 0 <= i < |containers| && i != k ==> Names(containers)[i] != Names(containers)[k]
  {
  }

  lemma {:induction false} DropOne(names: seq<string>, n: string, k: nat)
    requires k < |names| && names[k] == n && forall i :: 0 <= i < |names| && i != k ==> names[i] != n
    ensures Drop(names, n) == names[..k] + names[k + 1..]
  {
    var rest := names[1..];
    assert forall i :: 0 <= i < |rest| ==> rest[i] == names[i + 1];
    if k == 0 {
      assert n !in rest;
      DropAbsent(rest, n);
    } else {
      DropOne(rest, n, k - 1);
      assert names[..k] + names[k + 1..] == [names[0]] + (rest[..k - 1] + rest[k..]);
    }
  }

  lemma {:induction false} PlaceAllNames(containers: seq<Container>, ops: seq<PresenceOp>)
    requires UniqueNames(containers)
    ensures UniqueNames(PresentAll(containers, ops)) && Names(PresentAll(containers, ops)) ==
              PlaceAll(Names(containers), ops)
  {
    hide Place, Present, UniqueNames, ByName, Others;
    if ops != [] {
      var init, op := ops[..|ops| - 1], ops[|ops| - 1];
      PlaceAllNames(containers, init);
      PlaceNames(PresentAll(containers, init), op);
      PresenceRefinesMap(PresentAll(containers, init), op);
    }
  }

  /** The operations as an update of the map by name. */
  function UpdatedAll(m: map<string, Container>, ops: seq<PresenceOp>): map<string, Container> {
    if ops == [] then m else Updated(UpdatedAll(m, ops[..|ops| - 1]), ops[|ops| - 1])
  }

  lemma {:induction false} PresentAllRefinesMap(containers: seq<Container>, ops: seq<PresenceOp>)
    requires UniqueNames(containers)
    ensures UniqueNames(PresentAll(containers, ops)) && ByName(PresentAll(containers, ops)) ==
              UpdatedAll(ByName(containers), ops)
  {
    hide Present, UniqueNames, ByName, Others;
    if ops != [] {
      PresentAllRefinesMap(containers, ops[..|ops| - 1]);
      PresenceRefinesMap(PresentAll(containers, ops[..|ops| - 1]), ops[|ops| - 1]);
    }
  }

  /** Two maps that went through the same operations agree on every name an operation is about. */
  lemma {:induction false} UpdatedAlike(a: map<string, Container>, b: map<string, Container>, ops: seq<PresenceOp>,
                                        n: string)
    ensures var x, y := UpdatedAll(a, ops), UpdatedAll(b, ops);
            if exists i :: 0 <= i < |ops| && ops[i].Name() == n
            then (n in x <==> n in y) && (n in x ==> x[n] == y[n])
            else (n in x <==> n in a) && (n in x ==> x[n] == a[n]) && (n in y <==> n in b) && (n in y ==> y[n] == b[n])
  {
    if ops != [] {
      var init, op := ops[..|ops| - 1], ops[|ops| - 1];
      UpdatedAlike(a, b, init, n);
      if op.Name() != n && exists i :: 0 <= i < |ops| && ops[i].Name() == n {
        var i :| 0 <= i < |ops| && ops[i].Name() == n;
        assert init[i].Name() == n;
      }
      if exists i :: 0 <= i < |init| && init[i].Name() == n {
        var i :| 0 <= i < |init| && init[i].Name() == n;
        assert ops[i].Name() == n;
      }
    }
  }

  lemma UpdatedTwice(m: map<string, Container>, ops: seq<PresenceOp>)
    ensures UpdatedAll(UpdatedAll(m, ops), ops) == UpdatedAll(m, ops)
  {
    var once := UpdatedAll(m, ops);
    var twice := UpdatedAll(once, ops);
    forall n ensures (n in twice <==> n in once) && (n in twice ==> twice[n] == once[n]) {
      UpdatedAlike(once, m, ops, n);
    }
  }

  /** On unique names a list is its names and its map. */
  lemma SameList(a: seq<Container>, b: seq<Container>)
    requires UniqueNames(a) && UniqueNames(b) && Names(a) == Names(b) && ByName(a) == ByName(b)
    ensures a == b
  {
    hide ByName;
    ByNameExactly(a);
    ByNameExactly(b);
    forall i | 0 <= i < |a| ensures a[i] == b[i] {
      assert Names(a)[i] == Names(b)[i];
      assert a[i] in a && b[i] in b;
    }
  }

  /** Some name that an operation removes stands before one that no operation removes. */
  predicate Disordered(names: seq<string>, which: set<string>) {
    exists i, j :: 0 <= i < j < |names| && names[i] in which && names[j] !in which
  }

  lemma {:induction false} SplitSorted(names: seq<string>, which: set<string>)
    requires names == Leave(names, which) + Keep(names, which)
    ensures !Disordered(names, which)
  {
    var k := |Leave(names, which)|;
    forall i | 0 <= i < |names| ensures names[i] in which <==> i >= k {
      KeepIn(names, which, names[i]);
      if i < k {
        assert names[i] == Leave(names, which)[i];
        KeepIn(names, which, Leave(names, which)[i]);
      } else {
        assert names[i] == Keep(names, which)[i - k];
        KeepIn(names, which, Keep(names, which)[i - k]);
      }
    }
  }

  /** A second run keeps the list exactly when no removed name stands before a name that is never removed;
      in any case it changes nothing but the order. */
  lemma SecondRunKeeps(containers: seq<Container>, ops: seq<PresenceOp>)
    requires UniqueNames(containers)
    ensures var once := PresentAll(containers, ops);
            var twice := PresentAll(once, ops);
            && UniqueNames(once) && UniqueNames(twice) && ByName(twice) == ByName(once)
            && Names(twice) == Leave(Names(once), Removed(ops)) + Keep(Names(once), Removed(ops))
            && (twice == once <==> !Disordered(Names(once), Removed(ops)))
  {
    hide PresentAll, PlaceAll, Removed, ByName, UniqueNames, Leave, Keep;
    var once := PresentAll(containers, ops);
    PlaceAllNames(containers, ops);
    PlaceAllNames(once, ops);
    PresentAllRefinesMap(containers, ops);
    PresentAllRefinesMap(once, ops);
    UpdatedTwice(ByName(containers), ops);
    SecondRun(Names(containers), ops);
    var twice := PresentAll(once, ops);
    if twice == once {
      SplitSorted(Names(once), Removed(ops));
    }
    if !Disordered(Names(once), Removed(ops)) {
      assert Sorted(Names(once), Removed(ops), Removed(ops));
      SortedSplits(Names(once), Removed(ops));
      SameList(twice, once);
    }
  }

  // The condition on the list and the operations themselves

  /** `m` occurs, and `n` does not occur before it. */
  predicate Precedes(names: seq<string>, m: string, n: string) {
    names != [] && (names[0] == m || (names[0] != n && Precedes(names[1..], m, n)))
  }

  lemma {:induction false} PrecedesIn(names: seq<string>, m: string, n: string)
    ensures Precedes(names, m, n) ==> m in names
    ensures m in names && n !in names ==> Precedes(names, m, n)
  {
    if names != [] {
      PrecedesIn(names[1..], m, n);
    }
  }

  lemma {:induction false} PrecedesAppend(names: seq<string>, m: string, n: string, x: string)
    requires Precedes(names, m, n)
    ensures Precedes(names + [x], m, n)
  {
    assert (names + [x])[1..] == names[1..] + [x];
    if names[0] != m {
      PrecedesAppend(names[1..], m, n, x);
    }
  }

  lemma {:induction false} PrecedesDrop(names: seq<string>, m: string, n: string, x: string)
    requires Precedes(names, m, n) && x != m
    ensures Precedes(Drop(names, x), m, n)
  {
    if names[0] != m {
      PrecedesDrop(names[1..], m, n, x);
    }
  }

  /** Once `m` is there before `n`, it stays so while nothing removes it. */
  lemma {:induction false} StaysBefore(names: seq<string>, ops: seq<PresenceOp>, m: string, n: string)
    requires Precedes(names, m, n) && !Removes(ops, m)
    ensures Precedes(PlaceAll(names, ops), m, n)
  {
    if ops != [] {
      var init, op := ops[..|ops| - 1], ops[|ops| - 1];
      assert forall i :: 0 <= i < |init| ==> init[i] == ops[i];
      StaysBefore(names, init, m, n);
      if op.Remove? {
        PrecedesDrop(PlaceAll(names, init), m, n, op.name);
      } else if op.container.name !in PlaceAll(names, init) {
        PrecedesAppend(PlaceAll(names, init), m, n, op.container.name);
      }
    }
  }

  lemma {:induction false} NotBoth(names: seq<string>, m: string, n: string)
    requires m != n
    ensures !(Precedes(names, m, n) && Precedes(names, n, m))
  {
    if names != [] {
      NotBoth(names[1..], m, n);
    }
  }

  lemma {:induction false} PrecedesAt(names: seq<string>, i: nat, j: nat)
    requires i < j < |names| && Unique(names)
    ensures Precedes(names, names[i], names[j])
  {
    if i > 0 {
      var rest := names[1..];
      assert forall k :: 0 <= k < |rest| ==> rest[k] == names[k + 1];
      PrecedesAt(rest, i - 1, j - 1);
    }
  }

  lemma {:induction false} PrecedesMeans(names: seq<string>, m: string, n: string) returns (i: nat, j: nat)
    requires Precedes(names, m, n) && n in names && m != n
    ensures i < j < |names| && names[i] == m && names[j] == n
  {
    if names[0] == m {
      i := 0;
      j :| 0 <= j < |names| && names[j] == n;
    } else {
      i, j := PrecedesMeans(names[1..], m, n);
      i, j := i + 1, j + 1;
    }
  }

  lemma PlaceAllSplit(names: seq<string>, ops: seq<PresenceOp>, i: nat)
    requires i <= |ops|
    ensures PlaceAll(names, ops) == PlaceAll(PlaceAll(names, ops[..i]), ops[i..])
    decreases |ops|
  {
    if i < |ops| {
      var init := ops[..|ops| - 1];
      PlaceAllSplit(names, init, i);
      assert init[..i] == ops[..i] && init[i..] == ops[i..][..|ops| - i - 1];
    } else {
      assert ops[..i] == ops && ops[i..] == [];
    }
  }

  lemma {:induction false} Appears(names: seq<string>, ops: seq<PresenceOp>, n: string)
    requires n in PlaceAll(names, ops)
    ensures n in names || Ensures(ops, n)
  {
    if ops != [] {
      var init, op := ops[..|ops| - 1], ops[|ops| - 1];
      if op.Ensure? && op.Name() == n {
        assert ops[|ops| - 1] == op;
      } else {
        DropIn(PlaceAll(names, init), op.Name(), n);
        Appears(names, init, n);
        if Ensures(init, n) {
          var i :| 0 <= i < |init| && init[i].Ensure? && init[i].Name() == n;
          assert ops[i] == init[i];
        }
      }
    }
  }

  lemma {:induction false} UniqueAlways(names: seq<string>, ops: seq<PresenceOp>)
    requires Unique(names)
    ensures Unique(PlaceAll(names, ops))
  {
    if ops != [] {
      UniqueAlways(names, ops[..|ops| - 1]);
      DropUnique(PlaceAll(names, ops[..|ops| - 1]), ops[|ops| - 1].Name());
    }
  }

  lemma {:induction false} DropUnique(names: seq<string>, n: string)
    requires Unique(names)
    ensures Unique(Drop(names, n))
  {
    if names != [] {
      var rest := names[1..];
      assert forall k :: 0 <= k < |rest| ==> rest[k] == names[k + 1];
      DropUnique(rest, n);
      DropIn(rest, n, names[0]);
      assert names[0] !in rest;
    }
  }

  /** Operation i ensures for good a name that some operation removes, before the name of operation k, which
      no operation removes, first appears. */
  predicate Overtakes(names: seq<string>, ops: seq<PresenceOp>, i: nat, k: nat)
    requires i < k < |ops|
  {
    && ops[i].Ensure? && Removes(ops, ops[i].Name()) && !Removes(ops[i..], ops[i].Name())
    && ops[k].Ensure? && !Removes(ops, ops[k].Name()) && ops[k].Name() !in names && !Ensures(ops[..i], ops[k].Name())
  }

  predicate Reorders(names: seq<string>, ops: seq<PresenceOp>) {
    exists i, k :: 0 <= i < k < |ops| && Overtakes(names, ops, i, k)
  }

  lemma OvertakingDisorders(names: seq<string>, ops: seq<PresenceOp>, i: nat, k: nat)
    requires i < k < |ops| && Overtakes(names, ops, i, k)
    ensures Disordered(PlaceAll(names, ops), Removed(ops))
  {
    var m, n := ops[i].Name(), ops[k].Name();
    var before := PlaceAll(names, ops[..i]);
    if n in before {
      Appears(names, ops[..i], n);
      assert false;
    }
    PlaceAllSplit(names, ops, i);
    var rest := ops[i..];
    assert rest[0] == ops[i] && rest[..1] == [ops[i]] && rest[..1][..0] == [];
    PlaceAllSplit(before, rest, 1);
    var next := Place(before, ops[i]);
    assert PlaceAll(before, rest[..1]) == next;
    DistinctNames(ops, m, n);
    assert m in next && n !in next;
    PrecedesIn(next, m, n);
    assert forall j :: 0 <= j < |rest[1..]| ==> rest[1..][j] == rest[j + 1];
    StaysBefore(next, rest[1..], m, n);
    var s := PlaceAll(names, ops);
    EnsuredStays(names, ops, n);
    var p, q := PrecedesMeans(s, m, n);
    RemovedExactly(ops, m);
    RemovedExactly(ops, n);
  }

  lemma DistinctNames(ops: seq<PresenceOp>, m: string, n: string)
    requires Removes(ops, m) && !Removes(ops, n)
    ensures m != n
  {
  }

  /** The operation after the last removal of a name that ensures it. */
  lemma {:induction false} LastAppearance(names: seq<string>, ops: seq<PresenceOp>, m: string) returns (i: nat)
    requires m in PlaceAll(names, ops) && Removes(ops, m)
    ensures i < |ops| && ops[i].Ensure? && ops[i].Name() == m && !Removes(ops[i..], m)
    ensures m !in PlaceAll(names, ops[..i])
    decreases |ops|
  {
    hide PlaceAll;
    var n := |ops| - 1;
    var init, op := ops[..n], ops[n];
    LastPlaced(names, ops, m);
    if m !in PlaceAll(names, init) {
      i := n;
      assert ops[i..] == [op];
    } else {
      i := LastAppearance(names, init, m);
      assert init[..i] == ops[..i] && ops[i..] == init[i..] + [op];
    }
  }

  /** The last operation on the way to a list that holds a removed name. */
  lemma LastPlaced(names: seq<string>, ops: seq<PresenceOp>, m: string)
    requires m in PlaceAll(names, ops) && Removes(ops, m)
    ensures |ops| > 0 && ops[|ops| - 1] != Remove(m) && Removes(ops[..|ops| - 1], m)
    ensures m !in PlaceAll(names, ops[..|ops| - 1]) ==>
              ops[|ops| - 1].Ensure? && ops[|ops| - 1].Name() == m
  {
    var n := |ops| - 1;
    var init, op := ops[..n], ops[n];
    DropIn(PlaceAll(names, init), op.Name(), m);
    assert op != Remove(m);
    var j :| 0 <= j < |ops| && ops[j] == Remove(m);
    assert init[j] == Remove(m);
  }

  lemma DisorderOvertakes(names: seq<string>, ops: seq<PresenceOp>)
    requires Unique(names) && Disordered(PlaceAll(names, ops), Removed(ops))
    ensures Reorders(names, ops)
  {
    var s := PlaceAll(names, ops);
    UniqueAlways(names, ops);
    var p, q :| 0 <= p < q < |s| && s[p] in Removed(ops) && s[q] !in Removed(ops);
    var m, n := s[p], s[q];
    RemovedExactly(ops, m);
    RemovedExactly(ops, n);
    PrecedesAt(s, p, q);
    var i := LastAppearance(names, ops, m);
    var before := PlaceAll(names, ops[..i]);
    if n in before {
      PrecedesIn(before, n, m);
      PlaceAllSplit(names, ops, i);
      assert forall j :: 0 <= j < |ops[i..]| ==> ops[i..][j] == ops[i + j];
      StaysBefore(before, ops[i..], n, m);
      NotBoth(s, m, n);
      assert false;
    }
    assert forall j :: 0 <= j < i ==> ops[..i][j] == ops[j];
    if n in names || Ensures(ops[..i], n) {
      EnsuredStays(names, ops[..i], n);
      assert false;
    }
    Appears(names, ops, n);
    var k :| 0 <= k < |ops| && ops[k].Ensure? && ops[k].Name() == n;
    assert Overtakes(names, ops, i, k);
  }

  /** Exactly when a second run keeps the order of the names, read off the names and the operations before
      either run. */
  lemma OrderKeptExactly(names: seq<string>, ops: seq<PresenceOp>)
    requires Unique(names)
    ensures PlaceAll(PlaceAll(names, ops), ops) == PlaceAll(names, ops) <==> !Reorders(names, ops)
    ensures Reorders(names, ops) <==> Disordered(PlaceAll(names, ops), Removed(ops))
  {
    hide PlaceAll, Removed, Disordered, Overtakes, Leave, Keep;
    var once := PlaceAll(names, ops);
    SecondRun(names, ops);
    if PlaceAll(once, ops) == once {
      SplitSorted(once, Removed(ops));
    }
    if Disordered(once, Removed(ops)) {
      DisorderOvertakes(names, ops);
    } else {
      OrderedIsSorted(once, Removed(ops));
      SortedSplits(once, Removed(ops));
    }
    if Reorders(names, ops) {
      var i, k :| 0 <= i < k < |ops| && Overtakes(names, ops, i, k);
      OvertakingDisorders(names, ops, i, k);
    }
  }

  lemma OrderedIsSorted(names: seq<string>, which: set<string>)
    requires !Disordered(names, which)
    ensures Sorted(names, which, which)
  {
  }

  /** Exactly when running the presence operations of a plan a second time keeps the list. */
  lemma ReplayKeepsExactly(containers: seq<Container>, ops: seq<PresenceOp>)
    requires UniqueNames(containers)
    ensures PresentAll(PresentAll(containers, ops), ops) == PresentAll(containers, ops) <==>
              !Reorders(Names(containers), ops)
  {
    hide PresentAll, PlaceAll, Removed, UniqueNames, Disordered, Reorders;
    SecondRunKeeps(containers, ops);
    PlaceAllNames(containers, ops);
    NamesUnique(containers);
    OrderKeptExactly(Names(containers), ops);
  }

  lemma NamesUnique(containers: seq<Container>)
    requires UniqueNames(containers)
    ensures Unique(Names(containers))
  {
  }
}
