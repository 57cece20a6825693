/** What an entry applies and what it extracts (mutateResource in pkg/component/create.go, Mutate and
    ExtractData in pkg/generic/resource_base.go). */
module Entries {
  import opened Options
  import opened ApiServer
  import opened Deletion
  import opened Apply
  import opened ResourceOptions
  import opened DataFlow

  function ProtectionOf(options: Resolved): Protection {
    Protection(options.blockOnForeignController, options.deleteOnlyIfOwned)
  }

  /** mutateResource: the owner reference an apply carries. */
  function RefsOf(e: Entry, owner: Uid): RefPatch {
    if e.options.unowned then Disown(owner) else if e.ownable then Own(owner) else Leave
  }

  /** What an apply of the entry declares, its mutations reading `values`. */
  function DesiredOf(e: Entry, owner: Uid, values: map<Data, int>): Desired {
    Desired(e.key, e.content(values), RefsOf(e, owner))
  }

  /** The same with the suspension mutations on top. */
  function SuspendedOf(e: Entry, owner: Uid, values: map<Data, int>): Desired {
    Desired(e.key, e.suspended(values), RefsOf(e, owner))
  }

  // Reading cells

  /** What the entry's mutations can read: its declared cells that are set. */
  function Values(e: Entry): map<Data, int>
    reads set c: Data | c in ReadCells(e)
  {
    map c: Data | c in ReadCells(e) && c.isSet :: c.value
  }

  ghost function Snapshot(cells: set<Data>): map<Data, int>
    reads cells
  {
    map c | c in cells && c.isSet :: c.value
  }

  ghost function ValuesIn(cells: map<Data, int>, e: Entry): map<Data, int> {
    map c | c in cells && c in ReadCells(e) :: cells[c]
  }

  ghost function CellSet(entries: seq<Entry>): set<Data> {
    set c: Data | c in Declared(entries)
  }

  /** The entry's declared cells are among `cells`, and each of its extractions has an answer. */
  ghost predicate Wired(e: Entry, extracted: seq<Option<int>>, cells: set<Data>) {
    && |extracted| == |e.produces|
    && (forall c: Data? <- ReadCells(e) :: c != null && c in cells)
    && (forall c <- e.produces :: c != null && c in cells)
  }

  lemma ValuesMatch(e: Entry, cells: set<Data>)
    requires forall c: Data? <- ReadCells(e) :: c != null ==> c in cells
    ensures Values(e) == ValuesIn(Snapshot(cells), e)
  {
  }

  // Filling cells

  /** The cells after the first n declared extractions of an entry; a failing one stops the rest. */
  ghost function Filled(cells: map<Data, int>, e: Entry, extracted: seq<Option<int>>, n: nat): map<Data, int>
    requires n <= |e.produces|
  {
    if n == 0 then cells
    else
      var before := Filled(cells, e, extracted, n - 1);
      if n <= |extracted| && None !in extracted[..n] && e.produces[n - 1] != null
      then before[e.produces[n - 1] := extracted[n - 1].value]
      else before
  }

  /** The cells the entries of a pass have filled: those that ran their extractions, in registration order. */
  ghost function CellsFilled(entries: seq<Entry>, extracted: seq<seq<Option<int>>>, ran: seq<bool>): map<Data, int>
    requires |ran| <= |entries| == |extracted|
  {
    if ran == [] then map[]
    else
      var n := |ran| - 1;
      var before := CellsFilled(entries, extracted, ran[..n]);
      if ran[n] then Filled(before, entries[n], extracted[n], |entries[n].produces|) else before
  }

  /** The last extraction of `c` that the entry declares computed `v`. */
  ghost predicate Extracts(e: Entry, extracted: seq<Option<int>>, c: Data, v: int, n: nat)
    requires n <= |e.produces|
  {
    exists k :: 0 <= k < n && k < |extracted| && e.produces[k] == c && extracted[k] == Some(v)
                && forall m :: k < m < n ==> e.produces[m] != c
  }

  /** `v` is what the latest producer of `c` that ran extracted. */
  ghost predicate FromLatestProducer(c: Data, v: int, entries: seq<Entry>, extracted: seq<seq<Option<int>>>,
                                     ran: seq<bool>)
    requires |ran| <= |entries| == |extracted|
  {
    exists j :: 0 <= j < |ran| && ran[j] && Extracts(entries[j], extracted[j], c, v, |entries[j].produces|)
                && forall i :: j < i < |ran| && ran[i] ==> c !in entries[i].produces
  }

  /** The entries that ran completed all their extractions. */
  ghost predicate Complete(entries: seq<Entry>, extracted: seq<seq<Option<int>>>, ran: seq<bool>)
    requires |ran| <= |entries| == |extracted|
  {
    forall j :: 0 <= j < |ran| && ran[j] ==>
      null !in entries[j].produces && |extracted[j]| == |entries[j].produces| && None !in extracted[j]
  }

  lemma FilledStep(cells: map<Data, int>, e: Entry, extracted: seq<Option<int>>, n: nat)
    requires 0 < n <= |e.produces| == |extracted| && null !in e.produces && None !in extracted
    ensures e.produces[n - 1] != null && extracted[n - 1].Some?
    ensures Filled(cells, e, extracted, n) ==
            Filled(cells, e, extracted, n - 1)[e.produces[n - 1] := extracted[n - 1].value]
  {
    assert e.produces[n - 1] in e.produces && extracted[n - 1] in extracted;
    assert None !in extracted[..n];
  }

  lemma {:induction false} FilledAt(cells: map<Data, int>, e: Entry, extracted: seq<Option<int>>, n: nat, c: Data)
    requires n <= |e.produces| == |extracted| && null !in e.produces && None !in extracted
    ensures var after := Filled(cells, e, extracted, n);
            && (c !in e.produces[..n] ==> (c in after <==> c in cells) && (c in cells ==> after[c] == cells[c]))
            && (c in e.produces[..n] ==> c in after && Extracts(e, extracted, c, after[c], n))
  {
    if n > 0 {
      hide Filled, Extracts;
      FilledAt(cells, e, extracted, n - 1, c);
      FilledStep(cells, e, extracted, n);
      assert e.produces[..n] == e.produces[..n - 1] + [e.produces[n - 1]];
      var after := Filled(cells, e, extracted, n);
      if e.produces[n - 1] == c {
        ExtractsLast(e, extracted, c, after[c], n);
      } else if c in e.produces[..n - 1] {
        ExtractsEarlier(e, extracted, c, after[c], n);
      }
    }
  }

  lemma ExtractsLast(e: Entry, extracted: seq<Option<int>>, c: Data, v: int, n: nat)
    requires 0 < n <= |e.produces| && n <= |extracted| && e.produces[n - 1] == c && extracted[n - 1] == Some(v)
    ensures Extracts(e, extracted, c, v, n)
  {
  }

  lemma ExtractsEarlier(e: Entry, extracted: seq<Option<int>>, c: Data, v: int, n: nat)
    requires 0 < n <= |e.produces| && Extracts(e, extracted, c, v, n - 1) && e.produces[n - 1] != c
    ensures Extracts(e, extracted, c, v, n)
  {
    var k :| 0 <= k < n - 1 && k < |extracted| && e.produces[k] == c && extracted[k] == Some(v)
             && forall m :: k < m < n - 1 ==> e.produces[m] != c;
  }

  /** The cells of a pass hold exactly what has a producer that ran, each with the value of the latest. */
  lemma {:induction false} LatestProducer(entries: seq<Entry>, extracted: seq<seq<Option<int>>>, ran: seq<bool>,
                                          c: Data)
    requires |ran| <= |entries| == |extracted| && Complete(entries, extracted, ran)
    ensures var cells := CellsFilled(entries, extracted, ran);
            && (c in cells <==> exists j :: 0 <= j < |ran| && ran[j] && c in entries[j].produces)
            && (c in cells ==> FromLatestProducer(c, cells[c], entries, extracted, ran))
  {
    if ran != [] {
      var n := |ran| - 1;
      var init := ran[..n];
      assert forall j :: 0 <= j < n && init[j] ==> ran[j];
      LatestProducer(entries, extracted, init, c);
      var before, after := CellsFilled(entries, extracted, init), CellsFilled(entries, extracted, ran);
      if ran[n] {
        FilledAt(before, entries[n], extracted[n], |entries[n].produces|, c);
        assert entries[n].produces[..|entries[n].produces|] == entries[n].produces;
      }
      if c in after && !(ran[n] && c in entries[n].produces) {
        EarlierProducer(c, after[c], entries, extracted, ran);
      }
    }
  }

  lemma EarlierProducer(c: Data, v: int, entries: seq<Entry>, extracted: seq<seq<Option<int>>>, ran: seq<bool>)
    requires 0 < |ran| <= |entries| == |extracted|
    requires FromLatestProducer(c, v, entries, extracted, ran[..|ran| - 1])
    requires ran[|ran| - 1] ==> c !in entries[|ran| - 1].produces
    ensures FromLatestProducer(c, v, entries, extracted, ran)
  {
    hide Extracts;
    var init := ran[..|ran| - 1];
    var j :| 0 <= j < |init| && init[j] && Extracts(entries[j], extracted[j], c, v, |entries[j].produces|)
             && forall i :: j < i < |init| && init[i] ==> c !in entries[i].produces;
    assert ran[j] && forall i :: j < i < |init| ==> ran[i] == init[i];
  }

  lemma CellsFilledMore(entries: seq<Entry>, extracted: seq<seq<Option<int>>>, ran: seq<bool>, r: bool)
    requires |ran| < |entries| == |extracted|
    ensures CellsFilled(entries, extracted, ran + [r]) ==
            var before := CellsFilled(entries, extracted, ran);
            if r then Filled(before, entries[|ran|], extracted[|ran|], |entries[|ran|].produces|) else before
  {
    assert (ran + [r])[..|ran|] == ran;
  }

  /** ExtractData: fills the declared cells in order, stopping at the first failing extraction. */
  method ExtractData(e: Entry, extracted: seq<Option<int>>, ghost cells: set<Data>) returns (ok: bool)
    requires Wired(e, extracted, cells)
    modifies cells
    ensures Snapshot(cells) == Filled(old(Snapshot(cells)), e, extracted, |e.produces|)
    ensures ok <==> None !in extracted
  {
    for k := 0 to |e.produces|
      invariant Snapshot(cells) == Filled(old(Snapshot(cells)), e, extracted, k)
      invariant None !in extracted[..k]
    {
      assert extracted[..k + 1] == extracted[..k] + [extracted[k]];
      if extracted[k] == None {
        FilledStops(old(Snapshot(cells)), e, extracted, k, |e.produces|);
        return false;
      }
      var cell := e.produces[k];
      assert cell in e.produces;
      ghost var before := Snapshot(cells);
      cell.Set(extracted[k].value);
      assert Snapshot(cells) == before[cell := extracted[k].value];
    }
    assert extracted[..|e.produces|] == extracted;
    return true;
  }

  lemma FilledStops(cells: map<Data, int>, e: Entry, extracted: seq<Option<int>>, k: nat, n: nat)
    requires k < n <= |e.produces| == |extracted| && extracted[k] == None
    ensures Filled(cells, e, extracted, n) == Filled(cells, e, extracted, k)
  {
    if n > k + 1 {
      FilledStops(cells, e, extracted, k, n - 1);
    }
    assert extracted[..n][k] == None;
  }

  /** Every cell an entry mentions is among those of its list. */
  lemma {:induction false} EntryCells(entries: seq<Entry>, i: nat)
    requires i < |entries| && null !in Declared(entries)
    ensures forall c: Data? <- ReadCells(entries[i]) :: c != null && c in CellSet(entries)
    ensures forall c <- entries[i].produces :: c != null && c in CellSet(entries)
    decreases |entries|
  {
    var n := |entries| - 1;
    if i < n {
      assert entries[..n][i] == entries[i];
      EntryCells(entries[..n], i);
      assert forall c :: c in CellSet(entries[..n]) ==> c in CellSet(entries);
    } else {
      forall c: Data? | c in ReadCells(entries[i]) ensures c in Declared(entries) {
        var k :| 0 <= k < |ReadCells(entries[i])| && ReadCells(entries[i])[k] == c;
        assert Declared(entries)[|Declared(entries[..n])| + k] == c;
      }
      forall c | c in entries[i].produces ensures c in Declared(entries) {
      }
    }
  }

  // The writes of several entries

  function Flat(turns: seq<seq<Write>>): seq<Write> {
    if turns == [] then [] else Flat(turns[..|turns| - 1]) + turns[|turns| - 1]
  }

  lemma FlatMore(turns: seq<seq<Write>>, turn: seq<Write>)
    ensures Flat(turns + [turn]) == Flat(turns) + turn
  {
    assert (turns + [turn])[..|turns|] == turns;
  }
}
