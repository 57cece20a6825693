/** Data cells and the build-time validation of the data flow between resources
    (pkg/component/concepts/data.go, pkg/component/data.go). */
module DataFlow {
  import opened Options
  import opened ApiServer
  import opened ResourceOptions

  /** A named cell that one resource fills and later ones read, within one pass. */
  class Data {
    const name: string
    var value: int
    var isSet: bool

    constructor (name: string)
      ensures this.name == name && !isSet
    {
      this.name, value, isSet := name, 0, false;
    }

    method Set(v: int)
      modifies this
      ensures isSet && value == v
    {
      value, isSet := v, true;
    }

    method Clear()
      modifies this
      ensures !isSet && value == 0
    {
      value, isSet := 0, false;
    }

    /** None stands for ErrDataNotExtracted. */
    function Require(): (r: Option<int>)
      reads this
      ensures r.Some? <==> isSet
      ensures r.Some? ==> r.value == value
    {
      if isSet then Some(value) else None
    }
  }

  /** A declared read; Optional reads do not guard. A null cell is a caller's mistake that Build reports. */
  datatype Consumption = Consumption(cell: Data?, optional: bool)

  /** A registered resource with its resolved options. The identity is the object's key; `ownable` is
      whether the owner's scope lets it own the object. `content` and `suspended` are the fields its
      mutations declare, without and with its suspension mutation, from the values of its declared cells. */
  datatype Entry = Entry(
    key: Key, content: map<Data, int> -> map<string, string>, suspended: map<Data, int> -> map<string, string>,
    ownable: bool, options: Resolved, consumes: seq<Consumption>, produces: seq<Data?>)

  function ReadCells(e: Entry): (cells: seq<Data?>)
    ensures |cells| == |e.consumes|
  {
    seq(|e.consumes|, i requires 0 <= i < |e.consumes| => e.consumes[i].cell)
  }

  /** Every cell mentioned by the entries, in the order the validation visits them. */
  function Declared(entries: seq<Entry>): seq<Data?> {
    if entries == [] then []
    else
      var last := entries[|entries| - 1];
      Declared(entries[..|entries| - 1]) + ReadCells(last) + last.produces
  }

  function Produced(entries: seq<Entry>): seq<Data?> {
    if entries == [] then []
    else Produced(entries[..|entries| - 1]) + entries[|entries| - 1].produces
  }

  /** Each non-null cell once, at its first occurrence. */
  function FirstOccurrences(cells: seq<Data?>): seq<Data> {
    if cells == [] then []
    else
      var init, last := FirstOccurrences(cells[..|cells| - 1]), cells[|cells| - 1];
      if last == null || last in init then init else init + [last]
  }

  /** Every read has a producer registered strictly earlier. */
  predicate ProducedEarlier(entries: seq<Entry>) {
    forall i :: 0 <= i < |entries| ==> forall c: Data? <- ReadCells(entries[i]) :: c in Produced(entries[..i])
  }

  predicate NamesUnique(cells: seq<Data?>) {
    forall c: Data? <- cells, d: Data? <- cells :: c != null && d != null && c.name == d.name ==> c == d
  }

  predicate TopologyOk(entries: seq<Entry>) {
    null !in Declared(entries) && ProducedEarlier(entries) && NamesUnique(Declared(entries))
  }

  datatype TopologyError =
    | NullRead(key: Key)
    | NullWrite(key: Key)
    | NameTaken(key: Key, name: string)
    | NoProducer(key: Key, name: string)

  /** The name table over the cells seen so far: complete, truthful, and exact unless names clashed. */
  ghost predicate Names(names: map<string, Data>, seen: seq<Data?>, clash: bool) {
    && (forall c: Data? <- seen :: c != null ==> c.name in names && (clash || names[c.name] == c))
    && (forall n <- names :: names[n] in seen && names[n].name == n)
    && (clash ==> !NamesUnique(seen))
  }

  /** The name table after more cells: the first cell of a name keeps it. */
  function Bind(names: map<string, Data>, cells: seq<Data?>): map<string, Data> {
    if cells == [] then names
    else
      var before, last := Bind(names, cells[..|cells| - 1]), cells[|cells| - 1];
      if last != null && last.name !in before then before[last.name := last] else before
  }

  /** The cell meets its name already bound to another cell. */
  predicate TakenAt(names: map<string, Data>, cell: Data?) {
    cell != null && cell.name in names && names[cell.name] != cell
  }

  predicate Taken(names: map<string, Data>, cells: seq<Data?>) {
    exists k :: 0 <= k < |cells| && TakenAt(Bind(names, cells[..k]), cells[k])
  }

  lemma BindMore(names: map<string, Data>, cells: seq<Data?>, k: nat)
    requires k < |cells|
    ensures Bind(names, cells[..k + 1]) == Bind(Bind(names, cells[..k]), [cells[k]])
    ensures Taken(names, cells[..k + 1]) <==> Taken(names, cells[..k]) || TakenAt(Bind(names, cells[..k]), cells[k])
  {
    hide TakenAt;
    var more := cells[..k + 1];
    assert more[..k] == cells[..k] && [cells[k]][..0] == [];
    forall j | 0 <= j <= k ensures more[..j] == cells[..j] && more[j] == cells[j] {
    }
    forall j | 0 <= j < k ensures cells[..k][..j] == cells[..j] && cells[..k][j] == cells[j] {
    }
  }

  method CheckName(names: map<string, Data>, cell: Data, ghost seen: seq<Data?>, ghost clash: bool)
    returns (names': map<string, Data>, taken: bool)
    requires Names(names, seen, clash)
    ensures Names(names', seen + [cell], clash || taken)
    ensures names' == Bind(names, [cell]) && (taken <==> TakenAt(names, cell))
  {
    assert [cell as Data?][..0] == [];
    assert cell in seen + [cell];
    if cell.name !in names {
      return names[cell.name := cell], false;
    }
    assert names[cell.name] in seen + [cell];
    return names, names[cell.name] != cell;
  }

  lemma NamesDecide(names: map<string, Data>, seen: seq<Data?>, clash: bool)
    requires Names(names, seen, clash)
    ensures clash <==> !NamesUnique(seen)
  {
  }

  lemma NullKeepsNames(names: map<string, Data>, seen: seq<Data?>, clash: bool)
    requires Names(names, seen, clash)
    ensures Names(names, seen + [null], clash)
  {
  }

  lemma {:induction false} OccurrencesExactly(cells: seq<Data?>, c: Data)
    ensures c in FirstOccurrences(cells) <==> c in cells
    ensures forall i, j :: 0 <= i < j < |FirstOccurrences(cells)| ==>
              FirstOccurrences(cells)[i] != FirstOccurrences(cells)[j]
  {
    if cells != [] {
      OccurrencesExactly(cells[..|cells| - 1], c);
      assert cells == cells[..|cells| - 1] + [cells[|cells| - 1]];
    }
  }

  /** Validates the reads of one entry against the cells produced before it. */
  method CheckReads(e: Entry, produced: seq<Data>, names: map<string, Data>, ghost seen: seq<Data?>, ghost clash: bool)
    returns (errs: seq<TopologyError>, names': map<string, Data>, ghost clash': bool)
    requires Names(names, seen, clash)
    ensures Names(names', seen + ReadCells(e), clash') && (clash ==> clash')
    ensures errs == [] ==> clash' == clash && forall c: Data? <- ReadCells(e) :: c in produced
    ensures errs != [] ==> clash' || exists c: Data? <- ReadCells(e) :: c !in produced
    ensures names' == Bind(names, ReadCells(e))
    ensures errs == [] <==> !Taken(names, ReadCells(e)) && forall c: Data? <- ReadCells(e) :: c in produced
  {
    hide Names, Taken, TakenAt, Bind;
    StartBind(names, ReadCells(e));
    errs, names', clash' := [], names, clash;
    ghost var visited := seen;
    for k := 0 to |e.consumes|
      invariant visited == seen + ReadCells(e)[..k]
      invariant Names(names', visited, clash') && (clash ==> clash')
      invariant errs == [] ==> clash' == clash && forall c: Data? <- ReadCells(e)[..k] :: c in produced
      invariant errs != [] ==> clash' || exists c: Data? <- ReadCells(e) :: c !in produced
      invariant names' == Bind(names, ReadCells(e)[..k])
      invariant errs == [] <==> !Taken(names, ReadCells(e)[..k]) && forall c: Data? <- ReadCells(e)[..k] ::
                  c in produced
    {
      assert ReadCells(e)[..k + 1] == ReadCells(e)[..k] + [ReadCells(e)[k]];
      assert ReadCells(e)[k] in ReadCells(e)[..k + 1];
      BindMore(names, ReadCells(e), k);
      BindNull(names');
      var cell := e.consumes[k].cell;
      assert ReadCells(e)[k] in ReadCells(e);
      if cell == null {
        NullKeepsNames(names', visited, clash');
        errs := errs + [NullRead(e.key)];
      } else {
        var taken;
        names', taken := CheckName(names', cell, visited, clash');
        if taken {
          errs := errs + [NameTaken(e.key, cell.name)];
          clash' := true;
        }
        if cell !in produced {
          errs := errs + [NoProducer(e.key, cell.name)];
        }
      }
      visited := visited + [cell];
    }
    assert ReadCells(e)[..|e.consumes|] == ReadCells(e);
  }

  /** Records the writes of one entry. */
  method CheckWrites(e: Entry, cells: seq<Data>, names: map<string, Data>, ghost before: seq<Data?>,
                     ghost seen: seq<Data?>, ghost clash: bool)
    returns (errs: seq<TopologyError>, cells': seq<Data>, names': map<string, Data>, ghost clash': bool)
    requires Names(names, seen, clash) && cells == FirstOccurrences(before)
    ensures Names(names', seen + e.produces, clash') && (clash ==> clash')
    ensures cells' == FirstOccurrences(before + e.produces)
    ensures errs == [] ==> clash' == clash && null !in e.produces
    ensures errs != [] ==> clash' || null in e.produces
    ensures names' == Bind(names, e.produces)
    ensures errs == [] <==> !Taken(names, e.produces) && null !in e.produces
  {
    hide Names, FirstOccurrences, Taken, TakenAt, Bind;
    StartBind(names, e.produces);
    errs, cells', names', clash' := [], cells, names, clash;
    ghost var visited, written := seen, before;
    for k := 0 to |e.produces|
      invariant visited == seen + e.produces[..k] && written == before + e.produces[..k]
      invariant Names(names', visited, clash') && (clash ==> clash')
      invariant cells' == FirstOccurrences(written)
      invariant errs == [] ==> clash' == clash && null !in e.produces[..k]
      invariant errs != [] ==> clash' || null in e.produces
      invariant names' == Bind(names, e.produces[..k])
      invariant errs == [] <==> !Taken(names, e.produces[..k]) && null !in e.produces[..k]
    {
      BindMore(names, e.produces, k);
      BindNull(names');
      var cell := e.produces[k];
      OccurrencesStep(written, cell);
      if cell == null {
        NullKeepsNames(names', visited, clash');
        errs := errs + [NullWrite(e.key)];
      } else {
        var taken;
        names', taken := CheckName(names', cell, visited, clash');
        if taken {
          errs := errs + [NameTaken(e.key, cell.name)];
          clash' := true;
        }
        if cell !in cells' {
          cells' := cells' + [cell];
        }
      }
      visited, written := visited + [cell], written + [cell];
    }
    assert e.produces[..|e.produces|] == e.produces;
  }

  lemma StartBind(names: map<string, Data>, cells: seq<Data?>)
    ensures Bind(names, cells[..0]) == names && !Taken(names, cells[..0])
  {
  }

  lemma BindNull(names: map<string, Data>)
    ensures Bind(names, [null]) == names && !TakenAt(names, null)
  {
    assert [null as Data?][..0] == [];
  }

  lemma OccurrencesStep(cells: seq<Data?>, c: Data?)
    ensures FirstOccurrences(cells + [c]) ==
            var init := FirstOccurrences(cells); if c == null || c in init then init else init + [c]
  {
  }

  /** validateDataTopology: reports an error exactly when the declared flow is wrong, and returns every
      produced cell once, in first-producer order. */
  method ValidateDataTopology(entries: seq<Entry>) returns (cells: seq<Data>, errs: seq<TopologyError>)
    ensures errs == [] <==> TopologyOk(entries)
    ensures cells == FirstOccurrences(Produced(entries))
  {
    cells, errs := [], [];
    var names: map<string, Data> := map[];
    ghost var clash := false;
    assert Names(names, [], clash);
    hide Names, FirstOccurrences, NamesUnique, ProducedEarlier;
    EmptyProducedEarlier();
    for i := 0 to |entries|
      invariant Names(names, Declared(entries[..i]), clash)
      invariant cells == FirstOccurrences(Produced(entries[..i]))
      invariant errs == [] ==> !clash && null !in Declared(entries[..i]) && ProducedEarlier(entries[..i])
      invariant errs != [] ==> clash || null in Declared(entries[..i]) || !ProducedEarlier(entries[..i])
    {
      var e := entries[i];
      ghost var seen, before := Declared(entries[..i]), Produced(entries[..i]);
      assert entries[..i + 1][..i] == entries[..i];
      assert Declared(entries[..i + 1]) == seen + ReadCells(e) + e.produces;
      assert Produced(entries[..i + 1]) == before + e.produces;
      ProducedEarlierStep(entries, i);
      forall c: Data? <- ReadCells(e) ensures c in cells <==> c != null && c in before {
        if c != null {
          OccurrencesExactly(before, c);
        }
      }
      var readErrs, writeErrs;
      readErrs, names, clash := CheckReads(e, cells, names, seen, clash);
      writeErrs, cells, names, clash := CheckWrites(e, cells, names, before, seen + ReadCells(e), clash);
      errs := errs + readErrs + writeErrs;
    }
    assert entries[..|entries|] == entries;
    NamesDecide(names, Declared(entries), clash);
  }

  lemma EmptyProducedEarlier()
    ensures ProducedEarlier([])
  {
  }

  lemma ProducedEarlierStep(entries: seq<Entry>, i: nat)
    requires i < |entries|
    ensures ProducedEarlier(entries[..i + 1]) <==>
            ProducedEarlier(entries[..i]) && forall c: Data? <- ReadCells(entries[i]) :: c in Produced(entries[..i])
  {
    var longer := entries[..i + 1];
    forall j | 0 <= j <= i ensures longer[j] == entries[j] && longer[..j] == entries[..j] {
    }
    forall j | 0 <= j < i ensures entries[..i][j] == entries[j] && entries[..i][..j] == entries[..j] {
    }
    if ProducedEarlier(entries[..i]) && forall c: Data? <- ReadCells(entries[i]) :: c in Produced(entries[..i]) {
      forall j | 0 <= j <= i ensures forall c: Data? <- ReadCells(longer[j]) :: c in Produced(longer[..j]) {
        if j < i {
          assert forall c: Data? <- ReadCells(entries[..i][j]) :: c in Produced(entries[..i][..j]);
        }
      }
    }
    if ProducedEarlier(longer) {
      forall j | 0 <= j < i ensures forall c: Data? <- ReadCells(entries[..i][j]) :: c in Produced(entries[..i][..j]) {
        assert forall c: Data? <- ReadCells(longer[j]) :: c in Produced(longer[..j]);
      }
      assert forall c: Data? <- ReadCells(longer[i]) :: c in Produced(longer[..i]);
    }
  }
}
