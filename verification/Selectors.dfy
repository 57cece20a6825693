/** Semantic comparison of label selectors, and the keyed list of metrics that rests on it
    (pkg/mutation/editors/hpaspec.go). */
module Selectors {
  import opened Options
  import opened Strings

  datatype Requirement = Requirement(key: string, operator: string, values: seq<string>)
  datatype LabelSelector = LabelSelector(labels: map<string, string>, expressions: seq<Requirement>)

  const NUL := '\0'

  /** The canonical key of one expression. */
  function Canon(e: Requirement): string {
    e.key + [NUL] + e.operator + [NUL] + Join(NUL, Sort(e.values))
  }

  function Canons(expressions: seq<Requirement>): (keys: seq<string>)
    ensures |keys| == |expressions|
  {
    seq(|expressions|, i requires 0 <= i < |expressions| => Canon(expressions[i]))
  }

  predicate SelectorsEqual(a: Option<LabelSelector>, b: Option<LabelSelector>) {
    if a == None || b == None then a == b
    else
      && a.value.labels == b.value.labels && |a.value.expressions| == |b.value.expressions|
      && Sort(Canons(a.value.expressions)) == Sort(Canons(b.value.expressions))
  }

  method CanonicalKeys(expressions: seq<Requirement>) returns (keys: seq<string>)
    ensures keys == Sort(Canons(expressions))
  {
    keys := [];
    for i := 0 to |expressions|
      invariant keys == Canons(expressions)[..i]
    {
      var values := Sort(expressions[i].values);
      keys := keys + [expressions[i].key + [NUL] + expressions[i].operator + [NUL] + Join(NUL, values)];
    }
    assert Canons(expressions)[..|expressions|] == Canons(expressions);
    keys := Sort(keys);
  }

  method LabelSelectorsEqual(a: Option<LabelSelector>, b: Option<LabelSelector>) returns (equal: bool)
    ensures equal <==> SelectorsEqual(a, b)
  {
    if a == None && b == None {
      return true;
    }
    if a == None || b == None {
      return false;
    }
    if a.value.labels != b.value.labels {
      return false;
    }
    if |a.value.expressions| != |b.value.expressions| {
      return false;
    }
    var left := CanonicalKeys(a.value.expressions);
    var right := CanonicalKeys(b.value.expressions);
    return left == right;
  }

  // What the comparison means

  predicate NulFree(e: Requirement) {
    NUL !in e.key && NUL !in e.operator && Free(NUL, e.values)
  }

  /** An expression up to the order of its values. The list of one empty string counts as no value: the
      comparison cannot tell the two apart. */
  datatype Meaning = Meaning(key: string, operator: string, values: multiset<string>)

  function MeaningOf(e: Requirement): Meaning {
    Meaning(e.key, e.operator, if e.values == [""] then multiset{} else multiset(e.values))
  }

  function Meanings(expressions: seq<Requirement>): (r: seq<Meaning>)
    ensures |r| == |expressions|
  {
    seq(|expressions|, i requires 0 <= i < |expressions| => MeaningOf(expressions[i]))
  }

  lemma CanonSplit(e: Requirement)
    requires NulFree(e)
    ensures Split(NUL, Canon(e)) == [e.key, e.operator] + (if e.values == [] then [""] else Sort(e.values))
  {
    hide Split, Sort, Join;
    var values := Sort(e.values);
    SortKeepsFree(e.values);
    SplitOne(NUL, e.key);
    SplitOne(NUL, e.operator);
    SplitJoin(NUL, values);
    SplitConcat(NUL, e.operator, Join(NUL, values));
    SplitConcat(NUL, e.key, e.operator + [NUL] + Join(NUL, values));
    assert Canon(e) == e.key + [NUL] + (e.operator + [NUL] + Join(NUL, values));
  }

  lemma SortKeepsFree(xs: seq<string>)
    requires Free(NUL, xs)
    ensures Free(NUL, Sort(xs)) && |Sort(xs)| == |xs|
  {
    hide Sort;
    SortSorts(xs);
    assert |multiset(Sort(xs))| == |multiset(xs)|;
    forall i | 0 <= i < |Sort(xs)| ensures NUL !in Sort(xs)[i] {
      assert Sort(xs)[i] in multiset(Sort(xs));
      assert Sort(xs)[i] in xs;
    }
  }

  /** Key, operator and sorted values, cut at every NUL. */
  function Tokens(e: Requirement): seq<string> {
    Split(NUL, e.key) + Split(NUL, e.operator) + Split(NUL, Join(NUL, Sort(e.values)))
  }

  /** Exactly when two expressions share a canonical key, whatever strings they hold. */
  lemma TokensExactly(a: Requirement, b: Requirement)
    ensures Canon(a) == Canon(b) <==> Tokens(a) == Tokens(b)
  {
    hide Split, Join, Sort;
    CanonTokens(a);
    CanonTokens(b);
    JoinSplit(NUL, Canon(a));
    JoinSplit(NUL, Canon(b));
  }

  lemma CanonTokens(e: Requirement)
    ensures Split(NUL, Canon(e)) == Tokens(e)
  {
    hide Split, Join, Sort;
    var values := Join(NUL, Sort(e.values));
    SplitConcat(NUL, e.operator, values);
    SplitConcat(NUL, e.key, e.operator + [NUL] + values);
    assert Canon(e) == e.key + [NUL] + (e.operator + [NUL] + values);
  }

  /** The canonical key tells expressions apart exactly as far as their meaning does. */
  lemma CanonExactly(a: Requirement, b: Requirement)
    requires NulFree(a) && NulFree(b)
    ensures Canon(a) == Canon(b) <==> MeaningOf(a) == MeaningOf(b)
  {
    CanonSplit(a);
    CanonSplit(b);
    var x := if a.values == [] then [""] else a.values;
    var y := if b.values == [] then [""] else b.values;
    SortCanonical(x, y);
    assert Sort([""]) == [""];
    var left, right := Split(NUL, Canon(a)), Split(NUL, Canon(b));
    assert left == [a.key, a.operator] + Sort(x) && right == [b.key, b.operator] + Sort(y);
    assert left == right <==> a.key == b.key && a.operator == b.operator && Sort(x) == Sort(y) by {
      assert left[0] == a.key && left[1] == a.operator && left[2..] == Sort(x);
      assert right[0] == b.key && right[1] == b.operator && right[2..] == Sort(y);
    }
    SameMeaning(x, y, a, b);
    if left == right {
      JoinSplit(NUL, Canon(a));
      JoinSplit(NUL, Canon(b));
    }
  }

  lemma SameMeaning(x: seq<string>, y: seq<string>, a: Requirement, b: Requirement)
    requires x == (if a.values == [] then [""] else a.values) && y == (if b.values == [] then [""] else b.values)
    ensures multiset(x) == multiset(y) <==> MeaningOf(a).values == MeaningOf(b).values
  {
    assert multiset([""]) == multiset{""};
    SingleEmpty(x);
    SingleEmpty(y);
    assert x == [""] <==> MeaningOf(a).values == multiset{} by {
      assert |multiset(a.values)| == |a.values|;
    }
    assert y == [""] <==> MeaningOf(b).values == multiset{} by {
      assert |multiset(b.values)| == |b.values|;
    }
  }

  lemma SingleEmpty(x: seq<string>)
    ensures multiset(x) == multiset{""} <==> x == [""]
  {
  }

  lemma {:induction false} SameCount<T, U>(a: seq<T>, c: seq<U>, x: T, y: U)
    requires |a| == |c| && forall i :: 0 <= i < |a| ==> (a[i] == x <==> c[i] == y)
    ensures multiset(a)[x] == multiset(c)[y]
  {
    if a != [] {
      var n := |a| - 1;
      SameCount(a[..n], c[..n], x, y);
      assert a == a[..n] + [a[n]] && c == c[..n] + [c[n]];
    }
  }

  /** Two codings of the same items that tell the same items apart make the same multisets equal. */
  ghost predicate SameCoding<T, U>(a: seq<T>, b: seq<T>, c: seq<U>, d: seq<U>) {
    && |a| == |c| && |b| == |d|
    && (forall i, j :: 0 <= i < |a| && 0 <= j < |a| ==> (a[i] == a[j] <==> c[i] == c[j]))
    && (forall i, j :: 0 <= i < |a| && 0 <= j < |b| ==> (a[i] == b[j] <==> c[i] == d[j]))
    && (forall i, j :: 0 <= i < |b| && 0 <= j < |b| ==> (b[i] == b[j] <==> d[i] == d[j]))
  }

  lemma SameBags<T, U(!new)>(a: seq<T>, b: seq<T>, c: seq<U>, d: seq<U>)
    requires SameCoding(a, b, c, d) && multiset(a) == multiset(b)
    ensures multiset(c) == multiset(d)
  {
    forall y ensures multiset(c)[y] == multiset(d)[y] {
      if i :| 0 <= i < |c| && c[i] == y {
        SameCount(a, c, a[i], y);
        SameCount(b, d, a[i], y);
      } else {
        forall j | 0 <= j < |d| ensures d[j] != y {
          assert b[j] in multiset(a);
          var i :| 0 <= i < |a| && a[i] == b[j];
        }
        assert y !in c && y !in d;
      }
    }
  }

  ghost predicate Plain(s: Option<LabelSelector>) {
    s.Some? && forall i :: 0 <= i < |s.value.expressions| ==> NulFree(s.value.expressions[i])
  }

  /** Over NUL-free selectors the comparison holds exactly when the labels are equal and the expressions
      are equal as a multiset of meanings, whatever the order of expressions and of values. */
  lemma EqualExactly(a: Option<LabelSelector>, b: Option<LabelSelector>)
    requires Plain(a) && Plain(b)
    ensures SelectorsEqual(a, b) <==>
            a.value.labels == b.value.labels && multiset(Meanings(a.value.expressions)) ==
                multiset(Meanings(b.value.expressions))
  {
    hide Canon, MeaningOf, NulFree, Sort;
    var x, y := a.value.expressions, b.value.expressions;
    SortCanonical(Canons(x), Canons(y));
    assert |multiset(Meanings(x))| == |x| && |multiset(Meanings(y))| == |y|;
    forall e, f | e in x + y && f in x + y ensures Canon(e) == Canon(f) <==> MeaningOf(e) == MeaningOf(f) {
      CanonExactly(e, f);
    }
    assert forall i :: 0 <= i < |x| ==> x[i] in x + y;
    assert forall j :: 0 <= j < |y| ==> y[j] in x + y;
    if multiset(Canons(x)) == multiset(Canons(y)) {
      SameBags(Canons(x), Canons(y), Meanings(x), Meanings(y));
    }
    if multiset(Meanings(x)) == multiset(Meanings(y)) {
      SameBags(Meanings(x), Meanings(y), Canons(x), Canons(y));
    }
  }

  function TokenLists(expressions: seq<Requirement>): (r: seq<seq<string>>)
    ensures |r| == |expressions|
  {
    seq(|expressions|, i requires 0 <= i < |expressions| => Tokens(expressions[i]))
  }

  /** For all strings the comparison holds exactly when the labels are equal and the expressions are equal as
      a multiset of token lists: key, operator and sorted values, cut at every NUL. */
  lemma EqualByTokens(a: LabelSelector, b: LabelSelector)
    ensures SelectorsEqual(Some(a), Some(b)) <==>
            a.labels == b.labels && multiset(TokenLists(a.expressions)) == multiset(TokenLists(b.expressions))
  {
    hide Canon, Tokens, Sort;
    var x, y := a.expressions, b.expressions;
    SortCanonical(Canons(x), Canons(y));
    assert |multiset(TokenLists(x))| == |x| && |multiset(TokenLists(y))| == |y|;
    forall e, f ensures Canon(e) == Canon(f) <==> Tokens(e) == Tokens(f) {
      TokensExactly(e, f);
    }
    if multiset(Canons(x)) == multiset(Canons(y)) {
      SameBags(Canons(x), Canons(y), TokenLists(x), TokenLists(y));
    }
    if multiset(TokenLists(x)) == multiset(TokenLists(y)) {
      SameBags(TokenLists(x), TokenLists(y), Canons(x), Canons(y));
    }
  }

  /** An expression up to the order of its values, with nothing else identified. */
  function BagOf(e: Requirement): Meaning {
    Meaning(e.key, e.operator, multiset(e.values))
  }

  function Bags(expressions: seq<Requirement>): (r: seq<Meaning>)
    ensures |r| == |expressions|
  {
    seq(|expressions|, i requires 0 <= i < |expressions| => BagOf(expressions[i]))
  }

  /** Reordering expressions, and values inside them, never shows, whatever the strings hold. */
  lemma {:induction false} ReorderingInvariant(x: seq<Requirement>, y: seq<Requirement>)
    requires multiset(Bags(x)) == multiset(Bags(y))
    ensures multiset(Canons(x)) == multiset(Canons(y)) && |x| == |y|
  {
    hide Canon, BagOf, Bags, Canons;
    assert |multiset(Bags(x))| == |x| && |multiset(Bags(y))| == |y|;
    if x == [] {
      assert y == [];
    } else {
      var n := |x| - 1;
      var j := BagAt(x, n, y);
      var rest := y[..j] + y[j + 1..];
      Taken(x, n);
      Taken(y, j);
      assert x[..n] + x[n + 1..] == x[..n];
      SameBag(x[n], y[j]);
      SameRest(multiset(Bags(x[..n])), multiset(Bags(rest)), BagOf(x[n]));
      ReorderingInvariant(x[..n], rest);
    }
  }

  /** Equal up to the order of expressions and of values is enough for any strings, and it is all the
      comparison accepts when the strings are NUL-free and no value list is that of one empty string. */
  lemma EqualUpToOrder(a: LabelSelector, b: LabelSelector)
    ensures a.labels == b.labels && multiset(Bags(a.expressions)) == multiset(Bags(b.expressions)) ==>
              SelectorsEqual(Some(a), Some(b))
    ensures Plain(Some(a)) && Plain(Some(b)) && NoSingleEmpty(a) && NoSingleEmpty(b)
              && SelectorsEqual(Some(a), Some(b)) ==>
              a.labels == b.labels && multiset(Bags(a.expressions)) == multiset(Bags(b.expressions))
  {
    if multiset(Bags(a.expressions)) == multiset(Bags(b.expressions)) {
      ReorderingInvariant(a.expressions, b.expressions);
      SortCanonical(Canons(a.expressions), Canons(b.expressions));
    }
    if Plain(Some(a)) && Plain(Some(b)) && NoSingleEmpty(a) && NoSingleEmpty(b) {
      EqualExactly(Some(a), Some(b));
      assert Bags(a.expressions) == Meanings(a.expressions) && Bags(b.expressions) == Meanings(b.expressions);
    }
  }

  predicate NoSingleEmpty(s: LabelSelector) {
    forall i :: 0 <= i < |s.expressions| ==> s.expressions[i].values != [""]
  }

  lemma BagAt(x: seq<Requirement>, n: nat, y: seq<Requirement>) returns (j: nat)
    requires n < |x| && multiset(Bags(x)) == multiset(Bags(y))
    ensures j < |y| && BagOf(y[j]) == BagOf(x[n])
  {
    hide BagOf;
    assert Bags(x)[n] in multiset(Bags(y));
    j :| 0 <= j < |y| && Bags(y)[j] == Bags(x)[n];
  }

  lemma SameRest(a: multiset<Meaning>, b: multiset<Meaning>, m: Meaning)
    requires a + multiset{m} == b + multiset{m}
    ensures a == b
  {
    assert a == (a + multiset{m}) - multiset{m} && b == (b + multiset{m}) - multiset{m};
  }

  lemma SameBag(a: Requirement, b: Requirement)
    requires BagOf(a) == BagOf(b)
    ensures Canon(a) == Canon(b)
  {
    SortCanonical(a.values, b.values);
  }

  lemma Taken(x: seq<Requirement>, j: nat)
    requires j < |x|
    ensures multiset(Bags(x)) == multiset(Bags(x[..j] + x[j + 1..])) + multiset{BagOf(x[j])}
    ensures multiset(Canons(x)) == multiset(Canons(x[..j] + x[j + 1..])) + multiset{Canon(x[j])}
  {
    hide Canon, BagOf;
    TakenAt(Bags(x), j);
    TakenAt(Canons(x), j);
    var others := x[..j] + x[j + 1..];
    assert Bags(others) == Bags(x)[..j] + Bags(x)[j + 1..];
    assert Canons(others) == Canons(x)[..j] + Canons(x)[j + 1..];
  }

  lemma TakenAt<T>(s: seq<T>, j: nat)
    requires j < |s|
    ensures multiset(s) == multiset(s[..j] + s[j + 1..]) + multiset{s[j]}
  {
    assert s == s[..j] + [s[j]] + s[j + 1..];
  }

  /** Why a list of one empty string is special, and why NUL is: two pairs of different selectors that
      the comparison takes for equal. */
  lemma Collisions(key: string, operator: string)
    ensures Canon(Requirement(key, operator, [])) == Canon(Requirement(key, operator, [""]))
    ensures var a, b := Requirement(key + [NUL] + operator, "", []), Requirement(key, operator + [NUL], []);
            Canon(a) == Canon(b) && a != b
  {
  }

  // The keyed list of metrics

  datatype MetricId = MetricId(name: string, selector: Option<LabelSelector>)

  /** The source of a metric; NoSource is a nil one, or a type the API does not know. */
  datatype Source =
    | OnResource(name: string)
    | OnPods(metric: MetricId)
    | OnObject(described: string, metric: MetricId)
    | OnContainer(name: string, container: string)
    | OnExternal(metric: MetricId)
    | NoSource(ctype: string)

  datatype Metric = Metric(source: Source, target: int)

  predicate IdsMatch(a: MetricId, b: MetricId) {
    a.name == b.name && SelectorsEqual(a.selector, b.selector)
  }

  predicate MetricsMatch(a: Metric, b: Metric) {
    match (a.source, b.source)
    case (OnResource(x), OnResource(y)) => x == y
    case (OnPods(x), OnPods(y)) => IdsMatch(x, y)
    case (OnObject(d, x), OnObject(f, y)) => d == f && IdsMatch(x, y)
    case (OnContainer(x, c), OnContainer(y, d)) => x == y && c == d
    case (OnExternal(x), OnExternal(y)) => IdsMatch(x, y)
    case _ => false
  }

  /** Matching is a partial equivalence, on all strings; a metric without a source matches nothing, not
      even itself. */
  lemma MatchingIsEquivalence(a: Metric, b: Metric, c: Metric)
    ensures MetricsMatch(a, a) <==> !a.source.NoSource?
    ensures MetricsMatch(a, b) ==> MetricsMatch(b, a)
    ensures MetricsMatch(a, b) && MetricsMatch(b, c) ==> MetricsMatch(a, c)
  {
  }

  /** At most one entry per metric identity. */
  predicate Keyed(metrics: seq<Metric>) {
    forall i, j :: 0 <= i < j < |metrics| ==> !MetricsMatch(metrics[i], metrics[j])
  }

  function FirstMatch(metrics: seq<Metric>, m: Metric): (k: nat)
    ensures k <= |metrics| && (k < |metrics| ==> MetricsMatch(metrics[k], m))
    ensures forall j :: 0 <= j < k ==> !MetricsMatch(metrics[j], m)
  {
    if metrics == [] || MetricsMatch(metrics[0], m) then 0 else 1 + FirstMatch(metrics[1..], m)
  }

  function Ensured(metrics: seq<Metric>, m: Metric): seq<Metric> {
    var k := FirstMatch(metrics, m);
    if k < |metrics| then metrics[k := m] else metrics + [m]
  }

  class HPASpecEditor {
    var metrics: seq<Metric>

    constructor (metrics: seq<Metric>)
      ensures this.metrics == metrics
    {
      this.metrics := metrics;
    }

    method EnsureMetric(m: Metric)
      modifies this
      ensures metrics == Ensured(old(metrics), m)
    {
      for i := 0 to |metrics|
        invariant metrics == old(metrics) && forall j :: 0 <= j < i ==> !MetricsMatch(metrics[j], m)
      {
        if MetricsMatch(metrics[i], m) {
          metrics := metrics[i := m];
          return;
        }
      }
      metrics := metrics + [m];
    }
  }

  /** EnsureMetric keeps one entry per identity, leaves the metrics of other identities as they are, and
      is idempotent exactly for a metric that has a source. */
  lemma EnsureIsUpsert(metrics: seq<Metric>, m: Metric)
    requires Keyed(metrics)
    ensures Keyed(Ensured(metrics, m))
    ensures forall x :: !MetricsMatch(x, m) && x != m ==> (x in Ensured(metrics, m) <==> x in metrics)
    ensures Ensured(Ensured(metrics, m), m) == Ensured(metrics, m) <==> !m.source.NoSource?
  {
    hide MetricsMatch;
    var k, r := FirstMatch(metrics, m), Ensured(metrics, m);
    forall i, j | 0 <= i < j < |r| ensures !MetricsMatch(r[i], r[j]) {
      if k < |metrics| {
        MatchingIsEquivalence(r[i], m, metrics[k]);
        MatchingIsEquivalence(metrics[k], m, r[j]);
        MatchingIsEquivalence(metrics[k], m, m);
      }
    }
    EnsuredMembers(metrics, m);
    EnsureTwice(metrics, m);
  }

  /** Two metrics that are not about the same thing: of different kinds, or of one kind with a different name,
      container, described object or label. */
  predicate Apart(a: Source, b: Source) {
    match (a, b)
    case (OnResource(x), OnResource(y)) => x != y
    case (OnContainer(x, c), OnContainer(y, d)) => x != y || c != d
    case (OnPods(x), OnPods(y)) => IdsApart(x, y)
    case (OnExternal(x), OnExternal(y)) => IdsApart(x, y)
    case (OnObject(d, x), OnObject(f, y)) => d != f || IdsApart(x, y)
    case _ => true
  }

  predicate IdsApart(a: MetricId, b: MetricId) {
    || a.name != b.name || a.selector.Some? != b.selector.Some?
    || (a.selector.Some? && a.selector.value.labels != b.selector.value.labels)
  }

  /** Ensuring a metric never touches one that is not about the same thing, in particular one of another described
      object or container. */
  lemma ApartStay(metrics: seq<Metric>, m: Metric, x: Metric)
    requires Apart(x.source, m.source) && x != m
    ensures x in Ensured(metrics, m) <==> x in metrics
  {
    assert !MetricsMatch(x, m);
    EnsuredMembers(metrics, m);
  }

  /** And it replaces the one that is about the same thing: the same kind, names and described object, and a
      selector equal up to the order of expressions and of values. */
  lemma SameIsReplaced(metrics: seq<Metric>, m: Metric, x: Metric)
    requires Keyed(metrics) && x in metrics && x != m && SameSource(x.source, m.source)
    ensures m in Ensured(metrics, m) && x !in Ensured(metrics, m) && |Ensured(metrics, m)| == |metrics|
  {
    hide MetricsMatch, SameSource;
    SameMatch(x, m);
    var k, i := FirstMatch(metrics, m), IndexOf(metrics, x);
    MatchingIsEquivalence(metrics[k], m, x);
    MatchingIsEquivalence(x, m, metrics[k]);
    MatchingIsEquivalence(m, metrics[k], x);
    assert k == i;
    var r := Ensured(metrics, m);
    assert r[k] == m;
    forall j | 0 <= j < |r| ensures r[j] != x {
      if j != k && r[j] == x {
        MatchingIsEquivalence(x, x, x);
        MatchingIsEquivalence(x, m, m);
      }
    }
  }

  function IndexOf(metrics: seq<Metric>, x: Metric): (i: nat)
    requires x in metrics
    ensures i < |metrics| && metrics[i] == x
  {
    if metrics[0] == x then 0 else 1 + IndexOf(metrics[1..], x)
  }

  ghost predicate SameSource(a: Source, b: Source) {
    match (a, b)
    case (OnResource(x), OnResource(y)) => x == y
    case (OnContainer(x, c), OnContainer(y, d)) => x == y && c == d
    case (OnPods(x), OnPods(y)) => SameId(x, y)
    case (OnExternal(x), OnExternal(y)) => SameId(x, y)
    case (OnObject(d, x), OnObject(f, y)) => d == f && SameId(x, y)
    case _ => false
  }

  ghost predicate SameId(a: MetricId, b: MetricId) {
    && a.name == b.name && (a.selector.Some? <==> b.selector.Some?)
    && (a.selector.Some? ==>
        && a.selector.value.labels == b.selector.value.labels
        && multiset(Bags(a.selector.value.expressions)) == multiset(Bags(b.selector.value.expressions)))
  }

  lemma SameMatch(a: Metric, b: Metric)
    requires SameSource(a.source, b.source)
    ensures MetricsMatch(a, b)
  {
    hide SelectorsEqual;
    match (a.source, b.source)
    case (OnPods(x), OnPods(y)) => SameIdMatch(x, y);
    case (OnExternal(x), OnExternal(y)) => SameIdMatch(x, y);
    case (OnObject(_, x), OnObject(_, y)) => SameIdMatch(x, y);
    case _ =>
  }

  lemma SameIdMatch(a: MetricId, b: MetricId)
    requires SameId(a, b)
    ensures IdsMatch(a, b)
  {
    if a.selector.Some? {
      EqualUpToOrder(a.selector.value, b.selector.value);
    }
  }

  lemma EnsuredMembers(metrics: seq<Metric>, m: Metric)
    ensures forall x :: !MetricsMatch(x, m) && x != m ==> (x in Ensured(metrics, m) <==> x in metrics)
  {
    hide MetricsMatch;
    var k, r := FirstMatch(metrics, m), Ensured(metrics, m);
    forall x | !MetricsMatch(x, m) && x != m ensures x in r <==> x in metrics {
      if x in metrics {
        var i :| 0 <= i < |metrics| && metrics[i] == x;
        assert r[i] == x;
      }
      if x in r {
        var i :| 0 <= i < |r| && r[i] == x;
        assert i < |metrics| && metrics[i] == x;
      }
    }
  }

  lemma EnsureTwice(metrics: seq<Metric>, m: Metric)
    ensures Ensured(Ensured(metrics, m), m) == Ensured(metrics, m) <==> !m.source.NoSource?
  {
    MatchingIsEquivalence(m, m, m);
    var k, r := FirstMatch(metrics, m), Ensured(metrics, m);
    if m.source.NoSource? {
      assert FirstMatch(r, m) == |r|;
      assert |Ensured(r, m)| == |r| + 1;
    } else {
      assert r[k] == m;
      assert FirstMatch(r, m) <= k;
      assert r[k := m] == r;
    }
  }
}
