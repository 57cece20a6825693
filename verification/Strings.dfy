/** Splitting and joining strings at a separator, and sorting them, as Go's strings and slices packages
    do. */
module Strings {

  /** strings.Split at one character. */
  function Split(sep: char, s: string): (segments: seq<string>)
    ensures segments != [] && forall i :: 0 <= i < |segments| ==> sep !in segments[i]
  {
    if s == "" then [""] else Cons(sep, s[0], Split(sep, s[1..]))
  }

  function Cons(sep: char, c: char, rest: seq<string>): seq<string>
    requires rest != []
  {
    if c == sep then [""] + rest else [[c] + rest[0]] + rest[1..]
  }

  /** strings.Join. */
  function Join(sep: char, segments: seq<string>): string {
    if segments == [] then ""
    else if |segments| == 1 then segments[0]
    else segments[0] + [sep] + Join(sep, segments[1..])
  }

  predicate Free(sep: char, segments: seq<string>) {
    forall i :: 0 <= i < |segments| ==> sep !in segments[i]
  }

  lemma ConsConcat(sep: char, c: char, a: seq<string>, b: seq<string>)
    requires a != []
    ensures Cons(sep, c, a + b) == Cons(sep, c, a) + b
  {
  }

  lemma {:induction false} SplitConcat(sep: char, a: string, b: string)
    ensures Split(sep, a + [sep] + b) == Split(sep, a) + Split(sep, b)
  {
    if a == "" {
      assert (a + [sep] + b)[1..] == b;
    } else {
      hide Cons;
      SplitConcat(sep, a[1..], b);
      assert (a + [sep] + b)[1..] == a[1..] + [sep] + b;
      ConsConcat(sep, a[0], Split(sep, a[1..]), Split(sep, b));
    }
  }

  lemma {:induction false} SplitOne(sep: char, segment: string)
    requires sep !in segment
    ensures Split(sep, segment) == [segment]
  {
    if segment != "" {
      assert segment[0] in segment && forall c <- segment[1..] :: c in segment;
      SplitOne(sep, segment[1..]);
      assert segment == [segment[0]] + segment[1..];
    }
  }

  /** Splitting undoes joining, except that joining nothing looks like joining one empty string. */
  lemma {:induction false} SplitJoin(sep: char, segments: seq<string>)
    requires Free(sep, segments)
    ensures Split(sep, Join(sep, segments)) == if segments == [] then [""] else segments
  {
    if segments != [] {
      SplitOne(sep, segments[0]);
      if |segments| > 1 {
        SplitJoin(sep, segments[1..]);
        SplitConcat(sep, segments[0], Join(sep, segments[1..]));
      }
    }
  }

  lemma {:induction false} JoinSplit(sep: char, s: string)
    ensures Join(sep, Split(sep, s)) == s
  {
    if s != "" {
      JoinSplit(sep, s[1..]);
      JoinCons(sep, s[0], Split(sep, s[1..]));
      assert s == [s[0]] + s[1..];
    }
  }

  lemma JoinCons(sep: char, c: char, rest: seq<string>)
    requires rest != []
    ensures Join(sep, Cons(sep, c, rest)) == [c] + Join(sep, rest)
  {
  }

  // Order

  /** Lexicographic order of code points. */
  predicate AtMost(a: string, b: string) {
    a == "" || (b != "" && (a[0] < b[0] || (a[0] == b[0] && AtMost(a[1..], b[1..]))))
  }

  lemma {:induction false} AtMostTotal(a: string, b: string)
    ensures AtMost(a, b) || AtMost(b, a)
    ensures AtMost(a, b) && AtMost(b, a) ==> a == b
  {
    if a != "" && b != "" && a[0] == b[0] {
      AtMostTotal(a[1..], b[1..]);
      assert a == [a[0]] + a[1..] && b == [b[0]] + b[1..];
    }
  }

  lemma {:induction false} AtMostTransitive(a: string, b: string, c: string)
    requires AtMost(a, b) && AtMost(b, c)
    ensures AtMost(a, c)
  {
    if a != "" && a[0] == b[0] == c[0] {
      AtMostTransitive(a[1..], b[1..], c[1..]);
    }
  }

  function Insert(x: string, sorted: seq<string>): seq<string> {
    if sorted == [] || AtMost(x, sorted[0]) then [x] + sorted else [sorted[0]] + Insert(x, sorted[1..])
  }

  /** slices.Sort. */
  function Sort(xs: seq<string>): seq<string> {
    if xs == [] then [] else Insert(xs[0], Sort(xs[1..]))
  }

  predicate Ascending(xs: seq<string>) {
    |xs| <= 1 || (AtMost(xs[0], xs[1]) && Ascending(xs[1..]))
  }

  lemma {:induction false} InsertKeeps(x: string, sorted: seq<string>)
    requires Ascending(sorted)
    ensures Ascending(Insert(x, sorted)) && multiset(Insert(x, sorted)) == multiset(sorted) + multiset{x}
    ensures Insert(x, sorted)[0] == x || (sorted != [] && Insert(x, sorted)[0] == sorted[0])
  {
    if sorted == [] {
    } else if AtMost(x, sorted[0]) {
      assert ([x] + sorted)[1..] == sorted;
    } else {
      AtMostTotal(x, sorted[0]);
      InsertKeeps(x, sorted[1..]);
      assert sorted == [sorted[0]] + sorted[1..];
      assert ([sorted[0]] + Insert(x, sorted[1..]))[1..] == Insert(x, sorted[1..]);
    }
  }

  lemma {:induction false} SortSorts(xs: seq<string>)
    ensures Ascending(Sort(xs)) && multiset(Sort(xs)) == multiset(xs)
  {
    if xs != [] {
      SortSorts(xs[1..]);
      InsertKeeps(xs[0], Sort(xs[1..]));
      assert xs == [xs[0]] + xs[1..];
    }
  }

  lemma {:induction false} HeadIsLeast(xs: seq<string>, x: string)
    requires Ascending(xs) && x in xs
    ensures AtMost(xs[0], x)
  {
    if x == xs[0] {
      AtMostTotal(x, x);
    } else {
      assert x in xs[1..];
      HeadIsLeast(xs[1..], x);
      AtMostTransitive(xs[0], xs[1], x);
    }
  }

  lemma {:induction false} AscendingUnique(a: seq<string>, b: seq<string>)
    requires Ascending(a) && Ascending(b) && multiset(a) == multiset(b)
    ensures a == b
  {
    hide AtMost;
    SameSize(a, b);
    if a != [] {
      SameHead(a, b);
      SameTail(a, b);
      AscendingUnique(a[1..], b[1..]);
      assert a == [a[0]] + a[1..] && b == [b[0]] + b[1..];
    }
  }

  lemma SameSize(a: seq<string>, b: seq<string>)
    requires multiset(a) == multiset(b)
    ensures |a| == |b|
  {
    assert |multiset(a)| == |a| && |multiset(b)| == |b|;
  }

  lemma SameHead(a: seq<string>, b: seq<string>)
    requires Ascending(a) && Ascending(b) && multiset(a) == multiset(b) && a != [] && b != []
    ensures a[0] == b[0]
  {
    hide Ascending, AtMost;
    assert b[0] in multiset(a) && a[0] in multiset(b);
    HeadIsLeast(a, b[0]);
    HeadIsLeast(b, a[0]);
    AtMostTotal(a[0], b[0]);
  }

  lemma SameTail(a: seq<string>, b: seq<string>)
    requires multiset(a) == multiset(b) && a != [] && b != [] && a[0] == b[0]
    ensures multiset(a[1..]) == multiset(b[1..])
  {
    assert a == [a[0]] + a[1..] && b == [b[0]] + b[1..];
    assert multiset(a[1..]) == multiset(a) - multiset{a[0]} && multiset(b[1..]) == multiset(b) - multiset{b[0]};
  }

  /** Sorting is a canonical form of the multiset. */
  lemma SortCanonical(a: seq<string>, b: seq<string>)
    ensures Sort(a) == Sort(b) <==> multiset(a) == multiset(b)
  {
    SortSorts(a);
    SortSorts(b);
    if multiset(a) == multiset(b) {
      AscendingUnique(Sort(a), Sort(b));
    }
  }
}
