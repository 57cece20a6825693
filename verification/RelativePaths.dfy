/** Relative slash paths between documents (relativePath in internal/pluginsync/sync.go, on Go's path
    package). */
module RelativePaths {
  import opened Strings

  // Go's path package

  predicate Name(segment: string) {
    segment != "" && segment != "." && segment != ".."
  }

  function Push(stack: seq<string>, segment: string): seq<string> {
    if segment == "" || segment == "." then stack
    else if segment == ".." && stack != [] && stack[|stack| - 1] != ".." then stack[..|stack| - 1]
    else stack + [segment]
  }

  function Fold(stack: seq<string>, segments: seq<string>): seq<string> {
    if segments == [] then stack else Push(Fold(stack, segments[..|segments| - 1]), segments[|segments| - 1])
  }

  function CleanSegments(segments: seq<string>): (r: seq<string>)
    ensures r != []
  {
    if Fold([], segments) == [] then ["."] else Fold([], segments)
  }

  predicate Rooted(path: string) {
    path != "" && path[0] == '/'
  }

  /** Below a root a parent reference cannot climb. */
  function FoldRooted(segments: seq<string>): seq<string> {
    if segments == [] then []
    else
      var stack, segment := FoldRooted(segments[..|segments| - 1]), segments[|segments| - 1];
      if segment == ".." && stack == [] then stack else Push(stack, segment)
  }

  function Clean(path: string): string {
    if Rooted(path) then "/" + Join('/', FoldRooted(Split('/', path))) else Join('/', CleanSegments(Split('/', path)))
  }

  predicate IsClean(path: string) {
    Clean(path) == path
  }

  /** path.Dir: everything up to the last slash, cleaned. */
  function Dir(path: string): string {
    var segments := Split('/', path);
    Clean(if |segments| == 1 then "" else Join('/', segments[..|segments| - 1]) + "/")
  }

  function SkipEmpty(elements: seq<string>): seq<string> {
    if elements != [] && elements[0] == "" then SkipEmpty(elements[1..]) else elements
  }

  /** path.Join: leading empty elements are skipped, and nothing but empty ones gives the empty path. */
  function JoinAll(elements: seq<string>): string {
    var rest := SkipEmpty(elements);
    if rest == [] then "" else Clean(Join('/', rest))
  }

  function PathJoin(a: string, b: string): string {
    JoinAll([a, b])
  }

  // relativePath

  function Common(a: seq<string>, b: seq<string>): (n: nat)
    ensures n <= |a| && n < |b| + 1 && (b != [] ==> n < |b|) && a[..n] == b[..n]
    ensures n < |a| && n < |b| - 1 ==> a[n] != b[n]
  {
    if a == [] || |b| <= 1 || a[0] != b[0] then 0 else 1 + Common(a[1..], b[1..])
  }

  function Ups(n: nat): (r: seq<string>)
    ensures |r| == n && forall i :: 0 <= i < n ==> r[i] == ".."
  {
    seq(n, _ => "..")
  }

  function Relative(from: string, to: string): string {
    var fromParts, toParts := Split('/', Dir(from)), Split('/', to);
    var common := Common(fromParts, toParts);
    JoinAll(Ups(|fromParts| - common) + toParts[common..])
  }

  method RelativePath(from: string, to: string) returns (r: string)
    ensures r == Relative(from, to)
  {
    hide CleanSegments, Split, Dir, Join, JoinAll;
    var fromParts, toParts := Split('/', Dir(from)), Split('/', to);
    var common := 0;
    while common < |fromParts| && common < |toParts| - 1 && fromParts[common] == toParts[common]
      invariant common <= |fromParts| && common < |toParts|
      invariant Common(fromParts, toParts) == common + Common(fromParts[common..], toParts[common..])
    {
      assert fromParts[common..][1..] == fromParts[common + 1..] && toParts[common..][1..] == toParts[common + 1..];
      common := common + 1;
    }
    return JoinAll(Ups(|fromParts| - common) + toParts[common..]);
  }

  // The shape of clean paths

  /** Parent references first, then names. */
  predicate Stacked(s: seq<string>) {
    forall i :: 0 <= i < |s| ==> s[i] != "" && s[i] != "." && (s[i] == ".." && i > 0 ==> s[i - 1] == "..")
  }

  lemma {:induction false} FoldStacked(stack: seq<string>, segments: seq<string>)
    requires Stacked(stack)
    ensures Stacked(Fold(stack, segments))
  {
    if segments != [] {
      FoldStacked(stack, segments[..|segments| - 1]);
    }
  }

  lemma {:induction false} FoldSplit(stack: seq<string>, a: seq<string>, b: seq<string>)
    ensures Fold(stack, a + b) == Fold(Fold(stack, a), b)
  {
    if b == [] {
      assert a + b == a;
    } else {
      assert (a + b)[..|a + b| - 1] == a + b[..|b| - 1];
      FoldSplit(stack, a, b[..|b| - 1]);
    }
  }

  lemma StackedPart(s: seq<string>, n: nat)
    requires Stacked(s) && n <= |s|
    ensures Stacked(s[..n]) && Stacked(s[n..])
  {
  }

  /** Nothing pops when a stack meets a stacked rest, unless a name meets a parent reference. */
  lemma {:induction false} FoldKeeps(stack: seq<string>, rest: seq<string>)
    requires Stacked(stack + rest)
    ensures Fold(stack, rest) == stack + rest
  {
    if rest != [] {
      var n := |rest| - 1;
      var s := stack + rest[..n];
      assert stack + rest == s + [rest[n]] && (stack + rest)[..|s|] == s;
      StackedPart(stack + rest, |s|);
      FoldKeeps(stack, rest[..n]);
      assert s != [] ==> (stack + rest)[|s| - 1] == s[|s| - 1] && (stack + rest)[|s|] == rest[n];
    } else {
      assert stack + rest == stack;
    }
  }

  /** Cleaning the second of two joined paths first changes nothing. */
  lemma {:induction false} FoldClean(stack: seq<string>, rest: seq<string>)
    requires Stacked(stack)
    ensures Fold(stack, Fold([], rest)) == Fold(stack, rest)
  {
    if rest != [] {
      var n := |rest| - 1;
      FoldClean(stack, rest[..n]);
      var r := Fold([], rest[..n]);
      FoldStacked([], rest[..n]);
      var next := Push(r, rest[n]);
      if r != [] && next == r[..|r| - 1] {
        assert r == next + [r[|r| - 1]];
        FoldSplit(stack, next, [r[|r| - 1]]);
        FoldOne(Fold(stack, next), r[|r| - 1]);
        PushPop(Fold(stack, next), r[|r| - 1]);
      } else if next == r + [rest[n]] {
        FoldSplit(stack, r, [rest[n]]);
        FoldOne(Fold(stack, r), rest[n]);
      }
    }
  }

  lemma FoldOne(stack: seq<string>, segment: string)
    ensures Fold(stack, [segment]) == Push(stack, segment)
  {
  }

  lemma PushPop(stack: seq<string>, name: string)
    requires Name(name)
    ensures Push(Push(stack, name), "..") == stack
  {
  }

  /** As many parent references as names take the names back. */
  lemma {:induction false} UpsUndoNames(stack: seq<string>, names: seq<string>)
    requires forall i :: 0 <= i < |names| ==> Name(names[i])
    ensures Fold(stack + names, Ups(|names|)) == stack
  {
    if names == [] {
      assert stack + names == stack;
    } else {
      var n := |names| - 1;
      assert Ups(n + 1) == [".."] + Ups(n);
      FoldSplit(stack + names, [".."], Ups(n));
      FoldOne(stack + names, "..");
      assert (stack + names)[..|stack| + n] == stack + names[..n];
      UpsUndoNames(stack, names[..n]);
    }
  }

  // The round trip

  predicate Names(segments: seq<string>) {
    forall i :: 0 <= i < |segments| ==> Name(segments[i])
  }

  predicate Parents(segments: seq<string>) {
    forall i :: 0 <= i < |segments| ==> segments[i] == ".."
  }

  lemma ParentsThenStacked(ups: seq<string>, s: seq<string>)
    requires Parents(ups) && Stacked(s)
    ensures Stacked(ups + s)
  {
  }

  lemma {:induction false} ParentsFirst(s: seq<string>, i: nat)
    requires Stacked(s) && i < |s| && s[i] == ".."
    ensures Parents(s[..i + 1])
  {
    if i > 0 {
      ParentsFirst(s, i - 1);
      assert s[..i + 1] == s[..i] + [s[i]];
    }
  }

  lemma {:induction false} NamesStay(s: seq<string>, k: nat, m: nat)
    requires Stacked(s) && k <= m < |s| && s[k] != ".."
    ensures Name(s[m])
  {
    if k < m {
      NamesStay(s, k, m - 1);
    }
  }

  lemma StackedNotDot(s: seq<string>)
    requires Stacked(s)
    ensures s != [] ==> s[0] != "."
  {
  }

  /** A clean list of segments is a lone "." or stacked. */
  predicate CleanList(s: seq<string>) {
    s == ["."] || (s != [] && Stacked(s))
  }

  lemma CleanIsCleanList(segments: seq<string>)
    ensures CleanList(CleanSegments(segments))
    ensures CleanList(segments) ==> CleanSegments(segments) == segments
  {
    FoldStacked([], segments);
    if CleanList(segments) {
      if segments == ["."] {
        FoldOne([], ".");
      } else {
        assert [] + segments == segments;
        FoldKeeps([], segments);
      }
    }
  }

  /** Going from the folder down the relative path is one walk: up, then down. */
  lemma Walk(d: seq<string>, ups: seq<string>, y: seq<string>)
    requires CleanList(d)
    ensures Fold([], d + CleanSegments(ups + y)) == Fold(Fold(if d == ["."] then [] else d, ups), y)
  {
    var D := if d == ["."] then [] else d;
    CleanIsCleanList(d);
    FoldStacked([], d);
    assert Fold([], d) == D;
    var rel := CleanSegments(ups + y);
    FoldSplit([], d, rel);
    FoldClean(D, ups + y);
    if Fold([], ups + y) == [] {
      FoldOne(D, ".");
    }
    FoldSplit(D, ups, y);
  }

  /** From a folder whose own part is names, the walk arrives. */
  lemma Arrives(a: seq<string>, x: seq<string>, y: seq<string>)
    requires Names(x) && a + x != [] && Stacked(a + x) && CleanList(a + y) && (a + y == ["."] ==> a == [])
    ensures CleanSegments(a + x + CleanSegments(Ups(|x|) + y)) == a + y
  {
    StackedNotDot(a + x);
    Walk(a + x, Ups(|x|), y);
    UpsUndoNames(a, x);
    if a + y == ["."] {
      assert y == ["."];
      FoldOne([], ".");
    } else {
      FoldKeeps(a, y);
    }
  }

  /** From any other folder it ends too deep. */
  lemma EndsElsewhere(a: seq<string>, x: seq<string>, y: seq<string>)
    requires CleanList(a + x) && !Names(x) && CleanList(a + y) && (a + y == ["."] ==> a == [])
               && (a + x == ["."] ==> a == [])
    ensures CleanSegments(a + x + CleanSegments(Ups(|x|) + y)) != a + y
  {
    hide CleanList, Fold, Stacked;
    Walk(a + x, Ups(|x|), y);
    if a + x == ["."] {
      assert a + x == x && Ups(1) == [".."] && [] + [".."] == [".."];
      FoldOne([], "..");
      FarOff([".."], a, y);
    } else {
      assert Stacked(a + x) by { StackedUnlessDot(a + x); }
      var u, q := OwnParents(a, x);
      assert a + x == (a + u) + q && Ups(|x|) == Ups(|q|) + Ups(|u|);
      FoldSplit(a + x, Ups(|q|), Ups(|u|));
      UpsUndoNames(a + u, q);
      ParentsStay(a + u, Ups(|u|));
      FarOff(a + u + Ups(|u|), a, y);
    }
  }

  lemma StackedUnlessDot(s: seq<string>)
    requires CleanList(s) && s != ["."]
    ensures Stacked(s)
  {
  }

  lemma ParentsStay(stack: seq<string>, ups: seq<string>)
    requires Parents(stack) && Parents(ups)
    ensures Fold(stack, ups) == stack + ups
  {
  }

  /** A stacked list whose second half is not all names has parent references up to there. */
  lemma OwnParents(a: seq<string>, x: seq<string>) returns (u: seq<string>, q: seq<string>)
    requires Stacked(a + x) && !Names(x)
    ensures x == u + q && u != [] && Parents(a + u) && Names(q)
  {
    var s := a + x;
    var i :| 0 <= i < |x| && !Name(x[i]);
    assert s[|a| + i] == x[i];
    ParentsFirst(s, |a| + i);
    assert forall j :: 0 <= j <= |a| + i ==> s[..|a| + i + 1][j] == s[j];
    var p := LeadingParents(x);
    assert s[|a|] == x[0];
    u, q := x[..p], x[p..];
    assert forall j :: 0 <= j < |a| ==> s[j] == a[j];
    forall j | 0 <= j < |q| ensures Name(q[j]) {
      assert s[|a| + p + j] == q[j];
      assert s[|a| + p] == x[p];
      NamesStay(s, |a| + p, |a| + p + j);
    }
  }

  lemma FarOff(ups: seq<string>, a: seq<string>, y: seq<string>)
    requires Parents(ups) && |ups| > |a| && CleanList(a + y) && (a + y == ["."] ==> a == [])
    ensures Fold(ups, y) != a + y && Fold(ups, y) != []
  {
    if a + y == ["."] {
      assert y == ["."];
      FoldOne(ups, ".");
      assert ups[0] == "..";
    } else {
      StackedPart(a + y, |a|);
      assert (a + y)[|a|..] == y;
      ParentsThenStacked(ups, y);
      FoldKeeps(ups, y);
    }
  }

  function LeadingParents(s: seq<string>): (p: nat)
    ensures p <= |s| && (forall j :: 0 <= j < p ==> s[j] == "..") && (p < |s| ==> s[p] != "..")
  {
    if s == [] || s[0] != ".." then 0 else 1 + LeadingParents(s[1..])
  }

  lemma {:induction false} FoldNoSlash(stack: seq<string>, segments: seq<string>)
    requires Free('/', stack) && Free('/', segments)
    ensures Free('/', Fold(stack, segments))
  {
    if segments != [] {
      FoldNoSlash(stack, segments[..|segments| - 1]);
    }
  }

  lemma SplitClean(segments: seq<string>)
    requires Free('/', segments)
    ensures Split('/', Join('/', CleanSegments(segments))) == CleanSegments(segments)
  {
    FoldNoSlash([], segments);
    SplitJoin('/', CleanSegments(segments));
  }

  /** The own part of `from`'s folder: what lies past the folders it shares with `to`. */
  function OwnPart(from: string, to: string): seq<string> {
    var folder := Split('/', Dir(from));
    folder[Common(folder, Split('/', to))..]
  }

  /** Joining the folder of `from` with the relative path gives `to` back exactly when that own part
      consists of names: not when `from` lies at the top level, where the folder reads ".", and not when
      the folder climbs out of what it shares with `to`. */
  lemma RoundTrip(from: string, to: string)
    requires !Rooted(from) && !Rooted(to) && IsClean(to)
    ensures PathJoin(Dir(from), Relative(from, to)) == to <==> Names(OwnPart(from, to))
  {
    hide CleanSegments, CleanList, IsClean, PathJoin, Relative, Dir, Rooted, Names, Split, Common, Join, Stacked;
    var d, t := Split('/', Dir(from)), Split('/', to);
    DirSegments(from);
    CleanIsCleanList(Split('/', from)[..|Split('/', from)| - 1]);
    CleanRelative(to);
    var c := Common(d, t);
    var a, x, y := d[..c], d[c..], t[c..];
    assert d == a + x && t == a + y;
    JoinedWalk(from, to);
    SharedDot(d, t);
    if Names(x) {
      NamesNotDot(a, x);
      Arrives(a, x, y);
    } else {
      EndsElsewhere(a, x, y);
    }
  }

  lemma NamesNotDot(a: seq<string>, x: seq<string>)
    requires Names(x) && CleanList(a + x) && (a + x == ["."] ==> a == [])
    ensures a + x != [] && Stacked(a + x)
  {
  }

  lemma RootedSplit(path: string)
    ensures Rooted(path) <==> |Split('/', path)| > 1 && Split('/', path)[0] == ""
  {
  }

  /** A path that is clean and relative is a clean list of segments. */
  lemma CleanRelative(path: string)
    requires !Rooted(path) && IsClean(path)
    ensures CleanList(Split('/', path))
  {
    SplitClean(Split('/', path));
    CleanIsCleanList(Split('/', path));
  }

  lemma DirSegments(from: string)
    requires !Rooted(from)
    ensures Split('/', Dir(from)) == CleanSegments(Split('/', from)[..|Split('/', from)| - 1])
  {
    hide Split, Join;
    var segments := Split('/', from);
    var folders := segments[..|segments| - 1];
    SplitOne('/', "");
    EmptyLast(folders);
    SplitClean(folders);
    if |segments| == 1 {
      assert folders == [] && [] + [""] == [""];
    } else {
      SplitJoin('/', folders);
      var dir := Join('/', folders) + "/";
      SplitConcat('/', Join('/', folders), "");
      assert dir == Join('/', folders) + ['/'] + "";
      RootedSplit(from);
      RootedSplit(dir);
      assert Split('/', dir) == folders + [""];
    }
  }

  lemma EmptyLast(segments: seq<string>)
    ensures CleanSegments(segments + [""]) == CleanSegments(segments)
  {
    assert (segments + [""])[..|segments|] == segments;
  }

  lemma {:induction false} SkipFolds(elements: seq<string>)
    ensures Fold([], SkipEmpty(elements)) == Fold([], elements)
  {
    if elements != [] && elements[0] == "" {
      SkipFolds(elements[1..]);
      assert elements == [""] + elements[1..];
      FoldSplit([], [""], elements[1..]);
      FoldOne([], "");
    }
  }

  lemma {:induction false} SkipShape(elements: seq<string>, e: string)
    requires e in elements && e != "" && Free('/', elements)
    ensures var rest := SkipEmpty(elements); rest != [] && rest[0] != "" && Free('/', rest)
  {
    if elements[0] == "" {
      assert Free('/', elements[1..]);
      SkipShape(elements[1..], e);
    }
  }

  /** path.Join of segments, one of them not empty. */
  lemma SplitJoinAll(elements: seq<string>, e: string)
    requires e in elements && e != "" && Free('/', elements)
    ensures Split('/', JoinAll(elements)) == CleanSegments(elements)
  {
    hide Split, Join;
    var rest := SkipEmpty(elements);
    SkipShape(elements, e);
    SkipFolds(elements);
    SplitJoin('/', rest);
    RootedSplit(Join('/', rest));
    SplitClean(rest);
  }

  lemma SplitPathJoin(a: string, b: string)
    requires a != "" && !Rooted(a)
    ensures Split('/', PathJoin(a, b)) == CleanSegments(Split('/', a) + Split('/', b))
  {
    hide CleanSegments, Split;
    assert [a, b][1..] == [b];
    assert Join('/', [a, b]) == a + "/" + b;
    SplitConcat('/', a, b);
    RootedSplit(a);
    RootedSplit(a + "/" + b);
    FirstSegment(a);
    SplitClean(Split('/', a) + Split('/', b));
  }

  lemma FirstSegment(a: string)
    requires a != "" && !Rooted(a)
    ensures Split('/', a)[0] != ""
  {
  }

  lemma SplitRelative(from: string, to: string)
    requires CleanList(Split('/', to))
    ensures var d, t := Split('/', Dir(from)), Split('/', to);
            var c := Common(d, t);
            Split('/', Relative(from, to)) == CleanSegments(Ups(|d[c..]|) + t[c..])
  {
    hide CleanSegments, Common, Split, Join, JoinAll;
    var d, t := Split('/', Dir(from)), Split('/', to);
    var c := Common(d, t);
    assert |d[c..]| == |d| - c;
    LastNotEmpty(t);
    assert t[c..][|t| - c - 1] == t[|t| - 1];
    SplitJoinAll(Ups(|d| - c) + t[c..], t[|t| - 1]);
  }

  lemma LastNotEmpty(t: seq<string>)
    requires CleanList(t)
    ensures t != [] && t[|t| - 1] != "" && t[0] != ""
  {
  }

  /** The joined path, as the walk over segments. */
  lemma JoinedWalk(from: string, to: string)
    requires CleanList(Split('/', Dir(from))) && CleanList(Split('/', to))
    ensures var d, t := Split('/', Dir(from)), Split('/', to);
            var c := Common(d, t);
            PathJoin(Dir(from), Relative(from, to)) == to <==>
                CleanSegments(d + CleanSegments(Ups(|d[c..]|) + t[c..])) == t
  {
    var joined := PathJoin(Dir(from), Relative(from, to));
    LastNotEmpty(Split('/', Dir(from)));
    RootedSplit(Dir(from));
    SplitOne('/', "");
    hide CleanSegments, CleanList, Common, Split, Join, Ups, PathJoin, Relative, Dir;
    SplitPathJoin(Dir(from), Relative(from, to));
    SplitRelative(from, to);
    JoinSplit('/', to);
    JoinSplit('/', joined);
  }

  lemma SharedDot(d: seq<string>, t: seq<string>)
    requires CleanList(d) && CleanList(t)
    ensures d == ["."] || t == ["."] ==> Common(d, t) == 0
  {
  }

  /** A document at the top level is the everyday case that fails. */
  lemma TopLevelFails(name: string, to: string)
    requires '/' !in name && !Rooted(to) && IsClean(to)
    ensures PathJoin(Dir(name), Relative(name, to)) != to
  {
    SplitOne('/', name);
    assert Split('/', name)[..0] == [];
    RootedSplit(name);
    DirSegments(name);
    CleanRelative(to);
    SharedDot(["."], Split('/', to));
    RoundTrip(name, to);
    assert !Name(OwnPart(name, to)[0]);
  }

  /** A document inside folders none of which is a parent reference always gets back. */
  lemma FolderRoundTrip(from: string, to: string)
    requires !Rooted(from) && !Rooted(to) && IsClean(to)
    requires |Split('/', from)| > 1 && Names(Split('/', from)[..|Split('/', from)| - 1])
    ensures PathJoin(Dir(from), Relative(from, to)) == to
  {
    hide CleanSegments, Common, Split, Join, PathJoin, Relative, IsClean, Rooted;
    var folders := Split('/', from)[..|Split('/', from)| - 1];
    CleanIsCleanList(folders);
    DirSegments(from);
    assert Split('/', Dir(from)) == folders;
    RoundTrip(from, to);
  }
}
