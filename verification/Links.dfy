/** The Markdown link rewriter of the documentation sync (internal/pluginsync/sync.go): link targets
    change through a function, fenced code blocks and inline code spans never do. */
module Links {

  const BACKTICK := '`'

  // Runs and code spans

  function LeadingRun(s: string, c: char): (n: nat)
    ensures n <= |s| && (forall k :: 0 <= k < n ==> s[k] == c) && (n < |s| ==> s[n] != c)
  {
    if s == "" || s[0] != c then 0 else 1 + LeadingRun(s[1..], c)
  }

  /** `s` holds n backticks from k on. */
  predicate Backticks(s: string, k: nat, n: nat) {
    k + n <= |s| && forall j :: k <= j < k + n ==> s[j] == BACKTICK
  }

  /** A run of exactly n backticks that no neighbour extends. */
  predicate Run(s: string, k: nat, n: nat) {
    Backticks(s, k, n) && (k == 0 || s[k - 1] != BACKTICK) && (k + n == |s| || s[k + n] != BACKTICK)
  }

  /** The least k with a run of n, at or after `from`. */
  function Closing(s: string, n: nat, from: nat): (r: int)
    ensures r == -1 || (from <= r < |s| && Run(s, r, n))
    ensures forall k :: from <= k < (if r == -1 then |s| else r) ==> !Run(s, k, n)
    decreases |s| - from
  {
    if from >= |s| then -1
    else if Run(s, from, n) then from
    else Closing(s, n, from + 1)
  }

  /** strings.Index for a delimiter of n backticks: the first place it fits, from `from` on. */
  method IndexOf(s: string, n: nat, from: nat) returns (at: int)
    requires from <= |s|
    ensures at == -1 || (from <= at && Backticks(s, at, n))
    ensures forall k :: from <= k && k + n <= |s| && (at == -1 || k < at) ==> !Backticks(s, k, n)
  {
    for k := from to |s| + 1
      invariant forall j :: from <= j < k ==> !Backticks(s, j, n)
    {
      if k + n <= |s| && Fits(s, k, n) {
        return k;
      }
    }
    return -1;
  }

  predicate Fits(s: string, k: nat, n: nat)
    requires k + n <= |s|
    ensures Fits(s, k, n) <==> Backticks(s, k, n)
  {
    forall j :: k <= j < k + n ==> s[j] == BACKTICK
  }

  /** closingDelimiter: the least index of a run of exactly the delimiter's length, for every string. */
  method ClosingDelimiter(s: string, n: nat) returns (r: int)
    requires n > 0
    ensures r == -1 || (0 <= r && Run(s, r, n))
    ensures forall k :: 0 <= k < |s| && (r == -1 || k < r) ==> !Run(s, k, n)
  {
    var i := 0;
    while i < |s|
      invariant 0 <= i <= |s|
      invariant forall k :: 0 <= k < i ==> !Run(s, k, n)
      invariant 0 < i < |s| ==> s[i] != BACKTICK
    {
      var at := IndexOf(s, n, i);
      if at < 0 {
        return -1;
      }
      if !(at + n < |s| && s[at + n] == BACKTICK) && (at == 0 || s[at - 1] != BACKTICK) {
        return at;
      }
      ghost var before := i;
      i := at + n;
      while i < |s| && s[i] == BACKTICK
        invariant at + n <= i <= |s|
        invariant forall k :: at <= k < i ==> s[k] == BACKTICK
        decreases |s| - i
      {
        i := i + 1;
      }
      forall k | before <= k < i ensures !Run(s, k, n) {
        if k > at {
          assert s[k - 1] == BACKTICK;
        }
      }
    }
    return -1;
  }

  /** A paragraph cut into prose and inline code spans. */
  datatype Part = Prose(text: string) | Code(text: string)

  function FirstBacktick(s: string): (k: nat)
    ensures k <= |s| && (k < |s| ==> s[k] == BACKTICK) && forall j :: 0 <= j < k ==> s[j] != BACKTICK
  {
    if s == "" || s[0] == BACKTICK then 0 else 1 + FirstBacktick(s[1..])
  }

  datatype Found = NoSpan | Found(start: nat, end: nat)

  /** The first code span: from the first run of backticks to the next run of the same length. */
  function FirstSpan(s: string): (r: Found)
    ensures r.Found? ==> r.start < r.end <= |s|
  {
    var start := FirstBacktick(s);
    if start == |s| then NoSpan
    else
      var n := LeadingRun(s[start..], BACKTICK);
      var end := Closing(s[start + n..], n, 0);
      if end < 0 then NoSpan else Found(start, start + n + end + n)
  }

  function Parts(s: string): seq<Part>
    decreases |s|
  {
    match FirstSpan(s)
    case NoSpan => [Prose(s)]
    case Found(start, end) => [Prose(s[..start]), Code(s[start..end])] + Parts(s[end..])
  }

  function Joined(parts: seq<Part>): string {
    if parts == [] then "" else parts[0].text + Joined(parts[1..])
  }

  function MapProse(parts: seq<Part>, fn: string -> string): string {
    if parts == [] then ""
    else (if parts[0].Prose? then fn(parts[0].text) else parts[0].text) + MapProse(parts[1..], fn)
  }

  /** Every part is mapped or kept at its own place, by its kind. */
  lemma {:induction false} MapProseAt(parts: seq<Part>, i: nat, fn: string -> string)
    requires i < |parts|
    ensures MapProse(parts, fn) ==
            MapProse(parts[..i], fn) + (if parts[i].Prose? then fn(parts[i].text) else parts[i].text)
            + MapProse(parts[i + 1..], fn)
  {
    if i > 0 {
      MapProseAt(parts[1..], i - 1, fn);
      assert parts[1..][..i - 1] == parts[..i][1..] && parts[1..][i..] == parts[i + 1..];
    }
  }

  lemma {:induction false} PartsConserve(s: string)
    ensures Joined(Parts(s)) == s
    decreases |s|
  {
    hide FirstSpan;
    match FirstSpan(s)
    case NoSpan => assert Parts(s)[1..] == [];
    case Found(start, end) =>
      PartsConserve(s[end..]);
      assert Parts(s)[1..][1..] == Parts(s[end..]);
      assert s == s[..start] + s[start..end] + s[end..];
  }

  /** A code span is two runs of the same length around a text without such a run. */
  ghost predicate Span(text: string, n: nat) {
    && 0 < n && 2 * n < |text| && Run(text, 0, n) && Run(text, |text| - n, n)
    && forall k :: 0 < k < |text| - n ==> !Run(text, k, n)
  }

  /** Where the first code span is: its delimiters of n backticks, and its text, of length `end`, at the start of
      `rest`. */
  lemma FirstSpanAt(s: string) returns (n: nat, end: nat, rest: string)
    requires FirstSpan(s).Found?
    ensures var start := FirstSpan(s).start;
            && n > 0 && start + n + end + n == FirstSpan(s).end <= |s| && Backticks(s, start, n)
            && rest == s[start + n..] && rest[0] != BACKTICK
    ensures Run(rest, end, n) && forall k :: 0 <= k < end ==> !Run(rest, k, n)
  {
    var start := FirstSpan(s).start;
    n := LeadingRun(s[start..], BACKTICK);
    rest := s[start + n..];
    end := Closing(rest, n, 0);
    assert s[start..][0] == s[start] && s[start..][n] == rest[0];
    assert forall j :: start <= j < start + n ==> s[j] == s[start..][j - start];
  }

  lemma FirstSpanIsSpan(s: string)
    requires FirstSpan(s).Found?
    ensures exists n: nat :: Span(s[FirstSpan(s).start..FirstSpan(s).end], n)
  {
    hide FirstSpan, Run;
    var n, end, rest := FirstSpanAt(s);
    var start, spanEnd := FirstSpan(s).start, FirstSpan(s).end;
    var text := s[start..spanEnd];
    assert Backticks(text, 0, n) by {
      assert forall j :: 0 <= j < n ==> text[j] == s[start + j];
    }
    assert text[n..] == rest[..end + n];
    SpanShape(text, rest, n, end);
  }

  /** The first run of backticks, n of them from `start` on, and a run of the same length k characters after it. */
  ghost predicate SpanFrom(s: string, start: nat, n: nat, k: nat) {
    && 0 < n && start + n <= |s| && (forall j :: 0 <= j < start ==> s[j] != BACKTICK) && Backticks(s, start, n)
    && (start + n < |s| ==> s[start + n] != BACKTICK)
    && Run(s[start + n..], k, n)
  }

  /** A span is found exactly when the first run of backticks is followed by one of its length; a first run without
      a match leaves the whole text prose. */
  lemma SpanFoundExactly(s: string)
    ensures FirstSpan(s).Found? <==> exists start: nat, n: nat, k: nat :: SpanFrom(s, start, n, k)
  {
    if FirstSpan(s).Found? {
      var n, end, rest := FirstSpanAt(s);
      assert SpanFrom(s, FirstSpan(s).start, n, end);
    }
    if start: nat, n: nat, k: nat :| SpanFrom(s, start, n, k) {
      NextSpanEnds(s, start, n, k);
    }
  }

  /** It begins with that first run and ends with the nearest match. */
  lemma NextSpanEnds(s: string, start: nat, n: nat, k: nat)
    requires SpanFrom(s, start, n, k)
    ensures FirstSpan(s).Found? && FirstSpan(s).start == start && FirstSpan(s).end <= start + n + k + n
  {
    assert s[start] == BACKTICK && FirstBacktick(s) == start;
    assert forall j :: 0 <= j < n ==> s[start..][j] == s[start + j];
    assert start + n < |s| ==> s[start..][n] == s[start + n];
  }

  lemma SpanShape(text: string, rest: string, n: nat, end: nat)
    requires 0 < n && Run(rest, end, n) && (forall k :: 0 <= k < end ==> !Run(rest, k, n)) && rest[0] != BACKTICK
    requires Backticks(text, 0, n) && |text| == n + end + n && text[n..] == rest[..end + n]
    ensures Span(text, n)
  {
    assert forall k :: 0 <= k < end + n ==> text[n + k] == text[n..][k] == rest[k];
    assert end > 0;
    assert Run(text, 0, n);
    assert Run(text, n + end, n) by {
      assert forall j :: n + end <= j < n + end + n ==> text[j] == rest[j - n];
    }
    forall k | 0 < k < |text| - n ensures !Run(text, k, n) {
      if k <= n {
        assert text[k - 1] == BACKTICK;
      } else if Run(text, k, n) {
        InnerRun(text, rest, n, end, k);
        assert false;
      }
    }
  }

  lemma InnerRun(text: string, rest: string, n: nat, end: nat, k: nat)
    requires 0 < n < k < n + end && |text| == n + end + n <= n + |rest|
    requires (forall j :: 0 <= j < end + n ==> text[n + j] == rest[j])
    requires Run(text, k, n)
    ensures Run(rest, k - n, n)
  {
  }

  lemma {:induction false} CodeIsSpan(s: string, i: nat)
    requires i < |Parts(s)| && Parts(s)[i].Code?
    ensures exists n: nat :: Span(Parts(s)[i].text, n)
    decreases |s|
  {
    hide FirstSpan, Span;
    var end := FirstSpan(s).end;
    if i >= 2 {
      assert Parts(s)[i] == Parts(s[end..])[i - 2];
      CodeIsSpan(s[end..], i - 2);
    } else {
      FirstSpanIsSpan(s);
    }
  }

  method NextSpan(s: string) returns (r: Found)
    ensures r == FirstSpan(s)
  {
    var start := FirstBacktick(s);
    if start == |s| {
      return NoSpan;
    }
    var run := LeadingRun(s[start..], BACKTICK);
    var end := ClosingDelimiter(s[start + run..], run);
    ClosingUnique(s[start + run..], run, end);
    if end < 0 {
      return NoSpan;
    }
    return Found(start, start + run + end + run);
  }

  /** mapOutsideCodeSpans: the prose parts through fn, the code spans as they are. */
  method MapOutsideCodeSpans(paragraph: string, fn: string -> string) returns (out: string)
    ensures out == MapProse(Parts(paragraph), fn)
  {
    hide FirstSpan, Parts, MapProse;
    out := "";
    var rest := paragraph;
    while true
      invariant MapProse(Parts(paragraph), fn) == out + MapProse(Parts(rest), fn)
      decreases |rest|
    {
      var span := NextSpan(rest);
      MapProseStep(rest, fn);
      match span {
        case NoSpan => return out + fn(rest);
        case Found(start, end) =>
          Regroup(out, fn(rest[..start]), rest[start..end], MapProse(Parts(rest[end..]), fn));
          out := out + fn(rest[..start]) + rest[start..end];
          rest := rest[end..];
      }
    }
  }

  lemma ClosingUnique(s: string, n: nat, r: int)
    requires n > 0
    requires r == -1 || (0 <= r && Run(s, r, n))
    requires forall k :: 0 <= k < |s| && (r == -1 || k < r) ==> !Run(s, k, n)
    ensures r == Closing(s, n, 0)
  {
  }

  lemma MapProseStep(s: string, fn: string -> string)
    ensures MapProse(Parts(s), fn) ==
            var span := FirstSpan(s);
            if span == NoSpan then fn(s)
                else fn(s[..span.start]) + s[span.start..span.end] + MapProse(Parts(s[span.end..]), fn)
  {
  }

  // Replacing link targets

  datatype Range = Range(start: nat, end: nat)

  /** Matches of a pattern are disjoint and in order. */
  predicate Ordered(ranges: seq<Range>, last: nat, length: nat) {
    if ranges == [] then last <= length
    else last <= ranges[0].start <= ranges[0].end <= length && Ordered(ranges[1..], ranges[0].end, length)
  }

  /** The first groups of a pattern's matches in a text. */
  type Pattern = p: string -> seq<Range> | forall s: string :: Ordered(p(s), 0, |s|) witness (s: string) => []

  function Replaced(text: string, ranges: seq<Range>, last: nat, fn: string -> string): string
    requires Ordered(ranges, last, |text|)
  {
    if ranges == [] then text[last..]
    else
      text[last..ranges[0].start] + fn(text[ranges[0].start..ranges[0].end]) +
      Replaced(text, ranges[1..], ranges[0].end, fn)
  }

  method ReplaceFirstGroup(pattern: Pattern, text: string, fn: string -> string) returns (out: string)
    ensures out == Replaced(text, pattern(text), 0, fn)
  {
    out := ReplaceRanges(text, pattern(text), fn);
  }

  method ReplaceRanges(text: string, ranges: seq<Range>, fn: string -> string) returns (out: string)
    requires Ordered(ranges, 0, |text|)
    ensures out == Replaced(text, ranges, 0, fn)
  {
    hide Ordered, Replaced;
    out := "";
    var last: nat := 0;
    ghost var whole := Replaced(text, ranges, 0, fn);
    assert ranges[0..] == ranges;
    for i := 0 to |ranges|
      invariant Ordered(ranges[i..], last, |text|)
      invariant whole == out + Replaced(text, ranges[i..], last, fn)
    {
      ReplacedStep(text, ranges, i, last, fn);
      var m := ranges[i];
      Regroup(out, text[last..m.start], fn(text[m.start..m.end]), Replaced(text, ranges[i + 1..], m.end, fn));
      out := out + text[last..m.start] + fn(text[m.start..m.end]);
      last := m.end;
    }
    assert ranges[|ranges|..] == [];
    ReplacedNothing(text, last, fn);
    out := out + text[last..];
  }

  lemma Regroup(a: string, b: string, c: string, d: string)
    ensures a + (b + c + d) == a + b + c + d
  {
  }

  lemma ReplacedStep(text: string, ranges: seq<Range>, i: nat, last: nat, fn: string -> string)
    requires i < |ranges| && Ordered(ranges[i..], last, |text|)
    ensures last <= ranges[i].start <= ranges[i].end <= |text| && Ordered(ranges[i + 1..], ranges[i].end, |text|)
    ensures Replaced(text, ranges[i..], last, fn) ==
            text[last..ranges[i].start] + fn(text[ranges[i].start..ranges[i].end]) +
            Replaced(text, ranges[i + 1..], ranges[i].end, fn)
  {
  }

  lemma ReplacedNothing(text: string, last: nat, fn: string -> string)
    requires Ordered([], last, |text|)
    ensures last <= |text| && Replaced(text, [], last, fn) == text[last..]
  {
  }

  /** Every range is replaced: around the i-th the text before it, its groups mapped, comes first, then the i-th
      group mapped, then the rest. With no range the text stays. */
  lemma {:induction false} ReplacedAt(text: string, ranges: seq<Range>, last: nat, i: nat, fn: string -> string)
    requires Ordered(ranges, last, |text|) && i < |ranges|
    ensures var r := ranges[i];
            && last <= r.start <= r.end <= |text|
            && Ordered(ranges[..i], last, r.start) && Ordered(ranges[i + 1..], r.end, |text|)
            && Replaced(text, ranges, last, fn) ==
               Replaced(text[..r.start], ranges[..i], last, fn) + fn(text[r.start..r.end])
               + Replaced(text, ranges[i + 1..], r.end, fn)
    decreases i
  {
    hide Replaced;
    var r, first := ranges[i], ranges[0];
    ReplacedStep(text, ranges, 0, last, fn);
    assert ranges[0..] == ranges;
    if i == 0 {
      ReplacedNothing(text[..r.start], last, fn);
      assert text[..r.start][last..] == text[last..r.start];
    } else {
      ReplacedAt(text, ranges[1..], first.end, i - 1, fn);
      assert ranges[1..][..i - 1] == ranges[..i][1..] && ranges[1..][i..] == ranges[i + 1..];
      ReplacedStep(text[..r.start], ranges[..i], 0, last, fn);
      assert ranges[..i][0..] == ranges[..i];
      assert text[..r.start][last..first.start] == text[last..first.start];
      assert text[..r.start][first.start..first.end] == text[first.start..first.end];
      RegroupRange(text[last..first.start], fn(text[first.start..first.end]),
                   Replaced(text[..r.start], ranges[1..][..i - 1], first.end, fn), fn(text[r.start..r.end]),
                   Replaced(text, ranges[i + 1..], r.end, fn));
    }
  }

  lemma RegroupRange(a: string, b: string, c: string, d: string, e: string)
    ensures a + b + (c + d + e) == (a + b + c) + d + e
  {
  }

  lemma {:induction false} ReplacedIdentity(text: string, ranges: seq<Range>, last: nat, fn: string -> string)
    requires Ordered(ranges, last, |text|) && forall t :: fn(t) == t
    ensures Replaced(text, ranges, last, fn) == text[last..]
  {
    if ranges != [] {
      ReplacedIdentity(text, ranges[1..], ranges[0].end, fn);
      assert text[last..] == text[last..ranges[0].start] + text[ranges[0].start..ranges[0].end] + text[ranges[0].end..];
    }
  }

  function Rewrite(text: string, patterns: seq<Pattern>, fn: string -> string): string {
    if patterns == [] then text
    else
      var before := Rewrite(text, patterns[..|patterns| - 1], fn);
      Replaced(before, patterns[|patterns| - 1](before), 0, fn)
  }

  lemma {:induction false} RewriteIdentity(text: string, patterns: seq<Pattern>, fn: string -> string)
    requires forall t :: fn(t) == t
    ensures Rewrite(text, patterns, fn) == text
  {
    if patterns != [] {
      RewriteIdentity(text, patterns[..|patterns| - 1], fn);
      ReplacedIdentity(text, patterns[|patterns| - 1](text), 0, fn);
    }
  }

  /** The patterns work one after the other, each on what the ones before it made. */
  lemma {:induction false} RewriteInTurn(text: string, a: seq<Pattern>, b: seq<Pattern>, fn: string -> string)
    ensures Rewrite(text, a + b, fn) == Rewrite(Rewrite(text, a, fn), b, fn)
  {
    if b == [] {
      assert a + b == a;
    } else {
      RewriteInTurn(text, a, b[..|b| - 1], fn);
      assert (a + b)[..|a + b| - 1] == a + b[..|b| - 1];
    }
  }

  /** No pattern before the k-th matches the text, and none after it what the k-th leaves. */
  predicate OnlyMatches(text: string, patterns: seq<Pattern>, k: nat, fn: string -> string)
    requires k < |patterns|
  {
    && (forall j :: 0 <= j < k ==> patterns[j](text) == [])
    && forall j :: k < j < |patterns| ==> patterns[j](Replaced(text, patterns[k](text), 0, fn)) == []
  }

  lemma RewriteStep(text: string, patterns: seq<Pattern>, n: nat, fn: string -> string)
    requires n < |patterns|
    ensures var before := Rewrite(text, patterns[..n], fn);
            Rewrite(text, patterns[..n + 1], fn) == Replaced(before, patterns[n](before), 0, fn)
  {
    assert patterns[..n + 1][..n] == patterns[..n];
  }

  lemma {:induction false} RewriteUpTo(text: string, patterns: seq<Pattern>, k: nat, n: nat, fn: string -> string)
    requires k < |patterns| && n <= |patterns| && OnlyMatches(text, patterns, k, fn)
    ensures Rewrite(text, patterns[..n], fn) == if n <= k then text else Replaced(text, patterns[k](text), 0, fn)
  {
    if n == 0 {
      assert patterns[..0] == [];
    } else {
      hide Rewrite, Replaced;
      RewriteUpTo(text, patterns, k, n - 1, fn);
      RewriteStep(text, patterns, n - 1, fn);
      var before := Rewrite(text, patterns[..n - 1], fn);
      if n - 1 != k {
        assert patterns[n - 1](before) == [];
        ReplacedNothing(before, 0, fn);
      }
    }
  }

  /** A text that only one pattern matches, whichever, has every group of that pattern mapped. */
  lemma RewriteOnly(text: string, patterns: seq<Pattern>, k: nat, fn: string -> string)
    requires k < |patterns| && OnlyMatches(text, patterns, k, fn)
    ensures Rewrite(text, patterns, fn) == Replaced(text, patterns[k](text), 0, fn)
  {
    RewriteUpTo(text, patterns, k, |patterns|, fn);
    assert patterns[..|patterns|] == patterns;
  }

  method RewriteParagraph(text: string, patterns: seq<Pattern>, fn: string -> string) returns (out: string)
    ensures out == Rewrite(text, patterns, fn)
  {
    out := text;
    for i := 0 to |patterns|
      invariant out == Rewrite(text, patterns[..i], fn)
    {
      assert patterns[..i + 1][..i] == patterns[..i];
      out := ReplaceFirstGroup(patterns[i], out, fn);
    }
    assert patterns[..|patterns|] == patterns;
  }

  // Lines and fences

  /** unicode.IsSpace. */
  predicate IsSpace(c: char) {
    || c in "\t\n\U{0B}\U{0C}\r " || c == '\U{85}' || c == '\U{A0}' || c == '\U{1680}' || '\U{2000}' <= c <= '\U{200A}'
    || c == '\U{2028}' || c == '\U{2029}' || c == '\U{202F}' || c == '\U{205F}' || c == '\U{3000}'
  }

  function TrimLeft(s: string): string {
    if s != "" && IsSpace(s[0]) then TrimLeft(s[1..]) else s
  }

  function TrimRight(s: string): string {
    if s != "" && IsSpace(s[|s| - 1]) then TrimRight(s[..|s| - 1]) else s
  }

  function TrimSpace(s: string): string {
    TrimRight(TrimLeft(s))
  }

  predicate AllSpace(s: string) {
    forall c <- s :: IsSpace(c)
  }

  lemma {:induction false} TrimLeftExactly(s: string) returns (a: string)
    ensures s == a + TrimLeft(s) && AllSpace(a) && (TrimLeft(s) != "" ==> !IsSpace(TrimLeft(s)[0]))
  {
    hide IsSpace;
    if s != "" && IsSpace(s[0]) {
      var rest := TrimLeftExactly(s[1..]);
      a := [s[0]] + rest;
      assert s == [s[0]] + s[1..];
    } else {
      a := "";
    }
  }

  lemma {:induction false} TrimRightExactly(s: string) returns (b: string)
    ensures s == TrimRight(s) + b && AllSpace(b) && (TrimRight(s) != "" ==> !IsSpace(TrimRight(s)[|TrimRight(s)| - 1]))
  {
    hide IsSpace;
    if s != "" && IsSpace(s[|s| - 1]) {
      var rest := TrimRightExactly(s[..|s| - 1]);
      b := rest + [s[|s| - 1]];
      assert s == s[..|s| - 1] + [s[|s| - 1]];
    } else {
      b := "";
    }
  }

  /** Trimming takes spaces off both ends, and all of them. */
  lemma TrimExactly(s: string) returns (a: string, b: string)
    ensures s == a + TrimSpace(s) + b && AllSpace(a) && AllSpace(b)
    ensures var t := TrimSpace(s); t != "" ==> !IsSpace(t[0]) && !IsSpace(t[|t| - 1])
    ensures Blank(s) <==> AllSpace(s)
  {
    hide IsSpace, TrimLeft, TrimRight;
    a := TrimLeftExactly(s);
    b := TrimRightExactly(TrimLeft(s));
    var t := TrimSpace(s);
    assert t != "" ==> TrimLeft(s)[0] == t[0];
    assert t != "" ==> s[|a|] == t[0] && s[|a|] in s;
  }

  /** strings.SplitAfter(s, "\n"). */
  function SplitLines(s: string): (lines: seq<string>)
    ensures lines != []
  {
    if s == "" then [""]
    else
      var rest := SplitLines(s[1..]);
      if s[0] == '\n' then ["\n"] + rest else [[s[0]] + rest[0]] + rest[1..]
  }

  function Concat(lines: seq<string>): string {
    if lines == [] then "" else lines[0] + Concat(lines[1..])
  }

  /** A line feed only at the end of a line, and there exactly when another line follows. */
  predicate LineOf(line: string, last: bool) {
    && (forall j :: 0 <= j < |line| - 1 ==> line[j] != '\n')
    && (if last then '\n' !in line else line != "" && line[|line| - 1] == '\n')
  }

  lemma LineOfMore(c: char, line: string, last: bool)
    requires LineOf(line, last) && c != '\n'
    ensures LineOf([c] + line, last)
  {
  }

  /** Splitting loses nothing, and every line but the last ends in the only line feed it holds. */
  lemma SplitConserves(s: string)
    ensures Concat(SplitLines(s)) == s
    ensures forall i :: 0 <= i < |SplitLines(s)| ==> LineOf(SplitLines(s)[i], i == |SplitLines(s)| - 1)
  {
    hide LineOf, Concat, SplitLines;
    SplitJoins(s);
    forall i | 0 <= i < |SplitLines(s)| ensures LineOf(SplitLines(s)[i], i == |SplitLines(s)| - 1) {
      SplitLine(s, i);
    }
  }

  lemma {:induction false} SplitJoins(s: string)
    ensures Concat(SplitLines(s)) == s
  {
    if s != "" {
      hide Concat, SplitLines;
      SplitStep(s);
      SplitJoins(s[1..]);
      var rest := SplitLines(s[1..]);
      ConcatChar(s[0], rest);
      ConcatFirst("\n", rest);
      assert s == [s[0]] + s[1..];
    } else {
      assert SplitLines(s)[1..] == [];
    }
  }

  lemma {:induction false} SplitLine(s: string, i: nat)
    requires i < |SplitLines(s)|
    ensures LineOf(SplitLines(s)[i], i == |SplitLines(s)| - 1)
  {
    if s != "" {
      hide LineOf, SplitLines;
      SplitStep(s);
      var rest := SplitLines(s[1..]);
      if s[0] == '\n' {
        LineFeed();
        if i > 0 {
          SplitLine(s[1..], i - 1);
        }
      } else {
        SplitLine(s[1..], i);
        if i == 0 {
          LineOfMore(s[0], rest[0], |rest| == 1);
        }
      }
    }
  }

  lemma SplitStep(s: string)
    requires s != ""
    ensures var rest := SplitLines(s[1..]);
            SplitLines(s) == if s[0] == '\n' then ["\n"] + rest else [[s[0]] + rest[0]] + rest[1..]
  {
  }

  lemma ConcatChar(c: char, rest: seq<string>)
    requires rest != []
    ensures Concat([[c] + rest[0]] + rest[1..]) == [c] + Concat(rest)
  {
    hide Concat;
    assert rest == [rest[0]] + rest[1..];
    ConcatFirst(rest[0], rest[1..]);
    ConcatFirst([c] + rest[0], rest[1..]);
    CharFirst(c, rest[0], Concat(rest[1..]));
  }

  lemma CharFirst(c: char, a: string, b: string)
    ensures ([c] + a) + b == [c] + (a + b)
  {
  }

  lemma ConcatFirst(line: string, rest: seq<string>)
    ensures Concat([line] + rest) == line + Concat(rest)
  {
    assert ([line] + rest)[1..] == rest;
  }

  lemma LineFeed()
    ensures LineOf("\n", false)
  {
  }

  /** The run of three or more backticks or tildes that opens a fenced block; empty when there is none. */
  function FenceMarker(line: string): (m: string)
    ensures || m == ""
            || (3 <= |m| <= |line| && m == line[..|m|] && (m[0] == BACKTICK || m[0] == '~')
                && forall c <- m :: c == m[0])
  {
    if LeadingRun(line, BACKTICK) >= 3 then line[..LeadingRun(line, BACKTICK)]
    else if LeadingRun(line, '~') >= 3 then line[..LeadingRun(line, '~')]
    else ""
  }

  /** A run of the marker's character, at least as long, and nothing else. */
  predicate ClosesFence(line: string, marker: string)
    requires marker != ""
  {
    marker <= line && forall c <- line :: c == marker[0]
  }

  /** A marker is the longest run of one character at the start of a line that begins with three backticks or three
      tildes; a line closes the block it opened exactly when it is a run of that character, at least as long. */
  lemma FenceMarkerExactly(line: string, close: string)
    ensures FenceMarker(line) != "" <==>
            |line| >= 3 && line[0] == line[1] == line[2] && (line[0] == BACKTICK || line[0] == '~')
    ensures var m := FenceMarker(line);
            m != "" ==>
              && (|m| == |line| || line[|m|] != line[0])
              && (ClosesFence(close, m) <==> |close| >= |m| && forall c <- close :: c == line[0])
  {
    var m := FenceMarker(line);
    if |line| >= 3 && line[0] == line[1] == line[2] {
      assert LeadingRun(line, line[0]) >= 3 && (forall c :: c != line[0] ==> LeadingRun(line, c) == 0);
    }
    if m != "" && |close| >= |m| && forall c <- close :: c == line[0] {
      forall j | 0 <= j < |m| ensures m[j] == close[j] {
        assert m[j] in m && close[j] in close;
      }
    }
  }

  /** The open fence after a line; empty outside fenced blocks. */
  function FenceStep(fence: string, line: string): string {
    if fence != "" then if ClosesFence(TrimSpace(line), fence) then "" else fence
    else FenceMarker(TrimSpace(line))
  }

  function FenceAfter(lines: seq<string>): string {
    if lines == [] then "" else FenceStep(FenceAfter(lines[..|lines| - 1]), lines[|lines| - 1])
  }

  /** The line opens a fenced block, lies in one, or closes one. */
  predicate Fenced(lines: seq<string>, k: nat)
    requires k < |lines|
  {
    FenceAfter(lines[..k]) != "" || FenceMarker(TrimSpace(lines[k])) != ""
  }

  predicate Blank(line: string) {
    TrimSpace(line) == ""
  }

  /** The lines of the paragraph that is open at the end. */
  function OpenParagraph(lines: seq<string>): string {
    if lines == [] then ""
    else
      var n := |lines| - 1;
      if Fenced(lines, n) || Blank(lines[n]) then "" else OpenParagraph(lines[..n]) + lines[n]
  }

  /** What is written before the open paragraph, when `rewrite` maps a paragraph. */
  function Written(lines: seq<string>, rewrite: string -> string): string {
    if lines == [] then ""
    else
      var n := |lines| - 1;
      var before := Written(lines[..n], rewrite);
      if FenceAfter(lines[..n]) != "" then before + lines[n]
      else if Fenced(lines, n) || Blank(lines[n]) then before + rewrite(OpenParagraph(lines[..n])) + lines[n]
      else before
  }

  function Mapped(lines: seq<string>, rewrite: string -> string): string {
    Written(lines, rewrite) + rewrite(OpenParagraph(lines))
  }

  function TextMap(patterns: seq<Pattern>, fn: string -> string): string -> string {
    text => Rewrite(text, patterns, fn)
  }

  function ParagraphMap(patterns: seq<Pattern>, fn: string -> string): string -> string {
    paragraph => MapProse(Parts(paragraph), TextMap(patterns, fn))
  }

  method MapLinks(content: string, patterns: seq<Pattern>, fn: string -> string) returns (out: string)
    ensures out == Mapped(SplitLines(content), ParagraphMap(patterns, fn))
  {
    hide MapProse, Parts, TrimSpace, FenceMarker;
    var lines, paragraph, fence := SplitLines(content), "", "";
    ghost var rewrite := ParagraphMap(patterns, fn);
    out := "";
    for i := 0 to |lines|
      invariant out == Written(lines[..i], rewrite)
      invariant paragraph == OpenParagraph(lines[..i]) && fence == FenceAfter(lines[..i])
      invariant fence != "" ==> paragraph == ""
    {
      LineStep(lines, i, rewrite);
      var trimmed := TrimSpace(lines[i]);
      if fence != "" {
        out := out + lines[i];
        if ClosesFence(trimmed, fence) {
          fence := "";
        }
      } else if FenceMarker(trimmed) != "" {
        var flushed := MapOutsideCodeSpans(paragraph, TextMap(patterns, fn));
        out, paragraph, fence := out + flushed + lines[i], "", FenceMarker(trimmed);
      } else if trimmed == "" {
        var flushed := MapOutsideCodeSpans(paragraph, TextMap(patterns, fn));
        out, paragraph := out + flushed + lines[i], "";
      } else {
        paragraph := paragraph + lines[i];
      }
    }
    assert lines[..|lines|] == lines;
    var flushed := MapOutsideCodeSpans(paragraph, TextMap(patterns, fn));
    return out + flushed;
  }

  lemma LineStep(lines: seq<string>, i: nat, rewrite: string -> string)
    requires i < |lines|
    ensures FenceAfter(lines[..i + 1]) == FenceStep(FenceAfter(lines[..i]), lines[i])
    ensures var open, opens := FenceAfter(lines[..i]) != "", FenceMarker(TrimSpace(lines[i])) != "";
            && OpenParagraph(lines[..i + 1]) ==
               (if open || opens || Blank(lines[i]) then "" else OpenParagraph(lines[..i]) + lines[i])
            && Written(lines[..i + 1], rewrite) ==
               if open then Written(lines[..i], rewrite) + lines[i]
               else if opens || Blank(lines[i])
               then Written(lines[..i], rewrite) + rewrite(OpenParagraph(lines[..i])) + lines[i]
               else Written(lines[..i], rewrite)
  {
    var longer := lines[..i + 1];
    assert longer[..i] == lines[..i] && |longer| - 1 == i;
    assert Fenced(longer, i) == (FenceAfter(lines[..i]) != "" || FenceMarker(TrimSpace(lines[i])) != "");
  }

  /** Nothing is lost or moved: when paragraphs stay what they are, so does the text. */
  lemma {:induction false} LinesConserve(lines: seq<string>, rewrite: string -> string)
    requires forall p :: rewrite(p) == p
    ensures Mapped(lines, rewrite) == Concat(lines)
    ensures FenceAfter(lines) != "" ==> OpenParagraph(lines) == ""
  {
    hide FenceAfter, OpenParagraph, Written, TrimSpace, FenceMarker;
    if lines == [] {
      NoLines(rewrite);
    } else {
      var n := |lines| - 1;
      LinesConserve(lines[..n], rewrite);
      assert lines[..n + 1] == lines;
      LineStep(lines, n, rewrite);
      ConcatAppend(lines[..n], lines[n]);
      assert lines == lines[..n] + [lines[n]];
      Appended(Written(lines[..n], rewrite), OpenParagraph(lines[..n]), lines[n]);
    }
  }

  lemma Appended(w: string, o: string, line: string)
    ensures w + o + line + "" == w + o + line && w + (o + line) == w + o + line && w + line + "" == w + line
    ensures w + "" == w
  {
  }

  lemma {:induction false} ConcatAppend(lines: seq<string>, line: string)
    ensures Concat(lines + [line]) == Concat(lines) + line
  {
    if lines != [] {
      ConcatAppend(lines[1..], line);
      assert (lines + [line])[1..] == lines[1..] + [line];
    } else {
      assert [line][1..] == [];
    }
  }

  lemma {:induction false} MapProseIdentity(parts: seq<Part>, fn: string -> string)
    requires forall t :: fn(t) == t
    ensures MapProse(parts, fn) == Joined(parts)
  {
    if parts != [] {
      MapProseIdentity(parts[1..], fn);
    }
  }

  /** mapLinks with the identity function returns its input, for every text and any patterns. */
  lemma IdentityConserves(content: string, patterns: seq<Pattern>, fn: string -> string)
    requires forall t :: fn(t) == t
    ensures Mapped(SplitLines(content), ParagraphMap(patterns, fn)) == content
  {
    forall t ensures TextMap(patterns, fn)(t) == t {
      RewriteIdentity(t, patterns, fn);
    }
    forall p ensures ParagraphMap(patterns, fn)(p) == p {
      MapProseIdentity(Parts(p), TextMap(patterns, fn));
      PartsConserve(p);
    }
    LinesConserve(SplitLines(content), ParagraphMap(patterns, fn));
    SplitConserves(content);
  }

  lemma {:induction false} WrittenGrows(lines: seq<string>, k: nat, rewrite: string -> string)
    requires k <= |lines|
    ensures Written(lines[..k], rewrite) <= Mapped(lines, rewrite)
    decreases |lines| - k
  {
    if k < |lines| {
      LineStep(lines, k, rewrite);
      WrittenGrows(lines, k + 1, rewrite);
    } else {
      assert lines[..k] == lines;
    }
  }

  /** A line that opens, fills or closes a fenced block, and a blank line, stands in the output verbatim, right
      after the output of the lines before it, whatever the rewriting does. */
  lemma FencedVerbatim(lines: seq<string>, k: nat, rewrite: string -> string)
    requires k < |lines| && (Fenced(lines, k) || Blank(lines[k]))
    ensures var before := if FenceAfter(lines[..k]) != "" then Written(lines[..k], rewrite)
                          else Mapped(lines[..k], rewrite);
            before + lines[k] <= Mapped(lines, rewrite)
  {
    LineStep(lines, k, rewrite);
    WrittenGrows(lines, k + 1, rewrite);
  }

  /** A line of text outside fenced blocks. */
  predicate Plain(lines: seq<string>, k: nat)
    requires k < |lines|
  {
    !Fenced(lines, k) && !Blank(lines[k])
  }

  /** The lines from i to j are a whole paragraph. */
  predicate Paragraph(lines: seq<string>, i: nat, j: nat) {
    && i < j <= |lines| && (forall k :: i <= k < j ==> Plain(lines, k))
    && (i == 0 || !Plain(lines, i - 1)) && (j == |lines| || !Plain(lines, j))
  }

  lemma {:induction false} ParagraphOpens(lines: seq<string>, i: nat, j: nat, rewrite: string -> string)
    requires i < j <= |lines| && (forall k :: i <= k < j ==> Plain(lines, k)) && (i == 0 || !Plain(lines, i - 1))
    ensures OpenParagraph(lines[..j]) == Concat(lines[i..j])
    ensures Written(lines[..j], rewrite) == Written(lines[..i], rewrite)
    ensures FenceAfter(lines[..j - 1]) == ""
    decreases j
  {
    hide FenceAfter, FenceStep, OpenParagraph, Written, TrimSpace, FenceMarker, Concat;
    var before := OpenParagraph(lines[..j - 1]);
    LineStep(lines, j - 1, rewrite);
    assert Plain(lines, j - 1);
    assert OpenParagraph(lines[..j]) == before + lines[j - 1];
    assert lines[i..j] == lines[i..j - 1] + [lines[j - 1]];
    ConcatAppend(lines[i..j - 1], lines[j - 1]);
    if i < j - 1 {
      ParagraphOpens(lines, i, j - 1, rewrite);
    } else {
      NothingOpen(lines, i, rewrite);
    }
  }

  lemma NothingOpen(lines: seq<string>, i: nat, rewrite: string -> string)
    requires i < |lines| && (i == 0 || !Plain(lines, i - 1))
    ensures OpenParagraph(lines[..i]) == "" == Concat(lines[i..i])
  {
    hide FenceAfter, FenceStep, OpenParagraph, Written, TrimSpace, FenceMarker;
    NoLines(rewrite);
    assert lines[i..i] == [];
    if i > 0 {
      LineStep(lines, i - 1, rewrite);
    } else {
      assert lines[..0] == [];
    }
  }

  /** Every paragraph is rewritten, at its own place: right after what is written of the lines before it. */
  lemma ParagraphMapped(lines: seq<string>, i: nat, j: nat, rewrite: string -> string)
    requires Paragraph(lines, i, j)
    ensures Written(lines[..i], rewrite) + rewrite(Concat(lines[i..j])) <= Mapped(lines, rewrite)
  {
    hide FenceAfter, OpenParagraph, Written, TrimSpace, FenceMarker, Concat;
    ParagraphOpens(lines, i, j, rewrite);
    if j < |lines| {
      LineStep(lines, j - 1, rewrite);
      LineStep(lines, j, rewrite);
      assert Plain(lines, j - 1);
      WrittenGrows(lines, j + 1, rewrite);
    } else {
      assert lines[..j] == lines;
    }
  }

  /** A paragraph without code spans that only one pattern matches, whichever and wherever it stands, comes out
      with every group of that pattern mapped (ReplacedAt). */
  lemma LinksMapped(content: string, i: nat, j: nat, patterns: seq<Pattern>, k: nat, fn: string -> string)
    requires Paragraph(SplitLines(content), i, j) && k < |patterns|
    requires var text := Concat(SplitLines(content)[i..j]);
             FirstSpan(text) == NoSpan && OnlyMatches(text, patterns, k, fn)
    ensures var lines, rewrite := SplitLines(content), ParagraphMap(patterns, fn);
            var text := Concat(lines[i..j]);
            Written(lines[..i], rewrite) + Replaced(text, patterns[k](text), 0, fn) <= Mapped(lines, rewrite)
  {
    hide Written, OpenParagraph, Replaced, OnlyMatches, Plain, FirstSpan, Mapped, TrimSpace, FenceMarker, FenceAfter;
    var lines, rewrite := SplitLines(content), ParagraphMap(patterns, fn);
    var text := Concat(lines[i..j]);
    RewriteOnly(text, patterns, k, fn);
    assert Parts(text) == [Prose(text)];
    assert rewrite(text) == Rewrite(text, patterns, fn) by {
      assert MapProse([Prose(text)], TextMap(patterns, fn)) ==
             TextMap(patterns, fn)(text) + MapProse([], TextMap(patterns, fn));
    }
    ParagraphMapped(lines, i, j, rewrite);
  }

  /** A fence stays open over every line that does not close it, so no line in between is a paragraph. */
  lemma {:induction false} FenceStaysOpen(lines: seq<string>, i: nat, j: nat)
    requires i < j <= |lines| && FenceAfter(lines[..i]) == "" && FenceMarker(TrimSpace(lines[i])) != ""
    requires forall k :: i < k < j ==> !ClosesFence(TrimSpace(lines[k]), FenceMarker(TrimSpace(lines[i])))
    ensures FenceAfter(lines[..j]) == FenceMarker(TrimSpace(lines[i])) && forall k :: i <= k < j ==> Fenced(lines, k)
    decreases j
  {
    hide FenceMarker, TrimSpace, ClosesFence, Written, OpenParagraph, FenceAfter;
    LineStep(lines, j - 1, (p: string) => p);
    if i < j - 1 {
      FenceStaysOpen(lines, i, j - 1);
    }
  }

  /** The first line after it that closes a fence ends the block. */
  lemma FenceCloses(lines: seq<string>, i: nat, j: nat)
    requires i < j < |lines| && FenceAfter(lines[..i]) == "" && FenceMarker(TrimSpace(lines[i])) != ""
    requires forall k :: i < k < j ==> !ClosesFence(TrimSpace(lines[k]), FenceMarker(TrimSpace(lines[i])))
    requires ClosesFence(TrimSpace(lines[j]), FenceMarker(TrimSpace(lines[i])))
    ensures Fenced(lines, j) && FenceAfter(lines[..j + 1]) == ""
  {
    hide FenceMarker, TrimSpace, ClosesFence, Written, OpenParagraph, FenceAfter;
    FenceStaysOpen(lines, i, j);
    LineStep(lines, j, (p: string) => p);
  }

  /** After a blank line outside fences, or the line that closes one, the rewriting starts afresh: no
      paragraph and no code span reaches across. */
  lemma BlocksAreIndependent(lines: seq<string>, k: nat, rewrite: string -> string)
    requires k < |lines| && FenceAfter(lines[..k + 1]) == "" && (Fenced(lines, k) || Blank(lines[k]))
    ensures Mapped(lines, rewrite) == Written(lines[..k + 1], rewrite) + Mapped(lines[k + 1..], rewrite)
  {
    hide FenceAfter, FenceStep, OpenParagraph, Written, TrimSpace, FenceMarker;
    LineStep(lines, k, rewrite);
    FreshStart(lines, k + 1, |lines|, rewrite);
    assert lines[..|lines|] == lines && lines[k + 1..|lines|] == lines[k + 1..];
  }

  lemma {:induction false} FreshStart(lines: seq<string>, first: nat, last: nat, rewrite: string -> string)
    requires first <= last <= |lines| && FenceAfter(lines[..first]) == "" && OpenParagraph(lines[..first]) == ""
    ensures FenceAfter(lines[..last]) == FenceAfter(lines[first..last])
    ensures OpenParagraph(lines[..last]) == OpenParagraph(lines[first..last])
    ensures Written(lines[..last], rewrite) == Written(lines[..first], rewrite) + Written(lines[first..last], rewrite)
    decreases last
  {
    hide FenceAfter, FenceStep, OpenParagraph, Written, TrimSpace, FenceMarker, Fenced;
    var rest := lines[first..];
    Slices(lines, first, last);
    if first == last {
      NoLines(rewrite);
      Unchanged(Written(lines[..first], rewrite));
    } else {
      Slices(lines, first, last - 1);
      FreshStart(lines, first, last - 1, rewrite);
      LineStep(lines, last - 1, rewrite);
      LineStep(rest, last - 1 - first, rewrite);
      RegroupFresh(Written(lines[..first], rewrite), Written(lines[first..last - 1], rewrite),
                   rewrite(OpenParagraph(lines[first..last - 1])), lines[last - 1]);
    }
  }

  lemma Unchanged(a: string)
    ensures a + "" == a
  {
  }

  lemma Slices(lines: seq<string>, first: nat, last: nat)
    requires first <= last <= |lines|
    ensures lines[first..][..last - first] == lines[first..last]
    ensures last < |lines| ==> lines[first..][last - first] == lines[last]
    ensures first == last ==> lines[first..last] == []
  {
  }

  lemma RegroupFresh(a: string, b: string, c: string, d: string)
    ensures (a + b) + d == a + (b + d) && ((a + b) + c) + d == a + ((b + c) + d)
  {
  }

  lemma NoLines(rewrite: string -> string)
    ensures FenceAfter([]) == "" && OpenParagraph([]) == "" && Written([], rewrite) == ""
  {
  }
}
