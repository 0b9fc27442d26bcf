/**
 * The import script's Markdown-to-Portable-Text converter
 * (`convertMarkdownToBlocks` with its inner `parseLineForHighlights` and
 * `flushList`, scripts/importPage.js). A text is split into lines; each
 * non-blank line becomes one block (a bullet item or a normal paragraph) whose
 * children are spans marked `strong` (`**x**`, `__x__`) or `highlight` (`==x==`).
 *
 * Each loop of the converter is specified by a function that takes the loop's
 * variables as parameters (`HighlightScan`, `BoldScan`, `OutsideScan`,
 * `SpanScan`, `ConvertScan`); the lemmas relate those to declarative
 * descriptions of the result.
 */
module Markdown {
  import opened Strings
  import opened Json

  datatype MarkKind = Strong | Highlight

  /**
   * A marked range of a line, `[start, end)`, delimiters included; the marked
   * text lies two characters inside each end. For a bold range, `hasHighlight`
   * records whether its text contains a highlight.
   */
  datatype Match = Match(start: nat, end: nat, kind: MarkKind, hasHighlight: bool)

  /** The result of one `exec` of the highlight expression: `null` or a match. */
  datatype Exec = NoMatch | Found(m: Match)

  datatype Span = Span(text: string, marks: seq<string>)


  function MarkName(k: MarkKind): string {
    match k
    case Strong => "strong"
    case Highlight => "highlight"
  }

  predicate ValidMatch(line: string, m: Match) {
    m.start + 4 <= m.end <= |line|
  }

  /** The marked text of a range. */
  function Text(line: string, m: Match): string
    requires ValidMatch(line, m)
  {
    line[m.start + 2..m.end - 2]
  }

  /** The two-character pattern `pat` occurs in `line` at index `x`. */
  predicate PairAt(line: string, x: nat, pat: string)
    requires |pat| == 2
  {
    x + 2 <= |line| && line[x] == pat[0] && line[x + 1] == pat[1]
  }

  // ---------------------------------------------------------------------------
  // Step 1: highlights, the global regular expression /==([^=]+)==/g
  // ---------------------------------------------------------------------------

  /** The first index from `j` on that holds `=`, or the end of the line. */
  function RunEnd(line: string, j: nat): (r: nat)
    requires j <= |line|
    ensures j <= r <= |line| && (r < |line| ==> line[r] == '=')
    ensures forall x :: j <= x < r ==> line[x] != '='
    decreases |line| - j
  {
    if j == |line| || line[j] == '=' then j else RunEnd(line, j + 1)
  }

  /**
   * The end of the highlight that starts exactly at `i`, or -1: two `=`, a
   * non-empty run without `=`, two `=`.
   */
  function HighlightAt(line: string, i: nat): (r: int)
    ensures r == -1 || (i + 5 <= r <= |line| && PairAt(line, i, "==") && PairAt(line, r - 2, "=="))
    ensures r != -1 ==> forall x :: i + 2 <= x < r - 2 ==> line[x] != '='
  {
    if i + 2 <= |line| && line[i] == '=' && line[i + 1] == '=' then
      var j := RunEnd(line, i + 2);
      if j > i + 2 && j + 2 <= |line| && line[j + 1] == '=' then j + 2 else -1
    else -1
  }

  /** `highlightRegex.exec(line)` with `lastIndex == from`: the leftmost highlight starting at `from` or later. */
  function NextHighlight(line: string, from: nat): (r: Exec)
    ensures r.Found? ==> from <= r.m.start && ValidMatch(line, r.m) && r.m.kind == Highlight && !r.m.hasHighlight
    ensures r.Found? ==> HighlightAt(line, r.m.start) == r.m.end
    decreases |line| - from
  {
    if from >= |line| then NoMatch
    else
      var e := HighlightAt(line, from);
      if e != -1 then Found(Match(from, e, Highlight, false)) else NextHighlight(line, from + 1)
  }

  /** `exec` finds the leftmost highlight at or after `from`, and reports none only when there is none. */
  lemma {:induction false} NextHighlightLeftmost(line: string, from: nat)
    ensures NextHighlight(line, from).Found? ==>
      forall x :: from <= x < NextHighlight(line, from).m.start ==> HighlightAt(line, x) == -1
    ensures NextHighlight(line, from).NoMatch? ==> forall x :: from <= x ==> HighlightAt(line, x) == -1
    decreases |line| - from
  {
    if from < |line| && HighlightAt(line, from) == -1 {
      NextHighlightLeftmost(line, from + 1);
    }
  }

  /** The `exec` loop from `lastIndex` on, with `found` the highlights collected so far. */
  function HighlightScan(line: string, lastIndex: nat, found: seq<Match>): seq<Match>
    decreases |line| - lastIndex
  {
    match NextHighlight(line, lastIndex)
    case NoMatch => found
    case Found(m) => HighlightScan(line, m.end, found + [m])
  }

  /** `highlightMatches`: every highlight of the line, left to right, each search resuming at the previous end. */
  function Highlights(line: string): seq<Match> {
    HighlightScan(line, 0, [])
  }

  /** `/==[^=]+==/.test(text)` */
  predicate HasHighlight(text: string) {
    NextHighlight(text, 0).Found?
  }

  method FindHighlights(line: string) returns (highlightMatches: seq<Match>)
    ensures highlightMatches == Highlights(line)
  {
    highlightMatches := [];
    var lastIndex := 0;
    var next := NextHighlight(line, lastIndex);
    while next.Found?
      invariant 0 <= lastIndex
      invariant next == NextHighlight(line, lastIndex)
      invariant HighlightScan(line, lastIndex, highlightMatches) == Highlights(line)
      decreases |line| - lastIndex
    {
      highlightMatches := highlightMatches + [next.m];
      lastIndex := next.m.end;
      next := NextHighlight(line, lastIndex);
    }
  }

  predicate GoodHighlight(line: string, m: Match) {
    ValidMatch(line, m) && m.kind == Highlight
  }

  /** Every match the scan adds is a highlight of the line, at or after the position the scan started from. */
  lemma {:induction false} HighlightScanGood(line: string, lastIndex: nat, found: seq<Match>)
    requires forall m :: m in found ==> GoodHighlight(line, m)
    ensures forall m :: m in HighlightScan(line, lastIndex, found) ==> GoodHighlight(line, m)
    ensures forall m :: m in HighlightScan(line, lastIndex, found) ==>
      m in found || (lastIndex <= m.start && HighlightAt(line, m.start) == m.end)
    decreases |line| - lastIndex
  {
    var next := NextHighlight(line, lastIndex);
    if next.Found? {
      HighlightScanGood(line, next.m.end, found + [next.m]);
    }
  }

  // ---------------------------------------------------------------------------
  // Step 2: bold ranges, paired by `indexOf` scanning
  // ---------------------------------------------------------------------------

  /** `line.indexOf(pat, from)` for a two-character pattern: the first occurrence at or after `from`, or -1. */
  function IndexOf(line: string, pat: string, from: nat): (r: int)
    requires |pat| == 2
    ensures r == -1 || (from <= r && PairAt(line, r, pat))
    decreases |line| - from
  {
    if from + 2 > |line| then -1
    else if line[from] == pat[0] && line[from + 1] == pat[1] then from
    else IndexOf(line, pat, from + 1)
  }

  /** `indexOf` finds the first occurrence at or after `from`, and answers -1 only when there is none. */
  lemma {:induction false} IndexOfLeftmost(line: string, pat: string, from: nat)
    requires |pat| == 2
    ensures IndexOf(line, pat, from) != -1 ==> forall x :: from <= x < IndexOf(line, pat, from) ==> !PairAt(line, x, pat)
    ensures IndexOf(line, pat, from) == -1 ==> forall x :: from <= x ==> !PairAt(line, x, pat)
    decreases |line| - from
  {
    if from + 2 <= |line| && !PairAt(line, from, pat) {
      IndexOfLeftmost(line, pat, from + 1);
    }
  }

  /** The bold range whose delimiters start at `s` and `e`. */
  function BoldMatch(line: string, s: nat, e: nat): Match
    requires s + 2 <= e <= |line|
  {
    Match(s, e + 2, Strong, HasHighlight(line[s + 2..e]))
  }

  /**
   * The bold scan for `delim` from `pos` on, with `found` the ranges collected
   * so far: an opening delimiter is paired with the next one; the scan stops at
   * the first delimiter without a partner.
   */
  function BoldScan(line: string, delim: string, pos: nat, found: seq<Match>): seq<Match>
    requires |delim| == 2
    decreases |line| - pos
  {
    if pos >= |line| then found
    else
      var s := IndexOf(line, delim, pos);
      if s == -1 then found
      else
        var e := IndexOf(line, delim, s + 2);
        if e == -1 then found
        else BoldScan(line, delim, e + 2, found + [BoldMatch(line, s, e)])
  }

  function BoldPairs(line: string, delim: string): seq<Match>
    requires |delim| == 2
  {
    BoldScan(line, delim, 0, [])
  }

  /** The `boldMatches` loop for one delimiter. */
  method FindBoldPairs(line: string, delim: string) returns (boldMatches: seq<Match>)
    requires |delim| == 2
    ensures boldMatches == BoldPairs(line, delim)
  {
    boldMatches := [];
    var pos := 0;
    while pos < |line|
      invariant 0 <= pos
      invariant BoldScan(line, delim, pos, boldMatches) == BoldPairs(line, delim)
      decreases |line| - pos
    {
      var start := IndexOf(line, delim, pos);
      if start == -1 {
        break;
      }
      var end := IndexOf(line, delim, start + 2);
      if end == -1 {
        break;
      }
      boldMatches := boldMatches + [BoldMatch(line, start, end)];
      pos := end + 2;
    }
  }

  predicate GoodBold(line: string, m: Match) {
    ValidMatch(line, m) && m.kind == Strong && m.hasHighlight == HasHighlight(Text(line, m))
  }

  /**
   * Every range the scan adds is delimited by `delim` on both sides and
   * records whether its text contains a highlight.
   */
  lemma {:induction false} BoldScanGood(line: string, delim: string, pos: nat, found: seq<Match>)
    requires |delim| == 2
    requires forall m :: m in found ==> GoodBold(line, m)
    ensures forall m :: m in BoldScan(line, delim, pos, found) ==> GoodBold(line, m)
    ensures forall m :: m in BoldScan(line, delim, pos, found) ==>
      m in found || (pos <= m.start && m.start + 4 <= m.end && PairAt(line, m.start, delim) && PairAt(line, m.end - 2, delim))
    decreases |line| - pos
  {
    if pos < |line| {
      var s := IndexOf(line, delim, pos);
      if s != -1 {
        var e := IndexOf(line, delim, s + 2);
        if e != -1 {
          var b := BoldMatch(line, s, e);
          assert Text(line, b) == line[s + 2..e];
          BoldScanGood(line, delim, e + 2, found + [b]);
        }
      }
    }
  }

  // ---------------------------------------------------------------------------
  // Step 3: merge, dropping highlights that lie inside a bold range, and sort
  // ---------------------------------------------------------------------------

  /** `boldMatches.some(b => h.start >= b.start && h.end <= b.end)` */
  predicate InsideBold(h: Match, bolds: seq<Match>) {
    exists b :: b in bolds && h.start >= b.start && h.end <= b.end
  }

  /** The highlight loop from index `k` on, appending to `acc` each highlight that lies inside no bold range. */
  function OutsideScan(hs: seq<Match>, bolds: seq<Match>, k: nat, acc: seq<Match>): seq<Match>
    requires k <= |hs|
    decreases |hs| - k
  {
    if k == |hs| then acc
    else OutsideScan(hs, bolds, k + 1, if InsideBold(hs[k], bolds) then acc else acc + [hs[k]])
  }

  lemma {:induction false} OutsideScanMembers(hs: seq<Match>, bolds: seq<Match>, k: nat, acc: seq<Match>)
    requires k <= |hs|
    ensures forall m :: m in OutsideScan(hs, bolds, k, acc) <==> m in acc || (m in hs[k..] && !InsideBold(m, bolds))
    decreases |hs| - k
  {
    if k < |hs| {
      OutsideScanMembers(hs, bolds, k + 1, if InsideBold(hs[k], bolds) then acc else acc + [hs[k]]);
      assert hs[k..] == [hs[k]] + hs[k + 1..];
    }
  }

  predicate SortedByStart(ms: seq<Match>) {
    forall a, b :: 0 <= a < b < |ms| ==> ms[a].start <= ms[b].start
  }

  /** Inserts `m` after every element that starts no later than it. */
  function Insert(sorted: seq<Match>, m: Match): seq<Match> {
    if sorted == [] then [m]
    else if sorted[|sorted| - 1].start <= m.start then sorted + [m]
    else Insert(sorted[..|sorted| - 1], m) + [sorted[|sorted| - 1]]
  }

  /** `allMatches.sort((a, b) => a.start - b.start)`, a stable sort. */
  function SortByStart(ms: seq<Match>): seq<Match> {
    if ms == [] then [] else Insert(SortByStart(ms[..|ms| - 1]), ms[|ms| - 1])
  }

  /** Appending an element that starts no earlier than every element keeps the order. */
  lemma AppendSorted(s: seq<Match>, x: Match)
    requires SortedByStart(s)
    requires forall k :: 0 <= k < |s| ==> s[k].start <= x.start
    ensures SortedByStart(s + [x])
  {
    var t := s + [x];
    forall a, b | 0 <= a < b < |t| ensures t[a].start <= t[b].start {
      if b < |s| {
        assert t[a] == s[a] && t[b] == s[b];
      } else {
        assert t[a] == s[a];
      }
    }
  }

  /** Inserting an element that starts no later than `bound` into such a sequence keeps every start within `bound`. */
  lemma {:induction false} InsertBounded(sorted: seq<Match>, m: Match, bound: int)
    requires forall k :: 0 <= k < |sorted| ==> sorted[k].start <= bound
    requires m.start <= bound
    ensures forall k :: 0 <= k < |Insert(sorted, m)| ==> Insert(sorted, m)[k].start <= bound
  {
    if sorted != [] && sorted[|sorted| - 1].start > m.start {
      var front := sorted[..|sorted| - 1];
      InsertBounded(front, m, bound);
      var ins := Insert(front, m);
      assert Insert(sorted, m) == ins + [sorted[|sorted| - 1]];
    }
  }

  lemma {:induction false} InsertSorted(sorted: seq<Match>, m: Match)
    requires SortedByStart(sorted)
    ensures SortedByStart(Insert(sorted, m))
  {
    if sorted == [] {
    } else if sorted[|sorted| - 1].start <= m.start {
      AppendSorted(sorted, m);
    } else {
      var front := sorted[..|sorted| - 1];
      var last := sorted[|sorted| - 1];
      assert SortedByStart(front) by {
        forall a, b | 0 <= a < b < |front| ensures front[a].start <= front[b].start {
          assert front[a] == sorted[a] && front[b] == sorted[b];
        }
      }
      InsertSorted(front, m);
      assert forall k :: 0 <= k < |front| ==> front[k].start <= last.start by {
        forall k | 0 <= k < |front| ensures front[k].start <= last.start {
          assert front[k] == sorted[k];
        }
      }
      InsertBounded(front, m, last.start);
      AppendSorted(Insert(front, m), last);
    }
  }

  lemma {:induction false} InsertPermutes(sorted: seq<Match>, m: Match)
    ensures multiset(Insert(sorted, m)) == multiset(sorted) + multiset{m}
  {
    if sorted != [] && sorted[|sorted| - 1].start > m.start {
      var front := sorted[..|sorted| - 1];
      var last := sorted[|sorted| - 1];
      assert sorted == front + [last];
      InsertPermutes(front, m);
    }
  }

  /** The sort returns a permutation of its input, ordered by start. */
  lemma {:induction false} SortByStartCorrect(ms: seq<Match>)
    ensures SortedByStart(SortByStart(ms))
    ensures multiset(SortByStart(ms)) == multiset(ms)
  {
    if ms == [] {
      assert SortByStart(ms) == [];
    } else {
      var front, x := ms[..|ms| - 1], ms[|ms| - 1];
      var sf := SortByStart(front);
      SortByStartCorrect(front);
      InsertSorted(sf, x);
      InsertPermutes(sf, x);
      assert SortByStart(ms) == Insert(sf, x);
      assert multiset(ms) == multiset(front) + multiset{x} by {
        assert ms == front + [x];
      }
    }
  }

  /** `boldMatches`: the `**` ranges, then the `__` ranges. */
  function Bolds(line: string): seq<Match> {
    BoldPairs(line, "**") + BoldPairs(line, "__")
  }

  /** `allMatches` before the sort: the bold ranges, then the highlights outside them. */
  function Merged(line: string): seq<Match> {
    OutsideScan(Highlights(line), Bolds(line), 0, Bolds(line))
  }

  lemma MergedMembers(line: string)
    ensures forall m :: m in Merged(line) <==> m in Bolds(line) || (m in Highlights(line) && !InsideBold(m, Bolds(line)))
    ensures forall m :: m in Merged(line) ==> ValidMatch(line, m)
  {
    OutsideScanMembers(Highlights(line), Bolds(line), 0, Bolds(line));
    assert Highlights(line)[0..] == Highlights(line);
    HighlightScanGood(line, 0, []);
    BoldScanGood(line, "**", 0, []);
    BoldScanGood(line, "__", 0, []);
  }

  /** `allMatches` after the sort. */
  function AllMatches(line: string): (r: seq<Match>)
    ensures forall m :: m in r ==> ValidMatch(line, m)
  {
    MergedMembers(line);
    SortByStartCorrect(Merged(line));
    var r := SortByStart(Merged(line));
    assert forall m :: m in r ==> m in Merged(line) by {
      forall m | m in r ensures m in Merged(line) {
        assert m in multiset(r);
      }
    }
    r
  }

  /**
   * The matches are ordered by start and are exactly the bold ranges and the
   * highlights lying inside no bold range (each as often as it was found).
   */
  lemma AllMatchesCharacterised(line: string)
    ensures SortedByStart(AllMatches(line))
    ensures multiset(AllMatches(line)) == multiset(Merged(line))
    ensures forall m :: m in AllMatches(line) <==> m in Bolds(line) || (m in Highlights(line) && !InsideBold(m, Bolds(line)))
  {
    MergedMembers(line);
    SortByStartCorrect(Merged(line));
    forall m ensures m in AllMatches(line) <==> m in Merged(line) {
      assert m in AllMatches(line) <==> m in multiset(AllMatches(line));
      assert m in Merged(line) <==> m in multiset(Merged(line));
    }
  }

  /** The step-3 part of the parser: copy the bold ranges, add the highlights outside them, sort. */
  method MergeMatches(highlightMatches: seq<Match>, boldMatches: seq<Match>) returns (allMatches: seq<Match>)
    ensures allMatches == SortByStart(OutsideScan(highlightMatches, boldMatches, 0, boldMatches))
  {
    allMatches := [];
    for k := 0 to |boldMatches|
      invariant allMatches == boldMatches[..k]
    {
      assert boldMatches[..k + 1] == boldMatches[..k] + [boldMatches[k]];
      allMatches := allMatches + [boldMatches[k]];
    }
    assert boldMatches[..|boldMatches|] == boldMatches;
    for k := 0 to |highlightMatches|
      invariant OutsideScan(highlightMatches, boldMatches, k, allMatches) == OutsideScan(highlightMatches, boldMatches, 0, boldMatches)
    {
      var h := highlightMatches[k];
      if !InsideBold(h, boldMatches) {
        allMatches := allMatches + [h];
      }
    }
    allMatches := SortByStart(allMatches);
  }

  // ---------------------------------------------------------------------------
  // Step 4: spans
  // ---------------------------------------------------------------------------

  /** `[...(child.marks || []), 'strong']` on every span. */
  function AddStrong(spans: seq<Span>): (r: seq<Span>)
    ensures |r| == |spans|
    ensures forall k :: 0 <= k < |spans| ==> r[k] == Span(spans[k].text, spans[k].marks + ["strong"])
  {
    seq(|spans|, k requires 0 <= k < |spans| => Span(spans[k].text, spans[k].marks + ["strong"]))
  }

  /** `parseLineForHighlights(line)`: the spans, or the whole line unmarked when there are none. */
  function ParseLine(line: string): seq<Span>
    decreases |line|, 1, 0
  {
    var children := SpanScan(line, AllMatches(line), 0, 0, []);
    if children == [] then [Span(line, [])] else children
  }

  /** The unmarked text between `last` and `upto`, as a span when it is not empty. */
  function Gap(line: string, last: nat, upto: nat): seq<Span>
    requires upto <= |line|
  {
    if upto > last then [Span(line[last..upto], [])] else []
  }

  /**
   * The spans of one match: its text with the match's mark, or, for a bold
   * range containing a highlight, its text parsed again with `strong` added to
   * every inner span.
   */
  function Marked(line: string, m: Match): seq<Span>
    requires ValidMatch(line, m)
    decreases |line|, 0, 0
  {
    if m.kind == Strong && m.hasHighlight then AddStrong(ParseLine(Text(line, m)))
    else [Span(Text(line, m), [MarkName(m.kind)])]
  }

  /**
   * The span loop from match `i` on, with `lastIndex` the end of the previous
   * match and `children` the spans emitted so far: the gap before each match,
   * the match itself, and after the last match the rest of the line.
   */
  function SpanScan(line: string, ms: seq<Match>, i: nat, lastIndex: nat, children: seq<Span>): seq<Span>
    requires i <= |ms|
    requires forall m :: m in ms ==> ValidMatch(line, m)
    decreases |line|, 0, |ms| - i
  {
    if i == |ms| then children + Gap(line, lastIndex, |line|)
    else
      var m := ms[i];
      assert m in ms;
      assert ValidMatch(line, m);
      SpanScan(line, ms, i + 1, m.end, children + Gap(line, lastIndex, m.start) + Marked(line, m))
  }

  /** The imperative parser: collect and merge the matches, then emit spans left to right. */
  method ParseLineForHighlights(line: string) returns (children: seq<Span>)
    ensures children == ParseLine(line)
    decreases |line|, 1
  {
    var highlightMatches := FindHighlights(line);
    var asterisks := FindBoldPairs(line, "**");
    var underscores := FindBoldPairs(line, "__");
    var allMatches := MergeMatches(highlightMatches, asterisks + underscores);
    assert allMatches == AllMatches(line);
    children := EmitSpans(line, allMatches);
    if |children| == 0 {
      children := [Span(line, [])];
    }
  }

  /** The step-4 loop: the gap before each match, the match, and after the last match the rest of the line. */
  method EmitSpans(line: string, allMatches: seq<Match>) returns (children: seq<Span>)
    requires forall m :: m in allMatches ==> ValidMatch(line, m)
    ensures children == SpanScan(line, allMatches, 0, 0, [])
    decreases |line|, 0
  {
    children := [];
    var lastIndex := 0;
    for i := 0 to |allMatches|
      invariant 0 <= lastIndex
      invariant SpanScan(line, allMatches, i, lastIndex, children) == SpanScan(line, allMatches, 0, 0, [])
    {
      var m := allMatches[i];
      assert m in allMatches;
      if m.start > lastIndex {
        children := children + [Span(line[lastIndex..m.start], [])];
      } else {
        AppendEmpty(children);
      }
      if m.kind == Strong && m.hasHighlight {
        var boldChildren := ParseLineForHighlights(Text(line, m));
        children := children + AddStrong(boldChildren);
      } else {
        children := children + [Span(Text(line, m), [MarkName(m.kind)])];
      }
      lastIndex := m.end;
    }
    if lastIndex < |line| {
      assert line[lastIndex..] == line[lastIndex..|line|];
      children := children + [Span(line[lastIndex..], [])];
    } else {
      AppendEmpty(children);
    }
  }

  lemma Assoc<T>(a: seq<T>, b: seq<T>, c: seq<T>)
    ensures a + b + c == a + (b + c)
  {
  }

  lemma AppendEmpty<T>(a: seq<T>)
    ensures a + [] == a
  {
  }

  lemma EmptyAppend<T>(a: seq<T>)
    ensures [] + a == a
  {
  }

  // ---------------------------------------------------------------------------
  // Properties of the span parser
  // ---------------------------------------------------------------------------

  /** A line with no `**`, `__` or `==` in it. */
  ghost predicate NoMarkers(line: string) {
    forall x: nat :: !PairAt(line, x, "**") && !PairAt(line, x, "__") && !PairAt(line, x, "==")
  }

  lemma NextHighlightPair(line: string, from: nat)
    ensures NextHighlight(line, from).Found? ==> PairAt(line, NextHighlight(line, from).m.start, "==")
  {
  }

  /** A line without markers is one unmarked span holding the whole line. */
  lemma PlainLine(line: string)
    requires NoMarkers(line)
    ensures ParseLine(line) == [Span(line, [])]
  {
    NextHighlightPair(line, 0);
    assert Highlights(line) == [];
    assert BoldPairs(line, "**") == [] && BoldPairs(line, "__") == [];
    assert Merged(line) == [];
    assert AllMatches(line) == [];
    if line != [] {
      assert line[0..|line|] == line;
    }
  }

  /** The only marks are `strong` and `highlight`. */
  predicate KnownMarks(spans: seq<Span>) {
    forall k, j :: 0 <= k < |spans| && 0 <= j < |spans[k].marks| ==> spans[k].marks[j] in {"strong", "highlight"}
  }

  lemma {:induction false} ParseLineMarks(line: string)
    ensures KnownMarks(ParseLine(line))
    decreases |line|, 1, 0
  {
    SpanScanMarks(line, AllMatches(line), 0, 0, []);
  }

  lemma {:induction false} MarkedMarks(line: string, m: Match)
    requires ValidMatch(line, m)
    ensures KnownMarks(Marked(line, m))
    decreases |line|, 0, 0
  {
    if m.kind == Strong && m.hasHighlight {
      ParseLineMarks(Text(line, m));
    }
  }

  lemma {:induction false} SpanScanMarks(line: string, ms: seq<Match>, i: nat, lastIndex: nat, children: seq<Span>)
    requires i <= |ms|
    requires forall m :: m in ms ==> ValidMatch(line, m)
    requires KnownMarks(children)
    ensures KnownMarks(SpanScan(line, ms, i, lastIndex, children))
    decreases |line|, 0, |ms| - i
  {
    if i < |ms| {
      var m := ms[i];
      assert m in ms;
      MarkedMarks(line, m);
      SpanScanMarks(line, ms, i + 1, m.end, children + Gap(line, lastIndex, m.start) + Marked(line, m));
    }
  }

}
