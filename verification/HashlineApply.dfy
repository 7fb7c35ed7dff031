/** The batch line editor of internal/agent/hashline_edit.go.

    All actions of a file are resolved against its *original* line numbers and applied in
    one pass. `Declared` says line by line what that pass must produce; `ApplyActions` is
    the pass itself; `BottomUpAgrees` relates both to applying the hunks one at a time. */
module HashlineApply {
  import opened Sorting

  /** A resolved hunk: `Replace` swaps the lines start..end (1-based, inclusive) for `body`;
      `Insert` puts `body` into the gap after line `gap` (0 is the gap before line 1). */
  datatype Action =
    | Replace(start: nat, end: nat, body: seq<string>, sequence: nat)
    | Insert(gap: nat, body: seq<string>, sequence: nat)

  datatype ApplyResult =
    | Applied(lines: seq<string>)
    | OverlappingRanges(first: Action, second: Action)
    | GapInsideRange(insertion: Action, range: Action)

  predicate Fits(a: Action, n: nat) {
    match a
    case Replace(s, e, _, _) => 1 <= s <= e <= n
    case Insert(g, _, _) => g <= n
  }

  ghost predicate AllFit(actions: seq<Action>, n: nat) {
    forall a :: a in actions ==> Fits(a, n)
  }

  predicate Overlap(a: Action, b: Action) {
    a.Replace? && b.Replace? && a.start <= b.end && b.start <= a.end
  }

  predicate Inside(i: Action, r: Action) {
    i.Insert? && r.Replace? && r.start <= i.gap < r.end
  }

  predicate Compatible(a: Action, b: Action) {
    !Overlap(a, b) && !Inside(a, b) && !Inside(b, a)
  }

  predicate Valid(actions: seq<Action>) {
    forall i, j :: 0 <= i < j < |actions| ==> Compatible(actions[i], actions[j])
  }

  ghost predicate DistinctSequences(actions: seq<Action>) {
    forall i, j :: 0 <= i < j < |actions| ==> actions[i].sequence != actions[j].sequence
  }

  // ---------------------------------------------------------------- declarative result

  predicate Covers(a: Action, line: nat) {
    a.Replace? && a.start <= line <= a.end
  }

  /** The text that stands in for original line `line`, looking at actions[k..]. */
  function PieceFrom(lines: seq<string>, actions: seq<Action>, k: nat, line: nat): seq<string>
    requires 1 <= line <= |lines| && k <= |actions|
    decreases |actions| - k
  {
    if k == |actions| then [lines[line - 1]]
    else if Covers(actions[k], line) then
      if actions[k].start == line then actions[k].body else []
    else PieceFrom(lines, actions, k + 1, line)
  }

  /** The insertions of one gap among the first n actions, in list order. */
  function GapActions(actions: seq<Action>, n: nat, gap: nat): seq<Action>
    requires n <= |actions|
  {
    if n == 0 then []
    else if actions[n - 1].Insert? && actions[n - 1].gap == gap then GapActions(actions, n - 1, gap) + [actions[n - 1]]
    else GapActions(actions, n - 1, gap)
  }

  function BySequence(): Action -> int { (a: Action) => a.sequence }

  /** sort.SliceStable by sequence number. */
  function SortBySequence(actions: seq<Action>): seq<Action> { StableSort(actions, BySequence()) }

  lemma {:induction false} GapActionsMembers(actions: seq<Action>, n: nat, gap: nat)
    requires n <= |actions|
    ensures forall a :: a in GapActions(actions, n, gap) ==> a in actions && a.Insert? && a.gap == gap
    ensures forall i :: 0 <= i < n && actions[i].Insert? && actions[i].gap == gap ==> actions[i] in GapActions(actions, n, gap)
  {
    if n > 0 {
      GapActionsMembers(actions, n - 1, gap);
    }
  }

  lemma SortMembers(actions: seq<Action>)
    ensures forall x :: x in SortBySequence(actions) <==> x in actions
  {
    SortAscending(actions, BySequence());
    SameMembers(actions, SortBySequence(actions));
  }

  function Bodies(actions: seq<Action>): seq<string> {
    if actions == [] then [] else Bodies(actions[..|actions| - 1]) + actions[|actions| - 1].body
  }

  /** Everything inserted into one gap, in sequence order. */
  function GapText(actions: seq<Action>, gap: nat): seq<string> {
    Bodies(SortBySequence(GapActions(actions, |actions|, gap)))
  }

  /** The output above gap k when line i+1 contributes `pieces[i]` and gap g `gaps[g]`. */
  function Upto(pieces: seq<seq<string>>, gaps: seq<seq<string>>, k: nat): seq<string>
    requires k <= |pieces| <= |gaps|
  {
    if k == 0 then [] else Upto(pieces, gaps, k - 1) + gaps[k - 1] + pieces[k - 1]
  }

  /** The output below gap k. */
  function Below(pieces: seq<seq<string>>, gaps: seq<seq<string>>, k: nat): seq<string>
    requires k <= |pieces| < |gaps|
    decreases |pieces| - k
  {
    if k == |pieces| then [] else pieces[k] + gaps[k + 1] + Below(pieces, gaps, k + 1)
  }

  function PiecesTo(lines: seq<string>, actions: seq<Action>, n: nat): (r: seq<seq<string>>)
    requires n <= |lines|
    ensures |r| == n
    ensures forall i :: 0 <= i < n ==> r[i] == PieceFrom(lines, actions, 0, i + 1)
  {
    if n == 0 then [] else PiecesTo(lines, actions, n - 1) + [PieceFrom(lines, actions, 0, n)]
  }

  function Pieces(lines: seq<string>, actions: seq<Action>): seq<seq<string>> {
    PiecesTo(lines, actions, |lines|)
  }

  function Gaps(actions: seq<Action>, n: nat): (r: seq<seq<string>>)
    ensures |r| == n + 1
    ensures forall g :: 0 <= g <= n ==> r[g] == GapText(actions, g)
  {
    if n == 0 then [GapText(actions, 0)] else Gaps(actions, n - 1) + [GapText(actions, n)]
  }

  function Weave(pieces: seq<seq<string>>, gaps: seq<seq<string>>): seq<string>
    requires |gaps| == |pieces| + 1
  {
    Upto(pieces, gaps, |pieces|) + gaps[|pieces|]
  }

  /** The declarative result: every original line contributes its piece once, in order,
      and every gap contributes its insertions. */
  function Declared(lines: seq<string>, actions: seq<Action>): seq<string> {
    Weave(Pieces(lines, actions), Gaps(actions, |lines|))
  }

  /** The woven output can be cut at any gap. */
  lemma {:induction false} CutAtGap(pieces: seq<seq<string>>, gaps: seq<seq<string>>, k: nat)
    requires k <= |pieces| && |gaps| == |pieces| + 1
    ensures Weave(pieces, gaps) == Upto(pieces, gaps, k) + gaps[k] + Below(pieces, gaps, k)
    decreases |pieces| - k
  {
    if k < |pieces| {
      CutAtGap(pieces, gaps, k + 1);
      assert Upto(pieces, gaps, k + 1) + gaps[k + 1] + Below(pieces, gaps, k + 1)
          == Upto(pieces, gaps, k) + gaps[k] + (pieces[k] + gaps[k + 1] + Below(pieces, gaps, k + 1));
    }
  }

  /** The first k lines are kept and nothing is inserted above gap k. */
  ghost predicate Untouched(lines: seq<string>, p: seq<seq<string>>, g: seq<seq<string>>, k: nat)
    requires k <= |lines| == |p| < |g|
  {
    forall i :: 0 <= i < k ==> g[i] == [] && p[i] == [lines[i]]
  }

  /** Lines from+1..to and the gaps between them contribute nothing. */
  ghost predicate Swallowed(p: seq<seq<string>>, g: seq<seq<string>>, from: nat, to: nat)
    requires to <= |p| < |g|
  {
    forall i :: from <= i < to ==> g[i] == [] && p[i] == []
  }

  lemma {:induction false} UptoUntouched(lines: seq<string>, p: seq<seq<string>>, g: seq<seq<string>>, k: nat)
    requires k <= |lines| == |p| < |g| && Untouched(lines, p, g, k)
    ensures Upto(p, g, k) == lines[..k]
  {
    if k > 0 {
      UptoUntouched(lines, p, g, k - 1);
    }
  }

  lemma {:induction false} UptoSwallowed(p: seq<seq<string>>, g: seq<seq<string>>, from: nat, k: nat)
    requires 0 < from <= k <= |p| < |g| && Swallowed(p, g, from, k)
    ensures Upto(p, g, k) == Upto(p, g, from - 1) + g[from - 1] + p[from - 1]
    decreases k
  {
    if k > from {
      UptoSwallowed(p, g, from, k - 1);
    }
  }

  lemma WeaveUntouched(lines: seq<string>, p: seq<seq<string>>, g: seq<seq<string>>, k: nat)
    requires k <= |lines| == |p| && |g| == |p| + 1 && Untouched(lines, p, g, k)
    ensures Weave(p, g) == lines[..k] + (g[k] + Below(p, g, k))
  {
    UptoUntouched(lines, p, g, k);
    CutAtGap(p, g, k);
  }

  lemma WeaveReplaced(lines: seq<string>, p: seq<seq<string>>, g: seq<seq<string>>, s: nat, e: nat)
    requires 1 <= s <= e <= |lines| == |p| && |g| == |p| + 1
    requires Untouched(lines, p, g, s - 1) && g[s - 1] == [] && Swallowed(p, g, s, e)
    ensures Weave(p, g) == lines[..s - 1] + p[s - 1] + (g[e] + Below(p, g, e))
  {
    var top, body, gap, below := Upto(p, g, s - 1), p[s - 1], g[e], Below(p, g, e);
    UptoUntouched(lines, p, g, s - 1);
    UptoSwallowed(p, g, s, e);
    CutAtGap(p, g, e);
    Regroup(Weave(p, g), Upto(p, g, e), top, body, gap, below);
  }

  lemma Regroup(all: seq<string>, upto: seq<string>, top: seq<string>, body: seq<string>, gap: seq<string>, below: seq<string>)
    requires all == upto + gap + below && upto == top + [] + body
    ensures all == top + body + (gap + below)
  {
  }

  lemma {:induction false} BelowUnaffected(p: seq<seq<string>>, g: seq<seq<string>>, p': seq<seq<string>>, g': seq<seq<string>>, k: nat)
    requires k <= |p| == |p'| && |g| == |g'| == |p| + 1
    requires forall i :: k <= i < |p| ==> p[i] == p'[i]
    requires forall i :: k < i < |g| ==> g[i] == g'[i]
    ensures Below(p, g, k) == Below(p', g', k)
    decreases |p| - k
  {
    if k < |p| {
      BelowUnaffected(p, g, p', g', k + 1);
    }
  }

  // ---------------------------------------------------------------- facts about pieces

  lemma {:induction false} PieceUncovered(lines: seq<string>, actions: seq<Action>, k: nat, line: nat)
    requires 1 <= line <= |lines| && k <= |actions|
    requires forall i :: k <= i < |actions| ==> !Covers(actions[i], line)
    ensures PieceFrom(lines, actions, k, line) == [lines[line - 1]]
    decreases |actions| - k
  {
    if k < |actions| {
      PieceUncovered(lines, actions, k + 1, line);
    }
  }

  lemma {:induction false} PieceCovered(lines: seq<string>, actions: seq<Action>, k: nat, line: nat, j: nat)
    requires 1 <= line <= |lines| && k <= j < |actions| && Covers(actions[j], line)
    requires forall i :: k <= i < j ==> !Covers(actions[i], line)
    ensures PieceFrom(lines, actions, k, line) == if actions[j].start == line then actions[j].body else []
    decreases |actions| - k
  {
    if k < j {
      PieceCovered(lines, actions, k + 1, line, j);
    }
  }

  /** In a valid list the replacement that covers a line is the only one that does. */
  lemma PieceOfRange(lines: seq<string>, actions: seq<Action>, line: nat, r: Action)
    requires 1 <= line <= |lines|
    requires Valid(actions) && r in actions && Covers(r, line)
    ensures PieceFrom(lines, actions, 0, line) == if r.start == line then r.body else []
  {
    var j :| 0 <= j < |actions| && actions[j] == r;
    forall i | 0 <= i < j ensures !Covers(actions[i], line) {
      assert Compatible(actions[i], actions[j]);
    }
    PieceCovered(lines, actions, 0, line, j);
  }

  lemma GapTextEmpty(actions: seq<Action>, gap: nat)
    requires forall a :: a in actions ==> !(a.Insert? && a.gap == gap)
    ensures GapText(actions, gap) == []
  {
    GapActionsMembers(actions, |actions|, gap);
    var found := GapActions(actions, |actions|, gap);
    assert forall i :: 0 <= i < |found| ==> found[i] in found;
  }

  /** Actions that start below gap k leave the first k lines alone. */
  lemma UntouchedAbove(lines: seq<string>, actions: seq<Action>, k: nat)
    requires k <= |lines|
    requires forall a :: a in actions ==> if a.Insert? then a.gap >= k else a.start > k
    ensures Untouched(lines, Pieces(lines, actions), Gaps(actions, |lines|), k)
  {
    var p, g := Pieces(lines, actions), Gaps(actions, |lines|);
    forall i | 0 <= i < k ensures g[i] == [] && p[i] == [lines[i]] {
      GapTextEmpty(actions, i);
      PieceUncovered(lines, actions, 0, i + 1);
    }
  }

  /** A replacement swallows its range beyond the first line, which carries its body. */
  lemma RangeSwallowed(lines: seq<string>, actions: seq<Action>, r: Action)
    requires Valid(actions) && r in actions && r.Replace? && Fits(r, |lines|)
    ensures Swallowed(Pieces(lines, actions), Gaps(actions, |lines|), r.start, r.end)
    ensures Pieces(lines, actions)[r.start - 1] == r.body
  {
    var p, g := Pieces(lines, actions), Gaps(actions, |lines|);
    forall i | r.start <= i < r.end ensures g[i] == [] && p[i] == [] {
      SwallowedInside(lines, actions, r, i);
    }
    PieceOfRange(lines, actions, r.start, r);
  }

  lemma SwallowedInside(lines: seq<string>, actions: seq<Action>, r: Action, i: nat)
    requires Valid(actions) && r in actions && r.Replace? && Fits(r, |lines|) && r.start <= i < r.end
    ensures Pieces(lines, actions)[i] == [] && Gaps(actions, |lines|)[i] == []
  {
    PieceOfRange(lines, actions, i + 1, r);
    forall a | a in actions ensures !(a.Insert? && a.gap == i) {
      MemberCompatible(actions, a, r);
    }
    GapTextEmpty(actions, i);
  }

  lemma MemberCompatible(actions: seq<Action>, a: Action, b: Action)
    requires Valid(actions) && a in actions && b in actions
    ensures a == b || Compatible(a, b)
  {
    if a != b {
      var i :| 0 <= i < |actions| && actions[i] == a;
      var j :| 0 <= j < |actions| && actions[j] == b;
      assert if i < j then Compatible(actions[i], actions[j]) else Compatible(actions[j], actions[i]);
    }
  }

  // ---------------------------------------------------------------- the pass itself

  /** Collects the ranges, rejecting two that meet. */
  method CollectRanges(actions: seq<Action>)
    returns (ranges: seq<Action>, replacements: map<nat, Action>, clash: seq<Action>)
    requires forall i :: 0 <= i < |actions| && actions[i].Replace? ==> actions[i].start <= actions[i].end
    ensures clash != [] ==> |clash| == 2 && clash[0] in actions && clash[1] in actions && Overlap(clash[0], clash[1]) && !Valid(actions)
    ensures clash == [] ==> forall i, j :: 0 <= i < j < |actions| ==> !Overlap(actions[i], actions[j])
    ensures clash == [] ==> forall a :: a in ranges ==> a in actions && a.Replace?
    ensures clash == [] ==> forall i :: 0 <= i < |actions| && actions[i].Replace? ==> actions[i] in ranges
    ensures clash == [] ==> IndexesRanges(replacements, actions)
  {
    ranges, replacements, clash := [], map[], [];
    for i := 0 to |actions|
      invariant clash == [] && RangesTo(actions, i, ranges, replacements)
    {
      var action := actions[i];
      if action.Replace? {
        var k := FindOverlap(ranges, action);
        if k < |ranges| {
          RangesClash(actions, i, ranges, replacements, k);
          clash := [ranges[k], action];
          return;
        }
        RangeAdded(actions, i, ranges, replacements);
        ranges := ranges + [action];
        replacements := replacements[action.start := action];
      } else {
        RangeSkipped(actions, i, ranges, replacements);
      }
    }
    RangesDone(actions, ranges, replacements);
  }

  /** The first range that overlaps the action; |ranges| when there is none. */
  method FindOverlap(ranges: seq<Action>, action: Action) returns (k: nat)
    requires action.Replace? && forall m :: 0 <= m < |ranges| ==> ranges[m].Replace?
    ensures k <= |ranges| && (k < |ranges| ==> Overlap(ranges[k], action))
    ensures forall m :: 0 <= m < k ==> !Overlap(ranges[m], action)
  {
    k := 0;
    while k < |ranges|
      invariant k <= |ranges| && forall m :: 0 <= m < k ==> !Overlap(ranges[m], action)
    {
      if action.start <= ranges[k].end && ranges[k].start <= action.end { return; }
      k := k + 1;
    }
  }

  lemma RangeSkipped(actions: seq<Action>, i: nat, ranges: seq<Action>, replacements: map<nat, Action>)
    requires i < |actions| && RangesTo(actions, i, ranges, replacements) && actions[i].Insert?
    ensures RangesTo(actions, i + 1, ranges, replacements)
  {
    assert actions[..i + 1] == actions[..i] + [actions[i]];
  }

  lemma RangesClash(actions: seq<Action>, i: nat, ranges: seq<Action>, replacements: map<nat, Action>, k: nat)
    requires i < |actions| && k < |ranges| && RangesTo(actions, i, ranges, replacements) && Overlap(ranges[k], actions[i])
    ensures ranges[k] in actions && actions[i] in actions && !Valid(actions)
  {
    assert ranges[k] in actions[..i];
    var p :| 0 <= p < i && actions[..i][p] == ranges[k];
    assert !Compatible(actions[p], actions[i]);
  }

  lemma RangesDone(actions: seq<Action>, ranges: seq<Action>, replacements: map<nat, Action>)
    requires RangesTo(actions, |actions|, ranges, replacements)
    ensures forall i, j :: 0 <= i < j < |actions| ==> !Overlap(actions[i], actions[j])
    ensures forall a :: a in ranges ==> a in actions && a.Replace?
    ensures forall i :: 0 <= i < |actions| && actions[i].Replace? ==> actions[i] in ranges
    ensures IndexesRanges(replacements, actions)
  {
    assert actions[..|actions|] == actions;
  }

  /** The ranges among the first n actions, pairwise apart, and their index by first line. */
  ghost predicate RangesTo(actions: seq<Action>, n: nat, ranges: seq<Action>, replacements: map<nat, Action>)
    requires n <= |actions|
  {
    && (forall r :: r in ranges ==> r.Replace? && r in actions[..n])
    && (forall p :: 0 <= p < n && actions[p].Replace? ==> actions[p] in ranges)
    && (forall p, q :: 0 <= p < q < n ==> !Overlap(actions[p], actions[q]))
    && (forall p :: 0 <= p < n && actions[p].Replace? ==> actions[p].start in replacements && replacements[actions[p].start] == actions[p])
    && (forall s :: s in replacements ==> replacements[s] in actions && replacements[s].Replace? && replacements[s].start == s)
  }

  lemma RangeAdded(actions: seq<Action>, i: nat, ranges: seq<Action>, replacements: map<nat, Action>)
    requires i < |actions| && RangesTo(actions, i, ranges, replacements) && actions[i].Replace? && actions[i].start <= actions[i].end
    requires forall k :: 0 <= k < |actions| && actions[k].Replace? ==> actions[k].start <= actions[k].end
    requires forall m :: 0 <= m < |ranges| ==> !Overlap(ranges[m], actions[i])
    ensures RangesTo(actions, i + 1, ranges + [actions[i]], replacements[actions[i].start := actions[i]])
  {
    forall p | 0 <= p < i ensures !Overlap(actions[p], actions[i]) {
      if actions[p].Replace? { assert actions[p] in ranges; }
    }
    assert actions[..i + 1] == actions[..i] + [actions[i]];
  }

  /** Groups the insertions by gap, rejecting one that falls inside a range. */
  method CollectInsertions(actions: seq<Action>, ranges: seq<Action>)
    returns (insertions: map<nat, seq<Action>>, clash: seq<Action>)
    requires forall a :: a in ranges ==> a in actions && a.Replace?
    requires forall i :: 0 <= i < |actions| && actions[i].Replace? ==> actions[i] in ranges
    ensures clash != [] ==> |clash| == 2 && clash[0] in actions && clash[1] in actions && Inside(clash[0], clash[1])
    ensures clash == [] ==> forall i, j :: 0 <= i < |actions| && 0 <= j < |actions| ==> !Inside(actions[i], actions[j])
    ensures clash == [] ==> forall g :: GapActions(actions, |actions|, g) == if g in insertions then insertions[g] else []
  {
    insertions, clash := map[], [];
    for i := 0 to |actions|
      invariant clash == []
      invariant forall p, q :: 0 <= p < i && 0 <= q < |actions| ==> !Inside(actions[p], actions[q])
      invariant forall g :: GapActions(actions, i, g) == if g in insertions then insertions[g] else []
    {
      var action := actions[i];
      if action.Insert? {
        for k := 0 to |ranges|
          invariant forall m :: 0 <= m < k ==> !Inside(action, ranges[m])
        {
          if action.gap >= ranges[k].start && action.gap < ranges[k].end {
            clash := [action, ranges[k]];
            return;
          }
        }
        insertions := insertions[action.gap := (if action.gap in insertions then insertions[action.gap] else []) + [action]];
      }
    }
  }

  /** One gap of the output. */
  function GapOf(texts: map<nat, seq<string>>, gap: nat): seq<string> {
    if gap in texts then texts[gap] else []
  }

  /** Sorts every gap's insertions and lays out their bodies. */
  method SortInsertions(insertions: map<nat, seq<Action>>) returns (texts: map<nat, seq<string>>)
    ensures texts.Keys == insertions.Keys
    ensures forall gap :: gap in texts ==> texts[gap] == Bodies(SortBySequence(insertions[gap]))
  {
    texts := map[];
    var todo := insertions.Keys;
    while todo != {}
      invariant todo <= insertions.Keys
      invariant texts.Keys == insertions.Keys - todo
      invariant forall gap :: gap in texts ==> texts[gap] == Bodies(SortBySequence(insertions[gap]))
      decreases todo
    {
      var gap :| gap in todo;
      texts := texts[gap := Bodies(SortBySequence(insertions[gap]))];
      todo := todo - {gap};
    }
  }

  ghost predicate Uncovered(replacements: map<nat, Action>, line: nat) {
    forall s :: s in replacements ==> !Covers(replacements[s], line)
  }

  /** The output down to and including gap k. */
  ghost function Reached(p: seq<seq<string>>, g: seq<seq<string>>, k: nat): seq<string>
    requires k <= |p| < |g|
  {
    Upto(p, g, k) + g[k]
  }

  ghost function Outputs(p: seq<seq<string>>, g: seq<seq<string>>, n: nat): (out: seq<seq<string>>)
    requires n <= |p| < |g|
    ensures |out| == n + 1
    ensures forall k :: 0 <= k <= n ==> out[k] == Reached(p, g, k)
  {
    if n == 0 then [Reached(p, g, 0)]
    else
      var before := Outputs(p, g, n - 1);
      before + [Reached(p, g, n)]
  }

  /** The two maps drive the output from gap to gap. */
  ghost predicate Planned(lines: seq<string>, replacements: map<nat, Action>, texts: map<nat, seq<string>>, out: seq<seq<string>>) {
    && |out| == |lines| + 1
    && out[0] == GapOf(texts, 0)
    && (forall s :: s in replacements ==> RangePlanned(replacements[s], s, texts, out))
    && (forall s, t :: s in replacements && t in replacements && s < t ==> replacements[s].end < t)
    && (forall line :: 1 <= line <= |lines| && Uncovered(replacements, line) ==> LinePlanned(lines, line, texts, out))
  }

  ghost predicate RangePlanned(r: Action, s: nat, texts: map<nat, seq<string>>, out: seq<seq<string>>) {
    r.Replace? && r.start == s && 1 <= s <= r.end < |out| && out[r.end] == out[s - 1] + r.body + GapOf(texts, r.end)
  }

  ghost predicate LinePlanned(lines: seq<string>, line: nat, texts: map<nat, seq<string>>, out: seq<seq<string>>)
    requires 1 <= line <= |lines| < |out|
  {
    out[line] == out[line - 1] + [lines[line - 1]] + GapOf(texts, line)
  }

  /** The line counter loop. */
  method Walk(lines: seq<string>, replacements: map<nat, Action>, texts: map<nat, seq<string>>, ghost out: seq<seq<string>>)
    returns (result: seq<string>)
    requires Planned(lines, replacements, texts, out)
    ensures |out| == |lines| + 1 && result == out[|lines|]
  {
    result := GapOf(texts, 0);
    var line := 1;
    while line <= |lines|
      invariant 1 <= line <= |lines| + 1
      invariant result == out[line - 1]
      invariant forall s :: s in replacements ==> replacements[s].end < line || line <= s
      decreases |lines| + 1 - line
    {
      if line in replacements {
        var replacement := replacements[line];
        assert RangePlanned(replacement, line, texts, out);
        result := result + replacement.body;
        line := replacement.end + 1;
        result := result + GapOf(texts, replacement.end);
      } else {
        assert Uncovered(replacements, line) by {
          forall s | s in replacements ensures !Covers(replacements[s], line) {
            assert RangePlanned(replacements[s], s, texts, out);
          }
        }
        assert LinePlanned(lines, line, texts, out);
        result := result + [lines[line - 1]];
        result := result + GapOf(texts, line);
        line := line + 1;
      }
    }
  }

  lemma StepRange(p: seq<seq<string>>, g: seq<seq<string>>, line: nat, end: nat)
    requires 1 <= line <= end <= |p| < |g| && Swallowed(p, g, line, end)
    ensures Upto(p, g, end) + g[end] == Upto(p, g, line - 1) + g[line - 1] + p[line - 1] + g[end]
  {
    UptoSwallowed(p, g, line, end);
  }

  lemma RangeStep(lines: seq<string>, actions: seq<Action>, r: Action, texts: map<nat, seq<string>>)
    requires Valid(actions) && r in actions && r.Replace? && Fits(r, |lines|)
    requires GapOf(texts, r.end) == Gaps(actions, |lines|)[r.end]
    ensures RangePlanned(r, r.start, texts, Outputs(Pieces(lines, actions), Gaps(actions, |lines|), |lines|))
  {
    RangeSwallowed(lines, actions, r);
    RangeStepIn(Pieces(lines, actions), Gaps(actions, |lines|), r, texts, Outputs(Pieces(lines, actions), Gaps(actions, |lines|), |lines|));
  }

  lemma RangeStepIn(p: seq<seq<string>>, g: seq<seq<string>>, r: Action, texts: map<nat, seq<string>>, out: seq<seq<string>>)
    requires r.Replace? && 1 <= r.start <= r.end <= |p| < |g| && Swallowed(p, g, r.start, r.end)
    requires p[r.start - 1] == r.body && GapOf(texts, r.end) == g[r.end]
    requires |out| > r.end && out[r.end] == Reached(p, g, r.end) && out[r.start - 1] == Reached(p, g, r.start - 1)
    ensures RangePlanned(r, r.start, texts, out)
  {
    StepRange(p, g, r.start, r.end);
  }

  lemma LineStep(lines: seq<string>, actions: seq<Action>, line: nat, texts: map<nat, seq<string>>)
    requires 1 <= line <= |lines| && forall i :: 0 <= i < |actions| ==> !Covers(actions[i], line)
    requires GapOf(texts, line) == Gaps(actions, |lines|)[line]
    ensures LinePlanned(lines, line, texts, Outputs(Pieces(lines, actions), Gaps(actions, |lines|), |lines|))
  {
    PieceUncovered(lines, actions, 0, line);
    StepRange(Pieces(lines, actions), Gaps(actions, |lines|), line, line);
  }

  /** The replacement map indexes exactly the ranges, by their first line. */
  ghost predicate IndexesRanges(replacements: map<nat, Action>, actions: seq<Action>) {
    && (forall i :: 0 <= i < |actions| && actions[i].Replace? ==> actions[i].start in replacements && replacements[actions[i].start] == actions[i])
    && (forall s :: s in replacements ==> replacements[s] in actions && replacements[s].Replace? && replacements[s].start == s)
  }

  lemma RangesApart(actions: seq<Action>, replacements: map<nat, Action>)
    requires Valid(actions) && IndexesRanges(replacements, actions)
    requires forall a :: a in actions && a.Replace? ==> a.start <= a.end
    ensures forall s, t :: s in replacements && t in replacements && s < t ==> replacements[s].end < t
  {
    forall s, t | s in replacements && t in replacements && s < t ensures replacements[s].end < t {
      MemberCompatible(actions, replacements[s], replacements[t]);
    }
  }

  /** The maps gathered from a valid list plan the declared result. */
  lemma GatheredPlan(lines: seq<string>, actions: seq<Action>, replacements: map<nat, Action>, texts: map<nat, seq<string>>)
    requires AllFit(actions, |lines|) && Valid(actions) && IndexesRanges(replacements, actions)
    requires forall k :: 0 <= k <= |lines| ==> GapOf(texts, k) == Gaps(actions, |lines|)[k]
    ensures Planned(lines, replacements, texts, Outputs(Pieces(lines, actions), Gaps(actions, |lines|), |lines|))
  {
    var out := Outputs(Pieces(lines, actions), Gaps(actions, |lines|), |lines|);
    forall s | s in replacements ensures RangePlanned(replacements[s], s, texts, out) {
      RangeStep(lines, actions, replacements[s], texts);
    }
    RangesApart(actions, replacements);
    forall line | 1 <= line <= |lines| && Uncovered(replacements, line) ensures LinePlanned(lines, line, texts, out) {
      LineStep(lines, actions, line, texts);
    }
  }

  lemma TextsGathered(actions: seq<Action>, insertions: map<nat, seq<Action>>, texts: map<nat, seq<string>>, n: nat)
    requires forall g :: GapActions(actions, |actions|, g) == if g in insertions then insertions[g] else []
    requires texts.Keys == insertions.Keys
    requires forall gap :: gap in texts ==> texts[gap] == Bodies(SortBySequence(insertions[gap]))
    ensures forall k :: 0 <= k <= n ==> GapOf(texts, k) == Gaps(actions, n)[k]
  {
    forall k | 0 <= k <= n ensures GapOf(texts, k) == Gaps(actions, n)[k] {
      assert GapActions(actions, |actions|, k) == if k in insertions then insertions[k] else [];
    }
  }

  /** applyHashlineActions: accepts exactly the pairwise compatible action lists, and
      then computes the declared result. */
  method ApplyActions(lines: seq<string>, actions: seq<Action>) returns (r: ApplyResult)
    requires AllFit(actions, |lines|)
    ensures r.Applied? <==> Valid(actions)
    ensures r.Applied? ==> r.lines == Declared(lines, actions)
    ensures r.OverlappingRanges? ==> r.first in actions && r.second in actions && Overlap(r.first, r.second)
    ensures r.GapInsideRange? ==> r.insertion in actions && r.range in actions && Inside(r.insertion, r.range)
  {
    assert forall i :: 0 <= i < |actions| ==> actions[i] in actions;
    var ranges, replacements, clash := CollectRanges(actions);
    if clash != [] {
      return OverlappingRanges(clash[0], clash[1]);
    }
    var insertions, bad := CollectInsertions(actions, ranges);
    if bad != [] {
      MemberNotValid(actions, bad[0], bad[1]);
      return GapInsideRange(bad[0], bad[1]);
    }
    var texts := SortInsertions(insertions);
    TextsGathered(actions, insertions, texts, |lines|);
    GatheredPlan(lines, actions, replacements, texts);
    var result := Walk(lines, replacements, texts, Outputs(Pieces(lines, actions), Gaps(actions, |lines|), |lines|));
    return Applied(result);
  }

  lemma MemberNotValid(actions: seq<Action>, i: Action, r: Action)
    requires i in actions && r in actions && Inside(i, r)
    ensures !Valid(actions)
  {
    if Valid(actions) { MemberCompatible(actions, i, r); }
  }

  // ---------------------------------------------------------------- order independence

  ghost predicate StrictlySorted(xs: seq<Action>) { Strict(xs, BySequence()) }

  lemma SortSorted(xs: seq<Action>)
    requires DistinctSequences(xs)
    ensures StrictlySorted(SortBySequence(xs))
  {
    SortAscending(xs, BySequence());
    SortStrict(xs, SortBySequence(xs), BySequence());
  }

  lemma {:induction false} GapActionsDistinct(actions: seq<Action>, n: nat, gap: nat)
    requires n <= |actions| && DistinctSequences(actions)
    ensures DistinctSequences(GapActions(actions, n, gap))
    ensures forall a :: a in GapActions(actions, n, gap) ==> exists i :: 0 <= i < n && actions[i] == a
  {
    if n > 0 {
      GapActionsDistinct(actions, n - 1, gap);
      var r := GapActions(actions, n - 1, gap);
      forall i | 0 <= i < |r| ensures r[i].sequence != actions[n - 1].sequence {
        assert r[i] in r;
      }
    }
  }

  lemma GapSorted(actions: seq<Action>, gap: nat)
    requires DistinctSequences(actions)
    ensures StrictlySorted(SortBySequence(GapActions(actions, |actions|, gap)))
    ensures forall a :: a in SortBySequence(GapActions(actions, |actions|, gap)) <==> a in actions && a.Insert? && a.gap == gap
  {
    GapActionsDistinct(actions, |actions|, gap);
    GapActionsMembers(actions, |actions|, gap);
    SortSorted(GapActions(actions, |actions|, gap));
    SortMembers(GapActions(actions, |actions|, gap));
  }

  ghost predicate SameActions(xs: seq<Action>, ys: seq<Action>) {
    forall a :: a in xs <==> a in ys
  }

  lemma GapTextSame(xs: seq<Action>, ys: seq<Action>, gap: nat)
    requires SameActions(xs, ys) && DistinctSequences(xs) && DistinctSequences(ys)
    ensures GapText(xs, gap) == GapText(ys, gap)
  {
    GapSorted(xs, gap);
    GapSorted(ys, gap);
    StrictUnique(SortBySequence(GapActions(xs, |xs|, gap)), SortBySequence(GapActions(ys, |ys|, gap)), BySequence());
  }

  lemma PieceSame(lines: seq<string>, xs: seq<Action>, ys: seq<Action>, line: nat)
    requires 1 <= line <= |lines|
    requires SameActions(xs, ys) && Valid(xs) && Valid(ys)
    ensures PieceFrom(lines, xs, 0, line) == PieceFrom(lines, ys, 0, line)
  {
    if r :| r in xs && Covers(r, line) {
      PieceOfRange(lines, xs, line, r);
      PieceOfRange(lines, ys, line, r);
    } else {
      forall i | 0 <= i < |ys| ensures !Covers(ys[i], line) {
        assert ys[i] in xs;
      }
      PieceUncovered(lines, xs, 0, line);
      PieceUncovered(lines, ys, 0, line);
    }
  }

  lemma SameValid(xs: seq<Action>, ys: seq<Action>)
    requires SameActions(xs, ys) && DistinctSequences(ys) && Valid(xs)
    ensures Valid(ys)
  {
    forall i, j | 0 <= i < j < |ys| ensures Compatible(ys[i], ys[j]) {
      assert ys[i].sequence != ys[j].sequence;
      assert ys[i] in xs && ys[j] in xs;
      MemberCompatible(xs, ys[i], ys[j]);
    }
  }

  /** Neither acceptance nor the result depends on the order of the action list. */
  lemma OrderIndependent(lines: seq<string>, xs: seq<Action>, ys: seq<Action>)
    requires multiset(xs) == multiset(ys) && DistinctSequences(xs) && AllFit(xs, |lines|)
    ensures AllFit(ys, |lines|) && DistinctSequences(ys)
    ensures Valid(xs) <==> Valid(ys)
    ensures Valid(xs) ==> Declared(lines, xs) == Declared(lines, ys)
  {
    forall a ensures a in xs <==> a in ys {
      assert a in xs <==> a in multiset(xs);
      assert a in ys <==> a in multiset(ys);
    }
    PermutedDistinct(xs, ys);
    if Valid(xs) { SameValid(xs, ys); }
    if Valid(ys) { SameValid(ys, xs); }
    if Valid(xs) {
      forall i | 0 <= i <= |lines| ensures GapText(xs, i) == GapText(ys, i) {
        GapTextSame(xs, ys, i);
      }
      forall i | 0 <= i < |lines| ensures Pieces(lines, xs)[i] == Pieces(lines, ys)[i] {
        PieceSame(lines, xs, ys, i + 1);
      }
      assert Pieces(lines, xs) == Pieces(lines, ys);
      assert Gaps(xs, |lines|) == Gaps(ys, |lines|);
    }
  }

  lemma PermutedDistinct(xs: seq<Action>, ys: seq<Action>)
    requires multiset(xs) == multiset(ys) && DistinctSequences(xs)
    ensures DistinctSequences(ys)
  {
    DistinctPermuted(xs, ys, BySequence());
    assert forall i :: 0 <= i < |ys| ==> BySequence()(ys[i]) == ys[i].sequence;
  }

  // ---------------------------------------------------------------- one hunk at a time

  function ApplyOne(lines: seq<string>, a: Action): seq<string>
    requires Fits(a, |lines|)
  {
    match a
    case Replace(s, e, body, _) => lines[..s - 1] + body + lines[e..]
    case Insert(g, body, _) => lines[..g] + body + lines[g..]
  }

  /** Twice the line position, so that line l (2l-1) sits between gaps l-1 and l. */
  function Position(a: Action): int {
    if a.Replace? then 2 * a.start - 1 else 2 * a.gap
  }

  predicate Lower(a: Action, b: Action) {
    Position(a) > Position(b) || (Position(a) == Position(b) && a.sequence > b.sequence)
  }

  ghost predicate BottomUp(hunks: seq<Action>) {
    forall i, j :: 0 <= i < j < |hunks| ==> Lower(hunks[i], hunks[j])
  }

  /** Applies the hunks in list order, each to the outcome of the previous one; a hunk
      that does not fit the intermediate text has no meaning. */
  ghost function ApplyEach(lines: seq<string>, hunks: seq<Action>): (r: (bool, seq<string>)) {
    if hunks == [] then (true, lines)
    else
      var (ok, before) := ApplyEach(lines, hunks[..|hunks| - 1]);
      var top := hunks[|hunks| - 1];
      if ok && Fits(top, |before|) then (true, ApplyOne(before, top)) else (false, [])
  }

  lemma {:induction false} PieceIgnores(lines: seq<string>, init: seq<Action>, top: Action, k: nat, line: nat)
    requires 1 <= line <= |lines| && k <= |init| && !Covers(top, line)
    ensures PieceFrom(lines, init + [top], k, line) == PieceFrom(lines, init, k, line)
    decreases |init| - k
  {
    if k < |init| {
      PieceIgnores(lines, init, top, k + 1, line);
    }
  }

  lemma {:induction false} GapActionsPrefix(init: seq<Action>, top: Action, n: nat, gap: nat)
    requires n <= |init|
    ensures GapActions(init + [top], n, gap) == GapActions(init, n, gap)
  {
    if n > 0 {
      GapActionsPrefix(init, top, n - 1, gap);
    }
  }

  lemma GapIgnores(init: seq<Action>, top: Action, gap: nat)
    requires !(top.Insert? && top.gap == gap)
    ensures GapText(init + [top], gap) == GapText(init, gap)
  {
    GapActionsPrefix(init, top, |init|, gap);
  }

  lemma {:induction false} BodiesCons(a: Action, rest: seq<Action>)
    ensures Bodies([a] + rest) == a.body + Bodies(rest)
  {
    if rest == [] {
      assert Bodies([a]) == Bodies([]) + a.body;
      assert [a] + rest == [a];
    } else {
      var s := [a] + rest;
      assert s[..|s| - 1] == [a] + rest[..|rest| - 1];
      BodiesCons(a, rest[..|rest| - 1]);
    }
  }

  lemma InitDistinct(init: seq<Action>, top: Action)
    requires DistinctSequences(init + [top])
    ensures DistinctSequences(init)
  {
    var all := init + [top];
    forall i, j | 0 <= i < j < |init| ensures init[i].sequence != init[j].sequence {
      assert all[i] == init[i] && all[j] == init[j];
    }
  }

  /** The insertion with the lowest sequence number of its gap is printed first. */
  lemma GapTopFirst(init: seq<Action>, top: Action)
    requires top.Insert? && DistinctSequences(init + [top])
    requires forall a :: a in init && a.Insert? && a.gap == top.gap ==> a.sequence > top.sequence
    ensures GapText(init + [top], top.gap) == top.body + GapText(init, top.gap)
  {
    var all := init + [top];
    InitDistinct(init, top);
    GapSorted(all, top.gap);
    GapSorted(init, top.gap);
    var rest := SortBySequence(GapActions(init, |init|, top.gap));
    forall i | 0 <= i < |rest| ensures top.sequence < rest[i].sequence {
      assert rest[i] in rest;
    }
    StrictUnique(SortBySequence(GapActions(all, |all|, top.gap)), [top] + rest, BySequence());
    BodiesCons(top, rest);
  }

  /** Below the topmost hunk, adding it changes nothing. */
  lemma BelowTop(lines: seq<string>, init: seq<Action>, top: Action, k: nat)
    requires k <= |lines| && (if top.Insert? then top.gap <= k else top.end <= k)
    ensures Below(Pieces(lines, init + [top]), Gaps(init + [top], |lines|), k) == Below(Pieces(lines, init), Gaps(init, |lines|), k)
  {
    var p, g := Pieces(lines, init), Gaps(init, |lines|);
    var p', g' := Pieces(lines, init + [top]), Gaps(init + [top], |lines|);
    forall i | k <= i < |lines| ensures p'[i] == p[i] {
      PieceIgnores(lines, init, top, 0, i + 1);
    }
    forall i | k < i < |g| ensures g'[i] == g[i] {
      GapIgnores(init, top, i);
    }
    BelowUnaffected(p', g', p, g, k);
  }

  lemma DeclaredBelow(lines: seq<string>, actions: seq<Action>, k: nat)
    requires k <= |lines|
    requires forall a :: a in actions ==> if a.Insert? then a.gap >= k else a.start > k
    ensures Declared(lines, actions) == lines[..k] + (Gaps(actions, |lines|)[k] + Below(Pieces(lines, actions), Gaps(actions, |lines|), k))
  {
    UntouchedAbove(lines, actions, k);
    WeaveUntouched(lines, Pieces(lines, actions), Gaps(actions, |lines|), k);
  }

  lemma SpliceInsert(d: seq<string>, d': seq<string>, pre: seq<string>, gap: seq<string>, below: seq<string>, body: seq<string>)
    requires d == pre + (gap + below) && d' == pre + ((body + gap) + below)
    ensures d[..|pre|] + body + d[|pre|..] == d'
  {
    assert d[..|pre|] == pre && d[|pre|..] == gap + below;
  }

  lemma SpliceReplace(d: seq<string>, d': seq<string>, pre: seq<string>, cut: seq<string>, rest: seq<string>, body: seq<string>)
    requires d == pre + cut + rest && d' == pre + body + rest
    ensures d[..|pre|] + body + d[|pre| + |cut|..] == d'
  {
    assert d[..|pre|] == pre && d[|pre| + |cut|..] == rest;
  }

  /** Adding the topmost insertion to the declared result is the same as applying it to the
      text the lower hunks produced. */
  lemma AddTopInsert(lines: seq<string>, init: seq<Action>, top: Action)
    requires top.Insert? && top.gap <= |lines| && DistinctSequences(init + [top])
    requires forall a :: a in init ==> Lower(a, top)
    ensures Fits(top, |Declared(lines, init)|)
    ensures ApplyOne(Declared(lines, init), top) == Declared(lines, init + [top])
  {
    var k := top.gap;
    DeclaredBelow(lines, init, k);
    DeclaredBelow(lines, init + [top], k);
    BelowTop(lines, init, top, k);
    GapTopFirst(init, top);
    SpliceInsert(Declared(lines, init), Declared(lines, init + [top]), lines[..k],
                 Gaps(init, |lines|)[k], Below(Pieces(lines, init), Gaps(init, |lines|), k), top.body);
  }

  lemma DeclaredReplace(lines: seq<string>, actions: seq<Action>, r: Action)
    requires r.Replace? && r in actions && Fits(r, |lines|) && Valid(actions)
    requires forall a :: a in actions ==> if a.Insert? then a.gap > r.start - 1 else a.start > r.start - 1
    ensures Declared(lines, actions) ==
            lines[..r.start - 1] + r.body + (Gaps(actions, |lines|)[r.end] + Below(Pieces(lines, actions), Gaps(actions, |lines|), r.end))
  {
    var p, g := Pieces(lines, actions), Gaps(actions, |lines|);
    assert Untouched(lines, p, g, r.start - 1) by { UntouchedAbove(lines, actions, r.start - 1); }
    assert g[r.start - 1] == [] by { GapTextEmpty(actions, r.start - 1); }
    assert Swallowed(p, g, r.start, r.end) && p[r.start - 1] == r.body by { RangeSwallowed(lines, actions, r); }
    ReplacedIn(lines, p, g, r);
  }

  lemma ReplacedIn(lines: seq<string>, p: seq<seq<string>>, g: seq<seq<string>>, r: Action)
    requires r.Replace? && Fits(r, |lines|) && |p| == |lines| && |g| == |p| + 1
    requires Untouched(lines, p, g, r.start - 1) && g[r.start - 1] == [] && Swallowed(p, g, r.start, r.end) && p[r.start - 1] == r.body
    ensures Weave(p, g) == lines[..r.start - 1] + r.body + (g[r.end] + Below(p, g, r.end))
  {
    WeaveReplaced(lines, p, g, r.start, r.end);
  }

  lemma TopReplaced(lines: seq<string>, all: seq<Action>, top: Action)
    requires top.Replace? && top in all && Fits(top, |lines|) && Valid(all)
    requires forall a :: a in all && a != top ==> Lower(a, top) && Compatible(a, top)
    ensures Declared(lines, all) == lines[..top.start - 1] + top.body + BelowRange(lines, all, top.end)
  {
    forall a | a in all ensures if a.Insert? then a.gap > top.start - 1 else a.start > top.start - 1 {
      if a != top { LowerIsBelow(a, top); }
    }
    DeclaredReplace(lines, all, top);
  }

  lemma LowerIsBelow(a: Action, top: Action)
    requires top.Replace? && Lower(a, top) && Compatible(a, top)
    ensures if a.Insert? then a.gap > top.start - 1 else a.start > top.start - 1
  {
  }

  /** What lies below the range of the topmost hunk, before that hunk is added. */
  function BelowRange(lines: seq<string>, init: seq<Action>, end: nat): seq<string>
    requires end <= |lines|
  {
    Gaps(init, |lines|)[end] + Below(Pieces(lines, init), Gaps(init, |lines|), end)
  }

  lemma WithoutTop(lines: seq<string>, init: seq<Action>, top: Action)
    requires top.Replace? && Fits(top, |lines|)
    requires forall a :: a in init ==> Lower(a, top) && Compatible(a, top) && Fits(a, |lines|)
    ensures Declared(lines, init) == lines[..top.start - 1] + lines[top.start - 1..top.end] + BelowRange(lines, init, top.end)
  {
    DeclaredBelow(lines, init, top.end);
    assert lines[..top.end] == lines[..top.start - 1] + lines[top.start - 1..top.end];
  }

  lemma WithTop(lines: seq<string>, init: seq<Action>, top: Action)
    requires top.Replace? && Fits(top, |lines|) && Valid(init + [top])
    requires forall a :: a in init ==> Lower(a, top) && Compatible(a, top) && Fits(a, |lines|)
    ensures Declared(lines, init + [top]) == lines[..top.start - 1] + top.body + BelowRange(lines, init, top.end)
  {
    var all := init + [top];
    assert BelowRange(lines, all, top.end) == BelowRange(lines, init, top.end) by {
      BelowTop(lines, init, top, top.end);
      GapIgnores(init, top, top.end);
    }
    assert top in all && forall a :: a in all ==> a in init || a == top;
    TopReplaced(lines, all, top);
  }

  lemma AddTopReplace(lines: seq<string>, init: seq<Action>, top: Action)
    requires top.Replace? && Fits(top, |lines|) && Valid(init + [top])
    requires forall a :: a in init ==> Lower(a, top) && Compatible(a, top) && Fits(a, |lines|)
    ensures Fits(top, |Declared(lines, init)|)
    ensures ApplyOne(Declared(lines, init), top) == Declared(lines, init + [top])
  {
    WithoutTop(lines, init, top);
    WithTop(lines, init, top);
    SpliceReplace(Declared(lines, init), Declared(lines, init + [top]), lines[..top.start - 1], lines[top.start - 1..top.end],
                  BelowRange(lines, init, top.end), top.body);
  }

  lemma DeclaredNothing(lines: seq<string>)
    ensures Declared(lines, []) == lines
  {
    DeclaredBelow(lines, [], |lines|);
    GapTextEmpty([], |lines|);
  }

  lemma {:induction false} EachFromBottom(lines: seq<string>, hunks: seq<Action>)
    requires AllFit(hunks, |lines|) && Valid(hunks) && DistinctSequences(hunks) && BottomUp(hunks)
    ensures ApplyEach(lines, hunks) == (true, Declared(lines, hunks))
  {
    if hunks == [] {
      DeclaredNothing(lines);
    } else {
      var init, top := hunks[..|hunks| - 1], hunks[|hunks| - 1];
      assert hunks == init + [top];
      InitKeeps(lines, hunks);
      EachFromBottom(lines, init);
      TopAbove(lines, hunks);
      if top.Insert? { AddTopInsert(lines, init, top); } else { AddTopReplace(lines, init, top); }
    }
  }

  lemma InitKeeps(lines: seq<string>, hunks: seq<Action>)
    requires hunks != [] && AllFit(hunks, |lines|) && Valid(hunks) && DistinctSequences(hunks) && BottomUp(hunks)
    ensures var init := hunks[..|hunks| - 1]; AllFit(init, |lines|) && Valid(init) && DistinctSequences(init) && BottomUp(init)
  {
  }

  lemma TopAbove(lines: seq<string>, hunks: seq<Action>)
    requires hunks != [] && AllFit(hunks, |lines|) && Valid(hunks) && BottomUp(hunks)
    ensures var top := hunks[|hunks| - 1];
            Fits(top, |lines|) && forall a :: a in hunks[..|hunks| - 1] ==> Lower(a, top) && Compatible(a, top) && Fits(a, |lines|)
  {
    var init, top := hunks[..|hunks| - 1], hunks[|hunks| - 1];
    forall a | a in init ensures Lower(a, top) && Compatible(a, top) && Fits(a, |lines|) {
      var i :| 0 <= i < |init| && init[i] == a;
      assert hunks[i] == a && hunks[|init|] == top;
    }
  }

  /** Main theorem: for a valid action list in any order, applying its hunks one at a time
      from the bottom of the file to the top gives the batch result. */
  lemma BottomUpAgrees(lines: seq<string>, actions: seq<Action>, hunks: seq<Action>)
    requires AllFit(actions, |lines|) && Valid(actions) && DistinctSequences(actions)
    requires multiset(hunks) == multiset(actions) && BottomUp(hunks)
    ensures ApplyEach(lines, hunks) == (true, Declared(lines, actions))
  {
    OrderIndependent(lines, actions, hunks);
    EachFromBottom(lines, hunks);
  }
}
