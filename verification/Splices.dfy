/** Batches of text edits: sorted by start and spliced in one sweep over the bytes of a file. */
module Splices {
  import opened Common
  import opened Sorting
  import opened Positions

  /** Replace the bytes start..end by text. */
  datatype Edit = Edit(start: int, end: int, text: seq<Byte>)

  const MAX_OUTPUT: nat := 0x40_0000

  function ByStart(): Edit -> int { (e: Edit) => e.start }

  // ---------------------------------------------------------------- the sweep

  datatype Progress = Progress(output: seq<Byte>, offset: nat)

  /** One turn of the sweep; `fits` stands for the further checks on a single range. */
  function Turn(content: seq<Byte>, p: Progress, e: Edit, fits: Edit -> bool): (r: Option<Progress>)
    requires p.offset <= |content|
    ensures r.Some? ==> r.value.offset <= |content|
  {
    if e.start < p.offset || e.end < e.start || e.end > |content| || !fits(e) then None
    else
      var output := p.output + content[p.offset..e.start] + e.text;
      if |output| > MAX_OUTPUT then None else Some(Progress(output, e.end))
  }

  /** The sweep over all edits, before the rest of the content is copied. */
  function Swept(content: seq<Byte>, edits: seq<Edit>, fits: Edit -> bool): (r: Option<Progress>)
    ensures r.Some? ==> r.value.offset <= |content|
  {
    if edits == [] then Some(Progress([], 0))
    else
      match Swept(content, edits[..|edits| - 1], fits)
      case None => None
      case Some(p) => Turn(content, p, edits[|edits| - 1], fits)
  }

  function Sweep(content: seq<Byte>, edits: seq<Edit>, fits: Edit -> bool): Option<seq<Byte>> {
    match Swept(content, edits, fits)
    case None => None
    case Some(p) => Some(p.output + content[p.offset..])
  }

  // ---------------------------------------------------------------- one edit at a time

  function Splice(s: seq<Byte>, e: Edit): seq<Byte>
    requires 0 <= e.start <= e.end <= |s|
  {
    s[..e.start] + e.text + s[e.end..]
  }

  /** Ranges inside the content, in order, none reaching into the next. */
  ghost predicate Apart(content: seq<Byte>, edits: seq<Edit>) {
    && (forall i :: 0 <= i < |edits| ==> 0 <= edits[i].start <= edits[i].end <= |content|)
    && (forall i, j :: 0 <= i < j < |edits| ==> edits[i].end <= edits[j].start)
  }

  /** The edits applied one by one, from the last to the first: the ones not applied yet lie before
      everything that has changed. */
  function Descend(content: seq<Byte>, edits: seq<Edit>): seq<Byte>
    requires Apart(content, edits)
    decreases |edits|
  {
    if edits == [] then content else Descend(Splice(content, edits[|edits| - 1]), edits[..|edits| - 1])
  }

  // ---------------------------------------------------------------- the sweep is the descent

  /** Only the content before the last range matters to the sweep so far. */
  lemma {:induction false} SweepAgrees(a: seq<Byte>, b: seq<Byte>, edits: seq<Edit>, fits: Edit -> bool, m: nat)
    requires m <= |a| && m <= |b| && a[..m] == b[..m]
    requires forall i :: 0 <= i < |edits| ==> edits[i].start <= edits[i].end <= m
    ensures Swept(a, edits, fits) == Swept(b, edits, fits)
    ensures Swept(a, edits, fits).Some? ==> Swept(a, edits, fits).value.offset <= m
  {
    if edits != [] {
      var init, e := edits[..|edits| - 1], edits[|edits| - 1];
      SweepAgrees(a, b, init, fits, m);
      if Swept(a, init, fits).Some? {
        var p := Swept(a, init, fits).value;
        if p.offset <= e.start {
          assert a[p.offset..e.start] == a[..m][p.offset..e.start] == b[..m][p.offset..e.start] == b[p.offset..e.start];
        }
      }
    }
  }

  lemma SpliceTail(output: seq<Byte>, s: seq<Byte>, offset: nat, e: Edit)
    requires offset <= e.start <= e.end <= |s|
    ensures Splice(s, e)[..e.start] == s[..e.start]
    ensures output + Splice(s, e)[offset..] == output + s[offset..e.start] + e.text + s[e.end..]
  {
    assert Splice(s, e)[offset..] == s[offset..e.start] + e.text + s[e.end..];
    Regroup(output, s[offset..e.start], e.text, s[e.end..]);
  }

  lemma Regroup(a: seq<Byte>, b: seq<Byte>, c: seq<Byte>, d: seq<Byte>)
    ensures a + (b + c + d) == a + b + c + d
  {
  }

  /** A sweep that gets through has written what the descent leaves. */
  lemma {:induction false} SweepIsDescent(content: seq<Byte>, edits: seq<Edit>, fits: Edit -> bool)
    requires Apart(content, edits) && Swept(content, edits, fits).Some?
    ensures var p := Swept(content, edits, fits).value; Descend(content, edits) == p.output + content[p.offset..]
    decreases |edits|
  {
    if edits == [] {
      assert content[0..] == content;
    } else {
      var init, e := edits[..|edits| - 1], edits[|edits| - 1];
      var p := Swept(content, init, fits).value;
      SpliceTail(p.output, content, p.offset, e);
      SweepAgrees(content, Splice(content, e), init, fits, e.start);
      SweepIsDescent(Splice(content, e), init, fits);
    }
  }

  // ---------------------------------------------------------------- what is accepted, and how long it gets

  /** Bytes inserted minus bytes removed. */
  function Delta(edits: seq<Edit>): int {
    if edits == [] then 0
    else
      var e := edits[|edits| - 1];
      Delta(edits[..|edits| - 1]) + |e.text| - (e.end - e.start)
  }

  /** The bytes written after the given edits. */
  function Written(edits: seq<Edit>): int { if edits == [] then 0 else edits[|edits| - 1].end + Delta(edits) }

  lemma {:induction false} SweepBytes(content: seq<Byte>, edits: seq<Edit>, fits: Edit -> bool)
    requires Swept(content, edits, fits).Some?
    ensures var p := Swept(content, edits, fits).value;
            && |p.output| == p.offset + Delta(edits)
            && p.offset == if edits == [] then 0 else edits[|edits| - 1].end
  {
    if edits != [] { SweepBytes(content, edits[..|edits| - 1], fits); }
  }

  /** The ranges are apart and pass their checks, and the output stays within the limit throughout. */
  ghost predicate Admissible(content: seq<Byte>, edits: seq<Edit>, fits: Edit -> bool) {
    && Apart(content, edits)
    && (forall i :: 0 <= i < |edits| ==> fits(edits[i]))
    && (forall i :: 0 < i <= |edits| ==> Written(edits[..i]) <= MAX_OUTPUT)
  }

  lemma AdmissibleGrows(content: seq<Byte>, edits: seq<Edit>, fits: Edit -> bool)
    requires edits != []
    ensures var init, e := edits[..|edits| - 1], edits[|edits| - 1];
            Admissible(content, edits, fits) <==>
            && Admissible(content, init, fits)
            && (if init == [] then 0 else init[|init| - 1].end) <= e.start <= e.end <= |content|
            && fits(e) && Written(edits) <= MAX_OUTPUT
  {
    var init := edits[..|edits| - 1];
    assert edits[..|edits|] == edits;
    assert forall i :: 0 <= i <= |init| ==> init[..i] == edits[..i];
  }

  lemma {:induction false} SweepExactly(content: seq<Byte>, edits: seq<Edit>, fits: Edit -> bool)
    ensures Swept(content, edits, fits).Some? <==> Admissible(content, edits, fits)
  {
    if edits != [] {
      var init := edits[..|edits| - 1];
      SweepExactly(content, init, fits);
      AdmissibleGrows(content, edits, fits);
      if Swept(content, init, fits).Some? { SweepBytes(content, init, fits); }
    }
  }

  /** A batch is accepted exactly when it is admissible; then it equals the edits applied one by one
      from the last start to the first, and its length is the original plus what was inserted minus
      what was removed. */
  lemma SweepLaw(content: seq<Byte>, edits: seq<Edit>, fits: Edit -> bool)
    ensures Sweep(content, edits, fits).Some? <==> Admissible(content, edits, fits)
    ensures Sweep(content, edits, fits).Some? ==>
              && Sweep(content, edits, fits).value == Descend(content, edits)
              && |Sweep(content, edits, fits).value| == |content| + Delta(edits)
  {
    SweepExactly(content, edits, fits);
    if Sweep(content, edits, fits).Some? {
      SweepIsDescent(content, edits, fits);
      SweepBytes(content, edits, fits);
    }
  }

  // ---------------------------------------------------------------- language-server edits

  datatype Position = Position(line: int, character: int)
  datatype TextEdit = TextEdit(start: Position, end: Position, text: string)

  const MAX_EDITS: nat := 10000

  function Anywhere(): Edit -> bool { (e: Edit) => true }

  function ResolveEdit(text: string, e: TextEdit): Option<Edit> {
    match ByteOffset(text, e.start.line, e.start.character)
    case None => None
    case Some(start) =>
      match ByteOffset(text, e.end.line, e.end.character)
      case None => None
      case Some(end) => if end < start then None else Some(Edit(start, end, Utf8(e.text)))
  }

  /** All edits with their positions resolved. */
  function ResolveAll(text: string, edits: seq<TextEdit>): (r: Option<seq<Edit>>)
    ensures r.Some? ==> |r.value| == |edits|
  {
    if edits == [] then Some([])
    else
      match ResolveAll(text, edits[..|edits| - 1])
      case None => None
      case Some(before) =>
        match ResolveEdit(text, edits[|edits| - 1])
        case None => None
        case Some(e) => Some(before + [e])
  }

  /** applyLSPTextEdits. */
  function ApplyTextEdits(text: string, edits: seq<TextEdit>): Option<seq<Byte>> {
    if |edits| > MAX_EDITS then None
    else
      match ResolveAll(text, edits)
      case None => None
      case Some(resolved) => Sweep(Utf8(text), StableSort(resolved, ByStart()), Anywhere())
  }

  /** Every edit of the list denotes a range. */
  ghost predicate AllResolve(text: string, edits: seq<TextEdit>) {
    forall i :: 0 <= i < |edits| ==> ResolveEdit(text, edits[i]).Some?
  }

  lemma AllResolveGrows(text: string, edits: seq<TextEdit>)
    requires edits != []
    ensures AllResolve(text, edits) <==> AllResolve(text, edits[..|edits| - 1]) && ResolveEdit(text, edits[|edits| - 1]).Some?
  {
    var init := edits[..|edits| - 1];
    assert forall i :: 0 <= i < |init| ==> init[i] == edits[i];
  }

  lemma {:induction false} ResolvedEach(text: string, edits: seq<TextEdit>)
    ensures ResolveAll(text, edits).Some? <==> AllResolve(text, edits)
  {
    if edits != [] {
      ResolvedEach(text, edits[..|edits| - 1]);
      AllResolveGrows(text, edits);
    }
  }

  lemma {:induction false} ResolvedTo(text: string, edits: seq<TextEdit>, i: nat)
    requires i < |edits| && ResolveAll(text, edits).Some?
    ensures ResolveEdit(text, edits[i]) == Some(ResolveAll(text, edits).value[i])
  {
    if i < |edits| - 1 { ResolvedTo(text, edits[..|edits| - 1], i); }
  }

  /** Both ends of the edit are positions in the text, the end not before the start. */
  ghost predicate Ranged(text: string, e: TextEdit) {
    var start, end := ByteOffset(text, e.start.line, e.start.character), ByteOffset(text, e.end.line, e.end.character);
    start.Some? && end.Some? && start.value <= end.value
  }

  /** `ranges` are the edits in list order, each from the offset of its start to that of its end. */
  ghost predicate RangesOf(text: string, edits: seq<TextEdit>, ranges: seq<Edit>) {
    && |ranges| == |edits|
    && forall i :: 0 <= i < |edits| ==> RangeOf(text, edits[i], ranges[i])
  }

  ghost predicate RangeOf(text: string, e: TextEdit, range: Edit) {
    && ByteOffset(text, e.start.line, e.start.character) == Some(range.start)
    && ByteOffset(text, e.end.line, e.end.character) == Some(range.end)
    && range.text == Utf8(e.text)
  }

  lemma RangesUnique(text: string, edits: seq<TextEdit>, a: seq<Edit>, b: seq<Edit>)
    requires RangesOf(text, edits, a) && RangesOf(text, edits, b)
    ensures a == b
  {
    forall i | 0 <= i < |a| ensures a[i] == b[i] {}
  }

  lemma ResolvedRange(text: string, e: TextEdit)
    ensures ResolveEdit(text, e).Some? <==> Ranged(text, e)
    ensures Ranged(text, e) ==>
              && ByteOffset(text, e.start.line, e.start.character) == Some(ResolveEdit(text, e).value.start)
              && ByteOffset(text, e.end.line, e.end.character) == Some(ResolveEdit(text, e).value.end)
              && ResolveEdit(text, e).value.text == Utf8(e.text)
  {
  }

  lemma ResolvedRanges(text: string, edits: seq<TextEdit>)
    ensures ResolveAll(text, edits).Some? <==> forall i :: 0 <= i < |edits| ==> Ranged(text, edits[i])
    ensures ResolveAll(text, edits).Some? ==> RangesOf(text, edits, ResolveAll(text, edits).value)
  {
    ResolvedEach(text, edits);
    forall i | 0 <= i < |edits| ensures ResolveEdit(text, edits[i]).Some? <==> Ranged(text, edits[i]) { ResolvedRange(text, edits[i]); }
    if ResolveAll(text, edits).Some? {
      var ranges := ResolveAll(text, edits).value;
      forall i | 0 <= i < |edits| ensures RangeOf(text, edits[i], ranges[i]) {
        ResolvedTo(text, edits, i);
        ResolvedRange(text, edits[i]);
      }
    }
  }

  /** Unless both ends of every edit are positions in the text, and in order, the edits are refused. */
  lemma TextEditsRefused(text: string, edits: seq<TextEdit>)
    ensures |edits| > MAX_EDITS || (exists i :: 0 <= i < |edits| && !Ranged(text, edits[i])) ==> ApplyTextEdits(text, edits) == None
  {
    ResolvedRanges(text, edits);
  }

  /** Main theorem: language-server edits, each from the byte offset of its start to that of its end and
      stably sorted by start, are accepted exactly when they are not too many and the sorted ranges are
      admissible. The result is then the ranges replaced one by one from the last start to the first, ties
      in list order, and its length is the original plus what was inserted minus what was removed. */
  lemma TextEditsLaw(text: string, edits: seq<TextEdit>, ranges: seq<Edit>, sorted: seq<Edit>)
    requires RangesOf(text, edits, ranges) && Stable(ranges, sorted, ByStart())
    ensures ApplyTextEdits(text, edits).Some? <==> |edits| <= MAX_EDITS && Admissible(Utf8(text), sorted, Anywhere())
    ensures ApplyTextEdits(text, edits).Some? ==>
              && Apart(Utf8(text), sorted)
              && ApplyTextEdits(text, edits).value == Descend(Utf8(text), sorted)
              && |ApplyTextEdits(text, edits).value| == Bytes(text) + Delta(sorted)
  {
    ResolvedRanges(text, edits);
    StableSorted(ranges, ByStart());
    StableUnique(sorted, StableSort(ranges, ByStart()), ByStart());
    SweepLaw(Utf8(text), sorted, Anywhere());
    if ResolveAll(text, edits).Some? {
      RangesUnique(text, edits, ranges, ResolveAll(text, edits).value);
    } else {
      ReversedRefused(text, edits, ranges, sorted);
    }
  }

  /** A reversed range is never admissible. */
  lemma ReversedRefused(text: string, edits: seq<TextEdit>, ranges: seq<Edit>, sorted: seq<Edit>)
    requires RangesOf(text, edits, ranges) && Stable(ranges, sorted, ByStart()) && !forall i :: 0 <= i < |edits| ==> Ranged(text, edits[i])
    ensures !Admissible(Utf8(text), sorted, Anywhere())
  {
    var i :| 0 <= i < |edits| && !Ranged(text, edits[i]);
    SameMembers(ranges, sorted);
    assert ranges[i] in sorted;
  }

  /** One edit replaces the bytes between the offsets of its two positions by the bytes of its text. */
  lemma OneTextEdit(text: string, e: TextEdit)
    ensures var start, end := ByteOffset(text, e.start.line, e.start.character), ByteOffset(text, e.end.line, e.end.character);
            && (forall at :: start == Some(at) || end == Some(at) ==> at <= |Utf8(text)|)
            && ApplyTextEdits(text, [e]) ==
               if start.None? || end.None? || end.value < start.value || start.value + |Utf8(e.text)| > MAX_OUTPUT then None
               else Some(Utf8(text)[..start.value] + Utf8(e.text) + Utf8(text)[end.value..])
  {
    var start, end := ByteOffset(text, e.start.line, e.start.character), ByteOffset(text, e.end.line, e.end.character);
    OffsetInside(text, e.start);
    OffsetInside(text, e.end);
    if start.None? || end.None? {
      assert !Ranged(text, [e][0]);
      TextEditsRefused(text, [e]);
    } else {
      var x := Edit(start.value, end.value, Utf8(e.text));
      StableOne(x);
      TextEditsLaw(text, [e], [x], [x]);
      OneAdmissible(Utf8(text), x);
      if x.start <= x.end { OneDescent(Utf8(text), x); }
    }
  }

  lemma OffsetInside(text: string, p: Position)
    ensures ByteOffset(text, p.line, p.character).Some? ==> ByteOffset(text, p.line, p.character).value <= |Utf8(text)|
  {
    if ByteOffset(text, p.line, p.character).Some? {
      var at := PlaceOf(text, p.line, p.character).value;
      assert text == text[..at] + text[at..];
      BytesAppend(text[..at], text[at..]);
    }
  }

  lemma StableOne(x: Edit)
    ensures Stable([x], [x], ByStart())
  {
  }

  lemma OneAdmissible(content: seq<Byte>, x: Edit)
    ensures Admissible(content, [x], Anywhere()) <==> 0 <= x.start <= x.end <= |content| && x.start + |x.text| <= MAX_OUTPUT
  {
    var one := [x];
    assert one[0] == x && one[..0] == [] && one[..1] == one;
    assert Delta(one) == |x.text| - (x.end - x.start);
    assert Written(one[..1]) == x.start + |x.text|;
    if Apart(content, one) { assert 0 <= one[0].start <= one[0].end <= |content|; }
  }

  lemma OneDescent(content: seq<Byte>, x: Edit)
    requires 0 <= x.start <= x.end <= |content|
    ensures Apart(content, [x]) && Descend(content, [x]) == content[..x.start] + x.text + content[x.end..]
  {
    assert [x][..0] == [] && [x][0] == x;
  }

  // ---------------------------------------------------------------- syntax-tree replacements

  /** The content may be cut where `valid` accepts what lies before, as utf8.ValidString decides it. */
  function CutsAt(content: seq<Byte>, valid: seq<Byte> -> bool): Edit -> bool {
    (e: Edit) => 0 <= e.start <= e.end <= |content| && valid(content[..e.start]) && valid(content[..e.end])
  }

  /** applyASTReplacements once every match has its replacement and sort.Slice has put them in order. */
  function ApplyReplacements(content: seq<Byte>, sorted: seq<Edit>, valid: seq<Byte> -> bool): Option<seq<Byte>> {
    Sweep(content, sorted, CutsAt(content, valid))
  }

  /** With distinct starts there is one sort, and its result obeys the same law as language-server edits. */
  lemma ReplacementsLaw(content: seq<Byte>, edits: seq<Edit>, sorted: seq<Edit>, valid: seq<Byte> -> bool)
    requires SomeSort(edits, sorted, ByStart()) && DistinctKeys(edits, ByStart())
    ensures sorted == StableSort(edits, ByStart())
    ensures ApplyReplacements(content, sorted, valid).Some? <==> Admissible(content, sorted, CutsAt(content, valid))
    ensures ApplyReplacements(content, sorted, valid).Some? ==>
              && ApplyReplacements(content, sorted, valid).value == Descend(content, sorted)
              && |ApplyReplacements(content, sorted, valid).value| == |content| + Delta(sorted)
  {
    SortAscending(edits, ByStart());
    SortStrict(edits, sorted, ByStart());
    SortStrict(edits, StableSort(edits, ByStart()), ByStart());
    SameMembers(edits, sorted);
    SameMembers(edits, StableSort(edits, ByStart()));
    StrictUnique(sorted, StableSort(edits, ByStart()), ByStart());
    SweepLaw(content, sorted, CutsAt(content, valid));
  }

  // ---------------------------------------------------------------- ties that do no harm

  /** Two edits with one start do no harm when both only insert and their texts commute. */
  predicate TieOk(e: Edit, f: Edit) {
    e.start == f.start ==> e.end == e.start && f.end == f.start && e.text + f.text == f.text + e.text
  }

  ghost predicate TiesHarmless(xs: seq<Edit>) { forall i, j :: 0 <= i < j < |xs| ==> TieOk(xs[i], xs[j]) }

  lemma HarmlessPermuted(xs: seq<Edit>, ys: seq<Edit>)
    requires multiset(xs) == multiset(ys) && TiesHarmless(xs)
    ensures TiesHarmless(ys)
  {
    forall i, j | 0 <= i < j < |ys| ensures TieOk(ys[i], ys[j]) {
      var p, q := Counterparts(ys, xs, i, j);
      assert p < q || q < p;
    }
  }

  function Then(content: seq<Byte>, r: Option<Progress>, e: Edit, fits: Edit -> bool): Option<Progress>
    requires r.Some? ==> r.value.offset <= |content|
  {
    if r.None? then None else Turn(content, r.value, e, fits)
  }

  lemma SweptSnoc(content: seq<Byte>, xs: seq<Edit>, e: Edit, fits: Edit -> bool)
    ensures Swept(content, xs + [e], fits) == Then(content, Swept(content, xs, fits), e, fits)
  {
    assert (xs + [e])[..|xs|] == xs;
  }

  /** Two harmless edits can trade places. */
  lemma TurnsSwap(content: seq<Byte>, r: Option<Progress>, e: Edit, f: Edit, fits: Edit -> bool)
    requires (r.Some? ==> r.value.offset <= |content|) && e.start == f.start && TieOk(e, f)
    ensures Then(content, Then(content, r, e, fits), f, fits) == Then(content, Then(content, r, f, fits), e, fits)
  {
    if r.Some? && r.value.offset <= e.start <= |content| {
      var before := r.value.output + content[r.value.offset..e.start];
      assert before + e.text + content[e.start..e.start] + f.text == before + (e.text + f.text);
      assert before + f.text + content[e.start..e.start] + e.text == before + (f.text + e.text);
    }
  }

  /** An edit tied harmlessly with all that follow it can be taken last. */
  lemma {:induction false} TakenLast(content: seq<Byte>, a: seq<Edit>, x: Edit, b: seq<Edit>, fits: Edit -> bool)
    requires forall i :: 0 <= i < |b| ==> b[i].start == x.start && TieOk(x, b[i])
    ensures Swept(content, a + [x] + b, fits) == Then(content, Swept(content, a + b, fits), x, fits)
    decreases |b|
  {
    if b == [] {
      assert a + [x] + b == a + [x] && a + b == a;
      SweptSnoc(content, a, x, fits);
    } else {
      var init, f := b[..|b| - 1], b[|b| - 1];
      assert a + [x] + b == (a + [x] + init) + [f] && a + b == (a + init) + [f];
      SweptSnoc(content, a + [x] + init, f, fits);
      TakenLast(content, a, x, init, fits);
      TurnsSwap(content, Swept(content, a + init, fits), x, f, fits);
      SweptSnoc(content, a + init, f, fits);
    }
  }

  /** Taking the last edit of one sort out of another leaves two sorts of the others. */
  lemma OthersSorted(xs: seq<Edit>, a: seq<Edit>, x: Edit, b: seq<Edit>)
    requires Ascending(xs, ByStart()) && SomeSort(xs, a + [x] + b, ByStart()) && TiesHarmless(xs)
    requires xs != [] && x == xs[|xs| - 1]
    ensures var init := xs[..|xs| - 1]; Ascending(init, ByStart()) && SomeSort(init, a + b, ByStart()) && TiesHarmless(init)
  {
    var init := xs[..|xs| - 1];
    assert xs == init + [x];
    TakenOut(init, a, x, b);
    AscendingWithout(a, x, b, ByStart());
  }

  /** In any sort, what follows a last element is tied with it. */
  lemma FollowsLast(xs: seq<Edit>, ys: seq<Edit>, j: nat, i: nat)
    requires Ascending(xs, ByStart()) && SomeSort(xs, ys, ByStart()) && TiesHarmless(ys)
    requires xs != [] && j < i < |ys| && ys[j] == xs[|xs| - 1]
    ensures ys[i].start == ys[j].start && TieOk(ys[j], ys[i])
  {
    SameMembers(xs, ys);
    assert ys[i] in xs;
    assert ByStart()(ys[j]) <= ByStart()(ys[i]);
    var k :| 0 <= k < |xs| && xs[k] == ys[i];
    assert k < |xs| - 1 ==> ByStart()(xs[k]) <= ByStart()(xs[|xs| - 1]);
  }

  lemma TiedAfter(xs: seq<Edit>, ys: seq<Edit>, j: nat, b: seq<Edit>)
    requires Ascending(xs, ByStart()) && SomeSort(xs, ys, ByStart()) && TiesHarmless(xs)
    requires xs != [] && j < |ys| && ys[j] == xs[|xs| - 1] && b == ys[j + 1..]
    ensures forall i :: 0 <= i < |b| ==> b[i].start == ys[j].start && TieOk(ys[j], b[i])
  {
    HarmlessPermuted(xs, ys);
    forall i | 0 <= i < |b| ensures b[i].start == ys[j].start && TieOk(ys[j], b[i]) { FollowsLast(xs, ys, j, j + 1 + i); }
  }

  /** The last edit of one sort can be taken last in any other. */
  lemma LastInOther(content: seq<Byte>, xs: seq<Edit>, a: seq<Edit>, x: Edit, b: seq<Edit>, fits: Edit -> bool)
    requires Ascending(xs, ByStart()) && SomeSort(xs, a + [x] + b, ByStart()) && TiesHarmless(xs)
    requires xs != [] && x == xs[|xs| - 1]
    ensures Swept(content, a + [x] + b, fits) == Then(content, Swept(content, a + b, fits), x, fits)
  {
    TiedAfter(xs, a + [x] + b, |a|, b);
    TakenLast(content, a, x, b, fits);
  }

  /** When all ties are harmless every sort gives the same result or the same refusal. */
  lemma {:induction false} SortsAgree(content: seq<Byte>, xs: seq<Edit>, ys: seq<Edit>, fits: Edit -> bool)
    requires Ascending(xs, ByStart()) && SomeSort(xs, ys, ByStart()) && TiesHarmless(xs)
    ensures Swept(content, xs, fits) == Swept(content, ys, fits)
    decreases |xs|
  {
    SameMembers(xs, ys);
    if xs != [] {
      var init, x := xs[..|xs| - 1], xs[|xs| - 1];
      assert x in ys;
      var j :| 0 <= j < |ys| && ys[j] == x;
      assert ys == ys[..j] + [x] + ys[j + 1..];
      LastInOther(content, xs, ys[..j], x, ys[j + 1..], fits);
      OthersSorted(xs, ys[..j], x, ys[j + 1..]);
      SortsAgree(content, init, ys[..j] + ys[j + 1..], fits);
    }
  }

  // ---------------------------------------------------------------- ties that do harm

  /** Two tied edits can trade places in a sort. */
  lemma TradePlaces(u: seq<Edit>, e: Edit, m: seq<Edit>, f: Edit, v: seq<Edit>)
    requires e.start == f.start && Ascending(u + [e] + m + [f] + v, ByStart())
    ensures SomeSort(u + [e] + m + [f] + v, u + [f] + m + [e] + v, ByStart())
  {
    var xs, ys := u + [e] + m + [f] + v, u + [f] + m + [e] + v;
    forall i | 0 <= i < |xs| ensures ys[i].start == xs[i].start {
      if i != |u| && i != |u| + 1 + |m| { assert ys[i] == xs[i]; }
    }
    SameKeys(xs, ys, ByStart());
    TradedPermutes(u, e, m, f, v);
  }

  lemma TradedPermutes(u: seq<Edit>, e: Edit, m: seq<Edit>, f: Edit, v: seq<Edit>)
    ensures multiset(u + [e] + m + [f] + v) == multiset(u + [f] + m + [e] + v)
  {
  }

  /** What a turn appends does not depend on the output so far. */
  lemma SameAppend(content: seq<Byte>, a: seq<Byte>, b: seq<Byte>, t: seq<Byte>, at: nat, e: Edit, fits: Edit -> bool)
    requires at <= |content| && Turn(content, Progress(a + t, at), e, fits).Some? && Turn(content, Progress(b + t, at), e, fits).Some?
    ensures var tail := t + (content[at..e.start] + e.text);
            && Turn(content, Progress(a + t, at), e, fits) == Some(Progress(a + tail, e.end))
            && Turn(content, Progress(b + t, at), e, fits) == Some(Progress(b + tail, e.end))
  {
    var x := content[at..e.start];
    assert a + t + x + e.text == a + (t + (x + e.text));
    assert b + t + x + e.text == b + (t + (x + e.text));
  }

  lemma SweptRest(content: seq<Byte>, a: seq<Edit>, init: seq<Edit>, e: Edit, rest: seq<Edit>, fits: Edit -> bool)
    requires rest == init + [e]
    ensures Swept(content, a + rest, fits) == Then(content, Swept(content, a + init, fits), e, fits)
  {
    assert a + rest == (a + init) + [e];
    SweptSnoc(content, a + init, e, fits);
  }

  /** What a sweep appends after some edits does not depend on the output so far. */
  lemma {:induction false} SameTail(content: seq<Byte>, a: seq<Edit>, b: seq<Edit>, rest: seq<Edit>, fits: Edit -> bool, p: Progress, q: Progress)
    returns (tail: seq<Byte>, end: nat)
    requires Swept(content, a + rest, fits).Some? && Swept(content, b + rest, fits).Some?
    requires Swept(content, a, fits) == Some(p) && Swept(content, b, fits) == Some(q) && p.offset == q.offset
    ensures end <= |content|
    ensures Swept(content, a + rest, fits) == Some(Progress(p.output + tail, end))
    ensures Swept(content, b + rest, fits) == Some(Progress(q.output + tail, end))
    decreases |rest|
  {
    if rest == [] {
      tail, end := [], p.offset;
      NothingAppended(content, a, p, fits);
      NothingAppended(content, b, q, fits);
    } else {
      var init, e := rest[..|rest| - 1], rest[|rest| - 1];
      SweptRest(content, a, init, e, rest, fits);
      SweptRest(content, b, init, e, rest, fits);
      var t, at := SameTail(content, a, b, init, fits, p, q);
      tail, end := OneMore(content, p.output, q.output, t, at, e, fits, Swept(content, a + rest, fits), Swept(content, b + rest, fits));
    }
  }

  lemma NothingAppended(content: seq<Byte>, a: seq<Edit>, p: Progress, fits: Edit -> bool)
    requires Swept(content, a, fits) == Some(p)
    ensures Swept(content, a + [], fits) == Some(Progress(p.output + [], p.offset))
  {
    assert a + [] == a && p.output + [] == p.output;
  }

  lemma OneMore(content: seq<Byte>, a: seq<Byte>, b: seq<Byte>, t: seq<Byte>, at: nat, e: Edit, fits: Edit -> bool, r: Option<Progress>, s: Option<Progress>)
    returns (tail: seq<Byte>, end: nat)
    requires at <= |content| && r.Some? && s.Some?
    requires r == Then(content, Some(Progress(a + t, at)), e, fits) && s == Then(content, Some(Progress(b + t, at)), e, fits)
    ensures end <= |content| && r == Some(Progress(a + tail, end)) && s == Some(Progress(b + tail, end))
  {
    SameAppend(content, a, b, t, at, e, fits);
    tail, end := t + (content[at..e.start] + e.text), e.end;
  }

  /** The first edits of an accepted sweep are accepted. */
  lemma {:induction false} PrefixAccepted(content: seq<Byte>, a: seq<Edit>, rest: seq<Edit>, fits: Edit -> bool)
    requires Swept(content, a + rest, fits).Some?
    ensures Swept(content, a, fits).Some?
    decreases |rest|
  {
    if rest == [] {
      assert a + rest == a;
    } else {
      SweptRest(content, a, rest[..|rest| - 1], rest[|rest| - 1], rest, fits);
      PrefixAccepted(content, a, rest[..|rest| - 1], fits);
    }
  }

  lemma CancelEnds<T>(a: seq<T>, b: seq<T>, tail: seq<T>, end: seq<T>)
    requires |a| == |b| && a + tail + end == b + tail + end
    ensures a == b
  {
    assert (a + tail + end)[..|a|] == a && (b + tail + end)[..|b|] == b;
  }

  lemma CancelHead<T>(a: seq<T>, b: seq<T>, c: seq<T>)
    requires a + b == a + c
    ensures b == c
  {
    assert (a + b)[|a|..] == b && (a + c)[|a|..] == c;
  }

  lemma TurnsTwo(content: seq<Byte>, p: Progress, e: Edit, f: Edit, fits: Edit -> bool)
    requires e.start == e.end == f.start == f.end && p.offset <= |content|
    requires Then(content, Turn(content, p, e, fits), f, fits).Some?
    ensures p.offset <= e.start <= |content|
    ensures Then(content, Turn(content, p, e, fits), f, fits).value
         == Progress(p.output + content[p.offset..e.start] + (e.text + f.text), e.start)
  {
    var lead := p.output + content[p.offset..e.start];
    assert lead + e.text + content[e.start..e.start] + f.text == lead + (e.text + f.text);
  }

  lemma InsertTwo(content: seq<Byte>, before: seq<Edit>, e: Edit, f: Edit, fits: Edit -> bool)
    requires e.start == e.end == f.start == f.end && Swept(content, before + [e, f], fits).Some?
    ensures Swept(content, before, fits).Some?
    ensures var p, q := Swept(content, before, fits).value, Swept(content, before + [e, f], fits).value;
            p.offset <= e.start <= |content| && q == Progress(p.output + content[p.offset..e.start] + (e.text + f.text), e.start)
  {
    assert before + [e, f] == (before + [e]) + [f];
    SweptSnoc(content, before + [e], f, fits);
    SweptSnoc(content, before, e, fits);
    TurnsTwo(content, Swept(content, before, fits).value, e, f, fits);
  }

  /** Two neighbouring insertions that can trade places without a difference commute. */
  lemma SameMeansCommute(content: seq<Byte>, before: seq<Edit>, e: Edit, f: Edit, rest: seq<Edit>, fits: Edit -> bool)
    requires e.start == e.end == f.start == f.end
    requires Sweep(content, before + [e, f] + rest, fits).Some?
    requires Sweep(content, before + [e, f] + rest, fits) == Sweep(content, before + [f, e] + rest, fits)
    ensures e.text + f.text == f.text + e.text
  {
    var a, b := before + [e, f], before + [f, e];
    PrefixAccepted(content, a, rest, fits);
    PrefixAccepted(content, b, rest, fits);
    InsertTwo(content, before, e, f, fits);
    InsertTwo(content, before, f, e, fits);
    var p, q := Swept(content, a, fits).value, Swept(content, b, fits).value;
    var tail, end := SameTail(content, a, b, rest, fits, p, q);
    CancelEnds(p.output, q.output, tail, content[end..]);
    var r := Swept(content, before, fits).value;
    CancelHead(r.output + content[r.offset..e.start], e.text + f.text, f.text + e.text);
  }

  /** The sort with f, found at place b, moved up next to e at place a; and the two exchanged. */
  lemma MovedUp(xs: seq<Edit>, a: nat, b: nat)
    requires a < b < |xs| && xs[a].start == xs[b].start && Ascending(xs, ByStart())
    ensures var before, rest := xs[..a], xs[a + 1..b] + xs[b + 1..];
            && SomeSort(xs, before + [xs[a], xs[b]] + rest, ByStart())
            && SomeSort(xs, before + [xs[b], xs[a]] + rest, ByStart())
  {
    MovedPermutes(xs, a, b);
    MovedAscending(xs, a, b);
    NeighboursExchanged(xs[..a], xs[a], xs[b], xs[a + 1..b] + xs[b + 1..]);
  }

  lemma NeighboursExchanged(before: seq<Edit>, e: Edit, f: Edit, rest: seq<Edit>)
    requires e.start == f.start && Ascending(before + [e, f] + rest, ByStart())
    ensures SomeSort(before + [e, f] + rest, before + [f, e] + rest, ByStart())
  {
    assert before + [e, f] + rest == before + [e] + [] + [f] + rest;
    assert before + [f, e] + rest == before + [f] + [] + [e] + rest;
    TradePlaces(before, e, [], f, rest);
  }

  lemma MovedAscending(xs: seq<Edit>, a: nat, b: nat)
    requires a < b < |xs| && xs[a].start == xs[b].start && Ascending(xs, ByStart())
    ensures Ascending(xs[..a] + [xs[a], xs[b]] + (xs[a + 1..b] + xs[b + 1..]), ByStart())
  {
    var ys := xs[..a] + [xs[a], xs[b]] + (xs[a + 1..b] + xs[b + 1..]);
    forall i, j | 0 <= i < j < |ys| ensures ByStart()(ys[i]) <= ByStart()(ys[j]) {
      MovedKey(xs, a, b, i);
      MovedKey(xs, a, b, j);
      assert ByStart()(xs[i]) <= ByStart()(xs[j]);
    }
  }

  lemma MovedPermutes(xs: seq<Edit>, a: nat, b: nat)
    requires a < b < |xs|
    ensures multiset(xs[..a] + [xs[a], xs[b]] + (xs[a + 1..b] + xs[b + 1..])) == multiset(xs)
  {
    assert xs == xs[..a] + [xs[a]] + xs[a + 1..b] + [xs[b]] + xs[b + 1..];
  }

  /** Moving up within a tie leaves the key at every place. */
  lemma MovedKey(xs: seq<Edit>, a: nat, b: nat, i: nat)
    requires a < b < |xs| && xs[a].start == xs[b].start && Ascending(xs, ByStart()) && i < |xs|
    ensures (xs[..a] + [xs[a], xs[b]] + (xs[a + 1..b] + xs[b + 1..]))[i].start == xs[i].start
  {
    var ys := xs[..a] + [xs[a], xs[b]] + (xs[a + 1..b] + xs[b + 1..]);
    assert forall j :: a <= j <= b ==> ByStart()(xs[a]) <= ByStart()(xs[j]) <= ByStart()(xs[b]);
    if a + 1 < i <= b {
      assert ys[i] == xs[i - 1];
    } else if b < i {
      assert ys[i] == xs[i];
    }
  }

  /** All sorts of the edits come to the result of this one. */
  ghost predicate OneResult(content: seq<Byte>, edits: seq<Edit>, sorted: seq<Edit>, fits: Edit -> bool) {
    forall other :: SomeSort(edits, other, ByStart()) ==> Sweep(content, other, fits) == Sweep(content, sorted, fits)
  }

  /** An accepted sort whose tied edits can trade places has only insertions among them. */
  lemma TradedEmpty(content: seq<Byte>, u: seq<Edit>, e: Edit, m: seq<Edit>, f: Edit, v: seq<Edit>, fits: Edit -> bool)
    requires e.start == f.start && Sweep(content, u + [e] + m + [f] + v, fits).Some? && Sweep(content, u + [f] + m + [e] + v, fits).Some?
    ensures e.start == e.end == f.end
  {
    InOrder(content, u, e, m, f, v, fits);
    InOrder(content, u, f, m, e, v, fits);
  }

  lemma InOrder(content: seq<Byte>, u: seq<Edit>, e: Edit, m: seq<Edit>, f: Edit, v: seq<Edit>, fits: Edit -> bool)
    requires Sweep(content, u + [e] + m + [f] + v, fits).Some?
    ensures e.start <= e.end <= f.start <= f.end
  {
    var xs := u + [e] + m + [f] + v;
    SweepExactly(content, xs, fits);
    var i, j := |u|, |u| + 1 + |m|;
    assert xs[i] == e && xs[j] == f;
  }

  lemma TiedEmpty(content: seq<Byte>, edits: seq<Edit>, sorted: seq<Edit>, fits: Edit -> bool, a: nat, b: nat)
    requires a < b < |sorted| && SomeSort(edits, sorted, ByStart()) && sorted[a].start == sorted[b].start
    requires Sweep(content, sorted, fits).Some? && OneResult(content, edits, sorted, fits)
    ensures sorted[a].start == sorted[a].end == sorted[b].end
  {
    var u, m, v := sorted[..a], sorted[a + 1..b], sorted[b + 1..];
    assert sorted == u + [sorted[a]] + m + [sorted[b]] + v;
    TradePlaces(u, sorted[a], m, sorted[b], v);
    assert SomeSort(edits, u + [sorted[b]] + m + [sorted[a]] + v, ByStart());
    TradedEmpty(content, u, sorted[a], m, sorted[b], v, fits);
  }

  lemma TiedCommute(content: seq<Byte>, edits: seq<Edit>, sorted: seq<Edit>, fits: Edit -> bool, before: seq<Edit>, e: Edit, f: Edit, rest: seq<Edit>)
    requires Sweep(content, sorted, fits).Some? && OneResult(content, edits, sorted, fits)
    requires SomeSort(edits, before + [e, f] + rest, ByStart()) && SomeSort(edits, before + [f, e] + rest, ByStart())
    requires e.start == e.end == f.start == f.end
    ensures e.text + f.text == f.text + e.text
  {
    SameMeansCommute(content, before, e, f, rest, fits);
  }

  lemma HarmlessPair(content: seq<Byte>, edits: seq<Edit>, sorted: seq<Edit>, fits: Edit -> bool, a: nat, b: nat)
    requires a < b < |sorted| && SomeSort(edits, sorted, ByStart())
    requires Sweep(content, sorted, fits).Some? && OneResult(content, edits, sorted, fits)
    ensures TieOk(sorted[a], sorted[b])
  {
    if sorted[a].start == sorted[b].start {
      TiedEmpty(content, edits, sorted, fits, a, b);
      MovedUp(sorted, a, b);
      TiedCommute(content, edits, sorted, fits, sorted[..a], sorted[a], sorted[b], sorted[a + 1..b] + sorted[b + 1..]);
    }
  }

  /** When some sort of the edits is accepted, the result does not depend on the sort exactly when any
      two edits with one start are insertions whose texts commute. */
  lemma TiesExactly(content: seq<Byte>, edits: seq<Edit>, sorted: seq<Edit>, valid: seq<Byte> -> bool)
    requires SomeSort(edits, sorted, ByStart()) && ApplyReplacements(content, sorted, valid).Some?
    ensures (forall other :: SomeSort(edits, other, ByStart()) ==>
               ApplyReplacements(content, other, valid) == ApplyReplacements(content, sorted, valid))
            <==> TiesHarmless(edits)
  {
    var fits := CutsAt(content, valid);
    if TiesHarmless(edits) {
      HarmlessPermuted(edits, sorted);
      forall other | SomeSort(edits, other, ByStart())
        ensures ApplyReplacements(content, other, valid) == ApplyReplacements(content, sorted, valid)
      {
        SortsAgree(content, sorted, other, fits);
      }
    }
    if forall other :: SomeSort(edits, other, ByStart()) ==>
         ApplyReplacements(content, other, valid) == ApplyReplacements(content, sorted, valid)
    {
      assert OneResult(content, edits, sorted, fits);
      forall a, b | 0 <= a < b < |sorted| ensures TieOk(sorted[a], sorted[b]) { HarmlessPair(content, edits, sorted, fits, a, b); }
      HarmlessPermuted(sorted, edits);
    }
  }

  function Always(): seq<Byte> -> bool { (b: seq<Byte>) => true }

  lemma SweepTwo(content: seq<Byte>, e: Edit, f: Edit, fits: Edit -> bool)
    ensures Swept(content, [e, f], fits) == Then(content, Turn(content, Progress([], 0), e, fits), f, fits)
  {
    assert [e, f] == ([] + [e]) + [f];
    SweptSnoc(content, [] + [e], f, fits);
    SweptSnoc(content, [], e, fits);
  }

  lemma SortOfTwo(e: Edit, f: Edit)
    requires e.start == f.start
    ensures SomeSort([e, f], [e, f], ByStart()) && SomeSort([e, f], [f, e], ByStart())
  {
    var xs, ys := [e, f], [f, e];
    assert multiset(xs) == multiset{e, f} && multiset(ys) == multiset{e, f};
  }

  lemma InsertionsAtStart(content: seq<Byte>, s: seq<Byte>, t: seq<Byte>)
    requires |s| + |t| <= 2
    ensures ApplyReplacements(content, [Edit(0, 0, s), Edit(0, 0, t)], Always()) == Some(s + t + content)
  {
    SweepTwo(content, Edit(0, 0, s), Edit(0, 0, t), CutsAt(content, Always()));
    TurnAtStart(content, [], Edit(0, 0, s));
    TurnAtStart(content, s, Edit(0, 0, t));
    assert [] + s == s && content[0..] == content;
  }

  /** Two insertions at one place come out in either order, as the sort pleases. */
  lemma TiesAreAmbiguous(content: seq<Byte>)
    ensures var a, b := Edit(0, 0, [97]), Edit(0, 0, [98]);
            && SomeSort([a, b], [a, b], ByStart()) && SomeSort([a, b], [b, a], ByStart())
            && ApplyReplacements(content, [a, b], Always()) == Some([97, 98] + content)
            && ApplyReplacements(content, [b, a], Always()) == Some([98, 97] + content)
  {
    SortOfTwo(Edit(0, 0, [97]), Edit(0, 0, [98]));
    InsertionsAtStart(content, [97], [98]);
    InsertionsAtStart(content, [98], [97]);
    assert [97] + [98] == [97, 98] && [98] + [97] == [98, 97];
  }

  /** An insertion tied with a replacement is accepted or refused, as the sort pleases. */
  lemma TieDecidesAcceptance(content: seq<Byte>)
    requires content != []
    ensures var insertion, replacement := Edit(0, 0, [97]), Edit(0, 1, [98]);
            && SomeSort([insertion, replacement], [insertion, replacement], ByStart())
            && SomeSort([insertion, replacement], [replacement, insertion], ByStart())
            && ApplyReplacements(content, [insertion, replacement], Always()) == Some([97, 98] + content[1..])
            && ApplyReplacements(content, [replacement, insertion], Always()) == None
  {
    SortOfTwo(Edit(0, 0, [97]), Edit(0, 1, [98]));
    InsertionFirst(content);
    ReplacementFirst(content);
  }

  lemma InsertionFirst(content: seq<Byte>)
    requires content != []
    ensures ApplyReplacements(content, [Edit(0, 0, [97]), Edit(0, 1, [98])], Always()) == Some([97, 98] + content[1..])
  {
    SweepTwo(content, Edit(0, 0, [97]), Edit(0, 1, [98]), CutsAt(content, Always()));
    TurnAtStart(content, [], Edit(0, 0, [97]));
    TurnAtStart(content, [97], Edit(0, 1, [98]));
    assert [97] + [98] == [97, 98] && [] + [97] == [97];
  }

  lemma ReplacementFirst(content: seq<Byte>)
    requires content != []
    ensures ApplyReplacements(content, [Edit(0, 1, [98]), Edit(0, 0, [97])], Always()) == None
  {
    SweepTwo(content, Edit(0, 1, [98]), Edit(0, 0, [97]), CutsAt(content, Always()));
    TurnAtStart(content, [], Edit(0, 1, [98]));
  }

  lemma TurnAtStart(content: seq<Byte>, output: seq<Byte>, e: Edit)
    requires e.start == 0 <= e.end <= |content| && |output| + |e.text| <= 2
    ensures Turn(content, Progress(output, 0), e, CutsAt(content, Always())) == Some(Progress(output + e.text, e.end))
  {
    assert output + content[0..0] + e.text == output + e.text;
  }

  // ---------------------------------------------------------------- the loop

  /** The loop of both functions: a growing output and a moving offset. */
  method SpliceAll(content: seq<Byte>, edits: seq<Edit>, fits: Edit -> bool) returns (r: Option<seq<Byte>>)
    ensures r == Sweep(content, edits, fits)
  {
    var output: seq<Byte> := [];
    var offset: nat := 0;
    for k := 0 to |edits|
      invariant offset <= |content| && Swept(content, edits[..k], fits) == Some(Progress(output, offset))
    {
      SweepTurn(content, edits, k, fits);
      var ok;
      ok, output, offset := SpliceOne(content, output, offset, edits[k], fits);
      if !ok { return None; }
    }
    assert edits[..|edits|] == edits;
    r := Some(output + content[offset..]);
  }

  lemma SweepTurn(content: seq<Byte>, edits: seq<Edit>, k: nat, fits: Edit -> bool)
    requires k < |edits|
    ensures Swept(content, edits[..k + 1], fits) == Then(content, Swept(content, edits[..k], fits), edits[k], fits)
    ensures Swept(content, edits[..k + 1], fits).None? ==> Swept(content, edits, fits).None?
  {
    assert edits[..k + 1] == edits[..k] + [edits[k]];
    SweptSnoc(content, edits[..k], edits[k], fits);
    assert edits == edits[..k + 1] + edits[k + 1..];
    if Swept(content, edits, fits).Some? { PrefixAccepted(content, edits[..k + 1], edits[k + 1..], fits); }
  }

  method SpliceOne(content: seq<Byte>, before: seq<Byte>, at: nat, e: Edit, fits: Edit -> bool) returns (ok: bool, output: seq<Byte>, offset: nat)
    requires at <= |content|
    ensures Turn(content, Progress(before, at), e, fits) == if ok then Some(Progress(output, offset)) else None
  {
    output, offset := before, at;
    if e.start < offset || e.end < e.start || e.end > |content| || !fits(e) { return false, output, offset; }
    output := output + content[offset..e.start] + e.text;
    offset := e.end;
    ok := |output| <= MAX_OUTPUT;
  }

  method ApplyLspTextEdits(text: string, edits: seq<TextEdit>) returns (r: Option<seq<Byte>>)
    ensures r == ApplyTextEdits(text, edits)
  {
    if |edits| > MAX_EDITS { return None; }
    var resolved: seq<Edit> := [];
    for k := 0 to |edits|
      invariant ResolveAll(text, edits[..k]) == Some(resolved)
    {
      var e := ResolveEdit(text, edits[k]);
      assert edits[..k + 1][..k] == edits[..k];
      if e.None? {
        ResolvedEach(text, edits);
        assert !AllResolve(text, edits);
        return None;
      }
      resolved := resolved + [e.value];
    }
    assert edits[..|edits|] == edits;
    r := SpliceAll(Utf8(text), StableSort(resolved, ByStart()), Anywhere());
  }
}
