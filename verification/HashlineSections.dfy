/** Patches of several sections: what every accepted patch was checked for, and how its sections
    work together. */
module HashlineSections {
  import opened Common
  import opened Text
  import opened HashlinePatch
  import opened HashlineApply
  import opened HashlinePrepare
  import opened HashlineCommit
  import opened HashlineLanguage
  import opened HashlineMoves
  import opened HashlineHunks
  import HashlineDriver
  import NativeRoundTrip

  // ---------------------------------------------------------------- tags

  /** The same drafts with the same tags. */
  ghost predicate KeepsTags(p: Progress, q: Progress) {
    q.drafts.Keys == p.drafts.Keys && forall path :: path in p.drafts ==> q.drafts[path].tag == p.drafts[path].tag
  }

  lemma PlacedKeepsTags(p: Progress, path: string, action: Option<Action>)
    requires path in p.drafts
    ensures Placed(p, path, action).Ok? ==> KeepsTags(p, Placed(p, path, action).value)
  {
  }

  lemma HunkKeepsTags(host: Host, clipboard: Registers, p: Progress, path: string, alone: bool, hunk: Hunk)
    requires path in p.drafts
    ensures var r := PrepareHunk(host, clipboard, p, path, alone, hunk); r.Ok? ==> KeepsTags(p, r.value)
  {
    var d := p.drafts[path];
    match hunk.kind
    case Put(locator, body) => PlacedKeepsTags(p, path, ResolveAction(host, d, locator, body, hunk.sequence));
    case Cut(locator, register) =>
    case Paste(locator, register) =>
      match RegisterValue(p, clipboard, register) {
        case None =>
        case Some(value) => PlacedKeepsTags(p, path, ResolveAction(host, d, locator, value, hunk.sequence));
      }
    case Remove =>
    case Move(_) =>
  }

  ghost predicate StepKeepsTags(step: Step) {
    forall p: Progress, hunk: Hunk :: step(p, hunk).Ok? ==> KeepsTags(p, step(p, hunk).value)
  }

  lemma SectionStepKeepsTags(host: Host, clipboard: Registers, path: string, alone: bool)
    ensures StepKeepsTags(SectionStep(host, clipboard, path, alone))
  {
    forall p: Progress, hunk: Hunk | SectionStep(host, clipboard, path, alone)(p, hunk).Ok?
      ensures KeepsTags(p, SectionStep(host, clipboard, path, alone)(p, hunk).value)
    {
      HunkKeepsTags(host, clipboard, p, path, alone, hunk);
    }
  }

  lemma {:induction false} HunksKeepTags(step: Step, p: Progress, hunks: seq<Hunk>, k: nat)
    requires StepKeepsTags(step) && k <= |hunks| && PrepareHunks(step, p, hunks, k).Ok?
    ensures KeepsTags(p, PrepareHunks(step, p, hunks, k).value)
    decreases |hunks| - k
  {
    if k < |hunks| { HunksKeepTags(step, step(p, hunks[k]).value, hunks, k + 1); }
  }

  /** Every draft is of a file on disk and carries its tag. */
  ghost predicate DraftsTagged(host: Host, files: Files, p: Progress) {
    forall path :: path in p.drafts ==> path in files && p.drafts[path].tag == TagOn(host, files, path)
  }

  /** The section names a file on disk by its present tag. */
  ghost predicate Current(host: Host, files: Files, s: Section) {
    && host.resolve(s.path).Some? && host.resolve(s.path).value in files
    && s.tag == host.tag(Normalize(files[host.resolve(s.path).value].data))
  }

  lemma OpenChecksTag(host: Host, files: Files, p: Progress, path: string, tag: string)
    requires DraftsTagged(host, files, p) && OpenDraft(host, files, p, path, tag).Ok?
    ensures DraftsTagged(host, files, OpenDraft(host, files, p, path, tag).value)
    ensures path in files && tag == TagOn(host, files, path)
  {
  }

  lemma SectionChecksTag(host: Host, clipboard: Registers, files: Files, p: Progress, s: Section)
    requires DraftsTagged(host, files, p) && PrepareSection(host, clipboard, files, p, s).Ok?
    ensures DraftsTagged(host, files, PrepareSection(host, clipboard, files, p, s).value) && Current(host, files, s)
  {
    var path := host.resolve(s.path).value;
    OpenChecksTag(host, files, p, path, s.tag);
    SectionStepKeepsTags(host, clipboard, path, |s.hunks| == 1);
    HunksKeepTags(SectionStep(host, clipboard, path, |s.hunks| == 1), OpenDraft(host, files, p, path, s.tag).value, s.hunks, 0);
  }

  ghost predicate ChecksTags(host: Host, files: Files, advance: Advance) {
    forall p: Progress, s: Section :: DraftsTagged(host, files, p) && advance(p, s).Ok? ==>
      DraftsTagged(host, files, advance(p, s).value) && Current(host, files, s)
  }

  lemma AdvanceChecksTags(host: Host, clipboard: Registers, files: Files)
    ensures ChecksTags(host, files, PatchAdvance(host, clipboard, files))
  {
    forall p: Progress, s: Section | DraftsTagged(host, files, p) && PatchAdvance(host, clipboard, files)(p, s).Ok?
      ensures DraftsTagged(host, files, PatchAdvance(host, clipboard, files)(p, s).value) && Current(host, files, s)
    {
      SectionChecksTag(host, clipboard, files, p, s);
    }
  }

  lemma {:induction false} SectionsCheckTags(host: Host, files: Files, advance: Advance, p: Progress, sections: seq<Section>, k: nat)
    requires ChecksTags(host, files, advance) && k <= |sections| && DraftsTagged(host, files, p)
    requires PrepareSections(advance, p, sections, k).Ok?
    ensures forall i :: k <= i < |sections| ==> Current(host, files, sections[i])
    decreases |sections| - k
  {
    if k < |sections| { SectionsCheckTags(host, files, advance, advance(p, sections[k]).value, sections, k + 1); }
  }

  /** Main theorem: no patch is accepted unless each of its sections names a file on disk by the tag of
      its present text. What was read before another writer changed the file cannot be edited. */
  lemma TagsCurrent(host: Host, clipboard: Registers, files: Files, input: string)
    requires HashlineDriver.Executed(host, clipboard, files, input).Some?
    ensures Parse(input, host.unquote).Ok?
    ensures forall s :: s in Parse(input, host.unquote).value ==> Current(host, files, s)
  {
    AcceptedCollects(host, clipboard, files, input);
    AdvanceChecksTags(host, clipboard, files);
    SectionsCheckTags(host, files, PatchAdvance(host, clipboard, files), NO_PROGRESS, Parse(input, host.unquote).value, 0);
  }

  // ---------------------------------------------------------------- a file in several sections

  function AndThen(r: Result<Progress, PrepareError>, next: Progress -> Result<Progress, PrepareError>): Result<Progress, PrepareError> {
    match r case Err(e) => Err(e) case Ok(p) => next(p)
  }

  lemma {:induction false} HunksFrom(step: Step, p: Progress, xs: seq<Hunk>, ys: seq<Hunk>, k: nat)
    requires k <= |ys|
    ensures PrepareHunks(step, p, xs + ys, |xs| + k) == PrepareHunks(step, p, ys, k)
    decreases |ys| - k
  {
    if k < |ys| && step(p, ys[k]).Ok? { HunksFrom(step, step(p, ys[k]).value, xs, ys, k + 1); }
  }

  lemma {:induction false} HunksAppend(step: Step, p: Progress, xs: seq<Hunk>, ys: seq<Hunk>, k: nat)
    requires k <= |xs|
    ensures PrepareHunks(step, p, xs + ys, k) == AndThen(PrepareHunks(step, p, xs, k), q => PrepareHunks(step, q, ys, 0))
    decreases |xs| - k
  {
    if k == |xs| {
      HunksFrom(step, p, xs, ys, 0);
    } else {
      assert (xs + ys)[k] == xs[k];
      if step(p, xs[k]).Ok? { HunksAppend(step, step(p, xs[k]).value, xs, ys, k + 1); }
    }
  }

  lemma {:induction false} SectionsFrom(advance: Advance, p: Progress, xs: seq<Section>, ys: seq<Section>, k: nat)
    requires k <= |ys|
    ensures PrepareSections(advance, p, xs + ys, |xs| + k) == PrepareSections(advance, p, ys, k)
    decreases |ys| - k
  {
    if k < |ys| && advance(p, ys[k]).Ok? { SectionsFrom(advance, advance(p, ys[k]).value, xs, ys, k + 1); }
  }

  lemma {:induction false} SectionsAppend(advance: Advance, p: Progress, xs: seq<Section>, ys: seq<Section>, k: nat)
    requires k <= |xs|
    ensures PrepareSections(advance, p, xs + ys, k) == AndThen(PrepareSections(advance, p, xs, k), q => PrepareSections(advance, q, ys, 0))
    decreases |xs| - k
  {
    if k == |xs| {
      SectionsFrom(advance, p, xs, ys, 0);
    } else {
      assert (xs + ys)[k] == xs[k];
      if advance(p, xs[k]).Ok? { SectionsAppend(advance, advance(p, xs[k]).value, xs, ys, k + 1); }
    }
  }

  /** Whether a section has further hunks matters to REM only. */
  lemma {:induction false} AloneMatters(host: Host, clipboard: Registers, p: Progress, path: string, hunks: seq<Hunk>, k: nat, alone: bool, other: bool)
    requires k <= |hunks| && forall i :: 0 <= i < |hunks| ==> !hunks[i].kind.Remove?
    ensures PrepareHunks(SectionStep(host, clipboard, path, alone), p, hunks, k) == PrepareHunks(SectionStep(host, clipboard, path, other), p, hunks, k)
    decreases |hunks| - k
  {
    if k < |hunks| {
      var r := SectionStep(host, clipboard, path, alone)(p, hunks[k]);
      OnceAlone(host, clipboard, p, path, hunks[k], alone, other);
      if r.Ok? { AloneMatters(host, clipboard, r.value, path, hunks, k + 1, alone, other); }
    }
  }

  lemma OnceAlone(host: Host, clipboard: Registers, p: Progress, path: string, hunk: Hunk, alone: bool, other: bool)
    requires !hunk.kind.Remove?
    ensures SectionStep(host, clipboard, path, alone)(p, hunk) == SectionStep(host, clipboard, path, other)(p, hunk)
  {
  }

  lemma TwoThenOne(host: Host, clipboard: Registers, files: Files, p: Progress, s: Section, t: Section, path: string)
    requires host.resolve(s.path) == Some(path) && host.resolve(t.path) == Some(path) && s.tag == t.tag && s.hunks != [] && t.hunks != []
    requires forall hunk :: hunk in s.hunks + t.hunks ==> !hunk.kind.Remove?
    ensures AndThen(PrepareSection(host, clipboard, files, p, s), q => PrepareSection(host, clipboard, files, q, t)) ==
            PrepareSection(host, clipboard, files, p, Section(s.path, s.tag, s.hunks + t.hunks))
  {
    var step, open := SectionStep(host, clipboard, path, false), OpenDraft(host, files, p, path, s.tag);
    assert forall i :: 0 <= i < |s.hunks| ==> (s.hunks + t.hunks)[i] == s.hunks[i];
    assert forall i :: 0 <= i < |t.hunks| ==> (s.hunks + t.hunks)[|s.hunks| + i] == t.hunks[i];
    if open.Ok? {
      AloneMatters(host, clipboard, open.value, path, s.hunks, 0, |s.hunks| == 1, false);
      HunksAppend(step, open.value, s.hunks, t.hunks, 0);
      var first := PrepareHunks(step, open.value, s.hunks, 0);
      if first.Ok? {
        SectionStepKeepsTags(host, clipboard, path, false);
        HunksKeepTags(step, open.value, s.hunks, 0);
        assert first.value.drafts[path].tag == s.tag;
        AloneMatters(host, clipboard, first.value, path, t.hunks, 0, |t.hunks| == 1, false);
      }
    }
  }

  /** A file may be given in several sections, side by side, as well as in one: a later section goes on
      where the earlier one stopped, against the same original lines. */
  lemma SectionsMerge(host: Host, clipboard: Registers, files: Files, above: seq<Section>, s: Section, t: Section, below: seq<Section>, path: string)
    requires host.resolve(s.path) == Some(path) && host.resolve(t.path) == Some(path) && s.tag == t.tag && s.hunks != [] && t.hunks != []
    requires forall hunk :: hunk in s.hunks + t.hunks ==> !hunk.kind.Remove?
    ensures Prepare(host, clipboard, files, above + [s, t] + below) ==
            Prepare(host, clipboard, files, above + [Section(s.path, s.tag, s.hunks + t.hunks)] + below)
  {
    var advance, m := PatchAdvance(host, clipboard, files), Section(s.path, s.tag, s.hunks + t.hunks);
    SectionsAppend(advance, NO_PROGRESS, above + [s, t], below, 0);
    SectionsAppend(advance, NO_PROGRESS, above + [m], below, 0);
    SectionsAppend(advance, NO_PROGRESS, above, [s, t], 0);
    SectionsAppend(advance, NO_PROGRESS, above, [m], 0);
    var r := PrepareSections(advance, NO_PROGRESS, above, 0);
    if r.Ok? {
      assert [s, t] == [s] + [t];
      SectionsAppend(advance, r.value, [s], [t], 0);
      LastSection(advance, r.value, s);
      LastSection(advance, r.value, m);
      TwoThenOne(host, clipboard, files, r.value, s, t, path);
      if advance(r.value, s).Ok? { LastSection(advance, advance(r.value, s).value, t); }
    }
  }

  // ---------------------------------------------------------------- removals

  lemma {:induction false} RemoveAmongHunks(host: Host, clipboard: Registers, p: Progress, path: string, hunks: seq<Hunk>, k: nat, j: nat)
    requires k <= j < |hunks| && hunks[j].kind.Remove?
    ensures PrepareHunks(SectionStep(host, clipboard, path, false), p, hunks, k).Err?
    decreases |hunks| - k
  {
    var r := SectionStep(host, clipboard, path, false)(p, hunks[k]);
    if k < j && r.Ok? { RemoveAmongHunks(host, clipboard, r.value, path, hunks, k + 1, j); }
  }

  lemma {:induction false} RemoveAmongSections(host: Host, clipboard: Registers, files: Files, p: Progress, sections: seq<Section>, k: nat, i: nat, j: nat)
    requires k <= i < |sections| && j < |sections[i].hunks| && sections[i].hunks[j].kind.Remove? && |sections[i].hunks| != 1
    ensures PrepareSections(PatchAdvance(host, clipboard, files), p, sections, k).Err?
    decreases |sections| - k
  {
    var s := sections[k];
    if k < i {
      var r := PatchAdvance(host, clipboard, files)(p, s);
      if r.Ok? { RemoveAmongSections(host, clipboard, files, r.value, sections, k + 1, i, j); }
    } else if host.resolve(s.path).Some? {
      var open := OpenDraft(host, files, p, host.resolve(s.path).value, s.tag);
      if open.Ok? { RemoveAmongHunks(host, clipboard, open.value, host.resolve(s.path).value, s.hunks, 0, j); }
    }
  }

  /** In an accepted patch REM is the only hunk of its section. */
  lemma RemoveAlone(host: Host, clipboard: Registers, files: Files, input: string)
    requires HashlineDriver.Executed(host, clipboard, files, input).Some?
    ensures forall s, hunk :: s in Parse(input, host.unquote).value && hunk in s.hunks && hunk.kind.Remove? ==> s.hunks == [hunk]
  {
    AcceptedCollects(host, clipboard, files, input);
    RemovesAlone(host, clipboard, files, Parse(input, host.unquote).value);
  }

  lemma AcceptedCollects(host: Host, clipboard: Registers, files: Files, input: string)
    requires HashlineDriver.Executed(host, clipboard, files, input).Some?
    ensures Parse(input, host.unquote).Ok?
    ensures PrepareSections(PatchAdvance(host, clipboard, files), NO_PROGRESS, Parse(input, host.unquote).value, 0).Ok?
  {
  }

  lemma RemovesAlone(host: Host, clipboard: Registers, files: Files, sections: seq<Section>)
    requires PrepareSections(PatchAdvance(host, clipboard, files), NO_PROGRESS, sections, 0).Ok?
    ensures forall s, hunk :: s in sections && hunk in s.hunks && hunk.kind.Remove? ==> s.hunks == [hunk]
  {
    forall s, hunk | s in sections && hunk in s.hunks && hunk.kind.Remove? ensures s.hunks == [hunk] {
      var i :| 0 <= i < |sections| && sections[i] == s;
      var j :| 0 <= j < |s.hunks| && s.hunks[j] == hunk;
      if |s.hunks| != 1 { RemoveAmongSections(host, clipboard, files, NO_PROGRESS, sections, 0, i, j); }
    }
  }

  // ---------------------------------------------------------------- two sections

  /** Two sections of one hunk each. */
  function Pair(s: Section, t: Section, first: HunkKind, second: HunkKind): seq<Section> {
    [s.(hunks := [Hunk(first, 0)]), t.(hunks := [Hunk(second, 1)])]
  }

  function HeaderOn(host: Host, files: Files, spelling: string, path: string): Section
    requires path in files
  {
    Section(spelling, TagOn(host, files, path), [])
  }

  lemma PairParses(host: Host, s: Section, t: Section, first: HunkKind, second: HunkKind)
    requires IsPath(s.path) && IsTag(s.tag) && IsPath(t.path) && IsTag(t.tag) && KindWritable(first) && KindWritable(second)
    ensures Parse(PatchOf(Pair(s, t, first, second)), host.unquote) == Ok(Pair(s, t, first, second))
  {
    var sections := Pair(s, t, first, second);
    assert KindWritable(sections[0].hunks[0].kind) && KindWritable(sections[1].hunks[0].kind);
    assert SectionsWritable(sections, 2, 2);
    assert SectionsWritable(sections, 1, 1);
    PatchRoundTrip(sections, host.unquote);
  }

  /** The second section goes on from what the first hunk made of its file. */
  lemma PairCollects(host: Host, clipboard: Registers, files: Files, spelling: string, path: string, t: Section, first: HunkKind, second: HunkKind)
    requires Target(host, files, spelling, path)
    ensures PrepareSections(PatchAdvance(host, clipboard, files), NO_PROGRESS, Pair(HeaderOn(host, files, spelling, path), t, first, second), 0) ==
            AndThen(PrepareHunk(host, clipboard, Opened(host, files, path), path, true, Hunk(first, 0)),
                    q => PrepareSection(host, clipboard, files, q, t.(hunks := [Hunk(second, 1)])))
  {
    var advance, sections := PatchAdvance(host, clipboard, files), Pair(HeaderOn(host, files, spelling, path), t, first, second);
    var r := PrepareHunk(host, clipboard, Opened(host, files, path), path, true, Hunk(first, 0));
    assert sections == [LoneSection(host, files, spelling, path, first)] + [t.(hunks := [Hunk(second, 1)])];
    SectionsAppend(advance, NO_PROGRESS, [sections[0]], [sections[1]], 0);
    LoneCollects(host, clipboard, files, spelling, path, first);
    if r.Ok? { LastSection(advance, r.value, sections[1]); }
  }

  lemma SecondCollects(host: Host, clipboard: Registers, files: Files, p: Progress, t: Section, path: string, kind: HunkKind)
    requires host.resolve(t.path) == Some(path)
    ensures PrepareSection(host, clipboard, files, p, t.(hunks := [Hunk(kind, 1)])) ==
            AndThen(OpenDraft(host, files, p, path, t.tag), q => SectionStep(host, clipboard, path, true)(q, Hunk(kind, 1)))
  {
    var open := OpenDraft(host, files, p, path, t.tag);
    if open.Ok? { LastHunk(SectionStep(host, clipboard, path, true), open.value, [Hunk(kind, 1)]); }
  }

  /** "REM must be the only hunk" is tested against earlier hunks only: a section that edits a file the
      patch has removed before is taken, and its lines are lost with the file. */
  lemma EditsAfterRemoveLost(host: Host, clipboard: Registers, files: Files, spelling: string, again: string, path: string, body: seq<string>)
    requires Target(host, files, spelling, path) && Target(host, files, again, path) && BodyOk(body)
    ensures var patch := PatchOf(Pair(HeaderOn(host, files, spelling, path), HeaderOn(host, files, again, path), Remove, Put(Tail, body)));
            HashlineDriver.Executed(host, clipboard, files, patch) == Some(files - {path})
  {
    var s, t := HeaderOn(host, files, spelling, path), HeaderOn(host, files, again, path);
    var sections := Pair(s, t, Remove, Put(Tail, body));
    var removed := SetFlags(Opened(host, files, path), path, path, false, true);
    var a := Insert(|LinesOn(files, path)|, body, 1);
    PairParses(host, s, t, Remove, Put(Tail, body));
    PairCollects(host, clipboard, files, spelling, path, t, Remove, Put(Tail, body));
    SecondCollects(host, clipboard, files, removed, t, path, Put(Tail, body));
    var d := FreshDraft(host, files, path).(remove := true, actions := [a]);
    assert [] + [a] == [a];
    FlaggedOutcome(host, clipboard, files, path, sections, PatchOf(sections), WithAction(removed, path, a), d);
  }

  /** The other way round the patch is refused. */
  lemma RemoveAfterEditsRefused(host: Host, clipboard: Registers, files: Files, spelling: string, again: string, path: string, body: seq<string>)
    requires Target(host, files, spelling, path) && Target(host, files, again, path) && BodyOk(body)
    ensures var patch := PatchOf(Pair(HeaderOn(host, files, spelling, path), HeaderOn(host, files, again, path), Put(Tail, body), Remove));
            HashlineDriver.Executed(host, clipboard, files, patch) == None
  {
    var s, t := HeaderOn(host, files, spelling, path), HeaderOn(host, files, again, path);
    var edited := WithAction(Opened(host, files, path), path, Insert(|LinesOn(files, path)|, body, 0));
    PairParses(host, s, t, Put(Tail, body), Remove);
    PairCollects(host, clipboard, files, spelling, path, t, Put(Tail, body), Remove);
    SecondCollects(host, clipboard, files, edited, t, path, Remove);
  }

  /** A file that has been removed or given another name can be neither removed nor renamed again. */
  lemma SecondFlagRefused(host: Host, clipboard: Registers, files: Files, spelling: string, again: string, path: string, first: HunkKind, second: HunkKind)
    requires Target(host, files, spelling, path) && Target(host, files, again, path) && KindWritable(first) && KindWritable(second)
    requires first.Remove? || (first.Move? && host.resolve(first.destination) != Some(path))
    requires second.Remove? || second.Move?
    ensures var patch := PatchOf(Pair(HeaderOn(host, files, spelling, path), HeaderOn(host, files, again, path), first, second));
            HashlineDriver.Executed(host, clipboard, files, patch) == None
  {
    var s, t := HeaderOn(host, files, spelling, path), HeaderOn(host, files, again, path);
    PairParses(host, s, t, first, second);
    PairCollects(host, clipboard, files, spelling, path, t, first, second);
    var r := PrepareHunk(host, clipboard, Opened(host, files, path), path, true, Hunk(first, 0));
    if r.Ok? { FlaggedRefuses(host, clipboard, files, r.value, t, path, second); }
  }

  lemma FlaggedRefuses(host: Host, clipboard: Registers, files: Files, p: Progress, t: Section, path: string, kind: HunkKind)
    requires host.resolve(t.path) == Some(path) && path in p.drafts && (p.drafts[path].move || p.drafts[path].remove)
    requires kind.Remove? || kind.Move?
    ensures PrepareSection(host, clipboard, files, p, t.(hunks := [Hunk(kind, 1)])).Err?
  {
    SecondCollects(host, clipboard, files, p, t, path, kind);
  }

  // ---------------------------------------------------------------- from one file into another

  function CutDraft(host: Host, files: Files, path: string, a: nat, b: nat): Draft
    requires path in files
  {
    FreshDraft(host, files, path).(actions := [HashlineApply.Replace(a, b, [], 0)])
  }

  function PasteDraft(host: Host, files: Files, path: string, g: nat, taken: seq<string>): Draft
    requires path in files
  {
    FreshDraft(host, files, path).(actions := [Insert(g, taken, 1)])
  }

  function TextOutput(files: Files, path: string, lines: seq<string>): Output
    requires path in files
  {
    Output(path, path, files[path], Normalize(files[path].data), Join(lines, '\n'), false, false)
  }

  /** The collection once lines have been cut from the first file. */
  function CutOff(host: Host, files: Files, path: string, a: nat, b: nat, register: string): Progress
    requires path in files && 1 <= a <= b <= |LinesOn(files, path)|
  {
    var taken := LinesOn(files, path)[a - 1..b];
    Progress(map[path := CutDraft(host, files, path, a, b)], [path],
             if register == "" then map[] else map[register := taken], if register == "" then Some(taken) else None)
  }

  lemma CutFirst(host: Host, clipboard: Registers, files: Files, path: string, a: nat, b: nat, register: string)
    requires path in files && 1 <= a <= b <= |LinesOn(files, path)|
    ensures PrepareHunk(host, clipboard, Opened(host, files, path), path, true, Hunk(Cut(Range(a, b), register), 0)) ==
            Ok(CutOff(host, files, path, a, b, register))
  {
    var p, taken, action := Opened(host, files, path), LinesOn(files, path)[a - 1..b], HashlineApply.Replace(a, b, [], 0);
    var q := WithAction(Captured(p, register, taken), path, action);
    assert q.registers == CutOff(host, files, path, a, b, register).registers;
    assert q.drafts == CutOff(host, files, path, a, b, register).drafts by {
      assert [] + [action] == [action];
    }
    assert CutRange(p, path, register, Some((a, b)), 0) == Ok(q);
  }

  function BothOpen(host: Host, files: Files, p: Progress, other: string): Progress
    requires other in files
  {
    p.(drafts := p.drafts[other := FreshDraft(host, files, other)], order := p.order + [other])
  }

  lemma OpenSecond(host: Host, files: Files, p: Progress, other: string)
    requires other in files && other !in p.drafts
    ensures OpenDraft(host, files, p, other, TagOn(host, files, other)) == Ok(BothOpen(host, files, p, other))
  {
  }

  lemma PasteSecond(host: Host, clipboard: Registers, files: Files, p: Progress, other: string, g: nat, register: string, taken: seq<string>)
    requires other in files && 1 <= g <= |LinesOn(files, other)| && other in p.drafts && p.drafts[other] == FreshDraft(host, files, other)
    requires RegisterValue(p, clipboard, register) == Some(taken)
    ensures SectionStep(host, clipboard, other, true)(p, Hunk(Paste(After(g), register), 1)) ==
            Ok(p.(drafts := p.drafts[other := PasteDraft(host, files, other, g, taken)]))
  {
    assert [] + [Insert(g, taken, 1)] == [Insert(g, taken, 1)];
  }

  lemma AcrossCollects(host: Host, clipboard: Registers, files: Files, spelling: string, path: string, second: string, other: string, a: nat, b: nat, g: nat, register: string)
    requires Target(host, files, spelling, path) && Target(host, files, second, other) && path != other
    requires 1 <= a <= b <= |LinesOn(files, path)| && 1 <= g <= |LinesOn(files, other)|
    ensures var sections := Pair(HeaderOn(host, files, spelling, path), HeaderOn(host, files, second, other), Cut(Range(a, b), register), Paste(After(g), register));
            var r := PrepareSections(PatchAdvance(host, clipboard, files), NO_PROGRESS, sections, 0);
            && r.Ok? && r.value.order == [path, other]
            && r.value.drafts == map[path := CutDraft(host, files, path, a, b), other := PasteDraft(host, files, other, g, LinesOn(files, path)[a - 1..b])]
  {
    var t, taken, cut := HeaderOn(host, files, second, other), LinesOn(files, path)[a - 1..b], CutOff(host, files, path, a, b, register);
    PairCollects(host, clipboard, files, spelling, path, t, Cut(Range(a, b), register), Paste(After(g), register));
    CutFirst(host, clipboard, files, path, a, b, register);
    SecondCollects(host, clipboard, files, cut, t, other, Paste(After(g), register));
    OpenSecond(host, files, cut, other);
    var both := BothOpen(host, files, cut, other);
    PasteSecond(host, clipboard, files, both, other, g, register, taken);
    assert cut.order + [other] == [path, other];
  }

  lemma AcrossFinishes(host: Host, files: Files, path: string, other: string, a: nat, b: nat, g: nat, p: Progress)
    requires path in files && other in files && path != other
    requires 1 <= a <= b <= |LinesOn(files, path)| && 1 <= g <= |LinesOn(files, other)| && p.order == [path, other]
    requires p.drafts == map[path := CutDraft(host, files, path, a, b), other := PasteDraft(host, files, other, g, LinesOn(files, path)[a - 1..b])]
    ensures var from, into := LinesOn(files, path), LinesOn(files, other);
            Finish(p, 0) == Ok([TextOutput(files, path, from[..a - 1] + from[b..]), TextOutput(files, other, into[..g] + from[a - 1..b] + into[g..])])
  {
    var from, into := LinesOn(files, path), LinesOn(files, other);
    OneDeclared(from, HashlineApply.Replace(a, b, [], 0));
    OneDeclared(into, Insert(g, from[a - 1..b], 1));
    assert from[..a - 1] + [] + from[b..] == from[..a - 1] + from[b..];
    NativeRoundTrip.AllFinish(p, [path, other], [CutDraft(host, files, path, a, b), PasteDraft(host, files, other, g, from[a - 1..b])],
      [TextOutput(files, path, from[..a - 1] + from[b..]), TextOutput(files, other, into[..g] + from[a - 1..b] + into[g..])]);
  }

  lemma TwoTextsUpdate(files: Files, path: string, other: string, lines: seq<string>, others: seq<string>)
    requires path in files && other in files && path != other
    ensures Updated(files, [TextOutput(files, path, lines), TextOutput(files, other, others)]) == WithLines(WithLines(files, path, lines), other, others)
  {
    var outputs := [TextOutput(files, path, lines), TextOutput(files, other, others)];
    assert Sources(outputs, 1) == {path} && Sources(outputs, 2) == {path, other};
    assert Written(outputs, 1) == map[path := NewState(outputs[0])];
    assert Written(outputs, 2) == map[path := NewState(outputs[0]), other := NewState(outputs[1])];
  }

  lemma TwoTextsAccepted(files: Files, path: string, other: string, lines: seq<string>, others: seq<string>, registers: Registers)
    requires path in files && other in files && path != other && Join(others, '\n') != Normalize(files[other].data)
    ensures var outputs := [TextOutput(files, path, lines), TextOutput(files, other, others)]; Accept(files, outputs, registers) == Ok((outputs, registers))
  {
    var outputs := [TextOutput(files, path, lines), TextOutput(files, other, others)];
    assert Changes(outputs[1]);
  }

  lemma CutLinesOk(files: Files, path: string, a: nat, b: nat)
    requires path in files && 1 <= a <= b <= |LinesOn(files, path)|
    ensures BodyOk(LinesOn(files, path)[a - 1..b])
  {
    SplitFree(Normalize(files[path].data), '\n');
    assert AllFree(LinesOn(files, path), '\r');
  }

  /** Main theorem: lines cut from one file and pasted into another, under a name or not, leave the first
      and stand in the second after line g; a register lives as long as its patch, whatever file it was
      filled from, and hides what the clipboard holds under its name. */
  lemma CutPasteAcross(host: Host, clipboard: Registers, files: Files, spelling: string, path: string, second: string, other: string, a: nat, b: nat, g: nat, register: string)
    requires Target(host, files, spelling, path) && Target(host, files, second, other) && path != other && RegisterOk(register)
    requires 1 <= a <= b <= |LinesOn(files, path)| <= MAX_INT && 1 <= g <= |LinesOn(files, other)| <= MAX_INT
    ensures var from, into := LinesOn(files, path), LinesOn(files, other);
            var sections := Pair(HeaderOn(host, files, spelling, path), HeaderOn(host, files, second, other), Cut(Range(a, b), register), Paste(After(g), register));
            HashlineDriver.Executed(host, clipboard, files, PatchOf(sections)) ==
            Some(WithLines(WithLines(files, path, from[..a - 1] + from[b..]), other, into[..g] + from[a - 1..b] + into[g..]))
  {
    var from, into := LinesOn(files, path), LinesOn(files, other);
    var s, t := HeaderOn(host, files, spelling, path), HeaderOn(host, files, second, other);
    var sections := Pair(s, t, Cut(Range(a, b), register), Paste(After(g), register));
    var lines, others := from[..a - 1] + from[b..], into[..g] + from[a - 1..b] + into[g..];
    PairParses(host, s, t, Cut(Range(a, b), register), Paste(After(g), register));
    AcrossCollects(host, clipboard, files, spelling, path, second, other, a, b, g, register);
    var p := PrepareSections(PatchAdvance(host, clipboard, files), NO_PROGRESS, sections, 0).value;
    AcrossFinishes(host, files, path, other, a, b, g, p);
    CutLinesOk(files, path, a, b);
    BodyIn(files, other, g, g, from[a - 1..b]);
    TwoTextsAccepted(files, path, other, lines, others, p.registers);
    TwoTextsUpdate(files, path, other, lines, others);
    HashlineDriver.ExecutedAs(host, clipboard, files, PatchOf(sections), sections, [TextOutput(files, path, lines), TextOutput(files, other, others)], p.registers);
  }
}
