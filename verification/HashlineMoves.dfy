/** Cutting lines and pasting them elsewhere in the same file: what registers are for. */
module HashlineMoves {
  import opened Common
  import opened Text
  import opened HashlinePatch
  import opened HashlineApply
  import opened HashlinePrepare
  import opened HashlineCommit
  import opened HashlineLanguage
  import HashlineDriver
  import NativeRoundTrip
  import Replace

  /** Lines a..b taken out and put back after line g, which lies outside them. */
  function Moved(lines: seq<string>, a: nat, b: nat, g: nat): seq<string>
    requires 1 <= a <= b <= |lines| && g <= |lines|
  {
    if g < a then lines[..g] + lines[a - 1..b] + lines[g..a - 1] + lines[b..]
    else if b <= g then lines[..a - 1] + lines[b..g] + lines[a - 1..b] + lines[g..]
    else lines
  }

  function Actions(lines: seq<string>, a: nat, b: nat, g: nat): seq<Action>
    requires 1 <= a <= b <= |lines|
  {
    [HashlineApply.Replace(a, b, [], 0), Insert(g, lines[a - 1..b], 1)]
  }

  lemma MoveValid(lines: seq<string>, a: nat, b: nat, g: nat)
    requires 1 <= a <= b <= |lines| && g <= |lines|
    ensures Valid(Actions(lines, a, b, g)) <==> !(a <= g < b)
    ensures AllFit(Actions(lines, a, b, g), |lines|) && DistinctSequences(Actions(lines, a, b, g))
  {
    var cut, paste := HashlineApply.Replace(a, b, [], 0), Insert(g, lines[a - 1..b], 1);
    assert Actions(lines, a, b, g)[0] == cut && Actions(lines, a, b, g)[1] == paste;
    assert Compatible(cut, paste) <==> !(a <= g < b);
  }

  /** Two hunks, the lower one first. */
  lemma EachOfTwo(lines: seq<string>, lower: Action, upper: Action)
    requires Fits(lower, |lines|) && Fits(upper, |ApplyOne(lines, lower)|)
    ensures ApplyEach(lines, [lower, upper]) == (true, ApplyOne(ApplyOne(lines, lower), upper))
  {
    assert [lower, upper][..1] == [lower] && [lower][..0] == [];
    assert ApplyEach(lines, [lower]) == (true, ApplyOne(lines, lower));
  }

  lemma TwoBottomUp(lower: Action, upper: Action)
    requires Lower(lower, upper)
    ensures BottomUp([lower, upper]) && multiset([lower, upper]) == multiset([upper, lower])
  {
  }

  lemma MovedDown(lines: seq<string>, a: nat, b: nat, g: nat)
    requires 1 <= a <= b <= g <= |lines|
    ensures var cut, paste := HashlineApply.Replace(a, b, [], 0), Insert(g, lines[a - 1..b], 1);
            ApplyOne(ApplyOne(lines, paste), cut) == Moved(lines, a, b, g)
  {
    var block := lines[a - 1..b];
    var pasted := lines[..g] + block + lines[g..];
    assert pasted[..a - 1] == lines[..a - 1];
    assert pasted[b..] == lines[b..g] + block + lines[g..];
  }

  lemma MovedUp(lines: seq<string>, a: nat, b: nat, g: nat)
    requires g < a <= b <= |lines|
    ensures var cut, paste := HashlineApply.Replace(a, b, [], 0), Insert(g, lines[a - 1..b], 1);
            ApplyOne(ApplyOne(lines, cut), paste) == Moved(lines, a, b, g)
  {
    var block := lines[a - 1..b];
    var rest := lines[..a - 1] + [] + lines[b..];
    assert rest[..g] == lines[..g] && rest[g..] == lines[g..a - 1] + lines[b..];
  }

  /** The batch result of a cut and a paste is the moved block. */
  lemma MoveDeclared(lines: seq<string>, a: nat, b: nat, g: nat)
    requires 1 <= a <= b <= |lines| && g <= |lines| && !(a <= g < b)
    ensures Declared(lines, Actions(lines, a, b, g)) == Moved(lines, a, b, g)
  {
    var cut, paste := HashlineApply.Replace(a, b, [], 0), Insert(g, lines[a - 1..b], 1);
    MoveValid(lines, a, b, g);
    if b <= g {
      TwoBottomUp(paste, cut);
      BottomUpAgrees(lines, Actions(lines, a, b, g), [paste, cut]);
      EachOfTwo(lines, paste, cut);
      MovedDown(lines, a, b, g);
    } else {
      TwoBottomUp(cut, paste);
      BottomUpAgrees(lines, Actions(lines, a, b, g), [cut, paste]);
      EachOfTwo(lines, cut, paste);
      MovedUp(lines, a, b, g);
    }
  }

  /** The same lines, each as often. */
  ghost predicate Rearranged(s: seq<string>, t: seq<string>) { multiset(s) == multiset(t) && |s| == |t| }

  /** Moving loses and duplicates no line. */
  lemma MoveConserves(lines: seq<string>, a: nat, b: nat, g: nat)
    requires 1 <= a <= b <= |lines| && g <= |lines|
    ensures Rearranged(Moved(lines, a, b, g), lines)
  {
    if g < a {
      SwapParts(lines, g, a - 1, b);
    } else if b <= g {
      SwapParts(lines, a - 1, b, g);
    }
  }

  lemma FourParts<T>(s: seq<T>, i: nat, j: nat, k: nat)
    requires i <= j <= k <= |s|
    ensures s == s[..i] + s[i..j] + s[j..k] + s[k..]
  {
  }

  lemma SwapParts(s: seq<string>, i: nat, j: nat, k: nat)
    requires i <= j <= k <= |s|
    ensures Rearranged(s[..i] + s[j..k] + s[i..j] + s[k..], s)
  {
    FourParts(s, i, j, k);
    Swapped(s[..i], s[i..j], s[j..k], s[k..]);
  }

  lemma Swapped<T>(a: seq<T>, b: seq<T>, c: seq<T>, d: seq<T>)
    ensures multiset(a + b + c + d) == multiset(a + c + b + d) && |a + b + c + d| == |a + c + b + d|
  {
    assert multiset(a + b + c + d) == multiset(a) + multiset(b) + multiset(c) + multiset(d);
    assert multiset(a + c + b + d) == multiset(a) + multiset(c) + multiset(b) + multiset(d);
  }

  // ---------------------------------------------------------------- through the engine

  function MoveSection(host: Host, files: Files, path: string, a: nat, b: nat, g: nat, register: string): Section
    requires path in files
  {
    Section(path, host.tag(Normalize(files[path].data)), [Hunk(Cut(Range(a, b), register), 0), Hunk(Paste(After(g), register), 1)])
  }

  function LinesOn(files: Files, path: string): seq<string>
    requires path in files
  {
    Split(Normalize(files[path].data), '\n')
  }

  function MoveDraft(host: Host, files: Files, path: string, a: nat, b: nat, g: nat): Draft
    requires path in files && 1 <= a <= b <= |LinesOn(files, path)|
  {
    var text := Normalize(files[path].data);
    Draft(path, path, host.tag(text), files[path], text, LinesOn(files, path), Actions(LinesOn(files, path), a, b, g), false, false)
  }

  function Kept(lines: seq<string>, a: nat, b: nat, register: string): Registers
    requires 1 <= a <= b <= |lines|
  {
    if register == "" then map[] else map[register := lines[a - 1..b]]
  }

  lemma CutThenPaste(host: Host, clipboard: Registers, p: Progress, path: string, a: nat, b: nat, g: nat, register: string)
    requires path in p.drafts && 1 <= a <= b <= |p.drafts[path].lines| && g <= |p.drafts[path].lines|
    ensures var cut := PrepareHunk(host, clipboard, p, path, false, Hunk(Cut(Range(a, b), register), 0));
            && cut.Ok?
            && var paste := PrepareHunk(host, clipboard, cut.value, path, false, Hunk(Paste(After(g), register), 1));
               var d := p.drafts[path];
               && paste.Ok? && paste.value.order == p.order
               && paste.value.drafts == p.drafts[path := d.(actions := d.actions + Actions(d.lines, a, b, g))]
               && paste.value.registers == (if register == "" then p.registers else p.registers[register := d.lines[a - 1..b]])
  {
    var d := p.drafts[path];
    assert d.actions + [HashlineApply.Replace(a, b, [], 0)] + [Insert(g, d.lines[a - 1..b], 1)] == d.actions + Actions(d.lines, a, b, g);
  }

  lemma MovePrepares(host: Host, clipboard: Registers, files: Files, path: string, a: nat, b: nat, g: nat, register: string)
    requires path in files && host.resolve(path) == Some(path) && 1 <= a <= b <= |LinesOn(files, path)| && 1 <= g <= |LinesOn(files, path)|
    ensures var r := PrepareSection(host, clipboard, files, NO_PROGRESS, MoveSection(host, files, path, a, b, g, register));
            && r.Ok? && r.value.drafts == map[path := MoveDraft(host, files, path, a, b, g)] && r.value.order == [path]
            && r.value.registers == Kept(LinesOn(files, path), a, b, register)
  {
    var s := MoveSection(host, files, path, a, b, g, register);
    var ready := OpenDraft(host, files, NO_PROGRESS, path, s.tag).value;
    var step := SectionStep(host, clipboard, path, false);
    CutThenPaste(host, clipboard, ready, path, a, b, g, register);
    var cut := PrepareHunk(host, clipboard, ready, path, false, s.hunks[0]).value;
    var paste := PrepareHunk(host, clipboard, cut, path, false, s.hunks[1]).value;
    TwoHunks(step, ready, cut, paste, s.hunks);
    assert [] + Actions(LinesOn(files, path), a, b, g) == Actions(LinesOn(files, path), a, b, g);
  }

  lemma TwoHunks(step: Step, p: Progress, q: Progress, r: Progress, hunks: seq<Hunk>)
    requires |hunks| == 2 && step(p, hunks[0]) == Ok(q) && step(q, hunks[1]) == Ok(r)
    ensures PrepareHunks(step, p, hunks, 0) == Ok(r)
  {
    assert PrepareHunks(step, r, hunks, 2) == Ok(r);
    assert PrepareHunks(step, q, hunks, 1) == Ok(r);
  }

  lemma OneSection(advance: Advance, p: Progress, s: Section, q: Progress)
    requires advance(p, s) == Ok(q)
    ensures PrepareSections(advance, p, [s], 0) == Ok(q)
  {
    assert PrepareSections(advance, q, [s], 1) == Ok(q);
  }

  function MovedOutput(files: Files, path: string, a: nat, b: nat, g: nat): Output
    requires path in files && 1 <= a <= b <= |LinesOn(files, path)| && g <= |LinesOn(files, path)|
  {
    Output(path, path, files[path], Normalize(files[path].data), Join(Moved(LinesOn(files, path), a, b, g), '\n'), false, false)
  }

  lemma MoveFinishes(host: Host, files: Files, path: string, a: nat, b: nat, g: nat, p: Progress)
    requires path in files && 1 <= a <= b <= |LinesOn(files, path)| && g <= |LinesOn(files, path)|
    requires p.drafts == map[path := MoveDraft(host, files, path, a, b, g)] && p.order == [path]
    ensures Finish(p, 0) == if a <= g < b then Err(ConflictingHunks(path)) else Ok([MovedOutput(files, path, a, b, g)])
  {
    var lines, d := LinesOn(files, path), MoveDraft(host, files, path, a, b, g);
    MoveValid(lines, a, b, g);
    if !(a <= g < b) {
      MoveYields(host, files, path, a, b, g);
      NativeRoundTrip.AllFinish(p, [path], [d], [MovedOutput(files, path, a, b, g)]);
    } else {
      MoveRefused(p, path, d);
    }
  }

  lemma MoveYields(host: Host, files: Files, path: string, a: nat, b: nat, g: nat)
    requires path in files && 1 <= a <= b <= |LinesOn(files, path)| && g <= |LinesOn(files, path)| && !(a <= g < b)
    ensures OutputOf(MoveDraft(host, files, path, a, b, g)) == MovedOutput(files, path, a, b, g)
  {
    MoveDeclared(LinesOn(files, path), a, b, g);
  }

  lemma MoveRefused(p: Progress, path: string, d: Draft)
    requires p.drafts == map[path := d] && p.order == [path] && !d.remove && !Valid(d.actions)
    ensures Finish(p, 0) == Err(ConflictingHunks(path))
  {
    RefusedAt(OutputOf, p, 0);
  }

  lemma RefusedAt(render: Render, p: Progress, k: nat)
    requires k < |p.order| && p.order[k] in p.drafts && !p.drafts[p.order[k]].remove && !Valid(p.drafts[p.order[k]].actions)
    ensures FinishWith(render, p, k) == Err(ConflictingHunks(p.order[k]))
  {
  }

  lemma AcceptOne(files: Files, o: Output, registers: Registers)
    requires o.source == o.destination && !o.remove && !o.move
    ensures Accept(files, [o], registers) == if o.final == o.text && registers == map[] then Err(NoChange) else Ok(([o], registers))
  {
    assert [o][0] == o;
  }

  lemma MoveWritable(host: Host, files: Files, path: string, a: nat, b: nat, g: nat, register: string)
    requires path in files && IsPath(path) && IsTag(host.tag(Normalize(files[path].data))) && RegisterOk(register)
    requires 1 <= a <= b <= MAX_INT && 1 <= g <= MAX_INT
    ensures SectionsWritable([MoveSection(host, files, path, a, b, g, register)], 0, 0)
  {
    var s := MoveSection(host, files, path, a, b, g, register);
    assert KindWritable(s.hunks[0].kind) && KindWritable(s.hunks[1].kind);
    assert SectionsWritable([s], 1, 2);
  }

  /** Main theorem: the patch that cuts lines a..b and pastes them after line g is refused exactly when g
      lies inside the range, or when nothing moves and no named register keeps the lines; otherwise the
      file holds the same lines with the block moved, and every other file is untouched. */
  lemma CutPasteMoves(host: Host, clipboard: Registers, files: Files, path: string, a: nat, b: nat, g: nat, register: string)
    requires path in files && IsPath(path) && host.resolve(path) == Some(path) && IsTag(host.tag(Normalize(files[path].data))) && RegisterOk(register)
    requires 1 <= a <= b <= |LinesOn(files, path)| <= MAX_INT && 1 <= g <= |LinesOn(files, path)|
    ensures var lines := LinesOn(files, path);
            var r := HashlineDriver.Executed(host, clipboard, files, PatchOf([MoveSection(host, files, path, a, b, g, register)]));
            r == if a <= g < b || (Moved(lines, a, b, g) == lines && register == "") then None
                 else Some(files[path := FileState(Join(Moved(lines, a, b, g), '\n'), files[path].mode)])
  {
    var s := MoveSection(host, files, path, a, b, g, register);
    MoveWritable(host, files, path, a, b, g, register);
    PatchRoundTrip([s], host.unquote);
    MovePrepares(host, clipboard, files, path, a, b, g, register);
    var p := PrepareSection(host, clipboard, files, NO_PROGRESS, s).value;
    OneSection(PatchAdvance(host, clipboard, files), NO_PROGRESS, s, p);
    MoveFinishes(host, files, path, a, b, g, p);
    if !(a <= g < b) {
      MoveOutcome(host, clipboard, files, path, a, b, g, register, p);
    }
  }

  lemma MoveOutcome(host: Host, clipboard: Registers, files: Files, path: string, a: nat, b: nat, g: nat, register: string, p: Progress)
    requires path in files && 1 <= a <= b <= |LinesOn(files, path)| && 1 <= g <= |LinesOn(files, path)| && !(a <= g < b)
    requires var s := MoveSection(host, files, path, a, b, g, register);
             && Parse(PatchOf([s]), host.unquote) == Ok([s])
             && PrepareSections(PatchAdvance(host, clipboard, files), NO_PROGRESS, [s], 0) == Ok(p)
    requires Finish(p, 0) == Ok([MovedOutput(files, path, a, b, g)]) && p.registers == Kept(LinesOn(files, path), a, b, register)
    ensures var lines := LinesOn(files, path);
            HashlineDriver.Executed(host, clipboard, files, PatchOf([MoveSection(host, files, path, a, b, g, register)])) ==
            if Moved(lines, a, b, g) == lines && register == "" then None
            else Some(files[path := FileState(Join(Moved(lines, a, b, g), '\n'), files[path].mode)])
  {
    var s, o := MoveSection(host, files, path, a, b, g, register), MovedOutput(files, path, a, b, g);
    OneFileOutcome(host, clipboard, files, PatchOf([s]), s, p, o);
    SameText(files, path, a, b, g);
    assert register != "" ==> register in p.registers;
  }

  lemma OneFileOutcome(host: Host, clipboard: Registers, files: Files, input: string, s: Section, p: Progress, o: Output)
    requires Parse(input, host.unquote) == Ok([s]) && PrepareSections(PatchAdvance(host, clipboard, files), NO_PROGRESS, [s], 0) == Ok(p)
    requires Finish(p, 0) == Ok([o]) && o.source == o.destination && o.source in files && !o.remove && !o.move
    ensures HashlineDriver.Executed(host, clipboard, files, input) ==
            if o.final == o.text && p.registers == map[] then None else Some(files[o.source := NewState(o)])
  {
    AcceptOne(files, o, p.registers);
    Replace.OneUpdated(files, o);
  }

  /** The moved text is the old text exactly when the lines are the old lines. */
  lemma SameText(files: Files, path: string, a: nat, b: nat, g: nat)
    requires path in files && 1 <= a <= b <= |LinesOn(files, path)| && g <= |LinesOn(files, path)|
    ensures Join(Moved(LinesOn(files, path), a, b, g), '\n') == Normalize(files[path].data) <==> Moved(LinesOn(files, path), a, b, g) == LinesOn(files, path)
  {
    var text, lines := Normalize(files[path].data), LinesOn(files, path);
    var moved := Moved(lines, a, b, g);
    JoinSplit(text, '\n');
    SplitFree(text, '\n');
    MovedFree(lines, a, b, g);
    MoveConserves(lines, a, b, g);
    SplitJoin(moved, '\n');
  }

  lemma MovedFree(lines: seq<string>, a: nat, b: nat, g: nat)
    requires 1 <= a <= b <= |lines| && g <= |lines| && AllFree(lines, '\n')
    ensures AllFree(Moved(lines, a, b, g), '\n')
  {
  }
}
