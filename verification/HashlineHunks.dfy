/** What each kind of hunk does to the files, from the text of the patch to the committed tree. */
module HashlineHunks {
  import opened Common
  import opened Text
  import opened HashlinePatch
  import opened HashlineApply
  import opened HashlinePrepare
  import opened HashlineCommit
  import opened HashlineLanguage
  import opened HashlineMoves
  import HashlineDriver
  import NativeRoundTrip

  /** `spelling` stands for a file on disk and can be written in a section header with its tag. */
  ghost predicate Target(host: Host, files: Files, spelling: string, path: string) {
    && HostOk(host) && IsPath(spelling) && host.resolve(spelling) == Some(path) && path in files
  }

  function TagOn(host: Host, files: Files, path: string): string
    requires path in files
  {
    host.tag(Normalize(files[path].data))
  }

  function LoneSection(host: Host, files: Files, spelling: string, path: string, kind: HunkKind): Section
    requires path in files
  {
    Section(spelling, TagOn(host, files, path), [Hunk(kind, 0)])
  }

  /** The files after a patch that holds one hunk. */
  function Run(host: Host, clipboard: Registers, files: Files, spelling: string, path: string, kind: HunkKind): Option<Files>
    requires path in files
  {
    HashlineDriver.Executed(host, clipboard, files, PatchOf([LoneSection(host, files, spelling, path, kind)]))
  }

  /** The registers such a patch fills. */
  function RunFills(host: Host, clipboard: Registers, files: Files, spelling: string, path: string, kind: HunkKind): Registers
    requires path in files
  {
    HashlineDriver.Filled(host, clipboard, files, PatchOf([LoneSection(host, files, spelling, path, kind)]))
  }

  /** The files with new lines in one of them. */
  function WithLines(files: Files, path: string, lines: seq<string>): Files
    requires path in files
  {
    files[path := FileState(Join(lines, '\n'), files[path].mode)]
  }

  // ---------------------------------------------------------------- one hunk through the engine

  function FreshDraft(host: Host, files: Files, path: string): Draft
    requires path in files
  {
    Draft(path, path, TagOn(host, files, path), files[path], Normalize(files[path].data), LinesOn(files, path), [], false, false)
  }

  function Opened(host: Host, files: Files, path: string): Progress
    requires path in files
  {
    Progress(map[path := FreshDraft(host, files, path)], [path], map[], None)
  }

  lemma LoneParses(host: Host, files: Files, spelling: string, path: string, kind: HunkKind)
    requires Target(host, files, spelling, path) && KindWritable(kind)
    ensures var s := LoneSection(host, files, spelling, path, kind); Parse(PatchOf([s]), host.unquote) == Ok([s])
  {
    var s := LoneSection(host, files, spelling, path, kind);
    assert KindWritable(s.hunks[0].kind);
    assert SectionsWritable([s], 1, 1);
    PatchRoundTrip([s], host.unquote);
  }

  lemma LoneCollects(host: Host, clipboard: Registers, files: Files, spelling: string, path: string, kind: HunkKind)
    requires Target(host, files, spelling, path)
    ensures PrepareSections(PatchAdvance(host, clipboard, files), NO_PROGRESS, [LoneSection(host, files, spelling, path, kind)], 0) ==
            PrepareHunk(host, clipboard, Opened(host, files, path), path, true, Hunk(kind, 0))
  {
    var s, step, p := LoneSection(host, files, spelling, path, kind), SectionStep(host, clipboard, path, true), Opened(host, files, path);
    assert OpenDraft(host, files, NO_PROGRESS, path, s.tag) == Ok(p) by {
      assert NO_PROGRESS.drafts[path := FreshDraft(host, files, path)] == p.drafts && NO_PROGRESS.order + [path] == p.order;
    }
    var r := PrepareHunk(host, clipboard, p, path, true, Hunk(kind, 0));
    assert step(p, s.hunks[0]) == r;
    LastHunk(step, p, s.hunks);
    LastSection(PatchAdvance(host, clipboard, files), NO_PROGRESS, s);
  }

  lemma LastHunk(step: Step, p: Progress, hunks: seq<Hunk>)
    requires |hunks| == 1
    ensures PrepareHunks(step, p, hunks, 0) == step(p, hunks[0])
  {
    if step(p, hunks[0]).Ok? { assert PrepareHunks(step, step(p, hunks[0]).value, hunks, 1) == step(p, hunks[0]); }
  }

  lemma LastSection(advance: Advance, p: Progress, s: Section)
    ensures PrepareSections(advance, p, [s], 0) == advance(p, s)
  {
    if advance(p, s).Ok? { assert PrepareSections(advance, advance(p, s).value, [s], 1) == advance(p, s); }
  }

  /** A hunk that is refused refuses the patch. */
  lemma LoneRefused(host: Host, clipboard: Registers, files: Files, spelling: string, path: string, kind: HunkKind)
    requires Target(host, files, spelling, path) && KindWritable(kind)
    requires PrepareHunk(host, clipboard, Opened(host, files, path), path, true, Hunk(kind, 0)).Err?
    ensures Run(host, clipboard, files, spelling, path, kind) == None
    ensures RunFills(host, clipboard, files, spelling, path, kind) == map[]
  {
    LoneParses(host, files, spelling, path, kind);
    LoneCollects(host, clipboard, files, spelling, path, kind);
  }

  lemma OneDeclared(lines: seq<string>, a: Action)
    requires Fits(a, |lines|)
    ensures Declared(lines, [a]) == ApplyOne(lines, a)
  {
    assert AllFit([a], |lines|);
    BottomUpAgrees(lines, [a], [a]);
    assert [a][..0] == [];
    assert ApplyEach(lines, [a]) == (true, ApplyOne(lines, a));
  }

  /** The file holds the new lines and the registers are kept, unless neither would change anything. */
  ghost predicate Rewrites(after: Option<Files>, fills: Registers, files: Files, path: string, lines: seq<string>, kept: Registers)
    requires path in files
  {
    && after == (if Join(lines, '\n') == Normalize(files[path].data) && kept == map[] then None else Some(WithLines(files, path, lines)))
    && (after.Some? ==> fills == kept)
  }

  lemma OneFileFills(host: Host, clipboard: Registers, files: Files, input: string, s: Section, p: Progress, o: Output)
    requires Parse(input, host.unquote) == Ok([s]) && PrepareSections(PatchAdvance(host, clipboard, files), NO_PROGRESS, [s], 0) == Ok(p)
    requires Finish(p, 0) == Ok([o]) && o.source == o.destination && !o.remove && !o.move
    ensures !(o.final == o.text && p.registers == map[]) ==> HashlineDriver.Filled(host, clipboard, files, input) == p.registers
  {
    AcceptOne(files, o, p.registers);
  }

  /** A draft with one action becomes the file with that action applied, unless nothing changes at all. */
  lemma ActedOutcome(host: Host, clipboard: Registers, files: Files, path: string, s: Section, input: string, p: Progress, a: Action)
    requires path in files && Fits(a, |LinesOn(files, path)|)
    requires Parse(input, host.unquote) == Ok([s]) && PrepareSections(PatchAdvance(host, clipboard, files), NO_PROGRESS, [s], 0) == Ok(p)
    requires p.drafts == map[path := FreshDraft(host, files, path).(actions := [a])] && p.order == [path]
    ensures Rewrites(HashlineDriver.Executed(host, clipboard, files, input), HashlineDriver.Filled(host, clipboard, files, input),
                     files, path, ApplyOne(LinesOn(files, path), a), p.registers)
  {
    var lines := LinesOn(files, path);
    var d := FreshDraft(host, files, path).(actions := [a]);
    var o := Output(path, path, files[path], Normalize(files[path].data), Join(ApplyOne(lines, a), '\n'), false, false);
    OneDeclared(lines, a);
    NativeRoundTrip.AllFinish(p, [path], [d], [o]);
    OneFileOutcome(host, clipboard, files, input, s, p, o);
    OneFileFills(host, clipboard, files, input, s, p, o);
  }

  /** A hunk that resolves to one action rewrites the file, unless nothing changes at all. */
  lemma LoneActs(host: Host, clipboard: Registers, files: Files, spelling: string, path: string, kind: HunkKind, p: Progress, a: Action)
    requires Target(host, files, spelling, path) && KindWritable(kind) && Fits(a, |LinesOn(files, path)|)
    requires PrepareHunk(host, clipboard, Opened(host, files, path), path, true, Hunk(kind, 0)) == Ok(p)
    requires p.drafts == map[path := FreshDraft(host, files, path).(actions := [a])] && p.order == [path]
    ensures Rewrites(Run(host, clipboard, files, spelling, path, kind), RunFills(host, clipboard, files, spelling, path, kind),
                     files, path, ApplyOne(LinesOn(files, path), a), p.registers)
  {
    var s := LoneSection(host, files, spelling, path, kind);
    LoneParses(host, files, spelling, path, kind);
    LoneCollects(host, clipboard, files, spelling, path, kind);
    ActedOutcome(host, clipboard, files, path, s, PatchOf([s]), p, a);
  }

  // ---------------------------------------------------------------- PUT

  lemma PutActs(host: Host, clipboard: Registers, files: Files, spelling: string, path: string, locator: Locator, body: seq<string>, a: Action)
    requires Target(host, files, spelling, path) && KindWritable(Put(locator, body))
    requires ResolveAction(host, FreshDraft(host, files, path), locator, body, 0) == Some(a)
    ensures Fits(a, |LinesOn(files, path)|)
    ensures var lines := ApplyOne(LinesOn(files, path), a);
            Run(host, clipboard, files, spelling, path, Put(locator, body)) ==
            if Join(lines, '\n') == Normalize(files[path].data) then None else Some(WithLines(files, path, lines))
  {
    ResolvedFits(host, FreshDraft(host, files, path), locator, body, 0);
    var p := Opened(host, files, path);
    assert [] + [a] == [a];
    LoneActs(host, clipboard, files, spelling, path, Put(locator, body), WithAction(p, path, a), a);
  }

  ghost predicate BodyOk(body: seq<string>) { body != [] && forall i :: 0 <= i < |body| ==> LineText(body[i]) }

  /** New lines give the old text exactly when they are the old lines. */
  lemma SameLines(files: Files, path: string, lines: seq<string>)
    requires path in files && lines != [] && AllFree(lines, '\n')
    ensures Join(lines, '\n') == Normalize(files[path].data) <==> lines == LinesOn(files, path)
  {
    JoinSplit(Normalize(files[path].data), '\n');
    SplitJoin(lines, '\n');
  }

  lemma BodyIn(files: Files, path: string, k: nat, m: nat, body: seq<string>)
    requires path in files && k <= m <= |LinesOn(files, path)| && BodyOk(body)
    ensures var lines := LinesOn(files, path)[..k] + body + LinesOn(files, path)[m..];
            lines != [] && (Join(lines, '\n') == Normalize(files[path].data) <==> lines == LinesOn(files, path))
            && (k == m ==> lines != LinesOn(files, path))
  {
    var before := LinesOn(files, path);
    var lines := before[..k] + body + before[m..];
    SplitFree(Normalize(files[path].data), '\n');
    assert AllFree(lines, '\n');
    SameLines(files, path, lines);
    assert |lines| == |before| - (m - k) + |body|;
  }

  lemma AtTheEnd(lines: seq<string>, body: seq<string>)
    ensures lines[..|lines|] + body + lines[|lines|..] == lines + body
  {
  }

  /** `PUT >$:` leaves the old lines followed by the body. */
  lemma TailAppends(host: Host, clipboard: Registers, files: Files, spelling: string, path: string, body: seq<string>)
    requires Target(host, files, spelling, path) && BodyOk(body)
    ensures Run(host, clipboard, files, spelling, path, Put(Tail, body)) == Some(WithLines(files, path, LinesOn(files, path) + body))
  {
    var lines := LinesOn(files, path);
    PutActs(host, clipboard, files, spelling, path, Tail, body, Insert(|lines|, body, 0));
    BodyIn(files, path, |lines|, |lines|, body);
    AtTheEnd(lines, body);
  }

  /** `PUT <n:` puts the body before line n, and is refused when there is no such line. */
  lemma BeforeInserts(host: Host, clipboard: Registers, files: Files, spelling: string, path: string, n: nat, body: seq<string>)
    requires Target(host, files, spelling, path) && 1 <= n <= MAX_INT && BodyOk(body)
    ensures var lines := LinesOn(files, path);
            Run(host, clipboard, files, spelling, path, Put(Before(n), body)) ==
            if n > |lines| then None else Some(WithLines(files, path, lines[..n - 1] + body + lines[n - 1..]))
  {
    if n > |LinesOn(files, path)| {
      LoneRefused(host, clipboard, files, spelling, path, Put(Before(n), body));
    } else {
      PutActs(host, clipboard, files, spelling, path, Before(n), body, Insert(n - 1, body, 0));
      BodyIn(files, path, n - 1, n - 1, body);
    }
  }

  /** `PUT >n:` puts the body after line n, and is refused when there is no such line. */
  lemma AfterInserts(host: Host, clipboard: Registers, files: Files, spelling: string, path: string, n: nat, body: seq<string>)
    requires Target(host, files, spelling, path) && 1 <= n <= MAX_INT && BodyOk(body)
    ensures var lines := LinesOn(files, path);
            Run(host, clipboard, files, spelling, path, Put(After(n), body)) ==
            if n > |lines| then None else Some(WithLines(files, path, lines[..n] + body + lines[n..]))
  {
    if n > |LinesOn(files, path)| {
      LoneRefused(host, clipboard, files, spelling, path, Put(After(n), body));
    } else {
      PutActs(host, clipboard, files, spelling, path, After(n), body, Insert(n, body, 0));
      BodyIn(files, path, n, n, body);
    }
  }

  /** `PUT >n*:` puts the body after the end of the block that starts at line n, if there is one. */
  lemma AfterBlockInserts(host: Host, clipboard: Registers, files: Files, spelling: string, path: string, n: nat, body: seq<string>)
    requires Target(host, files, spelling, path) && 1 <= n <= MAX_INT && BodyOk(body)
    ensures var lines, block := LinesOn(files, path), host.block(path, LinesOn(files, path), n);
            && (block.Some? ==> 1 <= block.value.0 <= block.value.1 <= |lines|)
            && Run(host, clipboard, files, spelling, path, Put(AfterBlock(n), body)) ==
               if block.None? then None else Some(WithLines(files, path, lines[..block.value.1] + body + lines[block.value.1..]))
  {
    var block := host.block(path, LinesOn(files, path), n);
    if block.None? {
      LoneRefused(host, clipboard, files, spelling, path, Put(AfterBlock(n), body));
    } else {
      assert BlockOk(block.value, |LinesOn(files, path)|, n);
      PutActs(host, clipboard, files, spelling, path, AfterBlock(n), body, Insert(block.value.1, body, 0));
      BodyIn(files, path, block.value.1, block.value.1, body);
    }
  }

  /** `PUT a.=b:` replaces exactly the lines a to b; it is refused when they are not all there or
      when the body is what they are. */
  lemma RangeReplaced(host: Host, clipboard: Registers, files: Files, spelling: string, path: string, a: nat, b: nat, body: seq<string>)
    requires Target(host, files, spelling, path) && 1 <= a <= b <= MAX_INT && BodyOk(body)
    ensures var lines := LinesOn(files, path);
            Run(host, clipboard, files, spelling, path, Put(Range(a, b), body)) ==
            if b > |lines| || lines[..a - 1] + body + lines[b..] == lines then None
            else Some(WithLines(files, path, lines[..a - 1] + body + lines[b..]))
  {
    if b > |LinesOn(files, path)| {
      LoneRefused(host, clipboard, files, spelling, path, Put(Range(a, b), body));
    } else {
      PutActs(host, clipboard, files, spelling, path, Range(a, b), body, HashlineApply.Replace(a, b, body, 0));
      BodyIn(files, path, a - 1, b, body);
    }
  }

  /** `PUT n*:` replaces exactly the lines of the block that starts at line n. */
  lemma BlockReplaced(host: Host, clipboard: Registers, files: Files, spelling: string, path: string, n: nat, body: seq<string>)
    requires Target(host, files, spelling, path) && 1 <= n <= MAX_INT && BodyOk(body)
    ensures var lines, block := LinesOn(files, path), host.block(path, LinesOn(files, path), n);
            && (block.Some? ==> 1 <= block.value.0 <= block.value.1 <= |lines|)
            && Run(host, clipboard, files, spelling, path, Put(Block(n), body)) ==
               if block.None? || lines[..block.value.0 - 1] + body + lines[block.value.1..] == lines then None
               else Some(WithLines(files, path, lines[..block.value.0 - 1] + body + lines[block.value.1..]))
  {
    var block := host.block(path, LinesOn(files, path), n);
    if block.None? {
      LoneRefused(host, clipboard, files, spelling, path, Put(Block(n), body));
    } else {
      assert BlockOk(block.value, |LinesOn(files, path)|, n);
      PutActs(host, clipboard, files, spelling, path, Block(n), body, HashlineApply.Replace(block.value.0, block.value.1, body, 0));
      BodyIn(files, path, block.value.0 - 1, block.value.1, body);
    }
  }

  // ---------------------------------------------------------------- registers

  /** A lone paste puts what the clipboard holds under the name, as a PUT with these lines would,
      and is refused when it holds nothing; no patch starts with something in the anonymous register. */
  lemma PastesClipboard(host: Host, clipboard: Registers, files: Files, spelling: string, path: string, locator: Locator, register: string)
    requires Target(host, files, spelling, path) && KindWritable(Paste(locator, register))
    requires register in clipboard ==> BodyOk(clipboard[register])
    ensures Run(host, clipboard, files, spelling, path, Paste(locator, register)) ==
            if register == "" || register !in clipboard then None
            else Run(host, clipboard, files, spelling, path, Put(locator, clipboard[register]))
  {
    if register == "" || register !in clipboard {
      LoneRefused(host, clipboard, files, spelling, path, Paste(locator, register));
    } else {
      var body := clipboard[register];
      LoneParses(host, files, spelling, path, Paste(locator, register));
      LoneParses(host, files, spelling, path, Put(locator, body));
      LoneCollects(host, clipboard, files, spelling, path, Paste(locator, register));
      LoneCollects(host, clipboard, files, spelling, path, Put(locator, body));
    }
  }

  /** `PUT >n @r` inserts what the clipboard holds under r after line n. */
  lemma PastedAfter(host: Host, clipboard: Registers, files: Files, spelling: string, path: string, n: nat, register: string)
    requires Target(host, files, spelling, path) && 1 <= n <= MAX_INT && IsWord(register)
    requires register in clipboard && BodyOk(clipboard[register])
    ensures var lines := LinesOn(files, path);
            Run(host, clipboard, files, spelling, path, Paste(After(n), register)) ==
            if n > |lines| then None else Some(WithLines(files, path, lines[..n] + clipboard[register] + lines[n..]))
  {
    PastesClipboard(host, clipboard, files, spelling, path, After(n), register);
    AfterInserts(host, clipboard, files, spelling, path, n, clipboard[register]);
  }

  /** Taking lines out leaves the text as it was exactly when the text is empty. */
  lemma TakenOutChanges(files: Files, path: string, a: nat, b: nat)
    requires path in files && 1 <= a <= b <= |LinesOn(files, path)|
    ensures Join(LinesOn(files, path)[..a - 1] + LinesOn(files, path)[b..], '\n') == Normalize(files[path].data) <==> Normalize(files[path].data) == ""
  {
    var lines := LinesOn(files, path);
    var left := lines[..a - 1] + lines[b..];
    SplitFree(Normalize(files[path].data), '\n');
    if left != [] {
      assert AllFree(left, '\n');
      SameLines(files, path, left);
      assert |left| < |lines|;
      assert |lines| > 1;
    }
  }

  lemma CutPrepares(host: Host, clipboard: Registers, files: Files, path: string, locator: Locator, a: nat, b: nat, register: string)
    requires path in files && 1 <= a <= b <= |LinesOn(files, path)| && ResolveRange(host, FreshDraft(host, files, path), locator) == Some((a, b))
    ensures var p, taken := Opened(host, files, path), LinesOn(files, path)[a - 1..b];
            PrepareHunk(host, clipboard, p, path, true, Hunk(Cut(locator, register), 0)) ==
            Ok(WithAction(Captured(p, register, taken), path, HashlineApply.Replace(a, b, [], 0)))
  {
  }

  /** The lines a to b are gone and kept under the register, unless there is nothing to take and no name. */
  ghost predicate TakesOut(after: Option<Files>, fills: Registers, files: Files, path: string, a: nat, b: nat, register: string)
    requires path in files && 1 <= a <= b <= |LinesOn(files, path)|
  {
    var lines := LinesOn(files, path);
    && after == (if register == "" && Normalize(files[path].data) == "" then None else Some(WithLines(files, path, lines[..a - 1] + lines[b..])))
    && (after.Some? ==> fills == if register == "" then map[] else map[register := lines[a - 1..b]])
  }

  lemma CutOutcome(after: Option<Files>, fills: Registers, files: Files, path: string, a: nat, b: nat, register: string)
    requires path in files && 1 <= a <= b <= |LinesOn(files, path)|
    requires Rewrites(after, fills, files, path, ApplyOne(LinesOn(files, path), HashlineApply.Replace(a, b, [], 0)),
                      if register == "" then map[] else map[register := LinesOn(files, path)[a - 1..b]])
    ensures TakesOut(after, fills, files, path, a, b, register)
  {
    var lines := LinesOn(files, path);
    TakenOutChanges(files, path, a, b);
    assert lines[..a - 1] + [] + lines[b..] == lines[..a - 1] + lines[b..];
    assert register != "" ==> register in map[register := lines[a - 1..b]];
  }

  lemma CutActs(host: Host, clipboard: Registers, files: Files, spelling: string, path: string, locator: Locator, a: nat, b: nat, register: string)
    requires Target(host, files, spelling, path) && KindWritable(Cut(locator, register))
    requires 1 <= a <= b <= |LinesOn(files, path)| && ResolveRange(host, FreshDraft(host, files, path), locator) == Some((a, b))
    ensures TakesOut(Run(host, clipboard, files, spelling, path, Cut(locator, register)),
                     RunFills(host, clipboard, files, spelling, path, Cut(locator, register)), files, path, a, b, register)
  {
    var p, action, taken := Opened(host, files, path), HashlineApply.Replace(a, b, [], 0), LinesOn(files, path)[a - 1..b];
    assert [] + [action] == [action];
    CutPrepares(host, clipboard, files, path, locator, a, b, register);
    LoneActs(host, clipboard, files, spelling, path, Cut(locator, register), WithAction(Captured(p, register, taken), path, action), action);
    CutOutcome(Run(host, clipboard, files, spelling, path, Cut(locator, register)),
               RunFills(host, clipboard, files, spelling, path, Cut(locator, register)), files, path, a, b, register);
  }

  /** `CUT a.=b` takes the lines a to b out; under a name they are kept as that register and nothing else
      is. It is refused when they are not all there, or when the file is empty and nothing is kept. */
  lemma CutTakesOut(host: Host, clipboard: Registers, files: Files, spelling: string, path: string, a: nat, b: nat, register: string)
    requires Target(host, files, spelling, path) && 1 <= a <= b <= MAX_INT && RegisterOk(register)
    ensures var lines, after := LinesOn(files, path), Run(host, clipboard, files, spelling, path, Cut(Range(a, b), register));
            && after == (if b > |lines| || (register == "" && Normalize(files[path].data) == "") then None
                         else Some(WithLines(files, path, lines[..a - 1] + lines[b..])))
            && (after.Some? ==> RunFills(host, clipboard, files, spelling, path, Cut(Range(a, b), register)) ==
                                if register == "" then map[] else map[register := lines[a - 1..b]])
  {
    if b > |LinesOn(files, path)| {
      LoneRefused(host, clipboard, files, spelling, path, Cut(Range(a, b), register));
    } else {
      CutActs(host, clipboard, files, spelling, path, Range(a, b), a, b, register);
    }
  }

  /** `CUT n*` does the same with the lines of the block that starts at line n. */
  lemma CutTakesBlock(host: Host, clipboard: Registers, files: Files, spelling: string, path: string, n: nat, register: string)
    requires Target(host, files, spelling, path) && 1 <= n <= MAX_INT && RegisterOk(register)
    ensures var lines, after := LinesOn(files, path), Run(host, clipboard, files, spelling, path, Cut(Block(n), register));
            var block := host.block(path, lines, n);
            && (block.Some? ==> 1 <= block.value.0 <= block.value.1 <= |lines|)
            && after == (if block.None? || (register == "" && Normalize(files[path].data) == "") then None
                         else Some(WithLines(files, path, lines[..block.value.0 - 1] + lines[block.value.1..])))
            && (after.Some? ==> RunFills(host, clipboard, files, spelling, path, Cut(Block(n), register)) ==
                                if register == "" then map[] else map[register := lines[block.value.0 - 1..block.value.1]])
  {
    var block := host.block(path, LinesOn(files, path), n);
    if block.None? {
      LoneRefused(host, clipboard, files, spelling, path, Cut(Block(n), register));
    } else {
      assert BlockOk(block.value, |LinesOn(files, path)|, n);
      CutActs(host, clipboard, files, spelling, path, Block(n), block.value.0, block.value.1, register);
    }
  }

  // ---------------------------------------------------------------- whole files

  /** A draft that only carries flags becomes the file without it, or under its new name. */
  lemma FlaggedOutcome(host: Host, clipboard: Registers, files: Files, path: string, sections: seq<Section>, input: string, p: Progress, d: Draft)
    requires path in files && d.source == path && d.original == files[path] && d.text == Normalize(files[path].data)
    requires d.lines == LinesOn(files, path) && (d.actions == [] || (d.remove && |d.actions| == 1)) && d.move == (d.destination != path) && (d.remove ==> !d.move)
    requires Parse(input, host.unquote) == Ok(sections) && PrepareSections(PatchAdvance(host, clipboard, files), NO_PROGRESS, sections, 0) == Ok(p)
    requires p.drafts == map[path := d] && p.order == [path] && p.registers == map[]
    ensures HashlineDriver.Executed(host, clipboard, files, input) ==
            if d.remove then Some(files - {path})
            else if d.destination == path || d.destination in files then None
            else Some((files - {path})[d.destination := FileState(Normalize(files[path].data), files[path].mode)])
  {
    var text := Normalize(files[path].data);
    var o := Output(path, d.destination, files[path], text, if d.remove then "" else text, d.remove, d.move);
    FlaggedOutput(d, text);
    NativeRoundTrip.AllFinish(p, [path], [d], [o]);
    AcceptFlagged(files, o);
    FlaggedUpdate(files, o);
    OneOutputExecuted(host, clipboard, files, input, sections, p, o);
  }

  lemma FlaggedOutput(d: Draft, text: string)
    requires d.lines == Split(text, '\n') && (d.actions == [] || d.remove)
    ensures OutputOf(d) == Output(d.source, d.destination, d.original, d.text, if d.remove then "" else text, d.remove, d.move)
  {
    if !d.remove { NothingDeclared(d.lines); }
    JoinSplit(text, '\n');
  }

  lemma FlaggedUpdate(files: Files, o: Output)
    ensures Updated(files, [o]) == if o.remove then files - {o.source} else (files - {o.source})[o.destination := NewState(o)]
  {
    assert Sources([o], 1) == {o.source};
    assert Written([o], 1) == if o.remove then map[] else map[o.destination := NewState(o)];
  }

  lemma OneOutputExecuted(host: Host, clipboard: Registers, files: Files, input: string, sections: seq<Section>, p: Progress, o: Output)
    requires Parse(input, host.unquote) == Ok(sections) && PrepareSections(PatchAdvance(host, clipboard, files), NO_PROGRESS, sections, 0) == Ok(p)
    requires Finish(p, 0) == Ok([o])
    ensures HashlineDriver.Executed(host, clipboard, files, input) ==
            if Accept(files, [o], p.registers).Err? then None else Some(Updated(files, [o]))
  {
  }

  lemma {:induction false} NothingDeclared(lines: seq<string>)
    ensures Declared(lines, []) == lines
  {
    assert AllFit([], |lines|);
    BottomUpAgrees(lines, [], []);
  }

  lemma AcceptFlagged(files: Files, o: Output)
    requires o.source in files && o.move == (o.destination != o.source) && (o.remove || o.final == o.text)
    ensures Accept(files, [o], map[]) ==
            if o.remove then Ok(([o], map[]))
            else if o.destination == o.source then Err(NoChange)
            else if o.destination in files then Err(BadDestinations)
            else Ok(([o], map[]))
  {
    assert [o][0] == o;
    assert AnyChange([o]) <==> Changes(o);
    assert IsSource([o], o.destination) <==> o.destination == o.source;
  }

  /** `REM` deletes the file. */
  lemma RemoveDeletes(host: Host, clipboard: Registers, files: Files, spelling: string, path: string)
    requires Target(host, files, spelling, path)
    ensures Run(host, clipboard, files, spelling, path, Remove) == Some(files - {path})
  {
    var s, d := LoneSection(host, files, spelling, path, Remove), FreshDraft(host, files, path).(remove := true);
    LoneParses(host, files, spelling, path, Remove);
    LoneCollects(host, clipboard, files, spelling, path, Remove);
    FlaggedOutcome(host, clipboard, files, path, [s], PatchOf([s]), SetFlags(Opened(host, files, path), path, path, false, true), d);
  }

  /** `MV d` gives the file another name and normalizes its text. It is refused when the name stands
      for no path, for the file itself, or for a file that is there. */
  lemma MoveRenames(host: Host, clipboard: Registers, files: Files, spelling: string, path: string, destination: string)
    requires Target(host, files, spelling, path) && LineText(destination)
    ensures var target := host.resolve(destination);
            Run(host, clipboard, files, spelling, path, HunkKind.Move(destination)) ==
            if target.None? || target.value == path || target.value in files then None
            else Some((files - {path})[target.value := FileState(Normalize(files[path].data), files[path].mode)])
  {
    var kind, target := HunkKind.Move(destination), host.resolve(destination);
    if target.None? {
      LoneRefused(host, clipboard, files, spelling, path, kind);
    } else {
      var s := LoneSection(host, files, spelling, path, kind);
      var d := FreshDraft(host, files, path).(destination := target.value, move := target.value != path);
      LoneParses(host, files, spelling, path, kind);
      LoneCollects(host, clipboard, files, spelling, path, kind);
      FlaggedOutcome(host, clipboard, files, path, [s], PatchOf([s]), SetFlags(Opened(host, files, path), path, target.value, target.value != path, false), d);
    }
  }
}
