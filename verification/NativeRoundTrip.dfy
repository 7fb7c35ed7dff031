/** What the printer of NativeEdits promises: the edit driver reads the patch back and turns
    every changed file into its normalized new text, exactly when normalization does not
    hide the change. */
module NativeRoundTrip {
  import opened Common
  import opened Text
  import opened HashlinePatch
  import opened HashlineApply
  import opened HashlinePrepare
  import opened HashlineCommit
  import opened NativeEdits
  import HashlineDriver

  // ---------------------------------------------------------------- from text to lines

  lemma {:induction false} TerminatedLines(lines: seq<string>, n: nat, tail: string)
    requires n <= |lines| && AllFree(lines, '\n') && '\n' !in tail
    ensures Split(Terminated(lines, n) + tail, '\n') == lines[..n] + [tail]
  {
    if n == 0 {
      SplitWhole(tail, '\n');
      assert Terminated(lines, 0) + tail == tail;
    } else {
      var head := Terminated(lines, n - 1) + lines[n - 1];
      TerminatedLines(lines, n - 1, lines[n - 1]);
      SplitAppend(head, tail, '\n');
      SplitWhole(tail, '\n');
      assert Terminated(lines, n) + tail == head + "\n" + tail;
      assert lines[..n] == lines[..n - 1] + [lines[n - 1]];
    }
  }

  lemma {:induction false} TerminatedFree(lines: seq<string>, n: nat, c: char)
    requires n <= |lines| && AllFree(lines, c) && c != '\n'
    ensures c !in Terminated(lines, n)
  {
    if n > 0 { TerminatedFree(lines, n - 1, c); }
  }

  ghost predicate LineFree(lines: seq<string>) { AllFree(lines, '\n') && AllFree(lines, '\r') }

  lemma {:induction false} FlattenFree(blocks: seq<seq<string>>, n: nat)
    requires n <= |blocks| && forall i :: 0 <= i < |blocks| ==> LineFree(blocks[i])
    ensures LineFree(Flatten(blocks, n))
  {
    if n > 0 { FlattenFree(blocks, n - 1); }
  }

  /** The printed text reads back as its lines, whatever end line follows. */
  lemma BegunLines(first: string, blocks: seq<seq<string>>, last: string)
    requires LineFree([first]) && LineFree([last]) && forall i :: 0 <= i < |blocks| ==> LineFree(blocks[i])
    ensures Split(UnifyNewlines(Begun(first, blocks) + last), '\n') == [first] + Flatten(blocks, |blocks|) + [last]
    ensures '\r' !in Begun(first, blocks) + last
  {
    var body := Flatten(blocks, |blocks|);
    var lines := [first] + body;
    FlattenFree(blocks, |blocks|);
    assert [first][0] == first && [last][0] == last;
    TerminatedFree(lines, |lines|, '\r');
    UnifyFixed(Begun(first, blocks) + last);
    TerminatedLines(lines, |lines|, last);
    assert lines[..|lines|] == lines;
  }

  /** A final newline only adds an empty line. */
  lemma EndedLines(text: string)
    requires '\r' !in text
    ensures Split(UnifyNewlines(text + "\n"), '\n') == Split(UnifyNewlines(text), '\n') + [""]
  {
    UnifyFixed(text);
    UnifyFixed(text + "\n");
    SplitAppend(text, "", '\n');
    assert text + "\n" + "" == text + "\n";
  }

  // ---------------------------------------------------------------- the lines of one section

  lemma InsertLineReads(start: nat, unquote: Unquote)
    requires start <= MAX_INT
    ensures Reads(PutLine(if start == 0 then "<1" else ">" + Itoa(start)), Put(if start == 0 then Before(1) else After(start), []), unquote)
  {
    if start == 0 {
      assert Itoa(1) == "1" && "<1" == ['<'] + "1";
      GapLocatorReads('<', 1);
      PutReads("<1", Before(1), unquote);
    } else {
      GapLocatorReads('>', start);
      PutReads(">" + Itoa(start), After(start), unquote);
    }
  }

  lemma HunkLineReads(d: Diff, unquote: Unquote)
    requires d.start <= d.endBefore <= MAX_INT && d.start <= d.endAfter
    ensures Reads(HunkLine(d), KindOf(d, []), unquote)
  {
    if d.start == d.endBefore {
      InsertLineReads(d.start, unquote);
    } else {
      if d.start == d.endAfter {
        CutRangeReads(d.start + 1, d.endBefore, unquote);
      } else {
        PutRangeReads(d.start + 1, d.endBefore, unquote);
      }
    }
  }

  lemma CutRangeReads(start: nat, end: nat, unquote: Unquote)
    requires 1 <= start <= end <= MAX_INT
    ensures Reads(CutLine(RangeText(start, end)), Cut(Range(start, end), ""), unquote)
  {
    RangeTextPlain(start, end);
    RangeLocatorReads(start, end, false);
    CutReads(RangeText(start, end), Range(start, end), unquote);
  }

  lemma PutRangeReads(start: nat, end: nat, unquote: Unquote)
    requires 1 <= start <= end <= MAX_INT
    ensures Reads(PutLine(RangeText(start, end)), Put(Range(start, end), []), unquote)
  {
    RangeTextPlain(start, end);
    RangeLocatorReads(start, end, true);
    PutReads(RangeText(start, end), Range(start, end), unquote);
  }

  lemma HunkLineFree(d: Diff)
    requires d.start <= d.endBefore && d.start <= d.endAfter
    ensures HunkLine(d) != "" && HunkLine(d)[0] != '[' && LineFree([HunkLine(d)])
  {
    forall n: nat, c | c == '\n' || c == '\r' ensures c !in Itoa(n) {
    }
  }

  // ---------------------------------------------------------------- a list of one-hunk sections

  /** The lines of a section with one hunk, and what the lexer makes of them. */
  datatype Block = Block(lines: seq<string>, path: string, tag: string, kind: HunkKind)

  ghost predicate BlockReads(lex: Lexer, b: Block) {
    && |b.lines| >= 2
    && lex.header(b.lines[0]) == Some((b.path, b.tag)) && !IsRow(b.lines[0])
    && lex.header(b.lines[1]).None? && b.lines[1] != "" && lex.hunk(b.lines[1]) == Ok(b.kind)
    && (forall j :: 2 <= j < |b.lines| ==> IsRow(b.lines[j]))
    && (!b.kind.Put? ==> |b.lines| == 2)
  }

  /** A PUT that announces a body and has none. */
  predicate Hollow(b: Block) { b.kind.Put? && |b.lines| == 2 }

  function SectionOf(b: Block, sequence: nat): Section
    requires |b.lines| >= 2
  {
    Section(b.path, b.tag, [Hunk(WithBody(b.kind, Rows(b.lines, 2, |b.lines|)), sequence)])
  }

  function SectionsOf(blocks: seq<Block>, k: nat): (r: seq<Section>)
    requires k <= |blocks| && forall i :: 0 <= i < |blocks| ==> |blocks[i].lines| >= 2
    ensures |r| == |blocks| - k && forall i :: 0 <= i < |r| ==> r[i] == SectionOf(blocks[k + i], k + i)
    decreases |blocks| - k
  {
    if k == |blocks| then [] else [SectionOf(blocks[k], k)] + SectionsOf(blocks, k + 1)
  }

  /** Blocks k, k+1, ... fill the lines from i to end. */
  ghost predicate Laid(lines: seq<string>, blocks: seq<Block>, k: nat, i: nat, end: nat)
    requires k <= |blocks|
    decreases |blocks| - k
  {
    if k == |blocks| then i == end <= |lines|
    else i + |blocks[k].lines| <= end && StandsAt(lines, i, blocks[k].lines) && Laid(lines, blocks, k + 1, i + |blocks[k].lines|, end)
  }

  lemma BlockIsSection(lines: seq<string>, blocks: seq<Block>, k: nat, i: nat, end: nat, lex: Lexer)
    requires k < |blocks| && Laid(lines, blocks, k, i, end) && BlockReads(lex, blocks[k])
    requires forall j :: 0 <= j < |blocks| ==> BlockReads(lex, blocks[j])
    ensures var b := blocks[k]; end <= |lines| && SectionAt(lines, i, end, lex, b.path, b.tag, b.kind, |b.lines| - 2)
    ensures var b := blocks[k]; Rows(lines, i + 2, i + |b.lines|) == Rows(b.lines, 2, |b.lines|)
  {
    var b := blocks[k];
    LaidEnds(lines, blocks, k, i, end);
    var next := i + |b.lines|;
    forall j | i + 2 <= j < next ensures IsRow(lines[j]) {
      assert lines[i + (j - i)] == b.lines[j - i];
    }
    assert lines[i + 0] == b.lines[0] && lines[i + 1] == b.lines[1];
    if k + 1 < |blocks| {
      assert BlockReads(lex, blocks[k + 1]);
      assert lines[next + 0] == blocks[k + 1].lines[0];
    }
    var here, there := Rows(lines, i + 2, next), Rows(b.lines, 2, |b.lines|);
    forall j | 0 <= j < |here| ensures here[j] == there[j] {
      assert lines[i + (2 + j)] == b.lines[2 + j];
    }
  }

  lemma {:induction false} LaidEnds(lines: seq<string>, blocks: seq<Block>, k: nat, i: nat, end: nat)
    requires k <= |blocks| && Laid(lines, blocks, k, i, end)
    ensures i <= end <= |lines|
    decreases |blocks| - k
  {
    if k < |blocks| { LaidEnds(lines, blocks, k + 1, i + |blocks[k].lines|, end); }
  }

  /** The sections are read back when every PUT has its body ... */
  lemma {:induction false} BlocksParse(lines: seq<string>, blocks: seq<Block>, k: nat, i: nat, end: nat, lex: Lexer)
    requires k <= |blocks| && Laid(lines, blocks, k, i, end)
    requires forall j :: 0 <= j < |blocks| ==> |blocks[j].lines| >= 2
    requires forall j :: 0 <= j < |blocks| ==> BlockReads(lex, blocks[j]) && !Hollow(blocks[j])
    ensures i <= end <= |lines| && ParseSections(lines, i, end, k, lex) == Ok(SectionsOf(blocks, k))
    decreases |blocks| - k
  {
    LaidEnds(lines, blocks, k, i, end);
    if k < |blocks| {
      var b := blocks[k];
      BlockIsSection(lines, blocks, k, i, end, lex);
      SectionRead(lines, i, end, lex, b.path, b.tag, b.kind, |b.lines| - 2, k);
      BlocksParse(lines, blocks, k + 1, i + |b.lines|, end, lex);
    } else {
      assert SectionsOf(blocks, k) == [];
    }
  }

  /** ... and the patch is refused as soon as one has not. */
  lemma {:induction false} HollowRefused(lines: seq<string>, blocks: seq<Block>, k: nat, i: nat, end: nat, lex: Lexer, h: nat)
    requires k <= h < |blocks| && Laid(lines, blocks, k, i, end) && Hollow(blocks[h])
    requires forall j :: 0 <= j < |blocks| ==> BlockReads(lex, blocks[j])
    ensures i <= end <= |lines| && ParseSections(lines, i, end, k, lex).Err?
    decreases |blocks| - k
  {
    LaidEnds(lines, blocks, k, i, end);
    var b := blocks[k];
    BlockIsSection(lines, blocks, k, i, end, lex);
    if Hollow(b) {
      EmptyPutRejected(lines, i, end, lex, b.path, b.tag, b.kind, k);
    } else {
      SectionRead(lines, i, end, lex, b.path, b.tag, b.kind, |b.lines| - 2, k);
      HollowRefused(lines, blocks, k + 1, i + |b.lines|, end, lex, h);
    }
  }

  // ---------------------------------------------------------------- the printed patch

  lemma {:induction false} FlattenAt(ls: seq<seq<string>>, k: nat, n: nat)
    requires k < n <= |ls|
    ensures |Flatten(ls, k)| + |ls[k]| <= |Flatten(ls, n)|
    ensures forall j :: 0 <= j < |ls[k]| ==> Flatten(ls, n)[|Flatten(ls, k)| + j] == ls[k][j]
  {
    if k < n - 1 { FlattenAt(ls, k, n - 1); }
  }

  lemma {:induction false} LaidOut(first: string, rest: seq<string>, ls: seq<seq<string>>, blocks: seq<Block>, k: nat)
    requires k <= |blocks| == |ls| && forall i :: 0 <= i < |ls| ==> blocks[i].lines == ls[i]
    ensures Laid([first] + Flatten(ls, |ls|) + rest, blocks, k, 1 + |Flatten(ls, k)|, 1 + |Flatten(ls, |ls|)|)
    decreases |blocks| - k
  {
    if k < |blocks| {
      var lines := [first] + Flatten(ls, |ls|) + rest;
      FlattenAt(ls, k, |ls|);
      forall j | 0 <= j < |ls[k]| ensures lines[1 + |Flatten(ls, k)| + j] == ls[k][j] {
      }
      LaidOut(first, rest, ls, blocks, k + 1);
      assert |Flatten(ls, k + 1)| == |Flatten(ls, k)| + |ls[k]|;
    }
  }

  /** Blocks between the patch markers are read as the sections they stand for, with or
      without a newline after the end marker. */
  lemma MarkedBlocksParse(ls: seq<seq<string>>, blocks: seq<Block>, lex: Lexer, tail: seq<string>)
    requires tail == [] || tail == [""]
    requires |blocks| == |ls| > 0 && forall i :: 0 <= i < |ls| ==> blocks[i].lines == ls[i] && |ls[i]| >= 2
    requires forall i :: 0 <= i < |blocks| ==> BlockReads(lex, blocks[i])
    ensures var r := ParseLines([BEGIN] + Flatten(ls, |ls|) + ([END] + tail), lex);
            if forall i :: 0 <= i < |blocks| ==> !Hollow(blocks[i]) then r == Ok(SectionsOf(blocks, 0)) else r.Err?
  {
    var lines := [BEGIN] + Flatten(ls, |ls|) + ([END] + tail);
    var end := 1 + |Flatten(ls, |ls|)|;
    FlattenAt(ls, 0, |ls|);
    LaidOut(BEGIN, [END] + tail, ls, blocks, 0);
    assert lines[end] == END && END != "" && EndIndex(lines) == end;
    if h :| 0 <= h < |blocks| && Hollow(blocks[h]) {
      HollowRefused(lines, blocks, 0, 1, end, lex, h);
    } else {
      BlocksParse(lines, blocks, 0, 1, end, lex);
    }
  }

  function BlockOf(tag: string -> string, c: Change): Block {
    Block.Block(SectionLines(tag, c), c.path, tag(Normalize(c.before)), KindOf(DiffOf(LinesOf(c.before), LinesOf(c.after)), []))
  }

  /** A change the printer accepts: its path fits a header and Go can index its lines. */
  predicate Printable(c: Change) { c.path != "" && Representable(c.path) && |LinesOf(c.before)| <= MAX_INT }

  lemma BlockOfReads(tag: string -> string, c: Change, unquote: Unquote)
    requires Printable(c) && IsTag(tag(Normalize(c.before)))
    ensures BlockReads(Lexical(unquote), BlockOf(tag, c))
    ensures Hollow(BlockOf(tag, c)) <==> Normalize(c.before) == Normalize(c.after)
  {
    HeaderLexed(c.path, tag(Normalize(c.before)), unquote);
    HunkLexed(DiffOf(LinesOf(c.before), LinesOf(c.after)), |LinesOf(c.before)|, unquote);
    BlockIs(Lexical(unquote), tag, c);
    BlockHollow(tag, c);
  }

  lemma HeaderLexed(path: string, tag: string, unquote: Unquote)
    requires path != "" && Representable(path) && IsTag(tag)
    ensures Lexical(unquote).header(HeaderLine(path, tag)) == Some((path, tag)) && !IsRow(HeaderLine(path, tag))
  {
    HeaderRoundTrip(path, tag);
  }

  lemma HunkLexed(d: Diff, lines: nat, unquote: Unquote)
    requires d.start <= d.endBefore <= lines <= MAX_INT && d.start <= d.endAfter
    ensures Lexical(unquote).header(HunkLine(d)).None? && HunkLine(d) != "" && Lexical(unquote).hunk(HunkLine(d)) == Ok(KindOf(d, []))
  {
    HunkLineReads(d, unquote);
    HunkLineFree(d);
    NotHeader(HunkLine(d));
  }

  lemma BlockIs(lex: Lexer, tag: string -> string, c: Change)
    requires var header := HeaderLine(c.path, tag(Normalize(c.before)));
             lex.header(header) == Some((c.path, tag(Normalize(c.before)))) && !IsRow(header)
    requires var d := DiffOf(LinesOf(c.before), LinesOf(c.after));
             lex.header(HunkLine(d)).None? && HunkLine(d) != "" && lex.hunk(HunkLine(d)) == Ok(KindOf(d, []))
    ensures BlockReads(lex, BlockOf(tag, c))
  {
  }

  lemma BlockHollow(tag: string -> string, c: Change)
    ensures Hollow(BlockOf(tag, c)) <==> Normalize(c.before) == Normalize(c.after)
  {
    DiffSound(LinesOf(c.before), LinesOf(c.after));
    if LinesOf(c.before) == LinesOf(c.after) { SplitInjective(Normalize(c.before), Normalize(c.after), '\n'); }
  }

  lemma HeaderFree(path: string, tag: string)
    requires Representable(path) && IsTag(tag)
    ensures LineFree([HeaderLine(path, tag)])
  {
    forall c | c == '\n' || c == '\r' ensures c !in tag {
      assert forall i :: 0 <= i < 4 ==> IsHex(tag[i]);
    }
  }

  lemma RowsFree(lines: seq<string>, i: nat, k: nat)
    requires i <= k <= |lines| && LineFree(lines)
    ensures LineFree(PlusRows(lines, i, k))
  {
  }

  lemma FreeParts(header: string, hunk: string, rows: seq<string>)
    requires LineFree([header]) && LineFree([hunk]) && LineFree(rows)
    ensures LineFree([header, hunk] + rows)
  {
    assert [header][0] == header && [hunk][0] == hunk;
  }

  lemma BlockFree(tag: string -> string, c: Change)
    requires Printable(c) && IsTag(tag(Normalize(c.before)))
    ensures LineFree(SectionLines(tag, c))
  {
    var a := LinesOf(c.after);
    var d := DiffOf(LinesOf(c.before), a);
    SplitFree(Normalize(c.after), '\n');
    HunkLineFree(d);
    HeaderFree(c.path, tag(Normalize(c.before)));
    RowsFree(a, d.start, d.endAfter);
    FreeParts(HeaderLine(c.path, tag(Normalize(c.before))), HunkLine(d), PlusRows(a, d.start, d.endAfter));
  }

  type Framer = Change -> Block

  function Framing(tag: string -> string): Framer { (c: Change) => BlockOf(tag, c) }

  function BlocksOf(frame: Framer, ds: seq<Change>, n: nat): (blocks: seq<Block>)
    requires n <= |ds|
    ensures |blocks| == n && forall i :: 0 <= i < n ==> blocks[i] == frame(ds[i])
  {
    if n == 0 then [] else BlocksOf(frame, ds, n - 1) + [frame(ds[n - 1])]
  }

  ghost predicate Visible(c: Change) { Normalize(c.before) != Normalize(c.after) }

  /** Changes name files by their workspace paths. */
  ghost predicate Canonical(host: Host, ds: seq<Change>) { forall i :: 0 <= i < |ds| ==> host.resolve(ds[i].path) == Some(ds[i].path) }

  ghost predicate AllPrintable(host: Host, ds: seq<Change>) {
    (forall text :: IsTag(host.tag(text))) && Canonical(host, ds) && forall i :: 0 <= i < |ds| ==> Printable(ds[i])
  }

  /** The printed lines and what they stand for. */
  ghost predicate Stands(ls: seq<seq<string>>, blocks: seq<Block>, lex: Lexer) {
    && |blocks| == |ls| > 0
    && (forall i :: 0 <= i < |ls| ==> blocks[i].lines == ls[i] && |ls[i]| >= 2 && LineFree(ls[i]))
    && (forall i :: 0 <= i < |blocks| ==> BlockReads(lex, blocks[i]))
  }

  ghost predicate NoneHollow(blocks: seq<Block>) { forall i :: 0 <= i < |blocks| ==> !Hollow(blocks[i]) }

  lemma StandingParses(ls: seq<seq<string>>, blocks: seq<Block>, unquote: Unquote)
    requires Stands(ls, blocks, Lexical(unquote)) && forall i :: 0 <= i < |blocks| ==> |blocks[i].lines| >= 2
    ensures var r := Parse(Begun(BEGIN, ls) + END, unquote); if NoneHollow(blocks) then r == Ok(SectionsOf(blocks, 0)) else r.Err?
    ensures Parse(Begun(BEGIN, ls) + END + "\n", unquote) == Parse(Begun(BEGIN, ls) + END, unquote) || !NoneHollow(blocks)
  {
    MarkersFree();
    BegunLines(BEGIN, ls, END);
    EndedLines(Begun(BEGIN, ls) + END);
    var body := [BEGIN] + Flatten(ls, |ls|);
    assert [END] + [] == [END] && body + ([END] + [""]) == body + [END] + [""];
    MarkedBlocksParse(ls, blocks, Lexical(unquote), []);
    MarkedBlocksParse(ls, blocks, Lexical(unquote), [""]);
  }

  /** One change is printed as lines that read back as its block. */
  ghost predicate ChangeReads(section: SectionPrinter, frame: Framer, lex: Lexer, c: Change) {
    && frame(c).lines == section(c) && |section(c)| >= 2 && LineFree(section(c))
    && BlockReads(lex, frame(c)) && (Hollow(frame(c)) <==> !Visible(c))
  }

  lemma PrintedChangeReads(tag: string -> string, c: Change, unquote: Unquote)
    requires Printable(c) && IsTag(tag(Normalize(c.before)))
    ensures ChangeReads(Printer(tag), Framing(tag), Lexical(unquote), c)
  {
    BlockOfReads(tag, c, unquote);
    BlockFree(tag, c);
  }

  lemma ChangesParse(section: SectionPrinter, frame: Framer, ds: seq<Change>, unquote: Unquote)
    requires ds != [] && forall i :: 0 <= i < |ds| ==> ChangeReads(section, frame, Lexical(unquote), ds[i])
    ensures var blocks := BlocksOf(frame, ds, |ds|);
            var r := Parse(Begun(BEGIN, Blocks(section, ds, |ds|)) + END, unquote);
            && (forall i :: 0 <= i < |blocks| ==> |blocks[i].lines| >= 2)
            && (if forall i :: 0 <= i < |ds| ==> Visible(ds[i]) then r == Ok(SectionsOf(blocks, 0)) else r.Err?)
  {
    var blocks, ls := BlocksOf(frame, ds, |ds|), Blocks(section, ds, |ds|);
    forall i | 0 <= i < |ds|
      ensures blocks[i].lines == ls[i] && |ls[i]| >= 2 && BlockReads(Lexical(unquote), blocks[i]) && LineFree(ls[i])
      ensures Hollow(blocks[i]) <==> !Visible(ds[i])
    {
      assert ChangeReads(section, frame, Lexical(unquote), ds[i]);
    }
    StandingParses(ls, blocks, unquote);
  }

  /** Parsing the printed patch gives one section per change, in order, exactly when no
      change is lost to normalization. */
  lemma PrintedParses(host: Host, ds: seq<Change>)
    requires ds != [] && AllPrintable(host, ds)
    ensures var blocks := BlocksOf(Framing(host.tag), ds, |ds|);
            var r := Parse(PatchText(host.tag, ds), host.unquote);
            && (forall i :: 0 <= i < |blocks| ==> |blocks[i].lines| >= 2)
            && (if forall i :: 0 <= i < |ds| ==> Visible(ds[i]) then r == Ok(SectionsOf(blocks, 0)) else r.Err?)
  {
    forall i | 0 <= i < |ds| ensures ChangeReads(Printer(host.tag), Framing(host.tag), Lexical(host.unquote), ds[i]) {
      PrintedChangeReads(host.tag, ds[i], host.unquote);
    }
    ChangesParse(Printer(host.tag), Framing(host.tag), ds, host.unquote);
  }

  lemma MarkersFree()
    ensures LineFree([BEGIN]) && LineFree([END])
  {
  }

  // ---------------------------------------------------------------- preparing the printed patch

  /** The edit a trimmed diff stands for. */
  function ActionOf(d: Diff, body: seq<string>, sequence: nat): Action {
    if d.start == d.endBefore then Insert(d.start, body, sequence) else Replace(d.start + 1, d.endBefore, body, sequence)
  }

  function DraftOf(host: Host, files: Files, c: Change, sequence: nat): Draft
    requires c.path in files
  {
    var b, a := LinesOf(c.before), LinesOf(c.after);
    var d := DiffOf(b, a);
    Draft(c.path, c.path, host.tag(Normalize(c.before)), files[c.path], Normalize(c.before), b, [ActionOf(d, a[d.start..d.endAfter], sequence)], false, false)
  }

  /** Applying the trimmed diff gives the new lines. */
  lemma ActionYields(b: seq<string>, a: seq<string>, sequence: nat)
    ensures var d := DiffOf(b, a); var action := ActionOf(d, a[d.start..d.endAfter], sequence);
            Fits(action, |b|) && Declared(b, [action]) == a
  {
    var d := DiffOf(b, a);
    var action := ActionOf(d, a[d.start..d.endAfter], sequence);
    DiffSound(b, a);
    BottomUpAgrees(b, [action], [action]);
    assert ApplyEach(b, [action]) == (true, ApplyOne(b, action)) by {
      assert [action][..0] == [];
    }
  }

  lemma DraftYields(host: Host, files: Files, c: Change, sequence: nat)
    requires c.path in files
    ensures var d := DraftOf(host, files, c, sequence);
            OutputOf(d) == Output(c.path, c.path, files[c.path], Normalize(c.before), Normalize(c.after), false, false) && Valid(d.actions)
  {
    ActionYields(LinesOf(c.before), LinesOf(c.after), sequence);
    JoinSplit(Normalize(c.after), '\n');
  }

  /** The section read back from a printed change. */
  lemma SectionOfChange(tag: string -> string, c: Change, k: nat)
    ensures var b, a := LinesOf(c.before), LinesOf(c.after); var d := DiffOf(b, a);
            |BlockOf(tag, c).lines| >= 2 &&
            SectionOf(BlockOf(tag, c), k) == Section(c.path, tag(Normalize(c.before)), [Hunk(KindOf(d, a[d.start..d.endAfter]), k)])
  {
    var a := LinesOf(c.after);
    var d := DiffOf(LinesOf(c.before), a);
    RowsBack(HeaderLine(c.path, tag(Normalize(c.before))), HunkLine(d), a, d.start, d.endAfter);
  }

  lemma RowsBack(header: string, hunk: string, a: seq<string>, i: nat, k: nat)
    requires i <= k <= |a|
    ensures var lines := [header, hunk] + PlusRows(a, i, k); Rows(lines, 2, |lines|) == a[i..k]
  {
    var lines := [header, hunk] + PlusRows(a, i, k);
    var rows := Rows(lines, 2, |lines|);
    forall j | 0 <= j < |rows| ensures rows[j] == a[i..k][j] {
      assert lines[2 + j] == "+" + a[i + j];
      assert ("+" + a[i + j])[1..] == a[i + j];
    }
  }

  /** Resolving the printed hunk against the file gives the action of the diff. */
  lemma PrintedHunkPrepares(host: Host, clipboard: Registers, p: Progress, path: string, d: Diff, body: seq<string>, k: nat)
    requires path in p.drafts && d.start <= d.endBefore <= |p.drafts[path].lines| && |p.drafts[path].lines| >= 1
    requires d.start == d.endAfter ==> body == []
    ensures var r := PrepareHunk(host, clipboard, p, path, true, Hunk(KindOf(d, body), k));
            r.Ok? && r.value.drafts == WithAction(p, path, ActionOf(d, body, k)).drafts && r.value.order == p.order && r.value.registers == p.registers
  {
  }

  /** Preparing a section adds one draft. */
  ghost predicate Adds(advance: Advance, s: Section, path: string, d: Draft) {
    forall p: Progress :: path !in p.drafts ==>
      advance(p, s).Ok? && advance(p, s).value.drafts == p.drafts[path := d] && advance(p, s).value.order == p.order + [path] && advance(p, s).value.registers == p.registers
  }

  lemma PrintedSectionAdds(host: Host, clipboard: Registers, files: Files, c: Change, k: nat)
    requires c.path in files && files[c.path].data == c.before && |BlockOf(host.tag, c).lines| >= 2 && host.resolve(c.path) == Some(c.path)
    ensures Adds(PatchAdvance(host, clipboard, files), SectionOf(BlockOf(host.tag, c), k), c.path, DraftOf(host, files, c, k))
  {
    var s, advance := SectionOf(BlockOf(host.tag, c), k), PatchAdvance(host, clipboard, files);
    SectionOfChange(host.tag, c, k);
    forall p: Progress | c.path !in p.drafts
      ensures advance(p, s).Ok? && advance(p, s).value.drafts == p.drafts[c.path := DraftOf(host, files, c, k)]
      ensures advance(p, s).value.order == p.order + [c.path] && advance(p, s).value.registers == p.registers
    {
      PrintedSectionPrepares(host, clipboard, files, p, c, k, s);
    }
  }

  lemma PrintedSectionPrepares(host: Host, clipboard: Registers, files: Files, p: Progress, c: Change, k: nat, s: Section)
    requires c.path in files && files[c.path].data == c.before && c.path !in p.drafts && host.resolve(c.path) == Some(c.path)
    requires var b, a := LinesOf(c.before), LinesOf(c.after); var d := DiffOf(b, a);
             s == Section(c.path, host.tag(Normalize(c.before)), [Hunk(KindOf(d, a[d.start..d.endAfter]), k)])
    ensures var r := PrepareSection(host, clipboard, files, p, s);
            r.Ok? && r.value.drafts == p.drafts[c.path := DraftOf(host, files, c, k)] && r.value.order == p.order + [c.path] && r.value.registers == p.registers
  {
    var b, a := LinesOf(c.before), LinesOf(c.after);
    var d := DiffOf(b, a);
    var ready := OpenDraft(host, files, p, s.path, s.tag).value;
    var step := SectionStep(host, clipboard, s.path, true);
    PrintedHunkPrepares(host, clipboard, ready, c.path, d, a[d.start..d.endAfter], k);
    var next := PrepareHunk(host, clipboard, ready, c.path, true, s.hunks[0]).value;
    assert step(ready, s.hunks[0]) == Ok(next);
    assert PrepareHunks(step, next, s.hunks, 1) == Ok(next);
    assert [] + [ActionOf(d, a[d.start..d.endAfter], k)] == [ActionOf(d, a[d.start..d.endAfter], k)];
  }

  /** Progress after some sections, each of which added its own draft. */
  ghost predicate Collected(p: Progress, paths: seq<string>, drafts: seq<Draft>, k: nat) {
    && k <= |paths| == |drafts| && p.order == paths[..k] && p.registers == map[]
    && (forall path :: path in p.drafts ==> path in paths[..k])
    && (forall i :: 0 <= i < k ==> paths[i] in p.drafts && p.drafts[paths[i]] == drafts[i])
  }

  lemma CollectOne(p: Progress, q: Progress, paths: seq<string>, drafts: seq<Draft>, k: nat)
    requires k < |paths| && NoRepeats(paths) && Collected(p, paths, drafts, k)
    requires q.drafts == p.drafts[paths[k] := drafts[k]] && q.order == p.order + [paths[k]] && q.registers == p.registers
    ensures Collected(q, paths, drafts, k + 1)
  {
    assert paths[..k + 1] == paths[..k] + [paths[k]];
  }

  lemma {:induction false} AllCollected(advance: Advance, p: Progress, sections: seq<Section>, paths: seq<string>, drafts: seq<Draft>, k: nat)
    requires k <= |sections| == |paths| == |drafts| && NoRepeats(paths) && Collected(p, paths, drafts, k)
    requires forall i :: 0 <= i < |sections| ==> Adds(advance, sections[i], paths[i], drafts[i])
    ensures var r := PrepareSections(advance, p, sections, k); r.Ok? && Collected(r.value, paths, drafts, |paths|)
    decreases |sections| - k
  {
    if k < |sections| {
      assert Adds(advance, sections[k], paths[k], drafts[k]);
      assert paths[k] !in paths[..k];
      CollectOne(p, advance(p, sections[k]).value, paths, drafts, k);
      AllCollected(advance, advance(p, sections[k]).value, sections, paths, drafts, k + 1);
    }
  }

  lemma AllFinish(p: Progress, paths: seq<string>, drafts: seq<Draft>, outputs: seq<Output>)
    requires p.order == paths && |drafts| == |paths| == |outputs|
    requires forall i :: 0 <= i < |paths| ==> paths[i] in p.drafts && p.drafts[paths[i]] == drafts[i]
    requires forall i :: 0 <= i < |drafts| ==> Valid(drafts[i].actions) && OutputOf(drafts[i]) == outputs[i]
    ensures Finish(p, 0) == Ok(outputs)
  {
    FinishFrom(OutputOf, p, drafts, outputs, 0);
    assert outputs[0..] == outputs;
  }

  lemma {:induction false} FinishFrom(render: Render, p: Progress, drafts: seq<Draft>, outputs: seq<Output>, k: nat)
    requires |drafts| == |p.order| == |outputs| && k <= |p.order|
    requires forall i :: 0 <= i < |drafts| ==> p.order[i] in p.drafts && p.drafts[p.order[i]] == drafts[i]
    requires forall i :: 0 <= i < |drafts| ==> Valid(drafts[i].actions) && render(drafts[i]) == outputs[i]
    ensures FinishWith(render, p, k) == Ok(outputs[k..])
    decreases |p.order| - k
  {
    if k < |p.order| {
      FinishFrom(render, p, drafts, outputs, k + 1);
      FinishOne(render, p, k, drafts[k], outputs[k + 1..]);
      assert outputs[k..] == [outputs[k]] + outputs[k + 1..];
    } else {
      assert outputs[k..] == [];
    }
  }

  lemma FinishOne(render: Render, p: Progress, k: nat, d: Draft, rest: seq<Output>)
    requires k < |p.order| && p.order[k] in p.drafts && p.drafts[p.order[k]] == d && Valid(d.actions) && FinishWith(render, p, k + 1) == Ok(rest)
    ensures FinishWith(render, p, k) == Ok([render(d)] + rest)
  {
  }

  function PathsOf(ds: seq<Change>, n: nat): (r: seq<string>)
    requires n <= |ds|
    ensures |r| == n && forall i :: 0 <= i < n ==> r[i] == ds[i].path
  {
    if n == 0 then [] else PathsOf(ds, n - 1) + [ds[n - 1].path]
  }

  function DraftsOf(host: Host, files: Files, ds: seq<Change>, n: nat): (r: seq<Draft>)
    requires n <= |ds| && forall i :: 0 <= i < |ds| ==> ds[i].path in files
    ensures |r| == n && forall i :: 0 <= i < n ==> r[i] == DraftOf(host, files, ds[i], i)
  {
    if n == 0 then [] else DraftsOf(host, files, ds, n - 1) + [DraftOf(host, files, ds[n - 1], n - 1)]
  }

  function RewriteOf(files: Files, c: Change): Output
    requires c.path in files
  {
    Output(c.path, c.path, files[c.path], Normalize(c.before), Normalize(c.after), false, false)
  }

  function RewritesOf(files: Files, ds: seq<Change>, n: nat): (r: seq<Output>)
    requires n <= |ds| && forall i :: 0 <= i < |ds| ==> ds[i].path in files
    ensures |r| == n && forall i :: 0 <= i < n ==> r[i] == RewriteOf(files, ds[i])
  {
    if n == 0 then [] else RewritesOf(files, ds, n - 1) + [RewriteOf(files, ds[n - 1])]
  }

  /** The changes describe distinct files as they are on disk. */
  ghost predicate OnDisk(files: Files, ds: seq<Change>) {
    && (forall i :: 0 <= i < |ds| ==> ds[i].path in files && files[ds[i].path].data == ds[i].before)
    && NoRepeats(PathsOf(ds, |ds|))
  }

  lemma PrintedFinishes(host: Host, clipboard: Registers, files: Files, ds: seq<Change>, sections: seq<Section>)
    requires OnDisk(files, ds) && Canonical(host, ds) && |sections| == |ds|
    requires forall i :: 0 <= i < |ds| ==> |BlockOf(host.tag, ds[i]).lines| >= 2 && sections[i] == SectionOf(BlockOf(host.tag, ds[i]), i)
    ensures var r := PrepareSections(PatchAdvance(host, clipboard, files), NO_PROGRESS, sections, 0);
            r.Ok? && r.value.registers == map[] && Finish(r.value, 0) == Ok(RewritesOf(files, ds, |ds|))
  {
    var advance, paths, drafts := PatchAdvance(host, clipboard, files), PathsOf(ds, |ds|), DraftsOf(host, files, ds, |ds|);
    forall i | 0 <= i < |ds| ensures Adds(advance, sections[i], paths[i], drafts[i]) {
      PrintedSectionAdds(host, clipboard, files, ds[i], i);
    }
    assert paths[..0] == [];
    AllCollected(advance, NO_PROGRESS, sections, paths, drafts, 0);
    var p := PrepareSections(advance, NO_PROGRESS, sections, 0).value;
    var outputs := RewritesOf(files, ds, |ds|);
    forall i | 0 <= i < |drafts| ensures Valid(drafts[i].actions) && OutputOf(drafts[i]) == outputs[i] {
      DraftYields(host, files, ds[i], i);
    }
    AllFinish(p, paths, drafts, outputs);
  }

  /** Preparing the sections read back from a printed patch: every file gets its new text. */
  lemma PrintedPrepares(host: Host, clipboard: Registers, files: Files, ds: seq<Change>, sections: seq<Section>)
    requires OnDisk(files, ds) && Canonical(host, ds) && |sections| == |ds| && ds != [] && Visible(ds[0])
    requires forall i :: 0 <= i < |ds| ==> |BlockOf(host.tag, ds[i]).lines| >= 2 && sections[i] == SectionOf(BlockOf(host.tag, ds[i]), i)
    ensures Prepare(host, clipboard, files, sections) == Ok((RewritesOf(files, ds, |ds|), map[]))
  {
    PrintedFinishes(host, clipboard, files, ds, sections);
    RewritesDistinct(files, ds);
    RewritesAccepted(files, RewritesOf(files, ds, |ds|));
    FinishedPrepares(host, clipboard, files, sections, RewritesOf(files, ds, |ds|));
  }

  lemma FinishedPrepares(host: Host, clipboard: Registers, files: Files, sections: seq<Section>, outputs: seq<Output>)
    requires var r := PrepareSections(PatchAdvance(host, clipboard, files), NO_PROGRESS, sections, 0);
             r.Ok? && r.value.registers == map[] && Finish(r.value, 0) == Ok(outputs)
    requires Accept(files, outputs, map[]) == Ok((outputs, map[]))
    ensures Prepare(host, clipboard, files, sections) == Ok((outputs, map[]))
  {
  }

  lemma RewritesDistinct(files: Files, ds: seq<Change>)
    requires OnDisk(files, ds) && ds != [] && Visible(ds[0])
    ensures var outputs := RewritesOf(files, ds, |ds|);
            && outputs != [] && outputs[0].final != outputs[0].text
            && (forall i :: 0 <= i < |outputs| ==> outputs[i].source == outputs[i].destination)
            && (forall i, j :: 0 <= i < j < |outputs| ==> outputs[i].destination != outputs[j].destination)
  {
    var outputs, paths := RewritesOf(files, ds, |ds|), PathsOf(ds, |ds|);
    forall i, j | 0 <= i < j < |outputs| ensures outputs[i].destination != outputs[j].destination { assert paths[i] != paths[j]; }
  }

  lemma RewritesAccepted(files: Files, outputs: seq<Output>)
    requires outputs != [] && outputs[0].final != outputs[0].text
    requires forall i :: 0 <= i < |outputs| ==> outputs[i].source == outputs[i].destination
    requires forall i, j :: 0 <= i < j < |outputs| ==> outputs[i].destination != outputs[j].destination
    ensures Accept(files, outputs, map[]) == Ok((outputs, map[]))
  {
    assert Changes(outputs[0]);
  }

  /** The files once every change has been made; modes are kept. */
  ghost predicate Rewritten(files: Files, ds: seq<Change>, now: Files) {
    && now.Keys == files.Keys
    && (forall i :: 0 <= i < |ds| && ds[i].path in files && ds[i].path in now ==> now[ds[i].path] == FileState(Normalize(ds[i].after), files[ds[i].path].mode))
    && (forall path :: path in files && path in now && path !in PathsOf(ds, |ds|) ==> now[path] == files[path])
  }

  lemma RewritesUpdate(files: Files, ds: seq<Change>)
    requires OnDisk(files, ds)
    ensures Rewritten(files, ds, Updated(files, RewritesOf(files, ds, |ds|)))
  {
    var outputs, paths := RewritesOf(files, ds, |ds|), PathsOf(ds, |ds|);
    var now := Updated(files, outputs);
    assert DestinationsOk(files, outputs) by {
      forall i, j | 0 <= i < j < |outputs| ensures outputs[i].destination != outputs[j].destination {
        assert paths[i] != paths[j];
      }
    }
    forall path ensures path in now <==> path in files {
      UpdatedAt(files, outputs, path);
      if path in paths {
        var i :| 0 <= i < |paths| && paths[i] == path;
        assert outputs[i].destination == path;
      }
    }
    forall i | 0 <= i < |ds| ensures now[ds[i].path] == FileState(Normalize(ds[i].after), files[ds[i].path].mode) {
      UpdatedAt(files, outputs, ds[i].path);
      assert outputs[i].destination == ds[i].path;
    }
    forall path | path in files && path !in paths ensures now[path] == files[path] {
      UpdatedAt(files, outputs, path);
      forall i | 0 <= i < |outputs| ensures outputs[i].destination != path {
        assert paths[i] in paths;
      }
    }
  }

  /** Main theorem. For changes that describe distinct files as they are on disk, the printed
      patch is accepted if and only if normalization hides none of the changes, and then it
      turns every file into its normalized new text and leaves every other file alone. */
  lemma PrintedPatchRoundTrip(host: Host, clipboard: Registers, files: Files, ds: seq<Change>)
    requires ds != [] && AllPrintable(host, ds) && OnDisk(files, ds)
    ensures var r := HashlineDriver.Executed(host, clipboard, files, PatchText(host.tag, ds));
            && (r.Some? <==> forall i :: 0 <= i < |ds| ==> Visible(ds[i]))
            && (r.Some? ==> Rewritten(files, ds, r.value))
  {
    PrintedParses(host, ds);
    if forall i :: 0 <= i < |ds| ==> Visible(ds[i]) {
      var sections := SectionsOf(BlocksOf(Framing(host.tag), ds, |ds|), 0);
      PrintedPrepares(host, clipboard, files, ds, sections);
      HashlineDriver.ExecutedAs(host, clipboard, files, PatchText(host.tag, ds), sections, RewritesOf(files, ds, |ds|), map[]);
      RewritesUpdate(files, ds);
    } else {
      HashlineDriver.ExecutedNot(host, clipboard, files, PatchText(host.tag, ds));
    }
  }
}
