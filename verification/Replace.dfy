/** The replace tool of internal/agent/replace.go: it reads a file through the numbered view,
    strips the view, applies unique replacements and prints a patch that overwrites the file. */
module Replace {
  import opened Common
  import opened Text
  import opened HashlinePatch
  import opened HashlineApply
  import opened HashlinePrepare
  import opened HashlineCommit
  import opened NativeEdits
  import opened NativeRoundTrip
  import HashlineDriver

  // ---------------------------------------------------------------- the numbered view

  function NumberedLine(number: nat, line: string): string { Itoa(number) + ":" + line }

  function NumberedLines(lines: seq<string>, n: nat): (r: seq<string>)
    requires n <= |lines|
    ensures |r| == n && forall i :: 0 <= i < n ==> r[i] == NumberedLine(i + 1, lines[i])
  {
    if n == 0 then [] else NumberedLines(lines, n - 1) + [NumberedLine(n, lines[n - 1])]
  }

  /** What read_file shows of a file that fits the read window (coding_core.go). */
  function View(path: string, tag: string, text: string): string {
    if text == "" then HeaderLine(path, tag)
    else
      var lines := Split(text, '\n');
      HeaderLine(path, tag) + "\n" + Join(NumberedLines(lines, |lines|), '\n')
  }

  /** The index of the first ':' from k on, or the length. */
  function Colon(line: string, k: nat): (r: nat)
    requires k <= |line|
    ensures k <= r <= |line| && (r < |line| ==> line[r] == ':')
    decreases |line| - k
  {
    if k == |line| || line[k] == ':' then k else Colon(line, k + 1)
  }

  predicate LooksLikeHeader(line: string) { HasPrefix(line, "[") && HasSuffix(line, "]") }

  predicate CountsAsLine(line: string) {
    var k := Colon(line, 0);
    0 < k < |line| && Atoi(line[..k]).Some?
  }

  function CountLines(lines: seq<string>, n: nat): nat
    requires 1 <= n <= |lines|
  {
    if n == 1 then 0 else CountLines(lines, n - 1) + (if CountsAsLine(lines[n - 1]) then 1 else 0)
  }

  function StrippedLines(lines: seq<string>, n: nat): seq<string>
    requires 1 <= n <= |lines|
  {
    if n == 1 then []
    else
      var line := lines[n - 1];
      var k := Colon(line, 0);
      StrippedLines(lines, n - 1) + (if k < |line| then [line[k + 1..]] else [])
  }

  /** hashlineHeaderAndCount. */
  method HeaderAndCount(content: string) returns (header: string, count: nat)
    ensures var lines := Split(content, '\n');
            if LooksLikeHeader(lines[0]) then header == lines[0] && count == CountLines(lines, |lines|) else header == "" && count == 0
  {
    var lines := Split(content, '\n');
    if !HasPrefix(lines[0], "[") || !HasSuffix(lines[0], "]") {
      return "", 0;
    }
    count := 0;
    for k := 1 to |lines|
      invariant count == CountLines(lines, k)
    {
      var separator := Colon(lines[k], 0);
      if 0 < separator < |lines[k]| {
        var number := Atoi(lines[k][..separator]);
        if number.Some? {
          count := count + 1;
        }
      }
    }
    header := lines[0];
  }

  /** hashlineSourceText. */
  method SourceText(content: string) returns (text: string)
    ensures var lines := Split(content, '\n');
            text == if LooksLikeHeader(lines[0]) then Join(StrippedLines(lines, |lines|), '\n') else ""
  {
    var lines := Split(content, '\n');
    if !HasPrefix(lines[0], "[") || !HasSuffix(lines[0], "]") {
      return "";
    }
    var body: seq<string> := [];
    for k := 1 to |lines|
      invariant body == StrippedLines(lines, k)
    {
      var i := Colon(lines[k], 0);
      if i < |lines[k]| {
        body := body + [lines[k][i + 1..]];
      }
    }
    text := Join(body, '\n');
  }

  lemma {:induction false} ColonAfterDigits(digits: string, rest: string, k: nat)
    requires k <= |digits| && ':' !in digits
    ensures Colon(digits + ":" + rest, k) == |digits|
    decreases |digits| - k
  {
    if k < |digits| {
      assert (digits + ":" + rest)[k] == digits[k];
      ColonAfterDigits(digits, rest, k + 1);
    }
  }

  lemma NumberedLineStrips(number: nat, line: string)
    requires 1 <= number <= MAX_INT
    ensures var s := NumberedLine(number, line); CountsAsLine(s) && Colon(s, 0) < |s| && s[Colon(s, 0) + 1..] == line
  {
    var s := NumberedLine(number, line);
    ColonAfterDigits(Itoa(number), line, 0);
    assert s[..|Itoa(number)|] == Itoa(number) && s[|Itoa(number)| + 1..] == line;
    AtoiItoa(number);
  }

  /** Stripping a header and numbered lines gives the lines back. */
  lemma {:induction false} ViewLinesStrip(shown: seq<string>, lines: seq<string>, n: nat)
    requires n <= |lines| <= MAX_INT && |shown| == |lines| + 1
    requires forall i :: 0 <= i < |lines| ==> shown[i + 1] == NumberedLine(i + 1, lines[i])
    ensures CountLines(shown, n + 1) == n && StrippedLines(shown, n + 1) == lines[..n]
  {
    if n > 0 {
      ViewLinesStrip(shown, lines, n - 1);
      NumberedLineStrips(n, lines[n - 1]);
      assert shown[(n - 1) + 1] == NumberedLine(n, lines[n - 1]);
      assert lines[..n] == lines[..n - 1] + [lines[n - 1]];
    }
  }

  lemma ViewSplits(path: string, tag: string, text: string)
    requires IsPath(path) && IsTag(tag)
    ensures var shown := Split(View(path, tag, text), '\n'); var lines := Split(text, '\n');
            LooksLikeHeader(shown[0]) && shown == [HeaderLine(path, tag)] + (if text == "" then [] else NumberedLines(lines, |lines|))
  {
    var header, lines := HeaderLine(path, tag), Split(text, '\n');
    assert '\n' !in header by {
      assert forall i :: 0 <= i < 4 ==> IsHex(tag[i]);
    }
    assert header[..1] == "[" && header[|header| - 1..] == "]";
    if text == "" {
      SplitWhole(header, '\n');
    } else {
      var numbered := NumberedLines(lines, |lines|);
      SplitFree(text, '\n');
      assert AllFree(numbered, '\n');
      SplitHead(header, Join(numbered, '\n'), '\n');
      SplitJoin(numbered, '\n');
    }
  }

  /** Stripping the numbered view recovers the text and counts its lines; the empty file has
      no numbered line. */
  lemma ViewStrips(path: string, tag: string, text: string)
    requires IsPath(path) && IsTag(tag) && |Split(text, '\n')| <= MAX_INT
    ensures var shown := Split(View(path, tag, text), '\n');
            && shown[0] == HeaderLine(path, tag) && LooksLikeHeader(shown[0])
            && CountLines(shown, |shown|) == (if text == "" then 0 else |Split(text, '\n')|)
            && Join(StrippedLines(shown, |shown|), '\n') == text
  {
    ViewSplits(path, tag, text);
    if text != "" {
      ShownStrips(HeaderLine(path, tag), text);
    } else {
      EmptyStrips(HeaderLine(path, tag));
    }
  }

  lemma ShownStrips(header: string, text: string)
    requires |Split(text, '\n')| <= MAX_INT
    ensures var lines := Split(text, '\n');
            var shown := [header] + NumberedLines(lines, |lines|);
            |shown| == |lines| + 1 && CountLines(shown, |shown|) == |lines| && Join(StrippedLines(shown, |shown|), '\n') == text
  {
    var lines := Split(text, '\n');
    var shown := [header] + NumberedLines(lines, |lines|);
    assert forall i :: 0 <= i < |lines| ==> shown[i + 1] == NumberedLines(lines, |lines|)[i];
    ViewLinesStrip(shown, lines, |lines|);
    assert lines[..|lines|] == lines;
    JoinSplit(text, '\n');
  }

  lemma EmptyStrips(header: string)
    ensures var shown := [header] + []; CountLines(shown, |shown|) == 0 && Join(StrippedLines(shown, |shown|), '\n') == ""
  {
  }

  // ---------------------------------------------------------------- unique replacements

  datatype Edit = Edit(oldText: string, newText: string)
  datatype EditError = EmptyOldText | OldTextNotFound | OldTextNotUnique

  /** strings.Count for a non-empty needle: occurrences that do not overlap. */
  function Count(s: string, needle: string, from: nat): nat
    requires from <= |s| && needle != ""
    decreases |s| - from
  {
    match Find(s, needle, from)
    case None => 0
    case Some(at) => 1 + Count(s, needle, at + |needle|)
  }

  /** strings.Replace(s, old, new, 1). */
  function ReplaceFirst(s: string, edit: Edit): string
    requires edit.oldText != ""
  {
    match Find(s, edit.oldText, 0)
    case None => s
    case Some(at) => s[..at] + edit.newText + s[at + |edit.oldText|..]
  }

  function ApplyEdits(content: string, edits: seq<Edit>, k: nat): Result<string, EditError>
    requires k <= |edits|
    decreases |edits| - k
  {
    if k == |edits| then Ok(content)
    else if edits[k].oldText == "" then Err(EmptyOldText)
    else
      var n := Count(content, edits[k].oldText, 0);
      if n == 0 then Err(OldTextNotFound)
      else if n > 1 then Err(OldTextNotUnique)
      else ApplyEdits(ReplaceFirst(content, edits[k]), edits, k + 1)
  }

  /** applyUniqueReplaces. */
  method ApplyUniqueReplaces(content: string, edits: seq<Edit>) returns (r: Result<string, EditError>)
    ensures r == ApplyEdits(content, edits, 0)
  {
    var updated := content;
    for k := 0 to |edits|
      invariant ApplyEdits(content, edits, 0) == ApplyEdits(updated, edits, k)
    {
      if edits[k].oldText == "" {
        return Err(EmptyOldText);
      }
      var n := Count(updated, edits[k].oldText, 0);
      if n == 0 {
        return Err(OldTextNotFound);
      } else if n > 1 {
        return Err(OldTextNotUnique);
      }
      updated := ReplaceFirst(updated, edits[k]);
    }
    return Ok(updated);
  }

  ghost predicate OccursOnce(s: string, needle: string, at: nat) {
    OccursAt(s, needle, at) && forall k: nat :: OccursAt(s, needle, k) ==> k == at
  }

  /** The code accepts an old text exactly when all its occurrences begin inside the first
      one; the tool description asks for exactly one occurrence. */
  lemma AcceptedExactly(s: string, needle: string)
    requires needle != ""
    ensures Count(s, needle, 0) == 1 <==> exists at: nat :: OccursAt(s, needle, at) && forall k: nat :: OccursAt(s, needle, k) ==> at <= k < at + |needle|
  {
    var first := Find(s, needle, 0);
    if first.Some? {
      var at := first.value;
      assert OccursAt(s, needle, at);
      var second := Find(s, needle, at + |needle|);
      if second.None? {
        forall k: nat | OccursAt(s, needle, k) ensures at <= k < at + |needle| {
        }
      } else {
        assert OccursAt(s, needle, second.value);
        forall x: nat | OccursAt(s, needle, x) ensures exists k: nat :: OccursAt(s, needle, k) && !(x <= k < x + |needle|) {
          if x <= at { assert !(x <= second.value < x + |needle|); } else { assert !(x <= at < x + |needle|); }
        }
      }
    }
  }

  /** Exactly one occurrence is enough to be accepted, and then that occurrence is replaced. */
  lemma OnceIsAccepted(s: string, edit: Edit, at: nat)
    requires edit.oldText != "" && OccursOnce(s, edit.oldText, at)
    ensures Count(s, edit.oldText, 0) == 1 && at + |edit.oldText| <= |s|
    ensures ReplaceFirst(s, edit) == s[..at] + edit.newText + s[at + |edit.oldText|..]
  {
    FoundOnce(s, edit.oldText, at);
    CountedOnce(s, edit.oldText, at);
  }

  lemma CountedOnce(s: string, needle: string, at: nat)
    requires needle != "" && OccursOnce(s, needle, at)
    ensures Count(s, needle, 0) == 1
  {
    AcceptedExactly(s, needle);
    assert OccursAt(s, needle, at) && forall k: nat :: OccursAt(s, needle, k) ==> at <= k < at + |needle|;
  }

  lemma FoundOnce(s: string, needle: string, at: nat)
    requires needle != "" && OccursOnce(s, needle, at)
    ensures Find(s, needle, 0) == Some(at)
  {
    var found := Find(s, needle, 0);
    if found.Some? { assert OccursAt(s, needle, found.value); }
  }

  /** "aaa" holds "aa" twice, overlapping, and is accepted. */
  lemma OverlapAccepted()
    ensures Count("aaa", "aa", 0) == 1 && OccursAt("aaa", "aa", 0) && OccursAt("aaa", "aa", 1)
  {
    assert "aaa"[0..2] == "aa" && "aaa"[1..3] == "aa";
    assert Find("aaa", "aa", 0) == Some(0);
    assert Find("aaa", "aa", 2) == None;
  }

  // ---------------------------------------------------------------- the overwrite patch

  function OverwriteLines(header: string, lines: nat, content: string): seq<string> {
    var rows := Split(content, '\n');
    [header, PutLine(RangeText(1, lines))] + PlusRows(rows, 0, |rows|)
  }

  /** hashlineOverwritePatch. */
  method OverwritePatch(header: string, lines: nat, content: string) returns (patch: string)
    ensures patch == OverwriteText(header, lines, content)
  {
    var rows := Split(content, '\n');
    var section := PrintRows(header, PutLine(RangeText(1, lines)), rows, 0, |rows|);
    OverwriteTextIs(header, lines, content, section);
    patch := BEGIN + "\n" + section + END + "\n";
  }

  function OverwriteText(header: string, lines: nat, content: string): string {
    Begun(BEGIN, [OverwriteLines(header, lines, content)]) + END + "\n"
  }

  lemma OverwriteTextIs(header: string, lines: nat, content: string, section: string)
    requires section == Terminated(OverwriteLines(header, lines, content), |OverwriteLines(header, lines, content)|)
    ensures BEGIN + "\n" + section + END + "\n" == OverwriteText(header, lines, content)
  {
    var block := OverwriteLines(header, lines, content);
    NothingBegun(BEGIN);
    assert Flatten([block], 1) == [] + block;
    BegunBlock(BEGIN, [], block);
  }

  /** The block of the overwrite patch reads back as one PUT over the whole file. */
  lemma OverwriteReads(path: string, tag: string, lines: nat, content: string, unquote: Unquote)
    requires IsPath(path) && IsTag(tag) && 1 <= lines <= MAX_INT
    ensures BlockReads(Lexical(unquote), NativeRoundTrip.Block.Block(OverwriteLines(HeaderLine(path, tag), lines, content), path, tag, Put(Range(1, lines), [])))
  {
    HeaderLexes(path, tag, unquote);
    PutLexes(lines, unquote);
    OverwriteIs(Lexical(unquote), path, tag, lines, content);
  }

  lemma HeaderLexes(path: string, tag: string, unquote: Unquote)
    requires IsPath(path) && IsTag(tag)
    ensures Lexical(unquote).header(HeaderLine(path, tag)) == Some((path, tag)) && !IsRow(HeaderLine(path, tag))
  {
    HeaderRoundTrip(path, tag);
  }

  lemma PutLexes(lines: nat, unquote: Unquote)
    requires 1 <= lines <= MAX_INT
    ensures var line := PutLine(RangeText(1, lines));
            Lexical(unquote).header(line).None? && line != "" && Lexical(unquote).hunk(line) == Ok(Put(Range(1, lines), []))
  {
    PutRangeReads(1, lines, unquote);
    NotHeader(PutLine(RangeText(1, lines)));
  }

  lemma OverwriteIs(lex: Lexer, path: string, tag: string, lines: nat, content: string)
    requires lex.header(HeaderLine(path, tag)) == Some((path, tag)) && !IsRow(HeaderLine(path, tag))
    requires var line := PutLine(RangeText(1, lines)); lex.header(line).None? && line != "" && lex.hunk(line) == Ok(Put(Range(1, lines), []))
    ensures BlockReads(lex, NativeRoundTrip.Block.Block(OverwriteLines(HeaderLine(path, tag), lines, content), path, tag, Put(Range(1, lines), [])))
  {
  }

  lemma OverwriteFree(path: string, tag: string, lines: nat, content: string)
    requires IsPath(path) && IsTag(tag) && '\r' !in content
    ensures LineFree(OverwriteLines(HeaderLine(path, tag), lines, content))
  {
    var rows, header, hunk := Split(content, '\n'), HeaderLine(path, tag), PutLine(RangeText(1, lines));
    SplitFree(content, '\n');
    RowsFree(rows, 0, |rows|);
    forall c | c == '\n' || c == '\r' ensures c !in tag && c !in Itoa(1) && c !in Itoa(lines) {
      assert forall i :: 0 <= i < 4 ==> IsHex(tag[i]);
    }
    FreeParts(header, hunk, PlusRows(rows, 0, |rows|));
  }

  lemma OverwriteParses(host: Host, path: string, tag: string, lines: nat, content: string)
    requires IsPath(path) && IsTag(tag) && 1 <= lines <= MAX_INT && '\r' !in content
    ensures Parse(OverwriteText(HeaderLine(path, tag), lines, content), host.unquote) ==
            Ok([Section(path, tag, [Hunk(Put(Range(1, lines), Split(content, '\n')), 0)])])
  {
    var block := OverwriteLines(HeaderLine(path, tag), lines, content);
    var b := NativeRoundTrip.Block.Block(block, path, tag, Put(Range(1, lines), []));
    OverwriteReads(path, tag, lines, content, host.unquote);
    OverwriteFree(path, tag, lines, content);
    OneBlockParses(block, b, host.unquote);
    RowsRead(block, Split(content, '\n'));
  }

  lemma OneBlockParses(block: seq<string>, b: NativeRoundTrip.Block, unquote: Unquote)
    requires b.lines == block && |block| > 2 && BlockReads(Lexical(unquote), b) && LineFree(block)
    ensures Parse(Begun(BEGIN, [block]) + END + "\n", unquote) == Ok([SectionOf(b, 0)])
  {
    StandingParses([block], [b], unquote);
    assert SectionsOf([b], 0) == [SectionOf(b, 0)];
  }

  lemma RowsRead(block: seq<string>, rows: seq<string>)
    requires |block| == |rows| + 2 && block[2..] == PlusRows(rows, 0, |rows|)
    ensures Rows(block, 2, |block|) == rows
  {
    var read := Rows(block, 2, |block|);
    forall j | 0 <= j < |rows| ensures read[j] == rows[j] {
      assert block[2 + j] == block[2..][j] == "+" + rows[j];
      assert ("+" + rows[j])[..1] == "+" && ("+" + rows[j])[1..] == rows[j];
    }
  }

  /** Replacing every line by the rows leaves the rows. */
  lemma WholeFileReplaced(lines: seq<string>, rows: seq<string>)
    requires |lines| >= 1
    ensures Declared(lines, [HashlineApply.Replace(1, |lines|, rows, 0)]) == rows
  {
    var action := HashlineApply.Replace(1, |lines|, rows, 0);
    BottomUpAgrees(lines, [action], [action]);
    assert [action][..0] == [];
    assert lines[..0] + rows + lines[|lines|..] == rows;
  }

  function OverwriteDraft(host: Host, files: Files, path: string, content: string): Draft
    requires path in files
  {
    var text := Normalize(files[path].data);
    var lines := Split(text, '\n');
    Draft(path, path, host.tag(text), files[path], text, lines, [HashlineApply.Replace(1, |lines|, Split(content, '\n'), 0)], false, false)
  }

  lemma OverwriteAdds(host: Host, clipboard: Registers, files: Files, path: string, content: string)
    requires path in files && host.resolve(path) == Some(path)
    ensures var text := Normalize(files[path].data);
            Adds(PatchAdvance(host, clipboard, files),
                 Section(path, host.tag(text), [Hunk(Put(Range(1, |Split(text, '\n')|), Split(content, '\n')), 0)]),
                 path, OverwriteDraft(host, files, path, content))
  {
    var text := Normalize(files[path].data);
    var lines, rows := Split(text, '\n'), Split(content, '\n');
    var s := Section(path, host.tag(text), [Hunk(Put(Range(1, |lines|), rows), 0)]);
    var advance, step := PatchAdvance(host, clipboard, files), SectionStep(host, clipboard, path, true);
    forall p: Progress | path !in p.drafts
      ensures advance(p, s).Ok? && advance(p, s).value.drafts == p.drafts[path := OverwriteDraft(host, files, path, content)]
      ensures advance(p, s).value.order == p.order + [path] && advance(p, s).value.registers == p.registers
    {
      var ready := OpenDraft(host, files, p, path, host.tag(text)).value;
      var action := HashlineApply.Replace(1, |lines|, rows, 0);
      assert [] + [action] == [action];
      assert step(ready, s.hunks[0]) == Ok(WithAction(ready, path, action));
      assert PrepareHunks(step, WithAction(ready, path, action), s.hunks, 1) == Ok(WithAction(ready, path, action));
    }
  }

  lemma OverwritePrepares(host: Host, clipboard: Registers, files: Files, path: string, content: string)
    requires path in files && host.resolve(path) == Some(path)
    ensures var text := Normalize(files[path].data);
            var s := Section(path, host.tag(text), [Hunk(Put(Range(1, |Split(text, '\n')|), Split(content, '\n')), 0)]);
            var o := Output(path, path, files[path], text, content, false, false);
            Prepare(host, clipboard, files, [s]) == if content == text then Err(NoChange) else Ok(([o], map[]))
  {
    var text := Normalize(files[path].data);
    var o := Output(path, path, files[path], text, content, false, false);
    OverwriteFinishes(host, clipboard, files, path, content);
    OneOutput(files, o);
  }

  lemma OverwriteFinishes(host: Host, clipboard: Registers, files: Files, path: string, content: string)
    requires path in files && host.resolve(path) == Some(path)
    ensures var text := Normalize(files[path].data);
            var s := Section(path, host.tag(text), [Hunk(Put(Range(1, |Split(text, '\n')|), Split(content, '\n')), 0)]);
            var r := PrepareSections(PatchAdvance(host, clipboard, files), NO_PROGRESS, [s], 0);
            r.Ok? && r.value.registers == map[] && Finish(r.value, 0) == Ok([Output(path, path, files[path], text, content, false, false)])
  {
    var text := Normalize(files[path].data);
    var s := Section(path, host.tag(text), [Hunk(Put(Range(1, |Split(text, '\n')|), Split(content, '\n')), 0)]);
    var draft := OverwriteDraft(host, files, path, content);
    OverwriteAdds(host, clipboard, files, path, content);
    assert [path][..0] == [];
    AllCollected(PatchAdvance(host, clipboard, files), NO_PROGRESS, [s], [path], [draft], 0);
    WholeFileReplaced(draft.lines, Split(content, '\n'));
    JoinSplit(content, '\n');
    var p := PrepareSections(PatchAdvance(host, clipboard, files), NO_PROGRESS, [s], 0).value;
    AllFinish(p, [path], [draft], [Output(path, path, files[path], text, content, false, false)]);
  }

  lemma OneOutput(files: Files, o: Output)
    requires o.source == o.destination && !o.remove && !o.move
    ensures Accept(files, [o], map[]) == if o.final == o.text then Err(NoChange) else Ok(([o], map[]))
  {
    assert [o][0] == o;
  }

  /** The text the tool works on, from the view of the file on disk. */
  function OverwriteOf(host: Host, files: Files, path: string, content: string): string
    requires path in files
  {
    var text := Normalize(files[path].data);
    OverwriteText(HeaderLine(path, host.tag(text)), |Split(text, '\n')|, content)
  }

  /** Main theorem: overwriting a file with a new text free of carriage returns is accepted
      exactly when the text differs, and then the file holds precisely that text and every
      other file is untouched. */
  lemma OverwriteRoundTrip(host: Host, clipboard: Registers, files: Files, path: string, content: string)
    requires IsPath(path) && path in files && host.resolve(path) == Some(path) && IsTag(host.tag(Normalize(files[path].data)))
    requires '\r' !in content && |Split(Normalize(files[path].data), '\n')| <= MAX_INT
    ensures HashlineDriver.Executed(host, clipboard, files, OverwriteOf(host, files, path, content)) ==
            if content == Normalize(files[path].data) then None else Some(files[path := FileState(content, files[path].mode)])
  {
    var text := Normalize(files[path].data);
    var n, input := |Split(text, '\n')|, OverwriteOf(host, files, path, content);
    var s := Section(path, host.tag(text), [Hunk(Put(Range(1, n), Split(content, '\n')), 0)]);
    OverwriteParses(host, path, host.tag(text), n, content);
    OverwritePrepares(host, clipboard, files, path, content);
    if content != text {
      var o := Output(path, path, files[path], text, content, false, false);
      HashlineDriver.ExecutedAs(host, clipboard, files, input, [s], [o], map[]);
      OneUpdated(files, o);
    }
  }

  lemma OneUpdated(files: Files, o: Output)
    requires o.source == o.destination && !o.remove && o.source in files
    ensures Updated(files, [o]) == files[o.source := NewState(o)]
  {
    assert Sources([o], 1) == Sources([o], 0) + {o.source} && Written([o], 1) == Written([o], 0)[o.source := NewState(o)];
    OneReplaced(files, o.source, NewState(o));
  }

  lemma OneReplaced<K, V>(m: map<K, V>, k: K, v: V)
    ensures (m - ({} + {k})) + map[][k := v] == m[k := v]
  {
  }

  /** replaceDriver.Execute up to handing the patch to the edit driver: it sees the file only
      through its view, yet edits the text on disk. */
  method PrintReplacement(host: Host, files: Files, path: string, edits: seq<Edit>) returns (r: Result<string, EditError>)
    requires IsPath(path) && path in files && IsTag(host.tag(Normalize(files[path].data)))
    requires |Split(Normalize(files[path].data), '\n')| <= MAX_INT
    ensures match ApplyEdits(Normalize(files[path].data), edits, 0)
            case Err(e) => r == Err(e)
            case Ok(updated) => r == Ok(OverwriteOf(host, files, path, updated))
  {
    var text := Normalize(files[path].data);
    var content := View(path, host.tag(text), text);
    ViewStrips(path, host.tag(text), text);
    var header, count := HeaderAndCount(content);
    var source := SourceText(content);
    var updated := ApplyUniqueReplaces(source, edits);
    if updated.Err? {
      return Err(updated.error);
    }
    var lines := if count == 0 then 1 else count;
    assert Split("", '\n') == [""];
    var patch := OverwritePatch(header, lines, updated.value);
    return Ok(patch);
  }
}
