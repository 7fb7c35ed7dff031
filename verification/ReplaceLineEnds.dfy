/** The overwrite patch for a new text that holds carriage returns: the parser folds those before a line
    end and takes any other for a line end of the patch itself. */
module ReplaceLineEnds {
  import opened Common
  import opened Text
  import opened HashlinePatch
  import opened HashlinePrepare
  import opened NativeEdits
  import opened NativeRoundTrip
  import opened Replace
  import opened HashlineCommit
  import opened HashlineLanguage
  import opened HashlineClipboard
  import HashlineMoves
  import HashlineApply
  import HashlineDriver

  /** Every carriage return of the line, if any, is its last character. */
  predicate TameLine(line: string) { '\r' !in TrimCr(line) }

  predicate TameLines(lines: seq<string>) { forall i :: 0 <= i < |lines| ==> TameLine(lines[i]) }

  /** What a caller can check of a new text: a carriage return stands only at the end of a line. */
  predicate Tame(content: string) { TameLines(Split(content, '\n')) }

  function TrimAll(lines: seq<string>): (r: seq<string>)
    ensures |r| == |lines| && forall i :: 0 <= i < |r| ==> r[i] == TrimCr(lines[i])
  {
    seq(|lines|, i requires 0 <= i < |lines| => TrimCr(lines[i]))
  }

  /** The text without the carriage returns at line ends. */
  function Cleaned(content: string): string { Join(TrimAll(Split(content, '\n')), '\n') }

  // ---------------------------------------------------------------- folding line by line

  lemma {:induction false} FoldLine(a: string, b: string)
    requires '\n' !in a && TameLine(a)
    ensures FoldCrLf(a + "\n" + b) == TrimCr(a) + "\n" + FoldCrLf(b)
  {
    var s := a + "\n" + b;
    if a == "" {
      assert s[1..] == b;
    } else if a == "\r" {
      assert s[2..] == b;
    } else {
      assert a[0] in TrimCr(a);
      assert s[1..] == a[1..] + "\n" + b;
      assert TrimCr(a) == [a[0]] + TrimCr(a[1..]);
      FoldLine(a[1..], b);
    }
  }

  lemma TerminatedStep(lines: seq<string>, n: nat, tail: string)
    requires 0 < n <= |lines|
    ensures Terminated(lines, n) + tail == Terminated(lines, n - 1) + (lines[n - 1] + "\n" + tail)
  {
    Append3(Terminated(lines, n - 1), lines[n - 1], "\n", tail);
  }

  lemma {:induction false} FoldLines(lines: seq<string>, n: nat, tail: string)
    requires n <= |lines| && TameLines(lines) && AllFree(lines, '\n')
    ensures FoldCrLf(Terminated(lines, n) + tail) == Terminated(TrimAll(lines), n) + FoldCrLf(tail)
  {
    if n == 0 {
      assert "" + tail == tail && "" + FoldCrLf(tail) == FoldCrLf(tail);
    } else {
      TerminatedStep(lines, n, tail);
      FoldLines(lines, n - 1, lines[n - 1] + "\n" + tail);
      FoldLine(lines[n - 1], tail);
      TerminatedStep(TrimAll(lines), n, FoldCrLf(tail));
    }
  }

  // ---------------------------------------------------------------- counting lines

  function LineCount(s: string): nat { |Split(UnifyNewlines(s), '\n')| }

  lemma UnifyStep(s: string)
    requires s != "" && !(|s| >= 2 && s[0] == '\r' && s[1] == '\n')
    ensures LineCount(s) == LineCount(s[1..]) + if s[0] == '\n' || s[0] == '\r' then 1 else 0
  {
    var rest := FoldCrLf(s[1..]);
    assert FoldCrLf(s) == [s[0]] + rest;
    assert ([s[0]] + rest)[1..] == rest;
    var c := if s[0] == '\r' then '\n' else s[0];
    assert UnifyNewlines(s) == [c] + UnifyNewlines(s[1..]);
    assert ([c] + UnifyNewlines(s[1..]))[1..] == UnifyNewlines(s[1..]);
  }

  lemma UnifyPair(s: string)
    requires |s| >= 2 && s[0] == '\r' && s[1] == '\n'
    ensures LineCount(s) == LineCount(s[2..]) + 1
  {
    var rest := FoldCrLf(s[2..]);
    assert FoldCrLf(s) == ['\n'] + rest;
    assert (['\n'] + rest)[1..] == rest;
    assert UnifyNewlines(s) == ['\n'] + UnifyNewlines(s[2..]);
    assert (['\n'] + UnifyNewlines(s[2..]))[1..] == UnifyNewlines(s[2..]);
  }

  /** A line counts for one, and for more when a carriage return stands inside it. */
  lemma {:induction false} CountLine(a: string, b: string)
    requires '\n' !in a
    ensures LineCount(a + "\n" + b) >= 1 + LineCount(b)
    ensures !TameLine(a) ==> LineCount(a + "\n" + b) > 1 + LineCount(b)
  {
    var s := a + "\n" + b;
    if a == "" {
      assert s[1..] == b;
      UnifyStep(s);
    } else if a == "\r" {
      assert s[2..] == b;
      UnifyPair(s);
    } else {
      assert s[0] == a[0] && s[1..] == a[1..] + "\n" + b;
      UnifyStep(s);
      CountLine(a[1..], b);
      TameTail(a);
    }
  }

  lemma TameTail(a: string)
    requires a != "" && a != "\r"
    ensures TameLine(a) <==> a[0] != '\r' && TameLine(a[1..])
  {
    assert TrimCr(a) == [a[0]] + TrimCr(a[1..]);
  }

  lemma {:induction false} CountAll(lines: seq<string>, n: nat, tail: string)
    requires n <= |lines| && AllFree(lines, '\n')
    ensures LineCount(Terminated(lines, n) + tail) >= n + LineCount(tail)
    ensures (exists i :: 0 <= i < n && !TameLine(lines[i])) ==> LineCount(Terminated(lines, n) + tail) > n + LineCount(tail)
  {
    if n == 0 {
      assert "" + tail == tail;
    } else {
      TerminatedStep(lines, n, tail);
      CountAll(lines, n - 1, lines[n - 1] + "\n" + tail);
      CountLine(lines[n - 1], tail);
    }
  }

  // ---------------------------------------------------------------- what the parser reads

  /** All lines of the patch before its end marker. */
  function LinesBefore(header: string, n: nat, content: string): seq<string> { [BEGIN] + OverwriteLines(header, n, content) }

  lemma OverwriteIsLines(header: string, n: nat, content: string)
    ensures var lines := LinesBefore(header, n, content); OverwriteText(header, n, content) == Terminated(lines, |lines|) + (END + "\n")
  {
    BegunOne(BEGIN, OverwriteLines(header, n, content));
    Associative(Begun(BEGIN, [OverwriteLines(header, n, content)]), END, "\n");
  }

  lemma BegunOne(first: string, block: seq<string>)
    ensures Begun(first, [block]) == Terminated([first] + block, 1 + |block|)
  {
    assert Flatten([block], 1) == Flatten([block], 0) + block && [] + block == block;
  }

  lemma PlainLines(path: string, tag: string, n: nat)
    requires IsPath(path) && IsTag(tag)
    ensures forall line :: line in [BEGIN, HeaderLine(path, tag), PutLine(RangeText(1, n))] ==> '\n' !in line && '\r' !in line
  {
    forall c | c == '\n' || c == '\r' ensures c !in tag && c !in Itoa(1) && c !in Itoa(n) {
      assert forall i :: 0 <= i < 4 ==> IsHex(tag[i]);
    }
  }

  lemma RowTame(row: string)
    ensures TrimCr("+" + row) == "+" + TrimCr(row) && (TameLine("+" + row) <==> TameLine(row))
  {
  }

  lemma LineAt(header: string, n: nat, content: string, i: nat)
    requires i < |LinesBefore(header, n, content)|
    ensures LinesBefore(header, n, content)[i] ==
            if i == 0 then BEGIN else if i == 1 then header else if i == 2 then PutLine(RangeText(1, n)) else "+" + Split(content, '\n')[i - 3]
  {
  }

  lemma LinesFree(path: string, tag: string, n: nat, content: string)
    requires IsPath(path) && IsTag(tag)
    ensures AllFree(LinesBefore(HeaderLine(path, tag), n, content), '\n')
    ensures TameLines(LinesBefore(HeaderLine(path, tag), n, content)) <==> Tame(content)
  {
    var lines, rows := LinesBefore(HeaderLine(path, tag), n, content), Split(content, '\n');
    PlainLines(path, tag, n);
    SplitFree(content, '\n');
    forall i | 0 <= i < |lines| ensures '\n' !in lines[i] && (i < 3 ==> TameLine(lines[i])) && (i >= 3 ==> (TameLine(lines[i]) <==> TameLine(rows[i - 3]))) {
      LineAt(HeaderLine(path, tag), n, content, i);
      if i < 3 {
        assert lines[i] in [BEGIN, HeaderLine(path, tag), PutLine(RangeText(1, n))];
      } else {
        RowTame(rows[i - 3]);
      }
    }
    forall j | 0 <= j < |rows| && TameLines(lines) ensures TameLine(rows[j]) { assert TameLine(lines[3 + j]); }
  }

  lemma CleanedRows(content: string)
    ensures Split(Cleaned(content), '\n') == TrimAll(Split(content, '\n'))
    ensures Tame(content) ==> '\r' !in Cleaned(content)
  {
    var rows := TrimAll(Split(content, '\n'));
    SplitFree(content, '\n');
    assert AllFree(rows, '\n');
    SplitJoin(rows, '\n');
    if Tame(content) {
      assert AllFree(rows, '\r');
      JoinFree(rows, '\n', '\r');
    }
  }

  lemma CleanedLines(path: string, tag: string, n: nat, content: string)
    requires IsPath(path) && IsTag(tag)
    ensures TrimAll(LinesBefore(HeaderLine(path, tag), n, content)) == LinesBefore(HeaderLine(path, tag), n, Cleaned(content))
  {
    var header := HeaderLine(path, tag);
    var lines, clean := LinesBefore(header, n, content), LinesBefore(header, n, Cleaned(content));
    CleanedRows(content);
    PlainLines(path, tag, n);
    forall i | 0 <= i < |lines| ensures TrimCr(lines[i]) == clean[i] {
      LineAt(header, n, content, i);
      LineAt(header, n, Cleaned(content), i);
      if i < 3 {
        assert lines[i] in [BEGIN, header, PutLine(RangeText(1, n))];
      } else {
        RowTame(Split(content, '\n')[i - 3]);
      }
    }
  }

  lemma TrimTwice(lines: seq<string>)
    requires TameLines(lines)
    ensures TameLines(TrimAll(lines)) && TrimAll(TrimAll(lines)) == TrimAll(lines)
  {
  }

  /** The parser sees a tame text as its cleaned form. */
  lemma ReadsAsCleaned(path: string, tag: string, n: nat, content: string)
    requires IsPath(path) && IsTag(tag) && Tame(content)
    ensures FoldCrLf(OverwriteText(HeaderLine(path, tag), n, content)) == FoldCrLf(OverwriteText(HeaderLine(path, tag), n, Cleaned(content)))
  {
    var header := HeaderLine(path, tag);
    var lines, clean := LinesBefore(header, n, content), LinesBefore(header, n, Cleaned(content));
    LinesFree(path, tag, n, content);
    LinesFree(path, tag, n, Cleaned(content));
    CleanedLines(path, tag, n, content);
    TrimTwice(lines);
    OverwriteIsLines(header, n, content);
    OverwriteIsLines(header, n, Cleaned(content));
    FoldLines(lines, |lines|, END + "\n");
    FoldLines(clean, |clean|, END + "\n");
  }

  /** One section with one PUT takes up all lines of a patch but its markers. */
  lemma OnePutFills(lines: seq<string>, lex: Lexer, path: string, tag: string, locator: Locator, body: seq<string>)
    requires ParseLines(lines, lex) == Ok([Section(path, tag, [Hunk(Put(locator, body), 0)])])
    ensures |lines| <= |body| + 5
  {
    var end := EndIndex(lines);
    var sections := ParseSections(lines, 1, end, 0, lex).value;
    var (hunks, next) := ParseHunks(lines, 2, end, 0, lex).value;
    var others := ParseSections(lines, next, end, |hunks|, lex).value;
    assert |sections| == 1 && sections[1..] == others && sections[0].hunks == hunks;
    assert next == end;
    var (kind, stop) := HunkAt(lines, 2, end, lex).value;
    var (rest, _) := ParseHunks(lines, stop, end, 1, lex).value;
    assert |hunks| == 1 && hunks[1..] == rest && hunks[0].kind == kind;
    assert rest == [];
  }

  /** The printed patch reads as one PUT of the cleaned rows exactly when the new text is tame. */
  lemma OverwriteReadExactly(path: string, tag: string, n: nat, content: string, host: Host)
    requires IsPath(path) && IsTag(tag) && 1 <= n <= MAX_INT
    ensures Parse(OverwriteText(HeaderLine(path, tag), n, content), host.unquote)
            == Ok([Section(path, tag, [Hunk(Put(Range(1, n), TrimAll(Split(content, '\n'))), 0)])])
            <==> Tame(content)
  {
    var header := HeaderLine(path, tag);
    var text := OverwriteText(header, n, content);
    CleanedRows(content);
    if Tame(content) {
      ReadsAsCleaned(path, tag, n, content);
      OverwriteParses(host, path, tag, n, Cleaned(content));
    } else {
      var lines := LinesBefore(header, n, content);
      LinesFree(path, tag, n, content);
      OverwriteIsLines(header, n, content);
      CountAll(lines, |lines|, END + "\n");
      EndCounts();
      if Parse(text, host.unquote) == Ok([Section(path, tag, [Hunk(Put(Range(1, n), TrimAll(Split(content, '\n'))), 0)])]) {
        OnePutFills(Split(UnifyNewlines(text), '\n'), Lexical(host.unquote), path, tag, Range(1, n), TrimAll(Split(content, '\n')));
      }
    }
  }

  lemma EndCounts()
    ensures LineCount(END + "\n") == 2
  {
    UnifyFixed(END + "\n");
    assert END + ['\n'] + "" == END + "\n";
    SplitHead(END, "", '\n');
  }

  // ---------------------------------------------------------------- what happens to the file

  lemma SameReading(host: Host, clipboard: Registers, files: Files, input: string, other: string)
    requires FoldCrLf(input) == FoldCrLf(other)
    ensures HashlineDriver.Executed(host, clipboard, files, input) == HashlineDriver.Executed(host, clipboard, files, other)
  {
    assert Parse(input, host.unquote) == Parse(other, host.unquote);
  }

  /** What overwriting a file through the printed patch leaves. */
  function Overwritten(files: Files, path: string, content: string): Option<Files>
    requires path in files
  {
    if content == Normalize(files[path].data) then None else Some(files[path := FileState(content, files[path].mode)])
  }

  /** The file can be addressed by a patch. */
  ghost predicate Addressable(host: Host, files: Files, path: string) {
    && IsPath(path) && path in files && host.resolve(path) == Some(path) && IsTag(host.tag(Normalize(files[path].data)))
    && |Split(Normalize(files[path].data), '\n')| <= MAX_INT
  }

  /** Overwriting a file with a tame text leaves the text without the carriage returns at its line ends. */
  lemma TameOverwrites(host: Host, clipboard: Registers, files: Files, path: string, content: string)
    requires Addressable(host, files, path) && Tame(content)
    ensures HashlineDriver.Executed(host, clipboard, files, OverwriteOf(host, files, path, content)) == Overwritten(files, path, Cleaned(content))
  {
    var text := Normalize(files[path].data);
    ReadsAsCleaned(path, host.tag(text), |Split(text, '\n')|, content);
    SameReading(host, clipboard, files, OverwriteOf(host, files, path, content), OverwriteOf(host, files, path, Cleaned(content)));
    CleanedRows(content);
    OverwriteRoundTrip(host, clipboard, files, path, Cleaned(content));
  }

  lemma FreeIsTame(content: string)
    requires '\r' !in content
    ensures Tame(content) && Cleaned(content) == content
  {
    var rows := Split(content, '\n');
    JoinSplit(content, '\n');
    SplitKeepsFree(content);
    assert TrimAll(rows) == rows;
  }

  lemma {:induction false} SplitKeepsFree(content: string)
    requires '\r' !in content
    ensures AllFree(Split(content, '\n'), '\r')
  {
    if content != "" { SplitKeepsFree(content[1..]); }
  }

  lemma {:induction false} EditsStayFree(content: string, edits: seq<Edit>, k: nat)
    requires k <= |edits| && '\r' !in content && forall i :: 0 <= i < |edits| ==> '\r' !in edits[i].newText
    ensures ApplyEdits(content, edits, k).Ok? ==> '\r' !in ApplyEdits(content, edits, k).value
    decreases |edits| - k
  {
    if k < |edits| && edits[k].oldText != "" { EditsStayFree(ReplaceFirst(content, edits[k]), edits, k + 1); }
  }

  /** From edits to the file: the patch made of accepted edits turns the file into the result of the
      edits in order, less the carriage returns at line ends; there are none when no new text has any. */
  lemma EditsReachFile(host: Host, clipboard: Registers, files: Files, path: string, edits: seq<Edit>)
    requires Addressable(host, files, path) && ApplyEdits(Normalize(files[path].data), edits, 0).Ok?
    ensures var updated := ApplyEdits(Normalize(files[path].data), edits, 0).value;
            && (Tame(updated) ==> HashlineDriver.Executed(host, clipboard, files, OverwriteOf(host, files, path, updated)) == Overwritten(files, path, Cleaned(updated)))
            && ((forall i :: 0 <= i < |edits| ==> '\r' !in edits[i].newText) ==> Tame(updated) && Cleaned(updated) == updated)
  {
    var text := Normalize(files[path].data);
    var updated := ApplyEdits(text, edits, 0).value;
    if Tame(updated) { TameOverwrites(host, clipboard, files, path, updated); }
    if forall i :: 0 <= i < |edits| ==> '\r' !in edits[i].newText {
      EditsStayFree(text, edits, 0);
      FreeIsTame(updated);
    }
  }

  datatype ReplaceOutcome = BadRequest | NoSuchFile | TooLarge | NotEdited(error: EditError) | Edited(result: HashlineDriver.DriverResult)

  /** replaceDriver.Execute: read, edit, print, and hand the patch to the edit driver. When the driver
      commits a tame result the file holds it, cleaned, and nothing else has changed; when the driver
      rejects one, there was nothing to change. Every other refusal leaves the files alone. */
  method ReplaceInFile(host: Host, clipboard: Clipboard, root: Root, path: string, edits: seq<Edit>, truncated: bool) returns (r: ReplaceOutcome)
    requires HostOk(host) && clipboard.Valid() && (path in root.files ==> Addressable(host, root.files, path))
    requires path in root.files && ApplyEdits(Normalize(root.files[path].data), edits, 0).Ok? ==>
               HashlineDriver.NamesVisible(host, clipboard.values, root.files,
                                           OverwriteOf(host, root.files, path, ApplyEdits(Normalize(root.files[path].data), edits, 0).value))
    modifies root, clipboard
    ensures clipboard.Valid()
    ensures r.BadRequest? <==> TrimSpace(path) == "" || edits == []
    ensures !r.BadRequest? ==> (r.NoSuchFile? <==> path !in old(root.files)) && (r.TooLarge? <==> path in old(root.files) && truncated)
    ensures r.NotEdited? ==> path in old(root.files) && ApplyEdits(Normalize(old(root.files)[path].data), edits, 0) == Err(r.error)
    ensures r.Edited? ==> path in old(root.files) && ApplyEdits(Normalize(old(root.files)[path].data), edits, 0).Ok?
    ensures r.Edited? && Tame(ApplyEdits(Normalize(old(root.files)[path].data), edits, 0).value) ==>
              var outcome := Overwritten(old(root.files), path, Cleaned(ApplyEdits(Normalize(old(root.files)[path].data), edits, 0).value));
              && (r.result.Rejected? <==> outcome.None?)
              && (r.result == HashlineDriver.Finished(Done) ==> outcome == Some(root.files))
    ensures !r.Edited? || r.result.Rejected? ==> root.files == old(root.files)
  {
    if TrimSpace(path) == "" || |edits| == 0 { return BadRequest; }
    if path !in root.files { return NoSuchFile; }
    if truncated { return TooLarge; }
    var patch := PrintReplacement(host, root.files, path, edits);
    if patch.Err? { return NotEdited(patch.error); }
    EditsReachFile(host, clipboard.values, root.files, path, edits);
    var result, _, _ := HashlineDriver.Execute(host, clipboard, root, patch.value);
    return Edited(result);
  }

  // ---------------------------------------------------------------- a carriage return that moves the file

  lemma {:induction false} LoneCr(a: string, b: string)
    requires '\r' !in a && '\r' !in b && b != "" && b[0] != '\n'
    ensures UnifyNewlines(a + "\r" + b) == a + "\n" + b
  {
    var s := a + "\r" + b;
    if a == "" {
      assert s[1..] == b;
      NoCrFixed(b);
      assert FoldCrLf(s) == ['\r'] + b;
      assert (['\r'] + b)[1..] == b;
    } else {
      assert s[1..] == a[1..] + "\r" + b;
      LoneCr(a[1..], b);
      assert FoldCrLf(s) == [a[0]] + FoldCrLf(s[1..]);
      assert ([a[0]] + FoldCrLf(s[1..]))[1..] == FoldCrLf(s[1..]);
      assert a + "\n" + b == [a[0]] + (a[1..] + "\n" + b);
    }
  }

  lemma {:induction false} JoinTerminated(lines: seq<string>)
    requires lines != []
    ensures Join(lines, '\n') + "\n" == Terminated(lines, |lines|)
  {
    var head, rest := lines[0], lines[1..];
    assert lines == [head] + rest;
    assert Terminated([head], 0) == "" && Terminated([head], 1) == "" + head + "\n";
    TerminatedSplit([head], rest, |rest|);
    if rest == [] {
      assert Terminated(rest, 0) == "";
    } else {
      JoinTerminated(rest);
      assert Join(lines, '\n') + "\n" == head + ['\n'] + (Join(rest, '\n') + "\n");
    }
  }

  const BROKEN: string := "x\rMV 'other'"

  function BrokenSection(path: string, tag: string, n: nat): Section {
    Section(path, tag, [Hunk(Put(Range(1, n), ["x"]), 0), Hunk(Move("other"), 1)])
  }

  lemma BrokenLines(path: string, tag: string, n: nat)
    ensures PatchLines([BrokenSection(path, tag, n)]) == [BEGIN, HeaderLine(path, tag), PutLine(RangeText(1, n)), "+x", "MV 'other'", END]
  {
    var s := BrokenSection(path, tag, n);
    assert "+" + "x" == "+x" && "MV '" + "other" + "'" == "MV 'other'";
    assert RowsOf(["x"], 0) == [] && RowsOf(["x"], 1) == ["+x"];
    assert HunksLines(HunkText, s.hunks, 2) == [];
    assert HunkLines(HunkText, s.hunks[1].kind) == ["MV 'other'"];
    assert HunksLines(HunkText, s.hunks, 1) == ["MV 'other'"];
    assert HunkLines(HunkText, s.hunks[0].kind) == [PutLine(RangeText(1, n)), "+x"];
    assert HunksLines(HunkText, s.hunks, 0) == [PutLine(RangeText(1, n)), "+x"] + ["MV 'other'"];
    assert SectionsLines(HunkText, [s], 1) == [];
  }

  /** The patch up to the carriage return, and after it. */
  function Front(header: string, put: string, row: string): string { Terminated([BEGIN, header, put], 3) + row }

  function Back(hunk: string, end: string): string { hunk + "\n" + end + "\n" }

  lemma BrokenPrinted(header: string, n: nat, content: string, x: string, hunk: string)
    requires content == x + "\r" + hunk && '\n' !in content
    ensures OverwriteText(header, n, content) == Front(header, PutLine(RangeText(1, n)), "+" + x) + "\r" + Back(hunk, END)
  {
    var put := PutLine(RangeText(1, n));
    SplitWhole(content, '\n');
    OverwriteIsLines(header, n, content);
    OneRowLines(header, n, content);
    FourLines(header, put, "+" + content);
    RowSplits(x, hunk, END);
    Split4(Terminated([BEGIN, header, put], 3), "+" + content + "\n", END + "\n", "+" + x, "\r" + Back(hunk, END));
    Associative(Front(header, put, "+" + x), "\r", Back(hunk, END));
  }

  lemma OneRowLines(header: string, n: nat, content: string)
    requires Split(content, '\n') == [content]
    ensures LinesBefore(header, n, content) == [BEGIN, header, PutLine(RangeText(1, n)), "+" + content]
  {
    var row := "+" + content;
    assert PlusRows([content], 0, 1) == [row];
    Displays(BEGIN, header, PutLine(RangeText(1, n)), row);
  }

  lemma Displays<T>(a: T, b: T, c: T, d: T)
    ensures [a] + ([b, c] + [d]) == [a, b, c, d]
  {
  }

  lemma FourLines(header: string, put: string, row: string)
    ensures Terminated([BEGIN, header, put, row], 4) == Terminated([BEGIN, header, put], 3) + (row + "\n")
  {
    assert [BEGIN, header, put, row] == [BEGIN, header, put] + [row];
    TerminatedSplit([BEGIN, header, put], [row], 1);
    assert Terminated([row], 1) == Terminated([row], 0) + row + "\n" && "" + row == row;
  }

  lemma RowSplits(x: string, hunk: string, end: string)
    ensures ("+" + (x + "\r" + hunk) + "\n") + (end + "\n") == ("+" + x) + ("\r" + Back(hunk, end))
  {
  }

  lemma Split4(t: string, a: string, b: string, c: string, d: string)
    requires a + b == c + d
    ensures (t + a) + b == (t + c) + d
  {
    assert (t + a) + b == t + (a + b) && (t + c) + d == t + (c + d);
  }

  lemma LastThree(row: string, hunk: string, end: string)
    ensures Terminated([row, hunk, end], 3) == row + ("\n" + Back(hunk, end))
  {
    var lines := [row, hunk, end];
    assert Terminated(lines, 1) == "" + row + "\n";
    assert Terminated(lines, 2) == Terminated(lines, 1) + hunk + "\n";
  }

  lemma BrokenIntended(path: string, tag: string, n: nat)
    ensures PatchOf([BrokenSection(path, tag, n)]) + "\n" == Front(HeaderLine(path, tag), PutLine(RangeText(1, n)), "+x") + "\n" + Back("MV 'other'", END)
  {
    var lines := PatchLines([BrokenSection(path, tag, n)]);
    BrokenLines(path, tag, n);
    JoinTerminated(lines);
    SixLines(HeaderLine(path, tag), PutLine(RangeText(1, n)), "+x", "MV 'other'", END);
  }

  lemma SixLines(header: string, put: string, row: string, hunk: string, end: string)
    ensures Terminated([BEGIN, header, put, row, hunk, end], 6) == Front(header, put, row) + "\n" + Back(hunk, end)
  {
    assert [BEGIN, header, put, row, hunk, end] == [BEGIN, header, put] + [row, hunk, end];
    TerminatedSplit([BEGIN, header, put], [row, hunk, end], 3);
    LastThree(row, hunk, end);
    Associative(Terminated([BEGIN, header, put], 3), row, "\n" + Back(hunk, end));
    Associative(Front(header, put, row), "\n", Back(hunk, end));
  }

  lemma BackFree(hunk: string, end: string)
    requires '\r' !in hunk && '\r' !in end && hunk != "" && '\n' !in hunk
    ensures '\r' !in Back(hunk, end) && Back(hunk, end) != "" && Back(hunk, end)[0] != '\n'
  {
    assert Back(hunk, end)[0] == hunk[0];
  }

  lemma LoneCrFolds(header: string, put: string, row: string, hunk: string)
    requires '\r' !in header && '\r' !in put && '\r' !in row && '\r' !in hunk && hunk != "" && '\n' !in hunk
    ensures UnifyNewlines(Front(header, put, row) + "\r" + Back(hunk, END)) == Front(header, put, row) + "\n" + Back(hunk, END)
  {
    ThreeFree(header, put);
    BackFree(hunk, END);
    LoneCr(Front(header, put, row), Back(hunk, END));
  }

  /** A text of one line with one carriage return, before the text of a hunk: the printed patch is the one
      that ends its row there and goes on with the hunk. */
  lemma LoneCrReads(path: string, tag: string, n: nat, content: string, x: string, hunk: string)
    requires IsPath(path) && IsTag(tag) && content == x + "\r" + hunk
    requires '\n' !in content && '\r' !in x && '\r' !in hunk && hunk != ""
    ensures UnifyNewlines(OverwriteText(HeaderLine(path, tag), n, content))
         == Front(HeaderLine(path, tag), PutLine(RangeText(1, n)), "+" + x) + "\n" + Back(hunk, END)
  {
    var header, put := HeaderLine(path, tag), PutLine(RangeText(1, n));
    PlainLines(path, tag, n);
    assert header in [BEGIN, header, put] && put in [BEGIN, header, put];
    BrokenPrinted(header, n, content, x, hunk);
    LoneCrFolds(header, put, "+" + x, hunk);
  }

  lemma BrokenParts()
    ensures BROKEN == "x" + "\r" + "MV 'other'" && "+" + "x" == "+x"
    ensures '\n' !in BROKEN && '\r' !in "x" && '\r' !in "MV 'other'"
  {
  }

  lemma BrokenText(path: string, tag: string, n: nat)
    requires IsPath(path) && IsTag(tag)
    ensures UnifyNewlines(OverwriteText(HeaderLine(path, tag), n, BROKEN)) == PatchOf([BrokenSection(path, tag, n)]) + "\n"
  {
    BrokenParts();
    LoneCrReads(path, tag, n, BROKEN, "x", "MV 'other'");
    BrokenIntended(path, tag, n);
  }

  lemma BrokenReads(path: string, tag: string, n: nat, unquote: Unquote)
    requires IsPath(path) && IsTag(tag) && 1 <= n <= MAX_INT
    ensures Parse(OverwriteText(HeaderLine(path, tag), n, BROKEN), unquote) == Ok([BrokenSection(path, tag, n)])
  {
    var s := BrokenSection(path, tag, n);
    var patch := PatchOf([s]) + "\n";
    assert KindWritable(s.hunks[0].kind) && KindWritable(s.hunks[1].kind);
    assert SectionsWritable([s], 1, 2);
    PatchRoundTrip([s], unquote);
    BrokenText(path, tag, n);
    UnifyTwice(OverwriteText(HeaderLine(path, tag), n, BROKEN));
  }

  lemma UnifyTwice(s: string)
    ensures UnifyNewlines(UnifyNewlines(s)) == UnifyNewlines(s)
  {
    UnifyFixed(UnifyNewlines(s));
  }

  function BrokenOutput(files: Files, path: string): Output
    requires path in files
  {
    Output(path, "other", files[path], Normalize(files[path].data), "x", false, true)
  }

  lemma BrokenDraft(host: Host, clipboard: Registers, files: Files, path: string)
    requires path in files && host.resolve(path) == Some(path) && host.resolve("other") == Some("other") && path != "other"
    ensures var text := Normalize(files[path].data);
            var n := |Split(text, '\n')|;
            var r := PrepareSection(host, clipboard, files, NO_PROGRESS, BrokenSection(path, host.tag(text), n));
            && r.Ok? && r.value.order == [path] && r.value.registers == map[]
            && r.value.drafts == map[path := Draft(path, "other", host.tag(text), files[path], text, Split(text, '\n'),
                                                   [HashlineApply.Replace(1, n, ["x"], 0)], false, true)]
  {
    var text := Normalize(files[path].data);
    var n := |Split(text, '\n')|;
    var s := BrokenSection(path, host.tag(text), n);
    var ready := OpenDraft(host, files, NO_PROGRESS, path, s.tag).value;
    var step := SectionStep(host, clipboard, path, false);
    var put := WithAction(ready, path, HashlineApply.Replace(1, n, ["x"], 0));
    var moved := SetFlags(put, path, "other", true, false);
    assert step(ready, s.hunks[0]) == Ok(put) && step(put, s.hunks[1]) == Ok(moved);
    HashlineMoves.TwoHunks(step, ready, put, moved, s.hunks);
    assert [] + [HashlineApply.Replace(1, n, ["x"], 0)] == [HashlineApply.Replace(1, n, ["x"], 0)];
  }

  lemma BrokenPrepares(host: Host, clipboard: Registers, files: Files, path: string)
    requires path in files && host.resolve(path) == Some(path) && host.resolve("other") == Some("other") && path != "other" && "other" !in files
    ensures var text := Normalize(files[path].data);
            Prepare(host, clipboard, files, [BrokenSection(path, host.tag(text), |Split(text, '\n')|)]) == Ok(([BrokenOutput(files, path)], map[]))
  {
    var text := Normalize(files[path].data);
    var lines := Split(text, '\n');
    var s := BrokenSection(path, host.tag(text), |lines|);
    BrokenDraft(host, clipboard, files, path);
    var p := PrepareSection(host, clipboard, files, NO_PROGRESS, s).value;
    HashlineMoves.OneSection(PatchAdvance(host, clipboard, files), NO_PROGRESS, s, p);
    WholeFileReplaced(lines, ["x"]);
    var o := BrokenOutput(files, path);
    AllFinish(p, [path], [p.drafts[path]], [o]);
    assert [o][0] == o && Changes(o);
  }

  /** A lone carriage return in a new text is a line end of the patch: what follows it is read as a hunk,
      and here moves the file away. */
  lemma LoneCrReadAsHunk(host: Host, clipboard: Registers, files: Files, path: string)
    requires Addressable(host, files, path) && host.resolve("other") == Some("other") && path != "other" && "other" !in files
    ensures !Tame("x\rMV 'other'")
    ensures HashlineDriver.Executed(host, clipboard, files, OverwriteOf(host, files, path, "x\rMV 'other'"))
            == Some((files - {path})["other" := FileState("x", files[path].mode)])
  {
    var text, o := Normalize(files[path].data), BrokenOutput(files, path);
    var n := |Split(text, '\n')|;
    BrokenReads(path, host.tag(text), n, host.unquote);
    BrokenPrepares(host, clipboard, files, path);
    HashlineDriver.ExecutedAs(host, clipboard, files, OverwriteOf(host, files, path, BROKEN), [BrokenSection(path, host.tag(text), n)], [o], map[]);
    MovedAlone(files, o);
    BrokenWild();
  }

  lemma MovedAlone(files: Files, o: Output)
    requires !o.remove
    ensures Updated(files, [o]) == (files - {o.source})[o.destination := NewState(o)]
  {
    assert Sources([o], 0) == {} && Sources([o], 1) == {o.source};
    assert Written([o], 0) == map[] && Written([o], 1) == map[o.destination := NewState(o)];
  }

  lemma CrInside(s: string, i: nat)
    requires i + 1 < |s| && s[i] == '\r' && '\n' !in s
    ensures !Tame(s)
  {
    assert TrimCr(s)[i] == '\r';
    SplitWhole(s, '\n');
    assert Split(s, '\n')[0] == s;
  }

  lemma BrokenWild()
    ensures !Tame(BROKEN)
  {
    BrokenParts();
    CrInside(BROKEN, 1);
  }

  lemma ThreeFree(header: string, put: string)
    requires '\r' !in header && '\r' !in put
    ensures '\r' !in Terminated([BEGIN, header, put], 3)
  {
    assert '\r' !in Terminated([BEGIN, header, put], 1);
    assert '\r' !in Terminated([BEGIN, header, put], 2);
  }
}
