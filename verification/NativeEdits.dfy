/** applyNativeChanges of internal/agent/native_edits.go: prints whole-file changes as a
    Hashline patch holding only the lines between the common prefix and suffix. */
module NativeEdits {
  import opened Text
  import opened HashlinePatch

  datatype Change = Change(path: string, before: string, after: string)

  datatype Printed = Unrepresentable | NothingChanged | Patch(text: string)

  // ---------------------------------------------------------------- the trimmed diff

  /** The length of the common prefix, given that the first k lines agree. */
  function PrefixLen(b: seq<string>, a: seq<string>, k: nat): (r: nat)
    requires k <= |b| && k <= |a|
    ensures k <= r <= |b| && r <= |a|
    decreases |b| - k
  {
    if k < |b| && k < |a| && b[k] == a[k] then PrefixLen(b, a, k + 1) else k
  }

  /** How many lines agree at the end without reaching into the first `lo` lines. */
  function SuffixLen(b: seq<string>, a: seq<string>, lo: nat, k: nat): (r: nat)
    requires lo + k <= |b| && lo + k <= |a|
    ensures k <= r && lo + r <= |b| && lo + r <= |a|
    decreases |b| - k
  {
    if lo + k < |b| && lo + k < |a| && b[|b| - 1 - k] == a[|a| - 1 - k] then SuffixLen(b, a, lo, k + 1) else k
  }

  lemma {:induction false} PrefixAgrees(b: seq<string>, a: seq<string>, k: nat)
    requires k <= |b| && k <= |a| && b[..k] == a[..k]
    ensures b[..PrefixLen(b, a, k)] == a[..PrefixLen(b, a, k)]
    decreases |b| - k
  {
    if k < |b| && k < |a| && b[k] == a[k] {
      assert b[..k + 1] == b[..k] + [b[k]] && a[..k + 1] == a[..k] + [a[k]];
      PrefixAgrees(b, a, k + 1);
    }
  }

  lemma {:induction false} SuffixAgrees(b: seq<string>, a: seq<string>, lo: nat, k: nat)
    requires lo + k <= |b| && lo + k <= |a| && b[|b| - k..] == a[|a| - k..]
    ensures var r := SuffixLen(b, a, lo, k); b[|b| - r..] == a[|a| - r..]
    decreases |b| - k
  {
    if lo + k < |b| && lo + k < |a| && b[|b| - 1 - k] == a[|a| - 1 - k] {
      assert b[|b| - (k + 1)..] == [b[|b| - 1 - k]] + b[|b| - k..];
      assert a[|a| - (k + 1)..] == [a[|a| - 1 - k]] + a[|a| - k..];
      SuffixAgrees(b, a, lo, k + 1);
    }
  }

  /** Lines before[start..endBefore] become after[start..endAfter]. */
  datatype Diff = Diff(start: nat, endBefore: nat, endAfter: nat)

  function DiffOf(b: seq<string>, a: seq<string>): (d: Diff)
    ensures d.start <= d.endBefore <= |b| && d.start <= d.endAfter <= |a|
  {
    var start := PrefixLen(b, a, 0);
    var kept := SuffixLen(b, a, start, 0);
    Diff(start, |b| - kept, |a| - kept)
  }

  /** The diff is sound: replacing the middle turns one text into the other. */
  lemma DiffSound(b: seq<string>, a: seq<string>)
    ensures var d := DiffOf(b, a); a == b[..d.start] + a[d.start..d.endAfter] + b[d.endBefore..]
    ensures var d := DiffOf(b, a); d.start == d.endBefore && d.start == d.endAfter <==> a == b
  {
    var d := DiffOf(b, a);
    assert b[..0] == a[..0] && b[|b|..] == a[|a|..];
    PrefixAgrees(b, a, 0);
    SuffixAgrees(b, a, d.start, 0);
    assert a == a[..d.start] + a[d.start..d.endAfter] + a[d.endAfter..];
    assert b == b[..d.start] + b[d.start..d.endBefore] + b[d.endBefore..];
    if a == b { PrefixWhole(a, 0); }
  }

  lemma {:induction false} PrefixWhole(a: seq<string>, k: nat)
    requires k <= |a|
    ensures PrefixLen(a, a, k) == |a|
    decreases |a| - k
  {
    if k < |a| { PrefixWhole(a, k + 1); }
  }

  method TrimDiff(b: seq<string>, a: seq<string>) returns (d: Diff)
    ensures d == DiffOf(b, a)
  {
    var start := 0;
    while start < |b| && start < |a| && b[start] == a[start]
      invariant start <= |b| && start <= |a|
      invariant PrefixLen(b, a, 0) == PrefixLen(b, a, start)
    {
      start := start + 1;
    }
    var endBefore, endAfter := |b|, |a|;
    while endBefore > start && endAfter > start && b[endBefore - 1] == a[endAfter - 1]
      invariant start <= endBefore <= |b| && start <= endAfter <= |a| && |b| - endBefore == |a| - endAfter
      invariant SuffixLen(b, a, start, 0) == SuffixLen(b, a, start, |b| - endBefore)
      decreases endBefore
    {
      endBefore, endAfter := endBefore - 1, endAfter - 1;
    }
    return Diff(start, endBefore, endAfter);
  }

  // ---------------------------------------------------------------- the printer

  function LinesOf(raw: string): seq<string> { Split(Normalize(raw), '\n') }

  function KindOf(d: Diff, body: seq<string>): HunkKind {
    if d.start == d.endBefore then
      if d.start == 0 then Put(Before(1), body) else Put(After(d.start), body)
    else if d.start == d.endAfter then Cut(Range(d.start + 1, d.endBefore), "")
    else Put(Range(d.start + 1, d.endBefore), body)
  }

  function HunkLine(d: Diff): string {
    if d.start == d.endBefore then PutLine(if d.start == 0 then "<1" else ">" + Itoa(d.start))
    else if d.start == d.endAfter then CutLine(RangeText(d.start + 1, d.endBefore))
    else PutLine(RangeText(d.start + 1, d.endBefore))
  }

  function PlusRows(lines: seq<string>, i: nat, k: nat): (rows: seq<string>)
    requires i <= k <= |lines|
    ensures |rows| == k - i && forall j :: 0 <= j < |rows| ==> rows[j] == "+" + lines[i + j]
  {
    if i == k then [] else PlusRows(lines, i, k - 1) + ["+" + lines[k - 1]]
  }

  function SectionLines(tag: string -> string, c: Change): seq<string> {
    var b, a := LinesOf(c.before), LinesOf(c.after);
    var d := DiffOf(b, a);
    [HeaderLine(c.path, tag(Normalize(c.before))), HunkLine(d)] + PlusRows(a, d.start, d.endAfter)
  }

  /** The changes worth printing among the first n. */
  function Differing(cs: seq<Change>, n: nat): seq<Change>
    requires n <= |cs|
  {
    if n == 0 then []
    else if cs[n - 1].before == cs[n - 1].after then Differing(cs, n - 1)
    else Differing(cs, n - 1) + [cs[n - 1]]
  }

  /** The first n blocks one after the other. */
  function Flatten(blocks: seq<seq<string>>, n: nat): seq<string>
    requires n <= |blocks|
  {
    if n == 0 then [] else Flatten(blocks, n - 1) + blocks[n - 1]
  }

  type SectionPrinter = Change -> seq<string>

  function Printer(tag: string -> string): SectionPrinter { (c: Change) => SectionLines(tag, c) }

  function Blocks(section: SectionPrinter, ds: seq<Change>, n: nat): (blocks: seq<seq<string>>)
    requires n <= |ds|
    ensures |blocks| == n && forall i :: 0 <= i < n ==> blocks[i] == section(ds[i])
  {
    if n == 0 then [] else Blocks(section, ds, n - 1) + [section(ds[n - 1])]
  }

  predicate Representable(path: string) {
    '\r' !in path && '\n' !in path && '#' !in path && '[' !in path && ']' !in path
  }

  predicate AllRepresentable(ds: seq<Change>) { forall i :: 0 <= i < |ds| ==> Representable(ds[i].path) }

  /** The text of the first n lines, each ended by a newline. */
  function Terminated(lines: seq<string>, n: nat): string
    requires n <= |lines|
  {
    if n == 0 then "" else Terminated(lines, n - 1) + lines[n - 1] + "\n"
  }

  /** A first line and the blocks, every line ended by a newline. */
  function Begun(first: string, blocks: seq<seq<string>>): string {
    var body := Flatten(blocks, |blocks|);
    Terminated([first] + body, 1 + |body|)
  }

  function PatchText(tag: string -> string, ds: seq<Change>): string {
    Begun(BEGIN, Blocks(Printer(tag), ds, |ds|)) + END
  }

  function Print(tag: string -> string, cs: seq<Change>): Printed {
    var ds := Differing(cs, |cs|);
    if !AllRepresentable(ds) then Unrepresentable
    else if ds == [] then NothingChanged
    else Patch(PatchText(tag, ds))
  }

  lemma {:induction false} TerminatedSplit(lines: seq<string>, more: seq<string>, n: nat)
    requires n <= |more|
    ensures Terminated(lines + more, |lines| + n) == Terminated(lines, |lines|) + Terminated(more, n)
  {
    if n == 0 {
      TerminatedPrefix(lines, more, |lines|);
      assert Terminated(lines, |lines|) + "" == Terminated(lines, |lines|);
    } else {
      TerminatedSplit(lines, more, n - 1);
      assert (lines + more)[|lines| + n - 1] == more[n - 1];
      Append3(Terminated(lines, |lines|), Terminated(more, n - 1), more[n - 1], "\n");
    }
  }

  lemma {:induction false} TerminatedPrefix(lines: seq<string>, more: seq<string>, n: nat)
    requires n <= |lines|
    ensures Terminated(lines + more, n) == Terminated(lines, n)
  {
    if n > 0 { TerminatedPrefix(lines, more, n - 1); }
  }

  lemma Append3(a: string, b: string, c: string, d: string)
    ensures (a + b) + c + d == a + (b + c + d)
  {
  }

  /** Writes a two-line head and then one row per line of the new middle. */
  method PrintRows(header: string, hunk: string, a: seq<string>, start: nat, end: nat) returns (text: string)
    requires start <= end <= |a|
    ensures text == Terminated([header, hunk] + PlusRows(a, start, end), 2 + end - start)
  {
    ghost var head := [header, hunk];
    text := header + "\n" + hunk + "\n";
    HeadText(header, hunk);
    for k := start to end
      invariant text == Terminated(head, 2) + Terminated(PlusRows(a, start, k), k - start)
    {
      RowText1(Terminated(head, 2), PlusRows(a, start, k), "+" + a[k]);
      text := text + ("+" + a[k]) + "\n";
    }
    TerminatedSplit(head, PlusRows(a, start, end), end - start);
  }

  lemma HeadText(header: string, hunk: string)
    ensures header + "\n" + hunk + "\n" == Terminated([header, hunk], 2) + Terminated([], 0)
  {
    assert Terminated([header, hunk], 1) == "" + header + "\n";
  }

  lemma RowText1(text: string, rows: seq<string>, row: string)
    ensures (text + Terminated(rows, |rows|)) + row + "\n" == text + Terminated(rows + [row], |rows| + 1)
  {
    TerminatedPrefix(rows, [row], |rows|);
    Append3(text, Terminated(rows, |rows|), row, "\n");
  }

  method PrintSection(tag: string -> string, c: Change) returns (text: string)
    ensures text == Terminated(SectionLines(tag, c), |SectionLines(tag, c)|)
  {
    var b, a := LinesOf(c.before), LinesOf(c.after);
    var d := TrimDiff(b, a);
    text := PrintRows(HeaderLine(c.path, tag(Normalize(c.before))), HunkLine(d), a, d.start, d.endAfter);
  }

  /** The patch covers the differing changes among the first k. */
  ghost predicate PrintedUpTo(first: string, section: SectionPrinter, cs: seq<Change>, k: nat, patch: string, count: nat)
    requires k <= |cs|
  {
    var ds := Differing(cs, k);
    count == |ds| && AllRepresentable(ds) && patch == Begun(first, Blocks(section, ds, |ds|))
  }

  lemma CoversNone(first: string, section: SectionPrinter, cs: seq<Change>)
    ensures PrintedUpTo(first, section, cs, 0, first + "\n", 0)
  {
    NothingBegun(first);
  }

  lemma CoversNext(first: string, section: SectionPrinter, cs: seq<Change>, k: nat, patch: string, count: nat, text: string)
    requires k < |cs| && PrintedUpTo(first, section, cs, k, patch, count)
    ensures cs[k].before == cs[k].after ==> PrintedUpTo(first, section, cs, k + 1, patch, count)
    ensures cs[k].before != cs[k].after && Representable(cs[k].path) && text == Terminated(section(cs[k]), |section(cs[k])|) ==>
              PrintedUpTo(first, section, cs, k + 1, patch + text, count + 1)
  {
    if cs[k].before != cs[k].after && text == Terminated(section(cs[k]), |section(cs[k])|) {
      BegunMore(first, section, Differing(cs, k), cs[k], text);
    }
  }

  method PrintSections(first: string, tag: string -> string, cs: seq<Change>) returns (patch: string, count: nat, ok: bool)
    ensures ok <==> AllRepresentable(Differing(cs, |cs|))
    ensures ok ==> PrintedUpTo(first, Printer(tag), cs, |cs|, patch, count)
  {
    patch, count, ok := first + "\n", 0, true;
    CoversNone(first, Printer(tag), cs);
    for k := 0 to |cs|
      invariant ok && PrintedUpTo(first, Printer(tag), cs, k, patch, count)
    {
      if cs[k].before == cs[k].after {
        CoversNext(first, Printer(tag), cs, k, patch, count, "");
      } else {
        if !Representable(cs[k].path) {
          NotRepresentable(cs, k, |cs|);
          return patch, count, false;
        }
        var text := PrintSection(tag, cs[k]);
        CoversNext(first, Printer(tag), cs, k, patch, count, text);
        patch := patch + text;
        count := count + 1;
      }
    }
  }

  /** applyNativeChanges up to handing the patch to the edit driver. */
  method PrintChanges(tag: string -> string, cs: seq<Change>) returns (r: Printed)
    ensures r == Print(tag, cs)
  {
    var patch, count, ok := PrintSections(BEGIN, tag, cs);
    if !ok {
      return Unrepresentable;
    }
    if count == 0 {
      return NothingChanged;
    }
    return Patch(patch + END);
  }

  lemma NothingBegun(first: string)
    ensures Begun(first, []) == first + "\n"
  {
    assert [first] + [] == [first];
    assert Terminated([first], 1) == "" + first + "\n";
  }

  lemma BegunMore(first: string, section: SectionPrinter, ds: seq<Change>, c: Change, text: string)
    requires text == Terminated(section(c), |section(c)|)
    ensures Begun(first, Blocks(section, ds + [c], |ds| + 1)) == Begun(first, Blocks(section, ds, |ds|)) + text
  {
    var blocks, more := Blocks(section, ds, |ds|), section(c);
    BlocksMore(section, ds, c);
    FlattenPrefix(blocks, [more], |blocks|);
    BegunBlock(first, Flatten(blocks, |blocks|), more);
  }

  lemma BegunBlock(first: string, body: seq<string>, more: seq<string>)
    ensures Terminated([first] + (body + more), 1 + |body + more|) == Terminated([first] + body, 1 + |body|) + Terminated(more, |more|)
  {
    assert [first] + (body + more) == ([first] + body) + more;
    TerminatedSplit([first] + body, more, |more|);
  }

  lemma {:induction false} FlattenPrefix(blocks: seq<seq<string>>, more: seq<seq<string>>, n: nat)
    requires n <= |blocks|
    ensures Flatten(blocks + more, n) == Flatten(blocks, n)
  {
    if n > 0 { FlattenPrefix(blocks, more, n - 1); }
  }

  lemma BlocksMore(section: SectionPrinter, ds: seq<Change>, c: Change)
    ensures Blocks(section, ds + [c], |ds| + 1) == Blocks(section, ds, |ds|) + [section(c)]
  {
    var longer, shorter := Blocks(section, ds + [c], |ds| + 1), Blocks(section, ds, |ds|);
    forall i | 0 <= i < |ds| ensures longer[i] == shorter[i] {
      assert (ds + [c])[i] == ds[i];
    }
  }

  lemma {:induction false} NotRepresentable(cs: seq<Change>, k: nat, n: nat)
    requires k < n <= |cs| && cs[k].before != cs[k].after && !Representable(cs[k].path)
    ensures !AllRepresentable(Differing(cs, n))
  {
    if n - 1 == k {
      assert Differing(cs, n)[|Differing(cs, n)| - 1] == cs[k];
    } else {
      NotRepresentable(cs, k, n - 1);
      var i :| 0 <= i < |Differing(cs, n - 1)| && !Representable(Differing(cs, n - 1)[i].path);
      assert Differing(cs, n)[i] == Differing(cs, n - 1)[i];
    }
  }
}
