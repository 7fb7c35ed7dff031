/** applyNativeChanges from the change list to the files: what is printed, read back and applied. */
module NativeChanges {
  import opened Common
  import opened Text
  import opened HashlinePatch
  import opened HashlinePrepare
  import opened NativeEdits
  import opened NativeRoundTrip
  import HashlineDriver

  lemma {:induction false} DifferingMembers(cs: seq<Change>, n: nat, c: Change)
    requires n <= |cs|
    ensures c in Differing(cs, n) <==> c in cs[..n] && c.before != c.after
  {
    if n > 0 {
      DifferingMembers(cs, n - 1, c);
      assert cs[..n] == cs[..n - 1] + [cs[n - 1]];
    }
  }

  ghost predicate DistinctPaths(cs: seq<Change>) { forall i, j :: 0 <= i < j < |cs| ==> cs[i].path != cs[j].path }

  lemma PathsDistinct(cs: seq<Change>)
    ensures NoRepeats(PathsOf(cs, |cs|)) <==> DistinctPaths(cs)
  {
    var paths := PathsOf(cs, |cs|);
    if NoRepeats(paths) {
      forall i, j | 0 <= i < j < |cs| ensures cs[i].path != cs[j].path { assert paths[i] != paths[j]; }
    }
  }

  lemma {:induction false} DifferingDistinct(cs: seq<Change>, n: nat)
    requires n <= |cs| && DistinctPaths(cs)
    ensures DistinctPaths(Differing(cs, n))
    ensures forall c :: c in Differing(cs, n) ==> exists i :: 0 <= i < n && cs[i] == c
  {
    if n > 0 {
      DifferingDistinct(cs, n - 1);
      var before, last := Differing(cs, n - 1), cs[n - 1];
      forall c | c in before ensures c.path != last.path {
        var i :| 0 <= i < n - 1 && cs[i] == c;
      }
      assert forall i :: 0 <= i < |before| ==> before[i] in before;
    }
  }

  /** Every text has a tag of four hexadecimal digits, and files to be changed are named by their
      workspace paths and have lines that can be counted. */
  ghost predicate Ordinary(host: Host, cs: seq<Change>) {
    && (forall text :: IsTag(host.tag(text)))
    && (forall c :: c in cs && c.before != c.after ==> c.path != "" && host.resolve(c.path) == Some(c.path) && |LinesOf(c.before)| <= MAX_INT)
  }

  /** The changes worth printing still describe distinct files on disk. */
  lemma DifferingOnDisk(host: Host, files: Files, cs: seq<Change>)
    requires OnDisk(files, cs) && Ordinary(host, cs)
    ensures var ds := Differing(cs, |cs|); OnDisk(files, ds) && (AllRepresentable(ds) ==> AllPrintable(host, ds))
  {
    var ds := Differing(cs, |cs|);
    PathsDistinct(cs);
    DifferingDistinct(cs, |cs|);
    PathsDistinct(ds);
    assert cs[..|cs|] == cs;
    forall k | 0 <= k < |ds|
      ensures ds[k].path in files && files[ds[k].path].data == ds[k].before && ds[k].path != "" && |LinesOf(ds[k].before)| <= MAX_INT
      ensures host.resolve(ds[k].path) == Some(ds[k].path)
    {
      assert ds[k] in ds;
      DifferingMembers(cs, |cs|, ds[k]);
      var i :| 0 <= i < |cs| && cs[i] == ds[k];
    }
  }

  /** The files after the changes: each changed file holds its normalized new text in its old mode,
      all others are as they were. */
  ghost predicate Applied(files: Files, cs: seq<Change>, now: Files) {
    && now.Keys == files.Keys
    && (forall c :: c in cs && c.path in files && c.path in now ==>
          now[c.path] == if c.before == c.after then files[c.path] else FileState(Normalize(c.after), files[c.path].mode))
    && (forall path :: path in files && path in now && path !in PathsOf(cs, |cs|) ==> now[path] == files[path])
  }

  lemma PathListed(cs: seq<Change>, path: string)
    ensures path in PathsOf(cs, |cs|) <==> exists c :: c in cs && c.path == path
  {
    var paths := PathsOf(cs, |cs|);
    if path in paths {
      var i :| 0 <= i < |paths| && paths[i] == path;
      assert cs[i] in cs;
    }
    if exists c :: c in cs && c.path == path {
      var c :| c in cs && c.path == path;
      var i :| 0 <= i < |cs| && cs[i] == c;
      assert paths[i] == path;
    }
  }

  lemma SamePath(cs: seq<Change>, c: Change, d: Change)
    requires DistinctPaths(cs) && c in cs && d in cs && c.path == d.path
    ensures c == d
  {
    var i :| 0 <= i < |cs| && cs[i] == c;
    var j :| 0 <= j < |cs| && cs[j] == d;
    assert i == j;
  }

  lemma RewrittenApplies(files: Files, cs: seq<Change>, now: Files)
    requires OnDisk(files, cs) && Rewritten(files, Differing(cs, |cs|), now)
    ensures Applied(files, cs, now)
  {
    var ds := Differing(cs, |cs|);
    PathsDistinct(cs);
    assert cs[..|cs|] == cs;
    forall c | c in cs && c.path in files && c.path in now
      ensures now[c.path] == if c.before == c.after then files[c.path] else FileState(Normalize(c.after), files[c.path].mode)
    {
      DifferingMembers(cs, |cs|, c);
      if c.before != c.after {
        var k :| 0 <= k < |ds| && ds[k] == c;
      } else {
        Unlisted(cs, c.path, c);
      }
    }
    forall path | path in files && path in now && path !in PathsOf(cs, |cs|) ensures now[path] == files[path] {
      PathListed(cs, path);
      PathListed(ds, path);
      forall d | d in ds ensures d in cs { DifferingMembers(cs, |cs|, d); }
    }
  }

  /** A file whose change is empty is not among the printed ones. */
  lemma Unlisted(cs: seq<Change>, path: string, c: Change)
    requires DistinctPaths(cs) && c in cs && c.path == path && c.before == c.after
    ensures path !in PathsOf(Differing(cs, |cs|), |Differing(cs, |cs|)|)
  {
    var ds := Differing(cs, |cs|);
    PathListed(ds, path);
    assert cs[..|cs|] == cs;
    forall d | d in ds ensures d.path != path {
      DifferingMembers(cs, |cs|, d);
      if d.path == path { SamePath(cs, c, d); }
    }
  }

  /** The path holds a line end or a character of the section header. */
  ghost predicate Special(path: string) {
    exists c :: c in path && (c == '\r' || c == '\n' || c == '#' || c == '[' || c == ']')
  }

  /** Main theorem: changes to distinct files as they are on disk are refused unprinted exactly when a
      file that changes has a name a patch cannot hold, and nothing is printed exactly when nothing
      differs; otherwise the printed patch is accepted exactly when normalization hides no difference,
      and then it makes all the changes and no other. */
  lemma NativeChangesRoundTrip(host: Host, clipboard: Registers, files: Files, cs: seq<Change>)
    requires OnDisk(files, cs) && Ordinary(host, cs)
    ensures Print(host.tag, cs) == Unrepresentable <==> exists c :: c in cs && c.before != c.after && Special(c.path)
    ensures match Print(host.tag, cs)
            case Unrepresentable => true
            case NothingChanged => forall c :: c in cs ==> c.before == c.after
            case Patch(text) =>
              var r := HashlineDriver.Executed(host, clipboard, files, text);
              && (r.Some? <==> forall c :: c in cs && c.before != c.after ==> Visible(c))
              && (r.Some? ==> Applied(files, cs, r.value))
  {
    var ds := Differing(cs, |cs|);
    DifferingOnDisk(host, files, cs);
    assert cs[..|cs|] == cs;
    forall c ensures c in ds <==> c in cs && c.before != c.after { DifferingMembers(cs, |cs|, c); }
    RepresentableEach(ds);
    forall c: Change ensures Special(c.path) <==> !Representable(c.path) { SpecialIs(c.path); }
    if ds != [] && AllRepresentable(ds) {
      PrintedPatchRoundTrip(host, clipboard, files, ds);
      AllVisible(ds);
      var r := HashlineDriver.Executed(host, clipboard, files, PatchText(host.tag, ds));
      if r.Some? { RewrittenApplies(files, cs, r.value); }
    }
  }

  lemma SpecialIs(path: string)
    ensures Special(path) <==> !Representable(path)
  {
  }

  lemma RepresentableEach(ds: seq<Change>)
    ensures AllRepresentable(ds) <==> forall c :: c in ds ==> Representable(c.path)
  {
    assert forall i :: 0 <= i < |ds| ==> ds[i] in ds;
  }

  /** A change that normalization hides is printed as a PUT after the last line, with no row. */
  lemma HiddenPrintsEmptyPut(tag: string -> string, c: Change)
    requires !Visible(c)
    ensures SectionLines(tag, c) == [HeaderLine(c.path, tag(Normalize(c.before))), PutLine(">" + Itoa(|LinesOf(c.before)|))]
  {
    PrefixWhole(LinesOf(c.before), 0);
  }

  lemma OneSection(tag: string -> string, c: Change, header: string, hunk: string)
    requires SectionLines(tag, c) == [header, hunk]
    ensures PatchText(tag, [c]) == BEGIN + "\n" + header + "\n" + hunk + "\n" + END
  {
    var blocks := Blocks(Printer(tag), [c], 1);
    assert blocks == [[header, hunk]];
    assert Flatten(blocks, 0) == [] && Flatten(blocks, 1) == [header, hunk];
    assert [BEGIN] + [header, hunk] == [BEGIN, header, hunk];
    ThreeLines(BEGIN, header, hunk);
  }

  lemma ThreeLines(a: string, b: string, c: string)
    ensures Terminated([a, b, c], 3) == a + "\n" + b + "\n" + c + "\n"
  {
    assert Terminated([a, b, c], 1) == "" + a + "\n";
    assert Terminated([a, b, c], 2) == Terminated([a, b, c], 1) + b + "\n";
  }

  lemma LineEndsFold()
    ensures Normalize("x\r\n") == "x\n" && Normalize("x\n") == "x\n" && |LinesOf("x\r\n")| == 2
  {
    var s := "x\r\n";
    assert s[1..] == "\r\n" && s[1..][2..] == "";
    assert FoldCrLf("\r\n") == ['\n'] + FoldCrLf("");
    assert FoldCrLf(s) == "x\n";
    NoCrFixed("x\n");
    SplitHead("x", "", '\n');
    assert "x" + ['\n'] + "" == "x\n";
  }

  const ENDS: Change := Change("f", "x\r\n", "x\n")

  lemma EndsDiffer()
    ensures ENDS.before != ENDS.after && !Visible(ENDS) && Differing([ENDS], 1) == [ENDS] && AllRepresentable([ENDS])
  {
    LineEndsFold();
    assert ENDS.before[1] != ENDS.after[1];
    assert Differing([ENDS], 0) == [];
  }

  function EndsPatch(tag: string -> string): string {
    BEGIN + "\n" + HeaderLine("f", tag("x\n")) + "\n" + "PUT >2:" + "\n" + END
  }

  lemma EndsPrinted(tag: string -> string)
    ensures Print(tag, [ENDS]) == Patch(EndsPatch(tag))
  {
    LineEndsFold();
    EndsDiffer();
    assert Itoa(2) == "2" && PutLine(">" + "2") == "PUT >2:";
    HiddenPrintsEmptyPut(tag, ENDS);
    OneSection(tag, ENDS, HeaderLine("f", tag("x\n")), "PUT >2:");
  }

  lemma EndsOnDisk(host: Host, files: Files)
    requires (forall text :: IsTag(host.tag(text))) && host.resolve("f") == Some("f") && "f" in files && files["f"].data == "x\r\n"
    ensures OnDisk(files, [ENDS]) && Ordinary(host, [ENDS])
  {
    PathsDistinct([ENDS]);
  }

  /** One change that normalization hides is refused, wherever it can be printed. */
  lemma HiddenRefused(host: Host, clipboard: Registers, files: Files, c: Change, text: string)
    requires OnDisk(files, [c]) && Ordinary(host, [c]) && c.before != c.after && !Visible(c) && Print(host.tag, [c]) == Patch(text)
    ensures HashlineDriver.Executed(host, clipboard, files, text) == None
  {
    assert c in [c];
    NativeChangesRoundTrip(host, clipboard, files, [c]);
  }

  /** Turning a carriage return and newline into a newline prints a PUT with no row, and the printed patch is refused. */
  lemma LineEndChangeRefused(host: Host, clipboard: Registers, files: Files)
    requires (forall text :: IsTag(host.tag(text))) && host.resolve("f") == Some("f") && "f" in files && files["f"].data == "x\r\n"
    ensures Print(host.tag, [Change("f", "x\r\n", "x\n")]) == Patch(EndsPatch(host.tag))
    ensures HashlineDriver.Executed(host, clipboard, files, EndsPatch(host.tag)) == None
  {
    EndsDiffer();
    EndsPrinted(host.tag);
    EndsOnDisk(host, files);
    HiddenRefused(host, clipboard, files, ENDS, EndsPatch(host.tag));
  }

  lemma AllVisible(ds: seq<Change>)
    ensures (forall i :: 0 <= i < |ds| ==> Visible(ds[i])) <==> (forall c :: c in ds ==> Visible(c))
  {
    assert forall i :: 0 <= i < |ds| ==> ds[i] in ds;
  }
}
