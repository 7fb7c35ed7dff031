/** The whole patch language printed and read back: a printer for every kind of hunk, and the law that
    the parser inverts it. */
module HashlineLanguage {
  import opened Common
  import opened Text
  import opened HashlinePatch

  // ---------------------------------------------------------------- printing

  function LocatorText(l: Locator): string {
    match l
    case Range(start, end) => RangeText(start, end)
    case Block(line) => Itoa(line) + "*"
    case Before(line) => "<" + Itoa(line)
    case After(line) => ">" + Itoa(line)
    case AfterBlock(line) => ">" + Itoa(line) + "*"
    case Tail => ">$"
  }

  function WithRegister(text: string, register: string): string {
    if register == "" then text else text + " @" + register
  }

  function HunkText(kind: HunkKind): string {
    match kind
    case Put(locator, _) => PutLine(LocatorText(locator))
    case Paste(locator, register) => "PUT " + WithRegister(LocatorText(locator), register)
    case Cut(locator, register) => "CUT " + WithRegister(LocatorText(locator), register)
    case Remove => "REM"
    case Move(destination) => "MV '" + destination + "'"
  }

  function RowsOf(body: seq<string>, n: nat): (rows: seq<string>)
    requires n <= |body|
    ensures |rows| == n && forall i :: 0 <= i < n ==> rows[i] == "+" + body[i]
  {
    if n == 0 then [] else RowsOf(body, n - 1) + ["+" + body[n - 1]]
  }

  /** How the first line of a hunk is spelled. */
  type Speller = HunkKind -> string

  function HunkLines(spell: Speller, kind: HunkKind): seq<string> {
    [spell(kind)] + if kind.Put? then RowsOf(kind.body, |kind.body|) else []
  }

  function HunksLines(spell: Speller, hunks: seq<Hunk>, k: nat): seq<string>
    requires k <= |hunks|
    decreases |hunks| - k
  {
    if k == |hunks| then [] else HunkLines(spell, hunks[k].kind) + HunksLines(spell, hunks, k + 1)
  }

  function SectionsLines(spell: Speller, sections: seq<Section>, k: nat): seq<string>
    requires k <= |sections|
    decreases |sections| - k
  {
    if k == |sections| then []
    else
      var s := sections[k];
      [HeaderLine(s.path, s.tag)] + HunksLines(spell, s.hunks, 0) + SectionsLines(spell, sections, k + 1)
  }

  function PatchLines(sections: seq<Section>): seq<string> { [BEGIN] + SectionsLines(HunkText, sections, 0) + [END] }

  function PatchOf(sections: seq<Section>): string { Join(PatchLines(sections), '\n') }

  // ---------------------------------------------------------------- what can be written

  ghost predicate LineText(s: string) { '\n' !in s && '\r' !in s }

  ghost predicate SmallLocator(l: Locator) {
    && LocatorOk(l)
    && match l
       case Range(_, end) => end <= MAX_INT
       case Tail => true
       case _ => l.line <= MAX_INT
  }

  predicate RegisterOk(register: string) { register == "" || IsWord(register) }

  ghost predicate KindWritable(kind: HunkKind) {
    match kind
    case Put(locator, body) => SmallLocator(locator) && body != [] && forall i :: 0 <= i < |body| ==> LineText(body[i])
    case Paste(locator, register) =>
      SmallLocator(locator) && RegisterOk(register) && (locator.Range? || locator.Block? ==> register != "")
    case Cut(locator, register) => SmallLocator(locator) && RegisterOk(register) && (locator.Range? || locator.Block?)
    case Remove => true
    case Move(destination) => LineText(destination)
  }

  /** Hunks from sequence number `first` on, none missing. */
  ghost predicate HunksWritable(hunks: seq<Hunk>, first: nat) {
    hunks != [] && forall k :: 0 <= k < |hunks| ==> hunks[k].sequence == first + k && KindWritable(hunks[k].kind)
  }

  ghost predicate SectionsWritable(sections: seq<Section>, k: nat, first: nat)
    requires k <= |sections|
    decreases |sections| - k
  {
    k < |sections| ==>
      && IsPath(sections[k].path) && IsTag(sections[k].tag) && HunksWritable(sections[k].hunks, first)
      && SectionsWritable(sections, k + 1, first + |sections[k].hunks|)
  }

  // ---------------------------------------------------------------- reading one line

  lemma DigitsPlain(n: nat)
    ensures Itoa(n) != "" && forall c :: c in Itoa(n) ==> IsDigit(c)
  {
  }

  lemma StarReads(n: nat, allowGap: bool)
    requires 1 <= n <= MAX_INT
    ensures ParseLocator(Itoa(n) + "*", allowGap) == Some(Block(n))
  {
    var value := Itoa(n) + "*";
    ItoaEnds(n);
    assert value[0] == Itoa(n)[0];
    TrimFixed(value);
    assert value[..|value| - 1] == Itoa(n) && value[..1] == [value[0]] && value[|value| - 1..] == "*";
    assert ">$"[0] == '>';
    AtoiItoa(n);
  }

  lemma AfterStarReads(n: nat)
    requires 1 <= n <= MAX_INT
    ensures ParseLocator(">" + Itoa(n) + "*", true) == Some(AfterBlock(n))
  {
    var value := ">" + Itoa(n) + "*";
    TrimFixed(value);
    assert value[1..|value| - 1] == Itoa(n) && value[..1] == ">" && value[|value| - 1..] == "*";
    assert value[|value| - 1] == '*' && ">$"[1] == '$';
    AtoiItoa(n);
  }

  lemma LocatorReads(l: Locator, allowGap: bool)
    requires SmallLocator(l) && (allowGap || l.Range? || l.Block?)
    ensures ParseLocator(LocatorText(l), allowGap) == Some(l)
  {
    match l
    case Range(start, end) => RangeLocatorReads(start, end, allowGap);
    case Block(line) => StarReads(line, allowGap);
    case Before(line) =>
      GapLocatorReads('<', line);
      assert "<" + Itoa(line) == ['<'] + Itoa(line);
    case After(line) =>
      GapLocatorReads('>', line);
      assert ">" + Itoa(line) == ['>'] + Itoa(line);
    case AfterBlock(line) => AfterStarReads(line);
    case Tail => TrimFixed(">$");
  }

  /** Locator texts hold digits and marks only. */
  lemma LocatorPlain(l: Locator)
    ensures var text := LocatorText(l); text != "" && ' ' !in text && LineText(text) && text[|text| - 1] != ':'
  {
    match l
    case Range(start, end) =>
      DigitsPlain(start);
      DigitsPlain(end);
      ItoaEnds(end);
      var text := LocatorText(l);
      assert text[|text| - 1] == Itoa(end)[|Itoa(end)| - 1];
    case Tail =>
    case _ =>
      DigitsPlain(l.line);
      ItoaEnds(l.line);
  }

  lemma {:induction false} LastSpaceNone(s: string, n: nat)
    requires n <= |s| && forall i :: 0 <= i < n ==> s[i] != ' '
    ensures LastSpace(s, n) == -1
  {
    if n > 0 { LastSpaceNone(s, n - 1); }
  }

  lemma {:induction false} LastSpaceAt(s: string, k: nat, n: nat)
    requires k < n <= |s| && s[k] == ' ' && forall i :: k < i < n ==> s[i] != ' '
    ensures LastSpace(s, n) == k
  {
    if k < n - 1 { LastSpaceAt(s, k, n - 1); }
  }

  lemma RegisterSplits(text: string, register: string)
    requires text != "" && ' ' !in text && RegisterOk(register)
    ensures SplitRegister(WithRegister(text, register)) == (text, register)
  {
    var s := WithRegister(text, register);
    if register == "" {
      LastSpaceNone(s, |s|);
    } else {
      var k := |text|;
      assert s[k] == ' ' && s[k + 1] == '@' && s[k + 2..] == register && s[..k] == text;
      forall i | k < i < |s| ensures s[i] != ' ' {
        if i > k + 1 { assert s[i] == register[i - k - 2] && IsWordChar(register[i - k - 2]); }
      }
      LastSpaceAt(s, k, |s|);
    }
  }

  lemma RegisterEnd(text: string, register: string)
    requires text != "" && text[|text| - 1] != ':' && RegisterOk(register)
    ensures var s := WithRegister(text, register); s != "" && s[|s| - 1] != ':'
  {
    if register != "" { assert IsWordChar(register[|register| - 1]); }
  }

  lemma PasteLineReads(value: string, locator: Locator, register: string, unquote: Unquote)
    requires value != "" && value[|value| - 1] != ':' && SplitRegister(value).1 == register
    requires ParseLocator(SplitRegister(value).0, true) == Some(locator) && (locator.Range? || locator.Block? ==> register != "")
    ensures ParseHunk("PUT " + value, unquote) == Ok(Paste(locator, register))
  {
    var line := "PUT " + value;
    assert line[4..] == value && line[..4] == "PUT ";
    assert line[|line| - 1..] == [value[|value| - 1]];
  }

  lemma CutLineReads(value: string, locator: Locator, register: string, unquote: Unquote)
    requires value != "" && SplitRegister(value).1 == register
    requires ParseLocator(SplitRegister(value).0, false) == Some(locator) && (locator.Range? || locator.Block?)
    ensures ParseHunk("CUT " + value, unquote) == Ok(Cut(locator, register))
  {
    var line := "CUT " + value;
    assert line[4..] == value && line[..4] == "CUT " && line[0] == 'C' && "PUT "[0] == 'P';
  }

  lemma MoveLineReads(destination: string, unquote: Unquote)
    ensures ParseHunk("MV '" + destination + "'", unquote) == Ok(Move(destination))
  {
    var line := "MV '" + destination + "'";
    var value := "'" + destination + "'";
    assert line[3..] == value && line[..3] == "MV " && line[0] == 'M' && "PUT "[0] == 'P' && "CUT "[0] == 'C';
    assert line != "REM" by { assert "REM"[0] == 'R'; }
    TrimFixed(value);
    assert value[1..|value| - 1] == destination;
  }

  function Bare(kind: HunkKind): HunkKind { if kind.Put? then Put(kind.locator, []) else kind }

  /** Every printed hunk line reads as its hunk. */
  lemma HunkTextReads(kind: HunkKind, unquote: Unquote)
    requires KindWritable(kind)
    ensures ParseHunk(HunkText(kind), unquote) == Ok(Bare(kind))
  {
    match kind
    case Put(locator, body) =>
      LocatorReads(locator, true);
      LocatorPlain(locator);
      PutReads(LocatorText(locator), locator, unquote);
    case Paste(locator, register) =>
      LocatorReads(locator, true);
      LocatorPlain(locator);
      RegisterSplits(LocatorText(locator), register);
      RegisterEnd(LocatorText(locator), register);
      PasteLineReads(WithRegister(LocatorText(locator), register), locator, register, unquote);
    case Cut(locator, register) =>
      LocatorReads(locator, false);
      LocatorPlain(locator);
      RegisterSplits(LocatorText(locator), register);
      RegisterEnd(LocatorText(locator), register);
      CutLineReads(WithRegister(LocatorText(locator), register), locator, register, unquote);
    case Remove => assert "REM"[0] == 'R' && "PUT "[0] == 'P' && "CUT "[0] == 'C';
    case Move(destination) => MoveLineReads(destination, unquote);
  }

  /** Printed hunk lines are lines, and neither rows nor headers. */
  lemma HunkTextPlain(kind: HunkKind)
    requires KindWritable(kind)
    ensures var text := HunkText(kind); text != "" && text[0] != '+' && text[0] != '[' && LineText(text)
  {
    match kind
    case Put(locator, body) => LocatorPlain(locator);
    case Paste(locator, register) => LocatorPlain(locator); RegisterPlain(LocatorText(locator), register);
    case Cut(locator, register) => LocatorPlain(locator); RegisterPlain(LocatorText(locator), register);
    case Remove =>
    case Move(destination) =>
  }

  lemma RegisterPlain(text: string, register: string)
    requires LineText(text) && RegisterOk(register)
    ensures LineText(WithRegister(text, register))
  {
    forall c | c in register ensures c != '\n' && c != '\r' {
      var i :| 0 <= i < |register| && register[i] == c;
      assert IsWordChar(register[i]);
    }
  }

  // ---------------------------------------------------------------- reading a layout

  lemma StandsApart<T>(lines: seq<T>, i: nat, a: seq<T>, b: seq<T>)
    requires StandsAt(lines, i, a + b)
    ensures StandsAt(lines, i, a) && StandsAt(lines, i + |a|, b)
  {
    forall j | 0 <= j < |a| ensures lines[i + j] == a[j] { assert lines[i + j] == (a + b)[j]; }
    forall j | 0 <= j < |b| ensures lines[i + |a| + j] == b[j] { assert lines[i + (|a| + j)] == (a + b)[|a| + j]; }
  }

  /** What the lexer makes of a hunk's first line. */
  ghost predicate Lexes(lex: Lexer, spell: Speller, kind: HunkKind) {
    var text := spell(kind);
    && text != "" && !IsRow(text) && lex.header(text).None? && lex.hunk(text) == Ok(Bare(kind))
    && (kind.Put? ==> kind.body != [])
  }

  /** A section ends at the end, or where the next header stands. */
  ghost predicate StopsAt(lex: Lexer, lines: seq<string>, stop: nat, end: nat) {
    stop <= end <= |lines| && (stop < end ==> lex.header(lines[stop]).Some? && !IsRow(lines[stop]))
  }

  lemma RowsBack(lines: seq<string>, i: nat, body: seq<string>)
    requires StandsAt(lines, i, RowsOf(body, |body|))
    ensures forall j :: i <= j < i + |body| ==> IsRow(lines[j])
    ensures Rows(lines, i, i + |body|) == body
  {
    var rows := RowsOf(body, |body|);
    forall j | 0 <= j < |body| ensures IsRow(lines[i + j]) && RowText(lines[i + j]) == body[j] {
      assert lines[i + j] == rows[j] == "+" + body[j];
      assert ("+" + body[j])[..1] == "+" && ("+" + body[j])[1..] == body[j];
    }
    forall j | i <= j < i + |body| ensures IsRow(lines[j]) {
      var k := j - i;
      assert lines[i + k] == rows[k] == "+" + body[k] && i + k == j;
      assert ("+" + body[k])[..1] == "+";
    }
  }

  /** One hunk with its rows, followed by something that is not a row. */
  lemma HunkStands(lex: Lexer, spell: Speller, lines: seq<string>, i: nat, end: nat, kind: HunkKind)
    requires Lexes(lex, spell, kind) && StandsAt(lines, i, HunkLines(spell, kind)) && i + |HunkLines(spell, kind)| <= end <= |lines|
    requires i + |HunkLines(spell, kind)| < end ==> !IsRow(lines[i + |HunkLines(spell, kind)|])
    ensures i < end && HunkAt(lines, i, end, lex) == Ok((kind, i + |HunkLines(spell, kind)|))
  {
    HunkFirst(spell, lines, i, kind);
    if kind.Put? { BodyStands(spell, lines, i, kind); }
    HunkReads(lex, lines, i, end, kind, |HunkLines(spell, kind)|);
  }

  lemma HunkReads(lex: Lexer, lines: seq<string>, i: nat, end: nat, kind: HunkKind, n: nat)
    requires i + n <= end <= |lines| && i < |lines| && lines[i] != "" && lex.hunk(lines[i]) == Ok(Bare(kind))
    requires if kind.Put? then n == 1 + |kind.body| && kind.body != [] && BodyAt(lines, i + 1, kind.body) else n == 1
    requires i + n < end ==> !IsRow(lines[i + n])
    ensures i < end && HunkAt(lines, i, end, lex) == Ok((kind, i + n))
  {
    if kind.Put? { PutReadsBack(lex, lines, i, end, kind); } else { PlainReadsBack(lex, lines, i, end, kind); }
  }

  ghost predicate BodyAt(lines: seq<string>, i: nat, body: seq<string>) {
    && i + |body| <= |lines| && Rows(lines, i, i + |body|) == body
    && forall j :: i <= j < i + |body| ==> IsRow(lines[j])
  }

  lemma BodyStands(spell: Speller, lines: seq<string>, i: nat, kind: HunkKind)
    requires kind.Put? && StandsAt(lines, i, HunkLines(spell, kind))
    ensures BodyAt(lines, i + 1, kind.body) && |HunkLines(spell, kind)| == 1 + |kind.body|
  {
    StandsApart(lines, i, [spell(kind)], RowsOf(kind.body, |kind.body|));
    RowsBack(lines, i + 1, kind.body);
  }

  lemma PlainReadsBack(lex: Lexer, lines: seq<string>, i: nat, end: nat, kind: HunkKind)
    requires !kind.Put? && i < end <= |lines| && lines[i] != "" && lex.hunk(lines[i]) == Ok(kind)
    ensures HunkAt(lines, i, end, lex) == Ok((kind, i + 1))
  {
  }

  lemma PutReadsBack(lex: Lexer, lines: seq<string>, i: nat, end: nat, kind: HunkKind)
    requires kind.Put? && kind.body != [] && i + 1 + |kind.body| <= end <= |lines|
    requires lines[i] != "" && lex.hunk(lines[i]) == Ok(Bare(kind)) && BodyAt(lines, i + 1, kind.body)
    requires i + 1 + |kind.body| < end ==> !IsRow(lines[i + 1 + |kind.body|])
    ensures HunkAt(lines, i, end, lex) == Ok((kind, i + 1 + |kind.body|))
  {
    RowsEndAt(lines, i + 1, i + 1 + |kind.body|, end);
  }

  lemma HunksStep(lines: seq<string>, i: nat, end: nat, sequence: nat, lex: Lexer, kind: HunkKind, next: nat, rest: seq<Hunk>, stop: nat)
    requires i < end && end <= |lines| && lex.header(lines[i]).None? && HunkAt(lines, i, end, lex) == Ok((kind, next))
    requires next <= end && ParseHunks(lines, next, end, sequence + 1, lex) == Ok((rest, stop))
    ensures ParseHunks(lines, i, end, sequence, lex) == Ok(([Hunk(kind, sequence)] + rest, stop))
  {
  }

  /** Hunk j stands at at(j) and is read there. */
  ghost predicate ReadsAt(lex: Lexer, lines: seq<string>, end: nat, hunks: seq<Hunk>, at: nat -> nat, j: nat)
    requires end <= |lines| && j < |hunks|
  {
    && at(j) < end && at(j + 1) <= end && lex.header(lines[at(j)]).None?
    && HunkAt(lines, at(j), end, lex) == Ok((hunks[j].kind, at(j + 1)))
  }

  lemma {:induction false} HunksByTable(lex: Lexer, lines: seq<string>, end: nat, hunks: seq<Hunk>, at: nat -> nat, k: nat, first: nat)
    requires end <= |lines| && k <= |hunks| && at(|hunks|) <= end && at(k) <= end && (at(|hunks|) < end ==> lex.header(lines[at(|hunks|)]).Some?)
    requires forall j :: 0 <= j < |hunks| ==> ReadsAt(lex, lines, end, hunks, at, j) && hunks[j].sequence == first + j
    ensures ParseHunks(lines, at(k), end, first + k, lex) == Ok((hunks[k..], at(|hunks|)))
    decreases |hunks| - k
  {
    if k == |hunks| {
      assert hunks[k..] == [];
    } else {
      assert ReadsAt(lex, lines, end, hunks, at, k);
      HunksByTable(lex, lines, end, hunks, at, k + 1, first);
      HunksTail(lex, lines, at(k), end, hunks, k, first, at(k + 1), at(|hunks|));
    }
  }

  /** Where the hunks of a section stand, when the first stands at i. */
  function PlaceAt(spell: Speller, hunks: seq<Hunk>, i: nat, j: nat): nat {
    if j <= |hunks| && |HunksLines(spell, hunks, j)| <= i + |HunksLines(spell, hunks, 0)|
    then i + |HunksLines(spell, hunks, 0)| - |HunksLines(spell, hunks, j)| else 0
  }

  lemma {:induction false} TailStands(spell: Speller, lines: seq<string>, hunks: seq<Hunk>, i: nat, j: nat)
    requires j <= |hunks| && StandsAt(lines, i, HunksLines(spell, hunks, 0))
    ensures |HunksLines(spell, hunks, j)| <= |HunksLines(spell, hunks, 0)|
    ensures StandsAt(lines, PlaceAt(spell, hunks, i, j), HunksLines(spell, hunks, j))
  {
    if j > 0 {
      TailStands(spell, lines, hunks, i, j - 1);
      StandsApart(lines, PlaceAt(spell, hunks, i, j - 1), HunkLines(spell, hunks[j - 1].kind), HunksLines(spell, hunks, j));
    }
  }

  /** The hunks of a section, read through the table of their places. */
  lemma HunksStand(lex: Lexer, spell: Speller, lines: seq<string>, i: nat, end: nat, hunks: seq<Hunk>, first: nat, stop: nat)
    requires StandsAt(lines, i, HunksLines(spell, hunks, 0)) && stop == i + |HunksLines(spell, hunks, 0)|
    requires forall j :: 0 <= j < |hunks| ==> Lexes(lex, spell, hunks[j].kind) && hunks[j].sequence == first + j
    requires StopsAt(lex, lines, stop, end)
    ensures ParseHunks(lines, i, end, first, lex) == Ok((hunks, stop))
  {
    AllReadAt(lex, spell, lines, i, end, hunks, first);
    PlaceEnds(spell, hunks, i);
    WholeTable(lex, lines, i, end, hunks, Places(spell, hunks, i), first, stop);
  }

  lemma AllReadAt(lex: Lexer, spell: Speller, lines: seq<string>, i: nat, end: nat, hunks: seq<Hunk>, first: nat)
    requires StandsAt(lines, i, HunksLines(spell, hunks, 0)) && StopsAt(lex, lines, i + |HunksLines(spell, hunks, 0)|, end)
    requires forall j :: 0 <= j < |hunks| ==> Lexes(lex, spell, hunks[j].kind) && hunks[j].sequence == first + j
    ensures forall j :: 0 <= j < |hunks| ==> ReadsAt(lex, lines, end, hunks, Places(spell, hunks, i), j) && hunks[j].sequence == first + j
  {
    forall j | 0 <= j < |hunks| ensures ReadsAt(lex, lines, end, hunks, Places(spell, hunks, i), j) {
      HunkReadsAt(lex, spell, lines, i, end, hunks, j);
    }
  }

  function Places(spell: Speller, hunks: seq<Hunk>, i: nat): nat -> nat { (j: nat) => PlaceAt(spell, hunks, i, j) }

  lemma PlaceEnds(spell: Speller, hunks: seq<Hunk>, i: nat)
    ensures Places(spell, hunks, i)(0) == i && Places(spell, hunks, i)(|hunks|) == i + |HunksLines(spell, hunks, 0)|
  {
  }

  lemma WholeTable(lex: Lexer, lines: seq<string>, i: nat, end: nat, hunks: seq<Hunk>, at: nat -> nat, first: nat, stop: nat)
    requires at(0) == i && at(|hunks|) == stop && i <= end && StopsAt(lex, lines, stop, end)
    requires forall j :: 0 <= j < |hunks| ==> ReadsAt(lex, lines, end, hunks, at, j) && hunks[j].sequence == first + j
    ensures ParseHunks(lines, i, end, first, lex) == Ok((hunks, stop))
  {
    HunksByTable(lex, lines, end, hunks, at, 0, first);
    assert hunks[0..] == hunks;
  }

  lemma HunkReadsAt(lex: Lexer, spell: Speller, lines: seq<string>, i: nat, end: nat, hunks: seq<Hunk>, j: nat)
    requires j < |hunks| && StandsAt(lines, i, HunksLines(spell, hunks, 0)) && StopsAt(lex, lines, i + |HunksLines(spell, hunks, 0)|, end)
    requires forall n :: 0 <= n < |hunks| ==> Lexes(lex, spell, hunks[n].kind)
    ensures ReadsAt(lex, lines, end, hunks, Places(spell, hunks, i), j)
  {
    var at, next := PlaceAt(spell, hunks, i, j), PlaceAt(spell, hunks, i, j + 1);
    TailStands(spell, lines, hunks, i, j);
    TailStands(spell, lines, hunks, i, j + 1);
    StandsApart(lines, at, HunkLines(spell, hunks[j].kind), HunksLines(spell, hunks, j + 1));
    NextNotRow(lex, spell, lines, next, end, hunks, j + 1);
    HunkLexed(lex, spell, lines, at, end, hunks[j].kind, next);
  }

  lemma HunkLexed(lex: Lexer, spell: Speller, lines: seq<string>, i: nat, end: nat, kind: HunkKind, next: nat)
    requires Lexes(lex, spell, kind) && StandsAt(lines, i, HunkLines(spell, kind)) && next == i + |HunkLines(spell, kind)|
    requires next <= end <= |lines| && (next < end ==> !IsRow(lines[next]))
    ensures i < end && lex.header(lines[i]).None? && HunkAt(lines, i, end, lex) == Ok((kind, next))
  {
    HunkStands(lex, spell, lines, i, end, kind);
    HunkFirst(spell, lines, i, kind);
  }

  lemma HunksTail(lex: Lexer, lines: seq<string>, i: nat, end: nat, hunks: seq<Hunk>, k: nat, first: nat, next: nat, stop: nat)
    requires k < |hunks| && hunks[k].sequence == first + k && i < end && next <= end && end <= |lines|
    requires lex.header(lines[i]).None? && HunkAt(lines, i, end, lex) == Ok((hunks[k].kind, next))
    requires ParseHunks(lines, next, end, first + k + 1, lex) == Ok((hunks[k + 1..], stop))
    ensures ParseHunks(lines, i, end, first + k, lex) == Ok((hunks[k..], stop))
  {
    HunksStep(lines, i, end, first + k, lex, hunks[k].kind, next, hunks[k + 1..], stop);
    assert hunks[k..] == [hunks[k]] + hunks[k + 1..];
  }

  lemma HunkFirst(spell: Speller, lines: seq<string>, i: nat, kind: HunkKind)
    requires StandsAt(lines, i, HunkLines(spell, kind))
    ensures i < |lines| && lines[i] == spell(kind)
  {
    assert lines[i + 0] == HunkLines(spell, kind)[0];
  }

  lemma NextNotRow(lex: Lexer, spell: Speller, lines: seq<string>, i: nat, end: nat, hunks: seq<Hunk>, k: nat)
    requires k <= |hunks| && StandsAt(lines, i, HunksLines(spell, hunks, k)) && StopsAt(lex, lines, i + |HunksLines(spell, hunks, k)|, end)
    requires forall j :: 0 <= j < |hunks| ==> Lexes(lex, spell, hunks[j].kind)
    ensures i < end ==> !IsRow(lines[i])
  {
    if k < |hunks| {
      var kind := hunks[k].kind;
      assert lines[i + 0] == HunksLines(spell, hunks, k)[0] == spell(kind);
    }
  }

  ghost predicate SectionLexes(lex: Lexer, spell: Speller, s: Section, first: nat) {
    && s.hunks != [] && lex.header(HeaderLine(s.path, s.tag)) == Some((s.path, s.tag)) && !IsRow(HeaderLine(s.path, s.tag))
    && forall j :: 0 <= j < |s.hunks| ==> Lexes(lex, spell, s.hunks[j].kind) && s.hunks[j].sequence == first + j
  }

  ghost predicate SectionsLex(lex: Lexer, spell: Speller, sections: seq<Section>, k: nat, first: nat)
    requires k <= |sections|
    decreases |sections| - k
  {
    k < |sections| ==> SectionLexes(lex, spell, sections[k], first) && SectionsLex(lex, spell, sections, k + 1, first + |sections[k].hunks|)
  }

  lemma SectionOneMore(lines: seq<string>, i: nat, end: nat, sequence: nat, lex: Lexer, s: Section, next: nat, rest: seq<Section>)
    requires i < end && end <= |lines| && lex.header(lines[i]) == Some((s.path, s.tag)) && s.hunks != []
    requires i + 1 <= next <= end && ParseHunks(lines, i + 1, end, sequence, lex) == Ok((s.hunks, next))
    requires ParseSections(lines, next, end, sequence + |s.hunks|, lex) == Ok(rest)
    ensures ParseSections(lines, i, end, sequence, lex) == Ok([s] + rest)
  {
  }

  /** A section stands at i. */
  ghost predicate SectionHere(lex: Lexer, spell: Speller, lines: seq<string>, i: nat, end: nat, s: Section, first: nat) {
    && SectionLexes(lex, spell, s, first) && StandsAt(lines, i, [HeaderLine(s.path, s.tag)])
    && StandsAt(lines, i + 1, HunksLines(spell, s.hunks, 0))
    && StopsAt(lex, lines, AfterSection(spell, i, s), end)
  }

  function AfterSection(spell: Speller, i: nat, s: Section): nat { i + 1 + |HunksLines(spell, s.hunks, 0)| }

  type SectionsParser = (nat, nat) -> Result<seq<Section>, ParseError>

  ghost predicate OneMore(now: Result<seq<Section>, ParseError>, s: Section, after: Result<seq<Section>, ParseError>) {
    after.Ok? ==> now == Ok([s] + after.value)
  }

  /** A parser of what follows a place, and how it reads one section more. */
  ghost predicate ReadsOn(parse: SectionsParser, lex: Lexer, spell: Speller, lines: seq<string>, end: nat) {
    && (forall first :: parse(end, first) == Ok([]))
    && (forall i: nat, s: Section, first: nat :: SectionHere(lex, spell, lines, i, end, s, first) ==>
          OneMore(parse(i, first), s, parse(AfterSection(spell, i, s), first + |s.hunks|)))
  }

  /** The sections from the k-th on fill the lines up to the end. */
  lemma {:induction false} SectionsStand(parse: SectionsParser, lex: Lexer, spell: Speller, lines: seq<string>, i: nat, end: nat, sections: seq<Section>, k: nat, first: nat)
    requires ReadsOn(parse, lex, spell, lines, end)
    requires k <= |sections| && SectionsLex(lex, spell, sections, k, first) && StandsAt(lines, i, SectionsLines(spell, sections, k))
    requires end == i + |SectionsLines(spell, sections, k)|
    ensures parse(i, first) == Ok(sections[k..])
    decreases |sections| - k
  {
    if k == |sections| {
      assert sections[k..] == [];
    } else {
      var s := sections[k];
      var next := i + 1 + |HunksLines(spell, s.hunks, 0)|;
      SectionApart(spell, lines, i, sections, k);
      SectionsStand(parse, lex, spell, lines, next, end, sections, k + 1, first + |s.hunks|);
      NextHeader(lex, spell, lines, next, end, sections, k + 1, first + |s.hunks|);
      assert SectionHere(lex, spell, lines, i, end, s, first);
      assert sections[k..] == [s] + sections[k + 1..];
    }
  }

  function Rest(lines: seq<string>, end: nat, lex: Lexer): SectionsParser {
    (i: nat, first: nat) => if i <= end <= |lines| then ParseSections(lines, i, end, first, lex) else Err(NoSections)
  }

  lemma RestReadsOn(lex: Lexer, spell: Speller, lines: seq<string>, end: nat)
    requires end <= |lines|
    ensures ReadsOn(Rest(lines, end, lex), lex, spell, lines, end)
  {
    var parse := Rest(lines, end, lex);
    forall i: nat, s: Section, first: nat | SectionHere(lex, spell, lines, i, end, s, first)
      ensures OneMore(parse(i, first), s, parse(AfterSection(spell, i, s), first + |s.hunks|))
    {
      var after := parse(AfterSection(spell, i, s), first + |s.hunks|);
      if after.Ok? { SectionThenRest(lex, spell, lines, i, end, s, first, after.value); }
    }
  }

  lemma SectionApart(spell: Speller, lines: seq<string>, i: nat, sections: seq<Section>, k: nat)
    requires k < |sections| && StandsAt(lines, i, SectionsLines(spell, sections, k))
    ensures var s := sections[k];
            var next := i + 1 + |HunksLines(spell, s.hunks, 0)|;
            && StandsAt(lines, i, [HeaderLine(s.path, s.tag)]) && StandsAt(lines, i + 1, HunksLines(spell, s.hunks, 0))
            && StandsAt(lines, next, SectionsLines(spell, sections, k + 1))
            && i + |SectionsLines(spell, sections, k)| == next + |SectionsLines(spell, sections, k + 1)|
  {
    var s := sections[k];
    var header, hunks, rest := [HeaderLine(s.path, s.tag)], HunksLines(spell, s.hunks, 0), SectionsLines(spell, sections, k + 1);
    StandsApart(lines, i, header + hunks, rest);
    StandsApart(lines, i, header, hunks);
  }

  lemma SectionThenRest(lex: Lexer, spell: Speller, lines: seq<string>, i: nat, end: nat, s: Section, first: nat, rest: seq<Section>)
    requires SectionLexes(lex, spell, s, first) && StandsAt(lines, i, [HeaderLine(s.path, s.tag)]) && StandsAt(lines, i + 1, HunksLines(spell, s.hunks, 0))
    requires var next := i + 1 + |HunksLines(spell, s.hunks, 0)|;
             StopsAt(lex, lines, next, end) && ParseSections(lines, next, end, first + |s.hunks|, lex) == Ok(rest)
    ensures ParseSections(lines, i, end, first, lex) == Ok([s] + rest)
  {
    assert lines[i + 0] == [HeaderLine(s.path, s.tag)][0] && i + 0 == i;
    HunksStand(lex, spell, lines, i + 1, end, s.hunks, first, AfterSection(spell, i, s));
    SectionOneMore(lines, i, end, first, lex, s, i + 1 + |HunksLines(spell, s.hunks, 0)|, rest);
  }

  lemma NextHeader(lex: Lexer, spell: Speller, lines: seq<string>, i: nat, end: nat, sections: seq<Section>, k: nat, first: nat)
    requires k <= |sections| && SectionsLex(lex, spell, sections, k, first) && StandsAt(lines, i, SectionsLines(spell, sections, k))
    requires end == i + |SectionsLines(spell, sections, k)|
    ensures StopsAt(lex, lines, i, end)
  {
    if k < |sections| {
      var s := sections[k];
      assert lines[i + 0] == SectionsLines(spell, sections, k)[0] == HeaderLine(s.path, s.tag);
    }
  }

  // ---------------------------------------------------------------- the law

  lemma {:induction false} WritableLexes(sections: seq<Section>, k: nat, first: nat, unquote: Unquote)
    requires k <= |sections| && SectionsWritable(sections, k, first)
    ensures SectionsLex(Lexical(unquote), HunkText, sections, k, first)
    decreases |sections| - k
  {
    if k < |sections| {
      var s := sections[k];
      WritableLexes(sections, k + 1, first + |s.hunks|, unquote);
      HeaderRoundTrip(s.path, s.tag);
      forall j | 0 <= j < |s.hunks| ensures Lexes(Lexical(unquote), HunkText, s.hunks[j].kind) && s.hunks[j].sequence == first + j {
        KindLexes(s.hunks[j].kind, unquote);
      }
    }
  }

  lemma KindLexes(kind: HunkKind, unquote: Unquote)
    requires KindWritable(kind)
    ensures Lexes(Lexical(unquote), HunkText, kind)
  {
    HunkTextReads(kind, unquote);
    HunkTextPlain(kind);
    NotHeader(HunkText(kind));
    LexesIs(Lexical(unquote), HunkText, kind);
  }

  lemma LexesIs(lex: Lexer, spell: Speller, kind: HunkKind)
    requires spell(kind) != "" && spell(kind)[0] != '+' && lex.header(spell(kind)).None? && lex.hunk(spell(kind)) == Ok(Bare(kind))
    requires kind.Put? ==> kind.body != []
    ensures Lexes(lex, spell, kind)
  {
    assert !IsRow(spell(kind)) by { assert "+"[0] == '+'; }
  }

  ghost predicate AllLines(lines: seq<string>) { forall i :: 0 <= i < |lines| ==> LineText(lines[i]) }

  lemma {:induction false} HunksAreLines(hunks: seq<Hunk>, k: nat)
    requires k <= |hunks| && forall j :: 0 <= j < |hunks| ==> KindWritable(hunks[j].kind)
    ensures AllLines(HunksLines(HunkText, hunks, k))
    decreases |hunks| - k
  {
    if k < |hunks| {
      HunksAreLines(hunks, k + 1);
      HunkTextPlain(hunks[k].kind);
    }
  }

  lemma {:induction false} SectionsAreLines(sections: seq<Section>, k: nat, first: nat)
    requires k <= |sections| && SectionsWritable(sections, k, first)
    ensures AllLines(SectionsLines(HunkText, sections, k))
    decreases |sections| - k
  {
    if k < |sections| {
      SectionsAreLines(sections, k + 1, first + |sections[k].hunks|);
      HunksAreLines(sections[k].hunks, 0);
      HeaderIsLine(sections[k].path, sections[k].tag);
    }
  }

  lemma HeaderIsLine(path: string, tag: string)
    requires IsPath(path) && IsTag(tag)
    ensures LineText(HeaderLine(path, tag))
  {
    forall c | c in tag ensures c != '\n' && c != '\r' {
      var i :| 0 <= i < |tag| && tag[i] == c;
      assert IsHex(tag[i]);
    }
  }

  lemma LinesBack(lines: seq<string>)
    requires lines != [] && AllLines(lines)
    ensures Split(UnifyNewlines(Join(lines, '\n')), '\n') == lines
  {
    JoinFree(lines, '\n', '\r');
    UnifyFixed(Join(lines, '\n'));
    SplitJoin(lines, '\n');
  }

  lemma LinesBackEnded(lines: seq<string>)
    requires lines != [] && AllLines(lines)
    ensures Split(UnifyNewlines(Join(lines, '\n') + "\n"), '\n') == lines + [""]
  {
    var text := Join(lines, '\n');
    JoinFree(lines, '\n', '\r');
    UnifyFixed(text + "\n");
    SplitJoin(lines, '\n');
    SplitAppend(text, "", '\n');
    assert text + ['\n'] + "" == text + "\n";
  }

  /** Main theorem: printing any writable list of sections and parsing the text gives the list back,
      whether or not the text ends in a newline. */
  lemma PatchRoundTrip(sections: seq<Section>, unquote: Unquote)
    requires sections != [] && SectionsWritable(sections, 0, 0)
    ensures Parse(PatchOf(sections), unquote) == Ok(sections)
    ensures Parse(PatchOf(sections) + "\n", unquote) == Ok(sections)
  {
    var lines := PatchLines(sections);
    SectionsAreLines(sections, 0, 0);
    MarkersAreLines();
    LinesBack(lines);
    LinesBackEnded(lines);
    WritableLexes(sections, 0, 0, unquote);
    FramedParses(Lexical(unquote), HunkText, sections);
  }

  /** Printed sections between the markers are read back, with or without a final newline. */
  lemma FramedIn(lex: Lexer, spell: Speller, sections: seq<Section>, lines: seq<string>)
    requires sections != [] && SectionsLex(lex, spell, sections, 0, 0)
    requires var body := SectionsLines(spell, sections, 0);
             && StandsAt(lines, 1, body) && |lines| >= |body| + 2 && lines[0] == BEGIN && lines[1 + |body|] == END
             && EndIndex(lines) == 1 + |body|
    ensures ParseLines(lines, lex) == Ok(sections)
  {
    var body := SectionsLines(spell, sections, 0);
    RestReadsOn(lex, spell, lines, 1 + |body|);
    SectionsStand(Rest(lines, 1 + |body|, lex), lex, spell, lines, 1, 1 + |body|, sections, 0, 0);
    assert sections[0..] == sections;
    assert |body| > 0;
  }

  lemma FramedParses(lex: Lexer, spell: Speller, sections: seq<Section>)
    requires sections != [] && SectionsLex(lex, spell, sections, 0, 0)
    ensures var lines := [BEGIN] + SectionsLines(spell, sections, 0) + [END];
            ParseLines(lines, lex) == Ok(sections) && ParseLines(lines + [""], lex) == Ok(sections)
  {
    var body := SectionsLines(spell, sections, 0);
    var lines := [BEGIN] + body + [END];
    FramedBody(body);
    MarkersAreLines();
    FramedIn(lex, spell, sections, lines);
    FramedIn(lex, spell, sections, lines + [""]);
  }

  lemma MarkersAreLines()
    ensures LineText(BEGIN) && LineText(END) && END != ""
  {
  }

  lemma FramedBody(body: seq<string>)
    ensures var lines := [BEGIN] + body + [END];
            StandsAt(lines, 1, body) && |lines| == |body| + 2 && lines[0] == BEGIN && lines[|lines| - 1] == END
  {
    var lines := [BEGIN] + body + [END];
    assert lines[1..1 + |body|] == body;
  }

  // ---------------------------------------------------------------- what the parser yields

  /** Writable, but for a destination that unquoting may have given line ends. */
  ghost predicate KindParsed(kind: HunkKind) { kind.Move? || KindWritable(kind) }

  /** The same before the body is attached. */
  ghost predicate LineParsed(kind: HunkKind) {
    match kind
    case Put(locator, _) => SmallLocator(locator)
    case _ => KindParsed(kind)
  }

  lemma ParsedLocatorSmall(value: string, allowGap: bool)
    ensures ParseLocator(value, allowGap).Some? ==> SmallLocator(ParseLocator(value, allowGap).value)
  {
    var v := TrimSpace(value);
    if v != "" {
      PositiveSmall(v[1..]);
      PositiveSmall(v[..|v| - 1]);
      if |v| >= 2 { PositiveSmall(v[1..|v| - 1]); }
    }
    RangeSmall(v);
  }

  lemma PositiveSmall(value: string)
    ensures PositiveLine(value).Some? ==> 1 <= PositiveLine(value).value <= MAX_INT
  {
  }

  lemma RangeSmall(value: string)
    ensures ParseRange(value).Some? ==> SmallLocator(ParseRange(value).value)
  {
    var at := Find(value, ".=", 0);
    if at.Some? {
      PositiveSmall(value[..at.value]);
      PositiveSmall(value[at.value + 2..]);
    }
  }

  lemma SplitRegisterOk(s: string)
    ensures RegisterOk(SplitRegister(s).1)
  {
  }

  lemma ParsedLine(line: string, unquote: Unquote)
    ensures ParseHunk(line, unquote).Ok? ==> LineParsed(ParseHunk(line, unquote).value)
  {
    if HasPrefix(line, "PUT ") && HasSuffix(line, ":") && |line| >= 6 {
      ParsedLocatorSmall(line[4..|line| - 1], true);
    } else if |line| >= 5 {
      SplitRegisterOk(line[4..]);
      ParsedLocatorSmall(SplitRegister(line[4..]).0, true);
      ParsedLocatorSmall(SplitRegister(line[4..]).0, false);
    }
  }

  ghost predicate LexerParses(lex: Lexer) {
    && (forall line :: lex.hunk(line).Ok? ==> LineParsed(lex.hunk(line).value))
    && (forall line :: lex.header(line).Some? ==> IsPath(lex.header(line).value.0) && IsTag(lex.header(line).value.1))
  }

  lemma LexicalParses(unquote: Unquote)
    ensures LexerParses(Lexical(unquote))
  {
    var lex := Lexical(unquote);
    forall line ensures lex.hunk(line).Ok? ==> LineParsed(lex.hunk(line).value) { ParsedLine(line, unquote); }
  }

  lemma RowsAreLines(lines: seq<string>, i: nat, k: nat)
    requires i <= k <= |lines| && AllLines(lines)
    ensures AllLines(Rows(lines, i, k))
  {
  }

  lemma HunkAtParsed(lines: seq<string>, i: nat, end: nat, lex: Lexer)
    requires i < end <= |lines| && AllLines(lines) && LexerParses(lex)
    ensures HunkAt(lines, i, end, lex).Ok? ==> KindParsed(HunkAt(lines, i, end, lex).value.0)
  {
    var next := RowsEnd(lines, i + 1, end);
    RowsAreLines(lines, i + 1, next);
  }

  ghost predicate HunksParsed(hunks: seq<Hunk>, first: nat) {
    forall k :: 0 <= k < |hunks| ==> hunks[k].sequence == first + k && KindParsed(hunks[k].kind)
  }

  lemma {:induction false} ParsedHunks(lines: seq<string>, i: nat, end: nat, sequence: nat, lex: Lexer)
    requires i <= end <= |lines| && AllLines(lines) && LexerParses(lex)
    ensures ParseHunks(lines, i, end, sequence, lex).Ok? ==> HunksParsed(ParseHunks(lines, i, end, sequence, lex).value.0, sequence)
    decreases end - i
  {
    if i < end && lex.header(lines[i]).None? {
      HunkAtParsed(lines, i, end, lex);
      var hunk := HunkAt(lines, i, end, lex);
      if hunk.Ok? {
        ParsedHunks(lines, hunk.value.1, end, sequence + 1, lex);
        var rest := ParseHunks(lines, hunk.value.1, end, sequence + 1, lex);
        if rest.Ok? { HunksParsedMore(Hunk(hunk.value.0, sequence), rest.value.0, sequence); }
      }
    }
  }

  lemma HunksParsedMore(hunk: Hunk, rest: seq<Hunk>, first: nat)
    requires hunk.sequence == first && KindParsed(hunk.kind) && HunksParsed(rest, first + 1)
    ensures HunksParsed([hunk] + rest, first)
  {
    var hunks := [hunk] + rest;
    forall k | 0 <= k < |hunks| ensures hunks[k].sequence == first + k && KindParsed(hunks[k].kind) {
      if k > 0 { assert hunks[k] == rest[k - 1]; }
    }
  }

  ghost predicate SectionsParsed(sections: seq<Section>, k: nat, first: nat)
    requires k <= |sections|
    decreases |sections| - k
  {
    k < |sections| ==>
      && IsPath(sections[k].path) && IsTag(sections[k].tag) && sections[k].hunks != [] && HunksParsed(sections[k].hunks, first)
      && SectionsParsed(sections, k + 1, first + |sections[k].hunks|)
  }

  lemma {:induction false} SectionsParsedShift(s: Section, rest: seq<Section>, k: nat, first: nat)
    requires k <= |rest| && SectionsParsed(rest, k, first)
    ensures SectionsParsed([s] + rest, k + 1, first)
    decreases |rest| - k
  {
    if k < |rest| { SectionsParsedShift(s, rest, k + 1, first + |rest[k].hunks|); }
  }

  lemma {:induction false} ParsedSections(lines: seq<string>, i: nat, end: nat, sequence: nat, lex: Lexer)
    requires i <= end <= |lines| && AllLines(lines) && LexerParses(lex)
    ensures ParseSections(lines, i, end, sequence, lex).Ok? ==> SectionsParsed(ParseSections(lines, i, end, sequence, lex).value, 0, sequence)
    decreases end - i
  {
    if i < end && ParseSections(lines, i, end, sequence, lex).Ok? {
      ParsedHunks(lines, i + 1, end, sequence, lex);
      var (hunks, next) := ParseHunks(lines, i + 1, end, sequence, lex).value;
      ParsedSections(lines, next, end, sequence + |hunks|, lex);
      var (path, tag) := lex.header(lines[i]).value;
      var rest := ParseSections(lines, next, end, sequence + |hunks|, lex).value;
      SectionsParsedShift(Section(path, tag, hunks), rest, 0, sequence + |hunks|);
    }
  }

  /** Every destination is a single line. */
  ghost predicate PlainMoves(sections: seq<Section>) {
    forall i, j :: 0 <= i < |sections| && 0 <= j < |sections[i].hunks| && sections[i].hunks[j].kind.Move? ==>
      LineText(sections[i].hunks[j].kind.destination)
  }

  lemma {:induction false} ParsedWritable(sections: seq<Section>, k: nat, first: nat)
    requires k <= |sections| && SectionsParsed(sections, k, first) && PlainMoves(sections)
    ensures SectionsWritable(sections, k, first)
    decreases |sections| - k
  {
    if k < |sections| {
      ParsedWritable(sections, k + 1, first + |sections[k].hunks|);
    }
  }

  lemma SplitLines(input: string)
    ensures AllLines(Split(UnifyNewlines(input), '\n'))
  {
    SplitFree(UnifyNewlines(input), '\n');
    assert AllFree(Split(UnifyNewlines(input), '\n'), '\r');
  }

  /** Printing what was parsed, and parsing it again, changes nothing, as long as no destination holds
      a line end. */
  lemma ReprintParses(input: string, unquote: Unquote)
    requires Parse(input, unquote).Ok? && PlainMoves(Parse(input, unquote).value)
    ensures Parse(PatchOf(Parse(input, unquote).value), unquote) == Parse(input, unquote)
  {
    var lines := Split(UnifyNewlines(input), '\n');
    SplitLines(input);
    LexicalParses(unquote);
    ParsedSections(lines, 1, EndIndex(lines), 0, Lexical(unquote));
    var sections := Parse(input, unquote).value;
    ParsedWritable(sections, 0, 0);
    PatchRoundTrip(sections, unquote);
  }
}
