/** The Hashline patch language of internal/agent/hashline_edit.go: its syntax tree and its
    hand-written parser. `Parse` is the grammar as a function; `ParsePatch` is the parser
    with its index cursor. */
module HashlinePatch {
  import opened Common
  import opened Text

  datatype Locator =
    | Range(start: nat, end: nat)
    | Block(line: nat)
    | Before(line: nat)
    | After(line: nat)
    | AfterBlock(line: nat)
    | Tail

  datatype HunkKind =
    | Put(locator: Locator, body: seq<string>)
    | Paste(locator: Locator, register: string)
    | Cut(locator: Locator, register: string)
    | Remove
    | Move(destination: string)

  datatype Hunk = Hunk(kind: HunkKind, sequence: nat)
  datatype Section = Section(path: string, tag: string, hunks: seq<Hunk>)

  datatype HunkError = BadLocator | RegisterRequired | BadCut | BadDestination | Unrecognized

  datatype ParseError =
    | MustBegin
    | MustEnd
    | ExpectedHeader(line: nat)
    | BlankLine(line: nat)
    | BadHunk(line: nat, cause: HunkError)
    | EmptyBody(line: nat)
    | NoHunks(path: string)
    | NoSections

  const BEGIN := "*** Begin Patch"
  const END := "*** End Patch"

  /** strconv.Unquote, which is library behaviour, is a parameter of the parser. */
  type Unquote = string -> Option<string>

  // ---------------------------------------------------------------- one line

  predicate IsHex(c: char) { '0' <= c <= '9' || 'A' <= c <= 'F' }

  predicate IsTag(tag: string) { |tag| == 4 && forall i :: 0 <= i < 4 ==> IsHex(tag[i]) }

  predicate IsPath(path: string) { path != "" && '#' !in path && '\r' !in path && '\n' !in path }

  function HeaderLine(path: string, tag: string): string { "[" + path + "#" + tag + "]" }

  /** A line matching ^\[([^#\r\n]+)#([0-9A-F]{4})\]$. */
  function Header(line: string): Option<(string, string)> {
    var n := |line|;
    if n >= 8 && line[0] == '[' && line[n - 1] == ']' && line[n - 6] == '#' && IsPath(line[1..n - 6]) && IsTag(line[n - 5..n - 1])
    then Some((line[1..n - 6], line[n - 5..n - 1]))
    else None
  }

  lemma HeaderRoundTrip(path: string, tag: string)
    requires IsPath(path) && IsTag(tag)
    ensures Header(HeaderLine(path, tag)) == Some((path, tag))
  {
    var line := HeaderLine(path, tag);
    assert line[1..|line| - 6] == path && line[|line| - 5..|line| - 1] == tag;
  }

  function PositiveLine(value: string): Option<nat> {
    match Atoi(value)
    case Some(n) => if n > 0 then Some(n) else None
    case None => None
  }

  function LineLocator(value: string, make: nat -> Locator): Option<Locator> {
    match PositiveLine(value)
    case Some(n) => Some(make(n))
    case None => None
  }

  function ParseRange(value: string): Option<Locator> {
    match Find(value, ".=", 0)
    case None => None
    case Some(at) =>
      match (PositiveLine(value[..at]), PositiveLine(value[at + 2..]))
      case (Some(start), Some(end)) => if end < start then None else Some(Range(start, end))
      case _ => None
  }

  /** parseHashlineLocator. */
  function ParseLocator(untrimmed: string, allowGap: bool): Option<Locator> {
    var value := TrimSpace(untrimmed);
    if value == ">$" && allowGap then Some(Tail)
    else if HasPrefix(value, ">") && HasSuffix(value, "*") && |value| >= 2 && allowGap then
      LineLocator(value[1..|value| - 1], (n: nat) => AfterBlock(n))
    else if HasPrefix(value, "<") && allowGap then LineLocator(value[1..], (n: nat) => Before(n))
    else if HasPrefix(value, ">") && allowGap then LineLocator(value[1..], (n: nat) => After(n))
    else if HasSuffix(value, "*") then LineLocator(value[..|value| - 1], (n: nat) => Block(n))
    else ParseRange(value)
  }

  predicate IsWordChar(c: char) {
    'A' <= c <= 'Z' || 'a' <= c <= 'z' || '0' <= c <= '9' || c == '_' || c == '-'
  }

  predicate IsWord(s: string) { s != "" && forall i :: 0 <= i < |s| ==> IsWordChar(s[i]) }

  function LastSpace(s: string, n: nat): (k: int)
    requires n <= |s|
    ensures -1 <= k < n && (k >= 0 ==> s[k] == ' ')
  {
    if n == 0 then -1 else if s[n - 1] == ' ' then n - 1 else LastSpace(s, n - 1)
  }

  /** The groups of (.+?)(?: @([A-Za-z0-9_-]+))?$ : a register name holds no space, so the
      suffix can only start at the last one. */
  function SplitRegister(s: string): (string, string) {
    var k := LastSpace(s, |s|);
    if k >= 1 && k + 2 < |s| && s[k + 1] == '@' && IsWord(s[k + 2..]) then (s[..k], s[k + 2..]) else (s, "")
  }

  function MoveDestination(value: string, unquote: Unquote): Option<string> {
    if value == "" then None
    else if value[0] == '"' then unquote(value)
    else if value[0] == '\'' then
      if |value| < 2 || value[|value| - 1] != '\'' then None else Some(value[1..|value| - 1])
    else Some(value)
  }

  /** parseHashlinePatchOp; a Put has its body attached later. */
  function ParseHunk(line: string, unquote: Unquote): Result<HunkKind, HunkError> {
    if HasPrefix(line, "PUT ") && HasSuffix(line, ":") && |line| >= 6 then
      match ParseLocator(line[4..|line| - 1], true)
      case Some(locator) => Ok(Put(locator, []))
      case None => Err(BadLocator)
    else if HasPrefix(line, "PUT ") && |line| >= 5 then
      var (value, register) := SplitRegister(line[4..]);
      match ParseLocator(value, true)
      case None => Err(BadLocator)
      case Some(locator) =>
        if (locator.Range? || locator.Block?) && register == "" then Err(RegisterRequired)
        else Ok(Paste(locator, register))
    else if HasPrefix(line, "CUT ") && |line| >= 5 then
      var (value, register) := SplitRegister(line[4..]);
      match ParseLocator(value, false)
      case Some(locator) => if locator.Range? || locator.Block? then Ok(Cut(locator, register)) else Err(BadCut)
      case None => Err(BadCut)
    else if line == "REM" then Ok(Remove)
    else if HasPrefix(line, "MV ") then
      match MoveDestination(TrimSpace(line[3..]), unquote)
      case Some(destination) => Ok(Move(destination))
      case None => Err(BadDestination)
    else Err(Unrecognized)
  }

  // ---------------------------------------------------------------- the grammar

  /** How single lines are read: section headers and hunk lines. */
  datatype Lexer = Lexer(header: string -> Option<(string, string)>, hunk: string -> Result<HunkKind, HunkError>)

  function Lexical(unquote: Unquote): Lexer {
    Lexer(line => Header(line), line => ParseHunk(line, unquote))
  }

  predicate IsRow(line: string) { HasPrefix(line, "+") }

  /** strings.TrimPrefix(line, "+"). */
  function RowText(line: string): string { if IsRow(line) then line[1..] else line }

  /** The end of the run of body rows that starts at i. */
  function RowsEnd(lines: seq<string>, i: nat, end: nat): (k: nat)
    requires i <= end <= |lines|
    ensures i <= k <= end
    ensures forall j :: i <= j < k ==> IsRow(lines[j])
    ensures k < end ==> !IsRow(lines[k])
    decreases end - i
  {
    if i < end && IsRow(lines[i]) then RowsEnd(lines, i + 1, end) else i
  }

  function Rows(lines: seq<string>, i: nat, k: nat): (rows: seq<string>)
    requires i <= k <= |lines|
    ensures |rows| == k - i
    ensures forall j :: 0 <= j < |rows| ==> rows[j] == RowText(lines[i + j])
  {
    if i == k then [] else Rows(lines, i, k - 1) + [RowText(lines[k - 1])]
  }

  /** The hunk at line i with its body rows, and the line after it. */
  function HunkAt(lines: seq<string>, i: nat, end: nat, lex: Lexer): (r: Result<(HunkKind, nat), ParseError>)
    requires i < end <= |lines|
    ensures r.Ok? ==> i < r.value.1 <= end
  {
    if lines[i] == "" then Err(BlankLine(i + 1))
    else
      match lex.hunk(lines[i])
      case Err(cause) => Err(BadHunk(i + 1, cause))
      case Ok(kind) =>
        if !kind.Put? then Ok((kind, i + 1))
        else
          var next := RowsEnd(lines, i + 1, end);
          if next == i + 1 then Err(EmptyBody(i + 2))
          else Ok((Put(kind.locator, Rows(lines, i + 1, next)), next))
  }

  function ParseHunks(lines: seq<string>, i: nat, end: nat, sequence: nat, lex: Lexer): (r: Result<(seq<Hunk>, nat), ParseError>)
    requires i <= end <= |lines|
    ensures r.Ok? ==> i <= r.value.1 <= end
    decreases end - i
  {
    if i == end || lex.header(lines[i]).Some? then Ok(([], i))
    else
      match HunkAt(lines, i, end, lex)
      case Err(e) => Err(e)
      case Ok((kind, next)) =>
        match ParseHunks(lines, next, end, sequence + 1, lex)
        case Err(e) => Err(e)
        case Ok((rest, stop)) => Ok(([Hunk(kind, sequence)] + rest, stop))
  }

  function ParseSections(lines: seq<string>, i: nat, end: nat, sequence: nat, lex: Lexer): Result<seq<Section>, ParseError>
    requires i <= end <= |lines|
    decreases end - i
  {
    if i == end then Ok([])
    else
      match lex.header(lines[i])
      case None => Err(ExpectedHeader(i + 1))
      case Some((path, tag)) =>
        match ParseHunks(lines, i + 1, end, sequence, lex)
        case Err(e) => Err(e)
        case Ok((hunks, next)) =>
          if hunks == [] then Err(NoHunks(path))
          else
            match ParseSections(lines, next, end, sequence + |hunks|, lex)
            case Err(e) => Err(e)
            case Ok(rest) => Ok([Section(path, tag, hunks)] + rest)
  }

  /** The line that must hold the end marker: a final newline leaves one empty line. */
  function EndIndex(lines: seq<string>): int
    requires lines != []
  {
    if lines[|lines| - 1] == "" then |lines| - 2 else |lines| - 1
  }

  function ParseLines(lines: seq<string>, lex: Lexer): Result<seq<Section>, ParseError> {
    if |lines| < 3 || lines[0] != BEGIN then Err(MustBegin)
    else
      var end := EndIndex(lines);
      if end <= 0 || lines[end] != END then Err(MustEnd)
      else
        match ParseSections(lines, 1, end, 0, lex)
        case Err(e) => Err(e)
        case Ok(sections) => if sections == [] then Err(NoSections) else Ok(sections)
  }

  function Parse(input: string, unquote: Unquote): Result<seq<Section>, ParseError> {
    ParseLines(Split(UnifyNewlines(input), '\n'), Lexical(unquote))
  }

  // ---------------------------------------------------------------- the parser

  function AfterHunks(done: seq<Hunk>, r: Result<(seq<Hunk>, nat), ParseError>): Result<(seq<Hunk>, nat), ParseError> {
    match r case Err(e) => Err(e) case Ok((rest, next)) => Ok((done + rest, next))
  }

  function AfterSections(done: seq<Section>, r: Result<seq<Section>, ParseError>): Result<seq<Section>, ParseError> {
    match r case Err(e) => Err(e) case Ok(rest) => Ok(done + rest)
  }

  method ScanRows(lines: seq<string>, start: nat, end: nat) returns (body: seq<string>, index: nat)
    requires start <= end <= |lines|
    ensures index == RowsEnd(lines, start, end) && body == Rows(lines, start, index)
  {
    body, index := [], start;
    while index < end && HasPrefix(lines[index], "+")
      invariant start <= index <= end
      invariant RowsEnd(lines, start, end) == RowsEnd(lines, index, end)
      invariant body == Rows(lines, start, index)
    {
      body := body + [RowText(lines[index])];
      index := index + 1;
    }
  }

  method ScanHunk(lines: seq<string>, start: nat, end: nat, lex: Lexer) returns (r: Result<(HunkKind, nat), ParseError>)
    requires start < end <= |lines|
    ensures r == HunkAt(lines, start, end, lex)
  {
    var line := lines[start];
    if line == "" {
      return Err(BlankLine(start + 1));
    }
    var parsed := lex.hunk(line);
    if parsed.Err? {
      return Err(BadHunk(start + 1, parsed.error));
    }
    var kind, index := parsed.value, start + 1;
    if kind.Put? {
      var body;
      body, index := ScanRows(lines, index, end);
      if |body| == 0 {
        return Err(EmptyBody(index + 1));
      }
      kind := Put(kind.locator, body);
    }
    return Ok((kind, index));
  }

  /** The inner loop of parseHashlinePatch: the hunks of one section. */
  method ScanHunks(lines: seq<string>, start: nat, end: nat, first: nat, lex: Lexer)
    returns (r: Result<(seq<Hunk>, nat), ParseError>)
    requires start <= end <= |lines|
    ensures r == ParseHunks(lines, start, end, first, lex)
  {
    var hunks: seq<Hunk>, index: nat, sequence: nat := [], start, first;
    NoHunksYet(ParseHunks(lines, start, end, first, lex));
    while index < end && lex.header(lines[index]).None?
      invariant start <= index <= end
      invariant ParseHunks(lines, start, end, first, lex) == AfterHunks(hunks, ParseHunks(lines, index, end, sequence, lex))
      decreases end - index
    {
      var scanned := ScanHunk(lines, index, end, lex);
      if scanned.Err? {
        return Err(scanned.error);
      }
      var (kind, next) := scanned.value;
      StepHunks(hunks, Hunk(kind, sequence), ParseHunks(lines, next, end, sequence + 1, lex));
      hunks := hunks + [Hunk(kind, sequence)];
      index, sequence := next, sequence + 1;
    }
    assert hunks + [] == hunks;
    return Ok((hunks, index));
  }

  lemma NoHunksYet(r: Result<(seq<Hunk>, nat), ParseError>)
    ensures AfterHunks([], r) == r
  {
    if r.Ok? { assert [] + r.value.0 == r.value.0; }
  }

  lemma NoSectionsYet(r: Result<seq<Section>, ParseError>)
    ensures AfterSections([], r) == r
  {
    if r.Ok? { assert [] + r.value == r.value; }
  }

  lemma StepHunks(done: seq<Hunk>, hunk: Hunk, r: Result<(seq<Hunk>, nat), ParseError>)
    ensures AfterHunks(done, AfterHunks([hunk], r)) == AfterHunks(done + [hunk], r)
  {
    if r.Ok? { assert done + ([hunk] + r.value.0) == done + [hunk] + r.value.0; }
  }

  lemma StepSections(done: seq<Section>, section: Section, r: Result<seq<Section>, ParseError>)
    ensures AfterSections(done, AfterSections([section], r)) == AfterSections(done + [section], r)
  {
    if r.Ok? { assert done + ([section] + r.value) == done + [section] + r.value; }
  }

  /** The outer loop of parseHashlinePatch: the sections between the two markers. */
  method ScanSections(lines: seq<string>, end: nat, lex: Lexer) returns (r: Result<seq<Section>, ParseError>)
    requires 1 <= end <= |lines|
    ensures r == ParseSections(lines, 1, end, 0, lex)
  {
    var sections: seq<Section>, index, sequence: nat := [], 1, 0;
    NoSectionsYet(ParseSections(lines, 1, end, 0, lex));
    while index < end
      invariant 1 <= index <= end
      invariant ParseSections(lines, 1, end, 0, lex) == AfterSections(sections, ParseSections(lines, index, end, sequence, lex))
      decreases end - index
    {
      var header := lex.header(lines[index]);
      if header.None? {
        return Err(ExpectedHeader(index + 1));
      }
      var scanned := ScanHunks(lines, index + 1, end, sequence, lex);
      if scanned.Err? {
        return Err(scanned.error);
      }
      var (hunks, next) := scanned.value;
      if |hunks| == 0 {
        return Err(NoHunks(header.value.0));
      }
      var section := Section(header.value.0, header.value.1, hunks);
      StepSections(sections, section, ParseSections(lines, next, end, sequence + |hunks|, lex));
      sections := sections + [section];
      index, sequence := next, sequence + |hunks|;
    }
    assert sections + [] == sections;
    return Ok(sections);
  }

  /** parseHashlinePatch. */
  method ParsePatch(input: string, unquote: Unquote) returns (r: Result<seq<Section>, ParseError>)
    ensures r == Parse(input, unquote)
  {
    var lines := Split(UnifyNewlines(input), '\n');
    if |lines| < 3 || lines[0] != BEGIN {
      return Err(MustBegin);
    }
    var end := |lines| - 1;
    if lines[end] == "" {
      end := end - 1;
    }
    if end <= 0 || lines[end] != END {
      return Err(MustEnd);
    }
    r := ScanSections(lines, end, Lexical(unquote));
    if r.Ok? && |r.value| == 0 {
      return Err(NoSections);
    }
  }

  // ---------------------------------------------------------------- numbering

  /** Line numbers are positive and ranges are not inverted. */
  predicate LocatorOk(locator: Locator) {
    match locator
    case Range(start, end) => 1 <= start <= end
    case Block(line) => 1 <= line
    case Before(line) => 1 <= line
    case After(line) => 1 <= line
    case AfterBlock(line) => 1 <= line
    case Tail => true
  }

  predicate KindOk(kind: HunkKind) {
    match kind
    case Put(locator, _) => LocatorOk(locator)
    case Paste(locator, _) => LocatorOk(locator)
    case Cut(locator, _) => LocatorOk(locator) && (locator.Range? || locator.Block?)
    case Remove => true
    case Move(_) => true
  }

  ghost predicate LexerOk(lex: Lexer) {
    forall line :: lex.hunk(line).Ok? ==> KindOk(lex.hunk(line).value)
  }

  lemma ParsedLocatorOk(value: string, allowGap: bool)
    ensures ParseLocator(value, allowGap).Some? ==> LocatorOk(ParseLocator(value, allowGap).value)
  {
  }

  lemma ParsedHunkOk(line: string, unquote: Unquote)
    ensures ParseHunk(line, unquote).Ok? ==> KindOk(ParseHunk(line, unquote).value)
  {
    if HasPrefix(line, "PUT ") && HasSuffix(line, ":") && |line| >= 6 {
      ParsedLocatorOk(line[4..|line| - 1], true);
    } else if |line| >= 5 {
      ParsedLocatorOk(SplitRegister(line[4..]).0, true);
      ParsedLocatorOk(SplitRegister(line[4..]).0, false);
    }
  }

  lemma LexicalOk(unquote: Unquote)
    ensures LexerOk(Lexical(unquote))
  {
    var lex := Lexical(unquote);
    forall line ensures lex.hunk(line).Ok? ==> KindOk(lex.hunk(line).value) {
      ParsedHunkOk(line, unquote);
    }
  }

  ghost predicate Numbered(hunks: seq<Hunk>, first: nat) {
    forall k :: 0 <= k < |hunks| ==> hunks[k].sequence == first + k && KindOk(hunks[k].kind)
  }

  /** Hunks of one section carry consecutive sequence numbers and usable locators. */
  lemma {:induction false} HunksNumbered(lines: seq<string>, i: nat, end: nat, sequence: nat, lex: Lexer)
    requires i <= end <= |lines|
    requires LexerOk(lex) && ParseHunks(lines, i, end, sequence, lex).Ok?
    ensures Numbered(ParseHunks(lines, i, end, sequence, lex).value.0, sequence)
    decreases end - i
  {
    if i < end && lex.header(lines[i]).None? {
      HunksNumbered(lines, HunkAt(lines, i, end, lex).value.1, end, sequence + 1, lex);
    }
  }

  /** No section is empty and the hunks are numbered first, first+1, ... in patch order. */
  ghost predicate SectionsNumbered(sections: seq<Section>, first: nat) {
    sections == [] ||
    (sections[0].hunks != [] && Numbered(sections[0].hunks, first) && SectionsNumbered(sections[1..], first + |sections[0].hunks|))
  }

  lemma {:induction false} ParsedNumbered(lines: seq<string>, i: nat, end: nat, sequence: nat, lex: Lexer)
    requires i <= end <= |lines|
    requires LexerOk(lex) && ParseSections(lines, i, end, sequence, lex).Ok?
    ensures SectionsNumbered(ParseSections(lines, i, end, sequence, lex).value, sequence)
    decreases end - i
  {
    if i < end {
      var (hunks, next) := ParseHunks(lines, i + 1, end, sequence, lex).value;
      HunksNumbered(lines, i + 1, end, sequence, lex);
      ParsedNumbered(lines, next, end, sequence + |hunks|, lex);
      var all := ParseSections(lines, i, end, sequence, lex).value;
      assert all[1..] == ParseSections(lines, next, end, sequence + |hunks|, lex).value;
    }
  }

  /** A parsed patch numbers its hunks 0, 1, 2, ... in patch order, and no section is empty. */
  lemma ParseNumbers(input: string, unquote: Unquote)
    requires Parse(input, unquote).Ok?
    ensures SectionsNumbered(Parse(input, unquote).value, 0) && Parse(input, unquote).value != []
  {
    var lines := Split(UnifyNewlines(input), '\n');
    LexicalOk(unquote);
    ParsedNumbered(lines, 1, EndIndex(lines), 0, Lexical(unquote));
  }

  // ---------------------------------------------------------------- reading printed sections

  lemma {:induction false} RowsEndAt(lines: seq<string>, i: nat, k: nat, end: nat)
    requires i <= k <= end <= |lines|
    requires (forall j :: i <= j < k ==> IsRow(lines[j])) && (k < end ==> !IsRow(lines[k]))
    ensures RowsEnd(lines, i, end) == k
    decreases k - i
  {
    if i < k { RowsEndAt(lines, i + 1, k, end); }
  }

  /** A header, one hunk line and n body rows stand at line i. */
  ghost predicate SectionAt(lines: seq<string>, i: nat, end: nat, lex: Lexer, path: string, tag: string, kind: HunkKind, n: nat) {
    && i + 2 + n <= end <= |lines|
    && lex.header(lines[i]) == Some((path, tag)) && lex.header(lines[i + 1]).None? && lines[i + 1] != ""
    && lex.hunk(lines[i + 1]) == Ok(kind)
    && (forall j :: i + 2 <= j < i + 2 + n ==> IsRow(lines[j]))
    && (i + 2 + n < end ==> lex.header(lines[i + 2 + n]).Some? && !IsRow(lines[i + 2 + n]))
  }

  function WithBody(kind: HunkKind, body: seq<string>): HunkKind {
    if kind.Put? then Put(kind.locator, body) else kind
  }

  lemma SectionRead(lines: seq<string>, i: nat, end: nat, lex: Lexer, path: string, tag: string, kind: HunkKind, n: nat, sequence: nat)
    requires SectionAt(lines, i, end, lex, path, tag, kind, n)
    requires if kind.Put? then n > 0 else n == 0
    ensures ParseSections(lines, i, end, sequence, lex) ==
            AfterSections([Section(path, tag, [Hunk(WithBody(kind, Rows(lines, i + 2, i + 2 + n)), sequence)])],
                          ParseSections(lines, i + 2 + n, end, sequence + 1, lex))
  {
    RowsEndAt(lines, i + 2, i + 2 + n, end);
    assert HunkAt(lines, i + 1, end, lex) == Ok((WithBody(kind, Rows(lines, i + 2, i + 2 + n)), i + 2 + n));
    assert ParseHunks(lines, i + 2 + n, end, sequence + 1, lex) == Ok(([], i + 2 + n));
    var hunk := Hunk(WithBody(kind, Rows(lines, i + 2, i + 2 + n)), sequence);
    assert [hunk] + [] == [hunk];
    assert ParseHunks(lines, i + 1, end, sequence, lex) == Ok(([Hunk(WithBody(kind, Rows(lines, i + 2, i + 2 + n)), sequence)], i + 2 + n));
  }

  /** A PUT that announces a body but has none is a syntax error. */
  lemma EmptyPutRejected(lines: seq<string>, i: nat, end: nat, lex: Lexer, path: string, tag: string, kind: HunkKind, sequence: nat)
    requires SectionAt(lines, i, end, lex, path, tag, kind, 0) && kind.Put?
    ensures ParseSections(lines, i, end, sequence, lex) == Err(EmptyBody(i + 3))
  {
    RowsEndAt(lines, i + 2, i + 2, end);
    assert HunkAt(lines, i + 1, end, lex) == Err(EmptyBody(i + 3));
  }

  // ---------------------------------------------------------------- reading printed locators

  lemma TrimFixed(s: string)
    requires s != "" && !IsSpace(s[0]) && !IsSpace(s[|s| - 1])
    ensures TrimSpace(s) == s
  {
  }

  lemma ItoaEnds(n: nat)
    ensures IsDigit(Itoa(n)[0]) && IsDigit(Itoa(n)[|Itoa(n)| - 1])
  {
  }

  lemma RangeReads(start: nat, end: nat)
    requires 1 <= start <= end <= MAX_INT
    ensures ParseRange(RangeText(start, end)) == Some(Range(start, end))
  {
    var left, right := Itoa(start), Itoa(end);
    var value := left + ".=" + right;
    assert OccursAt(value, ".=", |left|);
    forall k | 0 <= k < |left| ensures !OccursAt(value, ".=", k) {
      assert value[k] == left[k] && IsDigit(left[k]);
      assert value[k..k + 2][0] == value[k] && ".="[0] == '.';
    }
    assert Find(value, ".=", 0) == Some(|left|);
    assert value[..|left|] == left && value[|left| + 2..] == right;
    AtoiItoa(start);
    AtoiItoa(end);
  }

  lemma RangeLocatorReads(start: nat, end: nat, allowGap: bool)
    requires 1 <= start <= end <= MAX_INT
    ensures ParseLocator(RangeText(start, end), allowGap) == Some(Range(start, end))
  {
    var value := RangeText(start, end);
    ItoaEnds(start);
    ItoaEnds(end);
    assert value[0] == Itoa(start)[0] && value[|value| - 1] == Itoa(end)[|Itoa(end)| - 1];
    RangeReads(start, end);
    PlainLocator(value, allowGap);
  }

  /** A text between digits is read as a range. */
  lemma PlainLocator(value: string, allowGap: bool)
    requires value != "" && IsDigit(value[0]) && IsDigit(value[|value| - 1])
    ensures ParseLocator(value, allowGap) == ParseRange(value)
  {
    TrimFixed(value);
    assert value[..1] == [value[0]] && value[|value| - 1..] == [value[|value| - 1]];
    assert ">$"[0] == '>';
  }

  lemma GapLocatorReads(mark: char, n: nat)
    requires (mark == '<' || mark == '>') && 1 <= n <= MAX_INT
    ensures ParseLocator([mark] + Itoa(n), true) == Some(if mark == '<' then Before(n) else After(n))
  {
    var value := [mark] + Itoa(n);
    ItoaEnds(n);
    assert value[|value| - 1] == Itoa(n)[|Itoa(n)| - 1];
    TrimFixed(value);
    assert value[1..] == Itoa(n) && value[..1] == [mark] && value[|value| - 1..] == [value[|value| - 1]];
    assert value[1] == Itoa(n)[0] && ">$"[1] == '$';
    AtoiItoa(n);
  }

  function PutLine(locator: string): string { "PUT " + locator + ":" }

  function CutLine(locator: string): string { "CUT " + locator }

  function RangeText(start: nat, end: nat): string { Itoa(start) + ".=" + Itoa(end) }

  ghost predicate Reads(line: string, kind: HunkKind, unquote: Unquote) { ParseHunk(line, unquote) == Ok(kind) }

  /** PUT with a body, for any locator text that reads. */
  lemma PutReads(value: string, locator: Locator, unquote: Unquote)
    requires value != "" && ParseLocator(value, true) == Some(locator)
    ensures Reads(PutLine(value), Put(locator, []), unquote)
  {
    var line := PutLine(value);
    assert line[4..|line| - 1] == value && line[..4] == "PUT " && line[|line| - 1..] == ":";
  }

  lemma CutReads(value: string, locator: Locator, unquote: Unquote)
    requires value != "" && ' ' !in value && ParseLocator(value, false) == Some(locator) && (locator.Range? || locator.Block?)
    ensures Reads(CutLine(value), Cut(locator, ""), unquote)
  {
    var line := CutLine(value);
    assert line[4..] == value && line[..4] == "CUT ";
    assert !HasPrefix(line, "PUT ") by { assert line[0] == 'C' && "PUT "[0] == 'P'; }
    assert LastSpace(value, |value|) < 0;
  }

  lemma RangeTextPlain(start: nat, end: nat)
    ensures RangeText(start, end) != "" && ' ' !in RangeText(start, end)
  {
    assert ' ' !in Itoa(start) && ' ' !in Itoa(end);
  }

  /** Lines that start with another letter are not section headers. */
  lemma NotHeader(line: string)
    requires line != "" && line[0] != '['
    ensures Header(line).None?
  {
  }
}
