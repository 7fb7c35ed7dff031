/** Editor positions (line, UTF-16 character) against byte offsets into UTF-8 text. A text is the
    sequence of its Unicode scalars; byte offsets count the UTF-8 widths before a place. */
module Positions {
  import opened Common
  import opened Text

  /** UTF-8 length of a scalar, section 3 of RFC 3629. */
  function Width8(c: char): (w: nat)
    ensures 1 <= w <= 4
  {
    if c < '\U{80}' then 1 else if c < '\U{800}' then 2 else if c < '\U{10000}' then 3 else 4
  }

  /** UTF-16 length of a scalar, section 2.1 of RFC 2781. */
  function Width16(c: char): (w: nat)
    ensures 1 <= w <= 2
  {
    if c > '\U{FFFF}' then 2 else 1
  }

  function Bytes(s: string): nat { if s == "" then 0 else Width8(s[0]) + Bytes(s[1..]) }

  /** UTF-8, section 3 of RFC 3629. */
  function Utf8Of(c: char): (b: seq<Byte>)
    ensures |b| == Width8(c)
  {
    var n := c as int;
    if n < 0x80 then [n]
    else if n < 0x800 then [0xC0 + n / 64, 0x80 + n % 64]
    else if n < 0x1_0000 then [0xE0 + n / 4096, 0x80 + n / 64 % 64, 0x80 + n % 64]
    else [0xF0 + n / 0x4_0000, 0x80 + n / 4096 % 64, 0x80 + n / 64 % 64, 0x80 + n % 64]
  }

  function Utf8(s: string): (b: seq<Byte>)
    ensures |b| == Bytes(s)
  {
    if s == "" then [] else Utf8Of(s[0]) + Utf8(s[1..])
  }

  function Units(s: string): nat { if s == "" then 0 else Width16(s[0]) + Units(s[1..]) }

  // ---------------------------------------------------------------- from a position to an offset

  /** Where line n starts. */
  function LineStart(s: string, n: nat): (at: Option<nat>)
    ensures at.Some? ==> at.value <= |s|
  {
    if n == 0 then Some(0)
    else if s == "" then None
    else
      match LineStart(s[1..], if s[0] == '\n' then n - 1 else n)
      case None => None
      case Some(at) => Some(at + 1)
  }

  /** How many scalars of the line make up the given number of UTF-16 units. */
  function Column(s: string, units: nat): (k: Option<nat>)
    ensures k.Some? ==> k.value <= |s|
  {
    if units == 0 then Some(0)
    else if s == "" || s[0] == '\n' || s[0] == '\r' || Width16(s[0]) > units then None
    else
      match Column(s[1..], units - Width16(s[0]))
      case None => None
      case Some(k) => Some(k + 1)
  }

  /** The place in the text a position denotes. */
  function PlaceOf(text: string, line: int, character: int): (at: Option<nat>)
    ensures at.Some? ==> at.value <= |text|
  {
    if line < 0 || character < 0 then None
    else
      match LineStart(text, line)
      case None => None
      case Some(start) =>
        match Column(text[start..], character)
        case None => None
        case Some(k) => Some(start + k)
  }

  /** lspByteOffset. */
  function ByteOffset(text: string, line: int, character: int): Option<nat> {
    match PlaceOf(text, line, character)
    case None => None
    case Some(at) => Some(Bytes(text[..at]))
  }

  // ---------------------------------------------------------------- from a column to a position

  /** The row of a one-based line, without a final carriage return. */
  function RowOf(text: string, line: int): Option<string> {
    var lines := Split(text, '\n');
    if line < 1 || line > |lines| then None else Some(TrimCr(lines[line - 1]))
  }

  /** nativePosition for a column: the zero-based line and the UTF-16 length of the text before it. */
  function NativePosition(text: string, line: int, column: int): Option<(int, nat)> {
    match RowOf(text, line)
    case None => None
    case Some(row) =>
      var col := if column == 0 then 1 else column;
      if col < 1 || col > |row| + 1 then None else Some((line - 1, Units(row[..col - 1])))
  }

  // ---------------------------------------------------------------- widths

  lemma {:induction false} BytesAppend(a: string, b: string)
    ensures Bytes(a + b) == Bytes(a) + Bytes(b)
  {
    if a == "" {
      assert a + b == b;
    } else {
      assert (a + b)[1..] == a[1..] + b;
      BytesAppend(a[1..], b);
    }
  }

  lemma {:induction false} UnitsAppend(a: string, b: string)
    ensures Units(a + b) == Units(a) + Units(b)
  {
    if a == "" {
      assert a + b == b;
    } else {
      assert (a + b)[1..] == a[1..] + b;
      UnitsAppend(a[1..], b);
    }
  }

  lemma BytesGrow(s: string, i: nat, j: nat)
    requires i < j <= |s|
    ensures Bytes(s[..i]) < Bytes(s[..j])
  {
    assert s[..j] == s[..i] + s[i..j];
    BytesAppend(s[..i], s[i..j]);
  }

  lemma UnitsGrow(s: string, i: nat, j: nat)
    requires i < j <= |s|
    ensures Units(s[..i]) < Units(s[..j])
  {
    assert s[..j] == s[..i] + s[i..j];
    UnitsAppend(s[..i], s[i..j]);
  }

  // ---------------------------------------------------------------- lines

  /** A row of the text: the last one ends with the text, the others before a newline. */
  ghost predicate RowAt(s: string, at: nat, row: string, last: bool) {
    && at + |row| <= |s| && s[at..at + |row|] == row
    && (if last then at + |row| == |s| else at + |row| < |s| && s[at + |row|] == '\n')
  }

  lemma RowShift(s: string, at: nat, row: string, last: bool)
    requires s != "" && RowAt(s[1..], at, row, last)
    ensures RowAt(s, at + 1, row, last)
  {
    assert s[at + 1..at + 1 + |row|] == s[1..][at..at + |row|];
  }

  lemma RowGrow(s: string, row: string, last: bool)
    requires s != "" && RowAt(s[1..], 0, row, last)
    ensures RowAt(s, 0, [s[0]] + row, last)
  {
    assert s[0..1 + |row|] == [s[0]] + s[1..][0..|row|];
  }

  ghost predicate FoundAt(s: string, n: nat) {
    && (LineStart(s, n).Some? <==> n < |Split(s, '\n')|)
    && (n < |Split(s, '\n')| ==> RowAt(s, LineStart(s, n).value, Split(s, '\n')[n], n + 1 == |Split(s, '\n')|))
  }

  lemma FoundPastNewline(s: string, n: nat)
    requires s != "" && s[0] == '\n' && FoundAt(s[1..], n)
    ensures FoundAt(s, n + 1)
  {
    var rest := Split(s[1..], '\n');
    assert Split(s, '\n') == [""] + rest;
    if n < |rest| { RowShift(s, LineStart(s[1..], n).value, rest[n], n + 1 == |rest|); }
  }

  lemma FoundPastChar(s: string, n: nat)
    requires s != "" && s[0] != '\n' && FoundAt(s[1..], n)
    ensures FoundAt(s, n)
  {
    var rest := Split(s[1..], '\n');
    assert Split(s, '\n') == [[s[0]] + rest[0]] + rest[1..];
    if n == 0 {
      RowGrow(s, rest[0], 1 == |rest|);
    } else if n < |rest| {
      RowShift(s, LineStart(s[1..], n).value, rest[n], n + 1 == |rest|);
    }
  }

  lemma {:induction false} LineFoundAt(s: string, n: nat)
    ensures FoundAt(s, n)
  {
    if s != "" {
      if s[0] != '\n' {
        LineFoundAt(s[1..], n);
        FoundPastChar(s, n);
      } else if n > 0 {
        LineFoundAt(s[1..], n - 1);
        FoundPastNewline(s, n - 1);
      }
    }
  }

  /** Line n is found exactly when there is one, and holds the n-th part of the split text. */
  lemma LineFound(s: string, n: nat)
    ensures LineStart(s, n).Some? <==> n < |Split(s, '\n')|
    ensures n < |Split(s, '\n')| ==>
              && '\n' !in Split(s, '\n')[n]
              && RowAt(s, LineStart(s, n).value, Split(s, '\n')[n], n + 1 == |Split(s, '\n')|)
  {
    LineFoundAt(s, n);
    SplitFree(s, '\n');
  }

  lemma RowFound(s: string, n: nat) returns (at: nat, row: string)
    requires n < |Split(s, '\n')|
    ensures LineStart(s, n) == Some(at) && row == Split(s, '\n')[n]
    ensures '\n' !in row && at + |row| <= |s| && s[at..at + |row|] == row
  {
    LineFound(s, n);
    at, row := LineStart(s, n).value, Split(s, '\n')[n];
  }

  lemma {:induction false} LineNext(s: string, n: nat)
    requires n + 1 < |Split(s, '\n')|
    ensures LineStart(s, n).Some? && LineStart(s, n + 1) == Some(LineStart(s, n).value + |Split(s, '\n')[n]| + 1)
  {
    LineFound(s, n);
    LineFound(s, n + 1);
    if s[0] == '\n' {
      if n > 0 { LineNext(s[1..], n - 1); }
    } else {
      LineNext(s[1..], n);
      assert LineStart(s[1..], 0) == Some(0);
    }
  }

  /** The next line starts after the next newline. */
  lemma NextLine(s: string, n: nat)
    requires LineStart(s, n).Some?
    ensures match Find(s, "\n", LineStart(s, n).value)
            case None => LineStart(s, n + 1).None?
            case Some(k) => LineStart(s, n + 1) == Some(k + 1)
  {
    var at := LineStart(s, n).value;
    LineFound(s, n);
    LineFound(s, n + 1);
    var end := at + |Split(s, '\n')[n]|;
    assert forall k :: at <= k < end ==> s[k] == s[at..end][k - at];
    FindNewline(s, at, end);
    if n + 1 < |Split(s, '\n')| { LineNext(s, n); }
  }

  lemma FindNewline(s: string, at: nat, end: nat)
    requires at <= end <= |s| && (end < |s| ==> s[end] == '\n')
    requires forall k :: at <= k < end ==> s[k] != '\n'
    ensures Find(s, "\n", at) == if end < |s| then Some(end) else None
  {
    forall k | at <= k <= |s| ensures OccursAt(s, "\n", k) <==> k < |s| && s[k] == '\n' {
      if k < |s| { assert s[k..k + 1] == [s[k]]; }
    }
    if end < |s| { assert OccursAt(s, "\n", end); }
    match Find(s, "\n", at)
    case None =>
    case Some(k) => assert OccursAt(s, "\n", k);
  }

  // ---------------------------------------------------------------- columns

  ghost predicate NoLineEnd(s: string) { '\n' !in s && '\r' !in s }

  lemma {:induction false} ColumnSound(s: string, units: nat)
    requires Column(s, units).Some?
    ensures var k := Column(s, units).value; Units(s[..k]) == units && NoLineEnd(s[..k])
  {
    if units == 0 {
      assert s[..0] == "";
    } else {
      var w := Width16(s[0]);
      ColumnSound(s[1..], units - w);
      var k := Column(s[1..], units - w).value;
      assert s[..k + 1] == [s[0]] + s[1..][..k];
      assert s[..k + 1][1..] == s[1..][..k];
    }
  }

  lemma {:induction false} ColumnComplete(s: string, k: nat)
    requires k <= |s| && NoLineEnd(s[..k])
    ensures Column(s, Units(s[..k])) == Some(k)
  {
    if k == 0 {
      assert s[..0] == "";
    } else {
      assert s[..k] == [s[0]] + s[1..][..k - 1];
      assert s[..k][1..] == s[1..][..k - 1];
      assert s[0] in s[..k];
      ColumnComplete(s[1..], k - 1);
    }
  }

  // ---------------------------------------------------------------- the laws

  /** The offset of column k (zero-based) of line n (zero-based), counted in the lines of the text. */
  ghost function OffsetAt(text: string, n: nat, k: nat): nat
    requires n < |Split(text, '\n')| && k <= |Split(text, '\n')[n]|
  {
    LineFound(text, n);
    Bytes(text[..LineStart(text, n).value + k])
  }

  lemma PlaceFound(text: string, n: nat, k: nat)
    requires n < |Split(text, '\n')| && k <= |Split(text, '\n')[n]| && '\r' !in Split(text, '\n')[n][..k]
    ensures LineStart(text, n).Some? && PlaceOf(text, n, Units(Split(text, '\n')[n][..k])) == Some(LineStart(text, n).value + k)
  {
    var at, row := RowFound(text, n);
    assert row == Split(text, '\n')[n];
    PlaceInRowAt(text, n, at, row, k);
  }

  lemma PlaceInRowAt(text: string, n: nat, at: nat, row: string, k: nat)
    requires LineStart(text, n) == Some(at) && k <= |row| && at + |row| <= |text| && text[at..at + |row|] == row
    requires '\n' !in row && '\r' !in row[..k]
    ensures PlaceOf(text, n, Units(row[..k])) == Some(at + k)
  {
    RowPrefix(text, at, row, k);
    ColumnComplete(text[at..], k);
    PlaceIs(text, n, Units(row[..k]), at, k);
  }

  lemma PlaceIs(text: string, n: nat, units: nat, at: nat, k: nat)
    requires LineStart(text, n) == Some(at) && Column(text[at..], units) == Some(k)
    ensures PlaceOf(text, n, units) == Some(at + k)
  {
  }

  lemma RowPrefix<T>(s: seq<T>, at: nat, row: seq<T>, k: nat)
    requires at + |row| <= |s| && s[at..at + |row|] == row && k <= |row|
    ensures s[at..][..k] == row[..k] && forall x :: x in row[..k] ==> x in row
  {
    assert s[at..][..k] == s[at..at + |row|][..k];
  }

  lemma PastNewline(s: string, k: nat, r: nat)
    requires k <= |s| && r < |s| && s[r] == '\n'
    ensures NoLineEnd(s[..k]) ==> k <= r
  {
    if k > r { assert s[..k][r] == '\n'; }
  }

  lemma UnitsInjective(s: string, j: nat, k: nat)
    requires j <= |s| && k <= |s| && Units(s[..j]) == Units(s[..k])
    ensures j == k
  {
    if j < k { UnitsGrow(s, j, k); } else if k < j { UnitsGrow(s, k, j); }
  }

  lemma PlaceInRow(text: string, line: int, character: int)
    requires PlaceOf(text, line, character).Some?
    ensures 0 <= line < |Split(text, '\n')| && LineStart(text, line).Some?
    ensures var k := PlaceOf(text, line, character).value - LineStart(text, line).value;
            var row := Split(text, '\n')[line];
            0 <= k <= |row| && '\r' !in row[..k] && Units(row[..k]) == character
  {
    PlaceParts(text, line, character);
    LineFound(text, line);
    var at := LineStart(text, line).value;
    ColumnInRow(text, at, Split(text, '\n')[line], character);
  }

  lemma PlaceParts(text: string, line: int, character: int)
    requires PlaceOf(text, line, character).Some?
    ensures line >= 0 && character >= 0 && LineStart(text, line).Some? && Column(text[LineStart(text, line).value..], character).Some?
    ensures PlaceOf(text, line, character).value == LineStart(text, line).value + Column(text[LineStart(text, line).value..], character).value
  {
  }

  lemma ColumnInRow(text: string, at: nat, row: string, character: nat)
    requires at + |row| <= |text| && text[at..at + |row|] == row && (at + |row| < |text| ==> text[at + |row|] == '\n')
    requires Column(text[at..], character).Some?
    ensures var k := Column(text[at..], character).value; k <= |row| && '\r' !in row[..k] && Units(row[..k]) == character
  {
    var k := Column(text[at..], character).value;
    ColumnSound(text[at..], character);
    if at + |row| < |text| { PastNewline(text[at..], k, |row|); }
    RowPrefix(text, at, row, k);
  }

  /** lspByteOffset accepts a position exactly when it is the UTF-16 length of a prefix of an
      existing line that holds no carriage return: it refuses what splits a surrogate pair or lies
      outside the line. What it returns is the byte offset of the end of that prefix. */
  lemma AcceptedExactly(text: string, line: int, character: int, offset: nat)
    ensures ByteOffset(text, line, character) == Some(offset) <==>
            && 0 <= line < |Split(text, '\n')|
            && exists k :: 0 <= k <= |Split(text, '\n')[line]| && '\r' !in Split(text, '\n')[line][..k]
                 && Units(Split(text, '\n')[line][..k]) == character && OffsetAt(text, line, k) == offset
  {
    if ByteOffset(text, line, character) == Some(offset) {
      PlaceInRow(text, line, character);
      var k := PlaceOf(text, line, character).value - LineStart(text, line).value;
      assert OffsetAt(text, line, k) == offset;
    }
    if 0 <= line < |Split(text, '\n')| {
      forall k | 0 <= k <= |Split(text, '\n')[line]| && '\r' !in Split(text, '\n')[line][..k]
          && Units(Split(text, '\n')[line][..k]) == character && OffsetAt(text, line, k) == offset
        ensures ByteOffset(text, line, character) == Some(offset)
      {
        PlaceFound(text, line, k);
      }
    }
  }

  /** The position of the k-th scalar of a row leads back to it, unless a carriage return lies before. */
  lemma PrefixInverts(text: string, n: nat, k: nat)
    requires n < |Split(text, '\n')| && k <= |Split(text, '\n')[n]|
    ensures var row := Split(text, '\n')[n];
            ByteOffset(text, n, Units(row[..k])) == if '\r' in row[..k] then None else Some(OffsetAt(text, n, k))
  {
    var row := Split(text, '\n')[n];
    var units := Units(row[..k]);
    if '\r' !in row[..k] {
      PlaceFound(text, n, k);
    } else if PlaceOf(text, n, units).Some? {
      PlaceInRow(text, n, units);
      UnitsInjective(row, PlaceOf(text, n, units).value - LineStart(text, n).value, k);
      assert false;
    }
  }

  /** lspByteOffset inverts nativePosition exactly at the columns before which the row holds no
      carriage return, and refuses the others. */
  lemma InvertsExactly(text: string, line: int, column: int)
    requires NativePosition(text, line, column).Some?
    ensures var (n, units) := NativePosition(text, line, column).value;
            var k := if column == 0 then 0 else column - 1;
            var row := Split(text, '\n')[line - 1];
            && n == line - 1 && 0 <= k <= |row|
            && ByteOffset(text, n, units) == if '\r' in row[..k] then None else Some(OffsetAt(text, line - 1, k))
  {
    var k := if column == 0 then 0 else column - 1;
    assert RowOf(text, line).value[..k] == Split(text, '\n')[line - 1][..k];
    PrefixInverts(text, line - 1, k);
  }

  /** A row without the carriage return at its end. */
  function Visible(row: string): string { if row != "" && row[|row| - 1] == '\r' then row[..|row| - 1] else row }

  /** A column is accepted exactly from 0, which stands for 1, to one past the row, the carriage return at
      its end not counted; the position counts the UTF-16 units before it. */
  lemma NativeAccepted(text: string, line: int, column: int)
    ensures var rows := Split(text, '\n');
            match NativePosition(text, line, column)
            case None => line < 1 || line > |rows| || column < 0 || column > |Visible(rows[line - 1])| + 1
            case Some((n, units)) =>
              && 1 <= line <= |rows| && 0 <= column <= |Visible(rows[line - 1])| + 1
              && n == line - 1 && units == Units(rows[line - 1][..if column == 0 then 0 else column - 1])
  {
    var rows := Split(text, '\n');
    if 1 <= line <= |rows| && 0 <= column <= |Visible(rows[line - 1])| + 1 {
      assert Visible(rows[line - 1]) == TrimCr(rows[line - 1]);
      TrimmedSlices(rows[line - 1], if column == 0 then 0 else column - 1, |TrimCr(rows[line - 1])|);
    }
  }

  /** Where a symbol begins on a row: it must occur exactly once. */
  function SymbolColumn(row: string, symbol: string): (k: Option<nat>)
    requires symbol != ""
    ensures k.Some? ==> k.value + |symbol| <= |row|
  {
    match Find(row, symbol, 0)
    case None => None
    case Some(k) => if Find(row, symbol, k + |symbol|).Some? then None else Some(k)
  }

  /** nativePosition for a symbol. */
  function SymbolPosition(text: string, line: int, symbol: string): Option<(int, nat)>
    requires symbol != ""
  {
    match RowOf(text, line)
    case None => None
    case Some(row) =>
      match SymbolColumn(row, symbol)
      case None => None
      case Some(k) => Some((line - 1, Units(row[..k])))
  }

  /** Every occurrence of the symbol begins within the one at k. */
  ghost predicate OnlyAt(row: string, symbol: string, k: nat) {
    OccursAt(row, symbol, k) && forall j: nat :: OccursAt(row, symbol, j) ==> k <= j < k + |symbol|
  }

  /** "Exactly once" does not count an occurrence that overlaps the first. */
  lemma ColumnExactly(row: string, symbol: string, k: nat)
    requires symbol != ""
    ensures SymbolColumn(row, symbol) == Some(k) <==> OnlyAt(row, symbol, k)
  {
    match Find(row, symbol, 0)
    case None => assert !OccursAt(row, symbol, k);
    case Some(i) =>
      assert OccursAt(row, symbol, i);
      assert OnlyAt(row, symbol, k) ==> i == k;
      match Find(row, symbol, i + |symbol|)
      case None =>
      case Some(j) => assert OccursAt(row, symbol, j);
  }

  lemma VisibleRow(text: string, line: int)
    ensures RowOf(text, line) == if 1 <= line <= |Split(text, '\n')| then Some(Visible(Split(text, '\n')[line - 1])) else None
  {
  }

  /** A symbol is accepted exactly when the row is there and has it once. */
  lemma SymbolAccepted(text: string, line: int, symbol: string)
    requires symbol != ""
    ensures SymbolPosition(text, line, symbol) ==
            if line < 1 || line > |Split(text, '\n')| then None
            else
              var row := Visible(Split(text, '\n')[line - 1]);
              if SymbolColumn(row, symbol).None? then None else Some((line - 1, Units(row[..SymbolColumn(row, symbol).value])))
  {
    VisibleRow(text, line);
  }

  /** The offset of a symbol's position is the offset of the symbol. */
  lemma SymbolInverts(text: string, line: int, symbol: string)
    requires symbol != "" && SymbolPosition(text, line, symbol).Some?
    ensures 1 <= line <= |Split(text, '\n')|
    ensures var (n, units) := SymbolPosition(text, line, symbol).value;
            var row := Split(text, '\n')[line - 1];
            exists k :: 0 <= k && OccursAt(row, symbol, k) && n == line - 1
              && ByteOffset(text, n, units) == if '\r' in row[..k] then None else Some(OffsetAt(text, line - 1, k))
  {
    var row, trimmed := Split(text, '\n')[line - 1], RowOf(text, line).value;
    var k := SymbolColumn(trimmed, symbol).value;
    ColumnExactly(trimmed, symbol, k);
    TrimmedSlices(row, k, k + |symbol|);
    PrefixInverts(text, line - 1, k);
    assert OccursAt(row, symbol, k);
  }

  lemma TrimmedSlices(row: string, i: nat, j: nat)
    requires i <= j <= |TrimCr(row)|
    ensures TrimCr(row)[..i] == row[..i] && TrimCr(row)[i..j] == row[i..j]
  {
    assert TrimCr(row) == row[..|TrimCr(row)|];
  }

  /** Later positions have greater offsets. */
  lemma StrictlyIncreasing(text: string, line: int, character: int, line': int, character': int)
    requires ByteOffset(text, line, character).Some? && ByteOffset(text, line', character').Some?
    requires line < line' || (line == line' && character < character')
    ensures ByteOffset(text, line, character).value < ByteOffset(text, line', character').value
  {
    PlaceInRow(text, line, character);
    PlaceInRow(text, line', character');
    var i, j := PlaceOf(text, line, character).value, PlaceOf(text, line', character').value;
    if line == line' {
      var at, row := LineStart(text, line).value, Split(text, '\n')[line];
      if j - at < i - at { UnitsGrow(row, j - at, i - at); }
    } else {
      LinesAhead(text, line, line');
    }
    BytesGrow(text, i, j);
  }

  lemma {:induction false} LinesAhead(text: string, m: nat, n: nat)
    requires m < n && n < |Split(text, '\n')|
    ensures LineStart(text, m).Some? && LineStart(text, n).Some?
    ensures LineStart(text, m).value + |Split(text, '\n')[m]| < LineStart(text, n).value
    decreases n
  {
    LineNext(text, n - 1);
    if m < n - 1 { LinesAhead(text, m, n - 1); }
  }

  // ---------------------------------------------------------------- the loops

  /** The first loop of lspByteOffset: one newline per line. */
  method FindLine(text: string, line: nat) returns (r: Option<nat>)
    ensures r == LineStart(text, line)
  {
    var start := 0;
    for n := 0 to line
      invariant LineStart(text, n) == Some(start)
    {
      NextLine(text, n);
      var next := Find(text, "\n", start);
      if next.None? {
        NoLaterLine(text, n + 1, line);
        return None;
      }
      start := next.value + 1;
    }
    r := Some(start);
  }

  /** The second loop: the scalars of one line, counting UTF-16 units and bytes. */
  method ScanColumn(line: string, character: nat) returns (r: Option<nat>)
    ensures r == match Column(line, character) case None => None case Some(k) => Some(Bytes(line[..k]))
  {
    var units, index, offset := 0, 0, 0;
    assert line[0..] == line;
    while true
      invariant index <= |line| && units <= character && offset == Bytes(line[..index])
      invariant Column(line, character) == Shifted(Column(line[index..], character - units), index)
      decreases |line| - index
    {
      if units == character { return Some(offset); }
      if index >= |line| || line[index] == '\n' || line[index] == '\r' { return None; }
      ColumnStep(line, index);
      units := units + Width16(line[index]);
      if units > character { return None; }
      offset := offset + Width8(line[index]);
      index := index + 1;
    }
  }

  function Shifted(k: Option<nat>, shift: nat): Option<nat> { match k case None => None case Some(n) => Some(n + shift) }

  lemma ColumnStep(s: string, i: nat)
    requires i < |s|
    ensures s[i..][1..] == s[i + 1..] && s[i..][0] == s[i]
    ensures Bytes(s[..i + 1]) == Bytes(s[..i]) + Width8(s[i])
  {
    assert s[..i + 1] == s[..i] + [s[i]];
    BytesAppend(s[..i], [s[i]]);
    assert [s[i]][1..] == "";
  }

  method LspByteOffset(text: string, line: int, character: int) returns (r: Option<nat>)
    ensures r == ByteOffset(text, line, character)
  {
    if line < 0 || character < 0 { return None; }
    var start := FindLine(text, line);
    if start.None? { return None; }
    var scanned := ScanColumn(text[start.value..], character);
    if scanned.None? { return None; }
    ghost var k := Column(text[start.value..], character).value;
    assert text[..start.value + k] == text[..start.value] + text[start.value..][..k];
    BytesAppend(text[..start.value], text[start.value..][..k]);
    r := Some(Bytes(text[..start.value]) + scanned.value);
  }

  lemma NoLaterLine(s: string, m: nat, n: nat)
    requires LineStart(s, m).None? && m <= n
    ensures LineStart(s, n).None?
  {
    LineFound(s, m);
    LineFound(s, n);
  }
}
