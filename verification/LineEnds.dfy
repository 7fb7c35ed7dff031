/** What the readers make of line ends, of a byte order mark and of numbers. */
module LineEnds {
  import opened Common
  import opened Text

  // ---------------------------------------------------------------- line ends

  /** Folding pairs first and single carriage returns after is reading the text once: a pair is one
      newline, so is a carriage return that has none after it, and everything else stands. */
  lemma UnifyLaw(s: string)
    ensures UnifyNewlines("") == ""
    ensures UnifyNewlines("\r\n" + s) == "\n" + UnifyNewlines(s)
    ensures (s == "" || s[0] != '\n') ==> UnifyNewlines("\r" + s) == "\n" + UnifyNewlines(s)
    ensures forall c :: c != '\r' ==> UnifyNewlines([c] + s) == [c] + UnifyNewlines(s)
  {
    PairFolds(s);
    if s == "" || s[0] != '\n' { CharFolds('\r', s); }
    forall c | c != '\r' ensures UnifyNewlines([c] + s) == [c] + UnifyNewlines(s) { CharFolds(c, s); }
  }

  lemma PairFolds(s: string)
    ensures UnifyNewlines("\r\n" + s) == "\n" + UnifyNewlines(s)
  {
    var p := "\r\n" + s;
    assert p[0] == '\r' && p[1] == '\n' && p[2..] == s;
    assert FoldCrLf(p) == ['\n'] + FoldCrLf(s);
    assert (['\n'] + FoldCrLf(s))[1..] == FoldCrLf(s);
  }

  lemma CharFolds(c: char, s: string)
    requires c != '\r' || s == "" || s[0] != '\n'
    ensures UnifyNewlines([c] + s) == [if c == '\r' then '\n' else c] + UnifyNewlines(s)
  {
    var t := [c] + s;
    assert t[0] == c && t[1..] == s;
    assert FoldCrLf(t) == [c] + FoldCrLf(s);
    assert ([c] + FoldCrLf(s))[1..] == FoldCrLf(s);
  }

  /** A byte order mark is dropped from the head of the text, and only from there. */
  lemma MarkDropped(s: string)
    ensures Normalize("\U{FEFF}" + s) == UnifyNewlines(s)
    ensures (s == "" || s[0] != '\U{FEFF}') ==> Normalize(s) == UnifyNewlines(s)
  {
    assert ("\U{FEFF}" + s)[1..] == s;
  }

  /** Rows written one after the other with some line end between them. */
  function Written(rows: seq<string>, end: string): string {
    if rows == [] then ""
    else if |rows| == 1 then rows[0]
    else rows[0] + end + Written(rows[1..], end)
  }

  lemma {:induction false} RowStands(row: string, s: string)
    requires '\r' !in row
    ensures UnifyNewlines(row + s) == row + UnifyNewlines(s)
  {
    if row == "" {
      assert row + s == s;
    } else {
      assert row + s == [row[0]] + (row[1..] + s);
      UnifyLaw(row[1..] + s);
      RowStands(row[1..], s);
    }
  }

  lemma RowReads(row: string, end: string, rest: string, tail: string)
    requires '\r' !in row && UnifyNewlines(rest) == tail
    requires end == "\n" || end == "\r\n" || (end == "\r" && (rest == "" || rest[0] != '\n'))
    ensures UnifyNewlines(row + end + rest) == row + ['\n'] + tail
  {
    EndFolds(end, rest);
    RowStands(row, end + rest);
    assert row + end + rest == row + (end + rest);
    assert row + ("\n" + tail) == row + ['\n'] + tail;
  }

  /** The same rows are read whichever of the three line ends a file has. */
  lemma {:induction false} EndsAgree(rows: seq<string>, end: string)
    requires (end == "\n" || end == "\r\n" || end == "\r") && forall i :: 0 <= i < |rows| ==> '\r' !in rows[i] && '\n' !in rows[i]
    ensures UnifyNewlines(Written(rows, end)) == Join(rows, '\n')
  {
    if |rows| == 1 {
      assert rows[0] + "" == rows[0];
      RowStands(rows[0], "");
    } else if rows != [] {
      var rest := Written(rows[1..], end);
      EndsAgree(rows[1..], end);
      HeadNotNewline(rows[1..], end);
      RowReads(rows[0], end, rest, Join(rows[1..], '\n'));
    }
  }

  lemma EndFolds(end: string, s: string)
    requires end == "\n" || end == "\r\n" || (end == "\r" && (s == "" || s[0] != '\n'))
    ensures UnifyNewlines(end + s) == "\n" + UnifyNewlines(s)
  {
    UnifyLaw(s);
    if end == "\n" { assert end == ['\n']; }
  }

  lemma HeadNotNewline(rows: seq<string>, end: string)
    requires end != "\n" ==> end != "" && end[0] == '\r'
    requires forall i :: 0 <= i < |rows| ==> '\n' !in rows[i]
    ensures end != "\n" && Written(rows, end) != "" ==> Written(rows, end)[0] != '\n'
  {
    if |rows| > 1 && rows[0] == "" { assert Written(rows, end) == end + Written(rows[1..], end); }
  }

  // ---------------------------------------------------------------- numbers

  function InRange(n: int): Option<int> { if -0x8000_0000_0000_0000 <= n <= 0x7FFF_FFFF_FFFF_FFFF then Some(n) else None }

  /** A number is read from digits with or without a sign; one that does not fit in 64 bits is refused. */
  lemma SignsRead(digits: string)
    requires AllDigits(digits) && digits != ""
    ensures Atoi(digits) == InRange(DigitsValue(digits))
    ensures Atoi("+" + digits) == InRange(DigitsValue(digits))
    ensures Atoi("-" + digits) == InRange(0 - DigitsValue(digits))
  {
    assert IsDigit(digits[0]);
    assert ("+" + digits)[1..] == digits;
    assert ("-" + digits)[1..] == digits;
  }

  /** Nothing else is read as a number. */
  lemma OnlyNumbers(s: string)
    requires Atoi(s).Some?
    ensures s != "" && (AllDigits(s) || ((s[0] == '+' || s[0] == '-') && s[1..] != "" && AllDigits(s[1..])))
  {
  }
}
