/** Options, results and the string helpers the other modules share. */
module Common {
  datatype Option<+T> = None | Some(value: T)
  datatype Result<+T, +E> = Ok(value: T) | Err(error: E)

  type Byte = x: int | 0 <= x < 256
}

/** The parts of Go's strings and strconv packages the patch engine relies on. */
module Text {
  import opened Common

  // ---------------------------------------------------------------- split and join

  /** strings.Split for a one-character separator. */
  function Split(s: string, sep: char): (parts: seq<string>)
    ensures |parts| >= 1
  {
    if s == "" then [""]
    else
      var rest := Split(s[1..], sep);
      if s[0] == sep then [""] + rest else [[s[0]] + rest[0]] + rest[1..]
  }

  /** strings.Join for a one-character separator. */
  function Join(parts: seq<string>, sep: char): string {
    if parts == [] then ""
    else if |parts| == 1 then parts[0]
    else parts[0] + [sep] + Join(parts[1..], sep)
  }

  lemma {:induction false} SplitHead(a: string, b: string, sep: char)
    requires sep !in a
    ensures Split(a + [sep] + b, sep) == [a] + Split(b, sep)
  {
    var s := a + [sep] + b;
    if a == "" {
      assert s[1..] == b;
    } else {
      assert s[1..] == a[1..] + [sep] + b;
      SplitHead(a[1..], b, sep);
      assert [a[0]] + a[1..] == a;
    }
  }

  /** The block of lines stands at line i. */
  ghost predicate StandsAt<T>(lines: seq<T>, i: nat, block: seq<T>) {
    i + |block| <= |lines| && forall j :: 0 <= j < |block| ==> lines[i + j] == block[j]
  }

  lemma Associative<T>(a: seq<T>, b: seq<T>, c: seq<T>)
    ensures a + (b + c) == a + b + c
  {
  }

  lemma TailOfSum<T>(a: seq<T>, b: seq<T>)
    requires a != []
    ensures (a + b)[1..] == a[1..] + b && (a + b)[0] == a[0]
  {
  }

  /** Splitting commutes with appending across a separator. */
  lemma {:induction false} SplitAppend(a: string, b: string, sep: char)
    ensures Split(a + [sep] + b, sep) == Split(a, sep) + Split(b, sep)
  {
    Associative(a, [sep], b);
    if a == "" {
      assert a + [sep] + b == [sep] + b && ([sep] + b)[1..] == b;
    } else {
      TailOfSum(a, [sep] + b);
      Associative(a[1..], [sep], b);
      SplitAppend(a[1..], b, sep);
      var rest := Split(a[1..], sep);
      TailOfSum(rest, Split(b, sep));
      if a[0] == sep {
        Associative([""], rest, Split(b, sep));
      } else {
        Associative([[a[0]] + rest[0]], rest[1..], Split(b, sep));
      }
    }
  }

  lemma {:induction false} SplitWhole(a: string, sep: char)
    requires sep !in a
    ensures Split(a, sep) == [a]
  {
    if a != "" {
      SplitWhole(a[1..], sep);
      assert [a[0]] + a[1..] == a;
    }
  }

  ghost predicate AllFree(parts: seq<string>, c: char) {
    forall i :: 0 <= i < |parts| ==> c !in parts[i]
  }

  lemma {:induction false} SplitJoin(parts: seq<string>, sep: char)
    requires parts != [] && AllFree(parts, sep)
    ensures Split(Join(parts, sep), sep) == parts
  {
    if |parts| == 1 {
      SplitWhole(parts[0], sep);
    } else {
      SplitJoin(parts[1..], sep);
      SplitHead(parts[0], Join(parts[1..], sep), sep);
      assert parts == [parts[0]] + parts[1..];
    }
  }

  lemma {:induction false} JoinSplit(s: string, sep: char)
    ensures Join(Split(s, sep), sep) == s
  {
    if s != "" {
      var rest := Split(s[1..], sep);
      JoinSplit(s[1..], sep);
      if s[0] == sep {
        assert ([""] + rest)[1..] == rest;
        assert s == [sep] + s[1..];
      } else {
        var parts := [[s[0]] + rest[0]] + rest[1..];
        assert parts[1..] == rest[1..];
        assert s == [s[0]] + s[1..];
        if |rest| > 1 {
          assert [s[0]] + rest[0] + [sep] + Join(rest[1..], sep) == [s[0]] + (rest[0] + [sep] + Join(rest[1..], sep));
        }
      }
    }
  }

  lemma {:induction false} SplitFree(s: string, sep: char)
    ensures AllFree(Split(s, sep), sep)
    ensures forall c :: c !in s ==> AllFree(Split(s, sep), c)
  {
    if s != "" {
      SplitFree(s[1..], sep);
      var rest := Split(s[1..], sep);
      forall c | c == sep || c !in s ensures AllFree(Split(s, sep), c) {
        assert c == sep || c !in s[1..];
        assert AllFree(rest, c);
      }
    }
  }

  lemma {:induction false} JoinFree(parts: seq<string>, sep: char, c: char)
    requires c != sep && AllFree(parts, c)
    ensures c !in Join(parts, sep)
  {
    if |parts| > 1 {
      JoinFree(parts[1..], sep, c);
    }
  }

  /** Two texts with the same lines are the same text. */
  lemma SplitInjective(s: string, t: string, sep: char)
    requires Split(s, sep) == Split(t, sep)
    ensures s == t
  {
    JoinSplit(s, sep);
    JoinSplit(t, sep);
  }

  // ---------------------------------------------------------------- newlines

  /** strings.TrimSuffix(s, "\r"). */
  function TrimCr(s: string): string { if s != "" && s[|s| - 1] == '\r' then s[..|s| - 1] else s }

  /** ReplaceAll(s, "\r\n", "\n"). */
  function FoldCrLf(s: string): string {
    if s == "" then ""
    else if |s| >= 2 && s[0] == '\r' && s[1] == '\n' then ['\n'] + FoldCrLf(s[2..])
    else [s[0]] + FoldCrLf(s[1..])
  }

  /** ReplaceAll(s, "\r", "\n"). */
  function FoldCr(s: string): (r: string)
    ensures '\r' !in r
  {
    if s == "" then "" else [if s[0] == '\r' then '\n' else s[0]] + FoldCr(s[1..])
  }

  function UnifyNewlines(s: string): string {
    FoldCr(FoldCrLf(s))
  }

  /** normalizeHashlineText: drop one byte-order mark, then unify newlines. */
  function Normalize(raw: string): (text: string)
    ensures '\r' !in text
  {
    UnifyNewlines(if |raw| > 0 && raw[0] == '\U{FEFF}' then raw[1..] else raw)
  }

  lemma {:induction false} NoCrFixed(s: string)
    requires '\r' !in s
    ensures FoldCrLf(s) == s && FoldCr(s) == s
  {
    if s != "" {
      NoCrFixed(s[1..]);
      assert s == [s[0]] + s[1..];
    }
  }

  lemma UnifyFixed(s: string)
    ensures UnifyNewlines(s) == s <==> '\r' !in s
  {
    if '\r' !in s { NoCrFixed(s); }
  }

  // ---------------------------------------------------------------- numbers

  const MAX_INT: int := 0x7FFF_FFFF_FFFF_FFFF

  predicate IsDigit(c: char) { '0' <= c <= '9' }

  function DigitChar(d: nat): (c: char)
    requires d < 10
    ensures IsDigit(c) && c as int - '0' as int == d
  {
    ('0' as int + d) as char
  }

  /** strconv.Itoa on the non-negative numbers. */
  function Itoa(n: nat): (s: string)
    ensures |s| >= 1 && forall i :: 0 <= i < |s| ==> IsDigit(s[i])
  {
    if n < 10 then [DigitChar(n)] else Itoa(n / 10) + [DigitChar(n % 10)]
  }

  predicate AllDigits(s: string) { forall i :: 0 <= i < |s| ==> IsDigit(s[i]) }

  function DigitOf(c: char): (d: nat)
    requires IsDigit(c)
    ensures d < 10
  {
    c as int - '0' as int
  }

  function DigitsValue(s: string): nat
    requires AllDigits(s)
  {
    if s == "" then 0
    else 10 * DigitsValue(s[..|s| - 1]) + DigitOf(s[|s| - 1])
  }

  /** strconv.Atoi: an optional sign and decimal digits, within the 64-bit range. */
  function Atoi(s: string): Option<int> {
    var digits := if |s| > 0 && (s[0] == '+' || s[0] == '-') then s[1..] else s;
    if digits == "" || !AllDigits(digits) then None
    else
      var magnitude: int := DigitsValue(digits);
      var value := if s[0] == '-' then -magnitude else magnitude;
      if -MAX_INT - 1 <= value <= MAX_INT then Some(value) else None
  }

  lemma {:induction false} ItoaValue(n: nat)
    ensures DigitsValue(Itoa(n)) == n
  {
    if n >= 10 {
      ItoaValue(n / 10);
      assert Itoa(n)[..|Itoa(n)| - 1] == Itoa(n / 10);
    } else {
      assert Itoa(n)[..0] == "";
    }
  }

  lemma AtoiItoa(n: nat)
    requires n <= MAX_INT
    ensures Atoi(Itoa(n)) == Some(n)
  {
    ItoaValue(n);
    assert IsDigit(Itoa(n)[0]);
  }

  // ---------------------------------------------------------------- trimming

  /** unicode.IsSpace. */
  predicate IsSpace(c: char) {
    || c == ' ' || '\t' <= c <= '\r' || c == '\U{85}' || c == '\U{A0}' || c == '\U{1680}'
    || '\U{2000}' <= c <= '\U{200A}' || c == '\U{2028}' || c == '\U{2029}' || c == '\U{202F}'
    || c == '\U{205F}' || c == '\U{3000}'
  }

  /** strings.TrimSpace. */
  function TrimSpace(s: string): string {
    if s == "" then ""
    else if IsSpace(s[0]) then TrimSpace(s[1..])
    else if IsSpace(s[|s| - 1]) then TrimSpace(s[..|s| - 1])
    else s
  }

  ghost predicate AllSpaces(s: string) { forall i :: 0 <= i < |s| ==> IsSpace(s[i]) }

  /** Nothing is left to trim. */
  ghost predicate Tight(s: string) { s == "" || (!IsSpace(s[0]) && !IsSpace(s[|s| - 1])) }

  /** Trimming takes white space off both ends, all of it and nothing else. */
  lemma {:induction false} TrimParts(s: string) returns (before: string, after: string)
    ensures s == before + TrimSpace(s) + after && AllSpaces(before) && AllSpaces(after) && Tight(TrimSpace(s))
  {
    before, after := "", "";
    if s == "" {
    } else if IsSpace(s[0]) {
      before, after := TrimParts(s[1..]);
      before := [s[0]] + before;
    } else if IsSpace(s[|s| - 1]) {
      before, after := TrimParts(s[..|s| - 1]);
      after := after + [s[|s| - 1]];
    }
  }

  lemma {:induction false} TrimmedTo(before: string, w: string, after: string)
    requires AllSpaces(before) && AllSpaces(after) && w != "" && Tight(w)
    ensures TrimSpace(before + w + after) == w
    decreases |before| + |after|
  {
    var s := before + w + after;
    if before != "" {
      assert s[0] == before[0] && s[1..] == before[1..] + w + after;
      TrimmedTo(before[1..], w, after);
    } else {
      assert s[0] == w[0];
      if after != "" {
        assert s[|s| - 1] == after[|after| - 1] && s[..|s| - 1] == before + w + after[..|after| - 1];
        TrimmedTo(before, w, after[..|after| - 1]);
      } else {
        assert s == w;
      }
    }
  }

  predicate HasPrefix(s: string, p: string) { |p| <= |s| && s[..|p|] == p }

  predicate HasSuffix(s: string, p: string) { |p| <= |s| && s[|s| - |p|..] == p }

  /** strings.Index for a non-empty needle; None when absent. */
  function Find(s: string, needle: string, from: nat): (at: Option<nat>)
    requires from <= |s| && needle != ""
    ensures at.Some? ==> from <= at.value && at.value + |needle| <= |s| && s[at.value..at.value + |needle|] == needle
    ensures at.Some? ==> forall k :: from <= k < at.value ==> !OccursAt(s, needle, k)
    ensures at.None? ==> forall k :: from <= k ==> !OccursAt(s, needle, k)
    decreases |s| - from
  {
    if from + |needle| > |s| then None
    else if OccursAt(s, needle, from) then Some(from)
    else Find(s, needle, from + 1)
  }

  predicate OccursAt(s: string, needle: string, k: nat) {
    k + |needle| <= |s| && s[k..k + |needle|] == needle
  }

  // ---------------------------------------------------------------- ordering

  /** Go's string order; on code points it agrees with the order of the UTF-8 bytes. */
  predicate LexLe(a: string, b: string) {
    if a == "" then true
    else if b == "" then false
    else if a[0] != b[0] then a[0] < b[0]
    else LexLe(a[1..], b[1..])
  }

  lemma {:induction false} LexTotal(a: string, b: string)
    ensures LexLe(a, b) || LexLe(b, a)
    ensures LexLe(a, b) && LexLe(b, a) ==> a == b
  {
    if a != "" && b != "" && a[0] == b[0] {
      LexTotal(a[1..], b[1..]);
      assert a == [a[0]] + a[1..] && b == [b[0]] + b[1..];
    }
  }

  lemma {:induction false} LexTransitive(a: string, b: string, c: string)
    requires LexLe(a, b) && LexLe(b, c)
    ensures LexLe(a, c)
  {
    if a != "" && b != "" && c != "" && a[0] == b[0] && b[0] == c[0] {
      LexTransitive(a[1..], b[1..], c[1..]);
    }
  }

  predicate IsLeast(x: string, keys: set<string>) { x in keys && forall k :: k in keys ==> LexLe(x, k) }

  lemma {:induction false} LeastExists(keys: set<string>) returns (x: string)
    requires keys != {}
    ensures IsLeast(x, keys)
  {
    var k :| k in keys;
    LexTotal(k, k);
    if keys == {k} {
      x := k;
    } else {
      assert keys - {k} != {};
      var y := LeastExists(keys - {k});
      LexTotal(k, y);
      if LexLe(k, y) {
        x := k;
        forall z | z in keys ensures LexLe(k, z) {
          if z != k { LexTransitive(k, y, z); }
        }
      } else {
        x := y;
      }
    }
  }

  ghost predicate NoRepeats<T>(xs: seq<T>) {
    forall i, j :: 0 <= i < j < |xs| ==> xs[i] != xs[j]
  }

  ghost predicate Lists<T(!new)>(xs: seq<T>, keys: set<T>) {
    NoRepeats(xs) && forall x :: x in xs <==> x in keys
  }

  lemma ListedAll<T(!new)>(xs: seq<T>, keys: set<T>, p: T -> bool)
    requires Lists(xs, keys)
    ensures (forall i :: 0 <= i < |xs| ==> p(xs[i])) <==> (forall x :: x in keys ==> p(x))
  {
    assert forall i :: 0 <= i < |xs| ==> xs[i] in xs;
  }

  lemma ListedPairs<T(!new)>(xs: seq<T>, keys: set<T>, r: (T, T) -> bool)
    requires Lists(xs, keys)
    ensures (forall i, j :: 0 <= i < j < |xs| ==> !r(xs[i], xs[j]) && !r(xs[j], xs[i]))
       <==> (forall x, y :: x in keys && y in keys && x != y ==> !r(x, y))
  {
    if forall i, j :: 0 <= i < j < |xs| ==> !r(xs[i], xs[j]) && !r(xs[j], xs[i]) {
      forall x, y | x in keys && y in keys && x != y ensures !r(x, y) {
        assert x in xs && y in xs;
        var i :| 0 <= i < |xs| && xs[i] == x;
        var j :| 0 <= j < |xs| && xs[j] == y;
        assert i < j || j < i;
      }
    }
    assert forall i :: 0 <= i < |xs| ==> xs[i] in xs;
  }

  /** The keys of a map, listed and put through sort.Strings. */
  function Sorted(keys: set<string>): (xs: seq<string>)
    ensures Lists(xs, keys)
    ensures forall i, j :: 0 <= i < j < |xs| ==> LexLe(xs[i], xs[j])
  {
    if keys == {} then []
    else
      var least := LeastOf(keys);
      var rest := Sorted(keys - {least});
      assert forall i :: 0 <= i < |rest| ==> rest[i] in rest;
      [least] + rest
  }

  method SortedKeys(keys: set<string>) returns (xs: seq<string>)
    ensures Lists(xs, keys)
  {
    xs := Sorted(keys);
  }

  function LeastOf(keys: set<string>): (x: string)
    requires keys != {}
    ensures IsLeast(x, keys)
  {
    assert exists x :: IsLeast(x, keys) by { var x := LeastExists(keys); }
    assert forall x, y :: IsLeast(x, keys) && IsLeast(y, keys) ==> x == y by {
      forall x, y | IsLeast(x, keys) && IsLeast(y, keys) ensures x == y { LexTotal(x, y); }
    }
    var x :| IsLeast(x, keys);
    x
  }
}
