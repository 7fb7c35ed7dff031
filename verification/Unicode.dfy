/** What is counted in positions: the bytes of UTF-8 and the units of UTF-16. Both encodings read back,
    so the widths used for positions are those of the real encodings. */
module Unicode {
  import opened Common
  import opened Positions

  predicate IsScalar(n: int) { 0 <= n < 0xD800 || 0xE000 <= n < 0x11_0000 }

  /** The scalar at the head of some bytes, and its width (RFC 3629, section 3). */
  function FirstScalar(b: seq<Byte>): (r: Option<(int, nat)>)
    ensures r.Some? ==> 0 < r.value.1 <= |b|
  {
    if b == [] then None
    else if b[0] < 0x80 then Some((b[0] as int, 1))
    else if 0xC0 <= b[0] < 0xE0 && |b| >= 2 then Some(((b[0] - 0xC0) * 0x40 + Low(b[1]), 2))
    else if 0xE0 <= b[0] < 0xF0 && |b| >= 3 then Some(((b[0] - 0xE0) * 0x1000 + Low(b[1]) * 0x40 + Low(b[2]), 3))
    else if 0xF0 <= b[0] && |b| >= 4 then
      Some(((b[0] - 0xF0) * 0x4_0000 + Low(b[1]) * 0x1000 + Low(b[2]) * 0x40 + Low(b[3]), 4))
    else None
  }

  function Low(b: Byte): int { b % 0x40 }

  /** The string some bytes encode. */
  function ReadUtf8(b: seq<Byte>): Option<string> {
    if b == [] then Some("")
    else
      match FirstScalar(b)
      case None => None
      case Some((n, w)) =>
        if !IsScalar(n) then None
        else
          match ReadUtf8(b[w..])
          case None => None
          case Some(rest) => Some([n as char] + rest)
  }

  lemma Digits(n: nat)
    ensures n == n / 0x40 * 0x40 + n % 0x40
    ensures n == n / 0x1000 * 0x1000 + n / 0x40 % 0x40 * 0x40 + n % 0x40
    ensures n == n / 0x4_0000 * 0x4_0000 + n / 0x1000 % 0x40 * 0x1000 + n / 0x40 % 0x40 * 0x40 + n % 0x40
  {
    assert n / 0x40 / 0x40 == n / 0x1000 && n / 0x1000 / 0x40 == n / 0x4_0000;
  }

  lemma LowOf(x: nat)
    requires x < 0x40
    ensures Low(0x80 + x) == x
  {
  }

  lemma LeadReads(b: seq<Byte>, rest: seq<Byte>)
    requires 1 <= |b| <= 4
    ensures FirstScalar(b).Some? && FirstScalar(b).value.1 == |b| ==> FirstScalar(b + rest) == FirstScalar(b)
  {
    assert (b + rest)[0] == b[0];
    assert |b| > 1 ==> (b + rest)[1] == b[1];
    assert |b| > 2 ==> (b + rest)[2] == b[2];
    assert |b| > 3 ==> (b + rest)[3] == b[3];
  }

  lemma ScalarReads(c: char)
    ensures FirstScalar(Utf8Of(c)) == Some((c as int, Width8(c)))
  {
    var n := c as int;
    Digits(n);
    LowOf(n % 0x40);
    LowOf(n / 0x40 % 0x40);
    LowOf(n / 0x1000 % 0x40);
  }

  lemma FirstReads(c: char, rest: seq<Byte>)
    ensures FirstScalar(Utf8Of(c) + rest) == Some((c as int, Width8(c)))
  {
    ScalarReads(c);
    LeadReads(Utf8Of(c), rest);
  }

  /** UTF-8 reads back: no two strings have the same bytes. */
  lemma {:induction false} Utf8RoundTrip(s: string)
    ensures ReadUtf8(Utf8(s)) == Some(s)
  {
    if s != "" {
      FirstReads(s[0], Utf8(s[1..]));
      assert (Utf8Of(s[0]) + Utf8(s[1..]))[|Utf8Of(s[0])|..] == Utf8(s[1..]);
      Utf8RoundTrip(s[1..]);
      assert [s[0]] + s[1..] == s;
    }
  }

  /** UTF-16: scalars past the basic plane take a pair of surrogates (RFC 2781, section 2.1). */
  function Utf16(s: string): (units: seq<int>)
    ensures |units| == Units(s)
  {
    if s == "" then []
    else
      var n := s[0] as int;
      (if n < 0x1_0000 then [n] else [0xD800 + (n - 0x1_0000) / 0x400, 0xDC00 + (n - 0x1_0000) % 0x400]) + Utf16(s[1..])
  }

  function ReadUtf16(u: seq<int>): Option<string> {
    if u == [] then Some("")
    else if IsScalar(u[0]) then
      match ReadUtf16(u[1..])
      case None => None
      case Some(rest) => Some([u[0] as char] + rest)
    else if 0xD800 <= u[0] < 0xDC00 && |u| >= 2 && 0xDC00 <= u[1] < 0xE000 then
      match ReadUtf16(u[2..])
      case None => None
      case Some(rest) => Some([(0x1_0000 + (u[0] - 0xD800) * 0x400 + (u[1] - 0xDC00)) as char] + rest)
    else None
  }

  /** UTF-16 reads back, every unit fits in sixteen bits, and a position counts its units. */
  lemma {:induction false} Utf16RoundTrip(s: string)
    ensures ReadUtf16(Utf16(s)) == Some(s) && |Utf16(s)| == Units(s)
    ensures forall i :: 0 <= i < |Utf16(s)| ==> 0 <= Utf16(s)[i] < 0x1_0000
  {
    if s != "" {
      var n, rest := s[0] as int, Utf16(s[1..]);
      Utf16RoundTrip(s[1..]);
      assert [s[0]] + s[1..] == s;
      if n < 0x1_0000 {
        assert ([n] + rest)[1..] == rest;
      } else {
        var pair := [0xD800 + (n - 0x1_0000) / 0x400, 0xDC00 + (n - 0x1_0000) % 0x400];
        assert (pair + rest)[2..] == rest;
        assert (pair + rest)[0] == pair[0] && (pair + rest)[1] == pair[1];
      }
    }
  }
}
