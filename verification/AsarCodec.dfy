/** Writing and rewriting an ASAR archive, and reading back what was written. */
module AsarCodec {
  import opened Common
  import opened Text
  import opened Trie
  import opened Placement
  import opened Totals
  import opened AsarRead

  // ---------------------------------------------------------------- the framed header

  /** JSON, as far as the archive depends on it: a printer and a reader of header trees. */
  datatype Codec = Codec(encode: Node -> seq<Byte>, decode: seq<Byte> -> Option<Node>)

  /** "omitempty" on the files object: an empty directory loses its files object. */
  function Omit(t: Node): Node {
    match t
    case Null => Null
    case Leaf(meta) => Leaf(meta)
    case Dir(meta, files) => if files == map[] then Leaf(meta) else Dir(meta, map name | name in files :: Omit(files[name]))
  }

  /** encoding/json refuses texts that nest deeper; a directory with files takes up two levels. */
  const MAX_NESTING: nat := 10000
  const MAX_PARTS: nat := 4999

  /** The text of the tree nests at most n objects. */
  ghost predicate Nests(t: Node, n: int) {
    match t
    case Null => true
    case Leaf(_) => n >= 1
    case Dir(_, files) => n >= (if files == map[] then 1 else 2) && forall name :: name in files ==> Nests(files[name], n - 2)
  }

  /** The printed header is not empty and reads back, up to the omitted objects, exactly when it is not
      nested too deep; nothing that is read nests deeper. */
  ghost predicate Lawful(codec: Codec) {
    && (forall t: Node :: !t.Null? ==>
          |codec.encode(t)| > 0 && codec.decode(codec.encode(t)) == if Nests(t, MAX_NESTING) then Some(Omit(t)) else None)
    && (forall text :: codec.decode(text).Some? ==> Nests(codec.decode(text).value, MAX_NESTING))
  }

  const TWO32: nat := 0x1_0000_0000

  function U32(n: nat): (b: seq<Byte>)
    ensures |b| == 4
  {
    [n % 0x100, n / 0x100 % 0x100, n / 0x1_0000 % 0x100, n / 0x100_0000 % 0x100]
  }

  function Get32(b: seq<Byte>, i: nat): nat
    requires i + 4 <= |b|
  {
    var w: int, x: int, y: int, z: int := b[i], b[i + 1], b[i + 2], b[i + 3];
    w + 0x100 * x + 0x1_0000 * y + 0x100_0000 * z
  }

  lemma Get32U32(a: seq<Byte>, n: nat, b: seq<Byte>)
    requires n < TWO32
    ensures Get32(a + U32(n) + b, |a|) == n
  {
    var s := a + U32(n) + b;
    assert forall i :: 0 <= i < 4 ==> s[|a| + i] == U32(n)[i];
    assert s[|a|] == U32(n)[0] && s[|a| + 1] == U32(n)[1] && s[|a| + 2] == U32(n)[2] && s[|a| + 3] == U32(n)[3];
    assert n / 0x1_0000 == n / 0x100 / 0x100 && n / 0x100_0000 == n / 0x1_0000 / 0x100;
  }

  function Aligned(n: nat): (r: nat)
    ensures n <= r < n + 4 && r % 4 == 0
  {
    n + (4 - n % 4) % 4
  }

  function Zeros(n: nat): (z: seq<Byte>)
    ensures |z| == n
  {
    if n == 0 then [] else [0] + Zeros(n - 1)
  }

  /** The bytes encodeAsar writes for a header and the payloads. */
  function Framed(json: seq<Byte>, data: seq<Byte>): seq<Byte> {
    var padded := Aligned(|json|);
    U32(4) + U32(8 + padded) + U32(4 + padded) + U32(|json|) + json + Zeros(padded - |json|) + data
  }

  /** The header checks of readAsarEntries: the JSON text and the data after the header. */
  function Unframed(file: seq<Byte>): Option<(seq<Byte>, seq<Byte>)> {
    if |file| < 16 || Get32(file, 0) != 4 then None
    else
      var headerSize, innerSize, jsonSize := Get32(file, 4), Get32(file, 8), Get32(file, 12);
      if headerSize < 8 || headerSize > MAX_HEADER || headerSize != innerSize + 4 || innerSize != Aligned(jsonSize) + 4 then None
      else if 8 + headerSize > |file| || jsonSize <= 0 || jsonSize > headerSize - 8 then None
      else Some((file[16..16 + jsonSize], file[8 + headerSize..]))
  }

  lemma FramedParts(json: seq<Byte>, data: seq<Byte>)
    ensures var f := Framed(json, data);
            |f| == 16 + Aligned(|json|) + |data| && f[16..16 + |json|] == json && f[16 + Aligned(|json|)..] == data
  {
    var padded := Aligned(|json|);
    var prefix := U32(4) + U32(8 + padded) + U32(4 + padded) + U32(|json|);
    assert Framed(json, data) == prefix + json + Zeros(padded - |json|) + data;
  }

  /** The header is read back, aligned and in front of the data, exactly when it is within the limit. */
  lemma UnframeFramed(json: seq<Byte>, data: seq<Byte>)
    requires 0 < |json| <= MAX_HEADER
    ensures Unframed(Framed(json, data)) == if 8 + Aligned(|json|) <= MAX_HEADER then Some((json, data)) else None
  {
    FramedWithWords(json, Zeros(Aligned(|json|) - |json|), data);
    FramedParts(json, data);
  }

  /** A framed file with any bytes in its padding. */
  function FramedWith(json: seq<Byte>, pad: seq<Byte>, data: seq<Byte>): seq<Byte> {
    var padded := Aligned(|json|);
    U32(4) + U32(8 + padded) + U32(4 + padded) + U32(|json|) + json + pad + data
  }

  lemma {:induction false} U32Get32(b: seq<Byte>, i: nat)
    requires i + 4 <= |b|
    ensures U32(Get32(b, i)) == b[i..i + 4]
  {
    var w: int, x: int, y: int, z: int := b[i], b[i + 1], b[i + 2], b[i + 3];
    var n := w + 0x100 * x + 0x1_0000 * y + 0x100_0000 * z;
    assert n / 0x100 == x + 0x100 * y + 0x1_0000 * z;
    assert n / 0x1_0000 == y + 0x100 * z by { assert n / 0x1_0000 == n / 0x100 / 0x100; }
    assert n / 0x100_0000 == z by { assert n / 0x100_0000 == n / 0x1_0000 / 0x100; }
  }

  /** The reader's header checks accept exactly the framed files, whatever their padding holds. */
  lemma UnframedExactly(file: seq<Byte>, json: seq<Byte>, data: seq<Byte>)
    ensures Unframed(file) == Some((json, data)) <==>
            && 0 < |json| && 8 + Aligned(|json|) <= MAX_HEADER
            && exists pad: seq<Byte> :: |pad| == Aligned(|json|) - |json| && file == FramedWith(json, pad, data)
  {
    if Unframed(file) == Some((json, data)) {
      UnframedParts(file, json, data);
    }
    if 0 < |json| && 8 + Aligned(|json|) <= MAX_HEADER {
      forall pad: seq<Byte> | |pad| == Aligned(|json|) - |json| && file == FramedWith(json, pad, data)
        ensures Unframed(file) == Some((json, data))
      {
        FramedWithParts(json, pad, data);
      }
    }
  }

  lemma UnframedParts(file: seq<Byte>, json: seq<Byte>, data: seq<Byte>)
    requires Unframed(file) == Some((json, data))
    ensures 0 < |json| && 8 + Aligned(|json|) <= MAX_HEADER
    ensures exists pad: seq<Byte> :: |pad| == Aligned(|json|) - |json| && file == FramedWith(json, pad, data)
  {
    UnframedSizes(file, json, data);
    PaddedBy(file, Get32(file, 12), json, data, pad => file == FramedWith(json, pad, data));
  }

  lemma PaddedBy(file: seq<Byte>, size: nat, json: seq<Byte>, data: seq<Byte>, framed: seq<Byte> -> bool)
    requires 16 + Aligned(size) <= |file| && Get32(file, 0) == 4 && Get32(file, 4) == 8 + Aligned(size)
    requires Get32(file, 8) == 4 + Aligned(size) && Get32(file, 12) == size
    requires json == file[16..16 + size] && data == file[16 + Aligned(size)..]
    requires forall pad :: file == FramedWith(json, pad, data) ==> framed(pad)
    ensures exists pad: seq<Byte> :: |pad| == Aligned(|json|) - |json| && framed(pad)
  {
    Assembled(file, size);
    var pad := file[16 + size..16 + Aligned(size)];
    assert framed(pad);
  }

  lemma UnframedSizes(file: seq<Byte>, json: seq<Byte>, data: seq<Byte>)
    requires Unframed(file) == Some((json, data))
    ensures |file| >= 16 && Get32(file, 0) == 4
    ensures var size := Get32(file, 12);
            && 0 < size && 8 + Aligned(size) <= MAX_HEADER && 16 + Aligned(size) <= |file|
            && Get32(file, 4) == 8 + Aligned(size) && Get32(file, 8) == 4 + Aligned(size)
            && json == file[16..16 + size] && data == file[16 + Aligned(size)..]
  {
  }

  lemma Assembled(file: seq<Byte>, size: nat)
    requires 16 + Aligned(size) <= |file| && Get32(file, 0) == 4 && Get32(file, 4) == 8 + Aligned(size)
    requires Get32(file, 8) == 4 + Aligned(size) && Get32(file, 12) == size
    ensures file == FramedWith(file[16..16 + size], file[16 + size..16 + Aligned(size)], file[16 + Aligned(size)..])
  {
    WordsOf(file, size);
    InPieces(file, size, Aligned(size));
    FramedIs(file[0..4], file[4..8], file[8..12], file[12..16], file[16..16 + size], file[16 + size..16 + Aligned(size)], file[16 + Aligned(size)..]);
  }

  lemma FramedIs(a: seq<Byte>, b: seq<Byte>, c: seq<Byte>, d: seq<Byte>, json: seq<Byte>, pad: seq<Byte>, data: seq<Byte>)
    requires a == U32(4) && b == U32(8 + Aligned(|json|)) && c == U32(4 + Aligned(|json|)) && d == U32(|json|)
    ensures FramedWith(json, pad, data) == a + b + c + d + json + pad + data
  {
  }

  lemma WordsOf(file: seq<Byte>, size: nat)
    requires 16 <= |file| && Get32(file, 0) == 4 && Get32(file, 4) == 8 + Aligned(size)
    requires Get32(file, 8) == 4 + Aligned(size) && Get32(file, 12) == size
    ensures U32(4) == file[0..4] && U32(8 + Aligned(size)) == file[4..8] && U32(4 + Aligned(size)) == file[8..12] && U32(size) == file[12..16]
  {
    U32Get32(file, 0);
    U32Get32(file, 4);
    U32Get32(file, 8);
    U32Get32(file, 12);
  }

  lemma InPieces<T>(file: seq<T>, size: nat, padded: nat)
    requires size <= padded && 16 + padded <= |file|
    ensures file == file[0..4] + file[4..8] + file[8..12] + file[12..16] + file[16..16 + size] + file[16 + size..16 + padded] + file[16 + padded..]
  {
  }

  lemma FramedWithParts(json: seq<Byte>, pad: seq<Byte>, data: seq<Byte>)
    requires |pad| == Aligned(|json|) - |json| && 0 < |json| && 8 + Aligned(|json|) <= MAX_HEADER
    ensures Unframed(FramedWith(json, pad, data)) == Some((json, data))
  {
    FramedWithWords(json, pad, data);
    var padded := Aligned(|json|);
    Sliced(U32(4) + U32(8 + padded) + U32(4 + padded) + U32(|json|), json, pad, data);
  }

  lemma Sliced<T>(prefix: seq<T>, json: seq<T>, pad: seq<T>, data: seq<T>)
    requires |prefix| == 16
    ensures var f := prefix + json + pad + data;
            |f| == 16 + |json| + |pad| + |data| && f[16..16 + |json|] == json && f[16 + |json| + |pad|..] == data
  {
  }

  lemma FramedWithWords(json: seq<Byte>, pad: seq<Byte>, data: seq<Byte>)
    requires |json| <= MAX_HEADER
    ensures var f := FramedWith(json, pad, data);
            |f| >= 16 && Get32(f, 0) == 4 && Get32(f, 4) == 8 + Aligned(|json|) && Get32(f, 8) == 4 + Aligned(|json|) && Get32(f, 12) == |json|
  {
    var f, padded := FramedWith(json, pad, data), Aligned(|json|);
    var a, b, c, d := U32(4), U32(8 + padded), U32(4 + padded), U32(|json|);
    Regrouped(a, b, c, d, json, pad, data);
    WordIn(f, [], 4, b + c + d + json + pad + data);
    WordIn(f, a, 8 + padded, c + d + json + pad + data);
    WordIn(f, a + b, 4 + padded, d + json + pad + data);
    WordIn(f, a + b + c, |json|, json + pad + data);
  }

  lemma WordIn(f: seq<Byte>, before: seq<Byte>, n: nat, after: seq<Byte>)
    requires f == before + U32(n) + after && n < TWO32
    ensures |f| >= |before| + 4 && Get32(f, |before|) == n
  {
    Get32U32(before, n, after);
  }

  lemma Regrouped<T>(a: seq<T>, b: seq<T>, c: seq<T>, d: seq<T>, x: seq<T>, y: seq<T>, z: seq<T>)
    ensures var f := a + b + c + d + x + y + z;
            && f == [] + a + (b + c + d + x + y + z) && f == a + b + (c + d + x + y + z)
            && f == (a + b) + c + (d + x + y + z) && f == (a + b + c) + d + (x + y + z)
  {
  }

  // ---------------------------------------------------------------- reading

  function Fetcher(data: seq<Byte>, sidecar: string -> Option<seq<Byte>>): Fetch {
    (member, meta) => Fetched(data, sidecar, member, meta)
  }

  function ReadEntries(codec: Codec, file: seq<Byte>, sidecar: string -> Option<seq<Byte>>): Option<Entries> {
    match Unframed(file)
    case None => None
    case Some((json, data)) =>
      match codec.decode(json)
      case None => None
      case Some(header) =>
        if !header.Dir? then None
        else
          match Walk(Fetcher(data, sidecar), header)
          case None => None
          case Some(st) => Some(st.entries)
  }

  // ---------------------------------------------------------------- member names

  /** normalizeArchiveMember keeps the first k parts but "" and "."; ".." is refused. */
  function CleanParts(parts: seq<string>, k: nat): Option<seq<string>>
    requires k <= |parts|
  {
    if k == 0 then Some([])
    else
      match CleanParts(parts, k - 1)
      case None => None
      case Some(clean) =>
        var part := parts[k - 1];
        if part == "" || part == "." then Some(clean)
        else if part == ".." then None
        else Some(clean + [part])
  }

  function NormalMember(raw: string): Option<string> {
    var member := TrimSpace(raw);
    if member == "" || HasPrefix(member, "/") || HasSuffix(member, "/") then None
    else
      var parts := Split(member, '/');
      match CleanParts(parts, |parts|)
      case None => None
      case Some(clean) => if clean == [] then None else Some(Join(clean, '/'))
  }

  predicate ProperPart(part: string) { part != "" && part != "." && part != ".." && '/' !in part }

  ghost predicate ProperPath(member: string) {
    TrimSpace(member) == member && forall i :: 0 <= i < |Split(member, '/')| ==> ProperPart(Split(member, '/')[i])
  }

  lemma {:induction false} CleanProper(parts: seq<string>, k: nat)
    requires k <= |parts| && AllFree(parts, '/')
    ensures CleanParts(parts, k).Some? ==> forall i :: 0 <= i < |CleanParts(parts, k).value| ==> ProperPart(CleanParts(parts, k).value[i])
    ensures (forall i :: 0 <= i < k ==> ProperPart(parts[i])) ==> CleanParts(parts, k) == Some(parts[..k])
  {
    if k > 0 {
      CleanProper(parts, k - 1);
      assert parts[..k] == parts[..k - 1] + [parts[k - 1]];
    }
  }

  lemma {:induction false} JoinSnoc(xs: seq<string>, y: string, sep: char)
    ensures Join(xs + [y], sep) == if xs == [] then y else Join(xs, sep) + [sep] + y
  {
    if xs == [] {
      assert xs + [y] == [y];
    } else {
      assert (xs + [y])[1..] == xs[1..] + [y];
      JoinSnoc(xs[1..], y, sep);
      if |xs| > 1 {
        assert xs[0] + [sep] + (Join(xs[1..], sep) + [sep] + y) == xs[0] + [sep] + Join(xs[1..], sep) + [sep] + y;
      } else {
        assert xs[1..] == [];
      }
    }
  }

  lemma {:induction false} CleanShorter(parts: seq<string>, k: nat)
    requires k <= |parts| && CleanParts(parts, k).Some?
    ensures |Join(CleanParts(parts, k).value, '/')| <= |Join(parts[..k], '/')|
    ensures CleanParts(parts, k).value != [] ==> k > 0
  {
    if k > 0 {
      CleanShorter(parts, k - 1);
      assert parts[..k] == parts[..k - 1] + [parts[k - 1]];
      JoinSnoc(parts[..k - 1], parts[k - 1], '/');
      var clean := CleanParts(parts, k - 1).value;
      JoinSnoc(clean, parts[k - 1], '/');
    }
  }

  lemma {:induction false} TrimLength(s: string)
    ensures |TrimSpace(s)| <= |s| && (|TrimSpace(s)| == |s| ==> TrimSpace(s) == s)
    decreases |s|
  {
    if s != "" {
      if IsSpace(s[0]) {
        TrimLength(s[1..]);
      } else if IsSpace(s[|s| - 1]) {
        TrimLength(s[..|s| - 1]);
      }
    }
  }

  lemma ProperEdges(member: string)
    requires ProperPath(member)
    ensures member != "" && !HasPrefix(member, "/") && !HasSuffix(member, "/")
  {
    var parts := Split(member, '/');
    assert ProperPart(parts[0]) && ProperPart(parts[|parts| - 1]);
    if HasSuffix(member, "/") {
      var init := member[..|member| - 1];
      assert member == init + ['/'] + "";
      SplitAppend(init, "", '/');
    }
  }

  /** encodeAsar's test "normalized == member" admits exactly the proper paths. */
  lemma NormalFixed(member: string)
    ensures NormalMember(member) == Some(member) <==> ProperPath(member)
  {
    var trimmed := TrimSpace(member);
    var parts := Split(trimmed, '/');
    SplitFree(trimmed, '/');
    CleanProper(parts, |parts|);
    JoinSplit(trimmed, '/');
    assert parts[..|parts|] == parts;
    if ProperPath(member) {
      ProperEdges(member);
    }
    if NormalMember(member) == Some(member) {
      CleanShorter(parts, |parts|);
      TrimLength(member);
      SplitJoin(CleanParts(parts, |parts|).value, '/');
    }
  }

  // ---------------------------------------------------------------- writing

  const PLAIN: Meta := Meta(None, "", false, "")

  function FileMeta(size: nat, offset: nat): Meta { Meta(Some(size), Itoa(offset), false, "") }

  const FORM: Form<Meta> := Form(FileMeta, PLAIN, MAX_PAYLOAD)

  ghost predicate Indexes(paths: seq<string>, m: Entries) {
    forall j :: 0 <= j < |paths| ==> paths[j] in m
  }

  function PathsOf(m: Entries): (paths: seq<string>)
    ensures Indexes(paths, m) && Lists(paths, m.Keys)
  {
    assert forall x :: x in Sorted(m.Keys) ==> x in m;
    Sorted(m.Keys)
  }

  function BodiesOf(m: Entries, paths: seq<string>): (bodies: seq<seq<Byte>>)
    requires Indexes(paths, m)
    ensures |bodies| == |paths| && forall i :: 0 <= i < |paths| ==> bodies[i] == m[paths[i]]
  {
    if paths == [] then [] else BodiesOf(m, paths[..|paths| - 1]) + [m[paths[|paths| - 1]]]
  }

  function ItemOf(member: string, size: nat): Item<string> {
    Item(NormalMember(member) == Some(member), Split(member, '/'), size)
  }

  function ItemsOf(paths: seq<string>, bodies: seq<seq<Byte>>): (items: seq<Item<string>>)
    requires |bodies| == |paths|
    ensures |items| == |paths| && forall i :: 0 <= i < |paths| ==> items[i] == ItemOf(paths[i], |bodies[i]|)
    ensures Pathed(items)
  {
    if paths == [] then []
    else ItemsOf(paths[..|paths| - 1], bodies[..|paths| - 1]) + [ItemOf(paths[|paths| - 1], |bodies[|paths| - 1]|)]
  }

  /** The first k payloads, one after another. */
  function Concat<B>(bodies: seq<seq<B>>, k: nat): seq<B>
    requires k <= |bodies|
  {
    if k == 0 then [] else Concat(bodies, k - 1) + bodies[k - 1]
  }

  /** The header tree, unless a member cannot be placed. */
  function HeaderOf(m: Entries): Option<Node> {
    var paths := PathsOf(m);
    match Place(ItemsOf(paths, BodiesOf(m, paths)), FORM, |paths|)
    case None => None
    case Some(lay) => Some(lay.tree)
  }

  function DataOf(m: Entries): seq<Byte> {
    Concat(BodiesOf(m, PathsOf(m)), |PathsOf(m)|)
  }

  function Encode(codec: Codec, m: Entries): Option<seq<Byte>> {
    match HeaderOf(m)
    case None => None
    case Some(tree) =>
      var json := codec.encode(tree);
      if |json| > MAX_HEADER then None else Some(Framed(json, DataOf(m)))
  }

  /** rewriteAsar: the old members with one replaced or added. */
  function Rewrite(codec: Codec, source: Option<seq<Byte>>, sidecar: string -> Option<seq<Byte>>, target: string, payload: seq<Byte>): Option<seq<Byte>> {
    match source
    case None => Encode(codec, map[target := payload])
    case Some(file) =>
      match ReadEntries(codec, file, sidecar)
      case None => None
      case Some(was) => Encode(codec, was[target := payload])
  }

  // ---------------------------------------------------------------- when members can be written

  /** Every name is proper, no member lies inside another, and the payloads fit. */
  ghost predicate Writable(m: Entries) {
    && (forall p :: p in m ==> ProperPath(p))
    && (forall p, q :: p in m && q in m && p != q ==> !Nested(p, q))
    && Total(m) <= MAX_PAYLOAD
  }

  lemma {:induction false} ConcatAt<B>(bodies: seq<seq<B>>, k: nat, i: nat)
    requires i < k && k <= |bodies|
    ensures |Concat(bodies, i)| + |bodies[i]| <= |Concat(bodies, k)|
    ensures Concat(bodies, k)[|Concat(bodies, i)|..|Concat(bodies, i)| + |bodies[i]|] == bodies[i]
  {
    if i < k - 1 { ConcatAt(bodies, k - 1, i); }
  }

  lemma {:induction false} SizesOffset<K, B>(items: seq<Item<K>>, bodies: seq<seq<B>>, k: nat)
    requires |items| == |bodies| && k <= |items| && forall i :: 0 <= i < |items| ==> items[i].size == |bodies[i]|
    ensures Offset(items, k) == |Concat(bodies, k)|
  {
    if k > 0 { SizesOffset(items, bodies, k - 1); }
  }

  lemma ConcatOffset(paths: seq<string>, bodies: seq<seq<Byte>>, k: nat)
    requires |bodies| == |paths| && k <= |paths|
    ensures Offset(ItemsOf(paths, bodies), k) == |Concat(bodies, k)|
  {
    SizesOffset(ItemsOf(paths, bodies), bodies, k);
  }

  /** The part of a map whose keys are listed. */
  ghost function Part<K(!new), V>(m: map<K, V>, keys: seq<K>): map<K, V> { map p | p in m && p in keys :: m[p] }

  /** Bodies listed without repeats add up to the total of the map they come from. */
  lemma {:induction false} ConcatTotal<K(!new), B>(m: map<K, seq<B>>, paths: seq<K>, bodies: seq<seq<B>>, k: nat)
    requires |bodies| == |paths| && k <= |paths| && NoRepeats(paths)
    requires forall i :: 0 <= i < |paths| ==> paths[i] in m && bodies[i] == m[paths[i]]
    ensures |Concat(bodies, k)| == Total(Part(m, paths[..k]))
  {
    if k > 0 {
      ConcatTotal(m, paths, bodies, k - 1);
      PartGrows(m, paths, k);
      TotalWith(Part(m, paths[..k - 1]), paths[k - 1], bodies[k - 1]);
    } else {
      NoPart(m, paths[..0]);
    }
  }

  lemma NoPart<K(!new), V>(m: map<K, V>, keys: seq<K>)
    requires keys == []
    ensures Part(m, keys) == map[]
  {
  }

  lemma PartGrows<K(!new), V>(m: map<K, V>, paths: seq<K>, k: nat)
    requires 0 < k <= |paths| && NoRepeats(paths) && paths[k - 1] in m
    ensures paths[k - 1] !in Part(m, paths[..k - 1])
    ensures Part(m, paths[..k]) == Part(m, paths[..k - 1])[paths[k - 1] := m[paths[k - 1]]]
  {
    assert paths[..k] == paths[..k - 1] + [paths[k - 1]];
  }

  lemma ListedTotal<K(!new), B>(m: map<K, seq<B>>, paths: seq<K>, bodies: seq<seq<B>>)
    requires |bodies| == |paths| && Lists(paths, m.Keys)
    requires forall i :: 0 <= i < |paths| ==> paths[i] in m && bodies[i] == m[paths[i]]
    ensures |Concat(bodies, |paths|)| == Total(m)
  {
    ConcatTotal(m, paths, bodies, |paths|);
    assert paths[..|paths|] == paths;
    assert Part(m, paths) == m;
  }

  ghost predicate Nested(p: string, q: string) { IsPrefix(Split(p, '/'), Split(q, '/')) }

  lemma PlaceableItems(paths: seq<string>, bodies: seq<seq<Byte>>)
    requires |bodies| == |paths|
    ensures Placeable(ItemsOf(paths, bodies), |paths|, MAX_PAYLOAD) <==>
            && (forall i :: 0 <= i < |paths| ==> ProperPath(paths[i]))
            && (forall i, j :: 0 <= i < j < |paths| ==> !Nested(paths[i], paths[j]) && !Nested(paths[j], paths[i]))
            && |Concat(bodies, |paths|)| <= MAX_PAYLOAD
  {
    var items := ItemsOf(paths, bodies);
    ConcatOffset(paths, bodies, |paths|);
    forall i | 0 <= i < |paths| ensures items[i].proper <==> ProperPath(paths[i]) {
      NormalFixed(paths[i]);
    }
    forall i, j | 0 <= i < j < |paths|
      ensures Clash(items[i].path, items[j].path) <==> Nested(paths[i], paths[j]) || Nested(paths[j], paths[i])
    {
    }
  }

  lemma WritableListed(m: Entries, paths: seq<string>)
    requires Lists(paths, m.Keys)
    ensures Writable(m) <==>
            && (forall i :: 0 <= i < |paths| ==> ProperPath(paths[i]))
            && (forall i, j :: 0 <= i < j < |paths| ==> !Nested(paths[i], paths[j]) && !Nested(paths[j], paths[i]))
            && Total(m) <= MAX_PAYLOAD
  {
    ListedAll(paths, m.Keys, p => ProperPath(p));
    ListedPairs(paths, m.Keys, (p, q) => Nested(p, q));
  }

  /** The encoder's loop succeeds on exactly the writable maps. */
  lemma HeaderExactly(m: Entries)
    ensures HeaderOf(m).Some? <==> Writable(m)
  {
    var paths := PathsOf(m);
    var bodies := BodiesOf(m, paths);
    WritableListed(m, paths);
    ListedTotal(m, paths, bodies);
    PlaceableItems(paths, bodies);
    PlacedExactly(ItemsOf(paths, bodies), FORM, |paths|);
  }

  // ---------------------------------------------------------------- reading back

  lemma FetchedSlice(data: seq<Byte>, sidecar: string -> Option<seq<Byte>>, member: string, offset: nat, body: seq<Byte>)
    requires offset <= MAX_INT && offset + |body| <= |data| && data[offset..offset + |body|] == body
    ensures Fetched(data, sidecar, member, FileMeta(|body|, offset)) == Some(body)
  {
    AtoiItoa(offset);
  }

  lemma PlacedFetch(paths: seq<string>, bodies: seq<seq<Byte>>, i: nat, sidecar: string -> Option<seq<Byte>>)
    requires |bodies| == |paths| && i < |paths| && |Concat(bodies, |paths|)| <= MAX_PAYLOAD
    ensures Fetched(Concat(bodies, |paths|), sidecar, paths[i], FileMeta(|bodies[i]|, |Concat(bodies, i)|)) == Some(bodies[i])
  {
    ConcatAt(bodies, |paths|, i);
    FetchedSlice(Concat(bodies, |paths|), sidecar, paths[i], |Concat(bodies, i)|, bodies[i]);
  }

  /** Item i of a placed list: its node is in the tree and gives its offset in the data. */
  lemma PlacedItem(paths: seq<string>, bodies: seq<seq<Byte>>, i: nat)
    requires |bodies| == |paths| && i < |paths| && Place(ItemsOf(paths, bodies), FORM, |paths|).Some?
    ensures LeafAt(Place(ItemsOf(paths, bodies), FORM, |paths|).value.tree, Split(paths[i], '/')) == Some(FileMeta(|bodies[i]|, |Concat(bodies, i)|))
  {
    PlacedLeaf(ItemsOf(paths, bodies), FORM, |paths|, i);
    ConcatOffset(paths, bodies, i);
  }

  lemma PlacedFits(paths: seq<string>, bodies: seq<seq<Byte>>)
    requires |bodies| == |paths| && Place(ItemsOf(paths, bodies), FORM, |paths|).Some?
    ensures |Concat(bodies, |paths|)| <= MAX_PAYLOAD
  {
    PlacedExactly(ItemsOf(paths, bodies), FORM, |paths|);
    ConcatOffset(paths, bodies, |paths|);
  }

  lemma HeldRoot(fetch: Fetch, t: Node, s: string)
    ensures Held(fetch, t, [], s, Split(s, '/')) == match LeafAt(t, Split(s, '/')) case None => None case Some(meta) => fetch(s, meta)
  {
    assert Split(s, '/')[0..] == Split(s, '/');
  }

  lemma ListedHeld(paths: seq<string>, bodies: seq<seq<Byte>>, i: nat, sidecar: string -> Option<seq<Byte>>)
    requires |bodies| == |paths| && i < |paths| && Place(ItemsOf(paths, bodies), FORM, |paths|).Some?
    ensures Held(Fetcher(Concat(bodies, |paths|), sidecar), Place(ItemsOf(paths, bodies), FORM, |paths|).value.tree, [], paths[i], Split(paths[i], '/'))
         == Some(bodies[i])
  {
    var tree := Place(ItemsOf(paths, bodies), FORM, |paths|).value.tree;
    PlacedItem(paths, bodies, i);
    PlacedFits(paths, bodies);
    PlacedFetch(paths, bodies, i, sidecar);
    HeldRoot(Fetcher(Concat(bodies, |paths|), sidecar), tree, paths[i]);
  }

  lemma ListedOnly(paths: seq<string>, bodies: seq<seq<Byte>>, s: string)
    requires |bodies| == |paths| && Place(ItemsOf(paths, bodies), FORM, |paths|).Some? && s !in paths
    ensures LeafAt(Place(ItemsOf(paths, bodies), FORM, |paths|).value.tree, Split(s, '/')).None?
  {
    var items := ItemsOf(paths, bodies);
    if LeafAt(Place(items, FORM, |paths|).value.tree, Split(s, '/')).Some? {
      var i := PlacedLeafOnly(items, FORM, |paths|, Split(s, '/'));
      SplitInjective(paths[i], s, '/');
      assert false;
    }
  }

  /** The written tree holds the members of the map, and nothing else. */
  lemma WrittenHeld(m: Entries, sidecar: string -> Option<seq<Byte>>, s: string)
    requires HeaderOf(m).Some?
    ensures Held(Fetcher(DataOf(m), sidecar), HeaderOf(m).value, [], s, Split(s, '/')) == Look(m, s)
    ensures s !in m ==> LeafAt(HeaderOf(m).value, Split(s, '/')).None?
  {
    var paths := PathsOf(m);
    var bodies := BodiesOf(m, paths);
    if s in m {
      assert s in paths;
      var i :| 0 <= i < |paths| && paths[i] == s;
      ListedHeld(paths, bodies, i, sidecar);
    } else {
      ListedOnly(paths, bodies, s);
      HeldRoot(Fetcher(DataOf(m), sidecar), HeaderOf(m).value, s);
    }
  }

  /** No name of the map holds a character the reader refuses. */
  ghost predicate CleanNames(m: Entries) { forall p :: p in m ==> '\\' !in p && '\0' !in p }

  /** The content of every file under the path can be fetched. */
  ghost predicate AllHeld(fetch: Fetch, t: Node, at: seq<string>) {
    forall s: string :: IsPrefix(at, Split(s, '/')) && LeafAt(t, Split(s, '/')[|at|..]).Some? ==> Held(fetch, t, at, s, Split(s, '/')).Some?
  }

  lemma AllHeldChild(fetch: Fetch, t: Node, at: seq<string>, name: string)
    requires t.Dir? && name in t.files && AllHeld(fetch, t, at)
    ensures AllHeld(fetch, t.files[name], at + [name])
  {
    forall s: string | IsPrefix(at + [name], Split(s, '/')) && LeafAt(t.files[name], Split(s, '/')[|at| + 1..]).Some?
      ensures Held(fetch, t.files[name], at + [name], s, Split(s, '/')).Some?
    {
      var path := Split(s, '/');
      HeldChild(fetch, t, at, name, s, path);
      assert path[|at|..][1..] == path[|at| + 1..];
      assert path[|at|..][0] == name;
    }
  }

  lemma {:induction false} FullWellFormed(fetch: Fetch, t: Node, at: seq<string>, parent: string)
    requires Located(at, parent) && Full(t, PLAIN, GoodName) && (at == [] ==> t.Dir?) && AllHeld(fetch, t, at)
    ensures WellFormed(fetch, t, parent)
    decreases t
  {
    if t.Leaf? {
      assert IsPrefix(at, Split(parent, '/')) && Split(parent, '/')[|at|..] == [];
      assert Held(fetch, t, at, parent, Split(parent, '/')).Some?;
    } else {
      forall name | name in t.files ensures WellFormed(fetch, t.files[name], Member(parent, name)) {
        LocatedMember(at, parent, name);
        AllHeldChild(fetch, t, at, name);
        FullWellFormed(fetch, t.files[name], at + [name], Member(parent, name));
      }
    }
  }

  lemma {:induction false} WellFormedNames(fetch: Fetch, t: Node, at: string, q: seq<string>)
    requires WellFormed(fetch, t, at) && LeafAt(t, q).Some?
    ensures forall i :: 0 <= i < |q| ==> GoodName(q[i])
    decreases |q|
  {
    if q != [] {
      WellFormedNames(fetch, t.files[q[0]], Member(at, q[0]), q[1..]);
      assert q == [q[0]] + q[1..];
    }
  }

  lemma GoodPathClean(s: string)
    requires forall i :: 0 <= i < |Split(s, '/')| ==> GoodName(Split(s, '/')[i])
    ensures '\\' !in s && '\0' !in s
  {
    JoinSplit(s, '/');
    JoinFree(Split(s, '/'), '/', '\\');
    JoinFree(Split(s, '/'), '/', '\0');
  }

  lemma CleanGood(s: string, part: string)
    requires ProperPath(s) && '\\' !in s && '\0' !in s && part in Split(s, '/')
    ensures GoodName(part)
  {
    SplitFree(s, '/');
    assert AllFree(Split(s, '/'), '\\') && AllFree(Split(s, '/'), '\0');
  }

  /** The written tree is full, with names the reader accepts when the map's names are clean. */
  lemma HeaderFull(m: Entries, ok: string -> bool)
    requires HeaderOf(m).Some?
    requires forall p, part :: p in m && part in Split(p, '/') ==> ok(part)
    ensures var t := HeaderOf(m).value; t.Dir? && Full(t, PLAIN, ok) && (m != map[] <==> t.files != map[])
  {
    var paths := PathsOf(m);
    PlacedFull(ItemsOf(paths, BodiesOf(m, paths)), FORM, |paths|, ok);
    ListedEmpty(paths, m.Keys);
  }

  lemma ListedEmpty<T(!new)>(xs: seq<T>, keys: set<T>)
    requires Lists(xs, keys)
    ensures |xs| > 0 <==> keys != {}
  {
    if |xs| > 0 { assert xs[0] in xs; }
  }

  lemma {:induction false} OmitFull(t: Node, ok: string -> bool)
    requires Full(t, PLAIN, ok) && (t.Dir? ==> t.files != map[])
    ensures Omit(t) == t
    decreases t
  {
    if t.Dir? {
      forall name | name in t.files ensures Omit(t.files[name]) == t.files[name] {
        OmitFull(t.files[name], ok);
      }
      assert (map name | name in t.files :: Omit(t.files[name])) == t.files;
    }
  }

  // ---------------------------------------------------------------- how deep the header nests

  /** No member lies deeper than JSON can be nested. */
  ghost predicate ShallowNames(m: Entries) { forall p :: p in m ==> |Split(p, '/')| <= MAX_PARTS }

  lemma {:induction false} LeafNests(t: Node, q: seq<string>, n: int)
    requires Nests(t, n) && LeafAt(t, q).Some?
    ensures 2 * |q| + 1 <= n
    decreases |q|
  {
    if q != [] { LeafNests(t.files[q[0]], q[1..], n - 2); }
  }

  lemma {:induction false} LeafPath(t: Node, ok: string -> bool) returns (q: seq<string>)
    requires Full(t, PLAIN, ok) && (t.Dir? ==> t.files != map[])
    ensures LeafAt(t, q).Some?
    decreases t
  {
    q := [];
    if t.Dir? {
      var name :| name in t.files;
      var rest := LeafPath(t.files[name], ok);
      q := [name] + rest;
      assert q[1..] == rest;
    }
  }

  lemma {:induction false} LeafNames(t: Node, ok: string -> bool, q: seq<string>)
    requires Full(t, PLAIN, ok) && LeafAt(t, q).Some?
    ensures forall i :: 0 <= i < |q| ==> ok(q[i])
    decreases |q|
  {
    if q != [] {
      LeafNames(t.files[q[0]], ok, q[1..]);
      assert q == [q[0]] + q[1..];
    }
  }

  /** A full tree nests as deep as its deepest file. */
  lemma {:induction false} FullNests(t: Node, ok: string -> bool, n: int)
    requires Full(t, PLAIN, ok) && (t.Dir? ==> t.files != map[])
    requires forall q :: LeafAt(t, q).Some? ==> 2 * |q| + 1 <= n
    ensures Nests(t, n)
    decreases t
  {
    var some := LeafPath(t, ok);
    if t.Dir? {
      forall name | name in t.files ensures Nests(t.files[name], n - 2) {
        forall q | LeafAt(t.files[name], q).Some? ensures 2 * |q| + 1 <= n - 2 {
          var longer := [name] + q;
          assert longer[1..] == q;
          assert LeafAt(t, longer).Some?;
        }
        FullNests(t.files[name], ok, n - 2);
      }
    }
  }

  /** The files of the written tree are the members of the map. */
  lemma LeafIsMember(m: Entries, q: seq<string>)
    requires HeaderOf(m).Some? && HeaderOf(m).value.Dir? && Full(HeaderOf(m).value, PLAIN, name => '/' !in name)
    requires LeafAt(HeaderOf(m).value, q).Some?
    ensures q != [] && Split(Join(q, '/'), '/') == q && Join(q, '/') in m
  {
    LeafNames(HeaderOf(m).value, name => '/' !in name, q);
    SplitJoin(q, '/');
    WrittenHeld(m, none => None, Join(q, '/'));
  }

  /** The header of a map can be read as JSON exactly when no member lies too deep. */
  lemma HeaderNests(m: Entries)
    requires HeaderOf(m).Some? && m != map[]
    ensures Nests(HeaderOf(m).value, MAX_NESTING) <==> ShallowNames(m)
  {
    var t, ok := HeaderOf(m).value, name => '/' !in name;
    forall p, part | p in m && part in Split(p, '/') ensures ok(part) { SplitFree(p, '/'); }
    HeaderFull(m, ok);
    if Nests(t, MAX_NESTING) {
      forall p | p in m ensures |Split(p, '/')| <= MAX_PARTS {
        MemberIsLeaf(m, p);
        LeafNests(t, Split(p, '/'), MAX_NESTING);
      }
    }
    if ShallowNames(m) {
      forall q | LeafAt(t, q).Some? ensures 2 * |q| + 1 <= MAX_NESTING { LeafIsMember(m, q); }
      FullNests(t, ok, MAX_NESTING);
    }
  }

  lemma MemberIsLeaf(m: Entries, p: string)
    requires HeaderOf(m).Some? && p in m
    ensures LeafAt(HeaderOf(m).value, Split(p, '/')).Some?
  {
    WrittenHeld(m, none => None, p);
    HeldRoot(Fetcher(DataOf(m), none => None), HeaderOf(m).value, p);
  }

  /** What the reader asks of a map beyond what the writer does. */
  ghost predicate Readable(codec: Codec, m: Entries)
    requires HeaderOf(m).Some?
  {
    && m != map[] && |m| <= MAX_ENTRIES && CleanNames(m) && ShallowNames(m)
    && 8 + Aligned(|codec.encode(HeaderOf(m).value)|) <= MAX_HEADER
  }

  lemma WrittenDenotes(m: Entries, sidecar: string -> Option<seq<Byte>>)
    requires HeaderOf(m).Some? && HeaderOf(m).value.Dir?
    ensures (exists n :: Denotes(Fetcher(DataOf(m), sidecar), HeaderOf(m).value, n)) <==> |m| <= MAX_ENTRIES && CleanNames(m)
    ensures forall n :: Denotes(Fetcher(DataOf(m), sidecar), HeaderOf(m).value, n) ==> n == m
  {
    var fetch, t := Fetcher(DataOf(m), sidecar), HeaderOf(m).value;
    forall n | Denotes(fetch, t, n) ensures n == m && |m| <= MAX_ENTRIES && CleanNames(m) {
      DenotedIs(m, sidecar, n);
    }
    if |m| <= MAX_ENTRIES && CleanNames(m) {
      CleanDenotes(m, sidecar);
    }
  }

  lemma DenotedIs(m: Entries, sidecar: string -> Option<seq<Byte>>, n: Entries)
    requires HeaderOf(m).Some? && Denotes(Fetcher(DataOf(m), sidecar), HeaderOf(m).value, n)
    ensures n == m && |m| <= MAX_ENTRIES && CleanNames(m)
  {
    var fetch, t := Fetcher(DataOf(m), sidecar), HeaderOf(m).value;
    forall s: string ensures Look(n, s) == Look(m, s) {
      WrittenHeld(m, sidecar, s);
      assert Look(n, s) == Held(fetch, t, [], s, Split(s, '/'));
    }
    LookEqual(n, m);
    forall p | p in m ensures '\\' !in p && '\0' !in p {
      WrittenHeld(m, sidecar, p);
      HeldRoot(fetch, t, p);
      WellFormedNames(fetch, t, "", Split(p, '/'));
      GoodPathClean(p);
    }
  }

  lemma LookEqual<K(!new), V(!new)>(m: map<K, V>, n: map<K, V>)
    requires forall k :: Look(m, k) == Look(n, k)
    ensures m == n
  {
    forall k ensures (k in m <==> k in n) && (k in m ==> m[k] == n[k]) {
      assert Look(m, k) == Look(n, k);
    }
  }

  lemma CleanDenotes(m: Entries, sidecar: string -> Option<seq<Byte>>)
    requires HeaderOf(m).Some? && HeaderOf(m).value.Dir? && |m| <= MAX_ENTRIES && CleanNames(m)
    ensures Denotes(Fetcher(DataOf(m), sidecar), HeaderOf(m).value, m)
  {
    var fetch, t := Fetcher(DataOf(m), sidecar), HeaderOf(m).value;
    HeaderExactly(m);
    forall p, part | p in m && part in Split(p, '/') ensures GoodName(part) {
      CleanGood(p, part);
    }
    HeaderFull(m, GoodName);
    forall s: string ensures Look(m, s) == Held(fetch, t, [], s, Split(s, '/')) {
      WrittenHeld(m, sidecar, s);
    }
    forall s: string | IsPrefix([], Split(s, '/')) && LeafAt(t, Split(s, '/')[0..]).Some?
      ensures Held(fetch, t, [], s, Split(s, '/')).Some?
    {
      WrittenHeld(m, sidecar, s);
      assert Split(s, '/')[0..] == Split(s, '/');
    }
    FullWellFormed(fetch, t, [], "");
  }

  lemma WalkWritten(m: Entries, sidecar: string -> Option<seq<Byte>>)
    requires HeaderOf(m).Some? && HeaderOf(m).value.Dir?
    ensures var walked := Walk(Fetcher(DataOf(m), sidecar), HeaderOf(m).value);
            if |m| <= MAX_ENTRIES && CleanNames(m) then walked.Some? && walked.value.entries == m else walked.None?
  {
    var fetch, t := Fetcher(DataOf(m), sidecar), HeaderOf(m).value;
    WrittenDenotes(m, sidecar);
    WalkDenotes(fetch, t, m);
    if Walk(fetch, t).Some? {
      WalkDenotes(fetch, t, Walk(fetch, t).value.entries);
    }
  }

  /** Reading what was written gives back the map exactly when it is readable, and is refused otherwise. */
  lemma EncodeRoundTrip(codec: Codec, m: Entries, sidecar: string -> Option<seq<Byte>>)
    requires Lawful(codec) && Encode(codec, m).Some?
    ensures ReadEntries(codec, Encode(codec, m).value, sidecar) == if Readable(codec, m) then Some(m) else None
  {
    var t := HeaderOf(m).value;
    var json := codec.encode(t);
    UnframeFramed(json, DataOf(m));
    HeaderFull(m, k => true);
    assert codec.decode(json) == if Nests(t, MAX_NESTING) then Some(Omit(t)) else None;
    if m != map[] {
      HeaderNests(m);
      OmitFull(t, k => true);
      WalkWritten(m, sidecar);
    }
  }

  /** The encoder accepts exactly the writable maps whose header text is within the limit. */
  lemma EncodeExactly(codec: Codec, m: Entries)
    ensures Encode(codec, m).Some? <==> Writable(m) && HeaderOf(m).Some? && |codec.encode(HeaderOf(m).value)| <= MAX_HEADER
  {
    HeaderExactly(m);
  }

  /** Whatever is read has names free of the characters the reader refuses. */
  lemma ReadClean(codec: Codec, file: seq<Byte>, sidecar: string -> Option<seq<Byte>>)
    requires ReadEntries(codec, file, sidecar).Some?
    ensures CleanNames(ReadEntries(codec, file, sidecar).value)
  {
    var (json, data) := Unframed(file).value;
    var t := codec.decode(json).value;
    var m := ReadEntries(codec, file, sidecar).value;
    WalkDenotes(Fetcher(data, sidecar), t, m);
    forall p | p in m ensures '\\' !in p && '\0' !in p {
      assert Look(m, p) == Held(Fetcher(data, sidecar), t, [], p, Split(p, '/'));
      HeldRoot(Fetcher(data, sidecar), t, p);
      WellFormedNames(Fetcher(data, sidecar), t, "", Split(p, '/'));
      GoodPathClean(p);
    }
  }

  /** Whatever is read lies no deeper than JSON can be nested. */
  lemma ReadShallow(codec: Codec, file: seq<Byte>, sidecar: string -> Option<seq<Byte>>)
    requires Lawful(codec) && ReadEntries(codec, file, sidecar).Some?
    ensures ShallowNames(ReadEntries(codec, file, sidecar).value)
  {
    var (json, data) := Unframed(file).value;
    var t := codec.decode(json).value;
    var m := ReadEntries(codec, file, sidecar).value;
    WalkDenotes(Fetcher(data, sidecar), t, m);
    forall p | p in m ensures |Split(p, '/')| <= MAX_PARTS {
      assert Look(m, p) == Held(Fetcher(data, sidecar), t, [], p, Split(p, '/'));
      HeldRoot(Fetcher(data, sidecar), t, p);
      LeafNests(t, Split(p, '/'), MAX_NESTING);
    }
  }

  /** The members a rewrite is meant to leave. */
  ghost function Rewritten(codec: Codec, source: Option<seq<Byte>>, sidecar: string -> Option<seq<Byte>>, target: string, payload: seq<Byte>): Option<Entries> {
    match source
    case None => Some(map[target := payload])
    case Some(file) =>
      match ReadEntries(codec, file, sidecar)
      case None => None
      case Some(was) => Some(was[target := payload])
  }

  /** A rewritten archive reads back as the old members with only the target changed, exactly
      when the target's name is clean and not too deep, the entries are not too many and the header is not
      too long. */
  lemma RewriteRoundTrip(codec: Codec, source: Option<seq<Byte>>, sidecar: string -> Option<seq<Byte>>, target: string, payload: seq<Byte>, later: string -> Option<seq<Byte>>)
    requires Lawful(codec) && Rewrite(codec, source, sidecar, target, payload).Some?
    ensures Rewritten(codec, source, sidecar, target, payload).Some?
    ensures var m := Rewritten(codec, source, sidecar, target, payload).value;
            && HeaderOf(m).Some?
            && ReadEntries(codec, Rewrite(codec, source, sidecar, target, payload).value, later) ==
               if && '\\' !in target && '\0' !in target && |Split(target, '/')| <= MAX_PARTS && |m| <= MAX_ENTRIES
                  && 8 + Aligned(|codec.encode(HeaderOf(m).value)|) <= MAX_HEADER
               then Some(m) else None
  {
    RewriteEncodes(codec, source, sidecar, target, payload);
    RewrittenClean(codec, source, sidecar, target, payload);
    TargetDecides(codec, Rewritten(codec, source, sidecar, target, payload).value, target, later);
  }

  lemma RewriteEncodes(codec: Codec, source: Option<seq<Byte>>, sidecar: string -> Option<seq<Byte>>, target: string, payload: seq<Byte>)
    requires Rewrite(codec, source, sidecar, target, payload).Some?
    ensures Rewritten(codec, source, sidecar, target, payload).Some?
    ensures Rewrite(codec, source, sidecar, target, payload) == Encode(codec, Rewritten(codec, source, sidecar, target, payload).value)
  {
  }

  /** When all other names are in order the target decides whether the archive can be read back. */
  lemma TargetDecides(codec: Codec, m: Entries, target: string, later: string -> Option<seq<Byte>>)
    requires Lawful(codec) && Encode(codec, m).Some? && m != map[]
    requires CleanNames(m) <==> '\\' !in target && '\0' !in target
    requires ShallowNames(m) <==> |Split(target, '/')| <= MAX_PARTS
    ensures HeaderOf(m).Some?
    ensures ReadEntries(codec, Encode(codec, m).value, later) ==
            if && '\\' !in target && '\0' !in target && |Split(target, '/')| <= MAX_PARTS && |m| <= MAX_ENTRIES
               && 8 + Aligned(|codec.encode(HeaderOf(m).value)|) <= MAX_HEADER
            then Some(m) else None
  {
    EncodeRoundTrip(codec, m, later);
  }

  lemma OneMember(target: string, payload: seq<Byte>)
    requires ProperPath(target) && |payload| <= MAX_PAYLOAD
    ensures Writable(map[target := payload])
  {
    var m := map[target := payload];
    TotalWithout(m, target);
    assert m - {target} == map[];
  }

  lemma BackslashProper()
    ensures ProperPath("a\\b")
  {
    var s := "a\\b";
    assert s[0] == 'a' && s[2] == 'b' && !IsSpace('a') && !IsSpace('b');
    assert '/' !in s;
    SplitWhole(s, '/');
  }

  /** The encoder writes a member whose name holds a backslash, and the reader refuses the archive. */
  lemma BackslashRefused(codec: Codec, sidecar: string -> Option<seq<Byte>>, later: string -> Option<seq<Byte>>, payload: seq<Byte>)
    requires Lawful(codec) && |payload| <= MAX_PAYLOAD
    ensures HeaderOf(map["a\\b" := payload]).Some?
    ensures |codec.encode(HeaderOf(map["a\\b" := payload]).value)| <= MAX_HEADER ==>
              && Rewrite(codec, None, sidecar, "a\\b", payload).Some?
              && ReadEntries(codec, Rewrite(codec, None, sidecar, "a\\b", payload).value, later) == None
  {
    BackslashProper();
    assert "a\\b"[1] == '\\';
    TargetRefused(codec, sidecar, later, "a\\b", payload);
  }

  function DeepParts(n: nat): (parts: seq<string>)
    ensures |parts| == n && forall i :: 0 <= i < n ==> parts[i] == "a"
  {
    if n == 0 then [] else ["a"] + DeepParts(n - 1)
  }

  lemma {:induction false} JoinEnds(parts: seq<string>)
    requires parts != [] && forall i :: 0 <= i < |parts| ==> parts[i] == "a"
    ensures var s := Join(parts, '/'); s != "" && s[0] == 'a' && s[|s| - 1] == 'a'
  {
    if |parts| > 1 { JoinEnds(parts[1..]); }
  }

  lemma DeepProper(n: nat)
    requires n > 0
    ensures var p := Join(DeepParts(n), '/'); ProperPath(p) && |Split(p, '/')| == n
  {
    var parts := DeepParts(n);
    JoinEnds(parts);
    SplitJoin(parts, '/');
  }

  /** The encoder writes a member of 5000 parts, and the reader refuses the archive. */
  lemma DeepRefused(codec: Codec, sidecar: string -> Option<seq<Byte>>, later: string -> Option<seq<Byte>>, payload: seq<Byte>)
    requires Lawful(codec) && |payload| <= MAX_PAYLOAD
    ensures var target := Join(DeepParts(5000), '/');
            && HeaderOf(map[target := payload]).Some?
            && (|codec.encode(HeaderOf(map[target := payload]).value)| <= MAX_HEADER ==>
                  && Rewrite(codec, None, sidecar, target, payload).Some?
                  && ReadEntries(codec, Rewrite(codec, None, sidecar, target, payload).value, later) == None)
  {
    DeepProper(5000);
    TargetRefused(codec, sidecar, later, Join(DeepParts(5000), '/'), payload);
  }

  /** A proper target the reader does not take is written all the same. */
  lemma TargetRefused(codec: Codec, sidecar: string -> Option<seq<Byte>>, later: string -> Option<seq<Byte>>, target: string, payload: seq<Byte>)
    requires Lawful(codec) && |payload| <= MAX_PAYLOAD && ProperPath(target)
    requires '\\' in target || '\0' in target || |Split(target, '/')| > MAX_PARTS
    ensures HeaderOf(map[target := payload]).Some?
    ensures |codec.encode(HeaderOf(map[target := payload]).value)| <= MAX_HEADER ==>
              && Rewrite(codec, None, sidecar, target, payload).Some?
              && ReadEntries(codec, Rewrite(codec, None, sidecar, target, payload).value, later) == None
  {
    OneMember(target, payload);
    EncodeExactly(codec, map[target := payload]);
    HeaderExactly(map[target := payload]);
    if Rewrite(codec, None, sidecar, target, payload).Some? { RewriteRoundTrip(codec, None, sidecar, target, payload, later); }
  }

  lemma RewrittenClean(codec: Codec, source: Option<seq<Byte>>, sidecar: string -> Option<seq<Byte>>, target: string, payload: seq<Byte>)
    requires Lawful(codec) && Rewritten(codec, source, sidecar, target, payload).Some?
    ensures var m := Rewritten(codec, source, sidecar, target, payload).value;
            && m != map[] && (CleanNames(m) <==> '\\' !in target && '\0' !in target)
            && (ShallowNames(m) <==> |Split(target, '/')| <= MAX_PARTS)
  {
    assert target in Rewritten(codec, source, sidecar, target, payload).value;
    if source.Some? {
      ReadClean(codec, source.value, sidecar);
      ReadShallow(codec, source.value, sidecar);
      CleanUpdate(ReadEntries(codec, source.value, sidecar).value, target, payload);
    }
  }

  lemma CleanUpdate(was: Entries, target: string, payload: seq<Byte>)
    requires CleanNames(was)
    ensures CleanNames(was[target := payload]) <==> '\\' !in target && '\0' !in target
    ensures ShallowNames(was) ==> (ShallowNames(was[target := payload]) <==> |Split(target, '/')| <= MAX_PARTS)
  {
    assert target in was[target := payload];
  }

  // ---------------------------------------------------------------- the imperative forms

  /** The reader's walk, updating the entries and the counters as it goes. */
  class Reader {
    var entries: Entries
    var count: nat
    var total: nat

    function State(): Seen
      reads this
    {
      Seen(entries, count, total)
    }

    constructor ()
      ensures State() == Seen(map[], 0, 0)
    {
      entries, count, total := map[], 0, 0;
    }

    /** One directory: the names in sorted order, stopping at the first refusal. */
    method Walk(fetch: Fetch, t: Node, parent: string) returns (ok: bool)
      requires t.Dir?
      modifies this
      ensures ok <==> WalkFirst(fetch, t, parent, |Sorted(t.files.Keys)|, old(State())).Some?
      ensures ok ==> WalkFirst(fetch, t, parent, |Sorted(t.files.Keys)|, old(State())) == Some(State())
      decreases t, 0
    {
      var names := Sorted(t.files.Keys);
      var k := 0;
      while k < |names|
        invariant k <= |names|
        invariant WalkFirst(fetch, t, parent, k, old(State())) == Some(State())
      {
        assert names[k] in names;
        ok := Visit(fetch, t.files[names[k]], names[k], parent);
        if !ok {
          WalkRefused(fetch, t, parent, k + 1, |names|, old(State()));
          return;
        }
        k := k + 1;
      }
      ok := true;
    }

    method Visit(fetch: Fetch, node: Node, name: string, parent: string) returns (ok: bool)
      modifies this
      ensures ok <==> AsarRead.Visit(fetch, node, name, parent, old(State())).Some?
      ensures ok ==> AsarRead.Visit(fetch, node, name, parent, old(State())) == Some(State())
      decreases node, 1
    {
      if !GoodName(name) || node.Null? { return false; }
      var member := Member(parent, name);
      if node.Dir? {
        if node.meta.size.Some? || node.meta.link != "" { return false; }
        ok := Walk(fetch, node, member);
        return;
      }
      var payload := fetch(member, node.meta);
      if payload.None? { return false; }
      if count + 1 > MAX_ENTRIES || total + |payload.value| > MAX_PAYLOAD { return false; }
      entries, count, total := entries[member := payload.value], count + 1, total + |payload.value|;
      return true;
    }
  }

  lemma {:induction false} WalkRefused(fetch: Fetch, t: Node, parent: string, k: nat, n: nat, st: Seen)
    requires t.Dir? && k <= n <= |Sorted(t.files.Keys)| && WalkFirst(fetch, t, parent, k, st).None?
    ensures WalkFirst(fetch, t, parent, n, st).None?
    decreases n
  {
    if k < n { WalkRefused(fetch, t, parent, k, n - 1, st); }
  }

  method ReadArchive(codec: Codec, file: seq<Byte>, sidecar: string -> Option<seq<Byte>>) returns (r: Option<Entries>)
    ensures r == ReadEntries(codec, file, sidecar)
  {
    var frame := Unframed(file);
    if frame.None? { return None; }
    var header := codec.decode(frame.value.0);
    if header.None? || !header.value.Dir? { return None; }
    var reader := new Reader();
    var ok := reader.Walk(Fetcher(frame.value.1, sidecar), header.value, "");
    r := if ok then Some(reader.entries) else None;
  }

  /** The bytes before the payloads: the four words, the header text and its padding. */
  method WriteHeader(json: seq<Byte>) returns (output: seq<Byte>)
    ensures forall data :: output + data == Framed(json, data)
  {
    var padded := Aligned(|json|);
    output := U32(4) + U32(8 + padded) + U32(4 + padded) + U32(|json|);
    output := output + json;
    if padded > |json| { output := output + Zeros(padded - |json|); }
    assert output == U32(4) + U32(8 + padded) + U32(4 + padded) + U32(|json|) + json + Zeros(padded - |json|);
  }

  /** encodeAsar: build the header, then write prefix, header, padding and payloads in turn. */
  method EncodeArchive(codec: Codec, m: Entries) returns (r: Option<seq<Byte>>)
    ensures r == Encode(codec, m)
  {
    var paths := PathsOf(m);
    var lay := LayOut(ItemsOf(paths, BodiesOf(m, paths)), FORM);
    if lay.None? { return None; }
    var json := codec.encode(lay.value.tree);
    if |json| > MAX_HEADER { return None; }
    var output := WriteHeader(json);
    output := AppendPayloads(output, m, paths);
    assert output == Framed(json, DataOf(m));
    r := Some(output);
  }

  method AppendPayloads(prefix: seq<Byte>, m: Entries, paths: seq<string>) returns (output: seq<Byte>)
    requires Indexes(paths, m)
    ensures output == prefix + Concat(BodiesOf(m, paths), |paths|)
  {
    ghost var bodies := BodiesOf(m, paths);
    output := prefix;
    var k := 0;
    while k < |paths|
      invariant k <= |paths|
      invariant output == prefix + Concat(bodies, k)
    {
      output := output + m[paths[k]];
      k := k + 1;
    }
  }

  method RewriteArchive(codec: Codec, source: Option<seq<Byte>>, sidecar: string -> Option<seq<Byte>>, target: string, payload: seq<Byte>)
    returns (r: Option<seq<Byte>>)
    ensures r == Rewrite(codec, source, sidecar, target, payload)
  {
    var entries: Entries := map[];
    if source.Some? {
      var was := ReadArchive(codec, source.value, sidecar);
      if was.None? { return None; }
      entries := was.value;
    }
    entries := entries[target := payload];
    r := EncodeArchive(codec, entries);
  }
}
