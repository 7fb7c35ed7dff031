/** Member names of archives: what normalizeArchiveMember makes of one, and which names are read. */
module AsarNames {
  import opened Common
  import opened Text
  import opened Trie
  import opened AsarRead
  import opened AsarCodec

  /** The parts that count: not empty, and not the directory itself. */
  function Kept(parts: seq<string>): seq<string> {
    if parts == [] then []
    else (if parts[0] == "" || parts[0] == "." then [] else [parts[0]]) + Kept(parts[1..])
  }

  lemma {:induction false} KeptSnoc(parts: seq<string>, part: string)
    ensures Kept(parts + [part]) == Kept(parts) + if part == "" || part == "." then [] else [part]
  {
    if parts != [] {
      assert (parts + [part])[1..] == parts[1..] + [part];
      KeptSnoc(parts[1..], part);
    }
  }

  lemma {:induction false} CleanIsKept(parts: seq<string>, k: nat)
    requires k <= |parts|
    ensures CleanParts(parts, k) == if ".." in parts[..k] then None else Some(Kept(parts[..k]))
  {
    if k == 0 {
      assert parts[..0] == [];
    } else {
      var part := parts[k - 1];
      assert parts[..k] == parts[..k - 1] + [part];
      CleanIsKept(parts, k - 1);
      KeptSnoc(parts[..k - 1], part);
      assert part != "" && part != "." ==> Kept(parts[..k]) == Kept(parts[..k - 1]) + [part];
      assert part == "" || part == "." ==> Kept(parts[..k]) == Kept(parts[..k - 1]);
    }
  }

  lemma Edges(name: string)
    requires name != ""
    ensures (HasPrefix(name, "/") <==> name[0] == '/') && (HasSuffix(name, "/") <==> name[|name| - 1] == '/')
  {
  }

  lemma CleanWhole(parts: seq<string>)
    ensures CleanParts(parts, |parts|) == if ".." in parts then None else Some(Kept(parts))
  {
    CleanIsKept(parts, |parts|);
    assert parts[..|parts|] == parts;
  }

  /** A name is refused exactly when, without the white space around it, it begins or ends with a slash,
      goes up a directory, or names no file; otherwise its empty and `.` parts are left out. */
  lemma NormalLaw(before: string, name: string, after: string)
    requires AllSpaces(before) && AllSpaces(after) && name != "" && Tight(name)
    ensures NormalMember(before + name + after) ==
            if name[0] == '/' || name[|name| - 1] == '/' || ".." in Split(name, '/') || Kept(Split(name, '/')) == [] then None
            else Some(Join(Kept(Split(name, '/')), '/'))
  {
    TrimmedTo(before, name, after);
    CleanWhole(Split(name, '/'));
    Edges(name);
  }

  /** A normal name is normal again unless white space has come to stand at its ends, as in `./ a`. */
  lemma NormalTwice(raw: string)
    requires NormalMember(raw).Some?
    ensures var name := NormalMember(raw).value; NormalMember(name) == Some(name) <==> TrimSpace(name) == name
  {
    var parts := Split(TrimSpace(raw), '/');
    var clean := CleanParts(parts, |parts|).value;
    SplitFree(TrimSpace(raw), '/');
    CleanProper(parts, |parts|);
    SplitJoin(clean, '/');
    NormalFixed(NormalMember(raw).value);
  }

  /** No part of a name that is read is empty, goes nowhere or goes up. */
  lemma ReadParts(codec: Codec, file: seq<Byte>, sidecar: string -> Option<seq<Byte>>)
    requires ReadEntries(codec, file, sidecar).Some?
    ensures forall p, part :: p in ReadEntries(codec, file, sidecar).value && part in Split(p, '/') ==>
              part != "" && part != "." && part != ".."
  {
    var (json, data) := Unframed(file).value;
    var t := codec.decode(json).value;
    var m := ReadEntries(codec, file, sidecar).value;
    WalkDenotes(Fetcher(data, sidecar), t, m);
    forall p | p in m ensures forall part :: part in Split(p, '/') ==> part != "" && part != "." && part != ".." {
      assert Look(m, p) == Held(Fetcher(data, sidecar), t, [], p, Split(p, '/'));
      HeldRoot(Fetcher(data, sidecar), t, p);
      WellFormedNames(Fetcher(data, sidecar), t, "", Split(p, '/'));
    }
  }
}
