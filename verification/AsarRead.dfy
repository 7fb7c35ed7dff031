/** Sizes summed over a map of byte strings. */
module Totals {
  ghost function Total<K(!new), B>(m: map<K, seq<B>>): nat {
    if m == map[] then 0
    else
      var k :| k in m;
      |m[k]| + Total(m - {k})
  }

  lemma {:induction false} TotalWithout<K(!new), B>(m: map<K, seq<B>>, k: K)
    requires k in m
    ensures Total(m) == |m[k]| + Total(m - {k})
    decreases |m|
  {
    var first :| first in m && Total(m) == |m[first]| + Total(m - {first});
    if first != k {
      TotalWithout(m - {first}, k);
      TotalWithout(m - {k}, first);
      assert m - {first} - {k} == m - {k} - {first};
    }
  }

  lemma TotalWith<K(!new), B>(m: map<K, seq<B>>, k: K, v: seq<B>)
    requires k !in m
    ensures Total(m[k := v]) == Total(m) + |v|
    ensures |m[k := v]| == |m| + 1
  {
    TotalWithout(m[k := v], k);
    assert m[k := v] - {k} == m;
  }

  ghost predicate Within<K, V>(a: map<K, V>, b: map<K, V>) {
    forall k :: k in a ==> k in b && a[k] == b[k]
  }

  lemma {:induction false} WithinTotal<K(!new), B>(a: map<K, seq<B>>, b: map<K, seq<B>>)
    requires Within(a, b)
    ensures |a| <= |b| && Total(a) <= Total(b)
    decreases |a|
  {
    if a != map[] {
      var k :| k in a;
      WithinTotal(a - {k}, b - {k});
      TotalWithout(a, k);
      TotalWithout(b, k);
    }
  }
}

/** Reading an ASAR archive: the recursive walk over the header tree. */
module AsarRead {
  import opened Common
  import opened Text
  import opened Trie
  import opened Totals

  const MAX_HEADER: nat := 0x100_0000
  const MAX_PAYLOAD: nat := 0x1000_0000
  const MAX_ENTRIES: nat := 10000

  /** The fields of a header node beside its children. */
  datatype Meta = Meta(size: Option<int>, offset: string, unpacked: bool, link: string)

  type Node = Tree<string, Meta>
  type Entries = map<string, seq<Byte>>

  /** What the walk reads for a file node: its bytes, or nothing when the node is refused. */
  type Fetch = (string, Meta) -> Option<seq<Byte>>

  datatype Seen = Seen(entries: Entries, count: nat, total: nat)

  predicate GoodName(name: string) {
    && name != "" && name != "." && name != ".."
    && '/' !in name && '\\' !in name && '\0' !in name
  }

  function Member(parent: string, name: string): string {
    if parent != "" then parent + "/" + name else name
  }

  /** Archive data starts after the header; `sidecar` answers for the unpacked members. */
  function Fetched(data: seq<Byte>, sidecar: string -> Option<seq<Byte>>, member: string, meta: Meta): (payload: Option<seq<Byte>>)
    ensures payload.Some? ==> meta.size == Some(|payload.value|) && meta.link == ""
  {
    if meta.link != "" || meta.size.None? || meta.size.value < 0 then None
    else if meta.unpacked then
      match sidecar(member)
      case None => None
      case Some(bytes) => if |bytes| == meta.size.value then Some(bytes) else None
    else
      match Atoi(meta.offset)
      case None => None
      case Some(offset) =>
        if offset < 0 || offset > |data| || meta.size.value > |data| - offset then None
        else Some(data[offset..offset + meta.size.value])
  }

  /** A file node is readable exactly when it is no link and its size matches the sidecar's bytes, or
      its offset parses and the range lies inside the data. */
  lemma FetchedExactly(data: seq<Byte>, sidecar: string -> Option<seq<Byte>>, member: string, meta: Meta, bytes: seq<Byte>)
    ensures Fetched(data, sidecar, member, meta) == Some(bytes) <==>
            && meta.link == "" && meta.size == Some(|bytes|)
            && if meta.unpacked then sidecar(member) == Some(bytes)
               else exists offset: nat :: Atoi(meta.offset) == Some(offset) && offset + |bytes| <= |data| && data[offset..offset + |bytes|] == bytes
  {
    if Fetched(data, sidecar, member, meta) == Some(bytes) && !meta.unpacked {
      var offset: nat := Atoi(meta.offset).value;
      assert data[offset..offset + |bytes|] == bytes;
    }
  }

  function Take(fetch: Fetch, meta: Meta, member: string, st: Seen): Option<Seen> {
    match fetch(member, meta)
    case None => None
    case Some(bytes) =>
      if st.count + 1 > MAX_ENTRIES || st.total + |bytes| > MAX_PAYLOAD then None
      else Some(Seen(st.entries[member := bytes], st.count + 1, st.total + |bytes|))
  }

  function Visit(fetch: Fetch, node: Node, name: string, parent: string, st: Seen): Option<Seen>
    decreases node, 1, 0
  {
    if !GoodName(name) || node.Null? then None
    else if node.Leaf? then Take(fetch, node.meta, Member(parent, name), st)
    else if node.meta.size.Some? || node.meta.link != "" then None
    else WalkFirst(fetch, node, Member(parent, name), |Sorted(node.files.Keys)|, st)
  }

  /** The walk over the first n names of a directory, in sorted order. */
  function WalkFirst(fetch: Fetch, t: Node, parent: string, n: nat, st: Seen): Option<Seen>
    requires t.Dir? && n <= |Sorted(t.files.Keys)|
    decreases t, 0, n
  {
    if n == 0 then Some(st)
    else
      var name := Sorted(t.files.Keys)[n - 1];
      assert name in Sorted(t.files.Keys);
      match WalkFirst(fetch, t, parent, n - 1, st)
      case None => None
      case Some(before) => Visit(fetch, t.files[name], name, parent, before)
  }

  function Walk(fetch: Fetch, t: Node): Option<Seen>
    requires t.Dir?
  {
    WalkFirst(fetch, t, "", |Sorted(t.files.Keys)|, Seen(map[], 0, 0))
  }

  // ---------------------------------------------------------------- what an archive means

  /** Every name below t is allowed, no node is null, directories carry neither size nor
      link, and every file can be fetched. */
  ghost predicate WellFormed(fetch: Fetch, t: Node, at: string) {
    match t
    case Null => false
    case Leaf(meta) => fetch(at, meta).Some?
    case Dir(meta, files) =>
      forall name :: name in files ==>
        && GoodName(name) && PlainDir(files[name])
        && WellFormed(fetch, files[name], Member(at, name))
  }

  ghost predicate PlainDir(node: Node) {
    node.Dir? ==> node.meta.size.None? && node.meta.link == ""
  }

  /** The bytes the tree t, found at the path `at`, holds for the member s. */
  ghost function Held(fetch: Fetch, t: Node, at: seq<string>, s: string, path: seq<string>): Option<seq<Byte>> {
    if IsPrefix(at, path) && LeafAt(t, path[|at|..]).Some? then fetch(s, LeafAt(t, path[|at|..]).value) else None
  }

  ghost function Look<K, V>(m: map<K, V>, k: K): Option<V> { if k in m then Some(m[k]) else None }

  /** The archive with header t holds exactly the members m and is within the limits. */
  ghost predicate Denotes(fetch: Fetch, t: Node, m: Entries) {
    && WellFormed(fetch, t, "")
    && (forall s: string :: Look(m, s) == Held(fetch, t, [], s, Split(s, '/')))
    && |m| <= MAX_ENTRIES && Total(m) <= MAX_PAYLOAD
  }

  // ---------------------------------------------------------------- paths

  ghost predicate Located(at: seq<string>, parent: string) {
    if at == [] then parent == "" else parent != "" && Split(parent, '/') == at
  }

  lemma LocatedMember(at: seq<string>, parent: string, name: string)
    requires Located(at, parent) && GoodName(name)
    ensures Located(at + [name], Member(parent, name))
  {
    SplitWhole(name, '/');
    if at != [] {
      SplitAppend(parent, name, '/');
      assert parent + "/" + name == parent + ['/'] + name;
    } else {
      assert at + [name] == [name];
    }
  }

  /** Stepping into a child. */
  lemma HeldChild(fetch: Fetch, t: Node, at: seq<string>, name: string, s: string, path: seq<string>)
    requires t.Dir? && name in t.files
    ensures IsPrefix(at + [name], path) <==> IsPrefix(at, path) && |path| > |at| && path[|at|] == name
    ensures Held(fetch, t.files[name], at + [name], s, path) ==
            if |path| > |at| && path[|at|] == name then Held(fetch, t, at, s, path) else None
  {
    if |path| > |at| {
      assert path[..|at| + 1] == path[..|at|] + [path[|at|]];
      assert path[|at|..][1..] == path[|at| + 1..];
      if IsPrefix(at + [name], path) {
        assert (at + [name])[..|at|] == at && (at + [name])[|at|] == name;
        assert path[..|at| + 1][..|at|] == path[..|at|];
      }
    }
  }

  lemma HeldLeaf(fetch: Fetch, meta: Meta, at: seq<string>, member: string, s: string)
    requires Split(member, '/') == at
    ensures Held(fetch, Leaf(meta), at, s, Split(s, '/')) == if s == member then fetch(s, meta) else None
  {
    var path := Split(s, '/');
    if IsPrefix(at, path) && path[|at|..] == [] {
      assert path == at;
      SplitInjective(s, member, '/');
    }
  }

  // ---------------------------------------------------------------- the walk is sound

  /** What the walk over the first n names adds, member by member. */
  ghost predicate Adds(fetch: Fetch, t: Node, at: seq<string>, names: seq<string>, was: Entries, now: Entries, s: string, path: seq<string>) {
    Look(now, s) ==
    if Held(fetch, t, at, s, path).Some? && |path| > |at| && path[|at|] in names then Held(fetch, t, at, s, path) else Look(was, s)
  }

  ghost predicate AddsNode(fetch: Fetch, t: Node, at: seq<string>, was: Entries, now: Entries, s: string, path: seq<string>) {
    Look(now, s) == if Held(fetch, t, at, s, path).Some? then Held(fetch, t, at, s, path) else Look(was, s)
  }

  lemma {:induction false} VisitAdds(fetch: Fetch, node: Node, name: string, at: seq<string>, parent: string, st: Seen, s: string)
    requires Located(at, parent) && Visit(fetch, node, name, parent, st).Some?
    ensures AddsNode(fetch, node, at + [name], st.entries, Visit(fetch, node, name, parent, st).value.entries, s, Split(s, '/'))
    decreases node, 1, 0
  {
    LocatedMember(at, parent, name);
    var member := Member(parent, name);
    if node.Leaf? {
      HeldLeaf(fetch, node.meta, at + [name], member, s);
    } else {
      var names := Sorted(node.files.Keys);
      WalkAdds(fetch, node, at + [name], member, |names|, st, s);
      assert names[..|names|] == names;
      WalkWhole(fetch, node, at + [name], st.entries, Visit(fetch, node, name, parent, st).value.entries, s, Split(s, '/'));
    }
  }

  lemma WalkWhole(fetch: Fetch, t: Node, at: seq<string>, was: Entries, now: Entries, s: string, path: seq<string>)
    requires t.Dir? && Adds(fetch, t, at, Sorted(t.files.Keys), was, now, s, path)
    ensures AddsNode(fetch, t, at, was, now, s, path)
  {
    if Held(fetch, t, at, s, path).Some? {
      assert path[|at|..][0] == path[|at|];
      assert path[|at|] in t.files.Keys;
    }
  }

  lemma {:induction false} WalkAdds(fetch: Fetch, t: Node, at: seq<string>, parent: string, n: nat, st: Seen, s: string)
    requires t.Dir? && n <= |Sorted(t.files.Keys)|
    requires Located(at, parent) && WalkFirst(fetch, t, parent, n, st).Some?
    ensures Adds(fetch, t, at, Sorted(t.files.Keys)[..n], st.entries, WalkFirst(fetch, t, parent, n, st).value.entries, s, Split(s, '/'))
    decreases t, 0, n
  {
    var names := Sorted(t.files.Keys);
    if n > 0 {
      var name := names[n - 1];
      assert name in names;
      var before := WalkFirst(fetch, t, parent, n - 1, st).value;
      WalkAdds(fetch, t, at, parent, n - 1, st, s);
      VisitAdds(fetch, t.files[name], name, at, parent, before, s);
      AddsStep(fetch, t, at, names, n, st.entries, before.entries, WalkFirst(fetch, t, parent, n, st).value.entries, s, Split(s, '/'));
    }
  }

  lemma AddsStep(fetch: Fetch, t: Node, at: seq<string>, names: seq<string>, n: nat, was: Entries, mid: Entries, now: Entries, s: string, path: seq<string>)
    requires t.Dir? && 0 < n <= |names| && names[n - 1] in t.files
    requires Adds(fetch, t, at, names[..n - 1], was, mid, s, path)
    requires AddsNode(fetch, t.files[names[n - 1]], at + [names[n - 1]], mid, now, s, path)
    ensures Adds(fetch, t, at, names[..n], was, now, s, path)
  {
    HeldChild(fetch, t, at, names[n - 1], s, path);
    assert names[..n] == names[..n - 1] + [names[n - 1]];
  }

  /** A walk that succeeds visited only allowed names and nodes. */
  lemma {:induction false} VisitChecks(fetch: Fetch, node: Node, name: string, parent: string, st: Seen)
    requires Visit(fetch, node, name, parent, st).Some?
    ensures GoodName(name) && PlainDir(node) && WellFormed(fetch, node, Member(parent, name))
    decreases node, 1, 0
  {
    if node.Dir? {
      var names := Sorted(node.files.Keys);
      forall child | child in node.files
        ensures GoodName(child) && PlainDir(node.files[child])
        ensures WellFormed(fetch, node.files[child], Member(Member(parent, name), child))
      {
        assert child in names;
        var i :| 0 <= i < |names| && names[i] == child;
        WalkChecks(fetch, node, Member(parent, name), |names|, st, i);
      }
    }
  }

  lemma {:induction false} WalkChecks(fetch: Fetch, t: Node, parent: string, n: nat, st: Seen, i: nat)
    requires t.Dir? && i < n <= |Sorted(t.files.Keys)| && WalkFirst(fetch, t, parent, n, st).Some?
    ensures Sorted(t.files.Keys)[i] in t.files
    ensures var name := Sorted(t.files.Keys)[i];
            GoodName(name) && PlainDir(t.files[name]) && WellFormed(fetch, t.files[name], Member(parent, name))
    decreases t, 0, n
  {
    var name := Sorted(t.files.Keys)[i];
    assert name in Sorted(t.files.Keys);
    if i == n - 1 {
      VisitChecks(fetch, t.files[name], name, parent, WalkFirst(fetch, t, parent, n - 1, st).value);
    } else {
      WalkChecks(fetch, t, parent, n - 1, st, i);
    }
  }

  // ---------------------------------------------------------------- the running count and total

  ghost predicate Exact(st: Seen) {
    st.count == |st.entries| && st.total == Total(st.entries) && st.count <= MAX_ENTRIES && st.total <= MAX_PAYLOAD
  }

  /** Nothing recorded so far lies under the path `at`. */
  ghost predicate Beyond(at: seq<string>, entries: Entries) {
    forall s :: s in entries ==> !IsPrefix(at, Split(s, '/'))
  }

  lemma ChildPrefix(at: seq<string>, name: string, path: seq<string>)
    ensures IsPrefix(at + [name], path) <==> IsPrefix(at, path) && |path| > |at| && path[|at|] == name
  {
    if |path| > |at| {
      assert path[..|at| + 1] == path[..|at|] + [path[|at|]];
      if IsPrefix(at + [name], path) {
        assert (at + [name])[..|at|] == at && (at + [name])[|at|] == name;
        assert path[..|at| + 1][..|at|] == path[..|at|];
      }
    }
  }

  /** After the first n - 1 names nothing lies under the n-th. */
  lemma WalkBeyond(fetch: Fetch, t: Node, at: seq<string>, parent: string, n: nat, st: Seen)
    requires t.Dir? && 0 < n <= |Sorted(t.files.Keys)|
    requires Located(at, parent) && WalkFirst(fetch, t, parent, n - 1, st).Some? && Beyond(at, st.entries)
    ensures Beyond(at + [Sorted(t.files.Keys)[n - 1]], WalkFirst(fetch, t, parent, n - 1, st).value.entries)
  {
    var names := Sorted(t.files.Keys);
    var now := WalkFirst(fetch, t, parent, n - 1, st).value.entries;
    assert names[n - 1] !in names[..n - 1];
    forall s | s in now ensures !IsPrefix(at + [names[n - 1]], Split(s, '/')) {
      WalkAdds(fetch, t, at, parent, n - 1, st, s);
      MemberBeyond(fetch, t, at, names[..n - 1], names[n - 1], st.entries, now, s, Split(s, '/'));
    }
  }

  /** A member added under the names seen so far does not lie under another one. */
  lemma MemberBeyond(fetch: Fetch, t: Node, at: seq<string>, names: seq<string>, name: string, was: Entries, now: Entries, s: string, path: seq<string>)
    requires s in now && name !in names && Adds(fetch, t, at, names, was, now, s, path)
    requires s in was ==> !IsPrefix(at, path)
    ensures !IsPrefix(at + [name], path)
  {
    ChildPrefix(at, name, path);
  }

  lemma TakeExact(fetch: Fetch, meta: Meta, at: seq<string>, member: string, st: Seen)
    requires Exact(st) && Beyond(at, st.entries) && Split(member, '/') == at && Take(fetch, meta, member, st).Some?
    ensures Exact(Take(fetch, meta, member, st).value)
  {
    assert member !in st.entries;
    TotalWith(st.entries, member, fetch(member, meta).value);
  }

  lemma {:induction false} VisitExact(fetch: Fetch, node: Node, name: string, at: seq<string>, parent: string, st: Seen)
    requires Located(at, parent) && Visit(fetch, node, name, parent, st).Some?
    requires Exact(st) && Beyond(at + [name], st.entries)
    ensures Exact(Visit(fetch, node, name, parent, st).value)
    decreases node, 1, 0
  {
    LocatedMember(at, parent, name);
    if node.Leaf? {
      TakeExact(fetch, node.meta, at + [name], Member(parent, name), st);
    } else {
      WalkExact(fetch, node, at + [name], Member(parent, name), |Sorted(node.files.Keys)|, st);
    }
  }

  /** The counters are the size of what was read. */
  lemma {:induction false} WalkExact(fetch: Fetch, t: Node, at: seq<string>, parent: string, n: nat, st: Seen)
    requires t.Dir? && n <= |Sorted(t.files.Keys)|
    requires Located(at, parent) && WalkFirst(fetch, t, parent, n, st).Some?
    requires Exact(st) && Beyond(at, st.entries)
    ensures Exact(WalkFirst(fetch, t, parent, n, st).value)
    decreases t, 0, n
  {
    if n > 0 {
      var name := Sorted(t.files.Keys)[n - 1];
      assert name in Sorted(t.files.Keys);
      var before := WalkFirst(fetch, t, parent, n - 1, st);
      assert before.Some? && WalkFirst(fetch, t, parent, n, st) == Visit(fetch, t.files[name], name, parent, before.value);
      assert Exact(before.value) by { WalkExact(fetch, t, at, parent, n - 1, st); }
      assert Beyond(at + [name], before.value.entries) by { WalkBeyond(fetch, t, at, parent, n, st); }
      VisitExact(fetch, t.files[name], name, at, parent, before.value);
    }
  }

  // ---------------------------------------------------------------- the walk is complete

  /** The members t holds are among those of goal. */
  ghost predicate Covers(goal: Entries, fetch: Fetch, t: Node, at: seq<string>) {
    forall s: string :: Held(fetch, t, at, s, Split(s, '/')).Some? ==> Look(goal, s) == Held(fetch, t, at, s, Split(s, '/'))
  }

  ghost predicate Small(goal: Entries) { |goal| <= MAX_ENTRIES && Total(goal) <= MAX_PAYLOAD }

  lemma CoversChild(goal: Entries, fetch: Fetch, t: Node, at: seq<string>, name: string)
    requires t.Dir? && name in t.files && Covers(goal, fetch, t, at)
    ensures Covers(goal, fetch, t.files[name], at + [name])
  {
    forall s: string | Held(fetch, t.files[name], at + [name], s, Split(s, '/')).Some?
      ensures Look(goal, s) == Held(fetch, t.files[name], at + [name], s, Split(s, '/'))
    {
      HeldChild(fetch, t, at, name, s, Split(s, '/'));
    }
  }

  lemma VisitWithin(goal: Entries, fetch: Fetch, node: Node, name: string, at: seq<string>, parent: string, st: Seen)
    requires Located(at, parent) && Visit(fetch, node, name, parent, st).Some?
    requires Within(st.entries, goal) && Covers(goal, fetch, node, at + [name])
    ensures Within(Visit(fetch, node, name, parent, st).value.entries, goal)
  {
    var now := Visit(fetch, node, name, parent, st).value.entries;
    forall s | s in now ensures s in goal && now[s] == goal[s] {
      VisitAdds(fetch, node, name, at, parent, st, s);
      assert Look(now, s) == Look(goal, s);
    }
  }

  lemma TakeAccepts(goal: Entries, fetch: Fetch, meta: Meta, at: seq<string>, member: string, st: Seen)
    requires Exact(st) && Beyond(at, st.entries) && Split(member, '/') == at && fetch(member, meta).Some?
    requires Within(st.entries, goal) && Small(goal) && Covers(goal, fetch, Leaf(meta), at)
    ensures Take(fetch, meta, member, st).Some?
  {
    HeldLeaf(fetch, meta, at, member, member);
    assert member !in st.entries;
    assert Look(goal, member) == fetch(member, meta);
    var grown := st.entries[member := fetch(member, meta).value];
    TotalWith(st.entries, member, fetch(member, meta).value);
    WithinTotal(grown, goal);
  }

  ghost predicate Ready(goal: Entries, fetch: Fetch, node: Node, at: seq<string>, st: Seen) {
    Exact(st) && Beyond(at, st.entries) && Within(st.entries, goal) && Small(goal) && Covers(goal, fetch, node, at)
  }

  lemma ReadyChild(goal: Entries, fetch: Fetch, t: Node, at: seq<string>, name: string, st: Seen, before: Seen)
    requires t.Dir? && name in t.files && Ready(goal, fetch, t, at, st)
    requires Exact(before) && Beyond(at + [name], before.entries) && Within(before.entries, goal)
    ensures Ready(goal, fetch, t.files[name], at + [name], before)
  {
    CoversChild(goal, fetch, t, at, name);
  }

  lemma {:induction false} VisitAccepts(goal: Entries, fetch: Fetch, node: Node, name: string, at: seq<string>, parent: string, st: Seen)
    requires Located(at, parent) && GoodName(name) && PlainDir(node) && WellFormed(fetch, node, Member(parent, name))
    requires Ready(goal, fetch, node, at + [name], st)
    ensures Visit(fetch, node, name, parent, st).Some?
    ensures Within(Visit(fetch, node, name, parent, st).value.entries, goal)
    decreases node, 1, 0, 0
  {
    LocatedMember(at, parent, name);
    if node.Leaf? {
      TakeAccepts(goal, fetch, node.meta, at + [name], Member(parent, name), st);
    } else {
      WalkAccepts(goal, fetch, node, at + [name], Member(parent, name), |Sorted(node.files.Keys)|, st);
    }
    VisitWithin(goal, fetch, node, name, at, parent, st);
  }

  lemma NothingWalked(goal: Entries, fetch: Fetch, t: Node, at: seq<string>, parent: string, st: Seen)
    requires t.Dir? && Ready(goal, fetch, t, at, st)
    ensures WalkFirst(fetch, t, parent, 0, st) == Some(st) && Within(st.entries, goal)
  {
  }

  lemma ReadyNext(goal: Entries, fetch: Fetch, t: Node, at: seq<string>, parent: string, n: nat, st: Seen, before: Seen)
    requires t.Dir? && 0 < n <= |Sorted(t.files.Keys)| && Located(at, parent)
    requires Ready(goal, fetch, t, at, st) && WalkFirst(fetch, t, parent, n - 1, st) == Some(before) && Within(before.entries, goal)
    ensures var name := Sorted(t.files.Keys)[n - 1]; name in t.files && Ready(goal, fetch, t.files[name], at + [name], before)
  {
    var name := Sorted(t.files.Keys)[n - 1];
    assert name in Sorted(t.files.Keys);
    assert Exact(before) by { WalkExact(fetch, t, at, parent, n - 1, st); }
    assert Beyond(at + [name], before.entries) by { WalkBeyond(fetch, t, at, parent, n, st); }
    assert Exact(st) && Beyond(at, st.entries);
    ReadyChild(goal, fetch, t, at, name, st, before);
  }

  lemma LastVisited(fetch: Fetch, t: Node, parent: string, n: nat, st: Seen, before: Seen)
    requires t.Dir? && 0 < n <= |Sorted(t.files.Keys)| && WalkFirst(fetch, t, parent, n - 1, st) == Some(before)
    ensures var name := Sorted(t.files.Keys)[n - 1];
            name in t.files && WalkFirst(fetch, t, parent, n, st) == Visit(fetch, t.files[name], name, parent, before)
  {
    assert Sorted(t.files.Keys)[n - 1] in Sorted(t.files.Keys);
  }

  lemma ChildFits(fetch: Fetch, t: Node, parent: string, name: string)
    requires t.Dir? && name in t.files && WellFormed(fetch, t, parent)
    ensures GoodName(name) && PlainDir(t.files[name]) && WellFormed(fetch, t.files[name], Member(parent, name))
  {
  }

  lemma {:induction false} NextAccepts(goal: Entries, fetch: Fetch, t: Node, at: seq<string>, parent: string, n: nat, st: Seen, before: Seen)
    requires t.Dir? && 0 < n <= |Sorted(t.files.Keys)| && Located(at, parent) && WellFormed(fetch, t, parent)
    requires Ready(goal, fetch, t, at, st) && WalkFirst(fetch, t, parent, n - 1, st) == Some(before) && Within(before.entries, goal)
    ensures var r := WalkFirst(fetch, t, parent, n, st); r.Some? && Within(r.value.entries, goal)
    decreases t, 0, n, 0
  {
    var name := Sorted(t.files.Keys)[n - 1];
    LastVisited(fetch, t, parent, n, st, before);
    ReadyNext(goal, fetch, t, at, parent, n, st, before);
    ChildFits(fetch, t, parent, name);
    VisitAccepts(goal, fetch, t.files[name], name, at, parent, before);
  }

  lemma {:induction false} WalkAccepts(goal: Entries, fetch: Fetch, t: Node, at: seq<string>, parent: string, n: nat, st: Seen)
    requires t.Dir? && n <= |Sorted(t.files.Keys)| && Located(at, parent) && WellFormed(fetch, t, parent)
    requires Ready(goal, fetch, t, at, st)
    ensures var r := WalkFirst(fetch, t, parent, n, st); r.Some? && Within(r.value.entries, goal)
    decreases t, 0, n, 1
  {
    if n == 0 {
      NothingWalked(goal, fetch, t, at, parent, st);
    } else {
      WalkAccepts(goal, fetch, t, at, parent, n - 1, st);
      NextAccepts(goal, fetch, t, at, parent, n, st, WalkFirst(fetch, t, parent, n - 1, st).value);
    }
  }

  /** The walk accepts a header exactly when it denotes some members within the limits, and
      then returns those members. */
  lemma WalkDenotes(fetch: Fetch, t: Node, m: Entries)
    requires t.Dir?
    ensures (Walk(fetch, t).Some? && Walk(fetch, t).value.entries == m) <==> Denotes(fetch, t, m)
  {
    if Walk(fetch, t).Some? {
      WalkedDenotes(fetch, t);
    }
    if Denotes(fetch, t, m) {
      assert Beyond([], map[]);
      assert Covers(m, fetch, t, []);
      WalkAccepts(m, fetch, t, [], "", |Sorted(t.files.Keys)|, Seen(map[], 0, 0));
      WalkedDenotes(fetch, t);
      SameLook(fetch, t, m, Walk(fetch, t).value.entries);
    }
  }

  lemma SameLook(fetch: Fetch, t: Node, m: Entries, n: Entries)
    requires Denotes(fetch, t, m) && Denotes(fetch, t, n)
    ensures m == n
  {
    assert forall s: string :: Look(m, s) == Held(fetch, t, [], s, Split(s, '/'));
    assert forall s: string :: Look(n, s) == Held(fetch, t, [], s, Split(s, '/'));
    forall s: string ensures (s in m <==> s in n) && (s in m ==> m[s] == n[s]) {
      assert Look(m, s) == Look(n, s);
    }
  }

  lemma WalkedDenotes(fetch: Fetch, t: Node)
    requires t.Dir? && Walk(fetch, t).Some?
    ensures Denotes(fetch, t, Walk(fetch, t).value.entries)
  {
    var names := Sorted(t.files.Keys);
    var st := Seen(map[], 0, 0);
    var m := Walk(fetch, t).value.entries;
    assert Beyond([], map[]);
    WalkExact(fetch, t, [], "", |names|, st);
    forall name | name in t.files
      ensures GoodName(name) && PlainDir(t.files[name]) && WellFormed(fetch, t.files[name], Member("", name))
    {
      assert name in names;
      var i :| 0 <= i < |names| && names[i] == name;
      WalkChecks(fetch, t, "", |names|, st, i);
    }
    forall s: string ensures Look(m, s) == Held(fetch, t, [], s, Split(s, '/')) {
      WalkAdds(fetch, t, [], "", |names|, st, s);
      assert names[..|names|] == names;
      WalkWhole(fetch, t, [], map[], m, s, Split(s, '/'));
      assert AddsNode(fetch, t, [], map[], m, s, Split(s, '/'));
    }
  }
}
