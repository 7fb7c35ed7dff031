/** The directory tree of an ASAR header: names lead to files or to further directories. */
module Trie {
  import opened Common

  datatype Tree<K, L> = Null | Leaf(meta: L) | Dir(meta: L, files: map<K, Tree<K, L>>)

  /** The file reached by following a path of names. */
  function LeafAt<K, L>(t: Tree<K, L>, path: seq<K>): Option<L>
    decreases |path|
  {
    if path == [] then (if t.Leaf? then Some(t.meta) else None)
    else if t.Dir? && path[0] in t.files then LeafAt(t.files[path[0]], path[1..])
    else None
  }

  /** Adds a file below a directory, making the directories on its way; fails when the path
      crosses a file or ends on something that exists. New directories carry `plain`. */
  function Insert<K, L>(t: Tree<K, L>, path: seq<K>, leaf: L, plain: L): (r: Option<Tree<K, L>>)
    requires t.Dir? && path != []
    ensures r.Some? ==> r.value.Dir?
    decreases |path|
  {
    var name := path[0];
    if |path| == 1 then
      if name in t.files then None else Some(Dir(t.meta, t.files[name := Leaf(leaf)]))
    else
      var child := if name in t.files then t.files[name] else Dir(plain, map[]);
      if !child.Dir? then None
      else
        match Insert(child, path[1..], leaf, plain)
        case None => None
        case Some(grown) => Some(Dir(t.meta, t.files[name := grown]))
  }

  /** An inserted file is found at its path and nothing else changes. */
  lemma {:induction false} InsertFound<K, L>(t: Tree<K, L>, path: seq<K>, leaf: L, plain: L, q: seq<K>)
    requires t.Dir? && path != [] && Insert(t, path, leaf, plain).Some?
    ensures LeafAt(Insert(t, path, leaf, plain).value, q) == if q == path then Some(leaf) else LeafAt(t, q)
    decreases |path|
  {
    var name := path[0];
    if q != [] && q[0] == name {
      if |path| == 1 {
        assert q == [name] + q[1..] && path == [name];
      } else {
        var child := if name in t.files then t.files[name] else Dir(plain, map[]);
        InsertFound(child, path[1..], leaf, plain, q[1..]);
        assert q == [name] + q[1..] && path == [name] + path[1..];
      }
    }
  }

  /** No directory below the root is empty, every directory is plain, every name passes `ok`. */
  ghost predicate Full<K, L>(t: Tree<K, L>, plain: L, ok: K -> bool) {
    && !t.Null?
    && (t.Dir? ==>
          && t.meta == plain
          && forall name :: name in t.files ==>
               && ok(name)
               && Full(t.files[name], plain, ok)
               && (t.files[name].Dir? ==> t.files[name].files != map[]))
  }

  lemma {:induction false} InsertFull<K, L>(t: Tree<K, L>, path: seq<K>, leaf: L, plain: L, ok: K -> bool)
    requires t.Dir? && path != [] && Full(t, plain, ok) && Insert(t, path, leaf, plain).Some?
    requires forall i :: 0 <= i < |path| ==> ok(path[i])
    ensures Full(Insert(t, path, leaf, plain).value, plain, ok) && Insert(t, path, leaf, plain).value.files != map[]
    decreases |path|
  {
    var name := path[0];
    var grown := Insert(t, path, leaf, plain).value;
    assert name in grown.files;
    if |path| > 1 {
      var child := if name in t.files then t.files[name] else Dir(plain, map[]);
      InsertFull(child, path[1..], leaf, plain, ok);
    }
  }

  ghost predicate IsPrefix<K>(p: seq<K>, q: seq<K>) { |p| <= |q| && q[..|p|] == p }

  lemma PrefixTail<K>(p: seq<K>, q: seq<K>)
    requires p != [] && q != [] && p[0] == q[0]
    ensures IsPrefix(p, q) <==> IsPrefix(p[1..], q[1..])
  {
    assert p == [p[0]] + p[1..];
    if |p| <= |q| {
      assert q[..|p|] == [q[0]] + q[1..][..|p| - 1];
    }
  }

  /** Every tree that is not an empty directory holds a file. */
  lemma {:induction false} HasLeaf<K, L>(t: Tree<K, L>, plain: L, ok: K -> bool) returns (q: seq<K>)
    requires Full(t, plain, ok) && (t.Dir? ==> t.files != map[])
    ensures LeafAt(t, q).Some?
    decreases t
  {
    if t.Leaf? {
      q := [];
    } else {
      var name :| name in t.files;
      var rest := HasLeaf(t.files[name], plain, ok);
      q := [name] + rest;
      assert q[1..] == rest;
    }
  }

  /** Insertion fails only on a path that extends, or is extended by, a path already there. */
  lemma {:induction false} InsertBlocked<K, L>(t: Tree<K, L>, path: seq<K>, leaf: L, plain: L, ok: K -> bool) returns (q: seq<K>)
    requires t.Dir? && path != [] && Full(t, plain, ok) && Insert(t, path, leaf, plain).None?
    ensures LeafAt(t, q).Some? && (IsPrefix(q, path) || IsPrefix(path, q))
    decreases |path|
  {
    var name := path[0];
    var rest;
    if |path| == 1 {
      rest := HasLeaf(t.files[name], plain, ok);
    } else if name in t.files && !t.files[name].Dir? {
      rest := [];
    } else {
      var child := if name in t.files then t.files[name] else Dir(plain, map[]);
      rest := InsertBlocked(child, path[1..], leaf, plain, ok);
    }
    q := [name] + rest;
    assert q[1..] == rest;
    PrefixTail(q, path);
    PrefixTail(path, q);
  }

  /** An insertion that succeeds met no such path. */
  lemma {:induction false} InsertFree<K, L>(t: Tree<K, L>, path: seq<K>, leaf: L, plain: L, q: seq<K>)
    requires t.Dir? && path != [] && Insert(t, path, leaf, plain).Some? && LeafAt(t, q).Some?
    ensures !IsPrefix(q, path) && !IsPrefix(path, q)
    decreases |path|
  {
    var name := path[0];
    if q[0] == name {
      var child := t.files[name];
      InsertFree(child, path[1..], leaf, plain, q[1..]);
      PrefixTail(q, path);
      PrefixTail(path, q);
    }
  }

  // ---------------------------------------------------------------- growing a tree file by file

  /** tree(k + 1) is tree(k) with leaf(k) inserted at path(k), from the empty directory on. */
  ghost predicate Grows<K(!new), L(!new)>(tree: int -> Tree<K, L>, path: int -> seq<K>, leaf: int -> L, plain: L, n: nat) {
    && tree(0) == Dir(plain, map[])
    && forall k :: 0 <= k < n ==> GrowsAt(tree, path, leaf, plain, k)
  }

  ghost predicate GrowsAt<K(!new), L(!new)>(tree: int -> Tree<K, L>, path: int -> seq<K>, leaf: int -> L, plain: L, k: int) {
    tree(k).Dir? && path(k) != [] && Insert(tree(k), path(k), leaf(k), plain) == Some(tree(k + 1))
  }

  lemma {:induction false} GrownAt<K(!new), L(!new)>(tree: int -> Tree<K, L>, path: int -> seq<K>, leaf: int -> L, plain: L, n: nat, i: nat)
    requires Grows(tree, path, leaf, plain, n) && i < n
    ensures LeafAt(tree(n), path(i)) == Some(leaf(i))
    ensures forall j :: 0 <= j < i ==> !IsPrefix(path(j), path(i)) && !IsPrefix(path(i), path(j))
    decreases n
  {
    assert GrowsAt(tree, path, leaf, plain, n - 1);
    InsertFound(tree(n - 1), path(n - 1), leaf(n - 1), plain, path(i));
    if i < n - 1 {
      GrownAt(tree, path, leaf, plain, n - 1, i);
      InsertFree(tree(n - 1), path(n - 1), leaf(n - 1), plain, path(i));
    } else {
      forall j | 0 <= j < i ensures !IsPrefix(path(j), path(i)) && !IsPrefix(path(i), path(j)) {
        GrownAt(tree, path, leaf, plain, n - 1, j);
        InsertFree(tree(n - 1), path(n - 1), leaf(n - 1), plain, path(j));
      }
    }
  }

  lemma {:induction false} GrownOnly<K(!new), L(!new)>(tree: int -> Tree<K, L>, path: int -> seq<K>, leaf: int -> L, plain: L, n: nat, q: seq<K>) returns (i: nat)
    requires Grows(tree, path, leaf, plain, n) && LeafAt(tree(n), q).Some?
    ensures i < n && path(i) == q
    decreases n
  {
    assert n > 0;
    assert GrowsAt(tree, path, leaf, plain, n - 1);
    InsertFound(tree(n - 1), path(n - 1), leaf(n - 1), plain, q);
    if q == path(n - 1) {
      i := n - 1;
    } else {
      i := GrownOnly(tree, path, leaf, plain, n - 1, q);
    }
  }

  lemma {:induction false} GrownFull<K(!new), L(!new)>(tree: int -> Tree<K, L>, path: int -> seq<K>, leaf: int -> L, plain: L, n: nat, ok: K -> bool)
    requires Grows(tree, path, leaf, plain, n)
    requires forall i, part :: 0 <= i < n && part in path(i) ==> ok(part)
    ensures Full(tree(n), plain, ok) && tree(n).Dir? && (n > 0 <==> tree(n).files != map[])
    decreases n
  {
    if n > 0 {
      GrownFull(tree, path, leaf, plain, n - 1, ok);
      assert GrowsAt(tree, path, leaf, plain, n - 1);
      InsertFull(tree(n - 1), path(n - 1), leaf(n - 1), plain, ok);
    }
  }

  /** The next file fits unless its path extends, or is extended by, an earlier one. */
  lemma GrowsOn<K(!new), L(!new)>(tree: int -> Tree<K, L>, path: int -> seq<K>, leaf: int -> L, plain: L, n: nat)
    requires Grows(tree, path, leaf, plain, n) && tree(n).Dir? && path(n) != []
    ensures Insert(tree(n), path(n), leaf(n), plain).Some? <==>
            forall j :: 0 <= j < n ==> !IsPrefix(path(j), path(n)) && !IsPrefix(path(n), path(j))
  {
    if Insert(tree(n), path(n), leaf(n), plain).None? {
      GrownFull(tree, path, leaf, plain, n, k => true);
      var q := InsertBlocked(tree(n), path(n), leaf(n), plain, k => true);
      var j := GrownOnly(tree, path, leaf, plain, n, q);
    } else {
      forall j | 0 <= j < n ensures !IsPrefix(path(j), path(n)) && !IsPrefix(path(n), path(j)) {
        GrownAt(tree, path, leaf, plain, n, j);
        InsertFree(tree(n), path(n), leaf(n), plain, path(j));
      }
    }
  }
}

/** Laying out files one after another: each gets a node in the tree and an offset in the data. */
module Placement {
  import opened Common
  import opened Trie

  datatype Item<K> = Item(proper: bool, path: seq<K>, size: nat)

  datatype Layout<K, L> = Layout(tree: Tree<K, L>, offset: nat)

  /** How nodes are written: a file from its size and offset, a new directory, the data limit. */
  datatype Form<L> = Form(file: (nat, nat) -> L, plain: L, limit: nat)

  ghost predicate Pathed<K>(items: seq<Item<K>>) {
    forall i :: 0 <= i < |items| ==> items[i].path != []
  }

  /** One turn of the loop: the file's node is inserted and the offset moves past its data. */
  function PlaceItem<K, L>(lay: Layout<K, L>, item: Item<K>, form: Form<L>): (r: Option<Layout<K, L>>)
    requires lay.tree.Dir? && item.path != []
    ensures r.Some? ==> r.value.tree.Dir?
  {
    if !item.proper then None
    else
      match Insert(lay.tree, item.path, form.file(item.size, lay.offset), form.plain)
      case None => None
      case Some(tree) =>
        if lay.offset + item.size > form.limit then None else Some(Layout(tree, lay.offset + item.size))
  }

  /** The tree and the running offset after the first k files. */
  function Place<K, L>(items: seq<Item<K>>, form: Form<L>, k: nat): (r: Option<Layout<K, L>>)
    requires k <= |items| && Pathed(items)
    ensures r.Some? ==> r.value.tree.Dir?
  {
    if k == 0 then Some(Layout(Dir(form.plain, map[]), 0))
    else
      match Place(items, form, k - 1)
      case None => None
      case Some(lay) => PlaceItem(lay, items[k - 1], form)
  }

  /** The offset of file k: the sizes before it. */
  function Offset<K>(items: seq<Item<K>>, k: nat): nat
    requires k <= |items|
  {
    if k == 0 then 0 else Offset(items, k - 1) + items[k - 1].size
  }

  ghost function TreeOf<K(!new), L(!new)>(items: seq<Item<K>>, form: Form<L>): int -> Tree<K, L> {
    k => if 0 <= k <= |items| && Pathed(items) && Place(items, form, k).Some? then Place(items, form, k).value.tree else Null
  }

  ghost function PathOf<K(!new)>(items: seq<Item<K>>): int -> seq<K> {
    k => if 0 <= k < |items| then items[k].path else []
  }

  ghost function NodeOf<K(!new), L(!new)>(items: seq<Item<K>>, form: Form<L>): int -> L {
    k => if 0 <= k < |items| then form.file(items[k].size, Offset(items, k)) else form.plain
  }

  ghost predicate Clash<K>(p: seq<K>, q: seq<K>) { IsPrefix(p, q) || IsPrefix(q, p) }

  /** The first k files are proper, none lies inside another, and together they fit. */
  ghost predicate Placeable<K>(items: seq<Item<K>>, k: nat, limit: nat)
    requires k <= |items|
  {
    && (forall i :: 0 <= i < k ==> items[i].proper)
    && (forall i, j :: 0 <= i < j < k ==> !Clash(items[i].path, items[j].path))
    && Offset(items, k) <= limit
  }

  lemma {:induction false} PlacedGrows<K(!new), L(!new)>(items: seq<Item<K>>, form: Form<L>, k: nat)
    requires k <= |items| && Pathed(items) && Place(items, form, k).Some?
    ensures Grows(TreeOf(items, form), PathOf(items), NodeOf(items, form), form.plain, k)
    ensures TreeOf(items, form)(k) == Place(items, form, k).value.tree
    ensures Place(items, form, k).value.offset == Offset(items, k)
  {
    if k > 0 {
      PlacedGrows(items, form, k - 1);
      var lay, next := Place(items, form, k - 1).value, Place(items, form, k).value;
      NodeAt(items, form, k - 1);
      TreeAt(items, form, k, next);
      PlacedStep(TreeOf(items, form), PathOf(items), NodeOf(items, form), form, k, lay, next, items[k - 1]);
    } else {
      TreeAt(items, form, 0, Layout(Dir(form.plain, map[]), 0));
    }
  }

  lemma PlacedStep<K(!new), L(!new)>(tree: int -> Tree<K, L>, path: int -> seq<K>, leaf: int -> L, form: Form<L>, k: nat,
                                     lay: Layout<K, L>, next: Layout<K, L>, item: Item<K>)
    requires k > 0 && tree(k - 1) == lay.tree && tree(k) == next.tree && path(k - 1) == item.path
    requires leaf(k - 1) == form.file(item.size, lay.offset)
    requires lay.tree.Dir? && item.path != [] && PlaceItem(lay, item, form) == Some(next)
    ensures GrowsAt(tree, path, leaf, form.plain, k - 1) && next.offset == lay.offset + item.size
  {
    ItemPlaced(lay, item, form);
  }

  lemma NodeAt<K(!new), L(!new)>(items: seq<Item<K>>, form: Form<L>, k: nat)
    requires k < |items|
    ensures PathOf(items)(k) == items[k].path && NodeOf(items, form)(k) == form.file(items[k].size, Offset(items, k))
  {
  }

  lemma TreeAt<K(!new), L(!new)>(items: seq<Item<K>>, form: Form<L>, k: nat, lay: Layout<K, L>)
    requires k <= |items| && Pathed(items) && Place(items, form, k) == Some(lay)
    ensures TreeOf(items, form)(k) == lay.tree
  {
  }

  lemma ItemPlaced<K, L>(lay: Layout<K, L>, item: Item<K>, form: Form<L>)
    requires lay.tree.Dir? && item.path != [] && PlaceItem(lay, item, form).Some?
    ensures var next := PlaceItem(lay, item, form).value;
            Insert(lay.tree, item.path, form.file(item.size, lay.offset), form.plain) == Some(next.tree) && next.offset == lay.offset + item.size
  {
  }

  ghost predicate NextFits<K>(items: seq<Item<K>>, k: nat, limit: nat)
    requires k < |items|
  {
    && items[k].proper
    && (forall j :: 0 <= j < k ==> !Clash(items[j].path, items[k].path))
    && Offset(items, k) + items[k].size <= limit
  }

  lemma PlaceNext<K(!new), L(!new)>(items: seq<Item<K>>, form: Form<L>, k: nat)
    requires k < |items| && Pathed(items) && Place(items, form, k).Some?
    ensures Place(items, form, k + 1).Some? <==> NextFits(items, k, form.limit)
  {
    PlacedGrows(items, form, k);
    GrowsOn(TreeOf(items, form), PathOf(items), NodeOf(items, form), form.plain, k);
    assert forall j :: 0 <= j <= k ==> PathOf(items)(j) == items[j].path;
  }

  lemma PlaceableNext<K>(items: seq<Item<K>>, k: nat, limit: nat)
    requires k < |items|
    ensures Placeable(items, k + 1, limit) <==> Placeable(items, k, limit) && NextFits(items, k, limit)
  {
  }

  /** Files are laid out exactly when they are placeable. */
  lemma {:induction false} PlacedExactly<K(!new), L(!new)>(items: seq<Item<K>>, form: Form<L>, k: nat)
    requires k <= |items| && Pathed(items)
    ensures Place(items, form, k).Some? <==> Placeable(items, k, form.limit)
  {
    if k > 0 {
      PlacedExactly(items, form, k - 1);
      PlaceableNext(items, k - 1, form.limit);
      if Place(items, form, k - 1).Some? {
        PlaceNext(items, form, k - 1);
      }
    }
  }

  // ---------------------------------------------------------------- what was laid out

  lemma PlacedLeaf<K(!new), L(!new)>(items: seq<Item<K>>, form: Form<L>, k: nat, i: nat)
    requires i < k <= |items| && Pathed(items) && Place(items, form, k).Some?
    ensures LeafAt(Place(items, form, k).value.tree, items[i].path) == Some(form.file(items[i].size, Offset(items, i)))
  {
    PlacedGrows(items, form, k);
    GrownAt(TreeOf(items, form), PathOf(items), NodeOf(items, form), form.plain, k, i);
  }

  lemma PlacedLeafOnly<K(!new), L(!new)>(items: seq<Item<K>>, form: Form<L>, k: nat, q: seq<K>) returns (i: nat)
    requires k <= |items| && Pathed(items) && Place(items, form, k).Some? && LeafAt(Place(items, form, k).value.tree, q).Some?
    ensures i < k && items[i].path == q
  {
    PlacedGrows(items, form, k);
    i := GrownOnly(TreeOf(items, form), PathOf(items), NodeOf(items, form), form.plain, k, q);
  }

  lemma PlacedFull<K(!new), L(!new)>(items: seq<Item<K>>, form: Form<L>, k: nat, ok: K -> bool)
    requires k <= |items| && Pathed(items) && Place(items, form, k).Some?
    requires forall i, part :: 0 <= i < k && part in items[i].path ==> ok(part)
    ensures var t := Place(items, form, k).value.tree; Full(t, form.plain, ok) && (k > 0 <==> t.files != map[])
  {
    PlacedGrows(items, form, k);
    assert forall i :: 0 <= i < k ==> PathOf(items)(i) == items[i].path;
    GrownFull(TreeOf(items, form), PathOf(items), NodeOf(items, form), form.plain, k, ok);
  }

  lemma {:induction false} PlaceRefused<K, L>(items: seq<Item<K>>, form: Form<L>, k: nat, n: nat)
    requires Pathed(items) && k <= n <= |items| && Place(items, form, k).None?
    ensures Place(items, form, n).None?
    decreases n
  {
    if k < n { PlaceRefused(items, form, k, n - 1); }
  }

  /** The encoder's first loop: the tree and the running offset, file by file. */
  method LayOut<K, L>(items: seq<Item<K>>, form: Form<L>) returns (r: Option<Layout<K, L>>)
    requires Pathed(items)
    ensures r == Place(items, form, |items|)
  {
    var lay: Layout<K, L> := Layout(Dir(form.plain, map[]), 0);
    var k := 0;
    while k < |items|
      invariant k <= |items|
      invariant Place(items, form, k) == Some(lay)
    {
      var step := PlaceItem(lay, items[k], form);
      if step.None? {
        PlaceRefused(items, form, k + 1, |items|);
        return None;
      }
      lay := step.value;
      k := k + 1;
    }
    r := Some(lay);
  }
}
