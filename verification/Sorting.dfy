/** Sorting by an integer key, as sort.SliceStable does it, and what holds of any sort. */
module Sorting {

  /** One step of a stable sort: x goes after everything whose key is not larger. */
  function InsertStable<T>(sorted: seq<T>, x: T, key: T -> int): seq<T> {
    if sorted == [] then [x]
    else
      var last := sorted[|sorted| - 1];
      if key(last) <= key(x) then sorted + [x] else InsertStable(sorted[..|sorted| - 1], x, key) + [last]
  }

  function StableSort<T>(xs: seq<T>, key: T -> int): seq<T> {
    if xs == [] then [] else InsertStable(StableSort(xs[..|xs| - 1], key), xs[|xs| - 1], key)
  }

  ghost predicate Ascending<T>(xs: seq<T>, key: T -> int) {
    forall i, j :: 0 <= i < j < |xs| ==> key(xs[i]) <= key(xs[j])
  }

  ghost predicate Strict<T>(xs: seq<T>, key: T -> int) {
    forall i, j :: 0 <= i < j < |xs| ==> key(xs[i]) < key(xs[j])
  }

  ghost predicate DistinctKeys<T>(xs: seq<T>, key: T -> int) {
    forall i, j :: 0 <= i < j < |xs| ==> key(xs[i]) != key(xs[j])
  }

  /** Any sort by the key, stable or not. */
  ghost predicate SomeSort<T>(xs: seq<T>, sorted: seq<T>, key: T -> int) {
    Ascending(sorted, key) && multiset(sorted) == multiset(xs)
  }

  // ---------------------------------------------------------------- the stable sort is a sort

  lemma {:induction false} InsertPermutes<T>(xs: seq<T>, x: T, key: T -> int)
    ensures multiset(InsertStable(xs, x, key)) == multiset(xs) + multiset{x}
  {
    if xs != [] {
      var init, last := xs[..|xs| - 1], xs[|xs| - 1];
      assert xs == init + [last];
      if key(last) > key(x) { InsertPermutes(init, x, key); }
    }
  }

  lemma {:induction false} InsertAscending<T>(xs: seq<T>, x: T, key: T -> int)
    requires Ascending(xs, key)
    ensures Ascending(InsertStable(xs, x, key), key)
  {
    if xs != [] {
      var init, last := xs[..|xs| - 1], xs[|xs| - 1];
      if key(last) > key(x) {
        InsertAscending(init, x, key);
        InsertPermutes(init, x, key);
        var ys := InsertStable(init, x, key);
        forall i | 0 <= i < |ys| ensures key(ys[i]) <= key(last) { assert ys[i] in multiset(ys); }
      }
    }
  }

  /** The stable sort permutes and orders. */
  lemma {:induction false} SortAscending<T>(xs: seq<T>, key: T -> int)
    ensures SomeSort(xs, StableSort(xs, key), key)
  {
    if xs != [] {
      var init, last := xs[..|xs| - 1], xs[|xs| - 1];
      assert xs == init + [last];
      SortAscending(init, key);
      InsertAscending(StableSort(init, key), last, key);
      InsertPermutes(StableSort(init, key), last, key);
    }
  }

  // ---------------------------------------------------------------- ties keep their order

  /** The elements with a given key, in order. */
  function At<T>(xs: seq<T>, key: T -> int, k: int): seq<T> {
    if xs == [] then []
    else if key(xs[|xs| - 1]) == k then At(xs[..|xs| - 1], key, k) + [xs[|xs| - 1]]
    else At(xs[..|xs| - 1], key, k)
  }

  lemma {:induction false} InsertKeepsTies<T>(xs: seq<T>, x: T, key: T -> int, k: int)
    requires Ascending(xs, key)
    ensures At(InsertStable(xs, x, key), key, k) == if key(x) == k then At(xs, key, k) + [x] else At(xs, key, k)
  {
    var r := InsertStable(xs, x, key);
    if xs == [] {
      assert r[..0] == [];
    } else {
      var init, last := xs[..|xs| - 1], xs[|xs| - 1];
      if key(last) <= key(x) {
        assert r[..|r| - 1] == xs;
      } else {
        InsertKeepsTies(init, x, key, k);
        assert r[..|r| - 1] == InsertStable(init, x, key);
      }
    }
  }

  /** Ties keep the order of the list. */
  lemma {:induction false} SortKeepsTies<T>(xs: seq<T>, key: T -> int, k: int)
    ensures At(StableSort(xs, key), key, k) == At(xs, key, k)
  {
    if xs != [] {
      SortKeepsTies(xs[..|xs| - 1], key, k);
      SortAscending(xs[..|xs| - 1], key);
      InsertKeepsTies(StableSort(xs[..|xs| - 1], key), xs[|xs| - 1], key, k);
    }
  }

  /** A stable sort: ascending, and what ties stands in the order of the list. */
  ghost predicate Stable<T>(xs: seq<T>, sorted: seq<T>, key: T -> int) {
    SomeSort(xs, sorted, key) && forall k :: At(sorted, key, k) == At(xs, key, k)
  }

  lemma StableSorted<T>(xs: seq<T>, key: T -> int)
    ensures Stable(xs, StableSort(xs, key), key)
  {
    SortAscending(xs, key);
    forall k ensures At(StableSort(xs, key), key, k) == At(xs, key, k) { SortKeepsTies(xs, key, k); }
  }

  lemma {:induction false} AtKeys<T>(xs: seq<T>, key: T -> int, k: int)
    ensures forall x :: x in At(xs, key, k) ==> x in xs && key(x) == k
  {
    if xs != [] { AtKeys(xs[..|xs| - 1], key, k); }
  }

  lemma LastGreatest<T>(xs: seq<T>, ys: seq<T>, key: T -> int)
    requires xs != [] && Ascending(ys, key)
    requires forall k :: At(xs, key, k) == At(ys, key, k)
    ensures ys != [] && key(xs[|xs| - 1]) <= key(ys[|ys| - 1])
  {
    var k := key(xs[|xs| - 1]);
    AtKeys(ys, key, k);
    assert xs[|xs| - 1] in At(xs, key, k);
    assert xs[|xs| - 1] in ys;
  }

  /** There is one stable sort. */
  lemma {:induction false} StableUnique<T>(xs: seq<T>, ys: seq<T>, key: T -> int)
    requires Ascending(xs, key) && Ascending(ys, key) && forall k :: At(xs, key, k) == At(ys, key, k)
    ensures xs == ys
  {
    if xs == [] {
      if ys != [] { LastGreatest(ys, xs, key); }
    } else {
      LastGreatest(xs, ys, key);
      LastGreatest(ys, xs, key);
      var a, b, k := xs[..|xs| - 1], ys[..|ys| - 1], key(xs[|xs| - 1]);
      assert At(xs, key, k) == At(a, key, k) + [xs[|xs| - 1]] && At(ys, key, k) == At(b, key, k) + [ys[|ys| - 1]];
      SameEnds(At(a, key, k), xs[|xs| - 1], At(b, key, k), ys[|ys| - 1]);
      forall j ensures At(a, key, j) == At(b, key, j) { assert At(xs, key, j) == At(ys, key, j); }
      StableUnique(a, b, key);
      assert xs == a + [xs[|xs| - 1]] && ys == b + [ys[|ys| - 1]];
    }
  }

  lemma SameEnds<T>(a: seq<T>, x: T, b: seq<T>, y: T)
    requires a + [x] == b + [y]
    ensures a == b && x == y
  {
    assert |a + [x]| == |b + [y]|;
    assert (a + [x])[..|a|] == a && (b + [y])[..|b|] == b && (a + [x])[|a|] == x && (b + [y])[|b|] == y;
  }

  // ---------------------------------------------------------------- permutations

  lemma SameKeys<T>(xs: seq<T>, ys: seq<T>, key: T -> int)
    requires Ascending(xs, key) && |xs| == |ys| && forall i :: 0 <= i < |xs| ==> key(ys[i]) == key(xs[i])
    ensures Ascending(ys, key)
  {
  }

  lemma TakenOut<T>(init: seq<T>, a: seq<T>, x: T, b: seq<T>)
    requires multiset(init + [x]) == multiset(a + [x] + b)
    ensures multiset(init) == multiset(a + b)
  {
    assert multiset(init) == multiset(init + [x]) - multiset{x};
    assert multiset(a + b) == multiset(a + [x] + b) - multiset{x};
  }

  lemma AscendingWithout<T>(a: seq<T>, x: T, b: seq<T>, key: T -> int)
    requires Ascending(a + [x] + b, key)
    ensures Ascending(a + b, key)
  {
    assert forall i :: 0 <= i < |a + b| ==> (a + b)[i] == (a + [x] + b)[if i < |a| then i else i + 1];
  }

  lemma SameMembers<T>(xs: seq<T>, ys: seq<T>)
    requires multiset(xs) == multiset(ys)
    ensures |xs| == |ys| && forall x :: x in xs <==> x in ys
  {
    assert |multiset(xs)| == |multiset(ys)|;
    assert forall x :: x in xs <==> x in multiset(xs);
    assert forall x :: x in ys <==> x in multiset(ys);
  }

  lemma CountTwo<T>(xs: seq<T>, i: nat, j: nat)
    requires i < j < |xs| && xs[i] == xs[j]
    ensures multiset(xs)[xs[i]] >= 2
  {
    assert xs == xs[..j] + [xs[j]] + xs[j + 1..];
    assert xs[..j][i] in multiset(xs[..j]);
  }

  lemma AnotherPlace<T>(xs: seq<T>, p: nat) returns (q: nat)
    requires p < |xs| && multiset(xs)[xs[p]] >= 2
    ensures q < |xs| && q != p && xs[q] == xs[p]
  {
    assert xs == xs[..p] + [xs[p]] + xs[p + 1..];
    if xs[p] in xs[..p] {
      q :| 0 <= q < p && xs[..p][q] == xs[p];
    } else {
      assert xs[p] in xs[p + 1..];
      var k :| 0 <= k < |xs| - p - 1 && xs[p + 1..][k] == xs[p];
      q := p + 1 + k;
    }
  }

  /** Two places of a sequence have two counterparts in any permutation of it. */
  lemma Counterparts<T>(xs: seq<T>, ys: seq<T>, i: nat, j: nat) returns (p: nat, q: nat)
    requires multiset(xs) == multiset(ys) && i < j < |xs|
    ensures p < |ys| && q < |ys| && p != q && ys[p] == xs[i] && ys[q] == xs[j]
  {
    SameMembers(xs, ys);
    assert xs[i] in ys && xs[j] in ys;
    p :| 0 <= p < |ys| && ys[p] == xs[i];
    if xs[i] == xs[j] {
      CountTwo(xs, i, j);
      q := AnotherPlace(ys, p);
    } else {
      q :| 0 <= q < |ys| && ys[q] == xs[j];
    }
  }

  lemma DistinctPermuted<T>(xs: seq<T>, ys: seq<T>, key: T -> int)
    requires multiset(xs) == multiset(ys) && DistinctKeys(xs, key)
    ensures DistinctKeys(ys, key)
  {
    forall i, j | 0 <= i < j < |ys| ensures key(ys[i]) != key(ys[j]) {
      var p, q := Counterparts(ys, xs, i, j);
      assert p < q || q < p;
    }
  }

  /** With distinct keys every sort is strict. */
  lemma SortStrict<T>(xs: seq<T>, sorted: seq<T>, key: T -> int)
    requires SomeSort(xs, sorted, key) && DistinctKeys(xs, key)
    ensures Strict(sorted, key)
  {
    DistinctPermuted(xs, sorted, key);
  }

  lemma SomeMember<T>(xs: seq<T>)
    ensures xs == [] || xs[0] in xs
  {
  }

  /** A strictly sorted sequence is determined by its elements. */
  lemma {:induction false} StrictUnique<T>(xs: seq<T>, ys: seq<T>, key: T -> int)
    requires Strict(xs, key) && Strict(ys, key)
    requires forall a :: a in xs <==> a in ys
    ensures xs == ys
  {
    if xs == [] {
      SomeMember(ys);
    } else {
      assert xs[0] in xs;
      var i :| 0 <= i < |ys| && ys[i] == xs[0];
      assert ys[0] in ys;
      var j :| 0 <= j < |xs| && xs[j] == ys[0];
      assert xs[0] == ys[0];
      forall a ensures a in xs[1..] <==> a in ys[1..] {
        if a in xs[1..] { assert a in ys && a != ys[0]; }
        if a in ys[1..] { assert a in xs && a != xs[0]; }
      }
      StrictUnique(xs[1..], ys[1..], key);
      assert xs == [xs[0]] + xs[1..] && ys == [ys[0]] + ys[1..];
    }
  }
}
