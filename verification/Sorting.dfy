/**
 Python's string order (by code point) and its stable `sorted`, over key/value
 pairs.  Every deterministic ordering in the exporter is an instance: object
 members by name, rows by sort key, archive members by path.
 */
module Sorting {

  datatype KV<T> = KV(key: string, val: T)

  // ---------- string order ----------

  predicate StrLe(a: string, b: string) {
    || a == []
    || (b != [] && (a[0] < b[0] || (a[0] == b[0] && StrLe(a[1..], b[1..]))))
  }

  lemma StrLeRefl(a: string)
    ensures StrLe(a, a)
  {}

  lemma {:induction false} StrLeTotal(a: string, b: string)
    ensures StrLe(a, b) || StrLe(b, a)
  {
    if a != [] && b != [] && a[0] == b[0] {
      StrLeTotal(a[1..], b[1..]);
    }
  }

  lemma {:induction false} StrLeTrans(a: string, b: string, c: string)
    requires StrLe(a, b) && StrLe(b, c)
    ensures StrLe(a, c)
  {
    if a != [] && a[0] == b[0] == c[0] {
      StrLeTrans(a[1..], b[1..], c[1..]);
    }
  }

  lemma {:induction false} StrLeAntisym(a: string, b: string)
    requires StrLe(a, b) && StrLe(b, a)
    ensures a == b
  {
    if a != [] {
      StrLeAntisym(a[1..], b[1..]);
      assert a == [a[0]] + a[1..] && b == [b[0]] + b[1..];
    }
  }

  // ---------- stable sort by key ----------

  /** Places x in front of the first entry whose key is not smaller. */
  function Insert<T>(x: KV<T>, xs: seq<KV<T>>): seq<KV<T>> {
    if xs == [] || StrLe(x.key, xs[0].key) then [x] + xs
    else [xs[0]] + Insert(x, xs[1..])
  }

  /** `sorted(xs, key=...)`: insertion from the right keeps equal keys in order. */
  function Sort<T>(xs: seq<KV<T>>): seq<KV<T>> {
    if xs == [] then [] else Insert(xs[0], Sort(xs[1..]))
  }

  ghost predicate Sorted<T>(xs: seq<KV<T>>) {
    forall i, j :: 0 <= i < j < |xs| ==> StrLe(xs[i].key, xs[j].key)
  }

  /** Entries with equal keys are equal entries, so order is decided by the keys. */
  ghost predicate KeyDetermined<T>(xs: seq<KV<T>>) {
    forall i, j :: 0 <= i < |xs| && 0 <= j < |xs| && xs[i].key == xs[j].key ==> xs[i] == xs[j]
  }

  ghost predicate DistinctKeys<T>(xs: seq<KV<T>>) {
    forall i, j :: 0 <= i < j < |xs| ==> xs[i].key != xs[j].key
  }

  lemma {:induction false} InsertIsPermutation<T>(x: KV<T>, xs: seq<KV<T>>)
    ensures multiset(Insert(x, xs)) == multiset([x] + xs)
    ensures forall y :: y in Insert(x, xs) ==> y == x || y in xs
  {
    if !(xs == [] || StrLe(x.key, xs[0].key)) {
      InsertIsPermutation(x, xs[1..]);
      assert xs == [xs[0]] + xs[1..];
    }
  }

  lemma {:induction false} SortIsPermutation<T>(xs: seq<KV<T>>)
    ensures multiset(Sort(xs)) == multiset(xs)
    ensures |Sort(xs)| == |xs|
    ensures (forall x :: x in Sort(xs) ==> x in xs) && (forall x :: x in xs ==> x in Sort(xs))
  {
    if xs != [] {
      SortIsPermutation(xs[1..]);
      InsertIsPermutation(xs[0], Sort(xs[1..]));
      assert xs == [xs[0]] + xs[1..];
    }
    SameMultiset(Sort(xs), xs);
  }

  lemma SameMultiset<T>(xs: seq<T>, ys: seq<T>)
    requires multiset(xs) == multiset(ys)
    ensures |xs| == |ys|
    ensures (forall x :: x in xs ==> x in ys) && (forall x :: x in ys ==> x in xs)
  {
    assert |xs| == |multiset(xs)| && |ys| == |multiset(ys)|;
    forall x ensures x in xs <==> x in ys {
      assert x in xs <==> x in multiset(xs);
      assert x in ys <==> x in multiset(ys);
    }
  }

  function RemoveAt<T>(xs: seq<T>, j: nat): seq<T>
    requires j < |xs|
  {
    xs[..j] + xs[j + 1..]
  }

  lemma RemoveAtMultiset<T>(xs: seq<T>, j: nat)
    requires j < |xs|
    ensures multiset(RemoveAt(xs, j)) == multiset(xs) - multiset{xs[j]}
  {
    assert xs == xs[..j] + [xs[j]] + xs[j + 1..];
  }

  lemma TailMultiset<T>(xs: seq<T>)
    requires xs != []
    ensures multiset(xs[1..]) == multiset(xs) - multiset{xs[0]}
  {
    assert xs == [xs[0]] + xs[1..];
  }

  function Map<A, B>(f: A -> B, xs: seq<A>): (r: seq<B>)
    ensures |r| == |xs|
    ensures forall i :: 0 <= i < |xs| ==> r[i] == f(xs[i])
  {
    seq(|xs|, i requires 0 <= i < |xs| => f(xs[i]))
  }

  lemma MapRemoveAt<A, B>(f: A -> B, xs: seq<A>, j: nat)
    requires j < |xs|
    ensures multiset(Map(f, xs)) == multiset(Map(f, RemoveAt(xs, j))) + multiset{f(xs[j])}
  {
    assert RemoveAt(Map(f, xs), j) == Map(f, RemoveAt(xs, j));
    RemoveAtMultiset(Map(f, xs), j);
  }

  lemma {:induction false} MapPermutation<A, B>(f: A -> B, xs: seq<A>, ys: seq<A>)
    requires multiset(xs) == multiset(ys)
    ensures multiset(Map(f, xs)) == multiset(Map(f, ys))
  {
    SameMultiset(xs, ys);
    if xs != [] {
      assert xs[0] in ys;
      var j :| 0 <= j < |ys| && ys[j] == xs[0];
      RemoveAtMultiset(xs, 0);
      RemoveAtMultiset(ys, j);
      MapPermutation(f, RemoveAt(xs, 0), RemoveAt(ys, j));
      MapRemoveAt(f, xs, 0);
      MapRemoveAt(f, ys, j);
    }
  }

  function FlatMap<A, B>(f: A -> seq<B>, xs: seq<A>): seq<B> {
    if xs == [] then [] else f(xs[0]) + FlatMap(f, xs[1..])
  }

  lemma {:induction false} FlatMapAppend<A, B>(f: A -> seq<B>, xs: seq<A>, ys: seq<A>)
    ensures FlatMap(f, xs + ys) == FlatMap(f, xs) + FlatMap(f, ys)
  {
    if xs == [] {
      assert xs + ys == ys;
    } else {
      assert (xs + ys)[1..] == xs[1..] + ys;
      FlatMapAppend(f, xs[1..], ys);
    }
  }

  lemma FlatMapSnoc<A, B>(f: A -> seq<B>, xs: seq<A>)
    requires xs != []
    ensures FlatMap(f, xs) == FlatMap(f, xs[..|xs| - 1]) + f(xs[|xs| - 1])
  {
    var n := |xs| - 1;
    var last := [xs[n]];
    assert xs == xs[..n] + last;
    FlatMapAppend(f, xs[..n], last);
    assert last[1..] == [];
  }

  lemma FlatMapRemoveAt<A, B>(f: A -> seq<B>, xs: seq<A>, j: nat)
    requires j < |xs|
    ensures multiset(FlatMap(f, xs)) == multiset(FlatMap(f, RemoveAt(xs, j))) + multiset(f(xs[j]))
  {
    FlatMapAppend(f, xs[..j], xs[j..]);
    assert xs == xs[..j] + xs[j..];
    assert xs[j..][1..] == xs[j + 1..];
    FlatMapAppend(f, xs[..j], xs[j + 1..]);
  }

  lemma {:induction false} FlatMapPermutation<A, B>(f: A -> seq<B>, xs: seq<A>, ys: seq<A>)
    requires multiset(xs) == multiset(ys)
    ensures multiset(FlatMap(f, xs)) == multiset(FlatMap(f, ys))
  {
    SameMultiset(xs, ys);
    if xs != [] {
      assert xs[0] in ys;
      var j :| 0 <= j < |ys| && ys[j] == xs[0];
      RemoveAtMultiset(xs, 0);
      RemoveAtMultiset(ys, j);
      FlatMapPermutation(f, RemoveAt(xs, 0), RemoveAt(ys, j));
      FlatMapRemoveAt(f, xs, 0);
      FlatMapRemoveAt(f, ys, j);
    }
  }

  lemma {:induction false} InsertSorted<T>(x: KV<T>, xs: seq<KV<T>>)
    requires Sorted(xs)
    ensures Sorted(Insert(x, xs))
  {
    if xs == [] {
    } else if StrLe(x.key, xs[0].key) {
      forall i | 0 <= i < |xs| ensures StrLe(x.key, xs[i].key) {
        if i > 0 { StrLeTrans(x.key, xs[0].key, xs[i].key); }
      }
    } else {
      StrLeTotal(x.key, xs[0].key);
      InsertSorted(x, xs[1..]);
      InsertIsPermutation(x, xs[1..]);
      forall y | y in Insert(x, xs[1..]) ensures StrLe(xs[0].key, y.key) {
        if y != x { assert y in xs[1..]; }
      }
    }
  }

  lemma {:induction false} SortSorts<T>(xs: seq<KV<T>>)
    ensures Sorted(Sort(xs))
  {
    if xs != [] {
      SortSorts(xs[1..]);
      InsertSorted(xs[0], Sort(xs[1..]));
    }
  }

  /** Sorting leaves a sorted sequence alone, ties included. */
  lemma {:induction false} SortFixesSorted<T>(xs: seq<KV<T>>)
    requires Sorted(xs)
    ensures Sort(xs) == xs
  {
    if xs != [] {
      SortFixesSorted(xs[1..]);
      assert xs == [xs[0]] + xs[1..];
      if |xs| > 1 { assert StrLe(xs[0].key, xs[1].key); }
    }
  }

  lemma HeadIsLeast<T>(xs: seq<KV<T>>, y: KV<T>)
    requires Sorted(xs) && y in xs
    ensures StrLe(xs[0].key, y.key)
  {
    var i :| 0 <= i < |xs| && xs[i] == y;
    if i == 0 { StrLeRefl(y.key); }
  }

  lemma LeastHeadsAgree<T>(xs: seq<KV<T>>, ys: seq<KV<T>>)
    requires xs != [] && ys != [] && Sorted(xs) && Sorted(ys) && KeyDetermined(xs)
    requires ys[0] in xs && xs[0] in ys
    ensures xs[0] == ys[0]
  {
    HeadIsLeast(xs, ys[0]);
    HeadIsLeast(ys, xs[0]);
    StrLeAntisym(xs[0].key, ys[0].key);
    var i :| 0 <= i < |xs| && xs[i] == ys[0];
  }

  lemma SameTails<T>(xs: seq<T>, ys: seq<T>)
    requires xs != [] && ys != [] && xs[0] == ys[0] && multiset(xs) == multiset(ys)
    ensures multiset(xs[1..]) == multiset(ys[1..])
  {
    TailMultiset(xs);
    TailMultiset(ys);
  }

  lemma SortedTail<T>(xs: seq<KV<T>>)
    requires xs != [] && Sorted(xs)
    ensures Sorted(xs[1..]) && (KeyDetermined(xs) ==> KeyDetermined(xs[1..]))
  {}

  /** Two sorted permutations of one another agree when keys decide the entries. */
  lemma {:induction false} SortedUnique<T>(xs: seq<KV<T>>, ys: seq<KV<T>>)
    requires Sorted(xs) && Sorted(ys) && KeyDetermined(xs)
    requires multiset(xs) == multiset(ys)
    ensures xs == ys
  {
    if xs == [] {
      assert ys == [] by { SameMultiset(xs, ys); }
    } else {
      assert ys != [] && ys[0] in xs && xs[0] in ys by { SameMultiset(xs, ys); }
      LeastHeadsAgree(xs, ys);
      SameTails(xs, ys);
      SortedTail(xs);
      SortedTail(ys);
      SortedUnique(xs[1..], ys[1..]);
      assert xs == [xs[0]] + xs[1..] && ys == [ys[0]] + ys[1..];
    }
  }

  lemma KeyDeterminedPermutes<T>(xs: seq<KV<T>>, ys: seq<KV<T>>)
    requires KeyDetermined(xs) && multiset(xs) == multiset(ys)
    ensures KeyDetermined(ys)
  {
    SameMultiset(xs, ys);
    forall i, j | 0 <= i < |ys| && 0 <= j < |ys| && ys[i].key == ys[j].key ensures ys[i] == ys[j] {
      assert ys[i] in xs && ys[j] in xs;
    }
  }

  /** The order in which the entries arrive does not matter. */
  lemma SortOrderIndependent<T>(xs: seq<KV<T>>, ys: seq<KV<T>>)
    requires KeyDetermined(xs) && multiset(xs) == multiset(ys)
    ensures Sort(xs) == Sort(ys)
  {
    SortIsPermutation(xs);
    SortIsPermutation(ys);
    SortSorts(xs);
    SortSorts(ys);
    KeyDeterminedPermutes(xs, Sort(xs));
    SortedUnique(Sort(xs), Sort(ys));
  }

  lemma {:induction false} InsertDistinct<T>(x: KV<T>, xs: seq<KV<T>>)
    requires DistinctKeys(xs) && forall i :: 0 <= i < |xs| ==> xs[i].key != x.key
    ensures DistinctKeys(Insert(x, xs))
  {
    if !(xs == [] || StrLe(x.key, xs[0].key)) {
      InsertDistinct(x, xs[1..]);
      InsertIsPermutation(x, xs[1..]);
      forall y | y in Insert(x, xs[1..]) ensures y.key != xs[0].key {
        if y != x { assert y in xs[1..]; }
      }
    }
  }

  lemma {:induction false} SortDistinct<T>(xs: seq<KV<T>>)
    requires DistinctKeys(xs)
    ensures DistinctKeys(Sort(xs))
  {
    if xs != [] {
      SortDistinct(xs[1..]);
      SortIsPermutation(xs[1..]);
      forall i | 0 <= i < |Sort(xs[1..])| ensures Sort(xs[1..])[i].key != xs[0].key {
        assert Sort(xs[1..])[i] in xs[1..];
      }
      InsertDistinct(xs[0], Sort(xs[1..]));
    }
  }

  lemma DistinctAppend<T>(xs: seq<KV<T>>, ys: seq<KV<T>>)
    requires DistinctKeys(xs) && DistinctKeys(ys)
    requires forall i, j :: 0 <= i < |xs| && 0 <= j < |ys| ==> xs[i].key != ys[j].key
    ensures DistinctKeys(xs + ys)
  {
    var zs := xs + ys;
    forall i, j | 0 <= i < j < |zs| ensures zs[i].key != zs[j].key {
      if i < |xs| <= j { assert zs[j] == ys[j - |xs|]; }
    }
  }

  lemma SortSwapsPair<T>(x: KV<T>, y: KV<T>)
    requires !StrLe(x.key, y.key)
    ensures Sort([x, y]) == [y, x]
  {
    var xs := [x, y];
    assert xs[1..] == [y] && [y][1..] == [];
    assert Sort([y]) == [y];
    assert [y][1..] == [] && Insert(x, [y]) == [y] + Insert(x, []);
    assert Insert(x, []) == [x];
  }

  lemma DistinctPermutes<T>(xs: seq<KV<T>>, ys: seq<KV<T>>)
    requires DistinctKeys(xs) && multiset(xs) == multiset(ys)
    ensures DistinctKeys(ys)
  {
    SameMultiset(xs, ys);
    forall i, j | 0 <= i < j < |ys| ensures ys[i].key != ys[j].key {
      assert ys[i] in xs;
      var k :| 0 <= k < |xs| && xs[k] == ys[i];
      OthersStay(xs, ys, k, i, j);
      KeyRemoved(xs, k, ys[j]);
    }
  }

  lemma OthersStay<T>(xs: seq<T>, ys: seq<T>, k: nat, i: nat, j: nat)
    requires multiset(xs) == multiset(ys) && k < |xs| && i < j < |ys| && xs[k] == ys[i]
    ensures ys[j] in RemoveAt(xs, k)
  {
    RemoveAtMultiset(xs, k);
    RemoveAtMultiset(ys, i);
    assert RemoveAt(ys, i)[j - 1] == ys[j];
    assert ys[j] in multiset(RemoveAt(ys, i));
  }

  lemma KeyRemoved<T>(xs: seq<KV<T>>, k: nat, y: KV<T>)
    requires DistinctKeys(xs) && k < |xs| && y in RemoveAt(xs, k)
    ensures y.key != xs[k].key
  {
    var m :| 0 <= m < |RemoveAt(xs, k)| && RemoveAt(xs, k)[m] == y;
    assert y == if m < k then xs[m] else xs[m + 1];
  }

  // ---------- sorting and mapping the values ----------

  function MapVal<T, U>(f: T -> U, xs: seq<KV<T>>): (r: seq<KV<U>>)
    ensures |r| == |xs|
    ensures forall i :: 0 <= i < |xs| ==> r[i] == KV(xs[i].key, f(xs[i].val))
  {
    seq(|xs|, i requires 0 <= i < |xs| => KV(xs[i].key, f(xs[i].val)))
  }

  lemma {:induction false} InsertMapVal<T, U>(f: T -> U, x: KV<T>, xs: seq<KV<T>>)
    ensures MapVal(f, Insert(x, xs)) == Insert(KV(x.key, f(x.val)), MapVal(f, xs))
  {
    if xs == [] || StrLe(x.key, xs[0].key) {
      assert MapVal(f, [x] + xs) == [KV(x.key, f(x.val))] + MapVal(f, xs);
    } else {
      InsertMapVal(f, x, xs[1..]);
      assert MapVal(f, xs)[1..] == MapVal(f, xs[1..]);
      assert MapVal(f, [xs[0]] + Insert(x, xs[1..])) == [MapVal(f, xs)[0]] + MapVal(f, Insert(x, xs[1..]));
    }
  }

  /** Only the keys drive the sort, so it commutes with any change of values. */
  lemma {:induction false} SortMapVal<T, U>(f: T -> U, xs: seq<KV<T>>)
    ensures MapVal(f, Sort(xs)) == Sort(MapVal(f, xs))
  {
    if xs != [] {
      SortMapVal(f, xs[1..]);
      InsertMapVal(f, xs[0], Sort(xs[1..]));
      assert MapVal(f, xs)[1..] == MapVal(f, xs[1..]);
    }
  }
}
