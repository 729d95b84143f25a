/** Stable sorting by an integer key: what `Array.prototype.sort`, `list.sort` and
    `ORDER BY` all promise, as one function with the facts that pin it down. */
module Sorting {

  /** `x` goes before every element whose key is not smaller than its own. */
  function Insert<T>(key: T -> int, x: T, xs: seq<T>): seq<T> {
    if xs == [] || key(x) <= key(xs[0]) then [x] + xs else [xs[0]] + Insert(key, x, xs[1..])
  }

  function SortBy<T>(key: T -> int, xs: seq<T>): seq<T> {
    if xs == [] then [] else Insert(key, xs[0], SortBy(key, xs[1..]))
  }

  ghost predicate Ordered<T>(key: T -> int, xs: seq<T>) {
    forall i, j | 0 <= i < j < |xs| :: key(xs[i]) <= key(xs[j])
  }

  /** No two elements share a key. */
  ghost predicate Distinct<T>(key: T -> int, xs: seq<T>) {
    forall i, j | 0 <= i < j < |xs| :: key(xs[i]) != key(xs[j])
  }

  ghost predicate Increasing<T>(key: T -> int, xs: seq<T>) {
    forall i, j | 0 <= i < j < |xs| :: key(xs[i]) < key(xs[j])
  }

  /** The elements satisfying `keep`, in their order. */
  function Filter<T>(keep: T -> bool, xs: seq<T>): seq<T> {
    if xs == [] then []
    else if keep(xs[0]) then [xs[0]] + Filter(keep, xs[1..])
    else Filter(keep, xs[1..])
  }

  lemma {:induction false} FilterAppend<T>(keep: T -> bool, xs: seq<T>, ys: seq<T>)
    ensures Filter(keep, xs + ys) == Filter(keep, xs) + Filter(keep, ys)
  {
    if xs == [] {
      assert xs + ys == ys;
    } else {
      FilterAppend(keep, xs[1..], ys);
      assert (xs + ys)[1..] == xs[1..] + ys;
    }
  }

  lemma {:induction false} FilterMembers<T>(keep: T -> bool, xs: seq<T>, x: T)
    ensures x in Filter(keep, xs) <==> x in xs && keep(x)
  {
    if xs != [] {
      FilterMembers(keep, xs[1..], x);
      assert xs == [xs[0]] + xs[1..];
    }
  }

  /** Filtering keeps the order. */
  lemma {:induction false} FilterInOrder<T>(keep: T -> bool, xs: seq<T>, i: nat, j: nat) returns (a: nat, b: nat)
    requires i < j < |Filter(keep, xs)|
    ensures a < b < |xs| && xs[a] == Filter(keep, xs)[i] && xs[b] == Filter(keep, xs)[j]
  {
    var rest := xs[1..];
    if !keep(xs[0]) {
      a, b := FilterInOrder(keep, rest, i, j);
      a, b := a + 1, b + 1;
    } else if i > 0 {
      a, b := FilterInOrder(keep, rest, i - 1, j - 1);
      a, b := a + 1, b + 1;
    } else {
      var y := Filter(keep, xs)[j];
      assert y == Filter(keep, rest)[j - 1];
      FilterMembers(keep, rest, y);
      var k :| 0 <= k < |rest| && rest[k] == y;
      a, b := 0, k + 1;
    }
  }

  lemma {:induction false} FilterAll<T>(keep: T -> bool, xs: seq<T>)
    requires forall x | x in xs :: keep(x)
    ensures Filter(keep, xs) == xs
  {
    if xs != [] {
      FilterAll(keep, xs[1..]);
    }
  }

  lemma {:induction false} FilterNone<T>(keep: T -> bool, xs: seq<T>)
    requires forall x | x in xs :: !keep(x)
    ensures Filter(keep, xs) == []
  {
    if xs != [] {
      FilterNone(keep, xs[1..]);
    }
  }

  lemma {:induction false} InsertMultiset<T>(key: T -> int, x: T, xs: seq<T>)
    ensures multiset(Insert(key, x, xs)) == multiset(xs) + multiset{x}
  {
    if xs != [] && key(x) > key(xs[0]) {
      InsertMultiset(key, x, xs[1..]);
      assert xs == [xs[0]] + xs[1..];
    }
  }

  lemma {:induction false} SortIsPermutation<T>(key: T -> int, xs: seq<T>)
    ensures multiset(SortBy(key, xs)) == multiset(xs)
  {
    if xs != [] {
      SortIsPermutation(key, xs[1..]);
      InsertMultiset(key, xs[0], SortBy(key, xs[1..]));
      assert xs == [xs[0]] + xs[1..];
    }
  }

  lemma SortMembers<T>(key: T -> int, xs: seq<T>)
    ensures |SortBy(key, xs)| == |xs|
    ensures forall x :: x in SortBy(key, xs) <==> x in xs
  {
    SortIsPermutation(key, xs);
    assert |multiset(SortBy(key, xs))| == |multiset(xs)|;
    forall x ensures x in SortBy(key, xs) <==> x in xs {
      assert x in SortBy(key, xs) <==> x in multiset(SortBy(key, xs));
      assert x in xs <==> x in multiset(xs);
    }
  }

  lemma {:induction false} InsertOrdered<T>(key: T -> int, x: T, xs: seq<T>)
    requires Ordered(key, xs)
    ensures Ordered(key, Insert(key, x, xs))
  {
    if xs != [] && key(x) > key(xs[0]) {
      InsertOrdered(key, x, xs[1..]);
      InsertMultiset(key, x, xs[1..]);
      var r := Insert(key, x, xs[1..]);
      forall y | y in r ensures key(xs[0]) <= key(y) {
        assert y in multiset(r);
        assert y == x || y in multiset(xs[1..]);
      }
    }
  }

  lemma {:induction false} SortOrders<T>(key: T -> int, xs: seq<T>)
    ensures Ordered(key, SortBy(key, xs))
  {
    if xs != [] {
      SortOrders(key, xs[1..]);
      InsertOrdered(key, xs[0], SortBy(key, xs[1..]));
    }
  }

  lemma {:induction false} SortOfOrdered<T>(key: T -> int, xs: seq<T>)
    requires Ordered(key, xs)
    ensures SortBy(key, xs) == xs
  {
    if xs != [] {
      SortOfOrdered(key, xs[1..]);
      if |xs| > 1 {
        assert key(xs[0]) <= key(xs[1]);
      }
    }
  }

  /** An order that already respects the key is the one sorting returns, and no other is. */
  lemma SortFixesExactlyOrdered<T>(key: T -> int, xs: seq<T>)
    ensures SortBy(key, xs) == xs <==> Ordered(key, xs)
  {
    SortOrders(key, xs);
    if Ordered(key, xs) {
      SortOfOrdered(key, xs);
    }
  }

  /** Without ties there is only one ordered arrangement of a collection. */
  lemma {:induction false} IncreasingIsUnique<T>(key: T -> int, xs: seq<T>, ys: seq<T>)
    requires Increasing(key, xs) && Increasing(key, ys)
    requires forall x :: x in xs <==> x in ys
    ensures xs == ys
  {
    assert ys == [] || ys[0] in xs;
    if xs != [] {
      assert xs[0] in ys;
      assert ys[0] in xs;
      assert xs[0] == ys[0];
      assert xs == [xs[0]] + xs[1..] && ys == [ys[0]] + ys[1..];
      assert xs[0] !in xs[1..] && ys[0] !in ys[1..];
      forall x ensures x in xs[1..] <==> x in ys[1..] {
        assert x in xs <==> x == xs[0] || x in xs[1..];
        assert x in ys <==> x == ys[0] || x in ys[1..];
      }
      IncreasingIsUnique(key, xs[1..], ys[1..]);
      assert xs == [xs[0]] + xs[1..] && ys == [ys[0]] + ys[1..];
    }
  }

  /** Sorting elements with distinct keys leaves no ties. */
  lemma SortDistinct<T>(key: T -> int, xs: seq<T>)
    requires Distinct(key, xs)
    ensures Increasing(key, SortBy(key, xs))
  {
    var r := SortBy(key, xs);
    SortOrders(key, xs);
    SortIsPermutation(key, xs);
    forall i, j | 0 <= i < j < |r| ensures key(r[i]) < key(r[j]) {
      if key(r[i]) == key(r[j]) {
        TwoAtOneKey(key, xs, r, i, j);
      }
    }
  }

  lemma TwoAtOneKey<T>(key: T -> int, xs: seq<T>, r: seq<T>, i: nat, j: nat)
    requires Distinct(key, xs) && multiset(r) == multiset(xs)
    requires i < j < |r|
    ensures key(r[i]) != key(r[j])
  {
    assert r[i] in multiset(r) && r[j] in multiset(r);
    assert r[i] in xs && r[j] in xs;
    if r[i] == r[j] {
      assert r == r[..j] + [r[j]] + r[j + 1..];
      assert r[i] in r[..j];
      assert multiset(r)[r[j]] >= 2;
      OnceEach(key, xs, r[j]);
    }
  }

  lemma {:induction false} OnceEach<T>(key: T -> int, xs: seq<T>, x: T)
    requires Distinct(key, xs)
    ensures multiset(xs)[x] <= 1
  {
    if xs != [] {
      OnceEach(key, xs[1..], x);
      assert xs == [xs[0]] + xs[1..];
      if xs[0] == x {
        assert forall y | y in xs[1..] :: key(y) != key(x);
        assert x !in xs[1..];
      }
    }
  }

  // ---------------------------------------------------------------- sorting, selecting and mapping

  lemma {:induction false} InsertThenFilter<T>(key: T -> int, keep: T -> bool, x: T, xs: seq<T>)
    requires Ordered(key, xs)
    ensures Filter(keep, Insert(key, x, xs)) ==
            if keep(x) then Insert(key, x, Filter(keep, xs)) else Filter(keep, xs)
  {
    if xs != [] && key(x) > key(xs[0]) {
      InsertThenFilter(key, keep, x, xs[1..]);
      var r := Insert(key, x, xs[1..]);
      assert ([xs[0]] + r)[1..] == r;
    } else {
      assert ([x] + xs)[1..] == xs;
      if keep(x) && Filter(keep, xs) != [] {
        FilterMembers(keep, xs, Filter(keep, xs)[0]);
      }
    }
  }

  /** Selecting rows and sorting them stably may be done in either order. */
  lemma {:induction false} SortThenFilter<T>(key: T -> int, keep: T -> bool, xs: seq<T>)
    ensures Filter(keep, SortBy(key, xs)) == SortBy(key, Filter(keep, xs))
  {
    if xs != [] {
      SortThenFilter(key, keep, xs[1..]);
      SortOrders(key, xs[1..]);
      InsertThenFilter(key, keep, xs[0], SortBy(key, xs[1..]));
      if keep(xs[0]) {
        assert ([xs[0]] + Filter(keep, xs[1..]))[1..] == Filter(keep, xs[1..]);
      }
    }
  }

  function Map<T, U>(f: T -> U, xs: seq<T>): (r: seq<U>)
    ensures |r| == |xs|
    ensures forall i | 0 <= i < |xs| :: r[i] == f(xs[i])
  {
    seq(|xs|, i requires 0 <= i < |xs| => f(xs[i]))
  }

  lemma {:induction false} InsertThenMap<T, U>(key: T -> int, key': U -> int, f: T -> U, x: T, xs: seq<T>)
    requires forall y :: key'(f(y)) == key(y)
    ensures Map(f, Insert(key, x, xs)) == Insert(key', f(x), Map(f, xs))
  {
    if xs != [] && key(x) > key(xs[0]) {
      InsertThenMap(key, key', f, x, xs[1..]);
      var r := Insert(key, x, xs[1..]);
      assert ([xs[0]] + r)[1..] == r;
      assert Map(f, xs)[1..] == Map(f, xs[1..]);
    } else {
      assert ([x] + xs)[1..] == xs;
    }
  }

  lemma {:induction false} SortThenMap<T, U>(key: T -> int, key': U -> int, f: T -> U, xs: seq<T>)
    requires forall y :: key'(f(y)) == key(y)
    ensures Map(f, SortBy(key, xs)) == SortBy(key', Map(f, xs))
  {
    if xs != [] {
      SortThenMap(key, key', f, xs[1..]);
      InsertThenMap(key, key', f, xs[0], SortBy(key, xs[1..]));
      assert Map(f, xs)[1..] == Map(f, xs[1..]);
    }
  }

  lemma {:induction false} MapMembers<T, U>(f: T -> U, xs: seq<T>, y: U)
    ensures y in Map(f, xs) <==> exists x :: x in xs && f(x) == y
  {
    var ys := Map(f, xs);
    if y in ys {
      var i :| 0 <= i < |ys| && ys[i] == y;
      assert xs[i] in xs && f(xs[i]) == y;
    }
    if x :| x in xs && f(x) == y {
      var i :| 0 <= i < |xs| && xs[i] == x;
      assert ys[i] == y;
    }
  }

  lemma MapSlice<T, U>(f: T -> U, xs: seq<T>, lo: nat, hi: nat)
    requires lo <= hi <= |xs|
    ensures Map(f, xs[lo..hi]) == Map(f, xs)[lo..hi]
  {
    var part, ys := Map(f, xs[lo..hi]), Map(f, xs);
    forall i | 0 <= i < hi - lo ensures part[i] == ys[lo + i] {
      assert xs[lo..hi][i] == xs[lo + i];
    }
  }

  lemma MapAll<T, U>(f: T -> U, ok: U -> bool, xs: seq<T>)
    ensures (forall y | y in Map(f, xs) :: ok(y)) <==> forall x | x in xs :: ok(f(x))
  {
    var ys := Map(f, xs);
    if forall y | y in ys :: ok(y) {
      forall x | x in xs ensures ok(f(x)) {
        MapMembers(f, xs, f(x));
      }
    }
  }

  // ---------------------------------------------------------------- unique keys

  /** A unique index: no two rows share a key. */
  predicate Unique<T, K(==)>(key: T -> K, rows: seq<T>) {
    forall i, j | 0 <= i < j < |rows| :: key(rows[i]) != key(rows[j])
  }

  lemma UniqueAppend<T, K>(key: T -> K, xs: seq<T>, ys: seq<T>)
    ensures Unique(key, xs + ys) <==>
            Unique(key, xs) && Unique(key, ys) && forall x, y | x in xs && y in ys :: key(x) != key(y)
  {
    var all := xs + ys;
    if Unique(key, all) {
      forall i, j | 0 <= i < j < |xs| ensures key(xs[i]) != key(xs[j]) {
        assert all[i] == xs[i] && all[j] == xs[j];
      }
      forall i, j | 0 <= i < j < |ys| ensures key(ys[i]) != key(ys[j]) {
        assert all[|xs| + i] == ys[i] && all[|xs| + j] == ys[j];
      }
      forall x, y | x in xs && y in ys ensures key(x) != key(y) {
        var i :| 0 <= i < |xs| && xs[i] == x;
        var j :| 0 <= j < |ys| && ys[j] == y;
        assert all[i] == x && all[|xs| + j] == y;
      }
    }
  }

  lemma UniqueMap<T, U, K, L>(f: T -> U, key: T -> K, key': U -> L, xs: seq<T>)
    requires forall x, y :: key(x) == key(y) <==> key'(f(x)) == key'(f(y))
    ensures Unique(key', Map(f, xs)) <==> Unique(key, xs)
  {
    var ys := Map(f, xs);
    if Unique(key', ys) {
      forall i, j | 0 <= i < j < |xs| ensures key(xs[i]) != key(xs[j]) {
        assert key'(ys[i]) != key'(ys[j]);
      }
    }
  }

  lemma {:induction false} FilterUnique<T, K>(key: T -> K, keep: T -> bool, xs: seq<T>)
    requires Unique(key, xs)
    ensures Unique(key, Filter(keep, xs))
  {
    if xs != [] {
      assert xs == [xs[0]] + xs[1..];
      UniqueAppend(key, [xs[0]], xs[1..]);
      FilterUnique(key, keep, xs[1..]);
      if keep(xs[0]) {
        UniqueAppend(key, [xs[0]], Filter(keep, xs[1..]));
        forall y | y in Filter(keep, xs[1..]) ensures y in xs[1..] {
          FilterMembers(keep, xs[1..], y);
        }
      }
    }
  }

  // ---------------------------------------------------------------- one element at a time

  lemma FilterGrows<T>(keep: T -> bool, xs: seq<T>, i: nat)
    requires i < |xs|
    ensures Filter(keep, xs[..i + 1]) == if keep(xs[i]) then Filter(keep, xs[..i]) + [xs[i]] else Filter(keep, xs[..i])
  {
    assert xs[..i + 1] == xs[..i] + [xs[i]];
    FilterAppend(keep, xs[..i], [xs[i]]);
    assert [xs[i]][1..] == [];
  }

  lemma MapGrows<T, U>(f: T -> U, xs: seq<T>, i: nat)
    requires i < |xs|
    ensures Map(f, xs[..i + 1]) == Map(f, xs[..i]) + [f(xs[i])]
  {
  }
}
