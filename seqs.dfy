/** Generic sequence operations that stand for the query-set operations the
    resolvers chain: `filter`, `first` and a descending `order_by` whose
    NULL keys sort last. */
module Seqs {
  import opened Records

  /** `qs.filter(p)`: the rows satisfying `p`, in their original order. */
  function Filter<T(==,!new)>(xs: seq<T>, p: T -> bool): (r: seq<T>)
    ensures |r| <= |xs|
    ensures forall x :: multiset(r)[x] == if p(x) then multiset(xs)[x] else 0
    ensures forall x :: x in r <==> x in xs && p(x)
  {
    if xs == [] then []
    else
      assert xs == [xs[0]] + xs[1..];
      (if p(xs[0]) then [xs[0]] else []) + Filter(xs[1..], p)
  }

  /** `qs.first()`: the earliest row satisfying `p`, if any. */
  function First<T(==)>(xs: seq<T>, p: T -> bool): (r: Option<T>)
    ensures r.None? <==> forall i :: 0 <= i < |xs| ==> !p(xs[i])
    ensures r.Some? ==> exists i :: 0 <= i < |xs| && xs[i] == r.value && p(xs[i])
                          && forall j :: 0 <= j < i ==> !p(xs[j])
  {
    if xs == [] then None
    else if p(xs[0]) then Some(xs[0])
    else
      var r := First(xs[1..], p);
      assert forall i :: 1 <= i < |xs| ==> xs[i] == xs[1..][i - 1];
      if r.Some? then
        var k :| 0 <= k < |xs[1..]| && xs[1..][k] == r.value && p(xs[1..][k])
                 && forall j :: 0 <= j < k ==> !p(xs[1..][j]);
        assert xs[k + 1] == r.value && forall j :: 0 <= j < k + 1 ==> !p(xs[j]);
        r
      else r
  }

  /** The order of `order_by(F(key).desc(nulls_last=True))`: a value key
      comes before a smaller one and before every NULL key. */
  predicate Precedes(a: Option<int>, b: Option<int>) {
    b.None? || (a.Some? && a.value >= b.value)
  }

  predicate SortedDesc<T>(xs: seq<T>, key: T -> Option<int>) {
    forall i, j :: 0 <= i < j < |xs| ==> Precedes(key(xs[i]), key(xs[j]))
  }

  /** Inserts `x` before the first element it precedes. */
  function Insert<T(==)>(x: T, xs: seq<T>, key: T -> Option<int>): (r: seq<T>)
    requires SortedDesc(xs, key)
    ensures multiset(r) == multiset(xs) + multiset{x}
    ensures SortedDesc(r, key)
  {
    if xs == [] then [x]
    else if Precedes(key(x), key(xs[0])) then
      assert forall j :: 0 <= j < |xs| ==> Precedes(key(xs[0]), key(xs[j]));
      [x] + xs
    else
      assert xs == [xs[0]] + xs[1..];
      var rest := Insert(x, xs[1..], key);
      assert forall k :: 0 <= k < |rest| ==> Precedes(key(xs[0]), key(rest[k])) by {
        forall k | 0 <= k < |rest| ensures Precedes(key(xs[0]), key(rest[k])) {
          assert rest[k] in multiset(rest);
          if rest[k] != x {
            assert rest[k] in multiset(xs[1..]);
            var j :| 0 <= j < |xs[1..]| && xs[1..][j] == rest[k];
            assert xs[j + 1] == rest[k];
          }
        }
      }
      [xs[0]] + rest
  }

  /** A stable insertion sort into the order `Precedes` describes. */
  function SortDesc<T(==)>(xs: seq<T>, key: T -> Option<int>): (r: seq<T>)
    ensures multiset(r) == multiset(xs)
    ensures SortedDesc(r, key)
  {
    if xs == [] then []
    else
      assert xs == [xs[0]] + xs[1..];
      Insert(xs[0], SortDesc(xs[1..], key), key)
  }

  /** One column of each row, in row order. */
  function Project<T, U>(xs: seq<T>, f: T -> U): (r: seq<U>)
    ensures |r| == |xs|
    ensures forall i :: 0 <= i < |xs| ==> r[i] == f(xs[i])
  {
    seq(|xs|, i requires 0 <= i < |xs| => f(xs[i]))
  }

  lemma ProjectCons<T, U>(x: T, xs: seq<T>, f: T -> U)
    ensures Project([x] + xs, f) == [f(x)] + Project(xs, f)
  {
    var l, r := Project([x] + xs, f), [f(x)] + Project(xs, f);
    forall i | 0 <= i < |l| ensures l[i] == r[i] {
      if i > 0 {
        assert ([x] + xs)[i] == xs[i - 1];
      }
    }
  }

  /** Inserting a row adds its column value to the column's multiset. */
  lemma {:induction false} ProjectInsert<T, U>(x: T, xs: seq<T>, key: T -> Option<int>, f: T -> U)
    requires SortedDesc(xs, key)
    ensures multiset(Project(Insert(x, xs, key), f)) == multiset(Project(xs, f)) + multiset{f(x)}
  {
    if xs == [] {
      assert Insert(x, xs, key) == [x];
      ProjectCons(x, xs, f);
    } else if Precedes(key(x), key(xs[0])) {
      assert Insert(x, xs, key) == [x] + xs;
      ProjectCons(x, xs, f);
    } else {
      assert SortedDesc(xs[1..], key);
      var rest := Insert(x, xs[1..], key);
      assert Insert(x, xs, key) == [xs[0]] + rest;
      ProjectInsert(x, xs[1..], key, f);
      ProjectCons(xs[0], rest, f);
      assert xs == [xs[0]] + xs[1..];
      ProjectCons(xs[0], xs[1..], f);
    }
  }

  /** Sorting the rows permutes each of their columns. */
  lemma {:induction false} ProjectSortDesc<T, U>(xs: seq<T>, key: T -> Option<int>, f: T -> U)
    ensures multiset(Project(SortDesc(xs, key), f)) == multiset(Project(xs, f))
  {
    if xs != [] {
      ProjectSortDesc(xs[1..], key, f);
      ProjectInsert(xs[0], SortDesc(xs[1..], key), key, f);
      assert xs == [xs[0]] + xs[1..];
      ProjectCons(xs[0], xs[1..], f);
    }
  }

  /** Filtering rows already selected by `p` with `q` keeps, with their
      multiplicities, the rows of `xs` that pass both. */
  lemma FilterSelected<T(!new)>(xs: seq<T>, qs: seq<T>, p: T -> bool, q: T -> bool, both: T -> bool)
    requires forall x :: multiset(qs)[x] == if p(x) then multiset(xs)[x] else 0
    requires forall x :: both(x) == (p(x) && q(x))
    ensures multiset(Filter(qs, q)) == multiset(Filter(xs, both))
  {
    var a, b := multiset(Filter(qs, q)), multiset(Filter(xs, both));
    forall x ensures a[x] == b[x] {
    }
    assert a == b;
  }

  /** Filtering depends only on what the predicate says of each element. */
  lemma {:induction false} FilterExtensional<T(!new)>(xs: seq<T>, p: T -> bool, q: T -> bool)
    requires forall x :: x in xs ==> p(x) == q(x)
    ensures Filter(xs, p) == Filter(xs, q)
  {
    if xs != [] {
      assert xs[0] in xs;
      assert forall x :: x in xs[1..] ==> x in xs;
      FilterExtensional(xs[1..], p, q);
    }
  }

  lemma FilterCons<T(!new)>(x: T, xs: seq<T>, p: T -> bool)
    ensures Filter([x] + xs, p) == (if p(x) then [x] else []) + Filter(xs, p)
  {
    assert ([x] + xs)[0] == x && ([x] + xs)[1..] == xs;
  }

  /** Filtering a concatenation keeps as many elements as filtering each part. */
  lemma {:induction false} FilterConcatLength<T(!new)>(a: seq<T>, b: seq<T>, p: T -> bool)
    ensures |Filter(a + b, p)| == |Filter(a, p)| + |Filter(b, p)|
  {
    if a == [] {
      assert a + b == b;
    } else {
      FilterConcatLength(a[1..], b, p);
      SplitHead(a, b);
      FilterCons(a[0], a[1..] + b, p);
      FilterCons(a[0], a[1..], p);
    }
  }

  lemma SplitHead<T>(a: seq<T>, b: seq<T>)
    requires a != []
    ensures a + b == [a[0]] + (a[1..] + b)
    ensures a == [a[0]] + a[1..]
  {
  }

  /** A filter every element passes keeps the sequence as it is. */
  lemma {:induction false} FilterAll<T(!new)>(xs: seq<T>, p: T -> bool)
    requires forall x :: x in xs ==> p(x)
    ensures Filter(xs, p) == xs
  {
    if xs != [] {
      assert xs[0] in xs && p(xs[0]);
      assert forall x :: x in xs[1..] ==> x in xs;
      FilterAll(xs[1..], p);
      assert Filter(xs, p) == [xs[0]] + xs[1..];
    }
  }
}
