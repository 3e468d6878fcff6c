/** Lists as the runtime's arrays, sets and maps order them. */
module Lists {
  import opened Text

  function Map<T, U>(f: T -> U, xs: seq<T>): (ys: seq<U>)
    ensures |ys| == |xs| && forall i :: 0 <= i < |xs| ==> ys[i] == f(xs[i])
  {
    seq(|xs|, i requires 0 <= i < |xs| => f(xs[i]))
  }

  lemma MapCons<T, U>(f: T -> U, x: T, xs: seq<T>)
    ensures Map(f, [x] + xs) == [f(x)] + Map(f, xs)
  {}

  function Concat<T>(xss: seq<seq<T>>): seq<T> {
    if xss == [] then [] else xss[0] + Concat(xss[1..])
  }

  lemma {:induction false} ConcatPush<T>(xss: seq<seq<T>>, last: seq<T>)
    ensures Concat(xss + [last]) == Concat(xss) + last
  {
    if xss == [] {
      assert xss + [last] == [last] && Concat([last]) == last + Concat<T>([]);
    } else {
      assert (xss + [last])[1..] == xss[1..] + [last];
      ConcatPush(xss[1..], last);
    }
  }

  lemma {:induction false} ConcatSplits<T>(xss: seq<seq<T>>, k: nat)
    requires k <= |xss|
    ensures Concat(xss) == Concat(xss[..k]) + Concat(xss[k..])
  {
    if k == 0 {
      assert xss[0..] == xss && xss[..0] == [];
    } else {
      assert xss[..k][0] == xss[0] && xss[..k][1..] == xss[1..][..k - 1] && xss[1..][k - 1..] == xss[k..];
      ConcatSplits(xss[1..], k - 1);
    }
  }

  function Filter<T(!new)>(p: T -> bool, xs: seq<T>): (ys: seq<T>)
    ensures forall x :: x in ys <==> x in xs && p(x)
  {
    if xs == [] then [] else (if p(xs[0]) then [xs[0]] else []) + Filter(p, xs[1..])
  }

  // ----- First occurrences -----

  /** `seen`, and after it the elements of `xs` where they first occur. */
  function DistinctOnto<T(==)>(seen: seq<T>, xs: seq<T>): (ys: seq<T>)
    decreases |xs|
  {
    if xs == [] then seen
    else if xs[0] in seen then DistinctOnto(seen, xs[1..])
    else DistinctOnto(seen + [xs[0]], xs[1..])
  }

  /** The elements of a runtime Set made from `xs`, in its order. */
  function Distinct<T(==)>(xs: seq<T>): seq<T> { DistinctOnto([], xs) }

  lemma {:induction false} DistinctKeeps<T>(seen: seq<T>, xs: seq<T>)
    requires NoDuplicates(seen)
    ensures NoDuplicates(DistinctOnto(seen, xs))
    ensures forall x :: x in DistinctOnto(seen, xs) <==> x in seen || x in xs
    decreases |xs|
  {
    if xs != [] {
      assert xs == [xs[0]] + xs[1..];
      DistinctKeeps(if xs[0] in seen then seen else seen + [xs[0]], xs[1..]);
    }
  }

  lemma {:induction false} DistinctConcat<T>(seen: seq<T>, xs: seq<T>, ys: seq<T>)
    ensures DistinctOnto(seen, xs + ys) == DistinctOnto(DistinctOnto(seen, xs), ys)
    decreases |xs|
  {
    if xs == [] {
      assert xs + ys == ys;
    } else {
      assert (xs + ys)[0] == xs[0] && (xs + ys)[1..] == xs[1..] + ys;
      DistinctConcat(if xs[0] in seen then seen else seen + [xs[0]], xs[1..], ys);
    }
  }

  lemma {:induction false} DistinctOntoGrows<T>(seen: seq<T>, xs: seq<T>)
    ensures seen <= DistinctOnto(seen, xs)
    decreases |xs|
  {
    if xs != [] { DistinctOntoGrows(if xs[0] in seen then seen else seen + [xs[0]], xs[1..]); }
  }

  lemma DistinctPush<T>(xs: seq<T>, x: T)
    ensures Distinct(xs + [x]) == if x in Distinct(xs) then Distinct(xs) else Distinct(xs) + [x]
  {
    DistinctConcat([], xs, [x]);
  }

  /** New and distinct elements are all kept. */
  lemma {:induction false} DistinctAppends<T>(seen: seq<T>, xs: seq<T>)
    requires NoDuplicates(seen + xs)
    ensures DistinctOnto(seen, xs) == seen + xs
    decreases |xs|
  {
    if xs == [] {
      EmptyConcat(seen);
    } else {
      assert (seen + xs)[|seen|] == xs[0];
      assert xs[0] !in seen by {
        forall i | 0 <= i < |seen| ensures seen[i] != xs[0] { assert (seen + xs)[i] == seen[i]; }
      }
      assert seen + xs == (seen + [xs[0]]) + xs[1..];
      DistinctAppends(seen + [xs[0]], xs[1..]);
    }
  }

  /** A list without duplicates has as many elements as the set of them. */
  lemma {:induction false} SetSize<T>(xs: seq<T>)
    requires NoDuplicates(xs)
    ensures |set x | x in xs| == |xs|
  {
    if xs != [] {
      assert xs == [xs[0]] + xs[1..];
      SetSize(xs[1..]);
      assert (set x | x in xs) == (set x | x in xs[1..]) + {xs[0]};
    }
  }

  lemma SubsetSize<T>(small: set<T>, large: set<T>)
    requires small <= large
    ensures |small| <= |large|
  {
    assert large == small + (large - small);
  }

  lemma {:induction false} SetAtMost<T>(xs: seq<T>)
    ensures |set x | x in xs| <= |xs|
  {
    if xs != [] {
      assert xs == [xs[0]] + xs[1..];
      SetAtMost(xs[1..]);
      assert (set x | x in xs) == (set x | x in xs[1..]) + {xs[0]};
    }
  }

  lemma SetSizeTells<T>(xs: seq<T>)
    ensures |set x | x in xs| == |xs| <==> NoDuplicates(xs)
  {
    if NoDuplicates(xs) {
      SetSize(xs);
    } else {
      var i, j :| 0 <= i < j < |xs| && xs[i] == xs[j];
      var rest := xs[..j] + xs[j + 1..];
      assert xs == xs[..j] + [xs[j]] + xs[j + 1..];
      assert rest[i] == xs[j];
      assert (set x | x in xs) == (set x | x in rest);
      SetAtMost(rest);
    }
  }

  lemma ListedOnce<T(!new)>(members: set<T>, listed: seq<T>)
    requires NoDuplicates(listed) && forall x :: x in members <==> x in listed
    ensures |members| == |listed|
  {
    SetSizeTells(listed);
    assert members == set x | x in listed;
  }

  // ----- Permutations -----

  predicate Permuted<T(==)>(a: seq<T>, b: seq<T>) { multiset(a) == multiset(b) }

  lemma PermutedHolds<T>(a: seq<T>, b: seq<T>)
    requires Permuted(a, b)
    ensures |a| == |b| && forall x :: x in a <==> x in b
  {
    assert |multiset(a)| == |a| && |multiset(b)| == |b|;
    assert forall x :: x in a <==> x in multiset(a);
    assert forall x :: x in b <==> x in multiset(b);
  }

  lemma FirstCounts<T>(a: seq<T>)
    requires a != []
    ensures multiset(a) == multiset{a[0]} + multiset(a[1..])
  {
    assert a == [a[0]] + a[1..];
  }

  lemma MiddleCounts<T>(b: seq<T>, i: nat)
    requires i < |b|
    ensures multiset(b) == multiset{b[i]} + multiset(b[..i] + b[i + 1..])
  {
    assert b == b[..i] + [b[i]] + b[i + 1..];
  }

  lemma Cancels<T>(x: T, a: multiset<T>, b: multiset<T>)
    requires multiset{x} + a == multiset{x} + b
    ensures a == b
  {
    assert (multiset{x} + a) - multiset{x} == a && (multiset{x} + b) - multiset{x} == b;
  }

  /** The first element of a list, found in a permutation of it, leaves a permutation of the rest. */
  lemma PermutedRest<T>(a: seq<T>, b: seq<T>) returns (i: nat)
    requires Permuted(a, b) && a != []
    ensures i < |b| && b[i] == a[0] && Permuted(a[1..], b[..i] + b[i + 1..])
  {
    PermutedHolds(a, b);
    assert a[0] in b;
    i :| 0 <= i < |b| && b[i] == a[0];
    assert a == [a[0]] + a[1..] && b == b[..i] + [b[i]] + b[i + 1..];
    FirstCounts(a);
    MiddleCounts(b, i);
    Cancels(a[0], multiset(a[1..]), multiset(b[..i] + b[i + 1..]));
  }

  lemma MapMiddle<T, U>(f: T -> U, b: seq<T>, i: nat)
    requires i < |b|
    ensures Map(f, b) == Map(f, b[..i]) + [f(b[i])] + Map(f, b[i + 1..])
    ensures Map(f, b[..i] + b[i + 1..]) == Map(f, b[..i]) + Map(f, b[i + 1..])
  {}

  lemma {:induction false} MapPermutes<T, U>(f: T -> U, a: seq<T>, b: seq<T>)
    requires Permuted(a, b)
    ensures Permuted(Map(f, a), Map(f, b))
    decreases |a|
  {
    PermutedHolds(a, b);
    if a != [] {
      var i := PermutedRest(a, b);
      MapPermutes(f, a[1..], b[..i] + b[i + 1..]);
      MapMiddle(f, b, i);
      assert a == [a[0]] + a[1..];
      MapCons(f, a[0], a[1..]);
    }
  }

  lemma {:induction false} NoDuplicatesByCount<T>(a: seq<T>)
    ensures NoDuplicates(a) <==> forall x :: x in a ==> multiset(a)[x] == 1
  {
    if a != [] {
      FirstCounts(a);
      NoDuplicatesByCount(a[1..]);
      assert a == [a[0]] + a[1..];
      assert multiset(a)[a[0]] == multiset(a[1..])[a[0]] + 1;
      if NoDuplicates(a) {
        assert a[0] !in a[1..];
        assert forall x :: x in a[1..] ==> multiset(a)[x] == multiset(a[1..])[x];
      }
      if forall x :: x in a ==> multiset(a)[x] == 1 {
        assert a[0] !in a[1..];
        assert forall x :: x in a[1..] ==> multiset(a)[x] == multiset(a[1..])[x];
        ConcatNoDuplicates([a[0]], a[1..]);
      }
    }
  }

  lemma DistinctPermutes<T>(a: seq<T>, b: seq<T>)
    requires Permuted(a, b)
    ensures NoDuplicates(a) <==> NoDuplicates(b)
  {
    NoDuplicatesByCount(a);
    NoDuplicatesByCount(b);
    PermutedHolds(a, b);
  }

  // ----- Sorting by path -----

  /** Buffer.compare(a, b) > 0 for the UTF-8 encodings, which keep the order of code points. */
  predicate After(a: string, b: string) {
    a != [] && (b == [] || a[0] > b[0] || (a[0] == b[0] && After(a[1..], b[1..])))
  }

  function InsertByPath<T>(path: T -> string, x: T, sorted: seq<T>): seq<T> {
    if sorted == [] then [x]
    else if After(path(x), path(sorted[0])) then [sorted[0]] + InsertByPath(path, x, sorted[1..])
    else [x] + sorted
  }

  /** The stable sort by path. */
  function SortByPath<T>(path: T -> string, xs: seq<T>): seq<T> {
    if xs == [] then [] else InsertByPath(path, xs[0], SortByPath(path, xs[1..]))
  }

  lemma {:induction false} InsertMaps<T, U>(path: T -> string, f: T -> U, path': U -> string, x: T, sorted: seq<T>)
    requires forall y :: path'(f(y)) == path(y)
    ensures Map(f, InsertByPath(path, x, sorted)) == InsertByPath(path', f(x), Map(f, sorted))
  {
    MapCons(f, x, sorted);
    if sorted != [] {
      assert sorted == [sorted[0]] + sorted[1..];
      MapCons(f, sorted[0], sorted[1..]);
      if After(path(x), path(sorted[0])) {
        InsertMaps(path, f, path', x, sorted[1..]);
        MapCons(f, sorted[0], InsertByPath(path, x, sorted[1..]));
      }
    }
  }

  /** Sorting and mapping may be exchanged when mapping keeps the path. */
  lemma {:induction false} SortMaps<T, U>(path: T -> string, f: T -> U, path': U -> string, xs: seq<T>)
    requires forall y :: path'(f(y)) == path(y)
    ensures Map(f, SortByPath(path, xs)) == SortByPath(path', Map(f, xs))
  {
    if xs != [] {
      assert xs == [xs[0]] + xs[1..];
      MapCons(f, xs[0], xs[1..]);
      SortMaps(path, f, path', xs[1..]);
      InsertMaps(path, f, path', xs[0], SortByPath(path, xs[1..]));
    }
  }

  lemma {:induction false} SortKeeps<T>(path: T -> string, xs: seq<T>)
    ensures |SortByPath(path, xs)| == |xs| && forall x :: x in SortByPath(path, xs) <==> x in xs
  {
    if xs != [] {
      assert xs == [xs[0]] + xs[1..];
      SortKeeps(path, xs[1..]);
      InsertKeeps(path, xs[0], SortByPath(path, xs[1..]));
    }
  }

  lemma {:induction false} InsertKeeps<T>(path: T -> string, x: T, sorted: seq<T>)
    ensures |InsertByPath(path, x, sorted)| == |sorted| + 1
    ensures forall y :: y in InsertByPath(path, x, sorted) <==> y == x || y in sorted
  {
    if sorted != [] && After(path(x), path(sorted[0])) {
      assert sorted == [sorted[0]] + sorted[1..];
      InsertKeeps(path, x, sorted[1..]);
    }
  }
}
