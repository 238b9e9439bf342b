/** Stable sorting by a comparison, duplicate removal in first-seen order, and the
    rounding fact behind the two rotation targets. */
module Ordering {
  import opened Util

  ghost predicate TotalPreorder<T(!new)>(le: (T, T) -> bool) {
    && (forall a, b :: le(a, b) || le(b, a))
    && (forall a, b, c :: le(a, b) && le(b, c) ==> le(a, c))
  }

  ghost predicate SortedBy<T>(xs: seq<T>, le: (T, T) -> bool) {
    forall i, j | 0 <= i < j < |xs| :: le(xs[i], xs[j])
  }

  ghost predicate NoDuplicates<T>(xs: seq<T>) {
    forall i, j | 0 <= i < j < |xs| :: xs[i] != xs[j]
  }

  /** `x` goes before the first element that is not smaller, so equals keep order. */
  function InsertBy<T>(x: T, xs: seq<T>, le: (T, T) -> bool): seq<T> {
    if xs == [] || le(x, xs[0]) then [x] + xs else [xs[0]] + InsertBy(x, xs[1..], le)
  }

  function SortBy<T>(xs: seq<T>, le: (T, T) -> bool): seq<T> {
    if xs == [] then [] else InsertBy(xs[0], SortBy(xs[1..], le), le)
  }

  lemma {:induction false} InsertPermutes<T>(x: T, xs: seq<T>, le: (T, T) -> bool)
    ensures multiset(InsertBy(x, xs, le)) == multiset(xs) + multiset{x}
    ensures |InsertBy(x, xs, le)| == |xs| + 1
  {
    if xs != [] {
      assert xs == [xs[0]] + xs[1..];
      if !le(x, xs[0]) {
        InsertPermutes(x, xs[1..], le);
      }
    }
  }

  lemma {:induction false} InsertSorts<T(!new)>(x: T, xs: seq<T>, le: (T, T) -> bool)
    requires TotalPreorder(le) && SortedBy(xs, le)
    ensures SortedBy(InsertBy(x, xs, le), le)
    ensures forall i | 0 <= i < |InsertBy(x, xs, le)| :: InsertBy(x, xs, le)[i] == x || InsertBy(x, xs, le)[i] in xs
  {
    if xs != [] && !le(x, xs[0]) {
      InsertSorts(x, xs[1..], le);
      var rest := InsertBy(x, xs[1..], le);
      forall i | 0 <= i < |rest| ensures le(xs[0], rest[i]) {
        assert rest[i] == x || rest[i] in xs[1..];
      }
    }
  }

  /** Sorting orders and permutes. */
  lemma {:induction false} SortIsSorted<T(!new)>(xs: seq<T>, le: (T, T) -> bool)
    requires TotalPreorder(le)
    ensures SortedBy(SortBy(xs, le), le)
    ensures multiset(SortBy(xs, le)) == multiset(xs)
    ensures |SortBy(xs, le)| == |xs|
  {
    if xs != [] {
      SortIsSorted(xs[1..], le);
      InsertSorts(xs[0], SortBy(xs[1..], le), le);
      InsertPermutes(xs[0], SortBy(xs[1..], le), le);
      assert xs == [xs[0]] + xs[1..];
    }
  }

  lemma RemoveOne<T>(xs: seq<T>, j: nat)
    requires j < |xs|
    ensures multiset(xs[..j] + xs[j + 1..]) == multiset(xs) - multiset{xs[j]}
  {
    assert xs == xs[..j] + [xs[j]] + xs[j + 1..];
  }

  /** Where the last element of `a` stands in a permutation of it. */
  lemma Counterpart<T>(a: seq<T>, b: seq<T>) returns (j: nat)
    requires multiset(a) == multiset(b) && a != []
    ensures j < |b| && b[j] == a[|a| - 1] && multiset(a[..|a| - 1]) == multiset(b[..j] + b[j + 1..])
  {
    var n := |a| - 1;
    assert a[n] in multiset(b);
    j :| 0 <= j < |b| && b[j] == a[n];
    RemoveOne(a, n);
    RemoveOne(b, j);
    assert a[..n] + a[n + 1..] == a[..n];
  }

  lemma SameMembers<T(!new)>(xs: seq<T>, ys: seq<T>)
    requires multiset(xs) == multiset(ys)
    ensures forall x :: x in xs <==> x in ys
    ensures NoDuplicates(xs) ==> NoDuplicates(ys)
  {
    forall x ensures x in xs <==> x in ys {
      assert x in multiset(xs) <==> x in multiset(ys);
    }
    if NoDuplicates(xs) {
      forall i, j | 0 <= i < j < |ys| ensures ys[i] != ys[j] {
        if ys[i] == ys[j] {
          Twice(ys, i, j);
          OnceEach(xs, ys[i]);
        }
      }
    }
  }

  lemma Twice<T>(ys: seq<T>, i: nat, j: nat)
    requires i < j < |ys| && ys[i] == ys[j]
    ensures multiset(ys)[ys[i]] >= 2
  {
    assert ys == ys[..i] + [ys[i]] + ys[i + 1..j] + [ys[j]] + ys[j + 1..];
  }

  lemma {:induction false} OnceEach<T>(xs: seq<T>, x: T)
    requires NoDuplicates(xs)
    ensures multiset(xs)[x] <= 1
  {
    if xs != [] {
      assert xs == [xs[0]] + xs[1..];
      OnceEach(xs[1..], x);
      if x == xs[0] {
        assert x !in xs[1..];
      }
    }
  }

  /** dict.fromkeys: the first occurrence of each element, in order. */
  function Dedup<T(==)>(xs: seq<T>): seq<T> {
    if xs == [] then []
    else
      var init, last := xs[..|xs| - 1], xs[|xs| - 1];
      if last in init then Dedup(init) else Dedup(init) + [last]
  }

  lemma {:induction false} DedupFacts<T>(xs: seq<T>)
    ensures NoDuplicates(Dedup(xs)) && forall x | x in Dedup(xs) :: x in xs
    ensures forall x | x in xs :: x in Dedup(xs)
  {
    if xs != [] {
      DedupFacts(xs[..|xs| - 1]);
      assert xs == xs[..|xs| - 1] + [xs[|xs| - 1]];
    }
  }

  /** Appending to distinct elements a list whose first `k` are already there and
      whose others are new adds just those others. */
  lemma {:induction false} DedupAppend<T>(a: seq<T>, b: seq<T>, k: nat)
    requires NoDuplicates(a) && NoDuplicates(b) && k <= |b|
    requires forall i | 0 <= i < |b| :: b[i] in a <==> i < k
    ensures Dedup(a + b) == a + b[k..]
  {
    if b == [] {
      assert a + b == a && a + b[k..] == a;
      DedupDistinct(a);
    } else {
      var init, last := b[..|b| - 1], b[|b| - 1];
      assert (a + b)[..|a + b| - 1] == a + init;
      if k < |b| {
        DedupAppend(a, init, k);
        assert b[k..] == init[k..] + [last];
        assert a + init[k..] + [last] == a + b[k..];
        assert last !in init;
        assert last !in a + init;
      } else {
        DedupAppend(a, init, k - 1);
        assert init[k - 1..] == [] && b[k..] == [];
        assert last in a + init;
      }
    }
  }

  lemma {:induction false} DedupDistinct<T>(a: seq<T>)
    requires NoDuplicates(a)
    ensures Dedup(a) == a
  {
    if a != [] {
      DedupDistinct(a[..|a| - 1]);
      assert a[|a| - 1] !in a[..|a| - 1];
      assert a == a[..|a| - 1] + [a[|a| - 1]];
    }
  }

  lemma JoinDistinct<T>(a: seq<T>, b: seq<T>)
    requires NoDuplicates(a) && NoDuplicates(b) && forall x | x in a :: x !in b
    ensures NoDuplicates(a + b)
  {
    forall i, j | 0 <= i < j < |a + b| ensures (a + b)[i] != (a + b)[j] {
      if i < |a| <= j {
        assert a[i] in a && b[j - |a|] in b;
      }
    }
  }

  lemma PrefixOfJoin<T>(a: seq<T>, b: seq<T>, m: nat, n: nat)
    requires m <= |b| && n <= |a| + m
    ensures (a + b[..m])[..n] == (a + b)[..n]
  {
  }

  /** The union, without repeats, of a head and two prefixes of one tail. */
  lemma PrefixUnion<T>(head: seq<T>, tail: seq<T>, e: nat, r: nat)
    requires NoDuplicates(head + tail) && e <= |tail| && r <= |tail|
    ensures Dedup(head + tail[..e] + tail[..r]) == head + tail[..Max(e, r)]
  {
    var whole, a, b, k := head + tail, head + tail[..e], tail[..r], Min(e, r);
    assert a == whole[..|head| + e];
    forall i | 0 <= i < |b| ensures b[i] in a <==> i < k {
      assert b[i] == whole[|head| + i];
      if i < e {
        assert a[|head| + i] == b[i];
      }
    }
    assert NoDuplicates(b) by {
      forall i, j | 0 <= i < j < |b| ensures b[i] != b[j] {
        assert whole[|head| + i] == b[i] && whole[|head| + j] == b[j];
      }
    }
    DedupAppend(a, b, k);
    assert a + b[k..] == head + tail[..Max(e, r)];
  }

  /** The number of distinct elements of a list without duplicates. */
  lemma {:induction false} DistinctSize<T>(xs: seq<T>)
    requires NoDuplicates(xs)
    ensures |set x | x in xs| == |xs|
  {
    if xs == [] {
      assert (set x | x in xs) == {};
    } else {
      var init, last := xs[..|xs| - 1], xs[|xs| - 1];
      DistinctSize(init);
      assert xs == init + [last];
      assert (set x | x in xs) == (set x | x in init) + {last};
      assert last !in init;
    }
  }

  function Left<T>(waiting: set<T>, taken: seq<T>): set<T> {
    set x | x in waiting && x !in taken
  }

  /** If the waiting elements come first in `order`, a prefix either exhausts them
      or consists of them. */
  lemma PrefixServesWaiting<T>(order: seq<T>, waiting: set<T>, size: nat)
    requires NoDuplicates(order) && size <= |order| && forall x | x in waiting :: x in order
    requires forall i, j | 0 <= i < j < |order| && order[j] in waiting :: order[i] in waiting
    ensures Left(waiting, order[..size]) == {} || |Left(waiting, order[..size])| == |waiting| - size
  {
    var left := Left(waiting, order[..size]);
    if exists j :: size <= j < |order| && order[j] in waiting {
      var j :| size <= j < |order| && order[j] in waiting;
      var head := set y | y in order[..size];
      forall y | y in head ensures y in waiting {
        var i :| 0 <= i < size && order[i] == y;
      }
      DistinctSize(order[..size]);
      assert waiting == left + head;
      DisjointUnionSize(left, head);
    } else {
      forall x | x in waiting ensures x in order[..size] {
        var i :| 0 <= i < |order| && order[i] == x;
        assert order[..size][i] == x;
      }
      assert left == {};
    }
  }

  lemma CeilDivBounds(a: nat, b: nat)
    requires b > 0
    ensures CeilDiv(a, b) * b >= a
    ensures a > 0 ==> CeilDiv(a, b) >= 1
  {
    var q := (a + b - 1) / b;
    assert (a + b - 1) == q * b + (a + b - 1) % b;
  }

  lemma Cancel(a: int, b: int, k: int)
    requires k > 0 && a * k >= b * k
    ensures a >= b
  {
  }

  /** `cycles` steps of `share` each, without a product. */
  function Served(cycles: nat, share: nat): nat {
    if cycles == 0 then 0 else Served(cycles - 1, share) + share
  }

  lemma {:induction false} ServedIsProduct(cycles: nat, share: nat)
    ensures Served(cycles, share) == cycles * share
  {
    if cycles > 0 {
      ServedIsProduct(cycles - 1, share);
      assert cycles * share == (cycles - 1) * share + share;
    }
  }

  /** Refreshing ceil(n * interval / ttl) a cycle covers n in ceil(ttl / interval). */
  lemma RotationCovers(n: nat, interval: nat, ttl: nat)
    requires interval > 0 && ttl > 0
    ensures Served(CeilDiv(ttl, interval), CeilDiv(n * interval, ttl)) >= n
  {
    var cycles, share := CeilDiv(ttl, interval), CeilDiv(n * interval, ttl);
    CeilDivBounds(ttl, interval);
    CeilDivBounds(n * interval, ttl);
    assert (cycles * interval) * share >= ttl * share;
    assert (cycles * interval) * share == (cycles * share) * interval;
    Cancel(cycles * share, n, interval);
    ServedIsProduct(cycles, share);
  }
}
