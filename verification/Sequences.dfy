/** Counting over sequences. */
module Sequences {

  function Count<T>(xs: seq<T>, p: T -> bool): nat {
    if xs == [] then 0 else (if p(xs[0]) then 1 else 0) + Count(xs[1..], p)
  }

  lemma {:induction false} CountAppend<T>(xs: seq<T>, ys: seq<T>, p: T -> bool)
    ensures Count(xs + ys, p) == Count(xs, p) + Count(ys, p)
  {
    if xs == [] {
      assert xs + ys == ys;
    } else {
      assert (xs + ys)[1..] == xs[1..] + ys;
      CountAppend(xs[1..], ys, p);
    }
  }

  lemma {:induction false} CountAlike<T>(xs: seq<T>, p: T -> bool, q: T -> bool)
    requires forall i :: 0 <= i < |xs| ==> p(xs[i]) == q(xs[i])
    ensures Count(xs, p) == Count(xs, q)
  {
    if xs != [] {
      CountAlike(xs[1..], p, q);
    }
  }

  lemma CountTwo<T>(a: T, b: T, p: T -> bool)
    ensures Count([a], p) == if p(a) then 1 else 0
    ensures Count([a, b], p) == (if p(a) then 1 else 0) + (if p(b) then 1 else 0)
  {
    assert [a][1..] == [] && [b][1..] == [] && [a, b][1..] == [b];
    assert Count([b], p) == if p(b) then 1 else 0;
  }

  lemma CountPrefix<T>(xs: seq<T>, i: nat, p: T -> bool)
    requires i < |xs|
    ensures Count(xs[..i + 1], p) == Count(xs[..i], p) + (if p(xs[i]) then 1 else 0)
  {
    assert xs[..i + 1] == xs[..i] + [xs[i]];
    CountAppend(xs[..i], [xs[i]], p);
    CountTwo(xs[i], xs[i], p);
  }

  lemma CountOfPrefix<T>(xs: seq<T>, n: nat, p: T -> bool)
    requires n <= |xs|
    ensures Count(xs[..n], p) <= Count(xs, p)
  {
    assert xs == xs[..n] + xs[n..];
    CountAppend(xs[..n], xs[n..], p);
  }

  lemma AppendAssociates<T>(a: seq<T>, b: seq<T>, c: seq<T>)
    ensures (a + b) + c == a + (b + c)
  {
  }

  lemma InAppend<T>(x: T, a: seq<T>, b: seq<T>)
    ensures x in a + b <==> x in a || x in b
  {
  }

  /** The f(x) one after the other. */
  function FlatMap<A, B>(xs: seq<A>, f: A -> seq<B>): seq<B> {
    if xs == [] then [] else FlatMap(xs[..|xs| - 1], f) + f(xs[|xs| - 1])
  }

  lemma FlatMapExtend<A, B>(xs: seq<A>, x: A, f: A -> seq<B>)
    ensures FlatMap(xs + [x], f) == FlatMap(xs, f) + f(x)
  {
    assert (xs + [x])[..|xs|] == xs;
  }

  lemma {:induction false} FlatMapAppend<A, B>(xs: seq<A>, ys: seq<A>, f: A -> seq<B>)
    ensures FlatMap(xs + ys, f) == FlatMap(xs, f) + FlatMap(ys, f)
  {
    if ys == [] {
      assert xs + ys == xs;
    } else {
      var n := |ys| - 1;
      FlatMapAppend(xs, ys[..n], f);
      assert xs + ys == (xs + ys[..n]) + [ys[n]];
      FlatMapExtend(xs + ys[..n], ys[n], f);
      AppendAssociates(FlatMap(xs, f), FlatMap(ys[..n], f), f(ys[n]));
    }
  }

  lemma {:induction false} FlatMapHas<A, B>(xs: seq<A>, f: A -> seq<B>, x: A, y: B)
    requires x in xs && y in f(x)
    ensures y in FlatMap(xs, f)
  {
    var n := |xs| - 1;
    InAppend(y, FlatMap(xs[..n], f), f(xs[n]));
    if x != xs[n] {
      FlatMapHas(xs[..n], f, x, y);
    }
  }

  lemma {:induction false} FlatMapFrom<A, B>(xs: seq<A>, f: A -> seq<B>, y: B) returns (x: A)
    requires y in FlatMap(xs, f)
    ensures x in xs && y in f(x)
  {
    var n := |xs| - 1;
    InAppend(y, FlatMap(xs[..n], f), f(xs[n]));
    x := xs[n];
    if y !in f(x) {
      x := FlatMapFrom(xs[..n], f, y);
    }
  }

  ghost predicate AppendsAt<T>(acc: nat -> seq<T>, xs: seq<T>, k: nat)
    requires k < |xs|
  {
    acc(k + 1) == acc(k) + [xs[k]]
  }

  lemma {:induction false} AppendedOneByOne<T>(acc: nat -> seq<T>, xs: seq<T>, lo: nat, hi: nat)
    requires lo <= hi <= |xs| && acc(lo) == []
    requires forall k: nat :: lo <= k < hi ==> AppendsAt(acc, xs, k)
    ensures acc(hi) == xs[lo..hi]
    decreases hi
  {
    if lo < hi {
      AppendedOneByOne(acc, xs, lo, hi - 1);
      assert AppendsAt(acc, xs, hi - 1);
    }
  }

  ghost predicate AccumulatesAt<T>(acc: nat -> seq<T>, part: nat -> seq<T>, i: nat) { acc(i + 1) == acc(i) + part(i) }

  /** acc(n) is part(0), part(1) and so on, one after the other. */
  ghost predicate Accumulates<T>(acc: nat -> seq<T>, part: nat -> seq<T>, n: nat) {
    acc(0) == [] && forall i: nat :: i < n ==> AccumulatesAt(acc, part, i)
  }

  lemma {:induction false} InAccumulated<T>(acc: nat -> seq<T>, part: nat -> seq<T>, n: nat, y: T) returns (k: nat)
    requires Accumulates(acc, part, n) && y in acc(n)
    ensures k < n && y in part(k)
    decreases n
  {
    k := n - 1;
    assert AccumulatesAt(acc, part, k);
    InAppend(y, acc(k), part(k));
    if y !in part(k) {
      k := InAccumulated(acc, part, k, y);
    }
  }

  lemma {:induction false} PartAccumulated<T>(acc: nat -> seq<T>, part: nat -> seq<T>, n: nat, k: nat, y: T)
    requires Accumulates(acc, part, n) && k < n && y in part(k)
    ensures y in acc(n)
    decreases n
  {
    assert AccumulatesAt(acc, part, n - 1);
    InAppend(y, acc(n - 1), part(n - 1));
    if k < n - 1 {
      PartAccumulated(acc, part, n - 1, k, y);
    }
  }

  lemma InAccumulatedIff<T>(acc: nat -> seq<T>, part: nat -> seq<T>, n: nat, y: T)
    requires Accumulates(acc, part, n)
    ensures y in acc(n) <==> exists k: nat :: k < n && y in part(k)
  {
    if y in acc(n) {
      var k := InAccumulated(acc, part, n, y);
    }
    if k: nat :| k < n && y in part(k) {
      PartAccumulated(acc, part, n, k, y);
    }
  }

  ghost predicate JoinsAt<U>(all: nat -> set<U>, share: nat -> set<U>, i: nat) { all(i + 1) == all(i) + share(i) && all(i) !! share(i) }

  lemma {:induction false} SizeAccumulated<T, U>(acc: nat -> seq<T>, part: nat -> seq<T>, all: nat -> set<U>, share: nat -> set<U>, n: nat)
    requires Accumulates(acc, part, n)
    requires all(0) == {} && forall i: nat :: i < n ==> JoinsAt(all, share, i)
    requires forall i: nat :: i < n ==> |part(i)| == |share(i)|
    ensures |acc(n)| == |all(n)|
    decreases n
  {
    if n > 0 {
      SizeAccumulated(acc, part, all, share, n - 1);
      assert AccumulatesAt(acc, part, n - 1) && JoinsAt(all, share, n - 1);
    }
  }

  lemma {:induction false} CountZero<T>(xs: seq<T>, p: T -> bool)
    ensures Count(xs, p) == 0 <==> forall i :: 0 <= i < |xs| ==> !p(xs[i])
  {
    if xs != [] {
      CountZero(xs[1..], p);
      assert Count(xs, p) == 0 <==> !p(xs[0]) && Count(xs[1..], p) == 0;
      if Count(xs, p) == 0 {
        forall i | 0 <= i < |xs| ensures !p(xs[i]) {
          if i > 0 { assert xs[1..][i - 1] == xs[i]; }
        }
      }
    }
  }

  /** A rearrangement counts alike. */
  lemma {:induction false} CountOfRearrangement<T>(xs: seq<T>, ys: seq<T>, p: T -> bool)
    requires multiset(xs) == multiset(ys)
    ensures Count(xs, p) == Count(ys, p)
  {
    if xs == [] {
      assert |ys| == |multiset(ys)| == 0;
    } else {
      assert xs == [xs[0]] + xs[1..];
      assert xs[0] in multiset(ys);
      var k :| 0 <= k < |ys| && ys[k] == xs[0];
      var rest := ys[..k] + ys[k + 1..];
      RemoveAt(ys, k, p);
      assert multiset(xs) == multiset{xs[0]} + multiset(xs[1..]);
      assert multiset(xs[1..]) == multiset(xs) - multiset{xs[0]} == multiset(rest);
      CountOfRearrangement(xs[1..], rest, p);
    }
  }

  lemma RemoveAt<T>(ys: seq<T>, k: nat, p: T -> bool)
    requires k < |ys|
    ensures var rest := ys[..k] + ys[k + 1..];
      && multiset(ys) == multiset{ys[k]} + multiset(rest)
      && Count(ys, p) == (if p(ys[k]) then 1 else 0) + Count(rest, p)
  {
    var tail := [ys[k]] + ys[k + 1..];
    assert ys == ys[..k] + tail;
    assert tail[1..] == ys[k + 1..];
    CountAppend(ys[..k], ys[k + 1..], p);
    CountAppend(ys[..k], tail, p);
  }

  ghost predicate Distinct<T>(xs: seq<T>) {
    forall i, j :: 0 <= i < j < |xs| ==> xs[i] != xs[j]
  }

  /** Two repetition-free sequences with the same elements are rearrangements of each other. */
  lemma DistinctSameElements<T>(xs: seq<T>, ys: seq<T>)
    requires Distinct(xs) && Distinct(ys)
    requires forall x :: x in xs <==> x in ys
    ensures multiset(xs) == multiset(ys)
  {
    forall x ensures multiset(xs)[x] == multiset(ys)[x] {
      DistinctCounts(xs, x);
      DistinctCounts(ys, x);
    }
  }

  lemma {:induction false} DistinctCounts<T>(xs: seq<T>, x: T)
    requires Distinct(xs)
    ensures multiset(xs)[x] == if x in xs then 1 else 0
  {
    if xs != [] {
      assert xs == [xs[0]] + xs[1..];
      DistinctCounts(xs[1..], x);
      assert Distinct(xs[1..]) && xs[0] !in xs[1..];
    }
  }

  lemma DistinctFromRearrangement<T>(xs: seq<T>, ys: seq<T>)
    requires multiset(xs) == multiset(ys) && Distinct(ys)
    ensures Distinct(xs)
  {
    forall i, j | 0 <= i < j < |xs| ensures xs[i] != xs[j] {
      var x := xs[j];
      assert xs == xs[..j] + ([x] + xs[j + 1..]);
      assert multiset(xs) == multiset(xs[..j]) + multiset{x} + multiset(xs[j + 1..]);
      DistinctCounts(ys, x);
      assert xs[i] in multiset(xs[..j]) by { assert xs[..j][i] == xs[i]; }
    }
  }

  lemma {:induction false} CountMapped<A, B>(xs: seq<A>, ys: seq<B>, f: A -> B, p: A -> bool, q: B -> bool)
    requires |xs| == |ys| && forall i :: 0 <= i < |xs| ==> ys[i] == f(xs[i])
    requires forall i :: 0 <= i < |xs| ==> p(xs[i]) == q(f(xs[i]))
    ensures Count(ys, q) == Count(xs, p)
  {
    if xs != [] {
      CountMapped(xs[1..], ys[1..], f, p, q);
    }
  }

  /** The members of s between lo and hi, ascending. */
  function Ascending(s: set<nat>, lo: nat, hi: nat): seq<nat>
    decreases hi - lo
  {
    if lo > hi then [] else (if lo in s then [lo] else []) + Ascending(s, lo + 1, hi)
  }

  ghost predicate Increasing(xs: seq<nat>) {
    forall i, j :: 0 <= i < j < |xs| ==> xs[i] < xs[j]
  }

  lemma {:induction false} AscendingIs(s: set<nat>, lo: nat, hi: nat)
    ensures Increasing(Ascending(s, lo, hi))
    ensures forall x :: x in Ascending(s, lo, hi) <==> x in s && lo <= x <= hi
    decreases hi - lo
  {
    if lo <= hi {
      AscendingIs(s, lo + 1, hi);
      var rest := Ascending(s, lo + 1, hi);
      forall i | 0 <= i < |rest| ensures rest[i] > lo {
        assert rest[i] in rest;
      }
    }
  }

  /** An increasing sequence over a set is no longer than the set is large. */
  lemma {:induction false} IncreasingFits(xs: seq<nat>, s: set<nat>)
    requires Increasing(xs) && forall i :: 0 <= i < |xs| ==> xs[i] in s
    ensures |xs| <= |s|
  {
    if xs != [] {
      var n := |xs| - 1;
      IncreasingFits(xs[..n], s - {xs[n]});
    }
  }
}
