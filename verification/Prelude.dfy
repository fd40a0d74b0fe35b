/** Small shared datatypes and facts about finite sets and sequences. */
module Prelude {

  datatype Option<+T> = None | Some(value: T)

  datatype Result<+T, +E> = Ok(value: T) | Err(error: E)

  function Min(a: int, b: int): int {
    if a <= b then a else b
  }

  function Max(a: int, b: int): int {
    if a <= b then b else a
  }

  /** A subset that is as large as the whole is the whole. */
  lemma SubsetOfSameSize<T>(a: set<T>, b: set<T>)
    requires a <= b && |a| == |b|
    ensures a == b
  {
    if a != b {
      var x :| x in b && x !in a;
      SubsetIsSmaller(a, b - {x});
    }
  }

  lemma SubsetIsSmaller<T>(a: set<T>, b: set<T>)
    requires a <= b
    ensures |a| <= |b|
  {
    assert b == a + (b - a);
  }

  lemma EmptyDifference<T>(a: set<T>, b: set<T>)
    requires a - b == {}
    ensures a <= b
  {
    forall x | x in a
      ensures x in b
    {
      assert x !in a - b;
    }
  }

  // === Sums over sequences ===

  function SumBy<T>(xs: seq<T>, f: T -> nat): nat {
    if xs == [] then 0 else f(xs[0]) + SumBy(xs[1..], f)
  }

  lemma {:induction false} SumByAppend<T>(xs: seq<T>, ys: seq<T>, f: T -> nat)
    ensures SumBy(xs + ys, f) == SumBy(xs, f) + SumBy(ys, f)
  {
    if xs == [] {
      assert xs + ys == ys;
    } else {
      assert (xs + ys)[1..] == xs[1..] + ys;
      SumByAppend(xs[1..], ys, f);
    }
  }

  lemma SumBySplit<T>(xs: seq<T>, j: nat, f: T -> nat)
    requires j < |xs|
    ensures SumBy(xs, f) == SumBy(xs[..j], f) + f(xs[j]) + SumBy(xs[j + 1..], f)
  {
    assert xs == xs[..j] + xs[j..];
    SumByAppend(xs[..j], xs[j..], f);
  }

  lemma SumByUpdate<T>(xs: seq<T>, j: nat, x: T, f: T -> nat)
    requires j < |xs|
    ensures SumBy(xs[j := x], f) + f(xs[j]) == SumBy(xs, f) + f(x)
  {
    SumBySplit(xs, j, f);
    SumBySplit(xs[j := x], j, f);
    assert xs[j := x][..j] == xs[..j] && xs[j := x][j + 1..] == xs[j + 1..];
  }

  lemma {:induction false} SumByZero<T>(xs: seq<T>, f: T -> nat)
    requires forall j :: 0 <= j < |xs| ==> f(xs[j]) == 0
    ensures SumBy(xs, f) == 0
  {
    if xs != [] {
      SumByZero(xs[1..], f);
    }
  }

  // === Sorted sequences ===

  ghost predicate Ascending(xs: seq<nat>) {
    forall a, b :: 0 <= a < b < |xs| ==> xs[a] < xs[b]
  }

  /** Cutting a piece out of an ascending sequence leaves it ascending. */
  lemma AscendingWithout(xs: seq<nat>, ys: seq<nat>, zs: seq<nat>)
    requires Ascending(xs + ys + zs)
    ensures Ascending(xs + zs)
  {
    var all, rest := xs + ys + zs, xs + zs;
    forall a, b | 0 <= a < b < |rest|
      ensures rest[a] < rest[b]
    {
      var a' := if a < |xs| then a else a + |ys|;
      var b' := if b < |xs| then b else b + |ys|;
      assert rest[a] == all[a'] && rest[b] == all[b'];
    }
  }

  lemma AscendingAppend(xs: seq<nat>, x: nat, y: nat)
    requires Ascending(xs + [x]) && x < y
    ensures Ascending(xs + [x] + [y])
  {
    var all := xs + [x];
    assert forall a :: 0 <= a < |xs| ==> all[a] < all[|xs|];
  }
}
