/** Selecting the k best elements of a sequence by a score, as `nlargest`,
    `nsmallest` (with a negated score) and `value_counts().head(k)` do. Among
    equal scores the element met first wins. */
module Ranking {

  /** The elements of `xs` that satisfy `p`, in order (a boolean mask). */
  function Where<T(!new)>(xs: seq<T>, p: T -> bool): (r: seq<T>)
    ensures |r| <= |xs|
    ensures forall x :: x in r <==> x in xs && p(x)
  {
    if xs == [] then []
    else
      assert xs == [xs[0]] + xs[1..];
      (if p(xs[0]) then [xs[0]] else []) + Where(xs[1..], p)
  }

  /** The mask keeps every element that satisfies `p` exactly as often as `xs`
      holds it, and no other element. */
  lemma {:induction false} WhereIsFilter<T(!new)>(xs: seq<T>, p: T -> bool)
    ensures forall x :: multiset(Where(xs, p))[x] == if p(x) then multiset(xs)[x] else 0
  {
    if xs != [] {
      assert xs == [xs[0]] + xs[1..];
      WhereIsFilter(xs[1..], p);
    }
  }

  /** Index of the first element with the largest score. */
  function ArgMax<T>(xs: seq<T>, score: T -> real): (i: nat)
    requires |xs| > 0
    ensures i < |xs|
  {
    if |xs| == 1 then 0
    else
      var k := ArgMax(xs[1..], score) + 1;
      if score(xs[0]) >= score(xs[k]) then 0 else k
  }

  /** `ArgMax` picks a best element, and the first of the best. */
  lemma {:induction false} ArgMaxIsBest<T>(xs: seq<T>, score: T -> real)
    requires |xs| > 0
    ensures forall j :: 0 <= j < |xs| ==> score(xs[j]) <= score(xs[ArgMax(xs, score)])
    ensures forall j :: 0 <= j < ArgMax(xs, score) ==> score(xs[j]) < score(xs[ArgMax(xs, score)])
  {
    if |xs| > 1 {
      ArgMaxIsBest(xs[1..], score);
      assert forall j :: 1 <= j < |xs| ==> xs[j] == xs[1..][j - 1];
    }
  }

  /** `xs` without its element at `i`. */
  function Without<T>(xs: seq<T>, i: nat): (r: seq<T>)
    requires i < |xs|
    ensures |r| == |xs| - 1
  {
    xs[..i] + xs[i + 1..]
  }

  /** Removing an element takes exactly one occurrence of it away. */
  lemma WithoutSpec<T>(xs: seq<T>, i: nat)
    requires i < |xs|
    ensures multiset(xs) == multiset(Without(xs, i)) + multiset{xs[i]}
  {
    assert xs == xs[..i] + [xs[i]] + xs[i + 1..];
  }

  /** The at most `k` best elements of `xs`, best first. */
  function TopBy<T>(xs: seq<T>, score: T -> real, k: nat): (r: seq<T>)
    ensures |r| == if k < |xs| then k else |xs|
    decreases k
  {
    if k == 0 || xs == [] then []
    else
      var i := ArgMax(xs, score);
      [xs[i]] + TopBy(Without(xs, i), score, k - 1)
  }

  /** What the selection of the `k` best leaves of `xs`. */
  function Leftover<T>(xs: seq<T>, score: T -> real, k: nat): seq<T>
    decreases k
  {
    if k == 0 || xs == [] then xs
    else Leftover(Without(xs, ArgMax(xs, score)), score, k - 1)
  }

  /** Scores never increase along `r`. */
  ghost predicate Ordered<T>(r: seq<T>, score: T -> real) {
    forall i, j :: 0 <= i < j < |r| ==> score(r[i]) >= score(r[j])
  }

  /** Nothing of `rest` scores higher than an element of `r`. */
  ghost predicate Dominates<T>(r: seq<T>, rest: seq<T>, score: T -> real) {
    forall m, j :: 0 <= m < |rest| && 0 <= j < |r| ==> score(rest[m]) <= score(r[j])
  }

  /** `r` and `rest` together hold exactly the elements of `xs`. */
  ghost predicate Splits<T>(xs: seq<T>, r: seq<T>, rest: seq<T>) {
    multiset(xs) == multiset(r) + multiset(rest)
  }

  /** The selection and what it leaves make up `xs` ... */
  lemma {:induction false} TopByPartition<T>(xs: seq<T>, score: T -> real, k: nat)
    ensures Splits(xs, TopBy(xs, score, k), Leftover(xs, score, k))
    decreases k
  {
    if k == 0 || xs == [] {
      assert TopBy(xs, score, k) == [];
      assert Leftover(xs, score, k) == xs;
    } else {
      var w := Without(xs, ArgMax(xs, score));
      TopByPartition(w, score, k - 1);
      PartitionStep(xs, score, k);
    }
  }

  lemma PartitionStep<T>(xs: seq<T>, score: T -> real, k: nat)
    requires k != 0 && xs != []
    requires var w := Without(xs, ArgMax(xs, score));
      Splits(w, TopBy(w, score, k - 1), Leftover(w, score, k - 1))
    ensures Splits(xs, TopBy(xs, score, k), Leftover(xs, score, k))
  {
    var i := ArgMax(xs, score);
    var w := Without(xs, i);
    var r' := TopBy(w, score, k - 1);
    assert TopBy(xs, score, k) == [xs[i]] + r';
    WithoutSpec(xs, i);
    assert multiset([xs[i]] + r') == multiset{xs[i]} + multiset(r');
  }

  /** The selection comes out in non-increasing score order ... */
  lemma {:induction false} TopByOrdered<T>(xs: seq<T>, score: T -> real, k: nat)
    ensures Ordered(TopBy(xs, score, k), score)
    decreases k
  {
    if k != 0 && xs != [] {
      TopByOrdered(Without(xs, ArgMax(xs, score)), score, k - 1);
      OrderedStep(xs, score, k);
    }
  }

  lemma OrderedStep<T>(xs: seq<T>, score: T -> real, k: nat)
    requires k != 0 && xs != []
    requires Ordered(TopBy(Without(xs, ArgMax(xs, score)), score, k - 1), score)
    ensures Ordered(TopBy(xs, score, k), score)
  {
    var i := ArgMax(xs, score);
    var w := Without(xs, i);
    var r' := TopBy(w, score, k - 1);
    assert TopBy(xs, score, k) == [xs[i]] + r';
    TopByPartition(w, score, k - 1);
    BestBeatsRemoved(xs, score, r', Leftover(w, score, k - 1));
    ConsOrdered(xs[i], r', score);
  }

  lemma ConsOrdered<T>(a: T, t: seq<T>, score: T -> real)
    requires Ordered(t, score)
    requires forall j :: 0 <= j < |t| ==> score(t[j]) <= score(a)
    ensures Ordered([a] + t, score)
  {
    var r := [a] + t;
    forall x, y | 0 <= x < y < |r| ensures score(r[x]) >= score(r[y]) {
      assert r[y] == t[y - 1];
      if x > 0 {
        assert r[x] == t[x - 1];
      }
    }
  }

  /** ... and nothing left over scores higher than anything selected. */
  lemma {:induction false} TopByDominates<T>(xs: seq<T>, score: T -> real, k: nat)
    ensures Dominates(TopBy(xs, score, k), Leftover(xs, score, k), score)
    decreases k
  {
    if k != 0 && xs != [] {
      TopByDominates(Without(xs, ArgMax(xs, score)), score, k - 1);
      DominatesStep(xs, score, k);
    }
  }

  lemma DominatesStep<T>(xs: seq<T>, score: T -> real, k: nat)
    requires k != 0 && xs != []
    requires var w := Without(xs, ArgMax(xs, score));
      Dominates(TopBy(w, score, k - 1), Leftover(w, score, k - 1), score)
    ensures Dominates(TopBy(xs, score, k), Leftover(xs, score, k), score)
  {
    var i := ArgMax(xs, score);
    var w := Without(xs, i);
    var r' := TopBy(w, score, k - 1);
    var rest := Leftover(w, score, k - 1);
    assert TopBy(xs, score, k) == [xs[i]] + r';
    TopByPartition(w, score, k - 1);
    BestBeatsRemoved(xs, score, rest, r');
    ConsDominates(xs[i], r', rest, score);
  }

  lemma ConsDominates<T>(a: T, r': seq<T>, rest: seq<T>, score: T -> real)
    requires Dominates(r', rest, score)
    requires forall m :: 0 <= m < |rest| ==> score(rest[m]) <= score(a)
    ensures Dominates([a] + r', rest, score)
  {
    var r := [a] + r';
    forall m, j | 0 <= m < |rest| && 0 <= j < |r| ensures score(rest[m]) <= score(r[j]) {
      if j > 0 {
        assert r[j] == r'[j - 1];
      }
    }
  }

  /** Whatever one selection step and the rest of the selection do with the
      elements that remain, none of them scores above the element picked. */
  lemma BestBeatsRemoved<T>(xs: seq<T>, score: T -> real, part: seq<T>, other: seq<T>)
    requires |xs| > 0
    requires var w := Without(xs, ArgMax(xs, score));
      multiset(w) == multiset(part) + multiset(other) || multiset(w) == multiset(other) + multiset(part)
    ensures forall j :: 0 <= j < |part| ==> score(part[j]) <= score(xs[ArgMax(xs, score)])
  {
    var i := ArgMax(xs, score);
    ArgMaxIsBest(xs, score);
    WithoutSpec(xs, i);
    forall j | 0 <= j < |part| ensures score(part[j]) <= score(xs[i]) {
      assert part[j] in multiset(part);
      assert part[j] in multiset(xs);
      var m :| 0 <= m < |xs| && xs[m] == part[j];
    }
  }

  /** Every selected element comes from `xs`. */
  lemma TopByFrom<T>(xs: seq<T>, score: T -> real, k: nat)
    ensures forall j :: 0 <= j < |TopBy(xs, score, k)| ==> TopBy(xs, score, k)[j] in xs
  {
    var r := TopBy(xs, score, k);
    TopByPartition(xs, score, k);
    forall j | 0 <= j < |r| ensures r[j] in xs {
      assert r[j] in multiset(r);
      assert r[j] in multiset(xs);
    }
  }

  /** The selection in one statement: at most `k` elements of `xs`, best first,
      and no element of `xs` left out scores higher than a selected one. */
  /** The selection takes each element at most as often as the input holds it. */
  lemma TopBySelects<T>(xs: seq<T>, score: T -> real, k: nat)
    ensures multiset(TopBy(xs, score, k)) <= multiset(xs)
  {
    TopByPartition(xs, score, k);
  }

  lemma TopBySpec<T>(xs: seq<T>, score: T -> real, k: nat)
    ensures var r := TopBy(xs, score, k);
      && |r| <= k
      && (forall i :: 0 <= i < |r| ==> r[i] in xs)
      && (forall i, j :: 0 <= i < j < |r| ==> score(r[i]) >= score(r[j]))
      && (forall x, j :: x in xs && x !in r && 0 <= j < |r| ==> score(x) <= score(r[j]))
  {
    var r := TopBy(xs, score, k);
    var rest := Leftover(xs, score, k);
    TopByOrdered(xs, score, k);
    TopByDominates(xs, score, k);
    TopByPartition(xs, score, k);
    TopByFrom(xs, score, k);
    forall x, j | x in xs && x !in r && 0 <= j < |r| ensures score(x) <= score(r[j]) {
      assert x in multiset(xs);
      assert x in multiset(rest);
      var m :| 0 <= m < |rest| && rest[m] == x;
    }
  }
}
