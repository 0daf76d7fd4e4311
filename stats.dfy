/** The column statistics the aggregation stage takes from its data-frame
    library: occurrence counts, distinct values in first-seen order, frequency
    tables, sums, means, the median, minimum and maximum, and the averaging of
    optional samples that skips missing ones. */
module Stats {
  import opened Wrappers

  // ------------------------------------------------------------ counting

  /** `f` applied to each element of `xs`, in order. */
  function Each<A, B>(f: A -> B, xs: seq<A>): (ys: seq<B>)
    ensures |ys| == |xs|
    ensures forall i :: 0 <= i < |xs| ==> ys[i] == f(xs[i])
  {
    seq(|xs|, i requires 0 <= i < |xs| => f(xs[i]))
  }

  /** Applying `f` to one more element extends the result by its image. */
  lemma EachSnoc<A, B>(f: A -> B, xs: seq<A>, k: nat)
    requires k < |xs|
    ensures Each(f, xs[..k + 1]) == Each(f, xs[..k]) + [f(xs[k])]
  {
  }

  /** Number of occurrences of `x` in `xs`. */
  function Count<T(==)>(xs: seq<T>, x: T): (n: nat)
    ensures n <= |xs|
    ensures n > 0 <==> x in xs
  {
    if xs == [] then 0
    else
      assert xs == xs[..|xs| - 1] + [xs[|xs| - 1]];
      Count(xs[..|xs| - 1], x) + (if xs[|xs| - 1] == x then 1 else 0)
  }

  predicate NoDup<T(==)>(xs: seq<T>) {
    forall i, j :: 0 <= i < j < |xs| ==> xs[i] != xs[j]
  }

  /** A sequence without repetitions stays so without its last value, which
      does not occur before it. */
  lemma NoDupSnoc<T>(xs: seq<T>, y: T)
    requires NoDup(xs + [y])
    ensures NoDup(xs) && y !in xs
  {
    var s := xs + [y];
    forall i, j | 0 <= i < j < |xs| ensures xs[i] != xs[j] {
      assert xs[i] == s[i] && xs[j] == s[j];
    }
    forall k | 0 <= k < |xs| ensures xs[k] != y {
      assert xs[k] == s[k] && y == s[|xs|];
    }
  }

  /** The distinct values of `xs`, in order of first appearance. */
  function Distinct<T(==,!new)>(xs: seq<T>): (d: seq<T>)
    ensures forall x :: x in d <==> x in xs
    ensures NoDup(d)
    ensures |d| <= |xs|
  {
    if xs == [] then []
    else
      var d := Distinct(xs[..|xs| - 1]);
      assert xs == xs[..|xs| - 1] + [xs[|xs| - 1]];
      if xs[|xs| - 1] in d then d else d + [xs[|xs| - 1]]
  }

  /** Appending a value adds it to the distinct values when it is new. */
  lemma DistinctSnoc<T(!new)>(xs: seq<T>, y: T)
    ensures Distinct(xs + [y]) == if y in xs then Distinct(xs) else Distinct(xs) + [y]
  {
    assert (xs + [y])[..|xs + [y]| - 1] == xs;
  }

  /** Occurrences of two different values never add up to more than the
      length of the sequence. */
  lemma {:induction false} CountTwo<T>(xs: seq<T>, a: T, b: T)
    requires a != b
    ensures Count(xs, a) + Count(xs, b) <= |xs|
  {
    if xs != [] {
      CountTwo(xs[..|xs| - 1], a, b);
    }
  }

  /** A sequence holding two different values has at least two distinct values. */
  lemma DistinctTwo<T(!new)>(xs: seq<T>, a: T, b: T)
    requires a in xs && b in xs && a != b
    ensures |Distinct(xs)| >= 2
  {
    var d := Distinct(xs);
    var i :| 0 <= i < |xs| && xs[i] == a;
    var j :| 0 <= j < |xs| && xs[j] == b;
    assert a in d && b in d;
  }

  /** The frequency table of `xs` (value -> number of occurrences). */
  function Histogram<T(==)>(xs: seq<T>): (m: map<T, int>)
    ensures m.Keys == set i | 0 <= i < |xs| :: xs[i]
    ensures forall x :: x in m ==> m[x] == Count(xs, x) && 1 <= m[x] <= |xs|
  {
    map x | x in xs :: Count(xs, x)
  }

  /** Sum of the frequency-table entries for `keys`. */
  function SumOver<T>(m: map<T, int>, keys: seq<T>): int
    requires forall k :: k in keys ==> k in m
  {
    if keys == [] then 0 else m[keys[0]] + SumOver(m, keys[1..])
  }

  function SumCounts<T(==)>(keys: seq<T>, xs: seq<T>): nat {
    if keys == [] then 0 else Count(xs, keys[0]) + SumCounts(keys[1..], xs)
  }

  lemma {:induction false} SumCountsSnoc<T>(keys: seq<T>, xs: seq<T>, x: T)
    ensures SumCounts(keys, xs + [x]) == SumCounts(keys, xs) + Count(keys, x)
  {
    assert (xs + [x])[..|xs + [x]| - 1] == xs;
    if keys != [] {
      SumCountsSnoc(keys[1..], xs, x);
      CountFront(keys, x);
    }
  }

  /** `Count` seen from the front of the sequence. */
  lemma {:induction false} CountFront<T>(xs: seq<T>, x: T)
    requires xs != []
    ensures Count(xs, x) == (if xs[0] == x then 1 else 0) + Count(xs[1..], x)
  {
    if |xs| > 1 {
      CountFront(xs[..|xs| - 1], x);
      assert xs[..|xs| - 1][1..] == xs[1..][..|xs[1..]| - 1];
      assert xs[..|xs| - 1][0] == xs[0];
    } else {
      assert xs[..|xs| - 1] == [];
    }
  }

  /** A value occurs once in a list without duplicates that contains it. */
  lemma {:induction false} CountNoDup<T>(keys: seq<T>, x: T)
    requires NoDup(keys) && x in keys
    ensures Count(keys, x) == 1
  {
    var p := keys[..|keys| - 1];
    assert keys == p + [keys[|keys| - 1]];
    if keys[|keys| - 1] == x {
      assert x !in p;
    } else {
      assert NoDup(p);
      CountNoDup(p, x);
    }
  }

  /** The counts of a duplicate-free list of keys that covers every value add
      up to the number of values. */
  lemma {:induction false} SumCountsCover<T>(keys: seq<T>, xs: seq<T>)
    requires NoDup(keys)
    requires forall x :: x in xs ==> x in keys
    ensures SumCounts(keys, xs) == |xs|
  {
    if xs == [] {
      SumCountsEmpty(keys, xs);
    } else {
      var p := xs[..|xs| - 1];
      var x := xs[|xs| - 1];
      assert xs == p + [x];
      SumCountsCover(keys, p);
      SumCountsSnoc(keys, p, x);
      CountNoDup(keys, x);
    }
  }

  lemma {:induction false} SumCountsEmpty<T>(keys: seq<T>, xs: seq<T>)
    requires xs == []
    ensures SumCounts(keys, xs) == 0
  {
    if keys != [] {
      SumCountsEmpty(keys[1..], xs);
    }
  }

  lemma {:induction false} SumOverHistogram<T>(keys: seq<T>, xs: seq<T>)
    requires forall k :: k in keys ==> k in xs
    ensures SumOver(Histogram(xs), keys) == SumCounts(keys, xs)
  {
    if keys != [] {
      SumOverHistogram(keys[1..], xs);
    }
  }

  /** The entries of a frequency table, taken once per distinct value, sum to
      the number of values. */
  lemma HistogramTotal<T(!new)>(xs: seq<T>)
    ensures SumOver(Histogram(xs), Distinct(xs)) == |xs|
  {
    SumOverHistogram(Distinct(xs), xs);
    SumCountsCover(Distinct(xs), xs);
  }

  // ------------------------------------------------------------ sums and means

  function Sum(xs: seq<real>): real {
    if xs == [] then 0.0 else Sum(xs[..|xs| - 1]) + xs[|xs| - 1]
  }

  predicate AtLeast(xs: seq<real>, lo: real) {
    forall i :: 0 <= i < |xs| ==> lo <= xs[i]
  }

  predicate AtMost(xs: seq<real>, hi: real) {
    forall i :: 0 <= i < |xs| ==> xs[i] <= hi
  }

  lemma {:induction false} SumAtLeast(xs: seq<real>, lo: real)
    requires AtLeast(xs, lo)
    ensures Sum(xs) >= |xs| as real * lo
  {
    if xs != [] {
      var p := xs[..|xs| - 1];
      assert AtLeast(p, lo);
      SumAtLeast(p, lo);
      assert (|p| as real) * lo + lo == |xs| as real * lo;
    }
  }

  lemma {:induction false} SumAtMost(xs: seq<real>, hi: real)
    requires AtMost(xs, hi)
    ensures Sum(xs) <= |xs| as real * hi
  {
    if xs != [] {
      var p := xs[..|xs| - 1];
      assert AtMost(p, hi);
      SumAtMost(p, hi);
      assert (|p| as real) * hi + hi == |xs| as real * hi;
    }
  }

  /** Arithmetic mean of a non-empty sample. */
  function Mean(xs: seq<real>): real
    requires |xs| > 0
  {
    Sum(xs) / |xs| as real
  }

  /** The mean lies within any bounds that hold for every sample. */
  lemma MeanWithin(xs: seq<real>, lo: real, hi: real)
    requires |xs| > 0
    ensures AtLeast(xs, lo) ==> lo <= Mean(xs)
    ensures AtMost(xs, hi) ==> Mean(xs) <= hi
  {
    var n := |xs| as real;
    if AtLeast(xs, lo) {
      SumAtLeast(xs, lo);
      DivideBound(Sum(xs), n, lo);
    }
    if AtMost(xs, hi) {
      SumAtMost(xs, hi);
      DivideBoundAbove(Sum(xs), n, hi);
    }
  }

  /** The mean spread back over the sample gives the sum. */
  lemma MeanTimesSize(xs: seq<real>)
    requires |xs| > 0
    ensures Mean(xs) * |xs| as real == Sum(xs)
  {
    DivideTimes(Sum(xs), |xs| as real);
  }

  lemma DivideTimes(s: real, n: real)
    requires n > 0.0
    ensures s / n * n == s
  {
  }

  lemma DivideBound(s: real, n: real, lo: real)
    requires n > 0.0 && s >= n * lo
    ensures s / n >= lo
  {
    assert s / n * n == s;
  }

  lemma DivideBoundAbove(s: real, n: real, hi: real)
    requires n > 0.0 && s <= n * hi
    ensures s / n <= hi
  {
    assert s / n * n == s;
  }

  lemma RatioAboveMinusOne(a: real, b: real)
    requires b > 0.0 && a > -b
    ensures a / b > -1.0
  {
    assert a / b * b == a;
  }

  /** Integers as reals. */
  function Reals(xs: seq<int>): (r: seq<real>)
    ensures |r| == |xs|
    ensures forall i :: 0 <= i < |xs| ==> r[i] == xs[i] as real
  {
    seq(|xs|, i requires 0 <= i < |xs| => xs[i] as real)
  }

  /** The samples that are present, in order. */
  function Present<T(!new)>(xs: seq<Option<T>>): (p: seq<T>)
    ensures |p| <= |xs|
    ensures forall x :: x in p <==> Some(x) in xs
    ensures forall x :: multiset(p)[x] == multiset(xs)[Some(x)]
  {
    if xs == [] then []
    else
      var init, last := xs[..|xs| - 1], xs[|xs| - 1];
      assert xs == init + [last];
      Present(init) + (if last.Some? then [last.value] else [])
  }

  /** The mean of the present samples, or None when no sample is present
      (the data-frame mean skips missing values). */
  function MeanOfPresent(xs: seq<Option<int>>): (m: Option<real>)
    ensures m.None? <==> forall i :: 0 <= i < |xs| ==> xs[i].None?
    ensures m.Some? ==> |Present(xs)| > 0 && m.value == Mean(Reals(Present(xs)))
  {
    var p := Present(xs);
    if p == [] then
      assert forall i :: 0 <= i < |xs| ==> xs[i].None? by {
        forall i | 0 <= i < |xs| ensures xs[i].None? {
          assert xs[i] in xs;
        }
      }
      None
    else
      assert p[0] in p;
      Some(Mean(Reals(p)))
  }

  /** The mean of the present samples lies within any bounds that hold for
      every present sample. */
  lemma MeanOfPresentWithin(xs: seq<Option<int>>, lo: int, hi: int)
    ensures (forall i :: 0 <= i < |xs| && xs[i].Some? ==> lo <= xs[i].value) && MeanOfPresent(xs).Some? ==>
      lo as real <= MeanOfPresent(xs).value
    ensures (forall i :: 0 <= i < |xs| && xs[i].Some? ==> xs[i].value <= hi) && MeanOfPresent(xs).Some? ==>
      MeanOfPresent(xs).value <= hi as real
  {
    var p := Present(xs);
    if p != [] {
      var r := Reals(p);
      if forall i :: 0 <= i < |xs| && xs[i].Some? ==> lo <= xs[i].value {
        forall k | 0 <= k < |r| ensures lo as real <= r[k] {
          assert p[k] in p;
          var i :| 0 <= i < |xs| && xs[i] == Some(p[k]);
        }
      }
      if forall i :: 0 <= i < |xs| && xs[i].Some? ==> xs[i].value <= hi {
        forall k | 0 <= k < |r| ensures r[k] <= hi as real {
          assert p[k] in p;
          var i :| 0 <= i < |xs| && xs[i] == Some(p[k]);
        }
      }
      MeanWithin(r, lo as real, hi as real);
    }
  }

  /** `Count` is the multiplicity of the value in the sequence. */
  lemma {:induction false} CountIsMultiplicity<T>(xs: seq<T>, x: T)
    ensures Count(xs, x) == multiset(xs)[x]
  {
    if xs != [] {
      var init := xs[..|xs| - 1];
      assert xs == init + [xs[|xs| - 1]];
      CountIsMultiplicity(init, x);
    }
  }

  // ------------------------------------------------------------ order statistics

  function MinOf(xs: seq<int>): (m: int)
    requires |xs| > 0
    ensures m in xs
    ensures forall i :: 0 <= i < |xs| ==> m <= xs[i]
  {
    if |xs| == 1 then xs[0]
    else
      var m := MinOf(xs[1..]);
      assert m in xs[1..];
      if xs[0] <= m then xs[0] else m
  }

  function MaxOf(xs: seq<int>): (m: int)
    requires |xs| > 0
    ensures m in xs
    ensures forall i :: 0 <= i < |xs| ==> xs[i] <= m
  {
    if |xs| == 1 then xs[0]
    else
      var m := MaxOf(xs[1..]);
      assert m in xs[1..];
      if xs[0] >= m then xs[0] else m
  }

  predicate Sorted(xs: seq<real>) {
    forall i, j :: 0 <= i < j < |xs| ==> xs[i] <= xs[j]
  }

  function Insert(x: real, s: seq<real>): (r: seq<real>)
    requires Sorted(s)
    ensures Sorted(r)
    ensures multiset(r) == multiset(s) + multiset{x}
  {
    if s == [] then [x]
    else if x <= s[0] then [x] + s
    else
      var r := Insert(x, s[1..]);
      assert s == [s[0]] + s[1..];
      InsertLowerBound(s[0], x, s[1..], r);
      [s[0]] + r
  }

  lemma InsertLowerBound(lo: real, x: real, t: seq<real>, r: seq<real>)
    requires lo <= x && forall i :: 0 <= i < |t| ==> lo <= t[i]
    requires multiset(r) == multiset(t) + multiset{x}
    ensures forall j :: 0 <= j < |r| ==> lo <= r[j]
  {
    forall j | 0 <= j < |r| ensures lo <= r[j] {
      assert r[j] in multiset(r);
      if r[j] != x {
        assert r[j] in multiset(t);
        var k :| 0 <= k < |t| && t[k] == r[j];
      }
    }
  }

  /** `xs` in non-decreasing order. */
  function Sort(xs: seq<real>): (r: seq<real>)
    ensures Sorted(r)
    ensures multiset(r) == multiset(xs)
  {
    if xs == [] then []
    else
      assert xs == [xs[0]] + xs[1..];
      Insert(xs[0], Sort(xs[1..]))
  }

  /** The median: the middle element of the sorted sample, or the mean of the
      two middle elements when the sample size is even. */
  function Median(xs: seq<real>): real
    requires |xs| > 0
  {
    var s := Sort(xs);
    assert |s| == |multiset(s)| == |xs|;
    var n := |s|;
    if n % 2 == 1 then s[n / 2] else (s[n / 2 - 1] + s[n / 2]) / 2.0
  }

  /** The median lies within any bounds that hold for every sample. */
  lemma MedianWithin(xs: seq<real>, lo: real, hi: real)
    requires |xs| > 0
    ensures AtLeast(xs, lo) ==> lo <= Median(xs)
    ensures AtMost(xs, hi) ==> Median(xs) <= hi
  {
    var s := Sort(xs);
    assert |s| == |multiset(s)| == |xs|;
    forall i | 0 <= i < |s| ensures s[i] in xs {
      assert s[i] in multiset(s);
    }
    forall i | 0 <= i < |s| ensures lo <= s[i] || !AtLeast(xs, lo) {
      var k :| 0 <= k < |xs| && xs[k] == s[i];
    }
    forall i | 0 <= i < |s| ensures s[i] <= hi || !AtMost(xs, hi) {
      var k :| 0 <= k < |xs| && xs[k] == s[i];
    }
  }
}
