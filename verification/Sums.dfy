/** Sums over sequences of reals: invariance under reordering, sorted prefixes, Cauchy-Schwarz. */
module Sums {
  function Sum(s: seq<real>): real {
    if s == [] then 0.0 else Sum(s[..|s| - 1]) + s[|s| - 1]
  }

  lemma SumAppend(s: seq<real>, x: real)
    ensures Sum(s + [x]) == Sum(s) + x
  {
  }

  // A slice that grows at its end, and one that slides by one element.
  lemma SumSliceGrows(s: seq<real>, lo: nat, hi: nat)
    requires lo <= hi < |s|
    ensures Sum(s[lo..hi + 1]) == Sum(s[lo..hi]) + s[hi]
  {
    assert s[lo..hi + 1] == s[lo..hi] + [s[hi]];
    SumAppend(s[lo..hi], s[hi]);
  }

  lemma SumSliceSlides(s: seq<real>, lo: nat, hi: nat)
    requires lo < hi < |s|
    ensures Sum(s[lo + 1..hi + 1]) == Sum(s[lo..hi]) + (s[hi] - s[lo])
  {
    SumSliceGrows(s, lo, hi);
    SumConcat([s[lo]], s[lo + 1..hi + 1]);
    assert s[lo..hi + 1] == [s[lo]] + s[lo + 1..hi + 1];
    assert [s[lo]][..0] == [];
  }

  lemma {:induction false} SumConcat(a: seq<real>, b: seq<real>)
    ensures Sum(a + b) == Sum(a) + Sum(b)
  {
    if b == [] {
      assert a + b == a;
    } else {
      SumConcat(a, b[..|b| - 1]);
      assert (a + b)[..|a + b| - 1] == a + b[..|b| - 1];
    }
  }

  ghost function Without<T>(s: seq<T>, i: nat): seq<T>
    requires i < |s|
  {
    s[..i] + s[i + 1..]
  }

  lemma WithoutMultiset<T>(s: seq<T>, i: nat)
    requires i < |s|
    ensures multiset(Without(s, i)) == multiset(s) - multiset{s[i]}
    ensures |Without(s, i)| == |s| - 1
  {
    assert s == s[..i] + [s[i]] + s[i + 1..];
  }

  lemma {:induction false} SumWithout(s: seq<real>, i: nat)
    requires i < |s|
    ensures Sum(s) == s[i] + Sum(Without(s, i))
  {
    var n := |s| - 1;
    if i == n {
      assert Without(s, i) == s[..n];
    } else {
      SumWithout(s[..n], i);
      assert Without(s, i) == Without(s[..n], i) + [s[n]];
      SumAppend(Without(s[..n], i), s[n]);
    }
  }

  // Reordering does not change a sum.
  lemma {:induction false} SumPermuted(a: seq<real>, b: seq<real>)
    requires multiset(a) == multiset(b)
    ensures Sum(a) == Sum(b)
  {
    if a == [] {
      assert |multiset(b)| == 0;
    } else {
      assert a[0] in multiset(b);
      var i :| 0 <= i < |b| && b[i] == a[0];
      SumWithout(a, 0);
      SumWithout(b, i);
      WithoutMultiset(a, 0);
      WithoutMultiset(b, i);
      SumPermuted(Without(a, 0), Without(b, i));
    }
  }

  ghost predicate Descending(s: seq<real>) {
    forall i, j :: 0 <= i < j < |s| ==> s[i] >= s[j]
  }

  ghost predicate NonNegative(s: seq<real>) {
    forall i :: 0 <= i < |s| ==> s[i] >= 0.0
  }

  ghost predicate AllZero(s: seq<real>) {
    forall i :: 0 <= i < |s| ==> s[i] == 0.0
  }

  lemma {:induction false} SumNonNegative(s: seq<real>)
    requires NonNegative(s)
    ensures Sum(s) >= 0.0
    ensures Sum(s) == 0.0 <==> AllZero(s)
  {
    if s != [] {
      SumNonNegative(s[..|s| - 1]);
      assert AllZero(s) <==> AllZero(s[..|s| - 1]) && s[|s| - 1] == 0.0;
    }
  }

  // Take the largest element out of the pick if it is there, any element otherwise: what is left
  // can be picked from the rest.
  lemma PickFromRest(sorted: seq<real>, picked: seq<real>) returns (i: nat)
    requires Descending(sorted) && multiset(picked) <= multiset(sorted) && picked != []
    ensures sorted != [] && i < |picked| && picked[i] <= sorted[0]
    ensures multiset(Without(picked, i)) <= multiset(sorted[1..])
  {
    assert picked[0] in multiset(picked) && picked[0] in multiset(sorted);
    var head := sorted[0];
    i := 0;
    if head in picked {
      i :| 0 <= i < |picked| && picked[i] == head;
    }
    assert picked[i] in multiset(picked) && picked[i] in multiset(sorted);
    assert sorted == [head] + sorted[1..];
    WithoutMultiset(picked, i);
  }

  // In a descending sequence no k elements add up to more than the first k.
  lemma {:induction false} PrefixDominates(sorted: seq<real>, picked: seq<real>)
    requires Descending(sorted) && multiset(picked) <= multiset(sorted)
    ensures |picked| <= |sorted|
    ensures Sum(picked) <= Sum(sorted[..|picked|])
    decreases |sorted|
  {
    if picked != [] {
      var i := PickFromRest(sorted, picked);
      PrefixDominates(sorted[1..], Without(picked, i));
      SumWithout(picked, i);
      SumWithout(sorted[..|picked|], 0);
      assert Without(sorted[..|picked|], 0) == sorted[1..][..|picked| - 1];
    }
  }

  lemma PrefixSumsGrow(s: seq<real>, j: nat, k: nat)
    requires j <= k <= |s| && NonNegative(s)
    ensures Sum(s[..j]) <= Sum(s[..k])
  {
    assert s[..k] == s[..j] + s[j..k];
    SumConcat(s[..j], s[j..k]);
    SumNonNegative(s[j..k]);
  }

  lemma {:induction false} SumAtLeast(s: seq<real>, low: real)
    requires forall i :: 0 <= i < |s| ==> s[i] >= low
    ensures Sum(s) >= |s| as real * low
  {
    if s != [] {
      SumAtLeast(s[..|s| - 1], low);
      assert |s| as real * low == (|s| - 1) as real * low + low;
    }
  }

  lemma {:induction false} SumAtMost(s: seq<real>, high: real)
    requires forall i :: 0 <= i < |s| ==> s[i] <= high
    ensures Sum(s) <= |s| as real * high
  {
    if s != [] {
      SumAtMost(s[..|s| - 1], high);
      assert |s| as real * high == (|s| - 1) as real * high + high;
    }
  }

  lemma AverageArithmetic(k: real, m: real, a: real, b: real, p: real)
    requires k >= 0.0 && m >= 0.0 && a >= k * p && b <= m * p
    ensures (k + m) * a >= k * (a + b)
  {
  }

  lemma SplitAtLevel(s: seq<real>, k: nat)
    requires 0 < k <= |s| && Descending(s)
    ensures forall i :: 0 <= i < |s[..k]| ==> s[..k][i] >= s[k - 1]
    ensures forall i :: 0 <= i < |s[k..]| ==> s[k..][i] <= s[k - 1]
  {
  }

  // The first k of a descending sequence have at least the average of the whole.
  lemma PrefixAboveAverage(s: seq<real>, k: nat)
    requires 0 < k <= |s| && Descending(s)
    ensures |s| as real * Sum(s[..k]) >= k as real * Sum(s)
  {
    hide Sum, Descending;
    var p, n, m := s[k - 1], k as real, (|s| - k) as real;
    assert s == s[..k] + s[k..];
    SplitAtLevel(s, k);
    SumAtLeast(s[..k], p);
    SumAtMost(s[k..], p);
    SumConcat(s[..k], s[k..]);
    AverageArithmetic(n, m, Sum(s[..k]), Sum(s[k..]), p);
    assert |s| as real == n + m;
  }

  // ----- Sum of squares against square of the sum -----

  function Product(x: real, y: real): real { x * y }

  function Square(x: real): real { Product(x, x) }

  function SumSq(s: seq<real>): real {
    if s == [] then 0.0 else SumSq(s[..|s| - 1]) + Square(s[|s| - 1])
  }

  // Squared distances of all elements from x, and of all pairs.
  function Gap(s: seq<real>, x: real): real {
    if s == [] then 0.0 else Gap(s[..|s| - 1], x) + Square(s[|s| - 1] - x)
  }

  ghost function PairGaps(s: seq<real>): real {
    if s == [] then 0.0 else PairGaps(s[..|s| - 1]) + Gap(s[..|s| - 1], s[|s| - 1])
  }

  lemma GapArithmetic(g: real, q: real, u: real, m: real, x: real, y: real)
    requires g == q - 2.0 * (x * u) + m * Square(x)
    ensures g + Square(y - x) == (q + Square(y)) - 2.0 * (x * (u + y)) + (m + 1.0) * Square(x)
  {
  }

  lemma {:induction false} GapExpands(s: seq<real>, x: real)
    ensures Gap(s, x) == SumSq(s) - 2.0 * (x * Sum(s)) + |s| as real * Square(x)
  {
    hide Square;
    if s != [] {
      var t := s[..|s| - 1];
      GapExpands(t, x);
      GapArithmetic(Gap(t, x), SumSq(t), Sum(t), |t| as real, x, s[|s| - 1]);
      assert |s| as real == |t| as real + 1.0;
    }
  }

  lemma PairArithmetic(p: real, q: real, u: real, m: real, x: real)
    requires p == m * q - Square(u)
    ensures p + (q - 2.0 * (x * u) + m * Square(x)) == (m + 1.0) * (q + Square(x)) - Square(u + x)
  {
  }

  // n * (sum of squares) - (sum)^2 is the total squared distance of all pairs.
  lemma {:induction false} PairGapsIdentity(s: seq<real>)
    ensures |s| as real * SumSq(s) - Square(Sum(s)) == PairGaps(s)
  {
    hide Square;
    if s == [] {
      SquareZero(0.0);
    } else {
      var t, x := s[..|s| - 1], s[|s| - 1];
      PairGapsIdentity(t);
      GapExpands(t, x);
      PairArithmetic(PairGaps(t), SumSq(t), Sum(t), |t| as real, x);
      assert |s| as real == |t| as real + 1.0;
      assert |s| as real * SumSq(s) - Square(Sum(s)) == PairGaps(s);
    }
  }

  ghost predicate AllAre(s: seq<real>, x: real) {
    forall i :: 0 <= i < |s| ==> s[i] == x
  }

  ghost predicate AllEqual(s: seq<real>) {
    forall i, j :: 0 <= i < |s| && 0 <= j < |s| ==> s[i] == s[j]
  }

  lemma ProductSigns(x: real, y: real)
    ensures x > 0.0 && y > 0.0 ==> Product(x, y) > 0.0
    ensures x < 0.0 && y < 0.0 ==> Product(x, y) > 0.0
    ensures x == 0.0 ==> Product(x, y) == 0.0
  {
  }

  lemma SquareZero(x: real)
    ensures Square(x) >= 0.0
    ensures Square(x) == 0.0 <==> x == 0.0
  {
    hide Product;
    ProductSigns(x, x);
  }

  lemma {:induction false} GapZero(s: seq<real>, x: real)
    ensures Gap(s, x) >= 0.0
    ensures Gap(s, x) == 0.0 <==> AllAre(s, x)
  {
    hide Square;
    if s != [] {
      GapZero(s[..|s| - 1], x);
      SquareZero(s[|s| - 1] - x);
      assert AllAre(s, x) <==> AllAre(s[..|s| - 1], x) && s[|s| - 1] == x;
    }
  }

  lemma {:induction false} PairGapsZero(s: seq<real>)
    ensures PairGaps(s) >= 0.0
    ensures PairGaps(s) == 0.0 <==> AllEqual(s)
  {
    if s != [] {
      var t := s[..|s| - 1];
      PairGapsZero(t);
      GapZero(t, s[|s| - 1]);
      assert AllEqual(s) <==> AllEqual(t) && AllAre(t, s[|s| - 1]);
    }
  }

  // Cauchy-Schwarz, with its equality case.
  lemma SquareOfSumBound(s: seq<real>)
    ensures Square(Sum(s)) <= |s| as real * SumSq(s)
    ensures Square(Sum(s)) == |s| as real * SumSq(s) <==> AllEqual(s)
  {
    PairGapsIdentity(s);
    PairGapsZero(s);
  }

  // Everything but element i is zero.
  ghost predicate Carries(s: seq<real>, i: nat) {
    i < |s| && forall j :: 0 <= j < |s| && j != i ==> s[j] == 0.0
  }

  ghost predicate OneCarriesAll(s: seq<real>) {
    exists i: nat :: Carries(s, i)
  }

  lemma CarrierOfLonger(s: seq<real>)
    requires s != [] && NonNegative(s)
    ensures OneCarriesAll(s) <==>
              AllZero(s[..|s| - 1]) || (s[|s| - 1] == 0.0 && OneCarriesAll(s[..|s| - 1]))
  {
    var n := |s| - 1;
    var t := s[..n];
    if AllZero(t) { assert Carries(s, n); }
    if s[n] == 0.0 && OneCarriesAll(t) {
      var i: nat :| Carries(t, i);
      assert Carries(s, i);
    }
    if OneCarriesAll(s) {
      var i: nat :| Carries(s, i);
      if i == n {
        assert AllZero(t);
      } else {
        assert Carries(t, i) && s[n] == 0.0;
      }
    }
  }

  lemma CarryArithmetic(u: real, x: real)
    requires u >= 0.0 && x >= 0.0
    ensures Square(u + x) == Square(u) + Square(x) + 2.0 * (x * u)
    ensures x * u >= 0.0 && (x * u == 0.0 <==> x == 0.0 || u == 0.0)
  {
  }

  // For non-negative elements the squares add up to at most the square of the sum, with equality
  // exactly when at most one element is non-zero.
  lemma {:induction false} SumSqBound(s: seq<real>)
    requires NonNegative(s)
    ensures SumSq(s) <= Square(Sum(s))
    ensures s != [] ==> (SumSq(s) == Square(Sum(s)) <==> OneCarriesAll(s))
  {
    hide Square, OneCarriesAll;
    if s == [] {
      SquareZero(0.0);
    } else {
      var t, x := s[..|s| - 1], s[|s| - 1];
      SumSqBound(t);
      SumNonNegative(t);
      CarryArithmetic(Sum(t), x);
      CarrierOfLonger(s);
      EmptyCarries(t);
      assert SumSq(s) <= Square(Sum(s));
      assert SumSq(s) == Square(Sum(s)) <==> OneCarriesAll(s);
    }
  }

  lemma EmptyCarries(t: seq<real>)
    ensures t == [] ==> SumSq(t) == Square(Sum(t))
    ensures t != [] && AllZero(t) ==> OneCarriesAll(t)
  {
    if t != [] && AllZero(t) { assert Carries(t, 0); }
  }

  // ----- Sequences through a map -----

  function Map<T>(f: T -> real, s: seq<T>): (r: seq<real>)
    ensures |r| == |s|
    ensures forall i :: 0 <= i < |s| ==> r[i] == f(s[i])
  {
    seq(|s|, i requires 0 <= i < |s| => f(s[i]))
  }

  lemma MapWithout<T>(f: T -> real, s: seq<T>, i: nat)
    requires i < |s|
    ensures Map(f, Without(s, i)) == Without(Map(f, s), i)
  {
  }

  lemma MapMultiset<T>(f: T -> real, s: seq<T>, i: nat)
    requires i < |s|
    ensures multiset(Map(f, s)) == multiset(Map(f, Without(s, i))) + multiset{f(s[i])}
  {
    MapWithout(f, s, i);
    WithoutMultiset(Map(f, s), i);
    assert Map(f, s)[i] in multiset(Map(f, s));
  }

  lemma {:induction false} MapPermuted<T>(f: T -> real, a: seq<T>, b: seq<T>)
    requires multiset(a) == multiset(b)
    ensures multiset(Map(f, a)) == multiset(Map(f, b))
    decreases |a|
  {
    hide Map, Without;
    if a == [] {
      assert |multiset(b)| == 0;
      assert a == b;
    } else {
      assert a[0] in multiset(b);
      var i :| 0 <= i < |b| && b[i] == a[0];
      WithoutMultiset(a, 0);
      WithoutMultiset(b, i);
      MapPermuted(f, Without(a, 0), Without(b, i));
      MapMultiset(f, a, 0);
      MapMultiset(f, b, i);
    }
  }

  lemma {:induction false} MapPicked<T>(f: T -> real, picked: seq<T>, all: seq<T>)
    requires multiset(picked) <= multiset(all)
    ensures multiset(Map(f, picked)) <= multiset(Map(f, all))
    decreases |picked|
  {
    hide Map, Without;
    if picked == [] {
      assert |Map(f, picked)| == 0;
    } else {
      assert picked[0] in multiset(all);
      var i :| 0 <= i < |all| && all[i] == picked[0];
      WithoutMultiset(picked, 0);
      WithoutMultiset(all, i);
      MapPicked(f, Without(picked, 0), Without(all, i));
      MapMultiset(f, picked, 0);
      MapMultiset(f, all, i);
    }
  }

  lemma SquaresPermuted(a: seq<real>, b: seq<real>)
    requires multiset(a) == multiset(b)
    ensures SumSq(a) == SumSq(b)
  {
    SumOfSquares(a);
    SumOfSquares(b);
    SumMapPermuted(Square, a, b);
  }

  lemma {:induction false} SumOfSquares(s: seq<real>)
    ensures SumSq(s) == Sum(Map(Square, s))
  {
    hide Square;
    if s != [] {
      SumOfSquares(s[..|s| - 1]);
      assert Map(Square, s)[..|s| - 1] == Map(Square, s[..|s| - 1]);
    }
  }

  lemma SumMapAppend<T>(f: T -> real, s: seq<T>, x: T)
    ensures Sum(Map(f, s + [x])) == Sum(Map(f, s)) + f(x)
  {
    SumAppend(Map(f, s), f(x));
    assert Map(f, s + [x]) == Map(f, s) + [f(x)];
  }

  lemma SumMapPermuted<T>(f: T -> real, a: seq<T>, b: seq<T>)
    requires multiset(a) == multiset(b)
    ensures Sum(Map(f, a)) == Sum(Map(f, b))
  {
    MapPermuted(f, a, b);
    SumPermuted(Map(f, a), Map(f, b));
  }

  lemma {:induction false} SumMapAdd<T>(f: T -> real, g: T -> real, sum: T -> real, s: seq<T>)
    requires forall i :: 0 <= i < |s| ==> sum(s[i]) == f(s[i]) + g(s[i])
    ensures Sum(Map(sum, s)) == Sum(Map(f, s)) + Sum(Map(g, s))
  {
    if s != [] {
      var front, x := s[..|s| - 1], s[|s| - 1];
      assert s == front + [x];
      SumMapAdd(f, g, sum, front);
      SumMapAppend(f, front, x);
      SumMapAppend(g, front, x);
      SumMapAppend(sum, front, x);
    }
  }
}
