/** Reductions and constructors over real sequences that the numpy and pandas
    calls of the source stand for: `sum`, `mean`, `cumsum`, `linspace`,
    `min` and `max`. */
module Series {

  /** The sum of a sequence, accumulated from the front as a loop would. */
  function Sum(s: seq<real>): real
  {
    if |s| == 0 then 0.0 else Sum(s[..|s| - 1]) + s[|s| - 1]
  }

  /** The arithmetic mean of a non-empty sequence (numpy.mean). */
  function Mean(s: seq<real>): real
    requires |s| > 0
  {
    Sum(s) / |s| as real
  }

  /** Cumulative sums (numpy.cumsum): entry i is the sum of s[0..i]. */
  function PrefixSums(s: seq<real>): (r: seq<real>)
    ensures |r| == |s|
  {
    seq(|s|, i requires 0 <= i < |s| => Sum(s[..i + 1]))
  }

  /** numpy.linspace(start, stop, num): num evenly spaced points from start
      to stop inclusive; a single point is `start`. */
  function Linspace(start: real, stop: real, num: nat): (r: seq<real>)
    ensures |r| == num
  {
    seq(num, i => if num == 1 then start else start + i as real * (stop - start) / (num - 1) as real)
  }

  /** The absolute value (Python's abs on a float). */
  function Abs(x: real): (a: real)
    ensures 0.0 <= a && (a == x || a == -x)
  {
    if x < 0.0 then -x else x
  }

  /** The smallest element of a non-empty sequence. */
  function Min(s: seq<real>): (m: real)
    requires |s| > 0
    ensures forall i :: 0 <= i < |s| ==> m <= s[i]
    ensures exists i :: 0 <= i < |s| && s[i] == m
  {
    if |s| == 1 then s[0]
    else
      var m := Min(s[..|s| - 1]);
      if m <= s[|s| - 1] then m else s[|s| - 1]
  }

  /** The largest element of a non-empty sequence. */
  function Max(s: seq<real>): (m: real)
    requires |s| > 0
    ensures forall i :: 0 <= i < |s| ==> s[i] <= m
    ensures exists i :: 0 <= i < |s| && s[i] == m
  {
    if |s| == 1 then s[0]
    else
      var m := Max(s[..|s| - 1]);
      if s[|s| - 1] <= m then m else s[|s| - 1]
  }

  /** Appending one element adds it to the sum. */
  lemma SumAppend(s: seq<real>, x: real)
    ensures Sum(s + [x]) == Sum(s) + x
  {
    assert (s + [x])[..|s|] == s;
  }

  /** Bounds on every element bound the sum: |s|*lo <= Sum(s) <= |s|*hi. */
  lemma {:induction false} SumBounds(s: seq<real>, lo: real, hi: real)
    requires forall i :: 0 <= i < |s| ==> lo <= s[i] <= hi
    ensures |s| as real * lo <= Sum(s) <= |s| as real * hi
  {
    if |s| > 0 {
      var init := s[..|s| - 1];
      SumBounds(init, lo, hi);
      assert |s| as real * lo == |init| as real * lo + lo;
      assert |s| as real * hi == |init| as real * hi + hi;
    }
  }

  /** A strict upper bound on every element of a non-empty sequence is a
      strict bound on the sum. */
  lemma {:induction false} SumStrictUpper(s: seq<real>, hi: real)
    requires |s| > 0
    requires forall i :: 0 <= i < |s| ==> s[i] < hi
    ensures Sum(s) < |s| as real * hi
  {
    var init := s[..|s| - 1];
    if |init| == 0 {
      assert Sum(init) == 0.0;
    } else {
      SumStrictUpper(init, hi);
    }
    assert |s| as real * hi == |init| as real * hi + hi;
  }

  /** A strict lower bound on every element of a non-empty sequence is a
      strict bound on the sum. */
  lemma {:induction false} SumStrictLower(s: seq<real>, lo: real)
    requires |s| > 0
    requires forall i :: 0 <= i < |s| ==> lo < s[i]
    ensures |s| as real * lo < Sum(s)
  {
    var init := s[..|s| - 1];
    if |init| == 0 {
      assert Sum(init) == 0.0;
    } else {
      SumStrictLower(init, lo);
    }
    assert |s| as real * lo == |init| as real * lo + lo;
  }

  /** The sum is linear: pointwise a*t + b*u sums to a*Sum(t) + b*Sum(u). */
  lemma {:induction false} SumLinear(s: seq<real>, t: seq<real>, u: seq<real>, a: real, b: real)
    requires |s| == |t| == |u|
    requires forall i :: 0 <= i < |s| ==> s[i] == a * t[i] + b * u[i]
    ensures Sum(s) == a * Sum(t) + b * Sum(u)
  {
    if |s| > 0 {
      var n := |s| - 1;
      var x, y := Sum(t[..n]), Sum(u[..n]);
      assert Sum(s) == (a * x + b * y) + (a * t[n] + b * u[n]) by {
        SumLinear(s[..n], t[..n], u[..n], a, b);
      }
      CombineSums(a, b, Sum(t), Sum(u), x, y, t[n], u[n]);
    }
  }

  lemma CombineSums(a: real, b: real, sx: real, sy: real, x: real, y: real, p: real, q: real)
    requires sx == x + p && sy == y + q
    ensures a * sx + b * sy == (a * x + b * y) + (a * p + b * q)
  {
  }

  /** Scaling every element scales the sum. */
  lemma SumScale(s: seq<real>, t: seq<real>, k: real)
    requires |s| == |t|
    requires forall i :: 0 <= i < |s| ==> s[i] == k * t[i]
    ensures Sum(s) == k * Sum(t)
  {
    SumLinear(s, t, t, k, 0.0);
  }

  /** Pointwise smaller sequences have smaller sums. */
  lemma {:induction false} SumMonotone(s: seq<real>, t: seq<real>)
    requires |s| == |t|
    requires forall i :: 0 <= i < |s| ==> s[i] <= t[i]
    ensures Sum(s) <= Sum(t)
  {
    if |s| > 0 {
      SumMonotone(s[..|s| - 1], t[..|t| - 1]);
    }
  }

  /** A sum of non-negative numbers is non-negative. */
  lemma {:induction false} SumNonNegative(s: seq<real>)
    requires forall i :: 0 <= i < |s| ==> 0.0 <= s[i]
    ensures 0.0 <= Sum(s)
  {
    if |s| > 0 {
      SumNonNegative(s[..|s| - 1]);
    }
  }

  /** In a sequence of non-negative numbers no element exceeds the sum. */
  lemma {:induction false} ElementAtMostSum(s: seq<real>, k: nat)
    requires k < |s|
    requires forall i :: 0 <= i < |s| ==> 0.0 <= s[i]
    ensures s[k] <= Sum(s)
  {
    var init := s[..|s| - 1];
    if k == |s| - 1 {
      SumNonNegative(init);
    } else {
      ElementAtMostSum(init, k);
    }
  }

  /** Raising elements never lowers the sum, and raising the first strictly
      raises it. */
  lemma SumStrictMonotone(s: seq<real>, t: seq<real>)
    requires |s| == |t| > 0
    requires forall i :: 0 <= i < |s| ==> s[i] <= t[i]
    requires s[0] < t[0]
    ensures Sum(s) < Sum(t)
  {
    var d := seq(|s|, i requires 0 <= i < |s| => t[i] - s[i]);
    SumLinear(d, t, s, 1.0, -1.0);
    ElementAtMostSum(d, 0);
  }

  /** Raising every element strictly raises the mean. */
  lemma MeanStrictMonotone(s: seq<real>, t: seq<real>)
    requires |s| == |t| > 0
    requires forall i :: 0 <= i < |s| ==> s[i] < t[i]
    ensures Mean(s) < Mean(t)
  {
    var d := seq(|s|, i requires 0 <= i < |s| => t[i] - s[i]);
    SumLinear(d, t, s, 1.0, -1.0);
    SumStrictLower(d, 0.0);
    var n := |s| as real;
    assert Sum(s) / n < Sum(t) / n;
  }

  /** A mean lies between any common bounds of the elements. */
  lemma MeanBounds(s: seq<real>, lo: real, hi: real)
    requires |s| > 0
    requires forall i :: 0 <= i < |s| ==> lo <= s[i] <= hi
    ensures lo <= Mean(s) <= hi
  {
    SumBounds(s, lo, hi);
    var n := |s| as real;
    assert Sum(s) / n >= (n * lo) / n;
    assert Sum(s) / n <= (n * hi) / n;
  }

  /** The mean of a sequence whose every element is c is c. */
  lemma MeanConstant(s: seq<real>, c: real)
    requires |s| > 0
    requires forall i :: 0 <= i < |s| ==> s[i] == c
    ensures Mean(s) == c
  {
    MeanBounds(s, c, c);
  }

  /** A strict upper bound on every element is a strict bound on the mean. */
  lemma MeanStrictUpper(s: seq<real>, hi: real)
    requires |s| > 0
    requires forall i :: 0 <= i < |s| ==> s[i] < hi
    ensures Mean(s) < hi
  {
    SumStrictUpper(s, hi);
    var n := |s| as real;
    assert Sum(s) / n < (n * hi) / n;
  }

  /** A strict lower bound on every element is a strict bound on the mean. */
  lemma MeanStrictLower(s: seq<real>, lo: real)
    requires |s| > 0
    requires forall i :: 0 <= i < |s| ==> lo < s[i]
    ensures lo < Mean(s)
  {
    SumStrictLower(s, lo);
    var n := |s| as real;
    assert (n * lo) / n < Sum(s) / n;
  }

  /** The cumulative sums are the running totals: they start with the first
      element and each adds the next one. */
  lemma PrefixSumsStep(s: seq<real>, i: nat)
    requires i < |s|
    ensures PrefixSums(s)[i] == (if i == 0 then 0.0 else PrefixSums(s)[i - 1]) + s[i]
  {
    assert s[..i + 1][..i] == s[..i];
    if i == 0 {
      assert Sum(s[..0]) == 0.0;
    }
  }

  /** numpy.linspace starts at `start` and, with two or more points, ends
      exactly at `stop`. */
  lemma LinspaceEnds(start: real, stop: real, num: nat)
    requires num >= 1
    ensures Linspace(start, stop, num)[0] == start
    ensures num >= 2 ==> Linspace(start, stop, num)[num - 1] == stop
  {
    if num >= 2 {
      var d := (num - 1) as real;
      assert d * (stop - start) / d == stop - start;
    }
  }

  /** numpy.linspace is evenly spaced: neighbours differ by
      (stop - start) / (num - 1). */
  lemma LinspaceSpacing(start: real, stop: real, num: nat, i: nat)
    requires i + 1 < num
    ensures Linspace(start, stop, num)[i + 1] - Linspace(start, stop, num)[i] == (stop - start) / (num - 1) as real
  {
    var d := (num - 1) as real;
    var w := stop - start;
    assert (i + 1) as real * w == i as real * w + w;
    DivideDifference((i + 1) as real * w, i as real * w, d);
  }

  lemma DivideDifference(a: real, b: real, d: real)
    requires d != 0.0
    ensures a / d - b / d == (a - b) / d
  {
  }
}
