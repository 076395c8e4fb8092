/** Year-indexed series: the model of the pandas columns the integration
    works on (adoption, TAM areas, savings), and their mean over the fixed
    2020..2050 analysis window. */
module Series {

  /** A series maps a year to a value; years absent from the map are absent
      from the series. */
  type Series = map<int, real>

  const WindowStart: int := 2020
  const WindowEnd: int := 2050

  predicate InWindow(y: int) {
    WindowStart <= y <= WindowEnd
  }

  /** No year of the series holds zero (a TAM area used as a divisor). */
  predicate NonZero(s: Series) {
    forall y :: y in s ==> s[y] != 0.0
  }

  /** No year of the window holds zero (an adoption used as a divisor). */
  predicate NonZeroInWindow(s: Series) {
    forall y :: y in s && InWindow(y) ==> s[y] != 0.0
  }

  /** Element-wise sum over the years both series hold. */
  function Add(a: Series, b: Series): (r: Series)
    ensures r.Keys == a.Keys * b.Keys
    ensures forall y :: y in r ==> r[y] - a[y] == b[y] && r[y] - b[y] == a[y]
  {
    map y | y in a.Keys * b.Keys :: a[y] + b[y]
  }

  /** The values the series holds for the years y..WindowEnd, in year order.
      (The measure names the series' years as well, so that the verifier
      does not unroll the recursion whenever the year is a constant.) */
  function ValuesFrom(s: Series, y: int): seq<real>
    decreases s.Keys, WindowEnd + 1 - y
  {
    if y > WindowEnd then []
    else (if y in s then [s[y]] else []) + ValuesFrom(s, y + 1)
  }

  /** The window slice of a series (pandas `.loc[2020:2050]`), in year order. */
  function WindowValues(s: Series): seq<real> {
    ValuesFrom(s, WindowStart)
  }

  function Sum(xs: seq<real>): real {
    if xs == [] then 0.0 else xs[0] + Sum(xs[1..])
  }

  /** Arithmetic mean of a non-empty sequence of values. */
  function Mean(xs: seq<real>): real
    requires |xs| > 0
  {
    Sum(xs) / (|xs| as real)
  }

  /** The series holds at least one year of the window. */
  predicate HasWindowYear(s: Series) {
    exists y :: y in s && InWindow(y)
  }

  /** Mean of the window slice (pandas `.loc[2020:2050].mean()`): it lies
      between the least and the greatest value the series holds in the
      window. */
  function WindowMean(s: Series): (m: real)
    requires HasWindowYear(s)
    ensures exists k :: k in s && InWindow(k) && s[k] <= m
    ensures exists k :: k in s && InWindow(k) && m <= s[k]
  {
    WindowNonEmpty(s);
    MeanAttained(s);
    Mean(WindowValues(s))
  }

  /** Some window value is at most the mean, and some is at least the mean. */
  lemma MeanAttained(s: Series)
    requires HasWindowYear(s)
    ensures |WindowValues(s)| > 0
    ensures exists k :: k in s && InWindow(k) && s[k] <= Mean(WindowValues(s))
    ensures exists k :: k in s && InWindow(k) && Mean(WindowValues(s)) <= s[k]
  {
    WindowNonEmpty(s);
    var xs := WindowValues(s);
    var m := Mean(xs);
    var n := |xs| as real;
    if forall k :: k in s && InWindow(k) ==> m < s[k] {
      ValuesFromAbove(s, WindowStart, m);
      SumAbove(xs, m);
      DivideAbove(Sum(xs), n, m);
      assert false;
    }
    if forall k :: k in s && InWindow(k) ==> s[k] < m {
      ValuesFromBelow(s, WindowStart, m);
      SumBelow(xs, m);
      DivideBelow(Sum(xs), n, m);
      assert false;
    }
  }

  lemma {:induction false} ValuesFromAbove(s: Series, y: int, m: real)
    requires forall k :: k in s && y <= k <= WindowEnd ==> m < s[k]
    ensures forall i :: 0 <= i < |ValuesFrom(s, y)| ==> m < ValuesFrom(s, y)[i]
    decreases WindowEnd + 1 - y
  {
    if y <= WindowEnd {
      ValuesFromAbove(s, y + 1, m);
    }
  }

  lemma {:induction false} ValuesFromBelow(s: Series, y: int, m: real)
    requires forall k :: k in s && y <= k <= WindowEnd ==> s[k] < m
    ensures forall i :: 0 <= i < |ValuesFrom(s, y)| ==> ValuesFrom(s, y)[i] < m
    decreases WindowEnd + 1 - y
  {
    if y <= WindowEnd {
      ValuesFromBelow(s, y + 1, m);
    }
  }

  /** Elements all above m put a non-empty sum above m times the length. */
  lemma {:induction false} SumAbove(xs: seq<real>, m: real)
    requires |xs| > 0
    requires forall i :: 0 <= i < |xs| ==> m < xs[i]
    ensures m * (|xs| as real) < Sum(xs)
  {
    var n := |xs[1..]| as real;
    assert |xs| as real == 1.0 + n;
    Distribute(m, n);
    if |xs| > 1 {
      SumAbove(xs[1..], m);
    } else {
      assert xs[1..] == [];
    }
  }

  lemma {:induction false} SumBelow(xs: seq<real>, m: real)
    requires |xs| > 0
    requires forall i :: 0 <= i < |xs| ==> xs[i] < m
    ensures Sum(xs) < m * (|xs| as real)
  {
    var n := |xs[1..]| as real;
    assert |xs| as real == 1.0 + n;
    Distribute(m, n);
    if |xs| > 1 {
      SumBelow(xs[1..], m);
    } else {
      assert xs[1..] == [];
    }
  }

  lemma DivideAbove(total: real, n: real, m: real)
    requires n > 0.0 && m * n < total
    ensures m < total / n
  {
    var q := total / n;
    assert q * n == total;
    if q <= m {
      MulMonoRight(q, m, n);
    }
  }

  lemma DivideBelow(total: real, n: real, m: real)
    requires n > 0.0 && total < m * n
    ensures total / n < m
  {
    var q := total / n;
    assert q * n == total;
    if m <= q {
      MulMonoRight(m, q, n);
    }
  }

  lemma MulMonoRight(a: real, b: real, n: real)
    requires a <= b && n > 0.0
    ensures a * n <= b * n
  {
    if a < b {
      PositiveProduct(b - a, n);
      assert (b - a) * n == b * n - a * n;
    }
  }

  /** A year y..WindowEnd that the series holds makes the slice non-empty. */
  lemma {:induction false} ValuesFromNonEmpty(s: Series, y: int, k: int)
    requires k in s && y <= k <= WindowEnd
    ensures |ValuesFrom(s, y)| > 0
    decreases WindowEnd + 1 - y
  {
    if y < k {
      ValuesFromNonEmpty(s, y + 1, k);
    }
  }

  lemma WindowNonEmpty(s: Series)
    requires HasWindowYear(s)
    ensures |WindowValues(s)| > 0
  {
    var k :| k in s && InWindow(k);
    ValuesFromNonEmpty(s, WindowStart, k);
  }

  /** Every value of the slice is the series' value at one of its years y..WindowEnd. */
  lemma {:induction false} ValuesFromBounds(s: Series, y: int, lo: real, hi: real)
    requires forall k :: k in s && y <= k <= WindowEnd ==> lo <= s[k] <= hi
    ensures forall i :: 0 <= i < |ValuesFrom(s, y)| ==> lo <= ValuesFrom(s, y)[i] <= hi
    decreases WindowEnd + 1 - y
  {
    if y <= WindowEnd {
      ValuesFromBounds(s, y + 1, lo, hi);
    }
  }

  /** Bounds on every element bound the sum by the length. */
  lemma {:induction false} SumBounds(xs: seq<real>, lo: real, hi: real)
    requires forall i :: 0 <= i < |xs| ==> lo <= xs[i] <= hi
    ensures lo * (|xs| as real) <= Sum(xs) <= hi * (|xs| as real)
  {
    if xs != [] {
      SumBounds(xs[1..], lo, hi);
      var n := |xs[1..]| as real;
      assert |xs| as real == 1.0 + n;
      Distribute(lo, n);
      Distribute(hi, n);
    }
  }

  lemma Distribute(a: real, n: real)
    ensures a * (1.0 + n) == a + a * n
  {
  }

  /** The mean of a non-empty sequence lies between any bounds of its elements. */
  lemma MeanBounds(xs: seq<real>, lo: real, hi: real)
    requires |xs| > 0
    requires forall i :: 0 <= i < |xs| ==> lo <= xs[i] <= hi
    ensures lo <= Mean(xs) <= hi
  {
    SumBounds(xs, lo, hi);
    DivideBounds(Sum(xs), |xs| as real, lo, hi);
  }

  lemma DivideBounds(total: real, n: real, lo: real, hi: real)
    requires n > 0.0 && lo * n <= total <= hi * n
    ensures lo <= total / n <= hi
  {
    var q := total / n;
    assert q * n == total;
    if q < lo {
      PositiveProduct(lo - q, n);
    } else if q > hi {
      PositiveProduct(q - hi, n);
    }
  }

  lemma PositiveProduct(a: real, b: real)
    requires a > 0.0 && b > 0.0
    ensures a * b > 0.0
  {
  }

  /** The window mean lies between any bounds of the series' values in the window. */
  lemma WindowMeanBounds(s: Series, lo: real, hi: real)
    requires HasWindowYear(s)
    requires forall k :: k in s && InWindow(k) ==> lo <= s[k] <= hi
    ensures lo <= WindowMean(s) <= hi
  {
    WindowNonEmpty(s);
    ValuesFromBounds(s, WindowStart, lo, hi);
    MeanBounds(WindowValues(s), lo, hi);
  }

  /** Only the years y..WindowEnd of a series make up its slice. */
  lemma {:induction false} ValuesFromOnWindow(s: Series, t: Series, y: int)
    requires forall k :: y <= k <= WindowEnd ==> (k in s <==> k in t)
    requires forall k :: k in s && y <= k <= WindowEnd ==> s[k] == t[k]
    ensures ValuesFrom(s, y) == ValuesFrom(t, y)
    decreases WindowEnd + 1 - y
  {
    if y <= WindowEnd {
      ValuesFromOnWindow(s, t, y + 1);
    }
  }

  /** Two series that agree on the window have the same window mean. */
  lemma WindowMeanOnWindow(s: Series, t: Series)
    requires HasWindowYear(s)
    requires forall k :: InWindow(k) ==> (k in s <==> k in t)
    requires forall k :: k in s && InWindow(k) ==> s[k] == t[k]
    ensures HasWindowYear(t) && WindowMean(s) == WindowMean(t)
  {
    var k :| k in s && InWindow(k);
    assert k in t;
    ValuesFromOnWindow(s, t, WindowStart);
  }
}
