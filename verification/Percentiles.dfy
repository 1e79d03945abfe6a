/**
 The two percentiles of the telemetry scripts: nearest rank, for the report on merged events, and
 linear interpolation, for the benchmark figures. Numbers are exact reals.
 */
module Percentiles {
  import opened Wrappers
  import opened StableSort

  predicate RealLe(a: real, b: real) {
    a <= b
  }

  lemma RealLeIsTotalOrder()
    ensures TotalOrder(RealLe)
  {
  }

  function Ceil(x: real): int {
    -(-x).Floor
  }

  function Ordered(values: seq<real>): seq<real> {
    Sort(values, RealLe)
  }

  lemma OrderedFacts(values: seq<real>)
    ensures |Ordered(values)| == |values| && multiset(Ordered(values)) == multiset(values)
    ensures forall i, j :: 0 <= i <= j < |values| ==> Ordered(values)[i] <= Ordered(values)[j]
  {
    RealLeIsTotalOrder();
    SortPermutes(values, RealLe);
    SortSorts(values, RealLe);
  }

  lemma OrderedOfPermutation(a: seq<real>, b: seq<real>)
    requires multiset(a) == multiset(b)
    ensures Ordered(a) == Ordered(b)
  {
    RealLeIsTotalOrder();
    SortOfPermutation(a, b, RealLe);
  }

  // ----- nearest rank -----

  ghost predicate Ascending(s: seq<real>) {
    forall i, j :: 0 <= i <= j < |s| ==> s[i] <= s[j]
  }

  function Rank(percentile: real, n: nat): int {
    var r := Ceil(percentile * n as real) - 1;
    if r > 0 then r else 0
  }

  lemma ShareIsPositive(percentile: real, n: real)
    requires 0.0 < percentile <= 1.0 && 0.0 < n
    ensures 0.0 < percentile * n <= n
  {
  }

  lemma CeilIsAbove(x: real, n: nat)
    requires 0.0 < x <= n as real
    ensures 1 <= Ceil(x) <= n && (Ceil(x) - 1) as real < x <= Ceil(x) as real
  {
  }

  lemma RankIsAnIndex(percentile: real, n: nat)
    requires 0.0 < percentile <= 1.0 && n > 0
    ensures 0 <= Rank(percentile, n) < n
    ensures percentile * n as real <= (Rank(percentile, n) + 1) as real
    ensures Rank(percentile, n) as real < percentile * n as real
  {
    ShareIsPositive(percentile, n as real);
    CeilIsAbove(percentile * n as real, n);
  }

  function NearestRank(values: seq<real>, percentile: real): Option<real>
    requires 0.0 < percentile <= 1.0
  {
    if values == [] then None
    else
      RankIsAnIndex(percentile, |values|);
      OrderedFacts(values);
      Some(Ordered(values)[Rank(percentile, |values|)])
  }

  /** How many samples satisfy the bound. */
  function CountUpTo(values: seq<real>, bound: real): nat {
    if values == [] then 0 else (if values[0] <= bound then 1 else 0) + CountUpTo(values[1..], bound)
  }

  function CountBelow(values: seq<real>, bound: real): nat {
    if values == [] then 0 else (if values[0] < bound then 1 else 0) + CountBelow(values[1..], bound)
  }

  lemma {:induction false} CountsConcat(a: seq<real>, b: seq<real>, bound: real)
    ensures CountUpTo(a + b, bound) == CountUpTo(a, bound) + CountUpTo(b, bound)
    ensures CountBelow(a + b, bound) == CountBelow(a, bound) + CountBelow(b, bound)
  {
    if a == [] {
      assert a + b == b;
    } else {
      assert (a + b)[1..] == a[1..] + b;
      CountsConcat(a[1..], b, bound);
    }
  }

  lemma {:induction false} InsertCounts(x: real, s: seq<real>, bound: real)
    ensures CountUpTo(Insert(x, s, RealLe), bound) == CountUpTo([x], bound) + CountUpTo(s, bound)
    ensures CountBelow(Insert(x, s, RealLe), bound) == CountBelow([x], bound) + CountBelow(s, bound)
  {
    if s == [] || x <= s[0] {
      CountsConcat([x], s, bound);
    } else {
      InsertCounts(x, s[1..], bound);
      var r := Insert(x, s, RealLe);
      assert r[1..] == Insert(x, s[1..], RealLe);
    }
  }

  lemma {:induction false} OrderedCounts(values: seq<real>, bound: real)
    ensures CountUpTo(Ordered(values), bound) == CountUpTo(values, bound)
    ensures CountBelow(Ordered(values), bound) == CountBelow(values, bound)
  {
    if values != [] {
      OrderedCounts(values[1..], bound);
      InsertCounts(values[0], Ordered(values[1..]), bound);
      assert [values[0]][1..] == [];
    }
  }

  lemma {:induction false} CountsAreAtMost(values: seq<real>, bound: real)
    ensures CountUpTo(values, bound) <= |values| && CountBelow(values, bound) <= |values|
    ensures (forall i :: 0 <= i < |values| ==> values[i] <= bound) ==> CountUpTo(values, bound) == |values|
    ensures (forall i :: 0 <= i < |values| ==> bound <= values[i]) ==> CountBelow(values, bound) == 0
  {
    if values != [] {
      CountsAreAtMost(values[1..], bound);
    }
  }

  lemma CountsOfParts(front: seq<real>, back: seq<real>, bound: real)
    ensures (forall i :: 0 <= i < |front| ==> front[i] <= bound) ==> CountUpTo(front + back, bound) >= |front|
    ensures (forall i :: 0 <= i < |back| ==> bound <= back[i]) ==> CountBelow(front + back, bound) <= |front|
  {
    CountsConcat(front, back, bound);
    CountsAreAtMost(front, bound);
    CountsAreAtMost(back, bound);
  }

  lemma CountsAt(s: seq<real>, k: nat)
    requires k < |s| && Ascending(s)
    ensures CountUpTo(s, s[k]) >= k + 1 && CountBelow(s, s[k]) <= k
  {
    assert s[..k + 1] + s[k + 1..] == s && s[..k] + s[k..] == s;
    var front, back := s[..k + 1], s[k..];
    assert forall i :: 0 <= i < |front| ==> front[i] <= s[k];
    assert forall i :: 0 <= i < |back| ==> s[k] <= back[i];
    CountsOfParts(s[..k + 1], s[k + 1..], s[k]);
    CountsOfParts(s[..k], s[k..], s[k]);
  }

  /**
   The result is a sample; at least the requested share of the samples is not above it, and less than that
   share is below it.
   */
  lemma NearestRankSplitsTheSamples(values: seq<real>, percentile: real)
    requires 0.0 < percentile <= 1.0 && values != []
    ensures var r := NearestRank(values, percentile).value;
            && r in values
            && CountUpTo(values, r) as real >= percentile * |values| as real
            && (CountBelow(values, r) as real) < percentile * |values| as real
  {
    var ordered := Ordered(values);
    var k := Rank(percentile, |values|);
    var share := percentile * |values| as real;
    assert 0 <= k < |values| && share <= (k + 1) as real && k as real < share by {
      RankIsAnIndex(percentile, |values|);
    }
    OrderedFacts(values);
    assert ordered[k] in multiset(values);
    OrderedCounts(values, ordered[k]);
    CountsAt(ordered, k);
  }

  lemma NearestRankOfPermutation(a: seq<real>, b: seq<real>, percentile: real)
    requires 0.0 < percentile <= 1.0 && multiset(a) == multiset(b)
    ensures NearestRank(a, percentile) == NearestRank(b, percentile)
  {
    OrderedOfPermutation(a, b);
    assert |a| == |multiset(a)| == |multiset(b)| == |b|;
  }

  // ----- interpolation -----

  /** The nearest integer, the even one of two. */
  function HalfEven(x: real): int {
    var low := x.Floor;
    var rest := x - low as real;
    if rest < 0.5 then low else if rest > 0.5 then low + 1 else if low % 2 == 0 then low else low + 1
  }

  lemma HalfEvenIsMonotone(x: real, y: real)
    requires x <= y
    ensures HalfEven(x) <= HalfEven(y)
  {
    assert x.Floor <= y.Floor;
    if x.Floor < y.Floor {
      assert HalfEven(x) <= x.Floor + 1 <= y.Floor <= HalfEven(y);
    }
  }

  /** Rounding to three decimal places. */
  function Round3(x: real): real {
    HalfEven(x * 1000.0) as real / 1000.0
  }

  lemma Round3IsMonotone(x: real, y: real)
    requires x <= y
    ensures Round3(x) <= Round3(y)
  {
    HalfEvenIsMonotone(x * 1000.0, y * 1000.0);
  }

  /** The value at a fractional index. */
  function At(ordered: seq<real>, index: real): real
    requires 0.0 <= index <= (|ordered| - 1) as real
  {
    var lower, upper := index.Floor, Ceil(index);
    if lower == upper then ordered[lower]
    else
      var weight := index - lower as real;
      ordered[lower] * (1.0 - weight) + ordered[upper] * weight
  }

  function Index(n: nat, percentile: real): (r: real)
    requires n > 0 && 0.0 <= percentile <= 1.0
    ensures 0.0 <= r <= (n - 1) as real
  {
    (n - 1) as real * percentile
  }

  function Interpolated(values: seq<real>, percentile: real): Option<real>
    requires 0.0 <= percentile <= 1.0
  {
    if values == [] then None
    else
      OrderedFacts(values);
      Some(Round3(At(Ordered(values), Index(|values|, percentile))))
  }

  lemma MixIsBetween(a: real, b: real, weight: real)
    requires a <= b && 0.0 <= weight <= 1.0
    ensures a <= a * (1.0 - weight) + b * weight <= b
  {
    var width := b - a;
    assert a * (1.0 - weight) + b * weight == a + width * weight;
    assert 0.0 <= width * weight;
    assert 0.0 <= width * (1.0 - weight);
    assert width * (1.0 - weight) == width - width * weight;
  }

  lemma MixIsMonotone(a: real, b: real, v: real, w: real)
    requires a <= b && v <= w
    ensures a * (1.0 - v) + b * v <= a * (1.0 - w) + b * w
  {
    var width := b - a;
    assert 0.0 <= width * (w - v);
    assert width * (w - v) == width * w - width * v;
    assert a * (1.0 - v) + b * v == a + width * v;
    assert a * (1.0 - w) + b * w == a + width * w;
  }

  lemma AtIsBetweenNeighbours(s: seq<real>, index: real)
    requires Ascending(s) && 0.0 <= index <= (|s| - 1) as real
    ensures s[index.Floor] <= At(s, index) <= s[Ceil(index)]
  {
    var lower, upper := index.Floor, Ceil(index);
    if lower != upper {
      MixIsBetween(s[lower], s[upper], index - lower as real);
    }
  }

  lemma AtIsMonotone(s: seq<real>, x: real, y: real)
    requires Ascending(s) && 0.0 <= x <= y <= (|s| - 1) as real
    ensures At(s, x) <= At(s, y)
  {
    AtIsBetweenNeighbours(s, x);
    AtIsBetweenNeighbours(s, y);
    if x.Floor == y.Floor && x.Floor as real != x {
      MixIsMonotone(s[x.Floor], s[Ceil(x)], x - x.Floor as real, y - y.Floor as real);
    }
  }

  /** Monotone in the percentile, so the median is never above the 95th percentile. */
  lemma InterpolatedIsMonotone(values: seq<real>, p: real, q: real)
    requires 0.0 <= p <= q <= 1.0 && values != []
    ensures Interpolated(values, p).value <= Interpolated(values, q).value
  {
    OrderedFacts(values);
    var x, y := Index(|values|, p), Index(|values|, q);
    assert x <= y;
    AtIsMonotone(Ordered(values), x, y);
    Round3IsMonotone(At(Ordered(values), x), At(Ordered(values), y));
  }

  /** Between the rounded minimum and the rounded maximum. */
  lemma InterpolatedIsBetween(values: seq<real>, p: real, low: real, high: real)
    requires 0.0 <= p <= 1.0 && values != []
    requires forall i :: 0 <= i < |values| ==> low <= values[i] <= high
    ensures Round3(low) <= Interpolated(values, p).value <= Round3(high)
  {
    OrderedFacts(values);
    var ordered, index := Ordered(values), Index(|values|, p);
    AtIsBetweenNeighbours(ordered, index);
    assert ordered[index.Floor] in multiset(ordered) && ordered[Ceil(index)] in multiset(ordered);
    Round3IsMonotone(low, At(ordered, index));
    Round3IsMonotone(At(ordered, index), high);
  }

  /**
   Between the minimum and the maximum themselves exactly when rounding does not push it out: for a single
   sample, exactly when the sample has at most three decimals.
   */
  lemma SingleSampleIsRounded(x: real, p: real)
    requires 0.0 <= p <= 1.0
    ensures x <= Interpolated([x], p).value <= x <==> (x * 1000.0).Floor as real == x * 1000.0
  {
    OrderedFacts([x]);
    assert Ordered([x])[0] in multiset([x]);
    assert Index(1, p) == 0.0;
  }

  ghost predicate AlwaysWithin(values: seq<real>, low: real, high: real) {
    forall p: real | 0.0 <= p <= 1.0 :: low <= Or(Interpolated(values, p), low) <= high
  }

  function Or(x: Option<real>, default: real): real {
    if x.Some? then x.value else default
  }

  lemma ExtremesAreReached(values: seq<real>, low: real, high: real)
    requires values != [] && low in values && high in values
    requires forall i :: 0 <= i < |values| ==> low <= values[i] <= high
    ensures Interpolated(values, 0.0) == Some(Round3(low)) && Interpolated(values, 1.0) == Some(Round3(high))
  {
    OrderedFacts(values);
    var ordered, n := Ordered(values), |values|;
    assert ordered[0] in multiset(ordered) && ordered[n - 1] in multiset(ordered);
    assert low in multiset(values) && high in multiset(values);
    assert low in multiset(ordered) && high in multiset(ordered);
    assert ordered[0] == low && ordered[n - 1] == high;
    assert Index(n, 0.0) == 0.0 && Index(n, 1.0) == (n - 1) as real;
  }

  /** Every percentile lies between the samples exactly when rounding pushes neither extreme out. */
  lemma InterpolatedIsWithinExactlyWhen(values: seq<real>, low: real, high: real)
    requires values != [] && low in values && high in values
    requires forall i :: 0 <= i < |values| ==> low <= values[i] <= high
    ensures AlwaysWithin(values, low, high) <==> low <= Round3(low) && Round3(high) <= high
  {
    ExtremesAreReached(values, low, high);
    if low <= Round3(low) && Round3(high) <= high {
      forall p: real | 0.0 <= p <= 1.0
        ensures low <= Or(Interpolated(values, p), low) <= high
      {
        InterpolatedIsBetween(values, p, low, high);
      }
    } else {
      assert Or(Interpolated(values, 0.0), low) == Round3(low) && Or(Interpolated(values, 1.0), low) == Round3(high);
    }
  }

  lemma InterpolatedOfPermutation(a: seq<real>, b: seq<real>, p: real)
    requires 0.0 <= p <= 1.0 && multiset(a) == multiset(b)
    ensures Interpolated(a, p) == Interpolated(b, p)
  {
    OrderedOfPermutation(a, b);
    assert |a| == |multiset(a)| == |multiset(b)| == |b|;
  }

  // ----- what rounding and interpolating yield -----

  lemma HalfEvenIsNearest(x: real)
    ensures HalfEven(x) as real - 0.5 <= x <= HalfEven(x) as real + 0.5
    ensures x == HalfEven(x) as real - 0.5 || x == HalfEven(x) as real + 0.5 ==> HalfEven(x) % 2 == 0
  {
    var low := x.Floor;
    assert low as real <= x < (low + 1) as real;
  }

  /** The nearest number of thousandths; of two, the even one. */
  lemma Round3IsNearest(x: real) returns (thousandths: int)
    ensures Round3(x) * 1000.0 == thousandths as real
    ensures Round3(x) - 0.0005 <= x <= Round3(x) + 0.0005
    ensures x == Round3(x) - 0.0005 || x == Round3(x) + 0.0005 ==> thousandths % 2 == 0
  {
    thousandths := HalfEven(x * 1000.0);
    HalfEvenIsNearest(x * 1000.0);
  }

  lemma InterpolatedIsAt(values: seq<real>, percentile: real, ordered: seq<real>, index: real)
    requires 0.0 <= percentile <= 1.0 && multiset(ordered) == multiset(values) && Ascending(ordered) && values != []
    requires index == Index(|values|, percentile) && 0.0 <= index <= (|ordered| - 1) as real
    ensures Interpolated(values, percentile) == Some(Round3(At(ordered, index)))
  {
    OrderedIsDetermined(values, ordered);
  }

  /**
   Between the `k`-th and the next of the ordered samples the value moves in proportion; the first sample is at the
   bottom of the scale and the last at its top.
   */
  lemma InterpolatesLinearly(values: seq<real>, percentile: real, ordered: seq<real>, k: nat, index: real)
    requires 0.0 <= percentile <= 1.0 && multiset(ordered) == multiset(values) && Ascending(ordered)
    requires k + 1 < |ordered| && index == (|ordered| - 1) as real * percentile && k as real <= index <= (k + 1) as real
    ensures Interpolated(values, percentile)
         == Some(Round3(ordered[k] + (index - k as real) * (ordered[k + 1] - ordered[k])))
  {
    assert |values| == |multiset(values)| == |multiset(ordered)| == |ordered|;
    AtIsLinear(ordered, index, k);
    InterpolatedIsAt(values, percentile, ordered, index);
  }

  lemma OrderedIsDetermined(values: seq<real>, ordered: seq<real>)
    requires multiset(ordered) == multiset(values) && Ascending(ordered)
    ensures Ordered(values) == ordered
  {
    OrderedOfPermutation(values, ordered);
    AscendingIsOrdered(ordered);
  }

  lemma {:induction false} AscendingIsOrdered(s: seq<real>)
    requires Ascending(s)
    ensures Ordered(s) == s
  {
    if s != [] {
      AscendingIsOrdered(s[1..]);
      assert s == [s[0]] + s[1..];
      assert s[1..] != [] ==> s[0] <= s[1..][0];
    }
  }

  lemma AtIsLinear(s: seq<real>, index: real, k: nat)
    requires k + 1 < |s| && k as real <= index <= (k + 1) as real
    ensures 0.0 <= index <= (|s| - 1) as real && At(s, index) == s[k] + (index - k as real) * (s[k + 1] - s[k])
  {
    var a, b, w := s[k], s[k + 1], index - k as real;
    if index == k as real {
      assert index.Floor == k && Ceil(index) == k;
      assert w * (b - a) == 0.0;
    } else if index == (k + 1) as real {
      assert index.Floor == k + 1 && Ceil(index) == k + 1;
      assert w * (b - a) == b - a;
    } else {
      assert index.Floor == k && Ceil(index) == k + 1;
      assert a * (1.0 - w) + b * w == a + w * (b - a);
    }
  }

  /** Of a single sample every percentile is the sample, rounded; of none there is none. */
  lemma FewSamples(x: real, percentile: real)
    requires 0.0 <= percentile <= 1.0
    ensures Interpolated([x], percentile) == Some(Round3(x)) && Interpolated([], percentile) == None
  {
    OrderedIsDetermined([x], [x]);
    assert Index(1, percentile) == 0.0;
  }
}
