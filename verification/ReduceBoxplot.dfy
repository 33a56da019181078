/** Decimating a whole series at once: its points grouped by epoch-aligned time
    bucket, each bucket summarised by its boxplot. */
module BoxplotReduction {
  import opened Prelude
  import opened Sorting
  import opened Display

  /** Two to the power of `-n`. */
  function HalfPower(n: nat): (r: real)
    ensures r > 0.0
  {
    if n == 0 then 1.0 else HalfPower(n - 1) / 2.0
  }

  /** The least positive normal number, `f64::MIN_POSITIVE`. */
  function MinPositive(): (r: real)
    ensures r > 0.0
  {
    HalfPower(1022)
  }

  /** The bucket holding time `t`: `floor(t / bw)`. */
  function PlainBucket(t: real, bw: real): int
    requires bw > 0.0
  {
    (t / bw).Floor
  }

  function ValuesOf(points: seq<(real, real)>): (r: seq<real>)
    ensures |r| == |points|
  {
    seq(|points|, i requires 0 <= i < |points| => points[i].1)
  }

  function Slice<T>(xs: Option<seq<T>>, i: nat, j: nat): Option<seq<T>>
    requires i <= j && (xs.Some? ==> j <= |xs.value|)
  {
    if xs.None? then None else Some(xs.value[i..j])
  }

  /** A parallel list, or none when its length differs. */
  function Parallel<T>(xs: Option<seq<T>>, n: nat): (r: Option<seq<T>>)
    ensures r.Some? ==> |r.value| == n
  {
    if xs.Some? && |xs.value| == n then xs else None
  }

  ghost predicate TimeSorted(points: seq<(real, real)>) {
    forall i, j :: 0 <= i < j < |points| ==> points[i].0 <= points[j].0
  }

  /** The points from `r.0` to before `r.1` are those of one bucket. */
  ghost predicate OneBucket(points: seq<(real, real)>, bw: real, r: (nat, nat))
    requires bw > 0.0
  {
    && r.0 < r.1 <= |points|
    && (forall i :: r.0 <= i < r.1 ==> PlainBucket(points[i].0, bw) == PlainBucket(points[r.0].0, bw))
    && (r.0 > 0 ==> PlainBucket(points[r.0 - 1].0, bw) != PlainBucket(points[r.0].0, bw))
  }

  /** The first `upto` points cut into buckets: every point is in exactly one. */
  ghost predicate Cut(points: seq<(real, real)>, bw: real, cuts: seq<(nat, nat)>, upto: nat)
    requires bw > 0.0
  {
    && (forall k :: 0 <= k < |cuts| ==> OneBucket(points, bw, cuts[k]))
    && (forall k :: 0 < k < |cuts| ==> cuts[k].0 == cuts[k - 1].1)
    && (if cuts == [] then upto == 0 else cuts[0].0 == 0 && cuts[|cuts| - 1].1 == upto)
  }

  lemma {:induction false} CutMore(points: seq<(real, real)>, bw: real, cuts: seq<(nat, nat)>, i: nat, j: nat)
    requires bw > 0.0 && Cut(points, bw, cuts, i) && OneBucket(points, bw, (i, j))
    ensures Cut(points, bw, cuts + [(i, j)], j)
  {
    hide OneBucket;
  }

  /** Bucket `k`'s summary. */
  function BucketPoint(points: seq<(real, real)>, bands: Option<seq<Option<(real, real)>>>, flags: Option<seq<bool>>,
                       band: (real, real), bw: real, i: nat, j: nat): EnvPoint
    requires bw > 0.0 && i < j <= |points|
    requires (bands.Some? ==> |bands.value| == |points|) && (flags.Some? ==> |flags.value| == |points|)
  {
    BoxplotOf(PlainBucket(points[i].0, bw) as real * bw, ValuesOf(points[i..j]), Slice(bands, i, j), Slice(flags, i, j), band)
  }

  /** Each sample as its own degenerate boxplot. */
  function Whole(points: seq<(real, real)>, bands: Option<seq<Option<(real, real)>>>, flags: Option<seq<bool>>)
    : seq<EnvPoint>
    requires (bands.Some? ==> |bands.value| == |points|) && (flags.Some? ==> |flags.value| == |points|)
  {
    seq(|points|, i requires 0 <= i < |points| =>
      Single(Reading(points[i].0, points[i].1, if bands.Some? then bands.value[i] else None,
                     flags.Some? && flags.value[i])))
  }

  /** The width of the buckets: a human one, at least the span over the budget. */
  function WidthFor(points: seq<(real, real)>, budget: nat): (bw: real)
    requires points != [] && budget > 0
    ensures bw > 0.0 && bw >= (points[|points| - 1].0 - points[0].0) / budget as real
  {
    var span := MaxReal(points[|points| - 1].0 - points[0].0, MinPositive());
    Shares(points[|points| - 1].0 - points[0].0, span, budget as real);
    FirstNice(NICE, span / budget as real)
  }

  lemma {:induction false} Shares(a: real, b: real, n: real)
    requires a <= b && b > 0.0 && n > 0.0
    ensures a / n <= b / n && b / n > 0.0
  {
  }

  /** The points from `i` on that share its bucket end before the result. */
  method RunFrom(points: seq<(real, real)>, bw: real, i: nat) returns (j: nat)
    requires bw > 0.0 && i < |points|
    requires i > 0 ==> PlainBucket(points[i - 1].0, bw) != PlainBucket(points[i].0, bw)
    ensures OneBucket(points, bw, (i, j))
    ensures j < |points| ==> PlainBucket(points[j - 1].0, bw) != PlainBucket(points[j].0, bw)
  {
    hide PlainBucket;
    var bucket := PlainBucket(points[i].0, bw);
    j := i + 1;
    while j < |points| && PlainBucket(points[j].0, bw) == bucket
      invariant i < j <= |points|
      invariant forall k :: i <= k < j ==> PlainBucket(points[k].0, bw) == bucket
    {
      j := j + 1;
    }
  }

  /** `reduce_boxplot`: one point per bucket, or per sample when there is no budget or
      the samples fit it. */
  method ReduceBoxplot(points: seq<(real, real)>, bands: Option<seq<Option<(real, real)>>>, interpolated: Option<seq<bool>>,
                       budget: nat, band: (real, real)) returns (out: seq<EnvPoint>)
    ensures Reduction(points, bands, interpolated, budget, band, out)
  {
    hide BoxplotOf, WidthFor, PlainBucket, BucketPoint, Cut, OneBucket;
    ghost var cuts: seq<(nat, nat)> := [];
    out := [];
    if points == [] {
      return;
    }
    var bs := Parallel(bands, |points|);
    var fs := Parallel(interpolated, |points|);
    if budget == 0 || |points| <= budget {
      out := Whole(points, bs, fs);
      return;
    }
    var bw := WidthFor(points, budget);
    var i := 0;
    NoneCut(points, bw);
    while i < |points|
      invariant i <= |points| && Summaries(points, bs, fs, band, bw, cuts, i, out)
      invariant 0 < i < |points| ==> PlainBucket(points[i - 1].0, bw) != PlainBucket(points[i].0, bw)
    {
      var j := RunFrom(points, bw, i);
      CutMore(points, bw, cuts, i, j);
      InOne(points, bw, i, j);
      out := out + [BucketPoint(points, bs, fs, band, bw, i, j)];
      cuts := cuts + [(i, j)];
      i := j;
    }
  }

  /** One summary per bucket of the first `upto` points. */
  ghost predicate Summaries(points: seq<(real, real)>, bands: Option<seq<Option<(real, real)>>>, flags: Option<seq<bool>>,
                            band: (real, real), bw: real, cuts: seq<(nat, nat)>, upto: nat, out: seq<EnvPoint>)
    requires bw > 0.0 && (bands.Some? ==> |bands.value| == |points|) && (flags.Some? ==> |flags.value| == |points|)
  {
    && Cut(points, bw, cuts, upto) && |out| == |cuts|
    && forall k :: 0 <= k < |out| ==>
         && cuts[k].0 < cuts[k].1 <= |points|
         && out[k] == BucketPoint(points, bands, flags, band, bw, cuts[k].0, cuts[k].1)
  }

  /** What `reduce_boxplot` gives. */
  ghost predicate Reduction(points: seq<(real, real)>, bands: Option<seq<Option<(real, real)>>>,
                            interpolated: Option<seq<bool>>, budget: nat, band: (real, real), out: seq<EnvPoint>)
  {
    var b, f := Parallel(bands, |points|), Parallel(interpolated, |points|);
    if budget == 0 || |points| <= budget then out == Whole(points, b, f)
    else exists cuts :: Summaries(points, b, f, band, WidthFor(points, budget), cuts, |points|, out)
  }

  lemma {:induction false} NoneCut(points: seq<(real, real)>, bw: real)
    requires bw > 0.0
    ensures Cut(points, bw, [], 0)
  {
  }

  lemma {:induction false} InOne(points: seq<(real, real)>, bw: real, i: nat, j: nat)
    requires bw > 0.0 && OneBucket(points, bw, (i, j))
    ensures i < j <= |points|
  {
  }

  // ----- What the output is worth

  lemma {:induction false} BucketsRise(points: seq<(real, real)>, bw: real, i: nat, j: nat)
    requires bw > 0.0 && TimeSorted(points) && i <= j < |points|
    ensures PlainBucket(points[i].0, bw) <= PlainBucket(points[j].0, bw)
  {
    if i < j {
      QuotientRises(points[i].0, points[j].0, bw);
    }
  }

  /** Of time-ordered points, later buckets are later ones. */
  lemma {:induction false} CutRises(points: seq<(real, real)>, bw: real, cuts: seq<(nat, nat)>, upto: nat, a: nat, b: nat)
    requires bw > 0.0 && TimeSorted(points) && Cut(points, bw, cuts, upto) && a <= b < |cuts|
    ensures cuts[a].0 < |points| && cuts[b].0 < |points|
    ensures PlainBucket(points[cuts[b].0].0, bw) >= PlainBucket(points[cuts[a].0].0, bw) + (b - a)
    decreases b
  {
    hide PlainBucket;
    assert OneBucket(points, bw, cuts[a]) && OneBucket(points, bw, cuts[b]);
    if a < b {
      CutRises(points, bw, cuts, upto, a, b - 1);
      assert OneBucket(points, bw, cuts[b - 1]) && cuts[b].0 == cuts[b - 1].1;
      BucketsRise(points, bw, cuts[b - 1].0, cuts[b].0 - 1);
      BucketsRise(points, bw, cuts[b].0 - 1, cuts[b].0);
    }
  }

  /** The output is in strictly increasing time, each point at its bucket's boundary. */
  lemma {:induction false} OutputRises(points: seq<(real, real)>, bands: Option<seq<Option<(real, real)>>>,
                                       flags: Option<seq<bool>>, band: (real, real), bw: real, cuts: seq<(nat, nat)>,
                                       out: seq<EnvPoint>, a: nat, b: nat)
    requires bw > 0.0 && (bands.Some? ==> |bands.value| == |points|) && (flags.Some? ==> |flags.value| == |points|)
    requires TimeSorted(points) && Summaries(points, bands, flags, band, bw, cuts, |points|, out) && a < b < |out|
    ensures out[a].t < out[b].t
  {
    hide PlainBucket, Cut, Quantile, Sort, Lows, Highs, Median;
    CutRises(points, bw, cuts, |points|, a, b);
    StrictlyScaled(PlainBucket(points[cuts[a].0].0, bw), PlainBucket(points[cuts[b].0].0, bw), bw);
  }

  lemma {:induction false} StrictlyScaled(a: int, b: int, w: real)
    requires a < b && w > 0.0
    ensures a as real * w < b as real * w
  {
  }

  // ----- When the output fits the budget

  ghost predicate HasPoint(points: seq<(real, real)>, bw: real, bucket: int)
    requires bw > 0.0
  {
    exists i :: 0 <= i < |points| && PlainBucket(points[i].0, bw) == bucket
  }

  /** The last point is `budget` buckets after the first, and every bucket from the one
      to the other has a point. */
  ghost predicate FillsBuckets(points: seq<(real, real)>, bw: real, budget: nat)
    requires points != [] && bw > 0.0
  {
    var first := PlainBucket(points[0].0, bw);
    && PlainBucket(points[|points| - 1].0, bw) == first + budget
    && forall b :: first <= b <= first + budget ==> HasPoint(points, bw, b)
  }

  /** Every point is in some bucket. */
  lemma {:induction false} EveryPointIsCut(points: seq<(real, real)>, bw: real, cuts: seq<(nat, nat)>, upto: nat, i: nat)
    returns (k: nat)
    requires bw > 0.0 && Cut(points, bw, cuts, upto) && i < upto <= |points|
    ensures k < |cuts| && cuts[k].0 < |points|
    ensures PlainBucket(points[cuts[k].0].0, bw) == PlainBucket(points[i].0, bw)
  {
    hide PlainBucket;
    k := |cuts| - 1;
    while i < cuts[k].0
      invariant 0 <= k < |cuts| && i < cuts[k].1
      decreases k
    {
      k := k - 1;
    }
    assert OneBucket(points, bw, cuts[k]);
  }

  /** With a point in each of the `n` buckets after the first point's, the last of them
      is no earlier cut than the `n`th. */
  lemma {:induction false} CutPerBucket(points: seq<(real, real)>, bw: real, cuts: seq<(nat, nat)>, n: nat) returns (c: nat)
    requires bw > 0.0 && points != [] && TimeSorted(points) && Cut(points, bw, cuts, |points|)
    requires var first := PlainBucket(points[0].0, bw);
             forall b :: first <= b <= first + n ==> HasPoint(points, bw, b)
    ensures n <= c < |cuts| && cuts[c].0 < |points|
    ensures PlainBucket(points[cuts[c].0].0, bw) == PlainBucket(points[0].0, bw) + n
  {
    hide PlainBucket, Cut, TimeSorted, HasPoint;
    var i := PointIn(points, bw, PlainBucket(points[0].0, bw) + n);
    c := EveryPointIsCut(points, bw, cuts, |points|, i);
    if n > 0 {
      var before := CutPerBucket(points, bw, cuts, n - 1);
      if c <= before {
        CutRises(points, bw, cuts, |points|, c, before);
      }
    }
  }

  lemma {:induction false} PointIn(points: seq<(real, real)>, bw: real, bucket: int) returns (i: nat)
    requires bw > 0.0 && HasPoint(points, bw, bucket)
    ensures i < |points| && PlainBucket(points[i].0, bw) == bucket
  {
    i :| 0 <= i < |points| && PlainBucket(points[i].0, bw) == bucket;
  }

  /** The first and last points' buckets are the first and last cuts', and no more than
      the budget apart. */
  lemma {:induction false} CutEnds(points: seq<(real, real)>, budget: nat, cuts: seq<(nat, nat)>)
    requires points != [] && budget > 0 && TimeSorted(points) && Cut(points, WidthFor(points, budget), cuts, |points|)
    ensures cuts != [] && cuts[|cuts| - 1].0 < |points|
    ensures var bw := WidthFor(points, budget);
            && PlainBucket(points[|points| - 1].0, bw) - PlainBucket(points[0].0, bw) <= budget
            && PlainBucket(points[cuts[0].0].0, bw) == PlainBucket(points[0].0, bw)
            && PlainBucket(points[cuts[|cuts| - 1].0].0, bw) == PlainBucket(points[|points| - 1].0, bw)
  {
    var bw := WidthFor(points, budget);
    SpanOfPoints(points, budget);
    hide WidthFor, PlainBucket;
    assert OneBucket(points, bw, cuts[0]) && OneBucket(points, bw, cuts[|cuts| - 1]);
  }

  lemma {:induction false} SpanOfPoints(points: seq<(real, real)>, budget: nat)
    requires points != [] && budget > 0
    ensures var bw := WidthFor(points, budget);
            PlainBucket(points[|points| - 1].0, bw) - PlainBucket(points[0].0, bw) <= budget
  {
    hide WidthFor;
    var bw := WidthFor(points, budget);
    var t0, tn := points[0].0, points[|points| - 1].0;
    WidthsInSpan(t0, tn, bw, budget);
    FloorSpan(t0 / bw, tn / bw, budget);
  }

  /** More cuts than the budget: one for each of its buckets and one more. */
  lemma {:induction false} CutsFill(points: seq<(real, real)>, budget: nat, cuts: seq<(nat, nat)>)
    requires points != [] && budget > 0 && TimeSorted(points) && Cut(points, WidthFor(points, budget), cuts, |points|)
    requires |cuts| > budget
    ensures FillsBuckets(points, WidthFor(points, budget), budget)
  {
    hide WidthFor, PlainBucket, Cut, TimeSorted;
    var bw := WidthFor(points, budget);
    var first := PlainBucket(points[0].0, bw);
    CutEnds(points, budget, cuts);
    CutRises(points, bw, cuts, |points|, 0, |cuts| - 1);
    forall b | first <= b <= first + budget ensures HasPoint(points, bw, b) {
      CutRises(points, bw, cuts, |points|, 0, b - first);
      CutRises(points, bw, cuts, |points|, b - first, |cuts| - 1);
      assert PlainBucket(points[cuts[b - first].0].0, bw) == b;
    }
  }

  /** Time-ordered points give at most one output more than the budget, and that one
      exactly when they fill the buckets from the first point's to the last's and those
      are `budget` apart. */
  lemma {:induction false} CutsOverBudget(points: seq<(real, real)>, budget: nat, cuts: seq<(nat, nat)>)
    requires points != [] && budget > 0 && TimeSorted(points) && Cut(points, WidthFor(points, budget), cuts, |points|)
    ensures |cuts| <= budget + 1
    ensures |cuts| > budget <==> FillsBuckets(points, WidthFor(points, budget), budget)
  {
    hide WidthFor, PlainBucket, Cut, TimeSorted, HasPoint;
    var bw := WidthFor(points, budget);
    CutEnds(points, budget, cuts);
    CutRises(points, bw, cuts, |points|, 0, |cuts| - 1);
    if |cuts| > budget {
      CutsFill(points, budget, cuts);
    }
    if FillsBuckets(points, bw, budget) {
      var c := CutPerBucket(points, bw, cuts, budget);
    }
  }

  /** The budget: when `reduce_boxplot` gives more points than it, which is never more
      than one, or without a budget. */
  lemma {:induction false} OverBudget(points: seq<(real, real)>, bands: Option<seq<Option<(real, real)>>>,
                                      interpolated: Option<seq<bool>>, budget: nat, band: (real, real), out: seq<EnvPoint>)
    requires TimeSorted(points) && Reduction(points, bands, interpolated, budget, band, out)
    ensures |out| > budget <==> |points| > budget && (budget == 0 || FillsBuckets(points, WidthFor(points, budget), budget))
    ensures budget > 0 ==> |out| <= budget + 1
  {
    hide WidthFor, Cut, TimeSorted, FillsBuckets, BucketPoint, Single;
    if 0 < budget < |points| {
      var b, f, bw := Parallel(bands, |points|), Parallel(interpolated, |points|), WidthFor(points, budget);
      var cuts :| Summaries(points, b, f, band, bw, cuts, |points|, out);
      CutsOverBudget(points, budget, cuts);
    }
  }

  lemma {:induction false} HalfPowerIsSmall(n: nat)
    ensures HalfPower(n) <= 1.0
  {
    if n > 0 {
      HalfPowerIsSmall(n - 1);
    }
  }

  /** It happens: two points of a budget of one, in two buckets. */
  lemma {:induction false} BudgetExceeded(band: (real, real), out: seq<EnvPoint>)
    requires Reduction([(0.5, 1.0), (1.5, 1.0)], None, None, 1, band, out)
    ensures |out| == 2
  {
    var points := [(0.5, 1.0), (1.5, 1.0)];
    TwoFill();
    hide WidthFor, Reduction, FillsBuckets;
    OverBudget(points, None, None, 1, band, out);
  }

  lemma {:induction false} TwoFill()
    ensures FillsBuckets([(0.5, 1.0), (1.5, 1.0)], WidthFor([(0.5, 1.0), (1.5, 1.0)], 1), 1)
  {
    var points := [(0.5, 1.0), (1.5, 1.0)];
    HalfPowerIsSmall(1022);
    hide HalfPower;
    assert WidthFor(points, 1) == 1.0;
    assert PlainBucket(points[0].0, 1.0) == 0 && PlainBucket(points[1].0, 1.0) == 1;
  }

  /** No spike is hidden: every point lies within its bucket's extremes, which are
      values of it. */
  lemma {:induction false} SpikeIsKept(points: seq<(real, real)>, bands: Option<seq<Option<(real, real)>>>,
                                       flags: Option<seq<bool>>, band: (real, real), bw: real, cuts: seq<(nat, nat)>,
                                       out: seq<EnvPoint>, k: nat, i: nat)
    requires bw > 0.0 && (bands.Some? ==> |bands.value| == |points|) && (flags.Some? ==> |flags.value| == |points|)
    requires Summaries(points, bands, flags, band, bw, cuts, |points|, out) && k < |out| && cuts[k].0 <= i < cuts[k].1
    ensures out[k].min <= points[i].1 <= out[k].max
    ensures out[k].min in ValuesOf(points[cuts[k].0..cuts[k].1]) && out[k].max in ValuesOf(points[cuts[k].0..cuts[k].1])
  {
    hide PlainBucket, Cut, BoxplotOf, BucketPoint;
    BucketKeeps(points, bands, flags, band, bw, cuts[k].0, cuts[k].1, i);
  }

  lemma {:induction false} BucketKeeps(points: seq<(real, real)>, bands: Option<seq<Option<(real, real)>>>,
                                       flags: Option<seq<bool>>, band: (real, real), bw: real, from: nat, to: nat, i: nat)
    requires bw > 0.0 && from <= i < to <= |points|
    requires (bands.Some? ==> |bands.value| == |points|) && (flags.Some? ==> |flags.value| == |points|)
    ensures var e := BucketPoint(points, bands, flags, band, bw, from, to);
            && e.min <= points[i].1 <= e.max
            && e.min in ValuesOf(points[from..to]) && e.max in ValuesOf(points[from..to])
  {
    hide PlainBucket, BoxplotOf;
    var values := ValuesOf(points[from..to]);
    assert values[i - from] == points[i].1;
    BoxplotExtremes(PlainBucket(points[from].0, bw) as real * bw, values, Slice(bands, from, to), Slice(flags, from, to),
                    band, i - from);
  }
}
