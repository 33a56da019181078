/** Reducing a series for display: one summary per time bucket, computed point
    by point with only the open bucket's points held. Times and values are reals. */
module Display {
  import opened Prelude
  import opened Sorting

  /** A point pushed for display. */
  datatype Reading = Reading(t: real, v: real, band: Option<(real, real)>, interpolated: bool)

  /** One output point: a bucket's extremes, inner band and median, its
      uncertainty, and whether any of it was interpolated. */
  datatype EnvPoint = EnvPoint(t: real, min: real, lo: real, median: real, hi: real, max: real,
                               uncLo: Option<real>, uncHi: Option<real>, interpolated: bool)

  function AtMost(): (real, real) -> bool {
    (a: real, b: real) => a <= b
  }

  lemma {:induction false} AtMostIsTotal()
    ensures TotalOrder(AtMost())
  {
  }

  // ----- Quantiles of a sorted slice

  function Clamp(q: real): (r: real)
    ensures 0.0 <= r <= 1.0
  {
    if q < 0.0 then 0.0 else if q > 1.0 then 1.0 else q
  }

  /** The value a fraction `f` of the way from `a` to `b`. */
  function Interpolate(a: real, b: real, f: real): real {
    a + f * (b - a)
  }

  /** The value at fractional position `rank` of a slice. */
  function AtRank(s: seq<real>, rank: real): real
    requires s != [] && 0.0 <= rank
  {
    var lo := rank.Floor;
    if lo + 1 < |s| then Interpolate(s[lo], s[lo + 1], rank - lo as real) else s[|s| - 1]
  }

  /** The position of quantile `q` among `n` values. */
  function RankOf(q: real, n: nat): (r: real)
    requires n > 0
    ensures 0.0 <= r
  {
    NonNegativeProduct(Clamp(q), (n - 1) as real);
    Clamp(q) * (n - 1) as real
  }

  /** `quantile_sorted`. */
  function Quantile(s: seq<real>, q: real): real
    requires s != []
  {
    if |s| == 1 then s[0] else AtRank(s, RankOf(q, |s|))
  }

  lemma {:induction false} NonNegativeProduct(a: real, b: real)
    requires 0.0 <= a <= 1.0 && 0.0 <= b
    ensures 0.0 <= a * b <= b
  {
  }

  lemma {:induction false} ProductRises(a: real, b: real, c: real)
    requires a <= b && 0.0 <= c
    ensures a * c <= b * c
  {
  }

  lemma {:induction false} RankRises(q: real, q': real, n: nat)
    requires q <= q' && n > 0
    ensures RankOf(q, n) <= RankOf(q', n)
  {
    var m := (n - 1) as real;
    ProductRises(Clamp(q), Clamp(q'), m);
    assert RankOf(q, n) == Clamp(q) * m && RankOf(q', n) == Clamp(q') * m;
  }

  ghost predicate Ascending(s: seq<real>) {
    forall i, j :: 0 <= i < j < |s| ==> s[i] <= s[j]
  }

  lemma {:induction false} InterpolateRises(a: real, b: real, f: real, g: real)
    requires a <= b && 0.0 <= f <= g <= 1.0
    ensures a <= Interpolate(a, b, f) <= Interpolate(a, b, g) <= b
  {
    var d := b - a;
    ProductRises(f, g, d);
    NonNegativeProduct(f, d);
    NonNegativeProduct(g, d);
    assert Interpolate(a, b, f) == a + f * d && Interpolate(a, b, g) == a + g * d;
  }

  lemma {:induction false} AtRankRises(s: seq<real>, r: real, r': real)
    requires s != [] && Ascending(s) && 0.0 <= r <= r'
    ensures s[0] <= AtRank(s, r) <= AtRank(s, r') <= s[|s| - 1]
  {
    hide Interpolate;
    var lo, lo' := r.Floor, r'.Floor;
    if lo' + 1 < |s| {
      InterpolateRises(s[lo'], s[lo' + 1], if lo == lo' then r - lo as real else 0.0, r' - lo' as real);
      assert s[lo' + 1] <= s[|s| - 1];
    }
    if lo + 1 < |s| {
      InterpolateRises(s[lo], s[lo + 1], r - lo as real, 1.0);
      assert s[0] <= s[lo] && s[lo + 1] <= s[|s| - 1];
      assert lo < lo' < |s| ==> s[lo + 1] <= s[lo'];
    }
  }

  /** A higher quantile is no lower, and all lie within the slice's extremes. */
  lemma {:induction false} QuantileRises(s: seq<real>, q: real, q': real)
    requires s != [] && Ascending(s) && q <= q'
    ensures s[0] <= Quantile(s, q) <= Quantile(s, q') <= s[|s| - 1]
  {
    hide AtRank, RankOf;
    RankRises(q, q', |s|);
    AtRankRises(s, RankOf(q, |s|), RankOf(q', |s|));
  }

  // ----- A bucket's summary

  /** The lower edges of the bands there are. */
  function Lows(bands: seq<Option<(real, real)>>): (r: seq<real>)
    ensures r == [] <==> forall i :: 0 <= i < |bands| ==> bands[i].None?
  {
    if bands == [] then []
    else Lows(bands[..|bands| - 1]) + (if bands[|bands| - 1].Some? then [bands[|bands| - 1].value.0] else [])
  }

  function Highs(bands: seq<Option<(real, real)>>): (r: seq<real>)
    ensures r == [] <==> forall i :: 0 <= i < |bands| ==> bands[i].None?
  {
    if bands == [] then []
    else Highs(bands[..|bands| - 1]) + (if bands[|bands| - 1].Some? then [bands[|bands| - 1].value.1] else [])
  }

  function Median(vs: seq<real>): real
    requires vs != []
  {
    Quantile(Sort(vs, AtMost()), 0.5)
  }

  /** `boxplot_of` of a bucket's values, with its bands and flags when given,
      stamped at `t`. */
  function BoxplotOf(t: real, values: seq<real>, bands: Option<seq<Option<(real, real)>>>,
                     interpolated: Option<seq<bool>>, band: (real, real)): EnvPoint
    requires values != []
  {
    var sorted := Sort(values, AtMost());
    var banded := bands.Some? && exists i :: 0 <= i < |bands.value| && bands.value[i].Some?;
    EnvPoint(t, sorted[0], Quantile(sorted, band.0), Quantile(sorted, 0.5), Quantile(sorted, band.1),
             sorted[|sorted| - 1],
             if banded then Some(Median(Lows(bands.value))) else None,
             if banded then Some(Median(Highs(bands.value))) else None,
             interpolated.Some? && exists i :: 0 <= i < |interpolated.value| && interpolated.value[i])
  }

  /** A point as its own bucket. */
  function Single(r: Reading): EnvPoint {
    EnvPoint(r.t, r.v, r.v, r.v, r.v, r.v,
             if r.band.Some? then Some(r.band.value.0) else None,
             if r.band.Some? then Some(r.band.value.1) else None, r.interpolated)
  }

  /** The time a bucket of several points is stamped at. */
  function Boundary(b: int, w: real): real {
    b as real * w
  }

  function Values(rs: seq<Reading>): seq<real> {
    seq(|rs|, i requires 0 <= i < |rs| => rs[i].v)
  }

  function Bands(rs: seq<Reading>): seq<Option<(real, real)>> {
    seq(|rs|, i requires 0 <= i < |rs| => rs[i].band)
  }

  function Flags(rs: seq<Reading>): seq<bool> {
    seq(|rs|, i requires 0 <= i < |rs| => rs[i].interpolated)
  }

  /** What bucket `b`, of width `w` and holding `rs`, gives: a point as it is when
      it is alone, else the boxplot of all of them at the bucket's boundary. */
  function Summary(w: real, band: (real, real), b: int, rs: seq<Reading>): EnvPoint
    requires rs != []
  {
    if |rs| == 1 then Single(rs[0])
    else BoxplotOf(Boundary(b, w), Values(rs), Some(Bands(rs)), Some(Flags(rs)), band)
  }

  lemma {:induction false} SortedAscends(vs: seq<real>)
    ensures Ascending(Sort(vs, AtMost()))
  {
    hide Sort;
    AtMostIsTotal();
    SortSorts(vs, AtMost());
    var sorted := Sort(vs, AtMost());
    forall i, j | 0 <= i < j < |sorted| ensures sorted[i] <= sorted[j] {
      assert AtMost()(sorted[i], sorted[j]);
    }
  }

  /** Sorting keeps every value, so its ends are the values' extremes. */
  lemma {:induction false} SortedEnds(vs: seq<real>, i: nat)
    requires i < |vs|
    ensures var sorted := Sort(vs, AtMost());
            && sorted[0] <= vs[i] <= sorted[|sorted| - 1]
            && sorted[0] in vs && sorted[|sorted| - 1] in vs
  {
    hide Sort;
    SortedAscends(vs);
    var sorted := Sort(vs, AtMost());
    assert multiset(sorted) == multiset(vs);
    assert vs[i] in multiset(sorted);
    var k :| 0 <= k < |sorted| && sorted[k] == vs[i];
    assert sorted[0] <= sorted[k] <= sorted[|sorted| - 1];
    assert sorted[0] in multiset(vs) && sorted[|sorted| - 1] in multiset(vs);
  }

  /** A boxplot's parts are in order. */
  lemma {:induction false} BoxplotInOrder(t: real, values: seq<real>, bands: Option<seq<Option<(real, real)>>>,
                                          interpolated: Option<seq<bool>>, band: (real, real))
    requires values != [] && band.0 <= 0.5 <= band.1
    ensures var e := BoxplotOf(t, values, bands, interpolated, band);
            e.min <= e.lo <= e.median <= e.hi <= e.max
  {
    hide Sort, Quantile, Lows, Highs, Median;
    var sorted := Sort(values, AtMost());
    SortedAscends(values);
    QuantileRises(sorted, band.0, 0.5);
    QuantileRises(sorted, 0.5, band.1);
  }

  /** A boxplot's extremes are those of its values. */
  lemma {:induction false} BoxplotExtremes(t: real, values: seq<real>, bands: Option<seq<Option<(real, real)>>>,
                                           interpolated: Option<seq<bool>>, band: (real, real), i: nat)
    requires i < |values|
    ensures var e := BoxplotOf(t, values, bands, interpolated, band);
            e.min <= values[i] <= e.max && e.min in values && e.max in values
  {
    hide Sort, Quantile, Lows, Highs, Median;
    SortedEnds(values, i);
  }

  /** A summary's inner band and median lie between its extremes, in order. */
  lemma {:induction false} SummaryInOrder(w: real, band: (real, real), b: int, rs: seq<Reading>)
    requires rs != [] && band.0 <= 0.5 <= band.1
    ensures var e := Summary(w, band, b, rs);
            e.min <= e.lo <= e.median <= e.hi <= e.max
  {
    hide BoxplotOf;
    if |rs| > 1 {
      BoxplotInOrder(Boundary(b, w), Values(rs), Some(Bands(rs)), Some(Flags(rs)), band);
    }
  }

  /** A summary hides no spike: its extremes bound every point of it, and are
      points of it. */
  lemma {:induction false} SummaryExtremes(w: real, band: (real, real), b: int, rs: seq<Reading>, i: nat)
    requires i < |rs|
    ensures var e := Summary(w, band, b, rs);
            e.min <= rs[i].v <= e.max && e.min in Values(rs) && e.max in Values(rs)
  {
    hide BoxplotOf;
    assert Values(rs)[i] == rs[i].v;
    if |rs| > 1 {
      BoxplotExtremes(Boundary(b, w), Values(rs), Some(Bands(rs)), Some(Flags(rs)), band, i);
    }
  }

  // ----- The reducer and the grouping it must equal

  function AbsReal(q: real): real {
    if q < 0.0 then -q else q
  }

  /** How far, in bucket widths, a time just before a boundary is moved past it. */
  function Nudge(q: real): real {
    MaxReal(AbsReal(q) * 0.000000000000001, 0.0001)
  }

  /** `bucket_of`: the bucket holding time `t`. */
  function BucketOf(t: real, w: real): int
    requires w > 0.0
  {
    (t / w + Nudge(t / w)).Floor
  }

  /** Where the last run of points sharing a bucket starts. */
  function LastRun(w: real, rs: seq<Reading>): (k: nat)
    requires w > 0.0 && rs != []
    ensures k < |rs|
    ensures forall i :: k <= i < |rs| ==> BucketOf(rs[i].t, w) == BucketOf(rs[|rs| - 1].t, w)
    ensures k > 0 ==> BucketOf(rs[k - 1].t, w) != BucketOf(rs[|rs| - 1].t, w)
  {
    var n := |rs| - 1;
    if n == 0 then 0
    else if BucketOf(rs[n - 1].t, w) == BucketOf(rs[n].t, w) then LastRun(w, rs[..n])
    else n
  }

  /** One summary per run of points sharing a bucket. */
  function Runs(w: real, band: (real, real), rs: seq<Reading>): seq<EnvPoint>
    requires w > 0.0
  {
    if rs == [] then []
    else
      var k := LastRun(w, rs);
      Runs(w, band, rs[..k]) + [Summary(w, band, BucketOf(rs[k].t, w), rs[k..])]
  }

  /** Every point its own bucket. */
  function Singles(rs: seq<Reading>): seq<EnvPoint> {
    seq(|rs|, i requires 0 <= i < |rs| => Single(rs[i]))
  }

  /** The output for `rs`: one point per bucket, or per point without a width. */
  function Reduced(width: Option<real>, band: (real, real), rs: seq<Reading>): seq<EnvPoint>
    requires width.Some? ==> width.value > 0.0
  {
    if width.None? then Singles(rs) else Runs(width.value, band, rs)
  }

  lemma {:induction false} LastRunAppend(w: real, rs: seq<Reading>, r: Reading)
    requires w > 0.0
    ensures LastRun(w, rs + [r]) ==
            if rs != [] && BucketOf(rs[|rs| - 1].t, w) == BucketOf(r.t, w) then LastRun(w, rs) else |rs|
  {
    hide BucketOf;
    assert (rs + [r])[..|rs|] == rs;
  }

  /** The open bucket: its index and its points' parts, in order. */
  datatype OpenBucket = OpenBucket(bucket: int, values: seq<(real, real)>, bands: seq<Option<(real, real)>>,
                                   interpolated: seq<bool>)

  const CLOSED := OpenBucket(0, [], [], [])

  /** The open bucket's points are `rs`. */
  ghost predicate Holds(open: OpenBucket, rs: seq<Reading>) {
    && |open.values| == |open.bands| == |open.interpolated| == |rs|
    && forall i :: 0 <= i < |rs| ==>
         open.values[i] == (rs[i].t, rs[i].v) && open.bands[i] == rs[i].band && open.interpolated[i] == rs[i].interpolated
  }

  lemma {:induction false} HoldsMore(open: OpenBucket, rs: seq<Reading>, r: Reading, b: int)
    requires Holds(open, rs)
    ensures Holds(OpenBucket(b, open.values + [(r.t, r.v)], open.bands + [r.band], open.interpolated + [r.interpolated]),
                  rs + [r])
  {
  }

  function OpenValues(open: OpenBucket): seq<real> {
    seq(|open.values|, i requires 0 <= i < |open.values| => open.values[i].1)
  }

  /** The bands, when there is one; the flags, when one is set. */
  function SomeBands(bands: seq<Option<(real, real)>>): Option<seq<Option<(real, real)>>> {
    if exists i :: 0 <= i < |bands| && bands[i].Some? then Some(bands) else None
  }

  function SomeFlags(flags: seq<bool>): Option<seq<bool>> {
    if exists i :: 0 <= i < |flags| && flags[i] then Some(flags) else None
  }

  /** `close`: the open bucket's output point. */
  function CloseBucket(w: real, band: (real, real), open: OpenBucket): EnvPoint
    requires |open.values| == |open.bands| == |open.interpolated| > 0
  {
    if |open.values| == 1 then
      Single(Reading(open.values[0].0, open.values[0].1, open.bands[0], open.interpolated[0]))
    else
      BoxplotOf(Boundary(open.bucket, w), OpenValues(open), SomeBands(open.bands), SomeFlags(open.interpolated), band)
  }

  /** Passing no bands, or no flags, when none is set changes nothing. */
  lemma {:induction false} BoxplotWithout(t: real, vs: seq<real>, bands: seq<Option<(real, real)>>, flags: seq<bool>,
                                          band: (real, real))
    requires vs != []
    ensures BoxplotOf(t, vs, SomeBands(bands), SomeFlags(flags), band) == BoxplotOf(t, vs, Some(bands), Some(flags), band)
  {
    hide Sort, Quantile, Median;
  }

  lemma {:induction false} CloseIsSummary(w: real, band: (real, real), open: OpenBucket, rs: seq<Reading>)
    requires rs != [] && Holds(open, rs)
    ensures CloseBucket(w, band, open) == Summary(w, band, open.bucket, rs)
  {
    hide BoxplotOf, Boundary;
    if |rs| > 1 {
      assert OpenValues(open) == Values(rs);
      assert open.bands == Bands(rs) && open.interpolated == Flags(rs);
      BoxplotWithout(Boundary(open.bucket, w), Values(rs), open.bands, open.interpolated, band);
    }
  }

  /** What a reducer's fields are once `rs` are pushed: every run but the last is
      summarized, and the last is open. */
  ghost predicate ReducerOk(width: Option<real>, band: (real, real), rs: seq<Reading>, open: OpenBucket,
                            out: seq<EnvPoint>)
  {
    if width.None? then open == CLOSED && out == Singles(rs)
    else if rs == [] then open == CLOSED && out == []
    else
      && width.value > 0.0
      && open.bucket == BucketOf(rs[|rs| - 1].t, width.value)
      && Holds(open, rs[LastRun(width.value, rs)..])
      && out == Runs(width.value, band, rs[..LastRun(width.value, rs)])
  }

  function WithPoint(open: OpenBucket, r: Reading, b: int): OpenBucket {
    OpenBucket(b, open.values + [(r.t, r.v)], open.bands + [r.band], open.interpolated + [r.interpolated])
  }

  /** Another point of the open bucket's run joins it. */
  lemma {:induction false} PushSame(w: real, band: (real, real), rs: seq<Reading>, open: OpenBucket,
                                    out: seq<EnvPoint>, r: Reading)
    requires w > 0.0 && rs != [] && ReducerOk(Some(w), band, rs, open, out)
    requires BucketOf(r.t, w) == open.bucket
    ensures ReducerOk(Some(w), band, rs + [r], WithPoint(open, r, open.bucket), out)
    ensures open.values != []
  {
    hide BucketOf, Summary, LastRun;
    var k := LastRun(w, rs);
    LastRunAppend(w, rs, r);
    HoldsMore(open, rs[k..], r, open.bucket);
    assert (rs + [r])[k..] == rs[k..] + [r] && (rs + [r])[..k] == rs[..k];
  }

  /** A point of another bucket closes the open one and starts a run. */
  lemma {:induction false} PushNext(w: real, band: (real, real), rs: seq<Reading>, open: OpenBucket,
                                    out: seq<EnvPoint>, r: Reading)
    requires w > 0.0 && rs != [] && ReducerOk(Some(w), band, rs, open, out)
    requires BucketOf(r.t, w) != open.bucket
    ensures open.values != [] && |open.values| == |open.bands| == |open.interpolated|
    ensures out + [CloseBucket(w, band, open)] == Runs(w, band, rs)
    ensures ReducerOk(Some(w), band, rs + [r], WithPoint(CLOSED, r, BucketOf(r.t, w)), Runs(w, band, rs))
  {
    hide BucketOf, Summary, LastRun, CloseBucket;
    var k := LastRun(w, rs);
    CloseIsSummary(w, band, open, rs[k..]);
    LastRunAppend(w, rs, r);
    assert (rs + [r])[|rs|..] == [r] && (rs + [r])[..|rs|] == rs;
  }

  lemma {:induction false} PushFirst(w: real, band: (real, real), open: OpenBucket, out: seq<EnvPoint>, r: Reading)
    requires w > 0.0 && ReducerOk(Some(w), band, [], open, out)
    ensures open == CLOSED
    ensures ReducerOk(Some(w), band, [] + [r], WithPoint(open, r, BucketOf(r.t, w)), out)
  {
    hide BucketOf;
  }

  lemma {:induction false} SinglesMore(band: (real, real), rs: seq<Reading>, open: OpenBucket, out: seq<EnvPoint>,
                                       r: Reading)
    requires ReducerOk(None, band, rs, open, out)
    ensures ReducerOk(None, band, rs + [r], open, out + [Single(r)])
  {
  }

  class BucketReducer {
    const width: Option<real>
    const band: (real, real)
    var open: OpenBucket
    var out: seq<EnvPoint>
    var rawPoints: nat

    /** Every point pushed. */
    ghost var pushed: seq<Reading>

    ghost predicate Valid()
      reads this
    {
      && (width.Some? ==> width.value > 0.0)
      && rawPoints == |pushed|
      && ReducerOk(width, band, pushed, open, out)
    }

    constructor (width: Option<real>, band: (real, real))
      requires width.Some? ==> width.value > 0.0
      ensures Valid() && pushed == [] && this.width == width && this.band == band
    {
      this.width, this.band := width, band;
      open, out, rawPoints, pushed := CLOSED, [], 0, [];
    }

    /** Add a point. */
    method Push(t: real, v: real, band: Option<(real, real)>, interpolated: bool)
      requires Valid()
      modifies this
      ensures Valid() && pushed == old(pushed) + [Reading(t, v, band, interpolated)]
    {
      hide BucketOf, Runs, CloseBucket, ReducerOk;
      var r := Reading(t, v, band, interpolated);
      if width.None? {
        SinglesMore(this.band, pushed, open, out, r);
        out := out + [Single(r)];
      } else {
        var w := width.value;
        var b := BucketOf(t, w);
        if pushed == [] {
          PushFirst(w, this.band, open, out, r);
        } else if b == open.bucket {
          PushSame(w, this.band, pushed, open, out, r);
        } else {
          PushNext(w, this.band, pushed, open, out, r);
        }
        if open.values != [] && b != open.bucket {
          out := out + [CloseBucket(w, this.band, open)];
          open := CLOSED;
        }
        open := WithPoint(open, r, b);
      }
      rawPoints := rawPoints + 1;
      pushed := pushed + [r];
    }

    /** The output, the open bucket closed; and whether it has fewer points than
        were pushed. */
    method Finish() returns (points: seq<EnvPoint>, decimated: bool)
      requires Valid()
      ensures points == Reduced(width, band, pushed)
      ensures decimated <==> |points| < |pushed|
    {
      hide BucketOf, CloseBucket, LastRun, Summary;
      points := out;
      if width.Some? && open.values != [] {
        CloseIsSummary(width.value, band, open, pushed[LastRun(width.value, pushed)..]);
        points := out + [CloseBucket(width.value, band, open)];
      }
      decimated := |points| < rawPoints;
    }
  }

  // ----- For points in time order, runs are buckets

  ghost predicate InTime(rs: seq<Reading>) {
    forall i, j :: 0 <= i < j < |rs| ==> rs[i].t <= rs[j].t
  }

  /** The points of bucket `b`, or (`inside` false) those of every other. */
  function OfBucket(w: real, rs: seq<Reading>, b: int, inside: bool): (r: seq<Reading>)
    requires w > 0.0
    ensures |r| <= |rs|
  {
    if rs == [] then []
    else
      var last := rs[|rs| - 1];
      OfBucket(w, rs[..|rs| - 1], b, inside) + (if (BucketOf(last.t, w) == b) == inside then [last] else [])
  }

  /** One summary per bucket, of all the points in it. */
  function ByBucket(w: real, band: (real, real), rs: seq<Reading>): seq<EnvPoint>
    requires w > 0.0
    decreases |rs|
  {
    if rs == [] then []
    else
      var b := BucketOf(rs[|rs| - 1].t, w);
      ByBucket(w, band, OfBucket(w, rs[..|rs| - 1], b, false)) + [Summary(w, band, b, OfBucket(w, rs, b, true))]
  }

  lemma {:induction false} NudgeRises(q: real, q': real)
    requires q <= q'
    ensures q + Nudge(q) <= q' + Nudge(q')
  {
  }

  lemma {:induction false} QuotientRises(t: real, t': real, w: real)
    requires t <= t' && w > 0.0
    ensures t / w <= t' / w
  {
  }

  lemma {:induction false} BucketRises(t: real, t': real, w: real)
    requires t <= t' && w > 0.0
    ensures BucketOf(t, w) <= BucketOf(t', w)
  {
    hide Nudge;
    QuotientRises(t, t', w);
    NudgeRises(t / w, t' / w);
  }

  lemma {:induction false} SplitAtBucket(w: real, rs: seq<Reading>, k: nat, b: int)
    requires w > 0.0 && k <= |rs|
    requires forall i :: 0 <= i < k ==> BucketOf(rs[i].t, w) != b
    requires forall i :: k <= i < |rs| ==> BucketOf(rs[i].t, w) == b
    ensures OfBucket(w, rs, b, true) == rs[k..]
    ensures OfBucket(w, rs, b, false) == rs[..k]
  {
    hide BucketOf;
    if rs != [] {
      var n := |rs| - 1;
      if k <= n {
        SplitAtBucket(w, rs[..n], k, b);
        assert rs[k..] == rs[..n][k..] + [rs[n]];
        assert rs[..n][..k] == rs[..k];
      } else {
        SplitAtBucket(w, rs[..n], n, b);
        assert rs[..k] == rs[..n][..n] + [rs[n]];
      }
    }
  }

  /** For points in time order the reducer gives exactly one summary per bucket,
      over all of the bucket's points. */
  lemma {:induction false} RunsAreBuckets(w: real, band: (real, real), rs: seq<Reading>)
    requires w > 0.0 && InTime(rs)
    ensures Runs(w, band, rs) == ByBucket(w, band, rs)
  {
    hide BucketOf, Summary, LastRun;
    if rs != [] {
      var n := |rs| - 1;
      var k, b := LastRun(w, rs), BucketOf(rs[n].t, w);
      forall i | 0 <= i < k ensures BucketOf(rs[i].t, w) != b {
        BucketRises(rs[i].t, rs[k - 1].t, w);
        BucketRises(rs[k - 1].t, rs[n].t, w);
      }
      SplitAtBucket(w, rs, k, b);
      SplitAtBucket(w, rs[..n], k, b);
      assert rs[..n][..k] == rs[..k];
      RunsAreBuckets(w, band, rs[..k]);
    }
  }

  // ----- The output keeps the series' extremes

  /** Every output point's parts are in order. */
  lemma {:induction false} ReducedInOrder(w: real, band: (real, real), rs: seq<Reading>, j: nat)
    requires w > 0.0 && band.0 <= 0.5 <= band.1 && j < |Runs(w, band, rs)|
    ensures var e := Runs(w, band, rs)[j];
            e.min <= e.lo <= e.median <= e.hi <= e.max
  {
    hide BucketOf, LastRun, Summary;
    var k := LastRun(w, rs);
    if j < |Runs(w, band, rs[..k])| {
      ReducedInOrder(w, band, rs[..k], j);
    } else {
      SummaryInOrder(w, band, BucketOf(rs[k].t, w), rs[k..]);
    }
  }

  /** Every point lies within the extremes of an output point. */
  lemma {:induction false} NoSpikeLost(w: real, band: (real, real), rs: seq<Reading>, i: nat) returns (j: nat)
    requires w > 0.0 && i < |rs|
    ensures j < |Runs(w, band, rs)| && Runs(w, band, rs)[j].min <= rs[i].v <= Runs(w, band, rs)[j].max
  {
    hide BucketOf, LastRun, Summary;
    var k := LastRun(w, rs);
    if i < k {
      j := NoSpikeLost(w, band, rs[..k], i);
    } else {
      SummaryExtremes(w, band, BucketOf(rs[k].t, w), rs[k..], i - k);
      j := |Runs(w, band, rs)| - 1;
    }
  }

  /** Every extreme of an output point is a value of the series. */
  lemma {:induction false} NoSpikeInvented(w: real, band: (real, real), rs: seq<Reading>, j: nat)
    requires w > 0.0 && j < |Runs(w, band, rs)|
    ensures Runs(w, band, rs)[j].min in Values(rs) && Runs(w, band, rs)[j].max in Values(rs)
  {
    hide BucketOf, LastRun, Summary;
    var k := LastRun(w, rs);
    assert Values(rs) == Values(rs[..k]) + Values(rs[k..]);
    if j < |Runs(w, band, rs[..k])| {
      NoSpikeInvented(w, band, rs[..k], j);
    } else {
      SummaryExtremes(w, band, BucketOf(rs[k].t, w), rs[k..], 0);
    }
  }

  // ----- Output times

  ghost predicate InStrictTime(rs: seq<Reading>) {
    forall i, j :: 0 <= i < j < |rs| ==> rs[i].t < rs[j].t
  }

  /** Every time is less than `limit` bucket widths. */
  ghost predicate Within(limit: real, w: real, rs: seq<Reading>)
    requires w > 0.0
  {
    forall i :: 0 <= i < |rs| ==> AbsReal(rs[i].t / w) < limit
  }

  /** Below this many widths no time is moved a whole bucket. */
  const STEADY := 1000000000000000.0

  lemma {:induction false} TimeInBucket(t: real, w: real)
    requires w > 0.0 && AbsReal(t / w) < STEADY
    ensures Boundary(BucketOf(t, w) - 1, w) < t < Boundary(BucketOf(t, w) + 1, w)
  {
    var q, b := t / w, BucketOf(t, w);
    assert Nudge(q) < 1.0;
    assert b as real <= q + Nudge(q) < b as real + 1.0;
    Rescale(t, w, (b - 1) as real, (b + 1) as real);
  }

  lemma {:induction false} Rescale(t: real, w: real, a: real, b: real)
    requires w > 0.0 && a < t / w < b
    ensures a * w < t < b * w
  {
    var q := t / w;
    assert q * w == t;
    StrictProduct(a, q, w);
    StrictProduct(q, b, w);
  }

  lemma {:induction false} StrictProduct(a: real, b: real, w: real)
    requires a < b && w > 0.0
    ensures a * w < b * w
  {
  }

  lemma {:induction false} BoundaryRises(a: int, b: int, w: real)
    requires a <= b && w > 0.0
    ensures Boundary(a, w) <= Boundary(b, w)
    ensures a < b ==> Boundary(a, w) < Boundary(b, w)
  {
    if a < b {
      StrictProduct(a as real, b as real, w);
    }
  }

  /** Of two runs, the earlier is stamped earlier. */
  lemma {:induction false} SummariesInTime(w: real, band: (real, real), b: int, rs: seq<Reading>, b': int,
                                           rs': seq<Reading>)
    requires w > 0.0 && rs != [] && rs' != [] && b < b'
    requires BucketOf(rs[|rs| - 1].t, w) == b && BucketOf(rs'[0].t, w) == b'
    requires rs[|rs| - 1].t < rs'[0].t
    requires Within(STEADY, w, rs) && Within(STEADY, w, rs')
    ensures Summary(w, band, b, rs).t < Summary(w, band, b', rs').t
  {
    hide BucketOf, Boundary, Quantile, Sort, Lows, Highs, Median;
    TimeInBucket(rs[|rs| - 1].t, w);
    TimeInBucket(rs'[0].t, w);
    BoundaryRises(b, b', w);
    BoundaryRises(b + 1, b', w);
    BoundaryRises(b, b' - 1, w);
  }

  lemma {:induction false} LastOutput(w: real, band: (real, real), rs: seq<Reading>)
    requires w > 0.0 && rs != []
    ensures var k := LastRun(w, rs);
            && Runs(w, band, rs) != []
            && Runs(w, band, rs)[|Runs(w, band, rs)| - 1] == Summary(w, band, BucketOf(rs[k].t, w), rs[k..])
  {
    hide BucketOf, LastRun, Summary;
  }

  /** Below the limit output times strictly increase. */
  lemma {:induction false} SteadyInTime(w: real, band: (real, real), rs: seq<Reading>, i: nat, j: nat)
    requires w > 0.0 && InStrictTime(rs) && Within(STEADY, w, rs)
    requires i < j < |Runs(w, band, rs)|
    ensures Runs(w, band, rs)[i].t < Runs(w, band, rs)[j].t
  {
    hide BucketOf, LastRun, Summary, Within;
    var k := LastRun(w, rs);
    var before := Runs(w, band, rs[..k]);
    StillWithin(w, rs, k);
    if j < |before| {
      SteadyInTime(w, band, rs[..k], i, j);
    } else {
      assert k > 0;
      var m := LastRun(w, rs[..k]);
      LastOutput(w, band, rs[..k]);
      StillWithin(w, rs[..k], m);
      BucketRises(rs[m].t, rs[k].t, w);
      SummariesInTime(w, band, BucketOf(rs[m].t, w), rs[..k][m..], BucketOf(rs[k].t, w), rs[k..]);
      if i < |before| - 1 {
        SteadyInTime(w, band, rs[..k], i, |before| - 1);
      }
    }
  }

  /** No point in a later bucket is at or before the stamp of an earlier bucket of several. */
  ghost predicate Clear(w: real, rs: seq<Reading>)
    requires w > 0.0
  {
    forall i, k, j :: 0 <= i < k < j < |rs| && BucketOf(rs[i].t, w) == BucketOf(rs[k].t, w) != BucketOf(rs[j].t, w) ==>
      Boundary(BucketOf(rs[k].t, w), w) < rs[j].t
  }

  lemma {:induction false} BelowBoundary(t: real, w: real, b: int)
    requires w > 0.0 && 0.0 <= t && BucketOf(t, w) < b
    ensures t < Boundary(b, w)
  {
    QuotientRises(0.0, t, w);
    assert t / w < b as real;
    StrictProduct(t / w, b as real, w);
    assert (t / w) * w == t;
  }

  /** Of two runs of a clear series, the earlier is stamped earlier. */
  lemma {:induction false} ClearSummaries(w: real, band: (real, real), rs: seq<Reading>, m: nat, k: nat)
    requires w > 0.0 && InStrictTime(rs) && Clear(w, rs) && m < k < |rs|
    requires forall i :: 0 <= i < |rs| ==> 0.0 <= rs[i].t
    requires BucketOf(rs[m].t, w) < BucketOf(rs[k].t, w)
    requires forall i :: m <= i < k ==> BucketOf(rs[i].t, w) == BucketOf(rs[m].t, w)
    ensures Summary(w, band, BucketOf(rs[m].t, w), rs[m..k]).t < Summary(w, band, BucketOf(rs[k].t, w), rs[k..]).t
  {
    hide BucketOf, Boundary, Quantile, Sort, Lows, Highs, Median;
    var b, c := BucketOf(rs[m].t, w), BucketOf(rs[k].t, w);
    BoundaryRises(b, c, w);
    BelowBoundary(rs[m].t, w, c);
    if k - m > 1 {
      assert BucketOf(rs[k - 1].t, w) == b;
      assert Boundary(b, w) < rs[k].t;
    }
  }

  /** Output times of a clear series strictly increase. */
  lemma {:induction false} ClearInTime(w: real, band: (real, real), rs: seq<Reading>, i: nat, j: nat)
    requires w > 0.0 && InStrictTime(rs) && Clear(w, rs) && forall x :: 0 <= x < |rs| ==> 0.0 <= rs[x].t
    requires i < j < |Runs(w, band, rs)|
    ensures Runs(w, band, rs)[i].t < Runs(w, band, rs)[j].t
  {
    hide BucketOf, LastRun, Summary, Clear;
    var k := LastRun(w, rs);
    var before := Runs(w, band, rs[..k]);
    StillClear(w, rs, k);
    if j < |before| {
      ClearInTime(w, band, rs[..k], i, j);
    } else {
      assert k > 0;
      var m := LastRun(w, rs[..k]);
      LastOutput(w, band, rs[..k]);
      BucketRises(rs[m].t, rs[k].t, w);
      ClearSummaries(w, band, rs, m, k);
      assert rs[..k][m..] == rs[m..k];
      if i < |before| - 1 {
        ClearInTime(w, band, rs[..k], i, |before| - 1);
      }
    }
  }

  lemma {:induction false} StillClear(w: real, rs: seq<Reading>, n: nat)
    requires w > 0.0 && n <= |rs| && Clear(w, rs)
    ensures Clear(w, rs[..n])
  {
    hide BucketOf;
    forall i, k, j | 0 <= i < k < j < n && BucketOf(rs[..n][i].t, w) == BucketOf(rs[..n][k].t, w) != BucketOf(rs[..n][j].t, w)
      ensures Boundary(BucketOf(rs[..n][k].t, w), w) < rs[..n][j].t
    {
      assert rs[..n][i] == rs[i] && rs[..n][k] == rs[k] && rs[..n][j] == rs[j];
    }
  }

  lemma {:induction false} StillWithin(w: real, rs: seq<Reading>, k: nat)
    requires w > 0.0 && k <= |rs| && Within(STEADY, w, rs)
    ensures Within(STEADY, w, rs[..k]) && Within(STEADY, w, rs[k..])
  {
  }

  lemma {:induction false} TwoRuns(w: real, band: (real, real), a: Reading, b: Reading, c: Reading)
    requires w > 0.0 && BucketOf(a.t, w) == BucketOf(b.t, w) != BucketOf(c.t, w)
    ensures Runs(w, band, [a, b, c]) ==
            [Summary(w, band, BucketOf(a.t, w), [a, b]), Summary(w, band, BucketOf(c.t, w), [c])]
  {
    hide BucketOf, LastRun, Summary;
    LastRunAppend(w, [], a);
    LastRunAppend(w, [a], b);
    LastRunAppend(w, [a, b], c);
    assert [] + [a] == [a] && [a] + [b] == [a, b] && [a, b] + [c] == [a, b, c];
    assert [a, b, c][..2] == [a, b] && [a, b, c][2..] == [c] && [a, b][..0] == [] && [a, b][0..] == [a, b];
    NoRuns(w, band);
  }

  /** Whatever series of times below `limit` widths, output times strictly increase. */
  ghost predicate KeepsTime(limit: real, w: real, band: (real, real))
    requires w > 0.0
  {
    forall rs, i, j :: InStrictTime(rs) && Within(limit, w, rs) && 0 <= i < j < |Runs(w, band, rs)| ==>
      Runs(w, band, rs)[i].t < Runs(w, band, rs)[j].t
  }

  /** The bucket of the time `q` widths after the epoch. */
  lemma {:induction false} BucketAt(q: real, w: real)
    requires w > 0.0
    ensures (q * w) / w == q && BucketOf(q * w, w) == (q + Nudge(q)).Floor
  {
    var t := q * w;
    assert t / w == q;
  }

  /** Two times just before the limit and one at it: the output of the first two is
      stamped at the third's time. */
  lemma {:induction false} TieAtLimit(w: real, band: (real, real)) returns (rs: seq<Reading>)
    requires w > 0.0
    ensures InStrictTime(rs) && forall i :: 0 <= i < |rs| ==> AbsReal(rs[i].t / w) <= STEADY
    ensures |Runs(w, band, rs)| == 2 && Runs(w, band, rs)[0].t == Runs(w, band, rs)[1].t
  {
    hide Runs, Quantile, Sort, Lows, Highs, Median, BucketOf;
    var p, q := STEADY - 0.5, STEADY - 0.25;
    BucketAt(p, w);
    BucketAt(q, w);
    BucketAt(STEADY, w);
    StrictProduct(p, q, w);
    StrictProduct(q, STEADY, w);
    var a, b, c := Reading(p * w, 1.0, None, false), Reading(q * w, 1.0, None, false), Reading(STEADY * w, 1.0, None, false);
    assert (p + Nudge(p)).Floor == (q + Nudge(q)).Floor == 1000000000000000;
    assert (STEADY + Nudge(STEADY)).Floor == 1000000000000001;
    TwoRuns(w, band, a, b, c);
    rs := [a, b, c];
  }

  /** Output times of every series below a limit strictly increase exactly when the
      limit is no more than 1e15 bucket widths. */
  lemma {:induction false} OutputInTime(limit: real, w: real, band: (real, real))
    requires w > 0.0
    ensures KeepsTime(limit, w, band) <==> limit <= STEADY
  {
    hide InStrictTime, Runs, AbsReal;
    if limit <= STEADY {
      forall rs, i, j | InStrictTime(rs) && Within(limit, w, rs) && 0 <= i < j < |Runs(w, band, rs)|
        ensures Runs(w, band, rs)[i].t < Runs(w, band, rs)[j].t
      {
        SteadyInTime(w, band, rs, i, j);
      }
    } else {
      var rs := TieAtLimit(w, band);
      assert Within(limit, w, rs);
    }
  }

  // ----- The bucket budget

  const NICE: seq<real> := [1.0, 2.0, 5.0, 10.0, 15.0, 20.0, 30.0, 60.0, 120.0, 300.0, 600.0, 900.0, 1800.0, 3600.0,
                            7200.0, 10800.0, 21600.0, 43200.0, 86400.0]

  /** The first of `widths` at least `raw`, else whole days. */
  function FirstNice(widths: seq<real>, raw: real): (w: real)
    ensures w >= raw
    ensures (forall i :: 0 <= i < |widths| ==> widths[i] >= 1.0) && raw > 0.0 ==> w >= 1.0
  {
    if widths == [] then (0 - (0.0 - raw / 86400.0).Floor) as real * 86400.0
    else if widths[0] >= raw then widths[0]
    else FirstNice(widths[1..], raw)
  }

  /** `bucket_width`: the width for `budget` points over `[start, end]`. */
  function BucketWidth(start: real, end: real, step: real, budget: nat): (w: Option<real>)
    ensures w.Some? <==> budget > 0 && start < end
    ensures w.Some? ==> w.value > 0.0 && w.value >= (end - start) / budget as real
    ensures w.Some? && step > 0.0 && (end - start) / budget as real <= step ==> w.value <= step
    ensures w.Some? && (step <= 0.0 || (end - start) / budget as real > step) ==> w.value >= 1.0
    ensures w.Some? ==> w.value >= 1.0 || (step > 0.0 && w.value == step)
  {
    if budget == 0 || end - start <= 0.0 then None
    else
      var raw := (end - start) / budget as real;
      var nice := FirstNice(NICE, raw);
      if step > 0.0 && raw <= step then Some(MinReal(nice, step)) else Some(nice)
  }

  /** Times near enough that the nudge is the constant 1e-4 of a bucket. */
  predicate Near(t: real, w: real)
    requires w > 0.0
  {
    AbsReal(t / w) <= 100000000000.0
  }

  /** There are no more outputs than buckets from the first point's to the last's. */
  lemma {:induction false} OutputsPerBucket(w: real, band: (real, real), rs: seq<Reading>)
    requires w > 0.0 && InTime(rs) && rs != []
    ensures |Runs(w, band, rs)| <= BucketOf(rs[|rs| - 1].t, w) - BucketOf(rs[0].t, w) + 1
  {
    hide BucketOf, LastRun, Summary;
    var k := LastRun(w, rs);
    if k > 0 {
      OutputsPerBucket(w, band, rs[..k]);
      BucketRises(rs[k - 1].t, rs[k].t, w);
    } else {
      assert rs[..k] == [];
    }
  }

  lemma {:induction false} FloorSpan(a: real, b: real, n: int)
    requires b - a <= n as real
    ensures b.Floor - a.Floor <= n
  {
  }

  lemma {:induction false} WidthsInSpan(start: real, end: real, w: real, budget: nat)
    requires w > 0.0 && budget > 0 && w >= (end - start) / budget as real
    ensures end / w - start / w <= budget as real
  {
    var n := budget as real;
    var raw := (end - start) / n;
    assert raw * n == end - start;
    ProductRises(raw, w, n);
    assert end - start <= w * n;
    Regroup(start, end, w);
    QuotientRises(end - start, w * n, w);
    assert (w * n) / w == n;
  }

  lemma {:induction false} Regroup(a: real, b: real, w: real)
    requires w > 0.0
    ensures b / w - a / w == (b - a) / w
  {
  }

  lemma {:induction false} NoRuns(w: real, band: (real, real))
    requires w > 0.0
    ensures Runs(w, band, []) == []
  {
  }

  lemma {:induction false} SpanOfBuckets(start: real, end: real, w: real, budget: nat)
    requires w > 0.0 && Near(start, w) && Near(end, w) && end / w - start / w <= budget as real
    ensures BucketOf(end, w) - BucketOf(start, w) <= budget
  {
    assert Nudge(start / w) == 0.0001 && Nudge(end / w) == 0.0001;
    FloorSpan(start / w + 0.0001, end / w + 0.0001, budget);
  }

  /** When the grid fits the budget, points a step apart are in different buckets. */
  lemma {:induction false} AloneInBucket(start: real, end: real, step: real, budget: nat, t: real, t': real)
    requires budget > 0 && start < end && step > 0.0 && (end - start) / budget as real <= step
    requires 0.0 <= t && t + step <= t'
    ensures var w := BucketWidth(start, end, step, budget).value;
            BucketOf(t, w) < BucketOf(t', w)
  {
    hide BucketWidth, Nudge;
    var w := BucketWidth(start, end, step, budget).value;
    QuotientRises(t + w, t', w);
    Regroup(t, t + w, w);
    assert (t + w - t) / w == 1.0;
    QuotientRises(0.0, t, w);
    NudgeGrows(t / w, t' / w);
  }

  lemma {:induction false} NudgeGrows(q: real, q': real)
    requires 0.0 <= q <= q'
    ensures Nudge(q) <= Nudge(q')
  {
  }

  // ----- Series on the query's own grid, at times a u64 of nanoseconds can give

  function Seconds(ns: u64): (s: real)
    ensures 0.0 <= s <= 18446744073.709551615
  {
    ns as real / 1000000000.0
  }

  /** Points a step apart. */
  ghost predicate Spaced(step: real, rs: seq<Reading>) {
    forall i, j :: 0 <= i < j < |rs| ==> rs[i].t + step <= rs[j].t
  }

  /** Every time is in `[lo, hi]`. */
  ghost predicate InRange(lo: real, hi: real, rs: seq<Reading>) {
    forall i :: 0 <= i < |rs| ==> lo <= rs[i].t <= hi
  }

  /** The grid fits the budget. */
  predicate Fits(start: real, end: real, step: real, budget: nat) {
    budget > 0 && step > 0.0 && (end - start) / budget as real <= step
  }

  lemma {:induction false} RunsAreSingles(w: real, band: (real, real), rs: seq<Reading>)
    requires w > 0.0 && forall i, j :: 0 <= i < j < |rs| ==> BucketOf(rs[i].t, w) != BucketOf(rs[j].t, w)
    ensures Runs(w, band, rs) == Singles(rs)
  {
    hide BucketOf;
    if rs != [] {
      var n := |rs| - 1;
      assert n > 0 ==> BucketOf(rs[n - 1].t, w) != BucketOf(rs[n].t, w);
      RunsAreSingles(w, band, rs[..n]);
      assert Singles(rs) == Singles(rs[..n]) + [Single(rs[n])];
    }
  }

  /** When the grid fits, every point of it is its own output. */
  lemma {:induction false} GridAlone(start: real, end: real, step: real, budget: nat, band: (real, real),
                                     rs: seq<Reading>)
    requires start < end && Fits(start, end, step, budget) && Spaced(step, rs)
    requires forall i :: 0 <= i < |rs| ==> 0.0 <= rs[i].t
    ensures Reduced(BucketWidth(start, end, step, budget), band, rs) == Singles(rs)
  {
    hide BucketWidth, BucketOf, Runs;
    var w := BucketWidth(start, end, step, budget).value;
    forall i, j | 0 <= i < j < |rs| ensures BucketOf(rs[i].t, w) != BucketOf(rs[j].t, w) {
      AloneInBucket(start, end, step, budget, rs[i].t, rs[j].t);
    }
    RunsAreSingles(w, band, rs);
  }

  /** Widths that are not the step's are a second and more, and every time is near. */
  lemma {:induction false} ClockIsNear(t: real, w: real)
    requires w >= 1.0 && 0.0 <= t <= Seconds(U64_MAX)
    ensures Near(t, w) && AbsReal(t / w) < STEADY
  {
    QuotientRises(0.0, t, w);
    assert (t / w) * w == t;
    ProductRises(1.0, w, t / w);
  }

  /** A series on the query's grid is always put out in strictly increasing time. */
  lemma {:induction false} GridInTime(start: real, end: real, step: real, budget: nat, band: (real, real),
                                      rs: seq<Reading>, i: nat, j: nat)
    requires InStrictTime(rs) && Spaced(step, rs) && InRange(0.0, Seconds(U64_MAX), rs)
    requires i < j < |Reduced(BucketWidth(start, end, step, budget), band, rs)|
    ensures var out := Reduced(BucketWidth(start, end, step, budget), band, rs);
            out[i].t < out[j].t
  {
    hide BucketWidth, Runs, Seconds;
    var width := BucketWidth(start, end, step, budget);
    if width.Some? && Fits(start, end, step, budget) {
      GridAlone(start, end, step, budget, band, rs);
    } else if width.Some? {
      forall k | 0 <= k < |rs| ensures AbsReal(rs[k].t / width.value) < STEADY {
        ClockIsNear(rs[k].t, width.value);
      }
      SteadyInTime(width.value, band, rs, i, j);
    }
  }

  lemma {:induction false} SpacedOver(step: real, rs: seq<Reading>, n: nat)
    requires Spaced(step, rs) && n < |rs|
    ensures rs[0].t + n as real * step <= rs[n].t
  {
    if n > 0 {
      SpacedOver(step, rs, n - 1);
      assert n as real * step == (n - 1) as real * step + step;
    }
  }

  /** Points a step apart in a range of `n` steps are at most `n + 1`. */
  lemma {:induction false} SpacedCount(lo: real, hi: real, step: real, rs: seq<Reading>, n: nat)
    requires step > 0.0 && Spaced(step, rs) && InRange(lo, hi, rs) && hi - lo <= n as real * step
    ensures |rs| <= n + 1
  {
    assert (n + 1) as real * step == n as real * step + step;
    if |rs| > n + 1 {
      SpacedOver(step, rs, n + 1);
    }
  }

  /** Points in a range of `n` widths, where the shift is constant, have at most `n + 1`
      outputs. */
  lemma {:induction false} InNearRange(lo: real, hi: real, w: real, n: nat, band: (real, real), rs: seq<Reading>)
    requires w > 0.0 && InTime(rs) && InRange(lo, hi, rs) && lo <= hi && hi - lo <= n as real * w
    requires Near(lo, w) && Near(hi, w)
    ensures |Runs(w, band, rs)| <= n + 1
  {
    hide Runs, BucketOf, Near;
    if rs == [] {
      NoRuns(w, band);
      return;
    }
    OutputsPerBucket(w, band, rs);
    BucketRises(lo, rs[0].t, w);
    BucketRises(rs[|rs| - 1].t, hi, w);
    Regroup(lo, hi, w);
    QuotientRises(hi - lo, n as real * w, w);
    assert (n as real * w) / w == n as real;
    SpanOfBuckets(lo, hi, w, n);
  }

  /** How many buckets more than their number of widths the growing shift can spread
      times over. */
  function Spill(n: nat): (k: nat)
    ensures k <= 1 <==> n <= 1000000000000000
    ensures 1000000000000000 * k < n + 1000000000000000
  {
    (n + 999999999999999) / 1000000000000000
  }

  lemma {:induction false} SpillIsEnough(n: nat)
    ensures n as real * 0.000000000000001 <= Spill(n) as real
  {
    var d := 1000000000000000;
    assert n <= Spill(n) * d;
  }

  lemma {:induction false} NudgeSlope(q: real, q': real)
    requires q <= q'
    ensures Nudge(q') - Nudge(q) <= (q' - q) * 0.000000000000001
  {
  }

  lemma {:induction false} SpanAnywhere(start: real, end: real, w: real, n: nat)
    requires w > 0.0 && start <= end && end / w - start / w <= n as real
    ensures BucketOf(end, w) - BucketOf(start, w) <= n + Spill(n)
  {
    hide Nudge;
    var x, y := start / w, end / w;
    QuotientRises(start, end, w);
    NudgeSlope(x, y);
    SpillIsEnough(n);
    FloorSpan(x + Nudge(x), y + Nudge(y), n + Spill(n));
  }

  /** The budget, for any series in the range, on the grid or not: at most `budget + 1`
      outputs where the shift is constant, and anywhere at most one more for each 1e15 of
      the budget or part of it. */
  lemma {:induction false} WithinBudget(start: real, end: real, step: real, budget: nat, band: (real, real),
                                        rs: seq<Reading>)
    requires budget > 0 && start < end && InTime(rs) && InRange(start, end, rs)
    ensures |Reduced(BucketWidth(start, end, step, budget), band, rs)| <= budget + 1 + Spill(budget)
    ensures budget <= 1000000000000000 ==> |Reduced(BucketWidth(start, end, step, budget), band, rs)| <= budget + 2
    ensures var w := BucketWidth(start, end, step, budget).value;
            Near(start, w) && Near(end, w) ==>
              |Reduced(BucketWidth(start, end, step, budget), band, rs)| <= budget + 1
  {
    hide BucketWidth, Runs, Near, BucketOf, Spill, LastRun;
    var w := BucketWidth(start, end, step, budget).value;
    WidthsInSpan(start, end, w, budget);
    if rs == [] {
      NoRuns(w, band);
    } else {
      OutputsPerBucket(w, band, rs);
      BucketRises(start, rs[0].t, w);
      BucketRises(rs[|rs| - 1].t, end, w);
      SpanAnywhere(start, end, w, budget);
      if Near(start, w) && Near(end, w) {
        SpanOfBuckets(start, end, w, budget);
      }
    }
  }

  /** A series with points a step apart has at most `n + 1` outputs over `n` steps, when
      the grid fits, or `n` widths. */
  lemma {:induction false} GridBudget(start: real, end: real, step: real, budget: nat, band: (real, real), lo: real,
                                      hi: real, n: nat, rs: seq<Reading>)
    requires budget > 0 && start < end && InStrictTime(rs) && Spaced(step, rs)
    requires 0.0 <= lo <= hi <= Seconds(U64_MAX) && InRange(lo, hi, rs)
    requires hi - lo <= n as real * (if Fits(start, end, step, budget) then step
                                     else BucketWidth(start, end, step, budget).value)
    ensures |Reduced(BucketWidth(start, end, step, budget), band, rs)| <= n + 1
  {
    hide BucketWidth, Runs, Seconds, AbsReal;
    var w := BucketWidth(start, end, step, budget).value;
    if Fits(start, end, step, budget) {
      GridAlone(start, end, step, budget, band, rs);
      SpacedCount(lo, hi, step, rs, n);
    } else {
      ClockIsNear(lo, w);
      ClockIsNear(hi, w);
      InNearRange(lo, hi, w, n, band, rs);
    }
  }

  lemma {:induction false} FarBuckets(w: real)
    requires w > 0.0
    ensures BucketOf(2000000000000000.0 * w, w) == BucketOf(2000000000000000.5 * w, w) == 2000000000000002
    ensures BucketOf(2000000000000001.0 * w, w) == 2000000000000003
  {
    hide BucketOf;
    BucketAt(2000000000000000.0, w);
    BucketAt(2000000000000000.5, w);
    BucketAt(2000000000000001.0, w);
  }

  /** Off the grid it happens: at a step of 1 microsecond, three points half a step
      apart, 2e9 s after the epoch, of which the first two's output is stamped after the
      third's. */
  lemma {:induction false} OutputOutOfTime(band: (real, real)) returns (rs: seq<Reading>)
    ensures rs == [Reading(Seconds(2000000000000000000), 1.0, None, false),
                   Reading(Seconds(2000000000000000500), 1.0, None, false),
                   Reading(Seconds(2000000000000001000), 1.0, None, false)]
    ensures var width := BucketWidth(Seconds(2000000000000000000), Seconds(2000000000000001000), Seconds(1000), 1);
            width.Some? && var out := Reduced(width, band, rs);
            |out| == 2 && out[0].t > out[1].t
  {
    hide BucketOf, Runs, Quantile, Sort, Lows, Highs, Median, FirstNice;
    var w := Seconds(1000);
    var a, b, c := Reading(Seconds(2000000000000000000), 1.0, None, false),
                   Reading(Seconds(2000000000000000500), 1.0, None, false),
                   Reading(Seconds(2000000000000001000), 1.0, None, false);
    FarBuckets(w);
    TwoRuns(w, band, a, b, c);
    rs := [a, b, c];
    assert BucketWidth(a.t, c.t, w, 1) == Some(w) by { MicroWidth(); }
  }

  lemma {:induction false} MicroWidth()
    ensures BucketWidth(Seconds(2000000000000000000), Seconds(2000000000000001000), Seconds(1000), 1) == Some(Seconds(1000))
  {
    assert NICE[0] == 1.0;
  }
}
