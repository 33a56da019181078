/** What a display's parts are: quantiles by rank, medians by counting, buckets by their
    bounds, widths by the ladder they are taken from. */
module DisplayMeaning {
  import opened Prelude
  import opened Sorting
  import opened Display
  import opened BoxplotReduction

  // ----- Quantiles

  lemma {:induction false} RankIs(k: int, f: real, n: nat)
    requires n > 1 && 0 <= k < n && 0.0 <= f && k as real + f <= (n - 1) as real
    ensures RankOf((k as real + f) / (n - 1) as real, n) == k as real + f
  {
    var m, r := (n - 1) as real, k as real + f;
    assert r / m * m == r;
    QuotientRises(0.0, r, m);
    QuotientRises(r, m, m);
  }

  lemma {:induction false} FloorIs(k: int, f: real)
    requires 0.0 <= f < 1.0
    ensures (k as real + f).Floor == k
  {
  }

  /** The quantile a fraction `f` of the way from rank `k` of `n` values to the next is that
      fraction of the way from the one value to the next. */
  lemma {:induction false} QuantileBetween(s: seq<real>, k: nat, f: real)
    requires k + 1 < |s| && 0.0 <= f < 1.0
    ensures Quantile(s, (k as real + f) / (|s| - 1) as real) == s[k] + f * (s[k + 1] - s[k])
  {
    RankIs(k, f, |s|);
    FloorIs(k, f);
  }

  /** At a rank it is the value of that rank; outside 0 to 1 it is an end. */
  lemma {:induction false} QuantileAt(s: seq<real>, k: nat, q: real)
    requires k < |s|
    ensures |s| > 1 ==> Quantile(s, k as real / (|s| - 1) as real) == s[k]
    ensures q <= 0.0 ==> Quantile(s, q) == s[0]
    ensures q >= 1.0 ==> Quantile(s, q) == s[|s| - 1]
  {
    if |s| > 1 {
      if k + 1 < |s| {
        QuantileBetween(s, k, 0.0);
        assert k as real + 0.0 == k as real;
      } else {
        RankIs(k, 0.0, |s|);
        assert k as real + 0.0 == k as real;
      }
      if q <= 0.0 {
        QuantileLeast(s, q);
      }
      if q >= 1.0 {
        QuantileMost(s, q);
      }
    }
  }

  lemma {:induction false} QuantileLeast(s: seq<real>, q: real)
    requires |s| > 1 && q <= 0.0
    ensures Quantile(s, q) == s[0]
  {
    assert RankOf(q, |s|) == 0.0;
    assert Interpolate(s[0], s[1], 0.0) == s[0];
  }

  lemma {:induction false} QuantileMost(s: seq<real>, q: real)
    requires |s| > 1 && q >= 1.0
    ensures Quantile(s, q) == s[|s| - 1]
  {
    assert RankOf(q, |s|) == (|s| - 1) as real;
  }

  function AtOrBelow(vs: seq<real>, x: real): nat {
    HowMany(vs, (v: real) => v <= x)
  }

  function AtOrAbove(vs: seq<real>, x: real): nat {
    HowMany(vs, (v: real) => x <= v)
  }

  /** A median is the middle value, or midway between the two in the middle. */
  lemma {:induction false} MiddleOf(s: seq<real>)
    requires s != []
    ensures |s| % 2 == 1 ==> Quantile(s, 0.5) == s[|s| / 2]
    ensures |s| % 2 == 0 ==> Quantile(s, 0.5) == s[|s| / 2 - 1] + 0.5 * (s[|s| / 2] - s[|s| / 2 - 1])
  {
    hide Quantile;
    if |s| > 1 {
      var m, k := |s| - 1, (|s| - 1) / 2;
      if m % 2 == 0 {
        HalfOf(k as real, m as real);
        QuantileAt(s, k, 0.5);
      } else {
        HalfOf(k as real + 0.5, m as real);
        QuantileBetween(s, k, 0.5);
      }
    } else {
      QuantileOne(s);
    }
  }

  lemma {:induction false} QuantileOne(s: seq<real>)
    requires |s| == 1
    ensures Quantile(s, 0.5) == s[0]
  {
  }

  lemma {:induction false} HalfOf(x: real, m: real)
    requires m > 0.0 && x == m / 2.0
    ensures x / m == 0.5
  {
  }

  /** At least half of the values are at or below the median, and at least half at or above. */
  lemma {:induction false} MedianHalves(vs: seq<real>)
    requires vs != []
    ensures 2 * AtOrBelow(vs, Median(vs)) >= |vs| && 2 * AtOrAbove(vs, Median(vs)) >= |vs|
  {
    hide Sort, Quantile, HowMany;
    var s, n := Sort(vs, Display.AtMost()), |vs|;
    SortedAscends(vs);
    MiddleOf(s);
    var x := Median(vs);
    forall i | 0 <= i < n - n / 2 ensures s[i] <= x {
      assert i <= (n - 1) / 2;
    }
    CountAtLeast(s, (v: real) => v <= x, 0, n - n / 2);
    CountAtLeast(s, (v: real) => x <= v, n / 2, n);
    CountSort(vs, Display.AtMost(), (v: real) => v <= x);
    CountSort(vs, Display.AtMost(), (v: real) => x <= v);
  }

  // ----- A bucket's boxplot

  function Banded(bands: seq<Option<(real, real)>>): nat {
    HowMany(bands, (b: Option<(real, real)>) => b.Some?)
  }

  /** The lower edges there are, or (`high`) the upper, counted. */
  lemma {:induction false} EdgesCounted(bands: seq<Option<(real, real)>>, of: real -> bool)
    ensures |Lows(bands)| == |Highs(bands)| == Banded(bands)
    ensures HowMany(Lows(bands), of) == HowMany(bands, (b: Option<(real, real)>) => b.Some? && of(b.value.0))
    ensures HowMany(Highs(bands), of) == HowMany(bands, (b: Option<(real, real)>) => b.Some? && of(b.value.1))
  {
    if bands != [] {
      var n := |bands| - 1;
      EdgesCounted(bands[..n], of);
      var b := bands[n];
      if b.Some? {
        CountJoin(Lows(bands[..n]), [b.value.0], of);
        CountJoin(Highs(bands[..n]), [b.value.1], of);
        assert [b.value.0][..0] == [] && [b.value.1][..0] == [];
      } else {
        assert Lows(bands[..n]) + [] == Lows(bands[..n]) && Highs(bands[..n]) + [] == Highs(bands[..n]);
      }
    }
  }

  /** `x` is in the middle of the bands' lower edges, or (`high`) upper: at least half of
      those there are at or below it, and at least half at or above. */
  ghost predicate MiddleEdge(bands: seq<Option<(real, real)>>, high: bool, x: real) {
    && 2 * HowMany(bands, (b: Option<(real, real)>) => b.Some? && (if high then b.value.1 else b.value.0) <= x) >= Banded(bands)
    && 2 * HowMany(bands, (b: Option<(real, real)>) => b.Some? && x <= (if high then b.value.1 else b.value.0)) >= Banded(bands)
  }

  lemma {:induction false} EdgeMedians(bands: seq<Option<(real, real)>>)
    requires exists i :: 0 <= i < |bands| && bands[i].Some?
    ensures Lows(bands) != [] && Highs(bands) != []
    ensures MiddleEdge(bands, false, Median(Lows(bands))) && MiddleEdge(bands, true, Median(Highs(bands)))
  {
    hide Median;
    var lo, hi := Median(Lows(bands)), Median(Highs(bands));
    MedianHalves(Lows(bands));
    MedianHalves(Highs(bands));
    EdgesCounted(bands, (v: real) => v <= lo);
    EdgesCounted(bands, (v: real) => lo <= v);
    EdgesCounted(bands, (v: real) => v <= hi);
    EdgesCounted(bands, (v: real) => hi <= v);
    SameCounts(bands, false, lo);
    SameCounts(bands, true, hi);
  }

  lemma {:induction false} SameCounts(bands: seq<Option<(real, real)>>, high: bool, x: real)
    ensures HowMany(bands, (b: Option<(real, real)>) => b.Some? && (if high then b.value.1 else b.value.0) <= x) ==
            if high then HowMany(bands, (b: Option<(real, real)>) => b.Some? && ((v: real) => v <= x)(b.value.1))
            else HowMany(bands, (b: Option<(real, real)>) => b.Some? && ((v: real) => v <= x)(b.value.0))
    ensures HowMany(bands, (b: Option<(real, real)>) => b.Some? && x <= (if high then b.value.1 else b.value.0)) ==
            if high then HowMany(bands, (b: Option<(real, real)>) => b.Some? && ((v: real) => x <= v)(b.value.1))
            else HowMany(bands, (b: Option<(real, real)>) => b.Some? && ((v: real) => x <= v)(b.value.0))
  {
    if bands != [] {
      SameCounts(bands[..|bands| - 1], high, x);
    }
  }

  /** A boxplot's parts, of the values sorted: the extremes, the quantiles of the inner
      band, the median; of the bands there are, the middle edges; and its flag. */
  lemma {:induction false} BoxplotIs(t: real, values: seq<real>, bands: Option<seq<Option<(real, real)>>>,
                                     interpolated: Option<seq<bool>>, band: (real, real), s: seq<real>)
    requires values != [] && Ascending(s) && multiset(s) == multiset(values)
    ensures |s| == |values|
    ensures var e := BoxplotOf(t, values, bands, interpolated, band);
            && e.t == t && e.min == s[0] && e.max == s[|s| - 1]
            && e.lo == Quantile(s, band.0) && e.median == Quantile(s, 0.5) && e.hi == Quantile(s, band.1)
            && 2 * AtOrBelow(values, e.median) >= |values| && 2 * AtOrAbove(values, e.median) >= |values|
            && (e.interpolated <==> interpolated.Some? && exists i :: 0 <= i < |interpolated.value| && interpolated.value[i])
            && (e.uncLo.Some? <==> e.uncHi.Some?)
            && (e.uncLo.Some? <==> bands.Some? && exists i :: 0 <= i < |bands.value| && bands.value[i].Some?)
            && (e.uncLo.Some? ==> MiddleEdge(bands.value, false, e.uncLo.value) && MiddleEdge(bands.value, true, e.uncHi.value))
  {
    hide Sort, Quantile, MiddleEdge, HowMany, Lows, Highs;
    IsSort(values, s);
    MedianHalves(values);
    if bands.Some? && exists i :: 0 <= i < |bands.value| && bands.value[i].Some? {
      EdgeMedians(bands.value);
      hide Median;
    }
  }

  lemma {:induction false} IsSort(values: seq<real>, s: seq<real>)
    requires Ascending(s) && multiset(s) == multiset(values)
    ensures s == Sort(values, Display.AtMost()) && |s| == |values|
  {
    hide Sort;
    AtMostIsTotal();
    SortSorts(values, Display.AtMost());
    assert |s| == |multiset(s)| == |multiset(values)| == |values|;
    SortedIsUnique(s, Sort(values, Display.AtMost()), Display.AtMost());
  }

  /** A bucket's output: the point itself when alone, else the boxplot of its values,
      bands and flags, stamped at the bucket's boundary. */
  lemma {:induction false} SummaryIs(w: real, band: (real, real), b: int, rs: seq<Reading>)
    requires rs != []
    ensures var e := Summary(w, band, b, rs);
            if |rs| == 1 then
              var r := rs[0];
              e == EnvPoint(r.t, r.v, r.v, r.v, r.v, r.v, if r.band.Some? then Some(r.band.value.0) else None,
                            if r.band.Some? then Some(r.band.value.1) else None, r.interpolated)
            else exists values, bands, flags ::
              && |values| == |bands| == |flags| == |rs|
              && (forall i :: 0 <= i < |rs| ==>
                    values[i] == rs[i].v && bands[i] == rs[i].band && flags[i] == rs[i].interpolated)
              && e == BoxplotOf(b as real * w, values, Some(bands), Some(flags), band)
  {
    hide BoxplotOf;
    if |rs| > 1 {
      assert Summary(w, band, b, rs) == BoxplotOf(b as real * w, Values(rs), Some(Bands(rs)), Some(Flags(rs)), band);
    }
  }

  // ----- Buckets

  /** The bucket of a time, moved forward by 1e-4 of a bucket or, when that is more, 1e-15
      of itself: it is in the bucket's bounds then. */
  lemma {:induction false} BucketIs(t: real, w: real, b: int)
    requires w > 0.0
    ensures var q := t / w;
            var shift := if q * 0.000000000000001 > 0.0001 then q * 0.000000000000001
                         else if q * -0.000000000000001 > 0.0001 then q * -0.000000000000001 else 0.0001;
            BucketOf(t, w) == b <==> b as real <= q + shift < b as real + 1.0
  {
  }

  function Times(m: int, w: real): real {
    m as real * w
  }

  /** A whole series' buckets have no shift. */
  lemma {:induction false} PlainBucketIs(t: real, bw: real, b: int)
    requires bw > 0.0
    ensures PlainBucket(t, bw) == b <==> Times(b, bw) <= t < Times(b + 1, bw)
  {
    var q := t / bw;
    assert q * bw == t;
    TimesInOrder(b, q, bw);
    TimesInOrder(b + 1, q, bw);
    hide Times;
    assert q.Floor == b <==> b as real <= q < b as real + 1.0;
  }

  lemma {:induction false} TimesInOrder(b: int, q: real, bw: real)
    requires bw > 0.0
    ensures b as real <= q <==> Times(b, bw) <= q * bw
  {
    InOrderTimes(b as real, q, bw);
  }

  lemma {:induction false} InOrderTimes(a: real, b: real, c: real)
    requires c > 0.0
    ensures a <= b <==> a * c <= b * c
  {
    if a <= b {
      ProductRises(a, b, c);
    } else {
      StrictProduct(b, a, c);
    }
  }

  // ----- A whole series' outputs

  /** `b` is `a` from `i` to before `j`, when there is one. */
  ghost predicate IsSlice<T>(a: Option<seq<T>>, b: Option<seq<T>>, i: nat, j: nat)
    requires i <= j && (a.Some? ==> j <= |a.value|)
  {
    && (b.Some? <==> a.Some?)
    && (b.Some? ==> |b.value| == j - i && forall n :: 0 <= n < j - i ==> b.value[n] == a.value[i + n])
  }

  /** One bucket's output is the boxplot of its points, stamped at the start of the bucket
      its first time is in. */
  lemma {:induction false} BucketPointIs(points: seq<(real, real)>, bands: Option<seq<Option<(real, real)>>>,
                                         flags: Option<seq<bool>>, band: (real, real), bw: real, i: nat, j: nat)
    requires bw > 0.0 && i < j <= |points|
    requires (bands.Some? ==> |bands.value| == |points|) && (flags.Some? ==> |flags.value| == |points|)
    ensures exists values, bs, fs, b ::
              && |values| == j - i && (forall n :: 0 <= n < j - i ==> values[n] == points[i + n].1)
              && IsSlice(bands, bs, i, j) && IsSlice(flags, fs, i, j)
              && Times(b, bw) <= points[i].0 < Times(b + 1, bw)
              && BucketPoint(points, bands, flags, band, bw, i, j) == BoxplotOf(Times(b, bw), values, bs, fs, band)
  {
    hide BoxplotOf, PlainBucket;
    var b, values := PlainBucket(points[i].0, bw), ValuesOf(points[i..j]);
    PlainBucketIs(points[i].0, bw, b);
    assert IsSlice(bands, Slice(bands, i, j), i, j) && IsSlice(flags, Slice(flags, i, j), i, j);
    assert BucketPoint(points, bands, flags, band, bw, i, j) ==
           BoxplotOf(Times(b, bw), values, Slice(bands, i, j), Slice(flags, i, j), band);
  }

  /** Samples that fit the budget are put out as they are. */
  lemma {:induction false} WholeIs(points: seq<(real, real)>, bands: Option<seq<Option<(real, real)>>>,
                                   flags: Option<seq<bool>>, i: nat)
    requires i < |points|
    requires (bands.Some? ==> |bands.value| == |points|) && (flags.Some? ==> |flags.value| == |points|)
    ensures |Whole(points, bands, flags)| == |points|
    ensures var (t, v) := points[i];
            var band := if bands.Some? then bands.value[i] else None;
            Whole(points, bands, flags)[i] ==
            EnvPoint(t, v, v, v, v, v, if band.Some? then Some(band.value.0) else None,
                     if band.Some? then Some(band.value.1) else None, flags.Some? && flags.value[i])
  {
  }

  // ----- Widths

  /** `n` times each of some numbers. */
  function Scaled(xs: seq<real>, n: real): (r: seq<real>)
    ensures |r| == |xs|
  {
    seq(|xs|, i requires 0 <= i < |xs| => n * xs[i])
  }

  /** The widths are seconds, minutes, hours and a day. */
  lemma {:induction false} Ladder()
    ensures NICE == [1.0, 2.0, 5.0, 10.0, 15.0, 20.0, 30.0] + Scaled([1.0, 2.0, 5.0, 10.0, 15.0, 30.0], 60.0)
                      + Scaled([1.0, 2.0, 3.0, 6.0, 12.0, 24.0], 3600.0)
  {
  }

  /** Each divides a minute, an hour or a day evenly, and they ascend. */
  lemma {:induction false} RungsDivide(i: nat)
    requires i < |NICE|
    ensures exists m :: 0 < m && Times(m, NICE[i]) in {60.0, 3600.0, 86400.0}
    ensures i > 0 ==> NICE[i - 1] < NICE[i]
  {
    var to := if NICE[i] <= 60.0 then 60.0 else if NICE[i] <= 3600.0 then 3600.0 else 86400.0;
    var m := (to / NICE[i]).Floor;
    assert Times(m, NICE[i]) == to;
  }

  /** `w` is the least of `widths` that is no less than `raw`. */
  ghost predicate IsLeast(widths: seq<real>, raw: real, w: real) {
    w in widths && w >= raw && forall i :: 0 <= i < |widths| && widths[i] >= raw ==> w <= widths[i]
  }

  /** `w` is the least number of days that is no less than `raw`. */
  ghost predicate IsDays(raw: real, w: real) {
    exists m :: w == Times(m, 86400.0) && w - 86400.0 < raw <= w
  }

  ghost predicate AnyReaches(widths: seq<real>, raw: real) {
    exists i :: 0 <= i < |widths| && widths[i] >= raw
  }

  lemma {:induction false} LeastLater(first: real, widths: seq<real>, raw: real, w: real)
    requires first < raw
    ensures AnyReaches([first] + widths, raw) <==> AnyReaches(widths, raw)
    ensures IsLeast(widths, raw, w) ==> IsLeast([first] + widths, raw, w)
  {
    var all := [first] + widths;
    forall i | 0 <= i < |widths| ensures all[i + 1] == widths[i] {
    }
    if AnyReaches(widths, raw) {
      var i :| 0 <= i < |widths| && widths[i] >= raw;
      assert all[i + 1] >= raw;
    }
  }

  /** A ladder's width for `raw` is its least rung that is no less; or, past its top, the
      least number of days. */
  lemma {:induction false} WidthIsLeast(widths: seq<real>, raw: real)
    requires raw > 0.0 && forall i, j :: 0 <= i < j < |widths| ==> widths[i] < widths[j]
    ensures if AnyReaches(widths, raw) then IsLeast(widths, raw, FirstNice(widths, raw)) else IsDays(raw, FirstNice(widths, raw))
  {
    if widths == [] {
      var m := 0 - (0.0 - raw / 86400.0).Floor;
      assert FirstNice(widths, raw) == Times(m, 86400.0);
    } else if widths[0] < raw {
      WidthIsLeast(widths[1..], raw);
      assert widths == [widths[0]] + widths[1..];
      LeastLater(widths[0], widths[1..], raw, FirstNice(widths[1..], raw));
      hide IsLeast, IsDays, AnyReaches;
    }
  }

  /** A query's width is that rung, or its step when that is smaller and fits. */
  lemma {:induction false} BucketWidthIs(start: real, end: real, step: real, budget: nat)
    requires budget > 0 && start < end
    ensures var raw, w := (end - start) / budget as real, BucketWidth(start, end, step, budget).value;
            w == if 0.0 < step && raw <= step && step < FirstNice(NICE, raw) then step else FirstNice(NICE, raw)
  {
  }
}
