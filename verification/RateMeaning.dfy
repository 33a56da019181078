/** What a rate is, said of the readings themselves: totals are differences of readings,
    edges lie on the lines between them, and which grid points have a point. */
module RateMeaning {
  import opened Prelude
  import opened Sorting
  import opened RateSpec
  import opened RateProps

  // ----- Totals

  /** The readings just before each reset. */
  function BeforeResets(s: seq<Sample>): nat {
    if |s| <= 1 then 0
    else BeforeResets(s[..|s| - 1]) + (if s[|s| - 1].value < s[|s| - 2].value then s[|s| - 2].value else 0)
  }

  /** The total is the last reading less the first, and what each reset lost. */
  lemma {:induction false} TotalIs(s: seq<Sample>)
    requires s != []
    ensures Total(s) == (s[|s| - 1].value - s[0].value + BeforeResets(s)) as real
  {
    if |s| > 1 {
      TotalIs(s[..|s| - 1]);
    }
  }

  ghost predicate NoReset(s: seq<Sample>) {
    forall i, j :: 0 <= i < j < |s| ==> s[i].value <= s[j].value
  }

  lemma {:induction false} NothingLost(s: seq<Sample>)
    requires NoReset(s)
    ensures BeforeResets(s) == 0
  {
    if |s| > 1 {
      NothingLost(s[..|s| - 1]);
    }
  }

  /** Without a reset it is the last reading less the first. */
  lemma {:induction false} TotalWithoutReset(s: seq<Sample>)
    requires s != [] && NoReset(s)
    ensures Total(s) == (s[|s| - 1].value - s[0].value) as real
  {
    TotalIs(s);
    NothingLost(s);
  }

  // ----- The edges of windows

  /** `x` at `e` is on the line from `a` at `lo` to `b` at `hi`. */
  predicate OnLine(x: real, a: real, b: real, e: int, lo: int, hi: int) {
    (x - a) * (hi - lo) as real == (e - lo) as real * (b - a)
  }

  /** An edge's window when samples `lo` and `hi` are the two it lies between. */
  ghost predicate WindowOnLine(w: Option<(real, real)>, lo: Kept, hi: Kept, e: int) {
    && w.Some? && lo.window.Some? && hi.window.Some?
    && OnLine(w.value.0, lo.window.value.0 as real, hi.window.value.0 as real, e, lo.ts, hi.ts)
    && OnLine(w.value.1, lo.window.value.1 as real, hi.window.value.1 as real, e, lo.ts, hi.ts)
  }

  /** The edge of a window at sample `k`'s own time. */
  ghost predicate EdgeOf(edge: Edge, windowed: bool, k: Kept) {
    && edge.cum == Some(k.cum)
    && (edge.window.Some? <==> windowed && k.window.Some?)
    && (edge.window.Some? ==>
          edge.window.value.0 == k.window.value.0 as real && edge.window.value.1 == k.window.value.1 as real)
  }

  /** At samples of its own time a right edge is the first's, a left edge the last's. */
  lemma {:induction false} EdgeAtSample(windowed: bool, typical: u64, ks: seq<Kept>, e: u64, i: nat)
    requires Ordered(ks) && i < |ks| && ks[i].ts == e
    ensures (i > 0 ==> ks[i - 1].ts < e) ==> EdgeOf(RightEdge(windowed, typical, ks, e), windowed, ks[i])
    ensures (i < |ks| - 1 ==> e < ks[i + 1].ts) ==> EdgeOf(LeftEdge(windowed, typical, ks, e), windowed, ks[i])
  {
    if i > 0 ==> ks[i - 1].ts < e {
      BeforeIs(ks, e, i);
    }
    if i < |ks| - 1 ==> e < ks[i + 1].ts {
      BeforeIs(ks, e + 1, i + 1);
    }
  }

  lemma {:induction false} Unscaled(d: real, w: real, c: real)
    requires w > 0.0
    ensures d / w * c * w == d * c
  {
    var f := d / w;
    assert f * w == d;
    assert f * c * w == f * w * c;
  }

  /** Between two samples an edge is on the line between them; it has a window when both
      have and they are no more than twice the typical spacing apart. */
  lemma {:induction false} EdgeBetween(windowed: bool, typical: u64, ks: seq<Kept>, e: u64, i: nat)
    requires Ordered(ks) && i + 1 < |ks| && ks[i].ts < e < ks[i + 1].ts
    ensures LeftEdge(windowed, typical, ks, e) == RightEdge(windowed, typical, ks, e)
    ensures var edge, lo, hi := RightEdge(windowed, typical, ks, e), ks[i], ks[i + 1];
            && edge.cum.Some? && OnLine(edge.cum.value, lo.cum, hi.cum, e, lo.ts, hi.ts)
            && (edge.window.Some? <==> windowed && lo.window.Some? && hi.window.Some? && hi.ts - lo.ts <= 2 * typical)
            && (edge.window.Some? ==> WindowOnLine(edge.window, lo, hi, e))
  {
    BeforeIs(ks, e, i + 1);
    BeforeIs(ks, e + 1, i + 1);
    hide Between, OnLine;
    BetweenIs(windowed, typical, ks[i], ks[i + 1], e);
  }

  lemma {:induction false} BetweenIs(windowed: bool, typical: u64, lo: Kept, hi: Kept, e: u64)
    requires lo.ts < e < hi.ts
    ensures var edge := Between(windowed, typical, lo, hi, e);
            && edge.cum.Some? && OnLine(edge.cum.value, lo.cum, hi.cum, e, lo.ts, hi.ts)
            && (edge.window.Some? <==> windowed && lo.window.Some? && hi.window.Some? && hi.ts - lo.ts <= 2 * typical)
            && (edge.window.Some? ==> WindowOnLine(edge.window, lo, hi, e))
  {
    assert SatMul(typical, 2) == Prelude.Min(2 * typical, U64_MAX);
    TotalOnLine(windowed, typical, lo, hi, e);
    if Between(windowed, typical, lo, hi, e).window.Some? {
      WindowIsOnLine(windowed, typical, lo, hi, e);
    }
    hide OnLine, WindowOnLine;
  }

  lemma {:induction false} TotalOnLine(windowed: bool, typical: u64, lo: Kept, hi: Kept, e: u64)
    requires lo.ts < e < hi.ts
    ensures OnLine(Between(windowed, typical, lo, hi, e).cum.value, lo.cum, hi.cum, e, lo.ts, hi.ts)
  {
    hide SatMul;
    Unscaled((e - lo.ts) as real, (hi.ts - lo.ts) as real, hi.cum - lo.cum);
  }

  lemma {:induction false} WindowIsOnLine(windowed: bool, typical: u64, lo: Kept, hi: Kept, e: u64)
    requires lo.ts < e < hi.ts && Between(windowed, typical, lo, hi, e).window.Some?
    ensures WindowOnLine(Between(windowed, typical, lo, hi, e).window, lo, hi, e)
  {
    hide SatMul;
    var (a, b) := (lo.window.value, hi.window.value);
    var d, w := (e - lo.ts) as real, (hi.ts - lo.ts) as real;
    Unscaled(d, w, b.0 as real - a.0 as real);
    Unscaled(d, w, b.1 as real - a.1 as real);
  }

  /** Outside the samples there is no edge. */
  lemma {:induction false} EdgeOutside(windowed: bool, typical: u64, ks: seq<Kept>, e: u64)
    requires Ordered(ks) && (ks == [] || e < ks[0].ts || e > ks[|ks| - 1].ts)
    ensures RightEdge(windowed, typical, ks, e) == LeftEdge(windowed, typical, ks, e) == Edge(None, None)
  {
    if ks != [] && e < ks[0].ts {
      BeforeIs(ks, e, 0);
      BeforeIs(ks, e + 1, 0);
    } else {
      BeforeIs(ks, e, |ks|);
      BeforeIs(ks, e + 1, |ks|);
    }
  }

  /** A window has an edge at `e` exactly when `e` is within the samples. */
  lemma {:induction false} EdgeExists(windowed: bool, typical: u64, ks: seq<Kept>, e: u64)
    requires Ordered(ks) && ks != []
    ensures RightEdge(windowed, typical, ks, e).cum.Some? <==> ks[0].ts <= e <= ks[|ks| - 1].ts
    ensures LeftEdge(windowed, typical, ks, e).cum.Some? <==> ks[0].ts <= e <= ks[|ks| - 1].ts
  {
    if ks[0].ts <= e <= ks[|ks| - 1].ts {
      TotalsOfEdges(windowed, typical, ks, e);
    } else {
      EdgeOutside(windowed, typical, ks, e);
    }
  }

  // ----- Where a window ends and starts

  /** A window ends at its point's time, or, up to the typical spacing before the range's
      end, at the last sample; a fixed span does not reach before time zero. */
  lemma {:induction false} WindowEndIs(su: Setup, typical: u64, ks: seq<Kept>, t: u64)
    requires ks != []
    ensures var last, at := ks[|ks| - 1].ts, WindowEnd(su, typical, ks, t);
            && (at.Some? <==>
                  (su.grid.range || su.grid.span <= t) && (t <= last || (|ks| >= 2 && su.grid.end <= last + typical)))
            && (at.Some? ==> at.value == if t <= last then t else last)
  {
  }

  /** Of a `rate`, with `i` samples up to a span before its end: there, if the last of
      them is within reach; else at the next sample, if that is before the end. */
  lemma {:induction false} WindowStartIs(su: Setup, ks: seq<Kept>, at: u64, i: nat)
    requires Ordered(ks) && i <= |ks|
    requires var from := if su.grid.span < at then at - su.grid.span else 0;
             (i > 0 ==> ks[i - 1].ts <= from) && (i < |ks| ==> from < ks[i].ts)
    ensures var from := if su.grid.span < at then at - su.grid.span else 0;
            WindowStart(su, ks, at) ==
            if !su.grid.range || (i > 0 && from - ks[i - 1].ts <= su.reach) then Some(from)
            else if i < |ks| && ks[i].ts < at then Some(ks[i].ts)
            else None
  {
    var from := if su.grid.span < at then at - su.grid.span else 0;
    BeforeIs(ks, from + 1, i);
  }

  // ----- The point of a window

  /** One end of a band: the value, or the increase over `ns` nanoseconds. */
  predicate EndOfBand(b: real, v: real, increase: real, ns: real) {
    b == v || b * (ns / NS) == increase
  }

  /** A point's time, value, band and flag. Its band is given when both edges have
      windows and the right one's is after the left one's; its ends are the value itself
      or the increase over the most and the least time there can be between the reads. */
  lemma {:induction false} PointOfIs(windowed: bool, left: Edge, right: Edge, at: u64, from: u64, t: u64)
    ensures var p := PointOf(windowed, left, right, at, from, t);
            && (p.Some? <==> left.cum.Some? && right.cum.Some? && from < at)
            && (p.Some? ==>
                  && p.value.t == t && !p.value.timing
                  && p.value.v * ((at - from) as real / NS) == right.cum.value - left.cum.value
                  && (p.value.interpolated <==> windowed && (left.window.None? || right.window.None?)))
    ensures var p := PointOf(windowed, left, right, at, from, t);
            p.Some? ==>
              && (p.value.bounds.Some? <==>
                    && left.window.Some? && right.window.Some?
                    && right.window.value.0 > left.window.value.1 && right.window.value.1 > left.window.value.0)
              && (p.value.edges == if p.value.bounds.Some? then Some(RateEdges(left.window.value, right.window.value)) else None)
              && (p.value.bounds.Some? ==>
                    var (lo, hi) := p.value.bounds.value;
                    var increase := right.cum.value - left.cum.value;
                    var longest, shortest := right.window.value.1 - left.window.value.0,
                                             right.window.value.0 - left.window.value.1;
                    && lo <= p.value.v <= hi && lo * (longest / NS) <= increase <= hi * (shortest / NS)
                    && EndOfBand(lo, p.value.v, increase, longest) && EndOfBand(hi, p.value.v, increase, shortest))
  {
    hide Band, PerSecond, EndOfBand;
    if right.cum.Some? && left.cum.Some? && from < at {
      var increase := right.cum.value - left.cum.value;
      var v := PerSecond(increase, at - from);
      PerSecondTimes(increase, at - from);
      if left.window.Some? && right.window.Some? {
        BandIs(increase, v, left.window.value, right.window.value);
      }
    }
  }

  lemma {:induction false} BandIs(increase: real, v: real, left: (real, real), right: (real, real))
    ensures Band(increase, left, right).Some? <==> right.0 > left.1 && right.1 > left.0
    ensures Band(increase, left, right).Some? ==>
              var b := Band(increase, left, right).value;
              var lo, hi := MinReal(b.0, v), MaxReal(b.1, v);
              && lo * ((right.1 - left.0) / NS) <= increase <= hi * ((right.0 - left.1) / NS)
              && EndOfBand(lo, v, increase, right.1 - left.0) && EndOfBand(hi, v, increase, right.0 - left.1)
  {
    var longest, shortest := (right.1 - left.0) / NS, (right.0 - left.1) / NS;
    if shortest > 0.0 && longest > 0.0 {
      RateTimesWidth(increase, longest);
      RateTimesWidth(increase, shortest);
      Wider(MinReal(increase / longest, v), increase / longest, longest);
      Wider(increase / shortest, MaxReal(increase / shortest, v), shortest);
    }
  }

  lemma {:induction false} Wider(a: real, b: real, c: real)
    requires a <= b && c > 0.0
    ensures a * c <= b * c
  {
  }

  // ----- Which points a rate has

  lemma {:induction false} PointsHave(su: Setup, typical: u64, ks: seq<Kept>, n: nat, k: nat)
    requires su.grid.step > 0 && n <= su.grid.Count() && ks != [] && k < n && 0 <= su.grid.Time(k) <= U64_MAX
    ensures forall e :: e in Points(su, typical, ks, n) && e.index == k ==>
              PointAt(su, typical, ks, su.grid.Time(k)) == Some(e.point)
    ensures var p := PointAt(su, typical, ks, su.grid.Time(k));
            p.Some? ==> Emission(k, p.value) in Points(su, typical, ks, n)
  {
    hide PointAt;
    Counted(su.grid, n - 1);
    var before, more := Points(su, typical, ks, n - 1), EmissionOf(n - 1, PointAt(su, typical, ks, su.grid.Time(n - 1)));
    assert Points(su, typical, ks, n) == before + more;
    if k < n - 1 {
      PointsHave(su, typical, ks, n - 1, k);
    } else {
      PointsBefore(su, typical, ks, n - 1);
    }
  }

  lemma {:induction false} PointsBefore(su: Setup, typical: u64, ks: seq<Kept>, n: nat)
    requires su.grid.step > 0 && n <= su.grid.Count() && ks != []
    ensures forall e :: e in Points(su, typical, ks, n) ==> e.index < n
  {
    hide PointAt;
    if n > 0 {
      Counted(su.grid, n - 1);
      PointsBefore(su, typical, ks, n - 1);
    }
  }

  /** A series has a point at a grid point exactly when the window of it has both edges,
      and no other; one of fewer than two samples has none. */
  lemma {:induction false} RateHas(su: Setup, s: seq<Sample>, k: nat)
    requires InOrder(s) && k < su.grid.Count()
    ensures 0 <= su.grid.Time(k) <= U64_MAX
    ensures |s| < 2 ==> Rate(su, s) == []
    ensures |s| >= 2 ==>
              && (forall e :: e in Rate(su, s) && e.index == k ==>
                    PointAt(su, Typical(s), KeptAll(s), su.grid.Time(k)) == Some(e.point))
              && var p := PointAt(su, Typical(s), KeptAll(s), su.grid.Time(k));
                 p.Some? ==> Emission(k, p.value) in Rate(su, s)
  {
    hide PointAt, Typical, KeptAll;
    Counted(su.grid, k);
    if |s| >= 2 {
      PointsHave(su, Typical(s), KeptAll(s), su.grid.Count(), k);
    }
  }

  /** With a fixed span: there is a point at `t` exactly when the window, ending at `t` or
      at the last sample and a span long, is within the samples; and its value is the
      increase over that window, per second. */
  lemma {:induction false} FixedPoint(su: Setup, typical: u64, ks: seq<Kept>, t: u64)
    requires Ordered(ks) && |ks| >= 2 && !su.grid.range && su.grid.span >= 1
    ensures var first, last := ks[0].ts, ks[|ks| - 1].ts;
            var at := if t <= last then t else last;
            var from := if su.grid.span < at then at - su.grid.span else 0;
            && (PointAt(su, typical, ks, t).Some? <==>
                  su.grid.span <= t && (t <= last || su.grid.end <= last + typical) && first <= from < at)
            && (PointAt(su, typical, ks, t).Some? ==>
                  && PointAt(su, typical, ks, t).value.t == t
                  && PointAt(su, typical, ks, t).value.v * ((at - from) as real / NS)
                     == TotalAt(typical, ks, at, false) - TotalAt(typical, ks, from, true))
  {
    hide LeftEdge, RightEdge, TotalAt, PointOf;
    var last := ks[|ks| - 1].ts;
    var at := if t <= last then t else last;
    var from := if su.grid.span < at then at - su.grid.span else 0;
    WindowEndIs(su, typical, ks, t);
    assert WindowStart(su, ks, at) == Some(from);
    EdgeExists(su.windowed, typical, ks, at);
    EdgeExists(su.windowed, typical, ks, from);
    PointOfIs(su.windowed, LeftEdge(su.windowed, typical, ks, from), RightEdge(su.windowed, typical, ks, at), at, from, t);
    if ks[0].ts <= from < at {
      TotalsOfEdges(su.windowed, typical, ks, at);
      TotalsOfEdges(su.windowed, typical, ks, from);
    }
  }

  // ----- Conservation, from readings to emitted points

  /** What the points at grid indices from `m` to before `n` say the counter rose by. */
  function Rises(es: seq<Emission>, m: nat, n: nat, step: u64): real {
    if es == [] then 0.0
    else
      var e := es[|es| - 1];
      Rises(es[..|es| - 1], m, n, step) + (if m <= e.index < n then Rise(e.point, step) else 0.0)
  }

  lemma {:induction false} RisesMore(es: seq<Emission>, more: seq<Emission>, m: nat, n: nat, step: u64)
    requires |more| <= 1
    ensures Rises(es + more, m, n, step) ==
            Rises(es, m, n, step)
              + (if |more| == 1 && m <= more[0].index < n then Rise(more[0].point, step) else 0.0)
  {
    if more == [] {
      assert es + more == es;
    } else {
      assert (es + more)[..|es|] == es;
    }
  }

  lemma {:induction false} PointsRiseBy(su: Setup, typical: u64, ks: seq<Kept>, m: nat, n: nat, count: nat)
    requires su.grid.step > 0 && ks != [] && m <= n && count <= su.grid.Count()
    requires forall k :: m <= k < n ==> 0 <= su.grid.Time(k) <= U64_MAX && PointAt(su, typical, ks, su.grid.Time(k)).Some?
    ensures Rises(Points(su, typical, ks, count), m, n, su.grid.step) ==
            if count <= m then 0.0 else Summed(su, typical, ks, m, Prelude.Min(count, n))
  {
    hide PointAt, Rise;
    if count > 0 {
      Counted(su.grid, count - 1);
      var k := count - 1;
      var more := EmissionOf(k, PointAt(su, typical, ks, su.grid.Time(k)));
      PointsRiseBy(su, typical, ks, m, n, k);
      RisesMore(Points(su, typical, ks, k), more, m, n, su.grid.step);
    }
  }

  ghost predicate StrictlyOrdered(s: seq<Sample>) {
    forall i, j :: 0 <= i < j < |s| ==> s[i].ts < s[j].ts
  }

  /** The total at a sample of its own time. */
  lemma {:induction false} TotalAtReading(s: seq<Sample>, i: nat, after: bool)
    requires StrictlyOrdered(s) && i < |s|
    ensures InOrder(s)
    ensures forall typical :: TotalAt(typical, KeptAll(s), s[i].ts, after)
                              == (s[i].value - s[0].value + BeforeResets(s[..i + 1])) as real
  {
    KeptAllOrdered(s);
    var ks := KeptAll(s);
    KeptAllAt(s, i);
    if i > 0 {
      KeptAllAt(s, i - 1);
    }
    if i < |s| - 1 {
      KeptAllAt(s, i + 1);
    }
    TotalIs(s[..i + 1]);
    hide KeptAll, Total;
    forall typical: u64 ensures TotalAt(typical, ks, s[i].ts, after) == ks[i].cum {
      EdgeAtSample(false, typical, ks, s[i].ts, i);
    }
  }

  /** Conservation: a series read at the times of windows' edges, of spans of one step,
      has rates that, times the step, add up to the last reading less the first, and what
      the resets between lost. */
  lemma {:induction false} ReadingsConserve(su: Setup, s: seq<Sample>, m: nat, n: nat, a: nat, b: nat)
    requires StrictlyOrdered(s) && a < b < |s| && su.grid.Valid()
    requires !su.grid.range && su.grid.span == su.grid.step > 0
    requires m < n <= su.grid.Count() && s[a].ts == su.grid.Time(m) - su.grid.step && s[b].ts == su.grid.Time(n - 1)
    ensures InOrder(s)
    ensures Rises(Rate(su, s), m, n, su.grid.step) ==
            (s[b].value - s[a].value + BeforeResets(s[..b + 1]) - BeforeResets(s[..a + 1])) as real
    ensures NoReset(s) ==> Rises(Rate(su, s), m, n, su.grid.step) == (s[b].value - s[a].value) as real
  {
    hide PointAt, Rise, Typical, Summed, TotalAt, OneTotalAt;
    TotalAtReading(s, a, true);
    TotalAtReading(s, b, false);
    var ks := KeptAll(s);
    KeptAllOrdered(s);
    KeptAllRises(s);
    EachOnce(s, su.grid);
    RatesConserve(su, Typical(s), ks, m, n);
    PointsRiseBy(su, Typical(s), ks, m, n, su.grid.Count());
    if NoReset(s) {
      NothingLost(s[..b + 1]);
      NothingLost(s[..a + 1]);
    }
  }

  lemma {:induction false} EachOnce(s: seq<Sample>, g: Grid)
    requires StrictlyOrdered(s)
    ensures forall k: nat :: OneTotalAt(KeptAll(s), g.Time(k))
  {
    forall i | 0 <= i < |s| ensures KeptAll(s)[i].ts == s[i].ts {
      KeptAllAt(s, i);
    }
  }

  // ----- The typical spacing

  /** How many of some numbers are at most `x`. */
  function AtMost(gaps: seq<int>, x: int): nat {
    HowMany(gaps, (g: int) => g <= x)
  }

  lemma {:induction false} IntOrder()
    ensures TotalOrder((a: int, b: int) => a <= b)
  {
  }

  lemma {:induction false} SplitAt(s: seq<int>, x: int) returns (n: nat)
    requires forall i, j :: 0 <= i < j < |s| ==> s[i] <= s[j]
    ensures n <= |s| && forall i :: 0 <= i < |s| ==> (s[i] <= x <==> i < n)
  {
    n := 0;
    while n < |s| && s[n] <= x
      invariant n <= |s| && forall i :: 0 <= i < n ==> s[i] <= x
    {
      n := n + 1;
    }
  }

  /** The median is at most `x` exactly when more than half of the numbers are. */
  lemma {:induction false} MedianIs(gaps: seq<int>, default: int, x: int)
    requires gaps != []
    ensures MedianOr(gaps, default) <= x <==> 2 * AtMost(gaps, x) > |gaps|
  {
    hide HowMany, Sort;
    var le := (a: int, b: int) => a <= b;
    var sorted := Sort(gaps, le);
    IntOrder();
    SortSorts(gaps, le);
    forall i, j | 0 <= i < j < |sorted| ensures sorted[i] <= sorted[j] {
      assert le(sorted[i], sorted[j]);
    }
    var n := SplitAt(sorted, x);
    CountPrefix(sorted, (g: int) => g <= x, n);
    CountSort(gaps, le, (g: int) => g <= x);
  }

  /** The typical spacing of a series is the median of the gaps between its first nine
      samples, and one nanosecond at least. */
  lemma {:induction false} TypicalIs(s: seq<Sample>, x: nat)
    requires InOrder(s) && |s| >= 2 && x >= 1
    ensures var n := if |s| < 9 then |s| else 9;
            var gaps := seq(n - 1, i requires 0 <= i < n - 1 => s[i + 1].ts - s[i].ts);
            && Typical(s) >= 1
            && (Typical(s) <= x <==> 2 * AtMost(gaps, x) > n - 1)
  {
    hide MedianOr, AtMost;
    var n := if |s| < 9 then |s| else 9;
    var probe := if |s| <= SPACING_PROBE then s else s[..SPACING_PROBE];
    var gaps := seq(n - 1, i requires 0 <= i < n - 1 => s[i + 1].ts - s[i].ts);
    assert Gaps(probe) == gaps;
    MedianIs(gaps, 1, x);
  }
}
