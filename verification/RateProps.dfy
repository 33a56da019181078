/** What a counter's grid rate means: rates are never negative, over consecutive
    grid points they add up to the counter's increase, and a point's band holds
    the rate for every instant its two reads may have been at. */
module RateProps {
  import opened Prelude
  import opened RateSpec

  const NS: real := 1000000000.0

  // ----- Totals never fall

  ghost predicate TotalsRise(ks: seq<Kept>) {
    forall i, j :: 0 <= i < j < |ks| ==> ks[i].cum <= ks[j].cum
  }

  lemma {:induction false} KeptAllRises(s: seq<Sample>)
    ensures TotalsRise(KeptAll(s))
    ensures s != [] ==> KeptAll(s)[|s| - 1].cum == Total(s)
  {
    if |s| > 1 {
      KeptAllRises(s[..|s| - 1]);
      var ks := KeptAll(s);
      forall i, j | 0 <= i < j < |ks| ensures ks[i].cum <= ks[j].cum {
        assert j < |s| - 1 ==> KeptAll(s[..|s| - 1])[j] == ks[j];
        assert i < |s| - 1 ==> KeptAll(s[..|s| - 1])[i] == ks[i];
      }
    }
  }

  lemma {:induction false} LerpRises(a: real, b: real, f: real, g: real)
    requires a <= b && 0.0 <= f <= g <= 1.0
    ensures a <= a + f * (b - a) <= a + g * (b - a) <= b
  {
  }

  lemma {:induction false} FractionRises(lo: int, hi: int, e: int, e': int)
    requires lo <= e <= e' <= hi && lo < hi
    ensures 0.0 <= (e - lo) as real / (hi - lo) as real <= (e' - lo) as real / (hi - lo) as real <= 1.0
  {
    var d := (hi - lo) as real;
    DivideRises((e - lo) as real, (e' - lo) as real, d);
    DivideRises(0.0, (e - lo) as real, d);
    DivideRises((e' - lo) as real, d, d);
  }

  lemma {:induction false} DivideRises(a: real, b: real, d: real)
    requires a <= b && d > 0.0
    ensures a / d <= b / d
    ensures d / d == 1.0 && 0.0 / d == 0.0
  {
  }

  /** The total between two samples, as an edge has it there. */
  function TotalBetween(lo: Kept, hi: Kept, e: int): real
    requires lo.ts < hi.ts
  {
    lo.cum + (e - lo.ts) as real / (hi.ts - lo.ts) as real * (hi.cum - lo.cum)
  }

  lemma {:induction false} TotalBetweenRises(lo: Kept, hi: Kept, e: int, e': int)
    requires lo.ts <= e <= e' <= hi.ts && lo.ts < hi.ts && lo.cum <= hi.cum
    ensures lo.cum <= TotalBetween(lo, hi, e) <= TotalBetween(lo, hi, e') <= hi.cum
    ensures TotalBetween(lo, hi, lo.ts) == lo.cum && TotalBetween(lo, hi, hi.ts) == hi.cum
  {
    FractionRises(lo.ts, hi.ts, e, e');
    FractionRises(lo.ts, hi.ts, lo.ts, hi.ts);
    DivideRises(0.0, 0.0, (hi.ts - lo.ts) as real);
    LerpRises(lo.cum, hi.cum, (e - lo.ts) as real / (hi.ts - lo.ts) as real, (e' - lo.ts) as real / (hi.ts - lo.ts) as real);
  }

  /** A left edge lies between the last sample at or before it and the next. */
  lemma {:induction false} LeftEdgeTotal(windowed: bool, typical: u64, ks: seq<Kept>, e: u64)
    requires Ordered(ks) && LeftEdge(windowed, typical, ks, e).cum.Some?
    ensures var n := UpTo(ks, e);
            && n > 0
            && LeftEdge(windowed, typical, ks, e).cum.value ==
               (if ks[n - 1].ts == e then ks[n - 1].cum else if n < |ks| then TotalBetween(ks[n - 1], ks[n], e) else 0.0)
            && (ks[n - 1].ts < e ==> n < |ks|)
  {
  }

  lemma {:induction false} RightEdgeTotal(windowed: bool, typical: u64, ks: seq<Kept>, e: u64)
    requires Ordered(ks) && RightEdge(windowed, typical, ks, e).cum.Some?
    ensures var n := Before(ks, e);
            && n < |ks|
            && RightEdge(windowed, typical, ks, e).cum.value ==
               (if ks[n].ts == e then ks[n].cum else if n > 0 then TotalBetween(ks[n - 1], ks[n], e) else 0.0)
            && (ks[n].ts > e ==> n > 0)
  {
  }

  /** The total at a window's end is at least the total at its start. */
  lemma {:induction false} EdgesRise(windowed: bool, typical: u64, ks: seq<Kept>, from: u64, at: u64)
    requires Ordered(ks) && TotalsRise(ks) && from < at
    requires LeftEdge(windowed, typical, ks, from).cum.Some? && RightEdge(windowed, typical, ks, at).cum.Some?
    ensures LeftEdge(windowed, typical, ks, from).cum.value <= RightEdge(windowed, typical, ks, at).cum.value
  {
    hide LeftEdge, RightEdge, TotalBetween;
    LeftEdgeTotal(windowed, typical, ks, from);
    RightEdgeTotal(windowed, typical, ks, at);
    var n, m := UpTo(ks, from), Before(ks, at);
    var left, right := LeftEdge(windowed, typical, ks, from).cum.value, RightEdge(windowed, typical, ks, at).cum.value;
    if n < |ks| && ks[n - 1].ts < ks[n].ts {
      TotalBetweenRises(ks[n - 1], ks[n], from, if at <= ks[n].ts then at else ks[n].ts);
    }
    if m > 0 && ks[m - 1].ts < ks[m].ts {
      TotalBetweenRises(ks[m - 1], ks[m], if ks[m - 1].ts <= from then from else ks[m - 1].ts, at);
    }
    UpToIsWithin(ks, from, at);
    if n < m {
      assert left <= ks[n].cum;
      assert ks[n].cum <= ks[m - 1].cum <= right;
    }
  }

  lemma {:induction false} UpToIsWithin(ks: seq<Kept>, from: u64, at: u64)
    requires Ordered(ks) && from < at
    ensures UpTo(ks, from) <= Before(ks, at)
  {
  }

  // ----- Rates are never negative

  /** What makes a point: its window, its increase, its value. */
  lemma {:induction false} PointParts(su: Setup, typical: u64, ks: seq<Kept>, t: u64)
    requires ks != [] && PointAt(su, typical, ks, t).Some?
    ensures WindowEnd(su, typical, ks, t).Some?
    ensures var at := WindowEnd(su, typical, ks, t).value;
            && WindowStart(su, ks, at).Some?
            && (var from := WindowStart(su, ks, at).value;
                var left, right := LeftEdge(su.windowed, typical, ks, from), RightEdge(su.windowed, typical, ks, at);
                && from < at && left.cum.Some? && right.cum.Some?
                && PointAt(su, typical, ks, t).value.v == PerSecond(right.cum.value - left.cum.value, at - from))
  {
    hide LeftEdge, RightEdge, WindowEnd, WindowStart, PerSecond, Band;
  }

  lemma {:induction false} PerSecondSign(increase: real, ns: int)
    requires increase >= 0.0 && ns > 0
    ensures PerSecond(increase, ns) >= 0.0
  {
  }

  /** Every rate is at least zero, whatever resets the counter had. */
  lemma {:induction false} RateIsNotNegative(su: Setup, s: seq<Sample>, t: u64)
    requires InOrder(s) && |s| >= 2
    requires PointAt(su, Typical(s), KeptAll(s), t).Some?
    ensures PointAt(su, Typical(s), KeptAll(s), t).value.v >= 0.0
  {
    hide LeftEdge, RightEdge, WindowEnd, WindowStart, Typical, PointAt, PerSecond;
    var ks, typical := KeptAll(s), Typical(s);
    KeptAllOrdered(s);
    KeptAllRises(s);
    PointParts(su, typical, ks, t);
    var at := WindowEnd(su, typical, ks, t).value;
    var from := WindowStart(su, ks, at).value;
    EdgesRise(su.windowed, typical, ks, from, at);
    var left, right := LeftEdge(su.windowed, typical, ks, from), RightEdge(su.windowed, typical, ks, at);
    PerSecondSign(right.cum.value - left.cum.value, at - from);
  }

  // ----- Rates add up to the increase

  /** What a point says the counter rose by over one step. */
  function Rise(p: Point, step: u64): real {
    p.v * (step as real / NS)
  }

  /** The rises of the points from grid point `m` to before `n`. */
  function Summed(su: Setup, typical: u64, ks: seq<Kept>, m: nat, n: nat): real
    requires ks != [] && m <= n
    requires forall k :: m <= k < n ==> 0 <= su.grid.Time(k) <= U64_MAX && PointAt(su, typical, ks, su.grid.Time(k)).Some?
  {
    if m == n then 0.0
    else
      Summed(su, typical, ks, m, n - 1)
        + Rise(PointAt(su, typical, ks, su.grid.Time(n - 1)).value, su.grid.step)
  }

  /** The reset-adjusted total at `e`, within the samples: at the first sample of time
      `e`, or (`after`) at the last. */
  function TotalAt(typical: u64, ks: seq<Kept>, e: u64, after: bool): real {
    var edge := if after then LeftEdge(false, typical, ks, e) else RightEdge(false, typical, ks, e);
    if edge.cum.Some? then edge.cum.value else 0.0
  }

  /** How much the total rises among the samples at `e` itself. */
  function JumpAt(typical: u64, ks: seq<Kept>, e: u64): real {
    TotalAt(typical, ks, e, true) - TotalAt(typical, ks, e, false)
  }

  /** All samples at `e` have one total. */
  ghost predicate OneTotalAt(ks: seq<Kept>, e: int) {
    forall i, j :: 0 <= i < j < |ks| && ks[i].ts == ks[j].ts == e ==> ks[i].cum == ks[j].cum
  }

  lemma {:induction false} TotalsOfEdges(windowed: bool, typical: u64, ks: seq<Kept>, e: u64)
    requires Ordered(ks) && ks != [] && ks[0].ts <= e <= ks[|ks| - 1].ts
    ensures LeftEdge(windowed, typical, ks, e).cum == Some(TotalAt(typical, ks, e, true))
    ensures RightEdge(windowed, typical, ks, e).cum == Some(TotalAt(typical, ks, e, false))
  {
    var n, m := Before(ks, e), UpTo(ks, e);
    if ks[n].ts != e {
      SameTotal(windowed, false, typical, ks[n - 1], ks[n], e);
    }
    if ks[m - 1].ts != e {
      SameTotal(windowed, false, typical, ks[m - 1], ks[m], e);
    }
    hide Between;
  }

  /** With a sample at `e`, the total there is that of the first of them, and after it of
      the last. */
  lemma {:induction false} TotalsAtSample(typical: u64, ks: seq<Kept>, e: u64)
    requires Ordered(ks) && Before(ks, e) < |ks| && ks[Before(ks, e)].ts == e
    ensures Before(ks, e) < UpTo(ks, e) && ks[UpTo(ks, e) - 1].ts == e
    ensures TotalAt(typical, ks, e, false) == ks[Before(ks, e)].cum && TotalAt(typical, ks, e, true) == ks[UpTo(ks, e) - 1].cum
    ensures forall i :: 0 <= i < |ks| && ks[i].ts == e ==> Before(ks, e) <= i < UpTo(ks, e)
  {
    var n, m := Before(ks, e), UpTo(ks, e);
    assert n < m;
    assert ks[n].ts <= ks[m - 1].ts;
  }

  lemma {:induction false} NoSampleAt(typical: u64, ks: seq<Kept>, e: u64)
    requires Ordered(ks) && ks != [] && ks[0].ts <= e <= ks[|ks| - 1].ts && ks[Before(ks, e)].ts != e
    ensures JumpAt(typical, ks, e) == 0.0 && forall i :: 0 <= i < |ks| ==> ks[i].ts != e
  {
    hide Between;
    BeforeIs(ks, e + 1, Before(ks, e));
  }

  /** The total jumps at `e` exactly when samples at `e` have different totals. */
  lemma {:induction false} JumpIs(typical: u64, ks: seq<Kept>, e: u64)
    requires Ordered(ks) && TotalsRise(ks) && ks != [] && ks[0].ts <= e <= ks[|ks| - 1].ts
    ensures JumpAt(typical, ks, e) >= 0.0
    ensures JumpAt(typical, ks, e) == 0.0 <==> OneTotalAt(ks, e)
  {
    var n, m := Before(ks, e), UpTo(ks, e);
    if ks[n].ts == e {
      TotalsAtSample(typical, ks, e);
      hide Before, UpTo, TotalAt, Ordered;
      assert n < m - 1 ==> ks[n].cum <= ks[m - 1].cum;
      forall i, j | 0 <= i < j < |ks| && ks[i].ts == ks[j].ts == e ensures ks[n].cum <= ks[i].cum <= ks[j].cum <= ks[m - 1].cum {
        assert n <= i && j <= m - 1;
      }
    } else {
      NoSampleAt(typical, ks, e);
    }
  }

  /** Whether samples carry windows does not change the total between them. */
  lemma {:induction false} SameTotal(windowed: bool, windowed': bool, typical: u64, lo: Kept, hi: Kept, e: u64)
    requires lo.ts < e < hi.ts
    ensures Between(windowed, typical, lo, hi, e).cum == Between(windowed', typical, lo, hi, e).cum
    ensures Between(windowed, typical, lo, hi, e).cum.Some?
  {
  }

  lemma {:induction false} PerSecondTimes(increase: real, ns: int)
    requires ns > 0
    ensures PerSecond(increase, ns) * (ns as real / NS) == increase
  {
    RateTimesWidth(increase, ns as real / NS);
  }

  lemma {:induction false} RateTimesWidth(increase: real, w: real)
    requires w > 0.0
    ensures increase / w * w == increase
  {
  }

  /** One step's rate times the step is the increase over the step: from after the
      samples at its start to before those that follow the first at its end. */
  lemma {:induction false} StepIncrease(su: Setup, typical: u64, ks: seq<Kept>, t: u64)
    requires Ordered(ks) && ks != []
    requires !su.grid.range && su.grid.span == su.grid.step > 0
    requires t >= su.grid.step && ks[0].ts <= t - su.grid.step && t <= ks[|ks| - 1].ts
    ensures PointAt(su, typical, ks, t).Some?
    ensures Rise(PointAt(su, typical, ks, t).value, su.grid.step)
         == TotalAt(typical, ks, t, false) - TotalAt(typical, ks, t - su.grid.step, true)
  {
    hide LeftEdge, RightEdge, TotalAt, PerSecond, Band;
    var from := t - su.grid.step;
    TotalsOfEdges(su.windowed, typical, ks, from);
    TotalsOfEdges(su.windowed, typical, ks, t);
    assert WindowEnd(su, typical, ks, t) == Some(t) && WindowStart(su, ks, t) == Some(from);
    PerSecondTimes(TotalAt(typical, ks, t, false) - TotalAt(typical, ks, from, true), su.grid.step);
  }

  /** The jumps at the grid points from `m` to before `n`. */
  function Jumps(g: Grid, typical: u64, ks: seq<Kept>, m: nat, n: nat): real
    requires m <= n && forall k :: m <= k < n ==> 0 <= g.Time(k) <= U64_MAX
  {
    if m == n then 0.0 else Jumps(g, typical, ks, m, n - 1) + JumpAt(typical, ks, g.Time(n - 1))
  }

  /** With the span one step, the rates of consecutive grid points within the samples,
      each times the step, add up to the counter's increase from one step before the
      first of them to the last, less the jumps at the grid points between. */
  lemma {:induction false} RatesAddUp(su: Setup, typical: u64, ks: seq<Kept>, m: nat, n: nat)
    requires Ordered(ks) && ks != []
    requires !su.grid.range && su.grid.span == su.grid.step > 0
    requires m < n && su.grid.Time(m) - su.grid.step >= ks[0].ts && su.grid.Time(n - 1) <= ks[|ks| - 1].ts
    ensures forall k :: m <= k < n ==> 0 <= su.grid.Time(k) <= U64_MAX && PointAt(su, typical, ks, su.grid.Time(k)).Some?
    ensures Summed(su, typical, ks, m, n)
         == TotalAt(typical, ks, su.grid.Time(n - 1), false) - TotalAt(typical, ks, su.grid.Time(m) - su.grid.step, true)
            - Jumps(su.grid, typical, ks, m, n - 1)
    decreases n
  {
    hide PointAt, TotalAt, Rise;
    TimeIsMonotone(su.grid, m, n - 1);
    StepIncrease(su, typical, ks, su.grid.Time(n - 1));
    if m < n - 1 {
      TimeIsMonotone(su.grid, n - 2, n - 1);
      RatesAddUp(su, typical, ks, m, n - 1);
    }
  }

  lemma {:induction false} JumpsAre(g: Grid, typical: u64, ks: seq<Kept>, m: nat, n: nat)
    requires Ordered(ks) && TotalsRise(ks) && ks != [] && m <= n
    requires forall k :: m <= k < n ==> 0 <= g.Time(k) <= U64_MAX && ks[0].ts <= g.Time(k) <= ks[|ks| - 1].ts
    ensures Jumps(g, typical, ks, m, n) >= 0.0
    ensures Jumps(g, typical, ks, m, n) == 0.0 <==> forall k :: m <= k < n ==> OneTotalAt(ks, g.Time(k))
  {
    hide JumpAt, OneTotalAt;
    if m < n {
      JumpsAre(g, typical, ks, m, n - 1);
      JumpIs(typical, ks, g.Time(n - 1));
      assert Jumps(g, typical, ks, m, n) == Jumps(g, typical, ks, m, n - 1) + JumpAt(typical, ks, g.Time(n - 1));
      if OneTotalAt(ks, g.Time(n - 1)) && forall k :: m <= k < n - 1 ==> OneTotalAt(ks, g.Time(k)) {
        assert forall k :: m <= k < n ==> k == n - 1 || OneTotalAt(ks, g.Time(k));
      }
    }
  }

  /** Conservation: the rates add up to the whole increase exactly when at each grid point
      between all samples have one total; else to less. */
  lemma {:induction false} RatesConserve(su: Setup, typical: u64, ks: seq<Kept>, m: nat, n: nat)
    requires Ordered(ks) && TotalsRise(ks) && ks != []
    requires !su.grid.range && su.grid.span == su.grid.step > 0
    requires m < n && su.grid.Time(m) - su.grid.step >= ks[0].ts && su.grid.Time(n - 1) <= ks[|ks| - 1].ts
    ensures forall k :: m <= k < n ==> 0 <= su.grid.Time(k) <= U64_MAX && PointAt(su, typical, ks, su.grid.Time(k)).Some?
    ensures var increase := TotalAt(typical, ks, su.grid.Time(n - 1), false)
                              - TotalAt(typical, ks, su.grid.Time(m) - su.grid.step, true);
            && Summed(su, typical, ks, m, n) <= increase
            && (Summed(su, typical, ks, m, n) == increase
                <==> forall k :: m <= k < n - 1 ==> OneTotalAt(ks, su.grid.Time(k)))
  {
    hide PointAt, TotalAt, Rise, OneTotalAt, Summed, Jumps;
    RatesAddUp(su, typical, ks, m, n);
    forall k | m <= k < n - 1 ensures ks[0].ts <= su.grid.Time(k) <= ks[|ks| - 1].ts {
      TimeIsMonotone(su.grid, m, k);
      TimeIsMonotone(su.grid, k, n - 1);
    }
    JumpsAre(su.grid, typical, ks, m, n - 1);
  }

  // ----- A band holds every rate its reads allow

  lemma {:induction false} DivideFalls(a: real, b: real, c: real)
    requires a >= 0.0 && 0.0 < b <= c
    ensures a / c <= a / b
  {
  }

  /** Whatever instants the two reads were at within their windows, the rate over
      the time between them is within the band; so is the nominal value. */
  lemma {:induction false} BandHoldsEveryRate(windowed: bool, left: Edge, right: Edge, at: u64, from: u64, t: u64, l: real, r: real)
    requires var p := PointOf(windowed, left, right, at, from, t);
             p.Some? && p.value.bounds.Some?
    requires left.cum.value <= right.cum.value
    requires left.window.value.0 <= l <= left.window.value.1
    requires right.window.value.0 <= r <= right.window.value.1
    ensures var p := PointOf(windowed, left, right, at, from, t).value;
            && p.edges == Some(RateEdges(left.window.value, right.window.value))
            && r > l
            && p.bounds.value.0 <= (right.cum.value - left.cum.value) / ((r - l) / NS) <= p.bounds.value.1
            && p.bounds.value.0 <= p.v <= p.bounds.value.1
  {
    var increase := right.cum.value - left.cum.value;
    var longest := (right.window.value.1 - left.window.value.0) / NS;
    var shortest := (right.window.value.0 - left.window.value.1) / NS;
    assert shortest > 0.0 && longest > 0.0;
    Scaled(right.window.value.0 - left.window.value.1, r - l, right.window.value.1 - left.window.value.0);
    DivideFalls(increase, (r - l) / NS, longest);
    DivideFalls(increase, shortest, (r - l) / NS);
  }

  lemma {:induction false} Scaled(a: real, b: real, c: real)
    requires a <= b <= c && a / NS > 0.0
    ensures 0.0 < a / NS <= b / NS <= c / NS && b > 0.0
  {
  }

  /** What a point's window, increase and edges are. */
  lemma {:induction false} PointIs(su: Setup, typical: u64, ks: seq<Kept>, t: u64)
    requires ks != [] && PointAt(su, typical, ks, t).Some?
    ensures WindowEnd(su, typical, ks, t).Some?
    ensures WindowStart(su, ks, WindowEnd(su, typical, ks, t).value).Some?
    ensures var at := WindowEnd(su, typical, ks, t).value;
            var from := WindowStart(su, ks, at).value;
            PointAt(su, typical, ks, t) ==
            PointOf(su.windowed, LeftEdge(su.windowed, typical, ks, from), RightEdge(su.windowed, typical, ks, at), at, from, t)
  {
    hide LeftEdge, RightEdge, WindowEnd, WindowStart, PointOf;
  }

  /** A point's band, when it has one: whatever instants `l` and `r` within its edges'
      windows the two reads were at, `r` is after `l`, and the increase of the point's
      window over the time between them is within the band. */
  lemma {:induction false} PointBandHolds(su: Setup, s: seq<Sample>, t: u64, l: real, r: real)
    requires InOrder(s) && |s| >= 2
    requires var p := PointAt(su, Typical(s), KeptAll(s), t); p.Some? && p.value.bounds.Some?
    requires var p := PointAt(su, Typical(s), KeptAll(s), t).value;
             p.edges.Some? ==>
               && p.edges.value.left.0 <= l <= p.edges.value.left.1
               && p.edges.value.right.0 <= r <= p.edges.value.right.1
    ensures PointAt(su, Typical(s), KeptAll(s), t).value.edges.Some? && l < r
    ensures var ks, p := KeptAll(s), PointAt(su, Typical(s), KeptAll(s), t).value;
            var at := WindowEnd(su, Typical(s), ks, t);
            && at.Some? && WindowStart(su, ks, at.value).Some?
            && var left := LeftEdge(su.windowed, Typical(s), ks, WindowStart(su, ks, at.value).value);
               var right := RightEdge(su.windowed, Typical(s), ks, at.value);
               && left.cum.Some? && right.cum.Some?
               && p.bounds.value.0 <= (right.cum.value - left.cum.value) / ((r - l) / NS) <= p.bounds.value.1
               && p.bounds.value.0 <= p.v <= p.bounds.value.1
  {
    hide LeftEdge, RightEdge, WindowEnd, WindowStart, Typical, PointAt, PerSecond, Band;
    var ks, typical := KeptAll(s), Typical(s);
    KeptAllOrdered(s);
    KeptAllRises(s);
    PointIs(su, typical, ks, t);
    var at := WindowEnd(su, typical, ks, t).value;
    var from := WindowStart(su, ks, at).value;
    EdgesRise(su.windowed, typical, ks, from, at);
    BandHoldsEveryRate(su.windowed, LeftEdge(su.windowed, typical, ks, from), RightEdge(su.windowed, typical, ks, at), at,
                       from, t, l, r);
  }
}
