/** What a counter's grid rate is, as a function of its whole sample list: the
    reference the streaming `SeriesRate` is proved against. Values are reals
    where the source uses f64. */
module RateSpec {
  import opened Prelude
  import opened Arithmetic
  import opened Sorting

  /** A series' typical spacing is that of its first samples, this many. */
  const SPACING_PROBE: nat := 9

  type Window = (u64, u64)

  datatype Sample = Sample(ts: u64, value: u64, window: Option<Window>)

  /** A sample as kept: its time, the reset-adjusted total at it, its window. */
  datatype Kept = Kept(ts: u64, cum: real, window: Option<Window>)

  /** The total at one end of a window, and when the read of it took place, if any was. */
  datatype Edge = Edge(cum: Option<real>, window: Option<(real, real)>)

  const NO_EDGE := Edge(None, None)

  datatype RateEdges = RateEdges(left: (real, real), right: (real, real))

  datatype Point = Point(t: u64, v: real, bounds: Option<(real, real)>, edges: Option<RateEdges>,
                         interpolated: bool, timing: bool)

  /** A point with its grid index, as a sink receives it. */
  datatype Emission = Emission(index: nat, point: Point)

  datatype Grid = Grid(start: u64, end: u64, step: u64, span: u64, range: bool)
  {
    /** The span is at least 1 (`Grid::from_request`). */
    ghost predicate Valid() {
      span >= 1
    }

    /** The time of grid point `n`. */
    function Time(n: nat): (t: int)
      ensures t >= start
    {
      if n == 0 then start else Time(n - 1) + step
    }

    /** The first grid point, from `n` on, past the grid's end. */
    function FirstPast(n: nat): (m: nat)
      requires step > 0
      ensures m >= n
      decreases end - Time(n)
    {
      if Time(n) > end then n else FirstPast(n + 1)
    }

    /** The number of grid points at or before the grid's end. */
    function Count(): nat {
      if step == 0 then 0 else FirstPast(0)
    }

    /** `Grid::len`. */
    function Len(): nat {
      if end < start || step == 0 then 0 else (end - start) / step + 1
    }

    /** `Grid::index`: the index of the grid point at `t`. */
    function Index(t: u64): nat
      requires start <= t && step > 0
    {
      (t - start) / step
    }
  }

  /** What a series is evaluated with: the grid, whether its samples carry
      acquisition windows, and how far before it a window may look for its start. */
  datatype Setup = Setup(grid: Grid, windowed: bool, reach: u64)

  lemma {:induction false} TimeIsMonotone(g: Grid, m: nat, n: nat)
    requires m <= n
    ensures g.Time(m) <= g.Time(n)
    ensures m < n && g.step > 0 ==> g.Time(m) < g.Time(n)
  {
    if m < n {
      TimeIsMonotone(g, m, n - 1);
    }
  }

  lemma {:induction false} FirstPastIsPast(g: Grid, n: nat, k: nat)
    requires g.step > 0 && n <= k
    requires n > 0 ==> g.Time(n - 1) <= g.end
    ensures k < g.FirstPast(n) <==> g.Time(k) <= g.end
    decreases g.end - g.Time(n)
  {
    if g.Time(n) > g.end {
      TimeIsMonotone(g, n, k);
    } else if n < k {
      FirstPastIsPast(g, n + 1, k);
    } else {
      assert g.FirstPast(n + 1) >= n + 1;
    }
  }

  /** The count is of exactly the points at or before the grid's end. */
  lemma {:induction false} Counted(g: Grid, n: nat)
    requires g.step > 0
    ensures n < g.Count() <==> g.Time(n) <= g.end
  {
    FirstPastIsPast(g, 0, n);
  }

  lemma {:induction false} TimeIsLinear(g: Grid, n: nat)
    ensures g.Time(n) == g.start + n * g.step
  {
    if n > 0 {
      TimeIsLinear(g, n - 1);
      MulSum(n - 1, 1, g.step);
    }
  }

  /** The source's closed form of the grid's length is the count. */
  lemma {:induction false} LenIsCount(g: Grid)
    ensures g.Len() == g.Count()
  {
    if g.step > 0 {
      var n := g.Count();
      Counted(g, n);
      TimeIsLinear(g, n);
      if n > 0 {
        Counted(g, n - 1);
        TimeIsLinear(g, n - 1);
        MulGrows(n - 1, g.step);
        DivIs(g.end - g.start, g.step, n - 1);
      }
    }
  }

  /** `Grid::index` undoes the time of a grid point. */
  lemma {:induction false} IndexOfTime(g: Grid, n: nat)
    requires g.step > 0 && g.Time(n) <= U64_MAX
    ensures g.Index(g.Time(n)) == n
  {
    TimeIsLinear(g, n);
    MulSum(n, 1, g.step);
    DivIs(n * g.step, g.step, n);
  }

  // ----- The samples

  ghost predicate InOrder(s: seq<Sample>) {
    forall i, j :: 0 <= i < j < |s| ==> s[i].ts <= s[j].ts
  }

  ghost predicate Ordered(ks: seq<Kept>) {
    forall i, j :: 0 <= i < j < |ks| ==> ks[i].ts <= ks[j].ts
  }

  /** The increase from one reading to the next: a decrease is a reset, and the
      later reading is then the increase. */
  function Increase(prev: u64, value: u64): nat {
    if value >= prev then value - prev else value
  }

  /** The reset-adjusted total at the last of `s`, from 0 at the first. */
  function Total(s: seq<Sample>): real {
    if |s| <= 1 then 0.0
    else Total(s[..|s| - 1]) + Increase(s[|s| - 2].value, s[|s| - 1].value) as real
  }

  /** Every sample with the total at it. */
  function KeptAll(s: seq<Sample>): (ks: seq<Kept>)
    ensures |ks| == |s|
  {
    if s == [] then []
    else
      var last := s[|s| - 1];
      KeptAll(s[..|s| - 1]) + [Kept(last.ts, Total(s), last.window)]
  }

  lemma {:induction false} KeptAllAppend(s: seq<Sample>, x: Sample)
    ensures KeptAll(s + [x]) == KeptAll(s) + [Kept(x.ts, Total(s + [x]), x.window)]
    ensures Total(s + [x]) ==
            Total(s) + (if s == [] then 0.0 else Increase(s[|s| - 1].value, x.value) as real)
  {
    assert (s + [x])[..|s|] == s;
  }

  /** `x` is not before the samples of `s`. */
  predicate Follows(s: seq<Sample>, x: Sample) {
    s != [] ==> s[|s| - 1].ts <= x.ts
  }

  lemma {:induction false} SamplesAppend(s: seq<Sample>, x: Sample)
    requires InOrder(s) && Follows(s, x)
    ensures InOrder(s + [x])
  {
    forall i, j | 0 <= i < j < |s| + 1 ensures (s + [x])[i].ts <= (s + [x])[j].ts {
      if j == |s| {
        assert s[i].ts <= s[|s| - 1].ts;
      }
    }
  }

  lemma {:induction false} KeptAllAt(s: seq<Sample>, i: nat)
    requires i < |s|
    ensures KeptAll(s)[i] == Kept(s[i].ts, Total(s[..i + 1]), s[i].window)
  {
    if i == |s| - 1 {
      assert s[..i + 1] == s;
    } else {
      KeptAllAt(s[..|s| - 1], i);
      assert s[..|s| - 1][..i + 1] == s[..i + 1];
    }
  }

  lemma {:induction false} KeptAllOrdered(s: seq<Sample>)
    requires InOrder(s)
    ensures Ordered(KeptAll(s))
    ensures s != [] ==> KeptAll(s)[0].ts == s[0].ts && KeptAll(s)[|s| - 1].ts == s[|s| - 1].ts
  {
    forall i | 0 <= i < |s| ensures KeptAll(s)[i].ts == s[i].ts {
      KeptAllAt(s, i);
    }
  }

  /** The gaps between consecutive samples of a probe. */
  function Gaps(s: seq<Sample>): seq<int> {
    seq(if |s| < 2 then 0 else |s| - 1, i requires 0 <= i < |s| - 1 => s[i + 1].ts - s[i].ts)
  }

  /** The element a sorted list has at half its length. */
  function MedianOr(gaps: seq<int>, default: int): (m: int)
    ensures gaps == [] ==> m == default
    ensures gaps != [] ==> m in gaps
  {
    var sorted := Sort(gaps, (a: int, b: int) => a <= b);
    if gaps == [] then default
    else
      assert sorted[|sorted| / 2] in multiset(sorted);
      sorted[|sorted| / 2]
  }

  /** The typical spacing: the median gap of the first nine samples, at least 1. */
  function Typical(s: seq<Sample>): (m: u64)
    requires InOrder(s)
  {
    var probe := if |s| <= SPACING_PROBE then s else s[..SPACING_PROBE];
    var m := MedianOr(Gaps(probe), 1);
    assert Gaps(probe) != [] ==> m in Gaps(probe);
    Max(m, 1)
  }

  // ----- The edges of a window

  /** The first sample from `n` on that is at or after `e`, or their number. */
  function FirstFrom(ks: seq<Kept>, e: int, n: nat): (m: nat)
    requires n <= |ks|
    ensures n <= m <= |ks|
    decreases |ks| - n
  {
    if n < |ks| && ks[n].ts < e then FirstFrom(ks, e, n + 1) else n
  }

  /** The number of samples before `e`: `partition_point(|k| k.ts < e)`. */
  function Before(ks: seq<Kept>, e: int): (n: nat)
    ensures n <= |ks|
    ensures n > 0 ==> ks[n - 1].ts < e
    ensures n < |ks| ==> ks[n].ts >= e
  {
    FirstFromIs(ks, e, 0);
    FirstFrom(ks, e, 0)
  }

  /** The number of samples at or before `e`: `partition_point(|k| k.ts <= e)`. */
  function UpTo(ks: seq<Kept>, e: int): (n: nat)
    ensures n <= |ks|
    ensures n > 0 ==> ks[n - 1].ts <= e
    ensures n < |ks| ==> ks[n].ts > e
  {
    Before(ks, e + 1)
  }

  /** The edge at a sample's own time. */
  function AtSample(windowed: bool, k: Kept): Edge {
    Edge(Some(k.cum),
         if windowed && k.window.Some? then Some((k.window.value.0 as real, k.window.value.1 as real))
         else None)
  }

  /** The edge at `e`, strictly between samples `lo` and `hi`. Across a hole (a
      gap of more than twice the typical spacing) no read describes it. */
  function Between(windowed: bool, typical: u64, lo: Kept, hi: Kept, e: u64): Edge
    requires lo.ts < e < hi.ts
  {
    var frac := (e - lo.ts) as real / (hi.ts - lo.ts) as real;
    var hole := hi.ts - lo.ts > SatMul(typical, 2);
    Edge(Some(lo.cum + frac * (hi.cum - lo.cum)),
         if windowed && !hole && lo.window.Some? && hi.window.Some? then
           var (b0, e0) := lo.window.value;
           var (b1, e1) := hi.window.value;
           Some((b0 as real + frac * (b1 as real - b0 as real),
                 e0 as real + frac * (e1 as real - e0 as real)))
         else None)
  }

  /** A window's right edge: at the first sample at or after `e`, when it is at
      `e`; else between it and the one before. Nothing outside the samples. */
  function RightEdge(windowed: bool, typical: u64, ks: seq<Kept>, e: u64): Edge
  {
    var hi := Before(ks, e);
    if hi == |ks| then NO_EDGE
    else if ks[hi].ts == e then AtSample(windowed, ks[hi])
    else if hi == 0 then NO_EDGE
    else Between(windowed, typical, ks[hi - 1], ks[hi], e)
  }

  /** A window's left edge: at the last sample at or before `e`, when it is at
      `e`; else between it and the one after. It differs from `RightEdge` only
      where several samples share the time `e`. */
  function LeftEdge(windowed: bool, typical: u64, ks: seq<Kept>, e: u64): Edge
  {
    var n := UpTo(ks, e);
    if n == 0 then NO_EDGE
    else if ks[n - 1].ts == e then AtSample(windowed, ks[n - 1])
    else if n == |ks| then NO_EDGE
    else Between(windowed, typical, ks[n - 1], ks[n], e)
  }

  /** `range_start`: where a `rate`'s window `[from, at]` starts. */
  function RangeStart(ks: seq<Kept>, from: u64, at: u64, reach: u64): Option<u64>
  {
    var i := UpTo(ks, from);
    if i > 0 && from - ks[i - 1].ts <= reach then Some(from)
    else if i < |ks| && ks[i].ts < at then Some(ks[i].ts)
    else None
  }

  /** Where the window ending at `at` starts: a span before it, and for a
      `rate` as `RangeStart` says. */
  function WindowStart(su: Setup, ks: seq<Kept>, at: u64): Option<u64>
  {
    var from := SatSub(at, su.grid.span);
    if su.grid.range then RangeStart(ks, from, at, su.reach) else Some(from)
  }

  /** The band of `increase` over every time the two reads can be apart. */
  function Band(increase: real, left: (real, real), right: (real, real)): Option<(real, real)> {
    var longest := (right.1 - left.0) / 1000000000.0;
    var shortest := (right.0 - left.1) / 1000000000.0;
    if shortest > 0.0 && longest > 0.0 then Some((increase / longest, increase / shortest)) else None
  }

  /** `increase` per second over `ns` nanoseconds. */
  function PerSecond(increase: real, ns: int): real
    requires ns > 0
  {
    increase / (ns as real / 1000000000.0)
  }

  /** The point at grid time `t` for the window `[from, at]` with these edges. */
  function PointOf(windowed: bool, left: Edge, right: Edge, at: u64, from: u64, t: u64): Option<Point> {
    if right.cum.None? || left.cum.None? || at <= from then None
    else
      var increase := right.cum.value - left.cum.value;
      var v := PerSecond(increase, at - from);
      var pair := left.window.Some? && right.window.Some?;
      var band := if pair then Band(increase, left.window.value, right.window.value) else None;
      Some(Point(t, v,
                 if band.Some? then Some((MinReal(band.value.0, v), MaxReal(band.value.1, v))) else None,
                 if band.Some? then Some(RateEdges(left.window.value, right.window.value)) else None,
                 windowed && !pair, false))
  }

  /** Where the window of the point at `t` ends: at `t`; or, past the last sample, at
      that sample if the range ends no more than the typical spacing after it. A fixed span must not reach before time zero. */
  function WindowEnd(su: Setup, typical: u64, ks: seq<Kept>, t: u64): Option<u64>
    requires |ks| > 0
  {
    var last := ks[|ks| - 1].ts;
    if t < su.grid.span && !su.grid.range then None
    else if t <= last then Some(t)
    else if |ks| >= 2 && SatSub(su.grid.end, last) <= typical then Some(last)
    else None
  }

  /** The point at grid time `t`, if there is one. */
  function PointAt(su: Setup, typical: u64, ks: seq<Kept>, t: u64): Option<Point>
    requires |ks| > 0
  {
    match WindowEnd(su, typical, ks, t)
    case None => None
    case Some(at) =>
      match WindowStart(su, ks, at)
      case None => None
      case Some(from) =>
        PointOf(su.windowed, LeftEdge(su.windowed, typical, ks, from),
                RightEdge(su.windowed, typical, ks, at), at, from, t)
  }

  function EmissionOf(n: nat, p: Option<Point>): seq<Emission> {
    if p.Some? then [Emission(n, p.value)] else []
  }

  /** The points of the first `n` grid points. */
  function Points(su: Setup, typical: u64, ks: seq<Kept>, n: nat): seq<Emission>
    requires su.grid.step > 0 && n <= su.grid.Count() && (n > 0 ==> ks != [])
  {
    if n == 0 then []
    else
      Counted(su.grid, n - 1);
      Points(su, typical, ks, n - 1)
        + EmissionOf(n - 1, PointAt(su, typical, ks, su.grid.Time(n - 1)))
  }

  /** A series' grid rate: every grid point's point, in order, from the whole
      sample list. A series of fewer than two samples has none. */
  function Rate(su: Setup, s: seq<Sample>): seq<Emission>
    requires InOrder(s)
  {
    if |s| < 2 || su.grid.step == 0 then []
    else Points(su, Typical(s), KeptAll(s), su.grid.Count())
  }

  // ----- A later sample changes no point at or before the last one

  lemma {:induction false} FirstFromIs(ks: seq<Kept>, e: int, n: nat)
    requires n <= |ks|
    ensures FirstFrom(ks, e, n) > n ==> ks[FirstFrom(ks, e, n) - 1].ts < e
    ensures FirstFrom(ks, e, n) < |ks| ==> ks[FirstFrom(ks, e, n)].ts >= e
    decreases |ks| - n
  {
    if n < |ks| && ks[n].ts < e {
      FirstFromIs(ks, e, n + 1);
    }
  }

  lemma {:induction false} BeforeIs(ks: seq<Kept>, e: int, n: nat)
    requires Ordered(ks) && n <= |ks|
    requires n > 0 ==> ks[n - 1].ts < e
    requires n < |ks| ==> ks[n].ts >= e
    ensures Before(ks, e) == n
  {
  }

  lemma {:induction false} OrderedPrefix(ks: seq<Kept>, k: Kept)
    requires Ordered(ks + [k])
    ensures Ordered(ks)
    ensures ks != [] ==> ks[|ks| - 1].ts <= k.ts
  {
    var all := ks + [k];
    assert forall i :: 0 <= i < |ks| ==> all[i] == ks[i];
    assert all[|ks|] == k;
  }

  lemma {:induction false} UpToAppend(ks: seq<Kept>, k: Kept, e: int)
    requires Ordered(ks + [k]) && k.ts > e
    ensures Ordered(ks)
    ensures UpTo(ks + [k], e) == UpTo(ks, e)
  {
    OrderedPrefix(ks, k);
    BeforeIs(ks + [k], e + 1, UpTo(ks, e));
  }

  lemma {:induction false} RightEdgeAppend(windowed: bool, typical: u64, ks: seq<Kept>, k: Kept, e: u64)
    requires Ordered(ks) && Ordered(ks + [k]) && ks != [] && e <= ks[|ks| - 1].ts
    ensures RightEdge(windowed, typical, ks + [k], e) == RightEdge(windowed, typical, ks, e)
  {
    BeforeIs(ks + [k], e, Before(ks, e));
  }

  lemma {:induction false} LeftEdgeAppend(windowed: bool, typical: u64, ks: seq<Kept>, k: Kept, e: u64)
    requires Ordered(ks) && Ordered(ks + [k]) && ks != [] && e <= ks[|ks| - 1].ts && e < k.ts
    ensures LeftEdge(windowed, typical, ks + [k], e) == LeftEdge(windowed, typical, ks, e)
  {
    UpToAppend(ks, k, e);
    var n := UpTo(ks, e);
    assert n == |ks| ==> ks[n - 1].ts == e;
  }

  lemma {:induction false} WindowStartAppend(su: Setup, ks: seq<Kept>, k: Kept, at: u64)
    requires su.grid.Valid()
    requires Ordered(ks) && Ordered(ks + [k]) && ks != [] && 0 < at <= ks[|ks| - 1].ts
    ensures WindowStart(su, ks + [k], at) == WindowStart(su, ks, at)
    ensures WindowStart(su, ks, at).Some? ==> WindowStart(su, ks, at).value < at
  {
    OrderedPrefix(ks, k);
    UpToAppend(ks, k, SatSub(at, su.grid.span));
  }

  /** A point at or before the last sample is final: no later sample changes it. */
  lemma {:induction false} PointAppend(su: Setup, typical: u64, ks: seq<Kept>, k: Kept, t: u64)
    requires su.grid.Valid()
    requires Ordered(ks) && Ordered(ks + [k]) && ks != [] && t <= ks[|ks| - 1].ts
    ensures PointAt(su, typical, ks + [k], t) == PointAt(su, typical, ks, t)
  {
    var all := ks + [k];
    OrderedPrefix(ks, k);
    assert all[|all| - 1] == k;
    assert WindowEnd(su, typical, all, t) == WindowEnd(su, typical, ks, t);
    if t == 0 {
      NoPointAtZero(su, typical, ks);
      NoPointAtZero(su, typical, all);
    } else {
      WindowStartAppend(su, ks, k, t);
      RightEdgeAppend(su.windowed, typical, ks, k, t);
      if WindowStart(su, ks, t).Some? {
        LeftEdgeAppend(su.windowed, typical, ks, k, WindowStart(su, ks, t).value);
      }
    }
  }

  lemma {:induction false} NoPointAtZero(su: Setup, typical: u64, ks: seq<Kept>)
    requires Ordered(ks) && ks != []
    ensures PointAt(su, typical, ks, 0) == None
  {
    var end := WindowEnd(su, typical, ks, 0);
    assert end.Some? ==> end.value == 0;
  }

  lemma {:induction false} PointsAppend(su: Setup, typical: u64, ks: seq<Kept>, k: Kept, n: nat)
    requires su.grid.Valid() && su.grid.step > 0 && n <= su.grid.Count()
    requires Ordered(ks + [k])
    requires n > 0 ==> ks != [] && su.grid.Time(n - 1) <= ks[|ks| - 1].ts
    ensures Ordered(ks)
    ensures Points(su, typical, ks + [k], n) == Points(su, typical, ks, n)
  {
    hide PointAt;
    OrderedPrefix(ks, k);
    if n > 0 {
      Counted(su.grid, n - 1);
      PointAppend(su, typical, ks, k, su.grid.Time(n - 1));
      if n > 1 {
        TimeIsMonotone(su.grid, n - 2, n - 1);
      }
      PointsAppend(su, typical, ks, k, n - 1);
    }
  }

  // ----- Where a rate's points are

  /** Emissions at strictly increasing indices. */
  ghost predicate Rising(es: seq<Emission>) {
    forall i, j :: 0 <= i < j < |es| ==> es[i].index < es[j].index
  }

  /** A point's window starts at or after the first sample. */
  lemma {:induction false} PointAfterFirst(su: Setup, typical: u64, ks: seq<Kept>, t: u64)
    requires Ordered(ks) && ks != []
    requires PointAt(su, typical, ks, t).Some?
    ensures ks[0].ts < t && PointAt(su, typical, ks, t).value.t == t
  {
    hide PerSecond, Band, Between, AtSample;
    var at := WindowEnd(su, typical, ks, t).value;
    var from := WindowStart(su, ks, at).value;
    assert UpTo(ks, from) > 0;
  }

  /** Points come in index order, each at its grid time, after the first sample. */
  lemma {:induction false} PointsRise(su: Setup, typical: u64, ks: seq<Kept>, n: nat)
    requires Ordered(ks) && su.grid.step > 0 && n <= su.grid.Count() && (n > 0 ==> ks != [])
    ensures Rising(Points(su, typical, ks, n))
    ensures forall i :: 0 <= i < |Points(su, typical, ks, n)| ==>
              var e := Points(su, typical, ks, n)[i];
              e.index < n && ks[0].ts < su.grid.Time(e.index) == e.point.t
  {
    hide PointAt;
    if n > 0 {
      PointsRise(su, typical, ks, n - 1);
      Counted(su.grid, n - 1);
      var t := su.grid.Time(n - 1);
      if PointAt(su, typical, ks, t).Some? {
        PointAfterFirst(su, typical, ks, t);
      }
    }
  }
}
