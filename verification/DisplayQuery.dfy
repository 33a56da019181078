/** A grouped display query: the grid the program makes of its range, and when what it
    shows keeps the order and the budget. */
module DisplayQuery {
  import opened Prelude
  import opened Arithmetic
  import opened Sorting
  import opened RateSpec
  import opened Aggregate
  import opened Display
  import opened Grouping
  import opened GroupDisplay

  /** `as u64`: cut off to a whole number, at the type's ends when beyond them. */
  function ToU64(x: real): u64 {
    if x < 0.0 then 0 else Prelude.Min(x.Floor, U64_MAX)
  }

  /** `(seconds * 1e9).round() as u64`. */
  function Nanos(seconds: real): u64 {
    ToU64(seconds * 1000000000.0 + 0.5)
  }

  /** How far past a range's end its grid goes, in nanoseconds (`RANGE_SLACK_NS`). */
  const SLACK: u64 := 1000

  /** The last multiple of `step` up to `t`. */
  function SnapDown(t: u64, step: u64): (s: u64)
    requires step > 0
    ensures s <= t < s + step
  {
    DivBounds(t, step);
    MulSum(t / step, 1, step);
    t / step * step
  }

  /** The range asked for, its step and its budget of points, as the caller gives them. */
  datatype Query = Query(start: real, end: real, step: real, budget: nat)
  {
    function StepNs(): u64 {
      ToU64(step * 1000000000.0)
    }

    function Start(): u64 {
      if StepNs() > 0 && start < end then SnapDown(Nanos(start), StepNs()) else Nanos(start)
    }

    function End(): u64 {
      SatAdd(Nanos(end), SLACK)
    }

    /** The grid starts before the range. */
    predicate Moved() {
      Start() != Nanos(start)
    }

    function Width(): Option<real> {
      BucketWidth(start, end, step, budget)
    }

    /** The grid is this query's, whatever span its windows have. */
    predicate Makes(g: Grid) {
      g.start == Start() && g.end == End() && g.step == StepNs() > 0
    }

    /** The output is in buckets. */
    predicate Bucketed() {
      budget > 0 && start < end
    }

    predicate FitsBudget() {
      Fits(start, end, step, budget)
    }

    /** The step is a whole number of nanoseconds. */
    predicate Whole() {
      step == Seconds(StepNs())
    }

    predicate WidthOfSteps()
      requires Bucketed() && StepNs() > 0
    {
      step > 0.0 && (Width().value / step).Floor as real * step == Width().value
    }

    /** How many points the documentation allows a series. */
    function Documented(): nat
      requires Bucketed() && StepNs() > 0
    {
      if Moved() && !WidthOfSteps() then budget + 2 else budget + 1
    }

    /** How many buckets the grid's points are in. */
    function Most(g: Grid): nat
      requires Bucketed()
    {
      Occupied(g, Width().value, g.Count())
    }
  }

  /** What a query shows of a group. */
  function Output(q: Query, op: AggOp, ops: Point -> Option<Point>, g: Grid, em: seq<seq<Emission>>, sel: seq<bool>,
                  band: (real, real)): seq<EnvPoint>
    requires |sel| == |em|
  {
    Reduced(q.Width(), band, GroupReadings(op, ops, g, em, sel, g.Count()))
  }

  /** A time in nanoseconds is the nearest whole number, of those a u64 has. */
  lemma {:induction false} NanosIs(seconds: real)
    ensures var ns, x := Nanos(seconds), seconds * 1000000000.0;
            && (0.0 <= x <= U64_MAX as real ==> ns as real - 0.5 <= x <= ns as real + 0.5)
            && (x < 0.0 ==> ns == 0) && (x > U64_MAX as real ==> ns == U64_MAX)
  {
  }

  // ----- The order of the output

  lemma {:induction false} FarEnough(t: real, w: real)
    requires w >= 0.00002 && 0.0 <= t <= Seconds(U64_MAX)
    ensures AbsReal(t / w) < STEADY
  {
    QuotientRises(0.0, t, w);
    assert (t / w) * w == t;
    ProductRises(0.00002, w, t / w);
  }

  /** Whatever its members gave, a group's output is in strictly increasing time. */
  lemma {:induction false} GroupInTime(q: Query, op: AggOp, ops: Point -> Option<Point>, g: Grid, em: seq<seq<Emission>>,
                                       sel: seq<bool>, band: (real, real), i: nat, j: nat)
    requires |sel| == |em| && TimesKept(ops) && q.Makes(g) && (q.Whole() || q.step >= 0.00002)
    requires i < j < |Output(q, op, ops, g, em, sel, band)|
    ensures Output(q, op, ops, g, em, sel, band)[i].t < Output(q, op, ops, g, em, sel, band)[j].t
  {
    hide BucketWidth, GroupReadings, Spaced, InStrictTime, Runs, ToU64;
    var rs := GroupReadings(op, ops, g, em, sel, g.Count());
    ReadingsOnGrid(op, ops, g, em, sel, g.Count());
    OnGridWithin(g, rs);
    if q.Whole() {
      GridInTime(q.start, q.end, q.step, q.budget, band, rs, i, j);
    } else if q.Width().Some? {
      forall k | 0 <= k < |rs| ensures AbsReal(rs[k].t / q.Width().value) < STEADY {
        FarEnough(rs[k].t, q.Width().value);
      }
      SteadyInTime(q.Width().value, band, rs, i, j);
    } else {
      SinglesInTime(rs, i, j);
    }
  }

  lemma {:induction false} SinglesInTime(rs: seq<Reading>, i: nat, j: nat)
    requires InStrictTime(rs) && i < j < |rs|
    ensures Singles(rs)[i].t < Singles(rs)[j].t
  {
  }

  /** No grid point in a later bucket is at or before the stamp of an earlier bucket that
      holds two. */
  ghost predicate StampsClear(g: Grid, w: real)
    requires w > 0.0
  {
    forall i, k, j :: 0 <= i < k < j < g.Count() && BucketOn(g, w, i) == BucketOn(g, w, k) != BucketOn(g, w, j) ==>
      Boundary(BucketOn(g, w, k), w) < At(g, j)
  }

  /** Every group's output is in strictly increasing time. */
  ghost predicate KeepsOrder(q: Query, g: Grid) {
    forall op, ops: Point -> Option<Point>, em, sel, band, i, j ::
      |sel| == |em| && TimesKept(ops) && 0 <= i < j < |Output(q, op, ops, g, em, sel, band)| ==>
        Output(q, op, ops, g, em, sel, band)[i].t < Output(q, op, ops, g, em, sel, band)[j].t
  }

  /** Every reading is at a grid point. */
  lemma {:induction false} ReadingsAtPoints(op: AggOp, ops: Point -> Option<Point>, g: Grid, em: seq<seq<Emission>>,
                                            sel: seq<bool>, n: nat, i: nat) returns (k: nat)
    requires |sel| == |em| && n <= g.Count() && TimesKept(ops) && i < |GroupReadings(op, ops, g, em, sel, n)|
    ensures k < n && GroupReadings(op, ops, g, em, sel, n)[i].t == At(g, k)
  {
    hide Members, CompactOf;
    Counted(g, n - 1);
    if i < |GroupReadings(op, ops, g, em, sel, n - 1)| {
      k := ReadingsAtPoints(op, ops, g, em, sel, n - 1, i);
    } else {
      k := n - 1;
    }
  }

  lemma {:induction false} LaterPoint(g: Grid, i: nat, j: nat)
    requires At(g, i) < At(g, j)
    ensures i < j
  {
    if j <= i {
      TimeIsMonotone(g, j, i);
    }
  }

  lemma {:induction false} ClearReadings(op: AggOp, ops: Point -> Option<Point>, g: Grid, em: seq<seq<Emission>>,
                                         sel: seq<bool>, w: real)
    requires |sel| == |em| && TimesKept(ops) && w > 0.0 && StampsClear(g, w)
    requires InStrictTime(GroupReadings(op, ops, g, em, sel, g.Count()))
    ensures Clear(w, GroupReadings(op, ops, g, em, sel, g.Count()))
  {
    hide GroupReadings, BucketOf, At;
    var rs := GroupReadings(op, ops, g, em, sel, g.Count());
    forall i, k, j | 0 <= i < k < j < |rs| && BucketOf(rs[i].t, w) == BucketOf(rs[k].t, w) != BucketOf(rs[j].t, w)
      ensures Boundary(BucketOf(rs[k].t, w), w) < rs[j].t
    {
      var a := ReadingsAtPoints(op, ops, g, em, sel, g.Count(), i);
      var b := ReadingsAtPoints(op, ops, g, em, sel, g.Count(), k);
      var c := ReadingsAtPoints(op, ops, g, em, sel, g.Count(), j);
      LaterPoint(g, a, b);
      LaterPoint(g, b, c);
      assert BucketOn(g, w, a) == BucketOn(g, w, b) != BucketOn(g, w, c);
    }
  }

  /** The emissions of a series with points at three grid points. */
  function AtThree(i: nat, k: nat, j: nat): seq<Emission> {
    var p := Point(0, 0.0, None, None, false, false);
    [Emission(i, p), Emission(k, p), Emission(j, p)]
  }

  lemma {:induction false} HasThree(i: nat, k: nat, j: nat, n: nat)
    requires i < k < j
    ensures AtIndex(AtThree(i, k, j), n) ==
            if n in {i, k, j} then Some(Point(0, 0.0, None, None, false, false)) else None
  {
    hide AtIndex;
    var es := AtThree(i, k, j);
    AtIndexMore([], es[0], n);
    AtIndexMore([es[0]], es[1], n);
    AtIndexMore([es[0], es[1]], es[2], n);
    assert [] + [es[0]] == [es[0]] && [es[0]] + [es[1]] == [es[0], es[1]] && [es[0], es[1]] + [es[2]] == es;
    assert AtIndex([], n) == None by { NotYet([], n); }
  }

  lemma {:induction false} MembersOfThree(i: nat, k: nat, j: nat, n: nat)
    requires i < k < j
    ensures Members([AtThree(i, k, j)], [true], n) ==
            if n in {i, k, j} then [Point(0, 0.0, None, None, false, false)] else []
  {
    hide AtIndex, AtThree;
    HasThree(i, k, j, n);
    var em := [AtThree(i, k, j)];
    assert em[..0] == [] && Members(em[..0], [true][..0], n) == [];
    assert Members(em, [true], n) == [] + Own(em[0], true, n);
  }

  lemma {:induction false} CompactOne(ps: seq<Point>, p: Point)
    requires ps == [p]
    ensures CompactOf(Sum, ps) == AddToCompact(Sum, EMPTY_COMPACT, p)
  {
    assert ps[..0] == [];
  }

  lemma {:induction false} PointOfOne(t: u64, p: Point)
    requires p.v == 0.0 && p.bounds == None && !p.interpolated
    ensures AddToCompact(Sum, EMPTY_COMPACT, p).count == 1
    ensures CompactPoint(Sum, t, AddToCompact(Sum, EMPTY_COMPACT, p)) == Point(t, 0.0, None, None, false, false)
  {
  }

  lemma {:induction false} ShowsPoint(g: Grid, n: nat, a: Compact)
    requires 0 <= g.Time(n) <= U64_MAX && a.count > 0
    requires CompactPoint(Sum, g.Time(n), a) == Point(g.Time(n), 0.0, None, None, false, false)
    ensures ShownAt(Sum, p => Some(p), g, n, a) == [Reading(At(g, n), 0.0, None, false)]
  {
    hide CompactPoint, Grid.Time;
  }

  lemma {:induction false} ShowsOne(g: Grid, n: nat, ps: seq<Point>, p: Point)
    requires 0 <= g.Time(n) <= U64_MAX && p.v == 0.0 && p.bounds == None && !p.interpolated
    ensures ps == [p] ==> ShownAt(Sum, p => Some(p), g, n, CompactOf(Sum, ps)) == [Reading(At(g, n), 0.0, None, false)]
    ensures ps == [] ==> ShownAt(Sum, p => Some(p), g, n, CompactOf(Sum, ps)) == []
  {
    hide CompactPoint, AddToCompact, Grid.Time;
    if ps == [p] {
      hide ShownAt;
      CompactOne(ps, p);
      hide CompactOf;
      PointOfOne(g.Time(n), p);
      ShowsPoint(g, n, CompactOf(Sum, ps));
    }
  }

  /** What that series shows of the first `n` grid points. */
  function Three(g: Grid, i: nat, k: nat, j: nat, n: nat): seq<Reading> {
    (if i < n then [Reading(At(g, i), 0.0, None, false)] else [])
      + (if k < n then [Reading(At(g, k), 0.0, None, false)] else [])
      + (if j < n then [Reading(At(g, j), 0.0, None, false)] else [])
  }

  lemma {:induction false} ThreeMore(g: Grid, i: nat, k: nat, j: nat, n: nat)
    requires i < k < j
    ensures Three(g, i, k, j, n + 1) ==
            Three(g, i, k, j, n) + (if n in {i, k, j} then [Reading(At(g, n), 0.0, None, false)] else [])
  {
    hide At;
  }

  lemma {:induction false} ShowsThree(g: Grid, i: nat, k: nat, j: nat, n: nat)
    requires i < k < j < g.Count() && n <= g.Count()
    ensures GroupReadings(Sum, p => Some(p), g, [AtThree(i, k, j)], [true], n) == Three(g, i, k, j, n)
  {
    hide AtThree, ShownAt, CompactOf, Members, At;
    if n > 0 {
      ShowsThree(g, i, k, j, n - 1);
      MembersOfThree(i, k, j, n - 1);
      Counted(g, n - 1);
      ShowsOne(g, n - 1, Members([AtThree(i, k, j)], [true], n - 1), Point(0, 0.0, None, None, false, false));
      ThreeMore(g, i, k, j, n - 1);
    }
  }

  /** The order is kept for every group exactly when the grid's stamps are clear. */
  lemma {:induction false} OrderKept(q: Query, g: Grid)
    requires q.Makes(g) && q.Bucketed()
    ensures KeepsOrder(q, g) <==> StampsClear(g, q.Width().value)
  {
    hide BucketWidth, GroupReadings, Runs, InStrictTime, StampsClear;
    var w := q.Width().value;
    if StampsClear(g, w) {
      forall op, ops: Point -> Option<Point>, em, sel, band, i, j
        | |sel| == |em| && TimesKept(ops) && 0 <= i < j < |Output(q, op, ops, g, em, sel, band)|
        ensures Output(q, op, ops, g, em, sel, band)[i].t < Output(q, op, ops, g, em, sel, band)[j].t
      {
        ReadingsOnGrid(op, ops, g, em, sel, g.Count());
        OnGridWithin(g, GroupReadings(op, ops, g, em, sel, g.Count()));
        ClearReadings(op, ops, g, em, sel, w);
        ClearInTime(w, band, GroupReadings(op, ops, g, em, sel, g.Count()), i, j);
      }
    }
    if KeepsOrder(q, g) {
      ClearWhenKept(q, g);
    }
  }

  lemma {:induction false} ClearWhenKept(q: Query, g: Grid)
    requires q.Makes(g) && q.Bucketed() && KeepsOrder(q, g)
    ensures StampsClear(g, q.Width().value)
  {
    hide KeepsOrder, BucketWidth, BucketOf, At;
    var w := q.Width().value;
    forall i, k, j | 0 <= i < k < j < g.Count() && BucketOn(g, w, i) == BucketOn(g, w, k) != BucketOn(g, w, j)
      ensures Boundary(BucketOn(g, w, k), w) < At(g, j)
    {
      ThreeInOrder(q, g, i, k, j);
    }
  }

  lemma {:induction false} ThreeInOrder(q: Query, g: Grid, i: nat, k: nat, j: nat)
    requires q.Makes(g) && q.Bucketed() && KeepsOrder(q, g) && i < k < j < g.Count()
    requires var w := q.Width().value; BucketOn(g, w, i) == BucketOn(g, w, k) != BucketOn(g, w, j)
    ensures Boundary(BucketOn(g, q.Width().value, k), q.Width().value) < At(g, j)
  {
    hide BucketWidth, BucketOf, At, GroupReadings, Runs, Quantile, Sort, Lows, Highs, Median;
    var w, band := q.Width().value, (0.25, 0.75);
    ShowsThree(g, i, k, j, g.Count());
    var a, b, c := Reading(At(g, i), 0.0, None, false), Reading(At(g, k), 0.0, None, false), Reading(At(g, j), 0.0, None, false);
    assert Three(g, i, k, j, g.Count()) == [a, b, c];
    TwoRuns(w, band, a, b, c);
    NoOps();
    var out := Output(q, Sum, p => Some(p), g, [AtThree(i, k, j)], [true], band);
    assert out == [Summary(w, band, BucketOf(a.t, w), [a, b]), Summary(w, band, BucketOf(c.t, w), [c])];
    assert out[0].t < out[1].t;
  }

  /** It is not with a step of 1.5 nanoseconds, 2e9 s after the epoch: the grid's step is
      cut to 1, the width is not, and two points share a bucket stamped long after the
      next point. */
  lemma {:induction false} FractionMisorders(g: Grid)
    requires Query(2000000000.0, 2000000000.000000003, 0.0000000015, 2).Makes(g)
    ensures !KeepsOrder(Query(2000000000.0, 2000000000.000000003, 0.0000000015, 2), g)
  {
    hide KeepsOrder, BucketOn, BucketWidth, Query.Makes;
    var q := Query(2000000000.0, 2000000000.000000003, 0.0000000015, 2);
    OrderKept(q, g);
    FractionWidth();
    FractionGrid(g);
    FractionTimes(g);
    FractionBuckets(g);
  }

  lemma {:induction false} FractionWidth()
    ensures BucketWidth(2000000000.0, 2000000000.000000003, 0.0000000015, 2) == Some(0.0000000015)
  {
    assert NICE[0] == 1.0;
  }

  lemma {:induction false} FractionGrid(g: Grid)
    requires Query(2000000000.0, 2000000000.000000003, 0.0000000015, 2).Makes(g)
    ensures g.start == 2000000000000000000 && g.step == 1 && g.end == 2000000000000001003
  {
    hide SnapDown;
    assert ToU64(0.0000000015 * 1000000000.0) == 1;
    assert Nanos(2000000000.0) == 2000000000000000000 && Nanos(2000000000.000000003) == 2000000000000000003;
    Multiple(2000000000000000000, 1);
  }

  lemma {:induction false} FractionBuckets(g: Grid)
    requires At(g, 2) == 2000000000.000000002 && At(g, 3) == 2000000000.000000003 && At(g, 4) == 2000000000.000000004
    ensures var w := 0.0000000015;
            && BucketOn(g, w, 2) == BucketOn(g, w, 3) == 1333333333333334668 && BucketOn(g, w, 4) == 1333333333333334669
            && Boundary(BucketOn(g, w, 3), w) > At(g, 4)
  {
    hide At;
  }

  lemma {:induction false} FractionTimes(g: Grid)
    requires g.start == 2000000000000000000 && g.step == 1 && g.end == 2000000000000001003
    ensures g.Count() > 4
    ensures At(g, 2) == 2000000000.000000002 && At(g, 3) == 2000000000.000000003 && At(g, 4) == 2000000000.000000004
  {
    TimeIsLinear(g, 2);
    TimeIsLinear(g, 3);
    TimeIsLinear(g, 4);
    Counted(g, 4);
  }

  // ----- The size of the output

  /** Whatever its members gave, a group has no more points than the grid has buckets. */
  lemma {:induction false} GroupOutput(q: Query, op: AggOp, ops: Point -> Option<Point>, g: Grid, em: seq<seq<Emission>>,
                                       sel: seq<bool>, band: (real, real))
    requires |sel| == |em| && TimesKept(ops) && q.Makes(g) && q.Bucketed()
    ensures |Output(q, op, ops, g, em, sel, band)| <= q.Most(g)
  {
    hide BucketWidth, GroupReadings, Runs, Occupied;
    var j := RunsOnGrid(op, ops, g, em, sel, q.Width().value, band, g.Count());
    if GroupReadings(op, ops, g, em, sel, g.Count()) != [] {
      OccupiedRises(g, q.Width().value, j + 1, g.Count());
    }
  }

  /** Every group of the query keeps within `bound` points. */
  ghost predicate Keeps(q: Query, g: Grid, bound: nat) {
    forall op, ops: Point -> Option<Point>, em, sel, band :: |sel| == |em| && TimesKept(ops) ==>
      |Output(q, op, ops, g, em, sel, band)| <= bound
  }

  /** A bound on the points of every group is one on the grid's buckets, and no other. */
  lemma {:induction false} BoundKept(q: Query, g: Grid, bound: nat)
    requires q.Makes(g) && q.Bucketed()
    ensures Keeps(q, g, bound) <==> q.Most(g) <= bound
  {
    hide BucketWidth, GroupReadings, Runs, Occupied, Output, Full, TimesKept;
    if q.Most(g) <= bound {
      forall op, ops: Point -> Option<Point>, em, sel, band | |sel| == |em| && TimesKept(ops)
        ensures |Output(q, op, ops, g, em, sel, band)| <= bound
      {
        GroupOutput(q, op, ops, g, em, sel, band);
      }
    }
    if Keeps(q, g, bound) {
      var em := FullOutput(q, g, (0.25, 0.75));
      assert |Output(q, Sum, p => Some(p), g, em, [true], (0.25, 0.75))| <= bound by { NoOps(); }
    }
  }

  lemma {:induction false} NoOps()
    ensures TimesKept(p => Some(p))
  {
  }

  /** Some group has a point in each of the grid's buckets. */
  lemma {:induction false} FullOutput(q: Query, g: Grid, band: (real, real)) returns (em: seq<seq<Emission>>)
    requires q.Makes(g) && q.Bucketed()
    ensures |em| == 1 && |Output(q, Sum, p => Some(p), g, em, [true], band)| == q.Most(g)
  {
    hide BucketWidth, GroupReadings, Runs, Occupied, Full;
    em := SomeFull(g);
    NoOps();
    RunsOfFull(Sum, p => Some(p), g, em, [true], q.Width().value, band, g.Count());
  }

  // ----- How many buckets that is

  lemma {:induction false} NanosClose(x: real, y: real)
    requires x <= y
    ensures Nanos(x) <= Nanos(y) && (Nanos(y) - Nanos(x)) as real <= (y - x) * 1000000000.0 + 1.0
  {
  }

  lemma {:induction false} NanosWithin(x: real, y: real, n: nat)
    requires x <= y && (y - x) * 1000000000.0 <= n as real
    ensures Nanos(y) - Nanos(x) <= n
  {
    FloorSpan(x * 1000000000.0 + 0.5, y * 1000000000.0 + 0.5, n);
  }

  /** The grid starts before its end, less than a step before the range's start. */
  lemma {:induction false} GridHolds(q: Query, g: Grid)
    requires q.Makes(g) && q.Bucketed()
    ensures g.Count() > 0 && g.Time(g.Count() - 1) <= g.end
    ensures g.start <= Nanos(q.start) <= Nanos(q.end) <= g.end <= Nanos(q.end) + SLACK
    ensures if q.Moved() then Nanos(q.start) - g.start < g.step else g.start == Nanos(q.start)
  {
    hide ToU64, Nanos;
    NanosClose(q.start, q.end);
    Counted(g, 0);
    Counted(g, g.Count() - 1);
  }

  lemma {:induction false} StepIsLess(q: Query)
    requires q.StepNs() > 0
    ensures 0.0 < Seconds(q.StepNs()) <= q.step
  {
  }

  /** Of two times at most a width apart, the second is in the same bucket or the next. */
  lemma {:induction false} NextBucket(t: real, t': real, w: real)
    requires w >= 1.0 && 0.0 <= t <= t' <= Seconds(U64_MAX) && t' - t <= w
    ensures BucketOf(t', w) <= BucketOf(t, w) + 1
  {
    hide BucketOf, Near;
    ClockIsNear(t, w);
    ClockIsNear(t', w);
    Regroup(t, t', w);
    QuotientRises(t' - t, w, w);
    SpanOfBuckets(t, t', w, 1);
  }

  lemma {:induction false} PointTimes(q: Query, g: Grid, k: nat)
    requires q.Makes(g) && q.Bucketed() && k < g.Count()
    ensures 0.0 <= At(g, k) <= Seconds(g.end) <= Seconds(U64_MAX)
    ensures k > 0 ==> At(g, k) == At(g, k - 1) + Seconds(q.StepNs())
  {
    Counted(g, k);
    if k > 0 {
      StepsOn(g, k - 1);
    }
  }

  /** When the grid does not fit the budget, its points are in every bucket from the
      first's to the last's. */
  lemma {:induction false} MostWhenCoarse(q: Query, g: Grid)
    requires q.Makes(g) && q.Bucketed() && !q.FitsBudget()
    ensures g.Count() > 0
    ensures var w := q.Width().value; q.Most(g) == BucketOn(g, w, g.Count() - 1) - BucketOn(g, w, 0) + 1
  {
    hide BucketWidth, BucketOf, Occupied, ToU64, Seconds;
    GridHolds(q, g);
    StepIsLess(q);
    var w := q.Width().value;
    forall k | 0 < k < g.Count() ensures BucketOn(g, w, k) <= BucketOn(g, w, k - 1) + 1 {
      PointTimes(q, g, k - 1);
      PointTimes(q, g, k);
      NextBucket(At(g, k - 1), At(g, k), w);
    }
    OccupiedAll(g, w, g.Count());
  }

  /** When it fits, and its step is whole, each point has its own. */
  lemma {:induction false} MostWhenFine(q: Query, g: Grid)
    requires q.Makes(g) && q.Bucketed() && q.FitsBudget() && q.Whole()
    ensures q.Most(g) == g.Count() == (g.end - g.start) / g.step + 1
  {
    hide BucketWidth, BucketOf, Occupied, ToU64, Seconds;
    GridHolds(q, g);
    var w := q.Width().value;
    forall k | 0 < k < g.Count() ensures BucketOn(g, w, k - 1) != BucketOn(g, w, k) {
      PointTimes(q, g, k - 1);
      PointTimes(q, g, k);
      AloneInBucket(q.start, q.end, q.step, q.budget, At(g, k - 1), At(g, k));
    }
    OccupiedAlone(g, w, g.Count());
    LenIsCount(g);
  }

  /** When every group keeps the documented bound: when the grid's points, each in its own
      bucket, are no more than it; or the buckets from the first point's to the last's. */
  lemma {:induction false} DocumentedKept(q: Query, g: Grid)
    requires q.Makes(g) && q.Bucketed() && (q.Whole() || !q.FitsBudget())
    ensures Keeps(q, g, q.Documented()) <==>
            if q.FitsBudget() then (g.end - g.start) / g.step < q.Documented()
            else
              var w := q.Width().value;
              BucketOn(g, w, g.Count() - 1) - BucketOn(g, w, 0) < q.Documented()
  {
    hide Keeps, Query.Most, BucketWidth, BucketOn;
    BoundKept(q, g, q.Documented());
    if q.FitsBudget() {
      MostWhenFine(q, g);
    } else {
      MostWhenCoarse(q, g);
    }
  }

  // ----- What holds of every query

  lemma {:induction false} QuotientAtMost(x: nat, n: nat, r: nat, c: nat)
    requires c > 0 && x <= n * c + r
    ensures x / c <= n + r / c
  {
    DivBounds(x, c);
    DivBounds(r, c);
    MulSum(n, r / c + 1, c);
    if x / c > n + r / c {
      MulMonotone(n + r / c + 1, x / c, c);
      MulSum(n + r / c, 1, c);
      MulSum(n, r / c, c);
    }
  }

  lemma {:induction false} FineSpan(q: Query)
    requires q.Bucketed() && q.StepNs() > 0 && q.FitsBudget() && q.Whole()
    ensures Nanos(q.end) - Nanos(q.start) <= q.budget * q.StepNs()
  {
    hide ToU64, Nanos;
    var raw := (q.end - q.start) / q.budget as real;
    assert raw * q.budget as real == q.end - q.start;
    ProductRises(raw, q.step, q.budget as real);
    ScaledProduct(q.StepNs(), q.budget);
    NanosWithin(q.start, q.end, q.budget * q.StepNs());
  }

  lemma {:induction false} ScaledProduct(n: u64, m: nat)
    ensures Seconds(n) * m as real * 1000000000.0 == (m * n) as real
  {
    assert (m * n) as real == m as real * n as real;
  }

  /** The budget, for every query: when the grid fits it, one more and as many more as
      there are steps in a microsecond; else two more, or three when the grid starts before
      the range. */
  lemma {:induction false} MostAtMost(q: Query, g: Grid)
    requires q.Makes(g) && q.Bucketed() && (q.Whole() || !q.FitsBudget())
    ensures q.Most(g) <= if q.FitsBudget() then q.budget + 1 + (SLACK + g.step - 1) / g.step
                         else if q.Moved() then q.budget + 3 else q.budget + 2
  {
    hide BucketWidth, BucketOf, Occupied, ToU64, Nanos;
    GridHolds(q, g);
    if q.FitsBudget() {
      MostWhenFine(q, g);
      FineSpan(q);
      QuotientAtMost(g.end - g.start, q.budget, SLACK + g.step - 1, g.step);
    } else {
      CoarseSpan(q, g);
    }
  }

  lemma {:induction false} CoarseSpan(q: Query, g: Grid)
    requires q.Makes(g) && q.Bucketed() && !q.FitsBudget()
    ensures q.Most(g) <= if q.Moved() then q.budget + 3 else q.budget + 2
  {
    hide BucketWidth, Occupied, Query.Makes, Query.Moved, Query.FitsBudget, Query.Bucketed, Grid.Count, BucketOn;
    var n := if q.Moved() then q.budget + 2 else q.budget + 1;
    CoarseRange(q, g, n);
    MostWhenCoarse(q, g);
    CoarseEnds(q, g, n);
  }

  lemma {:induction false} AtRises(g: Grid, i: nat, j: nat)
    requires i <= j
    ensures At(g, i) <= At(g, j)
  {
    TimeIsMonotone(g, i, j);
  }

  lemma {:induction false} CoarseEnds(q: Query, g: Grid, n: nat)
    requires q.Makes(g) && q.Bucketed() && g.Count() > 0 && q.Width().value >= 1.0
    requires Seconds(g.end) - At(g, 0) <= n as real * q.Width().value
    ensures BucketOn(g, q.Width().value, g.Count() - 1) - BucketOn(g, q.Width().value, 0) <= n
  {
    hide BucketWidth, BucketOf, Query.Makes, Grid.Count, Grid.Time, At, Seconds;
    var w := q.Width().value;
    var k := g.Count() - 1;
    PointTimes(q, g, 0);
    PointTimes(q, g, k);
    AtRises(g, 0, k);
    WidthsApart(At(g, 0), At(g, k), w, n);
  }

  lemma {:induction false} CoarseRange(q: Query, g: Grid, n: nat)
    requires q.Makes(g) && q.Bucketed() && !q.FitsBudget() && n == if q.Moved() then q.budget + 2 else q.budget + 1
    ensures g.start <= g.end && q.Width().value >= 1.0
    ensures Seconds(g.end) - At(g, 0) <= n as real * q.Width().value
  {
    hide BucketWidth, ToU64, Nanos, Query.StepNs, Grid.Count, Query.Moved, Query.Start, Query.End;
    GridHolds(q, g);
    SnapBack(q, g);
    NanosClose(q.start, q.end);
    var ns, back := Nanos(q.end) - Nanos(q.start), Nanos(q.start) - g.start;
    SlackInRange(q.end - q.start, q.Width().value, q.budget, q.Moved(), ns, back);
    SameSeconds(g.end, g.start, ns + SLACK + back);
  }

  lemma {:induction false} SameSeconds(a: u64, b: u64, n: int)
    requires a - b <= n
    ensures Seconds(a) - Seconds(b) <= n as real / 1000000000.0
  {
  }

  /** The grid starts less than a width before the range. */
  lemma {:induction false} SnapBack(q: Query, g: Grid)
    requires q.Makes(g) && q.Bucketed() && !q.FitsBudget()
    ensures g.start <= Nanos(q.start)
    ensures (Nanos(q.start) - g.start) as real <= if q.Moved() then q.Width().value * 1000000000.0 else 0.0
  {
    hide BucketWidth, ToU64, Nanos, Grid.Count;
    GridHolds(q, g);
    StepIsLess(q);
    assert q.step <= q.Width().value;
  }

  /** A range of `budget` widths, its slack and up to a width before it. */
  lemma {:induction false} SlackInRange(span: real, w: real, budget: nat, moved: bool, ns: nat, back: nat)
    requires budget > 0 && w >= 1.0 && span / budget as real <= w && ns as real <= span * 1000000000.0 + 1.0
    requires back as real <= if moved then w * 1000000000.0 else 0.0
    ensures (ns + SLACK + back) as real / 1000000000.0 <= (if moved then budget + 2 else budget + 1) as real * w
  {
    var raw := span / budget as real;
    assert raw * budget as real == span;
    ProductRises(raw, w, budget as real);
    assert (budget + 2) as real * w == budget as real * w + w + w;
    assert (budget + 1) as real * w == budget as real * w + w;
  }

  /** Times in a range of `n` widths are in no more than `n + 1` buckets. */
  lemma {:induction false} WidthsApart(lo: real, hi: real, w: real, n: nat)
    requires w >= 1.0 && 0.0 <= lo <= hi <= Seconds(U64_MAX) && hi - lo <= n as real * w
    ensures BucketOf(hi, w) - BucketOf(lo, w) <= n
  {
    hide BucketOf, Near;
    ClockIsNear(lo, w);
    ClockIsNear(hi, w);
    Regroup(lo, hi, w);
    QuotientRises(hi - lo, n as real * w, w);
    assert (n as real * w) / w == n as real;
    SpanOfBuckets(lo, hi, w, n);
  }

  lemma {:induction false} StartIsNear(q: Query, g: Grid)
    requires q.Makes(g) && q.Bucketed() && g.Count() > 1
    ensures q.start - At(g, 0) <= Seconds(q.StepNs())
  {
    GridHolds(q, g);
    Counted(g, 1);
    assert g.Time(1) == g.start + g.step <= U64_MAX;
    assert Nanos(q.start) < U64_MAX;
    assert q.start * 1000000000.0 + 0.5 < Nanos(q.start) as real + 1.0;
  }

  lemma {:induction false} StepsFrom(g: Grid, k: nat)
    ensures At(g, k) == At(g, 0) + k as real * StepSeconds(g)
  {
    if k > 0 {
      StepsFrom(g, k - 1);
      StepsOn(g, k - 1);
      assert k as real * StepSeconds(g) == (k - 1) as real * StepSeconds(g) + StepSeconds(g);
    }
  }

  /** A range of `budget` widths, begun up to a width early, is `n` widths. */
  lemma {:induction false} WidthsInRange(q: Query, lo: real, w: real, n: nat)
    requires q.Bucketed() && w > 0.0 && (q.end - q.start) / q.budget as real <= w && q.start - lo <= w
    requires n == if lo < q.start then q.budget + 1 else q.budget
    ensures q.end - lo <= n as real * w
  {
    var raw := (q.end - q.start) / q.budget as real;
    assert raw * q.budget as real == q.end - q.start;
    ProductRises(raw, w, q.budget as real);
    assert (q.budget + 1) as real * w == q.budget as real * w + w;
  }

  /** With no grid point past the range's end the budget is kept but for one point, and
      one more when the grid starts before the range. */
  lemma {:induction false} NonePastEnd(q: Query, g: Grid)
    requires q.Makes(g) && q.Bucketed() && (q.Whole() || !q.FitsBudget())
    requires g.Count() > 0 && At(g, g.Count() - 1) <= q.end
    ensures q.Most(g) <= if At(g, 0) < q.start then q.budget + 2 else q.budget + 1
  {
    hide BucketWidth, Occupied, Query.Makes;
    var k, n := g.Count() - 1, if At(g, 0) < q.start then q.budget + 1 else q.budget;
    OccupiedAtMost(g, q.Width().value, g.Count());
    if k == 0 {
    } else if q.FitsBudget() {
      MostWhenFine(q, g);
      FineCount(q, g, k, n);
    } else {
      MostWhenCoarse(q, g);
      CoarseBuckets(q, g, k, n);
    }
  }

  lemma {:induction false} FineCount(q: Query, g: Grid, k: nat, n: nat)
    requires q.Makes(g) && q.Bucketed() && q.Whole() && q.FitsBudget() && g.Count() > 1
    requires At(g, k) <= q.end && n == if At(g, 0) < q.start then q.budget + 1 else q.budget
    ensures k <= n
  {
    hide ToU64, Nanos, Grid.Count, Grid.Time, Query.Start, Query.End, At, BucketWidth;
    StartIsNear(q, g);
    StepIsLess(q);
    WidthsInRange(q, At(g, 0), q.step, n);
    StepsFrom(g, k);
    StepsWithin(k, n, q.step);
  }

  lemma {:induction false} StepsWithin(k: nat, n: nat, step: real)
    requires step > 0.0 && k as real * step <= n as real * step
    ensures k <= n
  {
    assert (n + 1) as real * step == n as real * step + step;
    if k > n {
      ProductRises((n + 1) as real, k as real, step);
    }
  }

  lemma {:induction false} CoarseBuckets(q: Query, g: Grid, k: nat, n: nat)
    requires q.Makes(g) && q.Bucketed() && !q.FitsBudget() && 0 < k == g.Count() - 1
    requires At(g, k) <= q.end && n == if At(g, 0) < q.start then q.budget + 1 else q.budget
    ensures BucketOn(g, q.Width().value, k) - BucketOn(g, q.Width().value, 0) <= n
  {
    hide BucketWidth, BucketOf, ToU64, Nanos;
    var w := q.Width().value;
    StartIsNear(q, g);
    StepIsLess(q);
    PointTimes(q, g, 0);
    PointTimes(q, g, k);
    TimeIsMonotone(g, 0, k);
    WidthsInRange(q, At(g, 0), w, n);
    WidthsApart(At(g, 0), At(g, k), w, n);
  }

  // ----- The documented bound is not always kept

  /** A range of one step of a microsecond, with a budget of one: the grid's slack adds a
      third point to its two. */
  lemma {:induction false} SlackAddsPoint(g: Grid)
    requires Query(0.000005, 0.000006, 0.000001, 1).Makes(g)
    ensures var q := Query(0.000005, 0.000006, 0.000001, 1);
            q.Documented() == 2 && q.Most(g) == 3 && !Keeps(q, g, q.Documented())
  {
    hide Keeps, Query.Most, BucketWidth;
    var q := Query(0.000005, 0.000006, 0.000001, 1);
    assert q.StepNs() == 1000 && Nanos(q.start) == 5000 && Nanos(q.end) == 6000;
    Multiple(5000, 1000);
    MostWhenFine(q, g);
    BoundKept(q, g, 2);
  }

  lemma {:induction false} Multiple(t: u64, step: u64)
    requires step > 0 && t % step == 0
    ensures SnapDown(t, step) == t
  {
  }

  /** A range of one second's step begun less than a microsecond before a step, with a
      budget of one: the grid starts before the range and ends past it, at three points,
      though the width is the step. */
  lemma {:induction false} BothEndsAddPoints(g: Grid)
    requires Query(0.9999995, 1.9999995, 1.0, 1).Makes(g)
    ensures var q := Query(0.9999995, 1.9999995, 1.0, 1);
            q.Documented() == 2 && q.Most(g) == 3 && !Keeps(q, g, q.Documented())
  {
    hide Keeps, Query.Most;
    var q := Query(0.9999995, 1.9999995, 1.0, 1);
    assert q.StepNs() == 1000000000 && Nanos(q.start) == 999999500 && Nanos(q.end) == 1999999500;
    assert SnapDown(999999500, 1000000000) == 0;
    assert NICE[0] == 1.0;
    assert q.Width() == Some(1.0);
    MostWhenFine(q, g);
    BoundKept(q, g, 2);
  }
}
