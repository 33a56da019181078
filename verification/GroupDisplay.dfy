/** What a grouped display read shows: its groups' points lie on the query's grid, so
    each output is in time order and within the budget. */
module GroupDisplay {
  import opened Prelude
  import opened RateSpec
  import opened Aggregate
  import opened Display
  import opened Grouping

  /** Scalar ops change no point's time. */
  ghost predicate TimesKept(ops: Point -> Option<Point>) {
    forall p: Point :: ops(p).Some? ==> ops(p).value.t == p.t
  }

  /** The time of a grid point in seconds. */
  function At(g: Grid, n: nat): real {
    g.Time(n) as real / 1000000000.0
  }

  function StepSeconds(g: Grid): real {
    g.step as real / 1000000000.0
  }

  lemma {:induction false} StepsOn(g: Grid, n: nat)
    ensures At(g, n + 1) == At(g, n) + StepSeconds(g)
  {
  }

  /** Points a step apart, from the grid's start to its last point before index `n`. */
  ghost predicate OnGrid(g: Grid, rs: seq<Reading>, n: nat) {
    && InStrictTime(rs) && Spaced(StepSeconds(g), rs)
    && (n == 0 ==> rs == [])
    && (n > 0 ==> InRange(At(g, 0), At(g, n - 1), rs))
  }

  lemma {:induction false} OnGridMore(g: Grid, rs: seq<Reading>, n: nat, more: seq<Reading>)
    requires g.step > 0 && OnGrid(g, rs, n)
    requires |more| <= 1 && (more != [] ==> more[0].t == At(g, n))
    ensures OnGrid(g, rs + more, n + 1)
  {
    TimeIsMonotone(g, 0, n);
    if n > 0 {
      StepsOn(g, n - 1);
    }
  }

  /** A group's points are on the grid. */
  lemma {:induction false} ReadingsOnGrid(op: AggOp, ops: Point -> Option<Point>, g: Grid, em: seq<seq<Emission>>,
                                          sel: seq<bool>, n: nat)
    requires |sel| == |em| && n <= g.Count() && TimesKept(ops)
    ensures OnGrid(g, GroupReadings(op, ops, g, em, sel, n), n)
  {
    hide OnGrid, Members, CompactOf;
    if n == 0 {
      assert OnGrid(g, [], 0) by { NothingOnGrid(g); }
    } else {
      ReadingsOnGrid(op, ops, g, em, sel, n - 1);
      Counted(g, n - 1);
      OnGridMore(g, GroupReadings(op, ops, g, em, sel, n - 1), n - 1,
                 ShownAt(op, ops, g, n - 1, CompactOf(op, Members(em, sel, n - 1))));
    }
  }

  lemma {:induction false} NothingOnGrid(g: Grid)
    ensures OnGrid(g, [], 0)
  {
  }

  lemma {:induction false} OnGridWithin(g: Grid, rs: seq<Reading>)
    requires OnGrid(g, rs, g.Count())
    ensures InRange(0.0, Seconds(U64_MAX), rs)
  {
    var n := g.Count();
    if n > 0 {
      Counted(g, n - 1);
      assert At(g, n - 1) <= Seconds(g.end) <= Seconds(U64_MAX);
    }
  }

  // ----- How many buckets the grid's points are in

  function BucketOn(g: Grid, w: real, n: nat): int
    requires w > 0.0
  {
    BucketOf(At(g, n), w)
  }

  /** How many buckets the first `n` grid points are in. */
  function Occupied(g: Grid, w: real, n: nat): nat
    requires w > 0.0
  {
    if n == 0 then 0
    else Occupied(g, w, n - 1) + (if n > 1 && BucketOn(g, w, n - 2) == BucketOn(g, w, n - 1) then 0 else 1)
  }

  lemma {:induction false} BucketsRise(g: Grid, w: real, i: nat, j: nat)
    requires w > 0.0 && i <= j
    ensures BucketOn(g, w, i) <= BucketOn(g, w, j)
  {
    hide BucketOf;
    TimeIsMonotone(g, i, j);
    BucketRises(At(g, i), At(g, j), w);
  }

  /** A later point of another bucket is in one more. */
  lemma {:induction false} OccupiedRises(g: Grid, w: real, i: nat, j: nat)
    requires w > 0.0 && i <= j
    ensures Occupied(g, w, i) <= Occupied(g, w, j)
    ensures i > 0 && BucketOn(g, w, i - 1) != BucketOn(g, w, j - 1) ==> Occupied(g, w, i) < Occupied(g, w, j)
  {
    hide BucketOn;
    if i < j {
      OccupiedRises(g, w, i, j - 1);
    }
  }

  /** There are no more than points, and than buckets from the first's to the last's. */
  lemma {:induction false} OccupiedAtMost(g: Grid, w: real, n: nat)
    requires w > 0.0
    ensures Occupied(g, w, n) <= n
    ensures n > 0 ==> 1 <= Occupied(g, w, n) <= BucketOn(g, w, n - 1) - BucketOn(g, w, 0) + 1
  {
    hide BucketOn;
    if n > 1 {
      OccupiedAtMost(g, w, n - 1);
      BucketsRise(g, w, n - 2, n - 1);
    }
  }

  /** All of them, when no point shares its bucket with the next. */
  lemma {:induction false} OccupiedAlone(g: Grid, w: real, n: nat)
    requires w > 0.0 && forall k :: 0 < k < n ==> BucketOn(g, w, k - 1) != BucketOn(g, w, k)
    ensures Occupied(g, w, n) == n
  {
    hide BucketOn;
    if n > 0 {
      OccupiedAlone(g, w, n - 1);
      assert n > 1 ==> BucketOn(g, w, (n - 1) - 1) != BucketOn(g, w, n - 1);
    }
  }

  /** Every bucket from the first's to the last's, when no bucket is stepped over. */
  lemma {:induction false} OccupiedAll(g: Grid, w: real, n: nat)
    requires w > 0.0 && n > 0 && forall k :: 0 < k < n ==> BucketOn(g, w, k) <= BucketOn(g, w, k - 1) + 1
    ensures Occupied(g, w, n) == BucketOn(g, w, n - 1) - BucketOn(g, w, 0) + 1
  {
    hide BucketOn;
    if n > 1 {
      OccupiedAll(g, w, n - 1);
      BucketsRise(g, w, n - 2, n - 1);
      assert BucketOn(g, w, n - 1) <= BucketOn(g, w, (n - 1) - 1) + 1;
    }
  }

  lemma {:induction false} RunsMore(w: real, band: (real, real), rs: seq<Reading>, r: Reading)
    requires w > 0.0
    ensures |Runs(w, band, rs + [r])| ==
            |Runs(w, band, rs)| + (if rs != [] && BucketOf(rs[|rs| - 1].t, w) == BucketOf(r.t, w) then 0 else 1)
  {
    hide BucketOf, LastRun, Summary;
    LastRunAppend(w, rs, r);
    if rs != [] && BucketOf(rs[|rs| - 1].t, w) == BucketOf(r.t, w) {
      assert (rs + [r])[..LastRun(w, rs)] == rs[..LastRun(w, rs)];
    } else {
      assert (rs + [r])[..|rs|] == rs;
    }
  }

  /** A group's first points, the last at grid point `j`, are in no more buckets than the
      grid's up to there. */
  lemma {:induction false} RunsOnGrid(op: AggOp, ops: Point -> Option<Point>, g: Grid, em: seq<seq<Emission>>,
                                      sel: seq<bool>, w: real, band: (real, real), n: nat) returns (j: nat)
    requires w > 0.0 && |sel| == |em| && n <= g.Count() && TimesKept(ops)
    ensures var rs := GroupReadings(op, ops, g, em, sel, n);
            if rs == [] then Runs(w, band, rs) == []
            else j < n && rs[|rs| - 1].t == At(g, j) && |Runs(w, band, rs)| <= Occupied(g, w, j + 1)
  {
    hide Members, CompactOf, BucketOf, Runs;
    j := 0;
    NoRuns(w, band);
    if n > 0 {
      var before := GroupReadings(op, ops, g, em, sel, n - 1);
      var i := RunsOnGrid(op, ops, g, em, sel, w, band, n - 1);
      Counted(g, n - 1);
      var more := ShownAt(op, ops, g, n - 1, CompactOf(op, Members(em, sel, n - 1)));
      if more == [] {
        j := i;
        assert before + more == before;
      } else {
        j := n - 1;
        assert more == [more[0]] && more[0].t == At(g, n - 1);
        RunsMore(w, band, before, more[0]);
        OccupiedAtMost(g, w, n);
        if before != [] {
          OccupiedRises(g, w, i + 1, n);
        }
      }
    }
  }

  /** The group shows a point at every grid point. */
  ghost predicate Full(op: AggOp, ops: Point -> Option<Point>, g: Grid, em: seq<seq<Emission>>, sel: seq<bool>)
    requires |sel| == |em|
  {
    forall k: nat :: k < g.Count() ==>
      0 <= g.Time(k) <= U64_MAX && ShownAt(op, ops, g, k, CompactOf(op, Members(em, sel, k))) != []
  }

  lemma {:induction false} RunsOfFull(op: AggOp, ops: Point -> Option<Point>, g: Grid, em: seq<seq<Emission>>,
                                      sel: seq<bool>, w: real, band: (real, real), n: nat)
    requires w > 0.0 && |sel| == |em| && n <= g.Count() && TimesKept(ops) && Full(op, ops, g, em, sel)
    ensures var rs := GroupReadings(op, ops, g, em, sel, n);
            |Runs(w, band, rs)| == Occupied(g, w, n) && (n > 0 ==> rs != [] && rs[|rs| - 1].t == At(g, n - 1))
  {
    hide Members, CompactOf, BucketOf, Runs;
    NoRuns(w, band);
    if n > 0 {
      RunsOfFull(op, ops, g, em, sel, w, band, n - 1);
      Counted(g, n - 1);
      var more := ShownAt(op, ops, g, n - 1, CompactOf(op, Members(em, sel, n - 1)));
      assert more == [more[0]] && more[0].t == At(g, n - 1);
      RunsMore(w, band, GroupReadings(op, ops, g, em, sel, n - 1), more[0]);
    }
  }

  /** Some group is full. */
  lemma {:induction false} SomeFull(g: Grid) returns (em: seq<seq<Emission>>)
    ensures |em| == 1 && Full(Sum, p => Some(p), g, em, [true])
  {
    forall k: nat | k < g.Count() ensures 0 <= g.Time(k) <= U64_MAX {
      Counted(g, k);
    }
    var es := seq(g.Count(), k requires 0 <= k < g.Count() => Emission(k, Point(g.start, 0.0, None, None, false, false)));
    em := [es];
    forall k: nat | k < g.Count() ensures ShownAt(Sum, p => Some(p), g, k, CompactOf(Sum, Members(em, [true], k))) != [] {
      HasIndex(es, k, g);
      var ms := Members(em, [true], k);
      assert Own(es, true, k) == [es[k].point];
      assert Members(em[..0], [true][..0], k) == [];
      assert ms == [] + Own(es, true, k);
      assert ms[..0] == [];
    }
  }

  lemma {:induction false} HasIndex(es: seq<Emission>, k: nat, g: Grid)
    requires k < |es| && forall i :: 0 <= i < |es| ==> es[i].index == i && es[i].point == es[0].point
    ensures AtIndex(es, k) == Some(es[k].point)
  {
    if k < |es| - 1 {
      HasIndex(es[..|es| - 1], k, g);
    }
  }
}
