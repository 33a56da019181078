/** One result series of a read: its members' rates, and, when its members are a
    process group's, the stage that combines their points. */
module UnitReading {
  import opened Prelude
  import opened Arithmetic
  import opened RateSpec
  import opened StreamingRate
  import opened Grouping
  import opened Coverage
  import opened RowTracking
  import opened UnionSpec
  import opened UnionStaging

  /** Where a series can still emit: from grid index `m` on, given its rate has
      decided `n` grid points, and all its samples are `final`. */
  ghost predicate EmitsFrom(g: Grid, m: nat, n: nat, done: bool, final: seq<Sample>) {
    m == 0 || done || n >= m || (final != [] ==> g.Time(m - 1) <= final[0].ts)
  }

  /** All a rate emitted is on the grid, after the first sample. */
  ghost predicate AfterFirst(g: Grid, all: seq<Emission>, seen: seq<Sample>) {
    forall i :: 0 <= i < |all| ==> seen != [] && all[i].index < g.Count() && seen[0].ts < g.Time(all[i].index)
  }

  /** What a series' rate just emitted is at or after where it could emit. */
  lemma {:induction false} CanEmit(g: Grid, all: seq<Emission>, before: seq<Emission>, more: seq<Emission>,
                                   seen: seq<Sample>, final: seq<Sample>, m: nat, n: nat, done: bool)
    requires all == before + more && From(more, n) && seen <= final && (done ==> more == [])
    requires AfterFirst(g, all, seen) && EmitsFrom(g, m, n, done, final)
    ensures forall i :: 0 <= i < |more| ==> m <= more[i].index < g.Count()
  {
    forall i | 0 <= i < |more| ensures m <= more[i].index < g.Count() {
      assert all[|before| + i] == more[i];
      if more[i].index < m {
        TimeIsMonotone(g, more[i].index, m - 1);
      }
    }
  }

  /** `points_before`: the number of grid points before `t`. */
  function PointsBefore(g: Grid, t: u64): nat {
    if t <= g.start || g.step == 0 then 0
    else
      DivBounds(t - g.start + (g.step - 1), g.step);
      Prelude.Min((t - g.start + (g.step - 1)) / g.step, g.Len())
  }

  /** No more grid points are before a grid point's time than its index. */
  lemma {:induction false} PointsBeforeTime(g: Grid, t: u64, k: nat)
    requires t <= g.Time(k)
    ensures PointsBefore(g, t) <= k
  {
    if t > g.start && g.step > 0 {
      TimeIsLinear(g, k);
      var x := t - g.start + (g.step - 1);
      DivBounds(x, g.step);
      var q := x / g.step;
      if k < q {
        MulMonotone(k + 1, q, g.step);
        MulSum(k, 1, g.step);
      }
    }
  }

  /** The grid's points before a time are the first that many. */
  lemma {:induction false} PointsBeforeIs(g: Grid, t: u64, k: nat)
    requires k < g.Count()
    ensures k < PointsBefore(g, t) <==> g.Time(k) < t
  {
    LenIsCount(g);
    if g.Time(k) >= t {
      PointsBeforeTime(g, t, k);
    } else {
      TimeIsLinear(g, k);
      MulGrows(k, g.step);
      var x := t - g.start + (g.step - 1);
      DivBounds(x, g.step);
      if x / g.step <= k {
        MulMonotone(x / g.step + 1, k + 1, g.step);
        MulSum(k, 1, g.step);
      }
    }
  }

  lemma {:induction false} PointsBeforeCount(g: Grid, t: u64)
    ensures PointsBefore(g, t) <= g.Count()
  {
    LenIsCount(g);
  }

  lemma {:induction false} PrefixInOrder(seen: seq<Sample>, x: Sample, final: seq<Sample>)
    requires InOrder(final) && seen + [x] <= final
    ensures Follows(seen, x)
  {
    assert final[|seen|] == (seen + [x])[|seen|] == x;
    if seen != [] {
      assert final[|seen| - 1] == (seen + [x])[|seen| - 1] == seen[|seen| - 1];
    }
  }

  /** The points of a unit, read whole: of its members combined, or of its only
      member as they are. */
  ghost predicate UnitPoints(series: seq<Setup>, samples: seq<seq<Sample>>, combine: bool, window: u64,
                             intervals: seq<u64>, times: seq<set<u64>>, grid: Grid, points: seq<Emission>)
    requires |series| == |samples| == |intervals| == |times|
    requires forall k :: 0 <= k < |samples| ==> InOrder(samples[k])
  {
    if combine then
      exists rows: seq<seq<u64>> ::
        && |rows| == |series|
        && (forall k :: 0 <= k < |rows| ==> AreTimes(rows[k], times[k]))
        && points == Combined(WholeMembers(series, samples, rows, intervals), grid, Fixed(window), grid.Count())
    else |series| == 1 && points == Rate(series[0], samples[0])
  }

  /** A combined unit's members, read whole. */
  ghost function WholeMembers(series: seq<Setup>, samples: seq<seq<Sample>>, rows: seq<seq<u64>>, intervals: seq<u64>)
    : seq<Member>
    requires |series| == |samples| == |intervals| == |rows|
    requires forall k :: 0 <= k < |samples| ==> InOrder(samples[k])
  {
    seq(|series|, k requires 0 <= k < |series| => Member(Rate(series[k], samples[k]), rows[k], intervals[k]))
  }

  /** A unit's members in rank order: each one's rate and the first time read of it. */
  class UnitRead {
    const grid: Grid
    const combine: bool
    /** The read is a union's: every row passes a stage before the time range is checked. */
    const staged: bool
    const starts: seq<u64>
    const rates: seq<SeriesRate>
    const stage: StageUnit
    /** Each member's samples over the whole scan, within the times read. */
    ghost const final: seq<seq<Sample>>
    /** Every point of the unit so far. */
    ghost var out: seq<Emission>

    constructor (grid: Grid, combine: bool, staged: bool, starts: seq<u64>, rates: seq<SeriesRate>, stage: StageUnit,
                 ghost final: seq<seq<Sample>>)
      ensures this.grid == grid && this.combine == combine && this.starts == starts && this.rates == rates
      ensures this.staged == staged && this.stage == stage && this.final == final && out == []
    {
      this.grid, this.combine, this.staged, this.starts := grid, combine, staged, starts;
      this.rates, this.stage := rates, stage;
      this.final, out := final, [];
    }

    ghost predicate Shape()
      reads stage`emitted, stage`pending, stage`from
    {
      && grid.Valid() && stage.grid == grid && (combine ==> staged) && |rates| == |starts| == |final| && Distinct(rates)
      && (if combine then
            && |stage.tracks| == |rates| == |stage.emitted| == |stage.from| == |stage.pending|
            && Distinct(stage.tracks)
          else |rates| == 1)
      && (forall k :: 0 <= k < |rates| ==> rates[k].setup.grid == grid && InOrder(final[k]))
    }

    /** Member `k` emits nothing more before grid index `m`. */
    ghost predicate Emits(k: nat, m: nat)
      requires k < |rates| == |final|
      reads rates[k]
    {
      EmitsFrom(grid, m, rates[k].decided, rates[k].done, final[k])
    }

    /** Member `k`'s rate is of its samples so far; its points are in the stage. */
    ghost predicate MemberOk(k: nat)
      requires Shape() && k < |rates|
      reads rates[k], stage, stage.tracks
    {
      && rates[k].Valid() && rates[k].seen <= final[k] && (rates[k].endedEarly ==> rates[k].finished)
      && (combine ==>
            && rates[k].emitted == stage.emitted[k] && Emits(k, stage.from[k])
            && (stage.tracks[k].finished ==> rates[k].finished))
    }

    ghost predicate Valid()
      reads this, rates, stage, stage.tracks
    {
      && Shape() && (forall k :: 0 <= k < |rates| ==> MemberOk(k))
      && (if combine then stage.Valid() && out == stage.out else out == rates[0].emitted)
    }

    /** The unit gives no more points before grid index `m`. */
    ghost predicate Safe(m: nat)
      requires |rates| == |final|
      reads rates, stage`pending
    {
      && (forall k :: 0 <= k < |rates| ==> Emits(k, m))
      && (combine ==> forall k :: 0 <= k < |stage.pending| && stage.pending[k] != [] ==> m <= stage.pending[k][0].index)
    }

    /** A unit with nothing read yet. */
    lemma {:induction false} NewIsValid()
      requires Shape() && out == [] && (combine ==> stage.Valid() && stage.out == [])
      requires forall k :: 0 <= k < |rates| ==>
                 && rates[k].Valid() && rates[k].seen == [] && rates[k].emitted == [] && !rates[k].endedEarly
                 && (combine ==> stage.emitted[k] == stage.pending[k] == [] && stage.from[k] == 0
                                 && !stage.tracks[k].finished)
      ensures Valid() && Safe(0)
    {
      hide SeriesRate.Valid, StageUnit.Valid;
    }

    lemma {:induction false} DecidedEmits(k: nat, m: nat)
      requires k < |rates| == |final| && (rates[k].done || m <= rates[k].decided)
      ensures Emits(k, m)
    {
    }

    /** Member `k`'s rate emitted `more`, its next points: they are the unit's, or are
        held for its other members. */
    method Deliver(k: nat, more: seq<Emission>, ghost before: seq<Emission>, ghost bound: nat)
      returns (passed: seq<Emission>)
      requires Shape() && k < |rates| && Safe(bound)
      requires rates[k].Valid() && rates[k].seen <= final[k] && (rates[k].endedEarly ==> rates[k].finished)
      requires rates[k].emitted == before + more && Rising(rates[k].emitted)
      requires forall i :: 0 <= i < |more| ==> bound <= more[i].index < grid.Count()
      requires forall j :: 0 <= j < |rates| && j != k ==> MemberOk(j)
      requires combine ==>
                 && stage.Valid() && out == stage.out && before == stage.emitted[k] && Emits(k, stage.from[k])
                 && (stage.tracks[k].finished ==> rates[k].finished)
                 && (forall i :: 0 <= i < |more| ==> stage.from[k] <= more[i].index)
                 && (!rates[k].done ==> forall i :: 0 <= i < |more| ==> more[i].index < rates[k].decided)
      requires !combine ==> out == before
      modifies `out, stage`pending, stage`emitted, stage`from
      ensures Valid() && Safe(bound) && out == old(out) + passed
      ensures forall i :: 0 <= i < |passed| ==> bound <= passed[i].index < grid.Count()
    {
      hide SeriesRate.Valid, StageUnit.Valid, EmitsFrom;
      if !combine {
        passed := more;
        out := out + more;
        return;
      }
      passed := [];
      for i := 0 to |more|
        invariant Shape() && Safe(bound) && stage.Valid() && out == stage.out && out == old(out)
        invariant stage.emitted[k] == before + more[..i] && Emits(k, stage.from[k])
        invariant forall j :: i <= j < |more| ==> stage.from[k] <= more[j].index
        invariant forall j :: 0 <= j < |rates| && j != k ==> MemberOk(j)
      {
        assert (before + more)[|before| + i] == more[i];
        label Before:
        stage.Emit(k, more[i]);
        forall j | 0 <= j < |rates| && j != k ensures MemberOk(j) {
          assert old@Before(MemberOk(j));
        }
        assert more[..i + 1] == more[..i] + [more[i]];
        DecidedEmits(k, stage.from[k]);
        forall j | i + 1 <= j < |more| ensures stage.from[k] <= more[j].index {
          assert (before + more)[|before| + j] == more[j];
        }
      }
      assert more[..|more|] == more;
    }

    /** Member `k`'s next sample reaches its rate. */
    method Push(k: nat, x: Sample, ghost bound: nat) returns (passed: seq<Emission>)
      requires Valid() && Safe(bound) && k < |rates| && !rates[k].finished && rates[k].seen + [x] <= final[k]
      modifies `out, rates[k], stage`pending, stage`emitted, stage`from
      ensures Valid() && Safe(bound) && out == old(out) + passed
      ensures forall i :: 0 <= i < |passed| ==> bound <= passed[i].index < grid.Count()
      ensures rates[k].seen == old(rates[k].seen) + [x] && !rates[k].finished
      ensures rates[k].endedEarly == old(rates[k].endedEarly)
    {
      hide SeriesRate.Valid, StageUnit.Valid, Rising, From, EmitsFrom;
      ghost var before, n, wasDone := rates[k].emitted, rates[k].decided, rates[k].done;
      assert MemberOk(k) && Emits(k, bound);
      PrefixInOrder(rates[k].seen, x, final[k]);
      var more := rates[k].Push(x);
      forall j | 0 <= j < |rates| && j != k ensures MemberOk(j) && Emits(j, bound) {
        assert old(MemberOk(j)) && old(Emits(j, bound));
      }
      RateEmitted(k, before, more, bound, n, wasDone);
      passed := Deliver(k, more, before, bound);
    }

    /** Evaluate the rest of member `k`, as if no more samples came. */
    method End(k: nat, early: bool, ghost bound: nat) returns (passed: seq<Emission>)
      requires Valid() && Safe(bound) && k < |rates|
      modifies `out, rates[k], stage`pending, stage`emitted, stage`from
      ensures Valid() && Safe(bound) && out == old(out) + passed
      ensures forall i :: 0 <= i < |passed| ==> bound <= passed[i].index < grid.Count()
      ensures rates[k].seen == old(rates[k].seen) && rates[k].finished
      ensures rates[k].endedEarly == (early || old(rates[k].endedEarly))
    {
      hide SeriesRate.Valid, StageUnit.Valid, Rising, From, EmitsFrom;
      ghost var before, n, wasDone := rates[k].emitted, rates[k].decided, rates[k].done;
      assert MemberOk(k) && Emits(k, bound);
      var more;
      if early {
        more := rates[k].EndEarly();
      } else {
        more := rates[k].Finish();
      }
      forall j | 0 <= j < |rates| && j != k ensures MemberOk(j) && Emits(j, bound) {
        assert old(MemberOk(j)) && old(Emits(j, bound));
      }
      RateEmitted(k, before, more, bound, n, wasDone);
      passed := Deliver(k, more, before, bound);
    }

    /** Member `k`'s rows, when they are tracked. */
    function TrackOf(k: nat): set<RowTrack> {
      if combine && k < |stage.tracks| then {stage.tracks[k]} else {}
    }

    predicate InRange(k: nat, x: Sample)
      requires k < |starts|
    {
      starts[k] <= x.ts <= grid.end
    }

    /** Member `k`'s next row: its coverage takes it, and, within the times read, its
        rate. A row of a member ended early is not taken: it has `resumed`. */
    method Take(k: nat, x: Sample, ghost bound: nat) returns (passed: seq<Emission>, resumed: bool)
      requires Valid() && Safe(bound) && k < |rates|
      requires !rates[k].endedEarly ==>
                 && !rates[k].finished && (InRange(k, x) ==> rates[k].seen + [x] <= final[k])
                 && (combine ==> stage.tracks[k].all != [] ==> stage.tracks[k].all[|stage.tracks[k].all| - 1] <= x.ts)
      modifies `out, rates[k], stage`pending, stage`emitted, stage`from, TrackOf(k)
      ensures Valid() && Safe(bound) && out == old(out) + passed
      ensures forall i :: 0 <= i < |passed| ==> bound <= passed[i].index < grid.Count()
      ensures rates[k].endedEarly == old(rates[k].endedEarly) && rates[k].finished == old(rates[k].finished)
      ensures resumed == (rates[k].endedEarly && (staged || InRange(k, x)))
      ensures rates[k].seen == old(rates[k].seen) + (if !rates[k].endedEarly && InRange(k, x) then [x] else [])
      ensures combine && !rates[k].endedEarly ==>
                && stage.tracks[k].offered == old(stage.tracks[k].offered) + {x.ts}
                && stage.tracks[k].all != [] && stage.tracks[k].all[|stage.tracks[k].all| - 1] == x.ts
      ensures combine && rates[k].endedEarly ==> resumed && unchanged(stage.tracks[k])
    {
      hide SeriesRate.Valid, StageUnit.Valid, RowTrack.Valid, EmitsFrom;
      passed, resumed := [], false;
      assert MemberOk(k);
      if staged && rates[k].endedEarly {
        return [], true;
      }
      if combine {
        stage.Row(k, x.ts);
        forall j | 0 <= j < |rates| ensures MemberOk(j) {
          assert old(MemberOk(j));
        }
      }
      if x.ts < starts[k] || grid.end < x.ts {
        return;
      }
      if rates[k].endedEarly {
        return [], true;
      }
      passed := Push(k, x, bound);
    }

    /** Member `k` has no more rows, or is taken to have none. */
    method EndMember(k: nat, early: bool, ghost bound: nat) returns (passed: seq<Emission>)
      requires Valid() && Safe(bound) && k < |rates|
      modifies `out, rates[k], stage`pending, stage`emitted, stage`from, TrackOf(k)
      ensures Valid() && Safe(bound) && out == old(out) + passed
      ensures forall i :: 0 <= i < |passed| ==> bound <= passed[i].index < grid.Count()
      ensures rates[k].seen == old(rates[k].seen) && rates[k].finished
      ensures rates[k].endedEarly == (early || old(rates[k].endedEarly))
      ensures combine ==> stage.tracks[k].finished && stage.tracks[k].offered == old(stage.tracks[k].offered)
    {
      hide SeriesRate.Valid, StageUnit.Valid, RowTrack.Valid, EmitsFrom, AreTimes;
      passed := End(k, early, bound);
      if combine {
        label Before:
        stage.EndMember(k);
        forall j | 0 <= j < |rates| ensures MemberOk(j) {
          assert old@Before(MemberOk(j));
        }
      }
    }

    /** The stage's bounds raised to where the members' rates can emit. */
    ghost method RaiseBounds(bound: nat) returns (later: seq<nat>)
      requires Valid() && Safe(bound) && combine
      modifies stage`from
      ensures Valid() && Safe(bound) && stage.NothingBefore(bound)
      ensures |later| == |rates|
      ensures forall k :: 0 <= k < |rates| ==>
                && stage.from[k] <= later[k] && Emits(k, later[k]) && Promises(rates[k].Pending(), grid, later[k])
    {
      hide SeriesRate.Valid, StageUnit.Valid, EmitsFrom, Promises;
      var from := stage.from;
      var raised := seq(|from|, k requires 0 <= k < |from| => Prelude.Max(from[k], bound));
      stage.Promise(raised, 0);
      forall k | 0 <= k < |rates| ensures MemberOk(k) {
        assert old(MemberOk(k)) && old(Emits(k, bound));
      }
      later := LaterBounds();
    }

    /** Where each member's rate can emit from, by its pending point. */
    ghost method LaterBounds() returns (later: seq<nat>)
      requires Valid() && combine
      ensures |later| == |rates|
      ensures forall k :: 0 <= k < |rates| ==>
                && stage.from[k] <= later[k] && Emits(k, later[k]) && Promises(rates[k].Pending(), grid, later[k])
    {
      hide SeriesRate.Valid, StageUnit.Valid, EmitsFrom, Promises;
      later := [];
      for k := 0 to |rates|
        invariant |later| == k
        invariant forall j :: 0 <= j < k ==>
                    && stage.from[j] <= later[j] && Emits(j, later[j]) && Promises(rates[j].Pending(), grid, later[j])
      {
        assert MemberOk(k);
        PendingPromises(k);
        var n := if rates[k].done then grid.Count() else rates[k].decided;
        DecidedEmits(k, n);
        later := later + [Prelude.Max(stage.from[k], n)];
      }
    }

    /** A rate's pending point promises nothing before it. */
    lemma {:induction false} PendingPromises(k: nat)
      requires Shape() && k < |rates| && rates[k].Valid()
      ensures forall m: nat :: m >= (if rates[k].done then grid.Count() else rates[k].decided) ==>
                Promises(rates[k].Pending(), grid, m)
    {
      hide SeriesRate.Valid;
      rates[k].NextPoint();
      if !rates[k].done {
        forall m: nat | m >= rates[k].decided ensures Promises(rates[k].Pending(), grid, m) {
          TimeIsMonotone(grid, rates[k].decided, m);
        }
      }
    }

    /** Each member's pending point. */
    ghost function PendingList(): (pendings: seq<Option<u64>>)
      reads rates
      ensures |pendings| == |rates| && forall k :: 0 <= k < |rates| ==> pendings[k] == rates[k].Pending()
    {
      seq(|rates|, k requires 0 <= k < |rates| reads rates => rates[k].Pending())
    }

    method Pendings() returns (pendings: seq<Option<u64>>)
      ensures pendings == PendingList()
    {
      pendings := [];
      for k := 0 to |rates|
        invariant |pendings| == k && forall j :: 0 <= j < k ==> pendings[j] == rates[j].Pending()
      {
        pendings := pendings + [rates[k].Pending()];
      }
    }

    /** No held point of the unit can be answered yet. */
    ghost predicate Settled()
      reads rates, stage, stage.tracks
    {
      |stage.tracks| == |rates| && stage.Queues() && stage.Tracked() && stage.Answered(PendingList())
    }

    /** Every held point that can be answered is the unit's. */
    method Settle(ghost bound: nat) returns (passed: seq<Emission>)
      requires Valid() && Safe(bound) && combine
      modifies `out, stage`pending, stage`settled, stage`out, stage`from, stage.tracks`runs, stage.tracks`dropped,
               stage.tracks`floor
      ensures Valid() && Safe(bound) && out == old(out) + passed && Settled()
      ensures forall i :: 0 <= i < |passed| ==> bound <= passed[i].index < grid.Count()
    {
      hide SeriesRate.Valid, StageUnit.Valid, EmitsFrom, Promises, RowTrack.Valid, StageUnit.Answered, StageUnit.Queues,
        StageUnit.Tracked;
      var pendings := Pendings();
      ghost var later := RaiseBounds(bound);
      passed := SettleStage(pendings, later, bound);
    }

    method SettleStage(pendings: seq<Option<u64>>, ghost later: seq<nat>, ghost bound: nat) returns (passed: seq<Emission>)
      requires Valid() && combine && |pendings| == |later| == |rates| && stage.NothingBefore(bound)
      requires forall k :: 0 <= k < |rates| ==>
                 stage.from[k] <= later[k] && Emits(k, later[k]) && Promises(pendings[k], grid, later[k])
      modifies `out, stage`pending, stage`settled, stage`out, stage`from, stage.tracks`runs, stage.tracks`dropped,
               stage.tracks`floor
      ensures Valid() && stage.NothingBefore(bound) && out == old(out) + passed
      ensures stage.Queues() && stage.Tracked() && stage.Answered(pendings)
      ensures forall i :: 0 <= i < |passed| ==> bound <= passed[i].index < grid.Count()
    {
      hide SeriesRate.Valid, EmitsFrom, Promises, RowTrack.Valid, StageUnit.Answered, StageUnit.Queues, StageUnit.Tracked;
      passed := stage.Settle(pendings, later, bound);
      forall k | 0 <= k < |rates| ensures MemberOk(k) {
        assert old(MemberOk(k)) && old(Emits(k, later[k]));
      }
      out := out + passed;
    }

    /** No more rows of any member: what is held is the unit's, and its points are
        those of its members read whole. */
    method Finish(ghost series: seq<Setup>, ghost window: u64, ghost intervals: seq<u64>, ghost times: seq<set<u64>>,
                  ghost bound: nat)
      returns (passed: seq<Emission>)
      requires Valid() && Safe(bound) && Known(series, window, intervals, times)
      requires forall k :: 0 <= k < |rates| ==> rates[k].finished && rates[k].seen == final[k]
      modifies `out, stage`pending, stage`settled, stage`out, stage`from, stage.tracks
      ensures out == old(out) + passed && Rising(out)
      ensures forall i :: 0 <= i < |passed| ==> bound <= passed[i].index < grid.Count()
      ensures UnitPoints(series, final, combine, window, intervals, times, grid, out)
    {
      hide SeriesRate.Valid, StageUnit.Valid, EmitsFrom, Promises, RowTrack.Valid, Rate, Combined, AreTimes;
      forall k | 0 <= k < |rates|
        ensures rates[k].emitted == Rate(series[k], final[k])
        ensures combine ==> stage.emitted[k] == Rate(series[k], final[k])
      {
        assert MemberOk(k);
        rates[k].FinishedIsRate();
      }
      passed := [];
      OutRises();
      if combine {
        ghost var later := RaiseBounds(bound);
        passed := stage.Finish(bound);
        stage.OutRises();
        out := out + passed;
        ghost var rows := seq(|rates|, k requires 0 <= k < |rates| reads stage.tracks => stage.tracks[k].all);
        WholeMembersAre(series, rows, intervals);
      }
    }

    /** What the unit was made with. */
    ghost predicate Known(series: seq<Setup>, window: u64, intervals: seq<u64>, times: seq<set<u64>>)
      reads stage.tracks
    {
      && |series| == |intervals| == |times| == |rates| == |final|
      && (forall k :: 0 <= k < |rates| ==> rates[k].setup == series[k])
      && (forall k :: 0 <= k < |rates| ==> InOrder(final[k]))
      && (combine ==>
            && stage.window == window && |stage.tracks| == |rates|
            && forall k :: 0 <= k < |rates| ==>
                 stage.tracks[k].interval == intervals[k] && stage.tracks[k].offered == times[k])
    }

    lemma {:induction false} WholeMembersAre(series: seq<Setup>, rows: seq<seq<u64>>, intervals: seq<u64>)
      requires |series| == |intervals| == |rows| == |rates| == |final| == |stage.tracks| == |stage.emitted|
      requires forall k :: 0 <= k < |rates| ==> InOrder(final[k])
      requires forall k :: 0 <= k < |rates| ==>
                 && stage.emitted[k] == Rate(series[k], final[k]) && rows[k] == stage.tracks[k].all
                 && stage.tracks[k].interval == intervals[k]
      ensures stage.Members() == WholeMembers(series, final, rows, intervals)
    {
      hide Rate;
    }

    /** The unit's points are in grid order. */
    lemma {:induction false} OutRises()
      requires Valid()
      ensures Rising(out)
    {
      hide SeriesRate.Valid, StageUnit.Valid, EmitsFrom;
      if combine {
        stage.OutRises();
      } else {
        assert MemberOk(0);
        rates[0].EmittedRise();
      }
    }

    // ----- How far the unit's points are settled

    /** Member `k` emits nothing more before time `t`. */
    ghost predicate Bounded(k: nat, t: u64)
      requires k < |rates| == |final|
      reads rates[k]
    {
      rates[k].done || t <= grid.Time(rates[k].decided) || (final[k] != [] ==> t <= final[k][0].ts)
    }

    /** `earliest_point`: the earliest grid point member `k` can still emit when every
        sample to come is at or after `w`. */
    function EarliestPoint(k: nat, w: u64): Option<u64>
      requires k < |rates|
      reads rates[k]
    {
      if rates[k].LastTs().None? then Some(SatSub(w, SatAdd(grid.span, grid.step))) else rates[k].Pending()
    }

    /** In grid points: the first undecided one; or, before the first sample, a span and a
        step before the bound. */
    lemma {:induction false} EarliestPointIs(k: nat, w: u64)
      requires Valid() && k < |rates| && !rates[k].done
      ensures rates[k].seen != [] ==> EarliestPoint(k, w) == Some(grid.Time(rates[k].decided))
      ensures rates[k].seen == [] ==>
                EarliestPoint(k, w) == Some(if w <= grid.span + grid.step then 0 else w - grid.span - grid.step)
    {
      hide SeriesRate.Valid, StageUnit.Valid, EmitsFrom;
      assert MemberOk(k);
      rates[k].NextPoint();
      rates[k].SaysOfSamples();
    }

    lemma {:induction false} EarliestBounds(k: nat, w: u64, rest: seq<Sample>)
      requires Valid() && k < |rates| && final[k] == rates[k].seen + rest
      requires rest != [] ==> rest[0].ts >= w
      ensures EarliestPoint(k, w).Some? ==> Bounded(k, EarliestPoint(k, w).value)
      ensures EarliestPoint(k, w).None? ==> rates[k].done
    {
      hide SeriesRate.Valid, StageUnit.Valid, EmitsFrom;
      assert MemberOk(k);
      rates[k].NextPoint();
      if rates[k].LastTs().None? && !rates[k].done {
        assert final[k] == rest;
      }
    }

    /** The earliest point the unit holds, if it holds any. */
    method HeldNs() returns (t: Option<u64>)
      requires Valid()
      ensures t.Some? ==> Holds(t.value)
      ensures combine && t.None? ==> forall k :: 0 <= k < |stage.pending| ==> stage.pending[k] == []
      ensures combine && t.Some? ==>
                forall k :: 0 <= k < |stage.pending| && stage.pending[k] != [] ==> t.value <= grid.Time(stage.pending[k][0].index)
    {
      hide SeriesRate.Valid, EmitsFrom, RowTrack.Valid;
      t := None;
      if combine {
        t := stage.HeldNs();
      }
    }

    /** The unit holds a point at time `t`. */
    ghost predicate Holds(t: u64)
      reads stage`pending
    {
      combine && exists k :: 0 <= k < |stage.pending| && stage.pending[k] != [] && grid.Time(stage.pending[k][0].index) == t
    }

    /** Nothing the unit holds is before time `t`. */
    ghost predicate HeldFrom(t: u64)
      reads stage`pending
    {
      combine ==>
        forall k :: 0 <= k < |stage.pending| && stage.pending[k] != [] ==> t <= grid.Time(stage.pending[k][0].index)
    }

    /** With nothing to come or held before `t`, the unit gives no more points among
        the grid points before `t`. */
    lemma {:induction false} BoundedIsSafe(t: u64, m: nat)
      requires |rates| == |final| && m <= PointsBefore(grid, t) && HeldFrom(t)
      requires forall k :: 0 <= k < |rates| ==> Bounded(k, t)
      ensures Safe(m)
    {
      hide PointsBefore;
      forall k | 0 <= k < |rates| ensures Emits(k, m) {
        assert Bounded(k, t);
        if m > 0 && !rates[k].done && final[k] != [] {
          if t <= grid.Time(rates[k].decided) {
            PointsBeforeTime(grid, t, rates[k].decided);
          } else if t <= grid.Time(m - 1) {
            PointsBeforeTime(grid, t, m - 1);
          }
        }
      }
      if combine {
        forall k | 0 <= k < |stage.pending| && stage.pending[k] != [] ensures m <= stage.pending[k][0].index {
          PointsBeforeTime(grid, t, stage.pending[k][0].index);
        }
      }
    }

    lemma {:induction false} StillEmits(k: nat, m: nat, n: nat, wasDone: bool)
      requires k < |rates| == |final| && n <= rates[k].decided && (wasDone ==> rates[k].done)
      requires EmitsFrom(grid, m, n, wasDone, final[k])
      ensures Emits(k, m)
    {
    }

    /** What member `k`'s rate just emitted is where it could be. */
    lemma {:induction false} RateEmitted(k: nat, before: seq<Emission>, more: seq<Emission>, bound: nat, n: nat,
                                         wasDone: bool)
      requires Shape() && k < |rates| && rates[k].Valid() && rates[k].seen <= final[k]
      requires rates[k].emitted == before + more && From(more, n) && (wasDone ==> more == [] && rates[k].done)
      requires n <= rates[k].decided && EmitsFrom(grid, bound, n, wasDone, final[k])
      requires combine ==> EmitsFrom(grid, stage.from[k], n, wasDone, final[k])
      ensures Rising(rates[k].emitted) && Emits(k, bound)
      ensures forall i :: 0 <= i < |more| ==> bound <= more[i].index < grid.Count()
      ensures combine ==> Emits(k, stage.from[k]) && forall i :: 0 <= i < |more| ==> stage.from[k] <= more[i].index
      ensures !rates[k].done ==> forall i :: 0 <= i < |more| ==> more[i].index < rates[k].decided
    {
      hide SeriesRate.Valid, Rising, From, EmitsFrom;
      rates[k].EmittedRise();
      assert AfterFirst(grid, rates[k].emitted, rates[k].seen);
      hide AfterFirst;
      CanEmit(grid, rates[k].emitted, before, more, rates[k].seen, final[k], bound, n, wasDone);
      if combine {
        CanEmit(grid, rates[k].emitted, before, more, rates[k].seen, final[k], stage.from[k], n, wasDone);
        StillEmits(k, stage.from[k], n, wasDone);
      }
      StillEmits(k, bound, n, wasDone);
      if !rates[k].done {
        rates[k].EmittedBefore();
        forall i | 0 <= i < |more| ensures more[i].index < rates[k].decided {
          assert rates[k].emitted[|before| + i] == more[i];
        }
      }
    }
  }
}
