/** The runs of a member's rows without a hole, and the time a run holds: the
    reference the streaming `RowTrack` is proved against. */
module Coverage {
  import opened Prelude
  import opened RateSpec

  /** How many gaps on either side of a gap its hole is decided by. */
  const SIDE: nat := 8

  /** A run's first and last row. */
  type Run = (u64, u64)

  ghost predicate Increasing(ts: seq<u64>) {
    forall i, j :: 0 <= i < j < |ts| ==> ts[i] < ts[j]
  }

  /** Gap `k`, between rows `k` and `k + 1`. */
  function Gap(ts: seq<u64>, k: nat): int
    requires k + 1 < |ts|
  {
    (ts[k + 1] as int) - (ts[k] as int)
  }

  /** Gaps `from` up to `to`. */
  function GapsIn(ts: seq<u64>, from: nat, to: nat): (gaps: seq<int>)
    requires from <= to && (from < to ==> to < |ts|)
    ensures |gaps| == to - from
  {
    seq(to - from, i requires 0 <= i < to - from => Gap(ts, from + i))
  }

  function GapsBefore(ts: seq<u64>, k: nat): seq<int>
    requires k + 1 < |ts|
  {
    GapsIn(ts, Prelude.Max(0, k - SIDE), k)
  }

  function GapsAfter(ts: seq<u64>, k: nat): seq<int>
    requires k + 1 < |ts|
  {
    GapsIn(ts, k + 1, Prelude.Min(k + 1 + SIDE, |ts| - 1))
  }

  function MedianOf(gaps: seq<int>): Option<int> {
    if gaps == [] then None else Some(MedianOr(gaps, 0))
  }

  function Larger(a: Option<int>, b: Option<int>): Option<int> {
    if a.None? then b else if b.None? then a else Some(Prelude.Max(a.value, b.value))
  }

  /** `g.saturating_mul(2)`. */
  function Twice(g: int): int {
    Prelude.Min(g + g, U64_MAX)
  }

  predicate MoreThanTwice(gap: int, typical: Option<int>) {
    typical.Some? && gap > Twice(typical.value)
  }

  /** Gap `k` is a hole: more than twice the median of its neighbours before it, and of those
      after it, of which there are at most eight each. */
  predicate Hole(ts: seq<u64>, k: nat)
    requires k + 1 < |ts|
  {
    MoreThanTwice(Gap(ts, k), Larger(MedianOf(GapsBefore(ts, k)), MedianOf(GapsAfter(ts, k))))
  }

  /** The runs of rows 0 to `n`, the gaps decided by all the rows there are. */
  function RunsTo(ts: seq<u64>, n: nat): (runs: seq<Run>)
    requires n < |ts|
    ensures runs != []
  {
    if n == 0 then [(ts[0], ts[0])]
    else NextRuns(RunsTo(ts, n - 1), ts[n], Hole(ts, n - 1))
  }

  /** The runs with one more row: it starts a run, or joins the last. */
  function NextRuns(runs: seq<Run>, row: u64, hole: bool): (r: seq<Run>)
    requires runs != []
    ensures r != []
  {
    var last := |runs| - 1;
    if hole then runs + [(row, row)] else runs[last := (runs[last].0, row)]
  }

  function Runs(ts: seq<u64>): seq<Run> {
    if ts == [] then [] else RunsTo(ts, |ts| - 1)
  }

  /** The number of leading runs that start at or before `t`. */
  function Started(runs: seq<Run>, t: u64): (n: nat)
    ensures n <= |runs|
  {
    if runs == [] || t < runs[0].0 then 0 else 1 + Started(runs[1..], t)
  }

  /** The last run begun by `t`, if `t` is not more than an interval after its end. */
  function RunAt(runs: seq<Run>, interval: u64, t: u64): Option<Run> {
    var n := Started(runs, t);
    if n > 0 && t <= SatAdd(runs[n - 1].1, interval) then Some(runs[n - 1]) else None
  }

  predicate Holds(runs: seq<Run>, interval: u64, t: u64) {
    RunAt(runs, interval, t).Some?
  }

  /** One run holds all of `[t - window, t]`. */
  predicate Covers(runs: seq<Run>, interval: u64, t: u64, window: u64) {
    var run := RunAt(runs, interval, t);
    run.Some? && t >= window && t - window >= run.value.0
  }

  // ----- Deciding a gap without medians

  /** A gap within twice a lower bound of either side's gaps is no hole. */
  lemma {:induction false} NoHole(ts: seq<u64>, k: nat, side: seq<int>, low: int)
    requires k + 1 < |ts| && side != []
    requires side == GapsBefore(ts, k) || side == GapsAfter(ts, k)
    requires forall g :: g in side ==> low <= g
    requires Gap(ts, k) <= Twice(low)
    ensures !Hole(ts, k)
  {
    hide MedianOr, GapsBefore, GapsAfter;
    assert MedianOr(side, 0) in side;
  }

  lemma {:induction false} GapsAgree(ts: seq<u64>, all: seq<u64>, from: nat, to: nat)
    requires ts <= all && from <= to && (from < to ==> to < |ts|)
    ensures GapsIn(ts, from, to) == GapsIn(all, from, to)
  {
    forall i | 0 <= i < to - from ensures GapsIn(ts, from, to)[i] == GapsIn(all, from, to)[i] {
      assert Gap(ts, from + i) == Gap(all, from + i);
    }
  }

  /** A gap is decided by the eight gaps after it, whatever rows follow. */
  lemma {:induction false} HoleIsDecided(ts: seq<u64>, all: seq<u64>, k: nat)
    requires ts <= all && k + 1 < |ts|
    requires |ts| == |all| || k + 1 + SIDE < |ts|
    ensures Hole(ts, k) == Hole(all, k)
  {
    hide MedianOf;
    GapsAgree(ts, all, Prelude.Max(0, k - SIDE), k);
    GapsAgree(ts, all, k + 1, Prelude.Min(k + 1 + SIDE, |ts| - 1));
  }

  lemma {:induction false} RunsAreDecided(ts: seq<u64>, all: seq<u64>, n: nat)
    requires ts <= all && n < |ts|
    requires |ts| == |all| || n == 0 || n + SIDE < |ts|
    ensures RunsTo(ts, n) == RunsTo(all, n)
  {
    hide Hole;
    if n > 0 {
      HoleIsDecided(ts, all, n - 1);
      RunsAreDecided(ts, all, n - 1);
    }
  }

  // ----- The shape of runs

  /** The runs are apart, in time order. */
  ghost predicate Apart(runs: seq<Run>) {
    && (forall i :: 0 <= i < |runs| ==> runs[i].0 <= runs[i].1)
    && (forall i, j :: 0 <= i < j < |runs| ==> runs[i].1 < runs[j].0)
  }

  lemma {:induction false} NextIsApart(runs: seq<Run>, row: u64, hole: bool)
    requires runs != [] && Apart(runs) && runs[|runs| - 1].1 < row
    ensures Apart(NextRuns(runs, row, hole))
    ensures var r := NextRuns(runs, row, hole); r[|r| - 1].1 == row
  {
    var r := NextRuns(runs, row, hole);
    forall i, j | 0 <= i < j < |r| ensures r[i].1 < r[j].0 {
      if i < |runs| - 1 && j == |runs| {
        assert runs[i].1 < runs[|runs| - 1].0;
      }
    }
  }

  lemma {:induction false} RunsAreApart(ts: seq<u64>, n: nat)
    requires Increasing(ts) && n < |ts|
    ensures var runs := RunsTo(ts, n); Apart(runs) && runs[|runs| - 1].1 == ts[n]
  {
    hide Hole;
    if n > 0 {
      RunsAreApart(ts, n - 1);
      NextIsApart(RunsTo(ts, n - 1), ts[n], Hole(ts, n - 1));
    }
  }

  /** `later` has the runs of `runs`, the last maybe longer, and maybe more. */
  ghost predicate Grown(runs: seq<Run>, later: seq<Run>) {
    var last := |runs| - 1;
    && 0 <= last < |later|
    && (forall i :: 0 <= i < last ==> runs[i] == later[i])
    && runs[last].0 == later[last].0 && runs[last].1 <= later[last].1
    && (last + 1 < |later| ==> runs[last].1 < later[last + 1].0)
  }

  lemma {:induction false} NextIsGrown(runs: seq<Run>, later: seq<Run>, row: u64, hole: bool)
    requires Grown(runs, later) && Apart(later) && later[|later| - 1].1 < row
    ensures Grown(runs, NextRuns(later, row, hole))
  {
  }

  lemma {:induction false} RunsGrow(ts: seq<u64>, n: nat, m: nat)
    requires Increasing(ts) && n <= m < |ts|
    ensures Grown(RunsTo(ts, n), RunsTo(ts, m))
  {
    hide Hole, Apart, Grown, NextRuns;
    if n < m {
      RunsGrow(ts, n, m - 1);
      RunsAreApart(ts, m - 1);
      NextIsGrown(RunsTo(ts, n), RunsTo(ts, m - 1), ts[m], Hole(ts, m - 1));
    } else {
      IsGrown(RunsTo(ts, n));
    }
  }

  lemma {:induction false} IsGrown(runs: seq<Run>)
    requires runs != []
    ensures Grown(runs, runs)
  {
  }

  // ----- Answers before the runs are whole

  lemma {:induction false} StartedIs(runs: seq<Run>, t: u64, n: nat)
    requires Apart(runs) && n <= |runs|
    requires n > 0 ==> runs[n - 1].0 <= t
    requires n < |runs| ==> t < runs[n].0
    ensures Started(runs, t) == n
  {
    if n > 0 {
      assert runs[0].0 <= runs[n - 1].0;
      StartedIs(runs[1..], t, n - 1);
    }
  }

  lemma {:induction false} StartedSplits(runs: seq<Run>, t: u64)
    ensures var n := Started(runs, t);
            (n > 0 ==> runs[n - 1].0 <= t) && (n < |runs| ==> t < runs[n].0)
  {
    if runs != [] && runs[0].0 <= t {
      StartedSplits(runs[1..], t);
    }
  }

  /** The first `dropped` runs are ones no answer at or after `floor` reads. */
  ghost predicate Forgettable(runs: seq<Run>, dropped: nat, floor: u64) {
    dropped > 0 ==> dropped < |runs| && runs[dropped].0 <= floor
  }

  /** At `t`, no run after those there are has started, and of those forgotten the
      next has. */
  lemma {:induction false} StartedBounds(runs: seq<Run>, later: seq<Run>, dropped: nat, floor: u64, t: u64)
    requires Apart(runs) && Apart(later) && Grown(runs, later)
    requires Forgettable(runs, dropped, floor) && floor <= t
    requires runs == later || t < runs[|runs| - 1].1
    ensures var n := Started(later, t);
            dropped <= n <= |runs| && (dropped == n ==> n == 0) && (n < |runs| ==> t < runs[n].0)
  {
    StartedSplits(later, t);
    StartsRise(later);
  }

  lemma {:induction false} StartsRise(runs: seq<Run>)
    requires Apart(runs)
    ensures forall i, j :: 0 <= i <= j < |runs| ==> runs[i].0 <= runs[j].0
  {
  }

  lemma {:induction false} TailIsApart(runs: seq<Run>, n: nat)
    requires Apart(runs) && n <= |runs|
    ensures Apart(runs[n..])
  {
  }

  /** Of the runs kept, as many have started at `t` as of all the runs. */
  lemma {:induction false} StartedIsFinal(runs: seq<Run>, later: seq<Run>, dropped: nat, floor: u64, t: u64)
    requires Apart(runs) && Apart(later) && Grown(runs, later)
    requires Forgettable(runs, dropped, floor) && floor <= t
    requires runs == later || t < runs[|runs| - 1].1
    ensures var n := Started(later, t);
            && dropped <= n <= |runs| && (dropped == n ==> n == 0)
            && Started(runs[dropped..], t) == n - dropped
  {
    hide Started, Apart;
    StartedBounds(runs, later, dropped, floor, t);
    StartedSplits(later, t);
    var n := Started(later, t);
    TailIsApart(runs, dropped);
    assert n > dropped ==> runs[dropped..][n - dropped - 1] == runs[n - 1];
    StartedIs(runs[dropped..], t, n - dropped);
  }

  /** The run kept that holds `t` is the one of all the runs that does, so far. */
  lemma {:induction false} RunIsFinal(runs: seq<Run>, later: seq<Run>, dropped: nat, floor: u64, interval: u64, t: u64)
    requires Apart(runs) && Apart(later) && Grown(runs, later)
    requires Forgettable(runs, dropped, floor) && floor <= t
    requires runs == later || t < runs[|runs| - 1].1
    ensures var now, whole := RunAt(runs[dropped..], interval, t), RunAt(later, interval, t);
            now.Some? == whole.Some? && (now.Some? ==> now.value.0 == whole.value.0)
  {
    hide Apart, Started;
    StartedIsFinal(runs, later, dropped, floor, t);
    var n := Started(later, t);
    if n > 0 {
      assert runs[dropped..][n - dropped - 1] == runs[n - 1];
    }
  }

  /** The answers at `t` by the runs kept are the answers by all the runs, once `t`
      is before the last row decided. */
  lemma {:induction false} AnswerIsFinal(runs: seq<Run>, later: seq<Run>, dropped: nat, floor: u64, interval: u64,
                                         t: u64, window: u64)
    requires Apart(runs) && Apart(later) && Grown(runs, later)
    requires Forgettable(runs, dropped, floor) && floor <= t
    requires runs == later || t < runs[|runs| - 1].1
    ensures Holds(runs[dropped..], interval, t) == Holds(later, interval, t)
    ensures Covers(runs[dropped..], interval, t, window) == Covers(later, interval, t, window)
  {
    hide RunAt, Apart, Grown;
    RunIsFinal(runs, later, dropped, floor, interval, t);
  }
}
