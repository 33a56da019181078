/** What coverage is, said of the rows and the gaps between them. */
module CoverageMeaning {
  import opened Prelude
  import opened Sorting
  import opened RateSpec
  import opened Coverage
  import opened RateMeaning

  // ----- Holes

  function Spacing(ts: seq<u64>, from: nat, to: nat): (gaps: seq<int>)
    requires from <= to && (from < to ==> to < |ts|)
  {
    seq(to - from, i requires 0 <= i < to - from => (ts[from + i + 1] as int) - (ts[from + i] as int))
  }

  /** How many of the gaps from `from` up to `to` are less than half of `gap`. */
  function SmallGaps(ts: seq<u64>, from: nat, to: nat, gap: int): nat
    requires from <= to && (from < to ==> to < |ts|)
  {
    HowMany(Spacing(ts, from, to), (g: int) => 2 * g < gap)
  }

  lemma {:induction false} SmallIsAtMost(gaps: seq<int>, gap: int)
    ensures HowMany(gaps, (g: int) => 2 * g < gap) == AtMost(gaps, (gap - 1) / 2)
  {
    if gaps != [] {
      var n := |gaps| - 1;
      SmallIsAtMost(gaps[..n], gap);
    }
  }

  lemma {:induction false} MedianIsSmall(ts: seq<u64>, from: nat, to: nat, gap: int)
    requires from < to < |ts| && Increasing(ts) && gap <= U64_MAX
    ensures gap > Twice(MedianOr(GapsIn(ts, from, to), 0)) <==> 2 * SmallGaps(ts, from, to, gap) > to - from
  {
    hide MedianOr, HowMany;
    var gaps := GapsIn(ts, from, to);
    forall i | 0 <= i < to - from ensures gaps[i] == Spacing(ts, from, to)[i] {
      assert gaps[i] == Gap(ts, from + i);
    }
    assert gaps == Spacing(ts, from, to);
    MedianIs(gaps, 0, (gap - 1) / 2);
    SmallIsAtMost(gaps, gap);
  }

  /** A gap is a hole when there is another gap next to it, and on each side more than half
      of the up to eight next to it there are less than half as long. */
  lemma {:induction false} HoleIs(ts: seq<u64>, k: nat)
    requires Increasing(ts) && k + 1 < |ts|
    ensures var gap := ts[k + 1] - ts[k];
            var from, to := (if k < 8 then 0 else k - 8), (if k + 9 < |ts| - 1 then k + 9 else |ts| - 1);
            Hole(ts, k) <==>
              && |ts| > 2
              && (from < k ==> 2 * SmallGaps(ts, from, k, gap) > k - from)
              && (k + 1 < to ==> 2 * SmallGaps(ts, k + 1, to, gap) > to - (k + 1))
  {
    hide MedianOr, SmallGaps;
    var gap := ts[k + 1] - ts[k];
    var from, to := (if k < 8 then 0 else k - 8), (if k + 9 < |ts| - 1 then k + 9 else |ts| - 1);
    assert GapsBefore(ts, k) == GapsIn(ts, from, k) && GapsAfter(ts, k) == GapsIn(ts, k + 1, to);
    if from < k {
      MedianIsSmall(ts, from, k, gap);
    }
    if k + 1 < to {
      MedianIsSmall(ts, k + 1, to, gap);
    }
  }

  // ----- Runs

  /** The first row of row `n`'s run. */
  function StartRow(ts: seq<u64>, n: nat): (i: nat)
    requires n < |ts|
    ensures i <= n
  {
    if n == 0 || Hole(ts, n - 1) then n else StartRow(ts, n - 1)
  }

  lemma {:induction false} StartRowIs(ts: seq<u64>, n: nat)
    requires n < |ts|
    ensures forall k :: StartRow(ts, n) <= k < n ==> !Hole(ts, k)
    ensures StartRow(ts, n) > 0 ==> Hole(ts, StartRow(ts, n) - 1)
  {
    hide Hole;
    if n > 0 && !Hole(ts, n - 1) {
      StartRowIs(ts, n - 1);
    }
  }

  lemma {:induction false} LastRunIs(ts: seq<u64>, n: nat)
    requires n < |ts|
    ensures var runs := RunsTo(ts, n); runs[|runs| - 1] == (ts[StartRow(ts, n)], ts[n])
  {
    hide Hole;
    if n > 0 {
      LastRunIs(ts, n - 1);
    }
  }

  /** Row `n`'s run, of the first `m + 1` rows, ends at row `e`; a hole after it, if not
      the last row, starts the next. */
  lemma {:induction false} RunOfRow(ts: seq<u64>, n: nat, m: nat) returns (e: nat)
    requires n <= m < |ts|
    ensures n <= e <= m && forall k :: n <= k < e ==> !Hole(ts, k)
    ensures var q, runs := |RunsTo(ts, n)| - 1, RunsTo(ts, m);
            && q < |runs| && runs[q] == (ts[StartRow(ts, n)], ts[e])
            && (if e == m then |runs| == q + 1 else Hole(ts, e) && q + 1 < |runs| && runs[q + 1].0 == ts[e + 1])
  {
    hide Hole, StartRow;
    if n == m {
      LastRunIs(ts, n);
      e := m;
    } else {
      e := RunOfRow(ts, n, m - 1);
      if e == m - 1 && !Hole(ts, m - 1) {
        e := m;
      }
    }
  }

  /** Rows `i` to `j` are of one run, no later one has begun by `t`, and row `j` is no more
      than an interval before `t`. */
  ghost predicate Reaches(ts: seq<u64>, interval: u64, t: u64, i: nat, j: nat) {
    && i <= j < |ts| && t <= ts[j] + interval
    && (forall k :: i <= k < j ==> !Hole(ts, k))
    && forall m :: j < m < |ts| && Hole(ts, m - 1) ==> t < ts[m]
  }

  /** Rows of one run go from no later than `from` to within an interval of `t`, and no
      later run has begun by then. */
  ghost predicate Spans(ts: seq<u64>, interval: u64, from: int, t: u64) {
    exists i: nat, j: nat :: Reaches(ts, interval, t, i, j) && ts[i] <= from
  }

  lemma {:induction false} LastBy(ts: seq<u64>, t: u64) returns (n: nat)
    requires ts != [] && Increasing(ts) && ts[0] <= t
    ensures n < |ts| && ts[n] <= t && forall m :: n < m < |ts| ==> t < ts[m]
  {
    n := |ts| - 1;
    while t < ts[n]
      invariant n < |ts| && forall m :: n < m < |ts| ==> t < ts[m]
      decreases n
    {
      n := n - 1;
    }
  }

  /** With row `n` the last by `t` and its run ending at row `e`, that run is the one at `t`. */
  lemma {:induction false} RunAtIs(ts: seq<u64>, interval: u64, t: u64, n: nat) returns (e: nat)
    requires Increasing(ts) && n < |ts| && ts[n] <= t && forall m :: n < m < |ts| ==> t < ts[m]
    ensures n <= e < |ts| && (forall k :: n <= k < e ==> !Hole(ts, k)) && (e < |ts| - 1 ==> Hole(ts, e))
    ensures RunAt(Runs(ts), interval, t) ==
            if t <= ts[e] + interval then Some((ts[StartRow(ts, n)], ts[e])) else None
  {
    hide Hole, StartRow;
    var runs, q := Runs(ts), |RunsTo(ts, n)| - 1;
    e := RunOfRow(ts, n, |ts| - 1);
    RunsAreApart(ts, |ts| - 1);
    assert ts[StartRow(ts, n)] <= ts[n];
    StartedIs(runs, t, q + 1);
  }

  lemma {:induction false} NoneBefore(ts: seq<u64>, interval: u64, t: u64)
    requires Increasing(ts) && (ts == [] || t < ts[0])
    ensures RunAt(Runs(ts), interval, t) == None
  {
    hide Hole;
    if ts != [] {
      var e := RunOfRow(ts, 0, |ts| - 1);
    }
  }

  lemma {:induction false} RunIsSpan(ts: seq<u64>, interval: u64, from: int, t: u64)
    requires Increasing(ts) && from <= t
    ensures Spans(ts, interval, from, t) <==>
            RunAt(Runs(ts), interval, t).Some? && RunAt(Runs(ts), interval, t).value.0 <= from
  {
    hide Hole, Runs, RunAt, StartRow;
    if ts == [] || t < ts[0] {
      NoneBefore(ts, interval, t);
      return;
    }
    var n := LastBy(ts, t);
    var e := RunAtIs(ts, interval, t, n);
    StartRowIs(ts, n);
    var first := StartRow(ts, n);
    if RunAt(Runs(ts), interval, t).Some? && ts[first] <= from {
      assert Reaches(ts, interval, t, first, e);
    }
    if Spans(ts, interval, from, t) {
      var i: nat, j: nat :| Reaches(ts, interval, t, i, j) && ts[i] <= from;
      SpanIsRun(ts, interval, t, n, e, i, j);
    }
  }

  lemma {:induction false} SpanIsRun(ts: seq<u64>, interval: u64, t: u64, n: nat, e: nat, i: nat, j: nat)
    requires Increasing(ts) && n < |ts| && ts[n] <= t && forall m :: n < m < |ts| ==> t < ts[m]
    requires n <= e < |ts| && (e < |ts| - 1 ==> Hole(ts, e))
    requires Reaches(ts, interval, t, i, j) && ts[i] <= t
    ensures ts[StartRow(ts, n)] <= ts[i] && t <= ts[e] + interval
  {
    hide Hole;
    StartRowIs(ts, n);
    var first := StartRow(ts, n);
    assert first > 0 ==> Hole(ts, first - 1);
    assert ts[first] <= ts[n];
  }

  /** Rows hold a time when it is no more than an interval after a row of the run last
      begun by then. */
  lemma {:induction false} HoldsIs(ts: seq<u64>, interval: u64, t: u64)
    requires Increasing(ts)
    ensures Holds(Runs(ts), interval, t) <==> Spans(ts, interval, t, t)
  {
    hide Runs, Hole, Spans;
    RunIsSpan(ts, interval, t, t);
    if Holds(Runs(ts), interval, t) {
      RunBegins(ts, interval, t);
    }
  }

  lemma {:induction false} RunBegins(ts: seq<u64>, interval: u64, t: u64)
    requires RunAt(Runs(ts), interval, t).Some?
    ensures RunAt(Runs(ts), interval, t).value.0 <= t
  {
    hide Runs;
    StartedSplits(Runs(ts), t);
  }

  /** They cover a window when besides that run goes back to the window's start. */
  lemma {:induction false} CoversIs(ts: seq<u64>, interval: u64, t: u64, window: u64)
    requires Increasing(ts)
    ensures Covers(Runs(ts), interval, t, window) <==> t >= window && Spans(ts, interval, t - window, t)
  {
    hide Runs, Hole, Spans, RunAt;
    if t >= window {
      RunIsSpan(ts, interval, t - window, t);
    }
  }
}
