/** The streaming coverage of one member's rows, each gap decided as soon as the
    eight after it are known. */
module RowTracking {
  import opened Prelude
  import opened RateSpec
  import opened Coverage

  // ----- The rows a track takes

  /** `rows` are exactly the times of `times`, in order. */
  ghost predicate AreTimes(rows: seq<u64>, times: set<u64>) {
    Increasing(rows) && forall t :: t in rows <==> t in times
  }

  /** The same times in order are the same rows. */
  lemma {:induction false} TimesDetermineRows(a: seq<u64>, b: seq<u64>, times: set<u64>)
    requires AreTimes(a, times) && AreTimes(b, times)
    ensures a == b
  {
    if a != [] {
      assert a[0] in b;
    }
    if b != [] {
      assert b[0] in a;
      var m, n := |a| - 1, |b| - 1;
      assert a[m] in b && b[n] in a;
      WithoutLast(a, times);
      WithoutLast(b, times);
      TimesDetermineRows(a[..m], b[..n], times - {a[m]});
    }
  }

  lemma {:induction false} WithoutLast(a: seq<u64>, times: set<u64>)
    requires AreTimes(a, times) && a != []
    ensures AreTimes(a[..|a| - 1], times - {a[|a| - 1]})
  {
    var m := |a| - 1;
    forall t ensures t in a[..m] <==> t in times && t != a[m] {
      if t in times {
        assert t in a;
        var i :| 0 <= i < |a| && a[i] == t;
        if i < m {
          assert a[..m][i] == t;
        }
      }
    }
  }

  // ----- What a track holds

  /** No gap is smaller than `smallest`. */
  ghost predicate AllAtLeast(rows: seq<u64>, smallest: u64) {
    forall k :: 0 <= k < |rows| - 1 ==> smallest <= Gap(rows, k)
  }

  /** Of rows `all`, the latest are `rows`, from row `base`, and `decided` gaps are
      decided: into `runs`, after the first `dropped`. */
  ghost predicate Tracks(all: seq<u64>, rows: seq<u64>, base: nat, decided: nat, runs: seq<Run>, dropped: nat) {
    && base == Prelude.Max(0, decided - SIDE) && base <= |all| && rows == all[base..]
    && (if all == [] then decided == 0 && runs == [] && dropped == 0
        else
          && decided < |all| && dropped < |RunsTo(all, decided)|
          && runs == RunsTo(all, decided)[dropped..])
  }

  /** Every gap with eight after it is decided, or all when there are no more rows. */
  ghost predicate Decided(all: seq<u64>, decided: nat, finished: bool) {
    decided == Prelude.Max(0, |all| - (if finished then 1 else SIDE + 1))
  }

  /** One more row, its gap not decided yet. */
  lemma {:induction false} TracksMore(all: seq<u64>, rows: seq<u64>, base: nat, decided: nat, runs: seq<Run>,
                                      dropped: nat, floor: u64, t: u64)
    requires Tracks(all, rows, base, decided, runs, dropped)
    requires decided == Prelude.Max(0, |all| - SIDE - 1)
    requires all != [] ==> Forgettable(RunsTo(all, decided), dropped, floor)
    ensures Tracks(all + [t], rows + [t], base, decided, if all == [] then [(t, t)] else runs, dropped)
    ensures Forgettable(RunsTo(all + [t], decided), dropped, floor)
  {
    hide RunsTo;
    if all != [] {
      RunsAreDecided(all, all + [t], decided);
    } else {
      FirstRun([t]);
    }
  }

  lemma {:induction false} IncreasingMore(all: seq<u64>, t: u64)
    requires Increasing(all) && (all != [] ==> all[|all| - 1] < t)
    ensures Increasing(all + [t])
  {
  }

  lemma {:induction false} FirstRun(ts: seq<u64>)
    requires ts != []
    ensures RunsTo(ts, 0) == [(ts[0], ts[0])]
  {
  }

  /** The next gap decided. */
  lemma {:induction false} TracksDecide(all: seq<u64>, rows: seq<u64>, base: nat, decided: nat, runs: seq<Run>,
                                        dropped: nat)
    requires Tracks(all, rows, base, decided, runs, dropped) && decided + 1 < |all|
    ensures var b := Prelude.Max(0, decided + 1 - SIDE);
            && runs != []
            && base <= b && b - base <= |rows|
            && Tracks(all, rows[b - base..], b, decided + 1, NextRuns(runs, all[decided + 1], Hole(all, decided)), dropped)
  {
    hide Hole;
    var whole := RunsTo(all, decided);
    assert NextRuns(whole, all[decided + 1], Hole(all, decided))[dropped..]
        == NextRuns(whole[dropped..], all[decided + 1], Hole(all, decided));
  }

  lemma {:induction false} RowsHold(all: seq<u64>, rows: seq<u64>, base: nat, decided: nat, runs: seq<Run>, dropped: nat,
                                    k: nat)
    requires Tracks(all, rows, base, decided, runs, dropped) && decided - SIDE <= k < |all|
    ensures base == Prelude.Max(0, decided - SIDE) <= k && k - base < |rows| && rows[k - base] == all[k]
    ensures decided < |all|
  {
  }

  lemma {:induction false} SmallestMore(all: seq<u64>, smallest: u64, t: u64)
    requires AllAtLeast(all, smallest)
    requires all != [] ==> all[|all| - 1] < t
    ensures AllAtLeast(all + [t], if all == [] then smallest else Prelude.Min(smallest, t - all[|all| - 1]))
  {
    forall k | 0 <= k < |all|
      ensures (if all == [] then smallest else Prelude.Min(smallest, t - all[|all| - 1])) <= Gap(all + [t], k)
    {
      if k + 1 < |all| {
        assert Gap(all + [t], k) == Gap(all, k);
      }
    }
  }

  /** A gap within twice the smallest is no hole. */
  lemma {:induction false} SmallIsNoHole(all: seq<u64>, smallest: u64, k: nat)
    requires AllAtLeast(all, smallest) && 0 < k < |all| - 1 && Gap(all, k) <= Twice(smallest)
    ensures !Hole(all, k)
  {
    var side := GapsBefore(all, k);
    forall g | g in side ensures smallest <= g {
      var i :| 0 <= i < |side| && side[i] == g;
      assert g == Gap(all, Prelude.Max(0, k - SIDE) + i);
    }
    NoHole(all, k, side, smallest);
  }

  /** The smallest of some gaps. */
  method Low(gaps: seq<int>) returns (low: Option<int>)
    ensures low.None? <==> gaps == []
    ensures low.Some? ==> forall g :: g in gaps ==> low.value <= g
  {
    low := None;
    for i := 0 to |gaps|
      invariant low.None? <==> i == 0
      invariant low.Some? ==> forall j :: 0 <= j < i ==> low.value <= gaps[j]
    {
      low := Some(if low.None? then gaps[i] else Prelude.Min(low.value, gaps[i]));
    }
  }

  /** Whether gap `k` is a hole, by its sides' gaps, with medians taken only where
      the smallest gaps do not decide. */
  method IsHole(gap: int, before: seq<int>, after: seq<int>, ghost all: seq<u64>, ghost k: nat) returns (hole: bool)
    requires k + 1 < |all| && gap == Gap(all, k)
    requires before == GapsBefore(all, k) && after == GapsAfter(all, k)
    ensures hole == Hole(all, k)
  {
    hide MedianOf, GapsBefore, GapsAfter;
    var b := Low(before);
    var a := Low(after);
    var bound := Larger(b, a);
    if bound.Some? && gap <= Twice(bound.value) {
      if b == bound {
        NoHole(all, k, before, bound.value);
      } else {
        NoHole(all, k, after, bound.value);
      }
      hole := false;
    } else {
      hole := MoreThanTwice(gap, Larger(MedianOf(before), MedianOf(after)));
    }
  }

  /** The rows with one more offered at `t`; a row not after the last is dropped. */
  function Accepted(rows: seq<u64>, t: u64): seq<u64> {
    if rows != [] && t <= rows[|rows| - 1] then rows else rows + [t]
  }

  /** The rows on either side not accepted yet are at or after those accepted; with
      them they are the times offered. */
  ghost predicate Waiting(all: seq<u64>, before: seq<u64>, after: seq<u64>, offered: set<u64>) {
    && Increasing(before) && Increasing(after)
    && (before != [] && after != [] ==> before[|before| - 1] <= after[0])
    && (all != [] && before != [] ==> all[|all| - 1] <= before[0])
    && (all != [] && after != [] ==> all[|all| - 1] <= after[0])
    && forall t :: t in offered <==> t in all || t in before || t in after
  }

  lemma {:induction false} HasFirst(ts: seq<u64>)
    requires ts != []
    ensures forall t :: t in ts <==> t == ts[0] || t in ts[1..]
  {
    assert ts == [ts[0]] + ts[1..];
  }

  lemma {:induction false} TakeBefore(all: seq<u64>, before: seq<u64>, after: seq<u64>, offered: set<u64>)
    requires Waiting(all, before, after, offered) && before != []
    ensures Waiting(Accepted(all, before[0]), before[1..], after, offered)
  {
    HasFirst(before);
  }

  lemma {:induction false} TakeAfter(all: seq<u64>, before: seq<u64>, after: seq<u64>, offered: set<u64>, t: u64)
    requires Waiting(all, before, after, offered) && after != []
    requires before == [] || (after[0] < t <= before[0])
    ensures before == []
    ensures Waiting(Accepted(all, after[0]), before, after[1..], offered)
  {
    HasFirst(after);
  }

  lemma {:induction false} TakeRow(all: seq<u64>, before: seq<u64>, after: seq<u64>, offered: set<u64>, t: u64)
    requires Waiting(all, before, after, offered)
    requires (all != [] ==> all[|all| - 1] <= t) && (before != [] ==> t <= before[0]) && (after != [] ==> t <= after[0])
    ensures Waiting(Accepted(all, t), before, after, offered + {t})
  {
  }

  /** The rows accepted, as a track keeps them: the latest, from row `base` of
      `count`, and the smallest gap of all. */
  class RowTrack {
    const interval: u64
    var before: seq<u64>
    var after: seq<u64>
    var rows: seq<u64>
    var base: nat
    var count: nat
    var decided: nat
    var runs: seq<Run>
    var finished: bool
    var smallest: u64

    /** Every row accepted. */
    ghost var all: seq<u64>
    /** The times of the rows offered, those on either side of the scan included. */
    ghost var offered: set<u64>
    /** How many runs were forgotten, and the time answers are from. */
    ghost var dropped: nat
    ghost var floor: u64

    /** The rows kept and the gaps decided are those of all the rows. */
    ghost predicate Kept()
      reads `all, `rows, `base, `count, `decided, `runs, `smallest, `dropped, `floor
    {
      && Increasing(all) && count == |all| && AllAtLeast(all, smallest)
      && Tracks(all, rows, base, decided, runs, dropped)
      && (all != [] ==> Forgettable(RunsTo(all, decided), dropped, floor))
    }

    /** Kept and waiting, with every gap decided that can be. */
    ghost predicate Current()
      reads this
    {
      Kept() && Waiting(all, before, after, offered) && Decided(all, decided, finished)
    }

    ghost predicate Valid()
      reads this
    {
      Current() && (finished ==> before == after == [])
    }

    constructor (interval: u64, before: seq<u64>, after: seq<u64>)
      requires Increasing(before) && Increasing(after)
      requires before != [] && after != [] ==> before[|before| - 1] <= after[0]
      ensures Valid() && this.interval == interval && all == [] && !finished && floor == 0
      ensures offered == (set t | t in before) + (set t | t in after)
    {
      this.interval, this.before, this.after := interval, before, after;
      rows, base, count, decided, runs, finished, smallest := [], 0, 0, 0, [], false, U64_MAX;
      all, offered, dropped, floor := [], (set t | t in before) + (set t | t in after), 0, 0;
    }

    function GapAt(k: nat): int
      requires base <= k && k + 1 - base < |rows|
      reads `rows, `base
    {
      (rows[k + 1 - base] as int) - (rows[k - base] as int)
    }

    /** The gaps `from` up to `to`. */
    method Side(from: nat, to: nat) returns (gaps: seq<int>)
      requires Kept() && base <= from <= to && (from < to ==> to < |all|)
      ensures gaps == GapsIn(all, from, to)
    {
      hide RunsTo;
      gaps := [];
      for i := 0 to to - from
        invariant |gaps| == i && forall j :: 0 <= j < i ==> gaps[j] == Gap(all, from + j)
      {
        assert GapAt(from + i) == Gap(all, from + i);
        gaps := gaps + [GapAt(from + i)];
      }
    }

    /** Gap `decided` is decided: let go of the rows no later decision needs. */
    method Advance()
      requires rows != [] && base == Prelude.Max(0, decided - SIDE)
      modifies `decided, `rows, `base
      ensures decided == old(decided) + 1 && base == Prelude.Max(0, decided - SIDE)
      ensures old(base) <= base && base - old(base) <= |old(rows)| && rows == old(rows)[base - old(base)..]
    {
      decided := decided + 1;
      while base + SIDE < decided
        invariant decided == old(decided) + 1 && old(base) <= base <= Prelude.Max(0, decided - SIDE)
        invariant base - old(base) <= |old(rows)| && rows == old(rows)[base - old(base)..]
      {
        rows := rows[1..];
        base := base + 1;
      }
    }

    /** Row `k + 1` starts a run, or joins the last. */
    method Extend(k: nat, hole: bool)
      requires Kept() && k == decided && k + 1 < count && hole == Hole(all, k)
      modifies `runs, `decided, `rows, `base
      ensures Kept() && decided == old(decided) + 1
    {
      hide RunsTo, Hole, NextRuns, Tracks, Forgettable;
      TracksDecide(all, rows, base, decided, runs, dropped);
      StillForgettable(all, decided, dropped, floor);
      RowsHold(all, rows, base, decided, runs, dropped, k + 1);
      runs := NextRuns(runs, rows[k + 1 - base], hole);
      Advance();
    }

    /** Decide every gap that can be. */
    method Decide()
      requires Kept() && (finished || decided <= Prelude.Max(0, |all| - SIDE - 1))
      modifies `runs, `decided, `rows, `base
      ensures Kept() && Decided(all, decided, finished)
    {
      hide RunsTo, Hole, Tracks, AllAtLeast, Increasing, Forgettable, GapsBefore, GapsAfter;
      DecidedWithin(all, rows, base, decided, runs, dropped);
      while decided + 1 < count
        invariant Kept() && (finished || decided <= Prelude.Max(0, |all| - SIDE - 1))
        invariant if all == [] then decided == 0 else decided < |all|
      {
        var k := decided;
        var available := count - 1 - (k + 1);
        if !finished && available < SIDE {
          break;
        }
        RowsHold(all, rows, base, decided, runs, dropped, k);
        RowsHold(all, rows, base, decided, runs, dropped, k + 1);
        var gap := GapAt(k);
        assert gap == Gap(all, k);
        if k > 0 && gap <= Twice(smallest) {
          SmallIsNoHole(all, smallest, k);
          Extend(k, false);
          continue;
        }
        var before := Side(k - Prelude.Min(k, SIDE), k);
        var after := Side(k + 1, k + 1 + Prelude.Min(available, SIDE));
        SidesAre(all, k, before, after);
        var hole := IsHole(gap, before, after, all, k);
        Extend(k, hole);
      }
    }

    /** A row at `t`, not before the last; ignored when it is at the same time. */
    method Accept(t: u64)
      requires Kept() && Decided(all, decided, false) && !finished && (all != [] ==> all[|all| - 1] <= t)
      modifies `rows, `count, `runs, `smallest, `base, `decided, `all
      ensures Kept() && Decided(all, decided, false) && all == Accepted(old(all), t)
    {
      hide RunsTo, Forgettable, AllAtLeast, Increasing;
      DecidedWithin(all, rows, base, decided, runs, dropped);
      if rows != [] {
        if t <= rows[|rows| - 1] {
          return;
        }
        smallest := Prelude.Min(smallest, t - rows[|rows| - 1]);
      }
      SmallestMore(all, old(smallest), t);
      TracksMore(all, rows, base, decided, runs, dropped, floor, t);
      IncreasingMore(all, t);
      rows := rows + [t];
      count := count + 1;
      if count == 1 {
        runs := runs + [(t, t)];
      }
      all := all + [t];
      Decide();
    }

    /** Accept the first row before the scan. */
    method AcceptBefore()
      requires Current() && !finished && before != []
      modifies `before, `rows, `count, `runs, `smallest, `base, `decided, `all
      ensures Current() && before == old(before)[1..] && all == Accepted(old(all), old(before[0]))
    {
      hide Kept, Waiting, Decided;
      LastBefore(all, before, after, offered);
      TakeBefore(all, before, after, offered);
      var b := before[0];
      before := before[1..];
      Accept(b);
    }

    /** Accept the first row after the scan; the rows before are all accepted. */
    method AcceptAfter(ghost t: u64)
      requires Current() && !finished && after != [] && (before == [] || after[0] < t <= before[0])
      modifies `after, `rows, `count, `runs, `smallest, `base, `decided, `all
      ensures Current() && before == [] && after == old(after)[1..] && all == Accepted(old(all), old(after[0]))
    {
      hide Kept, Waiting, Decided;
      LastBefore(all, before, after, offered);
      TakeAfter(all, before, after, offered, t);
      var a := after[0];
      after := after[1..];
      Accept(a);
    }

    /** A row of the scan: the rows on either side before it are accepted first. */
    method Push(t: u64)
      requires Valid() && !finished && (all != [] ==> all[|all| - 1] <= t)
      modifies this
      ensures Valid() && !finished && offered == old(offered) + {t} && floor == old(floor)
      ensures old(all) <= all && all != [] && all[|all| - 1] == t
    {
      hide Current, Increasing;
      while before != [] && before[0] < t
        invariant Current() && !finished && offered == old(offered) && floor == old(floor)
        invariant old(all) <= all && (all != [] ==> all[|all| - 1] <= t)
        decreases |before|
      {
        AcceptBefore();
      }
      while after != [] && after[0] < t
        invariant Current() && !finished && offered == old(offered) && floor == old(floor)
        invariant old(all) <= all && (all != [] ==> all[|all| - 1] <= t)
        invariant before != [] ==> t <= before[0]
        decreases |after|
      {
        AcceptAfter(t);
      }
      AcceptRow(t);
    }

    /** Accept a row at `t`, no row waiting on either side before it. */
    method AcceptRow(t: u64)
      requires Current() && !finished && (all != [] ==> all[|all| - 1] <= t)
      requires (before != [] ==> t <= before[0]) && (after != [] ==> t <= after[0])
      modifies `rows, `count, `runs, `smallest, `base, `decided, `all, `offered
      ensures Current() && all == Accepted(old(all), t) && offered == old(offered) + {t}
    {
      hide Kept, Waiting, Decided;
      TakeRow(all, before, after, offered, t);
      Accept(t);
      offered := offered + {t};
    }

    /** No more rows: every row on either side is accepted, and every gap decided. */
    method Finish()
      requires Valid()
      modifies this
      ensures Valid() && finished && offered == old(offered) && floor == old(floor) && old(all) <= all
      ensures AreTimes(all, offered) && (old(finished) ==> all == old(all))
    {
      hide Current;
      while before != []
        invariant Valid() && finished == old(finished)
        invariant offered == old(offered) && floor == old(floor) && old(all) <= all
        invariant finished ==> all == old(all)
        decreases |before|
      {
        AcceptBefore();
      }
      while after != []
        invariant Valid() && finished == old(finished) && before == []
        invariant offered == old(offered) && floor == old(floor) && old(all) <= all
        invariant finished ==> all == old(all)
        decreases |after|
      {
        AcceptAfter(after[0]);
      }
      DecideRest();
    }

    /** Decide every gap, the rows all accepted. */
    method DecideRest()
      requires Current() && before == after == []
      modifies `finished, `runs, `decided, `rows, `base
      ensures Valid() && finished && AreTimes(all, offered)
    {
      hide Kept, Increasing;
      finished := true;
      Decide();
      KeptRowsIncrease();
    }

    lemma {:induction false} RowsIncrease()
      requires Valid()
      ensures Increasing(all)
    {
    }

    lemma {:induction false} KeptRowsIncrease()
      requires Kept()
      ensures Increasing(all)
    {
    }

    /** An answer at `t` can be given: a later row has come and the gap up to it is
        decided, or no more rows will come. */
    predicate Ready(t: u64)
      requires Kept()
      reads this
    {
      hide RunsTo, AllAtLeast, Increasing;
      finished || (count > 0 && t < rows[decided - base])
    }

    /** Let go of leading runs that are of no use to answers from time `t` on. */
    method ForgetBefore(t: u64)
      requires Valid()
      modifies `runs, `dropped, `floor
      ensures Valid() && floor == Prelude.Max(old(floor), t)
      ensures |runs| > 1 ==> SatAdd(runs[0].1, interval) >= t || runs[1].0 > t
    {
      hide RunsTo, AllAtLeast, Increasing;
      floor := Prelude.Max(floor, t);
      while |runs| > 1 && SatAdd(runs[0].1, interval) < t && runs[1].0 <= t
        invariant Valid() && floor == Prelude.Max(old(floor), t)
        decreases |runs|
      {
        assert all != [] && runs[1] == RunsTo(all, decided)[dropped + 1];
        runs := runs[1..];
        dropped := dropped + 1;
      }
    }

    /** A run of the member's rows holds `t`, which is ready. */
    predicate HoldsAt(t: u64)
      reads this
    {
      Holds(runs, interval, t)
    }

    predicate CoversAt(t: u64, window: u64)
      reads this
    {
      Covers(runs, interval, t, window)
    }

    /** An answer at a time that is ready, and not before what was forgotten, is the
        answer by the runs of all the rows there ever are. */
    lemma {:induction false} ReadyIsFinal(t: u64, window: u64, rows: seq<u64>)
      requires Valid() && Ready(t) && floor <= t
      requires Increasing(rows) && all <= rows && (finished ==> rows == all)
      ensures HoldsAt(t) == Holds(Runs(rows), interval, t)
      ensures CoversAt(t, window) == Covers(Runs(rows), interval, t, window)
    {
      hide RunsTo, AllAtLeast, Increasing, RunAt, Forgettable, Grown, Apart;
      if all != [] {
        ReadyRow(t);
        RunsAreDecided(all, rows, decided);
        RunsAreApart(rows, decided);
        RunsAreApart(rows, |rows| - 1);
        RunsGrow(rows, decided, |rows| - 1);
        AnswerIsFinal(RunsTo(rows, decided), Runs(rows), dropped, floor, interval, t, window);
      }
    }

    lemma {:induction false} ReadyRow(t: u64)
      requires Valid() && Ready(t) && all != []
      ensures decided < |all| && (if finished then decided == |all| - 1 else t < all[decided])
    {
      hide RunsTo, AllAtLeast, Increasing;
      RowsHold(all, rows, base, decided, runs, dropped, decided);
    }
  }

  /** `runs`: the runs of `timestamps`, with no median taken of a gap within twice
      the smallest. */
  method RunsOf(timestamps: seq<u64>) returns (out: seq<Run>)
    requires Increasing(timestamps)
    ensures out == Runs(timestamps)
  {
    hide RunsTo, Hole, MedianOf, GapsBefore, GapsAfter;
    out := [];
    if timestamps == [] {
      return;
    }
    var n := |timestamps| - 1;
    var gaps := GapsIn(timestamps, 0, n);
    var low := Low(gaps);
    var floor := Twice(if low.Some? then low.value else 0);
    var start := timestamps[0];
    FirstRun(timestamps);
    for i := 0 to n
      invariant out + [(start, timestamps[i])] == RunsTo(timestamps, i)
    {
      OneMoreRun(timestamps, i);
      assert gaps[i] == Gap(timestamps, i);
      if gaps[i] <= floor {
        SmallestIsNoHole(timestamps, gaps, low.value, i);
        continue;
      }
      var typical := Larger(MedianOf(GapsBefore(timestamps, i)), MedianOf(GapsAfter(timestamps, i)));
      HoleIs(timestamps, i);
      if typical.Some? && gaps[i] > Twice(typical.value) {
        out := out + [(start, timestamps[i])];
        start := timestamps[i + 1];
      }
    }
    out := out + [(start, timestamps[n])];
  }

  lemma {:induction false} HoleIs(ts: seq<u64>, k: nat)
    requires k + 1 < |ts|
    ensures Hole(ts, k) == MoreThanTwice(Gap(ts, k), Larger(MedianOf(GapsBefore(ts, k)), MedianOf(GapsAfter(ts, k))))
  {
  }

  lemma {:induction false} OneMoreRun(ts: seq<u64>, k: nat)
    requires k + 1 < |ts|
    ensures RunsTo(ts, k + 1) == NextRuns(RunsTo(ts, k), ts[k + 1], Hole(ts, k))
  {
  }

  /** A gap within twice the smallest of all is no hole: it is the only gap, or the
      gaps of a side are no smaller. */
  lemma {:induction false} SmallestIsNoHole(ts: seq<u64>, gaps: seq<int>, low: int, k: nat)
    requires k + 1 < |ts| && Gap(ts, k) <= Twice(low)
    requires gaps == GapsIn(ts, 0, |ts| - 1) && forall g :: g in gaps ==> low <= g
    ensures !Hole(ts, k)
  {
    hide MedianOf;
    forall j | 0 <= j < |ts| - 1 ensures low <= Gap(ts, j) {
      assert gaps[j] == Gap(ts, 0 + j) && gaps[j] in gaps;
    }
    if k > 0 {
      var side := GapsBefore(ts, k);
      forall g | g in side ensures low <= g {
        var i :| 0 <= i < |side| && side[i] == g;
        assert g == Gap(ts, Prelude.Max(0, k - SIDE) + i);
      }
      NoHole(ts, k, side, low);
    } else if |ts| > 2 {
      var side := GapsAfter(ts, k);
      forall g | g in side ensures low <= g {
        var i :| 0 <= i < |side| && side[i] == g;
        assert g == Gap(ts, k + 1 + i);
      }
      NoHole(ts, k, side, low);
    } else {
      LoneGap(ts, k);
    }
  }

  lemma {:induction false} LoneGap(ts: seq<u64>, k: nat)
    requires k == 0 && |ts| == 2
    ensures !Hole(ts, k)
  {
  }

  lemma {:induction false} LastBefore(all: seq<u64>, before: seq<u64>, after: seq<u64>, offered: set<u64>)
    requires Waiting(all, before, after, offered)
    ensures all != [] && before != [] ==> all[|all| - 1] <= before[0]
    ensures all != [] && after != [] ==> all[|all| - 1] <= after[0]
  {
  }

  lemma {:induction false} DecidedWithin(all: seq<u64>, rows: seq<u64>, base: nat, decided: nat, runs: seq<Run>,
                                         dropped: nat)
    requires Tracks(all, rows, base, decided, runs, dropped)
    ensures if all == [] then decided == 0 else decided < |all|
  {
  }

  lemma {:induction false} SidesAre(all: seq<u64>, k: nat, before: seq<int>, after: seq<int>)
    requires k + 1 < |all|
    requires before == GapsIn(all, k - Prelude.Min(k, SIDE), k)
    requires after == GapsIn(all, k + 1, k + 1 + Prelude.Min(|all| - k - 2, SIDE))
    ensures before == GapsBefore(all, k) && after == GapsAfter(all, k)
  {
  }

  lemma {:induction false} StillForgettable(all: seq<u64>, decided: nat, dropped: nat, floor: u64)
    requires Increasing(all) && decided + 1 < |all|
    requires Forgettable(RunsTo(all, decided), dropped, floor)
    ensures Forgettable(RunsTo(all, decided + 1), dropped, floor)
  {
    hide RunsTo;
    RunsGrow(all, decided, decided + 1);
  }
}
