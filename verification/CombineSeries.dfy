/** The per-series union: the members' whole results combined by a merge over their
    points, which the streaming union stage answers alike. */
module SeriesCombining {
  import opened Prelude
  import opened RateSpec
  import opened Grouping
  import opened Coverage
  import opened UnionSpec
  import opened UnionStaging

  /** A member's points are its grid points, in order, each at its time. */
  ghost predicate OnGrid(m: Member, g: Grid) {
    && Rising(m.points)
    && forall j :: 0 <= j < |m.points| ==> m.points[j].index < g.Count() && m.points[j].point.t == g.Time(m.points[j].index)
  }

  /** The cursors are past exactly the points before index `settled`. */
  ghost predicate Cursors(ms: seq<Member>, g: Grid, cursor: seq<nat>, settled: nat) {
    && |cursor| == |ms| && settled <= g.Count()
    && forall k :: 0 <= k < |ms| ==>
         && cursor[k] <= |ms[k].points|
         && QueueOk(ms[k].points, ms[k].points[cursor[k]..], g.Count(), settled, g.Count())
  }

  /** What was chosen: a member and the place of one of its points, in grid order,
      before index `settled`. */
  ghost predicate Chosen(ms: seq<Member>, chosen: seq<(nat, nat)>, settled: nat) {
    && (forall j :: 0 <= j < |chosen| ==>
          && chosen[j].0 < |ms| && chosen[j].1 < |ms[chosen[j].0].points|
          && ms[chosen[j].0].points[chosen[j].1].index < settled)
    && forall i, j :: 0 <= i < j < |chosen| ==>
         ms[chosen[i].0].points[chosen[i].1].index < ms[chosen[j].0].points[chosen[j].1].index
  }

  function PointsOf(ms: seq<Member>, chosen: seq<(nat, nat)>): (r: seq<Emission>)
    requires forall j :: 0 <= j < |chosen| ==> chosen[j].0 < |ms| && chosen[j].1 < |ms[chosen[j].0].points|
    ensures |r| == |chosen|
  {
    seq(|chosen|, j requires 0 <= j < |chosen| => ms[chosen[j].0].points[chosen[j].1])
  }

  lemma {:induction false} NoCursor(ms: seq<Member>, g: Grid)
    requires forall k :: 0 <= k < |ms| ==> OnGrid(ms[k], g)
    ensures Cursors(ms, g, seq(|ms|, _ => 0), 0)
  {
    forall k | 0 <= k < |ms| ensures QueueOk(ms[k].points, ms[k].points[0..], g.Count(), 0, g.Count()) {
      assert OnGrid(ms[k], g);
    }
  }

  /** The earliest time a member has a point at, from its cursor on. */
  method NextTime(ms: seq<Member>, g: Grid, cursor: seq<nat>, ghost settled: nat) returns (t: Option<u64>, ghost index: nat)
    requires Cursors(ms, g, cursor, settled) && forall k :: 0 <= k < |ms| ==> OnGrid(ms[k], g)
    ensures t.None? ==> forall k :: 0 <= k < |ms| ==> cursor[k] == |ms[k].points|
    ensures t.Some? ==>
              && settled <= index < g.Count() && t.value == g.Time(index)
              && forall k :: 0 <= k < |ms| && cursor[k] < |ms[k].points| ==> index <= ms[k].points[cursor[k]].index
  {
    hide QueueOk;
    t, index := None, 0;
    for k := 0 to |ms|
      invariant t.None? ==> forall j :: 0 <= j < k ==> cursor[j] == |ms[j].points|
      invariant t.Some? ==>
                  && settled <= index < g.Count() && t.value == g.Time(index)
                  && forall j :: 0 <= j < k && cursor[j] < |ms[j].points| ==> index <= ms[j].points[cursor[j]].index
    {
      if cursor[k] < |ms[k].points| {
        var e := ms[k].points[cursor[k]];
        assert OnGrid(ms[k], g) && ms[k].points[cursor[k]..][0] == e;
        QueueFirst(ms[k].points, ms[k].points[cursor[k]..], g.Count(), settled, g.Count());
        if t.None? || e.point.t < t.value {
          if t.Some? && index < e.index {
            TimeIsMonotone(g, index, e.index);
          }
          t, index := Some(e.point.t), e.index;
        } else if e.index < index {
          Steps(g, e.index);
          TimeIsMonotone(g, e.index, index);
        }
      }
    }
  }

  /** A grid with points has a step. */
  lemma {:induction false} Steps(g: Grid, n: nat)
    requires n < g.Count()
    ensures g.step > 0
  {
  }

  /** Member `k`'s point at time `t`, its cursor's if that is at `t`. */
  function AtTime(m: Member, cursor: nat, t: u64): bool {
    cursor < |m.points| && m.points[cursor].point.t == t
  }

  /** A member's point at the earliest time is its cursor's, or it has none there. */
  lemma {:induction false} CursorHas(m: Member, g: Grid, cursor: nat, settled: nat, index: nat)
    requires OnGrid(m, g) && cursor <= |m.points| && settled <= index < g.Count()
    requires QueueOk(m.points, m.points[cursor..], g.Count(), settled, g.Count())
    requires cursor < |m.points| ==> index <= m.points[cursor].index
    requires 0 <= g.Time(index) <= U64_MAX
    ensures AtIndex(m.points, index) ==
            if AtTime(m, cursor, g.Time(index)) then Some(m.points[cursor].point) else None
    ensures forall i :: settled <= i < index ==> AtIndex(m.points, i) == None
  {
    hide AtIndex;
    var queue := m.points[cursor..];
    if cursor < |m.points| {
      assert queue[0] == m.points[cursor];
      if index < m.points[cursor].index {
        TimeIsMonotone(g, index, m.points[cursor].index);
        Steps(g, index);
      }
    }
    QueueHas(m.points, queue, g.Count(), settled, g.Count(), index, m.points);
    forall i | settled <= i < index ensures AtIndex(m.points, i) == None {
      QueueHas(m.points, queue, g.Count(), settled, g.Count(), i, m.points);
    }
  }

  /** The member whose point at `t` is the answer: the first with coverage of the
      rule, else the first whose rows hold the time. */
  method Pick(ms: seq<Member>, rule: Rule, cursor: seq<nat>, t: u64, ghost claims: seq<Claim>) returns (pick: Option<nat>)
    requires |cursor| == |ms| == |claims|
    requires forall k :: 0 <= k < |ms| ==>
               claims[k] == Claim(if AtTime(ms[k], cursor[k], t) then Some(ms[k].points[cursor[k]].point) else None,
                                  Covers(Runs(ms[k].rows), ms[k].interval, t, rule.window(t, ms[k].interval)),
                                  Coverage.Holds(Runs(ms[k].rows), ms[k].interval, t))
    ensures pick.Some? ==> pick.value < |ms| && AtTime(ms[pick.value], cursor[pick.value], t)
    ensures Choose(claims, rule.raw) == if pick.Some? then Some(ms[pick.value].points[cursor[pick.value]].point) else None
  {
    hide Covers, Runs, Coverage.Holds;
    for k := 0 to |ms|
      invariant FirstCovering(claims, 0, rule.raw) == FirstCovering(claims, k, rule.raw)
    {
      if (rule.raw || AtTime(ms[k], cursor[k], t)) &&
         Covers(Runs(ms[k].rows), ms[k].interval, t, rule.window(t, ms[k].interval))
      {
        return if AtTime(ms[k], cursor[k], t) then Some(k) else None;
      }
    }
    for k := 0 to |ms|
      invariant FirstHolding(claims, 0, rule.raw) == FirstHolding(claims, k, rule.raw)
    {
      if (rule.raw || AtTime(ms[k], cursor[k], t)) && Coverage.Holds(Runs(ms[k].rows), ms[k].interval, t) {
        return if AtTime(ms[k], cursor[k], t) then Some(k) else None;
      }
    }
    pick := None;
  }

  /** The cursors at time `t` step past their points there. */
  method StepCursors(ms: seq<Member>, g: Grid, cursor: seq<nat>, t: u64, ghost settled: nat, ghost index: nat)
    returns (next: seq<nat>)
    requires Cursors(ms, g, cursor, settled) && forall k :: 0 <= k < |ms| ==> OnGrid(ms[k], g)
    requires settled <= index < g.Count() && t == g.Time(index)
    requires forall k :: 0 <= k < |ms| && cursor[k] < |ms[k].points| ==> index <= ms[k].points[cursor[k]].index
    ensures Cursors(ms, g, next, index + 1)
  {
    hide QueueOk;
    next := [];
    for k := 0 to |ms|
      invariant |next| == k
      invariant forall j :: 0 <= j < k ==>
                  && next[j] <= |ms[j].points|
                  && QueueOk(ms[j].points, ms[j].points[next[j]..], g.Count(), index + 1, g.Count())
    {
      CursorSteps(ms[k], g, cursor[k], settled, index);
      next := next + [if AtTime(ms[k], cursor[k], t) then cursor[k] + 1 else cursor[k]];
    }
  }

  lemma {:induction false} CursorSteps(m: Member, g: Grid, cursor: nat, settled: nat, index: nat)
    requires OnGrid(m, g) && cursor <= |m.points| && settled <= index < g.Count()
    requires QueueOk(m.points, m.points[cursor..], g.Count(), settled, g.Count())
    requires cursor < |m.points| ==> index <= m.points[cursor].index
    requires 0 <= g.Time(index) <= U64_MAX
    ensures var next := if AtTime(m, cursor, g.Time(index)) then cursor + 1 else cursor;
            next <= |m.points| && QueueOk(m.points, m.points[next..], g.Count(), index + 1, g.Count())
  {
    var queue := m.points[cursor..];
    QueueDrop(m.points, queue, g.Count(), settled, g.Count(), index);
    if cursor < |m.points| {
      assert queue[0] == m.points[cursor] && queue[1..] == m.points[cursor + 1..];
      if index < m.points[cursor].index {
        TimeIsMonotone(g, index, m.points[cursor].index);
        Steps(g, index);
      }
    }
  }

  /** A choice of one member alone, as often as it has points, is all its points. */
  lemma {:induction false} OnlyMember(ms: seq<Member>, chosen: seq<(nat, nat)>, only: nat, n: nat)
    requires Chosen(ms, chosen, n) && only < |ms| && Rising(ms[only].points)
    requires |chosen| == |ms[only].points| && forall j :: 0 <= j < |chosen| ==> chosen[j].0 == only
    ensures PointsOf(ms, chosen) == ms[only].points
  {
    forall j | 0 <= j < |chosen| ensures chosen[j].1 == j {
      AtLeast(ms, chosen, only, n, j);
      AtMost(ms, chosen, only, n, j);
    }
  }

  lemma {:induction false} AtLeast(ms: seq<Member>, chosen: seq<(nat, nat)>, only: nat, n: nat, j: nat)
    requires Chosen(ms, chosen, n) && only < |ms| && Rising(ms[only].points) && j < |chosen|
    requires forall j :: 0 <= j < |chosen| ==> chosen[j].0 == only
    ensures j <= chosen[j].1
  {
    if j > 0 {
      AtLeast(ms, chosen, only, n, j - 1);
      assert ms[only].points[chosen[j - 1].1].index < ms[only].points[chosen[j].1].index;
    }
  }

  lemma {:induction false} AtMost(ms: seq<Member>, chosen: seq<(nat, nat)>, only: nat, n: nat, j: nat)
    requires Chosen(ms, chosen, n) && only < |ms| && Rising(ms[only].points) && j < |chosen| == |ms[only].points|
    requires forall j :: 0 <= j < |chosen| ==> chosen[j].0 == only
    ensures chosen[j].1 <= j
    decreases |chosen| - j
  {
    if j < |chosen| - 1 {
      AtMost(ms, chosen, only, n, j + 1);
      assert ms[only].points[chosen[j].1].index < ms[only].points[chosen[j + 1].1].index;
    }
  }

  lemma {:induction false} ChosenMore(ms: seq<Member>, chosen: seq<(nat, nat)>, settled: nat, index: nat, k: nat, c: nat)
    requires Chosen(ms, chosen, settled) && settled <= index && k < |ms| && c < |ms[k].points| && ms[k].points[c].index == index
    ensures Chosen(ms, chosen + [(k, c)], index + 1)
    ensures PointsOf(ms, chosen + [(k, c)]) == PointsOf(ms, chosen) + [ms[k].points[c]]
  {
  }

  /** One time of the merge: what is chosen there, and the cursors past it. */
  method Step(ms: seq<Member>, g: Grid, rule: Rule, cursor: seq<nat>, t: u64, chosen: seq<(nat, nat)>, ghost settled: nat,
              ghost index: nat) returns (next: seq<nat>, more: seq<(nat, nat)>)
    requires Cursors(ms, g, cursor, settled) && forall k :: 0 <= k < |ms| ==> OnGrid(ms[k], g)
    requires settled <= index < g.Count() && t == g.Time(index)
    requires forall k :: 0 <= k < |ms| && cursor[k] < |ms[k].points| ==> index <= ms[k].points[cursor[k]].index
    requires Chosen(ms, chosen, settled) && PointsOf(ms, chosen) == Combined(ms, g, rule, settled)
    ensures Cursors(ms, g, next, index + 1)
    ensures Chosen(ms, more, index + 1) && PointsOf(ms, more) == Combined(ms, g, rule, index + 1)
  {
    hide Combined, Choose, AtIndex, QueueOk, Covers, Runs, Coverage.Holds;
    ghost var claims := Claims(ms, t, index, rule);
    forall k | 0 <= k < |ms|
      ensures AtIndex(ms[k].points, index) ==
              if AtTime(ms[k], cursor[k], t) then Some(ms[k].points[cursor[k]].point) else None
      ensures forall i :: settled <= i < index ==> AtIndex(ms[k].points, i) == None
    {
      CursorHas(ms[k], g, cursor[k], settled, index);
    }
    var pick := Pick(ms, rule, cursor, t, claims);
    CombinedSkips(ms, g, rule, settled, index);
    CombinedNext(ms, g, rule, index, claims);
    more := chosen;
    if pick.Some? {
      var k := pick.value;
      IsIndex(g, ms[k].points[cursor[k]].index, index);
      assert OnGrid(ms[k], g);
      ChosenMore(ms, chosen, settled, index, k, cursor[k]);
      more := chosen + [(k, cursor[k])];
    } else {
      assert Combined(ms, g, rule, index + 1) == Combined(ms, g, rule, settled) + [];
    }
    next := StepCursors(ms, g, cursor, t, settled, index);
  }

  lemma {:induction false} IsIndex(g: Grid, i: nat, index: nat)
    requires index < g.Count()
    ensures g.Time(i) == g.Time(index) ==> i == index
  {
    Steps(g, index);
    if i < index {
      TimeIsMonotone(g, i, index);
    } else {
      TimeIsMonotone(g, index, i);
    }
  }

  /** `combine_series`: the members' points combined, each time's point the first-ranked
      member's that covers its window, else the first-ranked's whose rows hold it. On the
      grid it is what the streaming stage passes on; points at their members' own rows
      are those of the grid of every nanosecond. */
  method CombineSeries(ms: seq<Member>, g: Grid, rule: Rule) returns (points: seq<Emission>)
    requires forall k :: 0 <= k < |ms| ==> OnGrid(ms[k], g)
    ensures points == Combined(ms, g, rule, g.Count())
  {
    hide Combined, QueueOk, AtIndex;
    var cursor: seq<nat> := seq(|ms|, _ => 0);
    var chosen: seq<(nat, nat)> := [];
    ghost var settled := 0;
    NoCursor(ms, g);
    NothingCombined(ms, g, rule);
    var t, index := NextTime(ms, g, cursor, settled);
    while t.Some?
      invariant Cursors(ms, g, cursor, settled)
      invariant Chosen(ms, chosen, settled) && PointsOf(ms, chosen) == Combined(ms, g, rule, settled)
      invariant t.None? ==> forall k :: 0 <= k < |ms| ==> cursor[k] == |ms[k].points|
      invariant t.Some? ==>
                  && settled <= index < g.Count() && t.value == g.Time(index)
                  && forall k :: 0 <= k < |ms| && cursor[k] < |ms[k].points| ==> index <= ms[k].points[cursor[k]].index
      decreases g.Count() - settled, if t.Some? then 1 else 0
    {
      cursor, chosen := Step(ms, g, rule, cursor, t.value, chosen, settled, index);
      settled := index + 1;
      t, index := NextTime(ms, g, cursor, settled);
    }
    AllPassed(ms, g, rule, cursor, settled);
    points := Answer(ms, g, chosen, settled);
  }

  /** The points chosen; one member's as they are when it gives them all. */
  method Answer(ms: seq<Member>, g: Grid, chosen: seq<(nat, nat)>, ghost settled: nat) returns (points: seq<Emission>)
    requires Chosen(ms, chosen, settled) && forall k :: 0 <= k < |ms| ==> OnGrid(ms[k], g)
    ensures points == PointsOf(ms, chosen)
  {
    if chosen != [] {
      var only := chosen[0].0;
      var alone := true;
      for j := 0 to |chosen|
        invariant alone <==> forall i :: 0 <= i < j ==> chosen[i].0 == only
      {
        alone := alone && chosen[j].0 == only;
      }
      if |chosen| == |ms[only].points| && alone {
        assert OnGrid(ms[only], g);
        OnlyMember(ms, chosen, only, settled);
        return ms[only].points;
      }
    }
    points := PointsOf(ms, chosen);
  }

  /** Raw placement: every nanosecond is a grid point. */
  const EVERY_NS := Grid(0, U64_MAX, 1, 1, false)

  /** A member's points at its own rows, each at the grid point of its time. */
  function AtRows(points: seq<Point>): seq<Emission> {
    seq(|points|, i requires 0 <= i < |points| => Emission(points[i].t, points[i]))
  }

  lemma {:induction false} EveryNs(n: nat)
    ensures EVERY_NS.Time(n) == n
  {
    if n > 0 {
      EveryNs(n - 1);
    }
  }

  /** Points in time order, wherever they are, are on that grid. */
  lemma {:induction false} RowsAreOnGrid(points: seq<Point>, rows: seq<u64>, interval: u64)
    requires forall i, j :: 0 <= i < j < |points| ==> points[i].t < points[j].t
    ensures OnGrid(Member(AtRows(points), rows, interval), EVERY_NS)
  {
    LenIsCount(EVERY_NS);
    forall j | 0 <= j < |points| ensures points[j].t < EVERY_NS.Count() && EVERY_NS.Time(points[j].t) == points[j].t {
      EveryNs(points[j].t);
    }
  }

  lemma {:induction false} NothingCombined(ms: seq<Member>, g: Grid, rule: Rule)
    ensures Combined(ms, g, rule, 0) == []
  {
  }

  /** With every cursor at its end, no member has a later point. */
  lemma {:induction false} AllPassed(ms: seq<Member>, g: Grid, rule: Rule, cursor: seq<nat>, settled: nat)
    requires Cursors(ms, g, cursor, settled) && forall k :: 0 <= k < |ms| ==> cursor[k] == |ms[k].points|
    ensures Combined(ms, g, rule, g.Count()) == Combined(ms, g, rule, settled)
  {
    hide Combined, AtIndex;
    forall i, k | settled <= i < g.Count() && 0 <= k < |ms| ensures AtIndex(ms[k].points, i) == None {
      assert QueueOk(ms[k].points, ms[k].points[cursor[k]..], g.Count(), settled, g.Count());
      NotYet(ms[k].points, i);
    }
    CombinedSkips(ms, g, rule, settled, g.Count());
  }
}
