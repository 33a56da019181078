/** `grid_rates` for a grouped display read: the chunks of a scan, the series'
    rates, the units they belong to, the partitions' accumulators and the flush, put
    together. */
module GridReading {
  import opened Prelude
  import opened Sorting
  import opened RateSpec
  import RateMeaning
  import opened StreamingRate
  import opened Aggregate
  import opened Display
  import opened Grouping
  import opened Flushing
  import opened RowTracking
  import opened UnionStaging
  import opened UnitReading

  // ----- A scan

  /** What a reader knows of a series' rows in the segments not returned yet. */
  datatype LaterRows = NoneLater | PossibleLater | UnknownLater

  datatype Row = Row(series: nat, sample: Sample)

  /** Some segments' rows; the series no later rows follow for; a time no later row
      is before, when known; and what is known of each series' later rows. */
  datatype Chunk = Chunk(ended: seq<nat>, rows: seq<Row>, restStart: Option<u64>, later: seq<LaterRows>)

  /** The rows of several chunks, in order. */
  function RowsOf(chunks: seq<Chunk>): seq<Row> {
    if chunks == [] then [] else chunks[0].rows + RowsOf(chunks[1..])
  }

  /** Series `s`'s rows among `rows`. */
  function SeriesRows(rows: seq<Row>, s: nat): seq<Sample> {
    if rows == [] then []
    else (if rows[0].series == s then [rows[0].sample] else []) + SeriesRows(rows[1..], s)
  }

  /** The samples within the times read. */
  function ReadOf(xs: seq<Sample>, lo: u64, hi: u64): seq<Sample> {
    if xs == [] then [] else (if lo <= xs[0].ts <= hi then [xs[0]] else []) + ReadOf(xs[1..], lo, hi)
  }

  function TimesOf(xs: seq<Sample>): set<u64> {
    set x | x in xs :: x.ts
  }

  /** What a reader promises of a chunk, given the rows that follow it. */
  ghost predicate ChunkOk(c: Chunk, rest: seq<Row>, n: nat) {
    && |c.later| == n
    && (forall i :: 0 <= i < |c.rows| ==> c.rows[i].series < n)
    && (forall i :: 0 <= i < |c.ended| ==> c.ended[i] < n && SeriesRows(c.rows + rest, c.ended[i]) == [])
    && (c.restStart.Some? ==> forall i :: 0 <= i < |rest| ==> rest[i].sample.ts >= c.restStart.value)
    && (forall s :: 0 <= s < n && c.later[s].NoneLater? ==> SeriesRows(rest, s) == [])
  }

  /** What a reader promises of a scan; each series' rows are in time order. */
  ghost predicate ScanOk(chunks: seq<Chunk>, n: nat) {
    && (forall s :: 0 <= s < n ==> InOrder(SeriesRows(RowsOf(chunks), s)))
    && forall c :: 0 <= c < |chunks| ==> ChunkOk(chunks[c], RowsOf(chunks[c + 1..]), n)
  }

  /** After some chunk the scan does not say whether rows of some series follow. */
  ghost predicate Unsure(chunks: seq<Chunk>, n: nat) {
    exists c, s :: 0 <= c < |chunks| && 0 <= s < n && s < |chunks[c].later| && chunks[c].later[s].UnknownLater?
  }

  lemma {:induction false} SeriesRowsNext(r: Row, rest: seq<Row>, s: nat)
    ensures SeriesRows([r] + rest, s) == (if r.series == s then [r.sample] else []) + SeriesRows(rest, s)
  {
    assert ([r] + rest)[1..] == rest;
  }

  lemma {:induction false} ReadOfNext(x: Sample, xs: seq<Sample>, lo: u64, hi: u64)
    ensures ReadOf([x] + xs, lo, hi) == (if lo <= x.ts <= hi then [x] else []) + ReadOf(xs, lo, hi)
  {
    assert ([x] + xs)[1..] == xs;
  }

  lemma {:induction false} ReadOfOrder(xs: seq<Sample>, lo: u64, hi: u64)
    requires InOrder(xs)
    ensures InOrder(ReadOf(xs, lo, hi))
    ensures forall x :: x in ReadOf(xs, lo, hi) ==> x in xs
  {
    if xs != [] {
      ReadOfOrder(xs[1..], lo, hi);
      var rest := ReadOf(xs[1..], lo, hi);
      forall i | 0 <= i < |rest| ensures xs[0].ts <= rest[i].ts {
        assert rest[i] in xs[1..];
      }
    }
  }

  lemma {:induction false} RowsAfter(rows: seq<Row>, s: nat, lo: u64, hi: u64, w: u64)
    requires forall i :: 0 <= i < |rows| ==> rows[i].sample.ts >= w
    ensures var xs := ReadOf(SeriesRows(rows, s), lo, hi); xs != [] ==> xs[0].ts >= w
  {
    if rows != [] {
      RowsAfter(rows[1..], s, lo, hi, w);
      if rows[0].series == s {
        ReadOfNext(rows[0].sample, SeriesRows(rows[1..], s), lo, hi);
      } else {
        assert SeriesRows(rows, s) == SeriesRows(rows[1..], s);
      }
    }
  }

  // ----- One emission in one partition's accumulators

  lemma {:induction false} PartAccEmit(op: AggOp, lay: Layout, em: seq<seq<Emission>>, s: nat, e: Emission, g: nat,
                                       p: nat, k: nat)
    requires lay.Valid() && |em| == |lay.part| && s < |em|
    requires AtIndex(em[s], e.index) == None
    ensures PartAcc(op, lay, em[s := em[s] + [e]], g, p, k) ==
            if lay.groupOf[s] == g && lay.part[s] == p && e.index == k
            then AddToCompact(op, PartAcc(op, lay, em, g, p, k), e.point)
            else PartAcc(op, lay, em, g, p, k)
  {
    hide Members, AtIndex, AddToCompact;
    var sel := Part(lay.Of(g), lay.part, p);
    var em' := em[s := em[s] + [e]];
    EmitMembers(em, sel, s, e, k);
    if sel[s] && e.index == k {
      var ms := Members(em, sel, k);
      assert (ms + [e.point])[..|ms|] == ms;
      assert multiset(Members(em', sel, k)) == multiset(ms + [e.point]);
      CompactIgnoresOrder(op, Members(em', sel, k), ms + [e.point]);
    }
  }

  /** An emission at or after index `n` changes nothing fed before it. */
  lemma {:induction false} ReadingsEmit(op: AggOp, ops: Point -> Option<Point>, g: Grid, em: seq<seq<Emission>>,
                                        sel: seq<bool>, s: nat, e: Emission, n: nat)
    requires |sel| == |em| && n <= g.Count() && s < |em|
    requires sel[s] ==> e.index >= n
    ensures GroupReadings(op, ops, g, em[s := em[s] + [e]], sel, n) == GroupReadings(op, ops, g, em, sel, n)
  {
    hide AtIndex;
    var em' := em[s := em[s] + [e]];
    forall r, k | 0 <= r < |em| && sel[r] && 0 <= k < n ensures AtIndex(em[r], k) == AtIndex(em'[r], k) {
      if r == s {
        AtIndexMore(em[s], e, k);
      }
    }
    SameReadings(op, ops, g, em, em', sel, n);
  }

  /** The median of some spacings. */
  function MedianSpacing(spacings: seq<u64>): u64
    requires spacings != []
  {
    var all := seq(|spacings|, i requires 0 <= i < |spacings| => spacings[i] as int);
    var m := MedianOr(all, 0);
    assert m in all;
    m
  }

  /** It is at most a number exactly when more than half of the spacings are. */
  lemma {:induction false} MedianSpacingIs(spacings: seq<u64>, x: u64)
    requires spacings != []
    ensures MedianSpacing(spacings) <= x <==> 2 * HowMany(spacings, (g: u64) => g <= x) > |spacings|
  {
    hide MedianOr, RateMeaning.AtMost;
    var all := seq(|spacings|, i requires 0 <= i < |spacings| => spacings[i] as int);
    RateMeaning.MedianIs(all, 0, x);
    AtMostOfAll(spacings, all, x);
  }

  lemma {:induction false} AtMostOfAll(spacings: seq<u64>, all: seq<int>, x: u64)
    requires |all| == |spacings| && forall i :: 0 <= i < |all| ==> all[i] == spacings[i]
    ensures RateMeaning.AtMost(all, x) == HowMany(spacings, (g: u64) => g <= x)
  {
    if all != [] {
      var n := |all| - 1;
      AtMostOfAll(spacings[..n], all[..n], x);
    }
  }

  // ----- What is read

  /** A scanned series: what its rate is evaluated with, its unit and its place among
      the unit's members by rank; the first sample time read of it; its member's
      interval, and its rows around the scan. */
  datatype Scanned = Scanned(setup: Setup, unit: nat, slot: nat, start: u64, interval: u64, before: seq<u64>,
                             after: seq<u64>)
  {
    /** The times of all its rows, given those of the scan. */
    function Times(xs: seq<Sample>): set<u64> {
      (set t | t in before) + (set t | t in after) + TimesOf(xs)
    }
  }

  /** A result series: its members in rank order, and whether they are combined. */
  datatype Unit = Unit(members: seq<nat>, combine: bool)

  /** What a scan reads; `union` when units are of members of several recordings. */
  datatype Plan = Plan(series: seq<Scanned>, units: seq<Unit>, union: bool, window: u64)
  {
    /** Every series is one unit's member. */
    ghost predicate Valid(grid: Grid) {
      && (forall s :: 0 <= s < |series| ==>
            && series[s].setup.grid == grid && series[s].unit < |units|
            && series[s].slot < |units[series[s].unit].members|
            && units[series[s].unit].members[series[s].slot] == s
            && Coverage.Increasing(series[s].before) && Coverage.Increasing(series[s].after)
            && (series[s].before != [] && series[s].after != [] ==>
                  series[s].before[|series[s].before| - 1] <= series[s].after[0]))
      && (forall u, k :: 0 <= u < |units| && 0 <= k < |units[u].members| ==>
            && units[u].members[k] < |series|
            && series[units[u].members[k]].unit == u && series[units[u].members[k]].slot == k)
      && (forall u :: 0 <= u < |units| && !units[u].combine ==> |units[u].members| == 1)
      && forall u :: 0 <= u < |units| && units[u].combine ==> union
    }

    function Setups(u: nat): (r: seq<Setup>)
      requires u < |units| && forall k :: 0 <= k < |units[u].members| ==> units[u].members[k] < |series|
      ensures |r| == |units[u].members|
    {
      seq(|units[u].members|, k requires 0 <= k < |units[u].members| => series[units[u].members[k]].setup)
    }

    function Intervals(u: nat): (r: seq<u64>)
      requires u < |units| && forall k :: 0 <= k < |units[u].members| ==> units[u].members[k] < |series|
      ensures |r| == |units[u].members|
    {
      seq(|units[u].members|, k requires 0 <= k < |units[u].members| => series[units[u].members[k]].interval)
    }

    /** Each member's samples read, of all the rows. */
    function Samples(u: nat, rows: seq<Row>, end: u64): (r: seq<seq<Sample>>)
      requires u < |units| && forall k :: 0 <= k < |units[u].members| ==> units[u].members[k] < |series|
      ensures |r| == |units[u].members|
    {
      seq(|units[u].members|, k requires 0 <= k < |units[u].members| =>
        ReadOf(SeriesRows(rows, units[u].members[k]), series[units[u].members[k]].start, end))
    }

    /** The times of each member's rows. */
    function Times(u: nat, rows: seq<Row>): (r: seq<set<u64>>)
      requires u < |units| && forall k :: 0 <= k < |units[u].members| ==> units[u].members[k] < |series|
      ensures |r| == |units[u].members|
    {
      seq(|units[u].members|, k requires 0 <= k < |units[u].members| =>
        series[units[u].members[k]].Times(SeriesRows(rows, units[u].members[k])))
    }
  }

  /** Unit `u`'s points are those of its members read whole. */
  ghost predicate WholePoints(plan: Plan, u: nat, rows: seq<Row>, grid: Grid, points: seq<Emission>)
    requires plan.Valid(grid) && u < |plan.units| && forall s :: 0 <= s < |plan.series| ==> InOrder(SeriesRows(rows, s))
  {
    SamplesInOrder(plan, u, rows, grid);
    UnitPoints(plan.Setups(u), plan.Samples(u, rows, grid.end), plan.units[u].combine, plan.window, plan.Intervals(u),
               plan.Times(u, rows), grid, points)
  }

  /** Each unit's points are those of its members read whole. */
  ghost predicate WholeUnits(plan: Plan, rows: seq<Row>, grid: Grid, em: seq<seq<Emission>>)
    requires plan.Valid(grid) && forall s :: 0 <= s < |plan.series| ==> InOrder(SeriesRows(rows, s))
  {
    |em| == |plan.units| && forall u :: 0 <= u < |em| ==> WholePoints(plan, u, rows, grid, em[u])
  }

  lemma {:induction false} SamplesInOrder(plan: Plan, u: nat, rows: seq<Row>, grid: Grid)
    requires plan.Valid(grid) && u < |plan.units| && forall s :: 0 <= s < |plan.series| ==> InOrder(SeriesRows(rows, s))
    ensures forall k :: 0 <= k < |plan.Samples(u, rows, grid.end)| ==> InOrder(plan.Samples(u, rows, grid.end)[k])
  {
    forall k | 0 <= k < |plan.units[u].members| ensures InOrder(plan.Samples(u, rows, grid.end)[k]) {
      ReadOfOrder(SeriesRows(rows, plan.units[u].members[k]), plan.series[plan.units[u].members[k]].start, grid.end);
    }
  }

  /** What is asked: the grid, the aggregation, the scalar ops on each group point,
      and how each group's points are reduced. */
  datatype Request = Request(grid: Grid, op: AggOp, ops: Point -> Option<Point>, width: Option<real>, band: (real, real))

  // ----- When a read is given up

  /** Were its series ended early, row `r` would give the read up: every row in a union,
      else those within the times read. */
  predicate Resumes(plan: Plan, grid: Grid, r: Row) {
    r.series < |plan.series| && (plan.union || plan.series[r.series].start <= r.sample.ts <= grid.end)
  }

  /** A row among `rows` resumes a series of `early`. */
  ghost predicate AnyResumes(plan: Plan, grid: Grid, rows: seq<Row>, early: set<nat>) {
    exists i :: 0 <= i < |rows| && rows[i].series in early && Resumes(plan, grid, rows[i])
  }

  lemma {:induction false} ResumesNext(plan: Plan, grid: Grid, rows: seq<Row>, i: nat, early: set<nat>)
    requires i < |rows|
    ensures AnyResumes(plan, grid, rows[..i + 1], early) <==>
            AnyResumes(plan, grid, rows[..i], early) || (rows[i].series in early && Resumes(plan, grid, rows[i]))
  {
    hide Resumes;
    assert forall j :: 0 <= j < i ==> rows[..i][j] == rows[..i + 1][j];
    assert rows[..i + 1][i] == rows[i];
    if AnyResumes(plan, grid, rows[..i], early) {
      var j :| 0 <= j < i && rows[..i][j].series in early && Resumes(plan, grid, rows[..i][j]);
      assert rows[..i + 1][j].series in early;
    }
  }

  /** After chunk `c` the series ended early were `before` and are `now`: the new ones are
      those the scan does not say can return. */
  ghost predicate EndedNow(c: Chunk, before: set<nat>, now: set<nat>) {
    before <= now && forall s :: s in now && s !in before ==> s < |c.later| && !c.later[s].PossibleLater?
  }

  /** With `early[i]` the series ended early before chunk `i`, none of the first `n` chunks
      has a row that resumes one of them. */
  ghost predicate Survives(plan: Plan, grid: Grid, chunks: seq<Chunk>, early: seq<set<nat>>, n: nat) {
    && n <= |chunks| && |early| == n + 1 && early[0] == {}
    && forall i :: 0 <= i < n ==>
         EndedNow(chunks[i], early[i], early[i + 1]) && !AnyResumes(plan, grid, chunks[i].rows, early[i])
  }

  lemma {:induction false} SurvivesMore(plan: Plan, grid: Grid, chunks: seq<Chunk>, early: seq<set<nat>>, n: nat, now: set<nat>)
    requires Survives(plan, grid, chunks, early, n) && n < |chunks| && EndedNow(chunks[n], early[n], now)
    requires !AnyResumes(plan, grid, chunks[n].rows, early[n])
    ensures Survives(plan, grid, chunks, early + [now], n + 1)
  {
    hide EndedNow, AnyResumes;
  }

  /** The read gives up at chunk `n`, the first with a row that resumes a series ended
      early before it; or at none. */
  ghost predicate GivesUp(plan: Plan, grid: Grid, chunks: seq<Chunk>, early: seq<set<nat>>, n: nat) {
    && Survives(plan, grid, chunks, early, n)
    && (n < |chunks| ==> AnyResumes(plan, grid, chunks[n].rows, early[n]))
  }

  /** How far a member has read: its rate's end and samples, its rows' times and the
      rows accepted. */
  datatype MemberState = MemberState(finished: bool, early: bool, seen: seq<Sample>, offered: set<u64>, all: seq<u64>)

  /** A series' next row and those after it. */
  lemma {:induction false} NextRow(x: Sample, xs: seq<Sample>, lo: u64, hi: u64)
    requires InOrder([x] + xs)
    ensures [x] + xs != [] && InOrder(xs) && x in [x] + xs
    ensures forall y :: y in xs ==> y in [x] + xs && x.ts <= y.ts
    ensures ReadOf([x] + xs, lo, hi) == (if lo <= x.ts <= hi then [x] else []) + ReadOf(xs, lo, hi)
    ensures TimesOf([x] + xs) == {x.ts} + TimesOf(xs)
  {
    ReadOfNext(x, xs, lo, hi);
    forall i, j | 0 <= i < j < |xs| ensures xs[i].ts <= xs[j].ts {
      assert ([x] + xs)[i + 1].ts <= ([x] + xs)[j + 1].ts;
    }
    forall y | y in xs ensures x.ts <= y.ts {
      var i :| 0 <= i < |xs| && xs[i] == y;
      assert ([x] + xs)[0].ts <= ([x] + xs)[i + 1].ts;
    }
  }

  lemma {:induction false} TakesNext(seen: seq<Sample>, x: Sample, xs: seq<Sample>, final: seq<Sample>, lo: u64, hi: u64)
    requires ReadOf([x] + xs, lo, hi) == (if lo <= x.ts <= hi then [x] else []) + ReadOf(xs, lo, hi)
    ensures seen + ReadOf([x] + xs, lo, hi) == final ==>
              && (lo <= x.ts <= hi ==> seen + [x] <= final)
              && seen + (if lo <= x.ts <= hi then [x] else []) + ReadOf(xs, lo, hi) == final
  {
    hide ReadOf;
    assert seen + ([x] + ReadOf(xs, lo, hi)) == seen + [x] + ReadOf(xs, lo, hi);
    assert seen + [] == seen && [] + ReadOf(xs, lo, hi) == ReadOf(xs, lo, hi);
  }

  /** No two units share a rate, a stage or a member's rows. */
  ghost predicate UnitsApart(units: seq<UnitRead>) {
    && Distinct(units)
    && (forall u, v :: 0 <= u < v < |units| ==> units[u].stage != units[v].stage)
    && (forall u, v, i, j :: 0 <= u < v < |units| && 0 <= i < |units[u].rates| && 0 <= j < |units[v].rates| ==>
          units[u].rates[i] != units[v].rates[j])
    && forall u, v, i, j :: 0 <= u < v < |units| && 0 <= i < |units[u].stage.tracks| && 0 <= j < |units[v].stage.tracks| ==>
         units[u].stage.tracks[i] != units[v].stage.tracks[j]
  }

  ghost function AllRates(units: seq<UnitRead>): set<SeriesRate> {
    set u, k | 0 <= u < |units| && 0 <= k < |units[u].rates| :: units[u].rates[k]
  }

  ghost function AllStages(units: seq<UnitRead>): set<StageUnit> {
    set u | 0 <= u < |units| :: units[u].stage
  }

  ghost function AllTracks(units: seq<UnitRead>): set<RowTrack> {
    set u, k | 0 <= u < |units| && 0 <= k < |units[u].stage.tracks| :: units[u].stage.tracks[k]
  }

  /** The read, its locals as fields. */
  class GridRead {
    const grid: Grid
    const op: AggOp
    const ops: Point -> Option<Point>
    const lay: Layout
    const series: seq<Scanned>
    const units: seq<UnitRead>
    const sinks: seq<Grouped>
    const flush: GroupFlush
    /** A series ended early was given a row: the read gives up. */
    var resumed: bool

    /** The times of each series' rows, those around the scan included. */
    ghost const times: seq<set<u64>>
    /** Each unit's members, in rank order. */
    ghost const members: seq<seq<nat>>
    /** What the read was made for. */
    ghost const plan: Plan
    /** What has reached the sinks of each unit. */
    ghost var em: seq<seq<Emission>>
    /** A series was ended early though the scan did not say whether rows of it
        follow. */
    ghost var unsure: bool

    constructor (request: Request, lay: Layout, series: seq<Scanned>, units: seq<UnitRead>, sinks: seq<Grouped>,
                 flush: GroupFlush, ghost times: seq<set<u64>>, ghost members: seq<seq<nat>>, ghost plan: Plan)
      ensures this.grid == request.grid && this.op == request.op && this.ops == request.ops
      ensures this.lay == lay && this.series == series && this.units == units && this.sinks == sinks
      ensures this.flush == flush && this.times == times && this.members == members && this.plan == plan
      ensures !resumed && !unsure && em == seq(|units|, _ => [])
    {
      grid, op, ops := request.grid, request.op, request.ops;
      this.lay, this.series, this.units, this.sinks, this.flush := lay, series, units, sinks, flush;
      this.times, this.members, this.plan := times, members, plan;
      resumed, em, unsure := false, seq(|units|, _ => []), false;
    }

    /** What does not change over a read. */
    ghost predicate Shape()
      reads `em, flush
    {
      && grid.Valid() && lay.Valid() && plan.series == series
      && |units| == |em| == |lay.part| && |sinks| == lay.parts && |times| == |series|
      && UnitsApart(units) && Distinct(sinks) && MembersOk()
      && flush.op == op && flush.ops == ops && |flush.reducers| == |flush.next| == lay.groups
      && (forall u :: 0 <= u < |units| ==>
            && units[u].grid == grid && Distinct(units[u].rates) && units[u].staged == plan.union
            && (units[u].combine ==> |units[u].stage.tracks| == |units[u].rates|))
      && (forall s :: 0 <= s < |series| ==> SeriesOk(s))
      && (forall q, s :: 0 <= q < |series| && 0 <= s < |series| && q != s ==>
            series[q].unit != series[s].unit || series[q].slot != series[s].slot)
      && (forall p :: 0 <= p < |sinks| ==>
            sinks[p].op == op && sinks[p].groupOf == lay.groupOf && sinks[p].gridLen == grid.Count())
    }

    /** The series ended early. */
    ghost function Early(): set<nat>
      reads AllRates(units)
    {
      set s | 0 <= s < |series| && SeriesOk(s) && RateOf(s).endedEarly
    }

    /** Every member of a unit is one of the series. */
    ghost predicate MembersOk() {
      && |members| == |units|
      && forall u :: 0 <= u < |units| ==>
           && |members[u]| == |units[u].rates| == |units[u].final|
           && forall k :: 0 <= k < |members[u]| ==>
                members[u][k] < |series| && series[members[u][k]].unit == u && series[members[u][k]].slot == k
    }

    /** Series `s` is a member of its unit. */
    ghost predicate SeriesOk(s: nat)
      requires s < |series|
    {
      && series[s].unit < |units|
      && var unit := units[series[s].unit];
         && series[s].slot < |unit.rates| == |unit.starts| == |unit.final|
         && unit.starts[series[s].slot] == series[s].start && unit.rates[series[s].slot].setup == series[s].setup
         && (unit.combine ==>
               && |unit.stage.tracks| == |unit.rates| && Distinct(unit.stage.tracks)
               && unit.stage.tracks[series[s].slot].interval == series[s].interval)
    }

    function UnitAt(u: nat): UnitRead
      requires u < |units|
    {
      units[u]
    }

    function UnitOf(s: nat): UnitRead
      requires s < |series| && series[s].unit < |units|
    {
      units[series[s].unit]
    }

    /** Series `s`'s rate, a member's of its unit. */
    function RateOf(s: nat): SeriesRate
      requires s < |series| && series[s].unit < |units| && series[s].slot < |units[series[s].unit].rates|
    {
      units[series[s].unit].rates[series[s].slot]
    }

    /** Every sink holds exactly what its units gave and was not fed yet. */
    ghost predicate Sunk()
      requires Shape()
      reads `em, sinks, flush
    {
      forall p, g :: 0 <= p < |sinks| && 0 <= g < lay.groups ==>
        Accumulates(sinks[p], op, lay, em, p, g, flush.next[g])
    }

    /** Every reducer was fed exactly its group's points in the blocks fed. */
    ghost predicate Shows()
      requires Shape()
      reads `em, flush, flush.reducers
    {
      && flush.Valid()
      && forall g :: 0 <= g < lay.groups ==>
           flush.reducers[g].pushed == GroupReadings(op, ops, grid, em, lay.Of(g), Fed(grid, flush.next[g]))
    }

    /** Unit `u` gave what reached its sink, and gives nothing in the blocks fed. */
    ghost predicate UnitOk(u: nat)
      requires Shape() && u < |units|
      reads `em, flush, units[u], units[u].rates, units[u].stage, units[u].stage.tracks
    {
      units[u].Valid() && units[u].out == em[u] && units[u].Safe(Fed(grid, flush.next[lay.groupOf[u]]))
    }

    ghost predicate AllUnits()
      requires Shape()
      reads `em, flush, units, AllRates(units), AllStages(units), AllTracks(units)
    {
      forall u :: 0 <= u < |units| ==> UnitOk(u)
    }

    /** How far series `s`'s member has read. */
    ghost function StateOf(s: nat): MemberState
      requires s < |series| && SeriesOk(s)
      reads RateOf(s), UnitOf(s).TrackOf(series[s].slot)`all, UnitOf(s).TrackOf(series[s].slot)`offered
    {
      var rate, unit := RateOf(s), UnitOf(s);
      MemberState(rate.finished, rate.endedEarly, rate.seen,
                  if unit.combine then unit.stage.tracks[series[s].slot].offered else {},
                  if unit.combine then unit.stage.tracks[series[s].slot].all else [])
    }

    /** Series `s`'s member, in state `st`, has taken all its rows but `xs`. */
    ghost predicate TakenBut(s: nat, st: MemberState, xs: seq<Sample>)
      requires s < |series| == |times| && SeriesOk(s)
    {
      var unit := UnitOf(s);
      && st.seen + ReadOf(xs, series[s].start, grid.end) == unit.final[series[s].slot]
      && (unit.combine ==>
            && st.offered + TimesOf(xs) == times[s]
            && (!st.finished && st.all != [] ==> forall x :: x in xs ==> st.all[|st.all| - 1] <= x.ts))
    }

    /** Series `s`'s member has taken all its rows but `xs`; unless it was ended early
        and then one came, which `gone` records. */
    ghost predicate AwaitsIn(s: nat, st: MemberState, gone: bool, maybe: bool, xs: seq<Sample>)
      requires s < |series| == |times| && SeriesOk(s)
    {
      && InOrder(xs)
      && (st.finished && !st.early ==> xs == [])
      && (st.early ==> maybe || xs == [])
      && ((gone && st.early) || TakenBut(s, st, xs))
    }

    ghost predicate Awaits(s: nat, xs: seq<Sample>)
      requires s < |series| == |times| && SeriesOk(s)
      reads `resumed, `unsure, RateOf(s), UnitOf(s).TrackOf(series[s].slot)`all,
            UnitOf(s).TrackOf(series[s].slot)`offered
    {
      AwaitsIn(s, StateOf(s), resumed, unsure, xs)
    }

    lemma {:induction false} StillAwaits(s: nat, st: MemberState, gone: bool, maybe: bool, gone': bool, maybe': bool,
                                         xs: seq<Sample>)
      requires s < |series| == |times| && SeriesOk(s) && AwaitsIn(s, st, gone, maybe, xs)
      requires (gone ==> gone') && (maybe ==> maybe')
      ensures AwaitsIn(s, st, gone', maybe', xs)
    {
      hide TakenBut;
    }

    ghost predicate AllAwait(rest: seq<Row>)
      requires |series| == |times| && forall s :: 0 <= s < |series| ==> SeriesOk(s)
      reads `resumed, `unsure, AllRates(units), AllTracks(units)`all, AllTracks(units)`offered
    {
      forall s :: 0 <= s < |series| ==> Awaits(s, SeriesRows(rest, s))
    }

    ghost predicate Ready(rest: seq<Row>)
      reads this, sinks, flush, flush.reducers, units, AllRates(units), AllStages(units), AllTracks(units)
    {
      Shape() && Sunk() && Shows() && (resumed ==> unsure) && AllUnits() && AllAwait(rest)
    }

    /** Everything is new, made for `plan` over a scan of `rows`. */
    ghost predicate Opened(plan: Plan, rows: seq<Row>, request: Request)
      reads this, flush, flush.reducers, sinks, units, AllRates(units), AllStages(units), AllTracks(units)
    {
      && grid == request.grid && op == request.op && ops == request.ops && !resumed && !unsure
      && grid.Valid() && lay.Valid() && plan.Valid(grid) && NewPlan(plan, rows) && NewUnitsOf(plan, rows)
      && NewFlush() && |sinks| == lay.parts && Distinct(sinks)
      && forall p :: 0 <= p < |sinks| ==> NewSink(sinks[p], request, lay)
    }

    ghost predicate NewPlan(plan: Plan, rows: seq<Row>)
      reads `em
    {
      && this.plan == plan && plan.series == series && |units| == |plan.units| == |lay.part| == |members|
      && em == seq(|units|, _ => [])
      && UnitsApart(units) && (forall u :: 0 <= u < |units| ==> members[u] == plan.units[u].members)
      && |times| == |series|
      && forall s :: 0 <= s < |series| ==> times[s] == series[s].Times(SeriesRows(rows, s)) && InOrder(SeriesRows(rows, s))
    }

    ghost predicate NewUnitsOf(plan: Plan, rows: seq<Row>)
      requires plan.Valid(grid) && |units| == |plan.units|
      reads units, AllRates(units), AllStages(units), AllTracks(units)
    {
      forall u :: 0 <= u < |units| ==> NewUnitOf(units[u], plan, u, grid, rows)
    }

    ghost predicate NewFlush()
      reads flush, flush.reducers
    {
      && flush.Valid() && flush.op == op && flush.ops == ops && |flush.reducers| == |flush.next| == lay.groups
      && forall g :: 0 <= g < lay.groups ==> flush.next[g] == 0 && flush.reducers[g].pushed == []
    }

    lemma {:induction false} StartsShape(plan: Plan, rows: seq<Row>, request: Request)
      requires Opened(plan, rows, request)
      ensures Shape() && MembersOk() && Made(plan, rows)
    {
      hide UnitsApart, SeriesRows, InOrder, GroupFlush.Valid, UnitRead.Valid, UnitRead.Safe, Plan.Samples, NewRate, NewTrack;
      forall u | 0 <= u < |units| ensures NewUnitOf(units[u], plan, u, grid, rows) && UnitFits(u, plan, rows) {
        UnitIsNew(u, plan, rows, request);
      }
      forall s | 0 <= s < |series| ensures SeriesOk(s) {
        UnitIsNew(series[s].unit, plan, rows, request);
        SeriesFits(s, plan, rows, request);
      }
    }

    ghost predicate UnitFits(u: nat, plan: Plan, rows: seq<Row>)
      requires u < |units| == |plan.units| && plan.Valid(grid)
    {
      && units[u].grid == grid && Distinct(units[u].rates) && units[u].staged == plan.union
      && |plan.units[u].members| == |units[u].rates| == |units[u].final| && units[u].combine == plan.units[u].combine
      && units[u].final == plan.Samples(u, rows, grid.end)
      && (units[u].combine ==>
            && units[u].stage.window == plan.window && |units[u].stage.tracks| == |units[u].rates|
            && Distinct(units[u].stage.tracks))
    }

    lemma {:induction false} UnitIsNew(u: nat, plan: Plan, rows: seq<Row>, request: Request)
      requires Opened(plan, rows, request) && u < |units|
      ensures NewUnitOf(units[u], plan, u, grid, rows) && UnitFits(u, plan, rows)
    {
      hide UnitsApart, SeriesRows, InOrder, GroupFlush.Valid, UnitRead.Safe, Plan.Samples, NewRate, NewTrack, NewSink,
        StageUnit.Valid, UnitRead.MemberOk;
    }

    lemma {:induction false} SeriesFits(s: nat, plan: Plan, rows: seq<Row>, request: Request)
      requires Opened(plan, rows, request) && s < |series| && UnitFits(series[s].unit, plan, rows)
      ensures SeriesOk(s)
    {
      hide UnitsApart, SeriesRows, InOrder, GroupFlush.Valid, UnitRead.Valid, UnitRead.Safe, Plan.Samples, NewRate, NewSink;
      var u := series[s].unit;
      assert NewUnitOf(units[u], plan, u, grid, rows);
    }

    lemma {:induction false} NoneEarly(plan: Plan, rows: seq<Row>, request: Request)
      requires Opened(plan, rows, request)
      ensures Early() == {}
    {
      hide UnitsApart, SeriesRows, InOrder, GroupFlush.Valid, UnitRead.Valid, UnitRead.Safe, Plan.Samples, NewSink,
        SeriesRate.Valid;
      forall s | 0 <= s < |series| && SeriesOk(s) ensures !RateOf(s).endedEarly {
        assert NewUnitOf(units[series[s].unit], plan, series[s].unit, grid, rows);
        assert NewRate(RateOf(s));
      }
    }

    /** Before the first row. */
    lemma {:induction false} Starts(plan: Plan, rows: seq<Row>, request: Request)
      requires Opened(plan, rows, request)
      ensures Ready(rows) && Made(plan, rows) && Early() == {}
    {
      hide Early, UnitsApart, SeriesRows, MembersOk, SeriesOk, Made, UnitRead.Valid, UnitRead.Safe, AwaitsIn, PartAcc;
      StartsShape(plan, rows, request);
      NoneEarly(plan, rows, request);
      forall p, g | 0 <= p < |sinks| && 0 <= g < lay.groups
        ensures Accumulates(sinks[p], op, lay, em, p, g, flush.next[g])
      {
        SinkStarts(p, g, plan, rows, request);
      }
      forall u | 0 <= u < |units| ensures UnitOk(u) {
        assert NewUnitOf(units[u], plan, u, grid, rows);
      }
      forall s | 0 <= s < |series| ensures SeriesOk(s) && Awaits(s, SeriesRows(rows, s)) {
        UnitIsNew(series[s].unit, plan, rows, request);
        SeriesFits(s, plan, rows, request);
        SeriesStarts(s, plan, rows, request);
      }
    }

    lemma {:induction false} SinkStarts(p: nat, g: nat, plan: Plan, rows: seq<Row>, request: Request)
      requires Opened(plan, rows, request) && p < |sinks| && g < lay.groups
      ensures Accumulates(sinks[p], op, lay, em, p, g, flush.next[g])
    {
      hide PartAcc, UnitsApart, SeriesRows, NewUnitOf, GroupFlush.Valid;
      assert NewSink(sinks[p], request, lay);
      forall k | 0 <= k < grid.Count()
        ensures AccAt(sinks[p].blocks[g], grid.Count(), k) == PartAcc(op, lay, em, g, p, k)
      {
        NothingEmitted(op, lay, em, g, p, k);
      }
    }

    lemma {:induction false} SeriesStarts(s: nat, plan: Plan, rows: seq<Row>, request: Request)
      requires Opened(plan, rows, request) && s < |series| && SeriesOk(s) && UnitFits(series[s].unit, plan, rows)
      ensures Awaits(s, SeriesRows(rows, s))
    {
      hide UnitsApart, SeriesRows, InOrder, GroupFlush.Valid, UnitRead.Valid, UnitRead.Safe, NewSink, SeriesRate.Valid,
        RowTrack.Valid, ReadOf;
      var u, xs := series[s].unit, SeriesRows(rows, s);
      assert NewUnitOf(units[u], plan, u, grid, rows);
      assert [] + ReadOf(xs, series[s].start, grid.end) == ReadOf(xs, series[s].start, grid.end);
      assert TimesOf([]) == {};
    }

    /** One point of unit `u` reaches its partition's sink. */
    method EmitOne(u: nat, e: Emission)
      requires Shape() && Sunk() && Shows() && u < |units|
      requires Fed(grid, flush.next[lay.groupOf[u]]) <= e.index < grid.Count() && AtIndex(em[u], e.index) == None
      modifies sinks[lay.part[u]], `em
      ensures Shape() && Sunk() && Shows()
      ensures em == old(em)[u := old(em)[u] + [e]]
    {
      hide PartAcc, GroupReadings, AtIndex, AccAt, UnitsApart, MembersOk, SeriesOk;
      ghost var em0 := em;
      var p := lay.part[u];
      sinks[p].Emit(u, e.index, e.point);
      em := em[u := em[u] + [e]];
      forall g | 0 <= g < lay.groups
        ensures flush.reducers[g].pushed == GroupReadings(op, ops, grid, em, lay.Of(g), Fed(grid, flush.next[g]))
      {
        ReadingsEmit(op, ops, grid, em0, lay.Of(g), u, e, Fed(grid, flush.next[g]));
      }
      forall q, g | 0 <= q < |sinks| && 0 <= g < lay.groups
        ensures Accumulates(sinks[q], op, lay, em, q, g, flush.next[g])
      {
        assert old(Accumulates(sinks[q], op, lay, em, q, g, flush.next[g]));
        forall k | flush.next[g] * BLOCK <= k < grid.Count()
          ensures AccAt(sinks[q].blocks[g], grid.Count(), k) == PartAcc(op, lay, em, g, q, k)
        {
          PartAccEmit(op, lay, em0, u, e, g, q, k);
        }
      }
    }

    /** A unit's points reach its partition's sink, in order. */
    method EmitAll(u: nat, out: seq<Emission>)
      requires Shape() && Sunk() && Shows() && u < |units|
      requires forall i :: 0 <= i < |out| ==> Fed(grid, flush.next[lay.groupOf[u]]) <= out[i].index < grid.Count()
      requires Rising(em[u] + out)
      modifies sinks[lay.part[u]], `em
      ensures Shape() && Sunk() && Shows()
      ensures em == old(em)[u := old(em)[u] + out]
    {
      hide Sunk, Shows, MembersOk, UnitsApart, SeriesOk;
      for i := 0 to |out|
        invariant Shape() && Sunk() && Shows()
        invariant |em| == |old(em)| && em[u] == old(em)[u] + out[..i]
        invariant forall r :: 0 <= r < |em| && r != u ==> em[r] == old(em)[r]
      {
        forall j | 0 <= j < |em[u]| ensures em[u][j].index != out[i].index {
          assert (old(em)[u] + out)[j] == em[u][j] && (old(em)[u] + out)[|old(em)[u]| + i] == out[i];
        }
        NotYet(em[u], out[i].index);
        EmitOne(u, out[i]);
        assert out[..i + 1] == out[..i] + [out[i]];
      }
      assert out[..|out|] == out;
    }

    /** Two series are two members, of one unit or two. */
    lemma {:induction false} SeriesApart(q: nat, s: nat)
      requires Shape() && q < |series| && s < |series| && q != s && SeriesOk(q) && SeriesOk(s)
      ensures RateOf(q) != RateOf(s)
      ensures UnitOf(q).TrackOf(series[q].slot) !! UnitOf(s).TrackOf(series[s].slot)
      ensures UnitOf(q).combine ==> UnitOf(q).stage.tracks[series[q].slot] !in UnitOf(s).TrackOf(series[s].slot)
    {
      hide Fed;
      var u, v := series[q].unit, series[s].unit;
      if u == v {
        assert series[q].slot != series[s].slot;
      } else {
        var i, j := series[q].slot, series[s].slot;
        if u < v {
          assert units[u].rates[i] != units[v].rates[j];
        } else {
          assert units[v].rates[j] != units[u].rates[i];
        }
      }
    }

    /** Two units share nothing a unit's state is read from. */
    lemma {:induction false} UnitApart(u: nat, v: nat)
      requires Shape() && u < |units| && v < |units| && u != v
      ensures units[u] != units[v] && units[u].stage != units[v].stage
      ensures forall i, j :: 0 <= i < |units[u].rates| && 0 <= j < |units[v].rates| ==> units[u].rates[i] != units[v].rates[j]
      ensures forall i, j :: 0 <= i < |units[u].stage.tracks| && 0 <= j < |units[v].stage.tracks| ==>
                units[u].stage.tracks[i] != units[v].stage.tracks[j]
    {
      hide Fed, SeriesOk;
    }

    /** Unit `u` has given `passed`, which has not reached its sink yet. */
    ghost predicate Gave(u: nat, passed: seq<Emission>)
      requires Shape() && u < |units|
      reads `em, flush, units, AllRates(units), AllStages(units), AllTracks(units)
    {
      && units[u].Valid() && units[u].out == em[u] + passed && units[u].Safe(Fed(grid, flush.next[lay.groupOf[u]]))
      && (forall i :: 0 <= i < |passed| ==> Fed(grid, flush.next[lay.groupOf[u]]) <= passed[i].index < grid.Count())
      && forall v :: 0 <= v < |units| && v != u ==> UnitOk(v)
    }

    /** What unit `u` gave reaches its sink. */
    method Pass(u: nat, passed: seq<Emission>)
      requires Shape() && Sunk() && Shows() && u < |units| && Gave(u, passed)
      modifies sinks[lay.part[u]], `em
      ensures Shape() && Sunk() && Shows() && AllUnits()
    {
      hide Sunk, Shows, SeriesOk, UnitsApart, UnitRead.Valid, UnitRead.Safe;
      units[u].OutRises();
      EmitAll(u, passed);
      forall v | 0 <= v < |units| ensures UnitOk(v) {
        if v != u {
          assert old(UnitOk(v));
        }
      }
    }

    /** Series `s`'s next row, before `xs`, reaches its unit. */
    method TakeMember(s: nat, x: Sample, ghost xs: seq<Sample>) returns (passed: seq<Emission>, gone: bool)
      requires Shape() && AllUnits() && s < |series| && SeriesOk(s) && Awaits(s, [x] + xs)
      modifies UnitOf(s)`out, RateOf(s), UnitOf(s).stage`pending, UnitOf(s).stage`emitted, UnitOf(s).stage`from,
               UnitOf(s).TrackOf(series[s].slot)
      ensures Gave(series[s].unit, passed) && (gone ==> unsure)
      ensures AwaitsIn(s, StateOf(s), resumed || gone, unsure, xs)
      ensures RateOf(s).endedEarly == old(RateOf(s).endedEarly)
      ensures gone == (RateOf(s).endedEarly && Resumes(plan, grid, Row(s, x)))
    {
      hide UnitsApart, UnitRead.Valid, UnitRead.Safe, ReadOf, InOrder, TimesOf;
      var u, k := series[s].unit, series[s].slot;
      assert UnitOk(u);
      var unit := units[u];
      NextRow(x, xs, series[s].start, grid.end);
      TakesNext(RateOf(s).seen, x, xs, unit.final[k], series[s].start, grid.end);
      passed, gone := unit.Take(k, x, Fed(grid, flush.next[lay.groupOf[u]]));
      forall v | 0 <= v < |units| && v != u ensures UnitOk(v) {
        UnitApart(u, v);
        assert old(UnitOk(v));
      }
    }

    /** Series `s`'s next row, before `xs`. */
    method TakeRow(s: nat, x: Sample, ghost xs: seq<Sample>)
      requires Shape() && Sunk() && Shows() && AllUnits() && (resumed ==> unsure)
      requires s < |series| && SeriesOk(s) && Awaits(s, [x] + xs)
      modifies `resumed, `em, sinks[lay.part[series[s].unit]], UnitOf(s)`out, RateOf(s), UnitOf(s).stage`pending,
               UnitOf(s).stage`emitted, UnitOf(s).stage`from, UnitOf(s).TrackOf(series[s].slot)
      ensures Shape() && Sunk() && Shows() && AllUnits() && (resumed ==> unsure)
      ensures Awaits(s, xs) && Early() == old(Early())
      ensures resumed == (old(resumed) || (s in Early() && Resumes(plan, grid, Row(s, x))))
    {
      hide Sunk, Shows, MembersOk, UnitsApart, Gave, AwaitsIn, UnitRead.Valid, UnitRead.Safe, Resumes;
      var passed, gone := TakeMember(s, x, xs);
      Pass(series[s].unit, passed);
      resumed := resumed || gone;
      forall q | 0 <= q < |series| ensures SeriesOk(q) && RateOf(q).endedEarly == old(RateOf(q).endedEarly) {
        assert SeriesOk(q);
        if q != s {
          SeriesApart(q, s);
        }
      }
    }

    lemma {:induction false} MemberIs(s: nat, rest: seq<Row>)
      requires Ready(rest) && s < |series|
      ensures SeriesOk(s)
    {
      hide Sunk, Shows, MembersOk, UnitsApart;
    }

    lemma {:induction false} Owned(s: nat)
      requires Shape() && s < |series|
      ensures SeriesOk(s) && UnitOf(s) in units && RateOf(s) in AllRates(units) && UnitOf(s).stage in AllStages(units)
      ensures lay.part[series[s].unit] < |sinks| && sinks[lay.part[series[s].unit]] in sinks
      ensures forall t :: t in UnitOf(s).TrackOf(series[s].slot) ==> t in AllTracks(units)
    {
      hide UnitsApart;
    }

    /** Take one row. */
    method Take(r: Row, ghost rest: seq<Row>)
      requires Ready([r] + rest) && r.series < |series|
      modifies `resumed, `em, sinks, units, AllRates(units), AllStages(units), AllTracks(units)
      ensures Ready(rest)
      ensures Early() == old(Early())
      ensures resumed == (old(resumed) || (r.series in Early() && Resumes(plan, grid, r)))
    {
      hide Sunk, Shows, MembersOk, UnitsApart, UnitOk, SeriesRows, AwaitsIn, Resumes, Early;
      var s := r.series;
      forall q | 0 <= q < |series|
        ensures SeriesOk(q) && SeriesRows([r] + rest, q) == (if q == s then [r.sample] else []) + SeriesRows(rest, q)
      {
        SeriesRowsNext(r, rest, q);
      }
      Owned(s);
      TakeRow(s, r.sample, SeriesRows(rest, s));
      forall q | 0 <= q < |series| ensures SeriesOk(q) && Awaits(q, SeriesRows(rest, q)) {
        assert SeriesOk(q) && old(Awaits(q, SeriesRows([r] + rest, q)));
        if q != s {
          assert [] + SeriesRows(rest, q) == SeriesRows(rest, q);
          SeriesApart(q, s);
          assert StateOf(q) == old(StateOf(q));
          StillAwaits(q, StateOf(q), old(resumed), old(unsure), resumed, unsure, SeriesRows(rest, q));
        }
      }
    }

    /** Series `s` has no more rows, or is taken to have none. */
    method EndOne(s: nat, early: bool)
      requires Shape() && Sunk() && Shows() && AllUnits() && s < |series| && SeriesOk(s)
      modifies `em, sinks[lay.part[series[s].unit]], UnitOf(s)`out, RateOf(s), UnitOf(s).stage`pending,
               UnitOf(s).stage`emitted, UnitOf(s).stage`from, UnitOf(s).TrackOf(series[s].slot)
      ensures Shape() && Sunk() && Shows() && AllUnits()
      ensures Ended(old(StateOf(s)), StateOf(s), early)
    {
      hide Sunk, Shows, MembersOk, UnitsApart, Gave, AllUnits;
      var passed := EndIn(s, early);
      Pass(series[s].unit, passed);
    }

    /** The same: no other series' state changes. */
    method EndAlone(s: nat, early: bool)
      requires Shape() && Sunk() && Shows() && AllUnits() && s < |series| && SeriesOk(s)
      modifies `em, sinks[lay.part[series[s].unit]], UnitOf(s)`out, RateOf(s), UnitOf(s).stage`pending,
               UnitOf(s).stage`emitted, UnitOf(s).stage`from, UnitOf(s).TrackOf(series[s].slot)
      ensures Shape() && Sunk() && Shows() && AllUnits()
      ensures Ended(old(StateOf(s)), StateOf(s), early)
      ensures Early() == old(Early()) + (if early then {s} else {})
      ensures forall q, t :: 0 <= q < |series| && q != s && SeriesOk(q) && old(Bounded(q, t)) ==> Bounded(q, t)
      ensures forall q, w :: 0 <= q < |series| && q != s && SeriesOk(q) ==> Earliest(q, w) == old(Earliest(q, w))
    {
      hide Sunk, Shows, MembersOk, UnitsApart, AllUnits, UnitRead.Bounded, UnitRead.EarliestPoint;
      EndOne(s, early);
      forall q | 0 <= q < |series| && q != s
        ensures SeriesOk(q) && RateOf(q).endedEarly == old(RateOf(q).endedEarly)
      {
        assert SeriesOk(q);
        SeriesApart(q, s);
      }
      forall q, t | 0 <= q < |series| && q != s && SeriesOk(q) && old(Bounded(q, t)) ensures Bounded(q, t) {
        SeriesApart(q, s);
      }
      forall q, w | 0 <= q < |series| && q != s && SeriesOk(q) ensures Earliest(q, w) == old(Earliest(q, w)) {
        SeriesApart(q, s);
      }
    }

    method EndIn(s: nat, early: bool) returns (passed: seq<Emission>)
      requires Shape() && AllUnits() && s < |series| && SeriesOk(s)
      modifies UnitOf(s)`out, RateOf(s), UnitOf(s).stage`pending, UnitOf(s).stage`emitted, UnitOf(s).stage`from,
               UnitOf(s).TrackOf(series[s].slot)
      ensures Gave(series[s].unit, passed) && Ended(old(StateOf(s)), StateOf(s), early)
    {
      hide UnitsApart, UnitRead.Valid, UnitRead.Safe;
      var u, k := series[s].unit, series[s].slot;
      assert UnitOk(u);
      passed := units[u].EndMember(k, early, Fed(grid, flush.next[lay.groupOf[u]]));
      forall v | 0 <= v < |units| && v != u ensures UnitOk(v) {
        UnitApart(u, v);
        assert old(UnitOk(v));
      }
    }

    /** Series `s` emits nothing more before time `t`. */
    ghost predicate Bounded(s: nat, t: u64)
      requires s < |series| && SeriesOk(s)
      reads RateOf(s)
    {
      UnitOf(s).Bounded(series[s].slot, t)
    }

    /** `earliest_point` of series `s`. */
    function Earliest(s: nat, w: u64): Option<u64>
      requires s < |series| && SeriesOk(s)
      reads RateOf(s)
    {
      UnitOf(s).EarliestPoint(series[s].slot, w)
    }

    /** End series `s`, which has no rows to come, or, early, maybe has. */
    method EndSeries(s: nat, early: bool, ghost rest: seq<Row>)
      requires Ready(rest) && s < |series| && SeriesOk(s) && (SeriesRows(rest, s) == [] || (early && unsure))
      modifies `em, sinks, units, AllRates(units), AllStages(units), AllTracks(units)
      ensures Ready(rest)
      ensures SeriesOk(s) && RateOf(s).endedEarly == (early || old(RateOf(s).endedEarly))
      ensures Early() == old(Early()) + (if early then {s} else {})
      ensures forall q, t :: 0 <= q < |series| && q != s && SeriesOk(q) && old(Bounded(q, t)) ==> Bounded(q, t)
      ensures forall q, w :: 0 <= q < |series| && q != s && SeriesOk(q) ==> Earliest(q, w) == old(Earliest(q, w))
    {
      hide Sunk, Shows, MembersOk, UnitsApart, UnitOk, SeriesRows, AwaitsIn, UnitRead.Bounded,
        UnitRead.EarliestPoint, Early;
      Owned(s);
      EndAlone(s, early);
      forall q | 0 <= q < |series| ensures SeriesOk(q) && Awaits(q, SeriesRows(rest, q)) {
        assert SeriesOk(q) && old(Awaits(q, SeriesRows(rest, q)));
        if q != s {
          SeriesApart(q, s);
          assert StateOf(q) == old(StateOf(q));
        } else {
          EndedAwaits(s, old(StateOf(s)), StateOf(s), early, resumed, unsure, SeriesRows(rest, s));
        }
      }
    }

    /** No point a stage holds can be answered yet, of the first `n` units. */
    ghost predicate AllSettled(n: nat)
      reads AllRates(units), AllStages(units), AllTracks(units)
    {
      forall u :: 0 <= u < n && u < |units| && units[u].combine ==> units[u].Settled()
    }

    /** Every point the stages hold and can answer is its unit's. */
    method SettleAll(ghost rest: seq<Row>)
      requires Ready(rest)
      modifies `em, sinks, units`out, AllStages(units), AllTracks(units)`runs, AllTracks(units)`dropped,
               AllTracks(units)`floor
      ensures Ready(rest) && AllSettled(|units|)
    {
      hide Ready;
      for u := 0 to |units|
        invariant Ready(rest) && AllSettled(u)
      {
        if units[u].combine {
          SettleUnit(u, rest);
        }
      }
    }

    method SettleUnit(u: nat, ghost rest: seq<Row>)
      requires Ready(rest) && u < |units| && units[u].combine && AllSettled(u)
      modifies `em, sinks, units`out, AllStages(units), AllTracks(units)`runs, AllTracks(units)`dropped,
               AllTracks(units)`floor
      ensures Ready(rest) && AllSettled(u + 1)
    {
      hide Sunk, Shows, MembersOk, UnitsApart, UnitOk, SeriesRows, AwaitsIn, UnitRead.Settled;
      SettleOne(u);
      forall q | 0 <= q < |series| ensures SeriesOk(q) && Awaits(q, SeriesRows(rest, q)) {
        assert SeriesOk(q) && old(Awaits(q, SeriesRows(rest, q)));
        assert StateOf(q) == old(StateOf(q));
      }
      forall v | 0 <= v < u && units[v].combine ensures units[v].Settled() {
        UnitApart(u, v);
        assert old(units[v].Settled());
      }
    }

    method SettleOne(u: nat)
      requires Shape() && Sunk() && Shows() && AllUnits() && u < |units| && units[u].combine
      modifies `em, sinks[lay.part[u]], UnitAt(u)`out, UnitAt(u).stage`pending, UnitAt(u).stage`settled,
               UnitAt(u).stage`out, UnitAt(u).stage`from, UnitAt(u).stage.tracks`runs,
               UnitAt(u).stage.tracks`dropped, UnitAt(u).stage.tracks`floor
      ensures Shape() && Sunk() && Shows() && AllUnits() && units[u].Settled()
    {
      hide Sunk, Shows, MembersOk, UnitsApart, SeriesOk, UnitRead.Valid, UnitRead.Safe, UnitRead.Settled;
      assert UnitOk(u);
      var passed := units[u].Settle(Fed(grid, flush.next[lay.groupOf[u]]));
      forall v | 0 <= v < |units| && v != u ensures UnitOk(v) {
        UnitApart(u, v);
        assert old(UnitOk(v));
      }
      Pass(u, passed);
    }

    /** Bring group `g`'s reducer up to block `upto`. */
    method FeedTo(g: nat, upto: nat)
      requires Shape() && Sunk() && Shows() && g < lay.groups && upto <= BlockCount(grid.Count())
      modifies flush`next, sinks, flush.reducers[g]
      ensures Shape() && Sunk() && Shows()
      ensures flush.next == old(flush.next)[g := Prelude.Max(old(flush.next)[g], upto)]
    {
      hide GroupReadings, AccAt, PartAcc, Fed, UnitsApart, MembersOk, SeriesOk;
      flush.Feed(g, upto, sinks, grid, lay, em);
    }

    /** Nothing of group `g` is to come or held before time `t`. */
    ghost predicate GroupBounded(g: nat, t: u64)
      requires Shape()
      reads `em, flush, AllRates(units), AllStages(units)
    {
      && (forall s :: 0 <= s < |series| && SeriesOk(s) && lay.groupOf[series[s].unit] == g ==> Bounded(s, t))
      && forall u :: 0 <= u < |units| && lay.groupOf[u] == g ==> units[u].HeldFrom(t)
    }

    /** Feed group `g`'s blocks before time `t`, which none of its units gives a point
        before. */
    method FeedGroup(g: nat, t: u64, ghost rest: seq<Row>)
      requires Ready(rest) && g < lay.groups && GroupBounded(g, t)
      modifies flush, sinks, flush.reducers
      ensures Ready(rest)
      ensures flush.next == old(flush.next)[g := Prelude.Max(old(flush.next)[g], PointsBefore(grid, t) / BLOCK)]
    {
      hide Sunk, Shows, UnitsApart, MembersOk, AwaitsIn, SeriesRows, PointsBefore, Fed, UnitRead.Valid, UnitRead.Safe;
      PointsBeforeCount(grid, t);
      var upto := PointsBefore(grid, t) / BLOCK;
      ghost var next := flush.next;
      GroupIsSafe(g, t, upto);
      FeedTo(g, upto);
      forall u | 0 <= u < |units| ensures UnitOk(u) {
        assert old(UnitOk(u));
      }
      forall q | 0 <= q < |series| ensures SeriesOk(q) && Awaits(q, SeriesRows(rest, q)) {
        assert SeriesOk(q) && old(Awaits(q, SeriesRows(rest, q)));
      }
    }

    lemma {:induction false} GroupIsSafe(g: nat, t: u64, upto: nat)
      requires Shape() && g < lay.groups && GroupBounded(g, t) && upto == PointsBefore(grid, t) / BLOCK
      ensures forall u :: 0 <= u < |units| && lay.groupOf[u] == g ==> units[u].Safe(Fed(grid, upto))
    {
      hide PointsBefore, UnitsApart, UnitRead.Safe, UnitRead.HeldFrom, UnitRead.Bounded;
      forall u | 0 <= u < |units| && lay.groupOf[u] == g ensures units[u].Safe(Fed(grid, upto)) {
        forall k | 0 <= k < |units[u].rates| ensures units[u].Bounded(k, t) {
          var s := members[u][k];
          assert SeriesOk(s) && Bounded(s, t);
        }
        units[u].BoundedIsSafe(t, Fed(grid, upto));
      }
    }

    /** The spacings of those of the first `n` series that have one. */
    ghost function SpacingsOf(n: nat): seq<u64>
      requires n <= |series| && forall s :: 0 <= s < n ==> SeriesOk(s)
      reads AllRates(units)
    {
      if n == 0 then []
      else
        assert SeriesOk(n - 1);
        var sp := RateOf(n - 1).SpacingNs();
        SpacingsOf(n - 1) + (if sp.Some? then [sp.value] else [])
    }

    /** The series that have a spacing: their spacings. */
    method Spacings() returns (spacings: seq<u64>)
      requires Shape()
      ensures (forall s :: 0 <= s < |series| ==> SeriesOk(s)) && spacings == SpacingsOf(|series|)
    {
      hide UnitsApart, MembersOk;
      spacings := [];
      for s := 0 to |series|
        invariant (forall q :: 0 <= q < |series| ==> SeriesOk(q)) && spacings == SpacingsOf(s)
      {
        assert SeriesOk(s);
        var sp := RateOf(s).SpacingNs();
        if sp.Some? {
          spacings := spacings + [sp.value];
        }
      }
    }

    /** A series is silent at `w`: ten of its spacings, or of steps when those are longer,
        have passed since its last sample. */
    function Silent(s: nat, median: Option<u64>, w: u64): bool
      requires s < |series| && SeriesOk(s)
      reads RateOf(s)
    {
      var last := RateOf(s).LastTs();
      var spacing := if RateOf(s).SpacingNs().Some? then RateOf(s).SpacingNs() else median;
      && last.Some? && RateOf(s).Pending().Some? && spacing.Some?
      && SatAdd(last.value, SatMul(Prelude.Max(spacing.value, grid.step), 10)) < w
    }

    /** In numbers. */
    lemma {:induction false} SilentIs(s: nat, median: Option<u64>, w: u64)
      requires s < |series| && SeriesOk(s)
      ensures Silent(s, median, w) <==>
                && RateOf(s).LastTs().Some? && !RateOf(s).done
                && exists spacing ::
                     && (if RateOf(s).SpacingNs().Some? then RateOf(s).SpacingNs() else median) == Some(spacing)
                     && RateOf(s).LastTs().value + 10 * spacing < w && RateOf(s).LastTs().value + 10 * grid.step < w
    {
    }

    /** Whether a series ended early may have rows to come is not known. */
    ghost method NoteUnsure(maybe: bool, rest: seq<Row>)
      requires Ready(rest)
      modifies `unsure
      ensures Ready(rest) && unsure == (old(unsure) || maybe)
    {
      hide Sunk, Shows, MembersOk, UnitsApart, UnitOk, SeriesRows, AwaitsIn;
      unsure := unsure || maybe;
      forall q | 0 <= q < |series| ensures SeriesOk(q) && Awaits(q, SeriesRows(rest, q)) {
        assert SeriesOk(q) && old(Awaits(q, SeriesRows(rest, q)));
        StillAwaits(q, StateOf(q), resumed, old(unsure), resumed, unsure, SeriesRows(rest, q));
      }
    }

    /** End series `s` if it is silent and no rows of it need follow. */
    method EndSilent(s: nat, median: Option<u64>, c: Chunk, w: u64, ghost rest: seq<Row>)
      requires Ready(rest) && !resumed && s < |series| && ChunkOk(c, rest, |series|) && SeriesOk(s)
      modifies `em, `unsure, sinks, units, AllRates(units), AllStages(units), AllTracks(units)
      ensures Ready(rest)
      ensures RateOf(s).endedEarly ==
              (old(RateOf(s).endedEarly) || (old(Silent(s, median, w)) && !c.later[s].PossibleLater?))
      ensures Early() == old(Early()) + (if RateOf(s).endedEarly then {s} else {})
      ensures unsure ==> old(unsure) || c.later[s].UnknownLater?
      ensures forall q, w :: 0 <= q < |series| && q != s && SeriesOk(q) ==> Earliest(q, w) == old(Earliest(q, w))
      ensures forall q, t :: 0 <= q < |series| && q != s && SeriesOk(q) && old(Bounded(q, t)) ==> Bounded(q, t)
    {
      hide Sunk, Shows, MembersOk, UnitsApart, AllUnits, AllAwait, UnitOk, SeriesRows, AwaitsIn, Silent, UnitRead.Bounded,
        UnitRead.EarliestPoint;
      if Silent(s, median, w) && !c.later[s].PossibleLater? {
        NoteUnsure(c.later[s].UnknownLater?, rest);
        EndSeries(s, true, rest);
      }
    }

    /** The earliest point series `s` can still give, with every later row at or
        after `w`. */
    lemma {:induction false} SeriesBounds(s: nat, w: u64, rest: seq<Row>)
      requires Ready(rest) && !resumed && s < |series| && SeriesOk(s)
      requires forall i :: 0 <= i < |rest| ==> rest[i].sample.ts >= w
      ensures var t := UnitOf(s).EarliestPoint(series[s].slot, w);
              if t.Some? then Bounded(s, t.value) else RateOf(s).done
    {
      hide Sunk, Shows, MembersOk, UnitsApart, SeriesRows, UnitRead.Valid, UnitRead.Safe, UnitRead.EarliestPoint,
        UnitRead.Bounded;
      assert Awaits(s, SeriesRows(rest, s)) && UnitOk(series[s].unit);
      RowsAfter(rest, s, series[s].start, grid.end, w);
      UnitOf(s).EarliestBounds(series[s].slot, w, ReadOf(SeriesRows(rest, s), series[s].start, grid.end));
    }

    /** A bound on series `s` is one at any earlier time, and a done series has every
        bound. */
    lemma {:induction false} BoundedEarlier(s: nat, t: u64, earlier: u64)
      requires s < |series| && SeriesOk(s) && earlier <= t && (Bounded(s, t) || RateOf(s).done)
      ensures Bounded(s, earlier)
    {
    }

    function GroupOf(s: nat): nat
      requires s < |series| && series[s].unit < |lay.groupOf|
    {
      lay.groupOf[series[s].unit]
    }

    /** Each of the first `n` series emits nothing before its group's time. */
    ghost predicate AllBounded(pending: seq<u64>, n: nat)
      requires Shape() && |pending| == lay.groups
      reads `em, flush, AllRates(units)
    {
      forall q :: 0 <= q < n && q < |series| && SeriesOk(q) ==> Bounded(q, pending[GroupOf(q)])
    }

    /** Each of the first `n` units holds nothing before its group's time. */
    ghost predicate AllHeld(pending: seq<u64>, n: nat)
      requires Shape() && |pending| == lay.groups
      reads `em, flush, AllStages(units)
    {
      forall v :: 0 <= v < n && v < |units| ==> units[v].HeldFrom(pending[lay.groupOf[v]])
    }

    /** Each group's time is the earliest point of one of its first `n` series, or the
        greatest time. */
    ghost predicate SeriesGive(pending: seq<u64>, w: u64, n: nat)
      requires Shape() && |pending| == lay.groups
      reads `em, flush, AllRates(units)
    {
      forall g :: 0 <= g < lay.groups && pending[g] < U64_MAX ==>
        exists s :: 0 <= s < n && s < |series| && SeriesOk(s) && GroupOf(s) == g && Earliest(s, w) == Some(pending[g])
    }

    /** Each group's time is one of a series' or the time of a point a unit of it holds. */
    ghost predicate UnitsGive(pending: seq<u64>, series: seq<u64>, n: nat)
      requires Shape() && |pending| == |series| == lay.groups
      reads `em, flush, AllStages(units)
    {
      forall g :: 0 <= g < lay.groups ==>
        pending[g] == series[g] ||
        exists u :: 0 <= u < n && u < |units| && lay.groupOf[u] == g && units[u].Holds(pending[g])
    }

    /** End the silent series; and the earliest point each group's series can give. */
    method PendingOf(c: Chunk, w: u64, median: Option<u64>, ghost rest: seq<Row>) returns (pending: seq<u64>)
      requires Ready(rest) && !resumed && ChunkOk(c, rest, |series|) && c.restStart == Some(w)
      modifies `em, `unsure, sinks, units, AllRates(units), AllStages(units), AllTracks(units)
      ensures Ready(rest) && |pending| == lay.groups && AllBounded(pending, |series|) && SeriesGive(pending, w, |series|)
      ensures EndedNow(c, old(Early()), Early())
      ensures unsure ==> old(unsure) || exists s :: 0 <= s < |series| && c.later[s].UnknownLater?
    {
      hide Sunk, Shows, MembersOk, UnitsApart, AllUnits, AllAwait, AllBounded, SeriesGive;
      pending := seq(lay.groups, _ => U64_MAX);
      NothingPending(w, rest);
      for s := 0 to |series|
        invariant Ready(rest) && |pending| == lay.groups && AllBounded(pending, s) && SeriesGive(pending, w, s)
        invariant EndedNow(c, old(Early()), Early())
        invariant unsure ==> old(unsure) || exists s :: 0 <= s < |series| && c.later[s].UnknownLater?
      {
        pending := NextPending(c, w, median, s, pending, rest);
      }
    }

    lemma {:induction false} NothingPending(w: u64, rest: seq<Row>)
      requires Ready(rest)
      ensures AllBounded(seq(lay.groups, _ => U64_MAX), 0) && SeriesGive(seq(lay.groups, _ => U64_MAX), w, 0)
    {
      hide Sunk, Shows, MembersOk, UnitsApart, AllUnits, AllAwait;
    }

    /** Series `s`: ended if silent, then its earliest point. */
    method NextPending(c: Chunk, w: u64, median: Option<u64>, s: nat, pending: seq<u64>, ghost rest: seq<Row>)
      returns (next: seq<u64>)
      requires Ready(rest) && !resumed && ChunkOk(c, rest, |series|) && c.restStart == Some(w) && s < |series|
      requires |pending| == lay.groups && AllBounded(pending, s) && SeriesGive(pending, w, s)
      modifies `em, `unsure, sinks, units, AllRates(units), AllStages(units), AllTracks(units)
      ensures Ready(rest) && |next| == lay.groups && AllBounded(next, s + 1) && SeriesGive(next, w, s + 1)
      ensures EndedNow(c, old(Early()), Early())
      ensures unsure ==> old(unsure) || c.later[s].UnknownLater?
    {
      hide Sunk, Shows, MembersOk, UnitsApart, AllUnits, AllAwait, UnitRead.EarliestPoint, UnitRead.Bounded, AllBounded,
        SeriesGive;
      EndSilentOf(c, w, median, s, pending, rest);
      MemberIs(s, rest);
      SeriesBounds(s, w, rest);
      var t := Earliest(s, w);
      next := pending;
      if t.Some? {
        next := next[GroupOf(s) := Prelude.Min(next[GroupOf(s)], t.value)];
      }
      NextGives(s, w, pending, next);
    }

    /** Series `s` ended if silent: the others are as they were. */
    method EndSilentOf(c: Chunk, w: u64, median: Option<u64>, s: nat, ghost pending: seq<u64>, ghost rest: seq<Row>)
      requires Ready(rest) && !resumed && ChunkOk(c, rest, |series|) && c.restStart == Some(w) && s < |series|
      requires |pending| == lay.groups && AllBounded(pending, s) && SeriesGive(pending, w, s)
      modifies `em, `unsure, sinks, units, AllRates(units), AllStages(units), AllTracks(units)
      ensures Ready(rest) && AllBounded(pending, s) && SeriesGive(pending, w, s)
      ensures EndedNow(c, old(Early()), Early())
      ensures unsure ==> old(unsure) || c.later[s].UnknownLater?
    {
      hide Sunk, Shows, MembersOk, UnitsApart, AllUnits, AllAwait, UnitRead.EarliestPoint, UnitRead.Bounded;
      MemberIs(s, rest);
      EndSilent(s, median, c, w, rest);
      forall q | 0 <= q < s && SeriesOk(q) ensures Bounded(q, pending[GroupOf(q)]) {
        assert old(Bounded(q, pending[GroupOf(q)]));
      }
      forall h | 0 <= h < lay.groups && pending[h] < U64_MAX
        ensures exists q :: 0 <= q < s && q < |series| && SeriesOk(q) && GroupOf(q) == h && Earliest(q, w) == Some(pending[h])
      {
        var q :| 0 <= q < s && q < |series| && SeriesOk(q) && GroupOf(q) == h && old(Earliest(q, w)) == Some(pending[h]);
        assert Earliest(q, w) == Some(pending[h]);
      }
    }

    /** One more series' earliest point. */
    lemma {:induction false} NextGives(s: nat, w: u64, pending: seq<u64>, next: seq<u64>)
      requires Shape() && s < |series| && SeriesOk(s) && |pending| == lay.groups
      requires AllBounded(pending, s) && SeriesGive(pending, w, s)
      requires var t := Earliest(s, w);
               && (if t.Some? then Bounded(s, t.value) else RateOf(s).done)
               && next == if t.Some? then pending[GroupOf(s) := Prelude.Min(pending[GroupOf(s)], t.value)] else pending
      ensures |next| == lay.groups && AllBounded(next, s + 1) && SeriesGive(next, w, s + 1)
    {
      hide MembersOk, UnitsApart, UnitRead.EarliestPoint, UnitRead.Bounded;
      forall q | 0 <= q < s + 1 && SeriesOk(q) ensures Bounded(q, next[GroupOf(q)]) {
        if q < s {
          assert Bounded(q, pending[GroupOf(q)]);
          BoundedEarlier(q, pending[GroupOf(q)], next[GroupOf(q)]);
        } else {
          BoundedEarlier(s, if Earliest(s, w).Some? then Earliest(s, w).value else next[GroupOf(s)], next[GroupOf(s)]);
        }
      }
      forall h | 0 <= h < lay.groups && next[h] < U64_MAX
        ensures exists q :: 0 <= q < s + 1 && q < |series| && SeriesOk(q) && GroupOf(q) == h && Earliest(q, w) == Some(next[h])
      {
        if next[h] != pending[h] {
          assert Earliest(s, w) == Some(next[h]);
        }
      }
    }

    /** The earliest point each group can give, its units' held points included. */
    method WithHeld(series: seq<u64>) returns (pending: seq<u64>)
      requires Shape() && AllUnits() && |series| == lay.groups && AllBounded(series, |this.series|)
      ensures |pending| == lay.groups && AllBounded(pending, |this.series|) && AllHeld(pending, |units|)
      ensures UnitsGive(pending, series, |units|)
    {
      hide MembersOk, UnitsApart, UnitRead.Valid, UnitRead.Safe, UnitRead.Bounded, UnitRead.Holds;
      pending := series;
      for u := 0 to |units|
        invariant |pending| == lay.groups && AllHeld(pending, u) && UnitsGive(pending, series, u)
        invariant forall g :: 0 <= g < lay.groups ==> pending[g] <= series[g]
      {
        assert UnitOk(u);
        var t := units[u].HeldNs();
        ghost var was := pending;
        var g := lay.groupOf[u];
        if t.Some? {
          pending := pending[g := Prelude.Min(pending[g], t.value)];
        }
        forall v | 0 <= v < u + 1 ensures units[v].HeldFrom(pending[lay.groupOf[v]]) {
          if v < u {
            assert units[v].HeldFrom(was[lay.groupOf[v]]);
          }
        }
      }
      forall q | 0 <= q < |this.series| && SeriesOk(q) ensures Bounded(q, pending[GroupOf(q)]) {
        assert Bounded(q, series[GroupOf(q)]);
        BoundedEarlier(q, series[GroupOf(q)], pending[GroupOf(q)]);
      }
    }

    /** After a chunk, with every later row at or after `w`: end the silent series,
        and feed each group's points that no unit of it can still give before. Each
        group is fed up to a point some series or some held point of it may still
        give. */
    method FlushBefore(c: Chunk, w: u64, ghost rest: seq<Row>) returns (ghost series: seq<u64>, ghost bounds: seq<u64>)
      requires Ready(rest) && !resumed && ChunkOk(c, rest, |this.series|) && c.restStart == Some(w)
      modifies `em, `unsure, sinks, units, AllRates(units), AllStages(units), AllTracks(units), flush, flush.reducers
      ensures Ready(rest) && |series| == |bounds| == lay.groups
      ensures SeriesGive(series, w, |this.series|) && UnitsGive(bounds, series, |units|)
      ensures FedTo(old(flush.next), flush.next, bounds)
      ensures EndedNow(c, old(Early()), Early())
      ensures unsure ==> old(unsure) || exists s :: 0 <= s < |this.series| && c.later[s].UnknownLater?
    {
      hide Ready, Shape, AllBounded, AllHeld, ChunkOk, SeriesGive, UnitsGive, FedTo;
      var ss, bs := BoundsOf(c, w, rest);
      series, bounds := ss, bs;
      FeedGroups(bs, series, w, rest);
    }

    /** End the silent series; and the time each group can be fed before. */
    method BoundsOf(c: Chunk, w: u64, ghost rest: seq<Row>) returns (series: seq<u64>, bounds: seq<u64>)
      requires Ready(rest) && !resumed && ChunkOk(c, rest, |this.series|) && c.restStart == Some(w)
      modifies `em, `unsure, sinks, units, AllRates(units), AllStages(units), AllTracks(units)
      ensures Ready(rest) && |series| == |bounds| == lay.groups
      ensures SeriesGive(series, w, |this.series|) && UnitsGive(bounds, series, |units|)
      ensures AllBounded(bounds, |this.series|) && AllHeld(bounds, |units|)
      ensures EndedNow(c, old(Early()), Early())
      ensures unsure ==> old(unsure) || exists s :: 0 <= s < |this.series| && c.later[s].UnknownLater?
    {
      hide Ready, Shape, AllUnits, SeriesOk, AllBounded, AllHeld, ChunkOk, SeriesGive, UnitsGive, SpacingsOf, MedianSpacing;
      ReadyShape(rest);
      var spacings := Spacings();
      var median := if spacings == [] then None else Some(MedianSpacing(spacings));
      series := PendingOf(c, w, median, rest);
      ReadyShape(rest);
      bounds := WithHeld(series);
    }

    lemma {:induction false} ReadyShape(rest: seq<Row>)
      requires Ready(rest)
      ensures Shape() && AllUnits()
    {
    }

    /** Each group was fed the whole blocks before its time. */
    ghost predicate FedTo(was: seq<nat>, now: seq<nat>, bounds: seq<u64>) {
      && |was| == |now| == |bounds|
      && forall g :: 0 <= g < |now| ==> now[g] == Prelude.Max(was[g], PointsBefore(grid, bounds[g]) / BLOCK)
    }

    method FeedGroups(pending: seq<u64>, ghost series: seq<u64>, ghost w: u64, ghost rest: seq<Row>)
      requires Ready(rest) && |pending| == |series| == lay.groups
      requires AllBounded(pending, |this.series|) && AllHeld(pending, |units|)
      requires SeriesGive(series, w, |this.series|) && UnitsGive(pending, series, |units|)
      modifies sinks, flush, flush.reducers
      ensures Ready(rest) && FedTo(old(flush.next), flush.next, pending)
      ensures SeriesGive(series, w, |this.series|) && UnitsGive(pending, series, |units|)
    {
      hide Sunk, Shows, MembersOk, UnitsApart, AllAwait, AllUnits, AllBounded, AllHeld, SeriesGive, UnitsGive, PointsBefore;
      for g := 0 to lay.groups
        invariant Ready(rest) && AllBounded(pending, |this.series|) && AllHeld(pending, |units|)
        invariant SeriesGive(series, w, |this.series|) && UnitsGive(pending, series, |units|)
        invariant forall h :: 0 <= h < lay.groups ==>
                    flush.next[h] == if h < g then Prelude.Max(old(flush.next)[h], PointsBefore(grid, pending[h]) / BLOCK)
                                     else old(flush.next)[h]
      {
        FeedNext(g, pending, series, w, rest);
      }
    }

    method FeedNext(g: nat, pending: seq<u64>, ghost series: seq<u64>, ghost w: u64, ghost rest: seq<Row>)
      requires Ready(rest) && |pending| == |series| == lay.groups && g < lay.groups
      requires AllBounded(pending, |this.series|) && AllHeld(pending, |units|)
      requires SeriesGive(series, w, |this.series|) && UnitsGive(pending, series, |units|)
      modifies sinks, flush, flush.reducers
      ensures Ready(rest) && AllBounded(pending, |this.series|) && AllHeld(pending, |units|)
      ensures SeriesGive(series, w, |this.series|) && UnitsGive(pending, series, |units|)
      ensures flush.next == old(flush.next)[g := Prelude.Max(old(flush.next)[g], PointsBefore(grid, pending[g]) / BLOCK)]
    {
      hide Sunk, Shows, MembersOk, UnitsApart, AllAwait, AllUnits, UnitRead.Bounded, UnitRead.HeldFrom, UnitRead.Holds,
        UnitRead.EarliestPoint;
      FeedGroup(g, pending[g], rest);
      forall q | 0 <= q < |this.series| && SeriesOk(q) ensures Bounded(q, pending[GroupOf(q)]) {
        assert old(Bounded(q, pending[GroupOf(q)]));
      }
      forall v | 0 <= v < |units| ensures units[v].HeldFrom(pending[lay.groupOf[v]]) {
        assert old(units[v].HeldFrom(pending[lay.groupOf[v]]));
      }
      forall h | 0 <= h < lay.groups && series[h] < U64_MAX
        ensures exists s :: 0 <= s < |this.series| && SeriesOk(s) && GroupOf(s) == h && Earliest(s, w) == Some(series[h])
      {
        var s :| 0 <= s < |this.series| && SeriesOk(s) && GroupOf(s) == h && old(Earliest(s, w)) == Some(series[h]);
        assert Earliest(s, w) == Some(series[h]);
      }
      forall h | 0 <= h < lay.groups && pending[h] != series[h]
        ensures exists u :: 0 <= u < |units| && lay.groupOf[u] == h && units[u].Holds(pending[h])
      {
        var u :| 0 <= u < |units| && lay.groupOf[u] == h && old(units[u].Holds(pending[h]));
        assert units[u].Holds(pending[h]);
      }
    }

    /** End the series chunk `c` says no rows follow of. */
    method EndNamed(c: Chunk, ghost rest: seq<Row>)
      requires Ready(c.rows + rest) && ChunkOk(c, rest, |series|)
      modifies `em, sinks, units, AllRates(units), AllStages(units), AllTracks(units)
      ensures Ready(c.rows + rest) && Early() == old(Early())
    {
      hide Ready, Early;
      for i := 0 to |c.ended|
        invariant Ready(c.rows + rest) && Early() == old(Early())
      {
        MemberIs(c.ended[i], c.rows + rest);
        EndSeries(c.ended[i], false, c.rows + rest);
      }
    }

    /** Take a chunk's rows. */
    method TakeRows(rows: seq<Row>, ghost rest: seq<Row>)
      requires Ready(rows + rest) && forall i :: 0 <= i < |rows| ==> rows[i].series < |series|
      modifies `resumed, `em, sinks, units, AllRates(units), AllStages(units), AllTracks(units)
      ensures Ready(rest) && Early() == old(Early()) && resumed == (old(resumed) || AnyResumes(plan, grid, rows, Early()))
    {
      hide Ready, Early, Resumes, AnyResumes;
      assert rows[0..] == rows;
      NoneResumes(rows, Early());
      for i := 0 to |rows|
        invariant Ready(rows[i..] + rest) && Early() == old(Early())
        invariant resumed == (old(resumed) || AnyResumes(plan, grid, rows[..i], Early()))
      {
        assert rows[i..] + rest == [rows[i]] + (rows[i + 1..] + rest);
        Take(rows[i], rows[i + 1..] + rest);
        ResumesNext(plan, grid, rows, i, Early());
      }
      assert rows[|rows|..] + rest == rest && rows[..|rows|] == rows;
    }

    lemma {:induction false} NoneResumes(rows: seq<Row>, early: set<nat>)
      ensures !AnyResumes(plan, grid, rows[..0], early)
    {
    }

    /** One chunk: end the series that have no more rows, take its rows, and pass on what
        can be answered. The partitions share no state, so they are run one after
        another. */
    method RunChunk(c: Chunk, ghost rest: seq<Row>)
      requires Ready(c.rows + rest) && ChunkOk(c, rest, |series|)
      modifies `resumed, `em, sinks, units, AllRates(units), AllStages(units), AllTracks(units)
      ensures Ready(rest) && AllSettled(|units|)
      ensures Early() == old(Early()) && resumed == (old(resumed) || AnyResumes(plan, grid, c.rows, Early()))
    {
      hide Ready, SeriesRows, AnyResumes;
      EndNamed(c, rest);
      TakeRows(c.rows, rest);
      SettleAll(rest);
    }

    /** After chunk `c` the scan does not say whether rows of some series follow. */
    ghost predicate Unknown(c: Chunk) {
      exists s :: 0 <= s < |series| && s < |c.later| && c.later[s].UnknownLater?
    }

    /** Read one chunk; `gone` when a series ended early resumed. */
    method ReadChunk(c: Chunk, ghost rest: seq<Row>) returns (gone: bool)
      requires Ready(c.rows + rest) && !resumed && ChunkOk(c, rest, |series|)
      modifies this, sinks, units, AllRates(units), AllStages(units), AllTracks(units), flush, flush.reducers
      ensures gone ==> unsure
      ensures !gone ==> Ready(rest) && !resumed && EndedNow(c, old(Early()), Early())
      ensures gone == AnyResumes(plan, grid, c.rows, old(Early()))
      ensures unsure ==> old(unsure) || Unknown(c)
    {
      hide Shape, Sunk, Shows, AllUnits, AllAwait, Early, AnyResumes;
      RunChunk(c, rest);
      if resumed {
        return true;
      }
      gone := false;
      if c.restStart.Some? {
        ghost var series, bounds := FlushBefore(c, c.restStart.value, rest);
      }
    }

    /** Read the chunks; `answered` unless a series ended early resumed. */
    method Run(chunks: seq<Chunk>) returns (answered: bool, ghost early: seq<set<nat>>)
      requires Ready(RowsOf(chunks)) && !resumed && !unsure && Early() == {}
      requires forall c :: 0 <= c < |chunks| ==> ChunkOk(chunks[c], RowsOf(chunks[c + 1..]), |series|)
      modifies this, sinks, units, AllRates(units), AllStages(units), AllTracks(units), flush, flush.reducers
      ensures answered ==> Ready([]) && !resumed
      ensures !answered ==> Unsure(chunks, |series|)
      ensures |early| > 0 && GivesUp(plan, grid, chunks, early, |early| - 1)
      ensures |early| - 1 <= |chunks| && (answered <==> |early| - 1 == |chunks|)
    {
      hide Ready, Unknown, ChunkOk, Unsure, Early, EndedNow, AnyResumes, Survives;
      assert chunks[0..] == chunks;
      early := [{}];
      assert Survives(plan, grid, chunks, early, 0) by { SurvivesNone(chunks); }
      for i := 0 to |chunks|
        invariant Ready(RowsOf(chunks[i..])) && !resumed
        invariant unsure ==> Unsure(chunks, |series|)
        invariant |early| == i + 1 && early[i] == Early() && Survives(plan, grid, chunks, early, i)
      {
        assert chunks[i..] == [chunks[i]] + chunks[i + 1..];
        var gone := ReadChunk(chunks[i], RowsOf(chunks[i + 1..]));
        if Unknown(chunks[i]) {
          IsUnsure(chunks, i);
        }
        if gone {
          return false, early;
        }
        SurvivesMore(plan, grid, chunks, early, i, Early());
        early := early + [Early()];
      }
      assert chunks[|chunks|..] == [];
      answered := true;
    }

    lemma {:induction false} SurvivesNone(chunks: seq<Chunk>)
      ensures Survives(plan, grid, chunks, [{}], 0)
    {
    }

    lemma {:induction false} IsUnsure(chunks: seq<Chunk>, i: nat)
      requires i < |chunks| && Unknown(chunks[i])
      ensures Unsure(chunks, |series|)
    {
    }

    /** The read was made for `plan`, over a scan of `rows`. */
    ghost predicate Made(plan: Plan, rows: seq<Row>)
      requires plan.Valid(grid)
    {
      && this.plan == plan && series == plan.series && |units| == |plan.units| && MembersOk() && |times| == |series|
      && (forall u :: 0 <= u < |units| ==>
            && members[u] == plan.units[u].members && units[u].combine == plan.units[u].combine
            && units[u].final == plan.Samples(u, rows, grid.end)
            && (units[u].combine ==> units[u].stage.window == plan.window))
      && forall s :: 0 <= s < |series| ==> times[s] == series[s].Times(SeriesRows(rows, s))
    }

    /** Unit `u`'s members are read whole. */
    ghost predicate WholeUnit(u: nat, plan: Plan, rows: seq<Row>)
      requires u < |units| == |plan.units| && plan.Valid(grid)
      reads units[u].rates, units[u].stage.tracks
    {
      && units[u].final == plan.Samples(u, rows, grid.end)
      && units[u].combine == plan.units[u].combine
      && units[u].Known(plan.Setups(u), plan.window, plan.Intervals(u), plan.Times(u, rows))
      && forall k :: 0 <= k < |units[u].rates| ==> units[u].rates[k].finished && units[u].rates[k].seen == units[u].final[k]
    }

    lemma {:induction false} UnitIsWhole(u: nat, plan: Plan, rows: seq<Row>)
      requires Shape() && plan.Valid(grid) && Made(plan, rows) && u < |units|
      requires forall s :: 0 <= s < |series| ==> InOrder(SeriesRows(rows, s))
      requires forall s :: 0 <= s < |series| && SeriesOk(s) ==> RateOf(s).finished && Taken(s)
      ensures WholeUnit(u, plan, rows)
    {
      hide UnitsApart, ReadOf, SeriesRows, InOrder;
      SamplesInOrder(plan, u, rows, grid);
      forall k | 0 <= k < |units[u].rates|
        ensures units[u].rates[k].finished && units[u].rates[k].seen == units[u].final[k]
        ensures units[u].rates[k].setup == plan.Setups(u)[k]
        ensures units[u].combine ==>
                  && units[u].stage.tracks[k].interval == plan.Intervals(u)[k]
                  && units[u].stage.tracks[k].offered == plan.Times(u, rows)[k]
      {
        assert SeriesOk(members[u][k]) && Taken(members[u][k]);
      }
    }

    /** Series `s` is read: evaluate the rest of it. */
    method EndRate(s: nat)
      requires Shape() && Sunk() && Shows() && AllUnits() && s < |series| && SeriesOk(s)
      modifies `em, sinks[lay.part[series[s].unit]], UnitOf(s)`out, RateOf(s), UnitOf(s).stage`pending,
               UnitOf(s).stage`emitted, UnitOf(s).stage`from
      ensures Shape() && Sunk() && Shows() && AllUnits()
      ensures RateOf(s).finished && RateOf(s).seen == old(RateOf(s).seen)
    {
      hide Sunk, Shows, MembersOk, UnitsApart, UnitRead.Valid, UnitRead.Safe;
      var u, k := series[s].unit, series[s].slot;
      assert UnitOk(u);
      var passed := units[u].End(k, false, Fed(grid, flush.next[lay.groupOf[u]]));
      forall v | 0 <= v < |units| && v != u ensures UnitOk(v) {
        UnitApart(u, v);
        assert old(UnitOk(v));
      }
      Pass(u, passed);
    }

    /** Series `s` has taken all its samples and rows. */
    ghost predicate Taken(s: nat)
      requires s < |series| == |times| && SeriesOk(s)
      reads RateOf(s), UnitOf(s).TrackOf(series[s].slot)`offered
    {
      && RateOf(s).seen == UnitOf(s).final[series[s].slot]
      && (UnitOf(s).combine ==> UnitOf(s).stage.tracks[series[s].slot].offered == times[s])
    }

    lemma {:induction false} AllTaken()
      requires Ready([]) && !resumed
      ensures forall s :: 0 <= s < |series| && SeriesOk(s) ==> Taken(s)
    {
      hide Sunk, Shows, MembersOk, UnitsApart, UnitOk;
      forall s | 0 <= s < |series| && SeriesOk(s) ensures Taken(s) {
        assert Awaits(s, SeriesRows([], s));
        assert RateOf(s).seen + [] == RateOf(s).seen;
      }
    }

    /** The scan is read: evaluate the rest of every series. */
    method EndRates()
      requires Ready([]) && !resumed
      modifies `em, sinks, units, AllRates(units), AllStages(units)
      ensures Shape() && Sunk() && Shows() && AllUnits()
      ensures forall s :: 0 <= s < |series| && SeriesOk(s) ==> RateOf(s).finished && Taken(s)
    {
      hide Sunk, Shows, MembersOk, UnitsApart, UnitOk, AllAwait, Taken;
      AllTaken();
      for s := 0 to |series|
        invariant Shape() && Sunk() && Shows() && AllUnits()
        invariant forall q :: 0 <= q < |series| && SeriesOk(q) ==> (q < s ==> RateOf(q).finished) && Taken(q)
      {
        EndNextRate(s);
      }
    }

    method EndNextRate(s: nat)
      requires Shape() && Sunk() && Shows() && AllUnits() && s < |series|
      requires forall q :: 0 <= q < |series| && SeriesOk(q) ==> (q < s ==> RateOf(q).finished) && Taken(q)
      modifies `em, sinks, units, AllRates(units), AllStages(units)
      ensures Shape() && Sunk() && Shows() && AllUnits()
      ensures forall q :: 0 <= q < |series| && SeriesOk(q) ==> (q < s + 1 ==> RateOf(q).finished) && Taken(q)
    {
      hide Sunk, Shows, MembersOk, UnitsApart, UnitOk;
      Owned(s);
      EndRate(s);
      forall q | 0 <= q < |series| && SeriesOk(q) ensures (q < s + 1 ==> RateOf(q).finished) && Taken(q) {
        assert old(Taken(q));
        if q != s {
          SeriesApart(q, s);
        }
      }
    }

    /** Unit `u` is read whole: its points are those of its members read whole. */
    method FinishUnit(u: nat, ghost plan: Plan, ghost rows: seq<Row>)
      requires Shape() && Sunk() && Shows() && u < |units| == |plan.units| && plan.Valid(grid)
      requires UnitOk(u) && WholeUnit(u, plan, rows)
      requires forall s :: 0 <= s < |plan.series| ==> InOrder(SeriesRows(rows, s))
      modifies `em, sinks[lay.part[u]], UnitAt(u)`out, UnitAt(u).stage`pending, UnitAt(u).stage`settled,
               UnitAt(u).stage`out, UnitAt(u).stage`from, UnitAt(u).stage.tracks
      ensures Shape() && Sunk() && Shows() && |em| == |old(em)|
      ensures forall v :: 0 <= v < |em| && v != u ==> em[v] == old(em)[v]
      ensures WholePoints(plan, u, rows, grid, em[u])
    {
      hide Sunk, Shows, MembersOk, UnitsApart, SeriesOk, UnitRead.Valid, UnitRead.Safe, UnitPoints, UnitRead.Known;
      SamplesInOrder(plan, u, rows, grid);
      var bound := Fed(grid, flush.next[lay.groupOf[u]]);
      var passed := units[u].Finish(plan.Setups(u), plan.window, plan.Intervals(u), plan.Times(u, rows), bound);
      EmitAll(u, passed);
    }

    /** No rows are left: every unit's points are those of its members read whole. */
    method EndAll(ghost plan: Plan, ghost rows: seq<Row>)
      requires Ready([]) && !resumed && plan.Valid(grid) && Made(plan, rows)
      requires forall s :: 0 <= s < |series| ==> InOrder(SeriesRows(rows, s))
      modifies `em, sinks, units, AllRates(units), AllStages(units), AllTracks(units)
      ensures Shape() && Sunk() && Shows() && plan.series == series
      ensures WholeUnits(plan, rows, grid, em)
    {
      hide Sunk, Shows, UnitsApart, MembersOk, SeriesOk, UnitOk, WholeUnit, WholePoints;
      EndRates();
      forall u | 0 <= u < |units| ensures WholeUnit(u, plan, rows) {
        UnitIsWhole(u, plan, rows);
      }
      FinishUnits(plan, rows);
    }

    method FinishUnits(ghost plan: Plan, ghost rows: seq<Row>)
      requires Shape() && Sunk() && Shows() && AllUnits() && |units| == |plan.units| && plan.Valid(grid)
      requires forall s :: 0 <= s < |plan.series| ==> InOrder(SeriesRows(rows, s))
      requires forall u :: 0 <= u < |units| ==> WholeUnit(u, plan, rows)
      modifies `em, sinks, units, AllStages(units), AllTracks(units)
      ensures Shape() && Sunk() && Shows()
      ensures WholeUnits(plan, rows, grid, em)
    {
      hide Sunk, Shows, UnitsApart, MembersOk, SeriesOk, UnitOk, WholePoints;
      for u := 0 to |units|
        invariant Shape() && Sunk() && Shows() && |em| == |plan.units|
        invariant forall v :: u <= v < |units| ==> UnitOk(v) && WholeUnit(v, plan, rows)
        invariant forall v :: 0 <= v < u ==> WholePoints(plan, v, rows, grid, em[v])
      {
        FinishNext(u, plan, rows);
      }
    }

    method FinishNext(u: nat, ghost plan: Plan, ghost rows: seq<Row>)
      requires Shape() && Sunk() && Shows() && u < |units| == |plan.units| && plan.Valid(grid)
      requires forall v :: u <= v < |units| ==> UnitOk(v) && WholeUnit(v, plan, rows)
      requires forall s :: 0 <= s < |plan.series| ==> InOrder(SeriesRows(rows, s))
      modifies `em, sinks, units, AllStages(units), AllTracks(units)
      ensures Shape() && Sunk() && Shows() && |em| == |old(em)|
      ensures forall v :: 0 <= v < |em| && v != u ==> em[v] == old(em)[v]
      ensures forall v :: u + 1 <= v < |units| ==> UnitOk(v) && WholeUnit(v, plan, rows)
      ensures WholePoints(plan, u, rows, grid, em[u])
    {
      hide Sunk, Shows, UnitsApart, MembersOk, SeriesOk, WholePoints, UnitRead.Valid, UnitRead.Safe, UnitRead.Known;
      FinishUnit(u, plan, rows);
      forall v | u + 1 <= v < |units| ensures UnitOk(v) && WholeUnit(v, plan, rows) {
        UnitApart(u, v);
        assert old(UnitOk(v)) && old(WholeUnit(v, plan, rows));
      }
    }

    /** Feed every block of every group. */
    method FeedAll()
      requires Shape() && Sunk() && Shows()
      modifies sinks, flush, flush.reducers
      ensures Shape() && flush.Valid()
      ensures forall g :: 0 <= g < lay.groups ==>
                flush.reducers[g].pushed == GroupReadings(op, ops, grid, em, lay.Of(g), grid.Count())
    {
      hide Sunk, GroupReadings, UnitsApart, MembersOk, SeriesOk;
      for g := 0 to lay.groups
        invariant Shape() && Sunk() && Shows()
        invariant forall h :: 0 <= h < g ==> flush.next[h] >= BlockCount(grid.Count())
      {
        FeedTo(g, BlockCount(grid.Count()));
      }
      forall g | 0 <= g < lay.groups ensures Fed(grid, flush.next[g]) == grid.Count() {
      }
    }

    /** Finish every group's reducer. */
    method Outputs() returns (out: seq<seq<EnvPoint>>)
      requires flush.Valid()
      modifies flush.reducers
      ensures |out| == |flush.reducers|
      ensures forall g :: 0 <= g < |out| ==>
                out[g] == Reduced(flush.reducers[g].width, flush.reducers[g].band, old(flush.reducers[g].pushed))
    {
      hide Reduced;
      out := [];
      for g := 0 to |flush.reducers|
        invariant flush.Valid() && |out| == g
        invariant forall h :: 0 <= h < |flush.reducers| ==> flush.reducers[h].pushed == old(flush.reducers[h].pushed)
        invariant forall h :: 0 <= h < g ==>
                    out[h] == Reduced(flush.reducers[h].width, flush.reducers[h].band, old(flush.reducers[h].pushed))
      {
        var points, decimated := flush.reducers[g].Finish();
        out := out + [points];
      }
    }

    /** A series ended awaits what it did: nothing; or, early, maybe something. */
    lemma {:induction false} EndedAwaits(s: nat, was: MemberState, st: MemberState, early: bool, gone: bool, maybe: bool,
                                         xs: seq<Sample>)
      requires s < |series| == |times| && SeriesOk(s) && AwaitsIn(s, was, gone, maybe, xs) && Ended(was, st, early)
      requires xs == [] || (early && maybe)
      ensures AwaitsIn(s, st, gone, maybe, xs)
    {
      hide ReadOf, TimesOf;
    }
  }

  /** A member in state `was` was ended, maybe early. */
  ghost predicate Ended(was: MemberState, st: MemberState, early: bool) {
    && st.finished && st.early == (early || was.early) && st.seen == was.seen && st.offered == was.offered
  }

  // ----- Before the first row

  method NewRates(series: seq<Setup>) returns (rates: seq<SeriesRate>)
    requires forall s :: 0 <= s < |series| ==> series[s].grid.Valid()
    ensures |rates| == |series| && Distinct(rates)
    ensures forall s :: 0 <= s < |rates| ==> fresh(rates[s]) && rates[s].setup == series[s] && NewRate(rates[s])
  {
    hide SeriesRate.Valid;
    rates := [];
    for i := 0 to |series|
      invariant |rates| == i && Distinct(rates)
      invariant forall s :: 0 <= s < i ==> fresh(rates[s]) && rates[s].setup == series[s] && NewRate(rates[s])
    {
      var rate := new SeriesRate(series[i]);
      rates := rates + [rate];
    }
  }

  ghost predicate NewRate(rate: SeriesRate)
    reads rate
  {
    rate.Valid() && rate.seen == [] && rate.emitted == [] && !rate.finished && !rate.endedEarly
  }

  ghost predicate NewTrack(track: RowTrack, s: Scanned)
    reads track
  {
    && track.Valid() && track.all == [] && !track.finished && track.floor == 0 && track.interval == s.interval
    && track.offered == s.Times([])
  }

  method NewTracks(plan: Plan, u: nat, grid: Grid) returns (tracks: seq<RowTrack>)
    requires plan.Valid(grid) && u < |plan.units|
    ensures |tracks| == |plan.units[u].members| && Distinct(tracks)
    ensures forall k :: 0 <= k < |tracks| ==> fresh(tracks[k]) && NewTrack(tracks[k], plan.series[plan.units[u].members[k]])
  {
    hide NewTrack, Coverage.Increasing;
    tracks := [];
    for k := 0 to |plan.units[u].members|
      invariant |tracks| == k && Distinct(tracks)
      invariant forall j :: 0 <= j < k ==> fresh(tracks[j]) && NewTrack(tracks[j], plan.series[plan.units[u].members[j]])
    {
      var track := NewTrackOf(plan.series[plan.units[u].members[k]]);
      tracks := tracks + [track];
    }
  }

  method NewTrackOf(s: Scanned) returns (track: RowTrack)
    requires Coverage.Increasing(s.before) && Coverage.Increasing(s.after)
    requires s.before != [] && s.after != [] ==> s.before[|s.before| - 1] <= s.after[0]
    ensures fresh(track) && NewTrack(track, s)
  {
    hide RowTrack.Valid, Coverage.Increasing;
    track := new RowTrack(s.interval, s.before, s.after);
    assert TimesOf([]) == {};
  }

  /** A unit before its first row. */
  ghost predicate NewUnitOf(unit: UnitRead, plan: Plan, u: nat, grid: Grid, rows: seq<Row>)
    requires plan.Valid(grid) && u < |plan.units|
    reads unit, unit.rates, unit.stage, unit.stage.tracks
  {
    && unit.Valid() && unit.out == [] && unit.Safe(0)
    && unit.grid == grid && unit.combine == plan.units[u].combine && unit.staged == plan.union
    && unit.final == plan.Samples(u, rows, grid.end)
    && |unit.rates| == |unit.starts| == |plan.units[u].members|
    && (unit.combine ==> unit.stage.window == plan.window && |unit.stage.tracks| == |unit.rates|)
    && forall k :: 0 <= k < |unit.rates| ==>
         && NewRate(unit.rates[k]) && unit.rates[k].setup == plan.series[plan.units[u].members[k]].setup
         && unit.starts[k] == plan.series[plan.units[u].members[k]].start
         && (unit.combine ==> NewTrack(unit.stage.tracks[k], plan.series[plan.units[u].members[k]]))
  }

  method NewUnit(plan: Plan, u: nat, grid: Grid, ghost rows: seq<Row>) returns (unit: UnitRead)
    requires plan.Valid(grid) && grid.Valid() && u < |plan.units|
    requires forall s :: 0 <= s < |plan.series| ==> InOrder(SeriesRows(rows, s))
    ensures fresh(unit) && fresh(unit.stage)
    ensures forall k :: 0 <= k < |unit.rates| ==> fresh(unit.rates[k])
    ensures forall k :: 0 <= k < |unit.stage.tracks| ==> fresh(unit.stage.tracks[k])
    ensures NewUnitOf(unit, plan, u, grid, rows)
  {
    hide SeriesRate.Valid, RowTrack.Valid, StageUnit.Valid, InOrder, SeriesRows, ReadOf, NewRate, NewTrack, NewUnitOf;
    var rates := NewRates(plan.Setups(u));
    var tracks := [];
    if plan.units[u].combine {
      tracks := NewTracks(plan, u, grid);
    }
    TracksStart(plan, u, tracks, plan.units[u].combine, grid);
    var stage := new StageUnit(grid, plan.window, tracks);
    var members := plan.units[u].members;
    var starts := seq(|members|, k requires 0 <= k < |members| && members[k] < |plan.series| => plan.series[members[k]].start);
    unit := new UnitRead(grid, plan.units[u].combine, plan.union, starts, rates, stage, plan.Samples(u, rows, grid.end));
    UnitStarts(plan, u, grid, rows, unit);
  }

  lemma {:induction false} TracksStart(plan: Plan, u: nat, tracks: seq<RowTrack>, combine: bool, grid: Grid)
    requires plan.Valid(grid) && u < |plan.units| && (!combine ==> tracks == [])
    requires combine ==> |tracks| == |plan.units[u].members|
    requires forall k :: 0 <= k < |tracks| && k < |plan.units[u].members| ==>
               NewTrack(tracks[k], plan.series[plan.units[u].members[k]])
    ensures forall k :: 0 <= k < |tracks| ==> tracks[k].Valid() && tracks[k].floor == 0
  {
    hide RowTrack.Valid;
  }

  lemma {:induction false} UnitStarts(plan: Plan, u: nat, grid: Grid, rows: seq<Row>, unit: UnitRead)
    requires plan.Valid(grid) && grid.Valid() && u < |plan.units|
    requires forall s :: 0 <= s < |plan.series| ==> InOrder(SeriesRows(rows, s))
    requires unit.out == [] && unit.grid == grid && unit.combine == plan.units[u].combine && unit.staged == plan.union
    requires unit.final == plan.Samples(u, rows, grid.end) && Distinct(unit.rates) && Distinct(unit.stage.tracks)
    requires |unit.rates| == |unit.starts| == |plan.units[u].members| && unit.stage.window == plan.window
    requires unit.stage.Valid() && unit.stage.out == [] && unit.stage.grid == grid
    requires unit.stage.emitted == unit.stage.pending == seq(|unit.stage.tracks|, _ => [])
    requires unit.stage.from == seq(|unit.stage.tracks|, _ => 0) && (unit.combine ==> |unit.stage.tracks| == |unit.rates|)
    requires forall k :: 0 <= k < |unit.rates| ==>
               && NewRate(unit.rates[k]) && unit.rates[k].setup == plan.Setups(u)[k]
               && unit.starts[k] == plan.series[plan.units[u].members[k]].start
               && (unit.combine ==> NewTrack(unit.stage.tracks[k], plan.series[plan.units[u].members[k]]))
    ensures NewUnitOf(unit, plan, u, grid, rows)
  {
    hide SeriesRate.Valid, RowTrack.Valid, StageUnit.Valid, InOrder, SeriesRows, ReadOf, UnitRead.Valid, UnitRead.Safe;
    SamplesInOrder(plan, u, rows, grid);
    unit.NewIsValid();
  }

  /** A partition's sink before any point. */
  ghost predicate NewSink(sink: Grouped, request: Request, lay: Layout)
    reads sink
  {
    && sink.Valid() && sink.op == request.op && sink.groupOf == lay.groupOf && sink.gridLen == request.grid.Count()
    && |sink.blocks| == lay.groups
    && forall g, k :: 0 <= g < lay.groups && 0 <= k < sink.gridLen ==> AccAt(sink.blocks[g], sink.gridLen, k) == EMPTY_COMPACT
  }

  method NewSinks(request: Request, lay: Layout) returns (sinks: seq<Grouped>)
    requires lay.Valid()
    ensures |sinks| == lay.parts && Distinct(sinks)
    ensures forall p :: 0 <= p < |sinks| ==> fresh(sinks[p]) && NewSink(sinks[p], request, lay)
  {
    LenIsCount(request.grid);
    sinks := [];
    for i := 0 to lay.parts
      invariant |sinks| == i && Distinct(sinks)
      invariant forall p :: 0 <= p < i ==> fresh(sinks[p]) && NewSink(sinks[p], request, lay)
    {
      var sink := new Grouped(request.op, lay.groups, lay.groupOf, request.grid.Len());
      sinks := sinks + [sink];
    }
  }

  method NewReducers(request: Request, n: nat) returns (reducers: seq<BucketReducer>)
    requires request.width.Some? ==> request.width.value > 0.0
    ensures |reducers| == n && Distinct(reducers)
    ensures forall g :: 0 <= g < n ==>
              && fresh(reducers[g]) && reducers[g].Valid() && reducers[g].pushed == []
              && reducers[g].width == request.width && reducers[g].band == request.band
  {
    reducers := [];
    for i := 0 to n
      invariant |reducers| == i && Distinct(reducers)
      invariant forall g :: 0 <= g < i ==>
                  && fresh(reducers[g]) && reducers[g].Valid() && reducers[g].pushed == []
                  && reducers[g].width == request.width && reducers[g].band == request.band
    {
      var reducer := new BucketReducer(request.width, request.band);
      reducers := reducers + [reducer];
    }
  }

  lemma {:induction false} NothingEmitted(op: AggOp, lay: Layout, em: seq<seq<Emission>>, g: nat, p: nat, k: nat)
    requires lay.Valid() && |em| == |lay.part| && forall s :: 0 <= s < |em| ==> em[s] == []
    ensures PartAcc(op, lay, em, g, p, k) == EMPTY_COMPACT
  {
    hide Members;
    NoneEmitted(em, Part(lay.Of(g), lay.part, p), k);
  }

  lemma {:induction false} NoneEmitted(em: seq<seq<Emission>>, sel: seq<bool>, k: nat)
    requires |sel| == |em| && forall s :: 0 <= s < |em| ==> em[s] == []
    ensures Members(em, sel, k) == []
  {
    if em != [] {
      NoneEmitted(em[..|em| - 1], sel[..|em| - 1], k);
    }
  }

  method NewUnits(plan: Plan, grid: Grid, ghost rows: seq<Row>) returns (units: seq<UnitRead>)
    requires plan.Valid(grid) && grid.Valid()
    requires forall s :: 0 <= s < |plan.series| ==> InOrder(SeriesRows(rows, s))
    ensures |units| == |plan.units| && UnitsApart(units)
    ensures forall u :: 0 <= u < |units| ==> fresh(units[u]) && fresh(units[u].stage) && NewUnitOf(units[u], plan, u, grid, rows)
    ensures fresh(AllRates(units)) && fresh(AllStages(units)) && fresh(AllTracks(units))
  {
    hide NewUnitOf;
    units := [];
    for u := 0 to |plan.units|
      invariant |units| == u && UnitsApart(units)
      invariant forall v :: 0 <= v < u ==>
                  && fresh(units[v]) && fresh(units[v].stage) && NewUnitOf(units[v], plan, v, grid, rows)
                  && (forall k :: 0 <= k < |units[v].rates| ==> fresh(units[v].rates[k]))
                  && (forall k :: 0 <= k < |units[v].stage.tracks| ==> fresh(units[v].stage.tracks[k]))
    {
      var unit := NewUnit(plan, u, grid, rows);
      units := units + [unit];
    }
  }

  /** Everything as it is before the first row. */
  method Open(request: Request, plan: Plan, lay: Layout, ghost rows: seq<Row>) returns (read: GridRead)
    requires request.grid.Valid() && lay.Valid() && plan.Valid(request.grid) && |plan.units| == |lay.part|
    requires request.width.Some? ==> request.width.value > 0.0
    requires forall s :: 0 <= s < |plan.series| ==> InOrder(SeriesRows(rows, s))
    ensures fresh(read) && fresh(read.flush)
    ensures fresh(set r | r in read.units) && fresh(set r | r in read.sinks) && fresh(set r | r in read.flush.reducers)
    ensures fresh(AllRates(read.units)) && fresh(AllStages(read.units)) && fresh(AllTracks(read.units))
    ensures read.Early() == {}
    ensures read.Ready(rows) && !read.resumed && !read.unsure && OpenedOn(read, request, lay)
    ensures read.grid == request.grid && read.Made(plan, rows)
  {
    hide NewUnitOf, UnitsApart, GridRead.Ready, NewSink, SeriesRows, InOrder;
    var units := NewUnits(plan, request.grid, rows);
    var sinks := NewSinks(request, lay);
    var reducers := NewReducers(request, lay.groups);
    var flush := new GroupFlush(request.op, request.ops, reducers);
    ghost var times := seq(|plan.series|, s requires 0 <= s < |plan.series| => plan.series[s].Times(SeriesRows(rows, s)));
    ghost var members := seq(|plan.units|, u requires 0 <= u < |plan.units| => plan.units[u].members);
    read := new GridRead(request, lay, plan.series, units, sinks, flush, times, members, plan);
    read.Starts(plan, rows, request);
  }

  /** What a read keeps of what it was opened on. */
  ghost predicate OpenedOn(read: GridRead, request: Request, lay: Layout)
    reads read.flush, read.flush.reducers
  {
    && read.op == request.op && read.ops == request.ops && read.lay == lay && |read.flush.reducers| == lay.groups
    && forall g :: 0 <= g < lay.groups ==>
         read.flush.reducers[g].width == request.width && read.flush.reducers[g].band == request.band
  }

  /** A grouped display read of a scan: `None` when a series ended as silent then had
      another row. Whatever partition reads each unit, however the rows are cut into
      chunks, and whichever series are ended early, each group's output is that of its
      units' points, each unit's from its members read whole. */
  method GridRates(request: Request, plan: Plan, lay: Layout, chunks: seq<Chunk>)
    returns (result: Option<seq<seq<EnvPoint>>>, ghost em: seq<seq<Emission>>, ghost early: seq<set<nat>>)
    requires request.grid.Valid() && lay.Valid() && plan.Valid(request.grid) && |plan.units| == |lay.part|
    requires request.width.Some? ==> request.width.value > 0.0
    requires ScanOk(chunks, |plan.series|)
    ensures result.None? ==> Unsure(chunks, |plan.series|)
    ensures |early| > 0 && GivesUp(plan, request.grid, chunks, early, |early| - 1)
    ensures result.None? <==> |early| - 1 < |chunks|
    ensures result.Some? ==>
              && WholeUnits(plan, RowsOf(chunks), request.grid, em)
              && |result.value| == lay.groups
              && forall g :: 0 <= g < lay.groups ==>
                   result.value[g] == Reduced(request.width, request.band,
                     GroupReadings(request.op, request.ops, request.grid, em, lay.Of(g), request.grid.Count()))
  {
    hide WholeUnits, Reduced, GroupReadings, GivesUp, GridRead.Early, GridRead.Ready, GridRead.Sunk, GridRead.Shows, UnitsApart, ChunkOk;
    em := [];
    var read := Open(request, plan, lay, RowsOf(chunks));
    var answered;
    answered, early := read.Run(chunks);
    if !answered {
      return None, [], early;
    }
    read.EndAll(plan, RowsOf(chunks));
    read.FeedAll();
    em := read.em;
    var out := read.Outputs();
    result := Some(out);
  }
}
