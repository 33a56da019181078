/** What a group shows, said of its series' points: at each grid point the point of those
    that have one, through the request's scalar ops. */
module GroupMeaning {
  import opened Prelude
  import opened RateSpec
  import opened Aggregate
  import opened Display
  import opened Grouping
  import opened UnionMeaning

  // ----- A group's point

  /** The members' lower band edges, or (`high`) the upper; a member without a band has its
      value as both. */
  function BandEdges(ps: seq<Point>, high: bool): (vs: seq<real>)
    ensures |vs| == |ps|
  {
    seq(|ps|, i requires 0 <= i < |ps| =>
      if ps[i].bounds.None? then ps[i].v else if high then ps[i].bounds.value.1 else ps[i].bounds.value.0)
  }

  lemma {:induction false} SlotBands(ps: seq<Point>)
    ensures SlotOf(ps).lo == Aggregate.Total(BandEdges(ps, false)) && SlotOf(ps).hi == Aggregate.Total(BandEdges(ps, true))
  {
    if ps != [] {
      var n := |ps| - 1;
      SlotBands(ps[..n]);
      assert BandEdges(ps, false)[..n] == BandEdges(ps[..n], false);
      assert BandEdges(ps, true)[..n] == BandEdges(ps[..n], true);
    }
  }

  /** A value of a group: the members' total, mean, least, greatest or number. */
  ghost predicate IsValue(op: AggOp, ps: seq<Point>, v: real) {
    match op
    case Sum => v == Aggregate.Total(PointValues(ps))
    case Avg => v * |ps| as real == Aggregate.Total(PointValues(ps))
    case Min => IsExtreme(ps, v, false)
    case Max => IsExtreme(ps, v, true)
    case Count => v == |ps| as real
  }

  ghost predicate AnyInterpolated(ps: seq<Point>) {
    exists i :: 0 <= i < |ps| && ps[i].interpolated
  }

  ghost predicate AnyBanded(ps: seq<Point>) {
    exists i :: 0 <= i < |ps| && ps[i].bounds.Some?
  }

  /** The point `p` of a group at `t`, of members `ps`: all its fields. */
  ghost predicate IsGroupPoint(op: AggOp, t: u64, ps: seq<Point>, p: Point) {
    && ps != [] && p.t == t && !p.timing && IsValue(op, ps, p.v)
    && (p.interpolated <==> AnyInterpolated(ps))
    && (p.bounds.Some? <==> op in {Sum, Avg} && AnyBanded(ps) && !AnyInterpolated(ps))
    && (p.bounds.Some? ==>
          && p.bounds.value.0 * (if op == Sum then 1 else |ps|) as real == Aggregate.Total(BandEdges(ps, false))
          && p.bounds.value.1 * (if op == Sum then 1 else |ps|) as real == Aggregate.Total(BandEdges(ps, true)))
  }

  lemma {:induction false} TimesCount(a: real, n: nat)
    requires n > 0
    ensures a / n as real * n as real == a
  {
  }

  /** The point accumulated is the group's; it has edges when all members have the same. */
  lemma {:induction false} GroupPointIs(op: AggOp, t: u64, ps: seq<Point>)
    requires ps != []
    ensures var p := SlotPoint(op, t, SlotOf(ps));
            && IsGroupPoint(op, t, ps, p)
            && p.edges == if forall i :: 0 <= i < |ps| ==> ps[i].edges == ps[0].edges then ps[0].edges else None
  {
    hide SlotOf, Aggregate.Total, IsExtreme;
    SlotBands(ps);
    ValueOfMembers(op, t, ps);
    BandGiven(op, t, ps);
    FlagsOf(ps);
    EdgesSurvive(ps);
    TimesCount(SlotOf(ps).lo, |ps|);
    TimesCount(SlotOf(ps).hi, |ps|);
  }

  // ----- A group's members

  /** `ms` are the points at grid index `k` of the selected series, of all that have one. */
  ghost predicate MembersAt(em: seq<seq<Emission>>, sel: seq<bool>, k: nat, ms: seq<Point>)
    requires |sel| == |em|
  {
    exists ss: seq<nat> :: MembersOf(em, sel, k, ms, ss)
  }

  ghost predicate MembersOf(em: seq<seq<Emission>>, sel: seq<bool>, k: nat, ms: seq<Point>, ss: seq<nat>)
    requires |sel| == |em|
  {
    && |ss| == |ms| && (forall i, j :: 0 <= i < j < |ss| ==> ss[i] < ss[j])
    && (forall i :: 0 <= i < |ss| ==> ss[i] < |em| && sel[ss[i]] && Emission(k, ms[i]) in em[ss[i]])
    && forall s :: 0 <= s < |em| && sel[s] && HasIndex(em[s], k) ==> s in ss
  }

  ghost predicate HasIndex(es: seq<Emission>, k: nat) {
    exists e :: e in es && e.index == k
  }

  lemma {:induction false} MembersMore(em: seq<seq<Emission>>, sel: seq<bool>, k: nat, ms: seq<Point>, ss: seq<nat>,
                                       es: seq<Emission>, selected: bool, own: seq<Point>)
    requires |sel| == |em| && MembersOf(em, sel, k, ms, ss)
    requires if own == [] then !selected || !HasIndex(es, k) else |own| == 1 && selected && Emission(k, own[0]) in es
    ensures MembersOf(em + [es], sel + [selected], k, ms + own, if own == [] then ss else ss + [|em|])
  {
    hide HasIndex;
    var more := if own == [] then ss else ss + [|em|];
    forall s | 0 <= s < |em| + 1 && (sel + [selected])[s] && HasIndex((em + [es])[s], k) ensures s in more {
      if s < |em| {
        assert (em + [es])[s] == em[s] && (sel + [selected])[s] == sel[s];
        assert s in ss;
      }
    }
  }

  lemma {:induction false} MembersAre(em: seq<seq<Emission>>, sel: seq<bool>, k: nat) returns (ss: seq<nat>)
    requires |sel| == |em| && forall s :: 0 <= s < |em| ==> Rising(em[s])
    ensures MembersOf(em, sel, k, Members(em, sel, k), ss)
  {
    hide AtIndex, Rising, MembersOf;
    if em == [] {
      ss := [];
      assert MembersOf(em, sel, k, [], ss) by { NoMembers(k); }
    } else {
      var n := |em| - 1;
      var before := MembersAre(em[..n], sel[..n], k);
      var own := Own(em[n], sel[n], k);
      AtIndexIs(em[n], k);
      MembersMore(em[..n], sel[..n], k, Members(em[..n], sel[..n], k), before, em[n], sel[n], own);
      assert em == em[..n] + [em[n]] && sel == sel[..n] + [sel[n]];
      ss := if own == [] then before else before + [n];
    }
  }

  lemma {:induction false} NoMembers(k: nat)
    ensures MembersOf([], [], k, [], [])
  {
  }

  // ----- A group's readings

  /** The ops keep the point of members `ms` at grid index `k`, and `r` is it as read. */
  ghost predicate IsReading(op: AggOp, ops: Point -> Option<Point>, g: Grid, k: nat, ms: seq<Point>, r: Reading) {
    exists p, q :: 0 <= g.Time(k) <= U64_MAX && IsGroupPoint(op, g.Time(k), ms, p) && p.edges == None
      && ops(p) == Some(q) && r == Reading(q.t as real / 1000000000.0, q.v, q.bounds, q.interpolated)
  }

  /** There are no members at grid index `k`, or the ops drop their point. */
  ghost predicate NoReading(op: AggOp, ops: Point -> Option<Point>, g: Grid, k: nat, ms: seq<Point>) {
    ms == [] || exists p :: 0 <= g.Time(k) <= U64_MAX && IsGroupPoint(op, g.Time(k), ms, p) && p.edges == None && ops(p) == None
  }

  /** The first `n` grid points' readings are `rs`, at the grid indices `ks`: one for each
      that has members whose point the ops keep, and no other. */
  ghost predicate ReadingsAt(op: AggOp, ops: Point -> Option<Point>, g: Grid, em: seq<seq<Emission>>, sel: seq<bool>,
                             n: nat, rs: seq<Reading>, ks: seq<nat>)
    requires |sel| == |em|
  {
    && |ks| == |rs| && (forall i, j :: 0 <= i < j < |ks| ==> ks[i] < ks[j])
    && (forall i :: 0 <= i < |ks| ==> ks[i] < n && ReadAt(op, ops, g, em, sel, ks[i], rs[i]))
    && forall k: nat :: k < n && k !in ks ==> UnreadAt(op, ops, g, em, sel, k)
  }

  ghost predicate ReadAt(op: AggOp, ops: Point -> Option<Point>, g: Grid, em: seq<seq<Emission>>, sel: seq<bool>, k: nat,
                         r: Reading)
    requires |sel| == |em|
  {
    exists ms :: MembersAt(em, sel, k, ms) && IsReading(op, ops, g, k, ms, r)
  }

  ghost predicate UnreadAt(op: AggOp, ops: Point -> Option<Point>, g: Grid, em: seq<seq<Emission>>, sel: seq<bool>, k: nat)
    requires |sel| == |em|
  {
    exists ms :: MembersAt(em, sel, k, ms) && NoReading(op, ops, g, k, ms)
  }

  /** What a group shows at one grid point. */
  lemma {:induction false} ShownIs(op: AggOp, ops: Point -> Option<Point>, g: Grid, k: nat, ms: seq<Point>)
    requires 0 <= g.Time(k) <= U64_MAX
    ensures var rs := ShownAt(op, ops, g, k, CompactOf(op, ms));
            if rs == [] then NoReading(op, ops, g, k, ms) else |rs| == 1 && IsReading(op, ops, g, k, ms, rs[0])
  {
    hide CompactOf, SlotOf, SlotPoint, CompactPoint, IsGroupPoint;
    if ms != [] {
      CompactPointIsSlotPoint(op, g.Time(k), ms);
      GroupPointIs(op, g.Time(k), ms);
      var p := CompactPoint(op, g.Time(k), CompactOf(op, ms));
      WithoutEdges(op, g.Time(k), ms, SlotPoint(op, g.Time(k), SlotOf(ms)));
      assert IsGroupPoint(op, g.Time(k), ms, p) && p.edges == None;
    }
  }

  lemma {:induction false} WithoutEdges(op: AggOp, t: u64, ps: seq<Point>, p: Point)
    requires IsGroupPoint(op, t, ps, p)
    ensures IsGroupPoint(op, t, ps, p.(edges := None))
  {
  }

  /** A group's readings are those of its members. */
  lemma {:induction false} ReadingsAre(op: AggOp, ops: Point -> Option<Point>, g: Grid, em: seq<seq<Emission>>,
                                       sel: seq<bool>, n: nat) returns (ks: seq<nat>)
    requires |sel| == |em| && n <= g.Count() && forall s :: 0 <= s < |em| ==> Rising(em[s])
    ensures ReadingsAt(op, ops, g, em, sel, n, GroupReadings(op, ops, g, em, sel, n), ks)
  {
    hide ReadingsAt, ReadAt, UnreadAt, ShownAt, CompactOf, Members, Rising, Grid.Count, Grid.Time;
    if n == 0 {
      ks := [];
      NoReadings(op, ops, g, em, sel);
    } else {
      var k := n - 1;
      var before := ReadingsAre(op, ops, g, em, sel, k);
      OfGrid(g, k);
      ReadingIs(op, ops, g, em, sel, k);
      var more := ShownAt(op, ops, g, k, CompactOf(op, Members(em, sel, k)));
      ReadingsMore(op, ops, g, em, sel, k, GroupReadings(op, ops, g, em, sel, k), before, more);
      ks := if more == [] then before else before + [k];
    }
  }

  lemma {:induction false} OfGrid(g: Grid, k: nat)
    requires k < g.Count()
    ensures 0 <= g.Time(k) <= U64_MAX
  {
    Counted(g, k);
  }

  lemma {:induction false} NoReadings(op: AggOp, ops: Point -> Option<Point>, g: Grid, em: seq<seq<Emission>>, sel: seq<bool>)
    requires |sel| == |em|
    ensures ReadingsAt(op, ops, g, em, sel, 0, [], [])
  {
  }

  lemma {:induction false} ReadingsMore(op: AggOp, ops: Point -> Option<Point>, g: Grid, em: seq<seq<Emission>>,
                                        sel: seq<bool>, n: nat, rs: seq<Reading>, ks: seq<nat>, more: seq<Reading>)
    requires |sel| == |em| && ReadingsAt(op, ops, g, em, sel, n, rs, ks)
    requires if more == [] then UnreadAt(op, ops, g, em, sel, n)
             else |more| == 1 && ReadAt(op, ops, g, em, sel, n, more[0])
    ensures ReadingsAt(op, ops, g, em, sel, n + 1, rs + more, if more == [] then ks else ks + [n])
  {
    hide ReadAt, UnreadAt;
  }

  lemma {:induction false} ReadingIs(op: AggOp, ops: Point -> Option<Point>, g: Grid, em: seq<seq<Emission>>,
                                     sel: seq<bool>, k: nat)
    requires |sel| == |em| && 0 <= g.Time(k) <= U64_MAX && forall s :: 0 <= s < |em| ==> Rising(em[s])
    ensures var more := ShownAt(op, ops, g, k, CompactOf(op, Members(em, sel, k)));
            if more == [] then UnreadAt(op, ops, g, em, sel, k)
            else |more| == 1 && ReadAt(op, ops, g, em, sel, k, more[0])
  {
    hide Members, MembersOf, IsReading, NoReading, ShownAt, CompactOf, Rising;
    var ms := Members(em, sel, k);
    var ss := MembersAre(em, sel, k);
    assert MembersAt(em, sel, k, ms);
    ShownIs(op, ops, g, k, ms);
  }

  /** The scalar ops multiply by `c`. */
  ghost predicate Scales(ops: Point -> Option<Point>, c: real) {
    forall p: Point :: ops(p) == Some(p.(v := c * p.v))
  }

  lemma {:induction false} ScalesAt(ops: Point -> Option<Point>, c: real, p: Point)
    requires Scales(ops, c)
    ensures ops(p) == Some(p.(v := c * p.v))
  {
  }

  /** Scalar ops that multiply by `c`: each reading is `c` times its members' value, at its
      grid point's time. */
  lemma {:induction false} ScaledReading(op: AggOp, ops: Point -> Option<Point>, g: Grid, em: seq<seq<Emission>>,
                                         sel: seq<bool>, c: real, rs: seq<Reading>, ks: seq<nat>, i: nat)
    requires |sel| == |em| && ReadingsAt(op, ops, g, em, sel, g.Count(), rs, ks) && i < |rs|
    requires Scales(ops, c)
    ensures exists ms, v :: MembersAt(em, sel, ks[i], ms) && IsValue(op, ms, v) && rs[i].v == c * v
    ensures rs[i].t == g.Time(ks[i]) as real / 1000000000.0
    ensures forall k: nat :: k < g.Count() && k !in ks ==> MembersAt(em, sel, k, [])
  {
    hide MembersAt, IsValue, UnreadAt, IsReading, NoReading, Scales;
    assert ReadAt(op, ops, g, em, sel, ks[i], rs[i]);
    var ms :| MembersAt(em, sel, ks[i], ms) && IsReading(op, ops, g, ks[i], ms, rs[i]);
    ScaledIs(op, ops, g, ks[i], ms, c, rs[i]);
    forall k: nat | k < g.Count() && k !in ks ensures MembersAt(em, sel, k, []) {
      NoneUnread(op, ops, g, em, sel, c, k);
    }
  }

  lemma {:induction false} NoneUnread(op: AggOp, ops: Point -> Option<Point>, g: Grid, em: seq<seq<Emission>>,
                                      sel: seq<bool>, c: real, k: nat)
    requires |sel| == |em| && UnreadAt(op, ops, g, em, sel, k)
    requires Scales(ops, c)
    ensures MembersAt(em, sel, k, [])
  {
    hide MembersAt, IsGroupPoint, Scales;
    var ms :| MembersAt(em, sel, k, ms) && NoReading(op, ops, g, k, ms);
    if ms != [] {
      var p :| 0 <= g.Time(k) <= U64_MAX && IsGroupPoint(op, g.Time(k), ms, p) && p.edges == None && ops(p) == None;
      ScalesAt(ops, c, p);
      assert false;
    }
  }

  lemma {:induction false} ScaledIs(op: AggOp, ops: Point -> Option<Point>, g: Grid, k: nat, ms: seq<Point>, c: real,
                                    r: Reading)
    requires IsReading(op, ops, g, k, ms, r) && Scales(ops, c)
    ensures r.t == g.Time(k) as real / 1000000000.0 && exists v :: IsValue(op, ms, v) && r.v == c * v
  {
    hide IsValue, Scales;
    var p, q :| 0 <= g.Time(k) <= U64_MAX && IsGroupPoint(op, g.Time(k), ms, p) && p.edges == None
      && ops(p) == Some(q) && r == Reading(q.t as real / 1000000000.0, q.v, q.bounds, q.interpolated);
    ScalesAt(ops, c, p);
    assert IsValue(op, ms, p.v);
  }
}
