/** A group's accumulators, one for each grid point. Values are reals, so the order
    members are added in does not matter; the seeds of a minimum and a maximum are
    infinities. */
module Aggregate {
  import opened Prelude
  import opened RateSpec

  datatype AggOp = Sum | Avg | Min | Max | Count

  datatype Extended = MinusInfinity | Finite(r: real) | PlusInfinity

  function LeastOf(a: Extended, b: Extended): Extended {
    match (a, b)
    case (MinusInfinity, _) => a
    case (_, MinusInfinity) => b
    case (PlusInfinity, _) => b
    case (_, PlusInfinity) => a
    case (Finite(x), Finite(y)) => if x <= y then a else b
  }

  function GreatestOf(a: Extended, b: Extended): Extended {
    match (a, b)
    case (PlusInfinity, _) => a
    case (_, PlusInfinity) => b
    case (MinusInfinity, _) => b
    case (_, MinusInfinity) => a
    case (Finite(x), Finite(y)) => if x <= y then b else a
  }

  /** The value as a number; an accumulator with members has one. */
  function Number(a: Extended): real {
    if a.Finite? then a.r else 0.0
  }

  function Lo(p: Point): real {
    if p.bounds.Some? then p.bounds.value.0 else p.v
  }

  function Hi(p: Point): real {
    if p.bounds.Some? then p.bounds.value.1 else p.v
  }

  // ----- Everything kept: values, band, flags and edges

  datatype Slot = Slot(sum: real, count: nat, min: Extended, max: Extended, lo: real, hi: real,
                       anyBounded: bool, anyInterpolated: bool, edges: Option<RateEdges>, unanimous: bool)

  const EMPTY_SLOT := Slot(0.0, 0, PlusInfinity, MinusInfinity, 0.0, 0.0, false, false, None, true)

  function AddToSlot(a: Slot, p: Point): Slot {
    Slot(a.sum + p.v, a.count + 1, LeastOf(a.min, Finite(p.v)), GreatestOf(a.max, Finite(p.v)),
         a.lo + Lo(p), a.hi + Hi(p), a.anyBounded || p.bounds.Some?, a.anyInterpolated || p.interpolated,
         if a.count == 0 then p.edges else a.edges,
         a.unanimous && (a.count == 0 || a.edges == p.edges))
  }

  function MergeSlots(a: Slot, b: Slot): Slot {
    if b.count == 0 then a
    else if a.count == 0 then b
    else
      Slot(a.sum + b.sum, a.count + b.count, LeastOf(a.min, b.min), GreatestOf(a.max, b.max),
           a.lo + b.lo, a.hi + b.hi, a.anyBounded || b.anyBounded, a.anyInterpolated || b.anyInterpolated,
           a.edges, a.unanimous && b.unanimous && a.edges == b.edges)
  }

  /** `group_point`: the value, band and flags of an accumulated point. */
  function GroupPoint(op: AggOp, t: u64, sum: Extended, min: Extended, max: Extended, count: nat, lo: real, hi: real,
                      anyBounded: bool, anyInterpolated: bool, edges: Option<RateEdges>): Point
    requires count > 0
  {
    var v := match op
             case Sum => Number(sum)
             case Avg => Number(sum) / count as real
             case Min => Number(min)
             case Max => Number(max)
             case Count => count as real;
    var bounds := if anyBounded && !anyInterpolated then
                    match op
                    case Sum => Some((lo, hi))
                    case Avg => Some((lo / count as real, hi / count as real))
                    case Min | Max | Count => None
                  else None;
    Point(t, v, bounds, edges, anyInterpolated, false)
  }

  function SlotPoint(op: AggOp, t: u64, a: Slot): Point
    requires a.count > 0
  {
    GroupPoint(op, t, Finite(a.sum), a.min, a.max, a.count, a.lo, a.hi, a.anyBounded, a.anyInterpolated,
               if a.unanimous then a.edges else None)
  }

  /** The accumulator of `ps`, added one by one. */
  function SlotOf(ps: seq<Point>): (a: Slot)
    ensures a.count == |ps|
  {
    if ps == [] then EMPTY_SLOT else AddToSlot(SlotOf(ps[..|ps| - 1]), ps[|ps| - 1])
  }

  lemma {:induction false} MergeAdds(a: Slot, b: Slot, p: Point)
    requires (a.count == 0 ==> a == EMPTY_SLOT) && (b.count == 0 ==> b == EMPTY_SLOT)
    ensures MergeSlots(a, AddToSlot(b, p)) == AddToSlot(MergeSlots(a, b), p)
  {
  }

  /** Merging the accumulators of two lists gives the accumulator of both. */
  lemma {:induction false} MergeIsConcat(ps: seq<Point>, qs: seq<Point>)
    ensures MergeSlots(SlotOf(ps), SlotOf(qs)) == SlotOf(ps + qs)
  {
    hide AddToSlot, MergeSlots;
    if qs == [] {
      assert ps + qs == ps;
      MergeEmpty(SlotOf(ps));
    } else {
      var n := |qs| - 1;
      MergeIsConcat(ps, qs[..n]);
      assert (ps + qs)[..|ps + qs| - 1] == ps + qs[..n];
      assert (ps + qs)[|ps + qs| - 1] == qs[n];
      MergeAdds(SlotOf(ps), SlotOf(qs[..n]), qs[n]);
    }
  }

  lemma {:induction false} MergeEmpty(a: Slot)
    ensures MergeSlots(a, EMPTY_SLOT) == a
  {
  }

  /** The accumulators of several sinks, merged in order. */
  function MergedSlots(parts: seq<seq<Point>>): Slot {
    if parts == [] then EMPTY_SLOT else MergeSlots(MergedSlots(parts[..|parts| - 1]), SlotOf(parts[|parts| - 1]))
  }

  function Flatten<T>(parts: seq<seq<T>>): seq<T> {
    if parts == [] then [] else Flatten(parts[..|parts| - 1]) + parts[|parts| - 1]
  }

  /** However a group's members are split among sinks, merging the sinks gives the
      accumulator of all of them. */
  lemma {:induction false} PartitionsMerge(parts: seq<seq<Point>>)
    ensures MergedSlots(parts) == SlotOf(Flatten(parts))
  {
    hide MergeSlots, AddToSlot;
    if parts != [] {
      PartitionsMerge(parts[..|parts| - 1]);
      MergeIsConcat(Flatten(parts[..|parts| - 1]), parts[|parts| - 1]);
    }
  }

  /** The accumulator keeps edges exactly when every member has the same ones. */
  lemma {:induction false} EdgesSurvive(ps: seq<Point>)
    requires ps != []
    ensures SlotOf(ps).edges == ps[0].edges
    ensures SlotOf(ps).unanimous <==> forall i :: 0 <= i < |ps| ==> ps[i].edges == ps[0].edges
  {
    var n := |ps| - 1;
    if n > 0 {
      EdgesSurvive(ps[..n]);
      assert forall i :: 0 <= i < n ==> ps[..n][i] == ps[i];
    }
  }

  /** A slot without regard to the order members came in: its edges only count
      when every member has them. */
  function Unordered(a: Slot): Slot {
    if a.unanimous then a else a.(edges := None)
  }

  lemma {:induction false} AddsCommute(a: Slot, p: Point, q: Point)
    requires a.count == 0 ==> a == EMPTY_SLOT
    ensures Unordered(AddToSlot(AddToSlot(a, p), q)) == Unordered(AddToSlot(AddToSlot(a, q), p))
  {
  }

  lemma {:induction false} AddUnordered(a: Slot, b: Slot, p: Point)
    requires Unordered(a) == Unordered(b)
    ensures Unordered(AddToSlot(a, p)) == Unordered(AddToSlot(b, p))
  {
  }

  /** A member's place among the others does not matter. */
  lemma {:induction false} MoveToEnd(ps: seq<Point>, i: nat)
    requires i < |ps|
    ensures Unordered(SlotOf(ps)) == Unordered(SlotOf(ps[..i] + ps[i + 1..] + [ps[i]]))
  {
    hide AddToSlot, Unordered;
    var n := |ps| - 1;
    var rest := ps[..i] + ps[i + 1..];
    assert (rest + [ps[i]])[..n] == rest;
    if i < n {
      var q := ps[n];
      MoveToEnd(ps[..n], i);
      var front := ps[..i] + ps[i + 1..n];
      assert ps[..n][..i] + ps[..n][i + 1..] == front;
      assert (front + [ps[i]])[..n - 1] == front;
      assert rest == front + [q];
      AddUnordered(SlotOf(ps[..n]), SlotOf(front + [ps[i]]), q);
      AddsCommute(SlotOf(front), ps[i], q);
    } else {
      assert rest + [ps[i]] == ps;
    }
  }

  /** The accumulator of a list is that of any reordering of it. */
  lemma {:induction false} OrderIsIrrelevant(ps: seq<Point>, qs: seq<Point>)
    requires multiset(ps) == multiset(qs)
    ensures Unordered(SlotOf(ps)) == Unordered(SlotOf(qs))
  {
    hide AddToSlot, Unordered;
    assert |multiset(ps)| == |ps| && |multiset(qs)| == |qs|;
    if qs != [] {
      var n := |qs| - 1;
      var x := qs[n];
      var rest, i := TakeOut(ps, qs[..n], x, qs);
      MoveToEnd(ps, i);
      assert (rest + [x])[..|rest|] == rest;
      OrderIsIrrelevant(rest, qs[..n]);
      AddUnordered(SlotOf(rest), SlotOf(qs[..n]), x);
    }
  }

  lemma {:induction false} UnorderedPoint(op: AggOp, t: u64, a: Slot, b: Slot)
    requires Unordered(a) == Unordered(b) && a.count > 0
    ensures b.count > 0 && SlotPoint(op, t, a) == SlotPoint(op, t, b)
  {
  }

  /** A group's point is a function of its members' points alone: any partition
      and any order gives the same one. */
  lemma {:induction false} PointOfMembers(op: AggOp, t: u64, parts: seq<seq<Point>>, members: seq<Point>)
    requires multiset(Flatten(parts)) == multiset(members) && members != []
    ensures MergedSlots(parts).count > 0
    ensures SlotPoint(op, t, MergedSlots(parts)) == SlotPoint(op, t, SlotOf(members))
  {
    hide SlotPoint, Unordered, MergedSlots;
    PartitionsMerge(parts);
    OrderIsIrrelevant(members, Flatten(parts));
    UnorderedPoint(op, t, SlotOf(members), SlotOf(Flatten(parts)));
  }

  // ----- What the value of a group's point is

  function Total(vs: seq<real>): real {
    if vs == [] then 0.0 else Total(vs[..|vs| - 1]) + vs[|vs| - 1]
  }

  function PointValues(ps: seq<Point>): (vs: seq<real>)
    ensures |vs| == |ps|
  {
    seq(|ps|, i requires 0 <= i < |ps| => ps[i].v)
  }

  /** `v` is the least of the members' values, or (`most`) the greatest. */
  ghost predicate IsExtreme(ps: seq<Point>, v: real, most: bool) {
    && (exists i :: 0 <= i < |ps| && ps[i].v == v)
    && forall i :: 0 <= i < |ps| ==> if most then ps[i].v <= v else v <= ps[i].v
  }

  lemma {:induction false} ExtremeMore(ps: seq<Point>, v: real, p: Point, w: real, most: bool)
    requires IsExtreme(ps, v, most) && w == if (v <= p.v) == most then p.v else v
    ensures IsExtreme(ps + [p], w, most)
  {
    var i :| 0 <= i < |ps| && ps[i].v == v;
    assert (ps + [p])[i].v == v && (ps + [p])[|ps|] == p;
  }

  lemma {:induction false} SlotValues(ps: seq<Point>)
    requires ps != []
    ensures SlotOf(ps).sum == Total(PointValues(ps))
    ensures SlotOf(ps).min.Finite? && IsExtreme(ps, SlotOf(ps).min.r, false)
    ensures SlotOf(ps).max.Finite? && IsExtreme(ps, SlotOf(ps).max.r, true)
  {
    var n := |ps| - 1;
    assert PointValues(ps)[..n] == PointValues(ps[..n]);
    if n > 0 {
      SlotValues(ps[..n]);
      hide IsExtreme;
      var before := SlotOf(ps[..n]);
      assert ps == ps[..n] + [ps[n]];
      ExtremeMore(ps[..n], before.min.r, ps[n], SlotOf(ps).min.r, false);
      ExtremeMore(ps[..n], before.max.r, ps[n], SlotOf(ps).max.r, true);
    } else {
      assert SlotOf(ps[..n]) == EMPTY_SLOT && ps[0].v == ps[n].v;
    }
  }

  /** A group's value: the members' total, mean, least, greatest or number. */
  lemma {:induction false} ValueOfMembers(op: AggOp, t: u64, ps: seq<Point>)
    requires ps != []
    ensures var v := SlotPoint(op, t, SlotOf(ps)).v;
            match op
            case Sum => v == Total(PointValues(ps))
            case Avg => v * |ps| as real == Total(PointValues(ps))
            case Min => IsExtreme(ps, v, false)
            case Max => IsExtreme(ps, v, true)
            case Count => v == |ps| as real
  {
    hide SlotOf, Total, IsExtreme;
    SlotValues(ps);
  }

  // ----- What a display needs, without the edges

  /** What one op needs of a slot. */
  datatype Compact = Compact(v: Extended, lo: real, hi: real, count: nat, anyBounded: bool, anyInterpolated: bool)

  const EMPTY_COMPACT := Compact(Finite(0.0), 0.0, 0.0, 0, false, false)

  function Combine(op: AggOp, a: Extended, b: Extended): Extended {
    match op
    case Min => LeastOf(a, b)
    case Max => GreatestOf(a, b)
    case Sum | Avg | Count => Finite(Number(a) + Number(b))
  }

  function Seed(op: AggOp): Extended {
    match op
    case Min => PlusInfinity
    case Max => MinusInfinity
    case Sum | Avg | Count => Finite(0.0)
  }

  function AddToCompact(op: AggOp, a: Compact, p: Point): Compact {
    Compact(Combine(op, if a.count == 0 then Seed(op) else a.v, Finite(p.v)), a.lo + Lo(p), a.hi + Hi(p), a.count + 1,
            a.anyBounded || p.bounds.Some?, a.anyInterpolated || p.interpolated)
  }

  function MergeCompacts(op: AggOp, a: Compact, b: Compact): Compact {
    if b.count == 0 then a
    else if a.count == 0 then b
    else
      Compact(Combine(op, a.v, b.v), a.lo + b.lo, a.hi + b.hi, a.count + b.count,
              a.anyBounded || b.anyBounded, a.anyInterpolated || b.anyInterpolated)
  }

  function CompactPoint(op: AggOp, t: u64, a: Compact): Point
    requires a.count > 0
  {
    GroupPoint(op, t, a.v, a.v, a.v, a.count, a.lo, a.hi, a.anyBounded, a.anyInterpolated, None)
  }

  /** The compact accumulator a slot stands for. */
  function Compacted(op: AggOp, a: Slot): Compact {
    if a.count == 0 then EMPTY_COMPACT
    else
      Compact(match op
              case Min => a.min
              case Max => a.max
              case Sum | Avg | Count => Finite(a.sum),
              a.lo, a.hi, a.count, a.anyBounded, a.anyInterpolated)
  }

  /** The compact accumulator of `ps`, added one by one. */
  function CompactOf(op: AggOp, ps: seq<Point>): (a: Compact)
    ensures a.count == |ps|
  {
    if ps == [] then EMPTY_COMPACT else AddToCompact(op, CompactOf(op, ps[..|ps| - 1]), ps[|ps| - 1])
  }

  lemma {:induction false} AddCompacted(op: AggOp, a: Slot, p: Point)
    requires a.count == 0 ==> a == EMPTY_SLOT
    ensures Compacted(op, AddToSlot(a, p)) == AddToCompact(op, Compacted(op, a), p)
  {
  }

  lemma {:induction false} MergeCompacted(op: AggOp, a: Slot, b: Slot)
    ensures Compacted(op, MergeSlots(a, b)) == MergeCompacts(op, Compacted(op, a), Compacted(op, b))
  {
  }

  /** The compact accumulator keeps exactly what the slot does but the edges. */
  lemma {:induction false} CompactIsSlot(op: AggOp, ps: seq<Point>)
    ensures CompactOf(op, ps) == Compacted(op, SlotOf(ps))
  {
    hide AddToSlot, AddToCompact, Compacted;
    if ps != [] {
      var n := |ps| - 1;
      CompactIsSlot(op, ps[..n]);
      AddCompacted(op, SlotOf(ps[..n]), ps[n]);
    } else {
      EmptyCompacted(op);
    }
  }

  lemma {:induction false} EmptyCompacted(op: AggOp)
    ensures Compacted(op, EMPTY_SLOT) == EMPTY_COMPACT
  {
  }

  /** A display's group point is the slot's, but for the edges. */
  lemma {:induction false} CompactPointIsSlotPoint(op: AggOp, t: u64, ps: seq<Point>)
    requires ps != []
    ensures CompactPoint(op, t, CompactOf(op, ps)) == SlotPoint(op, t, SlotOf(ps)).(edges := None)
  {
    hide CompactOf, SlotOf;
    CompactIsSlot(op, ps);
  }

  lemma {:induction false} UnorderedCompacted(op: AggOp, a: Slot, b: Slot)
    requires Unordered(a) == Unordered(b)
    ensures Compacted(op, a) == Compacted(op, b)
  {
  }

  lemma {:induction false} CompactIgnoresOrder(op: AggOp, ps: seq<Point>, qs: seq<Point>)
    requires multiset(ps) == multiset(qs)
    ensures CompactOf(op, ps) == CompactOf(op, qs)
  {
    hide CompactOf, SlotOf, Unordered, Compacted;
    CompactIsSlot(op, ps);
    CompactIsSlot(op, qs);
    OrderIsIrrelevant(ps, qs);
    UnorderedCompacted(op, SlotOf(ps), SlotOf(qs));
  }

  lemma {:induction false} CompactsMerge(op: AggOp, ps: seq<Point>, qs: seq<Point>)
    ensures MergeCompacts(op, CompactOf(op, ps), CompactOf(op, qs)) == CompactOf(op, ps + qs)
  {
    hide CompactOf, SlotOf, Compacted, MergeSlots, MergeCompacts;
    CompactIsSlot(op, ps);
    CompactIsSlot(op, qs);
    CompactIsSlot(op, ps + qs);
    MergeIsConcat(ps, qs);
    MergeCompacted(op, SlotOf(ps), SlotOf(qs));
  }

  // ----- Bands through aggregation

  /** `vs` is a choice, for each member, of a value within its band. */
  ghost predicate Within(ps: seq<Point>, vs: seq<real>) {
    |vs| == |ps| && forall i :: 0 <= i < |ps| ==> Lo(ps[i]) <= vs[i] <= Hi(ps[i])
  }

  lemma {:induction false} BandsAddUp(ps: seq<Point>, vs: seq<real>)
    requires Within(ps, vs)
    ensures SlotOf(ps).lo <= Total(vs) <= SlotOf(ps).hi
  {
    if ps != [] {
      var n := |ps| - 1;
      assert Within(ps[..n], vs[..n]) by {
        assert forall i :: 0 <= i < n ==> ps[..n][i] == ps[i] && vs[..n][i] == vs[i];
      }
      BandsAddUp(ps[..n], vs[..n]);
    }
  }

  lemma {:induction false} DivideByCount(a: real, b: real, n: nat)
    requires a <= b && n > 0
    ensures a / n as real <= b / n as real
  {
  }

  /** The band of a sum or an average holds the aggregate of every choice of values
      within the members' bands. */
  lemma {:induction false} BandHoldsAggregate(op: AggOp, t: u64, ps: seq<Point>, vs: seq<real>)
    requires ps != [] && Within(ps, vs) && op in {Sum, Avg}
    requires SlotPoint(op, t, SlotOf(ps)).bounds.Some?
    ensures var b := SlotPoint(op, t, SlotOf(ps)).bounds.value;
            b.0 <= (if op == Sum then Total(vs) else Total(vs) / |ps| as real) <= b.1
  {
    hide SlotOf, Total;
    BandsAddUp(ps, vs);
    DivideByCount(SlotOf(ps).lo, Total(vs), |ps|);
    DivideByCount(Total(vs), SlotOf(ps).hi, |ps|);
  }

  /** A band is given exactly when a member has one and none is interpolated. */
  lemma {:induction false} BandGiven(op: AggOp, t: u64, ps: seq<Point>)
    requires ps != []
    ensures SlotPoint(op, t, SlotOf(ps)).bounds.Some? <==>
              && op in {Sum, Avg}
              && (exists i :: 0 <= i < |ps| && ps[i].bounds.Some?)
              && (forall i :: 0 <= i < |ps| ==> !ps[i].interpolated)
  {
    FlagsOf(ps);
  }

  lemma {:induction false} FlagsOf(ps: seq<Point>)
    ensures SlotOf(ps).anyBounded <==> exists i :: 0 <= i < |ps| && ps[i].bounds.Some?
    ensures SlotOf(ps).anyInterpolated <==> exists i :: 0 <= i < |ps| && ps[i].interpolated
  {
    if ps != [] {
      var n := |ps| - 1;
      FlagsOf(ps[..n]);
      assert forall i :: 0 <= i < n ==> ps[..n][i] == ps[i];
    }
  }
}
