/** A group's uncertainty band, down to the reads of its members. */
module GroupBands {
  import opened Prelude
  import opened RateSpec
  import opened RateProps
  import opened Aggregate

  /** A member of a group: its series, and the instants its point's two reads were at. */
  datatype Reads = Reads(setup: Setup, samples: seq<Sample>, left: real, right: real)
  {
    ghost predicate Valid(t: u64) {
      InOrder(samples) && |samples| >= 2 && PointAt(setup, Typical(samples), KeptAll(samples), t).Some?
    }

    ghost function At(t: u64): Point
      requires Valid(t)
    {
      PointAt(setup, Typical(samples), KeptAll(samples), t).value
    }

    /** The instants are within the windows of the point's edges. */
    ghost predicate Possible(t: u64)
      requires Valid(t)
    {
      At(t).edges.Some? ==>
        && At(t).edges.value.left.0 <= left <= At(t).edges.value.left.1
        && At(t).edges.value.right.0 <= right <= At(t).edges.value.right.1
    }

    /** How much the counter rose over the window of the point at `t`. */
    ghost function Increase(t: u64): real
      requires Valid(t)
    {
      var ks := KeptAll(samples);
      var at := WindowEnd(setup, Typical(samples), ks, t);
      if at.None? || WindowStart(setup, ks, at.value).None? then 0.0
      else
        var from := LeftEdge(setup.windowed, Typical(samples), ks, WindowStart(setup, ks, at.value).value);
        var to := RightEdge(setup.windowed, Typical(samples), ks, at.value);
        if from.cum.None? || to.cum.None? then 0.0 else to.cum.value - from.cum.value
    }

    /** The rate had the reads been at those instants; a member without a band is taken
        at its value. */
    ghost function TrueRate(t: u64): real
      requires Valid(t)
    {
      if At(t).bounds.Some? && left != right then Increase(t) / ((right - left) / NS) else At(t).v
    }
  }

  lemma {:induction false} MemberHolds(m: Reads, t: u64)
    requires m.Valid(t) && m.Possible(t)
    ensures Lo(m.At(t)) <= m.TrueRate(t) <= Hi(m.At(t))
    ensures m.At(t).bounds.Some? ==> m.left < m.right
  {
    hide LeftEdge, RightEdge, WindowEnd, WindowStart, Typical, PointAt, KeptAll, InOrder;
    if m.At(t).bounds.Some? {
      PointBandHolds(m.setup, m.samples, t, m.left, m.right);
    }
  }

  /** The band of a sum or an average of rates holds the aggregate of the rates its
      members had, whatever instants, each member's independent of the others', the reads
      were at within their windows. */
  lemma {:induction false} BandHoldsReads(op: AggOp, t: u64, ms: seq<Reads>, ps: seq<Point>, rates: seq<real>)
    requires ms != [] && |ps| == |rates| == |ms| && op in {Sum, Avg}
    requires forall k :: 0 <= k < |ms| ==>
               ms[k].Valid(t) && ms[k].Possible(t) && ps[k] == ms[k].At(t) && rates[k] == ms[k].TrueRate(t)
    requires SlotPoint(op, t, SlotOf(ps)).bounds.Some?
    ensures var b := SlotPoint(op, t, SlotOf(ps)).bounds.value;
            b.0 <= (if op == Sum then Aggregate.Total(rates) else Aggregate.Total(rates) / |ms| as real) <= b.1
  {
    hide Reads.Valid, Reads.Possible, Reads.At, Reads.TrueRate, SlotOf, SlotPoint, Aggregate.Total, Lo, Hi;
    forall k | 0 <= k < |ms| ensures Lo(ps[k]) <= rates[k] <= Hi(ps[k]) {
      MemberHolds(ms[k], t);
    }
    BandHoldsAggregate(op, t, ps, rates);
  }
}
