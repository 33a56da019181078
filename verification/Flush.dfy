/** Feeding finished blocks to the groups' display reducers before the scan ends. */
module Flushing {
  import opened Prelude
  import opened RateSpec
  import opened Aggregate
  import opened Display
  import opened Grouping

  /** What each of a read's series belongs to: its group and its partition. */
  datatype Layout = Layout(groupOf: seq<nat>, part: seq<nat>, groups: nat, parts: nat)
  {
    ghost predicate Valid() {
      && |groupOf| == |part|
      && (forall s :: 0 <= s < |groupOf| ==> groupOf[s] < groups)
      && (forall s :: 0 <= s < |part| ==> part[s] < parts)
    }

    /** The series of group `g`. */
    function Of(g: nat): (sel: seq<bool>)
      ensures |sel| == |groupOf|
    {
      seq(|groupOf|, s requires 0 <= s < |groupOf| => groupOf[s] == g)
    }
  }

  /** What partition `p` accumulates for group `g` at index `k`. */
  function PartAcc(op: AggOp, lay: Layout, em: seq<seq<Emission>>, g: nat, p: nat, k: nat): Compact
    requires lay.Valid() && |em| == |lay.part|
  {
    CompactOf(op, Members(em, Part(lay.Of(g), lay.part, p), k))
  }

  /** What the first `p` partitions accumulate for group `g` at index `k`, merged. */
  function MergedAcc(op: AggOp, lay: Layout, em: seq<seq<Emission>>, g: nat, p: nat, k: nat): Compact
    requires lay.Valid() && |em| == |lay.part|
  {
    CompactOf(op, PartMembers(em, lay.Of(g), lay.part, k, p))
  }

  lemma {:induction false} MergeOneMore(op: AggOp, lay: Layout, em: seq<seq<Emission>>, g: nat, p: nat, k: nat)
    requires lay.Valid() && |em| == |lay.part|
    ensures MergedAcc(op, lay, em, g, p + 1, k) ==
            MergeCompacts(op, MergedAcc(op, lay, em, g, p, k), PartAcc(op, lay, em, g, p, k))
  {
    hide CompactOf, MergeCompacts, Members, Part;
    CompactsMerge(op, PartMembers(em, lay.Of(g), lay.part, k, p), Members(em, Part(lay.Of(g), lay.part, p), k));
  }

  lemma {:induction false} NoneMerged(op: AggOp, lay: Layout, em: seq<seq<Emission>>, g: nat, k: nat)
    requires lay.Valid() && |em| == |lay.part|
    ensures MergedAcc(op, lay, em, g, 0, k) == EMPTY_COMPACT
  {
    hide Members, Part;
    assert PartMembers(em, lay.Of(g), lay.part, k, 0) == [];
  }

  lemma {:induction false} AllMerged(op: AggOp, lay: Layout, em: seq<seq<Emission>>, g: nat, k: nat)
    requires lay.Valid() && |em| == |lay.part|
    ensures MergedAcc(op, lay, em, g, lay.parts, k) == CompactOf(op, Members(em, lay.Of(g), k))
  {
    hide CompactOf, Members;
    PartsAreWhole(em, lay.Of(g), lay.part, k, lay.parts);
    CompactIgnoresOrder(op, PartMembers(em, lay.Of(g), lay.part, k, lay.parts), Members(em, lay.Of(g), k));
  }

  lemma {:induction false} NoneMergedYet(op: AggOp, lay: Layout, em: seq<seq<Emission>>, g: nat, len: nat, b: nat)
    requires lay.Valid() && |em| == |lay.part|
    ensures MergedBlock(None, op, lay, em, g, 0, len, b)
  {
    hide MergedAcc;
    forall k | InBlockOf(len, b, k) ensures MergedAcc(op, lay, em, g, 0, k) == EMPTY_COMPACT {
      NoneMerged(op, lay, em, g, k);
    }
  }

  /** `mine` with each of `theirs` folded in. */
  function FoldIn(op: AggOp, mine: seq<Compact>, theirs: seq<Compact>): (r: seq<Compact>)
    ensures |r| == |mine|
  {
    seq(|mine|, i requires 0 <= i < |mine| =>
      if i < |theirs| then MergeCompacts(op, mine[i], theirs[i]) else mine[i])
  }

  /** Group `g`'s accumulators from block `b` on are what `em`'s emissions give. */
  ghost predicate Accumulates(sink: Grouped, op: AggOp, lay: Layout, em: seq<seq<Emission>>, p: nat, g: nat, b: nat)
    requires lay.Valid() && |em| == |lay.part|
    reads sink
  {
    && sink.Valid() && g < |sink.blocks|
    && forall k :: b * BLOCK <= k < sink.gridLen ==>
         AccAt(sink.blocks[g], sink.gridLen, k) == PartAcc(op, lay, em, g, p, k)
  }

  /** The accumulator block `b` holds for index `k`. */
  function BlockAt(block: Option<seq<Compact>>, b: nat, k: nat): Compact {
    if block.Some? && b * BLOCK <= k < b * BLOCK + |block.value| then block.value[k - b * BLOCK] else EMPTY_COMPACT
  }

  /** The indices of block `b`. */
  predicate InBlockOf(len: nat, b: nat, k: nat) {
    b * BLOCK <= k < b * BLOCK + BlockLen(len, b)
  }

  /** A block merged across the first `p` partitions is what their series gave. */
  ghost predicate MergedBlock(block: Option<seq<Compact>>, op: AggOp, lay: Layout, em: seq<seq<Emission>>, g: nat,
                              p: nat, len: nat, b: nat)
    requires lay.Valid() && |em| == |lay.part|
  {
    && (block.Some? ==> |block.value| == BlockLen(len, b))
    && forall k :: InBlockOf(len, b, k) ==> MergedAcc(op, lay, em, g, p, k) == BlockAt(block, b, k)
  }

  /** A block as one partition fills it. */
  ghost predicate PartBlock(block: Option<seq<Compact>>, op: AggOp, lay: Layout, em: seq<seq<Emission>>, g: nat,
                            p: nat, len: nat, b: nat)
    requires lay.Valid() && |em| == |lay.part|
  {
    && (block.Some? ==> |block.value| == BlockLen(len, b))
    && forall k :: InBlockOf(len, b, k) ==> PartAcc(op, lay, em, g, p, k) == BlockAt(block, b, k)
  }

  lemma {:induction false} IndexInBlock(len: nat, b: nat, k: nat)
    requires InBlockOf(len, b, k)
    ensures k < len && k / BLOCK == b && k % BLOCK == k - b * BLOCK
  {
  }

  lemma {:induction false} TakenBlock(sink: Grouped, op: AggOp, lay: Layout, em: seq<seq<Emission>>, g: nat, p: nat,
                                      b: nat)
    requires lay.Valid() && |em| == |lay.part|
    requires Accumulates(sink, op, lay, em, p, g, b) && b < |sink.blocks[g]|
    ensures PartBlock(sink.blocks[g][b], op, lay, em, g, p, sink.gridLen, b)
  {
    hide PartAcc;
    forall k | InBlockOf(sink.gridLen, b, k)
      ensures PartAcc(op, lay, em, g, p, k) == BlockAt(sink.blocks[g][b], b, k)
    {
      IndexInBlock(sink.gridLen, b, k);
    }
  }

  lemma {:induction false} EmptyMerges(op: AggOp, ps: seq<Point>, a: Compact)
    ensures MergeCompacts(op, a, EMPTY_COMPACT) == a
    ensures MergeCompacts(op, EMPTY_COMPACT, CompactOf(op, ps)) == CompactOf(op, ps)
  {
  }

  lemma {:induction false} PartMerges(op: AggOp, lay: Layout, em: seq<seq<Emission>>, g: nat, p: nat, k: nat)
    requires lay.Valid() && |em| == |lay.part|
    ensures var all, a, b := MergedAcc(op, lay, em, g, p + 1, k), MergedAcc(op, lay, em, g, p, k), PartAcc(op, lay, em, g, p, k);
            && all == MergeCompacts(op, a, b)
            && (a == EMPTY_COMPACT ==> all == b)
            && (b == EMPTY_COMPACT ==> all == a)
  {
    hide CompactOf, MergeCompacts, Members, Part;
    MergeOneMore(op, lay, em, g, p, k);
    EmptyMerges(op, Members(em, Part(lay.Of(g), lay.part, p), k), MergedAcc(op, lay, em, g, p, k));
  }

  /** `merged` with one more partition's block folded in. */
  function WithBlock(op: AggOp, merged: Option<seq<Compact>>, theirs: Option<seq<Compact>>): Option<seq<Compact>> {
    if theirs.None? then merged else if merged.None? then theirs else Some(FoldIn(op, merged.value, theirs.value))
  }

  lemma {:induction false} MergeHolds(op: AggOp, lay: Layout, em: seq<seq<Emission>>, g: nat, p: nat, len: nat, b: nat,
                                      merged: Option<seq<Compact>>, theirs: Option<seq<Compact>>)
    requires lay.Valid() && |em| == |lay.part|
    requires MergedBlock(merged, op, lay, em, g, p, len, b)
    requires PartBlock(theirs, op, lay, em, g, p, len, b)
    ensures MergedBlock(WithBlock(op, merged, theirs), op, lay, em, g, p + 1, len, b)
  {
    hide MergedAcc, PartAcc, MergeCompacts;
    forall k | InBlockOf(len, b, k)
      ensures MergedAcc(op, lay, em, g, p + 1, k) == BlockAt(WithBlock(op, merged, theirs), b, k)
    {
      PartMerges(op, lay, em, g, p, k);
    }
  }

  /** The blocks without group `g`'s block `b`. */
  function Without(blocks: seq<Blocks>, g: nat, b: nat): (r: seq<Blocks>)
    ensures |r| == |blocks|
  {
    if g < |blocks| && b < |blocks[g]| then blocks[g := blocks[g][b := None]] else blocks
  }

  /** With its first blocks taken, a sink still accumulates the later ones. */
  lemma {:induction false} StillAccumulates(sink: Grouped, was: seq<Blocks>, op: AggOp, lay: Layout,
                                            em: seq<seq<Emission>>, p: nat, g: nat, b: nat)
    requires lay.Valid() && |em| == |lay.part| && sink.Valid()
    requires g < |was| && BlocksOk(was[g], sink.gridLen) && b < |was[g]|
    requires forall k :: b * BLOCK <= k < sink.gridLen ==>
               AccAt(was[g], sink.gridLen, k) == PartAcc(op, lay, em, g, p, k)
    requires sink.blocks == Without(was, g, b)
    ensures Accumulates(sink, op, lay, em, p, g, b + 1)
  {
    hide PartAcc;
    forall k | (b + 1) * BLOCK <= k < sink.gridLen
      ensures AccAt(sink.blocks[g], sink.gridLen, k) == PartAcc(op, lay, em, g, p, k)
    {
      assert AccAt(was[g], sink.gridLen, k) == PartAcc(op, lay, em, g, p, k);
    }
  }

  lemma {:induction false} OneMoreReading(op: AggOp, ops: Point -> Option<Point>, g: Grid, em: seq<seq<Emission>>,
                                          sel: seq<bool>, k: nat)
    requires |sel| == |em| && k < g.Count()
    ensures 0 <= g.Time(k) <= U64_MAX
    ensures GroupReadings(op, ops, g, em, sel, k + 1) ==
            GroupReadings(op, ops, g, em, sel, k) + ShownAt(op, ops, g, k, CompactOf(op, Members(em, sel, k)))
  {
    hide Members, CompactOf, ShownAt;
    Counted(g, k);
  }

  /** The grid points in the first `b` blocks. */
  function Fed(grid: Grid, b: nat): (n: nat)
    ensures n <= grid.Count()
  {
    if b * BLOCK <= grid.Count() then b * BLOCK else grid.Count()
  }

  /** Only group `g`'s blocks differ. */
  ghost predicate OnlyGroup(blocks: seq<Blocks>, was: seq<Blocks>, g: nat) {
    |blocks| == |was| && forall h :: 0 <= h < |blocks| && h != g ==> blocks[h] == was[h]
  }

  /** The next point of a merged block is the group's next reading. */
  lemma {:induction false} NextShown(op: AggOp, ops: Point -> Option<Point>, grid: Grid, lay: Layout,
                                     em: seq<seq<Emission>>, merged: Option<seq<Compact>>, g: nat, b: nat, k: nat)
    requires lay.Valid() && |em| == |lay.part|
    requires MergedBlock(merged, op, lay, em, g, lay.parts, grid.Count(), b)
    requires b * BLOCK <= k < b * BLOCK + BlockLen(grid.Count(), b) && k < grid.Count()
    ensures 0 <= grid.Time(k) <= U64_MAX
    ensures GroupReadings(op, ops, grid, em, lay.Of(g), k + 1) ==
            GroupReadings(op, ops, grid, em, lay.Of(g), k) + ShownAt(op, ops, grid, k, BlockAt(merged, b, k))
  {
    hide GroupReadings, MergedAcc, PartMembers, ShownAt, BlockAt;
    Counted(grid, k);
    AllMerged(op, lay, em, g, k);
    OneMoreReading(op, ops, grid, em, lay.Of(g), k);
    assert InBlockOf(grid.Count(), b, k);
  }

  /** Each group's reducer, fed block by block from the partitions' sinks. */
  class GroupFlush {
    const op: AggOp
    const ops: Point -> Option<Point>
    const reducers: seq<BucketReducer>
    /** How many blocks of each group have been fed. */
    var next: seq<nat>

    ghost predicate Valid()
      reads this, reducers
    {
      && |next| == |reducers|
      && (forall g :: 0 <= g < |reducers| ==> reducers[g].Valid())
      && (forall g, h :: 0 <= g < h < |reducers| ==> reducers[g] != reducers[h])
    }

    constructor (op: AggOp, ops: Point -> Option<Point>, reducers: seq<BucketReducer>)
      requires forall g :: 0 <= g < |reducers| ==> reducers[g].Valid()
      requires forall g, h :: 0 <= g < h < |reducers| ==> reducers[g] != reducers[h]
      ensures Valid() && this.op == op && this.ops == ops && this.reducers == reducers
      ensures next == seq(|reducers|, _ => 0)
    {
      this.op, this.ops, this.reducers := op, ops, reducers;
      next := seq(|reducers|, _ => 0);
    }

    /** Merge block `b` of group `g`, emptying its place in each partition. */
    method TakeMerged(g: nat, b: nat, parts: seq<Grouped>, len: nat, ghost lay: Layout, ghost em: seq<seq<Emission>>)
      returns (merged: Option<seq<Compact>>)
      requires lay.Valid() && |em| == |lay.part| && |parts| == lay.parts
      requires Distinct(parts)
      requires forall p :: 0 <= p < |parts| ==> parts[p].gridLen == len && Accumulates(parts[p], op, lay, em, p, g, b)
      requires b < BlockCount(len)
      modifies parts
      ensures MergedBlock(merged, op, lay, em, g, lay.parts, len, b)
      ensures forall p :: 0 <= p < |parts| ==>
                parts[p].Valid() && parts[p].blocks == Without(old(parts[p].blocks), g, b)
    {
      hide PartAcc, MergedAcc;
      merged := None;
      NoneMergedYet(op, lay, em, g, len, b);
      for p := 0 to |parts|
        invariant MergedBlock(merged, op, lay, em, g, p, len, b)
        invariant forall q :: 0 <= q < p ==>
                    parts[q].Valid() && parts[q].blocks == Without(old(parts[q].blocks), g, b)
        invariant forall q :: p <= q < |parts| ==> parts[q].blocks == old(parts[q].blocks)
      {
        assert Accumulates(parts[p], op, lay, em, p, g, b);
        TakenBlock(parts[p], op, lay, em, g, p, b);
        var theirs := parts[p].TakeBlock(g, b);
        MergeHolds(op, lay, em, g, p, len, b, merged, theirs);
        merged := WithBlock(op, merged, theirs);
      }
    }

    /** Feed what accumulator `a` shows at grid index `k` to group `g`'s reducer. */
    method FeedPoint(g: nat, k: nat, a: Compact, grid: Grid)
      requires Valid() && g < |reducers| && k < grid.Count() && 0 <= grid.Time(k) <= U64_MAX
      modifies reducers[g]
      ensures Valid()
      ensures reducers[g].pushed == old(reducers[g].pushed) + ShownAt(op, ops, grid, k, a)
    {
      hide CompactPoint;
      if a.count > 0 {
        var point := ops(CompactPoint(op, grid.Time(k), a));
        if point.Some? {
          reducers[g].Push(point.value.t as real / 1000000000.0, point.value.v, point.value.bounds,
                           point.value.interpolated);
        }
      }
    }

    /** Feed group `g`'s block `b`, merged, to its reducer. */
    method FeedBlock(g: nat, b: nat, merged: Option<seq<Compact>>, grid: Grid, ghost lay: Layout,
                     ghost em: seq<seq<Emission>>)
      requires Valid() && g < |reducers|
      requires lay.Valid() && |em| == |lay.part|
      requires MergedBlock(merged, op, lay, em, g, lay.parts, grid.Count(), b)
      requires b * BLOCK <= grid.Count()
      requires reducers[g].pushed == GroupReadings(op, ops, grid, em, lay.Of(g), b * BLOCK)
      modifies reducers[g]
      ensures Valid()
      ensures reducers[g].pushed ==
              GroupReadings(op, ops, grid, em, lay.Of(g), b * BLOCK + BlockLen(grid.Count(), b))
    {
      hide GroupReadings, ShownAt, Valid, MergedBlock, BlockAt;
      ghost var sel := lay.Of(g);
      for i := 0 to BlockLen(grid.Count(), b)
        invariant Valid()
        invariant reducers[g].pushed == GroupReadings(op, ops, grid, em, sel, b * BLOCK + i)
      {
        NextShown(op, ops, grid, lay, em, merged, g, b, b * BLOCK + i);
        FeedPoint(g, b * BLOCK + i, BlockAt(merged, b, b * BLOCK + i), grid);
      }
    }

    /** Give group `g`'s reducer what its blocks show up to block `upto`, oldest first. */
    method Feed(g: nat, upto: nat, parts: seq<Grouped>, grid: Grid, ghost lay: Layout, ghost em: seq<seq<Emission>>)
      requires Valid() && g < |reducers|
      requires lay.Valid() && |em| == |lay.part| && |parts| == lay.parts
      requires Distinct(parts) && upto <= BlockCount(grid.Count())
      requires forall p :: 0 <= p < |parts| ==>
                 parts[p].gridLen == grid.Count() && Accumulates(parts[p], op, lay, em, p, g, next[g])
      requires reducers[g].pushed == GroupReadings(op, ops, grid, em, lay.Of(g), Fed(grid, next[g]))
      modifies `next, parts, reducers[g]
      ensures Valid() && next == old(next)[g := Prelude.Max(old(next[g]), upto)]
      ensures reducers[g].pushed == GroupReadings(op, ops, grid, em, lay.Of(g), Fed(grid, next[g]))
      ensures forall p :: 0 <= p < |parts| ==>
                && Accumulates(parts[p], op, lay, em, p, g, next[g])
                && OnlyGroup(parts[p].blocks, old(parts[p].blocks), g)
    {
      hide GroupReadings, PartAcc, MergedAcc;
      while next[g] < upto
        invariant Valid() && next == old(next)[g := next[g]] && old(next[g]) <= next[g]
        invariant next[g] <= Prelude.Max(old(next[g]), upto)
        invariant reducers[g].pushed == GroupReadings(op, ops, grid, em, lay.Of(g), Fed(grid, next[g]))
        invariant forall p :: 0 <= p < |parts| ==> Accumulates(parts[p], op, lay, em, p, g, next[g])
        invariant forall p :: 0 <= p < |parts| ==> OnlyGroup(parts[p].blocks, old(parts[p].blocks), g)
        decreases upto - next[g]
      {
        var b := next[g];
        label Before:
        var merged := TakeMerged(g, b, parts, grid.Count(), lay, em);
        FeedBlock(g, b, merged, grid, lay, em);
        next := next[g := b + 1];
        forall p | 0 <= p < |parts| ensures Accumulates(parts[p], op, lay, em, p, g, b + 1) {
          assert old@Before(Accumulates(parts[p], op, lay, em, p, g, b));
          StillAccumulates(parts[p], old@Before(parts[p].blocks), op, lay, em, p, g, b);
        }
      }
    }
  }
}
