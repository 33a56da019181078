/** Accumulators per group and grid point, in blocks, and the flush that feeds
    finished blocks to the groups' display reducers. */
module Grouping {
  import opened Prelude
  import opened RateSpec
  import opened Aggregate
  import opened Display

  /** Grid points per block of accumulators. */
  const BLOCK: nat := 1024

  // ----- What a group's points are, from what each series emits

  /** The point emitted at grid index `k`, if there is one. */
  function AtIndex(es: seq<Emission>, k: nat): Option<Point> {
    if es == [] then None
    else if es[|es| - 1].index == k then Some(es[|es| - 1].point)
    else AtIndex(es[..|es| - 1], k)
  }

  /** The points at grid index `k` of the selected series, in series order. */
  function Members(em: seq<seq<Emission>>, sel: seq<bool>, k: nat): seq<Point>
    requires |sel| == |em|
  {
    if em == [] then []
    else
      var n := |em| - 1;
      Members(em[..n], sel[..n], k) + Own(em[n], sel[n], k)
  }

  /** One series' points at grid index `k`, when it is selected. */
  function Own(es: seq<Emission>, selected: bool, k: nat): seq<Point> {
    var p := AtIndex(es, k);
    if selected && p.Some? then [p.value] else []
  }

  /** A point as its display reads it, after the request's scalar ops. */
  function Shown(ops: Point -> Option<Point>, p: Point): seq<Reading> {
    var q := ops(p);
    if q.Some? then
      [Reading(q.value.t as real / 1000000000.0, q.value.v, q.value.bounds, q.value.interpolated)]
    else []
  }

  /** What an accumulator at grid index `k` shows. */
  function ShownAt(op: AggOp, ops: Point -> Option<Point>, g: Grid, k: nat, a: Compact): seq<Reading>
    requires 0 <= g.Time(k) <= U64_MAX
  {
    if a.count == 0 then [] else Shown(ops, CompactPoint(op, g.Time(k), a))
  }

  /** A group's display: its members' points reduced at each of the first `n` grid
      indices, in order. */
  function GroupReadings(op: AggOp, ops: Point -> Option<Point>, g: Grid, em: seq<seq<Emission>>, sel: seq<bool>,
                         n: nat): seq<Reading>
    requires |sel| == |em| && n <= g.Count()
  {
    if n == 0 then []
    else
      Counted(g, n - 1);
      GroupReadings(op, ops, g, em, sel, n - 1)
        + ShownAt(op, ops, g, n - 1, CompactOf(op, Members(em, sel, n - 1)))
  }

  // ----- One more emission

  lemma {:induction false} NotYet(es: seq<Emission>, k: nat)
    requires forall i :: 0 <= i < |es| ==> es[i].index != k
    ensures AtIndex(es, k) == None
  {
    if es != [] {
      NotYet(es[..|es| - 1], k);
    }
  }

  lemma {:induction false} AtIndexMore(es: seq<Emission>, e: Emission, k: nat)
    ensures AtIndex(es + [e], k) == if e.index == k then Some(e.point) else AtIndex(es, k)
  {
    assert (es + [e])[..|es|] == es;
  }

  lemma {:induction false} OwnMore(es: seq<Emission>, selected: bool, e: Emission, k: nat)
    requires e.index == k ==> AtIndex(es, k) == None
    ensures Own(es + [e], selected, k) == Own(es, selected, k) + (if selected && e.index == k then [e.point] else [])
  {
    AtIndexMore(es, e, k);
  }

  /** `now` holds what `was` does and also `more`. */
  ghost predicate Adds(was: seq<Point>, now: seq<Point>, more: seq<Point>) {
    multiset(now) == multiset(was) + multiset(more) && (more == [] ==> now == was)
  }

  lemma {:induction false} AddsLast(a: seq<Point>, b: seq<Point>, more: seq<Point>)
    ensures Adds(a + b, a + (b + more), more)
  {
    assert a + (b + more) == a + b + more;
  }

  lemma {:induction false} AddsBefore(a: seq<Point>, a': seq<Point>, b: seq<Point>, more: seq<Point>)
    requires Adds(a, a', more)
    ensures Adds(a + b, a' + b, more)
  {
  }

  lemma {:induction false} MembersLast(em: seq<seq<Emission>>, sel: seq<bool>, k: nat)
    requires |sel| == |em| && em != []
    ensures var n := |em| - 1;
            Members(em, sel, k) == Members(em[..n], sel[..n], k) + Own(em[n], sel[n], k)
  {
  }

  /** An emission of series `s` adds its point to the members at its index, and
      changes no other members. */
  lemma {:induction false} EmitMembers(em: seq<seq<Emission>>, sel: seq<bool>, s: nat, e: Emission, k: nat)
    requires |sel| == |em| && s < |em|
    requires e.index == k ==> AtIndex(em[s], k) == None
    ensures Adds(Members(em, sel, k), Members(em[s := em[s] + [e]], sel, k),
                 if sel[s] && e.index == k then [e.point] else [])
  {
    hide AtIndex, Own, Members, Adds;
    var n := |em| - 1;
    var em' := em[s := em[s] + [e]];
    var more := if sel[s] && e.index == k then [e.point] else [];
    MembersLast(em, sel, k);
    MembersLast(em', sel, k);
    if s == n {
      OwnMore(em[s], sel[s], e, k);
      assert em'[..n] == em[..n];
      AddsLast(Members(em[..n], sel[..n], k), Own(em[n], sel[n], k), more);
    } else {
      assert em'[..n] == em[..n][s := em[..n][s] + [e]];
      EmitMembers(em[..n], sel[..n], s, e, k);
      AddsBefore(Members(em[..n], sel[..n], k), Members(em'[..n], sel[..n], k), Own(em[n], sel[n], k), more);
    }
  }

  /** The members with the indices below `m` settled are those of any later state. */
  lemma {:induction false} SameMembers(em: seq<seq<Emission>>, em': seq<seq<Emission>>, sel: seq<bool>, k: nat)
    requires |sel| == |em| == |em'|
    requires forall s :: 0 <= s < |em| && sel[s] ==> AtIndex(em[s], k) == AtIndex(em'[s], k)
    ensures Members(em, sel, k) == Members(em', sel, k)
  {
    if em != [] {
      var n := |em| - 1;
      SameMembers(em[..n], em'[..n], sel[..n], k);
    }
  }

  lemma {:induction false} SameReadings(op: AggOp, ops: Point -> Option<Point>, g: Grid, em: seq<seq<Emission>>,
                                        em': seq<seq<Emission>>, sel: seq<bool>, n: nat)
    requires |sel| == |em| == |em'| && n <= g.Count()
    requires forall s, k :: 0 <= s < |em| && sel[s] && 0 <= k < n ==> AtIndex(em[s], k) == AtIndex(em'[s], k)
    ensures GroupReadings(op, ops, g, em, sel, n) == GroupReadings(op, ops, g, em', sel, n)
  {
    hide Members, CompactOf, ShownAt, AtIndex;
    if n > 0 {
      SameReadings(op, ops, g, em, em', sel, n - 1);
      SameMembers(em, em', sel, n - 1);
    }
  }

  // ----- Members split over partitions

  /** The series of a selection that partition `p` runs. */
  function Part(sel: seq<bool>, part: seq<nat>, p: nat): (r: seq<bool>)
    requires |sel| == |part|
    ensures |r| == |sel|
  {
    seq(|sel|, s requires 0 <= s < |sel| => sel[s] && part[s] == p)
  }

  /** The members of each of the first `parts` partitions, one after another. */
  function PartMembers(em: seq<seq<Emission>>, sel: seq<bool>, part: seq<nat>, k: nat, parts: nat): seq<Point>
    requires |sel| == |em| == |part|
  {
    if parts == 0 then []
    else PartMembers(em, sel, part, k, parts - 1) + Members(em, Part(sel, part, parts - 1), k)
  }

  /** The selected series run by the first `parts` partitions. */
  function Below(sel: seq<bool>, part: seq<nat>, parts: nat): (r: seq<bool>)
    requires |sel| == |part|
    ensures |r| == |sel|
  {
    seq(|sel|, s requires 0 <= s < |sel| => sel[s] && part[s] < parts)
  }

  lemma {:induction false} SplitMembers(em: seq<seq<Emission>>, a: seq<bool>, b: seq<bool>, c: seq<bool>, k: nat)
    requires |a| == |b| == |c| == |em|
    requires forall s :: 0 <= s < |em| ==> (c[s] <==> a[s] || b[s]) && !(a[s] && b[s])
    ensures multiset(Members(em, c, k)) == multiset(Members(em, a, k)) + multiset(Members(em, b, k))
  {
    if em != [] {
      var n := |em| - 1;
      SplitMembers(em[..n], a[..n], b[..n], c[..n], k);
    }
  }

  lemma {:induction false} NoMembers(em: seq<seq<Emission>>, sel: seq<bool>, k: nat)
    requires |sel| == |em| && forall s :: 0 <= s < |em| ==> !sel[s]
    ensures Members(em, sel, k) == []
  {
    if em != [] {
      NoMembers(em[..|em| - 1], sel[..|em| - 1], k);
    }
  }

  lemma {:induction false} PartMembersBelow(em: seq<seq<Emission>>, sel: seq<bool>, part: seq<nat>, k: nat, parts: nat)
    requires |sel| == |em| == |part|
    ensures multiset(PartMembers(em, sel, part, k, parts)) == multiset(Members(em, Below(sel, part, parts), k))
  {
    hide Members;
    if parts == 0 {
      NoMembers(em, Below(sel, part, 0), k);
    } else {
      PartMembersBelow(em, sel, part, k, parts - 1);
      SplitMembers(em, Below(sel, part, parts - 1), Part(sel, part, parts - 1), Below(sel, part, parts), k);
    }
  }

  /** However the series are partitioned, the partitions' members are the group's. */
  lemma {:induction false} PartsAreWhole(em: seq<seq<Emission>>, sel: seq<bool>, part: seq<nat>, k: nat, parts: nat)
    requires |sel| == |em| == |part|
    requires forall s :: 0 <= s < |part| ==> part[s] < parts
    ensures multiset(PartMembers(em, sel, part, k, parts)) == multiset(Members(em, sel, k))
  {
    hide Members;
    PartMembersBelow(em, sel, part, k, parts);
    assert Below(sel, part, parts) == sel;
  }

  // ----- Accumulators in blocks

  /** One group's blocks: each allocated when a point first reaches it. */
  type Blocks = seq<Option<seq<Compact>>>

  function BlockCount(len: nat): nat {
    (len + BLOCK - 1) / BLOCK
  }

  /** The length of block `b` of a grid of `len` points. */
  function BlockLen(len: nat, b: nat): nat {
    if (b + 1) * BLOCK <= len then BLOCK else if b * BLOCK <= len then len - b * BLOCK else 0
  }

  ghost predicate BlocksOk(bs: Blocks, len: nat) {
    && |bs| == BlockCount(len)
    && forall b :: 0 <= b < |bs| ==> bs[b].Some? ==> |bs[b].value| == BlockLen(len, b)
  }

  lemma {:induction false} InBlock(len: nat, k: nat)
    requires k < len
    ensures k / BLOCK < BlockCount(len) && k % BLOCK < BlockLen(len, k / BLOCK)
    ensures k == k / BLOCK * BLOCK + k % BLOCK
  {
  }

  /** The accumulator at grid index `k`. */
  function AccAt(bs: Blocks, len: nat, k: nat): Compact
    requires BlocksOk(bs, len) && k < len
  {
    InBlock(len, k);
    if bs[k / BLOCK].Some? then bs[k / BLOCK].value[k % BLOCK] else EMPTY_COMPACT
  }

  /** The accumulators per group and grid point that one partition fills. */
  class Grouped {
    const op: AggOp
    const groupOf: seq<nat>
    const gridLen: nat
    var blocks: seq<Blocks>

    ghost predicate Valid()
      reads this
    {
      && (forall g :: 0 <= g < |blocks| ==> BlocksOk(blocks[g], gridLen))
      && (forall s :: 0 <= s < |groupOf| ==> groupOf[s] < |blocks|)
    }

    constructor (op: AggOp, groups: nat, groupOf: seq<nat>, gridLen: nat)
      requires forall s :: 0 <= s < |groupOf| ==> groupOf[s] < groups
      ensures Valid() && this.op == op && this.groupOf == groupOf && this.gridLen == gridLen && |blocks| == groups
      ensures forall g, k :: 0 <= g < groups && 0 <= k < gridLen ==> AccAt(blocks[g], gridLen, k) == EMPTY_COMPACT
    {
      this.op, this.groupOf, this.gridLen := op, groupOf, gridLen;
      blocks := seq(groups, _ => seq(BlockCount(gridLen), _ => None));
    }

    /** Add series `s`'s point at `index` to its group. */
    method Emit(s: nat, index: nat, p: Point)
      requires Valid() && s < |groupOf| && index < gridLen
      modifies this
      ensures Valid() && |blocks| == |old(blocks)|
      ensures forall g, k :: 0 <= g < |blocks| && 0 <= k < gridLen ==>
                AccAt(blocks[g], gridLen, k) ==
                if g == groupOf[s] && k == index then AddToCompact(op, AccAt(old(blocks)[g], gridLen, k), p)
                else AccAt(old(blocks)[g], gridLen, k)
    {
      hide AddToCompact;
      InBlock(gridLen, index);
      var g, b := groupOf[s], index / BLOCK;
      var block := if blocks[g][b].Some? then blocks[g][b].value else seq(BlockLen(gridLen, b), _ => EMPTY_COMPACT);
      block := block[index % BLOCK := AddToCompact(op, block[index % BLOCK], p)];
      blocks := blocks[g := blocks[g][b := Some(block)]];
      forall k | 0 <= k < gridLen
        ensures AccAt(blocks[g], gridLen, k) ==
                if k == index then AddToCompact(op, AccAt(old(blocks)[g], gridLen, k), p)
                else AccAt(old(blocks)[g], gridLen, k)
      {
        InBlock(gridLen, k);
      }
    }

    /** Group `g`'s block `b`, taken out. */
    method TakeBlock(g: nat, b: nat) returns (block: Option<seq<Compact>>)
      requires Valid() && g < |blocks| && b < |blocks[g]|
      modifies this
      ensures Valid() && block == old(blocks)[g][b]
      ensures blocks == old(blocks)[g := old(blocks)[g][b := None]]
    {
      block := blocks[g][b];
      blocks := blocks[g := blocks[g][b := None]];
    }
  }
}
