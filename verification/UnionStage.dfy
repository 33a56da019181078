/** A combined unit's points passed on as its members' rates emit them: each held
    until every member has passed it and its rows decide the coverage there. */
module UnionStaging {
  import opened Prelude
  import opened RateSpec
  import opened Grouping
  import opened Coverage
  import opened RowTracking
  import opened UnionSpec

  // ----- One member's queue

  /** Of the points a member emitted, `queue` are those at or after index `settled`;
      later ones are at or after `from`. */
  ghost predicate QueueOk(emitted: seq<Emission>, queue: seq<Emission>, from: nat, settled: nat, count: nat) {
    && |queue| <= |emitted| && queue == emitted[|emitted| - |queue|..]
    && Rising(emitted) && settled <= from
    && forall j :: 0 <= j < |emitted| ==>
         && emitted[j].index < from && emitted[j].index < count
         && (emitted[j].index < settled <==> j < |emitted| - |queue|)
  }

  lemma {:induction false} QueueEmit(emitted: seq<Emission>, queue: seq<Emission>, from: nat, settled: nat, count: nat,
                                     e: Emission)
    requires QueueOk(emitted, queue, from, settled, count) && from <= e.index < count
    ensures QueueOk(emitted + [e], queue + [e], e.index + 1, settled, count)
  {
  }

  lemma {:induction false} QueuePromise(emitted: seq<Emission>, queue: seq<Emission>, from: nat, settled: nat,
                                        count: nat, later: nat)
    requires QueueOk(emitted, queue, from, settled, count) && from <= later
    ensures QueueOk(emitted, queue, later, settled, count)
  {
  }

  /** The queue's point at `index`, none of it before: its first, if it is there. */
  function At(queue: seq<Emission>, index: nat): Option<Point> {
    if queue != [] && queue[0].index == index then Some(queue[0].point) else None
  }

  function Drop(queue: seq<Emission>, index: nat): seq<Emission> {
    if queue != [] && queue[0].index == index then queue[1..] else queue
  }

  /** Every queued point before `index` was passed: one more is. */
  lemma {:induction false} QueueDrop(emitted: seq<Emission>, queue: seq<Emission>, from: nat, settled: nat, count: nat,
                                     index: nat)
    requires QueueOk(emitted, queue, from, settled, count) && settled <= index < from
    requires queue != [] ==> index <= queue[0].index
    ensures QueueOk(emitted, Drop(queue, index), from, index + 1, count)
  {
    var d := |emitted| - |queue|;
    if queue != [] {
      assert queue[0] == emitted[d];
    }
  }

  lemma {:induction false} HasIndex(es: seq<Emission>, i: nat)
    requires Rising(es) && i < |es|
    ensures AtIndex(es, es[i].index) == Some(es[i].point)
  {
    if i < |es| - 1 {
      HasIndex(es[..|es| - 1], i);
    }
  }

  /** No point before the queue's first, and not settled, will be the member's. */
  lemma {:induction false} QueueHas(emitted: seq<Emission>, queue: seq<Emission>, from: nat, settled: nat, count: nat,
                                    index: nat, whole: seq<Emission>)
    requires QueueOk(emitted, queue, from, settled, count) && settled <= index < from
    requires queue != [] ==> index <= queue[0].index
    requires emitted <= whole && Rising(whole)
    requires forall j :: |emitted| <= j < |whole| ==> from <= whole[j].index
    ensures AtIndex(whole, index) == At(queue, index)
  {
    var d := |emitted| - |queue|;
    if queue != [] && queue[0].index == index {
      assert whole[d] == emitted[d] == queue[0];
      HasIndex(whole, d);
    } else {
      forall j | 0 <= j < |whole| ensures whole[j].index != index {
        if j < |emitted| {
          assert whole[j] == emitted[j];
          if d < j {
            assert emitted[d].index < emitted[j].index;
          }
        }
      }
      NotYet(whole, index);
    }
  }

  // ----- One unit

  /** What a member's whole points and rows can be, given what has arrived. */
  ghost predicate CanBecome(track: RowTrack, emitted: seq<Emission>, from: nat, m: Member)
    reads track`all, track`finished
  {
    && emitted <= m.points && Rising(m.points)
    && (forall j :: |emitted| <= j < |m.points| ==> from <= m.points[j].index)
    && Increasing(m.rows) && track.all <= m.rows && (track.finished ==> m.rows == track.all)
    && m.interval == track.interval
  }

  /** Nothing before grid index `index` is answered for later. */
  ghost predicate FloorOk(floor: u64, g: Grid, index: nat) {
    floor == 0 || (index > 0 && floor <= g.Time(index - 1))
  }

  /** The member has passed `t`: it emits nothing at or before it. */
  predicate Passed(pending: Option<u64>, t: u64) {
    pending.None? || pending.value > t
  }

  /** What a rate's pending point promises: nothing before it, or nothing more. */
  ghost predicate Promises(pending: Option<u64>, g: Grid, from: nat) {
    if pending.None? then from >= g.Count() else pending.value <= g.Time(from)
  }

  lemma {:induction false} PassedIsPromised(pending: Option<u64>, g: Grid, from: nat, index: nat)
    requires Promises(pending, g, from) && index < g.Count() && 0 <= g.Time(index) <= U64_MAX
    requires Passed(pending, g.Time(index))
    ensures index < from
  {
    if pending.Some? && from <= index {
      TimeIsMonotone(g, from, index);
    }
  }

  /** A unit's members, in rank order: each one's rows, and its points not answered
      yet. */
  class StageUnit {
    const grid: Grid
    const window: u64
    const tracks: seq<RowTrack>
    var pending: seq<seq<Emission>>

    /** Every point each member emitted, and the index its next is at or after. */
    ghost var emitted: seq<seq<Emission>>
    ghost var from: seq<nat>
    /** The grid indices before this are answered. */
    ghost var settled: nat
    /** Every point passed on. */
    ghost var out: seq<Emission>

    ghost predicate Queues()
      reads `pending, `emitted, `from, `settled
    {
      && |pending| == |emitted| == |from| == |tracks| && Distinct(tracks) && settled <= grid.Count()
      && forall k :: 0 <= k < |tracks| ==> QueueOk(emitted[k], pending[k], from[k], settled, grid.Count())
    }

    ghost predicate Tracked()
      reads `settled, tracks
    {
      forall k :: 0 <= k < |tracks| ==> tracks[k].Valid() && FloorOk(tracks[k].floor, grid, settled)
    }

    /** The members, read whole, can be `ms`. */
    ghost predicate Possible(ms: seq<Member>)
      reads `emitted, `from, tracks`all, tracks`finished
    {
      && |ms| == |emitted| == |from| == |tracks|
      && forall k :: 0 <= k < |ms| ==> CanBecome(tracks[k], emitted[k], from[k], ms[k])
    }

    /** Whatever the members' points and rows turn out to be, the unit's points at the
        first `n` indices are `es`. */
    ghost predicate Tells(n: nat, es: seq<Emission>)
      reads `emitted, `from, tracks`all, tracks`finished
    {
      n <= grid.Count() && forall ms :: Possible(ms) ==> es == Combined(ms, grid, Fixed(window), n)
    }

    /** What was passed on is the unit's points so far. */
    ghost predicate Valid()
      reads this, tracks
    {
      Queues() && Tracked() && Tells(settled, out)
    }

    constructor (grid: Grid, window: u64, tracks: seq<RowTrack>)
      requires Distinct(tracks) && forall k :: 0 <= k < |tracks| ==> tracks[k].Valid() && tracks[k].floor == 0
      ensures Valid() && this.grid == grid && this.window == window && this.tracks == tracks
      ensures out == [] && settled == 0 && emitted == pending == seq(|tracks|, _ => []) && from == seq(|tracks|, _ => 0)
    {
      hide RowTrack.Valid;
      this.grid, this.window, this.tracks := grid, window, tracks;
      pending := seq(|tracks|, _ => []);
      emitted, from, settled, out := seq(|tracks|, _ => []), seq(|tracks|, _ => 0), 0, [];
    }

    /** Member `k`'s next point. */
    method Emit(k: nat, e: Emission)
      requires Valid() && k < |tracks| && from[k] <= e.index < grid.Count()
      modifies `pending, `emitted, `from
      ensures Valid() && emitted == old(emitted)[k := old(emitted[k]) + [e]] && from == old(from)[k := e.index + 1]
      ensures pending == old(pending)[k := old(pending[k]) + [e]]
    {
      hide RowTrack.Valid, QueueOk, Combined;
      QueueEmit(emitted[k], pending[k], from[k], settled, grid.Count(), e);
      label Before:
      pending := pending[k := pending[k] + [e]];
      emitted := emitted[k := emitted[k] + [e]];
      from := from[k := e.index + 1];
      forall ms | Possible(ms) ensures out == Combined(ms, grid, Fixed(window), settled) {
        assert old@Before(Possible(ms)) by {
          assert CanBecome(tracks[k], emitted[k], from[k], ms[k]);
          EmitPossible(tracks[k], old@Before(emitted[k]), old@Before(from[k]), e, ms[k]);
        }
      }
    }

    /** A row of member `k`. */
    method Row(k: nat, t: u64)
      requires Valid() && k < |tracks| && !tracks[k].finished
      requires tracks[k].all != [] ==> tracks[k].all[|tracks[k].all| - 1] <= t
      modifies tracks[k]
      ensures Valid() && tracks[k].offered == old(tracks[k].offered) + {t}
      ensures tracks[k].all != [] && tracks[k].all[|tracks[k].all| - 1] == t && !tracks[k].finished
    {
      hide RowTrack.Valid, QueueOk, Combined;
      label Before:
      tracks[k].Push(t);
      StillValid@Before(k);
    }

    twostate lemma StillValid(k: nat)
      requires old(Valid()) && k < |tracks| && tracks[k].Valid() && tracks[k].floor == old(tracks[k].floor)
      requires pending == old(pending) && emitted == old(emitted) && from == old(from)
      requires settled == old(settled) && out == old(out)
      requires old(tracks[k].all) <= tracks[k].all
      requires old(tracks[k].finished) ==> tracks[k].finished && tracks[k].all == old(tracks[k].all)
      requires forall j :: 0 <= j < |tracks| && j != k ==> unchanged(tracks[j])
      ensures Valid()
    {
      hide RowTrack.Valid, QueueOk, Combined;
      forall ms | Possible(ms) ensures out == Combined(ms, grid, Fixed(window), settled) {
        assert old(Possible(ms)) by {
          forall j | 0 <= j < |ms| ensures old(CanBecome(tracks[j], emitted[j], from[j], ms[j])) {
            assert CanBecome(tracks[j], emitted[j], from[j], ms[j]);
          }
        }
      }
    }

    /** Member `k` has no more rows. */
    method EndMember(k: nat)
      requires Valid() && k < |tracks|
      modifies tracks[k]
      ensures Valid() && tracks[k].finished && tracks[k].offered == old(tracks[k].offered)
      ensures AreTimes(tracks[k].all, tracks[k].offered)
    {
      hide RowTrack.Valid, QueueOk, Combined;
      label Before:
      tracks[k].Finish();
      StillValid@Before(k);
    }

    /** The least index of the points held, if any is. */
    method First() returns (index: Option<nat>)
      requires Queues()
      ensures index.None? ==> forall k :: 0 <= k < |pending| ==> pending[k] == []
      ensures index.Some? ==>
                && IsFirst(index.value)
                && HeldAt(index.value)
    {
      index := None;
      for k := 0 to |pending|
        invariant index.None? ==> forall j :: 0 <= j < k ==> pending[j] == []
        invariant index.Some? ==>
                    && settled <= index.value < grid.Count()
                    && (forall j :: 0 <= j < k ==> pending[j] != [] ==> index.value <= pending[j][0].index)
                    && exists j :: 0 <= j < k && pending[j] != [] && pending[j][0].index == index.value
      {
        if pending[k] != [] {
          assert QueueOk(emitted[k], pending[k], from[k], settled, grid.Count());
          QueueFirst(emitted[k], pending[k], from[k], settled, grid.Count());
          index := Some(if index.None? then pending[k][0].index else Prelude.Min(index.value, pending[k][0].index));
        }
      }
    }

    /** Every member has passed `t`, and its rows decide the coverage there. */
    method AllReady(t: u64, pendings: seq<Option<u64>>) returns (ready: bool)
      requires Queues() && Tracked() && |pendings| == |tracks|
      ensures ready <==> forall k :: 0 <= k < |tracks| ==> Passed(pendings[k], t) && tracks[k].Ready(t)
    {
      hide RowTrack.Ready, QueueOk;
      ready := true;
      for k := 0 to |tracks|
        invariant ready <==> forall j :: 0 <= j < k ==> Passed(pendings[j], t) && tracks[j].Ready(t)
      {
        ready := ready && Passed(pendings[k], t) && tracks[k].Ready(t);
      }
    }

    /** What member `k` offers at `index`, at time `t`. */
    function ClaimNow(k: nat, index: nat, t: u64): Claim
      requires k < |pending| == |tracks|
      reads this, tracks
    {
      Claim(At(pending[k], index), tracks[k].CoversAt(t, window), tracks[k].HoldsAt(t))
    }

    function ClaimsNow(index: nat, t: u64): (r: seq<Claim>)
      requires |pending| == |tracks|
      reads this, tracks
      ensures |r| == |tracks|
    {
      seq(|tracks|, k requires 0 <= k < |tracks| && |pending| == |tracks| reads this, tracks => ClaimNow(k, index, t))
    }

    /** The point chosen at `index`, at time `t`. */
    method Pick(index: nat, t: u64) returns (p: Option<Point>)
      requires |pending| == |tracks|
      ensures p == Choose(ClaimsNow(index, t))
    {
      hide RowTrack.CoversAt, RowTrack.HoldsAt, At;
      ghost var claims := ClaimsNow(index, t);
      for k := 0 to |tracks|
        invariant FirstCovering(claims, 0) == FirstCovering(claims, k)
      {
        assert claims[k] == ClaimNow(k, index, t);
        p := At(pending[k], index);
        if p.Some? && tracks[k].CoversAt(t, window) {
          return;
        }
      }
      for k := 0 to |tracks|
        invariant FirstHolding(claims, 0) == FirstHolding(claims, k)
      {
        assert claims[k] == ClaimNow(k, index, t);
        p := At(pending[k], index);
        if p.Some? && tracks[k].HoldsAt(t) {
          return;
        }
      }
      p := None;
    }

    /** Take the front point at `index` off each queue that has one. */
    method DropFirst(index: nat)
      modifies `pending
      ensures |pending| == |old(pending)|
      ensures forall k :: 0 <= k < |pending| ==> pending[k] == Drop(old(pending[k]), index)
    {
      for k := 0 to |pending|
        invariant |pending| == |old(pending)|
        invariant forall j :: 0 <= j < |pending| ==>
                    pending[j] == if j < k then Drop(old(pending[j]), index) else old(pending[j])
      {
        pending := pending[k := Drop(pending[k], index)];
      }
    }

    /** The members will not be read before `t` again. */
    method ForgetBefore(t: u64)
      requires Distinct(tracks) && forall k :: 0 <= k < |tracks| ==> tracks[k].Valid() && tracks[k].floor <= t
      modifies tracks`runs, tracks`dropped, tracks`floor
      ensures forall k :: 0 <= k < |tracks| ==> tracks[k].Valid() && tracks[k].floor == t
    {
      hide RowTrack.Valid;
      for k := 0 to |tracks|
        invariant forall j :: 0 <= j < |tracks| ==>
                    tracks[j].Valid() && (if j < k then tracks[j].floor == t else tracks[j].floor <= t)
      {
        tracks[k].ForgetBefore(t);
      }
    }

    /** Index `index` is the first with a point, and every member has passed it. */
    ghost predicate Answerable(index: nat)
      requires Queues() && Tracked()
      reads this, tracks
    {
      && settled <= index < grid.Count() && 0 <= grid.Time(index) <= U64_MAX
      && forall k :: 0 <= k < |tracks| ==>
           && (pending[k] != [] ==> index <= pending[k][0].index)
           && index < from[k] && tracks[k].Ready(grid.Time(index))
    }

    /** What a member offers at an answerable index is what it does read whole. */
    lemma {:induction false} ClaimIsFinal(index: nat, k: nat, m: Member)
      requires Queues() && Tracked() && Answerable(index) && k < |tracks|
      requires CanBecome(tracks[k], emitted[k], from[k], m)
      ensures ClaimNow(k, index, grid.Time(index)) == ClaimOf(m, grid.Time(index), index, Fixed(window))
    {
      hide RowTrack.CoversAt, RowTrack.HoldsAt, At, AtIndex, Holds, Covers, Runs, RowTrack.Valid, RowTrack.Ready;
      if settled > 0 {
        TimeIsMonotone(grid, settled - 1, index);
      }
      tracks[k].ReadyIsFinal(grid.Time(index), window, m.rows);
      QueueHas(emitted[k], pending[k], from[k], settled, grid.Count(), index, m.points);
    }

    /** With the next answerable index answered, the unit's points go one further. */
    lemma {:induction false} OutNext(index: nat, ms: seq<Member>)
      requires Queues() && Tracked() && Answerable(index) && Possible(ms)
      requires out == Combined(ms, grid, Fixed(window), settled)
      ensures var p := Choose(ClaimsNow(index, grid.Time(index)));
              Combined(ms, grid, Fixed(window), index + 1) == out + (if p.Some? then [Emission(index, p.value)] else [])
    {
      hide RowTrack.Valid, RowTrack.Ready, AtIndex, Combined, ClaimNow, ClaimOf, Choose, Tracked;
      forall i, k | settled <= i < index && 0 <= k < |ms| ensures AtIndex(ms[k].points, i) == None {
        QueueHas(emitted[k], pending[k], from[k], settled, grid.Count(), i, ms[k].points);
      }
      CombinedSkips(ms, grid, Fixed(window), settled, index);
      var t := grid.Time(index);
      forall k | 0 <= k < |ms| ensures Claims(ms, t, index, Fixed(window))[k] == ClaimsNow(index, t)[k] {
        ClaimIsFinal(index, k, ms[k]);
      }
      CombinedNext(ms, grid, Fixed(window), index, ClaimsNow(index, t));
    }

    /** Every held point at `index` is dropped: it is answered. */
    method PassIndex(index: nat)
      requires Queues() && Tracked() && Answerable(index)
      modifies `pending, `settled
      ensures Queues() && settled == index + 1
    {
      hide RowTrack.Valid, RowTrack.Ready, QueueOk, Drop;
      forall k | 0 <= k < |tracks|
        ensures QueueOk(emitted[k], Drop(pending[k], index), from[k], index + 1, grid.Count())
      {
        QueueDrop(emitted[k], pending[k], from[k], settled, grid.Count(), index);
      }
      DropFirst(index);
      settled := index + 1;
    }

    lemma {:induction false} FloorsBefore(index: nat)
      requires Queues() && Tracked() && Answerable(index)
      ensures forall k :: 0 <= k < |tracks| ==> tracks[k].floor <= grid.Time(index)
    {
      hide RowTrack.Valid, RowTrack.Ready, QueueOk;
      if settled > 0 {
        TimeIsMonotone(grid, settled - 1, index);
      }
    }

    lemma {:induction false} NextOut(index: nat, p: Option<Point>)
      requires Valid() && Answerable(index) && p == Choose(ClaimsNow(index, grid.Time(index)))
      ensures Tells(index + 1, out + (if p.Some? then [Emission(index, p.value)] else []))
    {
      hide RowTrack.Valid, RowTrack.Ready, Combined, ClaimsNow, QueueOk, CanBecome, Possible, Tracked, Choose;
      forall ms | Possible(ms)
        ensures out + (if p.Some? then [Emission(index, p.value)] else []) == Combined(ms, grid, Fixed(window), index + 1)
      {
        OutNext(index, ms);
      }
    }

    /** Answer index `index`, at time `t`. */
    method Answer(index: nat, t: u64) returns (p: Option<Point>)
      requires Valid() && Answerable(index) && t == grid.Time(index)
      modifies `pending, `settled, `out, tracks`runs, tracks`dropped, tracks`floor
      ensures Valid() && settled == index + 1
      ensures out == old(out) + (if p.Some? then [Emission(index, p.value)] else [])
    {
      hide Queues, Tracked, Answerable, Tells, ClaimsNow, Choose;
      assert |pending| == |tracks| by {
        QueueCount();
      }
      p := Pick(index, t);
      NextOut(index, p);
      PassAndForget(index, t);
      out := out + (if p.Some? then [Emission(index, p.value)] else []);
    }

    lemma {:induction false} QueueCount()
      requires Queues()
      ensures |pending| == |tracks|
    {
    }

    /** Index `index`, at time `t`, will not be read again. */
    method PassAndForget(index: nat, t: u64)
      requires Queues() && Tracked() && Answerable(index) && t == grid.Time(index)
      modifies `pending, `settled, tracks`runs, tracks`dropped, tracks`floor
      ensures Queues() && Tracked() && settled == index + 1
    {
      hide RowTrack.Valid, RowTrack.Ready, QueueOk, Answerable;
      FloorsBefore(index);
      PassIndex(index);
      ForgetBefore(t);
    }

    /** No point before index `m` is held, and none will come. */
    ghost predicate NothingBefore(m: nat)
      reads `pending, `from
    {
      |pending| == |from| &&
      forall k :: 0 <= k < |pending| ==> m <= from[k] && (pending[k] != [] ==> m <= pending[k][0].index)
    }

    /** Each member's next point is promised to be later. */
    ghost method Promise(later: seq<nat>, bound: nat)
      requires Valid() && |later| == |tracks| && NothingBefore(bound)
      requires forall k :: 0 <= k < |tracks| ==> from[k] <= later[k]
      modifies `from
      ensures Valid() && NothingBefore(bound) && from == later
    {
      hide RowTrack.Valid, QueueOk, Combined;
      label Before:
      forall k | 0 <= k < |tracks| ensures QueueOk(emitted[k], pending[k], later[k], settled, grid.Count()) {
        QueuePromise(emitted[k], pending[k], from[k], settled, grid.Count(), later[k]);
      }
      from := later;
      forall ms | Possible(ms) ensures out == Combined(ms, grid, Fixed(window), settled) {
        assert old@Before(Possible(ms)) by {
          forall k | 0 <= k < |ms| ensures CanBecome(tracks[k], emitted[k], old@Before(from[k]), ms[k]) {
            assert CanBecome(tracks[k], emitted[k], from[k], ms[k]);
          }
        }
      }
    }

    lemma {:induction false} IsAnswerable(index: nat, pendings: seq<Option<u64>>)
      requires Queues() && Tracked() && |pendings| == |tracks| && settled <= index < grid.Count()
      requires 0 <= grid.Time(index) <= U64_MAX
      requires forall k :: 0 <= k < |tracks| ==>
                 && (pending[k] != [] ==> index <= pending[k][0].index) && Promises(pendings[k], grid, from[k])
                 && Passed(pendings[k], grid.Time(index)) && tracks[k].Ready(grid.Time(index))
      ensures Answerable(index)
    {
      hide RowTrack.Valid, RowTrack.Ready, QueueOk, Promises, Passed;
      forall k | 0 <= k < |tracks| ensures index < from[k] {
        PassedIsPromised(pendings[k], grid, from[k], index);
      }
    }

    lemma {:induction false} HeldIsUnsettled()
      requires Queues()
      ensures forall k :: 0 <= k < |tracks| && pending[k] != [] ==> settled <= pending[k][0].index
    {
      hide QueueOk;
      forall k | 0 <= k < |tracks| && pending[k] != [] ensures settled <= pending[k][0].index {
        QueueFirst(emitted[k], pending[k], from[k], settled, grid.Count());
      }
    }

    /** `index` is the least of the points held. */
    ghost predicate IsFirst(index: nat)
      reads `pending, `settled
    {
      settled <= index < grid.Count()
      && forall k :: 0 <= k < |pending| && pending[k] != [] ==> index <= pending[k][0].index
    }

    /** Every member has passed index `index`, and its rows decide the coverage there. */
    ghost predicate AllPassed(index: nat, pendings: seq<Option<u64>>)
      requires Queues() && Tracked() && |pendings| == |tracks| && 0 <= grid.Time(index) <= U64_MAX
      reads this, tracks
    {
      forall k :: 0 <= k < |tracks| ==> Passed(pendings[k], grid.Time(index)) && tracks[k].Ready(grid.Time(index))
    }

    /** No held point can be answered yet. */
    ghost predicate Answered(pendings: seq<Option<u64>>)
      requires Queues() && Tracked() && |pendings| == |tracks|
      reads this, tracks
    {
      forall k :: 0 <= k < |pending| && pending[k] != [] && IsFirst(pending[k][0].index) &&
                  0 <= grid.Time(pending[k][0].index) <= U64_MAX ==>
        !AllPassed(pending[k][0].index, pendings)
    }

    /** Answer the first index held, if every member has passed it. */
    method TryAnswer(index: nat, pendings: seq<Option<u64>>) returns (ready: bool, passed: seq<Emission>)
      requires Valid() && |pendings| == |tracks| && IsFirst(index)
      requires forall k :: 0 <= k < |tracks| ==> Promises(pendings[k], grid, from[k])
      modifies `pending, `settled, `out, tracks`runs, tracks`dropped, tracks`floor
      ensures Valid() && out == old(out) + passed && forall j :: 0 <= j < |passed| ==> passed[j].index == index
      ensures ready ==> settled == index + 1
      ensures ready ==> forall k :: 0 <= k < |tracks| && pending[k] != [] ==> settled <= pending[k][0].index
      ensures !ready ==> passed == [] && pending == old(pending) && settled == old(settled)
      ensures !ready ==> !forall k :: 0 <= k < |tracks| ==> pendings[k].None? && tracks[k].finished
      ensures !ready ==> 0 <= grid.Time(index) <= U64_MAX && !AllPassed(index, pendings)
    {
      hide RowTrack.Valid, RowTrack.Ready, Answerable, QueueOk, Tells, Promises;
      Counted(grid, index);
      var t := grid.Time(index);
      passed := [];
      ready := AllReady(t, pendings);
      if ready {
        IsAnswerable(index, pendings);
        var p := Answer(index, t);
        HeldIsUnsettled();
        if p.Some? {
          passed := [Emission(index, p.value)];
        }
      } else {
        FinishedIsReady(t, pendings);
      }
    }

    /** Every held point is passed on once its members have passed it. Nothing is
        passed on before `bound` when nothing before it is held or to come. */
    method Settle(pendings: seq<Option<u64>>, ghost later: seq<nat>, ghost bound: nat) returns (passed: seq<Emission>)
      requires Valid() && |pendings| == |tracks| == |later| && NothingBefore(bound)
      requires forall k :: 0 <= k < |tracks| ==> from[k] <= later[k] && Promises(pendings[k], grid, later[k])
      modifies `pending, `settled, `out, `from, tracks`runs, tracks`dropped, tracks`floor
      ensures Valid() && from == later && out == old(out) + passed && NothingBefore(bound)
      ensures forall j :: 0 <= j < |passed| ==> bound <= passed[j].index < grid.Count()
      ensures (forall k :: 0 <= k < |tracks| ==> pendings[k].None? && tracks[k].finished) ==>
                forall k :: 0 <= k < |tracks| ==> pending[k] == []
      ensures Answered(pendings)
    {
      hide RowTrack.Valid, QueueOk, Tells, Promises, Tracked, AllPassed;
      Promise(later, bound);
      passed := [];
      var index := First();
      while index.Some?
        invariant Valid() && from == later && out == old(out) + passed && NothingBefore(bound)
        invariant forall j :: 0 <= j < |passed| ==> bound <= passed[j].index < grid.Count()
        invariant if index.None? then forall k :: 0 <= k < |tracks| ==> pending[k] == []
                  else IsFirst(index.value) && bound <= index.value && HeldAt(index.value)
        decreases grid.Count() - settled
      {
        var ready, more := TryAnswer(index.value, pendings);
        if !ready {
          OnlyFirst(index.value, pendings);
          return;
        }
        passed := passed + more;
        index := First();
      }
    }

    ghost predicate HeldAt(index: nat)
      reads `pending
    {
      exists k :: 0 <= k < |pending| && pending[k] != [] && pending[k][0].index == index
    }

    lemma {:induction false} OnlyFirst(index: nat, pendings: seq<Option<u64>>)
      requires Queues() && Tracked() && |pendings| == |tracks| && IsFirst(index) && HeldAt(index)
      requires 0 <= grid.Time(index) <= U64_MAX && !AllPassed(index, pendings)
      ensures Answered(pendings)
    {
      hide QueueOk, Tracked, AllPassed;
      forall k | 0 <= k < |pending| && pending[k] != [] && IsFirst(pending[k][0].index) ensures pending[k][0].index == index {
        var j :| 0 <= j < |pending| && pending[j] != [] && pending[j][0].index == index;
      }
    }

    lemma {:induction false} FinishedIsReady(t: u64, pendings: seq<Option<u64>>)
      requires Queues() && Tracked() && |pendings| == |tracks|
      ensures (forall k :: 0 <= k < |tracks| ==> pendings[k].None? && tracks[k].finished) ==>
                forall k :: 0 <= k < |tracks| ==> Passed(pendings[k], t) && tracks[k].Ready(t)
    {
      hide RowTrack.Valid, QueueOk;
    }

    /** The members as they are, read whole. */
    ghost function Members(): (ms: seq<Member>)
      requires |emitted| == |tracks|
      reads this, tracks
      ensures |ms| == |tracks|
    {
      seq(|tracks|, k requires 0 <= k < |tracks| && |emitted| == |tracks| reads this, tracks =>
        Member(emitted[k], tracks[k].all, tracks[k].interval))
    }

    /** `held_ns`: the earliest grid point still held. With every member's next point
        at or after index `m`, and this too, nothing before `m` is passed on later. */
    method HeldNs() returns (t: Option<u64>)
      requires Queues()
      ensures t.None? ==> forall k :: 0 <= k < |pending| ==> pending[k] == []
      ensures t.Some? ==>
                && (forall k :: 0 <= k < |pending| && pending[k] != [] ==> t.value <= grid.Time(pending[k][0].index))
                && exists k :: 0 <= k < |pending| && pending[k] != [] && grid.Time(pending[k][0].index) == t.value
      ensures forall m: nat :: (forall k :: 0 <= k < |tracks| ==> m <= from[k]) && (t.Some? ==> grid.Time(m) <= t.value)
                ==> NothingBefore(m)
    {
      hide QueueOk;
      var index := First();
      if index.None? {
        return None;
      }
      Counted(grid, index.value);
      t := Some(grid.Time(index.value));
      forall k | 0 <= k < |pending| && pending[k] != [] ensures t.value <= grid.Time(pending[k][0].index) {
        TimeIsMonotone(grid, index.value, pending[k][0].index);
      }
      forall m: nat | m > index.value ensures grid.Time(index.value) < grid.Time(m) {
        TimeIsMonotone(grid, index.value, m);
      }
    }

    /** No more rows or points: everything held is passed on, and what was is the
        unit's points by all its members' points and rows. */
    method Finish(ghost bound: nat) returns (passed: seq<Emission>)
      requires Valid() && NothingBefore(bound)
      modifies `pending, `settled, `out, `from, tracks
      ensures Valid() && out == old(out) + passed
      ensures forall j :: 0 <= j < |passed| ==> bound <= passed[j].index < grid.Count()
      ensures forall k :: 0 <= k < |tracks| ==>
                pending[k] == [] && tracks[k].finished && AreTimes(tracks[k].all, old(tracks[k].offered))
      ensures emitted == old(emitted) && out == Combined(Members(), grid, Fixed(window), grid.Count())
    {
      hide RowTrack.Valid, QueueOk, Combined, AreTimes, Tells;
      for k := 0 to |tracks|
        invariant Valid() && NothingBefore(bound) && emitted == old(emitted) && out == old(out)
        invariant forall j :: 0 <= j < |tracks| ==> tracks[j].offered == old(tracks[j].offered)
        invariant forall j :: 0 <= j < k ==> tracks[j].finished && AreTimes(tracks[j].all, old(tracks[j].offered))
      {
        EndMember(k);
      }
      ghost var was := from;
      ghost var later := seq(|was|, k requires 0 <= k < |was| => Prelude.Max(was[k], grid.Count()));
      passed := Settle(seq(|tracks|, _ => None), later, bound);
      AllAnswered();
    }

    /** What is passed on is in grid order. */
    lemma {:induction false} OutRises()
      requires Valid()
      ensures Rising(out)
    {
      hide RowTrack.Valid, Combined, QueueOk;
      var ms := Members();
      forall k | 0 <= k < |tracks| ensures CanBecome(tracks[k], emitted[k], from[k], ms[k]) {
        tracks[k].RowsIncrease();
        QueueRises(emitted[k], pending[k], from[k], settled, grid.Count());
      }
      assert Possible(ms);
      CombinedRises(ms, grid, Fixed(window), settled);
    }

    /** With nothing held, what was passed on is all the unit's points. */
    lemma {:induction false} AllAnswered()
      requires Valid() && forall k :: 0 <= k < |tracks| ==> pending[k] == [] && tracks[k].finished
      ensures out == Combined(Members(), grid, Fixed(window), grid.Count())
    {
      hide RowTrack.Valid, AtIndex, Combined;
      var ms := Members();
      forall k | 0 <= k < |tracks| ensures CanBecome(tracks[k], emitted[k], from[k], ms[k]) {
        tracks[k].RowsIncrease();
      }
      assert Possible(ms);
      forall i, k | settled <= i < grid.Count() && 0 <= k < |ms| ensures AtIndex(ms[k].points, i) == None {
        NotYet(emitted[k], i);
      }
      CombinedSkips(ms, grid, Fixed(window), settled, grid.Count());
    }
  }

  lemma {:induction false} QueueRises(emitted: seq<Emission>, queue: seq<Emission>, from: nat, settled: nat, count: nat)
    requires QueueOk(emitted, queue, from, settled, count)
    ensures Rising(emitted)
  {
  }

  lemma {:induction false} QueueFirst(emitted: seq<Emission>, queue: seq<Emission>, from: nat, settled: nat, count: nat)
    requires QueueOk(emitted, queue, from, settled, count) && queue != []
    ensures settled <= queue[0].index < count
  {
    assert queue[0] == emitted[|emitted| - |queue|];
  }

  lemma {:induction false} EmitPossible(track: RowTrack, emitted: seq<Emission>, from: nat, e: Emission, m: Member)
    requires CanBecome(track, emitted + [e], e.index + 1, m) && from <= e.index
    ensures CanBecome(track, emitted, from, m)
  {
    assert m.points[|emitted|] == (emitted + [e])[|emitted|];
    assert emitted <= emitted + [e];
  }
}
