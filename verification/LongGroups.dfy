/** Building a long group: its metrics as columns, one occupant per slot walked, and
    what is kept of the slots between builds. */
module LongGroups {
  import opened Prelude
  import opened Sorting
  import opened SkeletonCache
  import opened SkeletonBuilding
  import opened Occupancy

  /** One occupant and its values, by column. */
  datatype LongMember = LongMember(key: nat, labels: Labels, cells: Columns<Option<int>>)

  /** A slot's place in a group's columns. */
  datatype Cell = Cell(column: Column, index: nat, slot: nat)

  /** `resize(n, None)` to a longer length. */
  function Widened(xs: seq<Option<int>>, n: nat): (r: seq<Option<int>>)
    ensures |r| == Prelude.Max(|xs|, n)
  {
    if |xs| < n then xs + seq(n - |xs|, _ => None) else xs
  }

  function At(xs: seq<Option<int>>, i: nat): Option<int> {
    if i < |xs| then xs[i] else None
  }

  function WithCell(cells: Columns<Option<int>>, c: Column, i: nat, v: Option<int>): Columns<Option<int>> {
    match c
    case Counters => cells.(counters := Widened(cells.counters, i + 1)[i := v])
    case Gauges => cells.(gauges := Widened(cells.gauges, i + 1)[i := v])
    case Histograms => cells.(histograms := Widened(cells.histograms, i + 1)[i := v])
    case GaugeHistograms => cells.(gaugeHistograms := Widened(cells.gaugeHistograms, i + 1)[i := v])
  }

  function AllWidened(cells: Columns<Option<int>>, widths: Columns<Metric>): Columns<Option<int>> {
    Columns(Widened(cells.counters, |widths.counters|), Widened(cells.gauges, |widths.gauges|),
            Widened(cells.histograms, |widths.histograms|), Widened(cells.gaugeHistograms, |widths.gaugeHistograms|))
  }

  lemma {:induction false} WithCellAt(cells: Columns<Option<int>>, c: Column, i: nat, v: Option<int>, d: Column, j: nat)
    ensures At(WithCell(cells, c, i, v).Get(d), j) == if c == d && i == j then v else At(cells.Get(d), j)
    ensures |WithCell(cells, c, i, v).Get(d)| == if c == d then Prelude.Max(|cells.Get(d)|, i + 1) else |cells.Get(d)|
  {
  }

  lemma {:induction false} WidenedAt(cells: Columns<Option<int>>, widths: Columns<Metric>, d: Column, j: nat)
    ensures At(AllWidened(cells, widths).Get(d), j) == At(cells.Get(d), j)
    ensures |AllWidened(cells, widths).Get(d)| == Prelude.Max(|cells.Get(d)|, |widths.Get(d)|)
  {
  }

  // ----- A build's occupants

  /** A build's occupants so far: the slots walked, in order of first value, where each
      is, and its occupant. */
  datatype Acc = Acc(slots: seq<nat>, position: map<nat, nat>, occupants: seq<LongMember>)

  /** What each metric read of each slot. */
  type Reads = map<Cell, Option<int>>

  function ReadAt(got: Reads, c: Column, i: nat, slot: nat): Option<int> {
    if Cell(c, i, slot) in got then got[Cell(c, i, slot)] else None
  }

  /** Each slot walked has one place. */
  ghost predicate Placed(a: Acc) {
    && |a.slots| == |a.occupants|
    && (forall i :: 0 <= i < |a.slots| ==> a.slots[i] in a.position && a.position[a.slots[i]] == i)
    && forall s :: s in a.position ==> a.position[s] < |a.slots| && a.slots[a.position[s]] == s
  }

  /** One occupant's cells hold what the columns' metrics read of slot `slot`. */
  ghost predicate Holds(o: LongMember, slot: nat, got: Reads, widths: Columns<Metric>) {
    && (forall c: Column :: |o.cells.Get(c)| <= |widths.Get(c)|)
    && forall c: Column, j: nat :: At(o.cells.Get(c), j) == ReadAt(got, c, j, slot)
  }

  ghost predicate Filled(a: Acc, got: Reads, widths: Columns<Metric>)
    requires |a.slots| == |a.occupants|
  {
    && (forall x :: x in got ==> x.slot in a.position && x.index < |widths.Get(x.column)|)
    && forall i :: 0 <= i < |a.occupants| ==> Holds(a.occupants[i], a.slots[i], got, widths)
  }

  /** Each occupant has its slot's key and labels. */
  ghost predicate Keyed(a: Acc, slots: map<nat, Occupant>)
    requires |a.slots| == |a.occupants|
  {
    forall i :: 0 <= i < |a.slots| ==>
      a.slots[i] in slots &&
      a.occupants[i].key == slots[a.slots[i]].key && a.occupants[i].labels == slots[a.slots[i]].labels
  }

  function Added(a: Acc, idx: nat, o: Occupant): Acc {
    Acc(a.slots + [idx], a.position[idx := |a.slots|], a.occupants + [LongMember(o.key, o.labels, NoColumns())])
  }

  lemma {:induction false} AddedIsPlaced(a: Acc, idx: nat, o: Occupant)
    requires Placed(a) && idx !in a.position
    ensures Placed(Added(a, idx, o))
  {
  }

  lemma {:induction false} AddedIsFilled(a: Acc, idx: nat, o: Occupant, got: Reads, widths: Columns<Metric>)
    requires Placed(a) && idx !in a.position && Filled(a, got, widths)
    ensures Filled(Added(a, idx, o), got, widths)
  {
    var b := Added(a, idx, o);
    forall i | 0 <= i < |b.occupants| ensures Holds(b.occupants[i], b.slots[i], got, widths) {
      if i < |a.occupants| {
        assert b.occupants[i] == a.occupants[i] && b.slots[i] == a.slots[i];
      } else {
        forall c: Column, j: nat ensures ReadAt(got, c, j, idx) == None {
          assert Cell(c, j, idx) !in got;
        }
      }
    }
  }

  lemma {:induction false} AddedIsKeyed(a: Acc, idx: nat, o: Occupant, slots: map<nat, Occupant>)
    requires Placed(a) && idx !in a.position && Keyed(a, slots)
    ensures Keyed(Added(a, idx, o), slots[idx := o])
  {
    var b := Added(a, idx, o);
    forall i | 0 <= i < |b.slots|
      ensures b.slots[i] in slots[idx := o] && b.occupants[i].key == slots[idx := o][b.slots[i]].key
      ensures b.occupants[i].labels == slots[idx := o][b.slots[i]].labels
    {
      if i < |a.slots| {
        assert b.slots[i] == a.slots[i] && a.slots[i] in a.position;
      }
    }
  }

  function WithValue(a: Acc, pos: nat, c: Column, i: nat, v: Option<int>): Acc
    requires pos < |a.occupants|
  {
    var o := a.occupants[pos];
    a.(occupants := a.occupants[pos := o.(cells := WithCell(o.cells, c, i, v))])
  }

  lemma {:induction false} ValueIsFilled(a: Acc, idx: nat, c: Column, i: nat, v: Option<int>, got: Reads,
                                         widths: Columns<Metric>)
    requires Placed(a) && idx in a.position && Filled(a, got, widths) && i < |widths.Get(c)|
    ensures Filled(WithValue(a, a.position[idx], c, i, v), got[Cell(c, i, idx) := v], widths)
  {
    hide WithCell, Columns.Get, At, Holds;
    var pos := a.position[idx];
    var b := WithValue(a, pos, c, i, v);
    var more := got[Cell(c, i, idx) := v];
    forall k | 0 <= k < |b.occupants| ensures Holds(b.occupants[k], b.slots[k], more, widths) {
      assert Holds(a.occupants[k], a.slots[k], got, widths);
      if k == pos {
        WrittenHolds(a.occupants[pos], idx, got, c, i, v, widths);
      } else {
        OtherHolds(a.occupants[k], a.slots[k], got, c, i, idx, v, widths);
      }
    }
  }

  lemma {:induction false} WrittenHolds(o: LongMember, slot: nat, got: Reads, c: Column, i: nat, v: Option<int>,
                                        widths: Columns<Metric>)
    requires Holds(o, slot, got, widths) && i < |widths.Get(c)|
    ensures Holds(o.(cells := WithCell(o.cells, c, i, v)), slot, got[Cell(c, i, slot) := v], widths)
  {
    hide WithCell, Columns.Get, At;
    var cells := WithCell(o.cells, c, i, v);
    var more := got[Cell(c, i, slot) := v];
    forall d: Column ensures |cells.Get(d)| <= |widths.Get(d)| {
      WithCellAt(o.cells, c, i, v, d, 0);
    }
    forall d: Column, j: nat ensures At(cells.Get(d), j) == ReadAt(more, d, j, slot) {
      WithCellAt(o.cells, c, i, v, d, j);
    }
  }

  lemma {:induction false} OtherHolds(o: LongMember, slot: nat, got: Reads, c: Column, i: nat, idx: nat, v: Option<int>,
                                      widths: Columns<Metric>)
    requires Holds(o, slot, got, widths) && slot != idx
    ensures Holds(o, slot, got[Cell(c, i, idx) := v], widths)
  {
  }

  // ----- Labels in time

  /** From moment `t` on, slot `s`'s occupant agrees with its metadata whenever the
      metric's version is `version`. */
  ghost predicate AgreesFrom(h: History, p: nat, s: nat, o: Occupant, version: nat, t: nat) {
    forall u :: t <= u && h(u)(p).version == version ==> Agrees(s, h(u)(p).LabelsOf(s), o.labels)
  }

  /** The occupant agrees with the metadata its slot had at some moment in `[from, to)`,
      and has exactly the labels of it unless it is the last build's. */
  ghost predicate AgreedIn(h: History, p: nat, s: nat, o: Occupant, was: map<nat, Occupant>, from: nat, to: nat) {
    exists u :: from <= u < to && AgreedAt(s, h(u)(p).LabelsOf(s), o, was)
  }

  ghost predicate AgreedAt(s: nat, m: Option<Labels>, o: Occupant, was: map<nat, Occupant>) {
    Agrees(s, m, o.labels) && ((s in was && o == was[s]) || o.labels == LabelsFrom(s, m))
  }

  lemma {:induction false} ReadIsDated(h: History, p: nat, s: nat, o: Occupant, r: nat, t: nat)
    requires Versioned(h) && r <= t && Agrees(s, h(t)(p).LabelsOf(s), o.labels)
    ensures AgreesFrom(h, p, s, o, h(r)(p).version, t)
  {
    ReadAfterVersion(h, p, s, r, t);
    var d := Desc(Name(p, Some(s)), h(t)(p).LabelsOf(s));
    assert Dated(h, d, h(r)(p).version, t);
  }

  /** Slot `s`'s occupant goes on from the last build: it is the same, or its key was
      never used and it has not the uid the slot's had. */
  ghost predicate Continues(was: map<nat, Occupant>, wasKey: nat, s: nat, o: Occupant) {
    || (s in was && o == was[s])
    || (o.key >= wasKey && !(s in was && Uid(Some(o.labels)).Some? && Uid(Some(o.labels)) == Uid(Some(was[s].labels))))
  }

  /** Slot `idx`'s occupant and the next key: the cached occupant when the metric's
      metadata is the `same`, else the one resolved from the metadata read at some
      moment in `[from, to)`. */
  ghost predicate ResolvedAs(h: History, p: nat, idx: nat, same: bool, cached: Option<Occupant>, key: nat, o: Occupant,
                             next: nat, from: nat, to: nat)
  {
    if same && cached.Some? then o == cached.value && next == key
    else exists t :: from <= t < to && (o, next) == SlotOccupant(idx, h(t)(p).LabelsOf(idx), cached, key)
  }

  function CachedAt(slots: map<nat, Occupant>, idx: nat): Option<Occupant> {
    if idx in slots then Some(slots[idx]) else None
  }

  /** How the slots' occupants follow from the last build's: those of the slots walked
      continue, and the others are as they were. */
  ghost predicate Succeeds(was: map<nat, Occupant>, wasKey: nat, slots: map<nat, Occupant>, nextKey: nat,
                           position: map<nat, nat>)
  {
    && wasKey <= nextKey
    && (forall s :: s in position ==> s in slots && Continues(was, wasKey, s, slots[s]))
    && (forall s :: s in slots && s !in position ==> s in was && slots[s] == was[s])
    && forall s :: s in was ==> s in slots
  }

  lemma {:induction false} SucceedsMore(was: map<nat, Occupant>, wasKey: nat, slots: map<nat, Occupant>, nextKey: nat,
                                        position: map<nat, nat>, idx: nat, o: Occupant, next: nat, place: nat)
    requires Succeeds(was, wasKey, slots, nextKey, position) && idx !in position && nextKey <= next
    requires Continues(was, wasKey, idx, o)
    ensures Succeeds(was, wasKey, slots[idx := o], next, position[idx := place])
  {
  }

  /** A resolved occupant continues from the cached one. */
  lemma {:induction false} ResolvedContinues(was: map<nat, Occupant>, wasKey: nat, slots: map<nat, Occupant>,
                                             nextKey: nat, position: map<nat, nat>, idx: nat, m: Option<Labels>)
    requires Succeeds(was, wasKey, slots, nextKey, position) && idx !in position
    ensures var cached := if idx in slots then Some(slots[idx]) else None;
            var r := SlotOccupant(idx, m, cached, nextKey);
            && Continues(was, wasKey, idx, r.0) && nextKey <= r.1
            && ((idx in slots && r.0 == slots[idx] && r.1 == nextKey) || (r.0.key == nextKey && r.1 == nextKey + 1))
  {
    hide Decimal, SameLabels;
    ResolvedAgrees(idx, m, if idx in slots then Some(slots[idx]) else None, nextKey);
  }

  /** Slot `s`'s occupant is of this walk: the last build's, the version the `same`; or
      one that agrees with metadata read in `[from, to)`, after the version was, at `at`. */
  ghost predicate Recent(h: History, p: nat, s: nat, o: Occupant, was: map<nat, Occupant>, same: bool, at: nat, from: nat,
                         to: nat)
  {
    || (same && s in was && o == was[s])
    || (AgreesFrom(h, p, s, o, h(at)(p).version, to) && AgreedIn(h, p, s, o, was, from, to))
  }

  lemma {:induction false} RecentLater(h: History, p: nat, s: nat, o: Occupant, was: map<nat, Occupant>, same: bool,
                                       at: nat, from: nat, to: nat, start: nat, later: nat)
    requires Recent(h, p, s, o, was, same, at, from, to) && start <= from && to <= later
    ensures Recent(h, p, s, o, was, same, at, start, later)
  {
  }

  /** Each value was read of the slot's member of its column's metric. */
  ghost predicate ReadsOk(h: History, got: Reads, columns: Columns<Metric>, from: nat, to: nat) {
    forall x :: x in got ==>
      x.index < |columns.Get(x.column)| &&
      ReadOf(h, Name(columns.Get(x.column)[x.index].position, Some(x.slot)), got[x], from, to)
  }

  lemma {:induction false} ReadsLater(h: History, got: Reads, columns: Columns<Metric>, from: nat, to: nat, later: nat)
    requires ReadsOk(h, got, columns, from, to) && to <= later
    ensures ReadsOk(h, got, columns, from, later)
  {
    forall x | x in got
      ensures ReadOf(h, Name(columns.Get(x.column)[x.index].position, Some(x.slot)), got[x], from, later)
    {
      assert ReadOf(h, Name(columns.Get(x.column)[x.index].position, Some(x.slot)), got[x], from, to);
    }
  }

  /** One more column. */
  lemma {:induction false} ColumnMore(h: History, a: Acc, got: Reads, columns: Columns<Metric>, from: nat, to: nat,
                                      c: Column, m: Metric)
    requires Placed(a) && Filled(a, got, columns) && ReadsOk(h, got, columns, from, to)
    ensures Filled(a, got, columns.Plus(c, [m])) && ReadsOk(h, got, columns.Plus(c, [m]), from, to)
  {
    hide Columns.Plus;
    FilledWider(a, got, columns, columns.Plus(c, [m]));
    ReadsWider(h, got, columns, columns.Plus(c, [m]), from, to);
  }

  /** `more` has the columns of `columns`, and maybe others after them. */
  ghost predicate Wider(columns: Columns<Metric>, more: Columns<Metric>) {
    forall c: Column :: columns.Get(c) <= more.Get(c)
  }

  lemma {:induction false} FilledWider(a: Acc, got: Reads, columns: Columns<Metric>, more: Columns<Metric>)
    requires Placed(a) && Filled(a, got, columns) && Wider(columns, more)
    ensures Filled(a, got, more)
  {
    hide At, ReadAt, Columns.Get;
    forall i | 0 <= i < |a.occupants| ensures Holds(a.occupants[i], a.slots[i], got, more) {
      assert Holds(a.occupants[i], a.slots[i], got, columns);
      forall c: Column ensures |a.occupants[i].cells.Get(c)| <= |more.Get(c)| {
        assert columns.Get(c) <= more.Get(c);
      }
    }
    forall x | x in got ensures x.index < |more.Get(x.column)| {
      assert columns.Get(x.column) <= more.Get(x.column);
    }
  }

  lemma {:induction false} ReadsWider(h: History, got: Reads, columns: Columns<Metric>, more: Columns<Metric>, from: nat,
                                      to: nat)
    requires ReadsOk(h, got, columns, from, to) && Wider(columns, more)
    ensures ReadsOk(h, got, more, from, to)
  {
    hide ReadOf, Columns.Get;
    forall x | x in got
      ensures x.index < |more.Get(x.column)| &&
              ReadOf(h, Name(more.Get(x.column)[x.index].position, Some(x.slot)), got[x], from, to)
    {
      assert columns.Get(x.column) <= more.Get(x.column);
      assert more.Get(x.column)[x.index] == columns.Get(x.column)[x.index];
    }
  }

  lemma {:induction false} ReadMoreOf(h: History, got: Reads, columns: Columns<Metric>, from: nat, to: nat, later: nat,
                                      x: Cell, v: Option<int>)
    requires ReadsOk(h, got, columns, from, to) && from <= to <= later && x.index < |columns.Get(x.column)|
    requires ReadOf(h, Name(columns.Get(x.column)[x.index].position, Some(x.slot)), v, to, later)
    ensures ReadsOk(h, got[x := v], columns, from, later)
  {
    hide Columns.Get;
    forall y | y in got[x := v]
      ensures y.index < |columns.Get(y.column)| &&
              ReadOf(h, Name(columns.Get(y.column)[y.index].position, Some(y.slot)), got[x := v][y], from, later)
    {
      if y != x {
        assert ReadOf(h, Name(columns.Get(y.column)[y.index].position, Some(y.slot)), got[y], from, to);
      }
    }
  }

  /** The cells of column `c`, `i` are of exactly its metric's members, as read in
      `[from, to)`. */
  ghost predicate ColumnIs(h: History, got: Reads, m: Metric, c: Column, i: nat, from: nat, to: nat) {
    exists members :: SelectedIn(h, m, members, from, to) && CellsOf(got, c, i, members)
  }

  ghost predicate CellsOf(got: Reads, c: Column, i: nat, members: seq<nat>) {
    forall s :: Cell(c, i, s) in got <==> s in members
  }

  ghost predicate Complete(h: History, got: Reads, columns: Columns<Metric>, from: nat, to: nat) {
    forall c: Column, i: nat :: i < |columns.Get(c)| ==> ColumnIs(h, got, columns.Get(c)[i], c, i, from, to)
  }

  lemma {:induction false} SelectedLater(h: History, m: Metric, members: seq<nat>, from: nat, to: nat, s: nat, t: nat)
    requires SelectedIn(h, m, members, from, to) && s <= from && to <= t
    ensures SelectedIn(h, m, members, s, t)
  {
    var at, times :| from <= at < to && SelectedAt(h, m, Walked(m, h(at)(m.position)), times, members, from, to);
    assert SelectedAt(h, m, Walked(m, h(at)(m.position)), times, members, s, t);
  }

  /** A build so far: `was` and `wasKey` are the last build's. */
  ghost predicate BuildingOf(was: map<nat, Occupant>, wasKey: nat, slots: map<nat, Occupant>, nextKey: nat, a: Acc,
                             columns: Columns<Metric>, book: Book, got: Reads)
  {
    && Placed(a) && Filled(a, got, columns) && Keyed(a, slots)
    && Booked(slots, book, nextKey) && Succeeds(was, wasKey, slots, nextKey, a.position)
  }

  lemma {:induction false} BuildingMore(was: map<nat, Occupant>, wasKey: nat, slots: map<nat, Occupant>, nextKey: nat,
                                        a: Acc, columns: Columns<Metric>, book: Book, got: Reads, idx: nat, o: Occupant,
                                        next: nat)
    requires BuildingOf(was, wasKey, slots, nextKey, a, columns, book, got) && idx !in a.position
    requires Continues(was, wasKey, idx, o) && nextKey <= next
    requires (idx in slots && o == slots[idx] && next == nextKey) || (o.key == nextKey && next == nextKey + 1)
    ensures BuildingOf(was, wasKey, slots[idx := o], next, Added(a, idx, o), columns, Enter(book, idx, o), got)
    ensures forall s :: s in a.position ==> s in slots && slots[idx := o][s] == slots[s]
    ensures forall k :: k in book ==> k in Enter(book, idx, o) && Enter(book, idx, o)[k] == book[k]
  {
    AddedIsPlaced(a, idx, o);
    AddedIsFilled(a, idx, o, got, columns);
    AddedIsKeyed(a, idx, o, slots);
    EnterBooked(slots, book, nextKey, idx, o, next);
    SucceedsMore(was, wasKey, slots, nextKey, a.position, idx, o, next, |a.slots|);
    hide Filled, Keyed, Booked, Continues;
  }

  /** A build's state at a moment. */
  datatype State = State(slots: map<nat, Occupant>, position: map<nat, nat>, got: Reads, book: Book)

  /** A later state: the occupants placed keep their slots, keys and labels, and no
      value read or key given is lost. */
  ghost predicate Onward(a: State, b: State) {
    && a.position.Keys <= b.position.Keys && a.got.Keys <= b.got.Keys
    && (forall s :: s in a.position ==> s in a.slots && s in b.slots && b.slots[s] == a.slots[s])
    && forall k :: k in a.book ==> k in b.book && b.book[k] == a.book[k]
  }

  /** The slots placed since state `a` are of this walk. */
  ghost predicate AllRecent(h: History, a: State, b: State, p: nat, was: map<nat, Occupant>, same: bool, at: nat, from: nat,
                            to: nat)
  {
    forall s :: s in b.position && s !in a.position ==>
      s in b.slots && Recent(h, p, s, b.slots[s], was, same, at, from, to)
  }

  lemma {:induction false} OnwardAgain(a: State, b: State, c: State)
    requires Onward(a, b) && Onward(b, c)
    ensures Onward(a, c)
  {
  }

  lemma {:induction false} RecentAgain(h: History, a: State, b: State, c: State, p: nat, was: map<nat, Occupant>,
                                       same: bool, at: nat, from: nat, mid: nat, to: nat)
    requires Onward(a, b) && Onward(b, c) && from <= mid <= to
    requires AllRecent(h, a, b, p, was, same, at, from, mid) && AllRecent(h, b, c, p, was, same, at, mid, to)
    ensures AllRecent(h, a, c, p, was, same, at, from, to)
  {
    hide Recent;
    forall s | s in c.position && s !in a.position
      ensures s in c.slots && Recent(h, p, s, c.slots[s], was, same, at, from, to)
    {
      if s in b.position {
        RecentLater(h, p, s, b.slots[s], was, same, at, from, mid, from, to);
      } else {
        RecentLater(h, p, s, c.slots[s], was, same, at, mid, to, from, to);
      }
    }
  }

  /** The metrics of one column, in registry order. */
  function ColumnMetrics(ms: seq<Metric>, c: Column): seq<Metric> {
    if ms == [] then []
    else
      var m := ms[|ms| - 1];
      ColumnMetrics(ms[..|ms| - 1], c) + (if ColumnOf(m.kind) == c then [m] else [])
  }

  /** Some metric's members are the slots that carry metadata. */
  ghost predicate AnySlots(ms: seq<Metric>) {
    exists i :: 0 <= i < |ms| && ms[i].membership.Slots?
  }

  ghost predicate OneOfSlots(ms: seq<Metric>) {
    |ms| == 1 && ms[0].membership.Slots?
  }

  lemma {:induction false} OneMoreMetric(ms: seq<Metric>, m: Metric)
    ensures forall c: Column :: ColumnMetrics(ms + [m], c) == ColumnMetrics(ms, c) + (if ColumnOf(m.kind) == c then [m] else [])
    ensures AnySlots(ms + [m]) <==> AnySlots(ms) || m.membership.Slots?
  {
    assert (ms + [m])[..|ms|] == ms;
    if m.membership.Slots? {
      assert (ms + [m])[|ms|] == m;
    }
    if AnySlots(ms) {
      var i :| 0 <= i < |ms| && ms[i].membership.Slots?;
      assert (ms + [m])[i] == ms[i];
    }
  }

  ghost predicate Ascends(s: seq<nat>) {
    forall i, j :: 0 <= i < j < |s| ==> s[i] < s[j]
  }

  /** An output occupant: its slot's key and labels, and per column exactly one cell a
      metric, holding what the metric read of the slot. */
  ghost predicate IsMember(m: LongMember, s: nat, o: Occupant, got: Reads, columns: Columns<Metric>) {
    && m.key == o.key && m.labels == o.labels
    && forall c: Column ::
         |m.cells.Get(c)| == |columns.Get(c)| &&
         forall j :: 0 <= j < |m.cells.Get(c)| ==> m.cells.Get(c)[j] == ReadAt(got, c, j, s)
  }

  lemma {:induction false} WidenedIsMember(a: Acc, slots: map<nat, Occupant>, got: Reads, columns: Columns<Metric>, s: nat)
    requires Placed(a) && Filled(a, got, columns) && Keyed(a, slots) && s in a.position
    ensures s in slots
    ensures var o := a.occupants[a.position[s]];
            IsMember(o.(cells := AllWidened(o.cells, columns)), s, slots[s], got, columns)
  {
    hide AllWidened, Columns.Get;
    var k := a.position[s];
    var o := a.occupants[k];
    assert a.slots[k] == s && Holds(o, s, got, columns);
    var cells := AllWidened(o.cells, columns);
    forall c: Column
      ensures |cells.Get(c)| == |columns.Get(c)|
      ensures forall j :: 0 <= j < |cells.Get(c)| ==> cells.Get(c)[j] == ReadAt(got, c, j, s)
    {
      WidenedAt(o.cells, columns, c, 0);
      forall j | 0 <= j < |cells.Get(c)| ensures cells.Get(c)[j] == ReadAt(got, c, j, s) {
        WidenedAt(o.cells, columns, c, j);
        assert At(o.cells.Get(c), j) == ReadAt(got, c, j, s);
      }
    }
  }

  lemma {:induction false} OnceEach(s: seq<nat>, x: nat)
    requires Distinct(s)
    ensures multiset(s)[x] <= 1
  {
    if s != [] {
      var n := |s| - 1;
      assert s == s[..n] + [s[n]];
      OnceEach(s[..n], x);
      if s[n] == x {
        assert x !in s[..n];
      }
    }
  }

  lemma {:induction false} TwiceIn(s: seq<nat>, i: nat, j: nat)
    requires i < j < |s| && s[i] == s[j]
    ensures multiset(s)[s[i]] >= 2
  {
    assert s == s[..j] + [s[j]] + s[j + 1..];
    assert s[i] in s[..j];
  }

  /** The slots walked, sorted, are each there once. */
  lemma {:induction false} SlotsAscend(a: Acc, order: seq<nat>)
    requires Placed(a) && order == Sort(a.slots, (a: nat, b: nat) => a <= b)
    ensures Ascends(order) && forall s :: s in order <==> s in a.position
  {
    SortSorts(a.slots, (a: nat, b: nat) => a <= b);
    assert Distinct(a.slots) by {
      forall i, j | 0 <= i < j < |a.slots| ensures a.slots[i] != a.slots[j] {
        assert a.position[a.slots[i]] == i && a.position[a.slots[j]] == j;
      }
    }
    forall i, j | 0 <= i < j < |order| ensures order[i] < order[j] {
      OnceEach(a.slots, order[i]);
      if order[i] == order[j] {
        TwiceIn(order, i, j);
        assert false;
      }
    }
    forall s ensures s in order <==> s in a.position {
      assert s in order <==> s in multiset(order);
      assert s in a.slots <==> s in multiset(a.slots);
      if s in a.position {
        assert a.slots[a.position[s]] == s;
      }
    }
  }

  lemma {:induction false} FewerBooked(slots: map<nat, Occupant>, fewer: map<nat, Occupant>, book: Book, nextKey: nat)
    requires Booked(slots, book, nextKey) && forall s :: s in fewer ==> s in slots && fewer[s] == slots[s]
    ensures Booked(fewer, book, nextKey)
  {
  }

  /** A slot's occupant of this walk agrees with the version read, at `at`. */
  lemma {:induction false} RecentAgrees(h: History, p: nat, s: nat, o: Occupant, was: map<nat, Occupant>, same: bool, at: nat,
                                     to: nat, builtBy: nat, from: nat)
    requires Recent(h, p, s, o, was, same, at, at, to) && builtBy <= from <= at < to
    requires same && s in was ==> AgreesFrom(h, p, s, was[s], h(at)(p).version, builtBy)
    ensures AgreesFrom(h, p, s, o, h(at)(p).version, to) && AgreedIn(h, p, s, o, was, from, to)
  {
    if same && s in was && o == was[s] {
      assert h(at)(p).version == h(at)(p).version && AgreedAt(s, h(at)(p).LabelsOf(s), o, was);
    }
  }

  /** The occupants in slot order, each as wide as the columns. */
  method Assemble(a: Acc, columns: Columns<Metric>, ghost slots: map<nat, Occupant>, ghost got: Reads)
    returns (members: seq<LongMember>, order: seq<nat>)
    requires Placed(a) && Filled(a, got, columns) && Keyed(a, slots)
    ensures Ascends(order) && forall s :: s in order <==> s in a.position
    ensures |members| == |order|
    ensures forall i :: 0 <= i < |order| ==> order[i] in slots && IsMember(members[i], order[i], slots[order[i]], got, columns)
  {
    order := Sort(a.slots, (a: nat, b: nat) => a <= b);
    SlotsAscend(a, order);
    AllPlaced(a);
    members := Ordered(a, columns, order, slots, got);
  }

  /** The occupants at `order`, each as wide as the columns. */
  method Ordered(a: Acc, columns: Columns<Metric>, order: seq<nat>, ghost slots: map<nat, Occupant>, ghost got: Reads)
    returns (members: seq<LongMember>)
    requires Placed(a) && Filled(a, got, columns) && Keyed(a, slots)
    requires forall i :: 0 <= i < |order| ==> order[i] in a.position && a.position[order[i]] < |a.occupants|
    ensures |members| == |order|
    ensures forall i :: 0 <= i < |order| ==> order[i] in slots && IsMember(members[i], order[i], slots[order[i]], got, columns)
  {
    hide Placed, Filled, Keyed, IsMember, AllWidened;
    members := [];
    for k := 0 to |order|
      invariant |members| == k
      invariant forall i :: 0 <= i < k ==> order[i] in slots && IsMember(members[i], order[i], slots[order[i]], got, columns)
    {
      WidenedIsMember(a, slots, got, columns, order[k]);
      var o := a.occupants[a.position[order[k]]];
      members := members + [o.(cells := AllWidened(o.cells, columns))];
    }
  }

  lemma {:induction false} AllPlaced(a: Acc)
    requires Placed(a)
    ensures |a.slots| == |a.occupants| && forall s :: s in a.position ==> a.position[s] < |a.occupants|
  {
  }

  /** A long group: what it keeps between builds, and what a build accumulates. */
  class LongGroup {
    const metrics: seq<Metric>
    const history: History
    /** The moment of the next read. */
    var now: nat

    var versions: map<nat, nat>
    var slots: map<nat, Occupant>
    var nextKey: nat

    var acc: Acc
    var columns: Columns<Metric>

    /** Every key ever given. */
    ghost var book: Book
    /** What each column's metric read of each slot, this build. */
    ghost var got: Reads
    /** The moment the last build was done by. */
    ghost var builtBy: nat

    /** The build so far. */
    ghost predicate Building(was: map<nat, Occupant>, wasKey: nat)
      reads `slots, `nextKey, `acc, `columns, `book, `got
    {
      BuildingOf(was, wasKey, slots, nextKey, acc, columns, book, got)
    }

    method Look(position: nat) returns (s: Store)
      modifies `now
      ensures s == history(old(now))(position) && now == old(now) + 1
    {
      s := history(now)(position);
      now := now + 1;
    }

    ghost function Here(): State
      reads `slots, `acc, `got, `book
    {
      State(slots, acc.position, got, book)
    }

    /** Slot `idx`'s occupant, when it has none yet this build: the cached one when the
        metric at `p` has the `same` metadata as last build, else one resolved from the metadata. */
    method Resolve(idx: nat, same: bool, p: nat, ghost at: nat, ghost was: map<nat, Occupant>, ghost wasKey: nat)
      returns (o: Occupant)
      requires Versioned(history) && at < now && idx !in acc.position
      requires Building(was, wasKey)
      modifies `now, `nextKey
      ensures old(now) <= now && Continues(was, wasKey, idx, o) && old(nextKey) <= nextKey
      ensures (idx in slots && o == slots[idx] && nextKey == old(nextKey)) ||
              (o.key == old(nextKey) && nextKey == old(nextKey) + 1)
      ensures Recent(history, p, idx, o, was, same, at, old(now), now)
      ensures ResolvedAs(history, p, idx, same, CachedAt(slots, idx), old(nextKey), o, nextKey, old(now), now)
    {
      hide Placed, Filled, Keyed;
      hide Versioned, Booked, SlotOccupant;
      var cached := if idx in slots then Some(slots[idx]) else None;
      if same && cached.Some? {
        o := cached.value;
        return;
      }
      ghost var t := now;
      var s := Look(p);
      ResolvedContinues(was, wasKey, slots, nextKey, acc.position, idx, s.LabelsOf(idx));
      ResolvedAgrees(idx, s.LabelsOf(idx), cached, nextKey);
      var r := SlotOccupant(idx, s.LabelsOf(idx), cached, nextKey);
      o, nextKey := r.0, r.1;
      ReadIsDated(history, p, idx, o, at, t);
    }

    /** Find slot `idx` a place among the build's occupants, or give it one. */
    method OccupantOf(idx: nat, same: bool, p: nat, ghost at: nat, ghost was: map<nat, Occupant>, ghost wasKey: nat)
      returns (pos: nat)
      requires Versioned(history) && at < now && Building(was, wasKey)
      modifies `now, `nextKey, `slots, `acc, `book
      ensures old(now) <= now && Building(was, wasKey)
      ensures idx in acc.position && pos == acc.position[idx] && idx in slots
      ensures Onward(old(Here()), Here()) && AllRecent(history, old(Here()), Here(), p, was, same, at, old(now), now)
      ensures if idx in old(acc.position) then slots == old(slots) && nextKey == old(nextKey)
              else
                && slots == old(slots)[idx := slots[idx]]
                && ResolvedAs(history, p, idx, same, CachedAt(old(slots), idx), old(nextKey), slots[idx], nextKey, old(now), now)
    {
      hide Versioned, Recent, Continues, BuildingOf, Enter, Added, ResolvedAs;
      PlacedIn(was, wasKey);
      if idx in acc.position {
        return acc.position[idx];
      }
      ghost var key := nextKey;
      var o := Resolve(idx, same, p, at, was, wasKey);
      BuildingMore(was, wasKey, slots, key, acc, columns, book, got, idx, o, nextKey);
      AddedPlace(acc, idx, o);
      book := Enter(book, idx, o);
      slots := slots[idx := o];
      acc := Added(acc, idx, o);
      pos := acc.position[idx];
    }

    /** The value `v` read of slot `idx`, at `pos`, in its column's cell. */
    method Write(idx: nat, pos: nat, c: Column, i: nat, v: Option<int>, ghost was: map<nat, Occupant>, ghost wasKey: nat,
                 ghost from: nat, ghost start: nat, ghost read: nat)
      requires Building(was, wasKey) && idx in acc.position && pos == acc.position[idx]
      requires i < |columns.Get(c)| && ReadsOk(history, got, columns, from, start) && from <= start <= read <= now
      requires ReadOf(history, Name(columns.Get(c)[i].position, Some(idx)), v, start, read)
      modifies `acc, `got
      ensures Building(was, wasKey) && ReadsOk(history, got, columns, from, now)
      ensures got == old(got)[Cell(c, i, idx) := v] && Onward(old(Here()), Here()) && acc.position == old(acc.position)
    {
      hide BuildingOf, ReadsOk, ReadOf;
      PlacedIn(was, wasKey);
      ReadMoreOf(history, got, columns, from, start, read, Cell(c, i, idx), v);
      ReadsLater(history, got[Cell(c, i, idx) := v], columns, from, read, now);
      ValueBuilding(was, wasKey, slots, nextKey, acc, columns, book, got, idx, c, i, v);
      acc := WithValue(acc, pos, c, i, v);
      got := got[Cell(c, i, idx) := v];
    }

    /** Slot `idx` of the metric of column `c`, `i`: its value, and, when it is a member,
        its occupant's cell. */
    method TakeSlot(m: Metric, idx: nat, c: Column, i: nat, same: bool, ghost at: nat, ghost was: map<nat, Occupant>,
                    ghost wasKey: nat, ghost from: nat)
      requires Versioned(history) && at < now && from <= now && Building(was, wasKey)
      requires i < |columns.Get(c)| && columns.Get(c)[i] == m && ReadsOk(history, got, columns, from, now)
      modifies `now, `nextKey, `slots, `acc, `book, `got
      ensures old(now) <= now && Building(was, wasKey) && ReadsOk(history, got, columns, from, now)
      ensures old(now) < now
      ensures var v := history(old(now))(m.position).Value(idx);
              got == if Belongs(m, v) then old(got)[Cell(c, i, idx) := v] else old(got)
      ensures Onward(old(Here()), Here())
      ensures AllRecent(history, old(Here()), Here(), m.position, was, same, at, old(now), now)
    {
      hide Versioned, AllRecent, Onward, BuildingOf, ReadsOk, ReadOf, Belongs;
      ghost var a := Here();
      ghost var start := now;
      var s := Look(m.position);
      var v := s.Value(idx);
      ghost var read := now;
      ReadNow(history, Name(m.position, Some(idx)), start);
      StayHere(was, wasKey, m.position, same, at, start, read);
      if Belongs(m, v) {
        var pos := OccupantOf(idx, same, m.position, at, was, wasKey);
        ghost var b := Here();
        RecentAgain(history, a, a, b, m.position, was, same, at, start, read, now);
        Write(idx, pos, c, i, v, was, wasKey, from, start, read);
        OnwardAgain(a, b, Here());
        RecentUnplaced(history, a, b, Here(), m.position, was, same, at, start, now);
      } else {
        ReadsLater(history, got, columns, from, start, now);
      }
    }

    lemma {:induction false} StayHere(was: map<nat, Occupant>, wasKey: nat, p: nat, same: bool, at: nat, from: nat, to: nat)
      requires Building(was, wasKey)
      ensures Onward(Here(), Here()) && AllRecent(history, Here(), Here(), p, was, same, at, from, to)
    {
      hide Filled, Booked, Continues, Recent;
      PlacedIn(was, wasKey);
    }

    /** One metric, the next of its column: its version first, then its slots. */
    method Walk(m: Metric, ghost was: map<nat, Occupant>, ghost wasKey: nat, ghost from: nat) returns (version: nat, ghost at: nat)
      requires Versioned(history) && from <= now && Building(was, wasKey) && ReadsOk(history, got, columns, from, now)
      requires !IsScalar(m.kind) && Complete(history, got, columns, from, now)
      modifies `now, `nextKey, `slots, `acc, `book, `got, `columns
      ensures old(now) <= at < now && version == history(at)(m.position).version
      ensures Building(was, wasKey) && ReadsOk(history, got, columns, from, now) && Complete(history, got, columns, from, now)
      ensures columns == old(columns).Plus(ColumnOf(m.kind), [m])
      ensures Onward(old(Here()), Here())
      ensures var same := m.position in versions && versions[m.position] == version;
              AllRecent(history, old(Here()), Here(), m.position, was, same, at, at, now)
    {
      hide Versioned, AllRecent, Onward, BuildingOf, ReadsOk, Complete, ColumnIs, Walked, Columns.Plus, SelectedIn;
      var c := ColumnOf(m.kind);
      var i := |columns.Get(c)|;
      NoCellsYet(was, wasKey, c);
      ColumnBuilding(was, wasKey, slots, nextKey, acc, columns, book, got, history, from, now, c, m);
      columns := columns.Plus(c, [m]);
      at := now;
      var s := Look(m.position);
      version := s.version;
      var same := m.position in versions && versions[m.position] == version;
      ghost var t := now;
      var listed := Look(m.position);
      var walked := Walked(m, listed);
      ReadsLater(history, got, columns, from, at, now);
      StayHere(was, wasKey, m.position, same, at, at, now);
      WalkSlots(m, walked, c, i, same, at, was, wasKey, from);
      IsColumn(m, c, i, at, t, now, walked);
      WalkIsComplete(history, m, old(got), got, old(columns), from, old(now), at, now);
    }

    lemma {:induction false} NoCellsYet(was: map<nat, Occupant>, wasKey: nat, c: Column)
      requires Building(was, wasKey)
      ensures forall s :: Cell(c, |columns.Get(c)|, s) !in got
    {
      hide Keyed, Booked, Succeeds, Holds;
    }

    lemma {:induction false} IsColumn(m: Metric, c: Column, i: nat, at: nat, listed: nat, to: nat, walked: seq<nat>)
      requires at <= listed < to && walked == Walked(m, history(listed)(m.position))
      requires exists times, members :: SelectedAt(history, m, walked, times, members, at, to) && CellsOf(got, c, i, members)
      ensures ColumnIs(history, got, m, c, i, at, to)
    {
      hide Walked, SelectedAt, CellsOf;
      var times, members :| SelectedAt(history, m, walked, times, members, at, to) && CellsOf(got, c, i, members);
      assert SelectedIn(history, m, members, at, to);
    }

    /** The slots a metric walks, one after another. */
    method WalkSlots(m: Metric, walked: seq<nat>, c: Column, i: nat, same: bool, ghost at: nat,
                     ghost was: map<nat, Occupant>, ghost wasKey: nat, ghost from: nat)
      requires Versioned(history) && at < now && from <= now && Building(was, wasKey) && !IsScalar(m.kind)
      requires i < |columns.Get(c)| && columns.Get(c)[i] == m && ReadsOk(history, got, columns, from, now)
      requires forall s :: Cell(c, i, s) !in got
      modifies `now, `nextKey, `slots, `acc, `book, `got
      ensures old(now) <= now && Building(was, wasKey) && ReadsOk(history, got, columns, from, now)
      ensures exists times, members :: SelectedAt(history, m, walked, times, members, at, now) && CellsOf(got, c, i, members)
      ensures forall x: Cell :: x.column != c || x.index != i ==> (x in got <==> x in old(got))
      ensures Onward(old(Here()), Here())
      ensures AllRecent(history, old(Here()), Here(), m.position, was, same, at, at, now)
    {
      hide Versioned, AllRecent, Onward, BuildingOf, ReadsOk, Belongs, SelectedAt, CellsOf;
      ghost var a := Here();
      ghost var times: seq<nat>, members: seq<nat> := [], [];
      StayHere(was, wasKey, m.position, same, at, at, now);
      NothingSelected(m, c, i, at);
      assert walked[..0] == [];
      for k := 0 to |walked|
        invariant old(now) <= now && Building(was, wasKey) && ReadsOk(history, got, columns, from, now)
        invariant Onward(a, Here()) && AllRecent(history, a, Here(), m.position, was, same, at, at, now)
        invariant SelectedAt(history, m, walked[..k], times, members, at, now) && CellsOf(got, c, i, members)
        invariant forall x: Cell :: x.column != c || x.index != i ==> (x in got <==> x in old(got))
      {
        ghost var b, mid, cells := Here(), now, got;
        TakeSlot(m, walked[k], c, i, same, at, was, wasKey, from);
        OnwardAgain(a, b, Here());
        RecentAgain(history, a, b, Here(), m.position, was, same, at, at, mid, now);
        SelectedMore(history, m, walked[..k], times, members, at, mid, walked[k], mid, now);
        CellsMore(cells, got, c, i, members, walked[k]);
        assert walked[..k + 1] == walked[..k] + [walked[k]];
        times := times + [mid];
        members := members + (if Belongs(m, history(mid)(m.position).Value(walked[k])) then [walked[k]] else []);
      }
      assert walked[..|walked|] == walked;
    }

    lemma {:induction false} NothingSelected(m: Metric, c: Column, i: nat, at: nat)
      requires forall s :: Cell(c, i, s) !in got
      ensures forall t :: SelectedAt(history, m, [], [], [], at, t)
      ensures CellsOf(got, c, i, [])
    {
    }

    /** For a group of one metric whose slots carry metadata: the labels kept agree
        with the version kept. */
    ghost predicate AllAgree()
      reads `slots, `versions, `builtBy
    {
      OneOfSlots(metrics) ==>
        var p := metrics[0].position;
        forall s :: s in slots ==> p in versions && AgreesFrom(history, p, s, slots[s], versions[p], builtBy)
    }

    /** Between builds. */
    ghost predicate Valid()
      reads this
    {
      Versioned(history) && Booked(slots, book, nextKey) && AllAgree() && builtBy <= now
    }

    constructor (metrics: seq<Metric>, history: History)
      requires Versioned(history)
      ensures Valid() && this.metrics == metrics && this.history == history && nextKey == 0 && slots == map[]
    {
      this.metrics, this.history := metrics, history;
      now, versions, slots, nextKey, builtBy := 0, map[], map[], 0, 0;
      acc, columns, book, got := Acc([], map[], []), NoColumns(), map[], map[];
    }

    /** Every metric, in registry order. */
    method WalkAll(ghost was: map<nat, Occupant>, ghost wasKey: nat, ghost from: nat)
      returns (read: map<nat, nat>, anySlots: bool, ghost at: nat)
      requires Versioned(history) && from <= now && Building(was, wasKey) && ReadsOk(history, got, columns, from, now)
      requires Complete(history, got, columns, from, now) && columns == NoColumns() && acc.position == map[]
      requires forall i :: 0 <= i < |metrics| ==> !IsScalar(metrics[i].kind)
      modifies `now, `nextKey, `slots, `acc, `book, `got, `columns
      ensures old(now) <= now && Building(was, wasKey)
      ensures ReadsOk(history, got, columns, from, now) && Complete(history, got, columns, from, now)
      ensures forall c: Column :: columns.Get(c) == ColumnMetrics(metrics, c)
      ensures anySlots == AnySlots(metrics) && Onward(old(Here()), Here())
      ensures |metrics| == 1 ==> OneWalk(old(now), at, read, old(Here()), was)
    {
      hide Versioned, AllRecent, Onward, BuildingOf, ReadsOk, Complete, OneWalk, ColumnMetrics, Columns.Get, Columns.Plus;
      read, anySlots, at := map[], false, now;
      ghost var a := Here();
      StayHere(was, wasKey, 0, false, 0, 0, 0);
      NoColumnMetrics();
      assert metrics[..0] == [];
      for i := 0 to |metrics|
        invariant old(now) <= now && Building(was, wasKey) && ReadsOk(history, got, columns, from, now)
        invariant Complete(history, got, columns, from, now) && Onward(a, Here())
        invariant forall c: Column :: columns.Get(c) == ColumnMetrics(metrics[..i], c)
        invariant anySlots == AnySlots(metrics[..i])
        invariant i == 0 ==> read == map[] && Here() == a
        invariant i == |metrics| == 1 ==> OneWalk(old(now), at, read, a, was)
      {
        ghost var b := Here();
        var version;
        ghost var t;
        version, t := Walk(metrics[i], was, wasKey, from);
        OnwardAgain(a, b, Here());
        assert metrics[..i + 1] == metrics[..i] + [metrics[i]];
        OneMoreMetric(metrics[..i], metrics[i]);
        read := read[metrics[i].position := version];
        anySlots := anySlots || metrics[i].membership.Slots?;
        at := t;
        if |metrics| == 1 {
          IsOneWalk(old(now), at, read, a, was);
        }
      }
      assert metrics[..|metrics|] == metrics;
    }

    lemma {:induction false} NoColumnMetrics()
      ensures forall c: Column :: NoColumns<Metric>().Get(c) == ColumnMetrics([], c)
    {
    }

    lemma {:induction false} IsOneWalk(from: nat, at: nat, read: map<nat, nat>, a: State, was: map<nat, Occupant>)
      requires |metrics| == 1 && from <= at < now
      requires var p := metrics[0].position;
               && read == map[p := history(at)(p).version]
               && AllRecent(history, a, Here(), p, was, p in versions && versions[p] == read[p], at, at, now)
      ensures OneWalk(from, at, read, a, was)
    {
      hide AllRecent;
    }

    /** A group's only metric was walked. */
    ghost predicate OneWalk(from: nat, at: nat, read: map<nat, nat>, a: State, was: map<nat, Occupant>)
      requires |metrics| == 1
      reads this
    {
      var p := metrics[0].position;
      && from <= at < now && read == map[p := history(at)(p).version]
      && AllRecent(history, a, Here(), p, was, p in versions && versions[p] == read[p], at, at, now)
    }

    /** Build the group: its occupants in slot order, or nothing when no value was read. */
    method Build() returns (members: Option<seq<LongMember>>, order: seq<nat>)
      requires Valid() && forall i :: 0 <= i < |metrics| ==> !IsScalar(metrics[i].kind)
      modifies this
      ensures Valid() && (forall c: Column :: columns.Get(c) == ColumnMetrics(metrics, c))
      // Every occupant once, in slot order, with what its cells' metrics read.
      ensures members.None? <==> order == []
      ensures Ascends(order) && (forall x :: x in got ==> x.slot in order) && (forall s :: s in order ==> s in slots)
      ensures members.Some? ==>
                && |members.value| == |order|
                && forall i :: 0 <= i < |order| ==>
                     IsMember(members.value[i], order[i], slots[order[i]], got, columns)
      ensures ReadsOk(history, got, columns, old(now), now) && Complete(history, got, columns, old(now), now)
      // Keys: none given is ever given again, and each slot goes on from the last build.
      ensures forall k :: k in old(book) ==> k in book && book[k] == old(book)[k]
      ensures forall s :: s in order ==> Continues(old(slots), old(nextKey), s, slots[s])
      ensures forall s :: s in slots && s !in order ==> s in old(slots) && slots[s] == old(slots)[s]
      ensures if AnySlots(metrics) then forall s :: s in slots ==> s in order else old(slots).Keys <= slots.Keys
      ensures OneOfSlots(metrics) ==>
                forall s :: s in order ==> AgreedIn(history, metrics[0].position, s, slots[s], old(slots), old(now), now)
    {
      hide Versioned, ReadsOk, Complete, Booked, ColumnMetrics, AgreesFrom, AgreedIn, Continues, IsMember, Placed,
        Filled, Keyed, Ascends, AllAgree;
      var read, anySlots := ReadAll();
      var occupants;
      occupants, order := Assemble(acc, columns, slots, got);
      Keep(read, anySlots);
      members := if order == [] then None else Some(occupants);
    }

    /** Read every metric. */
    method ReadAll() returns (read: map<nat, nat>, anySlots: bool)
      requires Valid() && forall i :: 0 <= i < |metrics| ==> !IsScalar(metrics[i].kind)
      modifies `now, `nextKey, `slots, `acc, `book, `got, `columns
      ensures old(now) <= now && Booked(slots, book, nextKey) && Placed(acc) && Filled(acc, got, columns) && Keyed(acc, slots)
      ensures Succeeds(old(slots), old(nextKey), slots, nextKey, acc.position)
      ensures (forall c: Column :: columns.Get(c) == ColumnMetrics(metrics, c)) && anySlots == AnySlots(metrics)
      ensures ReadsOk(history, got, columns, old(now), now) && Complete(history, got, columns, old(now), now)
      ensures forall x :: x in got ==> x.slot in acc.position
      ensures forall k :: k in old(book) ==> k in book && book[k] == old(book)[k]
      ensures OneOfSlots(metrics) ==>
                var p := metrics[0].position;
                && p in read
                && forall s :: s in acc.position ==>
                     && s in slots
                     && AgreesFrom(history, p, s, slots[s], read[p], now) &&
                        AgreedIn(history, p, s, slots[s], old(slots), old(now), now)
    {
      hide Versioned, BuildingOf, ReadsOk, Complete, Onward, OneWalk, Booked, ColumnMetrics, AgreesFrom, AgreedIn, Placed,
        Filled, Keyed, Succeeds;
      ghost var was, wasKey, from := slots, nextKey, now;
      acc, columns, got := Acc([], map[], []), NoColumns(), map[];
      NothingBuilt(was, wasKey, from);
      ghost var a := Here();
      ghost var at;
      read, anySlots, at := WalkAll(was, wasKey, from);
      AfterWalk(was, wasKey, a);
      if OneOfSlots(metrics) {
        KeptAgree(was, wasKey, from, at, read, a);
      }
    }

    /** What is kept for the next build: the versions read; and, where slot metadata
        decides a metric's members, only the slots walked. */
    method Keep(read: map<nat, nat>, anySlots: bool)
      requires Versioned(history) && Booked(slots, book, nextKey) && anySlots == AnySlots(metrics)
      requires OneOfSlots(metrics) ==>
                 var p := metrics[0].position;
                 && p in read
                 && forall s :: s in acc.position && s in slots ==> AgreesFrom(history, p, s, slots[s], read[p], now)
      modifies `versions, `builtBy, `slots
      ensures Valid()
      ensures forall s :: s in slots <==> s in old(slots) && (AnySlots(metrics) ==> s in acc.position)
      ensures forall s :: s in slots ==> slots[s] == old(slots)[s]
    {
      hide Versioned, Booked, AgreesFrom;
      versions := read;
      builtBy := now;
      if anySlots {
        slots := map s | s in slots && s in acc.position :: slots[s];
      }
      FewerBooked(old(slots), slots, book, nextKey);
    }

    lemma {:induction false} NothingBuilt(was: map<nat, Occupant>, wasKey: nat, from: nat)
      requires Booked(was, book, wasKey) && slots == was && nextKey == wasKey
      requires acc == Acc([], map[], []) && columns == NoColumns() && got == map[]
      ensures Building(was, wasKey) && ReadsOk(history, got, columns, from, from) && Complete(history, got, columns, from, from)
    {
      hide Booked, Walked, Fixed;
    }

    lemma {:induction false} AfterWalk(was: map<nat, Occupant>, wasKey: nat, a: State)
      requires Building(was, wasKey) && Onward(a, Here())
      ensures Booked(slots, book, nextKey) && Succeeds(was, wasKey, slots, nextKey, acc.position)
      ensures forall k :: k in a.book ==> k in book && book[k] == a.book[k]
      ensures forall x :: x in got ==> x.slot in acc.position
      ensures Placed(acc) && Filled(acc, got, columns) && Keyed(acc, slots)
    {
      hide Booked, Continues, Holds, Keyed;
    }

    /** The labels kept agree with the version read in this build. */
    lemma {:induction false} KeptAgree(was: map<nat, Occupant>, wasKey: nat, from: nat, at: nat, read: map<nat, nat>,
                                      a: State)
      requires Building(was, wasKey) && OneOfSlots(metrics) && OneWalk(from, at, read, a, was)
      requires a.position == map[] && builtBy <= from
      requires forall s :: s in was ==>
                 metrics[0].position in versions &&
                 AgreesFrom(history, metrics[0].position, s, was[s], versions[metrics[0].position], builtBy)
      ensures var p := metrics[0].position;
              && p in read
              && forall s :: s in acc.position ==>
                   && s in slots
                   && AgreesFrom(history, p, s, slots[s], read[p], now) && AgreedIn(history, p, s, slots[s], was, from, now)
    {
      hide BuildingOf, Versioned, AgreesFrom, AgreedIn;
      var p := metrics[0].position;
      var same := p in versions && versions[p] == read[p];
      forall s | s in acc.position
        ensures s in slots
        ensures AgreesFrom(history, p, s, slots[s], read[p], now) && AgreedIn(history, p, s, slots[s], was, from, now)
      {
        assert s in slots && Recent(history, p, s, slots[s], was, same, at, at, now);
        RecentAgrees(history, p, s, slots[s], was, same, at, now, builtBy, from);
      }
    }

    lemma {:induction false} PlacedIn(was: map<nat, Occupant>, wasKey: nat)
      requires Building(was, wasKey)
      ensures forall s :: s in acc.position ==> s in slots && acc.position[s] < |acc.occupants|
      ensures forall s :: s in acc.position ==> acc.position.Keys + {s} == acc.position.Keys
    {
      hide Filled, Keyed, Booked, Continues;
    }
  }

  lemma {:induction false} ColumnBuilding(was: map<nat, Occupant>, wasKey: nat, slots: map<nat, Occupant>, nextKey: nat,
                                          a: Acc, columns: Columns<Metric>, book: Book, got: Reads, h: History,
                                          from: nat, to: nat, c: Column, m: Metric)
    requires BuildingOf(was, wasKey, slots, nextKey, a, columns, book, got) && ReadsOk(h, got, columns, from, to)
    ensures BuildingOf(was, wasKey, slots, nextKey, a, columns.Plus(c, [m]), book, got)
    ensures ReadsOk(h, got, columns.Plus(c, [m]), from, to)
    ensures columns.Plus(c, [m]).Get(c) == columns.Get(c) + [m]
  {
    ColumnMore(h, a, got, columns, from, to, c, m);
    hide Filled, Keyed, Booked, Succeeds, Placed, ReadsOk;
  }

  lemma {:induction false} CellsMore(cells: Reads, got: Reads, c: Column, i: nat, members: seq<nat>, slot: nat)
    requires CellsOf(cells, c, i, members)
    ensures got.Keys == cells.Keys + {Cell(c, i, slot)} ==> CellsOf(got, c, i, members + [slot])
    ensures got.Keys == cells.Keys ==> CellsOf(got, c, i, members + [])
  {
    assert members + [] == members;
  }

  lemma {:induction false} WalkIsComplete(h: History, m: Metric, before: Reads, got: Reads, columns: Columns<Metric>,
                                          from: nat, mid: nat, at: nat, to: nat)
    requires from <= mid <= at <= to && Complete(h, before, columns, from, mid)
    requires var k := ColumnOf(m.kind);
             && ColumnIs(h, got, m, k, |columns.Get(k)|, at, to)
             && forall x: Cell :: x.column != k || x.index != |columns.Get(k)| ==> (x in got <==> x in before)
    ensures Complete(h, got, columns.Plus(ColumnOf(m.kind), [m]), from, to)
  {
    hide SelectedIn, ColumnOf;
    var k := ColumnOf(m.kind);
    var more := columns.Plus(k, [m]);
    forall c: Column, i: nat | i < |more.Get(c)| ensures ColumnIs(h, got, more.Get(c)[i], c, i, from, to) {
      if i < |columns.Get(c)| {
        assert more.Get(c)[i] == columns.Get(c)[i] && ColumnIs(h, before, columns.Get(c)[i], c, i, from, mid);
        var members :| SelectedIn(h, columns.Get(c)[i], members, from, mid) && CellsOf(before, c, i, members);
        SelectedLater(h, columns.Get(c)[i], members, from, mid, from, to);
        assert CellsOf(got, c, i, members);
      } else {
        var members :| SelectedIn(h, m, members, at, to) && CellsOf(got, c, i, members);
        SelectedLater(h, m, members, at, to, from, to);
      }
    }
  }

  lemma {:induction false} RecentUnplaced(h: History, a: State, b: State, c: State, p: nat, was: map<nat, Occupant>,
                                          same: bool, at: nat, from: nat, to: nat)
    requires AllRecent(h, a, b, p, was, same, at, from, to) && c.position == b.position && c.slots == b.slots
    ensures AllRecent(h, a, c, p, was, same, at, from, to)
  {
  }

  /** One more value read of a slot that has an occupant. */
  lemma {:induction false} ValueBuilding(was: map<nat, Occupant>, wasKey: nat, slots: map<nat, Occupant>, nextKey: nat,
                                         a: Acc, columns: Columns<Metric>, book: Book, got: Reads, idx: nat, c: Column,
                                         i: nat, v: Option<int>)
    requires BuildingOf(was, wasKey, slots, nextKey, a, columns, book, got) && idx in a.position
    requires i < |columns.Get(c)|
    ensures a.position[idx] < |a.occupants|
    ensures BuildingOf(was, wasKey, slots, nextKey, WithValue(a, a.position[idx], c, i, v), columns, book,
                       got[Cell(c, i, idx) := v])
  {
    ValueIsFilled(a, idx, c, i, v, got, columns);
    ValueIsPlaced(a, slots, a.position[idx], c, i, v);
    hide Filled, Booked, Succeeds, Placed, Keyed;
  }

  lemma {:induction false} ValueIsPlaced(a: Acc, slots: map<nat, Occupant>, pos: nat, c: Column, i: nat, v: Option<int>)
    requires Placed(a) && Keyed(a, slots) && pos < |a.occupants|
    ensures Placed(WithValue(a, pos, c, i, v)) && Keyed(WithValue(a, pos, c, i, v), slots)
  {
    hide WithCell;
    var b := WithValue(a, pos, c, i, v);
    forall k | 0 <= k < |b.slots|
      ensures b.slots[k] in slots && b.occupants[k].key == slots[b.slots[k]].key
      ensures b.occupants[k].labels == slots[b.slots[k]].labels
    {
      assert b.slots[k] == a.slots[k];
    }
  }

  lemma {:induction false} AddedPlace(a: Acc, idx: nat, o: Occupant)
    ensures Added(a, idx, o).position.Keys == a.position.Keys + {idx}
  {
  }
}
