/** Members that are the slots with metadata: when the values of a hit are those of the
    cached descriptors, and how they can be another slot's. */
module SlotChanges {
  import opened Prelude
  import opened Sorting
  import opened SkeletonCache
  import opened SkeletonBuilding

  /** The registry entry a name reads. */
  function Read(n: Name): (nat, nat) {
    (n.position, if n.slot.Some? then n.slot.value else 0)
  }

  /** The histories differ in values only. */
  ghost predicate SameMetadata(h: History, g: History) {
    forall t, p :: h(t)(p).(values := map[]) == g(t)(p).(values := map[])
  }

  /** A walk of members `walked` gives values of `described`, whatever the values are. */
  ghost predicate Binds(h: History, described: seq<Name>, walked: seq<Name>, from: nat, to: nat) {
    forall g, vs :: SameMetadata(h, g) && AllRead(g, walked, vs, from, to) ==> AllRead(g, described, vs, from, to)
  }

  /** The history in which only entry `e` has a value. */
  function OnlyValue(h: History, e: (nat, nat)): History {
    (t: nat) => (p: nat) => WithValues(h(t)(p), e, p)
  }

  function WithValues(s: Store, e: (nat, nat), p: nat): Store {
    Store(s.version, s.labels, s.listed, if p == e.0 then map[e.1 := 1] else map[])
  }

  lemma {:induction false} OnlyAt(h: History, e: (nat, nat), t: nat, p: nat)
    ensures OnlyValue(h, e)(t)(p) == WithValues(h(t)(p), e, p)
  {
  }

  lemma {:induction false} OnlyReads(h: History, e: (nat, nat), n: Name, v: Option<int>, from: nat, to: nat)
    requires ReadOf(OnlyValue(h, e), n, v, from, to)
    ensures v == if Read(n) == e then Some(1) else None
  {
    var t :| from <= t < to && v == OnlyValue(h, e)(t)(n.position).Value(if n.slot.Some? then n.slot.value else 0);
    OnlyAt(h, e, t, n.position);
  }

  lemma {:induction false} OnlyIsRead(h: History, e: (nat, nat), n: Name, from: nat, to: nat)
    requires from < to
    ensures ReadOf(OnlyValue(h, e), n, if Read(n) == e then Some(1) else None, from, to)
  {
    var t, g := from, OnlyValue(h, e);
    OnlyAt(h, e, t, n.position);
    assert g(t)(n.position).Value(if n.slot.Some? then n.slot.value else 0) == if Read(n) == e then Some(1) else None;
  }

  /** It does exactly when the walk reads, in order, the entries described. */
  lemma {:induction false} BindsExactly(h: History, described: seq<Name>, walked: seq<Name>, from: nat, to: nat)
    requires |described| == |walked| && from < to
    ensures Binds(h, described, walked, from, to) <==>
            forall i :: 0 <= i < |walked| ==> Read(described[i]) == Read(walked[i])
  {
    hide ReadOf, SameMetadata;
    if forall i :: 0 <= i < |walked| ==> Read(described[i]) == Read(walked[i]) {
      forall g, vs | SameMetadata(h, g) && AllRead(g, walked, vs, from, to) ensures AllRead(g, described, vs, from, to) {
        forall i | 0 <= i < |described| ensures ReadOf(g, described[i], vs[i], from, to) {
          SameRead(g, walked[i], described[i], vs[i], from, to);
        }
      }
    }
    if Binds(h, described, walked, from, to) {
      forall i | 0 <= i < |walked| ensures Read(described[i]) == Read(walked[i]) {
        var e := Read(walked[i]);
        var g := OnlyValue(h, e);
        var vs := seq(|walked|, j requires 0 <= j < |walked| => if Read(walked[j]) == e then Some(1) else None);
        forall j | 0 <= j < |walked| ensures ReadOf(g, walked[j], vs[j], from, to) {
          OnlyIsRead(h, e, walked[j], from, to);
        }
        assert SameMetadata(h, g) by { OnlyMetadata(h, e); }
        assert AllRead(g, walked, vs, from, to);
        assert AllRead(g, described, vs, from, to);
        OnlyReads(h, e, described[i], vs[i], from, to);
      }
    }
  }

  lemma {:induction false} OnlyMetadata(h: History, e: (nat, nat))
    ensures SameMetadata(h, OnlyValue(h, e))
  {
    forall t, p ensures h(t)(p).(values := map[]) == OnlyValue(h, e)(t)(p).(values := map[]) {
      OnlyAt(h, e, t, p);
    }
  }

  lemma {:induction false} SameRead(h: History, a: Name, b: Name, v: Option<int>, from: nat, to: nat)
    requires Read(a) == Read(b) && ReadOf(h, a, v, from, to)
    ensures ReadOf(h, b, v, from, to)
  {
    var t :| from <= t < to && v == h(t)(a.position).Value(if a.slot.Some? then a.slot.value else 0);
    assert v == h(t)(b.position).Value(if b.slot.Some? then b.slot.value else 0);
  }

  /** A store whose one slot with metadata is `slot`, of value `v`. */
  function OneSlot(version: nat, slot: nat, v: int): Store {
    Store(version, map[], [slot], map[slot := v])
  }

  /** Slot 1 is replaced by slot 2 at moment 3. */
  function Replaced(): History {
    (t: nat) => (p: nat) => if t < 3 then OneSlot(0, 1, 10) else OneSlot(1, 2, 20)
  }

  lemma {:induction false} ReplacedAt(t: nat, p: nat)
    ensures Replaced()(t)(p) == if t < 3 then OneSlot(0, 1, 10) else OneSlot(1, 2, 20)
  {
  }

  lemma {:induction false} ReplacedIsVersioned()
    ensures Versioned(Replaced())
  {
    forall s, t, p | s <= t ensures Raised(Replaced()(s)(p), Replaced()(t)(p)) {
      ReplacedAt(s, p);
      ReplacedAt(t, p);
    }
  }

  const SLOTS := Metric(0, CounterGroup, Slots, 8)

  lemma {:induction false} OneSelected(slot: nat, version: nat, v: int, listed: nat, read: nat, from: nat, to: nat)
    requires from <= listed < to && from <= read < to
    requires Replaced()(listed)(0) == Replaced()(read)(0) == OneSlot(version, slot, v)
    ensures SelectedIn(Replaced(), SLOTS, [slot], from, to)
  {
    var h := Replaced();
    assert Walked(SLOTS, h(listed)(0)) == [slot];
    assert [slot][..0] == [] && [read][..0] == [];
    assert Selected(h, SLOTS, [slot], [read]) == [slot];
    assert SelectedAt(h, SLOTS, Walked(SLOTS, h(listed)(0)), [read], [slot], from, to);
  }

  lemma {:induction false} SlotDated(d: Desc)
    requires d == Desc(Name(0, Some(1)), None)
    ensures Describes(Replaced(), Grouped(0, 0, [1]), [d], 0)
  {
    hide Replaced;
    forall s: nat ensures Replaced()(s)(0).LabelsOf(1) == None {
      ReplacedAt(s, 0);
    }
    assert Dated(Replaced(), d, 0, 0);
  }

  lemma {:induction false} SlotDescribed(was: Skeleton)
    requires was == Skeleton(Columns([Grouped(0, 0, [1])], [], [], []), Columns([Desc(Name(0, Some(1)), None)], [], [], []))
    ensures Versioned(Replaced()) && SkeletonOk(Replaced(), was, 0)
  {
    hide Replaced, Versioned, Describes, Record.Names, Dated;
    var h, r, ds := Replaced(), was.identity.counters[0], was.schema.counters;
    ReplacedIsVersioned();
    SlotDated(ds[0]);
    assert [] + [r] == [r] && [] + ds == ds;
    DescribesMore(h, [], [], r, ds, 0);
    DescribedNames(h, [r], ds, 0);
    assert ds[..1] == ds;
  }

  lemma {:induction false} SlotFolded(id: Identity)
    requires id == Columns([Grouped(0, 0, [1])], [], [], []) && SelectedIn(Replaced(), SLOTS, [1], 0, 3)
    ensures IdentityIn(Replaced(), [SLOTS], id, 0, 3)
  {
    hide SelectedIn, Replaced;
    ReplacedAt(0, 0);
    var xs := [[Grouped(0, 0, [1])]];
    assert Replaced()(0)(0).version == 0;
    assert RecordIn(Replaced(), SLOTS, xs[0], 0, 3);
    InColumnsMore([], [], SLOTS, xs[0]);
    assert [] + [SLOTS] == [SLOTS] && [] + xs == xs && [] + xs[0] == xs[0];
    assert RecordsIn(Replaced(), [SLOTS], xs, id, 0, 3);
  }

  lemma {:induction false} SlotsAreNotFixed(c: Column)
    ensures c == Counters ==> !AllFixed([SLOTS], c)
    ensures c != Counters ==> FixedColumn([SLOTS], c) == []
  {
    assert [SLOTS][0] == SLOTS && !Fixed(SLOTS) && ColumnOf(SLOTS.kind) == Counters;
    FixedMore([], SLOTS, c);
    assert [] + [SLOTS] == [SLOTS];
  }

  lemma {:induction false} SlotServed(was: Skeleton, out: Option<Snapshot>)
    requires |was.schema.counters| == 1 && was.schema.gauges == [] && was.schema.histograms == was.schema.gaugeHistograms == []
    requires out == Some(Snapshot(was.schema, Columns([Some(20)], [], [], [])))
    requires SelectedIn(Replaced(), SLOTS, [2], 3, 5)
    ensures ServedBy(Replaced(), [SLOTS], was, out, 3, 5)
  {
    hide SelectedIn, Replaced;
    ReplacedAt(4, 0);
    var h, n := Replaced(), Name(0, Some(2));
    var ns, vs := Columns([n], [], [], []), Columns([Some(20)], [], [], []);
    assert SlotNames(SLOTS, [2]) == [n];
    assert NamesIn(h, SLOTS, [n], 3, 5);
    InColumnsMore([], [], SLOTS, [n]);
    assert [] + [SLOTS] == [SLOTS] && [] + [[n]] == [[n]] && [] + [n] == [n];
    assert AllNamesIn(h, [SLOTS], [[n]], ns, 3, 5);
    assert h(4)(0).Value(2) == Some(20);
    assert ReadOf(h, n, Some(20), 3, 5);
    forall c: Column ensures AllFixed([SLOTS], c) ==> ns.Get(c) == FixedColumn([SLOTS], c) {
      SlotsAreNotFixed(c);
    }
    assert WalkOf(h, [SLOTS], ns, vs, 3, 5);
  }

  lemma {:induction false} NotOfSlotOne()
    ensures !ReadOf(Replaced(), Name(0, Some(1)), Some(20), 3, 5)
  {
    forall t | 3 <= t < 5 ensures Replaced()(t)(0).Value(1) == None {
      ReplacedAt(t, 0);
    }
  }

  /** Membership that is slots with metadata can change between the passes though no value
      decides it: slot 1 is replaced by slot 2 after the first pass folded it, in as many
      members, and the hit's value of slot 2 is emitted under slot 1's descriptor. */
  lemma {:induction false} SlotReplaced(was: Skeleton, out: Option<Snapshot>)
    requires was == Skeleton(Columns([Grouped(0, 0, [1])], [], [], []), Columns([Desc(Name(0, Some(1)), None)], [], [], []))
    requires out == Some(Snapshot(was.schema, Columns([Some(20)], [], [], [])))
    ensures Versioned(Replaced()) && SkeletonOk(Replaced(), was, 0)
    ensures IdentityIn(Replaced(), [SLOTS], was.identity, 0, 3) && ServedBy(Replaced(), [SLOTS], was, out, 3, 5)
    ensures !Bound(Replaced(), was.schema.counters, out.value.values.counters, [], [], 3, 5)
  {
    hide Replaced, Versioned, SelectedIn, SkeletonOk, ServedBy, IdentityIn, ReadOf;
    var h := Replaced();
    SlotDescribed(was);
    forall t: nat ensures h(t)(0) == if t < 3 then OneSlot(0, 1, 10) else OneSlot(1, 2, 20) {
      ReplacedAt(t, 0);
    }
    OneSelected(1, 0, 10, 1, 2, 0, 3);
    OneSelected(2, 1, 20, 3, 4, 3, 5);
    SlotFolded(was.identity);
    SlotServed(was, out);
    var ds, vs := was.schema.counters, out.value.values.counters;
    assert ds[..1] == ds && vs[..1] == vs && NameList(ds)[0] == Name(0, Some(1));
    NotOfSlotOne();
  }
}
