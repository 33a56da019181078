/** Which slots a metric's members are, by its membership and entries, and what a build
    describes and emits in those terms. */
module MembershipMeaning {
  import opened Prelude
  import opened Sorting
  import opened SkeletonCache
  import opened SkeletonBuilding
  import opened LongGroups

  // ----- The slots walked

  /** The store lists each slot once, as a map's keys are. */
  ghost predicate ListsOnce(s: Store) {
    Distinct(s.listed)
  }

  ghost predicate Ascending(xs: seq<nat>) {
    forall i, j :: 0 <= i < j < |xs| ==> xs[i] < xs[j]
  }

  /** A set of indices is given in ascending order. */
  ghost predicate SetAscends(m: Metric) {
    m.membership.Set? ==> Ascending(m.membership.indices)
  }

  /** Slot `slot` is walked of a group metric: the store's for slots with metadata and for
      histograms, else those of the membership that the backing array has. */
  ghost predicate Walks(m: Metric, s: Store, slot: nat) {
    if m.kind.HistogramGroup? || m.membership.Slots? then slot in s.listed
    else
      && slot < m.entries
      && (m.membership.Prefix? ==> slot < m.membership.bound)
      && (m.membership.Set? ==> slot in m.membership.indices)
  }

  lemma {:induction false} BelowIs(indices: seq<nat>, entries: nat)
    requires Ascending(indices)
    ensures Ascending(Below(indices, entries))
    ensures forall x :: x in Below(indices, entries) <==> x in indices && x < entries
  {
    if indices != [] {
      var rest := indices[1..];
      assert indices == [indices[0]] + rest;
      if indices[0] < entries {
        BelowIs(rest, entries);
        var r := Below(rest, entries);
        forall i | 0 <= i < |r| ensures indices[0] < r[i] {
          assert r[i] in rest;
        }
      } else {
        forall x | x in indices ensures entries <= x {
          var i :| 0 <= i < |indices| && indices[i] == x;
          assert i > 0 ==> indices[0] < indices[i];
        }
      }
    }
  }

  lemma {:induction false} SortedOnce(xs: seq<nat>)
    requires Distinct(xs)
    ensures var s := Sort(xs, (a: nat, b: nat) => a <= b);
            Ascending(s) && forall x :: x in s <==> x in xs
  {
    var le := (a: nat, b: nat) => a <= b;
    var s := Sort(xs, le);
    SortSorts(xs, le);
    forall i, j | 0 <= i < j < |s| ensures s[i] < s[j] {
      assert le(s[i], s[j]);
      OnceEach(xs, s[i]);
      if s[i] == s[j] {
        TwiceIn(s, i, j);
        assert false;
      }
    }
    forall x ensures x in s <==> x in xs {
      assert x in s <==> x in multiset(s);
      assert x in xs <==> x in multiset(xs);
    }
  }

  lemma {:induction false} IndicesAre(n: nat)
    ensures Ascending(Indices(n)) && forall x: nat :: x in Indices(n) <==> x < n
  {
    forall x: nat ensures x in Indices(n) <==> x < n {
      if x < n {
        assert Indices(n)[x] == x;
      }
      if x in Indices(n) {
        var i :| 0 <= i < n && Indices(n)[i] == x;
      }
    }
  }

  /** A metric's walked slots ascend, and are those. */
  lemma {:induction false} WalkedIs(m: Metric, s: Store)
    requires ListsOnce(s) && SetAscends(m)
    ensures Ascending(Walked(m, s))
    ensures forall slot :: slot in Walked(m, s) <==> Walks(m, s, slot)
  {
    hide Sort, Distinct;
    if m.kind.HistogramGroup? || m.membership.Slots? {
      SortedOnce(s.listed);
    } else if m.membership.Set? {
      BelowIs(m.membership.indices, m.entries);
    } else {
      IndicesAre(if m.membership.Prefix? then Prelude.Min(m.membership.bound, m.entries) else m.entries);
      hide Indices;
    }
  }

  /** Which metrics have fixed members: a counter, a gauge, a histogram that is not
      `Present`, and a group of counters or gauges whose membership is all, a prefix or a
      set; which have those of slots with metadata; and which column each is in. */
  lemma {:induction false} KindsAre(m: Metric)
    ensures Fixed(m) <==>
              || m.kind in {Counter, Gauge} || (m.kind in {Histogram, GaugeHistogram} && m.membership != Present)
              || (m.kind in {CounterGroup, GaugeGroup} && (m.membership == All || m.membership.Prefix? || m.membership.Set?))
    ensures OfSlots(m) <==> m.kind in {CounterGroup, GaugeGroup} && m.membership == Slots
    ensures ColumnOf(m.kind) == if m.kind in {Counter, CounterGroup} then Counters
                                else if m.kind in {Gauge, GaugeGroup} then Gauges
                                else if m.kind in {Histogram, HistogramGroup} then Histograms
                                else GaugeHistograms
  {
  }

  // ----- The members among them

  /** A walked slot with value `v` is a member: a histogram with a value; with `Present`
      membership a counter other than 0, or a gauge with a value; else any. */
  ghost predicate Member(m: Metric, v: Option<int>) {
    if m.kind.HistogramGroup? then v != None
    else if m.membership != Present then true
    else if m.kind.CounterGroup? then v != None && v != Some(0)
    else if m.kind.Counter? || m.kind.Gauge? then true
    else v != None
  }

  lemma {:induction false} BelongsIs(m: Metric, v: Option<int>)
    ensures Belongs(m, v) <==> Member(m, v)
  {
  }

  /** The members read are the slots walked at one moment that are members by the values
      read of them at others. */
  ghost predicate MembersRead(h: History, m: Metric, members: seq<nat>, from: nat, to: nat) {
    exists at, when :: MembersReadAt(h, m, members, at, when, from, to)
  }

  ghost predicate MembersReadAt(h: History, m: Metric, members: seq<nat>, at: nat, when: map<nat, nat>, from: nat, to: nat) {
    && from <= at < to && Ascending(members)
    && (forall slot :: slot in when <==> Walks(m, h(at)(m.position), slot))
    && (forall slot :: slot in when ==> from <= when[slot] < to)
    && IsSelected(h, m, members, when)
  }

  /** `members` are the slots of `when` that are members by their values at its moments. */
  ghost predicate IsSelected(h: History, m: Metric, members: seq<nat>, when: map<nat, nat>) {
    forall slot :: slot in members <==> slot in when && Member(m, h(when[slot])(m.position).Value(slot))
  }

  lemma {:induction false} SelectedMoreAre(h: History, m: Metric, members: seq<nat>, when: map<nat, nat>, slot: nat, t: nat)
    requires IsSelected(h, m, members, when) && slot !in when
    ensures IsSelected(h, m, members + (if Member(m, h(t)(m.position).Value(slot)) then [slot] else []), when[slot := t])
  {
    hide Member;
  }

  lemma {:induction false} SelectedAre(h: History, m: Metric, walked: seq<nat>, times: seq<nat>) returns (when: map<nat, nat>)
    requires |walked| == |times| && Ascending(walked)
    ensures Ascending(Selected(h, m, walked, times)) && IsSelected(h, m, Selected(h, m, walked, times), when)
    ensures forall slot :: slot in when <==> slot in walked
    ensures forall slot :: slot in when ==> when[slot] in times
  {
    hide Member, Belongs, IsSelected;
    if walked == [] {
      when := map[];
      assert IsSelected(h, m, [], map[]) by { NoneSelected(h, m); }
    } else {
      var n := |walked| - 1;
      var before := SelectedAre(h, m, walked[..n], times[..n]);
      var t, slot := times[n], walked[n];
      assert walked == walked[..n] + [slot] && times == times[..n] + [t];
      BelongsIs(m, h(t)(m.position).Value(slot));
      when := before[slot := t];
      var members := Selected(h, m, walked[..n], times[..n]);
      SelectedMoreAre(h, m, members, before, slot, t);
      SelectedBelow(h, m, members, before, walked[..n], slot);
    }
  }

  lemma {:induction false} NoneSelected(h: History, m: Metric)
    ensures IsSelected(h, m, [], map[])
  {
  }

  lemma {:induction false} SelectedBelow(h: History, m: Metric, members: seq<nat>, when: map<nat, nat>, walked: seq<nat>,
                                         slot: nat)
    requires IsSelected(h, m, members, when) && Ascending(members) && forall x :: x in when ==> x in walked
    requires forall i :: 0 <= i < |walked| ==> walked[i] < slot
    ensures Ascending(members + [slot])
  {
    hide Member;
    forall i | 0 <= i < |members| ensures members[i] < slot {
      assert members[i] in when;
    }
  }

  lemma {:induction false} MembersAre(h: History, m: Metric, members: seq<nat>, from: nat, to: nat)
    requires SelectedIn(h, m, members, from, to) && SetAscends(m) && forall t :: ListsOnce(h(t)(m.position))
    ensures MembersRead(h, m, members, from, to)
  {
    hide Walked, Selected, Walks, IsSelected, SetAscends, ListsOnce;
    var at, times :| from <= at < to && SelectedAt(h, m, Walked(m, h(at)(m.position)), times, members, from, to);
    WalkedIs(m, h(at)(m.position));
    var when := SelectedAre(h, m, Walked(m, h(at)(m.position)), times);
    forall slot | slot in when ensures from <= when[slot] < to {
      var i :| 0 <= i < |times| && times[i] == when[slot];
    }
    assert MembersReadAt(h, m, members, at, when, from, to);
  }

  // ----- A build of fixed members

  /** `n` names a member of column `c`: a scalar metric, or a slot its metric walks. */
  ghost predicate IsNamed(ms: seq<Metric>, c: Column, n: Name) {
    exists j :: 0 <= j < |ms| && ColumnOf(ms[j].kind) == c && NamedBy(ms[j], n)
  }

  ghost predicate NamedBy(m: Metric, n: Name) {
    && n.position == m.position
    && (if IsScalar(m.kind) then n.slot == None
        else n.slot.Some? && n.slot.value < m.entries
             && (m.membership.Prefix? ==> n.slot.value < m.membership.bound)
             && (m.membership.Set? ==> n.slot.value in m.membership.indices))
  }

  lemma {:induction false} FixedNamesAre(m: Metric, n: Name)
    requires Fixed(m) && SetAscends(m)
    ensures n in FixedNames(m) <==> NamedBy(m, n)
  {
    hide Walked;
    var none := Store(0, map[], [], map[]);
    WalkedIs(m, none);
    var ws := Walked(m, none);
    if !IsScalar(m.kind) {
      var names := FixedNames(m);
      if NamedBy(m, n) {
        assert n.slot.value in ws;
        var i :| 0 <= i < |ws| && ws[i] == n.slot.value;
        assert names[i] == n;
      }
      if n in names {
        var i :| 0 <= i < |names| && names[i] == n;
        assert ws[i] in ws;
      }
    }
  }

  /** The names of a column of fixed members are exactly those. */
  lemma {:induction false} FixedColumnIs(ms: seq<Metric>, c: Column, n: Name)
    requires AllFixed(ms, c) && forall j :: 0 <= j < |ms| ==> SetAscends(ms[j])
    ensures n in FixedColumn(ms, c) <==> IsNamed(ms, c, n)
  {
    hide FixedNames, NamedBy, Fixed, SetAscends;
    if ms != [] {
      var k := |ms| - 1;
      var m := ms[k];
      assert ms == ms[..k] + [m];
      FixedMore(ms[..k], m, c);
      FixedColumnIs(ms[..k], c, n);
      if ColumnOf(m.kind) == c {
        FixedNamesAre(m, n);
      }
      forall j | 0 <= j < k ensures ms[..k][j] == ms[j] {
      }
      if IsNamed(ms[..k], c, n) {
        var j :| 0 <= j < k && ColumnOf(ms[..k][j].kind) == c && NamedBy(ms[..k][j], n);
        assert NamedBy(ms[j], n);
      }
    }
  }

  /** A schema describes, in its column `c`, exactly the group's fixed members, and after
      them a caller's own. */
  ghost predicate DescribesFixed(ms: seq<Metric>, c: Column, schema: Columns<Desc>, own: seq<Desc>) {
    var k := |schema.Get(c)| - |own|;
    && 0 <= k && schema.Get(c)[k..] == own
    && forall n :: (exists i :: 0 <= i < k && schema.Get(c)[i].name == n) <==> IsNamed(ms, c, n)
  }

  lemma {:induction false} SchemaDescribes(h: History, ms: seq<Metric>, sk: Skeleton, builtBy: nat, own: seq<Desc>,
                                           from: nat, to: nat, c: Column)
    requires SkeletonOk(h, sk, builtBy) && IdentityIn(h, ms, sk.identity, from, to) && AllFixed(ms, c)
    requires forall j :: 0 <= j < |ms| ==> SetAscends(ms[j])
    requires var k := |NamesOf(sk.identity.Get(c))|;
             |sk.schema.Get(c)| == k + |own| && sk.schema.Get(c)[k..] == own
    ensures DescribesFixed(ms, c, sk.schema, own)
  {
    hide NamesOf, DescribesAll, RecordsIn, AllFixed, FixedColumn, IsNamed, SetAscends;
    var xs :| RecordsIn(h, ms, xs, sk.identity, from, to);
    FixedRecordsName(h, ms, xs, sk.identity, from, to, c);
    var ns := FixedColumn(ms, c);
    var ds := sk.schema.Get(c);
    DescribedNames(h, sk.identity.Get(c), ds[..|ns|], builtBy);
    forall n ensures (exists i :: 0 <= i < |ns| && ds[i].name == n) <==> IsNamed(ms, c, n) {
      FixedColumnIs(ms, c, n);
      if n in ns {
        var i :| 0 <= i < |ns| && ns[i] == n;
        assert ds[..|ns|][i].name == n;
      }
    }
  }

  /** No member is described twice. */
  lemma {:induction false} NamedOnce(ms: seq<Metric>, c: Column)
    requires Apart(ms) && AllFixed(ms, c) && forall j :: 0 <= j < |ms| ==> SetAscends(ms[j])
    ensures Distinct(FixedColumn(ms, c))
  {
    hide FixedNames, Fixed, SetAscends;
    if ms != [] {
      var k := |ms| - 1;
      var m, before := ms[k], FixedColumn(ms[..k], c);
      assert ms == ms[..k] + [m];
      FixedMore(ms[..k], m, c);
      ApartPrefix(ms, k);
      NamedOnce(ms[..k], c);
      if ColumnOf(m.kind) == c {
        NamesOnce(m);
        forall i, j | 0 <= i < |before| && 0 <= j < |FixedNames(m)| ensures before[i] != FixedNames(m)[j] {
          PositionOf(ms[..k], c, before[i]);
          assert FixedNames(m)[j].position == m.position;
        }
      } else {
        assert before + [] == before;
      }
    }
  }

  lemma {:induction false} NamesOnce(m: Metric)
    requires Fixed(m) && SetAscends(m)
    ensures Distinct(FixedNames(m)) && forall n :: n in FixedNames(m) ==> n.position == m.position
  {
    hide Walked, Fixed;
    var none := Store(0, map[], [], map[]);
    WalkedIs(m, none);
    var ws := Walked(m, none);
    if !IsScalar(m.kind) {
      forall i, j | 0 <= i < j < |ws| ensures FixedNames(m)[i] != FixedNames(m)[j] {
        assert ws[i] < ws[j];
      }
    }
  }

  lemma {:induction false} PositionOf(ms: seq<Metric>, c: Column, n: Name)
    requires n in FixedColumn(ms, c) && AllFixed(ms, c)
    ensures HasPosition(ms, n.position)
  {
    hide FixedNames, Fixed;
    if ms != [] {
      var k := |ms| - 1;
      var m := ms[k];
      assert ms == ms[..k] + [m];
      FixedMore(ms[..k], m, c);
      if n in FixedColumn(ms[..k], c) {
        PositionOf(ms[..k], c, n);
        var j :| 0 <= j < k && ms[..k][j].position == n.position;
        assert ms[j].position == n.position;
      } else {
        NamesAt(m, n);
        assert ms[k].position == n.position;
      }
    }
  }

  lemma {:induction false} NamesAt(m: Metric, n: Name)
    requires n in FixedNames(m)
    ensures n.position == m.position
  {
    hide Walked;
  }

  // ----- A long group's cells

  /** A column's cells are of exactly the slots its metric walks that are members. */
  lemma {:induction false} CellsAre(h: History, got: Reads, m: Metric, c: Column, i: nat, from: nat, to: nat)
    returns (members: seq<nat>)
    requires ColumnIs(h, got, m, c, i, from, to) && SetAscends(m) && forall t :: ListsOnce(h(t)(m.position))
    ensures MembersRead(h, m, members, from, to)
    ensures forall slot :: Cell(c, i, slot) in got <==> slot in members
  {
    hide SelectedIn, MembersRead, SetAscends, ListsOnce;
    members :| SelectedIn(h, m, members, from, to) && CellsOf(got, c, i, members);
    MembersAre(h, m, members, from, to);
  }

  lemma {:induction false} RebuiltIdentity(h: History, ms: seq<Metric>, extra: Option<Extra>, out: Option<Snapshot>,
                                           was: Option<Skeleton>, cache: Option<Skeleton>, from: nat, to: nat)
    requires RebuiltBy(h, ms, extra, out, was, cache, from, to) && out.Some?
    ensures cache.Some? && IdentityIn(h, ms, cache.value.identity, from, to)
  {
    hide Built, RecordsIn;
  }

  lemma {:induction false} FixedIsKept(h: History, ms: seq<Metric>, at: map<nat, nat>, heard: map<nat, nat>, c: Column)
    requires FixedGroup(ms)
    ensures AllFixed(ms, c) && SlotsKept(h, ms, at, heard, c)
  {
    hide Fixed;
    assert AllFixed(ms, c);
  }

  lemma {:induction false} NamedIsMember(ms: seq<Metric>, c: Column, n: Name)
    requires FixedGroup(ms) && IsNamed(ms, c, n) && forall j :: 0 <= j < |ms| ==> SetAscends(ms[j])
    ensures HasMembers(ms)
  {
    hide IsNamed, FixedColumn, SetAscends, AllFixed;
    assert AllFixed(ms, c);
    FixedColumnIs(ms, c, n);
  }

  /** What a fixed group's cached schema describes. */
  lemma {:induction false} CachedDescribes(h: History, ms: seq<Metric>, sk: Skeleton, builtBy: nat, own: Option<Extra>,
                                           from: nat, to: nat, c: Column)
    requires SkeletonOk(h, sk, builtBy) && OwnCounted(sk, own) && IdentityIn(h, ms, sk.identity, from, to)
    requires FixedGroup(ms) && forall j :: 0 <= j < |ms| ==> SetAscends(ms[j])
    ensures DescribesFixed(ms, c, sk.schema, ExtraDescs(own, c))
  {
    hide SkeletonOk, IdentityIn, SetAscends, DescribesFixed, NamesOf, ExtraDescs;
    FixedIsKept(h, ms, map[], map[], c);
    hide FixedGroup, AllFixed, SlotsKept;
    SchemaDescribes(h, ms, sk, builtBy, ExtraDescs(own, c), from, to, c);
  }

  /** A group of fixed members with at least one, unless it is a hit on a schema of a
      caller's own, is emitted; and what is emitted describes exactly its fixed members,
      each value read of the member described, and then the caller's own. */
  method BuildFixed(g: GroupCache, extra: Option<Extra>) returns (out: Option<Snapshot>, hit: bool)
    requires g.Valid() && Apart(g.metrics) && (extra.Some? ==> extra.value.Valid()) && FixedGroup(g.metrics)
    requires forall j :: 0 <= j < |g.metrics| ==> SetAscends(g.metrics[j])
    modifies g
    ensures g.Valid()
    ensures (exists c: Column, n: Name :: IsNamed(g.metrics, c, n)) && (hit ==> !HasOwn(old(g.own))) ==> out.Some?
    ensures out.Some? ==> forall c: Column :: DescribesFixed(g.metrics, c, out.value.schema, ExtraDescs(extra, c))
    ensures out.Some? ==> forall c: Column ::
              Bound(g.history, out.value.schema.Get(c), out.value.values.Get(c), ExtraDescs(extra, c), ExtraValues(extra, c),
                    old(g.now), g.now)
  {
    hide Apart, FixedGroup, IsNamed, SetAscends, ServedBy, RebuiltBy, Bound, FreshFrom, SameCounts, IdentityIn, SlotsKept,
      SkeletonOk, OwnCounted, Versioned, DescribesFixed, HasMembers;
    ghost var first, at, mid, heard, from;
    from := g.now;
    out, hit, first, at, mid, heard := g.Build(extra);
    if exists c: Column, n: Name :: IsNamed(g.metrics, c, n) {
      ghost var c: Column, n: Name :| IsNamed(g.metrics, c, n);
      NamedIsMember(g.metrics, c, n);
      if !hit {
        FixedIsEmitted(g.history, g.metrics, extra, out, old(g.cache), g.cache, mid, g.now);
      }
    }
    if out.Some? {
      if hit {
        FreshSchema(g.history, old(g.cache), out.value.schema, at, from, mid);
      } else {
        RebuiltIdentity(g.history, g.metrics, extra, out, old(g.cache), g.cache, mid, g.now);
      }
      forall c: Column
        ensures DescribesFixed(g.metrics, c, out.value.schema, ExtraDescs(extra, c))
        ensures Bound(g.history, out.value.schema.Get(c), out.value.values.Get(c), ExtraDescs(extra, c),
                      ExtraValues(extra, c), from, g.now)
      {
        FixedIsKept(g.history, g.metrics, at, heard, c);
        assert hit ==> !HasOwn(g.own) && ExtraDescs(g.own, c) == [];
        CachedDescribes(g.history, g.metrics, g.cache.value, g.builtBy, g.own, if hit then from else mid,
                        if hit then mid else g.now, c);
        BoundSince(g.history, out.value.schema.Get(c), out.value.values.Get(c), ExtraDescs(extra, c), ExtraValues(extra, c),
                   mid, g.now, from);
      }
    }
  }

  lemma {:induction false} FreshSchema(h: History, was: Option<Skeleton>, schema: Columns<Desc>, at: map<nat, nat>,
                                       from: nat, to: nat)
    requires FreshFrom(h, was, schema, at, from, to)
    ensures was.Some? && schema == was.value.schema
  {
  }

  lemma {:induction false} BoundSince(h: History, ds: seq<Desc>, vs: seq<Option<int>>, extraDescs: seq<Desc>,
                                      extraValues: seq<Option<int>>, t: nat, to: nat, from: nat)
    requires Bound(h, ds, vs, extraDescs, extraValues, t, to) && from <= t
    ensures Bound(h, ds, vs, extraDescs, extraValues, from, to)
  {
    hide ReadOf;
    var k := |ds| - |extraDescs|;
    StillRead(h, NameList(ds[..k]), vs[..k], t, to, from, to);
  }
}
