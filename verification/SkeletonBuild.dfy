/** Building one group: a first pass that folds its identity, then a walk that reads
    its values and, on a changed identity, its schema. */
module SkeletonBuilding {
  import opened Prelude
  import opened SkeletonCache

  /** `v` was read of member `n` at some moment in `[from, to)`. */
  ghost predicate ReadOf(h: History, n: Name, v: Option<int>, from: nat, to: nat) {
    exists t :: from <= t < to && v == h(t)(n.position).Value(if n.slot.Some? then n.slot.value else 0)
  }

  /** Each value was read of the member named at its place. */
  ghost predicate AllRead(h: History, ns: seq<Name>, vs: seq<Option<int>>, from: nat, to: nat) {
    |ns| == |vs| && forall i :: 0 <= i < |ns| ==> ReadOf(h, ns[i], vs[i], from, to)
  }

  lemma {:induction false} ReadNow(h: History, n: Name, t: nat)
    requires n.slot.Some?
    ensures ReadOf(h, n, h(t)(n.position).Value(n.slot.value), t, t + 1)
  {
  }

  lemma {:induction false} StillRead(h: History, ns: seq<Name>, vs: seq<Option<int>>, from: nat, to: nat, s: nat, t: nat)
    requires AllRead(h, ns, vs, from, to) && s <= from && to <= t
    ensures AllRead(h, ns, vs, s, t)
  {
    forall i | 0 <= i < |ns| ensures ReadOf(h, ns[i], vs[i], s, t) {
      assert ReadOf(h, ns[i], vs[i], from, to);
    }
  }

  lemma {:induction false} ReadMore(h: History, ns: seq<Name>, vs: seq<Option<int>>, ns': seq<Name>, vs': seq<Option<int>>,
                                    from: nat, mid: nat, to: nat)
    requires AllRead(h, ns, vs, from, mid) && AllRead(h, ns', vs', mid, to) && from <= mid <= to
    ensures AllRead(h, ns + ns', vs + vs', from, to)
  {
    StillRead(h, ns, vs, from, mid, from, to);
    StillRead(h, ns', vs', mid, to, from, to);
  }

  function NameList(ds: seq<Desc>): (ns: seq<Name>)
    ensures |ns| == |ds|
  {
    seq(|ds|, i requires 0 <= i < |ds| => ds[i].name)
  }

  /** One more member of a group metric, its labels read after the version. */
  lemma {:induction false} DescribesMember(h: History, p: nat, version: nat, members: seq<nat>, ds: seq<Desc>, s: nat,
                                           slot: nat, d: Desc, t: nat)
    requires Describes(h, Grouped(p, version, members), ds, s) && s <= t
    requires d.name == Name(p, Some(slot)) && Dated(h, d, version, t)
    ensures Describes(h, Grouped(p, version, members + [slot]), ds + [d], t)
  {
    var r := Grouped(p, version, members);
    forall i | 0 <= i < |ds| ensures Dated(h, ds[i], version, t) {
      assert Dated(h, ds[i], r.version, s);
    }
  }

  lemma {:induction false} DescribesLater(h: History, r: Record, ds: seq<Desc>, s: nat, t: nat)
    requires Describes(h, r, ds, s) && s <= t
    ensures Describes(h, r, ds, t)
  {
    if r.Grouped? {
      forall i | 0 <= i < |ds| ensures Dated(h, ds[i], r.version, t) {
        assert Dated(h, ds[i], r.version, s);
      }
    }
  }

  lemma {:induction false} ReadMember(h: History, ns: seq<Name>, vs: seq<Option<int>>, n: Name, v: Option<int>,
                                      from: nat, mid: nat, to: nat)
    requires AllRead(h, ns, vs, from, mid) && ReadOf(h, n, v, mid, to) && from <= mid <= to
    ensures AllRead(h, ns + [n], vs + [v], from, to)
  {
    assert AllRead(h, [n], [v], mid, to);
    ReadMore(h, ns, vs, [n], [v], from, mid, to);
  }

  lemma {:induction false} NamesMore(ds: seq<Desc>, d: Desc)
    ensures NameList(ds + [d]) == NameList(ds) + [d.name]
  {
  }

  /** No two of the metrics have one registry position. */
  ghost predicate Apart(ms: seq<Metric>) {
    forall i, j :: 0 <= i < j < |ms| ==> ms[i].position != ms[j].position
  }

  ghost predicate HasPosition(ms: seq<Metric>, p: nat) {
    exists j :: 0 <= j < |ms| && ms[j].position == p
  }

  /** What a first pass in `[from, to)` folded of some metrics. */
  ghost predicate Folded(h: History, ms: seq<Metric>, id: Identity, at: map<nat, nat>, from: nat, to: nat) {
    && (forall p :: p in at ==> from <= at[p] < to && HasPosition(ms, p))
    && (forall c: Column :: VersionsAt(h, id.Get(c), at, from))
    && forall c: Column :: AllFixed(ms, c) ==> NamesOf(id.Get(c)) == FixedColumn(ms, c)
  }

  function RecordList(r: Option<Record>): seq<Record> {
    if r.Some? then [r.value] else []
  }

  /** A metric's record joins its column. */
  function WithRecord(id: Identity, m: Metric, r: Option<Record>): Identity {
    id.Plus(ColumnOf(m.kind), RecordList(r))
  }

  /** A metric's record, if it has one, has exactly its members as read in
      `[from, to)`. */
  ghost predicate RecordIn(h: History, m: Metric, rs: seq<Record>, from: nat, to: nat) {
    if IsScalar(m.kind) then ScalarIn(h, m, rs != [], from, to) && (rs != [] ==> rs == [Scalar(m.position)])
    else
      && |rs| == 1 && rs[0].Grouped? && rs[0].position == m.position && SelectedIn(h, m, rs[0].members, from, to)
      && exists t :: from <= t < to && rs[0].version == h(t)(m.position).version
  }

  /** What each metric gives, in registry order, by column. */
  function InColumns<T>(ms: seq<Metric>, xs: seq<seq<T>>): Columns<T>
    requires |ms| == |xs|
  {
    if ms == [] then NoColumns()
    else
      var n := |ms| - 1;
      InColumns(ms[..n], xs[..n]).Plus(ColumnOf(ms[n].kind), xs[n])
  }

  lemma {:induction false} InColumnsMore<T>(ms: seq<Metric>, xs: seq<seq<T>>, m: Metric, x: seq<T>)
    requires |ms| == |xs|
    ensures InColumns(ms + [m], xs + [x]) == InColumns(ms, xs).Plus(ColumnOf(m.kind), x)
  {
    assert (ms + [m])[..|ms|] == ms && (xs + [x])[..|xs|] == xs;
  }

  /** Each metric's record was read in `[from, to)`, every one. */
  ghost predicate RecordsIn(h: History, ms: seq<Metric>, xs: seq<seq<Record>>, id: Identity, from: nat, to: nat) {
    && |xs| == |ms| && id == InColumns(ms, xs)
    && forall i :: 0 <= i < |ms| ==> RecordIn(h, ms[i], xs[i], from, to)
  }

  lemma {:induction false} RecordLater(h: History, m: Metric, rs: seq<Record>, from: nat, to: nat, s: nat, t: nat)
    requires RecordIn(h, m, rs, from, to) && s <= from && to <= t
    ensures RecordIn(h, m, rs, s, t)
  {
    if IsScalar(m.kind) {
      var u :| from <= u < to && (rs != []) == Belongs(m, h(u)(m.position).Value(0));
    } else {
      var at, times :| from <= at < to && SelectedAt(h, m, Walked(m, h(at)(m.position)), times, rs[0].members, from, to);
      assert SelectedAt(h, m, Walked(m, h(at)(m.position)), times, rs[0].members, s, t);
    }
  }

  lemma {:induction false} RecordsMore(h: History, ms: seq<Metric>, xs: seq<seq<Record>>, id: Identity, from: nat, mid: nat,
                                       to: nat, m: Metric, r: Option<Record>)
    requires RecordsIn(h, ms, xs, id, from, mid) && RecordIn(h, m, RecordList(r), mid, to) && from <= mid <= to
    ensures RecordsIn(h, ms + [m], xs + [RecordList(r)], WithRecord(id, m, r), from, to)
  {
    hide RecordIn, InColumns;
    InColumnsMore(ms, xs, m, RecordList(r));
    RecordLater(h, m, RecordList(r), mid, to, from, to);
    forall i | 0 <= i < |ms| ensures RecordIn(h, ms[i], xs[i], from, to) {
      RecordLater(h, ms[i], xs[i], from, mid, from, to);
    }
  }

  function SlotNames(m: Metric, members: seq<nat>): (ns: seq<Name>)
    ensures |ns| == |members|
  {
    seq(|members|, i requires 0 <= i < |members| => Name(m.position, Some(members[i])))
  }

  /** `ns` are exactly a metric's members as read in `[from, to)`. */
  ghost predicate NamesIn(h: History, m: Metric, ns: seq<Name>, from: nat, to: nat) {
    if IsScalar(m.kind) then ScalarIn(h, m, ns != [], from, to) && (ns != [] ==> ns == [Name(m.position, None)])
    else exists members :: SelectedIn(h, m, members, from, to) && ns == SlotNames(m, members)
  }

  ghost predicate AllNamesIn(h: History, ms: seq<Metric>, xs: seq<seq<Name>>, ns: Columns<Name>, from: nat, to: nat) {
    && |xs| == |ms| && ns == InColumns(ms, xs)
    && forall i :: 0 <= i < |ms| ==> NamesIn(h, ms[i], xs[i], from, to)
  }

  lemma {:induction false} NamesLater(h: History, m: Metric, ns: seq<Name>, from: nat, to: nat, s: nat, t: nat)
    requires NamesIn(h, m, ns, from, to) && s <= from && to <= t
    ensures NamesIn(h, m, ns, s, t)
  {
    if IsScalar(m.kind) {
      var u :| from <= u < to && (ns != []) == Belongs(m, h(u)(m.position).Value(0));
    } else {
      var members :| SelectedIn(h, m, members, from, to) && ns == SlotNames(m, members);
      var at, times :| from <= at < to && SelectedAt(h, m, Walked(m, h(at)(m.position)), times, members, from, to);
      assert SelectedAt(h, m, Walked(m, h(at)(m.position)), times, members, s, t);
    }
  }

  lemma {:induction false} AllNamesMore(h: History, ms: seq<Metric>, xs: seq<seq<Name>>, ns: Columns<Name>, from: nat,
                                        mid: nat, to: nat, m: Metric, x: seq<Name>)
    requires AllNamesIn(h, ms, xs, ns, from, mid) && NamesIn(h, m, x, mid, to) && from <= mid <= to
    ensures AllNamesIn(h, ms + [m], xs + [x], ns.Plus(ColumnOf(m.kind), x), from, to)
  {
    hide NamesIn, InColumns;
    InColumnsMore(ms, xs, m, x);
    NamesLater(h, m, x, mid, to, from, to);
    forall i | 0 <= i < |ms| ensures NamesIn(h, ms[i], xs[i], from, to) {
      NamesLater(h, ms[i], xs[i], from, mid, from, to);
    }
  }

  lemma {:induction false} NamesOfMore(rs: seq<Record>, r: Record)
    ensures NamesOf(rs + [r]) == NamesOf(rs) + r.Names()
  {
    assert (rs + [r])[..|rs|] == rs;
  }

  lemma {:induction false} FixedMore(ms: seq<Metric>, m: Metric, c: Column)
    ensures FixedColumn(ms + [m], c) == FixedColumn(ms, c) + (if ColumnOf(m.kind) == c then FixedNames(m) else [])
    ensures AllFixed(ms + [m], c) ==> AllFixed(ms, c) && (ColumnOf(m.kind) == c ==> Fixed(m))
  {
    assert (ms + [m])[..|ms|] == ms;
    if AllFixed(ms + [m], c) {
      forall j | 0 <= j < |ms| && ColumnOf(ms[j].kind) == c ensures Fixed(ms[j]) {
        assert (ms + [m])[j] == ms[j];
      }
      assert (ms + [m])[|ms|] == m;
    }
  }

  lemma {:induction false} VersionsMore(h: History, rs: seq<Record>, at: map<nat, nat>, from: nat, p: nat, t: nat,
                                        r: Option<Record>)
    requires VersionsAt(h, rs, at, from) && p !in at && from <= t
    requires r.Some? ==> r.value.position == p
    requires r.Some? && r.value.Grouped? ==> r.value.version == h(t)(p).version
    ensures VersionsAt(h, rs + (if r.Some? then [r.value] else []), at[p := t], from)
    ensures VersionsAt(h, rs, at[p := t], from)
  {
  }

  lemma {:induction false} FoldedMore(h: History, ms: seq<Metric>, id: Identity, at: map<nat, nat>, from: nat, mid: nat,
                                      to: nat, m: Metric, r: Option<Record>, t: nat)
    requires Folded(h, ms, id, at, from, mid) && Apart(ms + [m]) && from <= t < to && mid <= to
    requires r.Some? ==> r.value.position == m.position
    requires r.Some? && r.value.Grouped? ==> r.value.version == h(t)(m.position).version
    requires Fixed(m) ==> r.Some? && r.value.Names() == FixedNames(m)
    ensures Folded(h, ms + [m], WithRecord(id, m, r), at[m.position := t], from, to)
  {
    hide Record.Names, FixedNames, VersionsAt, NamesOf, FixedColumn, AllFixed, Fixed;
    var id' := WithRecord(id, m, r);
    NewPosition(ms, m, at);
    forall c: Column ensures VersionsAt(h, id'.Get(c), at[m.position := t], from) {
      VersionsMore(h, id.Get(c), at, from, m.position, t, r);
      assert id.Get(c) + [] == id.Get(c);
    }
    forall c: Column | AllFixed(ms + [m], c) ensures NamesOf(id'.Get(c)) == FixedColumn(ms + [m], c) {
      FixedMore(ms, m, c);
      if r.Some? {
        NamesOfMore(id.Get(c), r.value);
      }
      assert id.Get(c) + [] == id.Get(c);
      assert FixedColumn(ms, c) + [] == FixedColumn(ms, c);
    }
  }

  lemma {:induction false} NewPosition(ms: seq<Metric>, m: Metric, at: map<nat, nat>)
    requires Apart(ms + [m]) && forall p :: p in at ==> HasPosition(ms, p)
    ensures m.position !in at && HasPosition(ms + [m], m.position)
    ensures forall p :: p in at ==> HasPosition(ms + [m], p)
  {
    forall j | 0 <= j < |ms| ensures ms[j].position != m.position {
      assert (ms + [m])[j] == ms[j] && (ms + [m])[|ms|] == m;
    }
    assert (ms + [m])[|ms|].position == m.position;
    forall p | p in at ensures HasPosition(ms + [m], p) {
      var j :| 0 <= j < |ms| && ms[j].position == p;
      assert (ms + [m])[j].position == p;
    }
  }

  // ----- Members that are the slots with metadata

  /** The names of a registered metric's members, with store `s`. */
  function ListedNames(m: Metric, s: Store): seq<Name> {
    if IsScalar(m.kind) then [Name(m.position, None)] else SlotNames(m, Walked(m, s))
  }

  /** The store of metric `m` at the moment `when` gives. */
  function StoreWhen(h: History, m: Metric, when: map<nat, nat>): Store {
    h(if m.position in when then when[m.position] else 0)(m.position)
  }

  function ListedColumn(h: History, ms: seq<Metric>, when: map<nat, nat>, c: Column): seq<Name> {
    if ms == [] then []
    else
      var m := ms[|ms| - 1];
      ListedColumn(h, ms[..|ms| - 1], when, c) + (if ColumnOf(m.kind) == c then ListedNames(m, StoreWhen(h, m, when)) else [])
  }

  /** Every metric of column `c` is registered. */
  ghost predicate AllRegistered(ms: seq<Metric>, c: Column) {
    forall j :: 0 <= j < |ms| && ColumnOf(ms[j].kind) == c ==> Registers(ms[j])
  }

  /** Some walk's names in registered columns are those listed at the moments `when`, in
      `[from, to)`. */
  ghost predicate Listings(h: History, ms: seq<Metric>, ns: Columns<Name>, when: map<nat, nat>, from: nat, to: nat) {
    && (forall p :: p in when <==> HasPosition(ms, p))
    && (forall p :: p in when ==> from <= when[p] < to)
    && forall c: Column :: AllRegistered(ms, c) ==> ns.Get(c) == ListedColumn(h, ms, when, c)
  }

  lemma {:induction false} ListedElsewhere(h: History, ms: seq<Metric>, when: map<nat, nat>, p: nat, t: nat, c: Column)
    requires !HasPosition(ms, p)
    ensures ListedColumn(h, ms, when[p := t], c) == ListedColumn(h, ms, when, c)
  {
    hide ListedNames;
    if ms != [] {
      var n := |ms| - 1;
      assert ms[n].position != p;
      forall j | 0 <= j < n ensures ms[..n][j].position != p {
        assert ms[..n][j] == ms[j];
      }
      ListedElsewhere(h, ms[..n], when, p, t, c);
    }
  }

  lemma {:induction false} RegisteredMore(ms: seq<Metric>, m: Metric, c: Column)
    requires AllRegistered(ms + [m], c)
    ensures AllRegistered(ms, c) && (ColumnOf(m.kind) == c ==> Registers(m))
  {
    forall j | 0 <= j < |ms| && ColumnOf(ms[j].kind) == c ensures Registers(ms[j]) {
      assert (ms + [m])[j] == ms[j];
    }
    assert (ms + [m])[|ms|] == m;
  }

  lemma {:induction false} ListingsMore(h: History, ms: seq<Metric>, ns: Columns<Name>, when: map<nat, nat>, from: nat,
                                        mid: nat, to: nat, m: Metric, names: seq<Name>, t: nat)
    requires Listings(h, ms, ns, when, from, mid) && Apart(ms + [m]) && from <= t < to && mid <= to
    requires Registers(m) ==> names == ListedNames(m, h(t)(m.position))
    ensures Listings(h, ms + [m], ns.Plus(ColumnOf(m.kind), names), when[m.position := t], from, to)
  {
    hide Registers, ListedNames, ListedColumn;
    var p, k := m.position, ColumnOf(m.kind);
    NewListing(ms, m, when);
    forall c: Column | AllRegistered(ms + [m], c)
      ensures ns.Plus(k, names).Get(c) == ListedColumn(h, ms + [m], when[p := t], c)
    {
      RegisteredMore(ms, m, c);
      ListedElsewhere(h, ms, when, p, t, c);
      ListedNext(h, ms, m, when[p := t], c);
      assert ListedColumn(h, ms, when, c) + [] == ListedColumn(h, ms, when, c);
    }
  }

  lemma {:induction false} ListedNext(h: History, ms: seq<Metric>, m: Metric, when: map<nat, nat>, c: Column)
    ensures ListedColumn(h, ms + [m], when, c) ==
            ListedColumn(h, ms, when, c) + (if ColumnOf(m.kind) == c then ListedNames(m, StoreWhen(h, m, when)) else [])
  {
    assert (ms + [m])[..|ms|] == ms;
  }

  lemma {:induction false} NewListing(ms: seq<Metric>, m: Metric, when: map<nat, nat>)
    requires Apart(ms + [m]) && forall p :: p in when <==> HasPosition(ms, p)
    ensures !HasPosition(ms, m.position)
    ensures forall p :: HasPosition(ms + [m], p) <==> p in when || p == m.position
  {
    NewPosition(ms, m, when);
    forall p | HasPosition(ms + [m], p) ensures p in when || p == m.position {
      var j :| 0 <= j < |ms + [m]| && (ms + [m])[j].position == p;
      if j < |ms| {
        assert ms[j].position == p;
      }
    }
  }

  /** Each metric of column `c` has fixed members; or its members are the slots with
      metadata, and its version at the moment `heard` is what it was at the moment `at`. */
  ghost predicate SlotsKept(h: History, ms: seq<Metric>, at: map<nat, nat>, heard: map<nat, nat>, c: Column) {
    forall j :: 0 <= j < |ms| && ColumnOf(ms[j].kind) == c ==>
      Fixed(ms[j]) || (OfSlots(ms[j]) && VersionKept(h, ms[j].position, at, heard))
  }

  ghost predicate VersionKept(h: History, p: nat, at: map<nat, nat>, heard: map<nat, nat>) {
    p in at && p in heard && h(at[p])(p).version == h(heard[p])(p).version
  }

  /** With its version kept, what a metric lists after it was read is listed later. */
  lemma {:induction false} ListedAgain(h: History, m: Metric, at: map<nat, nat>, listed: map<nat, nat>, heard: map<nat, nat>)
    requires Versioned(h) && OfSlots(m) && VersionKept(h, m.position, at, heard)
    requires m.position in listed && at[m.position] <= listed[m.position] <= heard[m.position]
    ensures ListedNames(m, StoreWhen(h, m, listed)) == ListedNames(m, StoreWhen(h, m, heard))
  {
    var p := m.position;
    assert Raised(h(at[p])(p), h(listed[p])(p)) && Raised(h(listed[p])(p), h(heard[p])(p));
    WalkedAgain(m, h(listed[p])(p), h(heard[p])(p));
  }

  lemma {:induction false} FixedAgain(m: Metric, s: Store, t: Store)
    requires Fixed(m)
    ensures ListedNames(m, s) == ListedNames(m, t)
  {
    hide Walked, Fixed;
    if !IsScalar(m.kind) {
      FixedWalk(m, s);
      FixedWalk(m, t);
    }
  }

  /** The later of two moments, for each metric walked. */
  ghost predicate After(ms: seq<Metric>, a: map<nat, nat>, b: map<nat, nat>) {
    forall p :: HasPosition(ms, p) ==> p in a && p in b && a[p] <= b[p]
  }

  lemma {:induction false} ColumnAgain(h: History, ms: seq<Metric>, at: map<nat, nat>, listed: map<nat, nat>,
                                       heard: map<nat, nat>, c: Column)
    requires Versioned(h) && SlotsKept(h, ms, at, heard, c) && After(ms, at, listed) && After(ms, listed, heard)
    ensures AllRegistered(ms, c) && ListedColumn(h, ms, listed, c) == ListedColumn(h, ms, heard, c)
  {
    hide Versioned, Fixed, OfSlots, ListedNames, VersionKept, StoreWhen;
    if ms != [] {
      var n := |ms| - 1;
      forall p | HasPosition(ms[..n], p) ensures HasPosition(ms, p) {
        var j :| 0 <= j < n && ms[..n][j].position == p;
        assert ms[j].position == p;
      }
      forall j | 0 <= j < n && ColumnOf(ms[..n][j].kind) == c
        ensures Fixed(ms[..n][j]) || (OfSlots(ms[..n][j]) && VersionKept(h, ms[..n][j].position, at, heard))
      {
        assert ms[..n][j] == ms[j];
      }
      ColumnAgain(h, ms[..n], at, listed, heard, c);
      if ColumnOf(ms[n].kind) == c {
        assert HasPosition(ms, ms[n].position);
        MetricAgain(h, ms[n], at, listed, heard);
      }
      assert AllRegistered(ms, c) by {
        forall j | 0 <= j < |ms| && ColumnOf(ms[j].kind) == c ensures Registers(ms[j]) {
          assert j < n ==> ms[..n][j] == ms[j];
        }
      }
    }
  }

  lemma {:induction false} MetricAgain(h: History, m: Metric, at: map<nat, nat>, listed: map<nat, nat>, heard: map<nat, nat>)
    requires Versioned(h) && (Fixed(m) || (OfSlots(m) && VersionKept(h, m.position, at, heard)))
    requires var p := m.position; p in at && p in listed && p in heard && at[p] <= listed[p] <= heard[p]
    ensures ListedNames(m, StoreWhen(h, m, listed)) == ListedNames(m, StoreWhen(h, m, heard))
  {
    hide Versioned, Fixed, OfSlots, ListedNames;
    if Fixed(m) {
      FixedAgain(m, StoreWhen(h, m, listed), StoreWhen(h, m, heard));
    } else {
      ListedAgain(h, m, at, listed, heard);
    }
  }

  /** The names of an identity's members, by column. */
  function IdentityNames(id: Identity): (ns: Columns<Name>)
    ensures forall c: Column :: ns.Get(c) == NamesOf(id.Get(c))
  {
    Columns(NamesOf(id.counters), NamesOf(id.gauges), NamesOf(id.histograms), NamesOf(id.gaugeHistograms))
  }

  lemma {:induction false} IdentityNamesMore(id: Identity, m: Metric, r: Option<Record>)
    ensures IdentityNames(WithRecord(id, m, r)) ==
            IdentityNames(id).Plus(ColumnOf(m.kind), if r.Some? then r.value.Names() else [])
  {
    var names := if r.Some? then r.value.Names() else [];
    var a, b := IdentityNames(WithRecord(id, m, r)), IdentityNames(id).Plus(ColumnOf(m.kind), names);
    hide Record.Names, NamesOf, IdentityNames;
    forall c: Column ensures a.Get(c) == b.Get(c) {
      if r.Some? {
        NamesOfMore(id.Get(c), r.value);
      }
      assert id.Get(c) + [] == id.Get(c) && NamesOf(id.Get(c)) + [] == NamesOf(id.Get(c));
    }
    SameColumns(a, b);
  }

  lemma {:induction false} SameColumns<T>(a: Columns<T>, b: Columns<T>)
    requires forall c: Column :: a.Get(c) == b.Get(c)
    ensures a == b
  {
    assert a.Get(Counters) == b.Get(Counters) && a.Get(Gauges) == b.Get(Gauges);
    assert a.Get(Histograms) == b.Get(Histograms) && a.Get(GaugeHistograms) == b.Get(GaugeHistograms);
  }

  // ----- What the walks read

  /** What a walk that builds a schema built of some metrics. */
  ghost predicate Built(h: History, id: Identity, ds: Columns<Desc>, vs: Columns<Option<int>>, from: nat, to: nat) {
    forall c: Column ::
      && DescribesAll(h, id.Get(c), ds.Get(c), to)
      && AllRead(h, NameList(ds.Get(c)), vs.Get(c), from, to)
  }

  lemma {:induction false} NameListJoin(ds: seq<Desc>, more: seq<Desc>)
    ensures NameList(ds + more) == NameList(ds) + NameList(more)
  {
  }

  lemma {:induction false} BuiltMore(h: History, id: Identity, ds: Columns<Desc>, vs: Columns<Option<int>>, from: nat,
                                     mid: nat, to: nat, m: Metric, r: Option<Record>, more: seq<Desc>,
                                     values: seq<Option<int>>)
    requires Built(h, id, ds, vs, from, mid) && from <= mid <= to
    requires if r.None? then more == [] else Describes(h, r.value, more, to)
    requires AllRead(h, NameList(more), values, mid, to)
    ensures var c := ColumnOf(m.kind); Built(h, WithRecord(id, m, r), ds.Plus(c, more), vs.Plus(c, values), from, to)
  {
    hide Describes, DescribesAll, AllRead, NameList;
    var id', ds', vs' := WithRecord(id, m, r), ds.Plus(ColumnOf(m.kind), more), vs.Plus(ColumnOf(m.kind), values);
    forall c: Column
      ensures DescribesAll(h, id'.Get(c), ds'.Get(c), to) && AllRead(h, NameList(ds'.Get(c)), vs'.Get(c), from, to)
    {
      StillDescribes(h, id.Get(c), ds.Get(c), mid, to);
      StillRead(h, NameList(ds.Get(c)), vs.Get(c), from, mid, from, to);
      if c == ColumnOf(m.kind) {
        NameListJoin(ds.Get(c), more);
        ReadMore(h, NameList(ds.Get(c)), vs.Get(c), NameList(more), values, from, mid, to);
        if r.Some? {
          DescribesMore(h, id.Get(c), ds.Get(c), r.value, more, to);
        } else {
          assert id.Get(c) + [] == id.Get(c) && ds.Get(c) + [] == ds.Get(c);
        }
      }
    }
  }

  /** What a walk that reads values only read of some metrics. */
  ghost predicate Walk(h: History, ms: seq<Metric>, ns: Columns<Name>, vs: Columns<Option<int>>, from: nat, to: nat) {
    forall c: Column ::
      && AllRead(h, ns.Get(c), vs.Get(c), from, to)
      && (AllFixed(ms, c) ==> ns.Get(c) == FixedColumn(ms, c))
  }

  lemma {:induction false} WalkMore(h: History, ms: seq<Metric>, ns: Columns<Name>, vs: Columns<Option<int>>, from: nat,
                                    mid: nat, to: nat, m: Metric, names: seq<Name>, values: seq<Option<int>>)
    requires Walk(h, ms, ns, vs, from, mid) && from <= mid <= to
    requires AllRead(h, names, values, mid, to) && (Fixed(m) ==> names == FixedNames(m))
    ensures var c := ColumnOf(m.kind); Walk(h, ms + [m], ns.Plus(c, names), vs.Plus(c, values), from, to)
  {
    hide AllRead, AllFixed, Fixed, FixedColumn, FixedNames;
    forall c: Column
      ensures AllRead(h, ns.Plus(ColumnOf(m.kind), names).Get(c), vs.Plus(ColumnOf(m.kind), values).Get(c), from, to)
      ensures AllFixed(ms + [m], c) ==> ns.Plus(ColumnOf(m.kind), names).Get(c) == FixedColumn(ms + [m], c)
    {
      FixedMore(ms, m, c);
      StillRead(h, ns.Get(c), vs.Get(c), from, mid, from, to);
      ReadMore(h, ns.Get(c), vs.Get(c), names, values, from, mid, to);
      assert FixedColumn(ms, c) + [] == FixedColumn(ms, c);
    }
  }

  /** A caller's own members of a group, appended after its registry's. */
  datatype Extra = Extra(descs: Columns<Desc>, values: Columns<Option<int>>)
  {
    ghost predicate Valid() {
      forall c: Column :: |descs.Get(c)| == |values.Get(c)|
    }
  }

  function ExtraDescs(extra: Option<Extra>, c: Column): seq<Desc> {
    if extra.Some? then extra.value.descs.Get(c) else []
  }

  function ExtraValues(extra: Option<Extra>, c: Column): seq<Option<int>> {
    if extra.Some? then extra.value.values.Get(c) else []
  }

  /** The lists have the schema's counts. */
  predicate CountsMatch(schema: Columns<Desc>, vs: Columns<Option<int>>) {
    && |schema.counters| == |vs.counters| && |schema.gauges| == |vs.gauges|
    && |schema.histograms| == |vs.histograms| && |schema.gaugeHistograms| == |vs.gaugeHistograms|
  }

  ghost predicate SameCounts(schema: Columns<Desc>, vs: Columns<Option<int>>) {
    forall c: Column :: |schema.Get(c)| == |vs.Get(c)|
  }

  /** Every value is of the member whose descriptor is at its place; the caller's own
      are last. */
  ghost predicate Bound(h: History, ds: seq<Desc>, vs: seq<Option<int>>, extraDescs: seq<Desc>,
                        extraValues: seq<Option<int>>, from: nat, to: nat)
  {
    var k := |ds| - |extraDescs|;
    && 0 <= k && |ds| == |vs| && ds[k..] == extraDescs && vs[k..] == extraValues
    && AllRead(h, NameList(ds[..k]), vs[..k], from, to)
  }

  /** The registry members' labels in `schema` are those their metrics' stores had at the
      moments `at` in `[from, to)`, when their versions were those of the identity. */
  ghost predicate FreshFrom(h: History, was: Option<Skeleton>, schema: Columns<Desc>, at: map<nat, nat>, from: nat, to: nat) {
    && was.Some? && schema == was.value.schema
    && (forall p :: p in at ==> from <= at[p] < to)
    && forall c: Column ::
         var k := |NamesOf(was.value.identity.Get(c))|;
         && k <= |schema.Get(c)| && Fresh(h, schema.Get(c)[..k], at)
         && VersionsAt(h, was.value.identity.Get(c), at, from)
  }

  /** A stored identity is that of the schema's registry members: their names, with
      the labels of the metadata versions it holds. */
  ghost predicate SkeletonOk(h: History, sk: Skeleton, builtBy: nat) {
    forall c: Column ::
      var k := |NamesOf(sk.identity.Get(c))|;
      k <= |sk.schema.Get(c)| && DescribesAll(h, sk.identity.Get(c), sk.schema.Get(c)[..k], builtBy)
  }

  lemma {:induction false} LaterVersions(h: History, rs: seq<Record>, at: map<nat, nat>, from: nat, before: nat)
    requires VersionsAt(h, rs, at, from) && before <= from
    ensures VersionsAt(h, rs, at, before)
  {
  }

  /** A schema served on a hit is fresh. */
  lemma {:induction false} ServedFresh(h: History, ms: seq<Metric>, was: Skeleton, builtBy: nat, at: map<nat, nat>, from: nat,
                                       to: nat)
    requires SkeletonOk(h, was, builtBy) && builtBy <= from && Folded(h, ms, was.identity, at, from, to)
    ensures FreshFrom(h, Some(was), was.schema, at, from, to)
  {
    hide Fresh, DescribesAll, NamesOf, FixedColumn, AllFixed, VersionsAt;
    forall c: Column
      ensures var k := |NamesOf(was.identity.Get(c))|;
              && k <= |was.schema.Get(c)| && Fresh(h, was.schema.Get(c)[..k], at)
              && VersionsAt(h, was.identity.Get(c), at, from)
    {
      var k := |NamesOf(was.identity.Get(c))|;
      LaterVersions(h, was.identity.Get(c), at, from, builtBy);
      HitIsFresh(h, was.identity.Get(c), was.schema.Get(c)[..k], builtBy, at);
    }
  }

  /** On a hit, the values of a column are those of its descriptors, when its members are
      fixed, or slots with metadata that had not changed when the walk listed them. */
  lemma {:induction false} ServedValues(h: History, ms: seq<Metric>, was: Skeleton, builtBy: nat, at: map<nat, nat>,
                                        listed: map<nat, nat>, from: nat, mid: nat, ns: Columns<Name>,
                                        vs: Columns<Option<int>>, heard: map<nat, nat>, to: nat, c: Column)
    requires Versioned(h) && SkeletonOk(h, was, builtBy) && SlotsKept(h, ms, at, heard, c) && After(ms, at, listed)
    requires Listings(h, ms, IdentityNames(was.identity), listed, from, mid) && Listings(h, ms, ns, heard, mid, to)
    requires AllRead(h, ns.Get(c), vs.Get(c), mid, to) && |was.schema.Get(c)| == |vs.Get(c)|
    ensures Bound(h, was.schema.Get(c), vs.Get(c), [], [], mid, to)
  {
    hide Versioned, DescribesAll, NamesOf, ListedColumn, SlotsKept, ReadOf, AllRegistered, IdentityNames, HasPosition;
    var ds := was.schema.Get(c);
    var k := |NamesOf(was.identity.Get(c))|;
    ColumnAgain(h, ms, at, listed, heard, c);
    assert NamesOf(was.identity.Get(c)) == ns.Get(c);
    DescribedNames(h, was.identity.Get(c), ds[..k], builtBy);
    assert |ds| == k && ds[..k] == ds && vs.Get(c)[..k] == vs.Get(c);
    assert NameList(ds) == ns.Get(c);
  }

  lemma {:induction false} MatchedCounts(schema: Columns<Desc>, vs: Columns<Option<int>>)
    requires CountsMatch(schema, vs)
    ensures SameCounts(schema, vs)
  {
  }

  lemma {:induction false} CountsAreMatched(schema: Columns<Desc>, vs: Columns<Option<int>>)
    requires SameCounts(schema, vs)
    ensures CountsMatch(schema, vs)
  {
    assert |schema.Get(Counters)| == |vs.Get(Counters)| && |schema.Get(Gauges)| == |vs.Get(Gauges)|;
    assert |schema.Get(Histograms)| == |vs.Get(Histograms)|;
    assert |schema.Get(GaugeHistograms)| == |vs.Get(GaugeHistograms)|;
  }

  function WithExtra(ds: Columns<Desc>, extra: Option<Extra>): Columns<Desc> {
    if extra.None? then ds
    else
      var e := extra.value.descs;
      Columns(ds.counters + e.counters, ds.gauges + e.gauges, ds.histograms + e.histograms,
              ds.gaugeHistograms + e.gaugeHistograms)
  }

  function WithExtraValues(vs: Columns<Option<int>>, extra: Option<Extra>): Columns<Option<int>> {
    if extra.None? then vs
    else
      var e := extra.value.values;
      Columns(vs.counters + e.counters, vs.gauges + e.gauges, vs.histograms + e.histograms,
              vs.gaugeHistograms + e.gaugeHistograms)
  }

  /** What a rebuilding walk stores and emits. */
  lemma {:induction false} Rebuilt(h: History, id: Identity, ds: Columns<Desc>, vs: Columns<Option<int>>, from: nat,
                                   to: nat, extra: Option<Extra>, c: Column)
    requires Built(h, id, ds, vs, from, to) && (extra.Some? ==> extra.value.Valid())
    ensures var schema, values := WithExtra(ds, extra).Get(c), WithExtraValues(vs, extra).Get(c);
            && |schema| == |values|
            && Bound(h, schema, values, ExtraDescs(extra, c), ExtraValues(extra, c), from, to)
            && var k := |NamesOf(id.Get(c))|;
               |schema| == k + |ExtraDescs(extra, c)| && schema[k..] == ExtraDescs(extra, c)
               && DescribesAll(h, id.Get(c), schema[..k], to)
  {
    hide DescribesAll, NamesOf, ReadOf;
    var schema, values := WithExtra(ds, extra).Get(c), WithExtraValues(vs, extra).Get(c);
    DescribedNames(h, id.Get(c), ds.Get(c), to);
    var k := |ds.Get(c)|;
    assert schema == ds.Get(c) + ExtraDescs(extra, c) && values == vs.Get(c) + ExtraValues(extra, c);
    assert schema[..k] == ds.Get(c) && values[..k] == vs.Get(c);
    assert schema[k..] == ExtraDescs(extra, c) && values[k..] == ExtraValues(extra, c);
  }

  /** Every metric has fixed members. */
  ghost predicate FixedGroup(ms: seq<Metric>) {
    forall c: Column :: AllFixed(ms, c)
  }

  ghost predicate HasMembers(ms: seq<Metric>) {
    exists c: Column :: FixedColumn(ms, c) != []
  }

  /** A caller gave members of its own. */
  ghost predicate HasOwn(own: Option<Extra>) {
    exists c: Column :: ExtraDescs(own, c) != []
  }

  /** The schema has a descriptor for each registry member, and then the caller's own. */
  ghost predicate OwnCounted(sk: Skeleton, own: Option<Extra>) {
    forall c: Column ::
      var k := |NamesOf(sk.identity.Get(c))|;
      |sk.schema.Get(c)| == k + |ExtraDescs(own, c)| && sk.schema.Get(c)[k..] == ExtraDescs(own, c)
  }

  /** A hit's result: the values of one walk, with the cached schema when it has their
      counts, nothing when there are none. */
  ghost predicate ServedBy(h: History, ms: seq<Metric>, was: Skeleton, out: Option<Snapshot>, from: nat, to: nat) {
    exists ns, vs :: WalkOf(h, ms, ns, vs, from, to) &&
      out == if vs.IsEmpty() || !CountsMatch(was.schema, vs) then None else Some(Snapshot(was.schema, vs))
  }

  /** `vs` are the values of exactly the members a walk in `[from, to)` reads. */
  ghost predicate WalkOf(h: History, ms: seq<Metric>, ns: Columns<Name>, vs: Columns<Option<int>>, from: nat, to: nat) {
    Walk(h, ms, ns, vs, from, to) && exists xs :: AllNamesIn(h, ms, xs, ns, from, to)
  }

  /** A hit's result for a group of fixed members: it is left out exactly when the cached
      schema was built with a caller's own members, or there are no members at all; and
      evicted in the first case only. */
  ghost predicate FixedHit(ms: seq<Metric>, own: Option<Extra>, out: Option<Snapshot>, was: Option<Skeleton>,
                           cache: Option<Skeleton>)
  {
    if HasMembers(ms) then
      && (out == None <==> HasOwn(own))
      && cache == (if HasOwn(own) then None else was)
    else out == None && cache == was
  }

  lemma {:induction false} FixedIsServed(h: History, ms: seq<Metric>, was: Skeleton, own: Option<Extra>, at: map<nat, nat>,
                                         from: nat, mid: nat, ns: Columns<Name>, vs: Columns<Option<int>>, to: nat)
    requires FixedGroup(ms) && Folded(h, ms, was.identity, at, from, mid) && OwnCounted(was, own)
    requires Walk(h, ms, ns, vs, mid, to)
    ensures vs.IsEmpty() <==> !HasMembers(ms)
    ensures CountsMatch(was.schema, vs) <==> !HasOwn(own)
  {
    hide AllFixed, FixedColumn, ReadOf, NamesOf, VersionsAt, CountsMatch, HasPosition;
    forall c: Column
      ensures |vs.Get(c)| == |FixedColumn(ms, c)| && |was.schema.Get(c)| == |vs.Get(c)| + |ExtraDescs(own, c)|
    {
      assert AllFixed(ms, c);
    }
    assert vs.IsEmpty() <==> forall c: Column :: vs.Get(c) == [] by {
      EmptyColumns(vs);
    }
    if CountsMatch(was.schema, vs) {
      MatchedCounts(was.schema, vs);
    } else if !HasOwn(own) {
      CountsAreMatched(was.schema, vs);
    }
  }

  lemma {:induction false} EmptyColumns<T>(cs: Columns<T>)
    ensures cs.IsEmpty() <==> forall c: Column :: cs.Get(c) == []
  {
    if forall c: Column :: cs.Get(c) == [] {
      assert cs.Get(Counters) == [] && cs.Get(Gauges) == [] && cs.Get(Histograms) == [] && cs.Get(GaugeHistograms) == [];
    }
  }

  /** A miss's result: the schema and values of one walk, with the caller's own members,
      cached under the walk's identity; nothing, and nothing cached, when there are
      none. */
  ghost predicate RebuiltBy(h: History, ms: seq<Metric>, extra: Option<Extra>, out: Option<Snapshot>, was: Option<Skeleton>,
                            cache: Option<Skeleton>, from: nat, to: nat)
  {
    exists id, ds, vs :: BuiltFrom(h, ms, id, ds, vs, from, to) &&
      var schema, values := WithExtra(ds, extra), WithExtraValues(vs, extra);
      if values.IsEmpty() then out == None && cache == was
      else out == Some(Snapshot(schema, values)) && cache == Some(Skeleton(id, schema))
  }

  /** A schema, its values and its identity, of exactly the members a walk in
      `[from, to)` reads. */
  ghost predicate BuiltFrom(h: History, ms: seq<Metric>, id: Identity, ds: Columns<Desc>, vs: Columns<Option<int>>,
                            from: nat, to: nat)
  {
    Built(h, id, ds, vs, from, to) && exists xs :: RecordsIn(h, ms, xs, id, from, to)
  }

  /** An identity is folded of exactly the members a pass in `[from, to)` reads. */
  ghost predicate IdentityIn(h: History, ms: seq<Metric>, id: Identity, from: nat, to: nat) {
    exists xs :: RecordsIn(h, ms, xs, id, from, to)
  }

  /** One group, with its place in the cache. */
  class GroupCache {
    const metrics: seq<Metric>
    const history: History
    var cache: Option<Skeleton>
    var rebuilds: nat
    /** The moment of the next read. */
    var now: nat
    /** The moment the cached schema was built by. */
    ghost var builtBy: nat
    /** The caller's own members it was built with. */
    ghost var own: Option<Extra>

    ghost predicate CacheOk()
      reads `cache, `builtBy, `own
    {
      cache.Some? ==> SkeletonOk(history, cache.value, builtBy) && OwnCounted(cache.value, own)
    }

    ghost predicate Valid()
      reads this
    {
      Versioned(history) && CacheOk() && builtBy <= now
    }

    constructor (metrics: seq<Metric>, history: History)
      requires Versioned(history)
      ensures Valid() && this.metrics == metrics && this.history == history && cache == None && rebuilds == 0
    {
      this.metrics, this.history := metrics, history;
      cache, rebuilds, now, builtBy, own := None, 0, 0, 0, None;
    }

    /** Read something of the metric at `position`: anything may change before the
        next read. */
    method Look(position: nat) returns (s: Store)
      modifies `now
      ensures s == history(old(now))(position) && now == old(now) + 1
    {
      s := history(now)(position);
      now := now + 1;
    }

    /** The first pass over one metric: what it folds, and when its version was read. */
    method FoldMetric(m: Metric) returns (r: Option<Record>, ghost at: nat, ghost listed: nat)
      modifies `now
      ensures old(now) <= at <= listed < now
      ensures r.Some? ==> r.value.position == m.position
      ensures r.Some? && r.value.Grouped? ==> r.value.version == history(at)(m.position).version
      ensures Fixed(m) ==> r.Some? && r.value.Names() == FixedNames(m)
      ensures Registers(m) ==> r.Some? && r.value.Names() == ListedNames(m, history(listed)(m.position))
      ensures RecordIn(history, m, RecordList(r), old(now), now)
    {
      at, listed := now, now;
      var s := Look(m.position);
      if IsScalar(m.kind) {
        r := if Belongs(m, s.Value(0)) then Some(Scalar(m.position)) else None;
        return;
      }
      listed := now;
      var slots := Look(m.position);
      var walked := Walked(m, slots);
      var members := FoldMembers(m, walked, at);
      r := Some(Grouped(m.position, s.version, members));
      if Registers(m) {
        RegisteredBelongs(m);
      }
      if Fixed(m) {
        FixedRecord(m, s.version, slots, members);
      }
    }

    /** The members among the slots walked. */
    method FoldMembers(m: Metric, walked: seq<nat>, ghost at: nat) returns (members: seq<nat>)
      requires at < now
      modifies `now
      ensures old(now) <= now
      ensures exists times :: SelectedAt(history, m, walked, times, members, at, now)
      ensures (forall v :: Belongs(m, v)) ==> members == walked
    {
      members := [];
      ghost var times: seq<nat> := [];
      hide SelectedAt, Belongs;
      NoneSelected(history, m, at, now);
      assert walked[..0] == [];
      for i := 0 to |walked|
        invariant at < now && old(now) <= now && SelectedAt(history, m, walked[..i], times, members, at, now)
        invariant (forall v :: Belongs(m, v)) ==> members == walked[..i]
      {
        ghost var t := now;
        var v := Look(m.position);
        SelectedMore(history, m, walked[..i], times, members, at, t, walked[i], t, now);
        assert walked[..i + 1] == walked[..i] + [walked[i]];
        times := times + [t];
        if Belongs(m, v.Value(walked[i])) {
          members := members + [walked[i]];
        } else {
          assert members + [] == members;
        }
      }
      assert walked[..|walked|] == walked;
    }

    lemma {:induction false} NoneSelected(h: History, m: Metric, from: nat, to: nat)
      ensures SelectedAt(h, m, [], [], [], from, to)
    {
    }

    lemma {:induction false} FixedRecord(m: Metric, version: nat, listed: Store, members: seq<nat>)
      requires !IsScalar(m.kind)
      ensures Fixed(m) && members == Walked(m, listed) ==> Grouped(m.position, version, members).Names() == FixedNames(m)
    {
      hide Walked, Fixed;
      if Fixed(m) {
        FixedWalk(m, listed);
      }
    }

    /** The walk of one metric that builds its descriptors: the version first, then
        its members, then each member's value and its labels. */
    method BuildMetric(m: Metric) returns (r: Option<Record>, ds: seq<Desc>, vs: seq<Option<int>>)
      requires Versioned(history)
      modifies `now
      ensures old(now) <= now
      ensures r.None? ==> ds == []
      ensures r.Some? ==> Describes(history, r.value, ds, now) && r.value.position == m.position
      ensures r.Some? && r.value.Grouped? ==> r.value.version == history(old(now))(m.position).version
      ensures AllRead(history, NameList(ds), vs, old(now), now)
      ensures RecordIn(history, m, RecordList(r), old(now), now)
    {
      ds, vs := [], [];
      ghost var at := now;
      var s := Look(m.position);
      if IsScalar(m.kind) {
        r := None;
        if Belongs(m, s.Value(0)) {
          r := Some(Scalar(m.position));
          ds, vs := [Desc(Name(m.position, None), None)], [s.Value(0)];
          assert ReadOf(history, ds[0].name, vs[0], old(now), now);
        }
        return;
      }
      var listed := Look(m.position);
      var walked := Walked(m, listed);
      var members;
      members, ds, vs := BuildMembers(m, walked, at);
      r := Some(Grouped(m.position, s.version, members));
    }

    /** The members among the slots walked, with their descriptors and values. */
    method BuildMembers(m: Metric, walked: seq<nat>, ghost at: nat)
      returns (members: seq<nat>, ds: seq<Desc>, vs: seq<Option<int>>)
      requires Versioned(history) && at < now
      modifies `now
      ensures old(now) <= now
      ensures Describes(history, Grouped(m.position, history(at)(m.position).version, members), ds, now)
      ensures AllRead(history, NameList(ds), vs, at, now)
      ensures exists times :: SelectedAt(history, m, walked, times, members, at, now)
    {
      members, ds, vs := [], [], [];
      ghost var version := history(at)(m.position).version;
      ghost var times: seq<nat> := [];
      hide Describes, AllRead, ReadOf, Dated, Versioned, SelectedAt, Belongs;
      NoMembers(m.position, version);
      NoneSelected(history, m, at, now);
      assert walked[..0] == [];
      for i := 0 to |walked|
        invariant at < now && old(now) <= now
        invariant Describes(history, Grouped(m.position, version, members), ds, now)
        invariant AllRead(history, NameList(ds), vs, at, now)
        invariant SelectedAt(history, m, walked[..i], times, members, at, now)
      {
        ghost var t := now;
        var v, d := BuildMember(m, walked[i], at);
        SelectedMore(history, m, walked[..i], times, members, at, t, walked[i], t, now);
        assert walked[..i + 1] == walked[..i] + [walked[i]];
        times := times + [t];
        if d.Some? {
          DescribesMember(history, m.position, version, members, ds, t, walked[i], d.value, now);
          ReadMember(history, NameList(ds), vs, d.value.name, v, at, t, now);
          NamesMore(ds, d.value);
          members, ds, vs := members + [walked[i]], ds + [d.value], vs + [v];
        } else {
          DescribesLater(history, Grouped(m.position, version, members), ds, t, now);
          StillRead(history, NameList(ds), vs, at, t, at, now);
          assert members + [] == members;
        }
      }
      assert walked[..|walked|] == walked;
    }

    lemma {:induction false} NoMembers(p: nat, version: nat)
      ensures forall t :: Describes(history, Grouped(p, version, []), [], t)
      ensures forall s, t :: AllRead(history, NameList([]), [], s, t)
    {
    }

    /** One walked slot: its value, then, when it is a member, its labels. */
    method BuildMember(m: Metric, slot: nat, ghost at: nat) returns (v: Option<int>, d: Option<Desc>)
      requires Versioned(history) && at < now
      modifies `now
      ensures old(now) < now
      ensures v == history(old(now))(m.position).Value(slot) && (d.Some? <==> Belongs(m, v))
      ensures d.Some? ==>
                && d.value.name == Name(m.position, Some(slot)) && ReadOf(history, d.value.name, v, old(now), now)
                && Dated(history, d.value, history(at)(m.position).version, now)
    {
      hide Versioned;
      var s := Look(m.position);
      v := s.Value(slot);
      d := None;
      if Belongs(m, v) {
        var l := Look(m.position);
        ReadAfterVersion(history, m.position, slot, at, now - 1);
        d := Some(Desc(Name(m.position, Some(slot)), l.LabelsOf(slot)));
      }
    }

    /** The walk of one metric that reads its values only. */
    method ReadMetric(m: Metric) returns (vs: seq<Option<int>>, ghost ns: seq<Name>, ghost heard: nat)
      modifies `now
      ensures old(now) <= heard < now && AllRead(history, ns, vs, old(now), now)
      ensures Fixed(m) ==> ns == FixedNames(m)
      ensures Registers(m) ==> ns == ListedNames(m, history(heard)(m.position))
      ensures NamesIn(history, m, ns, old(now), now)
    {
      vs, ns, heard := [], [], now;
      ghost var at := now;
      var s := Look(m.position);
      if IsScalar(m.kind) {
        if Belongs(m, s.Value(0)) {
          vs, ns := [s.Value(0)], [Name(m.position, None)];
          assert ReadOf(history, ns[0], vs[0], old(now), now);
        }
        return;
      }
      var walked := Walked(m, s);
      if Fixed(m) {
        FixedWalk(m, s);
      }
      if Registers(m) {
        RegisteredBelongs(m);
      }
      ghost var members: seq<nat>;
      vs, members := ReadMembers(m, walked, at);
      ns := SlotNames(m, members);
    }

    /** The values of the members among the slots walked. */
    method ReadMembers(m: Metric, walked: seq<nat>, ghost at: nat) returns (vs: seq<Option<int>>, ghost members: seq<nat>)
      requires at < now
      modifies `now
      ensures old(now) <= now && AllRead(history, SlotNames(m, members), vs, at, now)
      ensures exists times :: SelectedAt(history, m, walked, times, members, at, now)
      ensures (forall v :: Belongs(m, v)) ==> members == walked
    {
      vs, members := [], [];
      ghost var times: seq<nat> := [];
      hide AllRead, ReadOf, SelectedAt, Belongs;
      NoMembers(m.position, 0);
      NoneSelected(history, m, at, now);
      assert walked[..0] == [] && SlotNames(m, []) == NameList([]);
      for i := 0 to |walked|
        invariant at < now && old(now) <= now && AllRead(history, SlotNames(m, members), vs, at, now)
        invariant SelectedAt(history, m, walked[..i], times, members, at, now)
        invariant (forall v :: Belongs(m, v)) ==> members == walked[..i]
      {
        ghost var t := now;
        var v := Look(m.position);
        SelectedMore(history, m, walked[..i], times, members, at, t, walked[i], t, now);
        assert walked[..i + 1] == walked[..i] + [walked[i]];
        times := times + [t];
        StillRead(history, SlotNames(m, members), vs, at, t, at, now);
        if Belongs(m, v.Value(walked[i])) {
          ReadNow(history, Name(m.position, Some(walked[i])), t);
          ReadMember(history, SlotNames(m, members), vs, Name(m.position, Some(walked[i])), v.Value(walked[i]), at, t, now);
          assert SlotNames(m, members + [walked[i]]) == SlotNames(m, members) + [Name(m.position, Some(walked[i]))];
          vs, members := vs + [v.Value(walked[i])], members + [walked[i]];
        } else {
          assert members + [] == members;
        }
      }
      assert walked[..|walked|] == walked;
    }

    /** The first pass: the group's identity, and when each version was read and each
        metric's slots were listed. */
    method FirstPass() returns (id: Identity, ghost at: map<nat, nat>, ghost listed: map<nat, nat>)
      requires Apart(metrics)
      modifies `now
      ensures old(now) <= now && Folded(history, metrics, id, at, old(now), now)
      ensures exists xs :: RecordsIn(history, metrics, xs, id, old(now), now)
      ensures Listings(history, metrics, IdentityNames(id), listed, old(now), now) && After(metrics, at, listed)
    {
      hide Folded, Apart, Fixed, Registers, Record.Names, FixedNames, ListedNames, RecordsIn, RecordIn, Listings, After,
        IdentityNames;
      id, at, listed := NoColumns(), map[], map[];
      ghost var xs: seq<seq<Record>> := [];
      NothingFolded(now);
      assert metrics[..0] == [];
      for i := 0 to |metrics|
        invariant old(now) <= now && Folded(history, metrics[..i], id, at, old(now), now)
        invariant RecordsIn(history, metrics[..i], xs, id, old(now), now)
        invariant Listings(history, metrics[..i], IdentityNames(id), listed, old(now), now)
        invariant After(metrics[..i], at, listed)
      {
        ghost var mid := now;
        var r, t, l := FoldMetric(metrics[i]);
        RecordsMore(history, metrics[..i], xs, id, old(now), mid, now, metrics[i], r);
        xs := xs + [RecordList(r)];
        assert metrics[..i + 1] == metrics[..i] + [metrics[i]];
        ApartPrefix(metrics, i + 1);
        FoldedMore(history, metrics[..i], id, at, old(now), mid, now, metrics[i], r, t);
        IdentityNamesMore(id, metrics[i], r);
        ListingsMore(history, metrics[..i], IdentityNames(id), listed, old(now), mid, now, metrics[i],
                     if r.Some? then r.value.Names() else [], l);
        AfterMore(metrics[..i], at, listed, metrics[i], t, l);
        id := WithRecord(id, metrics[i], r);
        at := at[metrics[i].position := t];
        listed := listed[metrics[i].position := l];
      }
      assert metrics[..|metrics|] == metrics;
    }

    lemma {:induction false} NothingFolded(from: nat)
      ensures Folded(history, [], NoColumns(), map[], from, from)
      ensures RecordsIn(history, [], [], NoColumns(), from, from)
      ensures Listings(history, [], IdentityNames(NoColumns()), map[], from, from) && After([], map[], map[])
    {
    }

    /** The walk that builds the group's schema. */
    method BuildWalk() returns (id: Identity, ds: Columns<Desc>, vs: Columns<Option<int>>)
      requires Versioned(history)
      modifies `now
      ensures old(now) <= now && Built(history, id, ds, vs, old(now), now)
      ensures exists xs :: RecordsIn(history, metrics, xs, id, old(now), now)
    {
      hide Built, Describes, AllRead, NameList, Versioned, RecordsIn, RecordIn;
      id, ds, vs := NoColumns(), NoColumns(), NoColumns();
      ghost var xs: seq<seq<Record>> := [];
      NothingBuilt(now);
      NothingFolded(now);
      assert metrics[..0] == [];
      for i := 0 to |metrics|
        invariant old(now) <= now && Built(history, id, ds, vs, old(now), now)
        invariant RecordsIn(history, metrics[..i], xs, id, old(now), now)
      {
        ghost var t := now;
        var r, more, values := BuildMetric(metrics[i]);
        RecordsMore(history, metrics[..i], xs, id, old(now), t, now, metrics[i], r);
        assert metrics[..i + 1] == metrics[..i] + [metrics[i]];
        xs := xs + [RecordList(r)];
        BuiltMore(history, id, ds, vs, old(now), t, now, metrics[i], r, more, values);
        id := WithRecord(id, metrics[i], r);
        ds := ds.Plus(ColumnOf(metrics[i].kind), more);
        vs := vs.Plus(ColumnOf(metrics[i].kind), values);
      }
      assert metrics[..|metrics|] == metrics;
    }

    lemma {:induction false} NothingBuilt(t: nat)
      ensures Built(history, NoColumns(), NoColumns(), NoColumns(), t, t)
    {
    }

    /** The walk that reads the group's values, listing each metric's slots when `heard`
        says. */
    method ReadWalk() returns (vs: Columns<Option<int>>, ghost ns: Columns<Name>, ghost heard: map<nat, nat>)
      requires Apart(metrics)
      modifies `now
      ensures old(now) <= now && Walk(history, metrics, ns, vs, old(now), now)
      ensures exists xs :: AllNamesIn(history, metrics, xs, ns, old(now), now)
      ensures Listings(history, metrics, ns, heard, old(now), now)
    {
      hide Apart, Walk, AllRead, Fixed, Registers, FixedNames, ListedNames, AllNamesIn, NamesIn, Listings;
      vs, ns, heard := NoColumns(), NoColumns(), map[];
      ghost var xs: seq<seq<Name>> := [];
      NothingWalked(now);
      assert metrics[..0] == [];
      for i := 0 to |metrics|
        invariant old(now) <= now && Walk(history, metrics[..i], ns, vs, old(now), now)
        invariant AllNamesIn(history, metrics[..i], xs, ns, old(now), now)
        invariant Listings(history, metrics[..i], ns, heard, old(now), now)
      {
        ghost var mid := now;
        var values, names, t := ReadMetric(metrics[i]);
        AllNamesMore(history, metrics[..i], xs, ns, old(now), mid, now, metrics[i], names);
        xs := xs + [names];
        assert metrics[..i + 1] == metrics[..i] + [metrics[i]];
        ApartPrefix(metrics, i + 1);
        WalkMore(history, metrics[..i], ns, vs, old(now), mid, now, metrics[i], names, values);
        ListingsMore(history, metrics[..i], ns, heard, old(now), mid, now, metrics[i], names, t);
        vs := vs.Plus(ColumnOf(metrics[i].kind), values);
        ns := ns.Plus(ColumnOf(metrics[i].kind), names);
        heard := heard[metrics[i].position := t];
      }
      assert metrics[..|metrics|] == metrics;
    }

    lemma {:induction false} NothingWalked(t: nat)
      ensures Walk(history, [], NoColumns(), NoColumns(), t, t)
      ensures AllNamesIn(history, [], [], NoColumns(), t, t)
      ensures Listings(history, [], NoColumns(), map[], t, t)
    {
    }

    /** Build the group: a `hit` exactly when the identity the first pass folded, by the
        moment `mid`, is the cached one, and no members are the caller's. */
    method Build(extra: Option<Extra>)
      returns (out: Option<Snapshot>, hit: bool, ghost first: Identity, ghost at: map<nat, nat>, ghost mid: nat,
               ghost heard: map<nat, nat>)
      requires Valid() && Apart(metrics) && (extra.Some? ==> extra.value.Valid())
      modifies this
      ensures Valid() && old(now) <= mid <= now
      ensures out.Some? ==> SameCounts(out.value.schema, out.value.values)
      ensures hit ==> forall p :: p in heard ==> mid <= heard[p] < now
      ensures out.Some? ==> forall c: Column :: (hit ==> SlotsKept(history, metrics, at, heard, c)) ==>
                Bound(history, out.value.schema.Get(c), out.value.values.Get(c), ExtraDescs(extra, c),
                      ExtraValues(extra, c), mid, now)
      ensures IdentityIn(history, metrics, first, old(now), mid)
      ensures hit <==> extra == None && old(cache).Some? && old(cache).value.identity == first
      ensures if hit then ServedBy(history, metrics, old(cache).value, out, mid, now)
              else RebuiltBy(history, metrics, extra, out, old(cache), cache, mid, now)
      ensures hit ==> rebuilds == old(rebuilds) && own == old(own)
      ensures hit && out.Some? ==>
                cache == old(cache) && FreshFrom(history, old(cache), out.value.schema, at, old(now), mid)
      ensures hit && out.None? && cache.Some? ==> cache == old(cache)
      ensures hit && FixedGroup(metrics) ==> FixedHit(metrics, old(own), out, old(cache), cache)
      ensures !hit && out.Some? ==>
                cache.Some? && cache.value.schema == out.value.schema && rebuilds == old(rebuilds) + 1 && own == extra
      ensures !hit && out.None? ==> cache == old(cache) && rebuilds == old(rebuilds) && own == old(own)
    {
      hide Folded, Apart, Built, Bound, SlotsKept, FreshFrom, FixedGroup, FixedHit, SameCounts, CacheOk, Versioned, Walk,
        RecordsIn, ServedBy, RebuiltBy, Listings, After;
      ghost var from := now;
      var id;
      ghost var listed;
      heard := map[];
      id, at, listed := FirstPass();
      first, mid := id, now;
      hit := extra.None? && cache.Some? && cache.value.identity == id;
      if hit {
        out, heard := Serve(from, at, listed);
      } else {
        out := Rebuild(extra);
      }
    }

    /** A hit: the cached schema with this build's values, unless their counts differ. */
    method Serve(ghost from: nat, ghost at: map<nat, nat>, ghost listed: map<nat, nat>)
      returns (out: Option<Snapshot>, ghost heard: map<nat, nat>)
      requires Valid() && Apart(metrics) && cache.Some? && builtBy <= from
      requires Folded(history, metrics, cache.value.identity, at, from, now) && After(metrics, at, listed)
      requires Listings(history, metrics, IdentityNames(cache.value.identity), listed, from, now)
      modifies `now, `cache
      ensures Valid()
      ensures out.Some? ==> SameCounts(out.value.schema, out.value.values)
      ensures forall p :: p in heard ==> old(now) <= heard[p] < now
      ensures out.Some? ==> forall c: Column :: SlotsKept(history, metrics, at, heard, c) ==>
                Bound(history, out.value.schema.Get(c), out.value.values.Get(c), [], [], old(now), now)
      ensures out.Some? ==> cache == old(cache) && FreshFrom(history, old(cache), out.value.schema, at, from, old(now))
      ensures out.None? && cache.Some? ==> cache == old(cache)
      ensures FixedGroup(metrics) ==> FixedHit(metrics, own, out, old(cache), cache)
      ensures ServedBy(history, metrics, old(cache).value, out, old(now), now)
      ensures now >= old(now)
    {
      hide Apart, Folded, Bound, SlotsKept, After, FreshFrom, FixedGroup, HasMembers, HasOwn, OwnCounted, SameCounts, SkeletonOk,
        Versioned, Walk, CountsMatch, AllNamesIn;
      ghost var mid := now;
      var vs;
      ghost var ns;
      vs, ns, heard := ReadWalk();
      out := None;
      if FixedGroup(metrics) {
        FixedIsServed(history, metrics, cache.value, own, at, from, mid, ns, vs, now);
      }
      assert WalkOf(history, metrics, ns, vs, mid, now);
      if vs.IsEmpty() {
      } else if CountsMatch(cache.value.schema, vs) {
        ServedFresh(history, metrics, cache.value, builtBy, at, from, mid);
        MatchedCounts(cache.value.schema, vs);
        forall c: Column | SlotsKept(history, metrics, at, heard, c)
          ensures Bound(history, cache.value.schema.Get(c), vs.Get(c), [], [], mid, now)
        {
          SameCount(cache.value.schema, vs, c);
          WalkRead(history, metrics, ns, vs, mid, now, c);
          ServedValues(history, metrics, cache.value, builtBy, at, listed, from, mid, ns, vs, heard, now, c);
        }
        out := Some(Snapshot(cache.value.schema, vs));
      } else {
        cache := None;
      }
    }

    /** A miss: the schema is built, with the identity of the walk that builds it. */
    method Rebuild(extra: Option<Extra>) returns (out: Option<Snapshot>)
      requires Valid() && (extra.Some? ==> extra.value.Valid())
      modifies `now, `cache, `rebuilds, `builtBy, `own
      ensures Valid()
      ensures out.Some? ==> SameCounts(out.value.schema, out.value.values)
      ensures out.Some? ==> forall c: Column ::
                Bound(history, out.value.schema.Get(c), out.value.values.Get(c), ExtraDescs(extra, c),
                      ExtraValues(extra, c), old(now), now)
      ensures out.Some? ==>
                cache.Some? && cache.value.schema == out.value.schema && rebuilds == old(rebuilds) + 1 && own == extra
      ensures out.None? ==> cache == old(cache) && rebuilds == old(rebuilds) && own == old(own)
      ensures RebuiltBy(history, metrics, extra, out, old(cache), cache, old(now), now)
      ensures now >= old(now)
    {
      hide Bound, SameCounts, SkeletonOk, OwnCounted, Versioned, Built, RecordsIn;
      ghost var t := now;
      var id, ds, vs := BuildWalk();
      var schema, values := WithExtra(ds, extra), WithExtraValues(vs, extra);
      out := None;
      assert BuiltFrom(history, metrics, id, ds, vs, t, now);
      if !values.IsEmpty() {
        AllRebuilt(history, id, ds, vs, t, now, extra);
        cache := Some(Skeleton(id, schema));
        builtBy := now;
        own := extra;
        rebuilds := rebuilds + 1;
        out := Some(Snapshot(schema, values));
      }
    }
  }

  lemma {:induction false} WalkRead(h: History, ms: seq<Metric>, ns: Columns<Name>, vs: Columns<Option<int>>, from: nat,
                                    to: nat, c: Column)
    requires Walk(h, ms, ns, vs, from, to)
    ensures AllRead(h, ns.Get(c), vs.Get(c), from, to)
  {
  }

  lemma {:induction false} AfterMore(ms: seq<Metric>, a: map<nat, nat>, b: map<nat, nat>, m: Metric, s: nat, t: nat)
    requires After(ms, a, b) && s <= t
    ensures After(ms + [m], a[m.position := s], b[m.position := t])
  {
    forall p | HasPosition(ms + [m], p) ensures p == m.position || HasPosition(ms, p) {
      var j :| 0 <= j < |ms + [m]| && (ms + [m])[j].position == p;
      assert j < |ms| ==> ms[j].position == p;
    }
  }

  lemma {:induction false} SameCount(schema: Columns<Desc>, vs: Columns<Option<int>>, c: Column)
    requires SameCounts(schema, vs)
    ensures |schema.Get(c)| == |vs.Get(c)|
  {
  }

  lemma {:induction false} AllRebuilt(h: History, id: Identity, ds: Columns<Desc>, vs: Columns<Option<int>>, from: nat,
                                      to: nat, extra: Option<Extra>)
    requires Built(h, id, ds, vs, from, to) && (extra.Some? ==> extra.value.Valid())
    ensures var sk := Skeleton(id, WithExtra(ds, extra)); SkeletonOk(h, sk, to) && OwnCounted(sk, extra)
    ensures SameCounts(WithExtra(ds, extra), WithExtraValues(vs, extra))
    ensures forall c: Column ::
              Bound(h, WithExtra(ds, extra).Get(c), WithExtraValues(vs, extra).Get(c), ExtraDescs(extra, c),
                    ExtraValues(extra, c), from, to)
  {
    hide Bound, Built, DescribesAll, NamesOf, WithExtra, WithExtraValues, ExtraDescs, ExtraValues;
    forall c: Column
      ensures var schema, values := WithExtra(ds, extra).Get(c), WithExtraValues(vs, extra).Get(c);
              && |schema| == |values|
              && Bound(h, schema, values, ExtraDescs(extra, c), ExtraValues(extra, c), from, to)
              && var k := |NamesOf(id.Get(c))|;
                 |schema| == k + |ExtraDescs(extra, c)| && schema[k..] == ExtraDescs(extra, c)
                 && DescribesAll(h, id.Get(c), schema[..k], to)
    {
      Rebuilt(h, id, ds, vs, from, to, extra, c);
    }
  }

  // ----- A run: a group built with a caller's own members, then without

  /** The metadata of the group's metrics does not change. */
  ghost predicate Unrelabelled(h: History, ms: seq<Metric>) {
    forall s, t, j :: 0 <= j < |ms| ==> h(s)(ms[j].position).version == h(t)(ms[j].position).version
  }

  lemma {:induction false} SelectedAll(h: History, m: Metric, walked: seq<nat>, times: seq<nat>)
    requires |walked| == |times| && forall v :: Belongs(m, v)
    ensures Selected(h, m, walked, times) == walked
  {
    if walked != [] {
      var n := |walked| - 1;
      SelectedAll(h, m, walked[..n], times[..n]);
      assert walked == walked[..n] + [walked[n]];
    }
  }

  /** A fixed metric's members are those of every store. */
  lemma {:induction false} FixedSelected(h: History, m: Metric, members: seq<nat>, from: nat, to: nat)
    requires Fixed(m) && !IsScalar(m.kind) && SelectedIn(h, m, members, from, to)
    ensures members == Walked(m, Store(0, map[], [], map[]))
  {
    hide Fixed, Walked, Selected;
    var at, times :| from <= at < to && SelectedAt(h, m, Walked(m, h(at)(m.position)), times, members, from, to);
    FixedWalk(m, h(at)(m.position));
    SelectedAll(h, m, Walked(m, h(at)(m.position)), times);
  }

  /** While its metadata does not change, a fixed metric folds one record. */
  lemma {:induction false} FixedRecordIs(h: History, ms: seq<Metric>, i: nat, a: seq<Record>, b: seq<Record>, from: nat,
                                         mid: nat, to: nat, later: nat)
    requires i < |ms| && Fixed(ms[i]) && Unrelabelled(h, ms)
    requires RecordIn(h, ms[i], a, from, mid) && RecordIn(h, ms[i], b, to, later)
    ensures a == b
  {
    hide SelectedIn;
    if !IsScalar(ms[i].kind) {
      hide Fixed;
      FixedSelected(h, ms[i], a[0].members, from, mid);
      FixedSelected(h, ms[i], b[0].members, to, later);
    }
  }

  /** While no metadata changes, a group of fixed members has one identity. */
  lemma {:induction false} OneIdentity(h: History, ms: seq<Metric>, a: Identity, b: Identity, from: nat, mid: nat, to: nat,
                                       later: nat)
    requires FixedGroup(ms) && Unrelabelled(h, ms) && IdentityIn(h, ms, a, from, mid) && IdentityIn(h, ms, b, to, later)
    ensures a == b
  {
    hide Fixed, Unrelabelled, RecordIn, InColumns;
    var xs :| RecordsIn(h, ms, xs, a, from, mid);
    var ys :| RecordsIn(h, ms, ys, b, to, later);
    forall i | 0 <= i < |ms| ensures xs[i] == ys[i] {
      assert AllFixed(ms, ColumnOf(ms[i].kind));
      FixedRecordIs(h, ms, i, xs[i], ys[i], from, mid, to, later);
    }
    assert xs == ys;
  }

  lemma {:induction false} OwnIsEmitted(h: History, ms: seq<Metric>, extra: Extra, out: Option<Snapshot>,
                                        was: Option<Skeleton>, cache: Option<Skeleton>, from: nat, to: nat)
    requires RebuiltBy(h, ms, Some(extra), out, was, cache, from, to) && extra.Valid() && HasOwn(Some(extra))
    ensures out.Some? && cache.Some? && IdentityIn(h, ms, cache.value.identity, from, to)
  {
    hide Built, RecordsIn;
    var id, ds, vs :| BuiltFrom(h, ms, id, ds, vs, from, to) &&
      var schema, values := WithExtra(ds, Some(extra)), WithExtraValues(vs, Some(extra));
      if values.IsEmpty() then out == None && cache == was
      else out == Some(Snapshot(schema, values)) && cache == Some(Skeleton(id, schema));
    var c: Column :| ExtraDescs(Some(extra), c) != [];
    assert |extra.descs.Get(c)| == |extra.values.Get(c)|;
    assert WithExtraValues(vs, Some(extra)).Get(c) == vs.Get(c) + extra.values.Get(c);
  }

  lemma {:induction false} FixedRecordNames(h: History, m: Metric, rs: seq<Record>, from: nat, to: nat)
    requires Fixed(m) && RecordIn(h, m, rs, from, to)
    ensures |rs| == 1 && rs[0].Names() == FixedNames(m)
  {
    hide SelectedIn, Walked;
    if !IsScalar(m.kind) {
      hide Fixed;
      FixedSelected(h, m, rs[0].members, from, to);
    }
  }

  lemma {:induction false} FixedRecordsName(h: History, ms: seq<Metric>, xs: seq<seq<Record>>, id: Identity, from: nat,
                                            to: nat, c: Column)
    requires RecordsIn(h, ms, xs, id, from, to) && AllFixed(ms, c)
    ensures NamesOf(id.Get(c)) == FixedColumn(ms, c)
  {
    hide Fixed, RecordIn, FixedNames, Record.Names;
    if ms != [] {
      var n := |ms| - 1;
      var m, before := ms[n], InColumns(ms[..n], xs[..n]);
      assert ms == ms[..n] + [m];
      FixedMore(ms[..n], m, c);
      FixedRecordsName(h, ms[..n], xs[..n], before, from, to, c);
      if ColumnOf(m.kind) == c {
        FixedRecordNames(h, m, xs[n], from, to);
        NamesOfMore(before.Get(c), xs[n][0]);
        assert xs[n] == [xs[n][0]];
      }
    }
  }

  /** A miss of a group with fixed members is emitted. */
  lemma {:induction false} FixedIsEmitted(h: History, ms: seq<Metric>, extra: Option<Extra>, out: Option<Snapshot>,
                                          was: Option<Skeleton>, cache: Option<Skeleton>, from: nat, to: nat)
    requires RebuiltBy(h, ms, extra, out, was, cache, from, to) && FixedGroup(ms) && HasMembers(ms)
    ensures out.Some?
  {
    hide RecordsIn, AllFixed, FixedColumn, NamesOf, DescribesAll, ReadOf;
    var id, ds, vs :| BuiltFrom(h, ms, id, ds, vs, from, to) &&
      var schema, values := WithExtra(ds, extra), WithExtraValues(vs, extra);
      if values.IsEmpty() then out == None && cache == was
      else out == Some(Snapshot(schema, values)) && cache == Some(Skeleton(id, schema));
    var xs :| RecordsIn(h, ms, xs, id, from, to);
    var c: Column :| FixedColumn(ms, c) != [];
    FixedRecordsName(h, ms, xs, id, from, to, c);
    DescribedNames(h, id.Get(c), ds.Get(c), to);
    assert |vs.Get(c)| == |FixedColumn(ms, c)|;
    assert WithExtraValues(vs, extra).Get(c) == vs.Get(c) + ExtraValues(extra, c);
  }

  /** A group of fixed members built with a caller's own and then without: the first build
      is emitted; the second is a hit, left out and evicted though no member changed; the
      third is emitted again. */
  method OwnThenNone(g: GroupCache, extra: Extra)
    returns (one: Option<Snapshot>, two: Option<Snapshot>, three: Option<Snapshot>, hits: seq<bool>)
    requires g.Valid() && Apart(g.metrics) && extra.Valid() && HasOwn(Some(extra))
    requires FixedGroup(g.metrics) && HasMembers(g.metrics) && Unrelabelled(g.history, g.metrics)
    modifies g
    ensures one.Some? && two == None && three.Some? && hits == [false, true, false]
    ensures g.Valid()
  {
    hide Apart, FixedGroup, HasMembers, HasOwn, Unrelabelled, IdentityIn, RebuiltBy, ServedBy, SameCounts, Bound, FreshFrom,
      AllFixed, Extra.Valid;
    var hit1, hit2, hit3;
    ghost var first, at, mid, heard;
    one, hit1, first, at, mid, heard := g.Build(Some(extra));
    OwnIsEmitted(g.history, g.metrics, extra, one, old(g.cache), g.cache, mid, g.now);
    ghost var stored, before := g.cache.value.identity, mid;
    ghost var t := g.now;
    two, hit2, first, at, mid, heard := g.Build(None);
    OneIdentity(g.history, g.metrics, stored, first, before, t, t, mid);
    three, hit3, first, at, mid, heard := g.Build(None);
    FixedIsEmitted(g.history, g.metrics, None, three, None, g.cache, mid, g.now);
    hits := [hit1, hit2, hit3];
  }

  lemma {:induction false} ApartPrefix(ms: seq<Metric>, n: nat)
    requires Apart(ms) && n <= |ms|
    ensures Apart(ms[..n])
  {
  }
}
