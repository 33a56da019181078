/** The skeleton cache: a group's schema reused while the identity of its members
    stays the same, with the registry's values and labels changing at any time. */
module SkeletonCache {
  import opened Prelude
  import opened Sorting

  // ----- What the registry shows, and when

  datatype Kind = Counter | Gauge | CounterGroup | GaugeGroup | Histogram | GaugeHistogram | HistogramGroup

  datatype Membership = Present | All | Prefix(bound: nat) | Slots | Set(indices: seq<nat>)
  {
    /** Membership follows registration rather than values. */
    predicate Registered() {
      !Present?
    }
  }

  /** A metric: its registry position, and for a group metric how many entries its
      backing array has. */
  datatype Metric = Metric(position: nat, kind: Kind, membership: Membership, entries: nat)

  type Labels = map<string, string>

  /** One metric's metadata, by slot, with its version and the slots it lists, in no
      particular order; and its values. A scalar's value is at 0. */
  datatype Store = Store(version: nat, labels: map<nat, Labels>, listed: seq<nat>, values: map<nat, int>)
  {
    function Value(idx: nat): Option<int> {
      if idx in values then Some(values[idx]) else None
    }

    function LabelsOf(idx: nat): Option<Labels> {
      if idx in labels then Some(labels[idx]) else None
    }
  }

  /** The registry's stores, by position, at each moment. */
  type History = nat -> nat -> Store

  /** Values change at any time; a change of metadata, of which slots have any included,
      raises its version. The order slots are listed in may change at any time. */
  ghost predicate Versioned(h: History) {
    forall s, t, p :: s <= t ==> Raised(h(s)(p), h(t)(p))
  }

  ghost predicate Raised(a: Store, b: Store) {
    && a.version <= b.version
    && (a.version == b.version ==> a.labels == b.labels && multiset(a.listed) == multiset(b.listed))
  }

  // ----- A group's schema and identity

  /** A group's value lists. */
  datatype Column = Counters | Gauges | Histograms | GaugeHistograms

  /** A member: a metric, and the slot of a group metric's. */
  datatype Name = Name(position: nat, slot: Option<nat>)

  /** A member's descriptor: whose it is, and its slot's labels. */
  datatype Desc = Desc(name: Name, labels: Option<Labels>)

  datatype Columns<T> = Columns(counters: seq<T>, gauges: seq<T>, histograms: seq<T>, gaugeHistograms: seq<T>)
  {
    function Get(c: Column): seq<T> {
      match c
      case Counters => counters
      case Gauges => gauges
      case Histograms => histograms
      case GaugeHistograms => gaugeHistograms
    }

    function Plus(c: Column, xs: seq<T>): (r: Columns<T>)
      ensures forall d :: r.Get(d) == if d == c then Get(d) + xs else Get(d)
    {
      match c
      case Counters => this.(counters := counters + xs)
      case Gauges => this.(gauges := gauges + xs)
      case Histograms => this.(histograms := histograms + xs)
      case GaugeHistograms => this.(gaugeHistograms := gaugeHistograms + xs)
    }

    predicate IsEmpty() {
      counters == [] && gauges == [] && histograms == [] && gaugeHistograms == []
    }
  }

  function NoColumns<T>(): Columns<T> {
    Columns([], [], [], [])
  }

  function ColumnOf(k: Kind): Column {
    match k
    case Counter | CounterGroup => Counters
    case Gauge | GaugeGroup => Gauges
    case Histogram | HistogramGroup => Histograms
    case GaugeHistogram => GaugeHistograms
  }

  /** What one metric folds into its group's identity: its position, a group's
      metadata version, and its members. */
  datatype Record =
    | Scalar(position: nat)
    | Grouped(position: nat, version: nat, members: seq<nat>)
  {
    function Names(): (ns: seq<Name>)
    {
      match this
      case Scalar(p) => [Name(p, None)]
      case Grouped(p, _, ms) => seq(|ms|, i requires 0 <= i < |ms| => Name(p, Some(ms[i])))
    }
  }

  /** A group's identity: its metrics' records, by column, in registry order. */
  type Identity = Columns<Record>

  /** The members an identity's records name. */
  function NamesOf(rs: seq<Record>): seq<Name> {
    if rs == [] then [] else NamesOf(rs[..|rs| - 1]) + rs[|rs| - 1].Names()
  }

  /** The cached schema of a group. */
  datatype Skeleton = Skeleton(identity: Identity, schema: Columns<Desc>)

  /** A group as emitted. */
  datatype Snapshot = Snapshot(schema: Columns<Desc>, values: Columns<Option<int>>)

  // ----- A metric's members

  /** The first `n` indices. */
  function Indices(n: nat): seq<nat> {
    seq(n, i requires 0 <= i < n => i)
  }

  /** The leading indices of a set that are below `entries`. */
  function Below(indices: seq<nat>, entries: nat): seq<nat> {
    if indices == [] || indices[0] >= entries then [] else [indices[0]] + Below(indices[1..], entries)
  }

  /** `walk_members`, and `histogram_members` for a histogram group. */
  function Walked(m: Metric, s: Store): seq<nat> {
    if m.kind.HistogramGroup? then Sort(s.listed, (a: nat, b: nat) => a <= b)
    else
      match m.membership
      case Slots => Sort(s.listed, (a: nat, b: nat) => a <= b)
      case Present | All => Indices(m.entries)
      case Prefix(n) => Indices(Prelude.Min(n, m.entries))
      case Set(indices) => Below(indices, m.entries)
  }

  /** A walked member with value `v` is one of the group's. */
  predicate Belongs(m: Metric, v: Option<int>) {
    match m.kind
    case CounterGroup => m.membership.Registered() || (v.Some? && v.value != 0)
    case GaugeGroup => m.membership.Registered() || v.Some?
    case Histogram | GaugeHistogram => m.membership.Registered() || v.Some?
    case HistogramGroup => v.Some?
    case Counter | Gauge => true
  }

  predicate IsScalar(k: Kind) {
    k.Counter? || k.Gauge? || k.Histogram? || k.GaugeHistogram?
  }

  /** The metric's members depend on neither values nor metadata. */
  predicate Fixed(m: Metric) {
    if IsScalar(m.kind) then m.kind.Counter? || m.kind.Gauge? || m.membership.Registered()
    else !m.kind.HistogramGroup? && (m.membership.All? || m.membership.Prefix? || m.membership.Set?)
  }

  /** The names of metric `m`'s members, when they are fixed. */
  function FixedNames(m: Metric): seq<Name> {
    if IsScalar(m.kind) then [Name(m.position, None)]
    else
      var ms := Walked(m, Store(0, map[], [], map[]));
      seq(|ms|, i requires 0 <= i < |ms| => Name(m.position, Some(ms[i])))
  }

  function FixedColumn(ms: seq<Metric>, c: Column): seq<Name> {
    if ms == [] then []
    else
      var m := ms[|ms| - 1];
      FixedColumn(ms[..|ms| - 1], c) + (if ColumnOf(m.kind) == c then FixedNames(m) else [])
  }

  /** Every metric of column `c` has fixed members. */
  ghost predicate AllFixed(ms: seq<Metric>, c: Column) {
    forall j :: 0 <= j < |ms| && ColumnOf(ms[j].kind) == c ==> Fixed(ms[j])
  }

  /** A counter or gauge group whose members are the slots that have metadata. */
  predicate OfSlots(m: Metric) {
    !IsScalar(m.kind) && !m.kind.HistogramGroup? && m.membership.Slots?
  }

  /** The metric's members do not depend on values. */
  predicate Registers(m: Metric) {
    Fixed(m) || OfSlots(m)
  }

  lemma {:induction false} RegisteredBelongs(m: Metric)
    requires Registers(m) && !IsScalar(m.kind)
    ensures forall v :: Belongs(m, v)
  {
  }

  /** The slots walked are the same whatever order they are listed in. */
  lemma {:induction false} WalkedAgain(m: Metric, a: Store, b: Store)
    requires OfSlots(m) && multiset(a.listed) == multiset(b.listed)
    ensures Walked(m, a) == Walked(m, b)
  {
    SortIgnoresOrder(a.listed, b.listed, (a: nat, b: nat) => a <= b);
  }

  lemma {:induction false} FixedWalk(m: Metric, s: Store)
    requires Fixed(m) && !IsScalar(m.kind)
    ensures Walked(m, s) == Walked(m, Store(0, map[], [], map[]))
    ensures forall v :: Belongs(m, v)
  {
  }

  /** The walked slots that belong, by the value each has at its moment. */
  function Selected(h: History, m: Metric, walked: seq<nat>, times: seq<nat>): seq<nat>
    requires |walked| == |times|
  {
    if walked == [] then []
    else
      var n := |walked| - 1;
      Selected(h, m, walked[..n], times[..n])
        + (if Belongs(m, h(times[n])(m.position).Value(walked[n])) then [walked[n]] else [])
  }

  /** `members` are exactly a group metric's members as read in `[from, to)`: the slots
      walked at one moment that belong by the values they have at others. */
  ghost predicate SelectedIn(h: History, m: Metric, members: seq<nat>, from: nat, to: nat) {
    exists at, times :: from <= at < to && SelectedAt(h, m, Walked(m, h(at)(m.position)), times, members, from, to)
  }

  ghost predicate SelectedAt(h: History, m: Metric, walked: seq<nat>, times: seq<nat>, members: seq<nat>, from: nat,
                             to: nat)
  {
    && |times| == |walked| && members == Selected(h, m, walked, times)
    && forall i :: 0 <= i < |times| ==> from <= times[i] < to
  }

  lemma {:induction false} SelectedMore(h: History, m: Metric, walked: seq<nat>, times: seq<nat>, members: seq<nat>,
                                        from: nat, to: nat, slot: nat, t: nat, later: nat)
    requires SelectedAt(h, m, walked, times, members, from, to) && from <= t < later && to <= later
    ensures SelectedAt(h, m, walked + [slot], times + [t],
                       members + (if Belongs(m, h(t)(m.position).Value(slot)) then [slot] else []), from, later)
  {
    assert (walked + [slot])[..|walked|] == walked && (times + [t])[..|walked|] == times;
  }

  /** A scalar is a member by the value it has at some moment in `[from, to)`. */
  ghost predicate ScalarIn(h: History, m: Metric, member: bool, from: nat, to: nat) {
    exists t :: from <= t < to && member == Belongs(m, h(t)(m.position).Value(0))
  }

  // ----- Labels in time

  /** From moment `t` on, whenever the metric's version is `version` the slot's labels
      are the descriptor's. */
  ghost predicate Dated(h: History, d: Desc, version: nat, t: nat) {
    d.name.slot.Some? ==>
      forall s :: t <= s && h(s)(d.name.position).version == version ==>
        h(s)(d.name.position).LabelsOf(d.name.slot.value) == d.labels
  }

  /** Labels read after the version are those of the version, or it has changed. */
  lemma {:induction false} ReadAfterVersion(h: History, p: nat, slot: nat, r: nat, t: nat)
    requires Versioned(h) && r <= t
    ensures Dated(h, Desc(Name(p, Some(slot)), h(t)(p).LabelsOf(slot)), h(r)(p).version, t)
  {
    forall s | t <= s && h(s)(p).version == h(r)(p).version
      ensures h(s)(p).LabelsOf(slot) == h(t)(p).LabelsOf(slot)
    {
      assert Raised(h(r)(p), h(t)(p)) && Raised(h(t)(p), h(s)(p));
    }
  }

  /** A record's descriptors: one per member, in order, each dated by its version. */
  ghost predicate Describes(h: History, r: Record, ds: seq<Desc>, t: nat) {
    && |ds| == |r.Names()|
    && (forall i :: 0 <= i < |ds| ==> ds[i].name == r.Names()[i])
    && (r.Grouped? ==> forall i :: 0 <= i < |ds| ==> Dated(h, ds[i], r.version, t))
  }

  /** Some records' descriptors. */
  ghost predicate DescribesAll(h: History, rs: seq<Record>, ds: seq<Desc>, t: nat) {
    if rs == [] then ds == []
    else
      var n := |rs| - 1;
      exists k :: 0 <= k <= |ds| && DescribesAll(h, rs[..n], ds[..k], t) && Describes(h, rs[n], ds[k..], t)
  }

  lemma {:induction false} StillDescribes(h: History, rs: seq<Record>, ds: seq<Desc>, s: nat, t: nat)
    requires DescribesAll(h, rs, ds, s) && s <= t
    ensures DescribesAll(h, rs, ds, t)
  {
    if rs != [] {
      var n := |rs| - 1;
      var k :| 0 <= k <= |ds| && DescribesAll(h, rs[..n], ds[..k], s) && Describes(h, rs[n], ds[k..], s);
      StillDescribes(h, rs[..n], ds[..k], s, t);
      assert Describes(h, rs[n], ds[k..], t);
    }
  }

  lemma {:induction false} DescribesMore(h: History, rs: seq<Record>, ds: seq<Desc>, r: Record, more: seq<Desc>, t: nat)
    requires DescribesAll(h, rs, ds, t) && Describes(h, r, more, t)
    ensures DescribesAll(h, rs + [r], ds + more, t)
  {
    assert (rs + [r])[..|rs|] == rs;
    assert (ds + more)[..|ds|] == ds && (ds + more)[|ds|..] == more;
  }

  /** The descriptors have these names. */
  ghost predicate Named(ds: seq<Desc>, ns: seq<Name>) {
    |ds| == |ns| && forall i :: 0 <= i < |ds| ==> ds[i].name == ns[i]
  }

  lemma {:induction false} NamedJoin(ds: seq<Desc>, k: nat, a: seq<Name>, b: seq<Name>)
    requires k <= |ds| && Named(ds[..k], a) && Named(ds[k..], b)
    ensures Named(ds, a + b)
  {
    forall i | 0 <= i < |ds| ensures ds[i].name == (a + b)[i] {
      if i < k {
        assert ds[..k][i] == ds[i];
      } else {
        assert ds[k..][i - k] == ds[i];
      }
    }
  }

  lemma {:induction false} DescribedNames(h: History, rs: seq<Record>, ds: seq<Desc>, t: nat)
    requires DescribesAll(h, rs, ds, t)
    ensures Named(ds, NamesOf(rs))
  {
    if rs != [] {
      var n := |rs| - 1;
      var k :| 0 <= k <= |ds| && DescribesAll(h, rs[..n], ds[..k], t) && Describes(h, rs[n], ds[k..], t);
      DescribedNames(h, rs[..n], ds[..k], t);
      hide DescribesAll;
      NamedJoin(ds, k, NamesOf(rs[..n]), rs[n].Names());
    }
  }

  /** Every record's version is the one its metric has at the moment `at` gives. */
  ghost predicate VersionsAt(h: History, rs: seq<Record>, at: map<nat, nat>, t: nat) {
    forall i :: 0 <= i < |rs| && rs[i].Grouped? ==>
      rs[i].position in at && t <= at[rs[i].position] && h(at[rs[i].position])(rs[i].position).version == rs[i].version
  }

  /** The descriptors' labels are those in the store at the moments `at`. */
  ghost predicate Fresh(h: History, ds: seq<Desc>, at: map<nat, nat>) {
    forall i :: 0 <= i < |ds| && ds[i].name.slot.Some? ==>
      ds[i].name.position in at &&
      h(at[ds[i].name.position])(ds[i].name.position).LabelsOf(ds[i].name.slot.value) == ds[i].labels
  }

  /** Descriptors whose versions are read again unchanged are fresh. */
  lemma {:induction false} HitIsFresh(h: History, rs: seq<Record>, ds: seq<Desc>, t: nat, at: map<nat, nat>)
    requires DescribesAll(h, rs, ds, t) && VersionsAt(h, rs, at, t)
    ensures Fresh(h, ds, at)
  {
    if rs != [] {
      var n := |rs| - 1;
      var k :| 0 <= k <= |ds| && DescribesAll(h, rs[..n], ds[..k], t) && Describes(h, rs[n], ds[k..], t);
      HitIsFresh(h, rs[..n], ds[..k], t, at);
      forall i | 0 <= i < |ds| && ds[i].name.slot.Some?
        ensures ds[i].name.position in at &&
                h(at[ds[i].name.position])(ds[i].name.position).LabelsOf(ds[i].name.slot.value) == ds[i].labels
      {
        if i < k {
          assert ds[..k][i] == ds[i];
        } else {
          assert ds[k..][i - k] == ds[i];
          assert Dated(h, ds[i], rs[n].version, t);
        }
      }
    }
  }
}
