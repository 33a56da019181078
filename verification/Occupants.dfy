/** The occupants of a long group's slots: which key and labels a slot has, and when
    it gets new ones. */
module Occupancy {
  import opened Prelude
  import opened SkeletonCache

  /** The label that names one assignment of a slot. */
  const UID_LABEL: string := "__uid__"

  /** A slot's occupant: its key, for the life of the builder, and its labels. */
  datatype Occupant = Occupant(key: nat, labels: Labels)

  function Decimal(n: nat): string {
    var digit := ['0' + (n % 10) as char];
    if n < 10 then digit else Decimal(n / 10) + digit
  }

  /** The labels of slot `idx` with metadata `m`: its number, then `m`'s, which win. */
  function LabelsFrom(idx: nat, m: Option<Labels>): Labels {
    map["id" := Decimal(idx)] + (if m.Some? then m.value else map[])
  }

  function Uid(m: Option<Labels>): Option<string> {
    if m.Some? && UID_LABEL in m.value then Some(m.value[UID_LABEL]) else None
  }

  function LabelOf(m: Labels, k: string): Option<string> {
    if k in m then Some(m[k]) else None
  }

  /** `cached` has `m`'s labels, as the source compares them. */
  predicate SameLabels(idx: nat, m: Option<Labels>, cached: Labels) {
    var own := if m.Some? then m.value else map[];
    && LabelOf(cached, "id") == Some(Decimal(idx))
    && |cached| == |own| + (if m.Some? && "id" !in own then 1 else 0)
    && forall k :: k in own ==> k == "id" || LabelOf(cached, k) == Some(own[k])
  }

  /** `slot_occupant`: slot `idx`'s occupant from its metadata, and the next key. */
  function SlotOccupant(idx: nat, m: Option<Labels>, cached: Option<Occupant>, nextKey: nat): (Occupant, nat) {
    var uid := Uid(m);
    if uid.Some? && cached.Some? && Uid(Some(cached.value.labels)) == uid then (cached.value, nextKey)
    else if uid.None? && cached.Some? && SameLabels(idx, m, cached.value.labels) then (cached.value, nextKey)
    else (Occupant(nextKey, LabelsFrom(idx, m)), nextKey + 1)
  }

  // ----- What labels are

  /** The number decimal digits `s` spell. */
  function FromDecimal(s: string): int {
    if s == "" then 0 else FromDecimal(s[..|s| - 1]) * 10 + (s[|s| - 1] as int - '0' as int)
  }

  /** A slot's number is spelled in decimal digits, without leading zeros. */
  lemma {:induction false} DecimalIs(n: nat)
    ensures FromDecimal(Decimal(n)) == n && Decimal(n) != "" && (Decimal(n)[0] == '0' <==> n == 0)
    ensures forall i :: 0 <= i < |Decimal(n)| ==> '0' <= Decimal(n)[i] <= '9'
    ensures n == 0 ==> |Decimal(n)| == 1
  {
    if n >= 10 {
      DecimalIs(n / 10);
      var d := Decimal(n / 10);
      assert Decimal(n)[..|d|] == d;
    } else {
      assert Decimal(n)[..0] == "";
    }
  }

  /** A slot's labels are its metadata's, and its number as `id` unless that has one. */
  lemma {:induction false} LabelsAre(idx: nat, m: Option<Labels>, k: string)
    ensures var labels := LabelsFrom(idx, m);
            && (k in labels <==> k == "id" || (m.Some? && k in m.value))
            && (m.Some? && k in m.value ==> labels[k] == m.value[k])
            && (m.None? || "id" !in m.value ==> FromDecimal(labels["id"]) == idx)
  {
    hide Decimal;
    DecimalIs(idx);
  }

  lemma {:induction false} UidIs(m: Option<Labels>, u: string)
    ensures Uid(m) == Some(u) <==> m.Some? && "__uid__" in m.value && m.value["__uid__"] == u
  {
  }

  // ----- When a slot without a uid keeps its occupant

  lemma {:induction false} SameSizeSubset<T>(a: set<T>, b: set<T>)
    requires a <= b && |a| == |b|
    ensures a == b
  {
    assert b == a + (b - a);
  }

  lemma {:induction false} KeysAreAll(m: Labels, cached: Labels)
    requires "id" in cached && forall k :: k in m ==> k in cached
    requires |cached| == |m| + (if "id" in m then 0 else 1)
    ensures cached.Keys == m.Keys + {"id"}
  {
    assert |m.Keys| == |m| && |cached.Keys| == |cached|;
    if "id" in m {
      assert m.Keys + {"id"} == m.Keys;
    }
    SameSizeSubset(m.Keys + {"id"}, cached.Keys);
  }

  lemma {:induction false} SizeWithId(m: Labels, id: string)
    ensures |m["id" := id]| == |m| + (if "id" in m then 0 else 1)
  {
    var n := m["id" := id];
    assert |m.Keys| == |m| && |n.Keys| == |n|;
    if "id" in m {
      assert n.Keys == m.Keys;
    } else {
      assert n.Keys == m.Keys + {"id"};
    }
  }

  /** The source's comparison: the cached labels are the metadata's with the slot's
      number as `id`; never so for a slot without metadata. */
  lemma {:induction false} SameLabelsIs(idx: nat, m: Option<Labels>, cached: Labels)
    ensures SameLabels(idx, m, cached) <==> m.Some? && cached == m.value["id" := Decimal(idx)]
  {
    hide Decimal;
    if m.None? {
      assert cached == map[] || |cached| > 0;
    } else {
      var own := m.value;
      SizeWithId(own, Decimal(idx));
      if SameLabels(idx, m, cached) {
        forall k | k in own ensures k in cached {
          assert k == "id" || LabelOf(cached, k) == Some(own[k]);
        }
        KeysAreAll(own, cached);
        forall k | k in cached ensures cached[k] == own["id" := Decimal(idx)][k] {
          assert k == "id" || LabelOf(cached, k) == Some(own[k]);
        }
      }
    }
  }

  /** Slot `idx` keeps its occupant with labels `cached`: no key is taken. */
  predicate Keeps(idx: nat, m: Option<Labels>, cached: Labels) {
    SlotOccupant(idx, m, Some(Occupant(0, cached)), 1).1 == 1
  }

  lemma {:induction false} KeepsLabels(idx: nat, m: Option<Labels>, cached: Labels)
    requires Uid(m).None?
    ensures Keeps(idx, m, cached) <==> m.Some? && cached == m.value["id" := Decimal(idx)]
  {
    SameLabelsIs(idx, m, cached);
  }

  /** A slot without a uid keeps its occupant exactly while its labels stay the same
      if and only if it has metadata whose own `id`, if any, is the slot's number. */
  lemma {:induction false} KeepsSameLabels(idx: nat, m: Option<Labels>)
    requires Uid(m).None?
    ensures (forall cached :: Keeps(idx, m, cached) <==> cached == LabelsFrom(idx, m))
            <==> m.Some? && ("id" in m.value ==> m.value["id"] == Decimal(idx))
  {
    hide Keeps;
    var now := LabelsFrom(idx, m);
    KeepsLabels(idx, m, now);
    if m.Some? {
      var kept := m.value["id" := Decimal(idx)];
      if "id" !in m.value || m.value["id"] == Decimal(idx) {
        assert kept == now;
        forall cached ensures Keeps(idx, m, cached) <==> cached == now {
          KeepsLabels(idx, m, cached);
        }
      } else {
        assert now["id"] != kept["id"];
      }
    }
  }

  /** A slot without metadata gets a new key though its labels are the same. */
  lemma {:induction false} UnlabelledSlotIsReplaced()
    ensures LabelsFrom(3, None) == map["id" := "3"] && !Keeps(3, None, map["id" := "3"])
  {
    assert Decimal(3) == "3";
    KeepsLabels(3, None, map["id" := "3"]);
  }

  /** `labels` are those of slot `s` with metadata `m`: the same uid, or without
      one the same labels. An `id` that `m` gives may be the slot's number instead. */
  ghost predicate Agrees(s: nat, m: Option<Labels>, labels: Labels) {
    && Uid(Some(labels)) == Uid(m)
    && (Uid(m).None? ==> labels == LabelsFrom(s, m) || (m.Some? && labels == m.value["id" := Decimal(s)]))
  }

  /** A resolved occupant agrees with the metadata, and a new one has its labels. */
  lemma {:induction false} ResolvedAgrees(idx: nat, m: Option<Labels>, cached: Option<Occupant>, nextKey: nat)
    ensures var o := SlotOccupant(idx, m, cached, nextKey).0;
            Agrees(idx, m, o.labels) && ((cached.Some? && o == cached.value) || o.labels == LabelsFrom(idx, m))
  {
    hide Decimal, SameLabels;
    if Uid(m).None? && cached.Some? {
      SameLabelsIs(idx, m, cached.value.labels);
    }
  }

  // ----- One slot over a run of builds

  /** Slot `idx`'s occupants over builds that read `ms` of it, and the next key. */
  function Occupants(idx: nat, ms: seq<Option<Labels>>): (r: (seq<Occupant>, nat))
    ensures |r.0| == |ms|
  {
    if ms == [] then ([], 0)
    else
      var n := |ms| - 1;
      var (before, key) := Occupants(idx, ms[..n]);
      var (o, next) := SlotOccupant(idx, ms[n], if n == 0 then None else Some(before[n - 1]), key);
      (before + [o], next)
  }

  lemma {:induction false} OccupantsBefore(idx: nat, ms: seq<Option<Labels>>, n: nat)
    requires n <= |ms|
    ensures Occupants(idx, ms[..n]).0 == Occupants(idx, ms).0[..n]
  {
    hide SlotOccupant;
    if n < |ms| {
      OccupantsBefore(idx, ms[..|ms| - 1], n);
      assert ms[..|ms| - 1][..n] == ms[..n];
    } else {
      assert ms[..n] == ms;
    }
  }

  /** Keys given rise, and each occupant has its metadata's uid. */
  lemma {:induction false} OccupantKeys(idx: nat, ms: seq<Option<Labels>>, i: nat, j: nat)
    requires i <= j < |ms|
    ensures var (os, next) := Occupants(idx, ms); os[i].key <= os[j].key < next && Uid(Some(os[i].labels)) == Uid(ms[i])
  {
    hide SlotOccupant;
    var n := |ms| - 1;
    var before := Occupants(idx, ms[..n]);
    var cached := if n == 0 then None else Some(before.0[n - 1]);
    ResolvedAgrees(idx, ms[n], cached, before.1);
    KeptOrNew(idx, ms[n], cached, before.1);
    if n > 0 {
      OccupantKeys(idx, ms[..n], Prelude.Min(i, n - 1), n - 1);
      OccupantKeys(idx, ms[..n], Prelude.Min(i, n - 1), Prelude.Min(j, n - 1));
    }
  }

  lemma {:induction false} KeptOrNew(idx: nat, m: Option<Labels>, cached: Option<Occupant>, key: nat)
    ensures var (o, next) := SlotOccupant(idx, m, cached, key);
            (cached.Some? && o == cached.value && next == key) || (o.key == key && next == key + 1)
    ensures cached.Some? && Uid(Some(cached.value.labels)).Some? ==>
              (SlotOccupant(idx, m, cached, key).1 == key <==> Uid(Some(cached.value.labels)) == Uid(m))
  {
    hide Decimal;
    if cached.Some? {
      SameLabelsIs(idx, m, cached.value.labels);
    }
  }

  /** Over any run, a slot that had a uid has the same key later exactly when it has had
      that uid all along: one that comes back gets a new key. */
  lemma {:induction false} KeepsUid(idx: nat, ms: seq<Option<Labels>>, i: nat, j: nat)
    requires i <= j < |ms| && Uid(ms[i]).Some?
    ensures var os := Occupants(idx, ms).0;
            os[i].key == os[j].key <==> forall k :: i <= k <= j ==> Uid(ms[k]) == Uid(ms[i])
    decreases j
  {
    hide SlotOccupant, Uid;
    if i < j {
      KeepsUid(idx, ms, i, j - 1);
      OccupantKeys(idx, ms, i, j - 1);
      OccupantKeys(idx, ms, j - 1, j);
      var before, upto := Occupants(idx, ms[..j]), Occupants(idx, ms[..j + 1]);
      assert ms[..j + 1][..j] == ms[..j];
      OccupantsBefore(idx, ms, j);
      OccupantsBefore(idx, ms, j + 1);
      var os := Occupants(idx, ms).0;
      assert before.0[j - 1] == os[j - 1] && upto.0[j] == os[j];
      KeptOrNew(idx, ms[j], Some(before.0[j - 1]), before.1);
      OccupantKeys(idx, ms[..j], i, j - 1);
    }
  }

  // ----- Keys over any run of builds

  /** Every key ever given, with the slot and the labels it was given to. */
  type Book = map<nat, (nat, Labels)>

  /** The slots' occupants are as the book says, which holds keys before the next. */
  ghost predicate Booked(slots: map<nat, Occupant>, book: Book, nextKey: nat) {
    && (forall s :: s in slots ==> slots[s].key in book && book[slots[s].key] == (s, slots[s].labels))
    && forall k :: k in book ==> k < nextKey
  }

  /** Slot `idx`'s occupant is entered in the book. */
  ghost function Enter(book: Book, idx: nat, o: Occupant): Book {
    if o.key in book then book else book[o.key := (idx, o.labels)]
  }

  lemma {:induction false} EnterBooked(slots: map<nat, Occupant>, book: Book, nextKey: nat, idx: nat, o: Occupant, next: nat)
    requires Booked(slots, book, nextKey)
    requires (idx in slots && o == slots[idx] && next == nextKey) || (o.key == nextKey && next == nextKey + 1)
    ensures Booked(slots[idx := o], Enter(book, idx, o), next)
    ensures forall k :: k in book ==> k in Enter(book, idx, o) && Enter(book, idx, o)[k] == book[k]
  {
  }

  /** No two slots have one key. */
  lemma {:induction false} KeysAreDistinct(slots: map<nat, Occupant>, book: Book, nextKey: nat, s: nat, t: nat)
    requires Booked(slots, book, nextKey) && s in slots && t in slots && s != t
    ensures slots[s].key != slots[t].key
  {
    assert book[slots[s].key].0 == s && book[slots[t].key].0 == t;
  }
}
