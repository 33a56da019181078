/** The metadata version of a group that cannot count its mutations: a hash over its
    entries and labels, in an order of its own. */
module ContentVersion {
  import opened Prelude
  import opened Arithmetic
  import opened Sorting
  import opened MessagePack

  type Text = Bytes

  type Label = (Text, Text)

  /** An entry's index and its labels, in no particular order. */
  datatype Entry = Entry(index: nat, labels: seq<Label>)

  // ----- Orders

  /** Lexicographic order. */
  predicate Lex<T(==)>(le: (T, T) -> bool, a: seq<T>, b: seq<T>) {
    a == [] || (b != [] && (if a[0] == b[0] then Lex(le, a[1..], b[1..]) else le(a[0], b[0])))
  }

  predicate ByteLe(a: byte, b: byte) {
    a <= b
  }

  predicate TextLe(a: Text, b: Text) {
    Lex(ByteLe, a, b)
  }

  predicate LabelLe(a: Label, b: Label) {
    if a.0 == b.0 then TextLe(a.1, b.1) else TextLe(a.0, b.0)
  }

  predicate EntryLe(a: Entry, b: Entry) {
    if a.index == b.index then Lex(LabelLe, a.labels, b.labels) else a.index <= b.index
  }

  lemma {:induction false} LexReflexive<T>(le: (T, T) -> bool, a: seq<T>)
    ensures Lex(le, a, a)
  {
    if a != [] {
      LexReflexive(le, a[1..]);
    }
  }

  lemma {:induction false} LexTotal<T(!new)>(le: (T, T) -> bool, a: seq<T>, b: seq<T>)
    requires TotalOrder(le)
    ensures Lex(le, a, b) || Lex(le, b, a)
  {
    if a != [] && b != [] && a[0] == b[0] {
      LexTotal(le, a[1..], b[1..]);
    }
  }

  lemma {:induction false} LexStrict<T(!new)>(le: (T, T) -> bool, a: seq<T>, b: seq<T>)
    requires TotalOrder(le) && Lex(le, a, b) && Lex(le, b, a)
    ensures a == b
  {
    if a != [] && b != [] {
      assert a[0] == b[0];
      LexStrict(le, a[1..], b[1..]);
      assert a == [a[0]] + a[1..] && b == [b[0]] + b[1..];
    }
  }

  lemma {:induction false} LexTransitive<T(!new)>(le: (T, T) -> bool, a: seq<T>, b: seq<T>, c: seq<T>)
    requires TotalOrder(le) && Lex(le, a, b) && Lex(le, b, c)
    ensures Lex(le, a, c)
  {
    if a != [] && a[0] == b[0] && b[0] == c[0] {
      LexTransitive(le, a[1..], b[1..], c[1..]);
    }
  }

  lemma {:induction false} ByteOrder()
    ensures TotalOrder(ByteLe)
  {
  }

  lemma {:induction false} TextOrder()
    ensures TotalOrder(TextLe)
  {
    hide TotalOrder, Lex;
    ByteOrder();
    forall a ensures TextLe(a, a) {
      LexReflexive(ByteLe, a);
    }
    forall a, b ensures TextLe(a, b) || TextLe(b, a) {
      LexTotal(ByteLe, a, b);
    }
    forall a, b | TextLe(a, b) && TextLe(b, a) ensures a == b {
      LexStrict(ByteLe, a, b);
    }
    forall a, b, c | TextLe(a, b) && TextLe(b, c) ensures TextLe(a, c) {
      LexTransitive(ByteLe, a, b, c);
    }
    IsTotalOrder(TextLe);
  }

  lemma {:induction false} IsTotalOrder<T(!new)>(le: (T, T) -> bool)
    requires (forall x :: le(x, x)) && (forall x, y :: le(x, y) || le(y, x))
    requires forall x, y :: le(x, y) && le(y, x) ==> x == y
    requires forall x, y, z :: le(x, y) && le(y, z) ==> le(x, z)
    ensures TotalOrder(le)
  {
  }

  lemma {:induction false} LabelOrder()
    ensures TotalOrder(LabelLe)
  {
    hide TextLe;
    TextOrder();
  }

  lemma {:induction false} EntryOrder()
    ensures TotalOrder(EntryLe)
  {
    hide TotalOrder, Lex, LabelLe;
    LabelOrder();
    forall a ensures EntryLe(a, a) {
      LexReflexive(LabelLe, a.labels);
    }
    forall a, b ensures EntryLe(a, b) || EntryLe(b, a) {
      LexTotal(LabelLe, a.labels, b.labels);
    }
    forall a, b | EntryLe(a, b) && EntryLe(b, a) ensures a == b {
      if a.index == b.index {
        LexStrict(LabelLe, a.labels, b.labels);
      }
    }
    forall a, b, c | EntryLe(a, b) && EntryLe(b, c) ensures EntryLe(a, c) {
      if a.index == b.index == c.index {
        LexTransitive(LabelLe, a.labels, b.labels, c.labels);
      }
    }
    IsTotalOrder(EntryLe);
  }

  // ----- What a snapshot holds, and the bytes hashed of it

  /** The content of a snapshot: its entries, each with its labels, in no order. */
  ghost function ContentOf(e: Entry): (nat, multiset<Label>) {
    (e.index, multiset(e.labels))
  }

  ghost function Contents(es: seq<Entry>): multiset<(nat, multiset<Label>)> {
    multiset(Map(ContentOf, es))
  }

  function Map<S, T>(f: S -> T, s: seq<S>): seq<T> {
    seq(|s|, i requires 0 <= i < |s| => f(s[i]))
  }

  /** An entry with its labels sorted. */
  function Arranged(e: Entry): Entry {
    e.(labels := Sort(e.labels, LabelLe))
  }

  /** A snapshot with its labels sorted, then its entries. */
  function Canonical(es: seq<Entry>): seq<Entry> {
    Sort(Map(Arranged, es), EntryLe)
  }

  /** `n` in eight bytes, least significant first. */
  function LittleEndian(n: nat, k: nat): (r: Bytes)
    ensures |r| == k
  {
    if k == 0 then [] else [n % 256] + LittleEndian(n / 256, k - 1)
  }

  function Le64(n: nat): Bytes {
    LittleEndian(n, 8)
  }

  function TextBytes(t: Text): Bytes {
    Le64(|t|) + t
  }

  function LabelBytes(l: Label): Bytes {
    TextBytes(l.0) + TextBytes(l.1)
  }

  function EntryBytes(e: Entry): Bytes {
    Le64(e.index) + Le64(|e.labels|) + All(LabelBytes, e.labels)
  }

  /** The bytes hashed of a snapshot in canonical order. */
  function SnapshotBytes(es: seq<Entry>): Bytes {
    Le64(|es|) + All(EntryBytes, es)
  }

  /** Eight bytes of a number, the least first. */
  function Eight(n: byte, m: byte): Bytes {
    [n, m, 0, 0, 0, 0, 0, 0]
  }

  lemma {:induction false} Le64Is(n: byte, m: byte)
    ensures Le64(n + 256 * m) == Eight(n, m)
  {
    var k := n + 256 * m;
    assert k % 256 == n && k / 256 == m && m / 256 == 0 && m % 256 == m;
    assert LittleEndian(0, 6) == [0, 0, 0, 0, 0, 0] by { Zeros(); }
    assert LittleEndian(m, 7) == [m] + LittleEndian(0, 6);
  }

  lemma {:induction false} Zeros()
    ensures LittleEndian(0, 6) == [0, 0, 0, 0, 0, 0]
  {
    assert LittleEndian(0, 3) == [0, 0, 0];
  }

  lemma {:induction false} AllOfOne<T>(enc: T -> Bytes, x: T)
    ensures All(enc, [x]) == enc(x)
  {
    assert [x][1..] == [];
  }

  /** Entry 258's one label, `k` of `vw`: counts, index and lengths in eight bytes each. */
  lemma {:induction false} KnownBytes()
    ensures SnapshotBytes([Entry(258, [([0x6b], [0x76, 0x77])])]) ==
            Eight(1, 0) + Eight(2, 1) + Eight(1, 0) + Eight(1, 0) + [0x6b] + Eight(2, 0) + [0x76, 0x77]
  {
    hide LittleEndian, All, Le64, Eight;
    var l: Label := ([0x6b], [0x76, 0x77]);
    var e := Entry(258, [l]);
    Le64Is(1, 0);
    Le64Is(2, 0);
    Le64Is(2, 1);
    AllOfOne(LabelBytes, l);
    AllOfOne(EntryBytes, e);
  }

  /** Every count and index is a 64-bit one. */
  ghost predicate Fits(es: seq<Entry>) {
    && |es| <= U64_MAX
    && forall e :: e in es ==>
         && e.index <= U64_MAX && |e.labels| <= U64_MAX
         && forall l :: l in e.labels ==> |l.0| <= U64_MAX && |l.1| <= U64_MAX
  }

  // ----- The bytes determine the snapshot

  function FromLittleEndian(b: Bytes): nat {
    if b == [] then 0 else b[0] + 256 * FromLittleEndian(b[1..])
  }

  lemma {:induction false} LittleEndianTrip(n: nat, k: nat)
    requires n < Radix(k)
    ensures FromLittleEndian(LittleEndian(n, k)) == n
  {
    if k > 0 {
      LittleEndianTrip(n / 256, k - 1);
    }
  }

  function ReadLe64(s: Bytes): Parse<nat> {
    if |s| < 8 then None else Some((FromLittleEndian(s[..8]), s[8..]))
  }

  lemma {:induction false} Le64Trip(n: nat, rest: Bytes)
    requires n <= U64_MAX
    ensures ReadLe64(Le64(n) + rest) == Some((n, rest))
  {
    hide LittleEndian, FromLittleEndian, Radix;
    Radixes();
    LittleEndianTrip(n, 8);
    assert (Le64(n) + rest)[..8] == Le64(n) && (Le64(n) + rest)[8..] == rest;
  }

  function ReadText(s: Bytes): Parse<Text> {
    var n := ReadLe64(s);
    if n.None? || |n.value.1| < n.value.0 then None else Some((n.value.1[..n.value.0], n.value.1[n.value.0..]))
  }

  lemma {:induction false} TextTrip(t: Text, rest: Bytes)
    requires |t| <= U64_MAX
    ensures ReadText(TextBytes(t) + rest) == Some((t, rest))
  {
    hide Le64, ReadLe64;
    Le64Trip(|t|, t + rest);
    assert TextBytes(t) + rest == Le64(|t|) + (t + rest);
    assert (t + rest)[..|t|] == t && (t + rest)[|t|..] == rest;
  }

  function ReadLabel(s: Bytes): Parse<Label> {
    var k := ReadText(s);
    if k.None? then None
    else
      var v := ReadText(k.value.1);
      if v.None? then None else Some(((k.value.0, v.value.0), v.value.1))
  }

  lemma {:induction false} LabelTrip(l: Label, rest: Bytes)
    requires |l.0| <= U64_MAX && |l.1| <= U64_MAX
    ensures ReadLabel(LabelBytes(l) + rest) == Some((l, rest))
  {
    hide TextBytes, ReadText;
    assert LabelBytes(l) + rest == TextBytes(l.0) + (TextBytes(l.1) + rest);
    TextTrip(l.0, TextBytes(l.1) + rest);
    TextTrip(l.1, rest);
  }

  function ReadEntry(s: Bytes): Parse<Entry> {
    var i := ReadLe64(s);
    if i.None? then None
    else
      var n := ReadLe64(i.value.1);
      if n.None? then None
      else
        var ls := ReadAll(ReadLabel, n.value.0, n.value.1);
        if ls.None? then None else Some((Entry(i.value.0, ls.value.0), ls.value.1))
  }

  lemma {:induction false} EntryTrip(e: Entry, rest: Bytes)
    requires Fits([e])
    ensures ReadEntry(EntryBytes(e) + rest) == Some((e, rest))
  {
    hide Le64, ReadLe64, All, ReadAll, LabelBytes, ReadLabel;
    assert e in [e];
    var ls := All(LabelBytes, e.labels) + rest;
    assert EntryBytes(e) + rest == Le64(e.index) + (Le64(|e.labels|) + ls);
    Le64Trip(e.index, Le64(|e.labels|) + ls);
    Le64Trip(|e.labels|, ls);
    forall l | l in e.labels ensures Undoes(ReadLabel, LabelBytes, l) {
      forall rest: Bytes ensures ReadLabel(LabelBytes(l) + rest) == Some((l, rest)) {
        LabelTrip(l, rest);
      }
    }
    AllTrip(ReadLabel, LabelBytes, e.labels, rest);
  }

  function ReadSnapshot(s: Bytes): Parse<seq<Entry>> {
    var n := ReadLe64(s);
    if n.None? then None else ReadAll(ReadEntry, n.value.0, n.value.1)
  }

  lemma {:induction false} SnapshotTrip(es: seq<Entry>)
    requires Fits(es)
    ensures ReadSnapshot(SnapshotBytes(es)) == Some((es, []))
  {
    hide Le64, ReadLe64, All, ReadAll, EntryBytes, ReadEntry;
    var rest := All(EntryBytes, es);
    Le64Trip(|es|, rest);
    forall e | e in es ensures Undoes(ReadEntry, EntryBytes, e) {
      assert Fits([e]);
      forall rest: Bytes ensures ReadEntry(EntryBytes(e) + rest) == Some((e, rest)) {
        EntryTrip(e, rest);
      }
    }
    AllTrip(ReadEntry, EntryBytes, es, []);
    assert rest + [] == rest;
  }

  // ----- The order of entries and labels does not matter, and nothing else is lost

  lemma {:induction false} MapJoin<S, T>(f: S -> T, s: seq<S>, t: seq<S>)
    ensures Map(f, s + t) == Map(f, s) + Map(f, t)
  {
  }

  /** Mapping forgets no more of the order than there is. */
  lemma {:induction false} SameMap<S, T>(f: S -> T, s: seq<S>, t: seq<S>)
    requires multiset(s) == multiset(t)
    ensures multiset(Map(f, s)) == multiset(Map(f, t))
  {
    assert |multiset(s)| == |s| && |multiset(t)| == |t|;
    if s != [] {
      hide Map;
      var n := |s| - 1;
      assert s == s[..n] + [s[n]];
      var rest, i := TakeOut(t, s[..n], s[n], s);
      SameMap(f, s[..n], rest);
      MapJoin(f, s[..n], [s[n]]);
      assert t == t[..i] + ([t[i]] + t[i + 1..]);
      MapJoin(f, t[..i], [t[i]] + t[i + 1..]);
      MapJoin(f, [t[i]], t[i + 1..]);
      MapJoin(f, t[..i], t[i + 1..]);
    }
  }

  /** Some labels listed in some order. */
  ghost function Listed(ms: multiset<Label>): (labels: seq<Label>)
    ensures multiset(labels) == ms
    decreases |ms|
  {
    if ms == multiset{} then []
    else
      var l :| l in ms;
      Listed(ms - multiset{l}) + [l]
  }

  /** The entry a content is arranged to. */
  ghost function ArrangedContent(c: (nat, multiset<Label>)): Entry {
    Entry(c.0, Sort(Listed(c.1), LabelLe))
  }

  lemma {:induction false} ArrangedIsOfContent(e: Entry)
    ensures ArrangedContent(ContentOf(e)) == Arranged(e) && ContentOf(Arranged(e)) == ContentOf(e)
  {
    LabelOrder();
    SortIgnoresOrder(Listed(multiset(e.labels)), e.labels, LabelLe);
  }

  /** Two snapshots have one canonical form exactly when they have the same contents. */
  lemma {:induction false} CanonicalDecides(a: seq<Entry>, b: seq<Entry>)
    ensures Canonical(a) == Canonical(b) <==> Contents(a) == Contents(b)
  {
    hide Arranged, ArrangedContent, ContentOf, Sort;
    EntryOrder();
    forall es: seq<Entry>
      ensures Map(ContentOf, Map(Arranged, es)) == Map(ContentOf, es)
      ensures Map(ArrangedContent, Map(ContentOf, es)) == Map(Arranged, es)
    {
      forall i | 0 <= i < |es|
        ensures ContentOf(Arranged(es[i])) == ContentOf(es[i]) && ArrangedContent(ContentOf(es[i])) == Arranged(es[i])
      {
        ArrangedIsOfContent(es[i]);
      }
    }
    if Canonical(a) == Canonical(b) {
      SameMap(ContentOf, Map(Arranged, a), Map(Arranged, b));
    }
    if Contents(a) == Contents(b) {
      SameMap(ArrangedContent, Map(ContentOf, a), Map(ContentOf, b));
      SortIgnoresOrder(Map(Arranged, a), Map(Arranged, b), EntryLe);
    }
  }

  lemma {:induction false} CanonicalFits(es: seq<Entry>)
    requires Fits(es)
    ensures Fits(Canonical(es))
  {
    hide Sort;
    var c, m := Canonical(es), Map(Arranged, es);
    assert |multiset(c)| == |c| && |multiset(m)| == |m|;
    forall e | e in c
      ensures e.index <= U64_MAX && |e.labels| <= U64_MAX
      ensures forall l :: l in e.labels ==> |l.0| <= U64_MAX && |l.1| <= U64_MAX
    {
      assert e in multiset(c) && e in multiset(m);
      var i :| 0 <= i < |es| && e == Arranged(es[i]);
      assert es[i] in es;
      forall l | l in e.labels ensures |l.0| <= U64_MAX && |l.1| <= U64_MAX {
        assert l in multiset(e.labels) && l in multiset(es[i].labels);
      }
    }
  }

  /** The bytes hashed are the same exactly when the contents are, whatever order the
      entries and their labels are listed in. */
  lemma {:induction false} BytesDecideContents(a: seq<Entry>, b: seq<Entry>)
    requires Fits(a) && Fits(b)
    ensures SnapshotBytes(Canonical(a)) == SnapshotBytes(Canonical(b)) <==> Contents(a) == Contents(b)
  {
    hide SnapshotBytes, ReadSnapshot, Canonical, Contents, Fits;
    CanonicalFits(a);
    CanonicalFits(b);
    SnapshotTrip(Canonical(a));
    SnapshotTrip(Canonical(b));
    CanonicalDecides(a, b);
  }

  // ----- The hash

  const OFFSET: bv64 := 0xcbf2_9ce4_8422_2325
  const PRIME: bv64 := 0x0000_0100_0000_01b3

  function FoldByte(h: bv64, b: byte): bv64 {
    (h ^ (b as bv64)) * PRIME
  }

  /** FNV-1a over `bytes`, from `h`. */
  function Fnv(h: bv64, bytes: Bytes): bv64
    decreases bytes
  {
    if bytes == [] then h else Fnv(FoldByte(h, bytes[0]), bytes[1..])
  }

  /** The published answers of the 64-bit FNV-1a to no bytes and to "a". */
  lemma {:induction false} KnownHashes()
    ensures Fnv(OFFSET, []) == 0xcbf29ce484222325 && Fnv(OFFSET, [0x61]) == 0xaf63dc4c8601ec8c
  {
    var b: byte := 0x61;
    assert b as bv64 == 0x61;
    assert OFFSET ^ 0x61 == 0xcbf29ce484222344;
    assert FoldByte(OFFSET, b) == 0xcbf29ce484222344 * PRIME;
    assert [b][1..] == [];
    hide FoldByte;
    assert Fnv(OFFSET, [b]) == Fnv(FoldByte(OFFSET, b), []);
  }

  lemma {:induction false} FnvJoin(h: bv64, a: Bytes, b: Bytes)
    ensures Fnv(h, a + b) == Fnv(Fnv(h, a), b)
    decreases a
  {
    hide FoldByte;
    if a == [] {
      assert a + b == b;
    } else {
      assert (a + b)[1..] == a[1..] + b;
      FnvJoin(FoldByte(h, a[0]), a[1..], b);
    }
  }

  /** The accumulator with `bytes` folded in. */
  method Fold(h: bv64, bytes: Bytes) returns (r: bv64)
    ensures r == Fnv(h, bytes)
  {
    hide FoldByte;
    r := h;
    for i := 0 to |bytes|
      invariant Fnv(r, bytes[i..]) == Fnv(h, bytes)
    {
      assert bytes[i..][1..] == bytes[i + 1..];
      r := FoldByte(r, bytes[i]);
    }
  }

  lemma {:induction false} AllMore<T>(enc: T -> Bytes, xs: seq<T>, i: nat)
    requires i < |xs|
    ensures All(enc, xs[..i + 1]) == All(enc, xs[..i]) + enc(xs[i])
  {
    if i == 0 {
      assert All(enc, xs[..1]) == enc(xs[0]) + All(enc, xs[..1][1..]);
    } else {
      AllMore(enc, xs[1..], i - 1);
      assert xs[1..][..i] == xs[..i + 1][1..] && xs[1..][..i - 1] == xs[..i][1..];
      assert xs[..i + 1][0] == xs[0] == xs[..i][0];
    }
  }

  /** One entry folded in: its index, then its labels, with their counts and lengths. */
  method FoldEntry(start: bv64, e: Entry) returns (h: bv64)
    ensures h == Fnv(start, EntryBytes(e))
  {
    hide Fnv, Le64;
    h := Fold(start, Le64(e.index));
    h := Fold(h, Le64(|e.labels|));
    ghost var head := Le64(e.index) + Le64(|e.labels|);
    FnvJoin(start, Le64(e.index), Le64(|e.labels|));
    assert head + [] == head;
    for i := 0 to |e.labels|
      invariant h == Fnv(start, head + All(LabelBytes, e.labels[..i]))
    {
      var l := e.labels[i];
      ghost var before, h0 := head + All(LabelBytes, e.labels[..i]), h;
      h := Fold(h, Le64(|l.0|));
      h := Fold(h, l.0);
      h := Fold(h, Le64(|l.1|));
      h := Fold(h, l.1);
      FnvLabel(h0, l);
      FnvJoin(start, before, LabelBytes(l));
      AllMore(LabelBytes, e.labels, i);
      assert before + LabelBytes(l) == head + All(LabelBytes, e.labels[..i + 1]);
    }
    assert e.labels[..|e.labels|] == e.labels;
  }

  lemma {:induction false} FnvLabel(h: bv64, l: Label)
    ensures Fnv(Fnv(Fnv(Fnv(h, Le64(|l.0|)), l.0), Le64(|l.1|)), l.1) == Fnv(h, LabelBytes(l))
  {
    hide Fnv, Le64;
    FnvJoin(h, Le64(|l.0|), l.0);
    FnvJoin(Fnv(h, TextBytes(l.0)), Le64(|l.1|), l.1);
    FnvJoin(h, TextBytes(l.0), TextBytes(l.1));
  }

  /** `metadata_version_by_content`: the hash of the snapshot's canonical bytes. */
  method VersionByContent(snapshot: seq<Entry>) returns (h: bv64)
    ensures h == Fnv(OFFSET, SnapshotBytes(Canonical(snapshot)))
  {
    hide Fnv, Le64, EntryBytes, Sort;
    var entries := [];
    for i := 0 to |snapshot|
      invariant entries == Map(Arranged, snapshot[..i])
    {
      var e := snapshot[i];
      MapJoin(Arranged, snapshot[..i], [e]);
      assert Map(Arranged, [e]) == [Arranged(e)];
      assert snapshot[..i + 1] == snapshot[..i] + [e];
      entries := entries + [e.(labels := Sort(e.labels, LabelLe))];
    }
    assert snapshot[..|snapshot|] == snapshot;
    entries := Sort(entries, EntryLe);
    h := Fold(OFFSET, Le64(|entries|));
    assert Le64(|entries|) + [] == Le64(|entries|);
    for i := 0 to |entries|
      invariant h == Fnv(OFFSET, Le64(|entries|) + All(EntryBytes, entries[..i]))
    {
      ghost var before := Le64(|entries|) + All(EntryBytes, entries[..i]);
      h := FoldEntry(h, entries[i]);
      FnvJoin(OFFSET, before, EntryBytes(entries[i]));
      AllMore(EntryBytes, entries, i);
      assert before + EntryBytes(entries[i]) == Le64(|entries|) + All(EntryBytes, entries[..i + 1]);
    }
    assert entries[..|entries|] == entries;
  }

  /** Snapshots with the same contents have one version. */
  lemma {:induction false} VersionIgnoresOrder(a: seq<Entry>, b: seq<Entry>)
    requires Contents(a) == Contents(b)
    ensures Fnv(OFFSET, SnapshotBytes(Canonical(a))) == Fnv(OFFSET, SnapshotBytes(Canonical(b)))
  {
    CanonicalDecides(a, b);
  }
}
