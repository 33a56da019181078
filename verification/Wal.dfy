/** A group's write-ahead log row: its encoding, and putting a schema into an encoded
    row without decoding it. */
module WalRows {
  import opened Prelude
  import opened MessagePack

  /** A string, as its UTF-8 bytes. */
  type Text = Bytes

  /** A `BTreeMap`: its pairs in key order. */
  type TextMap = seq<(Text, Text)>

  datatype MetricDesc = MetricDesc(name: Text, metadata: TextMap)

  datatype GroupSchema = GroupSchema(counters: seq<MetricDesc>, gauges: seq<MetricDesc>, histograms: seq<MetricDesc>,
                                     gaugeHistograms: seq<MetricDesc>)

  /** A histogram's grouping power, max value power and buckets. */
  datatype Hist = Hist(grouping: u8, max: u8, buckets: seq<u64>)

  datatype Pair = Pair(a: u64, b: u64)

  datatype Row = Row(schemaHash: Pair, schema: Option<GroupSchema>, window: Option<Pair>, counters: seq<Option<u64>>,
                     gauges: seq<Option<i64>>, histograms: seq<Option<Hist>>, gaugeHistograms: seq<Option<Hist>>)

  // ----- What can be encoded: counts that fit a header, maps in key order

  predicate Less(a: Text, b: Text) {
    b != [] && (a == [] || a[0] < b[0] || (a[0] == b[0] && Less(a[1..], b[1..])))
  }

  ghost predicate InKeyOrder(m: TextMap) {
    forall i, j :: 0 <= i < j < |m| ==> Less(m[i].0, m[j].0)
  }

  ghost predicate DescOk(d: MetricDesc) {
    && |d.name| <= MAX_LEN && |d.metadata| <= MAX_LEN && InKeyOrder(d.metadata)
    && forall p :: p in d.metadata ==> |p.0| <= MAX_LEN && |p.1| <= MAX_LEN
  }

  ghost predicate DescsOk(ds: seq<MetricDesc>) {
    |ds| <= MAX_LEN && forall d :: d in ds ==> DescOk(d)
  }

  ghost predicate SchemaOk(s: GroupSchema) {
    DescsOk(s.counters) && DescsOk(s.gauges) && DescsOk(s.histograms) && DescsOk(s.gaugeHistograms)
  }

  ghost predicate HistsOk(hs: seq<Option<Hist>>) {
    |hs| <= MAX_LEN && forall h :: h in hs && h.Some? ==> |h.value.buckets| <= MAX_LEN
  }

  ghost predicate RowOk(r: Row) {
    && (r.schema.Some? ==> SchemaOk(r.schema.value))
    && |r.counters| <= MAX_LEN && |r.gauges| <= MAX_LEN && HistsOk(r.histograms) && HistsOk(r.gaugeHistograms)
  }

  // ----- Encoding

  function EncodePair(p: Pair): Bytes {
    ArrayLen(2) + Uint(p.a) + Uint(p.b)
  }

  function EncodeHist(h: Hist): Bytes {
    ArrayLen(3) + Uint(h.grouping) + Uint(h.max) + Array(Uint, h.buckets)
  }

  function EncodeEntry(p: (Text, Text)): Bytes {
    Str(p.0) + Str(p.1)
  }

  function EncodeDesc(d: MetricDesc): Bytes {
    ArrayLen(2) + Str(d.name) + MapLen(|d.metadata|) + All(EncodeEntry, d.metadata)
  }

  /** The last field is left out when empty. */
  function EncodeSchema(s: GroupSchema): Bytes {
    ArrayLen(if s.gaugeHistograms == [] then 3 else 4)
      + Array(EncodeDesc, s.counters) + Array(EncodeDesc, s.gauges) + Array(EncodeDesc, s.histograms)
      + (if s.gaugeHistograms == [] then [] else Array(EncodeDesc, s.gaugeHistograms))
  }

  function EncodeCounter(v: Option<u64>): Bytes {
    Optional(Uint, v)
  }

  function EncodeGauge(v: Option<i64>): Bytes {
    Optional(Sint, v)
  }

  function EncodeSlot(h: Option<Hist>): Bytes {
    Optional(EncodeHist, h)
  }

  /** A row's bytes before its schema, and after it. */
  function Head(r: Row): Bytes {
    ArrayLen(if r.gaugeHistograms == [] then 6 else 7) + EncodePair(r.schemaHash)
  }

  function Rest(r: Row): Bytes {
    Optional(EncodePair, r.window) + Array(EncodeCounter, r.counters) + Array(EncodeGauge, r.gauges)
      + Array(EncodeSlot, r.histograms)
      + (if r.gaugeHistograms == [] then [] else Array(EncodeSlot, r.gaugeHistograms))
  }

  /** `encode_wal_group_row`. */
  function Encode(r: Row): Bytes {
    Head(r) + Optional(EncodeSchema, r.schema) + Rest(r)
  }

  // ----- Decoding

  function ReadPair(s: Bytes): Parse<Pair> {
    var n := ReadArrayLen(s);
    if n.None? || n.value.0 != 2 then None
    else
      var a := ReadU64(n.value.1);
      if a.None? then None
      else
        var b := ReadU64(a.value.1);
        if b.None? then None else Some((Pair(a.value.0, b.value.0), b.value.1))
  }

  function ReadHist(s: Bytes): Parse<Hist> {
    var n := ReadArrayLen(s);
    if n.None? || n.value.0 != 3 then None
    else
      var g := ReadU8(n.value.1);
      if g.None? then None
      else
        var m := ReadU8(g.value.1);
        if m.None? then None
        else
          var b := ReadArray(ReadU64, m.value.1);
          if b.None? then None else Some((Hist(g.value.0, m.value.0, b.value.0), b.value.1))
  }

  function ReadEntry(s: Bytes): Parse<(Text, Text)> {
    var k := ReadStr(s);
    if k.None? then None
    else
      var v := ReadStr(k.value.1);
      if v.None? then None else Some(((k.value.0, v.value.0), v.value.1))
  }

  /** Insert into a map in key order. */
  function Put(m: TextMap, p: (Text, Text)): TextMap {
    if m == [] then [p]
    else if m[0].0 == p.0 then [p] + m[1..]
    else if Less(p.0, m[0].0) then [p] + m
    else [m[0]] + Put(m[1..], p)
  }

  /** The map of some entries, inserted one after another. */
  function MapOf(es: seq<(Text, Text)>): TextMap {
    if es == [] then [] else Put(MapOf(es[..|es| - 1]), es[|es| - 1])
  }

  function ReadDesc(s: Bytes): Parse<MetricDesc> {
    var n := ReadArrayLen(s);
    if n.None? || n.value.0 != 2 then None
    else
      var name := ReadStr(n.value.1);
      if name.None? then None
      else
        var k := ReadMapLen(name.value.1);
        if k.None? then None
        else
          var es := ReadAll(ReadEntry, k.value.0, k.value.1);
          if es.None? then None else Some((MetricDesc(name.value.0, MapOf(es.value.0)), es.value.1))
  }

  /** The last field when the array has one more element, else empty. */
  function ReadLast<T>(read: Bytes -> Parse<seq<T>>, present: bool, s: Bytes): Parse<seq<T>> {
    if present then read(s) else Some(([], s))
  }

  function ReadDescs(s: Bytes): Parse<seq<MetricDesc>> {
    ReadArray(ReadDesc, s)
  }

  function ReadSchema(s: Bytes): Parse<GroupSchema> {
    var n := ReadArrayLen(s);
    if n.None? || (n.value.0 != 3 && n.value.0 != 4) then None
    else
      var c := ReadDescs(n.value.1);
      if c.None? then None
      else
        var g := ReadDescs(c.value.1);
        if g.None? then None
        else
          var h := ReadDescs(g.value.1);
          if h.None? then None
          else
            var gh := ReadLast(ReadDescs, n.value.0 == 4, h.value.1);
            if gh.None? then None
            else Some((GroupSchema(c.value.0, g.value.0, h.value.0, gh.value.0), gh.value.1))
  }

  function ReadCounter(s: Bytes): Parse<Option<u64>> {
    ReadOptional(ReadU64, s)
  }

  function ReadGauge(s: Bytes): Parse<Option<i64>> {
    ReadOptional(ReadI64, s)
  }

  function ReadSlot(s: Bytes): Parse<Option<Hist>> {
    ReadOptional(ReadHist, s)
  }

  function ReadSlots(s: Bytes): Parse<seq<Option<Hist>>> {
    ReadArray(ReadSlot, s)
  }

  /** The fields after the schema. */
  function ReadRest(hash: Pair, schema: Option<GroupSchema>, gauges: bool, s: Bytes): Parse<Row> {
    var w := ReadOptional(ReadPair, s);
    if w.None? then None
    else
      var c := ReadArray(ReadCounter, w.value.1);
      if c.None? then None
      else
        var g := ReadArray(ReadGauge, c.value.1);
        if g.None? then None
        else
          var h := ReadSlots(g.value.1);
          if h.None? then None
          else
            var gh := ReadLast(ReadSlots, gauges, h.value.1);
            if gh.None? then None
            else
              Some((Row(hash, schema, w.value.0, c.value.0, g.value.0, h.value.0, gh.value.0), gh.value.1))
  }

  /** `decode_wal_group_row`; bytes after the row are ignored. */
  function Decode(s: Bytes): Option<Row> {
    var n := ReadArrayLen(s);
    if n.None? || (n.value.0 != 6 && n.value.0 != 7) then None
    else
      var hash := ReadPair(n.value.1);
      if hash.None? then None
      else
        var schema := ReadOptional(ReadSchema, hash.value.1);
        if schema.None? then None
        else
          var r := ReadRest(hash.value.0, schema.value.0, n.value.0 == 7, schema.value.1);
          if r.None? then None else Some(r.value.0)
  }

  // ----- Decoding undoes encoding

  lemma {:induction false} U64Trip(n: u64, rest: Bytes)
    ensures ReadU64(Uint(n) + rest) == Some((n, rest))
  {
    UintTrip(n, rest);
  }

  lemma {:induction false} I64Trip(n: i64, rest: Bytes)
    ensures ReadI64(Sint(n) + rest) == Some((n, rest))
  {
    SintTrip(n, rest);
  }

  lemma {:induction false} U8Trip(n: u8, rest: Bytes)
    ensures ReadU8(Uint(n) + rest) == Some((n, rest))
  {
    UintTrip(n, rest);
  }

  lemma {:induction false} PairTrip(p: Pair, rest: Bytes)
    ensures ReadPair(EncodePair(p) + rest) == Some((p, rest))
  {
    hide ArrayLen, ReadArrayLen, Uint, ReadU64;
    assert EncodePair(p) + rest == ArrayLen(2) + (Uint(p.a) + (Uint(p.b) + rest));
    ArrayLenTrip(2, Uint(p.a) + (Uint(p.b) + rest));
    U64Trip(p.a, Uint(p.b) + rest);
    U64Trip(p.b, rest);
  }

  lemma {:induction false} HistTrip(h: Hist, rest: Bytes)
    requires |h.buckets| <= MAX_LEN
    ensures ReadHist(EncodeHist(h) + rest) == Some((h, rest))
  {
    hide ArrayLen, ReadArrayLen, Uint, ReadU8, ReadArray, Array, ReadU64;
    var d := Array(Uint, h.buckets) + rest;
    var c := Uint(h.max) + d;
    var b := Uint(h.grouping) + c;
    assert EncodeHist(h) + rest == ArrayLen(3) + b;
    ArrayLenTrip(3, b);
    U8Trip(h.grouping, c);
    U8Trip(h.max, d);
    forall n: u64 | n in h.buckets ensures Undoes(ReadU64, Uint, n) {
      forall rest: Bytes ensures ReadU64(Uint(n) + rest) == Some((n, rest)) {
        U64Trip(n, rest);
      }
    }
    ArrayTrip(ReadU64, Uint, h.buckets, rest);
  }

  lemma {:induction false} EntryTrip(p: (Text, Text), rest: Bytes)
    requires |p.0| <= MAX_LEN && |p.1| <= MAX_LEN
    ensures ReadEntry(EncodeEntry(p) + rest) == Some((p, rest))
  {
    hide Str, ReadStr;
    assert EncodeEntry(p) + rest == Str(p.0) + (Str(p.1) + rest);
    StrTrip(p.0, Str(p.1) + rest);
    StrTrip(p.1, rest);
  }

  lemma {:induction false} LessIsStrict(a: Text, b: Text)
    requires Less(a, b)
    ensures a != b && !Less(b, a)
  {
    if a != [] && a[0] == b[0] {
      LessIsStrict(a[1..], b[1..]);
    }
  }

  lemma {:induction false} PutLast(m: TextMap, p: (Text, Text))
    requires forall q :: q in m ==> Less(q.0, p.0)
    ensures Put(m, p) == m + [p]
  {
    if m != [] {
      assert m[0] in m;
      LessIsStrict(m[0].0, p.0);
      PutLast(m[1..], p);
    }
  }

  lemma {:induction false} BeforeLast(m: TextMap)
    requires InKeyOrder(m) && m != []
    ensures var n := |m| - 1; InKeyOrder(m[..n]) && forall q :: q in m[..n] ==> Less(q.0, m[n].0)
  {
    hide Less;
  }

  /** A map in key order is rebuilt as it was. */
  lemma {:induction false} MapTrip(m: TextMap)
    requires InKeyOrder(m)
    ensures MapOf(m) == m
  {
    hide Put, Less, InKeyOrder;
    if m != [] {
      var n := |m| - 1;
      BeforeLast(m);
      MapTrip(m[..n]);
      PutLast(m[..n], m[n]);
      assert m == m[..n] + [m[n]];
    }
  }

  lemma {:induction false} DescTrip(d: MetricDesc, rest: Bytes)
    requires DescOk(d)
    ensures ReadDesc(EncodeDesc(d) + rest) == Some((d, rest))
  {
    hide ArrayLen, ReadArrayLen, MapLen, ReadMapLen, Str, ReadStr, All, ReadAll, Put, ReadEntry, EncodeEntry;
    var m := All(EncodeEntry, d.metadata) + rest;
    var n := MapLen(|d.metadata|) + m;
    assert EncodeDesc(d) + rest == ArrayLen(2) + (Str(d.name) + n);
    ArrayLenTrip(2, Str(d.name) + n);
    StrTrip(d.name, n);
    MapLenTrip(|d.metadata|, m);
    forall p | p in d.metadata ensures Undoes(ReadEntry, EncodeEntry, p) {
      forall rest: Bytes ensures ReadEntry(EncodeEntry(p) + rest) == Some((p, rest)) {
        EntryTrip(p, rest);
      }
    }
    AllTrip(ReadEntry, EncodeEntry, d.metadata, rest);
    MapTrip(d.metadata);
  }

  lemma {:induction false} DescsTrip(ds: seq<MetricDesc>, rest: Bytes)
    requires DescsOk(ds)
    ensures ReadDescs(Array(EncodeDesc, ds) + rest) == Some((ds, rest))
  {
    hide Array, ReadArray, ReadDesc, EncodeDesc, DescOk;
    forall d | d in ds ensures Undoes(ReadDesc, EncodeDesc, d) {
      forall rest: Bytes ensures ReadDesc(EncodeDesc(d) + rest) == Some((d, rest)) {
        DescTrip(d, rest);
      }
    }
    ArrayTrip(ReadDesc, EncodeDesc, ds, rest);
  }

  lemma {:induction false} SchemaTrip(s: GroupSchema, rest: Bytes)
    requires SchemaOk(s)
    ensures ReadSchema(EncodeSchema(s) + rest) == Some((s, rest))
  {
    hide ArrayLen, ReadArrayLen, Array, ReadDescs, DescsOk;
    var more := s.gaugeHistograms != [];
    var e := (if more then Array(EncodeDesc, s.gaugeHistograms) else []) + rest;
    var d := Array(EncodeDesc, s.histograms) + e;
    var c := Array(EncodeDesc, s.gauges) + d;
    var b := Array(EncodeDesc, s.counters) + c;
    assert EncodeSchema(s) + rest == ArrayLen(if more then 4 else 3) + b;
    ArrayLenTrip(if more then 4 else 3, b);
    DescsTrip(s.counters, c);
    DescsTrip(s.gauges, d);
    DescsTrip(s.histograms, e);
    if more {
      DescsTrip(s.gaugeHistograms, rest);
    } else {
      assert e == rest;
    }
  }

  lemma {:induction false} SlotTrip(h: Option<Hist>, rest: Bytes)
    requires h.Some? ==> |h.value.buckets| <= MAX_LEN
    ensures ReadSlot(EncodeSlot(h) + rest) == Some((h, rest))
  {
    hide ReadHist, Uint, Array;
    if h.Some? {
      forall rest: Bytes ensures ReadHist(EncodeHist(h.value) + rest) == Some((h.value, rest)) {
        HistTrip(h.value, rest);
      }
    }
    OptionalTrip(ReadHist, EncodeHist, h, rest);
  }

  lemma {:induction false} SlotsTrip(hs: seq<Option<Hist>>, rest: Bytes)
    requires HistsOk(hs)
    ensures ReadSlots(Array(EncodeSlot, hs) + rest) == Some((hs, rest))
  {
    hide Array, ReadArray, ReadSlot, EncodeSlot;
    forall h | h in hs ensures Undoes(ReadSlot, EncodeSlot, h) {
      forall rest: Bytes ensures ReadSlot(EncodeSlot(h) + rest) == Some((h, rest)) {
        SlotTrip(h, rest);
      }
    }
    ArrayTrip(ReadSlot, EncodeSlot, hs, rest);
  }

  lemma {:induction false} IntIsNotNil(n: i64)
    ensures Uint(if n >= 0 then n else 0)[0] != NIL && Sint(n) != [] && Sint(n)[0] != NIL
  {
    hide BigEndian;
  }

  lemma {:induction false} UintIsNotNil(n: u64)
    ensures Uint(n) != [] && Uint(n)[0] != NIL
  {
    hide BigEndian;
  }

  lemma {:induction false} CountersTrip(vs: seq<Option<u64>>, rest: Bytes)
    requires |vs| <= MAX_LEN
    ensures ReadArray(ReadCounter, Array(EncodeCounter, vs) + rest) == Some((vs, rest))
  {
    hide Array, ReadArray, ReadU64, Uint;
    forall v | v in vs ensures Undoes(ReadCounter, EncodeCounter, v) {
      forall rest: Bytes ensures ReadCounter(EncodeCounter(v) + rest) == Some((v, rest)) {
        if v.Some? {
          UintIsNotNil(v.value);
          forall rest: Bytes ensures ReadU64(Uint(v.value) + rest) == Some((v.value, rest)) {
            U64Trip(v.value, rest);
          }
        }
        OptionalTrip(ReadU64, Uint, v, rest);
      }
    }
    ArrayTrip(ReadCounter, EncodeCounter, vs, rest);
  }

  lemma {:induction false} GaugesTrip(vs: seq<Option<i64>>, rest: Bytes)
    requires |vs| <= MAX_LEN
    ensures ReadArray(ReadGauge, Array(EncodeGauge, vs) + rest) == Some((vs, rest))
  {
    hide Array, ReadArray, ReadI64, Sint;
    forall v | v in vs ensures Undoes(ReadGauge, EncodeGauge, v) {
      forall rest: Bytes ensures ReadGauge(EncodeGauge(v) + rest) == Some((v, rest)) {
        if v.Some? {
          IntIsNotNil(v.value);
          forall rest: Bytes ensures ReadI64(Sint(v.value) + rest) == Some((v.value, rest)) {
            I64Trip(v.value, rest);
          }
        }
        OptionalTrip(ReadI64, Sint, v, rest);
      }
    }
    ArrayTrip(ReadGauge, EncodeGauge, vs, rest);
  }

  lemma {:induction false} RestTrip(r: Row)
    requires RowOk(r)
    ensures ReadRest(r.schemaHash, r.schema, r.gaugeHistograms != [], Rest(r)) == Some((r, []))
  {
    hide Array, ReadArray, ReadOptional, Optional, ReadSlots, EncodePair, ReadPair, SchemaOk, HistsOk;
    var more := r.gaugeHistograms != [];
    var e := if more then Array(EncodeSlot, r.gaugeHistograms) else [];
    var d := Array(EncodeSlot, r.histograms) + e;
    var c := Array(EncodeGauge, r.gauges) + d;
    var b := Array(EncodeCounter, r.counters) + c;
    assert Rest(r) == Optional(EncodePair, r.window) + b;
    WindowTrip(r.window, b);
    CountersTrip(r.counters, c);
    GaugesTrip(r.gauges, d);
    SlotsTrip(r.histograms, e);
    if more {
      SlotsTrip(r.gaugeHistograms, []);
      assert e + [] == e;
    }
  }

  lemma {:induction false} WindowTrip(w: Option<Pair>, rest: Bytes)
    ensures ReadOptional(ReadPair, Optional(EncodePair, w) + rest) == Some((w, rest))
  {
    hide ReadPair, Uint;
    if w.Some? {
      forall rest: Bytes ensures ReadPair(EncodePair(w.value) + rest) == Some((w.value, rest)) {
        PairTrip(w.value, rest);
      }
    }
    OptionalTrip(ReadPair, EncodePair, w, rest);
  }

  lemma {:induction false} AnchorTrip(s: Option<GroupSchema>, rest: Bytes)
    requires s.Some? ==> SchemaOk(s.value)
    ensures ReadOptional(ReadSchema, Optional(EncodeSchema, s) + rest) == Some((s, rest))
  {
    hide ReadSchema, Array, SchemaOk;
    if s.Some? {
      forall rest: Bytes ensures ReadSchema(EncodeSchema(s.value) + rest) == Some((s.value, rest)) {
        SchemaTrip(s.value, rest);
      }
    }
    OptionalTrip(ReadSchema, EncodeSchema, s, rest);
  }

  /** Decoding an encoded row gives the row. */
  lemma {:induction false} RoundTrip(r: Row)
    requires RowOk(r)
    ensures Decode(Encode(r)) == Some(r)
  {
    hide ArrayLen, ReadArrayLen, EncodePair, ReadPair, Optional, ReadOptional, Rest, ReadRest, SchemaOk;
    var n := if r.gaugeHistograms == [] then 6 else 7;
    var c := Optional(EncodeSchema, r.schema) + Rest(r);
    var b := EncodePair(r.schemaHash) + c;
    assert Encode(r) == ArrayLen(n) + b;
    ArrayLenTrip(n, b);
    PairTrip(r.schemaHash, c);
    AnchorTrip(r.schema, Rest(r));
    RestTrip(r);
  }

  // ----- Putting a schema into an encoded row

  /** What is left after a schema-less row's head: its array header and the hash. */
  function AfterHead(payload: Bytes): Option<Bytes> {
    var n := ReadArrayLen(payload);
    if n.None? || (n.value.0 != 6 && n.value.0 != 7) then None
    else
      var hash := ReadPair(n.value.1);
      if hash.None? then None else Some(hash.value.1)
  }

  lemma {:induction false} ShorterInt(s: Bytes)
    ensures Int(s).Some? ==> |Int(s).value.1| < |s|
  {
    hide FromBigEndian;
  }

  lemma {:induction false} ShorterArrayLen(s: Bytes)
    ensures ReadArrayLen(s).Some? ==> |ReadArrayLen(s).value.1| < |s|
  {
    hide FromBigEndian;
  }

  /** The offset of a payload's nil, if it is a row's head followed by one. */
  method SchemaNilOffset(payload: Bytes) returns (at: Option<nat>)
    ensures var rest := AfterHead(payload);
            at == if rest.Some? && rest.value != [] && rest.value[0] == NIL then Some(|payload| - |rest.value|) else None
    ensures at.Some? ==> at.value < |payload|
  {
    hide ReadArrayLen, Int;
    var rest := payload;
    ShorterArrayLen(rest);
    var n := ReadArrayLen(rest);
    if n.None? || (n.value.0 != 6 && n.value.0 != 7) {
      return None;
    }
    rest := n.value.1;
    ShorterArrayLen(rest);
    var two := ReadArrayLen(rest);
    if two.None? || two.value.0 != 2 {
      return None;
    }
    rest := two.value.1;
    ShorterInt(rest);
    var a := ReadU64(rest);
    if a.None? {
      return None;
    }
    rest := a.value.1;
    ShorterInt(rest);
    var b := ReadU64(rest);
    if b.None? {
      return None;
    }
    rest := b.value.1;
    var offset := |payload| - |rest|;
    at := if rest != [] && rest[0] == NIL then Some(offset) else None;
  }

  lemma {:induction false} SchemaStart(s: Option<GroupSchema>)
    ensures var e := Optional(EncodeSchema, s); e != [] && (e[0] == NIL <==> s.None?)
  {
    hide Array, BigEndian;
    if s.Some? {
      var rest := EncodeSchema(s.value)[1..];
      assert EncodeSchema(s.value)[0] == (if s.value.gaugeHistograms == [] then 0x93 else 0x94);
    }
  }

  lemma {:induction false} AfterHeadIs(r: Row)
    ensures AfterHead(Encode(r)) == Some(Optional(EncodeSchema, r.schema) + Rest(r))
    ensures Encode(r) == Head(r) + (Optional(EncodeSchema, r.schema) + Rest(r))
  {
    hide ArrayLen, ReadArrayLen, EncodePair, ReadPair, Rest, Optional;
    var n := if r.gaugeHistograms == [] then 6 else 7;
    var c := Optional(EncodeSchema, r.schema) + Rest(r);
    assert Encode(r) == ArrayLen(n) + (EncodePair(r.schemaHash) + c);
    ArrayLenTrip(n, EncodePair(r.schemaHash) + c);
    PairTrip(r.schemaHash, c);
  }

  /** After an encoded row's head is its schema, nil exactly when it has none. */
  lemma {:induction false} HeadSplits(r: Row)
    ensures var rest := Optional(EncodeSchema, r.schema) + Rest(r);
            && AfterHead(Encode(r)) == Some(rest) && |Encode(r)| == |Head(r)| + |rest|
            && rest != [] && (rest[0] == NIL <==> r.schema.None?)
  {
    hide AfterHead, Encode, Head, Rest, Optional;
    AfterHeadIs(r);
    SchemaStart(r.schema);
  }

  lemma {:induction false} SameAround(r: Row, schema: GroupSchema)
    ensures var s := r.(schema := Some(schema)); Head(s) == Head(r) && Rest(s) == Rest(r)
  {
    hide Array, Optional, ArrayLen, EncodePair;
  }

  /** The splice into a schema-less row's bytes. */
  lemma {:induction false} SpliceIsEncode(r: Row, schema: GroupSchema)
    requires r.schema.None?
    ensures var at := |Head(r)|;
            && at < |Encode(r)|
            && Encode(r)[..at] + EncodeSchema(schema) + Encode(r)[at + 1..] == Encode(r.(schema := Some(schema)))
  {
    hide EncodeSchema, Rest, Head;
    SameAround(r, schema);
    var at := |Head(r)|;
    assert Encode(r) == Head(r) + ([NIL] + Rest(r));
    assert Encode(r)[..at] == Head(r) && Encode(r)[at + 1..] == Rest(r);
  }

  /** `payload` with `schema` put in. For every row, schema-less or not, the bytes are
      those of encoding the row with the schema. */
  method EncodeWithSchema(payload: Bytes, schema: GroupSchema) returns (out: Option<Bytes>)
    ensures forall r :: RowOk(r) && payload == Encode(r) ==> out == Some(Encode(r.(schema := Some(schema))))
    ensures out.None? ==> Decode(payload) == None
  {
    hide Encode, Decode, EncodeSchema, AfterHead, RowOk, Head, Rest;
    var at := SchemaNilOffset(payload);
    if at.Some? {
      var bytes := payload[..at.value];
      bytes := bytes + EncodeSchema(schema);
      bytes := bytes + payload[at.value + 1..];
      forall r | RowOk(r) && payload == Encode(r) ensures bytes == Encode(r.(schema := Some(schema))) {
        HeadSplits(r);
        SpliceIsEncode(r, schema);
      }
      return Some(bytes);
    }
    var row := Decode(payload);
    forall r | RowOk(r) && payload == Encode(r) ensures row == Some(r) {
      RoundTrip(r);
    }
    out := if row.None? then None else Some(Encode(row.value.(schema := Some(schema))));
  }

  // ----- The formats themselves

  /** The integer formats, of their first byte and the value that follows it. */
  lemma {:induction false} UintFormat(n: u64)
    ensures var b := Uint(n);
            if n < 128 then b == [n]
            else
              && b[0] == (if n < 256 then 0xcc else if n < 65536 then 0xcd else if n < 0x1_0000_0000 then 0xce else 0xcf)
              && |b| == (if n < 256 then 2 else if n < 65536 then 3 else if n < 0x1_0000_0000 then 5 else 9)
              && FromBigEndian(b[1..]) == n
  {
    Radixes();
    if n >= 128 {
      var k := if n < 256 then 1 else if n < 65536 then 2 else if n < 0x1_0000_0000 then 4 else 8;
      BigEndianTrip(n, k);
      hide BigEndian;
      assert Uint(n)[1..] == BigEndian(n, k);
    }
  }

  /** One row's bytes: two counters of which one is absent, a gauge of -1 and no histograms,
      without schema or window. */
  lemma {:induction false} KnownRow()
    ensures Encode(Row(Pair(1, 300), None, None, [Some(5), None], [Some(-1)], [], [])) ==
            [0x96, 0x92, 0x01, 0xcd, 0x01, 0x2c, 0xc0, 0xc0, 0x92, 0x05, 0xc0, 0x91, 0xff, 0x90]
  {
    KnownNumbers();
    hide BigEndian, EncodeCounter, EncodeGauge, Uint, Sint;
    var r := Row(Pair(1, 300), None, None, [Some(5), None], [Some(-1)], [], []);
    assert Head(r) == [0x96, 0x92, 0x01, 0xcd, 0x01, 0x2c];
    assert Rest(r) == [0xc0, 0x92, 0x05, 0xc0, 0x91, 0xff, 0x90];
  }

  lemma {:induction false} KnownNumbers()
    ensures Uint(1) == [0x01] && Uint(300) == [0xcd, 0x01, 0x2c]
    ensures All(EncodeCounter, [Some(5), None]) == [0x05, 0xc0] && All(EncodeGauge, [Some(-1)]) == [0xff]
  {
    assert BigEndian(300, 2) == [0x01, 0x2c];
    assert All(EncodeCounter, [Some(5), None][1..][1..]) == [];
    assert All(EncodeCounter, [Some(5), None][1..]) == [0xc0];
    assert All(EncodeCounter, [Some(5), None]) == [0x05, 0xc0];
    assert All(EncodeGauge, [Some(-1)][1..]) == [];
    assert All(EncodeGauge, [Some(-1)]) == [0xff];
  }
}
