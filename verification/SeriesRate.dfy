/** The rate of a series from its samples as they come. The class holds what the
    source holds (a probe, a trimmed queue, a cached edge, a grid cursor); its
    contract says that what it emits is `RateSpec.Rate` of every sample pushed. */
module StreamingRate {
  import opened Prelude
  import opened Arithmetic
  import opened RateSpec

  // ----- What the trimmed queue still answers

  /** `edge` over the kept samples, when the first and last samples read are at
      `first` and `last`. */
  function EdgeOver(windowed: bool, typical: u64, ks: seq<Kept>, first: u64, last: u64, e: u64): Edge
  {
    if e < first || last < e then NO_EDGE
    else
      var hi := Before(ks, e);
      if hi == |ks| then NO_EDGE
      else if ks[hi].ts == e then AtSample(windowed, ks[hi])
      else if hi == 0 then NO_EDGE
      else Between(windowed, typical, ks[hi - 1], ks[hi], e)
  }

  /** `kept` is all of `ks` but its first `d`. */
  ghost predicate Tail(ks: seq<Kept>, d: nat, kept: seq<Kept>) {
    d + |kept| == |ks| && forall i :: 0 <= i < |kept| ==> kept[i] == ks[d + i]
  }

  /** The first `d` samples can be dropped when no window starting at `low` or
      later reads them: the first one kept is at or before `low`, or (a `rate`)
      every sample before its time is out of reach of `low`. */
  ghost predicate Droppable(su: Setup, ks: seq<Kept>, d: nat, low: u64)
    requires d < |ks|
  {
    || d == 0
    || ks[d].ts <= low
    || (su.grid.range && exists b :: 0 <= b <= d && OutOfReach(ks, b, d, su.reach, low))
  }

  ghost predicate OutOfReach(ks: seq<Kept>, b: nat, d: nat, reach: u64, low: u64)
    requires b <= d < |ks|
  {
    ks[b].ts == ks[d].ts && (b > 0 ==> ks[b - 1].ts <= low && low - ks[b - 1].ts > reach)
  }

  lemma {:induction false} TailOrdered(ks: seq<Kept>, d: nat, kept: seq<Kept>)
    requires Ordered(ks) && Tail(ks, d, kept)
    ensures Ordered(kept)
  {
  }

  lemma {:induction false} DroppableLater(su: Setup, ks: seq<Kept>, d: nat, low: u64, low': u64)
    requires Ordered(ks) && d < |ks| && low <= low' && Droppable(su, ks, d, low)
    ensures Droppable(su, ks, d, low')
  {
    if d > 0 && ks[d].ts > low {
      var b :| 0 <= b <= d && OutOfReach(ks, b, d, su.reach, low);
      assert OutOfReach(ks, b, d, su.reach, low');
    }
  }

  lemma {:induction false} DroppableAppend(su: Setup, ks: seq<Kept>, k: Kept, d: nat, low: u64)
    requires d < |ks| && Droppable(su, ks, d, low)
    ensures Droppable(su, ks + [k], d, low)
  {
    if d > 0 && ks[d].ts > low {
      var b :| 0 <= b <= d && OutOfReach(ks, b, d, su.reach, low);
      assert OutOfReach(ks + [k], b, d, su.reach, low);
    }
  }

  /** Trimming never changes where a later window starts. */
  lemma {:induction false} RangeStartOfTail(su: Setup, ks: seq<Kept>, d: nat, kept: seq<Kept>, low: u64, from: u64, at: u64)
    requires Ordered(ks) && Ordered(kept) && Tail(ks, d, kept) && kept != [] && su.grid.range
    requires Droppable(su, ks, d, low) && low <= from
    ensures RangeStart(kept, from, at, su.reach) == RangeStart(ks, from, at, su.reach)
  {
    if ks[d].ts <= from || d == 0 {
      UpToOfTail(ks, d, kept, from);
      var n := UpTo(kept, from);
      assert n < |kept| ==> kept[n] == ks[d + n];
      assert n > 0 ==> kept[n - 1] == ks[d + n - 1];
    } else {
      hide FirstFrom;
      var b :| 0 <= b <= d && OutOfReach(ks, b, d, su.reach, low);
      BeforeIs(ks, from + 1, b);
      BeforeIs(kept, from + 1, 0);
      assert kept[0] == ks[d];
    }
  }

  lemma {:induction false} UpToOfTail(ks: seq<Kept>, d: nat, kept: seq<Kept>, from: u64)
    requires Ordered(ks) && Tail(ks, d, kept) && kept != []
    requires ks[d].ts <= from || d == 0
    ensures UpTo(ks, from) == d + UpTo(kept, from)
    ensures d > 0 ==> UpTo(kept, from) > 0
  {
    hide FirstFrom;
    var n := UpTo(kept, from);
    assert n < |kept| ==> kept[n] == ks[d + n];
    assert n > 0 ==> kept[n - 1] == ks[d + n - 1];
    assert kept[0] == ks[d];
    BeforeIs(ks, from + 1, d + n);
  }

  /** After trimming to a window start the queue still allows every later one. */
  lemma {:induction false} DroppableAfterTrim(su: Setup, ks: seq<Kept>, d: nat, d': nat, low: u64, from: u64, at: u64)
    requires Ordered(ks) && d <= d' < |ks| && low <= from
    requires Droppable(su, ks, d, low)
    requires var start := if su.grid.range then RangeStart(ks, from, at, su.reach) else Some(from);
             start.Some? && (d < d' ==> ks[d'].ts <= start.value)
    ensures Droppable(su, ks, d', from)
  {
    DroppableLater(su, ks, d, low, from);
    if d < d' && ks[d'].ts > from {
      var i := UpTo(ks, from);
      assert ks[i].ts <= ks[d'].ts;
      assert OutOfReach(ks, i, d', su.reach, from);
    }
  }

  /** The right edge read off the queue is the right edge of every sample. */
  lemma {:induction false} RightEdgeOfTail(windowed: bool, typical: u64, ks: seq<Kept>, d: nat, kept: seq<Kept>, e: u64)
    requires Ordered(ks) && Ordered(kept) && Tail(ks, d, kept) && kept != []
    requires ks[d].ts < e <= ks[|ks| - 1].ts
    ensures EdgeOver(windowed, typical, kept, ks[0].ts, ks[|ks| - 1].ts, e)
         == RightEdge(windowed, typical, ks, e)
  {
    var n := Before(kept, e);
    assert kept[0] == ks[d] && kept[|kept| - 1] == ks[|ks| - 1] && ks[0].ts <= ks[d].ts;
    assert kept[n] == ks[d + n] && kept[n - 1] == ks[d + n - 1];
    BeforeIs(ks, e, d + n);
  }

  /** The left edge read off the trimmed queue is the left edge of every sample. */
  lemma {:induction false} LeftEdgeOfTail(windowed: bool, typical: u64, ks: seq<Kept>, d: nat, kept: seq<Kept>, e: u64)
    requires Ordered(ks) && Ordered(kept) && Tail(ks, d, kept) && kept != []
    requires e <= ks[|ks| - 1].ts
    requires |kept| > 1 ==> kept[1].ts > e
    requires ks[d].ts <= e || d == 0
    ensures EdgeOver(windowed, typical, kept, ks[0].ts, ks[|ks| - 1].ts, e)
         == LeftEdge(windowed, typical, ks, e)
  {
    assert kept[0] == ks[d] && ks[0].ts <= ks[d].ts;
    assert |kept| > 1 ==> kept[1] == ks[d + 1];
    if ks[d].ts <= e {
      BeforeIs(ks, e + 1, d + 1);
      BeforeIs(kept, e, if ks[d].ts == e then 0 else 1);
    } else {
      BeforeIs(ks, e + 1, 0);
    }
  }

  /** With no two samples at `e` the two edges are one. */
  lemma {:induction false} EdgesAgree(windowed: bool, typical: u64, ks: seq<Kept>, e: u64)
    requires Ordered(ks) && ks != [] && e <= ks[|ks| - 1].ts
    requires |ks| > 1 ==> ks[|ks| - 2].ts < e
    ensures RightEdge(windowed, typical, ks, e) == LeftEdge(windowed, typical, ks, e)
  {
    var n := |ks| - 1;
    BeforeIs(ks, e, n);
    BeforeIs(ks, e + 1, if ks[n].ts == e then n + 1 else n);
  }

  /** Past the last sample of a series that is not held there is no point. */
  lemma {:induction false} NothingPast(su: Setup, typical: u64, ks: seq<Kept>, t: u64)
    requires ks != [] && t > ks[|ks| - 1].ts
    requires !(|ks| >= 2 && SatSub(su.grid.end, ks[|ks| - 1].ts) <= typical)
    ensures PointAt(su, typical, ks, t) == None
  {
  }

  lemma {:induction false} NothingFollows(su: Setup, typical: u64, ks: seq<Kept>, m: nat, n: nat)
    requires ks != [] && su.grid.step > 0 && m <= n <= su.grid.Count()
    requires su.grid.Time(m) > ks[|ks| - 1].ts
    requires !(|ks| >= 2 && SatSub(su.grid.end, ks[|ks| - 1].ts) <= typical)
    ensures Points(su, typical, ks, n) == Points(su, typical, ks, m)
  {
    hide PointAt;
    if m < n {
      NothingFollows(su, typical, ks, m, n - 1);
      TimeIsMonotone(su.grid, m, n - 1);
      Counted(su.grid, n - 1);
      NothingPast(su, typical, ks, su.grid.Time(n - 1));
    }
  }

  // ----- What a series' fields are, once the samples ingested are `ks`

  /** What ingesting samples leaves: their count, the last value, the running
      total, the first and last times, the queue, and the last edge evaluated. */
  datatype Intake = Intake(pulled: nat, prev: Option<u64>, acc: real, first: Option<u64>, last: Option<u64>,
                           kept: seq<Kept>, edge: Option<(u64, Edge)>)

  const NO_INTAKE := Intake(0, None, 0.0, None, None, [], None)

  /** The running count and total are those of `fed`. */
  ghost predicate CountOk(x: Intake, fed: seq<Sample>) {
    && x.pulled == |fed|
    && x.acc == Total(fed)
    && x.prev == (if fed == [] then None else Some(fed[|fed| - 1].value))
  }

  /** The queue keeps all but the first `d` of `ks`. */
  ghost predicate QueueOk(su: Setup, ks: seq<Kept>, x: Intake, d: nat, low: u64) {
    if ks == [] then x.kept == [] && x.first == None && x.last == None && d == 0 && low == 0
    else
      && x.first == Some(ks[0].ts) && x.last == Some(ks[|ks| - 1].ts)
      && d < |ks| && Tail(ks, d, x.kept)
      && Droppable(su, ks, d, low) && low <= ks[|ks| - 1].ts
  }

  /** The cached edge is the left edge at its time; when `held`, past the last
      sample, it may be the right edge there instead. */
  ghost predicate CacheOk(su: Setup, typical: u64, ks: seq<Kept>, cache: Option<(u64, Edge)>, held: bool) {
    cache.Some? ==>
      && ks != [] && cache.value.0 <= ks[|ks| - 1].ts
      && (|| cache.value.1 == LeftEdge(su.windowed, typical, ks, cache.value.0)
          || (held && cache.value.0 == ks[|ks| - 1].ts))
  }

  /** The points of the first `n` grid points are what has been emitted; unless
      `held`, these grid points are at or before the last sample. */
  ghost predicate EmittedOk(su: Setup, typical: u64, ks: seq<Kept>, n: nat, emitted: seq<Emission>, held: bool) {
    && su.grid.Valid() && su.grid.step > 0 && n <= su.grid.Count()
    && (n > 0 ==> ks != [] && (held || su.grid.Time(n - 1) <= ks[|ks| - 1].ts))
    && emitted == Points(su, typical, ks, n)
  }

  lemma {:induction false} QueueAppend(su: Setup, ks: seq<Kept>, k: Kept, x: Intake, x': Intake, d: nat, low: u64)
    requires Ordered(ks + [k]) && QueueOk(su, ks, x, d, low)
    requires x'.kept == x.kept + [k] && x'.last == Some(k.ts)
    requires x'.first == if x.first.None? then Some(k.ts) else x.first
    ensures QueueOk(su, ks + [k], x', d, low)
  {
    if ks != [] {
      OrderedPrefix(ks, k);
      DroppableAppend(su, ks, k, d, low);
    }
  }

  lemma {:induction false} CacheAppend(su: Setup, typical: u64, ks: seq<Kept>, k: Kept, cache: Option<(u64, Edge)>)
    requires Ordered(ks) && Ordered(ks + [k]) && CacheOk(su, typical, ks, cache, false)
    requires cache.Some? ==> cache.value.0 != k.ts
    ensures CacheOk(su, typical, ks + [k], cache, false)
  {
    hide AtSample, Between;
    if cache.Some? {
      OrderedPrefix(ks, k);
      LeftEdgeAppend(su.windowed, typical, ks, k, cache.value.0);
    }
  }

  lemma {:induction false} EmittedAppend(su: Setup, typical: u64, ks: seq<Kept>, k: Kept, n: nat, emitted: seq<Emission>)
    requires Ordered(ks) && Ordered(ks + [k]) && EmittedOk(su, typical, ks, n, emitted, false)
    ensures EmittedOk(su, typical, ks + [k], n, emitted, false)
  {
    hide PointAt;
    OrderedPrefix(ks, k);
    PointsAppend(su, typical, ks, k, n);
    assert (ks + [k])[|ks|] == k;
  }

  /** The intake after one more sample. */
  function Ingested(x: Intake, s: Sample): Intake {
    var acc := if x.prev.Some? then x.acc + Increase(x.prev.value, s.value) as real else x.acc;
    Intake(x.pulled + 1, Some(s.value), acc,
           if x.first.None? then Some(s.ts) else x.first, Some(s.ts),
           x.kept + [Kept(s.ts, acc, s.window)],
           if x.edge.Some? && x.edge.value.0 == s.ts then None else x.edge)
  }

  /** Streaming, the samples ingested being `fed`: `d` of them dropped, no later
      window before `low`, `n` grid points decided. */
  ghost predicate Streaming(su: Setup, typical: u64, fed: seq<Sample>, x: Intake, d: nat, low: u64, n: nat,
                            emitted: seq<Emission>, held: bool)
  {
    && InOrder(fed) && CountOk(x, fed)
    && QueueOk(su, KeptAll(fed), x, d, low)
    && CacheOk(su, typical, KeptAll(fed), x.edge, held)
    && EmittedOk(su, typical, KeptAll(fed), n, emitted, held)
  }

  lemma {:induction false} PrefixFollows(s: seq<Sample>, i: nat)
    requires InOrder(s) && i < |s|
    ensures Follows(s[..i], s[i]) && s[..i + 1] == s[..i] + [s[i]]
  {
  }

  lemma {:induction false} NoneStreaming(su: Setup, typical: u64)
    requires su.grid.Valid() && su.grid.step > 0
    ensures Streaming(su, typical, [], NO_INTAKE, 0, 0, 0, [], false)
  {
  }

  lemma {:induction false} StreamingAppend(su: Setup, typical: u64, fed: seq<Sample>, s: Sample, x: Intake, d: nat, low: u64, n: nat,
                        emitted: seq<Emission>)
    requires Streaming(su, typical, fed, x, d, low, n, emitted, false) && Follows(fed, s)
    ensures Streaming(su, typical, fed + [s], Ingested(x, s), d, low, n, emitted, false)
    ensures fed == [] ==> low == 0
  {
    hide LeftEdge, Points, PointAt, Droppable;
    var ks, x' := KeptAll(fed), Ingested(x, s);
    var k := Kept(s.ts, x'.acc, s.window);
    SamplesAppend(fed, s);
    KeptAllOrdered(fed);
    KeptAllOrdered(fed + [s]);
    KeptAllAppend(fed, s);
    assert KeptAll(fed + [s]) == ks + [k];
    QueueAppend(su, ks, k, x, x', d, low);
    EmittedAppend(su, typical, ks, k, n, emitted);
    CacheAppend(su, typical, ks, k, x'.edge);
  }

  /** What streaming says of the fields a step reads. */
  lemma {:induction false} StreamingFacts(su: Setup, typical: u64, fed: seq<Sample>, x: Intake, d: nat, low: u64, n: nat,
                       emitted: seq<Emission>, held: bool)
    requires Streaming(su, typical, fed, x, d, low, n, emitted, held)
    ensures InOrder(fed) && Ordered(KeptAll(fed)) && x.pulled == |fed|
    ensures su.grid.Valid() && su.grid.step > 0 && n <= su.grid.Count()
    ensures emitted == Points(su, typical, KeptAll(fed), n)
    ensures fed != [] ==>
              && x.first == Some(KeptAll(fed)[0].ts) && x.last == Some(fed[|fed| - 1].ts)
              && KeptAll(fed)[|fed| - 1].ts == fed[|fed| - 1].ts
              && x.kept != [] && x.kept[|x.kept| - 1].ts == fed[|fed| - 1].ts && Tail(KeptAll(fed), d, x.kept)
    ensures |fed| > 1 ==> KeptAll(fed)[|fed| - 2].ts == fed[|fed| - 2].ts
    ensures held || Streaming(su, typical, fed, x, d, low, n, emitted, true)
  {
    hide Points, LeftEdge, Droppable;
    KeptAllOrdered(fed);
    if |fed| > 1 {
      KeptAllAt(fed, |fed| - 2);
    }
  }

  /** The window starts where the whole sample list says. */
  lemma {:induction false} StartFromTail(su: Setup, typical: u64, fed: seq<Sample>, x: Intake, d: nat, low: u64, n: nat,
                      emitted: seq<Emission>, held: bool, at: u64)
    requires Streaming(su, typical, fed, x, d, low, n, emitted, held) && fed != []
    requires low <= SatSub(at, su.grid.span)
    ensures (if su.grid.range then RangeStart(x.kept, SatSub(at, su.grid.span), at, su.reach)
             else Some(SatSub(at, su.grid.span)))
         == WindowStart(su, KeptAll(fed), at)
  {
    hide Points, LeftEdge;
    KeptAllOrdered(fed);
    TailOrdered(KeptAll(fed), d, x.kept);
    if su.grid.range {
      RangeStartOfTail(su, KeptAll(fed), d, x.kept, low, SatSub(at, su.grid.span), at);
    }
  }

  /** `kept`, all of `ks` but its first `d'`, is what trimming to `from` leaves. */
  ghost predicate Trimmed(ks: seq<Kept>, d: nat, d': nat, kept: seq<Kept>, from: u64) {
    && d <= d' < |ks| && Tail(ks, d', kept)
    && (d < d' ==> ks[d'].ts <= from)
    && (|kept| > 1 ==> kept[1].ts > from)
  }

  /** The edge at a window's start: the cached one when it is at that time. */
  function LeftOf(windowed: bool, typical: u64, kept: seq<Kept>, first: u64, last: u64,
                  cache: Option<(u64, Edge)>, from: u64): Edge
  {
    if cache.Some? && cache.value.0 == from then cache.value.1
    else EdgeOver(windowed, typical, kept, first, last, from)
  }

  lemma {:induction false} StartIsRead(su: Setup, ks: seq<Kept>, d: nat, low: u64, at: u64, from: u64)
    requires Ordered(ks) && d < |ks| && Droppable(su, ks, d, low) && low <= SatSub(at, su.grid.span)
    requires WindowStart(su, ks, at) == Some(from)
    ensures ks[d].ts <= from || d == 0
  {
    if d > 0 && ks[d].ts > low {
      var b :| 0 <= b <= d && OutOfReach(ks, b, d, su.reach, low);
      var raw := SatSub(at, su.grid.span);
      if raw < ks[d].ts {
        BeforeIs(ks, raw + 1, b);
      }
    }
  }

  /** The window's edges, read off the trimmed queue and the cache, are those of
      every sample. */
  lemma {:induction false} WindowIsWhole(su: Setup, typical: u64, ks: seq<Kept>, x: Intake, d: nat, low: u64, held: bool,
                      d': nat, kept: seq<Kept>, at: u64, from: u64, t: u64)
    requires su.grid.Valid() && Ordered(ks) && ks != []
    requires QueueOk(su, ks, x, d, low) && CacheOk(su, typical, ks, x.edge, held)
    requires at <= ks[|ks| - 1].ts && low <= SatSub(at, su.grid.span)
    requires WindowStart(su, ks, at) == Some(from)
    requires Trimmed(ks, d, d', kept, from)
    requires if held then at == ks[|ks| - 1].ts else |ks| > 1 ==> ks[|ks| - 2].ts < at
    ensures var right := EdgeOver(su.windowed, typical, kept, ks[0].ts, ks[|ks| - 1].ts, at);
            var left := LeftOf(su.windowed, typical, kept, ks[0].ts, ks[|ks| - 1].ts, x.edge, from);
            && PointOf(su.windowed, left, right, at, from, t)
               == PointOf(su.windowed, LeftEdge(su.windowed, typical, ks, from),
                          RightEdge(su.windowed, typical, ks, at), at, from, t)
            && CacheOk(su, typical, ks, Some((at, right)), held)
  {
    hide Between, AtSample, RangeStart, Droppable;
    TailOrdered(ks, d', kept);
    StartIsRead(su, ks, d, low, at, from);
    WindowStartBefore(su, ks, at);
    if from < at {
      assert kept[0] == ks[d'];
      LeftEdgeOfTail(su.windowed, typical, ks, d', kept, from);
      if ks[d'].ts < at {
        RightEdgeOfTail(su.windowed, typical, ks, d', kept, at);
      } else {
        BeforeIs(ks, at, d');
        BeforeIs(kept, at, 0);
      }
      if !held {
        EdgesAgree(su.windowed, typical, ks, at);
      }
    } else if !held {
      LeftEdgeOfTail(su.windowed, typical, ks, d', kept, at);
    }
  }

  /** The window `[from, at]` of the point at `t` is decided: what the step
      leaves behind is what streaming with one more grid point decided is. */
  lemma {:induction false} StreamingStep(su: Setup, typical: u64, fed: seq<Sample>, x: Intake, d: nat, low: u64, n: nat,
                      emitted: seq<Emission>, held: bool, x': Intake, d': nat, low': u64, p: Option<Point>)
    requires Streaming(su, typical, fed, x, d, low, n, emitted, held) && fed != []
    requires n < su.grid.Count() && 0 <= su.grid.Time(n) <= su.grid.end
    requires held || su.grid.Time(n) <= fed[|fed| - 1].ts
    requires p == PointAt(su, typical, KeptAll(fed), su.grid.Time(n))
    requires x' == x.(kept := x'.kept, edge := x'.edge)
    requires QueueOk(su, KeptAll(fed), x', d', low')
    requires CacheOk(su, typical, KeptAll(fed), x'.edge, held)
    ensures Streaming(su, typical, fed, x', d', low', n + 1, emitted + EmissionOf(n, p), held)
  {
    hide PointAt, LeftEdge, Droppable;
    KeptAllOrdered(fed);
  }

  /** A grid point without a window has no point. */
  lemma {:induction false} StreamingSkip(su: Setup, typical: u64, fed: seq<Sample>, x: Intake, d: nat, low: u64, n: nat,
                      emitted: seq<Emission>, held: bool, at: u64)
    requires Streaming(su, typical, fed, x, d, low, n, emitted, held) && fed != []
    requires n < su.grid.Count() && 0 <= su.grid.Time(n) <= su.grid.end
    requires held || su.grid.Time(n) <= fed[|fed| - 1].ts
    requires WindowEnd(su, typical, KeptAll(fed), su.grid.Time(n)) in {None, Some(at)}
    requires WindowEnd(su, typical, KeptAll(fed), su.grid.Time(n)).Some? ==> WindowStart(su, KeptAll(fed), at) == None
    ensures Streaming(su, typical, fed, x, d, low, n + 1, emitted, held)
  {
    hide QueueOk, CacheOk, Points, WindowEnd, WindowStart;
    assert PointAt(su, typical, KeptAll(fed), su.grid.Time(n)) == None;
    StreamingStep(su, typical, fed, x, d, low, n, emitted, held, x, d, low, None);
    assert emitted + EmissionOf(n, None) == emitted;
  }

  /** Once a series is past its last sample and not held, it is decided. */
  lemma {:induction false} StreamingStop(su: Setup, typical: u64, fed: seq<Sample>, x: Intake, d: nat, low: u64, n: nat,
                      emitted: seq<Emission>)
    requires Streaming(su, typical, fed, x, d, low, n, emitted, true) && fed != []
    requires su.grid.Time(n) > fed[|fed| - 1].ts
    requires !(|fed| >= 2 && SatSub(su.grid.end, fed[|fed| - 1].ts) <= typical)
    ensures Streaming(su, typical, fed, x, d, low, su.grid.Count(), emitted, true)
  {
    hide QueueOk, CacheOk, Points;
    KeptAllOrdered(fed);
    NothingFollows(su, typical, KeptAll(fed), n, su.grid.Count());
  }

  /** Trimming to the window's start and evaluating its edges decides the point. */
  lemma {:induction false} StreamingDecide(su: Setup, typical: u64, fed: seq<Sample>, x: Intake, d: nat, low: u64, n: nat,
                        emitted: seq<Emission>, held: bool, x': Intake, d': nat, at: u64, from: u64, p: Option<Point>)
    requires Streaming(su, typical, fed, x, d, low, n, emitted, held) && fed != []
    requires n < su.grid.Count() && 0 <= su.grid.Time(n) <= su.grid.end && low <= SatSub(at, su.grid.span)
    requires WindowEnd(su, typical, KeptAll(fed), su.grid.Time(n)) == Some(at)
    requires WindowStart(su, KeptAll(fed), at) == Some(from)
    requires if held then fed[|fed| - 1].ts < su.grid.Time(n)
             else su.grid.Time(n) <= fed[|fed| - 1].ts && (|fed| > 1 ==> fed[|fed| - 2].ts < su.grid.Time(n))
    requires Trimmed(KeptAll(fed), d, d', x'.kept, from)
    requires var right := EdgeOver(su.windowed, typical, x'.kept, fed[0].ts, fed[|fed| - 1].ts, at);
             && p == PointOf(su.windowed, LeftOf(su.windowed, typical, x'.kept, fed[0].ts, fed[|fed| - 1].ts, x.edge, from),
                             right, at, from, su.grid.Time(n))
             && x' == x.(kept := x'.kept, edge := Some((at, right)))
    ensures p == PointAt(su, typical, KeptAll(fed), su.grid.Time(n))
    ensures Streaming(su, typical, fed, x', d', SatSub(at, su.grid.span), n + 1, emitted + EmissionOf(n, p), held)
  {
    hide PointOf, LeftOf, EdgeOver, Points, LeftEdge, RightEdge, Droppable;
    var ks := KeptAll(fed);
    StreamingFacts(su, typical, fed, x, d, low, n, emitted, held);
    KeptAllOrdered(fed);
    WindowIsWhole(su, typical, ks, x, d, low, held, d', x'.kept, at, from, su.grid.Time(n));
    DroppableAfterTrim(su, ks, d, d', low, SatSub(at, su.grid.span), at);
    StreamingStep(su, typical, fed, x, d, low, n, emitted, held, x', d', SatSub(at, su.grid.span), p);
  }

  lemma {:induction false} WindowStartBefore(su: Setup, ks: seq<Kept>, at: u64)
    requires su.grid.Valid() && WindowStart(su, ks, at).Some?
    ensures WindowStart(su, ks, at).value < at || at == 0 == WindowStart(su, ks, at).value
  {
  }

  /** Points at or after grid point `n`. */
  ghost predicate From(out: seq<Emission>, n: nat) {
    forall i :: 0 <= i < |out| ==> out[i].index >= n
  }

  /** A settled series that is done, its stream not ended: whatever samples
      follow, its points are those of all of them. */
  ghost predicate AllDecided(su: Setup, typical: u64, seen: seq<Sample>, n: nat, emitted: seq<Emission>) {
    if su.grid.step == 0 then emitted == []
    else n == su.grid.Count() && EmittedOk(su, typical, KeptAll(seen), n, emitted, false)
  }

  lemma {:induction false} AllDecidedAppend(su: Setup, typical: u64, seen: seq<Sample>, x: Sample, n: nat, emitted: seq<Emission>)
    requires InOrder(seen) && Follows(seen, x) && AllDecided(su, typical, seen, n, emitted)
    ensures AllDecided(su, typical, seen + [x], n, emitted)
  {
    hide Points;
    if su.grid.step > 0 {
      SamplesAppend(seen, x);
      KeptAllOrdered(seen);
      KeptAllOrdered(seen + [x]);
      KeptAllAppend(seen, x);
      var ks := KeptAll(seen);
      EmittedAppend(su, typical, ks, KeptAll(seen + [x])[|seen|], n, emitted);
    }
  }

  /** The probe fixes the typical spacing. */
  lemma {:induction false} TypicalAppend(seen: seq<Sample>, x: Sample)
    requires InOrder(seen) && Follows(seen, x) && |seen| >= SPACING_PROBE
    ensures InOrder(seen + [x]) && Typical(seen + [x]) == Typical(seen)
  {
    SamplesAppend(seen, x);
    assert (seen + [x])[..SPACING_PROBE] == seen[..SPACING_PROBE];
    assert |seen| == SPACING_PROBE ==> seen[..SPACING_PROBE] == seen;
  }

  class SeriesRate {
    const setup: Setup
    var probe: seq<Sample>
    var settled: bool
    var typical: u64
    var intake: Intake
    var cursor: u64
    var done: bool
    var endedEarly: bool

    /** Every sample pushed before the stream was said to have ended. */
    ghost var seen: seq<Sample>
    /** Whether the stream was said to have ended. */
    ghost var finished: bool
    /** Everything emitted so far. */
    ghost var emitted: seq<Emission>
    /** How many of the samples ingested are no longer kept. */
    ghost var dropped: nat
    /** No later window starts before this. */
    ghost var low: u64
    /** Grid points decided. */
    ghost var decided: nat

    /** `fed` is ingested and the cursor is at the first grid point not decided. */
    ghost predicate Feeding(fed: seq<Sample>, held: bool)
      reads this
    {
      && Streaming(setup, typical, fed, intake, dropped, low, decided, emitted, held)
      && (if done then decided == setup.grid.Count()
          else
            && cursor == setup.grid.Time(decided)
            && (fed != [] ==> low <= SatSub(Min(cursor, fed[|fed| - 1].ts), setup.grid.span)))
    }

    /** Every grid point at or before the last sample has been decided. */
    ghost predicate CaughtUp(fed: seq<Sample>)
      reads this
    {
      done || (fed != [] ==> fed[|fed| - 1].ts < cursor)
    }

    /** No sample is ingested yet. */
    ghost predicate Probing()
      reads this
    {
      && !settled && !finished && probe == seen
      && intake == NO_INTAKE && dropped == 0 && low == 0 && decided == 0
      && cursor == setup.grid.start && !done && emitted == []
    }

    ghost predicate Valid()
      reads this
    {
      && setup.grid.Valid() && InOrder(seen)
      && (settled ==> typical == Typical(seen))
      && (if !settled then Probing() && |seen| < SPACING_PROBE
          else if finished then done && emitted == Rate(setup, seen)
          else
            && |seen| >= SPACING_PROBE
            && (if done then AllDecided(setup, typical, seen, decided, emitted)
                else Feeding(seen, false) && CaughtUp(seen)))
    }

    constructor (su: Setup)
      requires su.grid.Valid()
      ensures Valid() && setup == su && seen == [] && emitted == [] && !finished && !endedEarly
    {
      setup := su;
      probe, settled, typical, intake := [], false, 1, NO_INTAKE;
      cursor, done, endedEarly := su.grid.start, false, false;
      seen, finished, emitted, dropped, low, decided := [], false, [], 0, 0, 0;
    }

    /** When the latest sample taken was, if one was. */
    function LastTs(): Option<u64>
      reads this
    {
      if settled then intake.last else if probe == [] then None else Some(probe[|probe| - 1].ts)
    }

    /** The grid point the cursor is at, while there is one to decide. */
    function Pending(): Option<u64>
      reads this
    {
      if done then None else Some(cursor)
    }

    /** How far apart samples come: typically, once that is known; till then on average,
        if there are two. */
    function SpacingNs(): Option<u64>
      reads this
    {
      if settled then Some(typical)
      else if |probe| < 2 || probe[|probe| - 1].ts < probe[0].ts then None
      else
        DivBounds(probe[|probe| - 1].ts - probe[0].ts, |probe| - 1);
        MulGrows((probe[|probe| - 1].ts - probe[0].ts) / (|probe| - 1), 1);
        Some(Min((probe[|probe| - 1].ts - probe[0].ts) / (|probe| - 1), U64_MAX))
    }

    method Ingest(s: Sample, ghost fed: seq<Sample>)
      requires Feeding(fed, false) && Follows(fed, s)
      modifies `intake
      ensures Feeding(fed + [s], false)
      ensures intake == Ingested(old(intake), s)
    {
      hide Streaming;
      StreamingAppend(setup, typical, fed, s, intake, dropped, low, decided, emitted);
      intake := Ingested(intake, s);
    }

    /** Drop samples from the front while the next one too is at or before `left`. */
    method Trim(left: u64, ghost ks: seq<Kept>)
      requires Ordered(ks) && intake.kept != [] && Tail(ks, dropped, intake.kept)
      modifies `intake, `dropped
      ensures Trimmed(ks, old(dropped), dropped, intake.kept, left)
      ensures |intake.kept| >= 2 ==> intake.kept[1].ts > left
      ensures intake == old(intake).(kept := intake.kept)
    {
      while |intake.kept| >= 2 && intake.kept[1].ts <= left
        invariant intake.kept != [] && Tail(ks, dropped, intake.kept) && old(dropped) <= dropped
        invariant old(dropped) < dropped ==> ks[dropped].ts <= left
        invariant intake == old(intake).(kept := intake.kept)
        decreases |intake.kept|
      {
        intake := intake.(kept := intake.kept[1..]);
        dropped := dropped + 1;
      }
    }

    /** The point at `t` for the window `[from, at]`. */
    method PointIn(at: u64, from: u64, t: u64) returns (p: Option<Point>)
      requires intake.first.Some? && intake.last.Some?
      modifies `intake
      ensures var right := EdgeOver(setup.windowed, typical, old(intake).kept, old(intake).first.value,
                                    old(intake).last.value, at);
              && p == PointOf(setup.windowed,
                              LeftOf(setup.windowed, typical, old(intake).kept, old(intake).first.value,
                                     old(intake).last.value, old(intake).edge, from),
                              right, at, from, t)
              && intake == old(intake).(edge := Some((at, right)))
    {
      hide EdgeOver, PointOf;
      var x := intake;
      var left := LeftOf(setup.windowed, typical, x.kept, x.first.value, x.last.value, x.edge, from);
      var right := EdgeOver(setup.windowed, typical, x.kept, x.first.value, x.last.value, at);
      intake := x.(edge := Some((at, right)));
      p := PointOf(setup.windowed, left, right, at, from, t);
    }

    /** What grid point `t` is given, the cursor past it: the window's end and
        start, or that it has no point, or that no later one has. */
    method WindowOf(t: u64, exhausted: bool) returns (at: u64, from: Option<u64>, stop: bool)
      requires setup.grid.Valid() && intake.last.Some? && setup.grid.step > 0
      ensures var last := intake.last.value;
              var past := exhausted && t > last;
              var held := intake.pulled >= 2 && SatSub(setup.grid.end, last) <= typical;
              if t < setup.grid.span && !setup.grid.range then from == None && !stop
              else if past && !held then from == None && stop
              else
                && !stop && at == (if past then last else t)
                && from == if setup.grid.range then RangeStart(intake.kept, SatSub(at, setup.grid.span), at, setup.reach)
                           else Some(SatSub(at, setup.grid.span))
    {
      at, from, stop := t, None, false;
      if t < setup.grid.span && !setup.grid.range {
        return;
      }
      var left := SatSub(t, setup.grid.span);
      var start := left;
      var last := intake.last.value;
      if exhausted && t > last {
        if intake.pulled >= 2 && SatSub(setup.grid.end, last) <= typical {
          at, start := last, SatSub(last, t - left);
        } else {
          stop := true;
          return;
        }
      }
      if setup.grid.range {
        from := RangeStart(intake.kept, start, at, setup.reach);
      } else {
        from := Some(start);
      }
    }

    /** Decide grid point `t` for the window `[from, at]`. */
    method Decide(at: u64, from: u64, t: u64, exhausted: bool, ghost fed: seq<Sample>) returns (p: Option<Point>)
      requires Streaming(setup, typical, fed, intake, dropped, low, decided, emitted, exhausted) && fed != []
      requires decided < setup.grid.Count() && t == setup.grid.Time(decided) && t <= setup.grid.end
      requires low <= SatSub(at, setup.grid.span)
      requires WindowEnd(setup, typical, KeptAll(fed), t) == Some(at)
      requires WindowStart(setup, KeptAll(fed), at) == Some(from)
      requires if exhausted then fed[|fed| - 1].ts < t
               else t <= fed[|fed| - 1].ts && (|fed| > 1 ==> fed[|fed| - 2].ts < t)
      modifies `intake, `dropped, `low
      ensures Streaming(setup, typical, fed, intake, dropped, low, decided + 1, emitted + EmissionOf(decided, p), exhausted)
      ensures low == SatSub(at, setup.grid.span)
    {
      hide Streaming, Trimmed, EdgeOver, PointOf, LeftOf, WindowEnd, WindowStart;
      StreamingFacts(setup, typical, fed, intake, dropped, low, decided, emitted, exhausted);
      KeptAllAt(fed, 0);
      ghost var x, d := intake, dropped;
      Trim(from, KeptAll(fed));
      p := PointIn(at, from, t);
      StreamingDecide(setup, typical, fed, x, d, low, decided, emitted, exhausted, intake, dropped, at, from, p);
      low := SatSub(at, setup.grid.span);
    }

    /** Decide the next grid point, `t`; `stop` when no later one has a point. */
    method Step(t: u64, exhausted: bool, ghost fed: seq<Sample>) returns (out: seq<Emission>, stop: bool)
      requires Streaming(setup, typical, fed, intake, dropped, low, decided, emitted, exhausted) && fed != []
      requires decided < setup.grid.Count() && t == setup.grid.Time(decided) && t <= setup.grid.end
      requires low <= SatSub(Min(t, fed[|fed| - 1].ts), setup.grid.span)
      requires if exhausted then fed[|fed| - 1].ts < t
               else t <= fed[|fed| - 1].ts && (|fed| > 1 ==> fed[|fed| - 2].ts < t)
      modifies `intake, `dropped, `low, `decided, `emitted
      ensures Streaming(setup, typical, fed, intake, dropped, low, decided, emitted, exhausted)
      ensures emitted == old(emitted) + out
      ensures decided == if stop then setup.grid.Count() else old(decided) + 1
      ensures From(out, old(decided))
      ensures low <= SatSub(Min(t, fed[|fed| - 1].ts), setup.grid.span)
    {
      hide Streaming, Points;
      out := [];
      StreamingFacts(setup, typical, fed, intake, dropped, low, decided, emitted, exhausted);
      var at, from;
      at, from, stop := WindowOf(t, exhausted);
      if stop {
        StreamingStop(setup, typical, fed, intake, dropped, low, decided, emitted);
        decided := setup.grid.Count();
        return;
      }
      StartFromTail(setup, typical, fed, intake, dropped, low, decided, emitted, exhausted, Min(t, fed[|fed| - 1].ts));
      ghost var n := decided;
      if from.Some? {
        var p := Decide(at, from.value, t, exhausted, fed);
        IndexOfTime(setup.grid, n);
        if p.Some? {
          out := [Emission(setup.grid.Index(t), p.value)];
        }
        assert out == EmissionOf(n, p);
      } else {
        StreamingSkip(setup, typical, fed, intake, dropped, low, n, emitted, exhausted, at);
        assert emitted + out == emitted;
      }
      decided := decided + 1;
      emitted := emitted + out;
    }

    /** Decide every grid point the samples allow: those at or before the last
        sample, or, when there are no more samples, all. */
    method Advance(exhausted: bool, ghost fed: seq<Sample>) returns (out: seq<Emission>)
      requires Feeding(fed, false) && fed != []
      requires !done && |fed| > 1 ==> fed[|fed| - 2].ts < cursor
      requires exhausted ==> |fed| > 1 && CaughtUp(fed)
      modifies `intake, `cursor, `done, `dropped, `low, `decided, `emitted
      ensures emitted == old(emitted) + out && From(out, old(decided)) && old(decided) <= decided
      ensures Feeding(fed, exhausted)
      ensures if exhausted then done else CaughtUp(fed)
    {
      hide Streaming, Points, KeptAll;
      out := [];
      StreamingFacts(setup, typical, fed, intake, dropped, low, decided, emitted, false);
      while !done
        invariant Feeding(fed, exhausted) && emitted == old(emitted) + out
        invariant From(out, old(decided)) && old(decided) <= decided
        invariant !done && |fed| > 1 ==> fed[|fed| - 2].ts < cursor
        invariant exhausted ==> CaughtUp(fed)
        decreases if done then 0 else 1, setup.grid.end - cursor
      {
        var t := cursor;
        StreamingFacts(setup, typical, fed, intake, dropped, low, decided, emitted, exhausted);
        Counted(setup.grid, decided);
        if t > setup.grid.end {
          done := true;
          break;
        }
        if !exhausted && intake.kept[|intake.kept| - 1].ts < t {
          break;
        }
        Counted(setup.grid, decided + 1);
        if cursor + setup.grid.step <= U64_MAX {
          cursor := cursor + setup.grid.step;
        } else {
          done := true;
        }
        var more, stop := Step(t, exhausted, fed);
        out := out + more;
        if stop {
          done := true;
          break;
        }
      }
    }

    /** Take one more sample and decide the grid points it allows. */
    method Feed(s: Sample, ghost fed: seq<Sample>) returns (out: seq<Emission>)
      requires Feeding(fed, false) && CaughtUp(fed) && Follows(fed, s)
      modifies `intake, `cursor, `done, `dropped, `low, `decided, `emitted
      ensures Feeding(fed + [s], false) && CaughtUp(fed + [s])
      ensures emitted == old(emitted) + out && From(out, old(decided)) && old(decided) <= decided
    {
      hide Streaming, Points, KeptAll;
      Ingest(s, fed);
      out := Advance(false, fed + [s]);
    }

    /** Fix the typical spacing from the probe and evaluate its samples. */
    method Settle() returns (out: seq<Emission>)
      requires Probing() && setup.grid.Valid() && InOrder(seen)
      modifies `probe, `settled, `typical, `intake, `cursor, `done, `dropped, `low, `decided, `emitted
      ensures settled && typical == Typical(seen) && emitted == out && From(out, 0)
      ensures if |seen| < 2 || setup.grid.step == 0 then done && out == []
              else Feeding(seen, false) && CaughtUp(seen)
    {
      hide Streaming, Points, KeptAll, Typical;
      out := [];
      settled := true;
      var samples := probe;
      typical := Typical(samples);
      probe := [];
      if |samples| < 2 || setup.grid.step == 0 {
        done := true;
        return;
      }
      NoneStreaming(setup, typical);
      for i := 0 to |samples|
        invariant Feeding(samples[..i], false) && CaughtUp(samples[..i]) && emitted == out
        invariant settled && typical == Typical(samples)
      {
        PrefixFollows(samples, i);
        var more := Feed(samples[i], samples[..i]);
        out := out + more;
      }
      assert samples[..|samples|] == samples;
    }

    /** Take the next sample, in time order. A sample after the end is ignored. */
    method Push(s: Sample) returns (out: seq<Emission>)
      requires Valid() && Follows(seen, s)
      modifies this
      ensures Valid() && finished == old(finished) && endedEarly == old(endedEarly)
      ensures emitted == old(emitted) + out && From(out, old(decided)) && old(decided) <= decided
      ensures seen == if old(finished) then old(seen) else old(seen) + [s]
      ensures old(done) ==> done && out == []
    {
      hide Streaming, Points, KeptAll, Typical, AllDecided;
      out := [];
      if !finished {
        SamplesAppend(seen, s);
        if |seen| >= SPACING_PROBE {
          TypicalAppend(seen, s);
        }
        if done {
          AllDecidedAppend(setup, typical, seen, s, decided, emitted);
        }
        seen := seen + [s];
      }
      if done {
        return;
      }
      if !settled {
        probe := probe + [s];
        if |probe| == SPACING_PROBE {
          out := Settle();
          DoneIsDecided(seen);
        }
        return;
      }
      out := Feed(s, old(seen));
      DoneIsDecided(seen);
    }

    /** A done series has decided every grid point. */
    lemma {:induction false} DoneIsDecided(fed: seq<Sample>)
      requires Feeding(fed, false) || (setup.grid.step == 0 && emitted == [])
      ensures done ==> AllDecided(setup, typical, fed, decided, emitted)
    {
    }

    lemma {:induction false} DoneIsRate(fed: seq<Sample>)
      requires done && InOrder(fed) && typical == Typical(fed)
      requires || (emitted == [] && (|fed| < 2 || setup.grid.step == 0))
               || (|fed| >= 2 && (Feeding(fed, true) || Feeding(fed, false)))
               || (|fed| >= 2 && AllDecided(setup, typical, fed, decided, emitted))
      ensures emitted == Rate(setup, fed)
    {
    }

    /** The stream has ended: decide every grid point. */
    method Finish() returns (out: seq<Emission>)
      requires Valid()
      modifies this
      ensures Valid() && seen == old(seen) && finished && done && endedEarly == old(endedEarly)
      ensures emitted == old(emitted) + out && From(out, old(decided)) && old(decided) <= decided
      ensures old(done) ==> out == []
    {
      hide Streaming, Points, KeptAll, Typical;
      out := [];
      if !settled {
        out := Settle();
      }
      if !done {
        var more := Advance(true, seen);
        out := out + more;
      }
      if !finished {
        DoneIsRate(seen);
        finished := true;
      }
    }

    /** Decide every grid point as if no more samples came. */
    method EndEarly() returns (out: seq<Emission>)
      requires Valid()
      modifies this
      ensures Valid() && seen == old(seen) && finished && done && endedEarly
      ensures emitted == old(emitted) + out && From(out, old(decided)) && old(decided) <= decided
      ensures old(done) ==> out == []
    {
      out := Finish();
      endedEarly := true;
    }

    /** Everything emitted is in index order, within the grid, after the first sample. */
    lemma {:induction false} EmittedRise()
      requires Valid()
      ensures Rising(emitted)
      ensures forall i :: 0 <= i < |emitted| ==>
                && seen != [] && emitted[i].index < setup.grid.Count()
                && seen[0].ts < setup.grid.Time(emitted[i].index) == emitted[i].point.t
    {
      hide Points, PointAt, Typical;
      KeptAllOrdered(seen);
      if emitted != [] {
        if finished {
          PointsRise(setup, typical, KeptAll(seen), setup.grid.Count());
        } else {
          StreamedPoints();
          PointsRise(setup, typical, KeptAll(seen), decided);
        }
      }
    }

    /** A series that can emit more has emitted only before its next grid point. */
    lemma {:induction false} EmittedBefore()
      requires Valid() && !done
      ensures forall i :: 0 <= i < |emitted| ==> emitted[i].index < decided
    {
      hide Points, PointAt, Typical, KeptAll;
      if emitted != [] {
        StreamedPoints();
        KeptAllOrdered(seen);
        PointsRise(setup, typical, KeptAll(seen), decided);
      }
    }

    /** What a series that can emit says of its samples: the last one's time, and their
        typical or, while there are fewer than nine, mean spacing. */
    lemma {:induction false} SaysOfSamples()
      requires Valid() && !done
      ensures LastTs() == if seen == [] then None else Some(seen[|seen| - 1].ts)
      ensures settled <==> |seen| >= 9
      ensures settled ==> SpacingNs() == Some(Typical(seen))
      ensures !settled ==> (SpacingNs().Some? <==> |seen| >= 2)
      ensures !settled && |seen| >= 2 ==>
                SpacingNs().value * (|seen| - 1) <= seen[|seen| - 1].ts - seen[0].ts < (SpacingNs().value + 1) * (|seen| - 1)
    {
      hide Points, PointAt, Typical, KeptAll, Tail, Droppable, CacheOk, EmittedOk;
      KeptAllOrdered(seen);
      if !settled && |seen| >= 2 {
        assert seen[0].ts <= seen[|seen| - 1].ts;
        var d, n := seen[|seen| - 1].ts - seen[0].ts, |seen| - 1;
        DivBounds(d, n);
        MulGrows(n, d / n);
        MulGrows(d / n, n);
      }
    }

    /** A finished series has emitted its whole rate. */
    lemma {:induction false} FinishedIsRate()
      requires Valid() && finished
      ensures emitted == Rate(setup, seen)
    {
      hide Points, PointAt, Typical, KeptAll, Rate;
    }

    lemma {:induction false} StreamedPoints()
      requires Valid() && settled && !finished && emitted != []
      ensures setup.grid.step > 0 && decided <= setup.grid.Count() && (decided > 0 ==> seen != [])
      ensures emitted == Points(setup, typical, KeptAll(seen), decided)
    {
      hide Points, PointAt, Typical, KeptAll;
    }

    /** A series with no last sample has taken none, or can emit no more; and one
        that can emit is at its first grid point not decided. */
    lemma {:induction false} NextPoint()
      requires Valid()
      ensures LastTs() == None ==> done || seen == []
      ensures !done ==> cursor == setup.grid.Time(decided)
    {
      hide Points, PointAt, Typical, KeptAll;
    }
  }
}
