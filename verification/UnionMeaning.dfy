/** What a combined unit's points are, said of its members' points and rows. */
module UnionMeaning {
  import opened Prelude
  import opened RateSpec
  import opened Coverage
  import opened CoverageMeaning
  import opened Grouping
  import opened UnionSpec

  /** A member's points are in increasing grid index, its rows in increasing time. */
  ghost predicate InOrderOf(m: Member) {
    Rising(m.points) && Increasing(m.rows)
  }

  lemma {:induction false} AtIndexIs(es: seq<Emission>, k: nat)
    requires Rising(es)
    ensures forall p :: AtIndex(es, k) == Some(p) <==> Emission(k, p) in es
    ensures AtIndex(es, k) == None <==> forall e :: e in es ==> e.index != k
  {
    if es != [] {
      var n := |es| - 1;
      AtIndexIs(es[..n], k);
      assert es == es[..n] + [es[n]];
      assert es[n] in es;
    }
  }

  ghost predicate HasPoint(m: Member, k: nat) {
    exists e :: e in m.points && e.index == k
  }

  /** The member's rows cover the window of the point at `t`. */
  ghost predicate CoversPoint(m: Member, rule: Rule, t: u64) {
    var window := rule.window(t, m.interval);
    t >= window && Spans(m.rows, m.interval, t - window, t)
  }

  ghost predicate HoldsTime(m: Member, t: u64) {
    Spans(m.rows, m.interval, t, t)
  }

  /** The member may answer at grid point `k`: it has a point there, or need not. */
  ghost predicate May(m: Member, rule: Rule, k: nat) {
    rule.raw || HasPoint(m, k)
  }

  /** Member `b` answers at grid point `k`, of time `t`: of those that may, the first that
      covers the window; or, when none does, the first that holds the time. */
  ghost predicate Answers(ms: seq<Member>, rule: Rule, k: nat, t: u64, b: nat) {
    && b < |ms| && May(ms[b], rule, k)
    && if exists a :: 0 <= a < |ms| && May(ms[a], rule, k) && CoversPoint(ms[a], rule, t) then
         && CoversPoint(ms[b], rule, t)
         && forall a :: 0 <= a < b ==> !(May(ms[a], rule, k) && CoversPoint(ms[a], rule, t))
       else
         && HoldsTime(ms[b], t)
         && forall a :: 0 <= a < b ==> !(May(ms[a], rule, k) && HoldsTime(ms[a], t))
  }

  /** A claim says of its member what its points and rows do. */
  ghost predicate ClaimHolds(m: Member, rule: Rule, k: nat, t: u64, c: Claim) {
    && (forall p :: c.point == Some(p) <==> Emission(k, p) in m.points)
    && (c.point.Some? <==> HasPoint(m, k))
    && (c.covers <==> CoversPoint(m, rule, t)) && (c.holds <==> HoldsTime(m, t))
  }

  lemma {:induction false} ClaimIs(m: Member, rule: Rule, k: nat, t: u64)
    requires InOrderOf(m)
    ensures ClaimHolds(m, rule, k, t, ClaimOf(m, t, k, rule))
  {
    hide Covers, Holds, Runs, Spans, AtIndex;
    AtIndexIs(m.points, k);
    CoversIs(m.rows, m.interval, t, rule.window(t, m.interval));
    HoldsIs(m.rows, m.interval, t);
  }

  lemma {:induction false} FirstsAre(claims: seq<Claim>, k: nat, raw: bool)
    requires k <= |claims|
    ensures var c, h := FirstCovering(claims, k, raw), FirstHolding(claims, k, raw);
            && (c < |claims| ==> (raw || claims[c].point.Some?) && claims[c].covers)
            && (forall j :: k <= j < c ==> !((raw || claims[j].point.Some?) && claims[j].covers))
            && (h < |claims| ==> (raw || claims[h].point.Some?) && claims[h].holds)
            && forall j :: k <= j < h ==> !((raw || claims[j].point.Some?) && claims[j].holds)
    decreases |claims| - k
  {
    if k < |claims| {
      FirstsAre(claims, k + 1, raw);
    }
  }

  lemma {:induction false} FirstOnly(ms: seq<Member>, rule: Rule, k: nat, t: u64, claims: seq<Claim>, c: nat, h: nat, b: nat)
    requires |claims| == |ms| && c <= |ms| && h <= |ms|
    requires forall a :: 0 <= a < |ms| ==> ClaimHolds(ms[a], rule, k, t, claims[a])
    requires c < |ms| ==> (rule.raw || claims[c].point.Some?) && claims[c].covers
    requires forall j :: 0 <= j < c ==> !((rule.raw || claims[j].point.Some?) && claims[j].covers)
    requires h < |ms| ==> (rule.raw || claims[h].point.Some?) && claims[h].holds
    requires forall j :: 0 <= j < h ==> !((rule.raw || claims[j].point.Some?) && claims[j].holds)
    ensures Answers(ms, rule, k, t, b) <==> b < |ms| && b == if c < |ms| then c else h
  {
    hide CoversPoint, HoldsTime, HasPoint;
    assert c < |ms| ==> May(ms[c], rule, k) && CoversPoint(ms[c], rule, t);
    assert h < |ms| ==> May(ms[h], rule, k) && HoldsTime(ms[h], t);
  }

  /** The chosen point is the answering member's, if one answers and has one. */
  lemma {:induction false} ChoiceIs(ms: seq<Member>, rule: Rule, k: nat, t: u64, p: Point)
    requires forall m :: m in ms ==> InOrderOf(m)
    ensures Choose(Claims(ms, t, k, rule), rule.raw) == Some(p) <==>
            exists b: nat :: Answers(ms, rule, k, t, b) && Emission(k, p) in ms[b].points
  {
    hide ClaimOf, CoversPoint, HoldsTime, HasPoint;
    var claims := Claims(ms, t, k, rule);
    forall b | 0 <= b < |ms| ensures ClaimHolds(ms[b], rule, k, t, claims[b]) {
      assert ms[b] in ms;
      ClaimIs(ms[b], rule, k, t);
    }
    FirstsAre(claims, 0, rule.raw);
    var c, h := FirstCovering(claims, 0, rule.raw), FirstHolding(claims, 0, rule.raw);
    forall b: nat ensures Answers(ms, rule, k, t, b) <==> b < |ms| && b == if c < |ms| then c else h {
      FirstOnly(ms, rule, k, t, claims, c, h, b);
    }
  }

  /** A unit has exactly the answers' points, at every grid point. */
  lemma {:induction false} CombinedIs(ms: seq<Member>, g: Grid, rule: Rule, n: nat, k: nat, p: Point)
    requires n <= g.Count() && k < n && forall m :: m in ms ==> InOrderOf(m)
    ensures 0 <= g.Time(k) <= U64_MAX
    ensures Emission(k, p) in Combined(ms, g, rule, n) <==>
            exists b: nat :: Answers(ms, rule, k, g.Time(k), b) && Emission(k, p) in ms[b].points
  {
    hide Answers, Claims, Choose;
    Counted(g, n - 1);
    Counted(g, k);
    if k < n - 1 {
      CombinedIs(ms, g, rule, n - 1, k, p);
    } else {
      CombinedRises(ms, g, rule, n - 1);
      ChoiceIs(ms, rule, k, g.Time(k), p);
    }
  }
}
