/** What a combined unit's points are, from all its members' points and rows: the
    reference the streaming union stage is proved against. */
module UnionSpec {
  import opened Prelude
  import opened RateSpec
  import opened Grouping
  import opened Coverage

  /** A member of a combined unit, read whole: its points, its rows' times and its
      interval. Members are in rank order. */
  datatype Member = Member(points: seq<Emission>, rows: seq<u64>, interval: u64)

  /** How the member that answers is chosen: the length of the window a point reads, by
      its time and its member's interval; and whether points are placed at their members'
      own rows (`raw`), where a member answers for a time it has no point at. */
  datatype Rule = Rule(window: (u64, u64) -> u64, raw: bool)

  /** Grid points that all read one length of window. */
  function Fixed(window: u64): Rule {
    Rule((t: u64, interval: u64) => window, false)
  }

  /** What a member offers at one grid point. */
  datatype Claim = Claim(point: Option<Point>, covers: bool, holds: bool)

  function ClaimOf(m: Member, t: u64, i: nat, rule: Rule): Claim {
    Claim(AtIndex(m.points, i), Covers(Runs(m.rows), m.interval, t, rule.window(t, m.interval)), Holds(Runs(m.rows), m.interval, t))
  }

  function Claims(ms: seq<Member>, t: u64, i: nat, rule: Rule): (r: seq<Claim>)
    ensures |r| == |ms|
  {
    seq(|ms|, k requires 0 <= k < |ms| => ClaimOf(ms[k], t, i, rule))
  }

  /** The first claim, from `k` on, with a point, or any claim when `raw`, that covers the
      window. */
  function FirstCovering(claims: seq<Claim>, k: nat, raw: bool := false): (n: nat)
    requires k <= |claims|
    ensures k <= n <= |claims|
    decreases |claims| - k
  {
    if k == |claims| || ((raw || claims[k].point.Some?) && claims[k].covers) then k else FirstCovering(claims, k + 1, raw)
  }

  /** The first claim, from `k` on, with a point, or any when `raw`, whose rows hold the
      time. */
  function FirstHolding(claims: seq<Claim>, k: nat, raw: bool := false): (n: nat)
    requires k <= |claims|
    ensures k <= n <= |claims|
    decreases |claims| - k
  {
    if k == |claims| || ((raw || claims[k].point.Some?) && claims[k].holds) then k else FirstHolding(claims, k + 1, raw)
  }

  /** The point chosen: of the first-ranked member that covers its rule, else of
      the first-ranked whose rows hold the time. When `raw`, of the first-ranked member
      of all, if it has a point. */
  function Choose(claims: seq<Claim>, raw: bool := false): Option<Point> {
    var c, h := FirstCovering(claims, 0, raw), FirstHolding(claims, 0, raw);
    if c < |claims| then claims[c].point else if h < |claims| then claims[h].point else None
  }

  /** The unit's points at the first `n` grid indices. */
  function Combined(ms: seq<Member>, g: Grid, rule: Rule, n: nat): seq<Emission>
    requires n <= g.Count()
  {
    if n == 0 then []
    else
      Counted(g, n - 1);
      var p := Choose(Claims(ms, g.Time(n - 1), n - 1, rule), rule.raw);
      Combined(ms, g, rule, n - 1) + (if p.Some? then [Emission(n - 1, p.value)] else [])
  }

  lemma {:induction false} CombinedNext(ms: seq<Member>, g: Grid, rule: Rule, n: nat, claims: seq<Claim>)
    requires n < g.Count() && 0 <= g.Time(n) <= U64_MAX && claims == Claims(ms, g.Time(n), n, rule)
    ensures Combined(ms, g, rule, n + 1) ==
            Combined(ms, g, rule, n) + (if Choose(claims, rule.raw).Some? then [Emission(n, Choose(claims, rule.raw).value)] else [])
  {
    hide Claims, Choose;
  }

  /** Nothing is chosen where no member has a point. */
  lemma {:induction false} NothingChosen(claims: seq<Claim>, raw: bool)
    requires forall k :: 0 <= k < |claims| ==> claims[k].point == None
    ensures Choose(claims, raw) == None
  {
  }

  /** Grid indices with no member's point add nothing. */
  lemma {:induction false} CombinedSkips(ms: seq<Member>, g: Grid, rule: Rule, n: nat, m: nat)
    requires n <= m <= g.Count()
    requires forall i, k :: n <= i < m && 0 <= k < |ms| ==> AtIndex(ms[k].points, i) == None
    ensures Combined(ms, g, rule, m) == Combined(ms, g, rule, n)
  {
    hide AtIndex, Choose, Holds, Covers;
    if n < m {
      CombinedSkips(ms, g, rule, n, m - 1);
      Counted(g, m - 1);
      var claims := Claims(ms, g.Time(m - 1), m - 1, rule);
      forall k | 0 <= k < |claims| ensures claims[k].point == None {
        assert AtIndex(ms[k].points, m - 1) == None;
      }
      NothingChosen(claims, rule.raw);
    }
  }

  /** The choice is of a member that covers its rule, no earlier-ranked one with
      a point does; or none does, and it is of the first whose rows hold the time. */
  lemma {:induction false} ChoiceIsBest(claims: seq<Claim>, k: nat)
    requires k < |claims| && claims[k].point.Some? && (claims[k].covers || claims[k].holds)
    ensures Choose(claims).Some?
    ensures exists b :: 0 <= b < |claims| && claims[b].point == Choose(claims) && (claims[b].covers || claims[b].holds)
              && (claims[k].covers ==> claims[b].covers && b <= k)
              && (!claims[b].covers ==> b <= k)
  {
    CoveringIsFirst(claims, 0);
    HoldingIsFirst(claims, 0);
  }

  lemma {:induction false} CoveringIsFirst(claims: seq<Claim>, k: nat)
    requires k <= |claims|
    ensures var n := FirstCovering(claims, k);
            && (n < |claims| ==> claims[n].point.Some? && claims[n].covers)
            && forall j :: k <= j < n ==> claims[j].point.None? || !claims[j].covers
    decreases |claims| - k
  {
    if k < |claims| && !(claims[k].point.Some? && claims[k].covers) {
      CoveringIsFirst(claims, k + 1);
    }
  }

  lemma {:induction false} HoldingIsFirst(claims: seq<Claim>, k: nat)
    requires k <= |claims|
    ensures var n := FirstHolding(claims, k);
            && (n < |claims| ==> claims[n].point.Some? && claims[n].holds)
            && forall j :: k <= j < n ==> claims[j].point.None? || !claims[j].holds
    decreases |claims| - k
  {
    if k < |claims| && !(claims[k].point.Some? && claims[k].holds) {
      HoldingIsFirst(claims, k + 1);
    }
  }

  /** At its members' own rows, a time's point is that of the first-ranked member that
      covers its rule, else of the first-ranked whose rows hold the time; when that
      member has no point there, there is none. */
  lemma {:induction false} RawAnswer(claims: seq<Claim>, k: nat)
    requires k < |claims|
    requires if exists j :: 0 <= j < |claims| && claims[j].covers then
               claims[k].covers && forall j :: 0 <= j < k ==> !claims[j].covers
             else claims[k].holds && forall j :: 0 <= j < k ==> !claims[j].holds
    ensures Choose(claims, true) == claims[k].point
  {
    RawFirst(claims, 0);
  }

  lemma {:induction false} RawFirst(claims: seq<Claim>, k: nat)
    requires k <= |claims|
    ensures var c, h := FirstCovering(claims, k, true), FirstHolding(claims, k, true);
            && (c < |claims| ==> claims[c].covers) && (forall j :: k <= j < c ==> !claims[j].covers)
            && (h < |claims| ==> claims[h].holds) && forall j :: k <= j < h ==> !claims[j].holds
    decreases |claims| - k
  {
    if k < |claims| {
      RawFirst(claims, k + 1);
    }
  }

  /** The unit's points are in strictly increasing grid index. */
  lemma {:induction false} CombinedRises(ms: seq<Member>, g: Grid, rule: Rule, n: nat)
    requires n <= g.Count()
    ensures Rising(Combined(ms, g, rule, n))
    ensures forall j :: 0 <= j < |Combined(ms, g, rule, n)| ==> Combined(ms, g, rule, n)[j].index < n
  {
    hide Claims, Choose;
    if n > 0 {
      CombinedRises(ms, g, rule, n - 1);
    }
  }
}
