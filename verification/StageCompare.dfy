/** Conflicting rows of a combined unit's members, found as the scan reads them while
    holding only the rows that can still meet another source's. */
module StageComparing {
  import opened Prelude
  import opened RateSpec

  /** A row as compared. */
  datatype Row = Row(t: u64, window: Option<Window>, value: u64)

  /** A source: its position, its name's place in name order, and its first row's
      time (0 when not known). */
  datatype Source = Source(position: nat, name: nat, first: u64)

  /** A conflict at `t` of two sources, in name order. */
  datatype Conflict = Conflict(a: nat, b: nat, t: u64)

  function ConflictOf(a: Source, b: Source, t: u64): Conflict {
    if a.name <= b.name then Conflict(a.name, b.name, t) else Conflict(b.name, a.name, t)
  }

  /** Rows of sources compared, at one time and window, with different values. */
  predicate Differ(r: Row, s: Row) {
    r.t == s.t && r.window == s.window && r.value != s.value
  }

  predicate Compared(a: Option<Source>, b: Option<Source>) {
    a.Some? && b.Some? && a.value.position != b.value.position
  }

  // ----- The reference

  /** `c` is a conflict of some row of member `m` with some row of member `o`. */
  ghost predicate Meet(sources: seq<Option<Source>>, rows: seq<seq<Row>>, m: nat, o: nat, c: Conflict)
    requires |rows| == |sources|
  {
    && m < |sources| && o < |sources| && Compared(sources[m], sources[o])
    && exists r, s :: r in rows[m] && s in rows[o] && Differ(r, s)
         && c == ConflictOf(sources[m].value, sources[o].value, r.t)
  }

  /** `c` is a conflict of two members' rows. */
  ghost predicate IsConflict(sources: seq<Option<Source>>, rows: seq<seq<Row>>, c: Conflict)
    requires |rows| == |sources|
  {
    exists m, o :: Meet(sources, rows, m, o, c)
  }

  /** A conflict is of two rows of sources at different positions, of one time and window
      and of different values; it names the sources in name order, and the time. */
  lemma {:induction false} ConflictIs(sources: seq<Option<Source>>, rows: seq<seq<Row>>, c: Conflict)
    requires |rows| == |sources|
    ensures IsConflict(sources, rows, c) <==> exists m: nat, o: nat, r, s :: Disagree(sources, rows, m, o, r, s, c)
  {
    hide Disagree;
    if IsConflict(sources, rows, c) {
      var m: nat, o: nat :| Meet(sources, rows, m, o, c);
      var r, s :| r in rows[m] && s in rows[o] && Differ(r, s)
        && c == ConflictOf(sources[m].value, sources[o].value, r.t);
      if sources[m].value.name <= sources[o].value.name {
        DisagreeIs(sources, rows, m, o, r, s, c);
      } else {
        DisagreeIs(sources, rows, o, m, s, r, c);
      }
    }
    if exists m: nat, o: nat, r, s :: Disagree(sources, rows, m, o, r, s, c) {
      var m: nat, o: nat, r, s :| Disagree(sources, rows, m, o, r, s, c);
      DisagreeMeets(sources, rows, m, o, r, s, c);
    }
  }

  /** Row `r` of member `m` and row `s` of member `o` disagree, and `c` says so. */
  ghost predicate Disagree(sources: seq<Option<Source>>, rows: seq<seq<Row>>, m: nat, o: nat, r: Row, s: Row, c: Conflict)
    requires |rows| == |sources|
  {
    && m < |sources| && o < |sources| && sources[m].Some? && sources[o].Some?
    && sources[m].value.position != sources[o].value.position
    && r in rows[m] && s in rows[o] && r.t == s.t == c.t && r.window == s.window && r.value != s.value
    && sources[m].value.name == c.a && sources[o].value.name == c.b && c.a <= c.b
  }

  lemma {:induction false} DisagreeIs(sources: seq<Option<Source>>, rows: seq<seq<Row>>, m: nat, o: nat, r: Row, s: Row,
                                      c: Conflict)
    requires |rows| == |sources| && m < |sources| && o < |sources| && Compared(sources[m], sources[o])
    requires r in rows[m] && s in rows[o] && Differ(r, s) && sources[m].value.name <= sources[o].value.name
    requires c in {ConflictOf(sources[m].value, sources[o].value, r.t), ConflictOf(sources[o].value, sources[m].value, r.t)}
    ensures Disagree(sources, rows, m, o, r, s, c)
  {
  }

  lemma {:induction false} DisagreeMeets(sources: seq<Option<Source>>, rows: seq<seq<Row>>, m: nat, o: nat, r: Row, s: Row,
                                         c: Conflict)
    requires |rows| == |sources| && Disagree(sources, rows, m, o, r, s, c)
    ensures Meet(sources, rows, m, o, c)
  {
    assert Differ(r, s);
  }

  /** One more row of `m` adds its conflicts with the other members' rows. */
  ghost predicate NewConflict(sources: seq<Option<Source>>, rows: seq<seq<Row>>, m: nat, row: Row, o: nat, c: Conflict)
    requires |rows| == |sources|
  {
    && m < |sources| && o < |sources| && Compared(sources[m], sources[o])
    && c == ConflictOf(sources[m].value, sources[o].value, row.t)
    && exists s :: s in rows[o] && Differ(row, s)
  }

  lemma {:induction false} MeetMore(sources: seq<Option<Source>>, rows: seq<seq<Row>>, m: nat, row: Row, p: nat, q: nat,
                                    c: Conflict)
    requires |rows| == |sources| && m < |sources|
    requires Meet(sources, rows[m := rows[m] + [row]], p, q, c)
    ensures Meet(sources, rows, p, q, c) || NewConflict(sources, rows, m, row, if p == m then q else p, c)
  {
  }

  lemma {:induction false} MeetSame(sources: seq<Option<Source>>, rows: seq<seq<Row>>, m: nat, row: Row, p: nat, q: nat,
                                    c: Conflict)
    requires |rows| == |sources| && m < |sources| && Meet(sources, rows, p, q, c)
    ensures Meet(sources, rows[m := rows[m] + [row]], p, q, c)
  {
    var r, s :| r in rows[p] && s in rows[q] && Differ(r, s) && c == ConflictOf(sources[p].value, sources[q].value, r.t);
    var now := rows[m := rows[m] + [row]];
    assert r in now[p] && s in now[q];
  }

  lemma {:induction false} MeetNew(sources: seq<Option<Source>>, rows: seq<seq<Row>>, m: nat, row: Row, o: nat,
                                   c: Conflict)
    requires |rows| == |sources| && m < |sources| && NewConflict(sources, rows, m, row, o, c)
    ensures Meet(sources, rows[m := rows[m] + [row]], m, o, c)
  {
    var s :| s in rows[o] && Differ(row, s);
    var now := rows[m := rows[m] + [row]];
    assert row in now[m] && s in now[o];
  }

  /** The conflicts with one more row of `m` are those there were and its own. */
  lemma {:induction false} ConflictsMore(sources: seq<Option<Source>>, rows: seq<seq<Row>>, m: nat, row: Row, c: Conflict)
    requires |rows| == |sources| && m < |sources|
    ensures IsConflict(sources, rows[m := rows[m] + [row]], c) <==>
            IsConflict(sources, rows, c) || exists o :: NewConflict(sources, rows, m, row, o, c)
  {
    hide Meet, NewConflict;
    var now := rows[m := rows[m] + [row]];
    if IsConflict(sources, now, c) {
      var p, q :| Meet(sources, now, p, q, c);
      MeetMore(sources, rows, m, row, p, q, c);
    }
    if IsConflict(sources, rows, c) {
      var p, q :| Meet(sources, rows, p, q, c);
      MeetSame(sources, rows, m, row, p, q, c);
    }
    if o :| NewConflict(sources, rows, m, row, o, c) {
      MeetNew(sources, rows, m, row, o, c);
    }
  }

  // ----- The rows held

  /** A member as compared: the rows of it that may yet meet another source's, when its
      latest row was, and whether it has ended. */
  datatype CompareMember = CompareMember(held: seq<Row>, last: Option<u64>, ended: bool)

  /** No row of the member at `t` is still to come. */
  predicate Passed(source: Option<Source>, m: CompareMember, t: u64) {
    m.ended || (source.Some? && t < source.value.first) || (m.last.Some? && m.last.value > t)
  }

  lemma {:induction false} NotPassed(source: Option<Source>, m: CompareMember, t: u64)
    requires source.Some? && !m.ended && source.value.first <= t && (m.last.Some? ==> m.last.value <= t)
    ensures !Passed(source, m, t)
  {
  }

  ghost predicate InTimeOrder(rows: seq<Row>) {
    forall i, j :: 0 <= i < j < |rows| ==> rows[i].t <= rows[j].t
  }

  /** What a member holds is of its rows, in time order. */
  ghost predicate HeldOk(m: CompareMember, rows: seq<Row>) {
    && InTimeOrder(m.held)
    && forall r :: r in m.held ==> r in rows && m.last.Some? && r.t <= m.last.value
  }

  /** A row another source's member can still read a row at the time of is held. */
  ghost predicate StillHeld(source: Option<Source>, other: Option<Source>, m: CompareMember, o: CompareMember,
                            rows: seq<Row>, readTo: u64)
  {
    Compared(source, other) ==>
      forall r :: r in rows && !Passed(other, o, r.t) && readTo <= r.t ==> r in m.held
  }

  ghost predicate AllHeld(sources: seq<Option<Source>>, members: seq<CompareMember>, rows: seq<seq<Row>>, readTo: u64) {
    && |members| == |sources| == |rows|
    && (forall m :: 0 <= m < |members| ==> HeldOk(members[m], rows[m]))
    && forall m, o :: 0 <= m < |members| && 0 <= o < |members| ==>
         StillHeld(sources[m], sources[o], members[m], members[o], rows[m], readTo)
  }

  /** No row to come can meet member `m`'s rows at `t`. */
  ghost predicate Settled(sources: seq<Option<Source>>, members: seq<CompareMember>, readTo: u64, m: nat, t: u64)
    requires m < |members| == |sources|
  {
    t < readTo ||
    forall o :: 0 <= o < |members| && Compared(sources[m], sources[o]) ==> Passed(sources[o], members[o], t)
  }

  lemma {:induction false} Pop(sources: seq<Option<Source>>, members: seq<CompareMember>, rows: seq<seq<Row>>,
                               readTo: u64, m: nat)
    requires AllHeld(sources, members, rows, readTo) && m < |members| && members[m].held != []
    requires Settled(sources, members, readTo, m, members[m].held[0].t)
    ensures AllHeld(sources, members[m := members[m].(held := members[m].held[1..])], rows, readTo)
  {
    var now := members[m := members[m].(held := members[m].held[1..])];
    var held := members[m].held;
    assert held == [held[0]] + held[1..];
    forall p, q | 0 <= p < |now| && 0 <= q < |now|
      ensures StillHeld(sources[p], sources[q], now[p], now[q], rows[p], readTo)
    {
      assert StillHeld(sources[p], sources[q], members[p], members[q], rows[p], readTo);
    }
  }

  /** Member `m`'s next row: not held yet. */
  lemma {:induction false} NextRow(sources: seq<Option<Source>>, members: seq<CompareMember>, rows: seq<seq<Row>>,
                                   readTo: u64, m: nat, row: Row, hold: bool)
    requires AllHeld(sources, members, rows, readTo) && m < |members| && sources[m].Some?
    requires !Passed(sources[m], members[m], row.t)
    requires hold || Settled(sources, members, readTo, m, row.t)
    ensures var x := members[m].(last := Some(row.t), held := members[m].held + (if hold then [row] else []));
            AllHeld(sources, members[m := x], rows[m := rows[m] + [row]], readTo)
  {
    var x := members[m].(last := Some(row.t), held := members[m].held + (if hold then [row] else []));
    var now, more := members[m := x], rows[m := rows[m] + [row]];
    forall p, q | 0 <= p < |now| && 0 <= q < |now|
      ensures StillHeld(sources[p], sources[q], now[p], now[q], more[p], readTo)
    {
      assert StillHeld(sources[p], sources[q], members[p], members[q], rows[p], readTo);
    }
  }

  lemma {:induction false} NextUncompared(sources: seq<Option<Source>>, members: seq<CompareMember>, rows: seq<seq<Row>>,
                                          readTo: u64, m: nat, row: Row)
    requires AllHeld(sources, members, rows, readTo) && m < |members| && sources[m].None?
    ensures AllHeld(sources, members, rows[m := rows[m] + [row]], readTo)
    ensures forall o, c :: !NewConflict(sources, rows, m, row, o, c)
  {
    var more := rows[m := rows[m] + [row]];
    forall p, q | 0 <= p < |members| && 0 <= q < |members|
      ensures StillHeld(sources[p], sources[q], members[p], members[q], more[p], readTo)
    {
      assert StillHeld(sources[p], sources[q], members[p], members[q], rows[p], readTo);
    }
  }

  /** A row another source's member can still meet is met among the rows held. */
  lemma {:induction false} MetAmongHeld(sources: seq<Option<Source>>, members: seq<CompareMember>, rows: seq<seq<Row>>,
                                        readTo: u64, m: nat, row: Row, o: nat)
    requires AllHeld(sources, members, rows, readTo) && m < |members| && o < |members|
    requires Compared(sources[m], sources[o]) && !Passed(sources[m], members[m], row.t) && readTo <= row.t
    ensures (exists s :: s in members[o].held && Differ(row, s)) <==> exists s :: s in rows[o] && Differ(row, s)
  {
    assert StillHeld(sources[o], sources[m], members[o], members[m], rows[o], readTo);
    assert HeldOk(members[o], rows[o]);
  }

  lemma {:induction false} OrderOfHeld(sources: seq<Option<Source>>, members: seq<CompareMember>, rows: seq<seq<Row>>,
                                       readTo: u64, o: nat)
    requires AllHeld(sources, members, rows, readTo) && o < |members|
    ensures InTimeOrder(members[o].held)
  {
    assert HeldOk(members[o], rows[o]);
  }

  /** Later rows than `t` cannot meet rows before it. */
  lemma {:induction false} ReadFurther(sources: seq<Option<Source>>, members: seq<CompareMember>, rows: seq<seq<Row>>,
                                       readTo: u64, later: u64)
    requires AllHeld(sources, members, rows, readTo) && readTo <= later
    ensures AllHeld(sources, members, rows, later)
  {
    forall p, q | 0 <= p < |members| && 0 <= q < |members|
      ensures StillHeld(sources[p], sources[q], members[p], members[q], rows[p], later)
    {
      assert StillHeld(sources[p], sources[q], members[p], members[q], rows[p], readTo);
    }
  }

  lemma {:induction false} EndKeeps(sources: seq<Option<Source>>, members: seq<CompareMember>, rows: seq<seq<Row>>,
                                    readTo: u64, m: nat)
    requires AllHeld(sources, members, rows, readTo) && m < |members|
    ensures AllHeld(sources, members[m := members[m].(ended := true)], rows, readTo)
  {
    var now := members[m := members[m].(ended := true)];
    forall p, q | 0 <= p < |now| && 0 <= q < |now|
      ensures StillHeld(sources[p], sources[q], now[p], now[q], rows[p], readTo)
    {
      assert StillHeld(sources[p], sources[q], members[p], members[q], rows[p], readTo);
    }
  }

  /** The number of rows before `t`: `partition_point(|r| r.0 < t)`. */
  function RowsBefore(held: seq<Row>, t: u64): (n: nat)
    ensures n <= |held|
  {
    if held == [] || held[0].t >= t then 0 else 1 + RowsBefore(held[1..], t)
  }

  lemma {:induction false} RowsBeforeIs(held: seq<Row>, t: u64)
    requires InTimeOrder(held)
    ensures forall i :: 0 <= i < RowsBefore(held, t) ==> held[i].t < t
    ensures forall i :: RowsBefore(held, t) <= i < |held| ==> t <= held[i].t
  {
    if held != [] && held[0].t < t {
      RowsBeforeIs(held[1..], t);
    }
  }

  /** Whether a held row conflicts with `row`: only those at its time are read. */
  method Conflicts(held: seq<Row>, row: Row) returns (differs: bool)
    requires InTimeOrder(held)
    ensures differs <==> exists s :: s in held && Differ(row, s)
  {
    RowsBeforeIs(held, row.t);
    var i := RowsBefore(held, row.t);
    differs := false;
    while i < |held| && held[i].t == row.t && !differs
      invariant RowsBefore(held, row.t) <= i <= |held|
      invariant differs ==> exists s :: s in held && Differ(row, s)
      invariant !differs ==> forall j :: 0 <= j < i ==> !Differ(row, held[j])
      decreases |held| - i, !differs
    {
      if held[i].window == row.window && held[i].value != row.value {
        assert held[i] in held && Differ(row, held[i]);
        differs := true;
      } else {
        i := i + 1;
      }
    }
  }

  class StageCompare {
    const sources: seq<Option<Source>>
    var members: seq<CompareMember>
    var found: set<Conflict>

    /** Every member's rows compared, and the time every row to come is at or after. */
    ghost var rows: seq<seq<Row>>
    ghost var readTo: u64

    ghost predicate Holding()
      reads `members, `rows, `readTo
    {
      AllHeld(sources, members, rows, readTo)
    }

    /** What was found are exactly the conflicts among the rows so far. */
    ghost predicate Valid()
      reads this
    {
      Holding() && forall c :: c in found <==> IsConflict(sources, rows, c)
    }

    constructor (sources: seq<Option<Source>>)
      ensures Valid() && this.sources == sources && rows == seq(|sources|, _ => []) && readTo == 0
      ensures members == seq(|sources|, _ => CompareMember([], None, false))
    {
      this.sources := sources;
      members := seq(|sources|, _ => CompareMember([], None, false));
      found, rows, readTo := {}, seq(|sources|, _ => []), 0;
    }

    /** The two members' sources differ. */
    predicate ComparedAt(a: nat, b: nat)
      requires a < |sources| && b < |sources|
    {
      Compared(sources[a], sources[b])
    }

    /** Every other source's member has read past `t`. */
    method AllPassed(m: nat, t: u64) returns (done: bool)
      requires |members| == |sources| && m < |sources|
      ensures done <==> forall o :: 0 <= o < |members| && ComparedAt(m, o) ==> Passed(sources[o], members[o], t)
    {
      done := true;
      for o := 0 to |members|
        invariant done <==> forall p :: 0 <= p < o && ComparedAt(m, p) ==> Passed(sources[p], members[p], t)
      {
        done := done && (!ComparedAt(m, o) || Passed(sources[o], members[o], t));
      }
    }

    lemma {:induction false} Counts()
      requires Holding()
      ensures |members| == |sources| == |rows|
    {
    }

    /** A member whose first held row every other source's member has read past holds
        none, so none is held longer than it can meet another. */
    ghost predicate FrontOpen(m: nat)
      requires m < |members| == |sources|
      reads `members
    {
      members[m].held != [] ==>
        exists o :: 0 <= o < |members| && ComparedAt(m, o) && !Passed(sources[o], members[o], members[m].held[0].t)
    }

    /** Drop the held rows every other source's member has read past. */
    method Forget()
      requires Holding()
      modifies `members
      ensures Holding() && |members| == |old(members)| == |sources|
      ensures forall m :: 0 <= m < |members| ==> FrontOpen(m)
      ensures forall m :: 0 <= m < |members| ==>
                members[m].last == old(members)[m].last && members[m].ended == old(members)[m].ended
    {
      Counts();
      hide AllHeld;
      for m := 0 to |members|
        invariant Holding() && |members| == |old(members)| == |sources|
        invariant forall p :: 0 <= p < |members| ==>
                    members[p].last == old(members)[p].last && members[p].ended == old(members)[p].ended
        invariant forall p :: 0 <= p < m ==> FrontOpen(p)
      {
        ForgetOne(m);
      }
    }

    /** Drop member `m`'s held rows every other source's member has read past. */
    method ForgetOne(m: nat)
      requires Holding() && m < |members| == |sources|
      modifies `members
      ensures Holding() && |members| == |old(members)| && FrontOpen(m)
      ensures members == old(members)[m := old(members)[m].(held := members[m].held)]
      ensures forall p :: 0 <= p < m && old(FrontOpen(p)) ==> FrontOpen(p)
    {
      hide AllHeld, Passed;
      var done := true;
      while done && members[m].held != []
        invariant Holding() && |members| == |old(members)| == |sources|
        invariant members == old(members)[m := old(members)[m].(held := members[m].held)]
        invariant !done ==> FrontOpen(m)
        decreases |members[m].held|, done
      {
        done := AllPassed(m, members[m].held[0].t);
        if done {
          Pop(sources, members, rows, readTo, m);
          members := members[m := members[m].(held := members[m].held[1..])];
        }
      }
      forall p | 0 <= p < m && old(FrontOpen(p)) ensures FrontOpen(p) {
        SameFront(old(members), members, p);
      }
    }

    lemma {:induction false} SameFront(was: seq<CompareMember>, now: seq<CompareMember>, p: nat)
      requires |was| == |now| == |sources| && p < |was| && now[p] == was[p]
      requires forall o :: 0 <= o < |was| ==> now[o].last == was[o].last && now[o].ended == was[o].ended
      ensures forall o, t :: 0 <= o < |was| ==> Passed(sources[o], now[o], t) == Passed(sources[o], was[o], t)
    {
    }

    /** Find the conflicts of `row`, member `m`'s next, with the rows held. */
    method FindConflicts(m: nat, row: Row)
      requires Holding() && m < |members| && sources[m].Some?
      requires !Passed(sources[m], members[m], row.t) && readTo <= row.t
      modifies `found
      ensures forall c :: c in found <==> c in old(found) || exists o :: NewConflict(sources, rows, m, row, o, c)
    {
      Counts();
      hide AllHeld, Passed;
      for o := 0 to |members|
        invariant forall c :: c in found <==>
                    c in old(found) || exists p :: 0 <= p < o && NewConflict(sources, rows, m, row, p, c)
      {
        ghost var before := found;
        if ComparedAt(m, o) {
          MetAmongHeld(sources, members, rows, readTo, m, row, o);
          OrderOfHeld(sources, members, rows, readTo, o);
          var differs := Conflicts(members[o].held, row);
          if differs {
            found := found + {ConflictOf(sources[m].value, sources[o].value, row.t)};
          }
        }
        forall c ensures c in found <==> c in before || NewConflict(sources, rows, m, row, o, c) {
        }
      }
    }

    /** Member `m`'s next row: compared with the other sources' held rows at its time,
        and held while another source's member can still read one. */
    method Take(m: nat, row: Row)
      requires Valid() && m < |members|
      requires sources[m].Some? ==>
                 && !members[m].ended && sources[m].value.first <= row.t && readTo <= row.t
                 && (members[m].last.Some? ==> members[m].last.value <= row.t)
      modifies `members, `found, `rows
      ensures Valid() && rows == old(rows)[m := old(rows)[m] + [row]] && |members| == |old(members)|
      ensures forall o :: 0 <= o < |members| ==> members[o].ended == old(members)[o].ended
      ensures forall o :: 0 <= o < |members| ==>
                members[o].last == if o == m && sources[m].Some? then Some(row.t) else old(members)[o].last
      ensures |members| == |sources| && (sources[m].Some? ==> forall o :: 0 <= o < |members| ==> FrontOpen(o))
    {
      Counts();
      hide AllHeld, Passed, IsConflict, NewConflict, Settled;
      if sources[m].Some? {
        NotPassed(sources[m], members[m], row.t);
      }
      forall c ensures IsConflict(sources, rows[m := rows[m] + [row]], c) <==>
                       IsConflict(sources, rows, c) || exists o :: NewConflict(sources, rows, m, row, o, c)
      {
        ConflictsMore(sources, rows, m, row, c);
      }
      if sources[m].None? {
        NextUncompared(sources, members, rows, readTo, m, row);
        rows := rows[m := rows[m] + [row]];
        return;
      }
      FindConflicts(m, row);
      Hold(m, row);
      Forget();
    }

    /** Take row `row` of member `m`, held if a member of another source has
        not passed its time. */
    method Hold(m: nat, row: Row)
      requires Holding() && m < |members| && sources[m].Some? && !Passed(sources[m], members[m], row.t)
      modifies `members, `rows
      ensures Holding() && rows == old(rows)[m := old(rows)[m] + [row]]
      ensures exists held :: members == old(members)[m := CompareMember(held, Some(row.t), old(members)[m].ended)]
    {
      Counts();
      hide AllHeld, Passed;
      ghost var before := members;
      members := members[m := members[m].(last := Some(row.t))];
      var done := AllPassed(m, row.t);
      NextRow(sources, before, rows, readTo, m, row, !done);
      if !done {
        members := members[m := members[m].(held := members[m].held + [row])];
      }
      assert before[m].held + [] == before[m].held;
      rows := rows[m := rows[m] + [row]];
    }

    /** Member `m` has no more rows. */
    method End(m: nat)
      requires Valid() && m < |members|
      modifies `members
      ensures Valid() && |members| == |old(members)|
      ensures forall o :: 0 <= o < |members| ==>
                members[o].last == old(members)[o].last && members[o].ended == (o == m || old(members)[o].ended)
      ensures |members| == |sources| && forall o :: 0 <= o < |members| ==> FrontOpen(o)
    {
      hide AllHeld, IsConflict;
      EndKeeps(sources, members, rows, readTo, m);
      members := members[m := members[m].(ended := true)];
      Forget();
    }

    /** Every row to come is at or after `t`: drop the rows held before it. */
    method ReadTo(t: u64)
      requires Valid()
      modifies `members, `readTo
      ensures Valid() && readTo == Prelude.Max(old(readTo), t) && |members| == |old(members)|
      ensures forall m :: 0 <= m < |members| && members[m].held != [] ==> t <= members[m].held[0].t
      ensures forall o :: 0 <= o < |members| ==>
                members[o].last == old(members)[o].last && members[o].ended == old(members)[o].ended
    {
      Counts();
      hide AllHeld, IsConflict;
      ghost var to := Prelude.Max(readTo, t);
      ReadFurther(sources, members, rows, readTo, to);
      readTo := to;
      for m := 0 to |members|
        invariant Valid() && readTo == to && |members| == |old(members)| == |sources|
        invariant forall p :: 0 <= p < |members| ==>
                    members[p].last == old(members)[p].last && members[p].ended == old(members)[p].ended
        invariant forall p :: 0 <= p < m && members[p].held != [] ==> t <= members[p].held[0].t
      {
        DropBefore(m, t);
      }
    }

    /** Drop member `m`'s held rows before `t`, which no row to come is before. */
    method DropBefore(m: nat, t: u64)
      requires Holding() && m < |members| && t <= readTo
      modifies `members
      ensures Holding() && |members| == |old(members)|
      ensures members == old(members)[m := old(members)[m].(held := members[m].held)]
      ensures members[m].held != [] ==> t <= members[m].held[0].t
    {
      Counts();
      hide AllHeld;
      while members[m].held != [] && members[m].held[0].t < t
        invariant Holding() && |members| == |old(members)| == |sources|
        invariant members == old(members)[m := old(members)[m].(held := members[m].held)]
        decreases |members[m].held|
      {
        Pop(sources, members, rows, readTo, m);
        members := members[m := members[m].(held := members[m].held[1..])];
      }
    }
  }
}
