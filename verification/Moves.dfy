/**
 Rescheduling as an action on dates and on the board (api/db.py:2836-2905): when
 it depends on the final anchor only, and when it agrees with instantiating there.
 */
module Moves {
  import opened Options
  import opened WorkCalendar
  import opened WorkdayMask
  import opened BoardModel
  import opened Cohorts

  // ---- Dates under a sequence of anchor moves --------------------------------

  /** The work-day count a workweek sees between two anchors. */
  ghost function Delta(wd: Workweek, a: int, b: int): int {
    Index(wd, b) - Index(wd, a)
  }

  /** A card date after the instance's anchor moves from `s0` through `anchors`. */
  ghost function Carried(wd: Workweek, d: int, s0: int, anchors: seq<int>): int
    decreases |anchors|
  {
    if anchors == [] then d
    else Carried(wd, Shift(wd, d, Delta(wd, s0, anchors[0])), anchors[0], anchors[1..])
  }

  ghost function Sign(n: int): int {
    if n > 0 then 1 else if n < 0 then -1 else 0
  }

  /** Direction of the first move that crosses a work day; 0 if none does. */
  ghost function FirstDirection(wd: Workweek, s0: int, anchors: seq<int>): int
    decreases |anchors|
  {
    if anchors == [] then 0
    else if Delta(wd, s0, anchors[0]) != 0 then Sign(Delta(wd, s0, anchors[0]))
    else FirstDirection(wd, anchors[0], anchors[1..])
  }

  ghost function Last(s0: int, anchors: seq<int>): int {
    if anchors == [] then s0 else anchors[|anchors| - 1]
  }

  lemma LastOfTail(s0: int, anchors: seq<int>)
    requires anchors != []
    ensures Last(anchors[0], anchors[1..]) == Last(s0, anchors)
  {
  }

  lemma {:induction false} CarriedFromWorkDay(wd: Workweek, d: int, s0: int, anchors: seq<int>)
    requires IsWork(wd, d)
    ensures Carried(wd, d, s0, anchors) == Shift(wd, d, Delta(wd, s0, Last(s0, anchors)))
    decreases |anchors|
  {
    hide Shift, Index, IsWork;
    if anchors != [] {
      var n := Delta(wd, s0, anchors[0]);
      CarriedFromWorkDay(wd, Shift(wd, d, n), anchors[0], anchors[1..]);
      LastOfTail(s0, anchors);
      ShiftAdditive(wd, d, n, Delta(wd, anchors[0], Last(s0, anchors)));
    }
  }

  /**
   Path independence of one date, exactly: a work day always ends where the direct
   move puts it; an off-day does if and only if the first move that crosses a work
   day goes the way of the whole journey.
   */
  lemma {:induction false} CarriedIsDirect(wd: Workweek, d: int, s0: int, anchors: seq<int>)
    ensures Carried(wd, d, s0, anchors) == Shift(wd, d, Delta(wd, s0, Last(s0, anchors)))
       <==> IsWork(wd, d) || FirstDirection(wd, s0, anchors) == Sign(Delta(wd, s0, Last(s0, anchors)))
    decreases |anchors|
  {
    hide Index, Weekday, Shift;
    if IsWork(wd, d) {
      CarriedFromWorkDay(wd, d, s0, anchors);
    } else if anchors != [] {
      var n := Delta(wd, s0, anchors[0]);
      var rest := Delta(wd, anchors[0], Last(s0, anchors));
      LastOfTail(s0, anchors);
      if n == 0 {
        CarriedIsDirect(wd, d, anchors[0], anchors[1..]);
      } else {
        CarriedFromWorkDay(wd, Shift(wd, d, n), anchors[0], anchors[1..]);
        LandsTogether(wd, d, n, rest);
      }
    }
  }

  /** From an off-day, two steps equal one exactly when the first goes the way of the sum. */
  lemma LandsTogether(wd: Workweek, d: int, n: int, rest: int)
    requires !IsWork(wd, d) && n != 0
    ensures Shift(wd, Shift(wd, d, n), rest) == Shift(wd, d, n + rest) <==> Sign(n) == Sign(n + rest)
  {
    hide Index, Weekday;
    var two, one := Shift(wd, Shift(wd, d, n), rest), Shift(wd, d, n + rest);
    assert IsWork(wd, two);
    assert Index(wd, two) == Index(wd, d) + n + rest + (if n < 0 then 1 else 0);
    if Sign(n) == Sign(n + rest) {
      IndexInjective(wd, two, one);
    }
  }

  // ---- The board ------------------------------------------------------------------

  /** Rescheduling an instance through a sequence of start dates. */
  ghost function Reschedules(b: Tables, iid: string, anchors: seq<int>): Tables
    decreases |anchors|
  {
    if anchors == [] then b else Reschedules(Reschedule(b, iid, anchors[0]), iid, anchors[1..])
  }

  /** An attached card's dates after the moves; other cards stay as they are. */
  lemma {:induction false} ReschedulesCard(b: Tables, iid: string, anchors: seq<int>, id: string)
    requires Schedulable(b, iid) && id in b.cards
    ensures
      var b' := Reschedules(b, iid, anchors);
      var c := b.cards[id];
      var wd := WeekOf(UnitOf(b, iid), c.workDays);
      var s0 := b.instances[iid].startDate;
      && b'.cards.Keys == b.cards.Keys
      && b'.instances == b.instances[iid := b.instances[iid].(startDate := Last(s0, anchors))]
      && (b'.templates, b'.deps, b'.bom, b'.catalog) == (b.templates, b.deps, b.bom, b.catalog)
      && b'.cards[id] == if c.instance == Some(iid)
          then c.(startDate := Carried(wd, c.startDate, s0, anchors), endDate := Carried(wd, c.endDate, s0, anchors))
          else c
    decreases |anchors|
  {
    hide Shift, Index, WeekOf, Weekday;
    if anchors != [] {
      ReschedulesCard(Reschedule(b, iid, anchors[0]), iid, anchors[1..], id);
      LastOfTail(b.instances[iid].startDate, anchors);
    } else {
      assert b.instances == b.instances[iid := b.instances[iid]];
    }
  }

  /** Both dates of a card are work days of its own workweek. */
  ghost predicate OnCalendar(b: Tables, iid: string, c: Card)
    requires Schedulable(b, iid)
  {
    var wd := WeekOf(UnitOf(b, iid), c.workDays);
    IsWork(wd, c.startDate) && IsWork(wd, c.endDate)
  }

  /** The moves set off, in the card's workweek, the way they end up going. */
  ghost predicate SetsOffRight(b: Tables, iid: string, c: Card, anchors: seq<int>)
    requires Schedulable(b, iid)
  {
    var wd := WeekOf(UnitOf(b, iid), c.workDays);
    var s0 := b.instances[iid].startDate;
    FirstDirection(wd, s0, anchors) == Sign(Delta(wd, s0, Last(s0, anchors)))
  }

  /**
   Path independence: any finite sequence of moves leaves the board as the one
   direct move to its end does, if and only if for every attached card its dates
   are on its calendar or the sequence sets off the way it ends up going.
   */
  lemma PathIndependence(b: Tables, iid: string, anchors: seq<int>)
    requires Schedulable(b, iid)
    ensures Reschedules(b, iid, anchors) == Reschedule(b, iid, Last(b.instances[iid].startDate, anchors))
       <==> forall id | id in Attached(b, iid) ::
              OnCalendar(b, iid, b.cards[id]) || SetsOffRight(b, iid, b.cards[id], anchors)
  {
    var b' := Reschedules(b, iid, anchors);
    var direct := Reschedule(b, iid, Last(b.instances[iid].startDate, anchors));
    forall id | id in b.cards
      ensures b'.cards.Keys == direct.cards.Keys
      ensures (b'.instances, b'.templates, b'.deps, b'.bom, b'.catalog)
           == (direct.instances, direct.templates, direct.deps, direct.bom, direct.catalog)
      ensures b'.cards[id] == direct.cards[id] <==>
        id !in Attached(b, iid) || OnCalendar(b, iid, b.cards[id]) || SetsOffRight(b, iid, b.cards[id], anchors)
    {
      CardPathIndependence(b, iid, anchors, id);
    }
    if b.cards == map[] {
      NoCards(b, iid, anchors);
    }
    assert b'.cards == direct.cards <==> forall id | id in b.cards :: b'.cards[id] == direct.cards[id] by {
      if id :| id in b.cards {
        assert b'.cards.Keys == direct.cards.Keys;
      }
    }
  }

  lemma CardPathIndependence(b: Tables, iid: string, anchors: seq<int>, id: string)
    requires Schedulable(b, iid) && id in b.cards
    ensures
      var b' := Reschedules(b, iid, anchors);
      var direct := Reschedule(b, iid, Last(b.instances[iid].startDate, anchors));
      && b'.cards.Keys == direct.cards.Keys
      && (b'.instances, b'.templates, b'.deps, b'.bom, b'.catalog)
           == (direct.instances, direct.templates, direct.deps, direct.bom, direct.catalog)
      && (b'.cards[id] == direct.cards[id] <==>
           id !in Attached(b, iid) || OnCalendar(b, iid, b.cards[id]) || SetsOffRight(b, iid, b.cards[id], anchors))
  {
    hide Shift, Index, WeekOf, IsWork;
    var c := b.cards[id];
    var wd := WeekOf(UnitOf(b, iid), c.workDays);
    var s0 := b.instances[iid].startDate;
    ReschedulesCard(b, iid, anchors, id);
    CarriedIsDirect(wd, c.startDate, s0, anchors);
    CarriedIsDirect(wd, c.endDate, s0, anchors);
  }

  lemma {:induction false} NoCards(b: Tables, iid: string, anchors: seq<int>)
    requires Schedulable(b, iid) && b.cards == map[]
    ensures Reschedules(b, iid, anchors) == Reschedule(b, iid, Last(b.instances[iid].startDate, anchors))
    decreases |anchors|
  {
    if anchors != [] {
      NoCards(Reschedule(b, iid, anchors[0]), iid, anchors[1..]);
      LastOfTail(b.instances[iid].startDate, anchors);
    } else {
      assert b.instances == b.instances[iid := b.instances[iid]];
    }
  }

  /** Moving away and back restores the board exactly when cards on off-days feel no move. */
  lemma ThereAndBack(b: Tables, iid: string, away: int)
    requires Schedulable(b, iid)
    ensures Reschedules(b, iid, [away, b.instances[iid].startDate]) == b
       <==> forall id | id in Attached(b, iid) ::
              OnCalendar(b, iid, b.cards[id])
              || Delta(WeekOf(UnitOf(b, iid), b.cards[id].workDays), b.instances[iid].startDate, away) == 0
  {
    hide Shift, Index, WeekOf, IsWork;
    var s0 := b.instances[iid].startDate;
    var anchors := [away, s0];
    PathIndependence(b, iid, anchors);
    StandingStill(b, iid);
    forall id | id in Attached(b, iid)
      ensures SetsOffRight(b, iid, b.cards[id], anchors)
         <==> Delta(WeekOf(UnitOf(b, iid), b.cards[id].workDays), s0, away) == 0
    {
      var wd := WeekOf(UnitOf(b, iid), b.cards[id].workDays);
      assert anchors[1..] == [s0] && anchors[1..][1..] == [];
      assert FirstDirection(wd, s0, []) == 0;
      assert FirstDirection(wd, away, [s0]) == Sign(Delta(wd, away, s0));
    }
  }

  // ---- Order and spacing ----------------------------------------------------------------

  /** The work-day gap between two dates survives n work days exactly when they go forward or start alike. */
  lemma ShiftKeepsGap(wd: Workweek, a: int, b: int, n: int)
    requires a <= b
    ensures Shift(wd, a, n) <= Shift(wd, b, n)
    ensures |WorkDaysIn(wd, Shift(wd, a, n), Shift(wd, b, n))| == |WorkDaysIn(wd, a, b)|
       <==> n >= 0 || IsWork(wd, a) == IsWork(wd, b)
  {
    hide Shift, Index, Weekday, IsWork;
    ShiftMonotone(wd, a, b, n);
    IndexCounts(wd, a, b);
    IndexCounts(wd, Shift(wd, a, n), Shift(wd, b, n));
  }

  /** Two dates stay apart exactly when the move finds a work day between them on the side it sets off to. */
  lemma ShiftKeepsApart(wd: Workweek, a: int, b: int, n: int)
    requires a < b
    ensures Shift(wd, a, n) < Shift(wd, b, n)
       <==> n == 0 || (n > 0 && WorkDaysIn(wd, a, b) != {}) || (n < 0 && WorkDaysIn(wd, a - 1, b - 1) != {})
  {
    hide Shift, Index, Weekday, IsWork, WorkDaysIn;
    ShiftMonotone(wd, a, b, n);
    IndexCounts(wd, a, b);
    IndexCounts(wd, a - 1, b - 1);
    IndexStep(wd, a);
    IndexStep(wd, b);
    if n != 0 && Shift(wd, a, n) < Shift(wd, b, n) {
      IndexBefore(wd, Shift(wd, a, n), Shift(wd, b, n));
    }
  }

  /**
   What n work days do to two dates of one workweek: they keep their order; the
   work-day gap stays exactly when the move is not backward or both or neither
   are work days; strict order stays exactly when a work day parts them, counting
   the later date in a forward move and the earlier one in a backward move.
   */
  ghost predicate KeepsSpacing(wd: Workweek, n: int, a: int, b: int, a': int, b': int) {
    && (a <= b ==>
          && a' <= b'
          && (|WorkDaysIn(wd, a', b')| == |WorkDaysIn(wd, a, b)| <==> n >= 0 || IsWork(wd, a) == IsWork(wd, b)))
    && (a < b ==>
          (a' < b' <==>
             n == 0 || (n > 0 && WorkDaysIn(wd, a, b) != {}) || (n < 0 && WorkDaysIn(wd, a - 1, b - 1) != {})))
  }

  lemma ShiftKeepsSpacing(wd: Workweek, a: int, b: int, n: int)
    ensures KeepsSpacing(wd, n, a, b, Shift(wd, a, n), Shift(wd, b, n))
  {
    hide Shift, Index, IsWork, WorkDaysIn;
    if a <= b {
      ShiftKeepsGap(wd, a, b, n);
    }
    if a < b {
      ShiftKeepsApart(wd, a, b, n);
    }
  }

  /**
   Attached cards of one workweek never change order, start against start, end
   against end, or one's end against the other's start; and when a gap or a strict
   order survives is decided exactly by the direction and the dates before the move.
   */
  lemma RescheduleKeepsSpacing(b: Tables, iid: string, newStart: int, x: string, y: string)
    requires Schedulable(b, iid) && x in Attached(b, iid) && y in Attached(b, iid)
    requires WeekOf(UnitOf(b, iid), b.cards[x].workDays) == WeekOf(UnitOf(b, iid), b.cards[y].workDays)
    ensures
      var wd := WeekOf(UnitOf(b, iid), b.cards[x].workDays);
      var n := Delta(wd, b.instances[iid].startDate, newStart);
      var (cx, cy) := (b.cards[x], b.cards[y]);
      var b' := Reschedule(b, iid, newStart);
      var (cx', cy') := (b'.cards[x], b'.cards[y]);
      && KeepsSpacing(wd, n, cx.startDate, cy.startDate, cx'.startDate, cy'.startDate)
      && KeepsSpacing(wd, n, cx.endDate, cy.endDate, cx'.endDate, cy'.endDate)
      && KeepsSpacing(wd, n, cx.endDate, cy.startDate, cx'.endDate, cy'.startDate)
      && KeepsSpacing(wd, n, cx.startDate, cy.endDate, cx'.startDate, cy'.endDate)
  {
    hide Shift, Index, WeekOf, KeepsSpacing;
    var wd := WeekOf(UnitOf(b, iid), b.cards[x].workDays);
    var n := Delta(wd, b.instances[iid].startDate, newStart);
    var (cx, cy) := (b.cards[x], b.cards[y]);
    ShiftKeepsSpacing(wd, cx.startDate, cy.startDate, n);
    ShiftKeepsSpacing(wd, cx.endDate, cy.endDate, n);
    ShiftKeepsSpacing(wd, cx.endDate, cy.startDate, n);
    ShiftKeepsSpacing(wd, cx.startDate, cy.endDate, n);
  }

  // ---- Different workweeks ------------------------------------------------------------

  /** Whole weeks of a move, rounded down; the days left over are fewer than seven. */
  ghost function Weeks(s: int, s': int): (q: int)
    ensures 7 * q <= s' - s < 7 * q + 7
  {
    (s' - s) / 7
  }

  /** Any number of whole weeks, of either sign, as steps. */
  lemma ShiftWeeks(wd: Workweek, d: int, q: int)
    requires IsWork(wd, d)
    ensures IsWork(wd, d + 7 * q) && Index(wd, d + 7 * q) == Index(wd, d) + |wd| * q
    ensures Shift(wd, d, |wd| * q) == d + 7 * q
  {
    hide Index, Weekday, Shift, IsWork;
    var k := if q < 0 then -q else q;
    WholeWeeksOfSteps(wd, d, k);
    IndexWeeks(wd, d, k);
    WorkDaysInWeeksIsProduct(wd, k);
  }

  /** A move is so many whole workweeks and at most one more. */
  lemma DeltaWeeks(wd: Workweek, s: int, s': int)
    ensures
      var q := Weeks(s, s');
      && Delta(wd, s, s') == |wd| * q + Delta(wd, s + 7 * q, s')
      && 0 <= Delta(wd, s + 7 * q, s') <= |wd|
      && Delta(wd, s', s + 7 * q + 7) == |wd| - Delta(wd, s + 7 * q, s')
  {
    hide Index, Weekday;
    var q := Weeks(s, s');
    var k := if q < 0 then -q else q;
    IndexWeeks(wd, s, k);
    WorkDaysInWeeksIsProduct(wd, k);
    assert |wd| * q == if q < 0 then -(|wd| * k) else |wd| * k;
    IndexWeek(wd, s + 7 * q);
    IndexMonotone(wd, s + 7 * q, s');
    IndexMonotone(wd, s', s + 7 * q + 7);
  }

  /**
   A work day moves by the whole weeks of the anchor's move and at most one week
   more, whatever its workweek: by none if the days left over hold no work day of
   it, by a full one only if they hold all of them.
   */
  lemma WorkDayDrift(wd: Workweek, d: int, s: int, s': int)
    requires IsWork(wd, d)
    ensures
      var q := Weeks(s, s');
      var r := Shift(wd, d, Delta(wd, s, s'));
      && d + 7 * q <= r <= d + 7 * q + 7
      && (r == d + 7 * q <==> Delta(wd, s + 7 * q, s') == 0)
      && (r == d + 7 * q + 7 <==> Delta(wd, s + 7 * q, s') == |wd|)
  {
    hide Index, Weekday, Shift;
    var q := Weeks(s, s');
    var m := Delta(wd, s + 7 * q, s');
    DeltaWeeks(wd, s, s');
    ShiftWeeks(wd, d, q);
    ShiftAdditive(wd, d, |wd| * q, m);
    IndexWeek(wd, d + 7 * q);
    WeekdayRepeats(wd, d + 7 * q);
    var r := Shift(wd, d + 7 * q, m);
    if d + 7 * q + 7 < r {
      IndexBefore(wd, d + 7 * q + 7, r);
    }
    if m == |wd| {
      IndexInjective(wd, r, d + 7 * q + 7);
    }
  }

  /** The work day a date moves along with: itself, or the nearest one on the side it leaves behind. */
  ghost function Carrier(wd: Workweek, d: int, forward: bool): (c: int)
    ensures IsWork(wd, c) && (IsWork(wd, d) ==> c == d)
    ensures if forward then d - 6 <= c <= d else d <= c <= d + 6
  {
    WeekdayRepeats(wd, d);
    WeekdayRepeats(wd, d - 7);
    if IsWork(wd, d) then d else if forward then Prev(wd, d) else Next(wd, d)
  }

  lemma CarrierCarries(wd: Workweek, d: int, n: int)
    requires n != 0
    ensures Shift(wd, d, n) == Shift(wd, Carrier(wd, d, n > 0), n)
  {
    hide Index, Weekday, Shift, Prev, Next, IsWork;
    if !IsWork(wd, d) {
      PrevIndex(wd, d);
      NextIndex(wd, d);
      IndexInjective(wd, Shift(wd, d, n), Shift(wd, Carrier(wd, d, n > 0), n));
    }
  }

  lemma DeltaDirection(wd: Workweek, s: int, s': int)
    ensures s <= s' ==> Delta(wd, s, s') >= 0
    ensures s' <= s ==> Delta(wd, s, s') <= 0
    ensures Delta(wd, s, s') == 0 ==> Weeks(s, s') == (if s <= s' then 0 else -1)
  {
    hide Index;
    if s <= s' {
      IndexMonotone(wd, s, s');
    } else {
      IndexMonotone(wd, s', s);
    }
    DeltaWeeks(wd, s, s');
    NoWholeWeek(wd, Weeks(s, s'), Delta(wd, s + 7 * Weeks(s, s'), s'));
  }

  lemma NoWholeWeek(wd: Workweek, q: int, m: int)
    requires 0 <= m <= |wd|
    ensures |wd| * q + m == 0 ==> q == 0 || q == -1
  {
    WeekCardinality(wd);
    assert q > 0 ==> |wd| * q >= |wd|;
    assert q < -1 ==> |wd| * q <= |wd| * -2;
  }

  /** Off its calendar a date goes at most six days further, against the direction of the move. */
  lemma AnyDayDrift(wd: Workweek, d: int, s: int, s': int)
    ensures
      var q := Weeks(s, s');
      var r := Shift(wd, d, Delta(wd, s, s'));
      if s <= s' then d + 7 * q - 6 <= r <= d + 7 * q + 7 else d + 7 * q <= r <= d + 7 * q + 13
  {
    hide Index, Weekday, Shift, Prev, Next, IsWork, Carrier, Weeks, Delta;
    var n := Delta(wd, s, s');
    DeltaDirection(wd, s, s');
    if n != 0 {
      CarrierCarries(wd, d, n);
      WorkDayDrift(wd, Carrier(wd, d, n > 0), s, s');
    }
  }

  /** Work days a week or more apart keep their order even in different workweeks. */
  lemma DistantWorkDaysKeepOrder(wa: Workweek, wb: Workweek, a: int, b: int, s: int, s': int)
    requires IsWork(wa, a) && IsWork(wb, b) && b - a >= 7
    ensures Shift(wa, a, Delta(wa, s, s')) < Shift(wb, b, Delta(wb, s, s'))
  {
    hide Index, Weekday, Shift, IsWork;
    WorkDayDrift(wa, a, s, s');
    WorkDayDrift(wb, b, s, s');
    if b == a + 7 && Delta(wa, s + 7 * Weeks(s, s'), s') == |wa| {
      SharedWeekday(wa, wb, a, s + 7 * Weeks(s, s'), s');
    }
  }

  /** And any two dates do from thirteen days on. */
  lemma DistantDatesKeepOrder(wa: Workweek, wb: Workweek, a: int, b: int, s: int, s': int)
    requires b - a >= 13
    ensures Shift(wa, a, Delta(wa, s, s')) < Shift(wb, b, Delta(wb, s, s'))
  {
    hide Index, Weekday, Shift, IsWork, Weeks, Delta, Carrier;
    var (m, n) := (Delta(wa, s, s'), Delta(wb, s, s'));
    DeltaDirection(wa, s, s');
    DeltaDirection(wb, s, s');
    if m == 0 || n == 0 {
      AnyDayDrift(wa, a, s, s');
      AnyDayDrift(wb, b, s, s');
    } else {
      CarrierCarries(wa, a, m);
      CarrierCarries(wb, b, n);
      DistantWorkDaysKeepOrder(wa, wb, Carrier(wa, a, m > 0), Carrier(wb, b, n > 0), s, s');
    }
  }

  /** Days that hold all work days of one workweek hold one of another with which it shares a weekday. */
  lemma SharedWeekday(wa: Workweek, wb: Workweek, d: int, s: int, s': int)
    requires IsWork(wa, d) && IsWork(wb, d + 7) && s <= s' <= s + 7
    requires Delta(wa, s, s') == |wa|
    ensures Delta(wb, s, s') > 0
  {
    hide Index;
    var x := s + 1 + (d - s - 1) % 7;
    assert Weekday(x) == Weekday(d) == Weekday(d + 7);
    IndexWeek(wa, s);
    if s' < x {
      IndexBefore(wa, s', x);
      IndexMonotone(wa, x, s + 7);
    }
    IndexBefore(wb, s, x);
    IndexMonotone(wb, x, s');
  }

  /** Two cards keep the order of two dates of theirs when far enough apart. */
  ghost predicate KeepsDistant(wa: Workweek, wb: Workweek, a: int, b: int, a': int, b': int) {
    && (b - a >= 7 && IsWork(wa, a) && IsWork(wb, b) ==> a' < b')
    && (b - a >= 13 ==> a' < b')
  }

  lemma ShiftKeepsDistant(wa: Workweek, wb: Workweek, a: int, b: int, s: int, s': int)
    ensures KeepsDistant(wa, wb, a, b, Shift(wa, a, Delta(wa, s, s')), Shift(wb, b, Delta(wb, s, s')))
  {
    hide Shift, IsWork, Delta;
    if b - a >= 7 && IsWork(wa, a) && IsWork(wb, b) {
      DistantWorkDaysKeepOrder(wa, wb, a, b, s, s');
    }
    if b - a >= 13 {
      DistantDatesKeepOrder(wa, wb, a, b, s, s');
    }
  }

  /**
   Attached cards whose workweeks differ can change order, but not when their dates
   are on their calendars and a week apart, nor from thirteen days on anywhere.
   */
  lemma RescheduleKeepsDistantOrder(b: Tables, iid: string, newStart: int, x: string, y: string)
    requires Schedulable(b, iid) && x in Attached(b, iid) && y in Attached(b, iid)
    ensures
      var (wx, wy) := (WeekOf(UnitOf(b, iid), b.cards[x].workDays), WeekOf(UnitOf(b, iid), b.cards[y].workDays));
      var (cx, cy) := (b.cards[x], b.cards[y]);
      var b' := Reschedule(b, iid, newStart);
      var (cx', cy') := (b'.cards[x], b'.cards[y]);
      && KeepsDistant(wx, wy, cx.startDate, cy.startDate, cx'.startDate, cy'.startDate)
      && KeepsDistant(wx, wy, cx.endDate, cy.endDate, cx'.endDate, cy'.endDate)
      && KeepsDistant(wx, wy, cx.endDate, cy.startDate, cx'.endDate, cy'.startDate)
      && KeepsDistant(wx, wy, cx.startDate, cy.endDate, cx'.startDate, cy'.endDate)
  {
    hide Shift, Index, WeekOf, KeepsDistant;
    var (wx, wy) := (WeekOf(UnitOf(b, iid), b.cards[x].workDays), WeekOf(UnitOf(b, iid), b.cards[y].workDays));
    var (cx, cy) := (b.cards[x], b.cards[y]);
    var s := b.instances[iid].startDate;
    ShiftKeepsDistant(wx, wy, cx.startDate, cy.startDate, s, newStart);
    ShiftKeepsDistant(wx, wy, cx.endDate, cy.endDate, s, newStart);
    ShiftKeepsDistant(wx, wy, cx.endDate, cy.startDate, s, newStart);
    ShiftKeepsDistant(wx, wy, cx.startDate, cy.endDate, s, newStart);
  }

  /** Work days a card spans, both ends included. */
  ghost function Span(wd: Workweek, c: Card): int {
    |WorkDaysIn(wd, c.startDate - 1, c.endDate)|
  }

  /**
   A card keeps the number of work days it spans exactly when a forward move finds
   it starting on a work day, a backward move finds it ending on one, or its
   workweek sees no work day between the anchors.
   */
  lemma RescheduleKeepsLength(b: Tables, iid: string, newStart: int, id: string)
    requires Schedulable(b, iid) && id in Attached(b, iid) && b.cards[id].startDate <= b.cards[id].endDate
    ensures
      var c := b.cards[id];
      var wd := WeekOf(UnitOf(b, iid), c.workDays);
      var n := Delta(wd, b.instances[iid].startDate, newStart);
      var c' := Reschedule(b, iid, newStart).cards[id];
      && c'.startDate <= c'.endDate
      && (Span(wd, c') == Span(wd, c)
          <==> n == 0 || (n > 0 && IsWork(wd, c.startDate)) || (n < 0 && IsWork(wd, c.endDate)))
  {
    hide Shift, Index, WeekOf, Weekday, IsWork;
    var c := b.cards[id];
    var wd := WeekOf(UnitOf(b, iid), c.workDays);
    var n := Delta(wd, b.instances[iid].startDate, newStart);
    var (s, e) := (c.startDate, c.endDate);
    ShiftMonotone(wd, s, e, n);
    IndexCounts(wd, s - 1, e);
    IndexCounts(wd, Shift(wd, s, n) - 1, Shift(wd, e, n));
    IndexStep(wd, s);
    IndexStep(wd, Shift(wd, s, n));
  }

  // ---- Rescheduling against instantiating ---------------------------------------------

  /**
   When a task with this offset lands, after a move from S to S', where it would
   land if instantiated at S'.
   */
  ghost predicate SameLanding(wd: Workweek, offset: int, s: int, s': int) {
    if offset > 0 then true
    else if offset < 0 then IsWork(wd, s) == IsWork(wd, s')
    else s == s' || (IsWork(wd, s') && (IsWork(wd, s) || Delta(wd, s, s') > 0))
  }

  lemma OffsetLanding(wd: Workweek, offset: int, s: int, s': int)
    ensures Shift(wd, Shift(wd, s, offset), Delta(wd, s, s')) == Shift(wd, s', offset)
       <==> SameLanding(wd, offset, s, s')
  {
    hide Index, Weekday, Shift;
    var moved, direct := Shift(wd, Shift(wd, s, offset), Delta(wd, s, s')), Shift(wd, s', offset);
    if offset != 0 {
      assert IsWork(wd, moved) && IsWork(wd, direct);
      if Index(wd, moved) == Index(wd, direct) {
        IndexInjective(wd, moved, direct);
      }
    } else if IsWork(wd, s') && Index(wd, moved) == Index(wd, s') && IsWork(wd, moved) {
      IndexInjective(wd, moved, s');
    }
  }

  /** A task's end follows its start: durations commute with moves that keep the landing. */
  lemma EndLanding(wd: Workweek, offset: int, s: int, s': int, shift: int, duration: int)
    requires SameLanding(wd, offset, s, s')
    ensures
      var start, n := Shift(wd, s, offset), Delta(wd, s, s');
      && Shift(wd, EndOf(wd, start, shift, duration).0, n) == EndOf(wd, Shift(wd, start, n), shift, duration).0
      && EndOf(wd, start, shift, duration).1 == EndOf(wd, Shift(wd, start, n), shift, duration).1
  {
    hide Index, Weekday, Shift;
    var start, n := Shift(wd, s, offset), Delta(wd, s, s');
    var last := shift + (if duration < 1 then 1 else duration) - 1;
    if last > 3 && s != s' {
      var k := (last - 1) / 3;
      assert IsWork(wd, start) || n > 0;
      StepsCommute(wd, start, k, n);
    }
  }

  lemma StepsCommute(wd: Workweek, d: int, k: int, n: int)
    requires k > 0 && (IsWork(wd, d) || n > 0)
    ensures Shift(wd, Shift(wd, d, k), n) == Shift(wd, Shift(wd, d, n), k)
  {
    hide Index, Weekday, Shift;
    ShiftAdditive(wd, d, n, k);
    IndexInjective(wd, Shift(wd, Shift(wd, d, k), n), Shift(wd, Shift(wd, d, n), k));
  }

  lemma CardLanding(co: Cohort, s': int, t: Task)
    ensures Moved(co.unit, co.start, s', FreshCard(co, t)) == FreshCard(co.(start := s'), t)
       <==> SameLanding(WeekOf(co.unit, Strip(t.workDays)), t.offsetDays, co.start, s')
  {
    hide Index, Weekday, Shift, WeekOf, Strip, IsWork, EndOf;
    var wd := WeekOf(co.unit, Strip(t.workDays));
    OffsetLanding(wd, t.offsetDays, co.start, s');
    if SameLanding(wd, t.offsetDays, co.start, s') {
      EndLanding(wd, t.offsetDays, co.start, s', if t.offsetShift == 0 then 1 else t.offsetShift, t.duration);
    }
  }

  /**
   Rescheduling an untouched instance of an unchanged template gives the very
   board that instantiating at the new date gives, if and only if every task
   materialised keeps its landing.
   */
  lemma RescheduleIsReinstantiate(b: Tables, tid: string, s: int, s': int, project: string, owner: string,
                                  iid: string, ids: seq<string>)
    requires tid in b.templates && FreshIds(b, ids, |b.templates[tid].tasks|) && Attached(b, iid) == {}
    ensures
      var t := b.templates[tid];
      Reschedule(Instantiate(b, tid, s, project, owner, iid, ids), iid, s')
        == Instantiate(b, tid, s', project, owner, iid, ids)
      <==> forall i | 0 <= i < Reach(b.catalog, t.tasks, 0) ::
             SameLanding(WeekOf(t.unit, Strip(t.tasks[i].workDays)), t.tasks[i].offsetDays, s, s')
  {
    hide Moved, FreshCard, WeekOf, Strip, FillTasks, Edges, AllKnown, PutTasks, SameLanding, Instantiate, Reschedule;
    var t := b.templates[tid];
    var moved := Reschedule(Instantiate(b, tid, s, project, owner, iid, ids), iid, s');
    var direct := Instantiate(b, tid, s', project, owner, iid, ids);
    InstantiateCards(b, tid, s', project, owner, iid, ids);
    MovedAndDirect(b, tid, s, s', project, owner, iid, ids);
    MovedAndDirectRest(b, tid, s, s', project, owner, iid, ids);
    assert moved.cards == direct.cards <==> forall x | x in moved.cards :: moved.cards[x] == direct.cards[x];
  }

  lemma MovedAndDirectRest(b: Tables, tid: string, s: int, s': int, project: string, owner: string, iid: string,
                           ids: seq<string>)
    requires tid in b.templates && FreshIds(b, ids, |b.templates[tid].tasks|)
    ensures
      var moved := Reschedule(Instantiate(b, tid, s, project, owner, iid, ids), iid, s');
      var direct := Instantiate(b, tid, s', project, owner, iid, ids);
      && moved.instances == direct.instances
      && (moved.templates, moved.deps, moved.bom, moved.catalog)
           == (direct.templates, direct.deps, direct.bom, direct.catalog)
  {
    hide Strip, FillTasks, Edges, AllKnown, PutTasks, MovedCards;
  }

  /** The two boards compared card by card. */
  lemma MovedAndDirect(b: Tables, tid: string, s: int, s': int, project: string, owner: string, iid: string,
                       ids: seq<string>)
    requires tid in b.templates && FreshIds(b, ids, |b.templates[tid].tasks|) && Attached(b, iid) == {}
    ensures
      var moved := Reschedule(Instantiate(b, tid, s, project, owner, iid, ids), iid, s');
      var direct := Instantiate(b, tid, s', project, owner, iid, ids);
      var t := b.templates[tid];
      var m := Reach(b.catalog, t.tasks, 0);
      && moved.cards.Keys == direct.cards.Keys == b.cards.Keys + (set i | 0 <= i < m :: ids[i])
      && (forall x | x in b.cards :: moved.cards[x] == direct.cards[x])
      && (forall i | 0 <= i < m ::
            moved.cards[ids[i]] == direct.cards[ids[i]]
            <==> SameLanding(WeekOf(t.unit, Strip(t.tasks[i].workDays)), t.tasks[i].offsetDays, s, s'))
  {
    hide Moved, FreshCard, Instantiate, Reschedule, WeekOf, Strip, SameLanding;
    var t := b.templates[tid];
    var b1 := Instantiate(b, tid, s, project, owner, iid, ids);
    InstantiateCards(b, tid, s, project, owner, iid, ids);
    InstantiateCards(b, tid, s', project, owner, iid, ids);
    InstantiatedRow(b, tid, s, project, owner, iid, ids);
    RescheduledCards(b1, iid, s');
    forall i | 0 <= i < Reach(b.catalog, t.tasks, 0)
      ensures b1.cards[ids[i]].instance == Some(iid)
      ensures Moved(t.unit, s, s', b1.cards[ids[i]]) == FreshCard(CohortOf(b, tid, s', project, iid), t.tasks[i])
         <==> SameLanding(WeekOf(t.unit, Strip(t.tasks[i].workDays)), t.tasks[i].offsetDays, s, s')
    {
      CardLanding(CohortOf(b, tid, s, project, iid), s', t.tasks[i]);
      FreshCardIdentity(CohortOf(b, tid, s, project, iid), t.tasks[i]);
    }
    assert forall x | x in b.cards :: x !in Attached(b, iid);
  }

  lemma InstantiatedRow(b: Tables, tid: string, s: int, project: string, owner: string, iid: string, ids: seq<string>)
    requires tid in b.templates && |ids| == |b.templates[tid].tasks|
    ensures
      var b1 := Instantiate(b, tid, s, project, owner, iid, ids);
      && Schedulable(b1, iid) && UnitOf(b1, iid) == b.templates[tid].unit && b1.instances[iid].startDate == s
  {
    hide Strip, FillTasks, Edges, AllKnown, PutTasks;
  }

  lemma RescheduledCards(b: Tables, iid: string, s': int)
    requires Schedulable(b, iid)
    ensures
      var b' := Reschedule(b, iid, s');
      && b'.cards.Keys == b.cards.Keys
      && (forall x | x in b.cards :: b'.cards[x] ==
            if b.cards[x].instance == Some(iid) then Moved(UnitOf(b, iid), b.instances[iid].startDate, s', b.cards[x])
            else b.cards[x])
  {
    hide Moved;
  }

  // ---- Where the conditions fail ------------------------------------------------------

  /** Days 1, 2, 5, 6 and 8 are a Monday, Tuesday, Friday, Saturday and Monday. */
  lemma FirstDays()
    ensures WeekOf(BusinessDays, "") == MON_TO_FRI
    ensures IsWork(MON_TO_FRI, 1) && IsWork(MON_TO_FRI, 2) && IsWork(MON_TO_FRI, 5) && IsWork(MON_TO_FRI, 8)
    ensures !IsWork(MON_TO_FRI, 6)
    ensures Delta(MON_TO_FRI, 1, 2) == 1 && Delta(MON_TO_FRI, 2, 1) == -1 && Delta(MON_TO_FRI, 6, 5) == 0
  {
    hide Index, Strip;
    NoPieces();
    IndexStep(MON_TO_FRI, 2);
    IndexStep(MON_TO_FRI, 6);
  }

  /** One card of a Monday-to-Friday instance that starts on day 1. */
  ghost function LoneCard(startDate: int, endDate: int): Tables {
    Tables(
      map["t" := Template(1, BusinessDays, "", "", [])],
      map["i" := Instance("t", 1, 1, "", "", Active)],
      map["c" := Card("", "", "", startDate, 1, endDate, 1, Planned, "", "", "", Some("i"), Some("a"))],
      {}, map[], {})
  }

  /** Moved to Tuesday and back to Monday, a card on Saturday comes back on Friday. */
  lemma SaturdayDrifts()
    ensures
      var b := LoneCard(6, 6);
      && Schedulable(b, "i")
      && Reschedules(b, "i", [2, 1]).cards["c"].startDate == 5
      && Reschedules(b, "i", [2, 1]) != Reschedule(b, "i", 1)
  {
    hide Shift, Index, WeekOf, Weekday, IsWork, Prev, Delta;
    var b := LoneCard(6, 6);
    FirstDays();
    ReschedulesCard(b, "i", [2, 1], "c");
    OffDayRoundTrip(MON_TO_FRI, 6, 1);
    assert [2, 1][1..] == [1] && [1][1..] == [];
    assert Carried(MON_TO_FRI, 6, 1, [2, 1]) == Prev(MON_TO_FRI, 6);
    StandingStill(b, "i");
  }

  /** Moved one work day on, a card from Saturday to Monday spans two work days instead of one. */
  lemma SaturdayStretches()
    ensures
      var b := LoneCard(6, 8);
      && Schedulable(b, "i")
      && Span(MON_TO_FRI, Reschedule(b, "i", 2).cards["c"]) != Span(MON_TO_FRI, b.cards["c"])
  {
    hide Shift, Index, WeekOf, Weekday, IsWork, Delta, Span;
    FirstDays();
    RescheduleKeepsLength(LoneCard(6, 8), "i", 2, "c");
  }

  /** A template of one task on the anchor day itself. */
  ghost function LoneTask(): Tables {
    Tables(map["t" := Template(1, BusinessDays, "", "", [Task("a", "", 0, 1, 1, "", "", {}, [])])],
           map[], map[], {}, map[], {})
  }

  /** Instantiated on Saturday and rescheduled to Friday, the task stays on Saturday. */
  lemma SaturdayStays()
    ensures
      var b := LoneTask();
      Reschedule(Instantiate(b, "t", 6, "", "", "i", ["c"]), "i", 5) != Instantiate(b, "t", 5, "", "", "i", ["c"])
  {
    hide Instantiate, Reschedule, Shift, Index, WeekOf, Weekday, IsWork, Delta;
    var b := LoneTask();
    var tasks := b.templates["t"].tasks;
    FirstDays();
    assert FreshIds(b, ["c"], 1) && Attached(b, "i") == {};
    assert Strip("") == "";
    assert Known(b.catalog, tasks[0].requirements);
    RescheduleIsReinstantiate(b, "t", 6, 5, "", "", "i", ["c"]);
    assert Reach(b.catalog, tasks, 0) == 1;
    assert !SameLanding(WeekOf(BusinessDays, Strip(tasks[0].workDays)), tasks[0].offsetDays, 6, 5);
  }

  /** Two one-day cards of an instance that starts on day `s`. */
  ghost function TwoCards(s: int, maskX: string, x: int, maskY: string, y: int): Tables {
    Tables(
      map["t" := Template(1, BusinessDays, "", "", [])],
      map["i" := Instance("t", 1, s, "", "", Active)],
      map["x" := Card("", "", "", x, 1, x, 1, Planned, "", maskX, "", Some("i"), Some("a")),
          "y" := Card("", "", "", y, 1, y, 1, Planned, "", maskY, "", Some("i"), Some("b"))],
      {}, map[], {})
  }

  lemma TwoCardsMoved(s: int, maskX: string, x: int, maskY: string, y: int, s': int)
    ensures
      var b := TwoCards(s, maskX, x, maskY, y);
      var b' := Reschedule(b, "i", s');
      var (wx, wy) := (WeekOf(BusinessDays, maskX), WeekOf(BusinessDays, maskY));
      && Schedulable(b, "i") && b.cards["x"].startDate == x && b.cards["y"].startDate == y
      && Attached(b, "i") == {"x", "y"} && b'.cards.Keys == {"x", "y"}
      && b'.cards["x"].startDate == Shift(wx, x, Delta(wx, s, s'))
      && b'.cards["y"].startDate == Shift(wy, y, Delta(wy, s, s'))
  {
    hide Shift, Index, WeekOf, Reschedule;
    var b := TwoCards(s, maskX, x, maskY, y);
    assert b.cards.Keys == {"x", "y"};
    assert Attached(b, "i") == {"x", "y"};
    RescheduledCards(b, "i", s');
    assert b.cards["x"].workDays == maskX && b.cards["y"].workDays == maskY;
  }

  /** One day back from Friday and from Saturday, and one on from Saturday and from Sunday. */
  lemma AroundTheWeekend()
    ensures Shift(MON_TO_FRI, 5, -1) == 4 && Shift(MON_TO_FRI, 6, -1) == 5
    ensures Shift(MON_TO_FRI, 6, 1) == 8 && Shift(MON_TO_FRI, 7, 1) == 8
    ensures WorkDaysIn(MON_TO_FRI, 5, 6) == {} && WorkDaysIn(MON_TO_FRI, 4, 5) == {5}
  {
    hide Shift, Index;
    assert WorkDaysIn(MON_TO_FRI, 3, 4) == {4} && WorkDaysIn(MON_TO_FRI, 4, 5) == {5};
    assert WorkDaysIn(MON_TO_FRI, 5, 6) == {};
    assert WorkDaysIn(MON_TO_FRI, 6, 8) == {8} && WorkDaysIn(MON_TO_FRI, 7, 8) == {8};
    BackwardShiftCounts(MON_TO_FRI, 5, 1, 4);
    BackwardShiftCounts(MON_TO_FRI, 6, 1, 5);
    ForwardShiftCounts(MON_TO_FRI, 6, 1, 8);
    ForwardShiftCounts(MON_TO_FRI, 7, 1, 8);
  }

  /** Moved a work day back, a Friday and the Saturday after it end with a work day between them. */
  lemma SpacingGrows()
    ensures
      var b := TwoCards(2, "", 5, "", 6);
      var b' := Reschedule(b, "i", 1);
      && |WorkDaysIn(MON_TO_FRI, b.cards["x"].startDate, b.cards["y"].startDate)| == 0
      && |WorkDaysIn(MON_TO_FRI, b'.cards["x"].startDate, b'.cards["y"].startDate)| == 1
  {
    hide Shift, Index, WeekOf, Delta, Reschedule, WorkDaysIn, IsWork;
    FirstDays();
    AroundTheWeekend();
    TwoCardsMoved(2, "", 5, "", 6, 1);
  }

  /** Moved a work day on, a Saturday and the Sunday after it meet on Monday. */
  lemma WeekendCollapses()
    ensures
      var b := TwoCards(1, "", 6, "", 7);
      var b' := Reschedule(b, "i", 2);
      && b.cards["x"].startDate < b.cards["y"].startDate
      && b'.cards["x"].startDate == b'.cards["y"].startDate == 8
  {
    hide Shift, Index, WeekOf, Delta, Reschedule, IsWork;
    FirstDays();
    AroundTheWeekend();
    TwoCardsMoved(1, "", 6, "", 7, 2);
  }

  lemma SingleDayMask(tok: string, w: int)
    requires ',' !in tok && TokenDay(Strip(tok)) == {w}
    ensures WeekOf(BusinessDays, tok) == {w}
  {
    hide Strip, TokenDay, Days;
    DaysOfParts(tok, "");
    assert |{w}| < 7;
  }

  lemma SwappingDates(mon: Workweek, sun: Workweek)
    requires mon == {0} && sun == {6}
    ensures IsWork(mon, 1) && Shift(mon, 1, Delta(mon, 0, 1)) == 8
    ensures IsWork(sun, 7) && Shift(sun, 7, Delta(sun, 0, 1)) == 7
  {
    hide Shift;
    IndexStep(mon, 1);
    IndexStep(sun, 1);
    ShiftWeeks(mon, 1, 1);
  }

  /** Six days are too few: moved from Sunday to Monday, a Monday card passes a Sunday card. */
  lemma OrderSwaps()
    ensures
      var b := TwoCards(0, "M", 1, "Su", 7);
      var b' := Reschedule(b, "i", 1);
      && OnCalendar(b, "i", b.cards["x"]) && OnCalendar(b, "i", b.cards["y"])
      && b'.cards["x"].startDate == 8 && b'.cards["y"].startDate == 7
  {
    hide Shift, Index, WeekOf, IsWork, Delta, Reschedule, Strip;
    StripToken("M");
    StripToken("Su");
    SingleDayMask("M", 0);
    SingleDayMask("Su", 6);
    SwappingDates({0}, {6});
    TwoCardsMoved(0, "M", 1, "Su", 7, 1);
  }

  lemma StripToken(tok: string)
    requires tok != "" && !IsSpace(tok[0]) && !IsSpace(tok[|tok| - 1])
    ensures Strip(tok) == tok
  {
  }

  lemma OffDaySwappingDates(tue: Workweek, mon: Workweek)
    requires tue == {1} && mon == {0}
    ensures IsWork(tue, 2) && Shift(tue, 2, Delta(tue, 1, 9)) == 16
    ensures !IsWork(mon, 14) && Shift(mon, 14, Delta(mon, 1, 9)) == 15
  {
    hide Shift, Index;
    IndexWeek(mon, 1);
    IndexStep(mon, 9);
    IndexWeek(tue, 1);
    IndexStep(tue, 9);
    ShiftWeeks(tue, 2, 2);
    assert WorkDaysIn(mon, 14, 15) == {15};
    ForwardShiftCounts(mon, 14, 1, 15);
  }

  /** Off its calendar even twelve days are too few. */
  lemma OffDayOrderSwaps()
    ensures
      var b := TwoCards(1, "T", 2, "M", 14);
      var b' := Reschedule(b, "i", 9);
      && OnCalendar(b, "i", b.cards["x"]) && !OnCalendar(b, "i", b.cards["y"])
      && b'.cards["x"].startDate == 16 && b'.cards["y"].startDate == 15
  {
    hide Shift, Index, WeekOf, IsWork, Delta, Reschedule, Strip;
    StripToken("T");
    StripToken("M");
    SingleDayMask("T", 1);
    SingleDayMask("M", 0);
    OffDaySwappingDates({1}, {0});
    TwoCardsMoved(1, "T", 2, "M", 14, 9);
  }
}
