/**
 Work-calendar arithmetic of the look-ahead board (api/db.py:2583-2657, 2872-2883).

 A date is its proleptic Gregorian ordinal, an unbounded integer.  A workweek is
 the set of weekdays that count; an unrestricted one is the whole week, for which
 counting work days and counting days coincide.

 Everything rests on `Index`, a potential on dates that rises by one exactly on
 work days: steps of n work days add n to it, and a work day is determined by it.
 */
module WorkCalendar {

  const WEEK: set<int> := {0, 1, 2, 3, 4, 5, 6}
  const MON_TO_FRI: set<int> := {0, 1, 2, 3, 4}

  type Workweek = wd: set<int> | wd != {} && wd <= WEEK witness WEEK

  datatype DurationUnit = CalendarDays | BusinessDays

  /** Python's `date.weekday()`: 0 is Monday. */
  function Weekday(d: int): (w: int)
    ensures 0 <= w < 7
  {
    (d + 6) % 7
  }

  predicate IsWork(wd: Workweek, d: int) {
    Weekday(d) in wd
  }

  /** The first work day after `d`. */
  function Next(wd: Workweek, d: int): (r: int)
    ensures d < r <= d + 7 && IsWork(wd, r)
    ensures forall x | d < x < r :: !IsWork(wd, x)
  {
    WorkdayWithinAWeek(wd, d);
    if IsWork(wd, d + 1) then d + 1
    else if IsWork(wd, d + 2) then d + 2
    else if IsWork(wd, d + 3) then d + 3
    else if IsWork(wd, d + 4) then d + 4
    else if IsWork(wd, d + 5) then d + 5
    else if IsWork(wd, d + 6) then d + 6
    else d + 7
  }

  /** The last work day before `d`. */
  function Prev(wd: Workweek, d: int): (r: int)
    ensures d - 7 <= r < d && IsWork(wd, r)
    ensures forall x | r < x < d :: !IsWork(wd, x)
  {
    WorkdayWithinAWeek(wd, d - 8);
    if IsWork(wd, d - 1) then d - 1
    else if IsWork(wd, d - 2) then d - 2
    else if IsWork(wd, d - 3) then d - 3
    else if IsWork(wd, d - 4) then d - 4
    else if IsWork(wd, d - 5) then d - 5
    else if IsWork(wd, d - 6) then d - 6
    else d - 7
  }

  lemma WorkdayWithinAWeek(wd: Workweek, d: int)
    ensures exists x :: d < x <= d + 7 && IsWork(wd, x)
  {
    var w :| w in wd;
    var e := d % 7;
    var x := d - e + (if w >= e then w + 1 else w + 8);
    assert x == 7 * (d / 7) + (if w >= e then w + 1 else w + 8);
    assert Weekday(x) == w;
    assert IsWork(wd, x);
  }

  // ---- The counting potential --------------------------------------------

  ghost function Bit(wd: Workweek, d: int): int {
    if IsWork(wd, d) then 1 else 0
  }

  /** Signed number of work days between day 0 and `d`. */
  ghost function Index(wd: Workweek, d: int): int
    decreases if d < 0 then -d else d
  {
    if d == 0 then 0
    else if d > 0 then Index(wd, d - 1) + Bit(wd, d)
    else Index(wd, d + 1) - Bit(wd, d + 1)
  }

  lemma IndexStep(wd: Workweek, d: int)
    ensures Index(wd, d) == Index(wd, d - 1) + Bit(wd, d)
  {
  }

  lemma {:induction false} IndexMonotone(wd: Workweek, a: int, b: int)
    requires a <= b
    ensures 0 <= Index(wd, b) - Index(wd, a) <= b - a
    decreases b - a
  {
    if a < b {
      IndexMonotone(wd, a, b - 1);
      IndexStep(wd, b);
    }
  }

  /** The work days of a half-open span, as a set. */
  ghost function WorkDaysIn(wd: Workweek, a: int, b: int): set<int> {
    set x | a < x <= b && IsWork(wd, x)
  }

  /** `Index` differences are cardinalities: the potential counts work days. */
  lemma {:induction false} IndexCounts(wd: Workweek, a: int, b: int)
    requires a <= b
    ensures |WorkDaysIn(wd, a, b)| == Index(wd, b) - Index(wd, a)
    decreases b - a
  {
    if a == b {
      assert WorkDaysIn(wd, a, b) == {};
    } else {
      IndexCounts(wd, a, b - 1);
      IndexStep(wd, b);
      var before := WorkDaysIn(wd, a, b - 1);
      assert WorkDaysIn(wd, a, b) == if IsWork(wd, b) then before + {b} else before;
    }
  }

  lemma IndexBefore(wd: Workweek, a: int, b: int)
    requires a < b && IsWork(wd, b)
    ensures Index(wd, a) < Index(wd, b)
  {
    IndexMonotone(wd, a, b - 1);
    IndexStep(wd, b);
  }

  /** A work day is determined by its index. */
  lemma IndexInjective(wd: Workweek, a: int, b: int)
    requires IsWork(wd, a) && IsWork(wd, b) && Index(wd, a) == Index(wd, b)
    ensures a == b
  {
    if a < b {
      IndexBefore(wd, a, b);
    } else if b < a {
      IndexBefore(wd, b, a);
    }
  }

  lemma {:induction false} IndexFlat(wd: Workweek, a: int, b: int)
    requires a <= b && forall x | a < x <= b :: !IsWork(wd, x)
    ensures Index(wd, a) == Index(wd, b)
    decreases b - a
  {
    if a < b {
      IndexFlat(wd, a, b - 1);
      IndexStep(wd, b);
    }
  }

  lemma NextIndex(wd: Workweek, d: int)
    ensures Index(wd, Next(wd, d)) == Index(wd, d) + 1
  {
    IndexFlat(wd, d, Next(wd, d) - 1);
    IndexStep(wd, Next(wd, d));
  }

  lemma PrevIndex(wd: Workweek, d: int)
    ensures Index(wd, Prev(wd, d)) == Index(wd, d) - Bit(wd, d)
  {
    IndexFlat(wd, Prev(wd, d), d - 1);
    IndexStep(wd, d);
  }

  lemma {:induction false} WholeWeekIndex(d: int)
    ensures Index(WEEK, d) == d
    decreases if d < 0 then -d else d
  {
    if d > 0 {
      WholeWeekIndex(d - 1);
    } else if d < 0 {
      WholeWeekIndex(d + 1);
    }
  }

  // ---- Stepping by work days ---------------------------------------------

  /**
   The date `n` work days from `d`: the specification of the stepping loop.
   Zero steps leave an off-day where it is; otherwise the result is a work day.
   */
  function Shift(wd: Workweek, d: int, n: int): (r: int)
    ensures n == 0 ==> r == d
    ensures n > 0 ==> IsWork(wd, r) && d < r && Index(wd, r) == Index(wd, d) + n
    ensures n < 0 ==> IsWork(wd, r) && r < d && Index(wd, r) == Index(wd, d) + n + 1 - Bit(wd, d)
    decreases if n < 0 then -n else n
  {
    if n == 0 then d
    else if n > 0 then
      var p := Shift(wd, d, n - 1);
      NextIndex(wd, p);
      Next(wd, p)
    else
      var p := Shift(wd, d, n + 1);
      PrevIndex(wd, p);
      Prev(wd, p)
  }

  /** Forward: the unique work day with exactly n work days in (d, r]. */
  lemma ForwardShiftCounts(wd: Workweek, d: int, n: int, r: int)
    requires n > 0
    ensures r == Shift(wd, d, n) <==> d < r && IsWork(wd, r) && |WorkDaysIn(wd, d, r)| == n
  {
    if d < r {
      IndexCounts(wd, d, r);
    }
    if d < r && IsWork(wd, r) && |WorkDaysIn(wd, d, r)| == n {
      IndexInjective(wd, r, Shift(wd, d, n));
    }
  }

  /** Backward: the unique work day with exactly n work days in [r, d). */
  lemma BackwardShiftCounts(wd: Workweek, d: int, n: int, r: int)
    requires n > 0
    ensures r == Shift(wd, d, -n) <==> r < d && IsWork(wd, r) && |WorkDaysIn(wd, r - 1, d - 1)| == n
  {
    IndexStep(wd, d);
    IndexStep(wd, r);
    if r < d {
      IndexCounts(wd, r - 1, d - 1);
    }
    if r < d && IsWork(wd, r) && |WorkDaysIn(wd, r - 1, d - 1)| == n {
      IndexInjective(wd, r, Shift(wd, d, -n));
    }
  }

  // ---- Algebra of steps ---------------------------------------------------

  /** Additive from a work day for all signs, and from any date for equal signs. */
  lemma ShiftAdditive(wd: Workweek, d: int, m: int, n: int)
    requires IsWork(wd, d) || (m >= 0 && n >= 0) || (m <= 0 && n <= 0)
    ensures Shift(wd, Shift(wd, d, m), n) == Shift(wd, d, m + n)
  {
    var two := Shift(wd, Shift(wd, d, m), n);
    var one := Shift(wd, d, m + n);
    if m != 0 && n != 0 {
      IndexInjective(wd, two, if m + n == 0 then d else one);
    }
  }

  /** Work days are a torsor of the integers: each step is undone by its negative. */
  lemma ShiftInverse(wd: Workweek, d: int, n: int)
    requires IsWork(wd, d)
    ensures Shift(wd, Shift(wd, d, n), -n) == d
  {
    ShiftAdditive(wd, d, n, -n);
  }

  /** From an off-day, forward and back lands on the last work day before it. */
  lemma OffDayRoundTrip(wd: Workweek, d: int, n: int)
    requires !IsWork(wd, d) && n > 0
    ensures Shift(wd, Shift(wd, d, n), -n) == Prev(wd, d)
    ensures Shift(wd, Shift(wd, d, -n), n) == Next(wd, d)
  {
    NextIndex(wd, d);
    PrevIndex(wd, d);
    IndexInjective(wd, Shift(wd, Shift(wd, d, n), -n), Prev(wd, d));
    IndexInjective(wd, Shift(wd, Shift(wd, d, -n), n), Next(wd, d));
  }

  lemma ShiftMonotone(wd: Workweek, a: int, b: int, n: int)
    requires a <= b
    ensures Shift(wd, a, n) <= Shift(wd, b, n)
    ensures IsWork(wd, a) && IsWork(wd, b) && a < b ==> Shift(wd, a, n) < Shift(wd, b, n)
    ensures IsWork(wd, a) && IsWork(wd, b)
            ==> Index(wd, Shift(wd, b, n)) - Index(wd, Shift(wd, a, n)) == Index(wd, b) - Index(wd, a)
  {
    hide Weekday, Shift;
    IndexMonotone(wd, a, b);
    if a < b {
      IndexMonotone(wd, a, b - 1);
      IndexStep(wd, b);
    }
    var r, s := Shift(wd, a, n), Shift(wd, b, n);
    if n != 0 && s < r {
      IndexBefore(wd, s, r);
    }
    if IsWork(wd, a) && IsWork(wd, b) && s < r {
      IndexBefore(wd, s, r);
    }
  }

  // ---- Weeks --------------------------------------------------------------

  ghost function InBit(wd: Workweek, w: int): int {
    if w in wd then 1 else 0
  }

  lemma CardinalityBelow(wd: Workweek, k: int)
    requires 0 <= k < 7
    ensures |set w | w in wd && w < k + 1| == |set w | w in wd && w < k| + InBit(wd, k)
  {
    var below := set w | w in wd && w < k;
    assert (set w | w in wd && w < k + 1) == if k in wd then below + {k} else below;
  }

  lemma WeekCardinality(wd: Workweek)
    ensures |wd| == InBit(wd, 0) + InBit(wd, 1) + InBit(wd, 2) + InBit(wd, 3)
                    + InBit(wd, 4) + InBit(wd, 5) + InBit(wd, 6)
    ensures 1 <= |wd| <= 7
    ensures |wd| == 7 <==> wd == WEEK
  {
    assert (set w | w in wd && w < 0) == {};
    assert (set w | w in wd && w < 7) == wd;
    CardinalityBelow(wd, 0); CardinalityBelow(wd, 1); CardinalityBelow(wd, 2); CardinalityBelow(wd, 3);
    CardinalityBelow(wd, 4); CardinalityBelow(wd, 5); CardinalityBelow(wd, 6);
  }

  lemma WeekdayRepeats(wd: Workweek, d: int)
    ensures IsWork(wd, d + 7) == IsWork(wd, d)
  {
    assert Weekday(d + 7) == Weekday(d);
  }

  lemma FirstWeek(wd: Workweek)
    ensures Index(wd, 7) == Index(wd, 0) + |wd|
  {
    hide Index;
    WeekCardinality(wd);
    IndexStep(wd, 1); IndexStep(wd, 2); IndexStep(wd, 3); IndexStep(wd, 4);
    IndexStep(wd, 5); IndexStep(wd, 6); IndexStep(wd, 7);
  }

  /** Seven days always hold one full workweek. */
  lemma {:induction false} IndexWeek(wd: Workweek, d: int)
    ensures Index(wd, d + 7) == Index(wd, d) + |wd|
    decreases if d < 0 then -d else d
  {
    hide Weekday, Index;
    if d == 0 {
      FirstWeek(wd);
    } else {
      var e := if d > 0 then d else d + 1;
      IndexWeek(wd, if d > 0 then d - 1 else d + 1);
      IndexStep(wd, e);
      IndexStep(wd, e + 7);
      WeekdayRepeats(wd, e);
    }
  }

  /** The work days in k whole weeks. */
  function WorkDaysInWeeks(wd: Workweek, k: nat): nat {
    if k == 0 then 0 else WorkDaysInWeeks(wd, k - 1) + |wd|
  }

  lemma {:induction false} WorkDaysInWeeksIsProduct(wd: Workweek, k: nat)
    ensures WorkDaysInWeeks(wd, k) == |wd| * k
  {
    if k > 0 {
      WorkDaysInWeeksIsProduct(wd, k - 1);
    }
  }

  lemma {:induction false} IndexWeeks(wd: Workweek, d: int, k: nat)
    ensures Index(wd, d + 7 * k) == Index(wd, d) + WorkDaysInWeeks(wd, k)
    ensures Index(wd, d - 7 * k) == Index(wd, d) - WorkDaysInWeeks(wd, k)
    ensures IsWork(wd, d + 7 * k) == IsWork(wd, d) == IsWork(wd, d - 7 * k)
  {
    hide Weekday;
    if k > 0 {
      IndexWeeks(wd, d, k - 1);
      IndexWeek(wd, d + 7 * (k - 1));
      IndexWeek(wd, d - 7 * k);
      WeekdayRepeats(wd, d + 7 * (k - 1));
      WeekdayRepeats(wd, d - 7 * k);
    }
  }

  /** Whole weeks taken before the last, possibly partial, week of n > 0 work days. */
  function FullWeeks(wd: Workweek, n: int): (q: nat)
    requires n > 0
    ensures 0 < n - WorkDaysInWeeks(wd, q) <= |wd|
    decreases n
  {
    if n <= |wd| then 0 else 1 + FullWeeks(wd, n - |wd|)
  }

  /** Week-at-a-time stepping: whole weeks first, then at most |wd| single steps. */
  function FastShift(wd: Workweek, d: int, n: int): int {
    if n == 0 then d
    else if n > 0 then
      var q := FullWeeks(wd, n);
      Shift(wd, d + 7 * q, n - WorkDaysInWeeks(wd, q))
    else
      var q := FullWeeks(wd, -n);
      Shift(wd, d - 7 * q, n + WorkDaysInWeeks(wd, q))
  }

  /** Steps from different dates meet when their target indices agree. */
  lemma ShiftsMeet(wd: Workweek, a: int, m: int, b: int, n: int)
    requires (m > 0 && n > 0) || (m < 0 && n < 0 && Bit(wd, a) == Bit(wd, b))
    requires Index(wd, a) + m == Index(wd, b) + n
    ensures Shift(wd, a, m) == Shift(wd, b, n)
  {
    IndexInjective(wd, Shift(wd, a, m), Shift(wd, b, n));
  }

  /** The fast form refines day-by-day stepping, from any date and for any n. */
  lemma FastShiftRefines(wd: Workweek, d: int, n: int)
    ensures FastShift(wd, d, n) == Shift(wd, d, n)
  {
    hide Weekday, Shift, Index, FullWeeks, WorkDaysInWeeks;
    if n > 0 {
      var q := FullWeeks(wd, n);
      IndexWeeks(wd, d, q);
      ShiftsMeet(wd, d + 7 * q, n - WorkDaysInWeeks(wd, q), d, n);
    } else if n < 0 {
      var q := FullWeeks(wd, -n);
      IndexWeeks(wd, d, q);
      ShiftsMeet(wd, d - 7 * q, n + WorkDaysInWeeks(wd, q), d, n);
    }
  }

  /** n work days never reach further than ceil(n / |wd|) weeks, either way. */
  lemma ShiftDistance(wd: Workweek, d: int, n: int)
    requires n > 0
    ensures |wd| * FullWeeks(wd, n) < n <= |wd| * (FullWeeks(wd, n) + 1)
    ensures Shift(wd, d, n) <= d + 7 * (FullWeeks(wd, n) + 1)
    ensures d - 7 * (FullWeeks(wd, n) + 1) <= Shift(wd, d, -n)
  {
    hide Weekday;
    var q := FullWeeks(wd, n) + 1;
    WorkDaysInWeeksIsProduct(wd, q - 1);
    WorkDaysInWeeksIsProduct(wd, q);
    IndexWeeks(wd, d, q);
    WithinReach(wd, d, n, d + 7 * q);
    WithinReachBack(wd, d, n, d - 7 * q);
  }

  lemma WithinReach(wd: Workweek, d: int, n: int, bound: int)
    requires n > 0 && Index(wd, d) + n <= Index(wd, bound)
    ensures Shift(wd, d, n) <= bound
  {
    if bound < Shift(wd, d, n) {
      IndexBefore(wd, bound, Shift(wd, d, n));
    }
  }

  lemma WithinReachBack(wd: Workweek, d: int, n: int, bound: int)
    requires n > 0 && Index(wd, bound) <= Index(wd, d) - n && Bit(wd, bound) == Bit(wd, d)
    ensures bound <= Shift(wd, d, -n)
  {
    if Shift(wd, d, -n) < bound {
      IndexMonotone(wd, Shift(wd, d, -n), bound - 1);
      IndexStep(wd, bound);
    }
  }

  /** From a work day, k workweeks of steps are 7k calendar days. */
  lemma WholeWeeksOfSteps(wd: Workweek, d: int, k: nat)
    requires IsWork(wd, d)
    ensures Shift(wd, d, |wd| * k) == d + 7 * k
    ensures Shift(wd, d, -(|wd| * k)) == d - 7 * k
  {
    hide Weekday;
    WorkDaysInWeeksIsProduct(wd, k);
    var n: int := WorkDaysInWeeks(wd, k);
    IndexWeeks(wd, d, k);
    IndexInjective(wd, Shift(wd, d, n), d + 7 * k);
    IndexInjective(wd, Shift(wd, d, -n), d - 7 * k);
  }

  // ---- The loops of the program -------------------------------------------

  /** Whether a resolved mask restricts stepping at all. */
  predicate Restricted(mask: set<int>) {
    mask != {} && |mask| < 7
  }

  /** The workweek a resolved mask stands for: empty and full masks restrict nothing. */
  function Effective(mask: set<int>): Workweek
    requires mask <= WEEK
  {
    if Restricted(mask) then mask else WEEK
  }

  /** A non-empty mask stands for itself, however many days it has; an empty one for every day. */
  lemma EffectiveIsMask(mask: set<int>)
    requires mask <= WEEK
    ensures Effective(mask) == if mask == {} then WEEK else mask
  {
    if mask != {} {
      WeekCardinality(mask);
    }
  }

  /**
   `cur` is n days of the mask away from `date`: one of its days, with n of them on
   the way.  Every day counts for an empty mask, and no step leaves any date alone.
   */
  ghost predicate Lands(mask: set<int>, date: int, n: int, cur: int) {
    if n == 0 then cur == date
    else if mask == {} then cur == date + n
    else
      && Weekday(cur) in mask
      && (n > 0 ==> date < cur && |set x | date < x <= cur && Weekday(x) in mask| == n)
      && (n < 0 ==> cur < date && |set x | cur <= x < date && Weekday(x) in mask| == -n)
  }

  /** Landing is where the steps of the mask's workweek lead, and nowhere else. */
  lemma LandsIsShift(mask: set<int>, date: int, n: int, cur: int)
    requires mask <= WEEK
    ensures Lands(mask, date, n, cur) <==> cur == Shift(Effective(mask), date, n)
  {
    hide Shift, Weekday;
    var wd := Effective(mask);
    EffectiveIsMask(mask);
    if mask == {} {
      EveryDayCounts(date, n);
    } else if n > 0 {
      ForwardShiftCounts(wd, date, n, cur);
      assert WorkDaysIn(wd, date, cur) == set x | date < x <= cur && Weekday(x) in mask;
    } else if n < 0 {
      BackwardShiftCounts(wd, date, -n, cur);
      assert WorkDaysIn(wd, cur - 1, date - 1) == set x | cur <= x < date && Weekday(x) in mask;
    }
  }

  /** In the whole week a step is a day. */
  lemma EveryDayCounts(date: int, n: int)
    ensures Shift(WEEK, date, n) == date + n
  {
    hide Shift;
    var r := Shift(WEEK, date, n);
    WholeWeekIndex(r);
    WholeWeekIndex(date);
    assert IsWork(WEEK, date);
  }

  /** n is the signed number of days of the mask between two dates; every day counts for an empty mask. */
  ghost predicate Counts(mask: set<int>, a: int, b: int, n: int) {
    if mask == {} then n == b - a
    else if a <= b then n == |set x | a < x <= b && Weekday(x) in mask|
    else n == -|set x | b < x <= a && Weekday(x) in mask|
  }

  lemma CountsIsIndex(mask: set<int>, a: int, b: int, n: int)
    requires mask <= WEEK
    ensures Counts(mask, a, b, n) <==> n == Index(Effective(mask), b) - Index(Effective(mask), a)
  {
    hide Index, Weekday;
    var wd := Effective(mask);
    EffectiveIsMask(mask);
    if mask == {} {
      WholeWeekIndex(a);
      WholeWeekIndex(b);
    } else if a <= b {
      IndexCounts(wd, a, b);
      assert WorkDaysIn(wd, a, b) == set x | a < x <= b && Weekday(x) in mask;
    } else {
      IndexCounts(wd, b, a);
      assert WorkDaysIn(wd, b, a) == set x | b < x <= a && Weekday(x) in mask;
    }
  }

  /** `_add_days`: walk one day at a time, counting only work days. */
  method AddDays(date: int, n: int, mask: set<int>) returns (cur: int)
    requires mask <= WEEK
    ensures Lands(mask, date, n, cur)
    ensures cur == Shift(Effective(mask), date, n)
  {
    hide Shift, Index, Lands;
    ghost var wd := Effective(mask);
    cur := date;
    if Restricted(mask) {
      var step := if n >= 0 then 1 else -1;
      var remaining := if n >= 0 then n else -n;
      while remaining > 0
        invariant 0 <= remaining
        invariant n >= 0 ==> Index(wd, cur) + remaining == Index(wd, date) + n
        invariant n < 0 ==> Index(wd, cur - 1) - remaining == Index(wd, date - 1) + n
        invariant remaining == 0 ==> n == 0 || IsWork(wd, cur)
        invariant n == 0 ==> cur == date
        decreases remaining, if n >= 0 then Next(wd, cur) - cur else cur - Prev(wd, cur)
      {
        IndexStep(wd, cur);
        cur := cur + step;
        IndexStep(wd, cur);
        if Weekday(cur) in mask {
          remaining := remaining - 1;
        }
      }
      IndexStep(wd, cur);
      IndexStep(wd, date);
      if n != 0 {
        IndexInjective(wd, cur, Shift(wd, date, n));
      }
    } else {
      cur := cur + n;
      EveryDayCounts(date, n);
    }
    LandsIsShift(mask, date, n, cur);
  }

  /** The signed work-day count between two anchors (`_count_work_days`). */
  method CountWorkDays(oldStart: int, newStart: int, mask: set<int>) returns (n: int)
    requires mask <= WEEK
    ensures Counts(mask, oldStart, newStart, n)
    ensures n == Index(Effective(mask), newStart) - Index(Effective(mask), oldStart)
  {
    hide Counts;
    ghost var wd := Effective(mask);
    var delta := newStart - oldStart;
    if !Restricted(mask) {
      WholeWeekIndex(oldStart);
      WholeWeekIndex(newStart);
      CountsIsIndex(mask, oldStart, newStart, delta);
      return delta;
    }
    var a, b := oldStart, newStart;
    if b < a {
      a, b := b, a;
    }
    n := 0;
    var cur := a;
    while cur < b
      invariant a <= cur <= b
      invariant n == Index(wd, cur) - Index(wd, a)
    {
      cur := cur + 1;
      IndexStep(wd, cur);
      if Weekday(cur) in mask {
        n := n + 1;
      }
    }
    n := if delta > 0 then n else -n;
    CountsIsIndex(mask, oldStart, newStart, n);
  }

  // ---- Durations in shifts -------------------------------------------------

  const SHIFTS_PER_DAY := 3

  /** Where a task of `duration` shifts ends, in div/mod form. */
  function EndOf(wd: Workweek, start: int, shift: int, duration: int): (int, int) {
    var total := if duration < 1 then 1 else duration;
    var last := shift + total - 1;
    if last <= 3 then (start, last)
    else (Shift(wd, start, (last - 1) / 3), (last - 1) % 3 + 1)
  }

  /**
   A task of `duration` shifts, at least one, from (d0, s0) ends at (d1, s1): every
   three shifts past the third of a day go to the next day of the mask.
   */
  ghost predicate Spans(mask: set<int>, d0: int, s0: int, duration: int, d1: int, s1: int) {
    exists k: nat ::
      && Lands(mask, d0, k, d1)
      && s1 + 3 * k == s0 + (if duration < 1 then 1 else duration) - 1
      && s1 <= 3 && (k > 0 ==> s1 >= 1)
  }

  lemma SpansIsEndOf(mask: set<int>, d0: int, s0: int, duration: int, d1: int, s1: int)
    requires mask <= WEEK
    ensures Spans(mask, d0, s0, duration, d1, s1) <==> (d1, s1) == EndOf(Effective(mask), d0, s0, duration)
  {
    hide Shift, Lands;
    var last := s0 + (if duration < 1 then 1 else duration) - 1;
    var k := if last <= 3 then 0 else (last - 1) / 3;
    LandsIsShift(mask, d0, k, d1);
    if Spans(mask, d0, s0, duration, d1, s1) {
      var j: nat :| Lands(mask, d0, j, d1) && s1 + 3 * j == last && s1 <= 3 && (j > 0 ==> s1 >= 1);
      assert j == k;
    }
  }

  /** `_duration_to_end`: wrap past the third shift onto later work days. */
  method DurationToEnd(start: int, startShift: int, duration: int, mask: set<int>) returns (endDate: int, endShift: int)
    requires mask <= WEEK
    ensures Spans(mask, start, startShift, duration, endDate, endShift)
    ensures (endDate, endShift) == EndOf(Effective(mask), start, startShift, duration)
  {
    hide Weekday, Shift, Spans, Lands;
    var total := if duration < 1 then 1 else duration;
    endShift := startShift + total - 1;
    var daysAdded := 0;
    ghost var last := endShift;
    while endShift > 3
      invariant endShift == last - 3 * daysAdded
      invariant daysAdded == 0 || (daysAdded > 0 && endShift >= 1)
    {
      endShift := endShift - 3;
      daysAdded := daysAdded + 1;
    }
    if daysAdded != 0 {
      endDate := AddDays(start, daysAdded, mask);
    } else {
      endDate := start;
    }
    SpansIsEndOf(mask, start, startShift, duration, endDate, endShift);
  }

  /** Shift slots a work day offers between two (day, shift) points, inclusive. */
  ghost function SlotsOn(wd: Workweek, d: int, d0: int, s0: int, d1: int, s1: int): int {
    if !IsWork(wd, d) then 0
    else
      var lo := if d == d0 then s0 else 1;
      var hi := if d == d1 then s1 else 3;
      if lo <= hi then hi - lo + 1 else 0
  }

  /** Slots summed over the days d0..d, towards the end point (d1, s1). */
  ghost function Slots(wd: Workweek, d: int, d0: int, s0: int, d1: int, s1: int): int
    decreases d - d0
  {
    if d < d0 then 0
    else Slots(wd, d - 1, d0, s0, d1, s1) + SlotsOn(wd, d, d0, s0, d1, s1)
  }

  lemma {:induction false} SlotsBeforeEnd(wd: Workweek, d: int, d0: int, s0: int, d1: int, s1: int)
    requires d0 <= d < d1 && 1 <= s0 <= 3
    ensures Slots(wd, d, d0, s0, d1, s1)
            == (if IsWork(wd, d0) then 4 - s0 else 0) + 3 * (Index(wd, d) - Index(wd, d0))
    decreases d - d0
  {
    if d > d0 {
      SlotsBeforeEnd(wd, d - 1, d0, s0, d1, s1);
      IndexStep(wd, d);
    } else {
      assert Slots(wd, d - 1, d0, s0, d1, s1) == 0;
    }
  }

  /**
   A task starting on shift 1..3 occupies exactly its duration in shift slots,
   three per work day, if and only if it starts on a work day; it never ends
   before it starts.
   */
  lemma DurationConserved(wd: Workweek, start: int, shift: int, duration: int)
    requires 1 <= shift <= 3
    ensures
      var (endDate, endShift) := EndOf(wd, start, shift, duration);
      && start <= endDate && 1 <= endShift <= 3
      && (start == endDate ==> shift <= endShift)
      && (Slots(wd, endDate, start, shift, endDate, endShift) == (if duration < 1 then 1 else duration)
          <==> IsWork(wd, start))
  {
    var (endDate, endShift) := EndOf(wd, start, shift, duration);
    assert Slots(wd, start - 1, start, shift, endDate, endShift) == 0;
    if start < endDate {
      SlotsBeforeEnd(wd, endDate - 1, start, shift, endDate, endShift);
      IndexStep(wd, endDate);
    }
  }
}
