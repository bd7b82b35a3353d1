/**
 Placing an appointment on a project's shifts (api/calendar_ingest.py:454-491).
 Times are minutes after midnight, in the order of their HH:MM strings.
 */
module ShiftWindows {
  import opened Options
  import opened Sorting

  const DAY := 1440
  const DEFAULT_SHIFT := 1

  datatype ShiftRow = ShiftRow(num: int, start: Option<nat>, end: Option<nat>)

  function StartKey(w: ShiftRow): int {
    if w.start.Some? then w.start.value else -1
  }

  function ByStart(): (ShiftRow, ShiftRow) -> bool {
    (x, y) => StartKey(x) <= StartKey(y)
  }

  /** A window with both ends set covers [start, end), wrapping midnight if end < start. */
  predicate Covers(w: ShiftRow, t: int) {
    && w.start.Some? && w.end.Some?
    && (if w.start.value <= w.end.value then w.start.value <= t < w.end.value
        else t >= w.start.value || t < w.end.value)
  }

  /** Covering is membership of a circular arc of the day. */
  lemma CoversIsArc(w: ShiftRow, t: int)
    requires w.start.Some? && w.end.Some? && w.start.value < DAY && w.end.value < DAY && 0 <= t < DAY
    ensures Covers(w, t) <==> (t - w.start.value) % DAY < (w.end.value - w.start.value) % DAY
  {
    ArcOffset(t, w.start.value);
    ArcOffset(w.end.value, w.start.value);
  }

  lemma ArcOffset(x: int, lo: int)
    requires 0 <= x < DAY && 0 <= lo < DAY
    ensures (x - lo) % DAY == if x >= lo then x - lo else x - lo + DAY
  {
  }

  /** The first covering window, the shift number 1 if none covers. */
  function FirstCovering(ws: seq<ShiftRow>, t: int): int {
    if ws == [] then DEFAULT_SHIFT
    else if Covers(ws[0], t) then ws[0].num
    else FirstCovering(ws[1..], t)
  }

  /** `resolve_shift_num`; `time` is None when it is missing or not HH:MM. */
  method ResolveShiftNum(project: string, time: Option<nat>, rows: seq<ShiftRow>) returns (num: int)
    ensures num == if project == "" || time == None then 1
                   else FirstCovering(Sort(rows, ByStart()), time.value)
  {
    if project == "" || time == None || rows == [] {
      return DEFAULT_SHIFT;
    }
    var ws := Sort(rows, ByStart());
    for i := 0 to |ws|
      invariant FirstCovering(ws[i..], time.value) == FirstCovering(ws, time.value)
    {
      assert ws[i..][1..] == ws[i + 1..];
      if Covers(ws[i], time.value) {
        return ws[i].num;
      }
    }
    return DEFAULT_SHIFT;
  }

  /** The shift found covers the time and starts first among those that do; 1 means none does. */
  lemma EarliestCovering(rows: seq<ShiftRow>, t: int)
    ensures
      var num := FirstCovering(Sort(rows, ByStart()), t);
      || (num == 1 && forall w | w in rows :: !Covers(w, t))
      || (exists w :: w in rows && Covers(w, t) && num == w.num
            && forall v | v in rows && Covers(v, t) :: StartKey(w) <= StartKey(v))
  {
    assert TotalPreorder(ByStart());
    SortIsStable(rows, ByStart());
    var ws := Sort(rows, ByStart());
    FirstOfSorted(ws, t);
    assert forall w :: w in rows <==> w in multiset(rows);
    assert forall w :: w in ws <==> w in multiset(ws);
  }

  lemma {:induction false} FirstOfSorted(ws: seq<ShiftRow>, t: int)
    requires Sorted(ws, ByStart())
    ensures
      var num := FirstCovering(ws, t);
      || (num == 1 && forall w | w in ws :: !Covers(w, t))
      || (exists w :: w in ws && Covers(w, t) && num == w.num
            && forall v | v in ws && Covers(v, t) :: StartKey(w) <= StartKey(v))
  {
    if ws != [] {
      if Covers(ws[0], t) {
        forall v | v in ws && Covers(v, t)
          ensures StartKey(ws[0]) <= StartKey(v)
        {
          var j :| 0 <= j < |ws| && ws[j] == v;
          assert j == 0 || ByStart()(ws[0], ws[j]);
        }
      } else {
        FirstOfSorted(ws[1..], t);
      }
    }
  }

  /** When one window alone covers a time, its shift is found, whatever order the rows come in. */
  lemma OnlyCovering(rows: seq<ShiftRow>, t: int, k: int)
    requires 0 <= k < |rows| && forall i | 0 <= i < |rows| :: Covers(rows[i], t) <==> i == k
    ensures FirstCovering(Sort(rows, ByStart()), t) == rows[k].num
  {
    EarliestCovering(rows, t);
    assert rows[k] in rows;
  }

  // ---- Schedules that hand over round the clock --------------------------------------

  /** Each shift ends when the next begins, and the last when the first begins. */
  ghost predicate HandsOver(shifts: seq<ShiftRow>) {
    && |shifts| >= 2
    && (forall i | 0 <= i < |shifts| :: shifts[i].start.Some? && shifts[i].end.Some? && shifts[i].start.value < DAY)
    && (forall i, j | 0 <= i < j < |shifts| :: shifts[i].start.value < shifts[j].start.value)
    && (forall i | 0 <= i < |shifts| - 1 :: shifts[i].end == shifts[i + 1].start)
    && (shifts[|shifts| - 1].end == shifts[0].start
        || (shifts[0].start == Some(0) && shifts[|shifts| - 1].end == Some(DAY)))
  }

  /** The last shift to have begun by `t`, or the one that began yesterday. */
  function OnDuty(shifts: seq<ShiftRow>, t: int, n: nat): (k: int)
    requires n <= |shifts| && forall i | 0 <= i < |shifts| :: shifts[i].start.Some?
    ensures -1 <= k < n
    ensures k >= 0 ==> shifts[k].start.value <= t
    ensures forall i | k < i < n :: t < shifts[i].start.value
  {
    if n == 0 then -1
    else if shifts[n - 1].start.value <= t then n - 1
    else OnDuty(shifts, t, n - 1)
  }

  /** Such a schedule covers every minute of the day exactly once. */
  lemma HandOverTiles(shifts: seq<ShiftRow>, t: int) returns (k: int)
    requires HandsOver(shifts) && 0 <= t < DAY
    ensures 0 <= k < |shifts|
    ensures forall i | 0 <= i < |shifts| :: Covers(shifts[i], t) <==> i == k
  {
    var n := |shifts|;
    k := OnDuty(shifts, t, n);
    if k == -1 {
      k := n - 1;
      forall i | 0 <= i < n - 1
        ensures !Covers(shifts[i], t)
      {
        assert shifts[i].end == shifts[i + 1].start;
      }
    } else {
      forall i | 0 <= i < n - 1
        ensures Covers(shifts[i], t) <==> i == k
      {
        assert shifts[i].end == shifts[i + 1].start;
        assert i + 1 <= k ==> shifts[i + 1].start.value <= shifts[k].start.value;
      }
      assert shifts[0].start.value <= shifts[k].start.value;
    }
  }

  /**
   With shifts handing over round the clock, every time of day finds its one shift,
   whatever order the rows come in.
   */
  lemma RoundTheClock(shifts: seq<ShiftRow>, rows: seq<ShiftRow>, t: int)
    requires HandsOver(shifts) && multiset(rows) == multiset(shifts) && 0 <= t < DAY
    ensures exists k ::
      && 0 <= k < |shifts|
      && (forall i | 0 <= i < |shifts| :: Covers(shifts[i], t) <==> i == k)
      && FirstCovering(Sort(rows, ByStart()), t) == shifts[k].num
  {
    var k := HandOverTiles(shifts, t);
    EarliestCovering(rows, t);
    assert shifts[k] in multiset(shifts);
    assert shifts[k] in rows;
    forall w | w in rows && Covers(w, t)
      ensures w == shifts[k]
    {
      assert w in multiset(rows);
      var i :| 0 <= i < |shifts| && shifts[i] == w;
    }
  }
}
