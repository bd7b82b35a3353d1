/**
 The day-of-week mask stored on template tasks and cards, a comma-separated list
 of the tokens M,T,W,Th,F,Sa,Su, and its resolution to a workweek
 (api/db.py:2585-2618).
 */
module WorkdayMask {
  import opened WorkCalendar

  /** The ASCII characters that count as white space, the four information separators included. */
  predicate IsSpace(c: char) {
    c == ' ' || '\t' <= c <= '\r' || '\U{1C}' <= c <= '\U{1F}'
  }

  function Lstrip(s: string): (r: string)
    ensures |r| <= |s|
  {
    if s != "" && IsSpace(s[0]) then Lstrip(s[1..]) else s
  }

  function Rstrip(s: string): (r: string)
    ensures |r| <= |s|
  {
    if s != "" && IsSpace(s[|s| - 1]) then Rstrip(s[..|s| - 1]) else s
  }

  /** `str.strip()` for ASCII white space. */
  function Strip(s: string): string {
    Rstrip(Lstrip(s))
  }

  /** Nothing but the white space of a text line and its ends. */
  predicate Blank(s: string) {
    forall i | 0 <= i < |s| :: s[i] in {' ', '\t', '\n', '\r'}
  }

  /** White space around a text makes no difference. */
  lemma {:induction false} StripPadding(pre: string, s: string, post: string)
    requires Blank(pre) && Blank(post)
    ensures Strip(pre + s + post) == Strip(s)
    decreases |pre| + |post|
  {
    if pre != "" {
      assert (pre + s + post)[1..] == pre[1..] + s + post;
      StripPadding(pre[1..], s, post);
    } else if post != "" {
      var front := post[..|post| - 1];
      assert pre + s + post == (s + front) + [post[|post| - 1]];
      StripPadding(pre, s, front);
      assert pre + s + front == s + front;
      LstripPadded(s + front, post[|post| - 1]);
    } else {
      assert pre + s + post == s;
    }
  }

  lemma {:induction false} LstripPadded(s: string, c: char)
    requires IsSpace(c)
    ensures Rstrip(Lstrip(s + [c])) == Rstrip(Lstrip(s))
  {
    if s != "" && IsSpace(s[0]) {
      assert (s + [c])[1..] == s[1..] + [c];
      LstripPadded(s[1..], c);
    } else if s == "" {
      assert (s + [c])[1..] == "";
    } else {
      assert (s + [c])[..|s|] == s;
    }
  }

  /** `str.split(",")`: never empty, pieces may be. */
  function Split(s: string): (pieces: seq<string>)
    ensures |pieces| > 0
  {
    if s == "" then [""]
    else
      var rest := Split(s[1..]);
      if s[0] == ',' then [""] + rest else [[s[0]] + rest[0]] + rest[1..]
  }

  /** The weekday a token names, if it names one. */
  function TokenDay(tok: string): (day: set<int>)
    ensures day <= WEEK && |day| <= 1
  {
    if tok == "M" then {0} else if tok == "T" then {1} else if tok == "W" then {2}
    else if tok == "Th" then {3} else if tok == "F" then {4} else if tok == "Sa" then {5}
    else if tok == "Su" then {6} else {}
  }

  /** The weekdays named by a mask; unknown tokens are ignored. */
  ghost function Days(mask: string): (days: set<int>)
    ensures days <= WEEK
  {
    var pieces := Split(mask);
    set i, d | 0 <= i < |pieces| && d in TokenDay(Strip(pieces[i])) :: d
  }

  /** `_parse_work_days` */
  method ParseWorkDays(mask: string) returns (out: set<int>)
    ensures out == Days(mask)
  {
    hide Strip, TokenDay, Split;
    if mask == "" {
      NoPieces();
      return {};
    }
    var pieces := Split(mask);
    out := {};
    for k := 0 to |pieces|
      invariant out == set i, d | 0 <= i < k && d in TokenDay(Strip(pieces[i])) :: d
    {
      out := out + TokenDay(Strip(pieces[k]));
    }
  }

  lemma NoPieces()
    ensures Split("") == [""] && Days("") == {}
  {
  }

  lemma {:induction false} SplitToken(tok: string, rest: string)
    requires ',' !in tok
    ensures Split(tok) == [tok]
    ensures Split(tok + "," + rest) == [tok] + Split(rest)
  {
    if tok == "" {
      assert tok + "," + rest == "," + rest;
    } else {
      SplitToken(tok[1..], rest);
      assert (tok + "," + rest)[1..] == tok[1..] + "," + rest;
      assert [tok[0]] + tok[1..] == tok;
    }
  }

  lemma DaysMember(mask: string, d: int)
    ensures d in Days(mask) <==>
      exists i :: 0 <= i < |Split(mask)| && d in TokenDay(Strip(Split(mask)[i]))
  {
    hide Strip, TokenDay, Split;
    var pieces := Split(mask);
    if d in Days(mask) {
      var i :| 0 <= i < |pieces| && d in TokenDay(Strip(pieces[i]));
      assert d in TokenDay(Strip(Split(mask)[i]));
    }
  }

  /** A mask means the union of its comma-separated parts, white space aside. */
  lemma DaysOfParts(tok: string, rest: string)
    requires ',' !in tok
    ensures Days(tok) == TokenDay(Strip(tok))
    ensures Days(tok + "," + rest) == TokenDay(Strip(tok)) + Days(rest)
  {
    hide Strip, TokenDay, Split, Days;
    SplitToken(tok, rest);
    var whole := tok + "," + rest;
    var tail := Split(rest);
    forall d
      ensures d in Days(tok) <==> d in TokenDay(Strip(tok))
      ensures d in Days(whole) <==> d in TokenDay(Strip(tok)) || d in Days(rest)
    {
      DaysMember(tok, d);
      DaysMember(rest, d);
      DaysMember(whole, d);
      assert Split(tok)[0] == tok && Split(whole)[0] == tok;
      assert forall i | 0 <= i < |tail| :: Split(whole)[i + 1] == tail[i];
      if i :| 0 <= i < |Split(whole)| && d in TokenDay(Strip(Split(whole)[i])) {
        assert i == 0 || Split(whole)[i] == tail[i - 1];
      }
    }
  }

  /** The mask's own days win; otherwise the unit decides (`_resolve_workweek`). */
  ghost function Resolve(unit: DurationUnit, mask: string): (days: set<int>)
    ensures days <= WEEK
  {
    if Days(mask) != {} then Days(mask) else if unit.BusinessDays? then MON_TO_FRI else {}
  }

  method ResolveWorkweek(unit: DurationUnit, mask: string) returns (days: set<int>)
    ensures days == Resolve(unit, mask)
  {
    var own := ParseWorkDays(mask);
    if own != {} {
      return own;
    }
    return if unit == BusinessDays then MON_TO_FRI else {};
  }

  /** The workweek that governs a task or card. */
  ghost function WeekOf(unit: DurationUnit, mask: string): Workweek {
    Effective(Resolve(unit, mask))
  }

  /**
   Re-resolving a card under "business days" whenever its workweek is restricted,
   as rescheduling does, never changes the workweek.
   */
  lemma ResolveUnderCardUnit(unit: DurationUnit, mask: string)
    ensures WeekOf(if Restricted(Resolve(unit, mask)) then BusinessDays else unit, mask) == WeekOf(unit, mask)
  {
  }

  /** A mask that names a day decides alone; otherwise business days are Monday to Friday, calendar days all. */
  lemma WeekOfMask(unit: DurationUnit, mask: string)
    ensures WeekOf(unit, mask) ==
      if Days(mask) != {} then Days(mask) else if unit.BusinessDays? then MON_TO_FRI else WEEK
  {
    hide Days;
    EffectiveIsMask(Resolve(unit, mask));
  }

  // ---- Every set of weekdays has a mask --------------------------------------------------

  /** The tokens in week order, from Monday. */
  const TOKENS: seq<string> := ["M", "T", "W", "Th", "F", "Sa", "Su"]

  /** The mask that lists the days of a set from weekday k on. */
  ghost function MaskFrom(days: set<int>, k: nat): string
    requires k <= 7
    decreases 7 - k
  {
    if k == 7 then "" else if k in days then TOKENS[k] + "," + MaskFrom(days, k + 1) else MaskFrom(days, k + 1)
  }

  lemma TokenOfDay(k: nat)
    requires k < 7
    ensures ',' !in TOKENS[k] && Strip(TOKENS[k]) == TOKENS[k] && TokenDay(TOKENS[k]) == {k}
  {
  }

  /** Exactly the seven tokens name a day. */
  lemma OnlyTokens(tok: string)
    ensures TokenDay(tok) != {} <==> tok in TOKENS
  {
    assert tok in TOKENS <==> tok == TOKENS[0] || tok == TOKENS[1] || tok == TOKENS[2] || tok == TOKENS[3]
                              || tok == TOKENS[4] || tok == TOKENS[5] || tok == TOKENS[6];
  }

  /** Writing a set of weekdays as a mask and reading it gives the set back. */
  lemma {:induction false} MaskRoundTrip(days: set<int>, k: nat)
    requires days <= WEEK && k <= 7
    ensures Days(MaskFrom(days, k)) == DaysFrom(days, k)
    decreases 7 - k
  {
    hide Strip, TokenDay, Days, Split, DaysFrom;
    DaysFromNext(days, k);
    if k == 7 {
      NoPieces();
    } else {
      MaskRoundTrip(days, k + 1);
      TokenOfDay(k);
      DaysOfParts(TOKENS[k], MaskFrom(days, k + 1));
    }
  }

  ghost function DaysFrom(days: set<int>, k: nat): set<int> {
    set d | d in days && d >= k
  }

  lemma DaysFromNext(days: set<int>, k: nat)
    requires days <= WEEK && k <= 7
    ensures DaysFrom(days, k) == (if k in days then {k} + DaysFrom(days, k + 1) else DaysFrom(days, k + 1))
    ensures DaysFrom(days, 7) == {} && DaysFrom(days, 0) == days
  {
  }
}
