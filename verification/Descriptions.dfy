/** Normalising todo descriptions for comparison across a thread (api/db.py:925-931). */
module Descriptions {
  import opened WorkdayMask

  const STOPS: set<char> := {'.', '!', '?'}

  /** Runs of white space become one space. */
  function Squeeze(s: string): string {
    if s == "" then ""
    else if !IsSpace(s[0]) then [s[0]] + Squeeze(s[1..])
    else if |s| > 1 && IsSpace(s[1]) then Squeeze(s[1..])
    else " " + Squeeze(s[1..])
  }

  function DropStops(s: string): string {
    if s != "" && s[|s| - 1] in STOPS then DropStops(s[..|s| - 1]) else s
  }

  function LowerChar(c: char): char {
    if 'A' <= c <= 'Z' then c + 32 as char else c
  }

  function Lower(s: string): (r: string)
    ensures |r| == |s| && forall i | 0 <= i < |s| :: r[i] == LowerChar(s[i])
  {
    seq(|s|, i requires 0 <= i < |s| => LowerChar(s[i]))
  }

  /** `_norm_desc` */
  function Norm(s: string): string {
    Lower(DropStops(Squeeze(Strip(s))))
  }

  // ---- What the normal form forgets ---------------------------------------------------

  lemma {:induction false} SqueezeLower(s: string)
    ensures Squeeze(Lower(s)) == Lower(Squeeze(s))
  {
    if s != "" {
      SqueezeLower(s[1..]);
      assert Lower(s)[1..] == Lower(s[1..]);
      assert Lower([s[0]] + Squeeze(s[1..])) == [LowerChar(s[0])] + Lower(Squeeze(s[1..]));
      assert Lower(" " + Squeeze(s[1..])) == " " + Lower(Squeeze(s[1..]));
    }
  }

  lemma {:induction false} DropStopsLower(s: string)
    ensures DropStops(Lower(s)) == Lower(DropStops(s))
  {
    if s != "" {
      DropStopsLower(s[..|s| - 1]);
      assert Lower(s)[..|s| - 1] == Lower(s[..|s| - 1]);
    }
  }

  lemma {:induction false} LstripLower(s: string)
    ensures Lstrip(Lower(s)) == Lower(Lstrip(s))
  {
    if s != "" {
      LstripLower(s[1..]);
      assert Lower(s)[1..] == Lower(s[1..]);
    }
  }

  lemma {:induction false} RstripLower(s: string)
    ensures Rstrip(Lower(s)) == Lower(Rstrip(s))
  {
    if s != "" {
      RstripLower(s[..|s| - 1]);
      assert Lower(s)[..|s| - 1] == Lower(s[..|s| - 1]);
    }
  }

  /** Case never matters. */
  lemma NormIgnoresCase(s: string)
    ensures Norm(Lower(s)) == Norm(s)
  {
    LstripLower(s);
    RstripLower(Lstrip(s));
    SqueezeLower(Strip(s));
    DropStopsLower(Squeeze(Strip(s)));
    var r := DropStops(Squeeze(Strip(s)));
    assert Lower(Lower(r)) == Lower(r);
  }

  /** The two characters are one letter in its two cases, or the same. */
  predicate SameLetter(a: char, b: char) {
    || a == b
    || ('A' <= a <= 'Z' && b as int == a as int + 32)
    || ('A' <= b <= 'Z' && a as int == b as int + 32)
  }

  /** Texts that differ only in case have one normal form. */
  lemma SameButCase(s: string, t: string)
    requires |s| == |t| && forall i | 0 <= i < |s| :: SameLetter(s[i], t[i])
    ensures Norm(s) == Norm(t)
  {
    hide Norm;
    NormIgnoresCase(s);
    NormIgnoresCase(t);
    assert Lower(s) == Lower(t);
  }

  // ---- The normal form -------------------------------------------------------------------

  /** Lower case, single spaces between words, none in front, no closing stop. */
  ghost predicate Normal(r: string) {
    && (forall i | 0 <= i < |r| :: r[i] == LowerChar(r[i]))
    && (forall i | 0 <= i < |r| && IsSpace(r[i]) :: r[i] == ' ' && i > 0 && !IsSpace(r[i - 1]))
    && (r != "" ==> r[|r| - 1] !in STOPS)
  }

  /** Single spaces only; one in front only if there is white space in front of s. */
  ghost predicate Squeezed(s: string, r: string) {
    && (forall i | 0 <= i < |r| && IsSpace(r[i]) :: r[i] == ' ')
    && (forall i | 0 < i < |r| && IsSpace(r[i]) :: !IsSpace(r[i - 1]))
    && (r != "" ==> s != "" && IsSpace(r[0]) == IsSpace(s[0]))
  }

  lemma {:induction false} SqueezeFacts(s: string)
    ensures Squeezed(s, Squeeze(s)) && (s != "" ==> Squeeze(s) != "")
  {
    if s != "" {
      SqueezeFacts(s[1..]);
    }
  }

  lemma {:induction false} DropStopsFacts(s: string)
    ensures DropStops(s) <= s && (DropStops(s) != "" ==> DropStops(s)[|DropStops(s)| - 1] !in STOPS)
  {
    if s != "" {
      DropStopsFacts(s[..|s| - 1]);
    }
  }

  lemma {:induction false} LstripFacts(s: string)
    ensures Lstrip(s) != "" ==> !IsSpace(Lstrip(s)[0])
  {
    if s != "" {
      LstripFacts(s[1..]);
    }
  }

  lemma {:induction false} RstripFacts(s: string)
    ensures Rstrip(s) <= s
    ensures Rstrip(s) != "" ==> !IsSpace(Rstrip(s)[|Rstrip(s)| - 1])
    ensures s != "" && !IsSpace(s[0]) ==> Rstrip(s) != ""
  {
    if s != "" {
      RstripFacts(s[..|s| - 1]);
    }
  }

  lemma NormIsNormal(s: string)
    ensures Normal(Norm(s))
  {
    hide Lstrip, Rstrip, Squeeze, DropStops;
    LstripFacts(s);
    RstripFacts(Lstrip(s));
    SqueezeFacts(Strip(s));
    DropStopsFacts(Squeeze(Strip(s)));
  }

  // ---- Closing stops and the spaces in front of them -------------------------------------

  /** A character that is not white space passes through squeezing at the end. */
  lemma {:induction false} SqueezeSnoc(s: string, c: char)
    requires !IsSpace(c)
    ensures Squeeze(s + [c]) == Squeeze(s) + [c]
  {
    var t := s + [c];
    if s == "" {
      assert t[1..] == "";
    } else {
      assert t[1..] == s[1..] + [c];
      SqueezeSnoc(s[1..], c);
    }
  }

  /** Stops may as well be dropped before white space is squeezed. */
  lemma {:induction false} DropStopsSqueeze(s: string)
    ensures DropStops(Squeeze(s)) == Squeeze(DropStops(s))
  {
    if s != "" {
      var (front, last) := (s[..|s| - 1], s[|s| - 1]);
      assert s == front + [last];
      if IsSpace(last) {
        SqueezeEnd(s);
      } else {
        SqueezeSnoc(front, last);
        assert Squeeze(s)[..|Squeeze(front)|] == Squeeze(front);
        DropStopsSqueeze(front);
      }
    }
  }

  /** Squeezing keeps whether a string ends in white space. */
  lemma {:induction false} SqueezeEnd(s: string)
    requires s != ""
    ensures Squeeze(s) != ""
    ensures IsSpace(Squeeze(s)[|Squeeze(s)| - 1]) == IsSpace(s[|s| - 1])
    ensures IsSpace(s[|s| - 1]) ==> Squeeze(s)[|Squeeze(s)| - 1] == ' '
  {
    if |s| > 1 {
      SqueezeEnd(s[1..]);
    } else {
      assert s[1..] == "";
    }
  }

  lemma {:induction false} LstripSnoc(s: string, c: char)
    requires !IsSpace(c)
    ensures Lstrip(s + [c]) == Lstrip(s) + [c]
  {
    if s != "" {
      assert (s + [c])[1..] == s[1..] + [c];
      LstripSnoc(s[1..], c);
    }
  }

  /** What is left by stripping the front is a suffix. */
  lemma {:induction false} LstripSuffix(s: string)
    ensures Lstrip(s) == s[|s| - |Lstrip(s)|..]
    ensures Lstrip(s) == "" <==> forall i | 0 <= i < |s| :: IsSpace(s[i])
  {
    if s != "" && IsSpace(s[0]) {
      LstripSuffix(s[1..]);
    }
  }

  /** The normal form as the squeezed text that is left when the stops go first. */
  lemma NormByStops(s: string)
    ensures Norm(s) == Lower(Squeeze(DropStops(Strip(s))))
  {
    DropStopsSqueeze(Strip(s));
  }

  /** Both normal forms in terms of the text with its front stripped. */
  lemma WithAndWithoutStop(s: string, stop: char)
    requires stop in STOPS
    ensures Norm(s + [stop]) == Lower(Squeeze(DropStops(Lstrip(s))))
    ensures Norm(s) == Lower(Squeeze(DropStops(Rstrip(Lstrip(s)))))
  {
    hide Lstrip, Rstrip, Squeeze, DropStops;
    LstripSnoc(s, stop);
    RstripKeeps(Lstrip(s) + [stop]);
    NormByStops(s);
    NormByStops(s + [stop]);
    DropOne(Lstrip(s), stop);
  }

  /** A text that is not blank ends as it does with its front stripped. */
  lemma SameEnd(s: string)
    requires Lstrip(s) != ""
    ensures s != "" && Lstrip(s)[|Lstrip(s)| - 1] == s[|s| - 1] && !IsSpace(Lstrip(s)[0])
  {
    hide Lstrip;
    LstripFacts(s);
    LstripSuffix(s);
  }

  /**
   A closing stop makes no difference exactly when no white space precedes it:
   "done ." and "done" have different normal forms.
   */
  lemma ClosingStop(s: string, stop: char)
    requires stop in {'.', '!', '?'}
    ensures Norm(s + [stop]) == Norm(s) <==> Lstrip(s) == "" || !IsSpace(s[|s| - 1])
  {
    assert stop in STOPS;
    hide *;
    var front := Lstrip(s);
    WithAndWithoutStop(s, stop);
    if front == "" {
      NothingLeft(stop);
    } else {
      SameEnd(s);
      if IsSpace(s[|s| - 1]) {
        SpaceKept(front);
      } else {
        RstripKeeps(front);
      }
    }
  }

  lemma RstripKeeps(s: string)
    requires s != "" && !IsSpace(s[|s| - 1])
    ensures Rstrip(s) == s
  {
  }

  lemma DropOne(s: string, stop: char)
    requires stop in STOPS
    ensures DropStops(s + [stop]) == DropStops(s)
  {
    assert (s + [stop])[..|s|] == s;
  }

  lemma NothingLeft(stop: char)
    requires stop in STOPS
    ensures Rstrip("") == "" && DropStops("") == ""
  {
  }

  /** White space at the end outlasts dropping stops, but not stripping. */
  lemma SpaceKept(s: string)
    requires s != "" && !IsSpace(s[0]) && IsSpace(s[|s| - 1])
    ensures Lower(Squeeze(DropStops(s))) != Lower(Squeeze(DropStops(Rstrip(s))))
  {
    hide Squeeze;
    var core := Rstrip(s);
    RstripFacts(s);
    SqueezeEnd(s);
    SqueezeTrims(s);
    DropStopsFacts(core);
    SqueezePrefix(core, |DropStops(core)|);
    assert core[..|DropStops(core)|] == DropStops(core);
    assert DropStops(s) == s;
  }

  /** Stripping the end takes at least one character off the squeezed text. */
  lemma {:induction false} SqueezeTrims(s: string)
    requires s != "" && IsSpace(s[|s| - 1])
    ensures |Squeeze(Rstrip(s))| < |Squeeze(s)|
  {
    var front := s[..|s| - 1];
    assert s == front + [s[|s| - 1]] && Rstrip(s) == Rstrip(front);
    if front != "" && IsSpace(front[|front| - 1]) {
      SqueezeTrims(front);
      SqueezePrefix(s, |front|);
    } else {
      SqueezeOneSpace(front, s[|s| - 1]);
      if front != "" {
        RstripKeeps(front);
      }
    }
  }

  lemma {:induction false} SqueezeOneSpace(s: string, c: char)
    requires IsSpace(c) && (s != "" ==> !IsSpace(s[|s| - 1]))
    ensures Squeeze(s + [c]) == Squeeze(s) + " "
  {
    var t := s + [c];
    if s == "" {
      assert t[1..] == "";
    } else {
      assert t[1..] == s[1..] + [c];
      SqueezeOneSpace(s[1..], c);
    }
  }

  lemma {:induction false} SqueezePrefix(s: string, n: nat)
    requires n <= |s|
    ensures |Squeeze(s[..n])| <= |Squeeze(s)|
  {
    if n > 0 {
      SqueezeEnd(s);
      SqueezePrefix(s[1..], n - 1);
      assert s[..n][1..] == s[1..][..n - 1];
    }
  }

  lemma {:induction false} SqueezeFixes(r: string)
    requires Squeezed(r, r)
    ensures Squeeze(r) == r
  {
    if r != "" {
      SqueezeFixes(r[1..]);
    }
  }

  /** Normalising twice is normalising once exactly when no white space precedes the closing stops. */
  lemma NormAgain(s: string)
    ensures Norm(Norm(s)) == Norm(s) <==> var u := DropStops(Strip(s)); u == "" || !IsSpace(u[|u| - 1])
  {
    hide Norm, Strip, DropStops, Squeeze;
    var u := DropStops(Strip(s));
    var r := Norm(s);
    NormByStops(s);
    NormIsNormal(s);
    if u == "" {
      NothingNormal();
    } else {
      SqueezeEnd(u);
      if IsSpace(u[|u| - 1]) {
        NormTrims(r);
      } else {
        NormalFixed(r);
      }
    }
  }

  lemma NothingNormal()
    ensures Lower(Squeeze("")) == Norm(Lower(Squeeze("")))
  {
  }

  lemma NormalFixed(r: string)
    requires Normal(r) && (r == "" || r[|r| - 1] != ' ')
    ensures Norm(r) == r
  {
    assert Strip(r) == r;
    SqueezeFixes(r);
    assert DropStops(r) == r;
    assert Lower(r) == r;
  }

  /** White space, capital letters, and stops at the end: all that normalising changes. */
  ghost predicate Plain(s: string) {
    && (forall i | 0 <= i < |s| :: !('A' <= s[i] <= 'Z'))
    && (forall i | 0 <= i < |s| && IsSpace(s[i]) :: s[i] == ' ' && 0 < i < |s| - 1 && s[i - 1] != ' ')
    && (s != "" ==> s[|s| - 1] !in {'.', '!', '?'})
  }

  /** So different texts of words in lower case, single-spaced, are never taken for each other. */
  lemma PlainApart(s: string, t: string)
    requires Plain(s) && Plain(t)
    ensures Norm(s) == s && (Norm(s) == Norm(t) <==> s == t)
  {
    PlainIsNormal(s);
    PlainIsNormal(t);
    NormalFixed(s);
    NormalFixed(t);
  }

  lemma PlainIsNormal(s: string)
    requires Plain(s)
    ensures Normal(s) && (s == "" || s[|s| - 1] != ' ')
  {
  }

  lemma NormTrims(r: string)
    requires Normal(r) && r != "" && r[|r| - 1] == ' '
    ensures |Norm(r)| < |r|
  {
    RstripFacts(Lstrip(r));
    assert Lstrip(r) == r;
    assert Rstrip(r) == Rstrip(r[..|r| - 1]);
    SqueezeShrinks(Strip(r));
    DropStopsFacts(Squeeze(Strip(r)));
  }

  lemma {:induction false} SqueezeShrinks(s: string)
    ensures |Squeeze(s)| <= |s|
  {
    if s != "" {
      SqueezeShrinks(s[1..]);
    }
  }

  /** So a space before the stop hides a repeat from the comparison. */
  lemma SpaceBeforeStop()
    ensures Norm("a .") != Norm("a")
  {
    ClosingStop("a ", '.');
    assert "a " + ['.'] == "a .";
    assert Lstrip("a ") == "a ";
    assert "a "[..1] == "a" && Rstrip("a ") == Rstrip("a");
  }

  /** And normalising what it leaves goes on to change it. */
  lemma NormTwice()
    ensures Norm(Norm("a .")) != Norm("a .")
  {
    assert Strip("a .") == "a .";
    assert "a ."[..2] == "a ";
    assert DropStops("a .") == "a ";
    hide Norm, Strip, DropStops;
    NormAgain("a .");
  }
}
