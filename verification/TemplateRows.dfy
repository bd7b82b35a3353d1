/**
 The task rows a template request leaves, column by column, and the order in which
 they are read (api/db.py:2392-2424, 2458-2517).
 */
module TemplateRows {
  import opened Options
  import opened Sorting
  import opened WorkdayMask
  import opened BoardModel

  // ---- One row ------------------------------------------------------------------------

  /** A requirement that names a kind, a role or a resource is written, any other is not. */
  ghost predicate Says(r: Requirement) {
    Strip(r.kind) != "" || Strip(r.role) != "" || r.named.Some?
  }

  ghost predicate SameRequirement(kept: Requirement, r: Requirement) {
    kept.kind == Strip(r.kind) && kept.role == Strip(r.role) && kept.named == r.named && kept.quantity == r.quantity
  }

  /** How many of the first n requirements of a request say something. */
  ghost function Saying(rs: seq<Requirement>, n: int): nat
    requires 0 <= n <= |rs|
  {
    if n == 0 then 0 else Saying(rs, n - 1) + if Says(rs[n - 1]) then 1 else 0
  }

  /** The requirements that say something, in the order of the request, and no others. */
  ghost predicate KeptOf(kept: seq<Requirement>, rs: seq<Requirement>) {
    && |kept| == Saying(rs, |rs|)
    && (forall i | 0 <= i < |rs| && Says(rs[i]) ::
          Saying(rs, i) < |kept| && SameRequirement(kept[Saying(rs, i)], rs[i]))
  }

  /** The row of a task of a request, column by column. */
  ghost predicate RowOf(t: Task, input: TaskInput) {
    && t.localId == Strip(input.localId) && t.title == Strip(input.title)
    && t.offsetDays == input.offsetDays && t.offsetShift == input.offsetShift
    && t.duration == (if input.duration < 1 then 1 else input.duration)
    && t.workDays == Strip(input.workDays) && t.procedure == Strip(input.procedure)
    && (forall d :: d in t.dependsOn <==>
          d != "" && d != t.localId && exists i :: 0 <= i < |input.dependsOn| && Strip(input.dependsOn[i]) == d)
    && KeptOf(t.requirements, input.requirements)
  }

  lemma {:induction false} CleanOneMore(rs: seq<Requirement>, r: Requirement)
    ensures CleanRequirements(rs + [r]) == CleanRequirements(rs) +
      if Says(r) then [r.(kind := Strip(r.kind), role := Strip(r.role))] else []
  {
    hide Strip;
    if rs != [] {
      assert (rs + [r])[1..] == rs[1..] + [r];
      CleanOneMore(rs[1..], r);
    } else {
      assert rs + [r] == [r] && [r][1..] == [];
    }
  }

  lemma {:induction false} RequirementsKept(rs: seq<Requirement>, n: int)
    requires 0 <= n <= |rs|
    ensures
      var kept := CleanRequirements(rs[..n]);
      && |kept| == Saying(rs, n)
      && (forall i | 0 <= i < n && Says(rs[i]) ::
            Saying(rs, i) < |kept| && SameRequirement(kept[Saying(rs, i)], rs[i]))
  {
    hide Says, Strip;
    if n > 0 {
      RequirementsKept(rs, n - 1);
      assert rs[..n] == rs[..n - 1] + [rs[n - 1]];
      CleanOneMore(rs[..n - 1], rs[n - 1]);
    }
  }

  lemma CleanIsRow(input: TaskInput)
    ensures RowOf(Clean(input), input)
  {
    hide Strip, CleanRequirements, SameRequirement;
    RequirementsKept(input.requirements, |input.requirements|);
    assert input.requirements[..|input.requirements|] == input.requirements;
  }

  // ---- The rows of a request ---------------------------------------------------------------

  /** Task i of a request has a local id, and no earlier one the same. */
  ghost predicate NewId(tasks: seq<TaskInput>, i: int)
    requires 0 <= i < |tasks|
  {
    Strip(tasks[i].localId) != "" && forall j | 0 <= j < i :: Strip(tasks[j].localId) != Strip(tasks[i].localId)
  }

  /** Writing goes through the first k tasks, and then stops at a repeated id or at the end. */
  ghost predicate StopsAt(tasks: seq<TaskInput>, k: int) {
    && 0 <= k <= |tasks|
    && (forall i | 0 <= i < k && Strip(tasks[i].localId) != "" :: NewId(tasks, i))
    && (k < |tasks| ==> Strip(tasks[k].localId) != "" && !NewId(tasks, k))
  }

  lemma WritingStops(tasks: seq<TaskInput>) returns (k: int)
    ensures StopsAt(tasks, k)
  {
    hide Strip;
    k := 0;
    while k < |tasks| && (Strip(tasks[k].localId) == "" || NewId(tasks, k))
      invariant 0 <= k <= |tasks|
      invariant forall i | 0 <= i < k && Strip(tasks[i].localId) != "" :: NewId(tasks, i)
    {
      k := k + 1;
    }
  }

  /** The rows written for the tasks before k, in the order of the request. */
  ghost function RowsBefore(tasks: seq<TaskInput>, k: int): seq<Task>
    requires 0 <= k <= |tasks|
  {
    if k == 0 then []
    else RowsBefore(tasks, k - 1) + if Strip(tasks[k - 1].localId) == "" then [] else [Clean(tasks[k - 1])]
  }

  lemma {:induction false} RowsBeforeMember(tasks: seq<TaskInput>, k: int, t: Task)
    requires 0 <= k <= |tasks|
    ensures t in RowsBefore(tasks, k) <==>
      exists i :: 0 <= i < k && Strip(tasks[i].localId) != "" && t == Clean(tasks[i])
  {
    hide Clean, Strip;
    if k > 0 {
      RowsBeforeMember(tasks, k - 1, t);
    }
  }

  lemma HasLocalBefore(tasks: seq<TaskInput>, k: int)
    requires 0 <= k < |tasks| && Strip(tasks[k].localId) != ""
    ensures HasLocal(RowsBefore(tasks, k), Strip(tasks[k].localId)) <==> !NewId(tasks, k)
  {
    hide Strip;
    var rows := RowsBefore(tasks, k);
    forall t
      ensures t in rows <==> exists i :: 0 <= i < k && Strip(tasks[i].localId) != "" && t == Clean(tasks[i])
    {
      RowsBeforeMember(tasks, k, t);
    }
    if !NewId(tasks, k) {
      var i :| 0 <= i < k && Strip(tasks[i].localId) == Strip(tasks[k].localId);
      assert Clean(tasks[i]) in rows;
      assert Clean(tasks[i]).localId == Strip(tasks[k].localId);
    }
  }

  /** From any point on, writing ends with the rows before the stop. */
  lemma {:induction false} WrittenRows(tasks: seq<TaskInput>, i: int, k: int)
    requires StopsAt(tasks, k) && 0 <= i <= k
    ensures Written(RowsBefore(tasks, i), tasks[i..]) == RowsBefore(tasks, k)
    decreases k - i
  {
    hide Strip, HasLocal;
    if i < |tasks| {
      assert tasks[i..][0] == tasks[i] && tasks[i..][1..] == tasks[i + 1..];
      assert Clean(tasks[i]).localId == Strip(tasks[i].localId);
      if Strip(tasks[i].localId) != "" {
        HasLocalBefore(tasks, i);
      }
      if i < k {
        assert RowsBefore(tasks, i) + [] == RowsBefore(tasks, i);
        WrittenRows(tasks, i + 1, k);
      }
    } else {
      assert tasks[i..] == [];
    }
  }

  /**
   The task rows of a template are those of the request's tasks with a local id, up to
   the first id that repeats, each with its request's values.
   */
  lemma StoredRows(tasks: seq<TaskInput>, k: int)
    requires StopsAt(tasks, k)
    ensures multiset(Stored(tasks)) == multiset(RowsBefore(tasks, k))
    ensures forall t | t in Stored(tasks) ::
      exists i :: 0 <= i < k && Strip(tasks[i].localId) != "" && RowOf(t, tasks[i])
    ensures forall i | 0 <= i < k && Strip(tasks[i].localId) != "" ::
      exists t :: t in Stored(tasks) && RowOf(t, tasks[i])
  {
    hide Strip, RowOf, Clean, Sort, ReadOrder;
    var rows := Written([], tasks);
    assert tasks[0..] == tasks;
    WrittenRows(tasks, 0, k);
    ReadOrderIsTotal();
    SortIsStable(rows, ReadOrder());
    forall t
      ensures t in Stored(tasks) <==> exists i :: 0 <= i < k && Strip(tasks[i].localId) != "" && t == Clean(tasks[i])
    {
      RowsBeforeMember(tasks, k, t);
      assert t in Stored(tasks) <==> t in multiset(Stored(tasks));
      assert t in rows <==> t in multiset(rows);
    }
    forall i | 0 <= i < |tasks|
      ensures RowOf(Clean(tasks[i]), tasks[i])
    {
      CleanIsRow(tasks[i]);
    }
  }

  // ---- The order rows are read in -----------------------------------------------------------

  /** Strings compare by the first character in which they differ, a prefix being the smaller. */
  lemma {:induction false} BeforeIsLexicographic(a: string, b: string)
    ensures Before(a, b) <==>
      a <= b || exists k :: 0 <= k < |a| && k < |b| && a[..k] == b[..k] && a[k] < b[k]
  {
    if a != "" && b != "" {
      BeforeIsLexicographic(a[1..], b[1..]);
      if a[0] == b[0] {
        if k :| 0 <= k < |a[1..]| && k < |b[1..]| && a[1..][..k] == b[1..][..k] && a[1..][k] < b[1..][k] {
          assert a[..k + 1] == [a[0]] + a[1..][..k] && b[..k + 1] == [b[0]] + b[1..][..k];
          assert a[k + 1] < b[k + 1];
        }
        if k :| 0 <= k < |a| && k < |b| && a[..k] == b[..k] && a[k] < b[k] {
          assert k > 0;
          assert a[1..][..k - 1] == a[..k][1..] && b[1..][..k - 1] == b[..k][1..];
          assert a[1..][k - 1] < b[1..][k - 1];
        }
        assert a <= b <==> a[1..] <= b[1..];
      } else {
        assert a[..0] == b[..0];
        assert forall k | 0 < k < |a| && k < |b| :: a[..k][0] == a[0] && b[..k][0] == b[0];
      }
    }
  }

  /** A template's rows are read by offset days, then offset shift, then local id. */
  lemma ReadByOffset(tasks: seq<TaskInput>, i: int, j: int)
    requires 0 <= i < j < |Stored(tasks)|
    ensures
      var (x, y) := (Stored(tasks)[i], Stored(tasks)[j]);
      && x.offsetDays <= y.offsetDays
      && (x.offsetDays == y.offsetDays ==> x.offsetShift <= y.offsetShift)
      && (x.offsetDays == y.offsetDays && x.offsetShift == y.offsetShift ==>
            Before(x.localId, y.localId) && x.localId != y.localId)
  {
    hide Before, Written, Sort;
    ReadOrderIsTotal();
    SortIsStable(Written([], tasks), ReadOrder());
    StoredIsTaskGraph(tasks);
    assert ReadOrder()(Stored(tasks)[i], Stored(tasks)[j]);
  }
}
