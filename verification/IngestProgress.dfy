/**
 Progress of the ingest protocol: once no more requests come in, the background
 tasks and workers have only so many steps left, and can always take them.
 */
module IngestProgress {
  import opened Sorting
  import opened IngestGroups
  import opened Ingest

  /** Steps an item still has before it. */
  function Rank(st: Status): int {
    match st
    case Waiting => 3
    case Working => 2
    case Settling => 1
    case Done => 0
    case Abandoned => 0
  }

  ghost function AtLeast(status: map<string, Status>, n: int): set<string> {
    set id | id in status && Rank(status[id]) >= n
  }

  /** The sum of the ranks of a batch's items. */
  ghost function ItemEffort(status: map<string, Status>): nat {
    |AtLeast(status, 1)| + |AtLeast(status, 2)| + |AtLeast(status, 3)|
  }

  /** Steps a batch still has before it. */
  ghost function Effort(batch: Batch): nat {
    match batch.phase
    case Claimed => ItemEffort(batch.status) + 2
    case Queued => ItemEffort(batch.status) + 1
    case Running => ItemEffort(batch.status)
    case Dead => 0
  }

  ghost function TotalEffort(batches: seq<Batch>): nat {
    if batches == [] then 0 else TotalEffort(batches[..|batches| - 1]) + Effort(batches[|batches| - 1])
  }

  lemma {:induction false} TotalUpdate(batches: seq<Batch>, b: int, x: Batch)
    requires 0 <= b < |batches|
    ensures TotalEffort(batches[b := x]) == TotalEffort(batches) - Effort(batches[b]) + Effort(x)
  {
    hide Effort;
    var n := |batches| - 1;
    if b < n {
      TotalUpdate(batches[..n], b, x);
      assert batches[b := x][..n] == batches[..n][b := x];
    } else {
      assert batches[b := x][..n] == batches[..n];
    }
  }

  lemma AtLeastUpdate(status: map<string, Status>, id: string, st: Status, n: int)
    requires id in status && Rank(st) < Rank(status[id])
    ensures |AtLeast(status[id := st], n)| ==
      |AtLeast(status, n)| - (if Rank(st) < n <= Rank(status[id]) then 1 else 0)
  {
    hide Rank;
    var lower := Rank(st) < n <= Rank(status[id]);
    assert AtLeast(status[id := st], n) == if lower then AtLeast(status, n) - {id} else AtLeast(status, n);
  }

  /** Moving one item on takes its rank's difference off the effort. */
  lemma ItemMovesOn(status: map<string, Status>, id: string, st: Status)
    requires id in status && Rank(st) < Rank(status[id])
    ensures ItemEffort(status[id := st]) == ItemEffort(status) - Rank(status[id]) + Rank(st)
  {
    hide AtLeast;
    AtLeastUpdate(status, id, st, 1);
    AtLeastUpdate(status, id, st, 2);
    AtLeastUpdate(status, id, st, 3);
  }

  /** A batch has at most three steps for each item before it, and two more. */
  lemma EffortBound(batch: Batch)
    requires BatchOk(batch)
    ensures Effort(batch) <= 3 * |batch.items| + 2
  {
    hide Rank, DistinctIds;
    IdCount(batch.items);
    forall n
      ensures |AtLeast(batch.status, n)| <= |batch.items|
    {
      Contained(AtLeast(batch.status, n), IdSet(batch.items));
    }
  }

  lemma {:induction false} Contained(a: set<string>, b: set<string>)
    requires a <= b
    ensures |a| <= |b|
    decreases |a|
  {
    if x :| x in a {
      Contained(a - {x}, b - {x});
    }
  }

  // ---- Steps of tasks and workers -------------------------------------------------------

  predicate IsClaim(step: Step) {
    step.Claim? || step.FailClaim?
  }

  /** Steps of a background task or a worker. */
  predicate OfTask(step: Step) {
    !IsClaim(step) && !step.SetCancelled? && !step.OutsideWrite? && !step.OutsideDelete?
  }

  /** Every step of a task or worker leaves fewer; cancelling and outside writes leave them all. */
  lemma StepTakesEffort(s: State, step: Step)
    requires Enabled(s, step) && !IsClaim(step)
    ensures TotalEffort(Next(s, step).batches) + (if OfTask(step) then 1 else 0) <= TotalEffort(s.batches)
  {
    hide Groups, FirstOf, Claimable, ItemEffort, TotalEffort, Effort;
    if OfTask(step) {
      TotalUpdate(s.batches, step.b, Next(s, step).batches[step.b]);
      BatchTakesEffort(s, step);
    }
  }

  lemma BatchTakesEffort(s: State, step: Step)
    requires Enabled(s, step) && OfTask(step)
    ensures 0 <= step.b < |s.batches| && Next(s, step).batches == s.batches[step.b := Next(s, step).batches[step.b]]
    ensures Effort(Next(s, step).batches[step.b]) < Effort(s.batches[step.b])
  {
    hide Groups, FirstOf, Claimable, ItemEffort;
    var batch, batch' := s.batches[step.b], Next(s, step).batches[step.b];
    match step
    case Lose(b, g) => ItemMovesOn(batch.status, Groups(batch.items)[g][0].id, Abandoned);
    case Begin(b, g, k) =>
      var id := Groups(batch.items)[g][k].id;
      ItemMovesOn(batch.status, id, batch'.status[id]);
    case Save(b, id) => ItemMovesOn(batch.status, id, Settling);
    case Skip(b, id) => ItemMovesOn(batch.status, id, Settling);
    case Raise(b, id) => ItemMovesOn(batch.status, id, Abandoned);
    case MarkDone(b, id) => ItemMovesOn(batch.status, id, Done);
    case _ =>
  }

  /** How many steps of a run are a task's or worker's. */
  function TaskSteps(steps: seq<Step>): nat {
    if steps == [] then 0 else (if OfTask(steps[0]) then 1 else 0) + TaskSteps(steps[1..])
  }

  /** Once requests stop, the steps left to tasks and workers are bounded, in any interleaving. */
  lemma {:induction false} TaskStepsBounded(s: State, steps: seq<Step>)
    requires IsRun(s, steps) && forall i | 0 <= i < |steps| :: !IsClaim(steps[i])
    ensures TaskSteps(steps) + TotalEffort(After(s, steps).batches) <= TotalEffort(s.batches)
    decreases |steps|
  {
    hide Next, Enabled, TotalEffort, OfTask, IsClaim;
    if steps != [] {
      StepTakesEffort(s, steps[0]);
      assert forall i | 0 <= i < |steps[1..]| :: steps[1..][i] == steps[i + 1];
      TaskStepsBounded(Next(s, steps[0]), steps[1..]);
    }
  }

  // ---- Something can always be done -------------------------------------------------------

  /** Steps of a task or worker that let no exception escape. */
  predicate Calm(step: Step) {
    OfTask(step) && !Escape(step)
  }

  /** What is not finished can go on without an exception, and what is finished cannot go on at all. */
  lemma FinishedIffStopped(s: State)
    ensures !Finished(s) ==> exists step :: Calm(step) && Enabled(s, step)
    ensures Finished(s) <==> forall step | OfTask(step) :: !Enabled(s, step)
  {
    hide Groups, FirstOf, Claimable;
    if !Finished(s) {
      if b :| 0 <= b < |s.batches| && !s.batches[b].phase.Running? && !s.batches[b].phase.Dead? {
        var step := if s.batches[b].phase.Claimed? then Enqueue(b) else Start(b);
        assert Calm(step) && Enabled(s, step);
      } else if b, g, k :| Enabled(s, Begin(b, g, k)) {
        assert Calm(Begin(b, g, k));
      } else {
        var b, id :| HasItem(s, b, id) && (StatusOf(s, b, id) == Working || StatusOf(s, b, id) == Settling);
        var step := if StatusOf(s, b, id) == Working then Save(b, id) else MarkDone(b, id);
        assert Calm(step) && Enabled(s, step);
      }
    } else {
      forall step | OfTask(step)
        ensures !Enabled(s, step)
      {
        if step.Lose? {
          assert !Enabled(s, Begin(step.b, step.g, 0));
        }
      }
    }
  }

  /** A run of task and worker steps without an escaping exception that ends with nothing left to do. */
  ghost predicate Completes(s: State, steps: seq<Step>) {
    && IsRun(s, steps) && Finished(After(s, steps))
    && |steps| <= TotalEffort(s.batches)
    && forall i | 0 <= i < |steps| :: Calm(steps[i])
  }

  /** From every state tasks and workers can finish, without an exception and within the bound. */
  lemma {:induction false} CanFinish(s: State)
    ensures exists steps :: Completes(s, steps)
    decreases TotalEffort(s.batches)
  {
    hide Finished, Next, Enabled, TotalEffort, Calm;
    FinishedIffStopped(s);
    if Finished(s) {
      assert Completes(s, []);
    } else {
      var step :| Calm(step) && Enabled(s, step);
      CalmIsOfTask(step);
      StepTakesEffort(s, step);
      CanFinish(Next(s, step));
      var rest :| Completes(Next(s, step), rest);
      OneMore(s, step, rest);
      assert Completes(s, [step] + rest);
    }
  }

  lemma CalmIsOfTask(step: Step)
    requires Calm(step)
    ensures OfTask(step) && !IsClaim(step) && !Escape(step)
  {
  }

  /**
   From every reachable state in which no exception has escaped yet, tasks and
   workers can bring the counter back to 0 and the in-flight set back to empty.
   */
  lemma CanDrain(before: seq<Step>)
    requires IsRun(INIT, before) && !SomeEscape(before)
    ensures
      var s := After(INIT, before);
      exists steps :: Completes(s, steps) && After(s, steps).pending == 0 && After(s, steps).inFlight == {}
  {
    hide IsRun, After, Invariant, Finished, Calm, Escape, SomeStranded, TotalEffort;
    var s := After(INIT, before);
    InitInvariant();
    RunKeepsInvariant(INIT, before);
    RunStrands(INIT, before);
    NothingStrandedYet();
    CanFinish(s);
    var steps :| Completes(s, steps);
    forall i | 0 <= i < |steps|
      ensures !Escape(steps[i])
    {
      CalmIsOfTask(steps[i]);
    }
    RunKeepsInvariant(s, steps);
    RunStrands(s, steps);
    FinishedIsClear(After(s, steps));
  }
}
