/**
 The ingest protocol (api/app.py:1604-1632, api/orchestrator.py:667-796) as a
 state machine: one step per span under `db.lock` or per hand-over between
 threads, in any interleaving of any number of requests and workers.
 */
module Ingest {
  import opened Sorting
  import opened IngestGroups

  // ---- Claiming ---------------------------------------------------------------------

  /** Ids of a request that are non-blank, not in flight and not stored. */
  function Claimable(ids: seq<string>, inFlight: set<string>, rows: set<string>): set<string> {
    set i | 0 <= i < |ids| && ids[i] != "" && ids[i] !in inFlight && ids[i] !in rows :: ids[i]
  }

  /** The first item of a request for each wanted id. */
  function FirstOf(body: seq<Item>, want: set<string>): seq<Item> {
    if body == [] then []
    else if body[0].id in want then [body[0]] + FirstOf(body[1..], want - {body[0].id})
    else FirstOf(body[1..], want)
  }

  function Ids(body: seq<Item>): seq<string> {
    seq(|body|, i requires 0 <= i < |body| => body[i].id)
  }

  function Clamped(pending: int): int {
    if pending - 1 > 0 then pending - 1 else 0
  }

  lemma {:induction false} FirstOfFacts(body: seq<Item>, want: set<string>)
    ensures DistinctIds(FirstOf(body, want))
    ensures IdSet(FirstOf(body, want)) == IdSet(body) * want
  {
    if body != [] {
      var id := body[0].id;
      IdSetCons(body[0], body[1..]);
      assert body == [body[0]] + body[1..];
      if id in want {
        var rest := FirstOf(body[1..], want - {id});
        FirstOfFacts(body[1..], want - {id});
        IdSetCons(body[0], rest);
        forall j | 0 <= j < |rest|
          ensures rest[j].id != id
        {
          assert rest[j].id in IdSet(rest);
        }
      } else {
        FirstOfFacts(body[1..], want);
      }
    }
  }

  lemma IdSetCons(x: Item, s: seq<Item>)
    ensures IdSet([x] + s) == {x.id} + IdSet(s)
  {
    assert forall y :: y in [x] + s <==> y == x || y in s;
  }

  /** Every claimed id reaches the batch of its request, exactly once. */
  lemma ClaimedReachBatch(body: seq<Item>, inFlight: set<string>, rows: set<string>)
    ensures
      var claimed := Claimable(Ids(body), inFlight, rows);
      var raw := FirstOf(body, claimed);
      DistinctIds(raw) && IdSet(raw) == claimed && claimed !! inFlight && claimed !! rows
  {
    var claimed := Claimable(Ids(body), inFlight, rows);
    FirstOfFacts(body, claimed);
    forall id | id in claimed
      ensures id in IdSet(body)
    {
      var i :| 0 <= i < |body| && Ids(body)[i] == id;
      assert body[i] in body && body[i].id == id;
    }
  }

  /** A claim takes every id that is fresh, wherever it stands in the request. */
  lemma ClaimableIff(ids: seq<string>, inFlight: set<string>, rows: set<string>)
    ensures forall id ::
      id in Claimable(ids, inFlight, rows) <==> id in ids && id != "" && id !in inFlight && id !in rows
  {
  }

  ghost function IdSet(items: seq<Item>): set<string> {
    set x | x in items :: x.id
  }

  // ---- The state machine ----------------------------------------------------------

  /** `Settling` is between an item's last effect and `_mark_done`; `Abandoned` never gets there. */
  datatype Status = Waiting | Working | Settling | Done | Abandoned

  /** A request's claimed items, its queued background task, the running task; or one that never came to run. */
  datatype Phase = Claimed | Queued | Running | Dead

  datatype Batch = Batch(phase: Phase, items: seq<Item>, status: map<string, Status>)

  datatype Event = Begun(batch: int, id: string) | Settled(batch: int, id: string)

  datatype State = State(
    inFlight: set<string>, rows: set<string>, pending: int, cancelled: bool, batches: seq<Batch>, log: seq<Event>)

  const INIT := State({}, {}, 0, false, [], [])

  datatype Step =
    | Claim(body: seq<Item>)            // claim under the lock, select the items
    | FailClaim(body: seq<Item>, n: int) // an exception in the claim loop, after n items
    | Enqueue(b: int)                   // hand the batch to a background task
    | Abort(b: int)                     // the task dies before pending rises
    | Start(b: int)                     // the task starts: pending rises
    | Lose(b: int, g: int)              // the task dies before a group reaches a worker
    | Begin(b: int, g: int, k: int)     // a worker takes the next item of a group
    | Save(b: int, id: string)          // analysis, filtered row or calendar row stored
    | Skip(b: int, id: string)          // analysis failed, or nothing to store
    | Raise(b: int, id: string)         // an exception outside the handler's try
    | MarkDone(b: int, id: string)
    | SetCancelled(flag: bool)
    | OutsideWrite(id: string)          // scans, manual items and deletions
    | OutsideDelete(id: string)

  ghost predicate HasItem(s: State, b: int, id: string) {
    0 <= b < |s.batches| && s.batches[b].phase.Running? && id in s.batches[b].status
  }

  ghost function StatusOf(s: State, b: int, id: string): Status
    requires HasItem(s, b, id)
  {
    s.batches[b].status[id]
  }

  /** Item k of group g of a running batch: groups are worked through in sequence. */
  ghost predicate IsNext(batch: Batch, g: int, k: int) {
    && batch.phase.Running?
    && 0 <= g < |Groups(batch.items)| && 0 <= k < |Groups(batch.items)[g]|
    && Groups(batch.items)[g][k].id in batch.status && batch.status[Groups(batch.items)[g][k].id] == Waiting
    && (k > 0 ==> Groups(batch.items)[g][k - 1].id in batch.status
                  && batch.status[Groups(batch.items)[g][k - 1].id] == Done)
  }

  /** The items of a request that a claim hands over. */
  ghost function Selected(s: State, body: seq<Item>): seq<Item> {
    FirstOf(body, Claimable(Ids(body), s.inFlight, s.rows))
  }

  ghost predicate Enabled(s: State, step: Step) {
    match step
    case Claim(_) => true
    case FailClaim(body, n) => 0 <= n <= |body| && Selected(s, body[..n]) != []
    case Enqueue(b) => 0 <= b < |s.batches| && s.batches[b].phase.Claimed?
    case Abort(b) => 0 <= b < |s.batches| && s.batches[b].phase.Queued?
    case Start(b) => 0 <= b < |s.batches| && s.batches[b].phase.Queued?
    case Lose(b, g) => 0 <= b < |s.batches| && IsNext(s.batches[b], g, 0)
    case Begin(b, g, k) => 0 <= b < |s.batches| && IsNext(s.batches[b], g, k)
    case Save(b, id) => HasItem(s, b, id) && StatusOf(s, b, id) == Working
    case Skip(b, id) => HasItem(s, b, id) && StatusOf(s, b, id) == Working
    case Raise(b, id) => HasItem(s, b, id) && StatusOf(s, b, id) == Working
    case MarkDone(b, id) => HasItem(s, b, id) && StatusOf(s, b, id) == Settling
    case _ => true
  }

  ghost function SetStatus(s: State, b: int, id: string, st: Status): State
    requires 0 <= b < |s.batches|
  {
    s.(batches := s.batches[b := s.batches[b].(status := s.batches[b].status[id := st])])
  }

  /** The claimed ids join the in-flight set, and their items one batch. */
  ghost function WithClaim(s: State, body: seq<Item>, phase: Phase): State {
    var claimed := Claimable(Ids(body), s.inFlight, s.rows);
    if Selected(s, body) == [] then s
    else s.(inFlight := s.inFlight + claimed,
            batches := s.batches + [Batch(phase, Selected(s, body), map id | id in claimed :: Waiting)])
  }

  ghost function Next(s: State, step: Step): State
    requires Enabled(s, step)
  {
    match step
    case Claim(body) => WithClaim(s, body, Claimed)
    case FailClaim(body, n) => WithClaim(s, body[..n], Dead)
    case Enqueue(b) => s.(batches := s.batches[b := s.batches[b].(phase := Queued)])
    case Abort(b) => s.(batches := s.batches[b := s.batches[b].(phase := Dead)])
    case Lose(b, g) => SetStatus(s, b, Groups(s.batches[b].items)[g][0].id, Abandoned)
    case Start(b) =>
      s.(batches := s.batches[b := s.batches[b].(phase := Running)], pending := s.pending + |s.batches[b].items|)
    case Begin(b, g, k) =>
      var id := Groups(s.batches[b].items)[g][k].id;
      SetStatus(s, b, id, if s.cancelled then Settling else Working).(log := s.log + [Begun(b, id)])
    case Save(b, id) => SetStatus(s, b, id, Settling).(rows := s.rows + {id})
    case Skip(b, id) => SetStatus(s, b, id, Settling)
    case Raise(b, id) => SetStatus(s, b, id, Abandoned)
    case MarkDone(b, id) =>
      SetStatus(s, b, id, Done).(inFlight := s.inFlight - {id},
                                pending := Clamped(s.pending), log := s.log + [Settled(b, id)])
    case SetCancelled(flag) => s.(cancelled := flag)
    case OutsideWrite(id) => s.(rows := s.rows + {id})
    case OutsideDelete(id) => s.(rows := s.rows - {id})
  }

  // ---- The program's own operations ---------------------------------------------------

  /** What becomes of an item that is not cancelled. */
  datatype Fate = Stores | StoresNothing | Escapes

  function FateStep(b: int, id: string, fate: Fate): Step {
    match fate
    case Stores => Save(b, id)
    case StoresNothing => Skip(b, id)
    case Escapes => Raise(b, id)
  }

  /** The steps of one uninterrupted `_handle_item`. */
  ghost function Handled(s: State, b: int, g: int, k: int, fate: Fate): State
    requires Enabled(s, Begin(b, g, k))
  {
    HandlingGoesThrough(s, b, g, k, fate);
    var id := Groups(s.batches[b].items)[g][k].id;
    var s1 := Next(s, Begin(b, g, k));
    if s.cancelled then Next(s1, MarkDone(b, id))
    else
      var s2 := Next(s1, FateStep(b, id, fate));
      if fate.Escapes? then s2 else Next(s2, MarkDone(b, id))
  }

  /** Once an item has begun, its remaining steps are enabled one after the other. */
  lemma HandlingGoesThrough(s: State, b: int, g: int, k: int, fate: Fate)
    requires Enabled(s, Begin(b, g, k))
    ensures
      var id := Groups(s.batches[b].items)[g][k].id;
      var s1 := Next(s, Begin(b, g, k));
      && (s.cancelled ==> Enabled(s1, MarkDone(b, id)))
      && (!s.cancelled ==> Enabled(s1, FateStep(b, id, fate)))
      && (!s.cancelled && !fate.Escapes? ==> Enabled(Next(s1, FateStep(b, id, fate)), MarkDone(b, id)))
  {
    hide Groups;
  }

  /** The shared state; the batches are local to tasks and workers, so only a ghost sees them all. */
  class Coordinator {
    var inFlight: set<string>
    var rows: set<string>
    var pending: int
    var cancelled: bool
    ghost var batches: seq<Batch>
    ghost var log: seq<Event>

    ghost function Model(): State
      reads this
    {
      State(inFlight, rows, pending, cancelled, batches, log)
    }

    constructor ()
      ensures Model() == INIT
    {
      inFlight, rows, pending, cancelled, batches, log := {}, {}, 0, false, [], [];
    }

    /** `claim_ingest_items` */
    method ClaimIngestItems(ids: seq<string>) returns (claimed: set<string>)
      modifies this`inFlight
      ensures claimed == Claimable(ids, old(inFlight), rows)
      ensures forall id :: id in claimed <==> id in ids && id != "" && id !in old(inFlight) && id !in rows
      ensures inFlight == old(inFlight) + claimed
    {
      claimed := {};
      for i := 0 to |ids|
        invariant claimed == Claimable(ids[..i], old(inFlight), rows)
        invariant forall id :: id in claimed <==> id in ids[..i] && id != "" && id !in old(inFlight) && id !in rows
        invariant inFlight == old(inFlight) + claimed
      {
        assert ids[..i + 1] == ids[..i] + [ids[i]];
        if ids[i] != "" && ids[i] !in inFlight && ids[i] !in rows {
          inFlight := inFlight + {ids[i]};
          claimed := claimed + {ids[i]};
        }
      }
      assert ids[..|ids|] == ids;
    }

    /** The items of the request whose ids were claimed, each once. */
    method SelectClaimed(body: seq<Item>, claimed: set<string>) returns (raw: seq<Item>)
      ensures raw == FirstOf(body, claimed)
    {
      raw := [];
      var seen: set<string> := {};
      assert claimed - seen == claimed && body[0..] == body;
      for i := 0 to |body|
        invariant raw + FirstOf(body[i..], claimed - seen) == FirstOf(body, claimed)
      {
        assert body[i..][1..] == body[i + 1..];
        if body[i].id in claimed && body[i].id !in seen {
          seen := seen + {body[i].id};
          raw := raw + [body[i]];
          assert claimed - seen == claimed - (seen - {body[i].id}) - {body[i].id};
        }
      }
    }

    /** `ingest`, up to the hand-over to a background task, which happens unless `raw` is empty. */
    method IngestRequest(body: seq<Item>) returns (raw: seq<Item>)
      modifies this`inFlight, this`batches
      ensures Model() == Next(old(Model()), Claim(body))
      ensures raw == FirstOf(body, Claimable(Ids(body), old(inFlight), rows))
    {
      hide FirstOf, Claimable;
      ClaimedReachBatch(body, inFlight, rows);
      var claimed := ClaimIngestItems(Ids(body));
      raw := SelectClaimed(body, claimed);
      if raw != [] {
        batches := batches + [Batch(Claimed, raw, map id | id in claimed :: Waiting)];
      } else {
        assert IdSet(raw) == {};
      }
    }

    /** A request whose claim loop raises after n items: nobody will ever process what it claimed. */
    method FailingRequest(body: seq<Item>, n: nat)
      requires Enabled(Model(), FailClaim(body, n))
      modifies this`inFlight, this`batches
      ensures Model() == Next(old(Model()), FailClaim(body, n))
    {
      hide FirstOf, Claimable;
      ghost var raw := Selected(Model(), body[..n]);
      var claimed := ClaimIngestItems(Ids(body[..n]));
      batches := batches + [Batch(Dead, raw, map id | id in claimed :: Waiting)];
    }

    /** The start of `process_ingest_items`: reading the noise rules may raise before pending rises. */
    method StartBatch(ghost b: int, raw: seq<Item>, rulesFail: bool)
      requires Enabled(Model(), Start(b)) && raw == batches[b].items
      modifies this`pending, this`batches
      ensures Model() == Next(old(Model()), if rulesFail then Abort(b) else Start(b))
    {
      if rulesFail {
        batches := batches[b := batches[b].(phase := Dead)];
        return;
      }
      pending := pending + |raw|;
      batches := batches[b := batches[b].(phase := Running)];
    }

    /** `_mark_done` */
    method Settle(ghost b: int, id: string)
      requires Enabled(Model(), MarkDone(b, id))
      modifies this`pending, this`inFlight, this`batches, this`log
      ensures Model() == Next(old(Model()), MarkDone(b, id))
    {
      pending := if pending - 1 > 0 then pending - 1 else 0;
      inFlight := inFlight - {id};
      batches := SetStatus(Model(), b, id, Done).batches;
      log := log + [Settled(b, id)];
    }

    /** A worker takes its next item, and learns whether the batch is cancelled. */
    method TakeItem(ghost b: int, ghost g: int, ghost k: int, item: Item) returns (stop: bool)
      requires Enabled(Model(), Begin(b, g, k)) && item == Groups(batches[b].items)[g][k]
      modifies this`batches, this`log
      ensures stop == cancelled && Model() == Next(old(Model()), Begin(b, g, k))
    {
      hide Groups;
      stop := cancelled;
      batches := SetStatus(Model(), b, item.id, if cancelled then Settling else Working).batches;
      log := log + [Begun(b, item.id)];
    }

    /** The effect of handling; true when an exception escapes the handler. */
    method Process(ghost b: int, id: string, fate: Fate) returns (escaped: bool)
      requires Enabled(Model(), FateStep(b, id, fate))
      modifies this`rows, this`batches
      ensures escaped == fate.Escapes? && Model() == Next(old(Model()), FateStep(b, id, fate))
    {
      if fate == Stores {
        rows := rows + {id};
      }
      escaped := fate == Escapes;
      batches := SetStatus(Model(), b, id, if escaped then Abandoned else Settling).batches;
    }

    /** `_handle_item`: cancelled items settle at once, and an escaping exception skips `_mark_done`. */
    method HandleItem(ghost b: int, ghost g: int, ghost k: int, item: Item, fate: Fate)
      requires Enabled(Model(), Begin(b, g, k)) && item == Groups(batches[b].items)[g][k]
      modifies this
      ensures Model() == Handled(old(Model()), b, g, k, fate)
    {
      hide Groups, Next, Enabled;
      HandlingGoesThrough(Model(), b, g, k, fate);
      var stop := TakeItem(b, g, k, item);
      if stop {
        Settle(b, item.id);
        return;
      }
      var escaped := Process(b, item.id, fate);
      if !escaped {
        Settle(b, item.id);
      }
    }
  }

  // ---- What is in flight ------------------------------------------------------------

  /** Ids accepted into a batch and not yet marked done. */
  ghost function Live(batch: Batch): set<string> {
    set id | id in batch.status && batch.status[id] != Done
  }

  ghost predicate BatchOk(batch: Batch) {
    && DistinctIds(batch.items) && batch.items != []
    && batch.status.Keys == IdSet(batch.items)
    && (!batch.phase.Running? ==> forall id | id in batch.status :: batch.status[id] == Waiting)
  }

  ghost predicate InFlightExact(s: State) {
    forall id :: id in s.inFlight <==> exists b :: 0 <= b < |s.batches| && id in Live(s.batches[b])
  }

  ghost predicate OneLiveBatch(s: State) {
    forall b, c | 0 <= b < c < |s.batches| :: Live(s.batches[b]) !! Live(s.batches[c])
  }

  /** Items of started tasks not yet marked done, over all batches. */
  ghost function Outstanding(batches: seq<Batch>): int {
    if batches == [] then 0
    else
      var last := batches[|batches| - 1];
      Outstanding(batches[..|batches| - 1]) + (if last.phase.Running? then |Live(last)| else 0)
  }

  ghost predicate Exclusion(s: State) {
    && (forall b | 0 <= b < |s.batches| :: BatchOk(s.batches[b]))
    && InFlightExact(s) && OneLiveBatch(s)
    && s.pending == Outstanding(s.batches)
  }

  lemma {:induction false} OutstandingUpdate(batches: seq<Batch>, b: int, x: Batch)
    requires 0 <= b < |batches|
    ensures Outstanding(batches[b := x]) == Outstanding(batches)
         - (if batches[b].phase.Running? then |Live(batches[b])| else 0) + (if x.phase.Running? then |Live(x)| else 0)
  {
    var n := |batches| - 1;
    if b < n {
      OutstandingUpdate(batches[..n], b, x);
      assert batches[b := x][..n] == batches[..n][b := x];
    } else {
      assert batches[b := x][..n] == batches[..n];
    }
  }

  lemma {:induction false} OutstandingAtLeast(batches: seq<Batch>, b: int)
    requires 0 <= b < |batches| && batches[b].phase.Running?
    ensures Outstanding(batches) >= |Live(batches[b])|
    ensures Outstanding(batches) >= 0
  {
    var n := |batches| - 1;
    OutstandingNonNegative(batches[..n]);
    if b < n {
      OutstandingAtLeast(batches[..n], b);
    }
  }

  lemma {:induction false} OutstandingNonNegative(batches: seq<Batch>)
    ensures Outstanding(batches) >= 0
  {
    if batches != [] {
      OutstandingNonNegative(batches[..|batches| - 1]);
    }
  }

  /** A claim that finds something adds one batch, live with exactly the ids it puts in flight. */
  lemma ClaimAddsBatch(s: State, body: seq<Item>, phase: Phase) returns (batch: Batch)
    requires WithClaim(s, body, phase) != s && !phase.Running?
    ensures
      var s' := WithClaim(s, body, phase);
      && s'.batches == s.batches + [batch] && s'.pending == s.pending
      && BatchOk(batch) && !batch.phase.Running?
      && s'.inFlight == s.inFlight + Live(batch) && Live(batch) !! s.inFlight
  {
    hide FirstOf, Claimable, DistinctIds, IdSet;
    ClaimedReachBatch(body, s.inFlight, s.rows);
    batch := WithClaim(s, body, phase).batches[|s.batches|];
    assert Live(batch) == Claimable(Ids(body), s.inFlight, s.rows);
  }

  lemma NewBatchInFlight(s: State, s': State, batch: Batch)
    requires InFlightExact(s) && s'.batches == s.batches + [batch] && s'.inFlight == s.inFlight + Live(batch)
    ensures InFlightExact(s')
  {
    hide Live;
    var n := |s.batches|;
    forall b, id | 0 <= b < |s'.batches| && id in Live(s'.batches[b])
      ensures id in s'.inFlight
    {
      assert b < n ==> id in Live(s.batches[b]);
    }
    forall id | id in s'.inFlight
      ensures exists b :: 0 <= b < |s'.batches| && id in Live(s'.batches[b])
    {
      if id in Live(batch) {
        assert id in Live(s'.batches[n]);
      } else {
        var b :| 0 <= b < n && id in Live(s.batches[b]);
        assert id in Live(s'.batches[b]);
      }
    }
  }

  lemma NewBatchAlone(s: State, s': State, batch: Batch)
    requires InFlightExact(s) && OneLiveBatch(s) && s'.batches == s.batches + [batch] && Live(batch) !! s.inFlight
    ensures OneLiveBatch(s')
  {
    hide Live;
    forall b | 0 <= b < |s.batches|
      ensures Live(s'.batches[b]) !! Live(batch)
    {
      forall id | id in Live(s.batches[b])
        ensures id in s.inFlight
      {
      }
    }
  }

  lemma NewBatchCounted(batches: seq<Batch>, batch: Batch)
    requires !batch.phase.Running?
    ensures Outstanding(batches + [batch]) == Outstanding(batches)
  {
    assert (batches + [batch])[..|batches|] == batches;
  }

  lemma ClaimKeepsExclusion(s: State, body: seq<Item>, phase: Phase)
    requires Exclusion(s) && !phase.Running?
    ensures Exclusion(WithClaim(s, body, phase))
  {
    hide WithClaim, Live, BatchOk, InFlightExact, OneLiveBatch, Outstanding;
    var s' := WithClaim(s, body, phase);
    if s' != s {
      var batch := ClaimAddsBatch(s, body, phase);
      NewBatchInFlight(s, s', batch);
      NewBatchAlone(s, s', batch);
      NewBatchCounted(s.batches, batch);
    }
  }

  lemma ClaimStepKeepsExclusion(s: State, step: Step)
    requires Exclusion(s) && Enabled(s, step) && (step.Claim? || step.FailClaim?)
    ensures Exclusion(Next(s, step))
  {
    hide WithClaim, Exclusion;
    match step
    case Claim(body) => ClaimKeepsExclusion(s, body, Claimed);
    case FailClaim(body, n) => ClaimKeepsExclusion(s, body[..n], Dead);
  }

  /** Steps that neither claim nor mark an item done. */
  predicate Quiet(step: Step) {
    !step.Claim? && !step.FailClaim? && !step.MarkDone?
  }

  /** A step that leaves the live ids of every batch alone leaves them in flight. */
  lemma SameLive(s: State, s': State)
    requires InFlightExact(s) && OneLiveBatch(s) && s'.inFlight == s.inFlight && |s'.batches| == |s.batches|
    requires forall b | 0 <= b < |s.batches| :: Live(s'.batches[b]) == Live(s.batches[b])
    ensures InFlightExact(s') && OneLiveBatch(s')
  {
    forall id
      ensures id in s'.inFlight <==> exists b :: 0 <= b < |s'.batches| && id in Live(s'.batches[b])
    {
      if b :| 0 <= b < |s.batches| && id in Live(s.batches[b]) {
        assert id in Live(s'.batches[b]);
      }
      if b :| 0 <= b < |s'.batches| && id in Live(s'.batches[b]) {
        assert id in Live(s.batches[b]);
      }
    }
  }

  lemma LiveCount(batch: Batch)
    requires BatchOk(batch) && !batch.phase.Running?
    ensures |Live(batch)| == |batch.items|
  {
    assert Live(batch) == IdSet(batch.items);
    IdCount(batch.items);
  }

  lemma {:induction false} IdCount(items: seq<Item>)
    requires DistinctIds(items)
    ensures |IdSet(items)| == |items|
  {
    if items != [] {
      var n := |items| - 1;
      IdCount(items[..n]);
      assert items == items[..n] + [items[n]];
      assert IdSet(items) == IdSet(items[..n]) + {items[n].id};
      forall x | x in items[..n]
        ensures x.id != items[n].id
      {
        var j :| 0 <= j < n && items[..n][j] == x;
      }
    }
  }

  lemma QuietStepKeepsExclusion(s: State, step: Step)
    requires Exclusion(s) && Enabled(s, step) && Quiet(step)
    ensures Exclusion(Next(s, step))
  {
    hide Groups, DistinctIds, IdSet, Live, InFlightExact, OneLiveBatch;
    QuietStepSameLive(s, step);
    if !step.SetCancelled? && !step.OutsideWrite? && !step.OutsideDelete? {
      OutstandingUpdate(s.batches, step.b, Next(s, step).batches[step.b]);
      if step.Start? {
        LiveCount(s.batches[step.b]);
      }
    }
    SameLive(s, Next(s, step));
  }

  lemma QuietStepSameLive(s: State, step: Step)
    requires Enabled(s, step) && Quiet(step)
    ensures |Next(s, step).batches| == |s.batches|
    ensures forall b | 0 <= b < |s.batches| :: Live(Next(s, step).batches[b]) == Live(s.batches[b])
  {
    hide Groups;
  }

  lemma MarkDoneKeepsExclusion(s: State, step: Step)
    requires Exclusion(s) && Enabled(s, step) && step.MarkDone?
    ensures Exclusion(Next(s, step))
    ensures s.pending > 0
  {
    hide InFlightExact, OneLiveBatch;
    var was, now := s.batches[step.b], Next(s, step).batches[step.b];
    assert step.id in Live(was) && Live(now) == Live(was) - {step.id};
    OutstandingUpdate(s.batches, step.b, now);
    OutstandingAtLeast(s.batches, step.b);
    MarkDoneReleases(s, step);
  }

  /** The id leaves the one batch where it was live, and the in-flight set. */
  lemma MarkDoneReleases(s: State, step: Step)
    requires InFlightExact(s) && OneLiveBatch(s) && Enabled(s, step) && step.MarkDone?
    ensures InFlightExact(Next(s, step)) && OneLiveBatch(Next(s, step))
  {
    var s' := Next(s, step);
    assert step.id in Live(s.batches[step.b]);
    forall id
      ensures id in s'.inFlight <==> exists c :: 0 <= c < |s'.batches| && id in Live(s'.batches[c])
    {
      if id != step.id && id in s.inFlight {
        var c :| 0 <= c < |s.batches| && id in Live(s.batches[c]);
        assert id in Live(s'.batches[c]);
      }
      if c :| 0 <= c < |s'.batches| && id in Live(s'.batches[c]) {
        assert id in Live(s.batches[c]);
      }
    }
  }

  // ---- Order within a conversation -----------------------------------------------------

  ghost function ItemAt(batch: Batch, g: int, k: int): string
    requires 0 <= g < |Groups(batch.items)| && 0 <= k < |Groups(batch.items)[g]|
  {
    Groups(batch.items)[g][k].id
  }

  ghost function StatusAt(batch: Batch, g: int, k: int): Status
    requires 0 <= g < |Groups(batch.items)| && 0 <= k < |Groups(batch.items)[g]|
  {
    if ItemAt(batch, g, k) in batch.status then batch.status[ItemAt(batch, g, k)] else Waiting
  }

  /** Past the first item of a group that is not done, nothing has begun. */
  ghost predicate InSequence(batch: Batch) {
    forall g, j, k | 0 <= g < |Groups(batch.items)| && 0 <= j < k < |Groups(batch.items)[g]| ::
      StatusAt(batch, g, k) != Waiting ==> StatusAt(batch, g, j) == Done
  }

  ghost predicate LogMatches(s: State) {
    && (forall p | 0 <= p < |s.log| && s.log[p].Begun? ::
          HasItem(s, s.log[p].batch, s.log[p].id) && StatusOf(s, s.log[p].batch, s.log[p].id) != Waiting)
    && (forall p | 0 <= p < |s.log| && s.log[p].Settled? ::
          HasItem(s, s.log[p].batch, s.log[p].id) && StatusOf(s, s.log[p].batch, s.log[p].id) == Done)
    && (forall b, id | HasItem(s, b, id) && StatusOf(s, b, id) == Done :: Settled(b, id) in s.log)
  }

  /** Each item begins and settles at most once. */
  ghost predicate NoRepeats(s: State) {
    forall p, q | 0 <= p < q < |s.log| :: s.log[p] != s.log[q]
  }

  /** When an item begins, every earlier item of its group has settled. */
  ghost predicate OldestFirst(s: State) {
    forall p, g, j, k | 0 <= p < |s.log| && s.log[p].Begun? && 0 <= s.log[p].batch < |s.batches|
      && 0 <= g < |Groups(s.batches[s.log[p].batch].items)| && 0 <= j < k < |Groups(s.batches[s.log[p].batch].items)[g]|
      && ItemAt(s.batches[s.log[p].batch], g, k) == s.log[p].id ::
        Settled(s.log[p].batch, ItemAt(s.batches[s.log[p].batch], g, j)) in s.log[..p]
  }

  ghost predicate Ordered(s: State) {
    && (forall b | 0 <= b < |s.batches| && s.batches[b].phase.Running? :: InSequence(s.batches[b]))
    && LogMatches(s) && NoRepeats(s) && OldestFirst(s)
  }

  lemma StartInSequence(batch: Batch)
    requires BatchOk(batch) && batch.phase.Queued?
    ensures InSequence(batch.(phase := Running))
  {
    hide Groups;
  }

  /** Positions of a batch hold different items. */
  lemma OneItemPerPlace(batch: Batch, g: int, k: int, g': int, k': int)
    requires BatchOk(batch) && 0 <= g < |Groups(batch.items)| && 0 <= k < |Groups(batch.items)[g]|
    requires 0 <= g' < |Groups(batch.items)| && 0 <= k' < |Groups(batch.items)[g']|
    ensures ItemAt(batch, g, k) == ItemAt(batch, g', k') ==> g == g' && k == k'
  {
    hide Groups;
    GroupsPartition(batch.items);
  }

  /** Changing an item that may begin or has begun keeps its group in sequence. */
  lemma MoveInSequence(batch: Batch, id: string, st: Status)
    requires BatchOk(batch) && InSequence(batch) && id in batch.status
    requires batch.status[id] != Done && st != Waiting
    requires batch.status[id] == Waiting ==> exists g, k :: IsNext(batch, g, k) && id == ItemAt(batch, g, k)
    ensures InSequence(batch.(status := batch.status[id := st]))
  {
    hide Groups, BatchOk;
    var batch' := batch.(status := batch.status[id := st]);
    forall g, j, k | 0 <= g < |Groups(batch.items)| && 0 <= j < k < |Groups(batch.items)[g]|
                     && StatusAt(batch', g, k) != Waiting
      ensures StatusAt(batch', g, j) == Done
    {
      OneItemPerPlace(batch, g, j, g, k);
      assert ItemAt(batch', g, k) == ItemAt(batch, g, k) && ItemAt(batch', g, j) == ItemAt(batch, g, j);
      if ItemAt(batch, g, k) == id && batch.status[id] == Waiting {
        var g', k' :| IsNext(batch, g', k') && id == ItemAt(batch, g', k');
        OneItemPerPlace(batch, g, k, g', k');
        assert StatusAt(batch, g, k - 1) == Done;
        assert j < k - 1 ==> StatusAt(batch, g, j) == Done;
      } else {
        assert StatusAt(batch, g, k) != Waiting;
      }
      assert StatusAt(batch, g, j) == Done && ItemAt(batch, g, j) != id;
    }
  }

  lemma EarlierDone(batch: Batch, g: int, j: int, k: int)
    requires InSequence(batch) && IsNext(batch, g, k) && 0 <= j < k
    ensures StatusAt(batch, g, j) == Done
  {
    hide Groups;
    assert StatusAt(batch, g, k - 1) == Done;
  }

  // ---- Steps keep the order ---------------------------------------------------------------

  ghost predicate Invariant(s: State) {
    Exclusion(s) && Ordered(s)
  }

  /** Items of running batches are those of before, none waits or is done anew, and others wait. */
  ghost predicate StatusesFollow(s: State, s': State) {
    && s'.log == s.log && |s.batches| <= |s'.batches|
    && (forall b | 0 <= b < |s.batches| :: s'.batches[b].items == s.batches[b].items)
    && (forall b, id | HasItem(s, b, id) ::
          && HasItem(s', b, id)
          && (StatusOf(s', b, id) == Waiting ==> StatusOf(s, b, id) == Waiting)
          && (StatusOf(s', b, id) == Done <==> StatusOf(s, b, id) == Done))
    && (forall b, id | HasItem(s', b, id) && !HasItem(s, b, id) :: StatusOf(s', b, id) == Waiting)
  }

  /** Steps that only grow the batches or move one item between unfinished states. */
  lemma KeepOrder(s: State, s': State)
    requires Ordered(s) && StatusesFollow(s, s')
    requires forall b | 0 <= b < |s'.batches| && s'.batches[b].phase.Running? :: InSequence(s'.batches[b])
    ensures Ordered(s')
  {
    hide Groups, InSequence;
    forall p, g, j, k | 0 <= p < |s'.log| && s'.log[p].Begun? && 0 <= s'.log[p].batch < |s'.batches|
      && 0 <= g < |Groups(s'.batches[s'.log[p].batch].items)|
      && 0 <= j < k < |Groups(s'.batches[s'.log[p].batch].items)[g]|
      && ItemAt(s'.batches[s'.log[p].batch], g, k) == s'.log[p].id
      ensures Settled(s'.log[p].batch, ItemAt(s'.batches[s'.log[p].batch], g, j)) in s'.log[..p]
    {
      var b := s.log[p].batch;
      assert HasItem(s, b, s.log[p].id);
      assert ItemAt(s.batches[b], g, k) == s.log[p].id && ItemAt(s.batches[b], g, j) == ItemAt(s'.batches[b], g, j);
    }
  }

  lemma ClaimStatuses(s: State, body: seq<Item>, phase: Phase)
    requires !phase.Running?
    ensures StatusesFollow(s, WithClaim(s, body, phase))
  {
    hide Claimable, FirstOf;
  }

  lemma PhaseStatuses(s: State, s': State, b: int, batch: Batch)
    requires 0 <= b < |s.batches| && BatchOk(s.batches[b]) && !s.batches[b].phase.Running?
    requires batch.items == s.batches[b].items && batch.status == s.batches[b].status
    requires s'.batches == s.batches[b := batch] && s'.log == s.log
    ensures StatusesFollow(s, s')
  {
    hide DistinctIds, IdSet;
  }

  lemma ItemStatuses(s: State, s': State, b: int, id: string, st: Status)
    requires HasItem(s, b, id) && StatusOf(s, b, id) != Done && st != Done && st != Waiting
    requires s'.batches == SetStatus(s, b, id, st).batches && s'.log == s.log
    ensures StatusesFollow(s, s')
  {
  }

  /** Such a step changes one item at most, and neither to waiting nor from or to done. */
  lemma QuietStepStatuses(s: State, step: Step)
    requires Exclusion(s) && Enabled(s, step) && !step.Begin? && !step.MarkDone?
    ensures StatusesFollow(s, Next(s, step))
  {
    hide Groups, WithClaim, StatusesFollow, BatchOk, Live, InFlightExact, OneLiveBatch, Outstanding;
    var s' := Next(s, step);
    match step
    case Claim(body) => ClaimStatuses(s, body, Claimed);
    case FailClaim(body, n) => ClaimStatuses(s, body[..n], Dead);
    case Enqueue(b) => PhaseStatuses(s, s', b, s'.batches[b]);
    case Abort(b) => PhaseStatuses(s, s', b, s'.batches[b]);
    case Start(b) => PhaseStatuses(s, s', b, s'.batches[b]);
    case Lose(b, g) => ItemStatuses(s, s', b, Groups(s.batches[b].items)[g][0].id, Abandoned);
    case Save(b, id) => ItemStatuses(s, s', b, id, Settling);
    case Skip(b, id) => ItemStatuses(s, s', b, id, Settling);
    case Raise(b, id) => ItemStatuses(s, s', b, id, Abandoned);
    case _ => SameBatches(s, s');
  }

  lemma SameBatches(s: State, s': State)
    requires s'.batches == s.batches && s'.log == s.log
    ensures StatusesFollow(s, s')
  {
  }

  lemma QuietStepInSequence(s: State, step: Step)
    requires Invariant(s) && Enabled(s, step) && !step.Begin? && !step.MarkDone?
    ensures forall b | 0 <= b < |Next(s, step).batches| && Next(s, step).batches[b].phase.Running? ::
      InSequence(Next(s, step).batches[b])
  {
    hide Groups, InSequence, Exclusion, Claimable, FirstOf, BatchOk, LogMatches, NoRepeats, OldestFirst;
    BatchesOk(s);
    if step.Start? {
      StartInSequence(s.batches[step.b]);
    } else if step.Lose? {
      var id := ItemAt(s.batches[step.b], step.g, 0);
      MoveInSequence(s.batches[step.b], id, Abandoned);
    } else if step.Save? || step.Skip? || step.Raise? {
      BatchHas(s, step.b, step.id);
      MoveInSequence(s.batches[step.b], step.id, Next(s, step).batches[step.b].status[step.id]);
    }
  }

  lemma BatchHas(s: State, b: int, id: string)
    requires HasItem(s, b, id)
    ensures id in s.batches[b].status && s.batches[b].status[id] == StatusOf(s, b, id)
  {
  }

  lemma QuietStepKeepsOrder(s: State, step: Step)
    requires Invariant(s) && Enabled(s, step) && !step.Begin? && !step.MarkDone?
    ensures Ordered(Next(s, step))
  {
    hide Exclusion, Ordered, InSequence, StatusesFollow, HasItem, Next, Enabled;
    QuietStepStatuses(s, step);
    QuietStepInSequence(s, step);
    KeepOrder(s, Next(s, step));
  }

  lemma BatchesOk(s: State)
    requires Exclusion(s)
    ensures forall b | 0 <= b < |s.batches| :: BatchOk(s.batches[b])
  {
  }

  /** A step that logs one new event, on the batches as they were. */
  lemma KeepOrderLogging(s: State, s': State, e: Event)
    requires Ordered(s) && s'.log == s.log + [e] && e !in s.log && |s'.batches| == |s.batches|
    requires forall b | 0 <= b < |s.batches| :: s'.batches[b].items == s.batches[b].items
    requires forall b | 0 <= b < |s'.batches| && s'.batches[b].phase.Running? :: InSequence(s'.batches[b])
    requires LogMatches(s')
    requires e.Begun? && 0 <= e.batch < |s.batches| ==>
      forall g, j, k | 0 <= g < |Groups(s.batches[e.batch].items)| && 0 <= j < k < |Groups(s.batches[e.batch].items)[g]|
        && ItemAt(s.batches[e.batch], g, k) == e.id :: Settled(e.batch, ItemAt(s.batches[e.batch], g, j)) in s.log
    ensures Ordered(s')
  {
    hide Groups, InSequence, LogMatches;
    forall p, g, j, k | 0 <= p < |s'.log| && s'.log[p].Begun? && 0 <= s'.log[p].batch < |s'.batches|
      && 0 <= g < |Groups(s'.batches[s'.log[p].batch].items)|
      && 0 <= j < k < |Groups(s'.batches[s'.log[p].batch].items)[g]|
      && ItemAt(s'.batches[s'.log[p].batch], g, k) == s'.log[p].id
      ensures Settled(s'.log[p].batch, ItemAt(s'.batches[s'.log[p].batch], g, j)) in s'.log[..p]
    {
      var b := s'.log[p].batch;
      assert s'.log[..p] == s.log[..p];
      assert ItemAt(s.batches[b], g, k) == s'.log[p].id && ItemAt(s.batches[b], g, j) == ItemAt(s'.batches[b], g, j);
      assert p == |s.log| ==> s.log[..p] == s.log;
    }
  }

  lemma BeginKeepsOrder(s: State, step: Step)
    requires Invariant(s) && Enabled(s, step) && step.Begin?
    ensures Ordered(Next(s, step))
  {
    hide Groups, InSequence, Exclusion, OldestFirst;
    var (b, g, k) := (step.b, step.g, step.k);
    var batch := s.batches[b];
    var id := ItemAt(batch, g, k);
    var s' := Next(s, step);
    BatchesOk(s);
    MoveInSequence(batch, id, s'.batches[b].status[id]);
    forall g', j, k' | 0 <= g' < |Groups(batch.items)| && 0 <= j < k' < |Groups(batch.items)[g']|
                        && ItemAt(batch, g', k') == id
      ensures Settled(b, ItemAt(batch, g', j)) in s.log
    {
      OneItemPerPlace(batch, g, k, g', k');
      EarlierDone(batch, g, j, k);
      assert HasItem(s, b, ItemAt(batch, g, j));
    }
    LogMatchesBegin(s, b, id, s'.batches[b].status[id]);
    KeepOrderLogging(s, s', Begun(b, id));
  }

  lemma LogMatchesBegin(s: State, b: int, id: string, st: Status)
    requires LogMatches(s) && HasItem(s, b, id) && StatusOf(s, b, id) == Waiting && st != Waiting && st != Done
    ensures LogMatches(SetStatus(s, b, id, st).(log := s.log + [Begun(b, id)]))
    ensures Begun(b, id) !in s.log
  {
    var s' := SetStatus(s, b, id, st).(log := s.log + [Begun(b, id)]);
    forall b', id' | HasItem(s', b', id') && StatusOf(s', b', id') == Done
      ensures Settled(b', id') in s'.log
    {
      assert HasItem(s, b', id') && StatusOf(s, b', id') == Done;
    }
  }

  lemma MarkDoneKeepsOrder(s: State, step: Step)
    requires Invariant(s) && Enabled(s, step) && step.MarkDone?
    ensures Ordered(Next(s, step))
  {
    hide Groups, InSequence, Exclusion, OldestFirst;
    var s' := Next(s, step);
    BatchesOk(s);
    MoveInSequence(s.batches[step.b], step.id, Done);
    LogMatchesDone(s, step.b, step.id);
    assert LogMatches(s') by {
      LogMatchesDone(s, step.b, step.id);
    }
    KeepOrderLogging(s, s', Settled(step.b, step.id));
  }

  lemma LogMatchesDone(s: State, b: int, id: string)
    requires LogMatches(s) && HasItem(s, b, id) && StatusOf(s, b, id) == Settling
    ensures forall inFlight, pending ::
      LogMatches(SetStatus(s, b, id, Done).(inFlight := inFlight, pending := pending, log := s.log + [Settled(b, id)]))
    ensures Settled(b, id) !in s.log
  {
    forall inFlight, pending
      ensures LogMatches(SetStatus(s, b, id, Done).(
        inFlight := inFlight, pending := pending, log := s.log + [Settled(b, id)]))
    {
      var s' := SetStatus(s, b, id, Done).(inFlight := inFlight, pending := pending, log := s.log + [Settled(b, id)]);
      forall b', id' | HasItem(s', b', id') && StatusOf(s', b', id') == Done
        ensures Settled(b', id') in s'.log
      {
        if (b', id') == (b, id) {
          assert s'.log[|s.log|] == Settled(b, id);
        } else {
          assert HasItem(s, b', id') && StatusOf(s, b', id') == Done;
        }
      }
    }
  }

  // ---- All runs ------------------------------------------------------------------------------

  lemma StepKeepsInvariant(s: State, step: Step)
    requires Invariant(s) && Enabled(s, step)
    ensures Invariant(Next(s, step))
  {
    hide Exclusion, Ordered, Next, Enabled;
    if step.Claim? || step.FailClaim? {
      ClaimStepKeepsExclusion(s, step);
    } else if step.MarkDone? {
      MarkDoneKeepsExclusion(s, step);
    } else {
      QuietStepKeepsExclusion(s, step);
    }
    if step.Begin? {
      BeginKeepsOrder(s, step);
    } else if step.MarkDone? {
      MarkDoneKeepsOrder(s, step);
    } else {
      QuietStepKeepsOrder(s, step);
    }
  }

  ghost predicate IsRun(s: State, steps: seq<Step>)
    decreases |steps|
  {
    steps == [] || (Enabled(s, steps[0]) && IsRun(Next(s, steps[0]), steps[1..]))
  }

  ghost function After(s: State, steps: seq<Step>): State
    requires IsRun(s, steps)
    decreases |steps|
  {
    if steps == [] then s else After(Next(s, steps[0]), steps[1..])
  }

  lemma {:induction false} RunKeepsInvariant(s: State, steps: seq<Step>)
    requires Invariant(s) && IsRun(s, steps)
    ensures Invariant(After(s, steps))
    decreases |steps|
  {
    hide Invariant, Next, Enabled;
    if steps != [] {
      StepKeepsInvariant(s, steps[0]);
      RunKeepsInvariant(Next(s, steps[0]), steps[1..]);
    }
  }

  lemma InitInvariant()
    ensures Invariant(INIT)
  {
  }

  /**
   In every interleaving: the in-flight set is exactly the ids accepted and not yet
   marked done, no id is in two live batches, the pending counter is the number of
   items of started tasks not yet marked done, and the next `_mark_done` will not
   need its clamp.
   */
  lemma InFlightAlwaysExact(steps: seq<Step>)
    requires IsRun(INIT, steps)
    ensures
      var s := After(INIT, steps);
      && InFlightExact(s) && OneLiveBatch(s)
      && s.pending == Outstanding(s.batches) >= 0
      && (forall b, id :: Enabled(s, MarkDone(b, id)) ==> s.pending > 0)
  {
    InitInvariant();
    RunKeepsInvariant(INIT, steps);
    var s := After(INIT, steps);
    OutstandingNonNegative(s.batches);
    forall b, id | Enabled(s, MarkDone(b, id))
      ensures s.pending > 0
    {
      MarkDoneKeepsExclusion(s, MarkDone(b, id));
    }
  }

  /**
   In every interleaving, whenever an item has begun, all older items of its
   conversation in the batch had settled before it began.
   */
  lemma ConversationsOldestFirst(steps: seq<Step>, p: int, g: int, j: int, k: int)
    requires IsRun(INIT, steps)
    requires
      var s := After(INIT, steps);
      && 0 <= p < |s.log| && s.log[p].Begun? && 0 <= s.log[p].batch < |s.batches|
      && 0 <= g < |Groups(s.batches[s.log[p].batch].items)| && 0 <= j < k < |Groups(s.batches[s.log[p].batch].items)[g]|
      && ItemAt(s.batches[s.log[p].batch], g, k) == s.log[p].id
    ensures
      var s := After(INIT, steps);
      var group := Groups(s.batches[s.log[p].batch].items)[g];
      && group[j].time <= group[k].time && group[j].conv == group[k].conv
      && (exists q :: 0 <= q < p && s.log[q] == Settled(s.log[p].batch, group[j].id))
      && (forall r | 0 <= r < |s.log| && r != p :: s.log[r] != s.log[p])
  {
    hide Groups, Exclusion, LogMatches, InSequence, After, IsRun, Thread, Partition;
    InitInvariant();
    RunKeepsInvariant(INIT, steps);
    var s := After(INIT, steps);
    BatchesOk(s);
    var b := s.log[p].batch;
    var group := Groups(s.batches[b].items)[g];
    GroupsPartition(s.batches[b].items);
    ThreadOrder(s.batches[b].items, group, j, k);
    assert Settled(b, ItemAt(s.batches[b], g, j)) in s.log[..p];
  }

  /**
   No item of a request is lost, in any reachable state: after its claim every id of
   the body is blank, was in flight or stored before, or belongs to exactly one item of
   the request's new batch, waiting there; and the batch holds nothing else.
   */
  lemma NothingSkipped(steps: seq<Step>, body: seq<Item>)
    requires IsRun(INIT, steps)
    ensures
      var s := After(INIT, steps);
      var s' := Next(s, Claim(body));
      var unseen := set x | x in body && x.id != "" && x.id !in s.inFlight && x.id !in s.rows :: x.id;
      && s'.inFlight == s.inFlight + unseen
      && (if unseen == {} then s' == s
          else
            && |s'.batches| == |s.batches| + 1 && s'.batches[..|s.batches|] == s.batches
            && var batch := s'.batches[|s.batches|];
               && batch.phase.Claimed? && IdSet(batch.items) == unseen && DistinctIds(batch.items)
               && batch.status == map id | id in unseen :: Waiting)
      && (forall x | x in Selected(s, body) ::
            exists i :: 0 <= i < |body| && body[i] == x && forall j | 0 <= j < i :: body[j].id != x.id)
  {
    hide IsRun, After, FirstOf, Claimable, DistinctIds;
    var s := After(INIT, steps);
    var unseen := set x | x in body && x.id != "" && x.id !in s.inFlight && x.id !in s.rows :: x.id;
    var claimed := Claimable(Ids(body), s.inFlight, s.rows);
    ClaimableIff(Ids(body), s.inFlight, s.rows);
    ClaimedReachBatch(body, s.inFlight, s.rows);
    forall id
      ensures id in Ids(body) <==> exists x :: x in body && x.id == id
    {
      IdAmong(body, id);
    }
    assert claimed == unseen;
    FirstOfIsFirst(body, claimed);
    if Selected(s, body) != [] {
      assert Selected(s, body)[0] in Selected(s, body);
      assert Selected(s, body)[0].id in unseen;
    } else {
      assert IdSet(Selected(s, body)) == {};
    }
  }

  lemma IdAmong(body: seq<Item>, id: string)
    ensures id in Ids(body) <==> exists x :: x in body && x.id == id
  {
    if id in Ids(body) {
      var i :| 0 <= i < |body| && Ids(body)[i] == id;
      assert body[i] in body;
    }
    if x :| x in body && x.id == id {
      var i :| 0 <= i < |body| && body[i] == x;
      assert Ids(body)[i] == id;
    }
  }

  /** Of several items with one id the batch holds the first. */
  lemma {:induction false} FirstOfIsFirst(body: seq<Item>, want: set<string>)
    ensures forall x | x in FirstOf(body, want) ::
      x.id in want && exists i :: 0 <= i < |body| && body[i] == x && forall j | 0 <= j < i :: body[j].id != x.id
  {
    if body != [] {
      var take := body[0].id in want;
      var rest := FirstOf(body[1..], if take then want - {body[0].id} else want);
      FirstOfIsFirst(body[1..], if take then want - {body[0].id} else want);
      forall x | x in FirstOf(body, want)
        ensures x.id in want
        ensures exists i :: 0 <= i < |body| && body[i] == x && forall j | 0 <= j < i :: body[j].id != x.id
      {
        if take && x == body[0] {
          assert body[0] == x;
        } else {
          assert x in rest;
          var i :| 0 <= i < |body[1..]| && body[1..][i] == x && forall j | 0 <= j < i :: body[1..][j].id != x.id;
          assert body[i + 1] == x;
          assert body[0].id != x.id;
          assert forall j | 0 < j < i + 1 :: body[j] == body[1..][j - 1];
        }
      }
    }
  }

  // ---- When everything has stopped -------------------------------------------------------------

  /** No request, task or worker can take a step of its own any more. */
  ghost predicate Finished(s: State) {
    && (forall b | 0 <= b < |s.batches| :: s.batches[b].phase.Running? || s.batches[b].phase.Dead?)
    && (forall b, g, k :: !Enabled(s, Begin(b, g, k)))
    && (forall b, id | HasItem(s, b, id) :: StatusOf(s, b, id) != Working && StatusOf(s, b, id) != Settling)
  }

  /** If an item is unfinished when nothing moves, it or an older item of its conversation was abandoned. */
  lemma {:induction false} StuckBehindAbandoned(s: State, b: int, g: int, k: int)
    requires Invariant(s) && Finished(s) && 0 <= b < |s.batches| && s.batches[b].phase.Running?
    requires 0 <= g < |Groups(s.batches[b].items)| && 0 <= k < |Groups(s.batches[b].items)[g]|
    requires StatusAt(s.batches[b], g, k) != Done
    ensures exists j :: 0 <= j <= k && StatusAt(s.batches[b], g, j) == Abandoned
    decreases k
  {
    hide Groups, Ordered;
    var batch := s.batches[b];
    BatchesOk(s);
    GroupsPartition(batch.items);
    assert Groups(batch.items)[g][k] in batch.items;
    assert ItemAt(batch, g, k) in IdSet(batch.items);
    assert HasItem(s, b, ItemAt(batch, g, k));
    if StatusOf(s, b, ItemAt(batch, g, k)) == Waiting {
      assert !Enabled(s, Begin(b, g, k));
      if k > 0 {
        assert Groups(batch.items)[g][k - 1] in batch.items;
        assert ItemAt(batch, g, k - 1) in IdSet(batch.items);
        StuckBehindAbandoned(s, b, g, k - 1);
      }
    } else {
      assert StatusAt(batch, g, k) == Abandoned;
    }
  }

  lemma StepKeepsAbandoned(s: State, step: Step, b: int, id: string)
    requires Enabled(s, step) && HasItem(s, b, id) && StatusOf(s, b, id) == Abandoned
    ensures
      var s' := Next(s, step);
      HasItem(s', b, id) && StatusOf(s', b, id) == Abandoned && s'.batches[b].items == s.batches[b].items
  {
    hide Groups, FirstOf, Claimable;
  }

  lemma {:induction false} RunKeepsAbandoned(s: State, steps: seq<Step>, b: int, id: string)
    requires IsRun(s, steps) && HasItem(s, b, id) && StatusOf(s, b, id) == Abandoned
    ensures
      var s' := After(s, steps);
      HasItem(s', b, id) && StatusOf(s', b, id) == Abandoned && s'.batches[b].items == s.batches[b].items
    decreases |steps|
  {
    hide HasItem, Next, Enabled;
    if steps != [] {
      StepKeepsAbandoned(s, steps[0], b, id);
      RunKeepsAbandoned(Next(s, steps[0]), steps[1..], b, id);
    }
  }

  lemma WaitsForGood(s: State, b: int, g: int, j: int, k: int)
    requires Ordered(s) && 0 <= b < |s.batches| && s.batches[b].phase.Running?
    requires 0 <= g < |Groups(s.batches[b].items)| && 0 <= j < k < |Groups(s.batches[b].items)[g]|
    requires StatusAt(s.batches[b], g, j) == Abandoned
    ensures StatusAt(s.batches[b], g, k) == Waiting
  {
    hide Groups, StatusAt, LogMatches, NoRepeats, OldestFirst;
    assert InSequence(s.batches[b]);
  }

  /** Once an item is abandoned, no younger item of its conversation ever begins, and all stay in flight. */
  lemma LostForGood(s: State, steps: seq<Step>, b: int, g: int, j: int, k: int)
    requires Invariant(s) && IsRun(s, steps) && 0 <= b < |s.batches|
    requires 0 <= g < |Groups(s.batches[b].items)| && 0 <= j < k < |Groups(s.batches[b].items)[g]|
    requires HasItem(s, b, ItemAt(s.batches[b], g, j)) && StatusAt(s.batches[b], g, j) == Abandoned
    ensures
      var s' := After(s, steps);
      && 0 <= b < |s'.batches| && s'.batches[b].items == s.batches[b].items
      && StatusAt(s'.batches[b], g, j) == Abandoned && StatusAt(s'.batches[b], g, k) == Waiting
      && ItemAt(s.batches[b], g, j) in s'.inFlight && ItemAt(s.batches[b], g, k) in s'.inFlight
  {
    hide Groups, IsRun, After, Ordered, DistinctIds;
    RunKeepsInvariant(s, steps);
    RunKeepsAbandoned(s, steps, b, ItemAt(s.batches[b], g, j));
    var s' := After(s, steps);
    BatchesOk(s');
    GroupsPartition(s.batches[b].items);
    assert Groups(s.batches[b].items)[g][k] in s.batches[b].items;
    assert ItemAt(s.batches[b], g, k) in IdSet(s.batches[b].items);
    WaitsForGood(s', b, g, j, k);
    assert ItemAt(s.batches[b], g, j) in Live(s'.batches[b]) && ItemAt(s.batches[b], g, k) in Live(s'.batches[b]);
  }

  /** A batch never came to run, or some item was abandoned. */
  ghost predicate SomeStranded(s: State) {
    exists b :: 0 <= b < |s.batches| && Stranded(s.batches[b])
  }

  ghost predicate Stranded(batch: Batch) {
    batch.phase.Dead? || exists id :: id in batch.status && batch.status[id] == Abandoned
  }

  /** An exception that nothing catches: in the claim, in the task, or in a handler. */
  predicate Escape(step: Step) {
    step.FailClaim? || step.Abort? || step.Lose? || step.Raise?
  }

  ghost predicate SomeEscape(steps: seq<Step>) {
    exists i :: 0 <= i < |steps| && Escape(steps[i])
  }

  /** No step frees what is stranded. */
  lemma StrandedStays(s: State, step: Step, b: int)
    requires Enabled(s, step) && 0 <= b < |s.batches| && Stranded(s.batches[b])
    ensures b < |Next(s, step).batches| && Stranded(Next(s, step).batches[b])
  {
    hide Groups, FirstOf, Claimable;
    var s' := Next(s, step);
    if !s.batches[b].phase.Dead? {
      var id :| id in s.batches[b].status && s.batches[b].status[id] == Abandoned;
      assert s'.batches[b].status[id] == Abandoned;
    }
  }

  lemma EscapeStrandsBatch(s: State, step: Step)
    requires Enabled(s, step) && Escape(step)
    ensures SomeStranded(Next(s, step))
  {
    hide Groups, FirstOf, Claimable;
    var s' := Next(s, step);
    match step
    case FailClaim(body, n) => assert s'.batches[|s.batches|].phase.Dead?;
    case Abort(b) => assert s'.batches[b].phase.Dead?;
    case Lose(b, g) => assert s'.batches[b].status[Groups(s.batches[b].items)[g][0].id] == Abandoned;
    case Raise(b, id) => assert s'.batches[b].status[id] == Abandoned;
  }

  lemma OnlyEscapesStrand(s: State, step: Step, b: int)
    requires Enabled(s, step) && !Escape(step) && 0 <= b < |Next(s, step).batches| && Stranded(Next(s, step).batches[b])
    ensures b < |s.batches| && Stranded(s.batches[b])
  {
    hide Groups, FirstOf, Claimable;
    var s' := Next(s, step);
    if !s'.batches[b].phase.Dead? {
      var id :| id in s'.batches[b].status && s'.batches[b].status[id] == Abandoned;
      assert b < |s.batches| && s.batches[b].status[id] == Abandoned;
    }
  }

  /** Only escaping exceptions strand anything, and for good. */
  lemma StepStrands(s: State, step: Step)
    requires Enabled(s, step)
    ensures SomeStranded(Next(s, step)) <==> SomeStranded(s) || Escape(step)
  {
    hide Next, Enabled, Escape, Stranded;
    if b :| 0 <= b < |s.batches| && Stranded(s.batches[b]) {
      StrandedStays(s, step, b);
    }
    if Escape(step) {
      EscapeStrandsBatch(s, step);
    } else if b :| 0 <= b < |Next(s, step).batches| && Stranded(Next(s, step).batches[b]) {
      OnlyEscapesStrand(s, step, b);
    }
  }

  lemma {:induction false} RunStrands(s: State, steps: seq<Step>)
    requires IsRun(s, steps)
    ensures SomeStranded(After(s, steps)) <==> SomeStranded(s) || SomeEscape(steps)
    decreases |steps|
  {
    hide SomeStranded, SomeEscape, Next, Enabled, Escape;
    if steps != [] {
      StepStrands(s, steps[0]);
      RunStrands(Next(s, steps[0]), steps[1..]);
      EscapeSplit(steps);
    } else {
      NoEscape();
    }
  }

  lemma NoEscape()
    ensures !SomeEscape([])
  {
  }

  lemma EscapeSplit(steps: seq<Step>)
    requires steps != []
    ensures SomeEscape(steps) <==> Escape(steps[0]) || SomeEscape(steps[1..])
  {
    hide Escape;
    if i :| 0 <= i < |steps[1..]| && Escape(steps[1..][i]) {
      assert Escape(steps[i + 1]);
    }
    if i :| 0 <= i < |steps| && Escape(steps[i]) {
      assert i > 0 ==> Escape(steps[1..][i - 1]);
    }
  }

  /** A stranded batch keeps an id in flight. */
  lemma StrandedIsLive(s: State, b: int)
    requires Invariant(s) && 0 <= b < |s.batches| && Stranded(s.batches[b])
    ensures s.inFlight != {}
  {
    hide Ordered, Groups;
    BatchesOk(s);
    var batch := s.batches[b];
    var id;
    if batch.phase.Dead? {
      id := batch.items[0].id;
      assert batch.items[0] in batch.items;
      assert id in IdSet(batch.items);
    } else {
      id :| id in batch.status && batch.status[id] == Abandoned;
    }
    assert id in Live(batch);
    assert id in s.inFlight;
  }

  /** What has stopped leaves the counter and the in-flight set clear unless something is stranded. */
  lemma FinishedIsClear(s: State)
    requires Invariant(s) && Finished(s)
    ensures (s.pending == 0 && s.inFlight == {}) <==> !SomeStranded(s)
  {
    hide Groups, Ordered, Enabled, Stranded;
    if b :| 0 <= b < |s.batches| && Stranded(s.batches[b]) {
      StrandedIsLive(s, b);
    } else {
      forall b, id | 0 <= b < |s.batches|
        ensures id !in Live(s.batches[b])
      {
        if id in Live(s.batches[b]) {
          LiveHasPlace(s, b, id);
        }
      }
      NothingOutstanding(s.batches);
    }
  }

  /**
   When all tasks have finished, the counter is back to 0 and nothing is in flight,
   if and only if no step of the run let an exception escape: from the claim loop, from
   the task before its groups reach the workers, or from a handler past its own try.
   */
  lemma DrainsUnlessEscaped(steps: seq<Step>)
    requires IsRun(INIT, steps) && Finished(After(INIT, steps))
    ensures
      var s := After(INIT, steps);
      (s.pending == 0 && s.inFlight == {}) <==> forall i | 0 <= i < |steps| :: !Escape(steps[i])
  {
    hide IsRun, After, Invariant, Finished, Escape;
    InitInvariant();
    RunKeepsInvariant(INIT, steps);
    RunStrands(INIT, steps);
    NothingStrandedYet();
    FinishedIsClear(After(INIT, steps));
  }

  lemma NothingStrandedYet()
    ensures !SomeStranded(INIT)
  {
  }

  lemma LiveHasPlace(s: State, b: int, id: string)
    requires Invariant(s) && Finished(s) && 0 <= b < |s.batches| && id in Live(s.batches[b])
    ensures Stranded(s.batches[b])
  {
    hide Groups, Ordered;
    var batch := s.batches[b];
    if !batch.phase.Dead? {
      BatchesOk(s);
      GroupsPartition(batch.items);
      var x :| x in batch.items && x.id == id;
      var g, k :| 0 <= g < |Groups(batch.items)| && 0 <= k < |Groups(batch.items)[g]| && Groups(batch.items)[g][k] == x;
      assert ItemAt(batch, g, k) == id;
      StuckBehindAbandoned(s, b, g, k);
      var j :| 0 <= j <= k && StatusAt(batch, g, j) == Abandoned;
      assert ItemAt(batch, g, j) in batch.status;
    }
  }

  lemma {:induction false} NothingOutstanding(batches: seq<Batch>)
    requires forall b | 0 <= b < |batches| :: Live(batches[b]) == {}
    ensures Outstanding(batches) == 0
  {
    if batches != [] {
      NothingOutstanding(batches[..|batches| - 1]);
    }
  }

  const LONE := Item("a", "", 0)

  /** One request with one standalone item, at some point of its way. */
  ghost function LoneState(phase: Phase, status: Status, pending: int, log: seq<Event>): State {
    State({"a"}, {}, pending, false, [Batch(phase, [LONE], map["a" := status])], log)
  }

  lemma LoneClaim()
    ensures Next(INIT, Claim([LONE])) == LoneState(Claimed, Waiting, 0, [])
  {
    hide Groups;
    LoneItem(LONE);
    var s := Next(INIT, Claim([LONE]));
    assert s.batches[0].status == map["a" := Waiting];
  }

  lemma LoneHandOver()
    ensures
      && Enabled(LoneState(Claimed, Waiting, 0, []), Enqueue(0))
      && Next(LoneState(Claimed, Waiting, 0, []), Enqueue(0)) == LoneState(Queued, Waiting, 0, [])
      && Enabled(LoneState(Queued, Waiting, 0, []), Start(0))
      && Next(LoneState(Queued, Waiting, 0, []), Start(0)) == LoneState(Running, Waiting, 1, [])
  {
    hide Groups;
  }

  lemma LoneEscape()
    ensures
      var s := LoneState(Running, Waiting, 1, []);
      var s' := LoneState(Running, Working, 1, [Begun(0, "a")]);
      && Enabled(s, Begin(0, 0, 0)) && Next(s, Begin(0, 0, 0)) == s'
      && Enabled(s', Raise(0, "a"))
      && Next(s', Raise(0, "a")) == LoneState(Running, Abandoned, 1, [Begun(0, "a")])
  {
    LoneItem(LONE);
    hide Groups, Claimable, FirstOf, Ids;
    var s := LoneState(Running, Waiting, 1, []);
    assert Next(s, Begin(0, 0, 0)).batches[0].status == map["a" := Working];
    assert Next(s, Begin(0, 0, 0)).batches == [Batch(Running, [LONE], map["a" := Working])];
    var s' := LoneState(Running, Working, 1, [Begun(0, "a")]);
    assert Next(s', Raise(0, "a")).batches[0].status == map["a" := Abandoned];
  }

  lemma LoneStops()
    ensures Finished(LoneState(Running, Abandoned, 1, [Begun(0, "a")]))
  {
    LoneItem(LONE);
    hide Groups, Claimable, FirstOf, Ids;
  }

  /** The noise filter raising on a batch's one item: the counter stays at 1 and the id in flight. */
  lemma EscapeStrands()
    ensures
      var steps := [Claim([LONE]), Enqueue(0), Start(0), Begin(0, 0, 0), Raise(0, "a")];
      && IsRun(INIT, steps) && Finished(After(INIT, steps))
      && After(INIT, steps).pending == 1 && After(INIT, steps).inFlight == {"a"}
  {
    LoneClaim();
    LoneHandOver();
    LoneEscape();
    LoneStops();
    hide Next, Enabled, Finished, After, IsRun;
    var last := LoneState(Running, Abandoned, 1, [Begun(0, "a")]);
    Stays(last);
    OneMore(LoneState(Running, Working, 1, [Begun(0, "a")]), Raise(0, "a"), []);
    var e1: seq<Step> := [Raise(0, "a")];
    assert [Raise(0, "a")] + [] == e1;
    OneMore(LoneState(Running, Waiting, 1, []), Begin(0, 0, 0), e1);
    var e2 := [Begin(0, 0, 0), Raise(0, "a")];
    assert [Begin(0, 0, 0)] + e1 == e2;
    OneMore(LoneState(Queued, Waiting, 0, []), Start(0), e2);
    var e3 := [Start(0), Begin(0, 0, 0), Raise(0, "a")];
    assert [Start(0)] + e2 == e3;
    OneMore(LoneState(Claimed, Waiting, 0, []), Enqueue(0), e3);
    var e4 := [Enqueue(0), Start(0), Begin(0, 0, 0), Raise(0, "a")];
    assert [Enqueue(0)] + e3 == e4;
    AlwaysClaims([LONE]);
    OneMore(INIT, Claim([LONE]), e4);
    assert [Claim([LONE])] + e4 == [Claim([LONE]), Enqueue(0), Start(0), Begin(0, 0, 0), Raise(0, "a")];
  }

  lemma LoneAborts()
    ensures
      && Enabled(LoneState(Queued, Waiting, 0, []), Abort(0))
      && Next(LoneState(Queued, Waiting, 0, []), Abort(0)) == LoneState(Dead, Waiting, 0, [])
      && Finished(LoneState(Dead, Waiting, 0, []))
  {
    hide Groups, Claimable, FirstOf, Ids;
  }

  /** Reading the noise rules raises: the counter never rises, but the id stays in flight. */
  lemma FailedStartStrands()
    ensures
      var steps := [Claim([LONE]), Enqueue(0), Abort(0)];
      && IsRun(INIT, steps) && Finished(After(INIT, steps))
      && After(INIT, steps).pending == 0 && After(INIT, steps).inFlight == {"a"}
  {
    LoneClaim();
    LoneHandOver();
    LoneAborts();
    hide Next, Enabled, Finished, After, IsRun;
    Stays(LoneState(Dead, Waiting, 0, []));
    OneMore(LoneState(Queued, Waiting, 0, []), Abort(0), []);
    var e1: seq<Step> := [Abort(0)];
    assert [Abort(0)] + [] == e1;
    OneMore(LoneState(Claimed, Waiting, 0, []), Enqueue(0), e1);
    var e2 := [Enqueue(0), Abort(0)];
    assert [Enqueue(0)] + e1 == e2;
    AlwaysClaims([LONE]);
    OneMore(INIT, Claim([LONE]), e2);
    assert [Claim([LONE])] + e2 == [Claim([LONE]), Enqueue(0), Abort(0)];
  }

  lemma AlwaysClaims(body: seq<Item>)
    ensures Enabled(INIT, Claim(body))
  {
  }

  lemma Stays(s: State)
    ensures IsRun(s, []) && After(s, []) == s
  {
  }

  lemma OneMore(s: State, step: Step, rest: seq<Step>)
    requires Enabled(s, step) && IsRun(Next(s, step), rest)
    ensures IsRun(s, [step] + rest) && After(s, [step] + rest) == After(Next(s, step), rest)
  {
    assert ([step] + rest)[1..] == rest;
  }

  /** A batch of one standalone item has one group. */
  lemma LoneItem(x: Item)
    requires x.conv == "" && x.id != ""
    ensures Groups([x]) == [[x]]
    ensures Claimable(Ids([x]), {}, {}) == {x.id} && FirstOf([x], {x.id}) == [x]
  {
    var none: seq<Item> := [];
    assert [x][..|[x]| - 1] == none;
    assert Convs(none) == [] && Singles(none) == [];
    assert Singles([x]) == Singles(none) + [[[x][0]]];
    assert Convs([x]) == [];
    assert Ids([x]) == [x.id] && Ids([x])[0] == x.id;
    assert [x][1..] == none;
  }

  // ---- Never twice ------------------------------------------------------------------------------

  /** The id is stored, and no batch still waits to begin it. */
  ghost predicate Retired(s: State, id: string) {
    id in s.rows && forall b | 0 <= b < |s.batches| && id in s.batches[b].status :: s.batches[b].status[id] != Waiting
  }

  ghost predicate BegunSince(s: State, s': State, id: string) {
    exists p :: |s.log| <= p < |s'.log| && s'.log[p].Begun? && s'.log[p].id == id
  }

  lemma SaveRetires(s: State, b: int, id: string)
    requires Invariant(s) && Enabled(s, Save(b, id))
    ensures Retired(Next(s, Save(b, id)), id)
  {
    hide Ordered, Groups;
    forall c | 0 <= c < |s.batches| && c != b && id in s.batches[c].status
      ensures s.batches[c].status[id] != Waiting
    {
      assert id in Live(s.batches[b]);
      assert Live(s.batches[b]) !! Live(s.batches[c]);
      assert id !in Live(s.batches[c]);
    }
  }

  lemma StepKeepsRetired(s: State, step: Step, id: string)
    requires Invariant(s) && Enabled(s, step) && Retired(s, id) && step != OutsideDelete(id)
    ensures Retired(Next(s, step), id) && s.log <= Next(s, step).log && !BegunSince(s, Next(s, step), id)
  {
    hide Invariant, Groups, FirstOf, Claimable;
    match step
    case Claim(body) => ClaimedReachBatch(body, s.inFlight, s.rows);
    case FailClaim(body, n) => ClaimedReachBatch(body[..n], s.inFlight, s.rows);
    case _ =>
  }

  /**
   From the moment a batch stores an id, no batch ever begins it again, in any
   interleaving, unless its row is deleted from outside.
   */
  lemma {:induction false} RetiredForGood(s: State, steps: seq<Step>, id: string)
    requires Invariant(s) && Retired(s, id) && IsRun(s, steps)
    requires forall i | 0 <= i < |steps| :: steps[i] != OutsideDelete(id)
    ensures Retired(After(s, steps), id) && s.log <= After(s, steps).log && !BegunSince(s, After(s, steps), id)
    decreases |steps|
  {
    hide Invariant, Retired, Next, Enabled;
    if steps != [] {
      var s1 := Next(s, steps[0]);
      StepKeepsInvariant(s, steps[0]);
      StepKeepsRetired(s, steps[0], id);
      assert forall i | 0 <= i < |steps[1..]| :: steps[1..][i] == steps[i + 1];
      RetiredForGood(s1, steps[1..], id);
      assert forall p | 0 <= p < |s1.log| :: After(s, steps).log[p] == s1.log[p];
    }
  }

  /** The purpose of claiming: over any run, a stored item is not processed a second time. */
  lemma StoredOnce(before: seq<Step>, b: int, id: string, more: seq<Step>)
    requires IsRun(INIT, before) && Enabled(After(INIT, before), Save(b, id))
    requires IsRun(Next(After(INIT, before), Save(b, id)), more)
    requires forall i | 0 <= i < |more| :: more[i] != OutsideDelete(id)
    ensures
      var s := Next(After(INIT, before), Save(b, id));
      !BegunSince(s, After(s, more), id) && id in After(s, more).rows
  {
    hide Invariant, IsRun, After, Next, Enabled, BegunSince;
    InitInvariant();
    RunKeepsInvariant(INIT, before);
    var s := After(INIT, before);
    StepKeepsInvariant(s, Save(b, id));
    SaveRetires(s, b, id);
    RetiredForGood(Next(s, Save(b, id)), more, id);
  }

  // ---- What is stored, and what can come back ----------------------------------------------------

  /** The step stores the id. */
  predicate Stores(step: Step, id: string) {
    (step.Save? && step.id == id) || step == OutsideWrite(id)
  }

  /** Nothing is stored but by a batch that saves it or from outside. */
  lemma {:induction false} StoredOnlyBySave(s: State, steps: seq<Step>, id: string)
    requires IsRun(s, steps) && id !in s.rows && forall i | 0 <= i < |steps| :: !Stores(steps[i], id)
    ensures id !in After(s, steps).rows
    decreases |steps|
  {
    hide Enabled, Groups, FirstOf, Claimable;
    if steps != [] {
      assert forall i | 0 <= i < |steps[1..]| :: steps[1..][i] == steps[i + 1];
      StoredOnlyBySave(Next(s, steps[0]), steps[1..], id);
    }
  }

  /**
   An item whose handling stored nothing is not lost to later requests: once it is
   marked done, any request that names it takes it again.
   */
  lemma RetryPossible(steps: seq<Step>, b: int, id: string, body: seq<Item>)
    requires IsRun(INIT, steps) && Enabled(After(INIT, steps), MarkDone(b, id))
    requires id != "" && id !in After(INIT, steps).rows && exists x :: x in body && x.id == id
    ensures
      var s := Next(After(INIT, steps), MarkDone(b, id));
      id in Next(s, Claim(body)).inFlight && |Next(s, Claim(body)).batches| == |s.batches| + 1
  {
    hide IsRun, After, FirstOf, Claimable, DistinctIds;
    var s := Next(After(INIT, steps), MarkDone(b, id));
    ClaimableIff(Ids(body), s.inFlight, s.rows);
    ClaimedReachBatch(body, s.inFlight, s.rows);
    IdAmong(body, id);
    if Selected(s, body) == [] {
      assert IdSet(Selected(s, body)) == {};
    }
  }

  /** Ids some worker is processing. */
  ghost predicate Processing(s: State, b: int, id: string) {
    HasItem(s, b, id) && StatusOf(s, b, id) == Working
  }

  lemma CancelledStep(s: State, step: Step, b: int, id: string)
    requires Exclusion(s) && Enabled(s, step) && s.cancelled && step != SetCancelled(false)
    requires Processing(Next(s, step), b, id)
    ensures Processing(s, b, id)
  {
    hide Groups, FirstOf, Claimable, IsNext, InFlightExact, OneLiveBatch, Outstanding, DistinctIds, IdSet;
  }

  lemma StaysCancelled(s: State, step: Step)
    requires Enabled(s, step) && s.cancelled && step != SetCancelled(false)
    ensures Next(s, step).cancelled
  {
    hide Groups, FirstOf, Claimable, IsNext;
  }

  lemma {:induction false} CancelledForGood(s: State, steps: seq<Step>, b: int, id: string)
    requires Invariant(s) && s.cancelled && IsRun(s, steps)
    requires forall i | 0 <= i < |steps| :: steps[i] != SetCancelled(false)
    ensures Processing(After(s, steps), b, id) ==> Processing(s, b, id)
    decreases |steps|
  {
    hide Next, Enabled, Processing, Ordered, Exclusion;
    if steps != [] {
      StepKeepsInvariant(s, steps[0]);
      StaysCancelled(s, steps[0]);
      assert forall i | 0 <= i < |steps[1..]| :: steps[1..][i] == steps[i + 1];
      CancelledForGood(Next(s, steps[0]), steps[1..], b, id);
      if Processing(Next(s, steps[0]), b, id) {
        CancelledStep(s, steps[0], b, id);
      }
    }
  }

  /**
   From the moment a user cancels, and until the flag is cleared, no worker takes up
   the processing of another item, in any interleaving.
   */
  lemma CancellingStops(before: seq<Step>, steps: seq<Step>, b: int, id: string)
    requires IsRun(INIT, before) && IsRun(Next(After(INIT, before), SetCancelled(true)), steps)
    requires forall i | 0 <= i < |steps| :: steps[i] != SetCancelled(false)
    ensures
      Processing(After(Next(After(INIT, before), SetCancelled(true)), steps), b, id)
      ==> Processing(After(INIT, before), b, id)
  {
    hide IsRun, After, Invariant;
    var s := After(INIT, before);
    InitInvariant();
    RunKeepsInvariant(INIT, before);
    StepKeepsInvariant(s, SetCancelled(true));
    CancelledForGood(Next(s, SetCancelled(true)), steps, b, id);
  }
}
