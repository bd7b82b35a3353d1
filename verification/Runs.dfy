/**
 Whole runs of board operations: what every reachable board keeps, and what a
 run cannot reach (api/db.py:2458-2578, 2660-3099).
 */
module Runs {
  import opened Options
  import opened WorkCalendar
  import opened WorkdayMask
  import opened BoardModel
  import opened Cohorts

  datatype Op =
    | OpCreateTemplate(tid: string, unit: DurationUnit, project: string, owner: string, inputs: seq<TaskInput>)
    | OpUpdateTemplate(tid: string, newUnit: Option<DurationUnit>, newProject: Option<string>, newOwner: Option<string>,
                       newInputs: Option<seq<TaskInput>>)
    | OpDeleteTemplate(tid: string)
    | OpInstantiate(tid: string, start: int, project: string, owner: string, iid: string, ids: seq<string>)
    | OpReschedule(iid: string, start: int)
    | OpUpgrade(iid: string, rows: seq<string>, ids: seq<string>)
    | OpDeleteInstance(iid: string)
    | OpAutocomplete(iid: string)
    | OpDetach(cid: string)
    | OpInsertCard(cid: string, card: Card)
    | OpEditCard(cid: string, card: Card)
    | OpDeleteCard(cid: string)
    | OpSetDependencies(cid: string, dependsOn: seq<string>)
    | OpSetResources(cid: string, entries: seq<ResourceEntry>)

  /** Ids are never reused, foreign keys hold, and edits leave the instance fields alone. */
  ghost predicate Allowed(b: Tables, op: Op) {
    match op
    case OpCreateTemplate(tid, _, _, _, _) => forall i | i in b.instances :: b.instances[i].templateId != tid
    case OpInstantiate(tid, _, _, _, iid, ids) =>
      tid in b.templates && iid !in b.instances && FreshIds(b, ids, |b.templates[tid].tasks|)
    case OpUpgrade(iid, rows, ids) =>
      Outdated(b, iid) ==> Rows(b, iid, rows) && FreshIds(b, ids, |TemplateOf(b, iid).tasks|)
    case OpInsertCard(cid, card) => cid !in b.cards && card.instance == None && card.localId == None
    case OpEditCard(cid, card) =>
      cid in b.cards && card.instance == b.cards[cid].instance && card.localId == b.cards[cid].localId
    case OpSetDependencies(cid, _) => cid in b.cards
    case OpSetResources(cid, _) => cid in b.cards
    case _ => true
  }

  ghost function Apply(b: Tables, op: Op): Tables
    requires Allowed(b, op)
  {
    match op
    case OpCreateTemplate(tid, unit, project, owner, tasks) => CreateTemplate(b, tid, unit, project, owner, tasks)
    case OpUpdateTemplate(tid, unit, project, owner, tasks) => UpdateTemplate(b, tid, unit, project, owner, tasks)
    case OpDeleteTemplate(tid) => b.(templates := b.templates - {tid})
    case OpInstantiate(tid, start, project, owner, iid, ids) => Instantiate(b, tid, start, project, owner, iid, ids)
    case OpReschedule(iid, start) => Reschedule(b, iid, start)
    case OpUpgrade(iid, rows, ids) => Upgrade(b, iid, rows, ids)
    case OpDeleteInstance(iid) => DeleteInstance(b, iid)
    case OpAutocomplete(iid) => Autocomplete(b, iid)
    case OpDetach(cid) => Detach(b, cid)
    case OpInsertCard(cid, card) => b.(cards := b.cards[cid := card])
    case OpEditCard(cid, card) => b.(cards := b.cards[cid := card])
    case OpDeleteCard(cid) => DropCards(b, {cid})
    case OpSetDependencies(cid, ds) => SetDependencies(b, cid, ds)
    case OpSetResources(cid, es) => SetResources(b, cid, es)
  }

  /** What every reachable board keeps. */
  ghost predicate Invariant(b: Tables) {
    && WellFormed(b)
    && (forall i | i in b.instances :: OneCardPerTask(b, i))
    && (forall x | x in b.cards && b.cards[x].instance.Some? :: b.cards[x].instance.value in b.instances)
    && (forall i | i in b.instances && b.instances[i].templateId in b.templates ::
          b.instances[i].version <= b.templates[b.instances[i].templateId].version)
  }

  /** Boards whose cards agree on owner and local id agree on the cohort property. */
  lemma SameOwners(b: Tables, b': Tables, iid: string)
    requires OneCardPerTask(b, iid)
    requires forall x | x in Attached(b', iid) :: x in Attached(b, iid) && b'.cards[x].localId == b.cards[x].localId
    ensures OneCardPerTask(b', iid)
  {
  }

  lemma TemplateStepWellFormed(b: Tables, op: Op)
    requires WellFormed(b) && Allowed(b, op) && (op.OpCreateTemplate? || op.OpUpdateTemplate? || op.OpDeleteTemplate?)
    ensures WellFormed(Apply(b, op))
  {
    hide TaskGraph, Stored, Strip;
    if op.OpCreateTemplate? {
      StoredIsTaskGraph(op.inputs);
    } else if op.OpUpdateTemplate? && op.newInputs.Some? {
      StoredIsTaskGraph(op.newInputs.value);
    }
  }

  lemma TemplateStep(b: Tables, op: Op)
    requires Invariant(b) && Allowed(b, op) && (op.OpCreateTemplate? || op.OpUpdateTemplate? || op.OpDeleteTemplate?)
    ensures Invariant(Apply(b, op))
  {
    hide WellFormed, Stored, Strip, OneCardPerTask;
    var b' := Apply(b, op);
    TemplateStepWellFormed(b, op);
    forall i | i in b'.instances
      ensures OneCardPerTask(b', i)
    {
      SameOwners(b, b', i);
    }
  }

  lemma InstantiateCohorts(b: Tables, op: Op, i: string)
    requires Invariant(b) && Allowed(b, op) && op.OpInstantiate? && i in Apply(b, op).instances
    ensures OneCardPerTask(Apply(b, op), i)
  {
    hide FreshCard, FillTasks, AllKnown, PutTasks, Edges, WellFormed, Strip, OneCardPerTask, TaskGraph, CohortOf;
    var b' := Apply(b, op);
    var tasks := b.templates[op.tid].tasks;
    var m := Reach(b.catalog, tasks, 0);
    InstantiateCards(b, op.tid, op.start, op.project, op.owner, op.iid, op.ids);
    NewOwners(b, op);
    if i == op.iid {
      TemplateRow(b, op.tid);
      NewCohort(b', op.ids, tasks, m, i);
    } else {
      SameOwners(b, b', i);
    }
  }

  /** The new instance owns exactly the new cards. */
  lemma NewOwners(b: Tables, op: Op)
    requires Invariant(b) && Allowed(b, op) && op.OpInstantiate?
    ensures
      var b' := Apply(b, op);
      var tasks := b.templates[op.tid].tasks;
      var m := Reach(b.catalog, tasks, 0);
      && (forall i | 0 <= i < m :: op.ids[i] in b'.cards
           && b'.cards[op.ids[i]].instance == Some(op.iid) && b'.cards[op.ids[i]].localId == Some(tasks[i].localId))
      && (forall x | x in b'.cards :: x !in b.cards <==> x in Attached(b', op.iid))
  {
    hide FreshCard, FillTasks, AllKnown, PutTasks, Edges, WellFormed, OneCardPerTask, Strip;
    var tasks := b.templates[op.tid].tasks;
    InstantiateCards(b, op.tid, op.start, op.project, op.owner, op.iid, op.ids);
    forall i | 0 <= i < Reach(b.catalog, tasks, 0)
      ensures Apply(b, op).cards[op.ids[i]].instance == Some(op.iid)
      ensures Apply(b, op).cards[op.ids[i]].localId == Some(tasks[i].localId)
    {
      FreshCardIdentity(CohortOf(b, op.tid, op.start, op.project, op.iid), tasks[i]);
    }
  }

  lemma InstantiateRow(b: Tables, op: Op)
    requires Allowed(b, op) && op.OpInstantiate?
    ensures
      var b' := Apply(b, op);
      && b'.templates == b.templates
      && b'.instances == b.instances[op.iid := b'.instances[op.iid]]
      && b'.instances[op.iid].templateId == op.tid && b'.instances[op.iid].version == b.templates[op.tid].version
  {
    hide FillTasks, PutTasks, Edges, AllKnown, Strip;
  }

  lemma InstantiateStep(b: Tables, op: Op)
    requires Invariant(b) && Allowed(b, op) && op.OpInstantiate?
    ensures Invariant(Apply(b, op))
  {
    hide Instantiate, Apply, WellFormed, OneCardPerTask, FreshCard, Strip;
    var b' := Apply(b, op);
    InstantiateWellFormed(b, op.tid, op.start, op.project, op.owner, op.iid, op.ids);
    InstantiateRow(b, op);
    NewOwners(b, op);
    OldCardsKept(b, op);
    assert WellFormed(b') by {
      ApplyInstantiate(b, op);
    }
    forall i | i in b'.instances
      ensures OneCardPerTask(b', i)
    {
      InstantiateCohorts(b, op, i);
    }
  }

  lemma ApplyInstantiate(b: Tables, op: Op)
    requires Allowed(b, op) && op.OpInstantiate?
    ensures Apply(b, op) == Instantiate(b, op.tid, op.start, op.project, op.owner, op.iid, op.ids)
  {
    hide Instantiate;
  }

  lemma OldCardsKept(b: Tables, op: Op)
    requires Allowed(b, op) && op.OpInstantiate?
    ensures forall x | x in b.cards :: x in Apply(b, op).cards && Apply(b, op).cards[x] == b.cards[x]
  {
    hide Instantiate, FreshCard, AllKnown;
    InstantiateCards(b, op.tid, op.start, op.project, op.owner, op.iid, op.ids);
  }

  lemma NewCohort(b: Tables, ids: seq<string>, tasks: seq<Task>, m: int, iid: string)
    requires TaskGraph(tasks) && 0 <= m <= |tasks| == |ids|
    requires forall x | x in Attached(b, iid) ::
      exists i :: 0 <= i < m && ids[i] == x && b.cards[x].localId == Some(tasks[i].localId)
    ensures OneCardPerTask(b, iid)
  {
    forall x, y | x in Attached(b, iid) && y in Attached(b, iid) && b.cards[x].localId == b.cards[y].localId
      ensures x == y
    {
      var i :| 0 <= i < m && ids[i] == x && b.cards[x].localId == Some(tasks[i].localId);
      var j :| 0 <= j < m && ids[j] == y && b.cards[y].localId == Some(tasks[j].localId);
    }
  }

  lemma UpgradeCohorts(b: Tables, op: Op, i: string)
    requires Invariant(b) && Allowed(b, op) && op.OpUpgrade? && Outdated(b, op.iid) && i in b.instances
    ensures OneCardPerTask(Apply(b, op), i)
  {
    hide PutTasks, FillTasks, ByLocal, Rows, AllKnown, Shows, Edges, WellFormed, TaskGraph, Distinct;
    if i == op.iid {
      ReapplyKeepsOneCardPerTask(b, op.iid, op.rows, op.ids);
    } else {
      ReapplyCards(b, op.iid, op.rows, op.ids);
      SameOwners(b, Apply(b, op), i);
    }
  }

  lemma UpgradeStep(b: Tables, op: Op)
    requires Invariant(b) && Allowed(b, op) && op.OpUpgrade? && Outdated(b, op.iid)
    ensures Invariant(Apply(b, op))
  {
    hide PutTasks, FillTasks, ByLocal, Rows, AllKnown, Shows, Edges, WellFormed, OneCardPerTask;
    ReapplyCards(b, op.iid, op.rows, op.ids);
    ReapplyWellFormed(b, op.iid, op.rows, op.ids);
    forall i | i in Apply(b, op).instances
      ensures OneCardPerTask(Apply(b, op), i)
    {
      UpgradeCohorts(b, op, i);
    }
  }

  lemma RescheduleKeepsOwners(b: Tables, iid: string, start: int)
    ensures
      var b' := Reschedule(b, iid, start);
      && b' == b.(cards := b'.cards, instances := b'.instances) && b'.cards.Keys == b.cards.Keys
      && (forall x | x in b.cards ::
            b'.cards[x].instance == b.cards[x].instance && b'.cards[x].localId == b.cards[x].localId)
      && b'.instances.Keys == b.instances.Keys
      && (forall i | i in b.instances ::
            b'.instances[i].templateId == b.instances[i].templateId
            && b'.instances[i].version == b.instances[i].version)
  {
    hide WeekOf, Shift, Index;
  }

  /** The remaining operations leave task lists and the identity of surviving cards alone. */
  ghost predicate Simple(op: Op) {
    || op.OpReschedule? || op.OpDeleteInstance? || op.OpAutocomplete?
    || op.OpDetach? || op.OpInsertCard? || op.OpEditCard? || op.OpDeleteCard?
    || op.OpSetDependencies? || op.OpSetResources?
  }

  lemma SimpleStepWellFormed(b: Tables, op: Op)
    requires WellFormed(b) && Allowed(b, op) && Simple(op)
    ensures WellFormed(Apply(b, op))
  {
    hide TaskGraph, Reschedule, Rows, FreshIds, Outdated, SetDependencies, SetResources;
    if op.OpReschedule? {
      RescheduleKeepsOwners(b, op.iid, op.start);
    } else if op.OpSetDependencies? {
      SetRelationsWellFormed(b, op.cid, op.dependsOn, []);
    } else if op.OpSetResources? {
      SetRelationsWellFormed(b, op.cid, [], op.entries);
    }
  }

  /** Cards attached afterwards were attached before, as the same task's card. */
  lemma SimpleStepOwners(b: Tables, op: Op)
    requires Allowed(b, op) && Simple(op)
    ensures
      var b' := Apply(b, op);
      && b'.templates == b.templates
      && (forall x | x in b'.cards && b'.cards[x].instance.Some? ::
            x in b.cards && b.cards[x].instance == b'.cards[x].instance && b.cards[x].localId == b'.cards[x].localId)
  {
    hide Reschedule, Rows, FreshIds, Outdated, TaskGraph;
    if op.OpReschedule? {
      RescheduleKeepsOwners(b, op.iid, op.start);
    }
  }

  lemma SimpleStepInstances(b: Tables, op: Op)
    requires Allowed(b, op) && Simple(op)
    ensures
      var b' := Apply(b, op);
      && (forall i | i in b'.instances ::
            i in b.instances && b'.instances[i].templateId == b.instances[i].templateId
            && b'.instances[i].version == b.instances[i].version)
      && (forall x | x in b'.cards && b'.cards[x].instance.Some? ::
            b'.cards[x].instance.value in b.instances ==> b'.cards[x].instance.value in b'.instances)
  {
    hide Reschedule, Rows, FreshIds, Outdated, TaskGraph;
    if op.OpReschedule? {
      RescheduleKeepsOwners(b, op.iid, op.start);
    }
  }

  lemma SimpleStep(b: Tables, op: Op)
    requires Invariant(b) && Allowed(b, op) && Simple(op)
    ensures Invariant(Apply(b, op))
  {
    hide WellFormed, OneCardPerTask, Apply, Allowed;
    var b' := Apply(b, op);
    SimpleStepWellFormed(b, op);
    SimpleStepOwners(b, op);
    SimpleStepInstances(b, op);
    forall i | i in b'.instances
      ensures OneCardPerTask(b', i)
    {
      SameOwners(b, b', i);
    }
  }

  lemma StepKeepsInvariant(b: Tables, op: Op)
    requires Invariant(b) && Allowed(b, op)
    ensures Invariant(Apply(b, op))
  {
    hide Invariant;
    match op
    case OpCreateTemplate(_, _, _, _, _) => TemplateStep(b, op);
    case OpUpdateTemplate(_, _, _, _, _) => TemplateStep(b, op);
    case OpDeleteTemplate(_) => TemplateStep(b, op);
    case OpInstantiate(_, _, _, _, _, _) => InstantiateStep(b, op);
    case OpUpgrade(iid, _, _) => if Outdated(b, iid) { UpgradeStep(b, op); }
    case _ => SimpleStep(b, op);
  }

  // ---- Runs ---------------------------------------------------------------------

  /** `ops` is a run: each step is allowed on the board it meets. */
  ghost predicate IsRun(b: Tables, ops: seq<Op>)
    decreases |ops|
  {
    ops == [] || (Allowed(b, ops[0]) && IsRun(Apply(b, ops[0]), ops[1..]))
  }

  ghost function After(b: Tables, ops: seq<Op>): Tables
    requires IsRun(b, ops)
    decreases |ops|
  {
    if ops == [] then b else After(Apply(b, ops[0]), ops[1..])
  }

  /** The board a new database starts with. */
  lemma EmptyBoard(catalog: set<int>)
    ensures Invariant(Tables(map[], map[], map[], {}, map[], catalog))
  {
  }

  /** Every run keeps distinct task cards, live owners and version order. */
  lemma {:induction false} RunKeepsInvariant(b: Tables, ops: seq<Op>)
    requires Invariant(b) && IsRun(b, ops)
    ensures Invariant(After(b, ops))
    decreases |ops|
  {
    hide Invariant, Apply;
    if ops != [] {
      StepKeepsInvariant(b, ops[0]);
      RunKeepsInvariant(Apply(b, ops[0]), ops[1..]);
    }
  }

  // ---- What a run cannot reach ------------------------------------------------------

  /** The step works on the instance the card belongs to, or on the card itself. */
  ghost predicate Concerns(op: Op, cid: string, owner: Option<string>) {
    match op
    case OpReschedule(iid, _) => owner == Some(iid)
    case OpUpgrade(iid, _, _) => owner == Some(iid)
    case OpDeleteInstance(iid) => owner == Some(iid)
    case OpDetach(c) => c == cid
    case OpEditCard(c, _) => c == cid
    case OpDeleteCard(c) => c == cid
    case OpSetResources(c, _) => c == cid
    case _ => false
  }

  /** The card's row and its resource rows. */
  ghost predicate SameCard(b: Tables, b': Tables, cid: string) {
    && cid in b.cards && cid in b'.cards && b'.cards[cid] == b.cards[cid]
    && (forall r :: (cid, r) in b'.bom <==> (cid, r) in b.bom)
    && (forall r | (cid, r) in b.bom :: b'.bom[(cid, r)] == b.bom[(cid, r)])
  }

  lemma InstantiateLeavesCard(b: Tables, op: Op, cid: string)
    requires Allowed(b, op) && op.OpInstantiate? && cid in b.cards
    ensures SameCard(b, Apply(b, op), cid)
  {
    hide FreshCard, Refreshed, Strip, FillTasks, AllKnown, PutTasks, Edges;
    var tasks := b.templates[op.tid].tasks;
    var m := Reach(b.catalog, tasks, 0);
    InstantiateCards(b, op.tid, op.start, op.project, op.owner, op.iid, op.ids);
    FillTasksFacts(b.catalog, b.bom, op.ids, tasks, m);
  }

  lemma UpgradeLeavesCard(b: Tables, op: Op, cid: string)
    requires Invariant(b) && Allowed(b, op) && op.OpUpgrade? && Outdated(b, op.iid)
    requires cid in b.cards && b.cards[cid].instance != Some(op.iid)
    ensures SameCard(b, Apply(b, op), cid)
  {
    hide Upgrade, CardsOfTasks, TaskGraph, AllKnown, Rows, WellFormed, OneCardPerTask, RequiredRow, SameCard;
    UpgradeLeavesOtherCards(b, op.iid, op.rows, op.ids);
    UpgradeAddsRequiredResources(b, op.iid, op.rows, op.ids);
    CardAlone(b, Apply(b, op), cid, CardsOfTasks(b, op.iid, op.rows, op.ids));
  }

  /** A card outside the ones given rows keeps its own. */
  lemma CardAlone(b: Tables, b': Tables, cid: string, cids: seq<string>)
    requires cid in b.cards && cid in b'.cards && b'.cards[cid] == b.cards[cid] && cid !in cids
    requires forall k | k in b.bom :: k in b'.bom && b'.bom[k] == b.bom[k]
    requires forall k | k in b'.bom && k !in b.bom :: k.0 in cids
    ensures SameCard(b, b', cid)
  {
    forall r | (cid, r) in b'.bom
      ensures (cid, r) in b.bom
    {
      assert (cid, r).0 !in cids;
    }
  }

  lemma StepLeavesCard(b: Tables, op: Op, cid: string)
    requires Invariant(b) && Allowed(b, op) && cid in b.cards && !Concerns(op, cid, b.cards[cid].instance)
    ensures SameCard(b, Apply(b, op), cid)
  {
    hide Invariant, Stored, Strip, Moved, Reapply, Instantiate, FreshIds, Rows, AddDependencies, AddResources;
    if op.OpInstantiate? {
      InstantiateLeavesCard(b, op, cid);
    } else if op.OpUpgrade? && Outdated(b, op.iid) {
      UpgradeLeavesCard(b, op, cid);
    } else if op.OpSetResources? {
      AddResourcesFacts(OtherRows(b.bom, op.cid), b.catalog, op.cid, op.entries);
    }
  }

  /**
   However long the run, a detached card, or a card of another instance, stays
   row for row as it was until a step concerns it.
   */
  lemma {:induction false} RunLeavesCard(b: Tables, ops: seq<Op>, cid: string)
    requires Invariant(b) && IsRun(b, ops) && cid in b.cards
    requires forall k | 0 <= k < |ops| :: !Concerns(ops[k], cid, b.cards[cid].instance)
    ensures SameCard(b, After(b, ops), cid)
    decreases |ops|
  {
    hide Invariant, Apply;
    if ops != [] {
      var b1 := Apply(b, ops[0]);
      StepKeepsInvariant(b, ops[0]);
      StepLeavesCard(b, ops[0], cid);
      assert forall k | 0 <= k < |ops[1..]| :: ops[1..][k] == ops[k + 1];
      RunLeavesCard(b1, ops[1..], cid);
    }
  }

  /**
   A detached card belongs to no instance and no task, has every other field as it was,
   and stays so over every run that does not name it, whatever happens to the instance
   it came from.
   */
  lemma DetachedForGood(b: Tables, cid: string, ops: seq<Op>)
    requires Invariant(b) && cid in b.cards && IsRun(Detach(b, cid), ops)
    requires forall k | 0 <= k < |ops| :: !Concerns(ops[k], cid, None)
    ensures
      var b' := After(Detach(b, cid), ops);
      && cid in b'.cards && b'.cards[cid] == b.cards[cid].(instance := None, localId := None)
      && (forall r :: (cid, r) in b'.bom <==> (cid, r) in b.bom)
  {
    hide Invariant, IsRun, After, Apply;
    StepKeepsInvariant(b, OpDetach(cid));
    assert Apply(b, OpDetach(cid)) == Detach(b, cid) by {
      DetachApplied(b, cid);
    }
    RunLeavesCard(Detach(b, cid), ops, cid);
  }

  lemma DetachApplied(b: Tables, cid: string)
    ensures Allowed(b, OpDetach(cid)) && Apply(b, OpDetach(cid)) == Detach(b, cid)
  {
  }

  /**
   Deleting a template leaves the work made from it in place, and its instances where
   they are: they can no longer be moved or upgraded.
   */
  lemma DeletedTemplateLeavesWork(b: Tables, tid: string, iid: string, start: int, rows: seq<string>,
                                  ids: seq<string>)
    requires iid in b.instances && b.instances[iid].templateId == tid
    ensures
      var b' := Apply(b, OpDeleteTemplate(tid));
      && tid !in b'.templates && (forall t | t in b.templates && t != tid ::
            t in b'.templates && b'.templates[t] == b.templates[t])
      && (b'.instances, b'.cards, b'.deps, b'.bom) == (b.instances, b.cards, b.deps, b.bom)
      && Reschedule(b', iid, start) == b'
      && !Outdated(b', iid) && Upgrade(b', iid, rows, ids) == b'
  {
    hide MovedCards, Reapply;
  }

  // ---- Versions ---------------------------------------------------------------------

  /** How many updates of a template a run holds. */
  function Updates(ops: seq<Op>, tid: string): nat {
    if ops == [] then 0
    else (if ops[0].OpUpdateTemplate? && ops[0].tid == tid then 1 else 0) + Updates(ops[1..], tid)
  }

  /** The step neither upgrades nor removes the instance, nor removes its template. */
  predicate LeavesVersions(op: Op, iid: string, tid: string) {
    && op != OpDeleteTemplate(tid) && op != OpDeleteInstance(iid)
    && (op.OpUpgrade? ==> op.iid != iid)
  }

  lemma StepVersions(b: Tables, op: Op, iid: string)
    requires Invariant(b) && Allowed(b, op) && Schedulable(b, iid)
    requires LeavesVersions(op, iid, b.instances[iid].templateId)
    ensures
      var b' := Apply(b, op);
      var tid := b.instances[iid].templateId;
      && Schedulable(b', iid) && b'.instances[iid].templateId == tid
      && b'.instances[iid].version == b.instances[iid].version
      && b'.templates[tid].version == b.templates[tid].version + Updates([op], tid)
  {
    hide Invariant, Stored, Strip, MovedCards, FreshIds, Rows, AddDependencies, AddResources, PutTasks, FillTasks;
    hide Edges, AllKnown, Reach, ByLocal;
    assert [op][1..] == [];
  }

  /**
   An instance that is current is outdated after a run exactly when the run updates
   its template, and then by as many versions as there are updates.
   */
  lemma {:induction false} OutdatedIffUpdated(b: Tables, ops: seq<Op>, iid: string)
    requires Invariant(b) && IsRun(b, ops) && Schedulable(b, iid)
    requires forall k | 0 <= k < |ops| :: LeavesVersions(ops[k], iid, b.instances[iid].templateId)
    ensures
      var b' := After(b, ops);
      var tid := b.instances[iid].templateId;
      && Schedulable(b', iid) && b'.instances[iid].templateId == tid
      && b'.instances[iid].version == b.instances[iid].version
      && b'.templates[tid].version == b.templates[tid].version + Updates(ops, tid)
      && (!Outdated(b, iid) ==> (Outdated(b', iid) <==> Updates(ops, tid) > 0))
    decreases |ops|
  {
    hide Invariant, Apply, Allowed, LeavesVersions;
    if ops != [] {
      StepKeepsInvariant(b, ops[0]);
      StepVersions(b, ops[0], iid);
      assert forall k | 0 <= k < |ops[1..]| :: ops[1..][k] == ops[k + 1];
      OutdatedIffUpdated(Apply(b, ops[0]), ops[1..], iid);
    }
    VersionsInOrder(b, iid);
  }

  lemma VersionsInOrder(b: Tables, iid: string)
    requires Invariant(b) && Schedulable(b, iid)
    ensures b.instances[iid].version <= b.templates[b.instances[iid].templateId].version
  {
    hide WellFormed, OneCardPerTask;
  }
}
