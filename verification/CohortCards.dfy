/**
 The cards, rows and versions an instantiation and an upgrade leave, field by field
 (api/db.py:2660-2747, 2908-3039).
 */
module CohortCards {
  import opened Options
  import opened WorkCalendar
  import opened WorkdayMask
  import opened BoardModel
  import opened Cohorts

  ghost function PlacementOf(c: Card): Placement {
    Placement(c.startDate, c.startShift, c.endDate, c.endShift)
  }

  /** The fields a card takes from its task, placed from an anchor date. */
  ghost predicate FollowsTask(c: Card, unit: DurationUnit, start: int, t: Task) {
    && OnSchedule(PlacementOf(c), unit, start, t)
    && c.title == t.title && c.workDays == Strip(t.workDays) && c.procedure == t.procedure
  }

  /** A card nobody has worked on, owned by a task of an instance. */
  ghost predicate Untouched(c: Card, project: string, iid: string, t: Task) {
    && c.status == Planned && c.assignee == "" && c.notes == "" && c.project == project
    && c.instance == Some(iid) && c.localId == Some(t.localId)
  }

  lemma FreshCardFollows(co: Cohort, t: Task)
    ensures FollowsTask(FreshCard(co, t), co.unit, co.start, t) && Untouched(FreshCard(co, t), co.project, co.iid, t)
  {
    hide OnSchedule, Place, Strip;
    PlaceOnSchedule(co.unit, co.start, t);
  }

  lemma ShowsFollows(card: Card, unit: DurationUnit, start: int, t: Task)
    requires Shows(card, unit, start, t)
    ensures FollowsTask(card, unit, start, t)
  {
    hide OnSchedule, Place, Strip;
    PlaceOnSchedule(unit, start, t);
  }

  /** A requirement's resource is unknown to the catalogue. */
  ghost predicate NamesUnknown(catalog: set<int>, t: Task) {
    exists j :: 0 <= j < |t.requirements| && t.requirements[j].named.Some?
      && t.requirements[j].named.value != 0 && t.requirements[j].named.value !in catalog
  }

  /** Materialising gets up to and including the first task that names an unknown resource, else through all. */
  lemma {:induction false} ReachIsFirst(catalog: set<int>, tasks: seq<Task>, k: int)
    requires 0 <= k <= |tasks|
    ensures
      var m := Reach(catalog, tasks, k);
      && (forall i | k <= i < m - 1 :: !NamesUnknown(catalog, tasks[i]))
      && (m < |tasks| ==> m > k)
      && (m > k && (exists i :: k <= i < |tasks| && NamesUnknown(catalog, tasks[i])) ==>
            NamesUnknown(catalog, tasks[m - 1]))
      && ((forall i | k <= i < |tasks| :: !NamesUnknown(catalog, tasks[i])) ==> m == |tasks|)
    decreases |tasks| - k
  {
    if k < |tasks| {
      KnownIff(catalog, tasks[k]);
      ReachIsFirst(catalog, tasks, k + 1);
    }
  }

  lemma KnownIff(catalog: set<int>, t: Task)
    ensures Known(catalog, t.requirements) <==> !NamesUnknown(catalog, t)
  {
  }

  lemma AllKnownIff(catalog: set<int>, tasks: seq<Task>)
    ensures AllKnown(catalog, tasks, |tasks|) <==> forall i | 0 <= i < |tasks| :: !NamesUnknown(catalog, tasks[i])
  {
    hide Known, NamesUnknown;
    forall i | 0 <= i < |tasks|
      ensures Known(catalog, tasks[i].requirements) <==> !NamesUnknown(catalog, tasks[i])
    {
      KnownIff(catalog, tasks[i]);
    }
  }

  // ---- Instantiation --------------------------------------------------------------------

  /**
   Every task reached gets a new card on its schedule, untouched, under the next
   fresh id; every other card is the row it was.
   */
  lemma InstantiatedCards(b: Tables, tid: string, s: int, project: string, owner: string, iid: string,
                          ids: seq<string>)
    requires tid in b.templates && FreshIds(b, ids, |b.templates[tid].tasks|)
    ensures
      var b' := Instantiate(b, tid, s, project, owner, iid, ids);
      var t := b.templates[tid];
      var m := Reach(b.catalog, t.tasks, 0);
      && b'.cards.Keys == b.cards.Keys + (set i | 0 <= i < m :: ids[i])
      && (forall i | 0 <= i < m ::
            && FollowsTask(b'.cards[ids[i]], t.unit, s, t.tasks[i])
            && Untouched(b'.cards[ids[i]], Strip(if project != "" then project else t.project), iid, t.tasks[i]))
      && (forall x | x in b.cards :: b'.cards[x] == b.cards[x])
  {
    hide FreshCard, FollowsTask, Untouched, Strip, Instantiate, Reach;
    var t := b.templates[tid];
    InstantiateCards(b, tid, s, project, owner, iid, ids);
    forall i | 0 <= i < Reach(b.catalog, t.tasks, 0)
      ensures
        var card := FreshCard(CohortOf(b, tid, s, project, iid), t.tasks[i]);
        && FollowsTask(card, t.unit, s, t.tasks[i])
        && Untouched(card, Strip(if project != "" then project else t.project), iid, t.tasks[i])
    {
      FreshCardFollows(CohortOf(b, tid, s, project, iid), t.tasks[i]);
    }
  }

  /** The instance is active at its template's version; nothing else but cards, edges and resource rows changes. */
  lemma InstantiatedRow(b: Tables, tid: string, s: int, project: string, owner: string, iid: string, ids: seq<string>)
    requires tid in b.templates && FreshIds(b, ids, |b.templates[tid].tasks|)
    ensures
      var b' := Instantiate(b, tid, s, project, owner, iid, ids);
      var t := b.templates[tid];
      && b'.instances.Keys == b.instances.Keys + {iid}
      && (forall i | i in b.instances && i != iid :: b'.instances[i] == b.instances[i])
      && b'.instances[iid] == Instance(tid, t.version, s, Strip(if project != "" then project else t.project),
                                       Strip(if owner != "" then owner else t.owner), Active)
      && b'.templates == b.templates && b'.catalog == b.catalog
      && !Outdated(b', iid)
  {
    hide Strip, FillTasks, PutTasks, Edges, AllKnown, Reach;
  }

  /**
   With all resources known, the new cards depend on each other exactly as their
   tasks do; without, no edge is written.  Edges there were stay either way.
   */
  lemma InstantiatedEdges(b: Tables, tid: string, s: int, project: string, owner: string, iid: string,
                          ids: seq<string>)
    requires WellFormed(b) && tid in b.templates && FreshIds(b, ids, |b.templates[tid].tasks|)
    ensures
      var b' := Instantiate(b, tid, s, project, owner, iid, ids);
      var tasks := b.templates[tid].tasks;
      && b.deps <= b'.deps
      && (forall e | e in b'.deps && e !in b.deps :: e.0 in ids && e.1 in ids)
      && (if exists i :: 0 <= i < |tasks| && NamesUnknown(b.catalog, tasks[i]) then b'.deps == b.deps
          else forall i, j | 0 <= i < |tasks| && 0 <= j < |tasks| ::
                 (ids[i], ids[j]) in b'.deps <==> tasks[j].localId in tasks[i].dependsOn)
  {
    hide Strip, FillTasks, PutTasks, Edges, AllKnown, Reach, NamesUnknown;
    var tasks := b.templates[tid].tasks;
    AllKnownIff(b.catalog, tasks);
    EdgesAreImage(ids, tasks);
    assert forall i, j | 0 <= i < |tasks| && 0 <= j < |tasks| :: (ids[i], ids[j]) !in b.deps by {
      assert forall e | e in b.deps :: e.0 in b.cards;
    }
  }

  // ---- Resource rows -----------------------------------------------------------------------

  /** The first requirement that names a resource gives the row its quantity. */
  lemma {:induction false} FirstRequirementWins(catalog: set<int>, bom: map<(string, int), BomRow>, cid: string,
                                                rs: seq<Requirement>, i: int)
    requires Known(catalog, rs) && 0 <= i < |rs| && rs[i].named.Some? && rs[i].named.value != 0
    requires (cid, rs[i].named.value) !in bom && forall j | 0 <= j < i :: rs[j].named != rs[i].named
    ensures
      var key := (cid, rs[i].named.value);
      key in Fill(catalog, bom, cid, rs) && Fill(catalog, bom, cid, rs)[key] == BomRow(rs[i].quantity, "needed")
    decreases |rs|
  {
    var r := Named(rs[0]);
    var key := (cid, if r.Some? then r.value else 0);
    var bom1 := if r.None? || key in bom then bom else bom[key := BomRow(rs[0].quantity, "needed")];
    assert Known(catalog, rs[1..]);
    if i > 0 {
      FirstRequirementWins(catalog, bom1, cid, rs[1..], i - 1);
    } else {
      FillFacts(catalog, bom1, cid, rs[1..]);
    }
  }

  /**
   Rows there were stay; those added to a new card are its task's named resources, in
   the quantity a requirement asks for; with all resources known none is missing.
   */
  lemma InstantiatedResources(b: Tables, tid: string, s: int, project: string, owner: string, iid: string,
                              ids: seq<string>)
    requires tid in b.templates && FreshIds(b, ids, |b.templates[tid].tasks|)
    ensures
      var b' := Instantiate(b, tid, s, project, owner, iid, ids);
      var tasks := b.templates[tid].tasks;
      && (forall k | k in b.bom :: k in b'.bom && b'.bom[k] == b.bom[k])
      && (forall k | k in b'.bom && k !in b.bom ::
            RequiredRow(ids, tasks, Reach(b.catalog, tasks, 0), k, b'.bom[k]))
      && ((forall i | 0 <= i < |tasks| :: !NamesUnknown(b.catalog, tasks[i])) ==>
            forall i, j | 0 <= i < |tasks| && 0 <= j < |tasks[i].requirements|
                          && tasks[i].requirements[j].named.Some? && tasks[i].requirements[j].named.value != 0 ::
              (ids[i], tasks[i].requirements[j].named.value) in b'.bom)
  {
    hide Strip, PutTasks, Edges, FillTasks, RequiredRow, AllKnown, NamesUnknown;
    var tasks := b.templates[tid].tasks;
    var m := Reach(b.catalog, tasks, 0);
    FillTasksFacts(b.catalog, b.bom, ids, tasks, m);
    AllKnownIff(b.catalog, tasks);
    if AllKnown(b.catalog, tasks, |tasks|) {
      FillTasksCovers(b.catalog, b.bom, ids, tasks, |tasks|);
      forall i, j | 0 <= i < |tasks| && 0 <= j < |tasks[i].requirements|
                    && tasks[i].requirements[j].named.Some? && tasks[i].requirements[j].named.value != 0
        ensures (ids[i], tasks[i].requirements[j].named.value)
                  in Instantiate(b, tid, s, project, owner, iid, ids).bom
      {
        assert Named(tasks[i].requirements[j]) == Some(tasks[i].requirements[j].named.value);
      }
    }
  }

  // ---- The upgrade -------------------------------------------------------------------------

  /** The user's fields, and the owner. */
  ghost predicate KeptByUser(a: Card, c: Card) {
    && c.status == a.status && c.assignee == a.assignee && c.notes == a.notes && c.project == a.project
    && c.instance == a.instance && c.localId == a.localId
  }

  /**
   After an upgrade with all resources known, every task of the current template has
   its card on the task's schedule from the stored start date: its old card with the
   user's fields as they were, or a new one nobody has touched.
   */
  lemma UpgradedCards(b: Tables, iid: string, rows: seq<string>, ids: seq<string>, i: int)
    requires Ready(b, iid, rows, ids) && Outdated(b, iid) && ResourcesKnown(b, iid)
    requires 0 <= i < |TemplateOf(b, iid).tasks|
    ensures
      var b' := Upgrade(b, iid, rows, ids);
      var t := TemplateOf(b, iid);
      var x := CardsOfTasks(b, iid, rows, ids)[i];
      && x in b'.cards && FollowsTask(b'.cards[x], t.unit, b.instances[iid].startDate, t.tasks[i])
      && (if x in b.cards then KeptByUser(b.cards[x], b'.cards[x])
          else Untouched(b'.cards[x], b.instances[iid].project, iid, t.tasks[i]))
  {
    hide Shows, FollowsTask, Untouched, CardsOfTasks, Rows, OneCardPerTask, WellFormed, TaskGraph, Reapply;
    var t := TemplateOf(b, iid);
    var x := CardsOfTasks(b, iid, rows, ids)[i];
    ReapplyCards(b, iid, rows, ids);
    ReapplyPuts(b, iid, rows, ids);
    ShowsFollows(Reapply(b, iid, rows, ids).cards[x], t.unit, b.instances[iid].startDate, t.tasks[i]);
    if x !in b.cards {
      FreshCardFollows(Cohort(t.unit, b.instances[iid].startDate, b.instances[iid].project, iid), t.tasks[i]);
    }
  }

  /**
   An upgrade with all resources known brings the instance, and only it, to its
   template's version, so that it is no longer outdated; otherwise every instance row
   stays as it was, and it still is.
   */
  lemma UpgradedVersion(b: Tables, iid: string, rows: seq<string>, ids: seq<string>)
    requires Ready(b, iid, rows, ids) && Outdated(b, iid)
    ensures
      var b' := Upgrade(b, iid, rows, ids);
      var inst := b.instances[iid];
      && b'.instances.Keys == b.instances.Keys
      && (forall i | i in b.instances && i != iid :: b'.instances[i] == b.instances[i])
      && b'.instances[iid] == (if ResourcesKnown(b, iid)
           then inst.(version := b.templates[inst.templateId].version) else inst)
      && (Outdated(b', iid) <==> !ResourcesKnown(b, iid))
  {
    hide FillTasks, PutTasks, Edges, AllKnown, Reach, Rows, OneCardPerTask, WellFormed, FreshIds, ByLocal;
  }

  /**
   Once upgraded, the instance is left alone by every later upgrade, on any board with
   the same two version numbers, whatever happened to its cards in between.
   */
  lemma UpgradedStays(b: Tables, iid: string, rows: seq<string>, ids: seq<string>,
                      later: Tables, rows': seq<string>, ids': seq<string>)
    requires Ready(b, iid, rows, ids) && Outdated(b, iid) && ResourcesKnown(b, iid)
    requires
      var b' := Upgrade(b, iid, rows, ids);
      && Schedulable(later, iid)
      && later.instances[iid].version == b'.instances[iid].version
      && TemplateOf(later, iid).version == TemplateOf(b, iid).version
    ensures !Outdated(later, iid) && Upgrade(later, iid, rows', ids') == later
  {
    hide Ready, ResourcesKnown, Reapply;
    UpgradedVersion(b, iid, rows, ids);
  }
}
