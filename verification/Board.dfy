/**
 The look-ahead scheduling engine, row by row, as api/db.py performs it.  Each
 method is proved against its function in BoardModel.dfy.
 */
module Board {
  import opened Options
  import opened Sorting
  import opened WorkCalendar
  import opened WorkdayMask
  import opened BoardModel
  import opened Cohorts

  class LookaheadBoard {
    var templates: map<string, Template>
    var instances: map<string, Instance>
    var cards: map<string, Card>
    var deps: set<(string, string)>
    var bom: map<(string, int), BomRow>
    var catalog: set<int>

    ghost function Model(): Tables
      reads this
    {
      Tables(templates, instances, cards, deps, bom, catalog)
    }

    ghost predicate Valid()
      reads this
    {
      WellFormed(Model())
    }

    constructor (resources: set<int>)
      ensures Valid() && Model() == Tables(map[], map[], map[], {}, map[], resources)
    {
      templates, instances, cards, deps, bom, catalog := map[], map[], map[], {}, map[], resources;
    }

    // ---- Templates ----------------------------------------------------------

    /** `_write_template_tasks`; false when a repeated local id stopped it. */
    method WriteTemplateTasks(tid: string, tasks: seq<TaskInput>) returns (ok: bool)
      requires Valid() && tid in templates
      modifies this`templates
      ensures Valid() && ok == !Repeats(tasks)
      ensures templates == old(templates)[tid := old(templates)[tid].(tasks := Stored(tasks))]
    {
      hide Clean, HasLocal, TaskGraph, Sort, ReadOrder, Repeats;
      var done: seq<Task> := [];
      ok := true;
      var i := 0;
      NothingWritten(tasks);
      while i < |tasks| && ok
        invariant 0 <= i <= |tasks| && templates == old(templates)
        invariant ok ==> Written(done, tasks[i..]) == Written([], tasks) && WritesUpTo(done, tasks, i)
        invariant !ok ==> done == Written([], tasks) && Repeats(tasks)
      {
        var t := Clean(tasks[i]);
        assert tasks[i..][1..] == tasks[i + 1..];
        WritesOneMore(done, tasks, i);
        if t.localId != "" {
          ok := !HasLocal(done, t.localId);
          if ok {
            done := done + [t];
          }
        }
        i := i + 1;
      }
      if ok {
        WritesAll(done, tasks);
      }
      StoredIsTaskGraph(tasks);
      templates := templates[tid := templates[tid].(tasks := Sort(done, ReadOrder()))];
    }

    method CreateTemplate(tid: string, unit: DurationUnit, project: string, owner: string, tasks: seq<TaskInput>)
      returns (ok: bool)
      requires Valid()
      modifies this`templates
      ensures Valid() && Model() == BoardModel.CreateTemplate(old(Model()), tid, unit, project, owner, tasks)
      ensures tid !in old(templates) ==>
        templates == old(templates)[tid := Template(1, unit, Strip(project), Strip(owner), Stored(tasks))]
      ensures ok <==> tid !in old(templates) && !Repeats(tasks)
    {
      hide TaskGraph, Strip, Stored;
      EmptyTaskGraph();
      if tid in templates {
        return false;
      }
      templates := templates[tid := Template(1, unit, Strip(project), Strip(owner), [])];
      ok := WriteTemplateTasks(tid, tasks);
    }

    /** The version rises on every update, whatever changed. */
    method UpdateTemplate(tid: string, unit: Option<DurationUnit>, project: Option<string>, owner: Option<string>,
                          tasks: Option<seq<TaskInput>>)
      returns (ok: bool)
      requires Valid()
      modifies this`templates
      ensures Valid() && Model() == BoardModel.UpdateTemplate(old(Model()), tid, unit, project, owner, tasks)
      ensures tid in old(templates) ==>
        && tid in templates && templates[tid].version == old(templates)[tid].version + 1
        && templates[tid].unit == (if unit.Some? then unit.value else old(templates)[tid].unit)
        && templates[tid].project == (if project.Some? then Strip(project.value) else old(templates)[tid].project)
        && templates[tid].owner == (if owner.Some? then Strip(owner.value) else old(templates)[tid].owner)
        && templates[tid].tasks == (if tasks.Some? then Stored(tasks.value) else old(templates)[tid].tasks)
      ensures ok <==> tid in old(templates) && (tasks.Some? ==> !Repeats(tasks.value))
    {
      hide WellFormed, Stored, Repeats, Strip;
      if tid !in templates {
        return false;
      }
      UpdateTemplateKeeps(Model(), tid, unit, project, owner, None);
      templates := templates[tid := Bumped(templates[tid], unit, project, owner)];
      ok := true;
      if tasks.Some? {
        ok := WriteTemplateTasks(tid, tasks.value);
      }
    }

    // ---- Materialising --------------------------------------------------------

    method PlaceTask(unit: DurationUnit, start: int, t: Task) returns (p: Placement)
      ensures p == Place(unit, start, t) && OnSchedule(p, unit, start, t)
    {
      hide OnSchedule;
      PlaceOnSchedule(unit, start, t);
      var mask := ResolveWorkweek(unit, Strip(t.workDays));
      var s := AddDays(start, t.offsetDays, mask);
      var shift := if t.offsetShift == 0 then 1 else t.offsetShift;
      var e, endShift := DurationToEnd(s, shift, t.duration, mask);
      p := Placement(s, shift, e, endShift);
    }

    /** Copy named requirements to the card; false on an unknown resource. */
    method FillBom(cid: string, rs: seq<Requirement>) returns (ok: bool)
      modifies this`bom
      ensures bom == Fill(catalog, old(bom), cid, rs)
      ensures ok <==> Known(catalog, rs)
    {
      var i := 0;
      ok := true;
      while i < |rs| && ok
        invariant 0 <= i <= |rs|
        invariant ok ==> Fill(catalog, bom, cid, rs[i..]) == Fill(catalog, old(bom), cid, rs)
        invariant ok ==> forall j | 0 <= j < i && Named(rs[j]).Some? :: Named(rs[j]).value in catalog
        invariant !ok ==> bom == Fill(catalog, old(bom), cid, rs) && !Known(catalog, rs)
      {
        var named := Named(rs[i]);
        assert rs[i..][1..] == rs[i + 1..];
        if named.Some? {
          if named.value !in catalog {
            ok := false;
          } else if (cid, named.value) !in bom {
            bom := bom[(cid, named.value) := BomRow(rs[i].quantity, "needed")];
          }
        }
        i := i + 1;
      }
    }

    /** Refresh the card a task already has, or insert a new one under `freshId`. */
    method PutCard(co: Cohort, existing: map<string, string>, t: Task, freshId: string) returns (ok: bool, cid: string)
      requires if t.localId in existing then existing[t.localId] in cards else freshId !in cards
      modifies this`cards, this`bom
      ensures cid == if t.localId in existing then existing[t.localId] else freshId
      ensures cards == old(cards)[cid := if cid in old(cards)
        then Refreshed(co, old(cards)[cid], t) else FreshCard(co, t)]
      ensures bom == Fill(catalog, old(bom), cid, t.requirements)
      ensures ok <==> Known(catalog, t.requirements)
    {
      hide Place, Strip, Fill;
      var p := PlaceTask(co.unit, co.start, t);
      if t.localId in existing {
        cid := existing[t.localId];
        cards := cards[cid := cards[cid].(
          title := t.title, startDate := p.startDate, startShift := p.startShift, endDate := p.endDate,
          endShift := p.endShift, workDays := Strip(t.workDays), procedure := t.procedure)];
      } else {
        cid := freshId;
        cards := cards[cid := Card(
          t.title, co.project, "", p.startDate, p.startShift, p.endDate, p.endShift, Planned, "",
          Strip(t.workDays), t.procedure, Some(co.iid), Some(t.localId))];
      }
      ok := FillBom(cid, t.requirements);
    }

    /** Pass 1: one card per task; false when an unknown resource stopped it. */
    method PutCards(co: Cohort, existing: map<string, string>, tasks: seq<Task>, ids: seq<string>)
      returns (ok: bool, localToCard: map<string, string>)
      requires TaskGraph(tasks) && FreshIds(Model(), ids, |tasks|)
      requires forall l | l in existing :: existing[l] in cards
      modifies this`cards, this`bom
      ensures Model() == Materialise(old(Model()), co, Targets(existing, tasks, ids), tasks)
      ensures ok <==> AllKnown(catalog, tasks, |tasks|)
      ensures ok ==> IsLocalMap(localToCard, Targets(existing, tasks, ids), tasks, |tasks|)
    {
      hide Refreshed, FreshCard, Fill, Known, IsLocalMap, AllKnown, Reach, TaskGraph;
      ReachStart(catalog, tasks);
      ghost var cids := Targets(existing, tasks, ids);
      ghost var reach := Reach(catalog, tasks, 0);
      LocalMapStart(cids, tasks);
      localToCard := map[];
      ok := true;
      var i := 0;
      while i < |tasks| && ok
        invariant 0 <= i <= |tasks|
        invariant cards == PutTasks(co, old(cards), cids, tasks, i)
        invariant bom == FillTasks(catalog, old(bom), cids, tasks, i)
        invariant ok ==> AllKnown(catalog, tasks, i) && reach == Reach(catalog, tasks, i)
        invariant !ok ==> reach == i && !AllKnown(catalog, tasks, |tasks|)
        invariant IsLocalMap(localToCard, cids, tasks, i)
      {
        assert catalog == old(catalog);
        TargetUnused(old(Model()), co, existing, tasks, ids, i);
        var cid;
        ok, cid := PutCard(co, existing, tasks[i], ids[i]);
        LocalMapStep(localToCard, cids, tasks, i);
        ReachStep(catalog, tasks, i);
        localToCard := localToCard[tasks[i].localId := cid];
        i := i + 1;
      }
    }

    /** Pass 2: translate template-local dependencies to card dependencies. */
    method LinkCards(tasks: seq<Task>, localToCard: map<string, string>, ghost cids: seq<string>)
      requires |cids| == |tasks| && TaskGraph(tasks) && IsLocalMap(localToCard, cids, tasks, |tasks|)
      modifies this`deps
      ensures deps == old(deps) + Edges(cids, tasks, |tasks|)
    {
      hide Edges, EdgesOf;
      NoEdges(cids, tasks);
      for i := 0 to |tasks|
        invariant deps == old(deps) + Edges(cids, tasks, i)
      {
        LinkCard(tasks, localToCard, cids, i);
        EdgesStep(cids, tasks, i);
      }
    }

    method LinkCard(tasks: seq<Task>, localToCard: map<string, string>, ghost cids: seq<string>, i: int)
      requires 0 <= i < |tasks| == |cids| && TaskGraph(tasks) && IsLocalMap(localToCard, cids, tasks, |tasks|)
      modifies this`deps
      ensures deps == old(deps) + EdgesOf(cids, tasks, i, tasks[i].dependsOn)
    {
      hide EdgesOf, TaskGraph;
      var rest := tasks[i].dependsOn;
      ghost var seen: set<string> := {};
      NoEdgesOf(cids, tasks, i);
      while rest != {}
        invariant rest + seen == tasks[i].dependsOn
        invariant deps == old(deps) + EdgesOf(cids, tasks, i, seen)
      {
        var d :| d in rest;
        rest := rest - {d};
        SeeDependency(localToCard, cids, tasks, i, seen, d);
        seen := seen + {d};
        if d in localToCard {
          deps := deps + {(localToCard[tasks[i].localId], localToCard[d])};
        }
      }
      assert seen == tasks[i].dependsOn;
    }

    // ---- Instances --------------------------------------------------------------

    method InstantiateTemplate(tid: string, start: int, project: string, owner: string, iid: string, ids: seq<string>)
      returns (ok: bool)
      requires Valid() && (tid in templates ==> FreshIds(Model(), ids, |templates[tid].tasks|))
      modifies this
      ensures Valid() && Model() == Instantiate(old(Model()), tid, start, project, owner, iid, ids)
      ensures ok <==> tid in templates && AllKnown(catalog, templates[tid].tasks, |templates[tid].tasks|)
    {
      hide WellFormed, TaskGraph, IsLocalMap, PutTasks, FillTasks, AllKnown, Edges, Reach;
      if tid !in templates {
        return false;
      }
      TemplateRow(Model(), tid);
      InstantiateWellFormed(Model(), tid, start, project, owner, iid, ids);
      var t := templates[tid];
      var tag := Strip(if project != "" then project else t.project);
      instances := instances[iid :=
        Instance(tid, t.version, start, tag, Strip(if owner != "" then owner else t.owner), Active)];
      var localToCard;
      assert Targets(map[], t.tasks, ids) == ids;
      ok, localToCard := PutCards(Cohort(t.unit, start, tag, iid), map[], t.tasks, ids);
      if ok {
        LinkCards(t.tasks, localToCard, ids);
      }
    }

    method MoveCard(unit: DurationUnit, ghost oldStart: int, ghost newStart: int, mask: set<int>, card: Card,
                    delta: int)
      returns (moved: Card)
      requires mask == Resolve(unit, card.workDays)
      requires delta == Index(Effective(mask), newStart) - Index(Effective(mask), oldStart)
      ensures moved == Moved(unit, oldStart, newStart, card)
    {
      hide Shift, Index, Resolve, Effective, Restricted;
      var cardUnit := if Restricted(mask) then BusinessDays else unit;
      var cardMask := ResolveWorkweek(cardUnit, card.workDays);
      ResolveUnderCardUnit(unit, card.workDays);
      var s := AddDays(card.startDate, delta, cardMask);
      var e := AddDays(card.endDate, delta, cardMask);
      moved := card.(startDate := s, endDate := e);
    }

    /** Move the cohort; work days are counted once per distinct workweek. */
    method MoveCards(iid: string, unit: DurationUnit, oldStart: int, newStart: int)
      modifies this`cards
      ensures cards == MovedCards(old(cards), iid, unit, oldStart, newStart)
    {
      hide Shift, Index, Resolve, Effective, Moved, MovedSome, CountsKnown;
      var rest := set id | id in cards && cards[id].instance == Some(iid);
      ghost var attached := rest;
      ghost var before := cards;
      var cache: map<set<int>, int> := map[];
      MovedNone(cards, unit, oldStart, newStart);
      CountNone(oldStart, newStart);
      while rest != {}
        invariant rest <= attached
        invariant cards == MovedSome(before, attached - rest, unit, oldStart, newStart)
        invariant CountsKnown(cache, oldStart, newStart)
      {
        var id :| id in rest;
        MovedOneMore(before, attached - rest, id, unit, oldStart, newStart);
        var mask := ResolveWorkweek(unit, cards[id].workDays);
        if mask !in cache {
          var n := CountWorkDays(oldStart, newStart, mask);
          CountOneMore(cache, mask, n, oldStart, newStart);
          cache := cache[mask := n];
        }
        CountOf(cache, mask, oldStart, newStart);
        var moved := MoveCard(unit, oldStart, newStart, mask, cards[id], cache[mask]);
        cards := cards[id := moved];
        assert attached - (rest - {id}) == attached - rest + {id};
        rest := rest - {id};
      }
      MovedAll(before, iid, unit, oldStart, newStart);
      assert attached - rest == attached;
    }

    /** Shift every attached card by its own workweek's count between the anchors. */
    method RescheduleInstance(iid: string, newStart: int)
      requires Valid()
      modifies this`cards, this`instances
      ensures Valid() && Model() == Reschedule(old(Model()), iid, newStart)
    {
      hide Moved;
      if iid !in instances || instances[iid].templateId !in templates {
        return;
      }
      var inst := instances[iid];
      if newStart == inst.startDate {
        StandingStill(Model(), iid);
        return;
      }
      MoveCards(iid, templates[inst.templateId].unit, inst.startDate, newStart);
      instances := instances[iid := inst.(startDate := newStart)];
    }

    method IndexRows(rows: seq<string>) returns (byLocal: map<string, string>)
      requires forall i | 0 <= i < |rows| :: rows[i] in cards
      ensures byLocal == ByLocal(cards, rows, |rows|)
      ensures forall l | l in byLocal :: byLocal[l] in cards
    {
      byLocal := map[];
      for k := 0 to |rows|
        invariant byLocal == ByLocal(cards, rows, k)
        invariant forall l | l in byLocal :: byLocal[l] in cards
      {
        var l := cards[rows[k]].localId;
        if l.Some? && l.value != "" {
          byLocal := byLocal[l.value := rows[k]];
        }
      }
    }

    /** Re-apply the current template version; `rows` are the attached cards as read. */
    method UpgradeInstance(iid: string, rows: seq<string>, ids: seq<string>) returns (ok: bool)
      requires Valid()
      requires Outdated(Model(), iid) ==>
        Rows(Model(), iid, rows) && FreshIds(Model(), ids, |templates[instances[iid].templateId].tasks|)
      modifies this
      ensures Model() == Upgrade(old(Model()), iid, rows, ids) && Valid()
      ensures ok <==> Schedulable(old(Model()), iid)
                      && (Outdated(old(Model()), iid) ==> ResourcesKnown(old(Model()), iid))
      ensures ok ==> iid in instances && instances[iid].version >= templates[instances[iid].templateId].version
    {
      hide WellFormed, TaskGraph, IsLocalMap, PutTasks, FillTasks, AllKnown, ByLocal, Edges, Reach;
      if iid !in instances || instances[iid].templateId !in templates {
        return false;
      }
      var inst := instances[iid];
      var t := templates[inst.templateId];
      if inst.version >= t.version {
        return true;
      }
      TemplateRow(Model(), inst.templateId);
      ReapplyWellFormed(Model(), iid, rows, ids);
      var byLocal := IndexRows(rows);
      ghost var cids := Targets(byLocal, t.tasks, ids);
      var localToCard;
      ok, localToCard := PutCards(Cohort(t.unit, inst.startDate, inst.project, iid), byLocal, t.tasks, ids);
      if ok {
        LocalMapValues(localToCard, cids, t.tasks);
        deps := set e | e in deps && e.0 !in localToCard.Values;
        LinkCards(t.tasks, localToCard, cids);
        instances := instances[iid := inst.(version := t.version)];
      }
    }

    method DeleteInstance(iid: string)
      requires Valid()
      modifies this
      ensures Valid() && Model() == BoardModel.DeleteInstance(old(Model()), iid)
    {
      hide WellFormed, Attached;
      var gone := set id | id in cards && cards[id].instance == Some(iid);
      AttachedAre(Model(), iid);
      DropCardsWellFormed(Model(), gone);
      cards := map id | id in cards && id !in gone :: cards[id];
      deps := set e | e in deps && e.0 !in gone && e.1 !in gone;
      bom := map k | k in bom && k.0 !in gone :: bom[k];
      instances := instances - {iid};
    }

    /** `set_card_dependencies`; false when an unknown card stopped it. */
    method SetCardDependencies(cid: string, ds: seq<string>) returns (ok: bool)
      requires Valid() && cid in cards
      modifies this`deps
      ensures Model() == SetDependencies(old(Model()), cid, ds) && Valid()
      ensures ok <==> DependenciesKnown(cards.Keys, cid, ds)
    {
      hide WellFormed;
      SetRelationsWellFormed(Model(), cid, ds, []);
      deps := set e | e in deps && e.0 != cid;
      ghost var kept := deps;
      var i := 0;
      ok := true;
      while i < |ds| && ok
        invariant 0 <= i <= |ds|
        invariant ok ==> AddDependencies(deps, cards.Keys, cid, ds[i..]) == AddDependencies(kept, cards.Keys, cid, ds)
        invariant ok ==> forall j | 0 <= j < i :: ds[j] == cid || ds[j] in cards
        invariant !ok ==> deps == AddDependencies(kept, cards.Keys, cid, ds) && !DependenciesKnown(cards.Keys, cid, ds)
      {
        assert ds[i..][1..] == ds[i + 1..];
        if ds[i] != cid {
          ok := ds[i] in cards;
          if ok {
            deps := deps + {(cid, ds[i])};
          }
        }
        i := i + 1;
      }
    }

    /** `set_card_resources`; false when an unknown resource stopped it. */
    method SetCardResources(cid: string, es: seq<ResourceEntry>) returns (ok: bool)
      requires Valid() && cid in cards
      modifies this`bom
      ensures Model() == SetResources(old(Model()), cid, es) && Valid()
      ensures ok <==> EntriesKnown(catalog, es)
    {
      hide WellFormed;
      SetRelationsWellFormed(Model(), cid, [], es);
      bom := map k | k in bom && k.0 != cid :: bom[k];
      ghost var kept := bom;
      var i := 0;
      ok := true;
      while i < |es| && ok
        invariant 0 <= i <= |es|
        invariant ok ==> AddResources(bom, catalog, cid, es[i..]) == AddResources(kept, catalog, cid, es)
        invariant ok ==> forall j | 0 <= j < i && es[j].resource.Some? :: es[j].resource.value in catalog
        invariant !ok ==> bom == AddResources(kept, catalog, cid, es) && !EntriesKnown(catalog, es)
      {
        assert es[i..][1..] == es[i + 1..];
        if es[i].resource.Some? {
          ok := es[i].resource.value in catalog;
          if ok {
            bom := bom[(cid, es[i].resource.value) := EntryRow(es[i])];
          }
        }
        i := i + 1;
      }
    }

    /** `delete_lookahead_card`, with the rows that cascade. */
    method DeleteLookaheadCard(cid: string)
      requires Valid()
      modifies this
      ensures Valid() && Model() == DropCards(old(Model()), {cid})
    {
      hide DropCards, WellFormed;
      DropOne(Model(), cid);
      DropCardsWellFormed(Model(), {cid});
      cards := cards - {cid};
      deps := set e | e in deps && e.0 != cid && e.1 != cid;
      bom := map k | k in bom && k.0 != cid :: bom[k];
    }

    method DetachCard(cid: string)
      requires Valid()
      modifies this`cards
      ensures Valid() && Model() == Detach(old(Model()), cid)
    {
      if cid in cards {
        cards := cards[cid := cards[cid].(instance := None, localId := None)];
      }
    }

    method MaybeAutocompleteInstance(iid: string)
      requires Valid()
      modifies this`instances
      ensures Valid() && Model() == Autocomplete(old(Model()), iid)
    {
      if iid !in instances || instances[iid].status != Active {
        return;
      }
      var total, done := CountDone(set id | id in cards && cards[id].instance == Some(iid));
      if total != 0 && total == done {
        instances := instances[iid := instances[iid].(status := Complete)];
      }
    }

    method CountDone(ids: set<string>) returns (total: int, done: int)
      requires ids <= cards.Keys
      ensures total == 0 <==> ids == {}
      ensures total == done <==> forall id | id in ids :: cards[id].status == Done
    {
      total, done := 0, 0;
      var rest := ids;
      ghost var seen: set<string> := {};
      while rest != {}
        invariant rest + seen == ids
        invariant 0 <= done <= total && (total == 0 <==> seen == {})
        invariant done == total <==> forall id | id in seen :: cards[id].status == Done
      {
        var id :| id in rest;
        rest := rest - {id};
        seen := seen + {id};
        total := total + 1;
        if cards[id].status == Done {
          done := done + 1;
        }
      }
    }
  }

  // ---- The cohort moved one card at a time ----------------------------------------------

  ghost function MovedSome(cards: map<string, Card>, ids: set<string>, unit: DurationUnit, oldStart: int,
                           newStart: int): map<string, Card> {
    map id | id in cards :: if id in ids then Moved(unit, oldStart, newStart, cards[id]) else cards[id]
  }

  lemma MovedNone(cards: map<string, Card>, unit: DurationUnit, oldStart: int, newStart: int)
    ensures forall ids: set<string> :: MovedSome(cards, ids - ids, unit, oldStart, newStart) == cards
  {
    hide Moved;
  }

  lemma MovedOneMore(cards: map<string, Card>, ids: set<string>, id: string, unit: DurationUnit, oldStart: int,
                     newStart: int)
    requires id in cards && id !in ids
    ensures
      var some := MovedSome(cards, ids, unit, oldStart, newStart);
      && id in some && some[id] == cards[id]
      && MovedSome(cards, ids + {id}, unit, oldStart, newStart)
           == some[id := Moved(unit, oldStart, newStart, cards[id])]
  {
    hide Moved;
  }

  lemma MovedAll(cards: map<string, Card>, iid: string, unit: DurationUnit, oldStart: int, newStart: int)
    ensures
      var attached := (set id | id in cards && cards[id].instance == Some(iid));
      MovedSome(cards, attached, unit, oldStart, newStart) == MovedCards(cards, iid, unit, oldStart, newStart)
  {
    hide Moved;
  }

  /** The cache holds the count of each workweek it knows. */
  ghost predicate CountsKnown(cache: map<set<int>, int>, oldStart: int, newStart: int) {
    forall m | m in cache ::
      m <= WEEK && cache[m] == Index(Effective(m), newStart) - Index(Effective(m), oldStart)
  }

  lemma CountNone(oldStart: int, newStart: int)
    ensures CountsKnown(map[], oldStart, newStart)
  {
  }

  lemma CountOneMore(cache: map<set<int>, int>, mask: set<int>, n: int, oldStart: int, newStart: int)
    requires CountsKnown(cache, oldStart, newStart) && mask <= WEEK
    requires n == Index(Effective(mask), newStart) - Index(Effective(mask), oldStart)
    ensures CountsKnown(cache[mask := n], oldStart, newStart)
  {
    hide Index, Effective;
  }

  lemma CountOf(cache: map<set<int>, int>, mask: set<int>, oldStart: int, newStart: int)
    requires CountsKnown(cache, oldStart, newStart) && mask in cache
    ensures mask <= WEEK && cache[mask] == Index(Effective(mask), newStart) - Index(Effective(mask), oldStart)
  {
    hide Index, Effective;
  }

  lemma AttachedAre(b: Tables, iid: string)
    ensures Attached(b, iid) == set id | id in b.cards && b.cards[id].instance == Some(iid)
  {
  }

  lemma DropCardsWellFormed(b: Tables, gone: set<string>)
    requires WellFormed(b)
    ensures WellFormed(DropCards(b, gone))
    ensures forall instances :: WellFormed(DropCards(b, gone).(instances := instances))
  {
    hide TaskGraph;
  }

  lemma DropOne(b: Tables, cid: string)
    ensures DropCards(b, {cid}) == b.(
      cards := b.cards - {cid},
      deps := (set e | e in b.deps && e.0 != cid && e.1 != cid),
      bom := (map k | k in b.bom && k.0 != cid :: b.bom[k]))
  {
    var dropped := DropCards(b, {cid});
    assert dropped.cards == b.cards - {cid};
    assert dropped.deps == set e | e in b.deps && e.0 != cid && e.1 != cid;
    assert dropped.bom == map k | k in b.bom && k.0 != cid :: b.bom[k];
  }

  // ---- Facts about the pieces ---------------------------------------------------

  /** The rows written stand for the first i tasks of the request, no local id of which repeats. */
  ghost predicate WritesUpTo(done: seq<Task>, tasks: seq<TaskInput>, i: int)
    requires 0 <= i <= |tasks|
  {
    && (forall id :: HasLocal(done, id) <==> exists j | 0 <= j < i :: id != "" && Clean(tasks[j]).localId == id)
    && !Repeats(tasks[..i])
  }

  lemma NothingWritten(tasks: seq<TaskInput>)
    ensures WritesUpTo([], tasks, 0) && tasks[0..] == tasks
  {
  }

  lemma WritesOneMore(done: seq<Task>, tasks: seq<TaskInput>, i: int)
    requires 0 <= i < |tasks| && WritesUpTo(done, tasks, i)
    ensures
      var t := Clean(tasks[i]);
      && (t.localId == "" ==> WritesUpTo(done, tasks, i + 1))
      && (t.localId != "" && !HasLocal(done, t.localId) ==> WritesUpTo(done + [t], tasks, i + 1))
      && (t.localId != "" && HasLocal(done, t.localId) ==> Repeats(tasks))
  {
    hide Clean;
    var t := Clean(tasks[i]);
    if t.localId != "" && HasLocal(done, t.localId) {
      var j :| 0 <= j < i && Clean(tasks[j]).localId == t.localId;
      assert Repeats(tasks);
    } else {
      NoNewRepeat(tasks, i);
      if t.localId != "" {
        HasOneMore(done, t);
      }
    }
  }

  lemma HasOneMore(done: seq<Task>, t: Task)
    ensures forall id :: HasLocal(done + [t], id) <==> HasLocal(done, id) || id == t.localId
  {
    var more := done + [t];
    assert more[|done|] == t;
    forall id | HasLocal(done, id)
      ensures HasLocal(more, id)
    {
      var i :| 0 <= i < |done| && done[i].localId == id;
      assert more[i].localId == id;
    }
  }

  lemma NoNewRepeat(tasks: seq<TaskInput>, i: int)
    requires 0 <= i < |tasks| && !Repeats(tasks[..i])
    requires forall j | 0 <= j < i ::
      Clean(tasks[j]).localId == "" || Clean(tasks[j]).localId != Clean(tasks[i]).localId
    ensures !Repeats(tasks[..i + 1])
  {
    hide Clean;
    var (front, more) := (tasks[..i], tasks[..i + 1]);
    forall j, k | 0 <= j < k < i + 1
      ensures Clean(more[j]).localId == "" || Clean(more[j]).localId != Clean(more[k]).localId
    {
      assert k < i ==> front[j] == more[j] && front[k] == more[k];
    }
  }

  lemma WritesAll(done: seq<Task>, tasks: seq<TaskInput>)
    requires WritesUpTo(done, tasks, |tasks|)
    ensures !Repeats(tasks) && tasks[|tasks|..] == []
  {
    assert tasks[..|tasks|] == tasks;
  }

  lemma UpdateTemplateKeeps(b: Tables, tid: string, unit: Option<DurationUnit>, project: Option<string>,
                            owner: Option<string>, tasks: Option<seq<TaskInput>>)
    requires WellFormed(b)
    ensures WellFormed(UpdateTemplate(b, tid, unit, project, owner, tasks))
  {
    hide TaskGraph, Strip, Stored;
    if tasks.Some? {
      StoredIsTaskGraph(tasks.value);
    }
  }

  lemma EmptyTaskGraph()
    ensures TaskGraph([])
  {
  }

  /** A map from the local ids of the first k tasks to their cards. */
  ghost predicate IsLocalMap(m: map<string, string>, cids: seq<string>, tasks: seq<Task>, k: int)
    requires 0 <= k <= |tasks| == |cids|
  {
    && (forall i | 0 <= i < k :: tasks[i].localId in m && m[tasks[i].localId] == cids[i])
    && (forall l | l in m :: exists i | 0 <= i < k :: tasks[i].localId == l)
  }

  lemma LocalMapStart(cids: seq<string>, tasks: seq<Task>)
    requires |tasks| == |cids|
    ensures IsLocalMap(map[], cids, tasks, 0)
  {
  }

  lemma LocalMapStep(m: map<string, string>, cids: seq<string>, tasks: seq<Task>, i: int)
    requires 0 <= i < |tasks| == |cids| && TaskGraph(tasks) && IsLocalMap(m, cids, tasks, i)
    ensures IsLocalMap(m[tasks[i].localId := cids[i]], cids, tasks, i + 1)
  {
    var m' := m[tasks[i].localId := cids[i]];
    forall l | l in m'
      ensures exists j | 0 <= j < i + 1 :: tasks[j].localId == l
    {
      if l != tasks[i].localId {
        var j :| 0 <= j < i && tasks[j].localId == l;
      }
    }
  }

  lemma ReachStart(catalog: set<int>, tasks: seq<Task>)
    ensures AllKnown(catalog, tasks, 0)
  {
  }

  lemma ReachStep(catalog: set<int>, tasks: seq<Task>, i: int)
    requires 0 <= i < |tasks| && AllKnown(catalog, tasks, i)
    ensures Reach(catalog, tasks, |tasks|) == |tasks|
    ensures Known(catalog, tasks[i].requirements) ==>
      AllKnown(catalog, tasks, i + 1) && Reach(catalog, tasks, i) == Reach(catalog, tasks, i + 1)
    ensures !Known(catalog, tasks[i].requirements) ==>
      !AllKnown(catalog, tasks, |tasks|) && Reach(catalog, tasks, i) == i + 1
  {
  }

  /** No earlier task took the fresh id of task k, and none removed its existing card. */
  lemma TargetUnused(b: Tables, co: Cohort, existing: map<string, string>, tasks: seq<Task>, ids: seq<string>, k: int)
    requires FreshIds(b, ids, |tasks|) && 0 <= k < |tasks|
    requires forall l | l in existing :: existing[l] in b.cards
    ensures
      var cards := PutTasks(co, b.cards, Targets(existing, tasks, ids), tasks, k);
      if tasks[k].localId in existing then existing[tasks[k].localId] in cards else ids[k] !in cards
  {
    PutTasksKeys(co, b.cards, Targets(existing, tasks, ids), tasks, k);
  }

  ghost function EdgesOf(cids: seq<string>, tasks: seq<Task>, i: int, seen: set<string>): set<(string, string)>
    requires 0 <= i < |tasks| == |cids|
  {
    set j | 0 <= j < |tasks| && tasks[j].localId in seen :: (cids[i], cids[j])
  }

  lemma NoEdgesOf(cids: seq<string>, tasks: seq<Task>, i: int)
    requires 0 <= i < |tasks| == |cids|
    ensures EdgesOf(cids, tasks, i, {}) == {}
  {
  }

  /** One dependency adds the edge to its task's card, or nothing if no task has that id. */
  lemma SeeDependency(m: map<string, string>, cids: seq<string>, tasks: seq<Task>, i: int, seen: set<string>, d: string)
    requires 0 <= i < |tasks| == |cids| && TaskGraph(tasks) && IsLocalMap(m, cids, tasks, |tasks|)
    ensures EdgesOf(cids, tasks, i, seen + {d})
         == EdgesOf(cids, tasks, i, seen) + (if d in m then {(cids[i], m[d])} else {})
  {
    if d in m {
      var k :| 0 <= k < |tasks| && tasks[k].localId == d;
      assert (cids[i], cids[k]) in EdgesOf(cids, tasks, i, seen + {d});
    }
  }

  lemma NoEdges(cids: seq<string>, tasks: seq<Task>)
    requires |tasks| == |cids|
    ensures Edges(cids, tasks, 0) == {}
  {
  }

  lemma EdgesStep(cids: seq<string>, tasks: seq<Task>, i: int)
    requires 0 <= i < |tasks| == |cids|
    ensures Edges(cids, tasks, i + 1) == Edges(cids, tasks, i) + EdgesOf(cids, tasks, i, tasks[i].dependsOn)
  {
  }

  lemma LocalMapValues(m: map<string, string>, cids: seq<string>, tasks: seq<Task>)
    requires |tasks| == |cids| && IsLocalMap(m, cids, tasks, |tasks|)
    ensures forall c :: c in m.Values <==> c in cids
  {
    forall c | c in cids
      ensures c in m.Values
    {
      var i :| 0 <= i < |cids| && cids[i] == c;
      assert tasks[i].localId in m.Keys;
    }
  }
}
