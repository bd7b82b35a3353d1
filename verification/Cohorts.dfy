/**
 What materialising a template does to the cards of one instance: the promises of
 instantiation and of the opt-in upgrade (api/db.py:2660-2747, 2908-3039).
 */
module Cohorts {
  import opened Options
  import opened WorkCalendar
  import opened WorkdayMask
  import opened BoardModel

  ghost predicate Distinct(s: seq<string>) {
    forall i, j | 0 <= i < j < |s| :: s[i] != s[j]
  }

  /** Every attached card carries the local id of a task, and no two the same. */
  ghost predicate OneCardPerTask(b: Tables, iid: string) {
    && (forall x | x in Attached(b, iid) :: b.cards[x].localId.Some? && b.cards[x].localId.value != "")
    && (forall x, y | x in Attached(b, iid) && y in Attached(b, iid) && b.cards[x].localId == b.cards[y].localId
          :: x == y)
  }

  // ---- Cards -----------------------------------------------------------------

  ghost function PutOne(co: Cohort, cards: map<string, Card>, cid: string, t: Task): Card {
    if cid in cards then Refreshed(co, cards[cid], t) else FreshCard(co, t)
  }

  lemma CidsSnoc(cids: seq<string>, k: int)
    requires 0 < k <= |cids|
    ensures cids[..k] == cids[..k - 1] + [cids[k - 1]]
    ensures (set i | 0 <= i < k :: cids[i]) == (set i | 0 <= i < k - 1 :: cids[i]) + {cids[k - 1]}
  {
  }

  lemma {:induction false} PutTasksKeys(co: Cohort, cards: map<string, Card>, cids: seq<string>, tasks: seq<Task>,
                                        k: int)
    requires 0 <= k <= |tasks| == |cids|
    ensures PutTasks(co, cards, cids, tasks, k).Keys == cards.Keys + set i | 0 <= i < k :: cids[i]
  {
    hide Refreshed, FreshCard;
    if k > 0 {
      PutTasksKeys(co, cards, cids, tasks, k - 1);
      CidsSnoc(cids, k);
    }
  }

  /** Cards of no task so far are untouched. */
  lemma {:induction false} PutTasksOthers(co: Cohort, cards: map<string, Card>, cids: seq<string>, tasks: seq<Task>,
                                          k: int)
    requires 0 <= k <= |tasks| == |cids|
    ensures forall id | id in cards && id !in cids[..k] ::
      id in PutTasks(co, cards, cids, tasks, k) && PutTasks(co, cards, cids, tasks, k)[id] == cards[id]
  {
    hide Refreshed, FreshCard;
    if k > 0 {
      PutTasksOthers(co, cards, cids, tasks, k - 1);
      CidsSnoc(cids, k);
    }
  }

  /** The last card put is the one its task makes of what was there at the start. */
  lemma PutTasksLast(co: Cohort, cards: map<string, Card>, cids: seq<string>, tasks: seq<Task>, k: int)
    requires 0 < k <= |tasks| == |cids| && cids[k - 1] !in cids[..k - 1]
    ensures PutTasks(co, cards, cids, tasks, k)
         == PutTasks(co, cards, cids, tasks, k - 1)[cids[k - 1] := PutOne(co, cards, cids[k - 1], tasks[k - 1])]
  {
    hide Refreshed, FreshCard;
    PutTasksKeys(co, cards, cids, tasks, k - 1);
    PutTasksOthers(co, cards, cids, tasks, k - 1);
  }

  lemma {:induction false} PutTasksAt(co: Cohort, cards: map<string, Card>, cids: seq<string>, tasks: seq<Task>,
                                      k: int)
    requires 0 <= k <= |tasks| == |cids| && Distinct(cids)
    ensures
      var cards' := PutTasks(co, cards, cids, tasks, k);
      forall i | 0 <= i < k :: cids[i] in cards' && cards'[cids[i]] == PutOne(co, cards, cids[i], tasks[i])
  {
    hide PutTasks, PutOne;
    if k > 0 {
      PutTasksAt(co, cards, cids, tasks, k - 1);
      PutTasksLast(co, cards, cids, tasks, k);
    }
  }

  // ---- Resource rows -----------------------------------------------------------

  /** The row some requirement of the list asks for. */
  ghost predicate Required(rs: seq<Requirement>, resource: int, row: BomRow) {
    exists j :: 0 <= j < |rs| && Named(rs[j]) == Some(resource) && row == BomRow(rs[j].quantity, "needed")
  }

  /** The row some requirement of a task asks for on that task's card. */
  ghost predicate RequiredRow(cids: seq<string>, tasks: seq<Task>, k: int, key: (string, int), row: BomRow)
    requires 0 <= k <= |tasks| == |cids|
  {
    exists i :: 0 <= i < k && cids[i] == key.0 && Required(tasks[i].requirements, key.1, row)
  }

  lemma RequiredOfTail(rs: seq<Requirement>, resource: int, row: BomRow)
    requires rs != []
    ensures Required(rs[1..], resource, row) ==> Required(rs, resource, row)
  {
    if j :| 0 <= j < |rs[1..]| && Named(rs[1..][j]) == Some(resource) && row == BomRow(rs[1..][j].quantity, "needed") {
      assert rs[j + 1] == rs[1..][j];
    }
  }

  /** Rows are kept, and the rows added are required ones of resources that exist. */
  lemma {:induction false} FillFacts(catalog: set<int>, bom: map<(string, int), BomRow>, cid: string,
                                     rs: seq<Requirement>)
    ensures
      var bom' := Fill(catalog, bom, cid, rs);
      && (forall k | k in bom :: k in bom' && bom'[k] == bom[k])
      && (forall k | k in bom' && k !in bom :: k.0 == cid && k.1 in catalog && Required(rs, k.1, bom'[k]))
    decreases |rs|
  {
    hide Required;
    if rs != [] {
      var r := Named(rs[0]);
      if r == None {
        FillFacts(catalog, bom, cid, rs[1..]);
      } else if r.value in catalog {
        var key := (cid, r.value);
        var row := BomRow(rs[0].quantity, "needed");
        RequiredFirst(rs, r.value);
        FillFacts(catalog, if key in bom then bom else bom[key := row], cid, rs[1..]);
      }
      var bom' := Fill(catalog, bom, cid, rs);
      forall k | k in bom'
        ensures Required(rs[1..], k.1, bom'[k]) ==> Required(rs, k.1, bom'[k])
      {
        RequiredOfTail(rs, k.1, bom'[k]);
      }
    }
  }

  lemma RequiredFirst(rs: seq<Requirement>, resource: int)
    requires rs != [] && Named(rs[0]) == Some(resource)
    ensures Required(rs, resource, BomRow(rs[0].quantity, "needed"))
  {
  }

  /** With every resource known, every named requirement gets its row. */
  lemma {:induction false} FillCovers(catalog: set<int>, bom: map<(string, int), BomRow>, cid: string,
                                      rs: seq<Requirement>)
    requires Known(catalog, rs)
    ensures forall i | 0 <= i < |rs| && Named(rs[i]).Some? ::
      (cid, Named(rs[i]).value) in Fill(catalog, bom, cid, rs)
    decreases |rs|
  {
    if rs != [] {
      var r := Named(rs[0]);
      var key := (cid, if r.Some? then r.value else 0);
      var bom1 := if r.None? || key in bom then bom else bom[key := BomRow(rs[0].quantity, "needed")];
      FillCovers(catalog, bom1, cid, rs[1..]);
      FillFacts(catalog, bom1, cid, rs[1..]);
      forall i | 0 < i < |rs| && Named(rs[i]).Some?
        ensures (cid, Named(rs[i]).value) in Fill(catalog, bom, cid, rs)
      {
        assert rs[1..][i - 1] == rs[i];
      }
    }
  }

  lemma {:induction false} FillTasksFacts(catalog: set<int>, bom: map<(string, int), BomRow>, cids: seq<string>,
                                          tasks: seq<Task>, k: int)
    requires 0 <= k <= |tasks| == |cids|
    ensures
      var bom' := FillTasks(catalog, bom, cids, tasks, k);
      && (forall x | x in bom :: x in bom' && bom'[x] == bom[x])
      && (forall x | x in bom' && x !in bom ::
            x.0 in cids[..k] && x.1 in catalog && RequiredRow(cids, tasks, k, x, bom'[x]))
  {
    hide Fill, Required;
    if k > 0 {
      var before := FillTasks(catalog, bom, cids, tasks, k - 1);
      FillTasksFacts(catalog, bom, cids, tasks, k - 1);
      FillFacts(catalog, before, cids[k - 1], tasks[k - 1].requirements);
      assert cids[..k] == cids[..k - 1] + [cids[k - 1]];
    }
  }

  lemma {:induction false} FillTasksCovers(catalog: set<int>, bom: map<(string, int), BomRow>, cids: seq<string>,
                                           tasks: seq<Task>, k: int)
    requires 0 <= k <= |tasks| == |cids| && AllKnown(catalog, tasks, k)
    ensures forall i, j | 0 <= i < k && 0 <= j < |tasks[i].requirements| && Named(tasks[i].requirements[j]).Some? ::
      (cids[i], Named(tasks[i].requirements[j]).value) in FillTasks(catalog, bom, cids, tasks, k)
  {
    hide Fill, Known;
    if k > 0 {
      FillTasksCovers(catalog, bom, cids, tasks, k - 1);
      var before := FillTasks(catalog, bom, cids, tasks, k - 1);
      FillFacts(catalog, before, cids[k - 1], tasks[k - 1].requirements);
      FillCovers(catalog, before, cids[k - 1], tasks[k - 1].requirements);
    }
  }

  lemma {:induction false} FillAgain(catalog: set<int>, bom: map<(string, int), BomRow>, cid: string,
                                     rs: seq<Requirement>)
    requires forall i | 0 <= i < |rs| && Named(rs[i]).Some? :: (cid, Named(rs[i]).value) in bom
    ensures Fill(catalog, bom, cid, rs) == bom
    decreases |rs|
  {
    if rs != [] {
      assert forall i | 0 <= i < |rs[1..]| :: rs[1..][i] == rs[i + 1];
      FillAgain(catalog, bom, cid, rs[1..]);
    }
  }

  lemma {:induction false} FillTasksAgain(catalog: set<int>, bom: map<(string, int), BomRow>, cids: seq<string>,
                                          tasks: seq<Task>, k: int)
    requires 0 <= k <= |tasks| == |cids|
    requires forall i, j | 0 <= i < k && 0 <= j < |tasks[i].requirements| && Named(tasks[i].requirements[j]).Some? ::
        (cids[i], Named(tasks[i].requirements[j]).value) in bom
    ensures FillTasks(catalog, bom, cids, tasks, k) == bom
  {
    if k > 0 {
      FillTasksAgain(catalog, bom, cids, tasks, k - 1);
      FillAgain(catalog, bom, cids[k - 1], tasks[k - 1].requirements);
    }
  }

  // ---- Which card a task maps to ---------------------------------------------------

  lemma {:induction false} ByLocalFacts(cards: map<string, Card>, rows: seq<string>, k: int)
    requires 0 <= k <= |rows| && forall i | 0 <= i < |rows| :: rows[i] in cards
    ensures forall l | l in ByLocal(cards, rows, k) ::
      ByLocal(cards, rows, k)[l] in rows[..k] && cards[ByLocal(cards, rows, k)[l]].localId == Some(l) && l != ""
    ensures forall i | 0 <= i < k && cards[rows[i]].localId.Some? && cards[rows[i]].localId.value != "" ::
      cards[rows[i]].localId.value in ByLocal(cards, rows, k)
  {
    if k > 0 {
      ByLocalFacts(cards, rows, k - 1);
      assert rows[..k] == rows[..k - 1] + [rows[k - 1]];
    }
  }

  ghost function TemplateOf(b: Tables, iid: string): Template
    requires Schedulable(b, iid)
  {
    b.templates[b.instances[iid].templateId]
  }

  /** The card of each task of the current template, old or new. */
  ghost function CardsOfTasks(b: Tables, iid: string, rows: seq<string>, ids: seq<string>): (cids: seq<string>)
    requires Schedulable(b, iid) && Rows(b, iid, rows) && |ids| == |TemplateOf(b, iid).tasks|
    ensures |cids| == |ids|
  {
    Targets(ByLocal(b.cards, rows, |rows|), TemplateOf(b, iid).tasks, ids)
  }

  /** An instance whose tables are in order, with a supply of fresh ids. */
  ghost predicate Ready(b: Tables, iid: string, rows: seq<string>, ids: seq<string>) {
    && WellFormed(b) && Schedulable(b, iid) && Rows(b, iid, rows)
    && FreshIds(b, ids, |TemplateOf(b, iid).tasks|)
    && OneCardPerTask(b, iid)
  }

  ghost predicate ResourcesKnown(b: Tables, iid: string)
    requires Schedulable(b, iid)
  {
    AllKnown(b.catalog, TemplateOf(b, iid).tasks, |TemplateOf(b, iid).tasks|)
  }

  /** A task maps to its one attached card, or to a card that did not exist. */
  lemma CardsOfTasksFacts(b: Tables, iid: string, rows: seq<string>, ids: seq<string>)
    requires Ready(b, iid, rows, ids)
    ensures
      var cids := CardsOfTasks(b, iid, rows, ids);
      var tasks := TemplateOf(b, iid).tasks;
      && Distinct(cids)
      && (forall i | 0 <= i < |tasks| && cids[i] in b.cards ::
            cids[i] in Attached(b, iid) && b.cards[cids[i]].localId == Some(tasks[i].localId))
      && (forall i, x | 0 <= i < |tasks| && x in Attached(b, iid) && b.cards[x].localId == Some(tasks[i].localId)
            :: cids[i] == x)
      && (forall i | 0 <= i < |tasks| && cids[i] !in b.cards :: cids[i] == ids[i])
  {
    var cids := CardsOfTasks(b, iid, rows, ids);
    var tasks := TemplateOf(b, iid).tasks;
    var existing := ByLocal(b.cards, rows, |rows|);
    ByLocalFacts(b.cards, rows, |rows|);
    assert rows[..|rows|] == rows;
    forall i, x | 0 <= i < |tasks| && x in Attached(b, iid) && b.cards[x].localId == Some(tasks[i].localId)
      ensures cids[i] == x
    {
      var r :| 0 <= r < |rows| && rows[r] == x;
      assert tasks[i].localId in existing;
    }
  }

  // ---- Instantiation -------------------------------------------------------------

  lemma FreshCardIdentity(co: Cohort, t: Task)
    ensures FreshCard(co, t).instance == Some(co.iid) && FreshCard(co, t).localId == Some(t.localId)
  {
  }

  /** Instantiating adds one fresh card per task and changes no existing one. */
  lemma InstantiateCards(b: Tables, tid: string, s: int, project: string, owner: string, iid: string, ids: seq<string>)
    requires tid in b.templates && FreshIds(b, ids, |b.templates[tid].tasks|)
    ensures
      var b' := Instantiate(b, tid, s, project, owner, iid, ids);
      var t := b.templates[tid];
      var m := Reach(b.catalog, t.tasks, 0);
      && b'.cards.Keys == b.cards.Keys + (set i | 0 <= i < m :: ids[i])
      && (forall i | 0 <= i < m :: b'.cards[ids[i]] == FreshCard(CohortOf(b, tid, s, project, iid), t.tasks[i]))
      && (forall x | x in b.cards :: b'.cards[x] == b.cards[x])
  {
    hide FreshCard, Refreshed, Strip, FillTasks, Edges, AllKnown, PutTasks;
    var tasks := b.templates[tid].tasks;
    var m := Reach(b.catalog, tasks, 0);
    PutTasksKeys(CohortOf(b, tid, s, project, iid), b.cards, ids, tasks, m);
    PutTasksAt(CohortOf(b, tid, s, project, iid), b.cards, ids, tasks, m);
    PutTasksOthers(CohortOf(b, tid, s, project, iid), b.cards, ids, tasks, m);
  }

  // ---- Keys and foreign keys survive ------------------------------------------------

  lemma MaterialisedWellFormed(b: Tables, co: Cohort, cids: seq<string>, tasks: seq<Task>)
    requires WellFormed(b) && |cids| == |tasks|
    ensures
      var b' := Materialise(b, co, cids, tasks);
      var m := Reach(b.catalog, tasks, 0);
      && WellFormed(b')
      && b'.cards.Keys == b.cards.Keys + (set i | 0 <= i < m :: cids[i])
  {
    hide TaskGraph, Refreshed, FreshCard, FillTasks, PutTasks;
    var m := Reach(b.catalog, tasks, 0);
    PutTasksKeys(co, b.cards, cids, tasks, m);
    FillTasksFacts(b.catalog, b.bom, cids, tasks, m);
  }

  lemma InstantiateWellFormed(b: Tables, tid: string, start: int, project: string, owner: string, iid: string,
                              ids: seq<string>)
    requires WellFormed(b) && (tid in b.templates ==> |ids| == |b.templates[tid].tasks|)
    ensures WellFormed(Instantiate(b, tid, start, project, owner, iid, ids))
  {
    hide TaskGraph, Strip;
    if tid in b.templates {
      var b' := Instantiate(b, tid, start, project, owner, iid, ids);
      var b1 := b.(instances := b'.instances);
      assert WellFormed(b1);
      MaterialisedWellFormed(b1, CohortOf(b, tid, start, project, iid), ids, b.templates[tid].tasks);
    }
  }

  lemma ReapplyWellFormed(b: Tables, iid: string, rows: seq<string>, ids: seq<string>)
    requires WellFormed(b) && Schedulable(b, iid) && Rows(b, iid, rows) && |ids| == |TemplateOf(b, iid).tasks|
    ensures WellFormed(Reapply(b, iid, rows, ids))
  {
    hide TaskGraph, ByLocal;
    var t := TemplateOf(b, iid);
    var co := Cohort(t.unit, b.instances[iid].startDate, b.instances[iid].project, iid);
    MaterialisedWellFormed(b, co, CardsOfTasks(b, iid, rows, ids), t.tasks);
  }

  // ---- The upgrade ---------------------------------------------------------------

  /** A card shows the template's view of a task at an anchor date. */
  ghost predicate Shows(card: Card, unit: DurationUnit, start: int, t: Task) {
    && card.title == t.title
    && Placement(card.startDate, card.startShift, card.endDate, card.endShift) == Place(unit, start, t)
    && card.workDays == Strip(t.workDays)
    && card.procedure == t.procedure
  }

  /** What the user owns on a card. */
  ghost predicate SameUserFields(a: Card, b: Card) {
    && a.assignee == b.assignee && a.status == b.status && a.notes == b.notes && a.project == b.project
    && a.instance == b.instance && a.localId == b.localId
  }

  /** The tasks an upgrade gets to: all, unless a resource is unknown. */
  ghost function Reached(b: Tables, iid: string): (m: int)
    requires Schedulable(b, iid)
    ensures 0 <= m <= |TemplateOf(b, iid).tasks|
    ensures ResourcesKnown(b, iid) ==> m == |TemplateOf(b, iid).tasks|
  {
    Reach(b.catalog, TemplateOf(b, iid).tasks, 0)
  }

  /** The cards of a re-application are the ones materialising leaves. */
  lemma ReapplyPuts(b: Tables, iid: string, rows: seq<string>, ids: seq<string>)
    requires Ready(b, iid, rows, ids)
    ensures
      var t := TemplateOf(b, iid);
      var cids := CardsOfTasks(b, iid, rows, ids);
      var m := Reached(b, iid);
      var co := Cohort(t.unit, b.instances[iid].startDate, b.instances[iid].project, iid);
      var cards' := Reapply(b, iid, rows, ids).cards;
      && cards'.Keys == b.cards.Keys + (set i | 0 <= i < m :: cids[i])
      && (forall i | 0 <= i < m :: cards'[cids[i]] == PutOne(co, b.cards, cids[i], t.tasks[i]))
      && (forall x | x in b.cards && x !in cids[..m] :: cards'[x] == b.cards[x])
  {
    hide PutOne, TaskGraph, Rows, OneCardPerTask, FillTasks, Edges, PutTasks, WellFormed, ByLocal, AllKnown;
    var t := TemplateOf(b, iid);
    var cids := CardsOfTasks(b, iid, rows, ids);
    var m := Reached(b, iid);
    var co := Cohort(t.unit, b.instances[iid].startDate, b.instances[iid].project, iid);
    CardsOfTasksFacts(b, iid, rows, ids);
    PutTasksKeys(co, b.cards, cids, t.tasks, m);
    PutTasksAt(co, b.cards, cids, t.tasks, m);
    PutTasksOthers(co, b.cards, cids, t.tasks, m);
  }

  /** A card put for a task shows it; one that was there keeps the user's fields. */
  lemma PutOneFacts(co: Cohort, cards: map<string, Card>, cid: string, t: Task)
    ensures
      var card := PutOne(co, cards, cid, t);
      && Shows(card, co.unit, co.start, t)
      && (cid in cards ==> SameUserFields(cards[cid], card))
      && (cid !in cards ==> card.instance == Some(co.iid) && card.localId == Some(t.localId))
  {
    hide Place, Strip;
  }

  /** Every card reached shows its task; every other card is the row it was. */
  lemma ReapplyCards(b: Tables, iid: string, rows: seq<string>, ids: seq<string>)
    requires Ready(b, iid, rows, ids)
    ensures
      var b' := Reapply(b, iid, rows, ids);
      var t := TemplateOf(b, iid);
      var cids := CardsOfTasks(b, iid, rows, ids);
      var m := Reached(b, iid);
      && b'.cards.Keys == b.cards.Keys + (set i | 0 <= i < m :: cids[i])
      && (forall i | 0 <= i < m :: Shows(b'.cards[cids[i]], t.unit, b.instances[iid].startDate, t.tasks[i]))
      && (forall i | 0 <= i < m ::
            b'.cards[cids[i]].instance == Some(iid) && b'.cards[cids[i]].localId == Some(t.tasks[i].localId))
      && (forall x | x in b.cards :: SameUserFields(b.cards[x], b'.cards[x]))
      && (forall x | x in b.cards && x !in cids[..m] :: b'.cards[x] == b.cards[x])
  {
    hide PutOne, Reapply, CardsOfTasks, Rows, OneCardPerTask, WellFormed, TaskGraph, Shows;
    var b' := Reapply(b, iid, rows, ids);
    var t := TemplateOf(b, iid);
    var cids := CardsOfTasks(b, iid, rows, ids);
    var m := Reached(b, iid);
    var co := Cohort(t.unit, b.instances[iid].startDate, b.instances[iid].project, iid);
    CardsOfTasksFacts(b, iid, rows, ids);
    ReapplyPuts(b, iid, rows, ids);
    forall i | 0 <= i < m
      ensures Shows(b'.cards[cids[i]], t.unit, b.instances[iid].startDate, t.tasks[i])
      ensures b'.cards[cids[i]].instance == Some(iid) && b'.cards[cids[i]].localId == Some(t.tasks[i].localId)
      ensures cids[i] in b.cards ==> SameUserFields(b.cards[cids[i]], b'.cards[cids[i]])
    {
      PutOneFacts(co, b.cards, cids[i], t.tasks[i]);
    }
    forall x | x in b.cards
      ensures SameUserFields(b.cards[x], b'.cards[x])
    {
      if x in cids[..m] {
        var i :| 0 <= i < m && cids[i] == x;
      }
    }
  }

  /** An attached card carrying a reached task's local id is that task's card. */
  lemma CardOfTask(b: Tables, iid: string, rows: seq<string>, ids: seq<string>, x: string, i: int)
    requires Ready(b, iid, rows, ids) && 0 <= i < Reached(b, iid)
    requires x in Attached(Reapply(b, iid, rows, ids), iid)
    requires Reapply(b, iid, rows, ids).cards[x].localId == Some(TemplateOf(b, iid).tasks[i].localId)
    ensures x == CardsOfTasks(b, iid, rows, ids)[i]
  {
    hide Shows, PutTasks, FillTasks, Edges, Reapply, CardsOfTasks, ByLocal, Reached;
    ReapplyCards(b, iid, rows, ids);
    CardsOfTasksFacts(b, iid, rows, ids);
    if x !in b.cards {
      var tasks := TemplateOf(b, iid).tasks;
      var k :| 0 <= k < Reached(b, iid) && x == CardsOfTasks(b, iid, rows, ids)[k];
      assert tasks[k].localId == tasks[i].localId;
    }
  }

  /** Attached cards were attached before with the same local id, or are reached tasks' cards. */
  lemma OwnersKept(b: Tables, iid: string, rows: seq<string>, ids: seq<string>)
    requires Ready(b, iid, rows, ids)
    ensures
      var b' := Reapply(b, iid, rows, ids);
      && (forall x | x in Attached(b', iid) && x in b.cards ::
            x in Attached(b, iid) && b'.cards[x].localId == b.cards[x].localId)
      && (forall x | x in Attached(b', iid) :: b'.cards[x].localId.Some? && b'.cards[x].localId.value != "")
      && (forall x | x in Attached(b', iid) && x !in b.cards ::
            exists i :: 0 <= i < Reached(b, iid) && b'.cards[x].localId == Some(TemplateOf(b, iid).tasks[i].localId))
  {
    hide Shows, PutTasks, FillTasks, Edges, Rows, FreshIds, Reapply, CardsOfTasks, ByLocal, Reached;
    ReapplyCards(b, iid, rows, ids);
  }

  /** Re-applying a template never gives two attached cards one local id. */
  lemma ReapplyKeepsOneCardPerTask(b: Tables, iid: string, rows: seq<string>, ids: seq<string>)
    requires Ready(b, iid, rows, ids)
    ensures OneCardPerTask(Reapply(b, iid, rows, ids), iid)
  {
    hide Shows, PutTasks, FillTasks, Edges, TaskGraph, Rows, ByLocal, SameUserFields;
    OwnersKept(b, iid, rows, ids);
    var b' := Reapply(b, iid, rows, ids);
    var cids := CardsOfTasks(b, iid, rows, ids);
    var tasks := TemplateOf(b, iid).tasks;
    forall x, y | x in Attached(b', iid) && y in Attached(b', iid) && b'.cards[x].localId == b'.cards[y].localId
      ensures x == y
    {
      if i :| 0 <= i < Reached(b, iid) && b'.cards[x].localId == Some(tasks[i].localId) {
        CardOfTask(b, iid, rows, ids, x, i);
        CardOfTask(b, iid, rows, ids, y, i);
      } else {
        assert x in Attached(b, iid) && y in Attached(b, iid);
      }
    }
  }

  /**
   After an upgrade every task of the current template has exactly one attached
   card.  It shows what a fresh instantiation at the stored start date computes,
   and keeps what the user wrote if it existed before.
   */
  lemma UpgradeGivesEachTaskItsCard(b: Tables, iid: string, rows: seq<string>, ids: seq<string>, i: int)
    requires Ready(b, iid, rows, ids) && Outdated(b, iid) && ResourcesKnown(b, iid)
    requires 0 <= i < |TemplateOf(b, iid).tasks|
    ensures
      var b' := Upgrade(b, iid, rows, ids);
      var t := TemplateOf(b, iid);
      exists x ::
        && x in Attached(b', iid) && b'.cards[x].localId == Some(t.tasks[i].localId)
        && (forall y | y in Attached(b', iid) && b'.cards[y].localId == Some(t.tasks[i].localId) :: y == x)
        && Shows(b'.cards[x], t.unit, b.instances[iid].startDate, t.tasks[i])
        && (x in b.cards ==> SameUserFields(b.cards[x], b'.cards[x]))
  {
    var b' := Upgrade(b, iid, rows, ids);
    var x := CardsOfTasks(b, iid, rows, ids)[i];
    ReapplyCards(b, iid, rows, ids);
    forall y | y in Attached(b', iid) && b'.cards[y].localId == Some(TemplateOf(b, iid).tasks[i].localId)
      ensures y == x
    {
      CardOfTask(b, iid, rows, ids, y, i);
    }
  }

  /**
   The out-edges of the upgraded cards are exactly the image of the template's
   dependency graph; all other edges are the ones there were.
   */
  lemma UpgradeRebuildsEdges(b: Tables, iid: string, rows: seq<string>, ids: seq<string>)
    requires Ready(b, iid, rows, ids) && Outdated(b, iid) && ResourcesKnown(b, iid)
    ensures
      var b' := Upgrade(b, iid, rows, ids);
      var tasks := TemplateOf(b, iid).tasks;
      var cids := CardsOfTasks(b, iid, rows, ids);
      && (forall i, j | 0 <= i < |tasks| && 0 <= j < |tasks| ::
            (cids[i], cids[j]) in b'.deps <==> tasks[j].localId in tasks[i].dependsOn)
      && (forall i, y | 0 <= i < |tasks| && (cids[i], y) in b'.deps :: y in cids)
      && (forall x, y | x !in cids :: (x, y) in b'.deps <==> (x, y) in b.deps)
  {
    hide PutTasks, FillTasks, AllKnown, Rows, ByLocal, Distinct, Edges, OneCardPerTask, WellFormed;
    var tasks := TemplateOf(b, iid).tasks;
    var cids := CardsOfTasks(b, iid, rows, ids);
    CardsOfTasksFacts(b, iid, rows, ids);
    EdgesAreImage(cids, tasks);
  }

  lemma EdgesAreImage(cids: seq<string>, tasks: seq<Task>)
    requires |cids| == |tasks| && Distinct(cids)
    ensures forall i, j | 0 <= i < |tasks| && 0 <= j < |tasks| ::
      (cids[i], cids[j]) in Edges(cids, tasks, |tasks|) <==> tasks[j].localId in tasks[i].dependsOn
    ensures forall e | e in Edges(cids, tasks, |tasks|) :: e.0 in cids && e.1 in cids
  {
  }

  /**
   An upgrade touches no other card: orphans of dropped tasks, detached cards and
   other instances' cards stay the rows they were.
   */
  lemma UpgradeLeavesOtherCards(b: Tables, iid: string, rows: seq<string>, ids: seq<string>)
    requires Ready(b, iid, rows, ids) && Outdated(b, iid)
    ensures
      var b' := Upgrade(b, iid, rows, ids);
      var cids := CardsOfTasks(b, iid, rows, ids);
      && b'.templates == b.templates && b'.catalog == b.catalog
      && b'.instances == b.instances[iid := b'.instances[iid]]
      && (forall x | x in b.cards && x !in cids :: x in b'.cards && b'.cards[x] == b.cards[x])
      && (forall x | x in b.cards && x !in Attached(b, iid) :: x !in cids)
  {
    hide Shows, PutTasks, Edges, Rows, Distinct, TaskGraph, OneCardPerTask, SameUserFields, WellFormed, ByLocal;
    hide FillTasks;
    CardsOfTasksFacts(b, iid, rows, ids);
    ReapplyCards(b, iid, rows, ids);
  }

  /**
   Existing resource rows survive whatever their state.  Every row added is one that
   a requirement of the card's task asks for, in its quantity; and every named
   requirement has its row, unless a resource is unknown.
   */
  lemma UpgradeAddsRequiredResources(b: Tables, iid: string, rows: seq<string>, ids: seq<string>)
    requires Ready(b, iid, rows, ids) && Outdated(b, iid)
    ensures
      var b' := Upgrade(b, iid, rows, ids);
      var tasks := TemplateOf(b, iid).tasks;
      var cids := CardsOfTasks(b, iid, rows, ids);
      && (forall k | k in b.bom :: k in b'.bom && b'.bom[k] == b.bom[k])
      && (forall k | k in b'.bom && k !in b.bom ::
            k.0 in cids && RequiredRow(cids, tasks, Reached(b, iid), k, b'.bom[k]))
      && (ResourcesKnown(b, iid) ==>
            forall i, j | 0 <= i < |tasks| && 0 <= j < |tasks[i].requirements|
                          && Named(tasks[i].requirements[j]).Some? ::
              (cids[i], Named(tasks[i].requirements[j]).value) in b'.bom)
  {
    hide PutTasks, Edges, Rows, TaskGraph, OneCardPerTask, WellFormed, ByLocal, FillTasks, RequiredRow, AllKnown;
    var cids := CardsOfTasks(b, iid, rows, ids);
    FillTasksFacts(b.catalog, b.bom, cids, TemplateOf(b, iid).tasks, Reached(b, iid));
    if ResourcesKnown(b, iid) {
      FillTasksCovers(b.catalog, b.bom, cids, TemplateOf(b, iid).tasks, Reached(b, iid));
    }
  }

  /** Re-applying the same template again, version or not, changes nothing. */
  lemma ReapplyIdempotent(b: Tables, iid: string, rows: seq<string>, ids: seq<string>,
                          rows': seq<string>, ids': seq<string>)
    requires Ready(b, iid, rows, ids) && ResourcesKnown(b, iid)
    requires
      var b' := Reapply(b, iid, rows, ids);
      Rows(b', iid, rows') && FreshIds(b', ids', |TemplateOf(b, iid).tasks|)
    ensures
      var b' := Reapply(b, iid, rows, ids);
      Reapply(b', iid, rows', ids') == b'
  {
    hide Reapply, Rows, TaskGraph, OneCardPerTask, WellFormed;
    ReapplyKeepsTemplate(b, iid, rows, ids);
    ReapplyWellFormed(b, iid, rows, ids);
    ReapplyKeepsOneCardPerTask(b, iid, rows, ids);
    ReapplySameCards(b, iid, rows, ids, rows', ids');
    ReapplySameResources(b, iid, rows, ids, rows', ids');
    ReapplySameRest(b, iid, rows, ids, rows', ids');
  }

  lemma ReapplySameRest(b: Tables, iid: string, rows: seq<string>, ids: seq<string>,
                        rows': seq<string>, ids': seq<string>)
    requires Ready(b, iid, rows, ids) && ResourcesKnown(b, iid)
    requires Ready(Reapply(b, iid, rows, ids), iid, rows', ids')
    ensures
      var b' := Reapply(b, iid, rows, ids);
      var b'' := Reapply(b', iid, rows', ids');
      b'' == b'.(cards := b''.cards, bom := b''.bom)
  {
    hide PutTasks, FillTasks, Edges, Rows, TaskGraph, ByLocal, OneCardPerTask, WellFormed;
    var b' := Reapply(b, iid, rows, ids);
    var b'' := Reapply(b', iid, rows', ids');
    ReapplySameTargets(b, iid, rows, ids, rows', ids');
    assert b''.deps == b'.deps;
    assert b''.instances == b'.instances;
  }

  lemma ReapplySameResources(b: Tables, iid: string, rows: seq<string>, ids: seq<string>,
                             rows': seq<string>, ids': seq<string>)
    requires Ready(b, iid, rows, ids) && ResourcesKnown(b, iid)
    requires Ready(Reapply(b, iid, rows, ids), iid, rows', ids')
    ensures Reapply(Reapply(b, iid, rows, ids), iid, rows', ids').bom == Reapply(b, iid, rows, ids).bom
  {
    hide PutTasks, FillTasks, Edges, Rows, TaskGraph, ByLocal, OneCardPerTask, WellFormed;
    var b' := Reapply(b, iid, rows, ids);
    var t := TemplateOf(b, iid);
    var cids := CardsOfTasks(b, iid, rows, ids);
    ReapplySameTargets(b, iid, rows, ids, rows', ids');
    FillTasksCovers(b.catalog, b.bom, cids, t.tasks, |t.tasks|);
    FillTasksAgain(b.catalog, b'.bom, cids, t.tasks, |t.tasks|);
  }

  lemma ReapplySameTargets(b: Tables, iid: string, rows: seq<string>, ids: seq<string>,
                           rows': seq<string>, ids': seq<string>)
    requires Ready(b, iid, rows, ids) && ResourcesKnown(b, iid)
    requires Ready(Reapply(b, iid, rows, ids), iid, rows', ids')
    ensures CardsOfTasks(Reapply(b, iid, rows, ids), iid, rows', ids') == CardsOfTasks(b, iid, rows, ids)
  {
    hide Shows, PutTasks, FillTasks, Edges, ByLocal, TaskGraph, OneCardPerTask, WellFormed, Distinct, SameUserFields;
    var b' := Reapply(b, iid, rows, ids);
    var cids, cids' := CardsOfTasks(b, iid, rows, ids), CardsOfTasks(b', iid, rows', ids');
    ReapplyCards(b, iid, rows, ids);
    CardsOfTasksFacts(b', iid, rows', ids');
    forall i | 0 <= i < |cids|
      ensures cids'[i] == cids[i]
    {
      assert cids[i] in Attached(b', iid);
    }
  }

  lemma ReapplySameCards(b: Tables, iid: string, rows: seq<string>, ids: seq<string>,
                         rows': seq<string>, ids': seq<string>)
    requires Ready(b, iid, rows, ids) && ResourcesKnown(b, iid)
    requires Ready(Reapply(b, iid, rows, ids), iid, rows', ids')
    ensures Reapply(Reapply(b, iid, rows, ids), iid, rows', ids').cards == Reapply(b, iid, rows, ids).cards
  {
    hide Place, Strip, Reapply, Rows, TaskGraph, ByLocal, OneCardPerTask, WellFormed, CardsOfTasks;
    ReapplyKeepsTemplate(b, iid, rows, ids);
    var b' := Reapply(b, iid, rows, ids);
    var b'' := Reapply(b', iid, rows', ids');
    ReapplySameTargets(b, iid, rows, ids, rows', ids');
    ReapplyCards(b, iid, rows, ids);
    ReapplyCards(b', iid, rows', ids');
    var cids := CardsOfTasks(b, iid, rows, ids);
    forall x | x in b''.cards
      ensures x in b'.cards && b''.cards[x] == b'.cards[x]
    {
      if x in cids {
        var i :| 0 <= i < |cids| && cids[i] == x;
      }
    }
  }

  lemma ReapplyKeepsTemplate(b: Tables, iid: string, rows: seq<string>, ids: seq<string>)
    requires Ready(b, iid, rows, ids)
    ensures
      var b' := Reapply(b, iid, rows, ids);
      && Schedulable(b', iid) && TemplateOf(b', iid) == TemplateOf(b, iid) && b'.catalog == b.catalog
      && b'.instances[iid].startDate == b.instances[iid].startDate
  {
    hide PutTasks, FillTasks, Edges, ByLocal, TaskGraph, OneCardPerTask, WellFormed;
  }
}
