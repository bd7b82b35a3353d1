/**
 The look-ahead tables and what each scheduling operation does to them
 (api/db.py:2077-2108, 2196-2213, 2392-2565, 2660-3099), as functions on a snapshot of the tables.
 The class in Board.dfy performs the same operations row by row.
 */
module BoardModel {
  import opened Options
  import opened Sorting
  import opened WorkCalendar
  import opened WorkdayMask

  datatype Requirement = Requirement(kind: string, role: string, named: Option<int>, quantity: real)

  datatype Task = Task(
    localId: string, title: string, offsetDays: int, offsetShift: int, duration: int,
    workDays: string, procedure: string, dependsOn: set<string>, requirements: seq<Requirement>)

  /** A task as it arrives in a request, before it is cleaned. */
  datatype TaskInput = TaskInput(
    localId: string, title: string, offsetDays: int, offsetShift: int, duration: int,
    workDays: string, procedure: string, dependsOn: seq<string>, requirements: seq<Requirement>)

  /** A template with its task rows in the order queries return them. */
  datatype Template = Template(version: int, unit: DurationUnit, project: string, owner: string, tasks: seq<Task>)

  datatype InstanceStatus = Active | Complete | Cancelled
  datatype Instance = Instance(
    templateId: string, version: int, startDate: int, project: string, owner: string, status: InstanceStatus)

  datatype CardStatus = Planned | InProgress | Done | Blocked
  datatype Card = Card(
    title: string, project: string, assignee: string, startDate: int, startShift: int, endDate: int, endShift: int,
    status: CardStatus, notes: string, workDays: string, procedure: string,
    instance: Option<string>, localId: Option<string>)

  datatype BomRow = BomRow(quantity: real, status: string)

  datatype Tables = Tables(
    templates: map<string, Template>,
    instances: map<string, Instance>,
    cards: map<string, Card>,
    deps: set<(string, string)>,
    bom: map<(string, int), BomRow>,
    catalog: set<int>)

  // ---- What the schema itself enforces ------------------------------------

  /** Primary key (template, local id), and no blank or self-referring rows are written. */
  ghost predicate TaskGraph(tasks: seq<Task>) {
    && (forall i | 0 <= i < |tasks| :: tasks[i].localId != "" && tasks[i].localId !in tasks[i].dependsOn)
    && (forall i, j | 0 <= i < j < |tasks| :: tasks[i].localId != tasks[j].localId)
  }

  /** Keys and foreign keys of the schema. */
  ghost predicate WellFormed(b: Tables) {
    && (forall t | t in b.templates :: TaskGraph(b.templates[t].tasks))
    && (forall e | e in b.deps :: e.0 in b.cards && e.1 in b.cards)
    && (forall k | k in b.bom :: k.0 in b.cards && k.1 in b.catalog)
  }

  ghost function Attached(b: Tables, iid: string): set<string> {
    set id | id in b.cards && b.cards[id].instance == Some(iid)
  }

  // ---- Templates ------------------------------------------------------------

  function Clean(t: TaskInput): Task {
    var id := Strip(t.localId);
    Task(id, Strip(t.title), t.offsetDays, t.offsetShift, if t.duration < 1 then 1 else t.duration,
         Strip(t.workDays), Strip(t.procedure),
         set i | 0 <= i < |t.dependsOn| && Strip(t.dependsOn[i]) != "" && Strip(t.dependsOn[i]) != id
           :: Strip(t.dependsOn[i]),
         CleanRequirements(t.requirements))
  }

  /** Requirements naming no kind, role or resource are dropped. */
  function CleanRequirements(rs: seq<Requirement>): seq<Requirement> {
    if rs == [] then []
    else
      var r := rs[0].(kind := Strip(rs[0].kind), role := Strip(rs[0].role));
      (if r.kind == "" && r.role == "" && r.named == None then [] else [r]) + CleanRequirements(rs[1..])
  }

  predicate HasLocal(tasks: seq<Task>, id: string) {
    exists i | 0 <= i < |tasks| :: tasks[i].localId == id
  }

  /**
   The rows written for a task list: blank ids are skipped, and a repeated id
   violates the primary key, which stops the writing there.
   */
  function Written(done: seq<Task>, tasks: seq<TaskInput>): seq<Task>
    decreases |tasks|
  {
    if tasks == [] then done
    else
      var t := Clean(tasks[0]);
      if t.localId == "" then Written(done, tasks[1..])
      else if HasLocal(done, t.localId) then done
      else Written(done + [t], tasks[1..])
  }

  lemma {:induction false} WrittenIsTaskGraph(done: seq<Task>, tasks: seq<TaskInput>)
    requires TaskGraph(done)
    ensures TaskGraph(Written(done, tasks)) && done <= Written(done, tasks)
    decreases |tasks|
  {
    if tasks != [] {
      var t := Clean(tasks[0]);
      if t.localId == "" {
        WrittenIsTaskGraph(done, tasks[1..]);
      } else if !HasLocal(done, t.localId) {
        WrittenIsTaskGraph(done + [t], tasks[1..]);
      }
    }
  }

  lemma WrittenFromNothing(tasks: seq<TaskInput>)
    ensures TaskGraph(Written([], tasks))
  {
    WrittenIsTaskGraph([], tasks);
  }

  /** A request writes a local id again. */
  ghost predicate Repeats(tasks: seq<TaskInput>) {
    exists i, j | 0 <= i < j < |tasks| ::
      Clean(tasks[i]).localId != "" && Clean(tasks[i]).localId == Clean(tasks[j]).localId
  }

  // ---- The order in which task rows are read ---------------------------------------------

  /** Order of strings by their characters. */
  predicate Before(a: string, b: string) {
    a == "" || (b != "" && (a[0] < b[0] || (a[0] == b[0] && Before(a[1..], b[1..]))))
  }

  /** ORDER BY offset_start_days, offset_start_shift, local_id. */
  function ReadOrder(): (Task, Task) -> bool {
    (x: Task, y: Task) =>
      || x.offsetDays < y.offsetDays
      || (x.offsetDays == y.offsetDays && x.offsetShift < y.offsetShift)
      || (x.offsetDays == y.offsetDays && x.offsetShift == y.offsetShift && Before(x.localId, y.localId))
  }

  /** The rows a request leaves, as they are read. */
  function Stored(tasks: seq<TaskInput>): seq<Task> {
    Sort(Written([], tasks), ReadOrder())
  }

  lemma {:induction false} BeforeIsTotal(a: string, b: string)
    ensures Before(a, b) || Before(b, a)
    ensures Before(a, b) && Before(b, a) ==> a == b
  {
    if a != "" && b != "" && a[0] == b[0] {
      BeforeIsTotal(a[1..], b[1..]);
      assert a == [a[0]] + a[1..] && b == [b[0]] + b[1..];
    }
  }

  lemma {:induction false} BeforeIsTransitive(a: string, b: string, c: string)
    requires Before(a, b) && Before(b, c)
    ensures Before(a, c)
  {
    if a != "" && a[0] == b[0] == c[0] {
      BeforeIsTransitive(a[1..], b[1..], c[1..]);
    }
  }

  lemma ReadOrderIsTotal()
    ensures TotalPreorder(ReadOrder())
    ensures forall x, y | ReadOrder()(x, y) && ReadOrder()(y, x) :: x.localId == y.localId
  {
    hide Before;
    forall x: Task, y: Task
      ensures ReadOrder()(x, y) || ReadOrder()(y, x)
      ensures ReadOrder()(x, y) && ReadOrder()(y, x) ==> x.localId == y.localId
    {
      BeforeIsTotal(x.localId, y.localId);
    }
    forall x: Task, y: Task, z: Task | ReadOrder()(x, y) && ReadOrder()(y, z)
      ensures ReadOrder()(x, z)
    {
      if Before(x.localId, y.localId) && Before(y.localId, z.localId) {
        BeforeIsTransitive(x.localId, y.localId, z.localId);
      }
    }
  }

  lemma StoredIsTaskGraph(tasks: seq<TaskInput>)
    ensures TaskGraph(Stored(tasks))
  {
    hide ReadOrder, Sort, Written;
    var rows := Written([], tasks);
    WrittenFromNothing(tasks);
    ReadOrderIsTotal();
    SortIsStable(rows, ReadOrder());
    PermutedDistinct(rows, Sort(rows, ReadOrder()), (t: Task) => t.localId);
    forall i | 0 <= i < |Stored(tasks)|
      ensures Stored(tasks)[i] in rows
    {
    }
  }

  /** Task rows are read in one order, whatever order they were written in. */
  lemma ReadInOneOrder(rows: seq<Task>, rows': seq<Task>)
    requires TaskGraph(rows) && multiset(rows') == multiset(rows)
    ensures Sort(rows', ReadOrder()) == Sort(rows, ReadOrder())
  {
    hide ReadOrder, Sort;
    ReadOrderIsTotal();
    SortIsStable(rows, ReadOrder());
    SortIsStable(rows', ReadOrder());
    var s := Sort(rows, ReadOrder());
    PermutedDistinct(rows, s, (t: Task) => t.localId);
    forall x, y | x in s && y in s && ReadOrder()(x, y) && ReadOrder()(y, x)
      ensures x == y
    {
      assert x.localId == y.localId;
    }
    SortedPermutationUnique(s, Sort(rows', ReadOrder()), ReadOrder());
  }

  lemma TemplateRow(b: Tables, tid: string)
    requires WellFormed(b) && tid in b.templates
    ensures TaskGraph(b.templates[tid].tasks)
  {
  }

  ghost function CreateTemplate(b: Tables, tid: string, unit: DurationUnit, project: string, owner: string,
                                tasks: seq<TaskInput>): Tables {
    if tid in b.templates then b
    else b.(templates := b.templates[tid := Template(1, unit, Strip(project), Strip(owner), Stored(tasks))])
  }

  /** The row of a template after an update of its own fields, which always bumps the version. */
  function Bumped(t: Template, unit: Option<DurationUnit>, project: Option<string>, owner: Option<string>): Template {
    Template(
      t.version + 1,
      if unit.Some? then unit.value else t.unit,
      if project.Some? then Strip(project.value) else t.project,
      if owner.Some? then Strip(owner.value) else t.owner,
      t.tasks)
  }

  ghost function UpdateTemplate(b: Tables, tid: string, unit: Option<DurationUnit>, project: Option<string>,
                                owner: Option<string>, tasks: Option<seq<TaskInput>>): Tables {
    if tid !in b.templates then b
    else
      var t := Bumped(b.templates[tid], unit, project, owner);
      b.(templates := b.templates[tid := if tasks.Some? then t.(tasks := Stored(tasks.value)) else t])
  }

  // ---- Materialising tasks as cards -----------------------------------------

  /** What every card of one materialisation shares. */
  datatype Cohort = Cohort(unit: DurationUnit, start: int, project: string, iid: string)

  datatype Placement = Placement(startDate: int, startShift: int, endDate: int, endShift: int)

  /** Where a task lands for an anchor date. */
  ghost function Place(unit: DurationUnit, start: int, t: Task): Placement {
    var wd := WeekOf(unit, Strip(t.workDays));
    var s := Shift(wd, start, t.offsetDays);
    var shift := if t.offsetShift == 0 then 1 else t.offsetShift;
    var (e, endShift) := EndOf(wd, s, shift, t.duration);
    Placement(s, shift, e, endShift)
  }

  /** The days a task is scheduled on: its own mask's, else the unit's; none stands for all. */
  ghost function MaskOf(unit: DurationUnit, t: Task): (mask: set<int>)
    ensures mask <= WEEK
  {
    if Days(Strip(t.workDays)) != {} then Days(Strip(t.workDays))
    else if unit.BusinessDays? then MON_TO_FRI else {}
  }

  /**
   Where a task belongs: its offset in days of its mask from the anchor, on its own
   shift (the first, if it names none), for its duration.  From a day of the mask and
   a shift of the day it takes exactly that many shifts.
   */
  ghost predicate OnSchedule(p: Placement, unit: DurationUnit, start: int, t: Task) {
    var mask := MaskOf(unit, t);
    && Lands(mask, start, t.offsetDays, p.startDate)
    && p.startShift == (if t.offsetShift == 0 then 1 else t.offsetShift)
    && Spans(mask, p.startDate, p.startShift, t.duration, p.endDate, p.endShift)
    && ((mask == {} || Weekday(p.startDate) in mask) && 1 <= p.startShift <= 3 ==>
          Slots(if mask == {} then WEEK else mask, p.endDate, p.startDate, p.startShift, p.endDate, p.endShift)
            == if t.duration < 1 then 1 else t.duration)
  }

  lemma PlaceOnSchedule(unit: DurationUnit, start: int, t: Task)
    ensures OnSchedule(Place(unit, start, t), unit, start, t)
  {
    hide Lands, Spans, Shift, Strip, Days, Slots, EndOf;
    var mask := MaskOf(unit, t);
    var p := Place(unit, start, t);
    WeekOfMask(unit, Strip(t.workDays));
    EffectiveIsMask(mask);
    LandsIsShift(mask, start, t.offsetDays, p.startDate);
    SpansIsEndOf(mask, p.startDate, p.startShift, t.duration, p.endDate, p.endShift);
    if 1 <= p.startShift <= 3 {
      DurationConserved(Effective(mask), p.startDate, p.startShift, t.duration);
    }
  }

  /** The template-derived fields of a card; the user's own fields are kept. */
  ghost function Refreshed(co: Cohort, card: Card, t: Task): Card {
    var p := Place(co.unit, co.start, t);
    card.(title := t.title, startDate := p.startDate, startShift := p.startShift, endDate := p.endDate,
          endShift := p.endShift, workDays := Strip(t.workDays), procedure := t.procedure)
  }

  ghost function FreshCard(co: Cohort, t: Task): Card {
    var p := Place(co.unit, co.start, t);
    Card(t.title, co.project, "", p.startDate, p.startShift, p.endDate, p.endShift, Planned, "",
         Strip(t.workDays), t.procedure, Some(co.iid), Some(t.localId))
  }

  /** The resource a requirement names; 0 and NULL name none. */
  function Named(r: Requirement): Option<int> {
    if r.named == Some(0) then None else r.named
  }

  ghost predicate Known(catalog: set<int>, rs: seq<Requirement>) {
    forall i | 0 <= i < |rs| && Named(rs[i]).Some? :: Named(rs[i]).value in catalog
  }

  /** Insert-or-ignore of the named resources; an unknown resource stops it. */
  ghost function Fill(catalog: set<int>, bom: map<(string, int), BomRow>, cid: string,
                      rs: seq<Requirement>): map<(string, int), BomRow>
    decreases |rs|
  {
    if rs == [] then bom
    else if Named(rs[0]) == None then Fill(catalog, bom, cid, rs[1..])
    else
      var key := (cid, Named(rs[0]).value);
      if key.1 !in catalog then bom
      else Fill(catalog, if key in bom then bom else bom[key := BomRow(rs[0].quantity, "needed")], cid, rs[1..])
  }

  /** Cards after the first k tasks: known ids are refreshed, new ids inserted. */
  ghost function PutTasks(co: Cohort, cards: map<string, Card>, cids: seq<string>, tasks: seq<Task>,
                          k: int): map<string, Card>
    requires 0 <= k <= |tasks| == |cids|
    decreases k
  {
    if k == 0 then cards
    else
      var prev := PutTasks(co, cards, cids, tasks, k - 1);
      var cid := cids[k - 1];
      prev[cid := if cid in prev then Refreshed(co, prev[cid], tasks[k - 1]) else FreshCard(co, tasks[k - 1])]
  }

  ghost function FillTasks(catalog: set<int>, bom: map<(string, int), BomRow>, cids: seq<string>, tasks: seq<Task>,
                           k: int): map<(string, int), BomRow>
    requires 0 <= k <= |tasks| == |cids|
    decreases k
  {
    if k == 0 then bom
    else Fill(catalog, FillTasks(catalog, bom, cids, tasks, k - 1), cids[k - 1], tasks[k - 1].requirements)
  }

  ghost predicate AllKnown(catalog: set<int>, tasks: seq<Task>, k: int)
    requires 0 <= k <= |tasks|
  {
    forall i | 0 <= i < k :: Known(catalog, tasks[i].requirements)
  }

  /**
   How many tasks are materialised: all of them, or up to and including the first
   that names an unknown resource, whose foreign key then fails the operation.
   */
  ghost function Reach(catalog: set<int>, tasks: seq<Task>, k: int): (m: int)
    requires 0 <= k <= |tasks|
    ensures k <= m <= |tasks|
    ensures AllKnown(catalog, tasks, k) ==> m < |tasks| ==> m > 0 && !Known(catalog, tasks[m - 1].requirements)
    ensures AllKnown(catalog, tasks, |tasks|) ==> m == |tasks|
    decreases |tasks| - k
  {
    if k == |tasks| then k
    else if !Known(catalog, tasks[k].requirements) then k + 1
    else Reach(catalog, tasks, k + 1)
  }

  /** The image of the dependency graph under the choice of cards. */
  ghost function Edges(cids: seq<string>, tasks: seq<Task>, k: int): set<(string, string)>
    requires 0 <= k <= |tasks| == |cids|
  {
    set i, j | 0 <= i < k && 0 <= j < |tasks| && tasks[j].localId in tasks[i].dependsOn :: (cids[i], cids[j])
  }

  ghost function Materialise(b: Tables, co: Cohort, cids: seq<string>, tasks: seq<Task>): Tables
    requires |cids| == |tasks|
  {
    var m := Reach(b.catalog, tasks, 0);
    b.(cards := PutTasks(co, b.cards, cids, tasks, m), bom := FillTasks(b.catalog, b.bom, cids, tasks, m))
  }

  /** A supply of unused card ids. */
  ghost predicate FreshIds(b: Tables, ids: seq<string>, n: int) {
    && |ids| == n
    && (forall i | 0 <= i < n :: ids[i] !in b.cards)
    && (forall i, j | 0 <= i < j < n :: ids[i] != ids[j])
  }

  // ---- Operations on instances ------------------------------------------------

  ghost function CohortOf(b: Tables, tid: string, start: int, project: string, iid: string): Cohort
    requires tid in b.templates
  {
    var t := b.templates[tid];
    Cohort(t.unit, start, Strip(if project != "" then project else t.project), iid)
  }

  ghost function Instantiate(b: Tables, tid: string, start: int, project: string, owner: string, iid: string,
                             ids: seq<string>): Tables
    requires tid in b.templates ==> |ids| == |b.templates[tid].tasks|
  {
    if tid !in b.templates then b
    else
      var t := b.templates[tid];
      var co := CohortOf(b, tid, start, project, iid);
      var inst := Instance(tid, t.version, start, co.project, Strip(if owner != "" then owner else t.owner), Active);
      var placed := Materialise(b.(instances := b.instances[iid := inst]), co, ids, t.tasks);
      if AllKnown(b.catalog, t.tasks, |t.tasks|)
      then placed.(deps := placed.deps + Edges(ids, t.tasks, |t.tasks|))
      else placed
  }

  /** A card moved by its own workweek's count of work days between two anchors. */
  ghost function Moved(unit: DurationUnit, oldStart: int, newStart: int, card: Card): Card {
    var wd := WeekOf(unit, card.workDays);
    var n := Index(wd, newStart) - Index(wd, oldStart);
    card.(startDate := Shift(wd, card.startDate, n), endDate := Shift(wd, card.endDate, n))
  }

  ghost function MovedCards(cards: map<string, Card>, iid: string, unit: DurationUnit, oldStart: int,
                            newStart: int): map<string, Card> {
    map id | id in cards ::
      if cards[id].instance == Some(iid) then Moved(unit, oldStart, newStart, cards[id]) else cards[id]
  }

  /** Rescheduling joins the instance with its template, so both must exist. */
  ghost predicate Schedulable(b: Tables, iid: string) {
    iid in b.instances && b.instances[iid].templateId in b.templates
  }

  ghost function UnitOf(b: Tables, iid: string): DurationUnit
    requires Schedulable(b, iid)
  {
    b.templates[b.instances[iid].templateId].unit
  }

  ghost function Reschedule(b: Tables, iid: string, newStart: int): Tables {
    if !Schedulable(b, iid) then b
    else
      var inst := b.instances[iid];
      b.(cards := MovedCards(b.cards, iid, UnitOf(b, iid), inst.startDate, newStart),
         instances := b.instances[iid := inst.(startDate := newStart)])
  }

  lemma StandingStill(b: Tables, iid: string)
    requires Schedulable(b, iid)
    ensures Reschedule(b, iid, b.instances[iid].startDate) == b
  {
    var b' := Reschedule(b, iid, b.instances[iid].startDate);
    assert b'.cards == b.cards;
    assert b'.instances == b.instances;
  }

  /** Attached cards by local id; of several with one id the last row wins. */
  ghost function ByLocal(cards: map<string, Card>, rows: seq<string>, k: int): map<string, string>
    requires 0 <= k <= |rows| && forall i | 0 <= i < |rows| :: rows[i] in cards
    decreases k
  {
    if k == 0 then map[]
    else
      var l := cards[rows[k - 1]].localId;
      var prev := ByLocal(cards, rows, k - 1);
      if l.Some? && l.value != "" then prev[l.value := rows[k - 1]] else prev
  }

  /** The attached cards of an instance, in the order the database returns them. */
  ghost predicate Rows(b: Tables, iid: string, rows: seq<string>) {
    && (forall i | 0 <= i < |rows| :: rows[i] in Attached(b, iid))
    && (forall id | id in Attached(b, iid) :: id in rows)
    && (forall i, j | 0 <= i < j < |rows| :: rows[i] != rows[j])
  }

  /** The card each task maps to: the existing one, or the next fresh id. */
  ghost function Targets(existing: map<string, string>, tasks: seq<Task>, ids: seq<string>): (cids: seq<string>)
    requires |ids| == |tasks|
    ensures |cids| == |tasks|
    ensures forall i | 0 <= i < |tasks| ::
              cids[i] == if tasks[i].localId in existing then existing[tasks[i].localId] else ids[i]
  {
    seq(|tasks|, i requires 0 <= i < |tasks| =>
      if tasks[i].localId in existing then existing[tasks[i].localId] else ids[i])
  }

  ghost predicate Outdated(b: Tables, iid: string) {
    Schedulable(b, iid) && b.instances[iid].version < b.templates[b.instances[iid].templateId].version
  }

  /** Re-apply the current template to an instance, whatever its version. */
  ghost function Reapply(b: Tables, iid: string, rows: seq<string>, ids: seq<string>): Tables
    requires Schedulable(b, iid) && Rows(b, iid, rows) && |ids| == |b.templates[b.instances[iid].templateId].tasks|
  {
    var inst := b.instances[iid];
    var t := b.templates[inst.templateId];
    var cids := Targets(ByLocal(b.cards, rows, |rows|), t.tasks, ids);
    var placed := Materialise(b, Cohort(t.unit, inst.startDate, inst.project, iid), cids, t.tasks);
    if AllKnown(b.catalog, t.tasks, |t.tasks|)
    then placed.(deps := (set e | e in b.deps && e.0 !in cids) + Edges(cids, t.tasks, |t.tasks|),
                 instances := b.instances[iid := inst.(version := t.version)])
    else placed
  }

  ghost function Upgrade(b: Tables, iid: string, rows: seq<string>, ids: seq<string>): Tables
    requires Outdated(b, iid) ==> Rows(b, iid, rows) && |ids| == |b.templates[b.instances[iid].templateId].tasks|
  {
    if Outdated(b, iid) then Reapply(b, iid, rows, ids) else b
  }

  /** Removing cards takes their dependency and resource rows along. */
  ghost function DropCards(b: Tables, gone: set<string>): Tables {
    b.(cards := (map id | id in b.cards && id !in gone :: b.cards[id]),
       deps := (set e | e in b.deps && e.0 !in gone && e.1 !in gone),
       bom := (map k | k in b.bom && k.0 !in gone :: b.bom[k]))
  }

  ghost function DeleteInstance(b: Tables, iid: string): Tables {
    DropCards(b, Attached(b, iid)).(instances := b.instances - {iid})
  }

  // ---- A card's own dependencies and resources ----------------------------------------------

  datatype ResourceEntry = ResourceEntry(resource: Option<int>, quantity: real, status: string)

  const RESOURCE_STATUSES: set<string> := {"needed", "secured", "consumed"}

  function OtherEdges(deps: set<(string, string)>, cid: string): set<(string, string)> {
    set e | e in deps && e.0 != cid
  }

  function OtherRows(bom: map<(string, int), BomRow>, cid: string): map<(string, int), BomRow> {
    map k | k in bom && k.0 != cid :: bom[k]
  }

  /** Insert-or-ignore of the edges asked for; an unknown card stops it, the card itself is skipped. */
  ghost function AddDependencies(deps: set<(string, string)>, cards: set<string>, cid: string, ds: seq<string>)
    : set<(string, string)>
    decreases |ds|
  {
    if ds == [] then deps
    else if ds[0] == cid then AddDependencies(deps, cards, cid, ds[1..])
    else if ds[0] !in cards then deps
    else AddDependencies(deps + {(cid, ds[0])}, cards, cid, ds[1..])
  }

  predicate DependenciesKnown(cards: set<string>, cid: string, ds: seq<string>) {
    forall i | 0 <= i < |ds| :: ds[i] == cid || ds[i] in cards
  }

  ghost function SetDependencies(b: Tables, cid: string, ds: seq<string>): Tables
    requires cid in b.cards
  {
    b.(deps := AddDependencies(OtherEdges(b.deps, cid), b.cards.Keys, cid, ds))
  }

  function EntryRow(e: ResourceEntry): BomRow {
    BomRow(e.quantity, if e.status in RESOURCE_STATUSES then e.status else "needed")
  }

  /** Insert-or-replace of the entries that name a resource; an unknown one stops it. */
  ghost function AddResources(bom: map<(string, int), BomRow>, catalog: set<int>, cid: string, es: seq<ResourceEntry>)
    : map<(string, int), BomRow>
    decreases |es|
  {
    if es == [] then bom
    else if es[0].resource.None? then AddResources(bom, catalog, cid, es[1..])
    else if es[0].resource.value !in catalog then bom
    else AddResources(bom[(cid, es[0].resource.value) := EntryRow(es[0])], catalog, cid, es[1..])
  }

  predicate EntriesKnown(catalog: set<int>, es: seq<ResourceEntry>) {
    forall i | 0 <= i < |es| && es[i].resource.Some? :: es[i].resource.value in catalog
  }

  ghost function SetResources(b: Tables, cid: string, es: seq<ResourceEntry>): Tables
    requires cid in b.cards
  {
    b.(bom := AddResources(OtherRows(b.bom, cid), b.catalog, cid, es))
  }

  lemma {:induction false} AddDependenciesFacts(deps: set<(string, string)>, cards: set<string>, cid: string,
                                                ds: seq<string>)
    ensures
      var deps' := AddDependencies(deps, cards, cid, ds);
      && deps <= deps'
      && (forall e | e in deps' && e !in deps :: e.0 == cid && e.1 in ds && e.1 in cards && e.1 != cid)
      && (DependenciesKnown(cards, cid, ds) ==> forall d | d in ds && d != cid :: (cid, d) in deps')
    decreases |ds|
  {
    if ds != [] {
      assert ds == [ds[0]] + ds[1..];
      if DependenciesKnown(cards, cid, ds) {
        assert DependenciesKnown(cards, cid, ds[1..]);
      }
      if ds[0] == cid {
        AddDependenciesFacts(deps, cards, cid, ds[1..]);
      } else if ds[0] in cards {
        AddDependenciesFacts(deps + {(cid, ds[0])}, cards, cid, ds[1..]);
      }
    }
  }

  /** Whatever is asked, other cards' edges stay; if all of it exists, the card's are exactly what is asked. */
  lemma SetDependenciesFacts(b: Tables, cid: string, ds: seq<string>)
    requires cid in b.cards
    ensures
      var deps := SetDependencies(b, cid, ds).deps;
      && (forall e: (string, string) | e.0 != cid :: e in deps <==> e in b.deps)
      && (forall d | (cid, d) in deps :: d in ds && d in b.cards && d != cid)
      && (DependenciesKnown(b.cards.Keys, cid, ds) ==> forall d | d in ds && d != cid :: (cid, d) in deps)
  {
    AddDependenciesFacts(OtherEdges(b.deps, cid), b.cards.Keys, cid, ds);
  }

  /** A request is worked off up to the first card it names that does not exist, exactly. */
  lemma {:induction false} AddDependenciesExactly(deps: set<(string, string)>, cards: set<string>, cid: string,
                                                  ds: seq<string>, k: int)
    requires 0 <= k <= |ds| && forall j | 0 <= j < k :: ds[j] == cid || ds[j] in cards
    requires k < |ds| ==> ds[k] != cid && ds[k] !in cards
    ensures AddDependencies(deps, cards, cid, ds) == deps + set j | 0 <= j < k && ds[j] != cid :: (cid, ds[j])
    decreases |ds|
  {
    if k > 0 {
      var deps1 := if ds[0] == cid then deps else deps + {(cid, ds[0])};
      AddDependenciesExactly(deps1, cards, cid, ds[1..], k - 1);
      var later := set j | 0 <= j < k - 1 && ds[1..][j] != cid :: (cid, ds[1..][j]);
      var all := set j | 0 <= j < k && ds[j] != cid :: (cid, ds[j]);
      forall j | 0 < j < k && ds[j] != cid
        ensures (cid, ds[j]) in later
      {
        assert ds[1..][j - 1] == ds[j];
      }
      assert all == later + if ds[0] == cid then {} else {(cid, ds[0])};
    }
  }

  /** Entries after the first unknown resource have no effect. */
  lemma {:induction false} AddResourcesStops(bom: map<(string, int), BomRow>, catalog: set<int>, cid: string,
                                             es: seq<ResourceEntry>, k: int)
    requires 0 <= k < |es| && es[k].resource.Some? && es[k].resource.value !in catalog
    ensures AddResources(bom, catalog, cid, es) == AddResources(bom, catalog, cid, es[..k])
    decreases |es|
  {
    if k > 0 {
      assert es[..k][1..] == es[1..][..k - 1];
      if es[0].resource.None? {
        AddResourcesStops(bom, catalog, cid, es[1..], k - 1);
      } else if es[0].resource.value in catalog {
        AddResourcesStops(bom[(cid, es[0].resource.value) := EntryRow(es[0])], catalog, cid, es[1..], k - 1);
      }
    }
  }

  /** Rows are written for the resources the entries name and no others. */
  lemma {:induction false} AddResourcesKeys(bom: map<(string, int), BomRow>, catalog: set<int>, cid: string,
                                            es: seq<ResourceEntry>)
    ensures forall k | k in AddResources(bom, catalog, cid, es) && k !in bom ::
      k.0 == cid && exists i :: 0 <= i < |es| && es[i].resource == Some(k.1)
    decreases |es|
  {
    if es != [] {
      var bom1 := if es[0].resource.None? then bom else bom[(cid, es[0].resource.value) := EntryRow(es[0])];
      AddResourcesKeys(bom1, catalog, cid, es[1..]);
      forall k | k in AddResources(bom, catalog, cid, es) && k !in bom
        ensures k.0 == cid && exists i :: 0 <= i < |es| && es[i].resource == Some(k.1)
      {
        if k in bom1 {
          assert es[0].resource == Some(k.1);
        } else {
          var i :| 0 <= i < |es[1..]| && es[1..][i].resource == Some(k.1);
          assert es[i + 1].resource == Some(k.1);
        }
      }
    }
  }

  /** A status the program does not know becomes "needed"; any other is kept, and so is the quantity. */
  lemma EntryRowKeeps(e: ResourceEntry)
    ensures
      var row := EntryRow(e);
      && row.quantity == e.quantity && row.status in RESOURCE_STATUSES
      && (row.status == e.status <==> e.status in {"needed", "secured", "consumed"})
      && (row.status != e.status ==> row.status == "needed")
  {
  }

  /**
   Setting a card's resources leaves it the rows of the known entries before the first
   unknown one, each from the last entry naming its resource, and no row from before.
   */
  lemma SetResourcesExactly(b: Tables, cid: string, es: seq<ResourceEntry>, k: int)
    requires cid in b.cards && 0 <= k <= |es| && EntriesKnown(b.catalog, es[..k])
    requires k < |es| ==> es[k].resource.Some? && es[k].resource.value !in b.catalog
    ensures
      var bom := SetResources(b, cid, es).bom;
      && (forall r | (cid, r) in bom :: exists i :: 0 <= i < k && es[i].resource == Some(r))
      && (forall i | 0 <= i < k && es[i].resource.Some?
                     && (forall j | i < j < k :: es[j].resource != es[i].resource) ::
            (cid, es[i].resource.value) in bom && bom[(cid, es[i].resource.value)] == EntryRow(es[i]))
      && (forall x: (string, int) | x.0 != cid :: (x in bom <==> x in b.bom) && (x in bom ==> bom[x] == b.bom[x]))
  {
    hide EntryRow;
    var front := es[..k];
    if k < |es| {
      AddResourcesStops(OtherRows(b.bom, cid), b.catalog, cid, es, k);
    } else {
      assert front == es;
    }
    AddResourcesFacts(OtherRows(b.bom, cid), b.catalog, cid, front);
    AddResourcesKeys(OtherRows(b.bom, cid), b.catalog, cid, front);
    var bom := SetResources(b, cid, es).bom;
    forall r | (cid, r) in bom
      ensures exists i :: 0 <= i < k && es[i].resource == Some(r)
    {
      assert (cid, r) !in OtherRows(b.bom, cid);
      var i :| 0 <= i < |front| && front[i].resource == Some((cid, r).1);
      assert es[i].resource == Some(r);
    }
    forall i | 0 <= i < k && es[i].resource.Some? && (forall j | i < j < k :: es[j].resource != es[i].resource)
      ensures (cid, es[i].resource.value) in bom && bom[(cid, es[i].resource.value)] == EntryRow(es[i])
    {
      LastEntryWins(OtherRows(b.bom, cid), b.catalog, cid, front, i);
    }
  }

  /** Setting a card's dependencies leaves it those asked for before the first unknown card, and no others. */
  lemma SetDependenciesExactly(b: Tables, cid: string, ds: seq<string>, k: int)
    requires cid in b.cards && 0 <= k <= |ds| && DependenciesKnown(b.cards.Keys, cid, ds[..k])
    requires k < |ds| ==> ds[k] != cid && ds[k] !in b.cards
    ensures
      var deps := SetDependencies(b, cid, ds).deps;
      && (forall d :: (cid, d) in deps <==> d != cid && exists j :: 0 <= j < k && ds[j] == d)
      && (forall e: (string, string) | e.0 != cid :: e in deps <==> e in b.deps)
  {
    assert forall j | 0 <= j < k :: ds[..k][j] == ds[j];
    AddDependenciesExactly(OtherEdges(b.deps, cid), b.cards.Keys, cid, ds, k);
  }

  lemma {:induction false} AddResourcesFacts(bom: map<(string, int), BomRow>, catalog: set<int>, cid: string,
                                             es: seq<ResourceEntry>)
    ensures
      var bom' := AddResources(bom, catalog, cid, es);
      && (forall k: (string, int) | k.0 != cid :: (k in bom' <==> k in bom) && (k in bom ==> bom'[k] == bom[k]))
      && (forall k | k in bom' && k !in bom :: k.0 == cid && k.1 in catalog)
    decreases |es|
  {
    if es != [] {
      if es[0].resource.None? {
        AddResourcesFacts(bom, catalog, cid, es[1..]);
      } else if es[0].resource.value in catalog {
        AddResourcesFacts(bom[(cid, es[0].resource.value) := EntryRow(es[0])], catalog, cid, es[1..]);
      }
    }
  }

  /** If all resources exist, each entry's resource has its row, from the last entry that names it. */
  lemma {:induction false} LastEntryWins(bom: map<(string, int), BomRow>, catalog: set<int>, cid: string,
                                         es: seq<ResourceEntry>, i: int)
    requires EntriesKnown(catalog, es) && 0 <= i < |es| && es[i].resource.Some?
    requires forall j | i < j < |es| :: es[j].resource != es[i].resource
    ensures
      var k := (cid, es[i].resource.value);
      k in AddResources(bom, catalog, cid, es) && AddResources(bom, catalog, cid, es)[k] == EntryRow(es[i])
    decreases |es|
  {
    var bom1 := if es[0].resource.None? then bom else bom[(cid, es[0].resource.value) := EntryRow(es[0])];
    assert EntriesKnown(catalog, es[1..]);
    if i > 0 {
      LastEntryWins(bom1, catalog, cid, es[1..], i - 1);
    } else {
      OtherEntries(bom1, catalog, cid, es[1..], es[0].resource.value);
    }
  }

  lemma {:induction false} OtherEntries(bom: map<(string, int), BomRow>, catalog: set<int>, cid: string,
                                        es: seq<ResourceEntry>, resource: int)
    requires (cid, resource) in bom && forall j | 0 <= j < |es| :: es[j].resource != Some(resource)
    ensures
      var bom' := AddResources(bom, catalog, cid, es);
      (cid, resource) in bom' && bom'[(cid, resource)] == bom[(cid, resource)]
    decreases |es|
  {
    if es != [] {
      if es[0].resource.None? {
        OtherEntries(bom, catalog, cid, es[1..], resource);
      } else if es[0].resource.value in catalog {
        OtherEntries(bom[(cid, es[0].resource.value) := EntryRow(es[0])], catalog, cid, es[1..], resource);
      }
    }
  }

  lemma SetRelationsWellFormed(b: Tables, cid: string, ds: seq<string>, es: seq<ResourceEntry>)
    requires WellFormed(b) && cid in b.cards
    ensures WellFormed(SetDependencies(b, cid, ds)) && WellFormed(SetResources(b, cid, es))
  {
    hide TaskGraph, AddDependencies, AddResources;
    AddDependenciesFacts(OtherEdges(b.deps, cid), b.cards.Keys, cid, ds);
    AddResourcesFacts(OtherRows(b.bom, cid), b.catalog, cid, es);
  }

  ghost function Detach(b: Tables, cid: string): Tables {
    if cid !in b.cards then b
    else b.(cards := b.cards[cid := b.cards[cid].(instance := None, localId := None)])
  }

  /** An active instance with cards, all of them done, is complete. */
  ghost function Autocomplete(b: Tables, iid: string): Tables {
    if iid in b.instances && b.instances[iid].status.Active? && Attached(b, iid) != {}
       && (forall id | id in Attached(b, iid) :: b.cards[id].status.Done?)
    then b.(instances := b.instances[iid := b.instances[iid].(status := Complete)])
    else b
  }

  /** Exactly an active instance with cards, all of them done, becomes complete; nothing else changes. */
  lemma CompletesIff(b: Tables, iid: string)
    requires iid in b.instances
    ensures
      var b' := Autocomplete(b, iid);
      var inst := b.instances[iid];
      var finished := inst.status == Active && (exists x :: x in b.cards && b.cards[x].instance == Some(iid))
        && (forall x | x in b.cards && b.cards[x].instance == Some(iid) :: b.cards[x].status == Done);
      && b'.instances[iid] == (if finished then inst.(status := Complete) else inst)
      && b' == b.(instances := b.instances[iid := b'.instances[iid]])
  {
    assert b.instances == b.instances[iid := b.instances[iid]];
    if x :| x in b.cards && b.cards[x].instance == Some(iid) {
      assert x in Attached(b, iid);
    }
  }

  /** Deleting an instance takes its cards and every row that names one, and nothing else. */
  lemma DeletedWithItsCards(b: Tables, iid: string)
    ensures
      var b' := DeleteInstance(b, iid);
      && iid !in b'.instances && (forall i | i in b.instances && i != iid ::
            i in b'.instances && b'.instances[i] == b.instances[i])
      && (forall x :: x in b'.cards <==> x in b.cards && b.cards[x].instance != Some(iid))
      && (forall x | x in b'.cards :: b'.cards[x] == b.cards[x])
      && (forall e: (string, string) | e.0 in b'.cards && e.1 in b'.cards :: e in b'.deps <==> e in b.deps)
      && (forall k: (string, int) | k.0 in b'.cards ::
            (k in b'.bom <==> k in b.bom) && (k in b.bom ==> b'.bom[k] == b.bom[k]))
      && (b'.templates, b'.catalog) == (b.templates, b.catalog)
  {
  }
}
