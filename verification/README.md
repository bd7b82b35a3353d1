# Verification of the look-ahead board, the ingest pipeline and their ledgers

This project models the stateful core of the Parsival service in Dafny and proves
what that core promises. It covers three groups of behaviour.

**The look-ahead scheduling engine** (`api/db.py`). Dates are unbounded integers
with Python's weekday; a workweek is a non-empty set of weekdays. `WorkCalendar`
proves the day-stepping loop and the shift arithmetic against a counting potential
on dates, and develops their algebra. `WorkdayMask` reads the stored masks. `Board`
performs every template, instance and card operation row by row on maps and sets,
and each method is proved equal to a function on table snapshots in `BoardModel`.
`TemplateRows` says what a template request leaves, column by column. `Cohorts` and
`CohortCards` prove what instantiation and the opt-in upgrade promise, the first as
laws of the operations, the second field by field; `Moves` proves what rescheduling
promises, `Runs` what every run of the operations keeps. Three
promises of the code hold only under conditions, which are proved exact:

- moving a cohort through several dates equals one direct move if and only if each
  attached card has both dates on its calendar or the moves set off, in the card's
  workweek, the way they end up going (`Moves.PathIndependence`);
- rescheduling an untouched instance equals instantiating it at the new date if and
  only if each task keeps its landing, a condition on its offset and on whether the
  two dates are work days of its workweek (`Moves.RescheduleIsReinstantiate`);
- the comment that relative spacing stays intact (`api/db.py:2866-2869`) is true of
  order within one workweek. The work-day gap between two dates is kept if and only if
  the move is not backward or both or neither are work days, and two different dates
  stay different if and only if a work day parts them on the side the move sets off to
  (`Moves.RescheduleKeepsSpacing`). A card's own length survives a forward move if and
  only if it starts on a work day, a backward one if and only if it ends on one
  (`Moves.RescheduleKeepsLength`). Cards of different workweeks can change order; on
  their calendars they cannot from 7 days apart on, and anywhere from 13 days apart on
  (`Moves.RescheduleKeepsDistantOrder`), and neither bound can be lowered.

Each condition comes with a concrete board on which it fails (`Moves.SaturdayDrifts`,
`Moves.SaturdayStays`, `Moves.SpacingGrows`, `Moves.WeekendCollapses`,
`Moves.SaturdayStretches`, `Moves.OrderSwaps`, `Moves.OffDayOrderSwaps`).

**The ingest protocol** (`api/app.py`, `api/orchestrator.py`, `api/calendar_ingest.py`).
`Ingest` is a state machine with one step per span under the database lock, in any
interleaving of any number of requests and workers, with cancellations, failures and
outside writes; `IngestGroups` proves the fan-out into conversation groups and
`IngestProgress` that the steps left to tasks and workers are bounded and can always be
taken. Two comments do not match the code, and the model follows the code: items leave
the in-flight set through `_mark_done`, not `release_ingest_item`, which nothing calls
(`api/orchestrator.py:676-678`); and exceptions are not all caught per item
(`api/orchestrator.py:793-795`). Four steps let one escape: the claim loop can fail on
an id (`api/orchestrator.py:683-692`); reading the noise rules can fail before the
counter rises (`api/orchestrator.py:716`); sorting a conversation can fail on a missing
timestamp, or handing a group to a worker, after it has risen
(`api/orchestrator.py:719-790`); and the noise filter and the filtered-row write run
outside the handler's try. `Ingest.DrainsUnlessEscaped` says what follows,
`Ingest.LostForGood` for how long, and `Ingest.EscapeStrands` and
`Ingest.FailedStartStrands` show it on runs.
`ThreadDedup` proves that inserting a save's action items never repeats a todo within a
conversation, and that a save as a whole does not if and only if no todo of the item
that it leaves in place clashes in the conversation the item is now filed under, as in
every run that saves an item incrementally only under the conversation it had. Repeats
are up to the normal form of `Descriptions` (white space before a closing stop survives
normalisation, which the comment does not say: a stop makes a difference if and only if
the text before it is not blank and ends in white space).
`Sorting` and `ReanalyzeOrder` prove that the three-pass cascade is one priority order,
`ShiftWindows` that an appointment finds its shift.

**Agreement between stores.** `Centroids` proves the centroid index equal to a
recomputation from the item lists, exactly when an update names the category its
item leaves; the project-tagging endpoint passes no old category
(`api/app.py:1267-1277`), so it meets that condition only for items that are new to
the project or stay in their category. `CardTodoMirror` proves that cards and their
todos agree on being done over every run, on the same tables the scheduling engine
uses, with exactly two exceptions: re-posting a card across the done line, and a PATCH
that moves a card across it but names a card or resource that does not exist, so that
the foreign key ends the request before the todo is written.
`ProposalLedger` proves that the calendar ledger survives a crash between any two
commits, and that accepted proposals and created cards correspond exactly when no
crash and no exception falls between a card's creation and its decision.

Operations that update state in place are methods of classes over the fields the
program updates; each is proved against a function on a snapshot of the state, and
the lemmas are about those functions. Ids generated by the program are parameters
constrained to be fresh. Times and timestamps are ranks in the order of their
stored strings. What a language model, a noise rule or a user supplies is an
arbitrary value.

`dafny verify dfyconfig.toml` checks the whole project.

## Model

| member | source | states |
|---|---|---|
| WorkdayMask.ParseWorkDays | api/db.py:2589-2602 | the loop collects exactly the weekdays named by the comma-separated, stripped tokens of the mask, unknown tokens ignored |
| WorkdayMask.DaysOfParts | api/db.py:2589-2602 | a mask means the union of its comma-separated parts: what a token names, plus what the rest names |
| WorkdayMask.ResolveWorkweek | api/db.py:2605-2618 | a non-empty mask wins, otherwise the duration unit decides, otherwise no restriction |
| WorkdayMask.StripPadding | api/db.py:2598-2601 | white space around a text makes no difference to its stripped form |
| WorkdayMask.OnlyTokens | api/db.py:2587 | exactly the seven tokens name a weekday |
| WorkdayMask.MaskRoundTrip | api/db.py:2585-2602 | writing any set of weekdays as a mask, from Monday on, and reading it gives the set back |
| WorkdayMask.WeekOfMask | api/db.py:2605-2618 | a mask that names a day decides alone under either unit; otherwise business days are Monday to Friday and calendar days all |
| WorkdayMask.ResolveUnderCardUnit | api/db.py:2889-2896 | substituting "business days" for a restricted card, as rescheduling does, never changes the card's workweek |
| WorkCalendar.IndexCounts | api/db.py:2621-2642 | differences of the potential Index are cardinalities of sets of work days, so every statement in Index is a statement about counting |
| WorkCalendar.EffectiveIsMask | api/db.py:2631-2632 | every non-empty mask stands for exactly its own weekdays, however many, and an empty one for all seven |
| WorkCalendar.AddDays | api/db.py:2621-2642 | the day-by-day loop terminates for every mask and ends on a day of the mask with exactly n days of the mask on the way, in either direction; an empty mask counts every day, and n = 0 moves nothing |
| WorkCalendar.LandsIsShift | api/db.py:2621-2642 | that description has exactly one date for every mask, date and n, and it is where Shift leads |
| WorkCalendar.ForwardShiftCounts | api/db.py:2621-2642 | for n > 0 the result is the one work day r after d with exactly n work days in (d, r]; if and only if |
| WorkCalendar.BackwardShiftCounts | api/db.py:2621-2642 | for n < 0, mirrored: the one work day r before d with exactly -n work days in [r, d); if and only if |
| WorkCalendar.ShiftAdditive | api/db.py:2621-2642 | steps add up from a work day for all signs, and from any date for equal signs |
| WorkCalendar.ShiftInverse | api/db.py:2621-2642 | from a work day, n steps are undone by -n steps |
| WorkCalendar.OffDayRoundTrip | api/db.py:2633-2639 | from an off-day, forward and back lands on the last work day before it, back and forward on the first after it |
| WorkCalendar.ShiftMonotone | api/db.py:2621-2642 | steps never reorder dates, and between work days they keep strict order and the work-day gap exactly |
| WorkCalendar.IndexWeek | api/db.py:2621-2642 | any seven consecutive days hold exactly as many work days as the mask has weekdays |
| WorkCalendar.WholeWeeksOfSteps | api/db.py:2621-2642 | from a work day, k times the size of the mask in work days is 7k calendar days, either way |
| WorkCalendar.FastShiftRefines | api/db.py:2633-2639 | skipping whole weeks first computes the same date as the day-by-day loop, from any date and for any n |
| WorkCalendar.ShiftDistance | api/db.py:2633-2639 | the loop never goes further than 7 * ceil(n / mask size) days away, in either direction |
| WorkCalendar.CountWorkDays | api/db.py:2872-2883 | the anchor count is the signed number of days of the mask after the earlier anchor up to the later one, for any order of the two, all days counting for an empty mask |
| WorkCalendar.CountsIsIndex | api/db.py:2872-2883 | and that number is the difference of the potential Index of the workweek |
| WorkCalendar.DurationToEnd | api/db.py:2645-2657 | every three shifts past the third of a day go to the next day of the mask; at least one shift is taken, and no day is passed without need |
| WorkCalendar.SpansIsEndOf | api/db.py:2645-2657 | that description has exactly one end for every start, shift and duration, in div/mod form |
| WorkCalendar.DurationConserved | api/db.py:2645-2657 | for a start shift 1..3 the end is never before the start, its shift is 1..3, and the inclusive range holds exactly the duration in shift slots, three per work day, if and only if the start is a work day |
| TemplateRows.CleanIsRow | api/db.py:2464-2513 | a stored task row carries its request's stripped local id, title, mask and procedure, its offset days and offset shift, its duration of at least 1, exactly its non-blank dependencies on other tasks, and in order exactly those of its requirements that name a kind, a role or a resource |
| TemplateRows.StoredRows | api/db.py:2458-2513 | the rows stored are exactly those of the request's tasks with a local id before the first one that repeats, each column by column its task's |
| TemplateRows.WritingStops | api/db.py:2464-2513 | for every request there is such a point to stop at, or the end |
| TemplateRows.ReadByOffset | api/db.py:2397-2403 | rows are read by offset days, then offset shift, then local id |
| TemplateRows.BeforeIsLexicographic | api/db.py:2397-2403 | local ids compare by their first differing character, a prefix coming first |
| BoardModel.WrittenIsTaskGraph | api/db.py:2458-2513 | whatever the request, the stored task rows have distinct non-blank local ids and no self-dependency, and only grow as writing proceeds |
| BoardModel.StoredIsTaskGraph | api/db.py:2397-2403 | reading the rows in the query's order keeps distinct ids and no self-dependency |
| BoardModel.ReadInOneOrder | api/db.py:2397-2403 | task rows are read in one order, by offset, shift and local id, whatever order they were written in |
| Board.LookaheadBoard.WriteTemplateTasks | api/db.py:2458-2513 | the old rows are replaced by the cleaned request, blank ids skipped, a repeated id stopping the writing at the primary key; it succeeds if and only if no local id repeats |
| Board.LookaheadBoard.CreateTemplate | api/db.py:2516-2541 | a new template starts at version 1 with the written tasks; the whole new board is stated, and success means a fresh id and no repeated local id |
| Board.LookaheadBoard.UpdateTemplate | api/db.py:2544-2565 | the version rises on every update, given fields are replaced, tasks are rewritten only when supplied; the whole new board is stated, and when it succeeds |
| BoardModel.PlaceOnSchedule | api/db.py:2693-2700 | a task is placed its offset in days of its own mask from the anchor, on its own shift or the first if it names none, and ends after its duration; from a day of the mask and a shift 1..3 it occupies exactly its duration in shift slots |
| Board.LookaheadBoard.PlaceTask | api/db.py:2693-2700 | the computation of date, shift, end date and end shift puts the task there, for every anchor, offset, shift and duration |
| Board.LookaheadBoard.FillBom | api/db.py:2725-2733 | named resources become rows by insert-or-ignore, and an unknown resource stops it |
| Board.LookaheadBoard.PutCard | api/db.py:2951-3017 | the existing card of a task keeps every user field and takes the template's, a missing one is inserted fresh, with its resource rows |
| Board.LookaheadBoard.PutCards | api/db.py:2949-3017 | one card per task in order, existing ones refreshed and missing ones inserted, with the local-id map it leaves |
| Board.LookaheadBoard.LinkCards | api/db.py:2734-2744 | the second pass adds exactly the image of the template's dependency graph |
| Board.LookaheadBoard.LinkCard | api/db.py:2737-2744 | one task's dependencies become edges to the cards of the tasks they name; names of no task are skipped |
| Board.LookaheadBoard.InstantiateTemplate | api/db.py:2660-2745 | the whole board after instantiation, or the cards made before an unknown resource stopped it, in the order tasks are read; it succeeds if and only if the template exists and every named resource does |
| Board.LookaheadBoard.MoveCard | api/db.py:2892-2900 | both dates of a card move by the count of its own workweek |
| Board.LookaheadBoard.MoveCards | api/db.py:2886-2900 | the cohort loop with its per-workweek cache moves each attached card as if its count were computed for it alone, and no other card |
| Board.LookaheadBoard.RescheduleInstance | api/db.py:2836-2905 | the whole board after a reschedule, a missing instance or template and an unchanged date included |
| Board.LookaheadBoard.IndexRows | api/db.py:2939-2947 | cards by local id, the last row winning |
| Board.LookaheadBoard.UpgradeInstance | api/db.py:2908-3039 | the whole board after an upgrade, an up-to-date or missing instance included; it succeeds if and only if instance and template exist and an outdated one names known resources only, and then the instance is at its template's version |
| Board.LookaheadBoard.DeleteInstance | api/db.py:3062-3066 | the instance and its attached cards go, with their dependency and resource rows, and nothing else |
| Board.LookaheadBoard.DetachCard | api/db.py:3069-3076 | only the two instance fields of the one card are cleared |
| Board.LookaheadBoard.SetCardDependencies | api/db.py:2089-2108 | the dependency rows a request leaves, as far as an unknown card lets it get, and whether it got through |
| Board.LookaheadBoard.SetCardResources | api/db.py:2196-2213 | the resource rows a request leaves, as far as an unknown resource lets it get, and whether it got through |
| Board.LookaheadBoard.DeleteLookaheadCard | api/db.py:2077-2086 | the card goes with its cascading dependency and resource rows |
| BoardModel.SetDependenciesFacts | api/db.py:2089-2108 | other cards' edges stay; the card's are among those asked for, itself excluded, and exactly those if all of them exist |
| BoardModel.SetDependenciesExactly | api/db.py:2089-2108 | the card's dependencies are exactly those asked for before the first unknown card, itself excluded, and every other card's stay |
| BoardModel.LastEntryWins | api/db.py:2196-2213 | if all resources exist, each has the row of the last entry that names it |
| BoardModel.SetResourcesExactly | api/db.py:2196-2213 | the card's rows are exactly those of the entries before the first unknown resource, each from the last entry naming it, none is left from before, and other cards' rows stay |
| BoardModel.EntryRowKeeps | api/db.py:2205-2208 | a row has its entry's quantity, and its status unless that is not one of the three, when it is needed |
| BoardModel.SetRelationsWellFormed | api/db.py:2089-2213 | keys and foreign keys survive both, a request that fails included |
| Board.LookaheadBoard.MaybeAutocompleteInstance | api/db.py:3079-3099 | an active instance becomes complete if and only if it has attached cards and all are done |
| BoardModel.CompletesIff | api/db.py:3079-3099 | exactly an active instance with cards, all of them done, becomes complete, and nothing else changes |
| BoardModel.DeletedWithItsCards | api/db.py:3062-3066 | deleting an instance takes exactly its cards and the rows that name one; surviving cards, edges between them and their resource rows stay |
| Board.LookaheadBoard.CountDone | api/db.py:3089-3095 | the two counts are equal if and only if every attached card is done, and zero only without cards |
| Cohorts.InstantiateCards | api/db.py:2688-2733 | instantiating adds one new card per task reached and changes no existing card |
| CohortCards.InstantiatedCards | api/db.py:2688-2724 | every task reached gets a new card, on its task's schedule from the start date, with its title, mask and procedure, planned, unassigned, without notes, under the project asked for or the template's; no existing card changes |
| CohortCards.InstantiatedRow | api/db.py:2668-2687 | the new instance is active at its template's version with the start, project and owner asked for or defaulted, and is not outdated; no other instance and no template changes |
| CohortCards.InstantiatedEdges | api/db.py:2734-2744 | new cards depend on each other exactly as their tasks do, or no edge is written if a resource is unknown; earlier edges stay |
| CohortCards.InstantiatedResources | api/db.py:2725-2733 | rows added are what a requirement of the card's own task names, none is missing if all resources are known, and earlier rows stay |
| CohortCards.FirstRequirementWins | api/db.py:2725-2733 | of several requirements naming one resource the first gives the quantity |
| CohortCards.ReachIsFirst | api/db.py:2688-2733 | cards are made up to and including the first task that names an unknown resource, or for all tasks |
| Cohorts.InstantiateWellFormed | api/db.py:2660-2745 | keys and foreign keys hold after an instantiation, a failing one included |
| Cohorts.ReapplyWellFormed | api/db.py:2934-3039 | keys and foreign keys hold after an upgrade, a failing one included |
| Cohorts.CardsOfTasksFacts | api/db.py:2939-2960 | tasks map to distinct cards: the one attached card with the task's local id, or a new one |
| Cohorts.ReapplyCards | api/db.py:2949-3005 | every card reached shows its task at the stored start date, user fields survive, every other card is the row it was |
| Cohorts.ReapplyKeepsOneCardPerTask | api/db.py:2939-3005 | an upgrade never leaves two attached cards with one local id |
| Cohorts.UpgradeGivesEachTaskItsCard | api/db.py:2908-3039 | every task of the current template has exactly one attached card, showing the title, dates, shifts, mask and procedure a fresh instantiation at the stored date computes, with assignee, status, notes and project kept if it existed |
| CohortCards.UpgradedCards | api/db.py:2949-3005 | after an upgrade each task's card is on the task's schedule from the stored start date, on its shift and for its duration; an old card keeps status, assignee, notes, project and owner, a new one is untouched |
| CohortCards.UpgradedVersion | api/db.py:3035-3038 | an upgrade with known resources brings exactly its instance to the template's version, so that it is no longer outdated; with an unknown resource every instance row stays and it still is |
| CohortCards.UpgradedStays | api/db.py:2930-2931 | afterwards an upgrade changes nothing on any board with the same two version numbers, whatever was edited on its cards |
| Cohorts.UpgradeRebuildsEdges | api/db.py:3019-3033 | out-edges of the template's cards are exactly the image of its dependency graph, all other edges are untouched |
| Cohorts.UpgradeLeavesOtherCards | api/db.py:2908-3039 | orphans of dropped tasks, detached cards and other instances' cards are untouched, row for row |
| Cohorts.UpgradeAddsRequiredResources | api/db.py:3007-3017 | existing resource rows survive in any state; every row added is one a requirement of the card's own task asks for, in that requirement's quantity and marked needed; every named requirement has its row unless a resource is unknown |
| Cohorts.ReapplyIdempotent | api/db.py:2908-3039 | applying the same template a second time, version check or not, changes nothing |
| Moves.CarriedIsDirect | api/db.py:2889-2900 | a date carried through any sequence of moves ends where the direct move puts it if and only if it is a work day or the first move that crosses a work day goes the way of the whole journey |
| Moves.CardPathIndependence | api/db.py:2836-2905 | one card of any board is where the direct move puts it if and only if it is detached, on its calendar, or the moves set off the right way |
| Moves.PathIndependence | api/db.py:2836-2905 | board-wide path independence with its exact condition on the attached cards, checked before the moves |
| Moves.ThereAndBack | api/db.py:2836-2905 | moving away and back restores the board if and only if every attached card is on its calendar or its workweek sees no work day between the dates |
| Moves.ShiftKeepsGap | api/db.py:2892-2900 | the number of work days between two dates survives a move if and only if the move is not backward or both dates or neither are work days |
| Moves.ShiftKeepsApart | api/db.py:2892-2900 | strict order survives a move if and only if nothing moves or a work day parts the two dates, counting the later date going forward and the earlier one going backward |
| Moves.RescheduleKeepsSpacing | api/db.py:2866-2869 | attached cards of one workweek never change order, start against start, end against end or one's end against the other's start; and for each of these pairs the work-day gap and strict order are kept if and only if the direction of the move and the two dates allow it, as the two lemmas above say |
| Moves.WorkDayDrift | api/db.py:2872-2900 | in every workweek a work day moves by the whole weeks of the anchor's move and at most one week more: by none exactly when the days left over hold no work day of its week, by a full one exactly when they hold all of them |
| Moves.AnyDayDrift | api/db.py:2872-2900 | a date off its calendar goes at most six days further, against the direction of the move |
| Moves.DistantWorkDaysKeepOrder | api/db.py:2872-2900 | work days of different workweeks at least 7 days apart keep their strict order under one anchor move |
| Moves.DistantDatesKeepOrder | api/db.py:2872-2900 | any two dates of different workweeks at least 13 days apart keep their strict order under one anchor move |
| Moves.RescheduleKeepsDistantOrder | api/db.py:2836-2905 | both hold for the starts and ends of any two attached cards, whatever their workweeks |
| Moves.RescheduleKeepsLength | api/db.py:2892-2900 | a card spans as many work days as before if and only if a forward move finds it starting on a work day, a backward move finds it ending on one, or its workweek sees no work day between the anchors |
| Moves.OffsetLanding | api/db.py:2696 | an offset from S carried to S' equals the offset from S' if and only if SameLanding holds |
| Moves.EndLanding | api/db.py:2645-2657 | durations commute with moves that keep a task's landing: the end moves with the start |
| Moves.CardLanding | api/db.py:2693-2700 | a card moved from S to S' equals the card placed at S' if and only if its offset keeps its landing |
| Moves.RescheduleIsReinstantiate | api/db.py:2836-2905 | rescheduling an untouched instance of an unchanged template to S' gives the board that instantiating at S' gives, if and only if every task keeps its landing: always for offsets above 0, on the same side of the calendar for offsets below 0, and for offset 0 as stated by SameLanding |
| Moves.SaturdayDrifts | api/db.py:2889-2900 | a concrete board: moved a day on and back, a Monday-to-Friday card on Saturday comes back on Friday |
| Moves.SaturdayStretches | api/db.py:2892-2900 | a concrete board: moved one work day on, a card from Saturday to Monday spans two work days instead of one |
| Moves.SaturdayStays | api/db.py:2889-2900 | a concrete board: instantiated on Saturday and rescheduled to Friday, a task of offset 0 stays on Saturday |
| Moves.SpacingGrows | api/db.py:2889-2900 | a concrete board: moved one work day back, a Friday card and a Saturday card with no work day between them end with one between them |
| Moves.WeekendCollapses | api/db.py:2889-2900 | a concrete board: moved one work day on, a Saturday card and a Sunday card end on one Monday |
| Moves.OrderSwaps | api/db.py:2866-2900 | a concrete board: moved from Sunday to Monday, a Monday-only card passes a Sunday-only card six days after it, both on their calendars |
| Moves.OffDayOrderSwaps | api/db.py:2866-2900 | a concrete board: with one card off its calendar even twelve days apart are not enough |
| Runs.StepKeepsInvariant | api/db.py:2458-3099 | no board operation breaks keys and foreign keys, distinct task local ids among attached cards, or the version order |
| Runs.RunKeepsInvariant | api/db.py:2458-3099 | over every run, attached cards have distinct local ids, live owners, and versions not above their template's |
| Runs.EmptyBoard | api/db.py:2458-3099 | the board of a new database satisfies the invariant |
| Runs.StepLeavesCard | api/db.py:2836-3076 | a step on one instance leaves detached cards and other instances' cards untouched, row and resources |
| Runs.RunLeavesCard | api/db.py:2836-3076 | however long the run, a card stays the row it was until a step concerns it |
| Runs.DetachedForGood | api/db.py:3069-3076 | a detached card loses its instance and task, keeps every other field, and stays so over every run that does not name it |
| Runs.DeletedTemplateLeavesWork | api/db.py:2568-2578 | deleting a template leaves instances, cards and their rows in place, and its instances can no longer be moved or upgraded |
| Runs.OutdatedIffUpdated | api/db.py:2544-2565 | over every run that neither upgrades nor removes it, a current instance becomes outdated exactly when its template is updated, by one version for each update |
| Sorting.SortIsStable | api/orchestrator.py:545-551 | the sort permutes, orders, and keeps equal elements in their order |
| Sorting.StableSortUnique | api/orchestrator.py:545-551 | a stable sort of a list is determined by its order |
| Sorting.CascadeIsCompound | api/orchestrator.py:545-551 | sorting by the minor key, then stably by the major one, is one sort by the compound key |
| ReanalyzeOrder.CascadeIsPriority | api/orchestrator.py:540-551 | the three sorts are one sort by hierarchy rank, passdown first, newest first |
| ReanalyzeOrder.TierFirst | api/orchestrator.py:540-551 | a record of the tiers user, project, topic or any other comes before one of a later tier whatever else they hold; within a tier passdowns first, then by timestamp or else processing time, newest first and undated last |
| ReanalyzeOrder.Select | api/orchestrator.py:537-538 | manual records are left out, the rest keep their order |
| ReanalyzeOrder.EveryRecordHasTier | api/orchestrator.py:543-551 | every record is in one of those four tiers |
| ReanalyzeOrder.ReanalyzableCounts | api/orchestrator.py:537-538 | every record that is not manual is there as often as it is stored, and no manual one is |
| ReanalyzeOrder.QueueOrder | api/orchestrator.py:534-551 | the queue is a permutation of the non-manual records in that priority order, with full ties in stored order |
| ReanalyzeOrder.QueueOrderUnique | api/orchestrator.py:540-551 | no other order of those records meets that description |
| ShiftWindows.ResolveShiftNum | api/calendar_ingest.py:454-491 | the loop finds the first covering window in start order, or 1 |
| ShiftWindows.EarliestCovering | api/calendar_ingest.py:474-491 | the shift found covers the time and starts first among those that do; 1 otherwise means none covers |
| ShiftWindows.CoversIsArc | api/calendar_ingest.py:486-490 | the two-branch test, midnight wrap included, is membership of a circular arc of the day |
| ShiftWindows.OnlyCovering | api/calendar_ingest.py:474-491 | when one window alone covers the time its shift is found, whatever the row order |
| ShiftWindows.HandOverTiles | api/calendar_ingest.py:474-491 | shifts that hand over round the clock cover every minute exactly once |
| ShiftWindows.RoundTheClock | api/calendar_ingest.py:474-491 | on such a schedule every time finds its one shift, whatever the row order |
| IngestGroups.GroupItems | api/orchestrator.py:726-736 | the loops with dict and lists build exactly Groups: one time-ordered group per conversation, one per standalone item |
| IngestGroups.GroupsPartition | api/orchestrator.py:721-736 | every item of the batch is in exactly one place of exactly one group, and each group is a whole conversation oldest first or one standalone item |
| Ingest.Coordinator.ClaimIngestItems | api/orchestrator.py:667-692 | the claimed ids are exactly the non-blank ones neither in flight nor stored, and they join the in-flight set |
| Ingest.Coordinator.SelectClaimed | api/app.py:1609-1627 | the request keeps the first item of each claimed id |
| Ingest.Coordinator.IngestRequest | api/app.py:1604-1632 | the handler up to its hand-over is the Claim step of the state machine |
| Ingest.Coordinator.FailingRequest | api/orchestrator.py:683-692 | a claim loop that raises after n ids is the FailClaim step: what it claimed stays in flight |
| Ingest.Coordinator.StartBatch | api/orchestrator.py:716-719 | the start of the background task is the Start step of the state machine, or the Abort step if reading the noise rules raises |
| Ingest.Coordinator.Settle | api/orchestrator.py:738-741 | marking an item done is the MarkDone step of the state machine |
| Ingest.Coordinator.HandleItem | api/orchestrator.py:743-780 | one uninterrupted handling of an item is the steps Begin, then MarkDone if cancelled, else Save, Skip or Raise, with MarkDone after the first two |
| Ingest.HandlingGoesThrough | api/orchestrator.py:743-780 | once an item has begun, each of its remaining steps is enabled in turn |
| Ingest.ClaimableIff | api/orchestrator.py:683-691 | an id is claimed if and only if it is among the candidates, not blank, not in flight and not stored |
| Ingest.ClaimedReachBatch | api/app.py:1604-1632 | every claimed id reaches the request's batch exactly once, and none was in flight or stored |
| Ingest.NothingSkipped | api/app.py:1604-1632 | in every reachable state, after a request each id of its body is blank, was in flight or stored before, or is the id of exactly one item, the first with it, waiting in the new batch; the batch holds nothing else |
| Ingest.RunKeepsInvariant | api/orchestrator.py:667-796 | the same over every run |
| Ingest.StepKeepsInvariant | api/orchestrator.py:667-796 | every step of every thread keeps exclusion and conversation order |
| Ingest.InFlightAlwaysExact | api/orchestrator.py:667-780 | in every interleaving the in-flight set is exactly the ids accepted and not marked done, no id is in two live batches, the pending counter counts the items of started tasks not marked done, and the max(0, ...) clamp never bites |
| Ingest.ConversationsOldestFirst | api/orchestrator.py:726-786 | in every interleaving, when an item begins all older items of its conversation in the batch have settled, and nothing begins twice |
| Ingest.StuckBehindAbandoned | api/orchestrator.py:726-796 | when nothing moves, an unfinished item of a started task is abandoned or waits behind an older abandoned item of its own conversation |
| Ingest.LostForGood | api/orchestrator.py:782-786 | once an item is abandoned, in every further run no younger item of its conversation begins and all of them stay in flight |
| Ingest.DrainsUnlessEscaped | api/orchestrator.py:683-796 | when all tasks have finished, the counter is 0 and nothing is in flight if and only if no step of the run let an exception escape: from the claim loop, from the task before a group reaches a worker, or from a handler past its own try |
| Ingest.EscapeStrands | api/orchestrator.py:760-764 | a concrete run: the noise filter raising on a batch's one item leaves the counter at 1 and the id in flight |
| Ingest.FailedStartStrands | api/orchestrator.py:716-719 | a concrete run: reading the noise rules raising leaves the counter at 0 and the id in flight |
| Ingest.StoredOnlyBySave | api/orchestrator.py:753-780 | over every run, nothing is stored but what a batch saves or is written from outside |
| Ingest.RetryPossible | api/orchestrator.py:738-741 | an item whose handling stored nothing is taken again by any later request that names it |
| Ingest.CancellingStops | api/orchestrator.py:744-748 | once the user cancels and until the flag is cleared, no worker takes up the processing of another item, in any interleaving |
| Ingest.RetiredForGood | api/orchestrator.py:667-692 | from any reachable state on, an id that is stored and waits in no batch is never begun again, in any interleaving without a deletion of its row from outside |
| Ingest.StoredOnce | api/orchestrator.py:667-692 | over any run, an item that a batch has stored is not processed a second time, unless its row is deleted from outside |
| IngestProgress.EffortBound | api/orchestrator.py:695-796 | a batch has at most three steps for each of its items before it, and two more |
| IngestProgress.StepTakesEffort | api/orchestrator.py:695-796 | every step of a task or worker leaves fewer of them, and cancelling and outside writes leave as many |
| IngestProgress.TaskStepsBounded | api/orchestrator.py:695-796 | once requests stop, the steps tasks and workers take are bounded by that count, in every interleaving |
| IngestProgress.FinishedIffStopped | api/orchestrator.py:695-796 | a state is finished if and only if no task or worker step is enabled, and otherwise one without an escaping exception is |
| IngestProgress.CanFinish | api/orchestrator.py:695-796 | from every state the tasks and workers can finish within the bound, without an escaping exception |
| IngestProgress.CanDrain | api/orchestrator.py:695-796 | from every reachable state in which nothing has escaped, they can bring the counter to 0 and the in-flight set to empty |
| Descriptions.NormIgnoresCase | api/db.py:928-931 | case never influences the normalised description |
| Descriptions.SameButCase | api/db.py:928-931 | descriptions that differ only in the case of letters have one normal form |
| Descriptions.PlainApart | api/db.py:928-931 | single-spaced lower-case descriptions without a closing stop are their own normal forms, so different ones are never taken for each other |
| Descriptions.NormIsNormal | api/db.py:928-931 | the normalised description is lower case, with single spaces between words, none in front and no closing stop |
| Descriptions.ClosingStop | api/db.py:928-931 | for every description, adding a closing stop leaves the normal form alone if and only if the description is blank or does not end in white space |
| Descriptions.NormAgain | api/db.py:928-931 | normalising is idempotent if and only if no white space precedes the closing stops of the stripped text |
| Descriptions.SpaceBeforeStop | api/db.py:928-931 | a concrete pair told apart only by a space before the stop |
| Descriptions.NormTwice | api/db.py:928-931 | a concrete description that normalising twice changes again |
| ThreadDedup.TodoStore.SaveAnalysis | api/app.py:549-697 | the todo and conversation tables after one save, as the insert loop leaves them |
| ThreadDedup.SaveActionsExtends | api/app.py:657-697 | a save's insert loop removes and rewrites nothing, and every row it adds is an action item of its item under a new id |
| ThreadDedup.SaveActionDeduplicates | api/app.py:657-697 | one guarded insert never repeats a normalised description within a conversation |
| ThreadDedup.SaveActionsDeduplicates | api/app.py:657-697 | nor do any number of them in one save |
| ThreadDedup.SaveActionsRecordsAll | api/app.py:657-697 | no action item is lost: each ends with a todo of the item that says exactly it, or one of its conversation with its normal form |
| ThreadDedup.SaveActionOnlyIfNeeded | api/app.py:657-666 | one todo is added if no row answers for the action item yet, and nothing changes otherwise |
| ThreadDedup.SaveRows | api/app.py:549-697 | a save files the item under its conversation, drops the item's own todos on re-analysis and no other, adds todos of the item for its action items only, and leaves every tracked action item answered for |
| ThreadDedup.SaveAgain | api/app.py:521-697 | scanning an unchanged item again adds nothing |
| ThreadDedup.SaveDeduplicatesIff | api/app.py:521-697 | a save keeps conversations free of repeats if and only if no todo it leaves in place clashes in the conversation the item is now filed under |
| ThreadDedup.ChangedConversationRepeats | api/app.py:549-697 | concrete tables: saved again under another conversation, an item takes along a todo that conversation already holds |
| ThreadDedup.StableSaveDoesNotClash | api/app.py:549-697 | a save that re-analyses, or keeps the item's conversation, never clashes |
| ThreadDedup.RunDeduplicated | api/db.py:934-953 | over every run of saves and deletions with stable conversation ids, no conversation holds two todos with one normalised description |
| ThreadDedup.EmptyStore | api/app.py:549-697 | the tables of a new database hold no repeat |
| Centroids.CentroidIndex.RecomputeAll | api/embedder.py:161-168 | the set loop, in any order, sets or drops exactly the listed categories in both dicts |
| Centroids.CentroidIndex.UpdateProject | api/embedder.py:96-170 | the whole embeddings table after an update, unavailable model and empty vector included |
| Centroids.CentroidIndex.RemoveItem | api/embedder.py:193-213 | the whole embeddings table after a removal |
| Centroids.VectorsWithout | api/embedder.py:84-87 | dropping an item leaves every other category's vectors alone and shortens each of its own |
| Centroids.RemovedAgrees | api/embedder.py:193-213 | a removal leaves the index equal to a recomputation from the item list |
| Centroids.FiledAgreesIff | api/embedder.py:132-170 | filing an item leaves it equal if and only if the category the item leaves is among those recomputed |
| Centroids.UpdatedAgreesIff | api/embedder.py:96-170 | an update leaves every project's index equal if and only if each category the target project lists the item under is the new one, or is named as old category while no other project is named as the old project |
| Centroids.NamedCategoryGoes | api/embedder.py:132-168 | a concrete index: re-filing its one item under another category while naming the old one leaves the new category alone |
| Centroids.DepartedItems | api/embedder.py:111-130 | the project an item leaves loses that item and nothing else |
| Centroids.UpdatedFiles | api/embedder.py:111-170 | the item is listed exactly once in the target project and no longer in another old project named; every other item stays where it was |
| Centroids.RunAgrees | api/embedder.py:84-213 | over every run of such updates and of removals, centroids and counts equal those computed from scratch, keyed by exactly the categories present, with unique item ids |
| Centroids.EmptyIndex | api/embedder.py:84-213 | the index of a new database agrees |
| Centroids.UnnamedCategoryStays | api/embedder.py:132-138 | a concrete index: re-filing its one item without naming the old category, or naming it while crossing projects, leaves the old centroid behind |
| CardTodoMirror.MirroredBoard.GetCardTodoId | api/db.py:2135-2151 | the todo linked to a card, if any |
| CardTodoMirror.MirroredBoard.CreateTodoForCard | api/app.py:3722-3726 | a fresh todo, done as the card is, becomes the card's only todo link |
| CardTodoMirror.MirroredBoard.ApplyRelations | api/app.py:3766-3771 | dependencies, links and resources in the handlers' order, ending at the first unknown card or resource |
| CardTodoMirror.MirroredBoard.LookaheadCreateCard | api/app.py:3749-3774 | cards, dependency, link and resource rows and todos after a POST, re-posts and requests that fail half-way included |
| CardTodoMirror.MirroredBoard.LookaheadUpdateCard | api/app.py:3787-3824 | cards, dependency, link and resource rows, todos and instances after a PATCH, the 404, the missing todo, the auto-completed instance and requests that fail half-way included |
| CardTodoMirror.MirroredBoard.PatchTodoRow | api/app.py:1890-1900 | the flag and, through the loop over linked cards, their statuses |
| CardTodoMirror.MirroredBoard.DeleteTodoRow | api/app.py:1903-1925 | the row, through the loop exactly its link rows, and the items row made for a manual todo go |
| CardTodoMirror.MirroredBoard.LookaheadDeleteCard | api/app.py:3827-3839 | card, links and mirrored todo go together |
| CardTodoMirror.MirroredBoard.SetCardLinks | api/db.py:2111-2132 | the card's user links are replaced by the valid ones requested, and todo links survive whatever is asked |
| CardTodoMirror.CreatedCard | api/app.py:3749-3774 | a POST that names only known cards and resources leaves its row, exactly the dependencies, user links and resources it carries, and the card's todo or a new one that is done as the card is; no other todo changes |
| CardTodoMirror.UpdatedCard | api/app.py:3787-3824 | a PATCH that does leaves the same, a linked todo done exactly as a status it gives, and its instance completed as auto-completion completes it |
| CardTodoMirror.RelationsServed | api/app.py:3766-3771 | relations a request carries replace the card's own, those it does not carry stay |
| CardTodoMirror.SetLinksExactly | api/db.py:2111-2132 | the card's user links are exactly those asked for of the three kinds with a target; every other link stays |
| CardTodoMirror.DeletedTodoRows | api/app.py:1903-1925 | a todo goes with exactly its link rows and the items row made for it |
| CardTodoMirror.PatchedTodo | api/app.py:1890-1900 | the flag goes to the row, if it exists, and every linked card becomes done or planned even if it does not; no other todo or card changes |
| CardTodoMirror.CreateCardMirrors | api/app.py:3759-3774 | a POST keeps the mirror if and only if it does not re-post a card across the done line, and one that names only known cards and resources leaves the card a todo |
| CardTodoMirror.UpdateCardMirrors | api/app.py:3787-3824 | a PATCH keeps the mirror if and only if it does not move a card with a todo across the done line while naming an unknown card or resource; one that names only known ones leaves the card a todo |
| CardTodoMirror.DeleteCardMirrors | api/app.py:3834-3839 | deleting a card with its todo keeps the mirror |
| CardTodoMirror.LinkStep | api/db.py:2111-2132 | replacing user links, deleting, inserting and purging todos keep the mirror |
| CardTodoMirror.PatchTodoMirrors | api/app.py:1890-1900 | patching a todo keeps the mirror, dangling links included |
| CardTodoMirror.TickAndUntick | api/app.py:1893-1899 | ticking an open todo and unticking it restores everything if and only if its cards were planned |
| CardTodoMirror.BlockedIsForgotten | api/app.py:1893-1899 | a concrete state: ticked and unticked, a blocked card comes back planned |
| CardTodoMirror.CreateThenDelete | api/app.py:3749-3839 | creating a fresh card, with whatever relations, and deleting it leaves nothing behind but a used-up todo id |
| CardTodoMirror.SchedulingKeepsStatus | api/db.py:2660-3076 | no scheduling operation changes the status of a card there before and after |
| CardTodoMirror.StepMirrors | api/app.py:3722-3839 | every operation keeps the mirror, with exactly those two exceptions |
| CardTodoMirror.RunMirrors | api/app.py:3722-3839 | over every run without them a card has at most one todo link, a todo at most one card, and an existing linked todo is done if and only if the card is |
| CardTodoMirror.EmptyMirrored | api/app.py:3722-3839 | the tables of a new database satisfy the mirror |
| CardTodoMirror.RepostBreaks | api/app.py:3763-3773 | a concrete state: re-posting a done card with the default status leaves its todo done |
| CardTodoMirror.FailedPatchBreaks | api/app.py:3792-3796 | a concrete state: reopening a card while naming a dependency that does not exist leaves its todo done |
| ProposalLedger.CalendarStore.AddCalendarProposal | api/db.py:3195-3221 | insert-or-ignore under the unique event index, and whether it inserted |
| ProposalLedger.CalendarStore.DecideCalendarProposal | api/db.py:3259-3304 | the decision is written if and only if the proposal exists and is undecided, with the reason otherwise |
| ProposalLedger.CalendarStore.RecordDrop | api/calendar_ingest.py:301-334 | a drop row is written unless a row exists |
| ProposalLedger.CalendarStore.RecordProposal | api/calendar_ingest.py:384-419 | the two commits in their order, and the state when the second one fails |
| ProposalLedger.CalendarStore.HandleItem | api/calendar_ingest.py:422-451 | the override, pre-filter and model stages lead to a drop, a proposal or nothing |
| ProposalLedger.CalendarStore.AcceptCard | api/app.py:4473-4562 | acceptance of a card proposal: unknown, decided, without project, landed and decided, or landed and then ended by an exception |
| ProposalLedger.CalendarStore.RejectProposal | api/app.py:4427-4442 | rejection writes only the decision, and only once |
| ProposalLedger.HandledIsRememberedOrRetried | api/calendar_ingest.py:422-451 | after handling, an event is claimable again if and only if it has no row, which happens only when the model or the row write failed, and a proposal row never lacks its proposal |
| ProposalLedger.StepKeepsInvariant | api/calendar_ingest.py:384-419 | every step, crashes between commits included, keeps one proposal per event, a proposal behind every proposal row, and cards accounted for |
| ProposalLedger.RunKeepsInvariant | api/calendar_ingest.py:384-419 | the same over every run |
| ProposalLedger.RunKeepsDecision | api/db.py:3259-3304 | a decided proposal never changes again, in any run, crash or no crash |
| ProposalLedger.DecisionWrites | api/db.py:3259-3304 | a decision changes one undecided proposal, and of it only the decision, the payload if one came with it, and the card for an accepted card |
| ProposalLedger.ProposalWrites | api/db.py:3195-3221 | proposing an event gives it one undecided proposal with the kind and payload given, or leaves the one it has |
| ProposalLedger.KeyDateHasRow | api/app.py:4581-4584 | a key date is accepted only while its event has a row |
| ProposalLedger.OneHandlerAtATime | api/orchestrator.py:683-691 | in every interleaving, an event being handled is not claimed again until it is marked done or the process dies |
| ProposalLedger.DeletedRowComesBack | api/calendar_ingest.py:384-419 | an event whose row is deleted can be claimed again, and keeps the proposal it has |
| ProposalLedger.CutOffWhenBroken | api/app.py:4473-4562 | cards are cut off from their proposal exactly when a crash or an exception of the run falls between a card and its decision |
| ProposalLedger.RetryAfterCrash | api/calendar_ingest.py:385-398 | after a crash an event without a row can be claimed again, and the retry ends with its row and one proposal, the earlier one untouched if there was one |
| ProposalLedger.BijectionIffAcceptanceUnbroken | api/app.py:4473-4562 | accepted card proposals and created cards are in bijection through card_id if and only if no crash and no exception of the run hit an acceptance between creating the card and writing the decision |
| ProposalLedger.CrashLeavesTwoCards | api/app.py:4533-4562 | a concrete run: one event accepted again after a crash in mid-acceptance has two cards |

## Left out

- Calendar conversion: ISO date strings, the Gregorian calendar and the year 1..9999 bounds are replaced by unbounded integer days, so overflow and malformed dates are not modelled.
- Unicode: stripping, splitting and lower-casing treat ASCII white space and letters only.
- Descriptive columns: names, descriptions, creation and update times, shift preference and the number of a task's requirement rows beyond what reaches a card.
- set_instance_status: sets one column and touches no card.
- Requests that fail on a value of the wrong type (non-numeric offsets, quantities and resource ids): inputs are typed. In `Ingest`, ids and timestamps of the wrong type are covered by the steps `FailClaim` and `Lose`, which may happen at any time.
- Direct PATCH of a card's instance fields: excluded from the runs of `Runs`, since it can attach two cards to one task; `CardTodoMirror` allows it.
- Work-day gaps between cards of different workweeks: there is no one workweek to count them in; only their order is covered.
- Deleting resources from the catalogue.
- The bound on worker threads: the state machine allows any number, which includes every bound.
- release_ingest_item: never called by the program.
- Crashes of the ingest process: `Ingest` has none, since its state is in memory; `ProposalLedger` has them, since its state is stored.
- Todos typed or edited by the user (`api/app.py:1760-1841`, `api/app.py:1880-1883`): nothing deduplicates them, so they are not part of the runs of `ThreadDedup`.
- Intel rows, contacts, user-edited fields, todo owners, assignees and overrides in `_save_analysis`: they do not influence which todos exist.
- Embedding arithmetic: the normalised mean is an arbitrary function of the list of vectors of a category; that it is never empty is taken from vectors being non-empty.
- score_item and delete_embedding_project.
- Mirroring of titles, deadlines, owners and projects onto todos: only the done flag and the card status are modelled; rescheduling does not mirror dates in the program either.
- Which todo rows an items row was made for is part of `CardTodoMirror`; the rest of those rows, and their being read elsewhere, is not.
- _backfill_lookahead_todos: a one-time migration; `CardTodoMirror.CreateTodoForCard` is its body.
- Link suggestions: the annotator only proposes item links (`api/app.py:4278-4280`), which are user links here.
- Todos of cards removed by deleting an instance stay behind, as in the program.
- The landing of key-date and link proposals (`api/app.py:4565-4645`): only their decision, and that a key date needs the event's row, are modelled; a payload that names another source item than the proposal's is not.
- The prompt, the candidate clamping and the payload fields of a proposal, which is an opaque string.
- Connectors, HTTP routing, model calls, noise rules, situations, graph indexing, auto-scan timers and rendering.
