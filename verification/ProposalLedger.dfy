/**
 The calendar proposal ledger, with crashes between its commits
 (api/calendar_ingest.py:301-451, api/db.py:3195-3304, api/app.py:4427-4562).
 Every write commits on its own; the database lock spans several of them.
 */
module ProposalLedger {
  import opened Options

  datatype Kind = CardKind | KeyDateKind | LinkKind
  datatype Decision = Pending | Accepted | Rejected
  datatype Proposal = Proposal(item: string, kind: Kind, payload: string, decision: Decision, card: Option<string>)

  /** Who wrote an event's items row: a drop, or a recorded proposal. */
  datatype Row = DropRow | ProposalRow

  datatype Stage = Handling | Settled

  /** A lock span caught between its commits. */
  datatype Span = Free | Recording(item: string) | Accepting(id: nat, card: string, payload: string)

  /**
   `landed` remembers which proposal's acceptance created a card, and `cutOff`
   the cards whose acceptance a crash or an exception ended before the decision was
   written.
   */
  datatype State = State(
    rows: map<string, Row>, proposals: map<nat, Proposal>, nextId: nat,
    inFlight: map<string, Stage>, span: Span, landed: map<string, nat>, cutOff: set<string>)

  const INITIAL := State(map[], map[], 0, map[], Free, map[], {})

  // ---- Steps -----------------------------------------------------------------------

  datatype Step =
    | Claim(item: string)
    | Drop(item: string)
    | GiveUp(item: string)
    | Propose(item: string, kind: Kind, payload: string)
    | WriteRow
    | FailRow
    | MarkDone(item: string)
    | LandCard(id: nat, card: string, payload: string)
    | DecideCard
    | FailDecide
    | AcceptOther(id: nat, payload: string)
    | Reject(id: nat)
    | DeleteRow(item: string)
    | Crash

  predicate Undecided(s: State, id: nat) {
    id in s.proposals && s.proposals[id].decision.Pending?
  }

  predicate HasProposal(s: State, item: string) {
    exists id | id in s.proposals :: s.proposals[id].item == item
  }

  /** Steps under the lock wait for it; accepting a key date needs the event's row. */
  predicate Enabled(s: State, step: Step) {
    match step
    case Claim(item) => s.span.Free? && item !in s.rows && item !in s.inFlight
    case Drop(item) => s.span.Free? && item in s.inFlight && s.inFlight[item].Handling?
    case GiveUp(item) => s.span != Recording(item) && item in s.inFlight && s.inFlight[item].Handling?
    case Propose(item, _, _) => s.span.Free? && item in s.inFlight && s.inFlight[item].Handling?
    case WriteRow => s.span.Recording?
    case FailRow => s.span.Recording?
    case MarkDone(item) => s.span.Free? && item in s.inFlight && s.inFlight[item].Settled?
    case LandCard(id, card, _) =>
      s.span.Free? && Undecided(s, id) && s.proposals[id].kind.CardKind? && card !in s.landed
    case DecideCard => s.span.Accepting?
    case FailDecide => s.span.Accepting?
    case AcceptOther(id, _) =>
      s.span.Free? && Undecided(s, id) && !s.proposals[id].kind.CardKind?
      && (s.proposals[id].kind.KeyDateKind? ==> s.proposals[id].item in s.rows)
    case Reject(id) => s.span.Free? && Undecided(s, id)
    case DeleteRow(_) => s.span.Free?
    case Crash => true
  }

  function Decided(s: State, id: nat, decision: Decision, card: Option<string>, payload: Option<string>): State
    requires id in s.proposals
  {
    var p := s.proposals[id];
    s.(proposals := s.proposals[id := p.(decision := decision, card := if card.Some? then card else p.card,
                                         payload := if payload.Some? then payload.value else p.payload)])
  }

  /** Insert-or-ignore under the unique index on the event id. */
  function WithProposal(s: State, item: string, kind: Kind, payload: string): State {
    if HasProposal(s, item) then s
    else s.(proposals := s.proposals[s.nextId := Proposal(item, kind, payload, Pending, None)], nextId := s.nextId + 1)
  }

  function Next(s: State, step: Step): State
    requires Enabled(s, step)
  {
    match step
    case Claim(item) => s.(inFlight := s.inFlight[item := Handling])
    case Drop(item) =>
      s.(rows := if item in s.rows then s.rows else s.rows[item := DropRow], inFlight := s.inFlight[item := Settled])
    case GiveUp(item) => s.(inFlight := s.inFlight[item := Settled])
    case Propose(item, kind, payload) => WithProposal(s, item, kind, payload).(span := Recording(item))
    case WriteRow =>
      s.(rows := s.rows[s.span.item := ProposalRow], inFlight := s.inFlight[s.span.item := Settled], span := Free)
    case FailRow => s.(inFlight := s.inFlight[s.span.item := Settled], span := Free)
    case MarkDone(item) => s.(inFlight := s.inFlight - {item})
    case LandCard(id, card, payload) => s.(landed := s.landed[card := id], span := Accepting(id, card, payload))
    case DecideCard =>
      if s.span.id in s.proposals
      then Decided(s, s.span.id, Accepted, Some(s.span.card), Some(s.span.payload)).(span := Free)
      else s.(span := Free)
    case FailDecide => s.(span := Free, cutOff := s.cutOff + {s.span.card})
    case AcceptOther(id, payload) => Decided(s, id, Accepted, None, Some(payload))
    case Reject(id) => Decided(s, id, Rejected, None, None)
    case DeleteRow(item) => s.(rows := s.rows - {item})
    case Crash =>
      s.(inFlight := map[], span := Free, cutOff := s.cutOff + if s.span.Accepting? then {s.span.card} else {})
  }

  /** The user's category override, and what the model said. */
  datatype Override = ForceIgnore | ForceInclude | NoOverride
  datatype Reply = ModelFailed | Ignore | Worth(kind: Kind, payload: string)

  /** The steps one event goes through once claimed; `rowFails` says the second commit raised. */
  function Handled(s: State, item: string, o: Override, filtered: bool, reply: Reply, rowFails: bool): State
    requires Enabled(s, Drop(item))
  {
    if o.ForceIgnore? || (o.NoOverride? && filtered) || reply.Ignore? then Next(s, Drop(item))
    else if reply.ModelFailed? then Next(s, GiveUp(item))
    else Next(Next(s, Propose(item, reply.kind, reply.payload)), if rowFails then FailRow else WriteRow)
  }

  // ---- The writers -------------------------------------------------------------------

  datatype Verdict = Done | NotFound | AlreadyDecided | Refused | Broken

  /** The tables behind the ledger; the methods run under the database lock. */
  class CalendarStore {
    var rows: map<string, Row>
    var proposals: map<nat, Proposal>
    var nextId: nat
    var inFlight: map<string, Stage>
    var landed: map<string, nat>
    ghost var cutOff: set<string>

    ghost function Model(): State
      reads this
    {
      State(rows, proposals, nextId, inFlight, Free, landed, cutOff)
    }

    method AddCalendarProposal(item: string, kind: Kind, payload: string) returns (added: bool)
      modifies this`proposals, this`nextId
      ensures added == !HasProposal(old(Model()), item)
      ensures Model() == WithProposal(old(Model()), item, kind, payload)
    {
      var known := set id | id in proposals && proposals[id].item == item;
      if known != {} {
        assert HasProposal(Model(), item) by {
          var id :| id in known;
        }
        return false;
      }
      assert forall id | id in proposals && proposals[id].item == item :: id in known;
      proposals := proposals[nextId := Proposal(item, kind, payload, Pending, None)];
      nextId := nextId + 1;
      return true;
    }

    method DecideCalendarProposal(id: nat, decision: Decision, card: Option<string>, payload: Option<string>)
      returns (v: Verdict)
      requires !decision.Pending?
      modifies this`proposals
      ensures v == if id !in old(proposals) then NotFound
                   else if !Undecided(old(Model()), id) then AlreadyDecided else Done
      ensures Model() == if v.Done? then Decided(old(Model()), id, decision, card, payload) else old(Model())
    {
      if id !in proposals {
        return NotFound;
      }
      var p := proposals[id];
      if p.decision != Pending {
        return AlreadyDecided;
      }
      p := p.(decision := decision);
      if card.Some? {
        p := p.(card := card);
      }
      if payload.Some? {
        p := p.(payload := payload.value);
      }
      proposals := proposals[id := p];
      return Done;
    }

    /** `_record_drop` */
    method RecordDrop(item: string)
      requires Enabled(Model(), Drop(item))
      modifies this`rows, this`inFlight
      ensures Model() == Next(old(Model()), Drop(item))
    {
      if item !in rows {
        rows := rows[item := DropRow];
      }
      inFlight := inFlight[item := Settled];
    }

    /** `_record_proposal`: the proposal commits first, the row second; the second write may fail. */
    method RecordProposal(item: string, kind: Kind, payload: string, rowFails: bool)
      requires Enabled(Model(), Propose(item, kind, payload))
      modifies this
      ensures Model() == Next(Next(old(Model()), Propose(item, kind, payload)), if rowFails then FailRow else WriteRow)
    {
      hide HasProposal;
      var added := AddCalendarProposal(item, kind, payload);
      if !rowFails {
        rows := rows[item := ProposalRow];
      }
      inFlight := inFlight[item := Settled];
    }

    /** `handle_item`: the override first, then the pre-filter, then the model. */
    method HandleItem(item: string, o: Override, filtered: bool, reply: Reply, rowFails: bool)
      requires Enabled(Model(), Drop(item))
      modifies this
      ensures Model() == Handled(old(Model()), item, o, filtered, reply, rowFails)
    {
      hide HasProposal;
      if o == ForceIgnore {
        RecordDrop(item);
        return;
      }
      if o != ForceInclude {
        if filtered {
          RecordDrop(item);
          return;
        }
      }
      match reply
      case ModelFailed => inFlight := inFlight[item := Settled];
      case Ignore => RecordDrop(item);
      case Worth(kind, payload) => RecordProposal(item, kind, payload, rowFails);
    }

    /**
     Acceptance of a card proposal; `card` is the fresh id its card is created under,
     and `fails` says that an exception follows the card's commit.
     */
    method AcceptCard(id: nat, card: string, payload: string, hasProject: bool, fails: bool) returns (v: Verdict)
      requires card !in landed && (id in proposals ==> proposals[id].kind.CardKind?)
      modifies this
      ensures v == if id !in old(proposals) then NotFound
                   else if !Undecided(old(Model()), id) then AlreadyDecided
                   else if !hasProject then Refused
                   else if fails then Broken else Done
      ensures v.Done? ==> Model() == Next(Next(old(Model()), LandCard(id, card, payload)), DecideCard)
      ensures v.Broken? ==> Model() == Next(Next(old(Model()), LandCard(id, card, payload)), FailDecide)
      ensures !v.Done? && !v.Broken? ==> Model() == old(Model())
    {
      if id !in proposals {
        return NotFound;
      }
      if proposals[id].decision != Pending {
        return AlreadyDecided;
      }
      if !hasProject {
        return Refused;
      }
      landed := landed[card := id];
      if fails {
        cutOff := cutOff + {card};
        return Broken;
      }
      v := DecideCalendarProposal(id, Accepted, Some(card), Some(payload));
    }

    /** `calendar_reject_proposal` */
    method RejectProposal(id: nat) returns (v: Verdict)
      modifies this`proposals
      ensures v.Done? <==> Undecided(old(Model()), id)
      ensures Model() == if v.Done? then Next(old(Model()), Reject(id)) else old(Model())
    {
      v := DecideCalendarProposal(id, Rejected, None, None);
    }
  }

  // ---- Reachable states -------------------------------------------------------------

  ghost predicate OneProposalPerEvent(s: State) {
    && (forall id | id in s.proposals :: id < s.nextId)
    && (forall i, j | i in s.proposals && j in s.proposals && s.proposals[i].item == s.proposals[j].item :: i == j)
  }

  /** No event is lost: a row written for a proposal has its proposal. */
  ghost predicate RowsHaveProposals(s: State) {
    && (forall item | item in s.rows && s.rows[item].ProposalRow? :: HasProposal(s, item))
    && (s.span.Recording? ==> HasProposal(s, s.span.item))
  }

  ghost predicate PointsTo(s: State, id: nat, card: string) {
    id in s.proposals && s.proposals[id].decision.Accepted? && s.proposals[id].card == Some(card)
  }

  /** An acceptance in progress has its card, and has decided nothing yet. */
  ghost predicate SpanSound(s: State) {
    s.span.Accepting? ==>
      && Undecided(s, s.span.id) && s.proposals[s.span.id].kind.CardKind?
      && s.span.card in s.landed && s.landed[s.span.card] == s.span.id && s.span.card !in s.cutOff
  }

  /** Exactly the accepted card proposals name a card, and it is one their acceptance created. */
  ghost predicate PointersSound(s: State) {
    forall id | id in s.proposals ::
      && (s.proposals[id].card.Some? <==> s.proposals[id].kind.CardKind? && s.proposals[id].decision.Accepted?)
      && (s.proposals[id].card.Some? ==>
            var c := s.proposals[id].card.value; c in s.landed && s.landed[c] == id && c !in s.cutOff)
  }

  /** A created card is named by its proposal, in progress, or cut off. */
  ghost predicate LandedSound(s: State) {
    && (forall c | c in s.landed ::
          PointsTo(s, s.landed[c], c) || c in s.cutOff
          || (s.span.Accepting? && s.span.card == c && s.span.id == s.landed[c]))
    && s.cutOff <= s.landed.Keys
  }

  ghost predicate CardsAccounted(s: State) {
    SpanSound(s) && PointersSound(s) && LandedSound(s)
  }

  ghost predicate Invariant(s: State) {
    OneProposalPerEvent(s) && RowsHaveProposals(s) && CardsAccounted(s)
  }

  lemma ProposeOnePerEvent(s: State, item: string, kind: Kind, payload: string)
    requires OneProposalPerEvent(s)
    ensures OneProposalPerEvent(WithProposal(s, item, kind, payload))
  {
  }

  lemma ProposalsOnePerEvent(s: State, step: Step)
    requires OneProposalPerEvent(s) && Enabled(s, step)
    ensures OneProposalPerEvent(Next(s, step))
  {
    hide HasProposal, WithProposal;
    if step.Propose? {
      ProposeOnePerEvent(s, step.item, step.kind, step.payload);
    }
  }

  /** Proposals are never removed and never change event or kind. */
  ghost predicate ProposalsKept(s: State, s': State) {
    forall id | id in s.proposals ::
      id in s'.proposals && s'.proposals[id].item == s.proposals[id].item
      && s'.proposals[id].kind == s.proposals[id].kind
  }

  lemma ProposeKeeps(s: State, item: string, kind: Kind, payload: string)
    requires OneProposalPerEvent(s)
    ensures
      var s' := WithProposal(s, item, kind, payload);
      && (forall id | id in s.proposals :: id in s'.proposals && s'.proposals[id] == s.proposals[id])
      && (forall id | id in s'.proposals && id !in s.proposals ::
            s'.proposals[id].decision.Pending? && s'.proposals[id].card.None?)
      && s' == s.(proposals := s'.proposals, nextId := s'.nextId)
      && HasProposal(s', item)
  {
    var s' := WithProposal(s, item, kind, payload);
    if s' != s {
      assert s'.proposals[s.nextId].item == item;
    }
  }

  lemma ProposalsStay(s: State, step: Step)
    requires OneProposalPerEvent(s) && Enabled(s, step)
    ensures ProposalsKept(s, Next(s, step))
  {
    hide HasProposal, WithProposal, OneProposalPerEvent;
    if step.Propose? {
      ProposeKeeps(s, step.item, step.kind, step.payload);
    }
  }

  lemma RowsKeepProposals(s: State, step: Step)
    requires OneProposalPerEvent(s) && RowsHaveProposals(s) && Enabled(s, step)
    ensures RowsHaveProposals(Next(s, step))
  {
    hide OneProposalPerEvent, HasProposal, WithProposal, ProposalsKept;
    var s' := Next(s, step);
    ProposalsStay(s, step);
    forall item | HasProposal(s, item)
      ensures HasProposal(s', item)
    {
      StillHasProposal(s, s', item);
    }
    if step.Propose? {
      ProposeKeeps(s, step.item, step.kind, step.payload);
      SameProposals(WithProposal(s, step.item, step.kind, step.payload), s', step.item);
    }
  }

  lemma StillHasProposal(s: State, s': State, item: string)
    requires ProposalsKept(s, s') && HasProposal(s, item)
    ensures HasProposal(s', item)
  {
    var id :| id in s.proposals && s.proposals[id].item == item;
    assert id in s'.proposals && s'.proposals[id].item == item;
  }

  lemma SpanStaysSound(s: State, step: Step)
    requires OneProposalPerEvent(s) && CardsAccounted(s) && Enabled(s, step)
    ensures SpanSound(Next(s, step))
  {
    hide HasProposal, WithProposal, OneProposalPerEvent;
    if step.Propose? {
      ProposeKeeps(s, step.item, step.kind, step.payload);
    }
  }

  lemma PointersStaySound(s: State, step: Step)
    requires OneProposalPerEvent(s) && CardsAccounted(s) && Enabled(s, step)
    ensures PointersSound(Next(s, step))
  {
    hide HasProposal, WithProposal, OneProposalPerEvent;
    if step.Propose? {
      ProposeKeeps(s, step.item, step.kind, step.payload);
    }
  }

  lemma LandedStaysSound(s: State, step: Step)
    requires OneProposalPerEvent(s) && CardsAccounted(s) && Enabled(s, step)
    ensures LandedSound(Next(s, step))
  {
    hide HasProposal, WithProposal, OneProposalPerEvent;
    if step.Propose? {
      ProposeKeeps(s, step.item, step.kind, step.payload);
    }
  }

  lemma StepKeepsInvariant(s: State, step: Step)
    requires Invariant(s) && Enabled(s, step)
    ensures Invariant(Next(s, step))
  {
    hide OneProposalPerEvent, RowsHaveProposals, SpanSound, PointersSound, LandedSound, Enabled, Next;
    ProposalsOnePerEvent(s, step);
    RowsKeepProposals(s, step);
    SpanStaysSound(s, step);
    PointersStaySound(s, step);
    LandedStaysSound(s, step);
  }

  /** A decided proposal never changes again, crash or no crash. */
  lemma StepKeepsDecision(s: State, step: Step, id: nat)
    requires Invariant(s) && Enabled(s, step) && id in s.proposals && !s.proposals[id].decision.Pending?
    ensures id in Next(s, step).proposals && Next(s, step).proposals[id] == s.proposals[id]
  {
    hide HasProposal, RowsHaveProposals, WithProposal, OneProposalPerEvent;
    if step.Propose? {
      ProposeKeeps(s, step.item, step.kind, step.payload);
    }
  }

  // ---- Runs ---------------------------------------------------------------------------

  ghost predicate IsRun(s: State, steps: seq<Step>)
    decreases |steps|
  {
    steps == [] || (Enabled(s, steps[0]) && IsRun(Next(s, steps[0]), steps[1..]))
  }

  ghost function After(s: State, steps: seq<Step>): State
    requires IsRun(s, steps)
    decreases |steps|
  {
    if steps == [] then s else After(Next(s, steps[0]), steps[1..])
  }

  lemma {:induction false} RunKeepsInvariant(s: State, steps: seq<Step>)
    requires Invariant(s) && IsRun(s, steps)
    ensures Invariant(After(s, steps))
    decreases |steps|
  {
    hide Invariant, Enabled, Next;
    if steps != [] {
      StepKeepsInvariant(s, steps[0]);
      RunKeepsInvariant(Next(s, steps[0]), steps[1..]);
    }
  }

  lemma {:induction false} RunKeepsDecision(s: State, steps: seq<Step>, id: nat)
    requires Invariant(s) && IsRun(s, steps) && id in s.proposals && !s.proposals[id].decision.Pending?
    ensures id in After(s, steps).proposals && After(s, steps).proposals[id] == s.proposals[id]
    decreases |steps|
  {
    hide Invariant, Enabled, Next;
    if steps != [] {
      StepKeepsInvariant(s, steps[0]);
      StepKeepsDecision(s, steps[0], id);
      RunKeepsDecision(Next(s, steps[0]), steps[1..], id);
    }
  }

  /**
   A handled event is either remembered, so it is never claimed again, or can be
   claimed again on the next pull; it is forgotten only when the model or the row
   write failed, and it is never remembered without its proposal or its drop.
   */
  lemma HandledIsRememberedOrRetried(s: State, item: string, o: Override, filtered: bool, reply: Reply, rowFails: bool)
    requires Invariant(s) && Enabled(s, Drop(item)) && item !in s.rows
    ensures
      var s' := Handled(s, item, o, filtered, reply, rowFails);
      var dropped := o.ForceIgnore? || (o.NoOverride? && filtered) || reply.Ignore?;
      && Enabled(s', MarkDone(item))
      && (item in s'.rows <==> dropped || (reply.Worth? && !rowFails))
      && (item in s'.rows && s'.rows[item].ProposalRow? ==> HasProposal(s', item))
      && (Enabled(Next(s', MarkDone(item)), Claim(item)) <==> item !in s'.rows)
      && (dropped || reply.ModelFailed? ==> s'.proposals == s.proposals)
      && (!dropped && reply.Worth? ==> HasProposal(s', item))
  {
    if reply.Worth? && !(o.ForceIgnore? || (o.NoOverride? && filtered)) {
      var p := Propose(item, reply.kind, reply.payload);
      RowsKeepProposals(s, p);
      SameProposals(Next(s, p), Handled(s, item, o, filtered, reply, rowFails), item);
    }
  }

  lemma RowHasProposal(s: State, item: string)
    requires Invariant(s) && item in s.rows && s.rows[item].ProposalRow?
    ensures HasProposal(s, item)
  {
  }

  lemma SameProposals(s: State, s': State, item: string)
    requires s'.proposals == s.proposals
    ensures HasProposal(s', item) <==> HasProposal(s, item)
  {
  }

  /**
   Whatever a crash left behind, an event without an items row is claimed again,
   and the retry ends with its row and one proposal: the earlier one, untouched,
   if there was one.
   */
  lemma RetryAfterCrash(s: State, item: string, kind: Kind, payload: string)
    requires Invariant(s) && item !in s.rows
    ensures
      var s1 := Next(s, Crash);
      && Enabled(s1, Claim(item))
      && var s2 := Next(s1, Claim(item));
         && Enabled(s2, Propose(item, kind, payload))
         && var s3 := Next(s2, Propose(item, kind, payload));
            && Enabled(s3, WriteRow)
            && var s4 := Next(s3, WriteRow);
               && item in s4.rows && s4.rows[item].ProposalRow?
               && Invariant(s4) && HasProposal(s4, item)
               && (HasProposal(s, item) ==> s4.proposals == s.proposals)
  {
    hide HasProposal, Invariant;
    var s1 := Next(s, Crash);
    var s2 := Next(s1, Claim(item));
    var s3 := Next(s2, Propose(item, kind, payload));
    StepKeepsInvariant(s, Crash);
    StepKeepsInvariant(s1, Claim(item));
    StepKeepsInvariant(s2, Propose(item, kind, payload));
    StepKeepsInvariant(s3, WriteRow);
    RowHasProposal(Next(s3, WriteRow), item);
    SameProposals(s, s2, item);
  }

  /**
   A decision, whichever it is, changes one proposal and nothing of it but the decision,
   the payload if one came with it, and for a card the card it created.
   */
  lemma DecisionWrites(s: State, step: Step)
    requires Invariant(s) && Enabled(s, step) && (step.DecideCard? || step.AcceptOther? || step.Reject?)
    ensures
      var s' := Next(s, step);
      var id := if step.DecideCard? then s.span.id else step.id;
      && id in s.proposals && s.proposals[id].decision == Pending && s'.proposals.Keys == s.proposals.Keys
      && (forall i | i in s.proposals && i != id :: s'.proposals[i] == s.proposals[i])
      && var (p, p') := (s.proposals[id], s'.proposals[id]);
         && p'.item == p.item && p'.kind == p.kind
         && p'.decision == (if step.Reject? then Rejected else Accepted)
         && p'.payload == (if step.DecideCard? then s.span.payload
                           else if step.AcceptOther? then step.payload else p.payload)
         && p'.card == (if step.DecideCard? then Some(s.span.card) else None)
  {
    hide HasProposal, RowsHaveProposals, WithProposal, OneProposalPerEvent;
  }

  /**
   Proposing an event gives it one undecided proposal with what the model said, or
   leaves the one it has; either way no other proposal changes.
   */
  lemma ProposalWrites(s: State, item: string, kind: Kind, payload: string)
    requires Invariant(s) && Enabled(s, Propose(item, kind, payload))
    ensures
      var s' := Next(s, Propose(item, kind, payload));
      && (forall i | i in s.proposals :: i in s'.proposals && s'.proposals[i] == s.proposals[i])
      && (exists i :: i in s'.proposals && s'.proposals[i].item == item)
      && (if exists i :: i in s.proposals && s.proposals[i].item == item then s'.proposals == s.proposals
          else forall i | i in s'.proposals && s'.proposals[i].item == item ::
                 i !in s.proposals && s'.proposals[i] == Proposal(item, kind, payload, Pending, None))
  {
    var s' := Next(s, Propose(item, kind, payload));
    ProposeKeeps(s, item, kind, payload);
    if !HasProposal(s, item) {
      assert s'.proposals[s.nextId].item == item;
    }
  }

  /** A key date is accepted only while its event has a row to take it. */
  lemma KeyDateHasRow(s: State, step: Step, id: nat)
    requires Invariant(s) && Enabled(s, step) && Undecided(s, id) && s.proposals[id].kind.KeyDateKind?
    requires id in Next(s, step).proposals && Next(s, step).proposals[id].decision == Accepted
    ensures s.proposals[id].item in s.rows
  {
    hide HasProposal, RowsHaveProposals, WithProposal, OneProposalPerEvent;
    if step.Propose? {
      ProposeKeeps(s, step.item, step.kind, step.payload);
    }
  }

  /** The step ends the handling of an event: it is marked done, or the process dies. */
  predicate EndsHandling(step: Step, item: string) {
    step == MarkDone(item) || step.Crash?
  }

  lemma StaysInFlight(s: State, step: Step, item: string)
    requires Enabled(s, step) && item in s.inFlight && !EndsHandling(step, item)
    ensures item in Next(s, step).inFlight && step != Claim(item)
  {
    hide HasProposal, WithProposal;
    if step.Propose? {
      assert WithProposal(s, step.item, step.kind, step.payload).inFlight == s.inFlight by {
        ProposeKeepsInFlight(s, step.item, step.kind, step.payload);
      }
    }
  }

  lemma ProposeKeepsInFlight(s: State, item: string, kind: Kind, payload: string)
    ensures WithProposal(s, item, kind, payload).inFlight == s.inFlight
  {
  }

  /** However the threads interleave, an event being handled is not claimed again until its handling ends. */
  lemma {:induction false} OneHandlerAtATime(s: State, steps: seq<Step>, item: string)
    requires IsRun(s, steps) && item in s.inFlight && forall i | 0 <= i < |steps| :: !EndsHandling(steps[i], item)
    ensures item in After(s, steps).inFlight && forall i | 0 <= i < |steps| :: steps[i] != Claim(item)
    decreases |steps|
  {
    hide Next, Enabled, EndsHandling;
    if steps != [] {
      StaysInFlight(s, steps[0], item);
      assert forall i | 0 <= i < |steps[1..]| :: steps[1..][i] == steps[i + 1];
      OneHandlerAtATime(Next(s, steps[0]), steps[1..], item);
      assert forall i | 0 < i < |steps| :: steps[i] == steps[1..][i - 1];
    }
  }

  /** An event whose row is deleted can be claimed again, and is not proposed a second time. */
  lemma DeletedRowComesBack(s: State, item: string, kind: Kind, payload: string)
    requires Invariant(s) && s.span.Free? && item !in s.inFlight
    ensures
      var s1 := Next(s, DeleteRow(item));
      && Enabled(s1, Claim(item)) && s1.proposals == s.proposals
      && (HasProposal(s, item) ==>
            && Enabled(Next(s1, Claim(item)), Propose(item, kind, payload))
            && Next(Next(s1, Claim(item)), Propose(item, kind, payload)).proposals == s.proposals)
  {
    hide HasProposal, RowsHaveProposals, OneProposalPerEvent;
    var s2 := Next(Next(s, DeleteRow(item)), Claim(item));
    SameProposals(s, s2, item);
  }

  // ---- Cards and accepted proposals ---------------------------------------------------

  /** Accepted card proposals and the cards acceptance created point at each other. */
  ghost predicate InBijection(s: State) {
    && (forall id | id in s.proposals && s.proposals[id].kind.CardKind? && s.proposals[id].decision.Accepted? ::
          s.proposals[id].card.Some? && s.proposals[id].card.value in s.landed
          && s.landed[s.proposals[id].card.value] == id)
    && (forall c | c in s.landed :: PointsTo(s, s.landed[c], c))
  }

  /** The step ends an acceptance between its card and its decision. */
  predicate BreaksAcceptance(s: State, step: Step) {
    step.FailDecide? || (step.Crash? && s.span.Accepting?)
  }

  /** Some crash or exception of the run hits an acceptance between its card and its decision. */
  ghost predicate AcceptanceBroken(s: State, steps: seq<Step>)
    requires IsRun(s, steps)
    decreases |steps|
  {
    steps != [] && (BreaksAcceptance(s, steps[0]) || AcceptanceBroken(Next(s, steps[0]), steps[1..]))
  }

  lemma StepCutsOff(s: State, step: Step)
    requires Enabled(s, step)
    ensures Next(s, step).cutOff == {} <==> s.cutOff == {} && !BreaksAcceptance(s, step)
  {
    hide HasProposal;
  }

  lemma {:induction false} CutOffWhenBroken(s: State, steps: seq<Step>)
    requires IsRun(s, steps)
    ensures After(s, steps).cutOff == {} <==> s.cutOff == {} && !AcceptanceBroken(s, steps)
    decreases |steps|
  {
    hide Next, Enabled, BreaksAcceptance;
    if steps != [] {
      StepCutsOff(s, steps[0]);
      CutOffWhenBroken(Next(s, steps[0]), steps[1..]);
    }
  }

  /** Between acceptances, a state is in bijection exactly when no card is cut off. */
  lemma BijectionIffNoneCutOff(s: State)
    requires Invariant(s) && !s.span.Accepting?
    ensures InBijection(s) <==> s.cutOff == {}
  {
    hide RowsHaveProposals, OneProposalPerEvent;
    if c :| c in s.cutOff {
      assert !PointsTo(s, s.landed[c], c);
    }
  }

  lemma InitialInvariant()
    ensures Invariant(INITIAL)
  {
  }

  /**
   Between acceptances, accepted card proposals and created cards are in bijection
   through the stored card id if and only if no crash and no exception of the run
   hit an acceptance between creating the card and writing the decision.
   */
  lemma BijectionIffAcceptanceUnbroken(steps: seq<Step>)
    requires IsRun(INITIAL, steps) && !After(INITIAL, steps).span.Accepting?
    ensures InBijection(After(INITIAL, steps)) <==> !AcceptanceBroken(INITIAL, steps)
  {
    hide IsRun, After, AcceptanceBroken, Invariant, InBijection;
    InitialInvariant();
    RunKeepsInvariant(INITIAL, steps);
    CutOffWhenBroken(INITIAL, steps);
    BijectionIffNoneCutOff(After(INITIAL, steps));
  }

  // ---- A crash in the wrong place ---------------------------------------------------------

  const EVENT := Proposal("e", CardKind, "p", Pending, None)

  lemma OneMore(s: State, step: Step, rest: seq<Step>)
    requires Enabled(s, step) && IsRun(Next(s, step), rest)
    ensures IsRun(s, [step] + rest) && After(s, [step] + rest) == After(Next(s, step), rest)
  {
    assert ([step] + rest)[1..] == rest;
  }

  const PENDING := State(map["e" := ProposalRow], map[0 := EVENT], 1, map[], Free, map[], {})

  /** One undecided card proposal, its first acceptance cut off, its second gone through. */
  const ACCEPTED_TWICE := State(
    map["e" := ProposalRow], map[0 := EVENT.(decision := Accepted, card := Some("d"))], 1, map[], Free,
    map["c" := 0, "d" := 0], {"c"})

  lemma CutOff()
    ensures
      && Enabled(PENDING, LandCard(0, "c", "p")) && Enabled(Next(PENDING, LandCard(0, "c", "p")), Crash)
      && Next(Next(PENDING, LandCard(0, "c", "p")), Crash) == PENDING.(landed := map["c" := 0], cutOff := {"c"})
  {
    hide HasProposal;
  }

  lemma AcceptedAgain()
    ensures
      var s := PENDING.(landed := map["c" := 0], cutOff := {"c"});
      && Enabled(s, LandCard(0, "d", "p")) && Enabled(Next(s, LandCard(0, "d", "p")), DecideCard)
      && Next(Next(s, LandCard(0, "d", "p")), DecideCard) == ACCEPTED_TWICE
  {
    hide HasProposal;
    var s := PENDING.(landed := map["c" := 0], cutOff := {"c"});
    var last := Next(Next(s, LandCard(0, "d", "p")), DecideCard);
    assert last.proposals == ACCEPTED_TWICE.proposals;
    assert last.landed == ACCEPTED_TWICE.landed;
  }

  lemma TwoCardsOneProposal()
    ensures !InBijection(ACCEPTED_TWICE)
  {
    assert "c" in ACCEPTED_TWICE.landed && !PointsTo(ACCEPTED_TWICE, 0, "c");
  }

  /** That state is reached by handling one event. */
  lemma OneEventProposed()
    ensures
      var claimed := INITIAL.(inFlight := map["e" := Handling]);
      && Next(INITIAL, Claim("e")) == claimed
      && Enabled(claimed, Propose("e", CardKind, "p"))
      && Enabled(Next(claimed, Propose("e", CardKind, "p")), WriteRow)
      && Enabled(Next(Next(claimed, Propose("e", CardKind, "p")), WriteRow), MarkDone("e"))
      && Next(Next(Next(claimed, Propose("e", CardKind, "p")), WriteRow), MarkDone("e"))
           == PENDING
  {
    var claimed := INITIAL.(inFlight := map["e" := Handling]);
    assert !HasProposal(claimed, "e");
    var last := Next(Next(Next(claimed, Propose("e", CardKind, "p")), WriteRow), MarkDone("e"));
    assert last.inFlight == map[];
    assert last.rows == map["e" := ProposalRow];
    assert last.proposals == map[0 := EVENT];
  }

  /** The whole run: one event, proposed and accepted twice around a crash, has two cards. */
  lemma CrashLeavesTwoCards()
    ensures
      var steps := [Claim("e"), Propose("e", CardKind, "p"), WriteRow, MarkDone("e"),
                    LandCard(0, "c", "p"), Crash, LandCard(0, "d", "p"), DecideCard];
      && IsRun(INITIAL, steps) && After(INITIAL, steps).span.Free?
      && After(INITIAL, steps) == ACCEPTED_TWICE && !InBijection(ACCEPTED_TWICE)
  {
    OneEventProposed();
    ClaimsFirst();
    CutOff();
    AcceptedAgain();
    TwoCardsOneProposal();
    hide Next, Enabled, InBijection, WithProposal, HasProposal;
    var s1 := Next(INITIAL, Claim("e"));
    var s2 := Next(s1, Propose("e", CardKind, "p"));
    var s3 := Next(s2, WriteRow);
    var s5 := Next(PENDING, LandCard(0, "c", "p"));
    var s6 := Next(s5, Crash);
    var s7 := Next(s6, LandCard(0, "d", "p"));
    assert IsRun(ACCEPTED_TWICE, []) && After(ACCEPTED_TWICE, []) == ACCEPTED_TWICE;
    hide IsRun, After;
    OneMore(s7, DecideCard, []);
    var e1: seq<Step> := [DecideCard] + [];
    OneMore(s6, LandCard(0, "d", "p"), e1);
    var e2 := [LandCard(0, "d", "p")] + e1;
    OneMore(s5, Crash, e2);
    var e3 := [Crash] + e2;
    OneMore(PENDING, LandCard(0, "c", "p"), e3);
    var e4 := [LandCard(0, "c", "p")] + e3;
    OneMore(s3, MarkDone("e"), e4);
    var e5 := [MarkDone("e")] + e4;
    OneMore(s2, WriteRow, e5);
    var e6 := [WriteRow] + e5;
    OneMore(s1, Propose("e", CardKind, "p"), e6);
    var e7 := [Propose("e", CardKind, "p")] + e6;
    OneMore(INITIAL, Claim("e"), e7);
    assert [Claim("e")] + e7 == [Claim("e"), Propose("e", CardKind, "p"), WriteRow, MarkDone("e"),
                                 LandCard(0, "c", "p"), Crash, LandCard(0, "d", "p"), DecideCard];
  }

  lemma ClaimsFirst()
    ensures Enabled(INITIAL, Claim("e"))
  {
  }
}
