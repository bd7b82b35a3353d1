/**
 Look-ahead cards and the todos that mirror them (api/app.py:1858-1926,
 3722-3839; api/db.py:2089-2213), over the tables of BoardModel.dfy.
 */
module CardTodoMirror {
  import opened Options
  import opened WorkCalendar
  import opened BoardModel
  import opened Board

  /** A row of lookahead_card_links; the `todo` type is kept apart from the user's own links. */
  datatype Link = TodoLink(card: string, todo: nat) | UserLink(card: string, kind: string, target: string)

  /**
   `todos` maps each todo row to its done flag; `nextTodo` is the id the next row gets.
   `manualTodos` are the todos that point at an items row made for them, and
   `manualRows` those of these rows that exist, by todo id.
   */
  datatype State = State(
    board: Tables, links: set<Link>, todos: map<nat, bool>, nextTodo: nat,
    manualTodos: set<nat>, manualRows: set<nat>)

  /** The relations a card request may carry; None for a key that is absent. */
  datatype Request = Request(
    dependsOn: Option<seq<string>>, links: Option<seq<(string, string)>>, resources: Option<seq<ResourceEntry>>)

  const USER_KINDS: set<string> := {"situation", "key_date", "item"}

  // ---- The mirror ------------------------------------------------------------------

  /** Links point from existing cards to ids already handed out, one to one. */
  ghost predicate Paired(st: State) {
    && (forall l | l in st.links :: l.card in st.board.cards)
    && (forall l | l in st.links && l.TodoLink? :: l.todo < st.nextTodo)
    && (forall t | t in st.todos :: t < st.nextTodo)
    && (forall l, m | l in st.links && m in st.links && l.TodoLink? && m.TodoLink? && l.card == m.card :: l == m)
    && (forall l, m | l in st.links && m in st.links && l.TodoLink? && m.TodoLink? && l.todo == m.todo :: l == m)
  }

  /** Whenever the linked todo exists, it is done exactly when the card is. */
  ghost predicate InStep(st: State) {
    forall l | l in st.links && l.TodoLink? && l.todo in st.todos && l.card in st.board.cards ::
      st.todos[l.todo] <==> st.board.cards[l.card].status.Done?
  }

  ghost predicate Mirrored(st: State) {
    Paired(st) && InStep(st)
  }

  // ---- Operations on a snapshot -------------------------------------------------------

  /** `get_card_todo_id` */
  ghost function TodoOf(st: State, cid: string): (r: Option<nat>)
    ensures r.Some? ==> TodoLink(cid, r.value) in st.links
    ensures r.None? ==> forall t :: TodoLink(cid, t) !in st.links
  {
    if t: nat :| TodoLink(cid, t) in st.links then Some(t) else None
  }

  /** `get_cards_for_todo` */
  ghost function CardsOf(links: set<Link>, t: nat): set<string> {
    set l | l in links && l.TodoLink? && l.todo == t :: l.card
  }

  /** `_create_todo_for_card`: a card is done exactly when its new todo is. */
  ghost function WithTodo(st: State, cid: string): State
    requires cid in st.board.cards
  {
    st.(links := (set l | l in st.links && !(l.TodoLink? && l.card == cid)) + {TodoLink(cid, st.nextTodo)},
        todos := st.todos[st.nextTodo := st.board.cards[cid].status.Done?],
        nextTodo := st.nextTodo + 1)
  }

  ghost function EnsureTodo(st: State, cid: string): State
    requires cid in st.board.cards
  {
    if TodoOf(st, cid).None? then WithTodo(st, cid) else st
  }

  /** The user links a request asks for; the todo type and unknown types are ignored. */
  function Requested(cid: string, request: seq<(string, string)>): set<Link> {
    set i | 0 <= i < |request| && request[i].0 in USER_KINDS && request[i].1 != ""
      :: UserLink(cid, request[i].0, request[i].1)
  }

  ghost function SetLinks(st: State, cid: string, request: seq<(string, string)>): State {
    st.(links := (set l | l in st.links && (l.TodoLink? || l.card != cid)) + Requested(cid, request))
  }

  /** Every card and resource the request names exists. */
  predicate Serviceable(cards: set<string>, catalog: set<int>, cid: string, req: Request) {
    && (req.dependsOn.Some? ==> DependenciesKnown(cards, cid, req.dependsOn.value))
    && (req.resources.Some? ==> EntriesKnown(catalog, req.resources.value))
  }

  /**
   Dependencies, then links, then resources, as far as the request carries them; an
   unknown card or resource ends the request there.
   */
  ghost function Relate(st: State, cid: string, req: Request): State
    requires cid in st.board.cards
  {
    var st1 := if req.dependsOn.Some? then st.(board := SetDependencies(st.board, cid, req.dependsOn.value)) else st;
    if req.dependsOn.Some? && !DependenciesKnown(st.board.cards.Keys, cid, req.dependsOn.value) then st1
    else
      var st2 := if req.links.Some? then SetLinks(st1, cid, req.links.value) else st1;
      if req.resources.Some? then st2.(board := SetResources(st2.board, cid, req.resources.value)) else st2
  }

  ghost function WithRow(st: State, cid: string, row: Card): State {
    st.(board := st.board.(cards := st.board.cards[cid := row]))
  }

  /** POST of a card; `card` is the row the upsert leaves. */
  ghost function CreateCard(st: State, cid: string, card: Card, req: Request): State {
    var st0 := WithRow(st, cid, card);
    var st1 := Relate(st0, cid, req);
    if Serviceable(st0.board.cards.Keys, st.board.catalog, cid, req) then EnsureTodo(st1, cid) else st1
  }

  /** The row a PATCH leaves: `edited` has every field but the status as patched. */
  ghost function Patched(st: State, cid: string, edited: Card, status: Option<CardStatus>): Card
    requires cid in st.board.cards
  {
    edited.(status := if status.Some? then status.value else st.board.cards[cid].status)
  }

  /** The linked todo follows a status that was given, and the instance may complete. */
  ghost function Followed(st: State, cid: string, row: Card, status: Option<CardStatus>): State {
    var t := TodoOf(st, cid);
    var st1 := if status.Some? && t.Some? && t.value in st.todos
               then st.(todos := st.todos[t.value := status.value.Done?]) else st;
    if row.instance.Some? then st1.(board := Autocomplete(st1.board, row.instance.value)) else st1
  }

  ghost function UpdateCard(st: State, cid: string, edited: Card, status: Option<CardStatus>, req: Request): State {
    if cid !in st.board.cards then st
    else
      var row := Patched(st, cid, edited, status);
      var st1 := Relate(WithRow(st, cid, row), cid, req);
      if Serviceable(st.board.cards.Keys, st.board.catalog, cid, req)
      then Followed(EnsureTodo(st1, cid), cid, row, status) else st1
  }

  /** The status a todo's flag puts on its cards, whatever they had. */
  function StatusFor(done: bool): CardStatus {
    if done then Done else Planned
  }

  ghost function Restatused(cards: map<string, Card>, ids: set<string>, status: CardStatus): map<string, Card> {
    map id | id in cards :: if id in ids then cards[id].(status := status) else cards[id]
  }

  /** PATCH of a todo; `done` is the flag its status or done field asks for. */
  ghost function PatchTodo(st: State, t: nat, done: Option<bool>): State {
    if done.None? then st
    else st.(
      todos := if t in st.todos then st.todos[t := done.value] else st.todos,
      board := st.board.(cards := Restatused(st.board.cards, CardsOf(st.links, t), StatusFor(done.value))))
  }

  /** Links of removed cards go with them. */
  ghost function Cascade(st: State, board: Tables): State {
    st.(board := board, links := set l | l in st.links && l.card in board.cards)
  }

  ghost function DeleteCard(st: State, cid: string): State {
    var t := TodoOf(st, cid);
    var st1 := Cascade(st, DropCards(st.board, {cid}));
    if t.Some? then st1.(todos := st1.todos - {t.value}) else st1
  }

  /** The todo's own items row goes with it, so that no orphan is left. */
  ghost function DeleteTodo(st: State, t: nat): State {
    st.(todos := st.todos - {t}, links := (set l | l in st.links && !(l.TodoLink? && l.todo == t)),
        manualRows := if t in st.todos && t in st.manualTodos then st.manualRows - {t} else st.manualRows)
  }

  // ---- The endpoints --------------------------------------------------------------------

  class MirroredBoard {
    const board: LookaheadBoard
    var links: set<Link>
    var todos: map<nat, bool>
    var nextTodo: nat
    var manualTodos: set<nat>
    var manualRows: set<nat>

    ghost function Model(): State
      reads this, board
    {
      State(board.Model(), links, todos, nextTodo, manualTodos, manualRows)
    }

    ghost predicate Valid()
      reads this, board
    {
      board.Valid() && Paired(Model())
    }

    constructor (board: LookaheadBoard)
      requires board.Valid()
      ensures this.board == board && Valid() && links == {} && todos == map[]
    {
      this.board, links, todos, nextTodo, manualTodos, manualRows := board, {}, map[], 0, {}, {};
    }

    method GetCardTodoId(cid: string) returns (t: Option<nat>)
      requires Valid()
      ensures t == TodoOf(Model(), cid)
    {
      var found := set l | l in links && l.TodoLink? && l.card == cid;
      if found == {} {
        assert forall t :: TodoLink(cid, t) in links ==> TodoLink(cid, t) in found;
        return None;
      }
      var l :| l in found;
      assert l == TodoLink(cid, l.todo);
      return Some(l.todo);
    }

    method CreateTodoForCard(cid: string)
      requires Valid() && cid in board.cards
      modifies this
      ensures Valid() && Model() == WithTodo(old(Model()), cid)
    {
      hide WellFormed, Paired;
      WithTodoSound(Model(), cid);
      var t := nextTodo;
      todos := todos[t := board.cards[cid].status == Done];
      nextTodo := nextTodo + 1;
      links := (set l | l in links && !(l.TodoLink? && l.card == cid)) + {TodoLink(cid, t)};
    }

    /** `set_card_links` */
    method SetCardLinks(cid: string, request: seq<(string, string)>)
      requires Valid() && (request != [] ==> cid in board.cards)
      modifies this`links
      ensures Valid() && Model() == SetLinks(old(Model()), cid, request)
    {
      hide WellFormed, Paired;
      SetLinksSound(Model(), cid, request);
      links := set l | l in links && (l.TodoLink? || l.card != cid);
      ghost var kept := links;
      for i := 0 to |request|
        invariant links == kept + Requested(cid, request[..i])
      {
        var (kind, target) := request[i];
        assert request[..i + 1] == request[..i] + [request[i]];
        if kind in {"todo", "situation", "key_date", "item"} && kind != "todo" && target != "" {
          links := links + {UserLink(cid, kind, target)};
        }
      }
      assert request[..|request|] == request;
    }

    /** What both card endpoints do with the relations of a request; false when it ends there. */
    method ApplyRelations(cid: string, req: Request) returns (ok: bool)
      requires Valid() && cid in board.cards
      modifies this`links, board`deps, board`bom
      ensures Valid() && Model() == Relate(old(Model()), cid, req)
      ensures ok <==> Serviceable(board.cards.Keys, board.catalog, cid, req)
    {
      hide WellFormed, Paired, SetDependencies, SetLinks, SetResources, DependenciesKnown, EntriesKnown;
      ghost var st := Model();
      if req.dependsOn.Some? {
        DependenciesApart(Model(), cid, req.dependsOn.value);
        ok := board.SetCardDependencies(cid, req.dependsOn.value);
        if !ok {
          return false;
        }
      }
      if req.links.Some? {
        SetCardLinks(cid, req.links.value);
      }
      ok := true;
      if req.resources.Some? {
        ResourcesApart(Model(), cid, req.resources.value);
        ok := board.SetCardResources(cid, req.resources.value);
      }
    }

    /** `lookahead_create_card`; false stands for a request that ends in an error. */
    method LookaheadCreateCard(cid: string, card: Card, req: Request) returns (ok: bool)
      requires Valid()
      modifies this, board`cards, board`deps, board`bom
      ensures Valid() && Model() == CreateCard(old(Model()), cid, card, req)
      ensures ok <==> Serviceable(board.cards.Keys, board.catalog, cid, req)
    {
      hide WellFormed, Paired, Relate, Serviceable;
      RowSound(Model(), cid, card);
      RelateKeeps(WithRow(Model(), cid, card), cid, req);
      board.cards := board.cards[cid := card];
      ok := ApplyRelations(cid, req);
      if !ok {
        return;
      }
      var t := GetCardTodoId(cid);
      if t.None? {
        CreateTodoForCard(cid);
      }
    }

    /** `lookahead_update_card`; None stands for the 404, Some(false) for a request that ends in an error. */
    method LookaheadUpdateCard(cid: string, edited: Card, status: Option<CardStatus>, req: Request)
      returns (ok: Option<bool>)
      requires Valid()
      modifies this, board`cards, board`deps, board`bom, board`instances
      ensures Valid() && Model() == UpdateCard(old(Model()), cid, edited, status, req)
      ensures ok == if cid !in old(board.cards) then None
                    else Some(Serviceable(old(board.cards).Keys, board.catalog, cid, req))
    {
      hide WellFormed, Paired, Relate, Serviceable, Followed;
      if cid !in board.cards {
        return None;
      }
      var row := edited.(status := if status.Some? then status.value else board.cards[cid].status);
      RowSound(Model(), cid, row);
      RelateKeeps(WithRow(Model(), cid, row), cid, req);
      assert board.cards[cid := row].Keys == board.cards.Keys;
      board.cards := board.cards[cid := row];
      var served := ApplyRelations(cid, req);
      if served {
        var t := GetCardTodoId(cid);
        if t.None? {
          CreateTodoForCard(cid);
        }
        FollowStatus(cid, row, status);
      }
      return Some(served);
    }

    /** The end of a PATCH: the todo's flag, then the instance. */
    method FollowStatus(cid: string, row: Card, status: Option<CardStatus>)
      requires Valid()
      modifies this`todos, board`instances
      ensures Valid() && Model() == Followed(old(Model()), cid, row, status)
    {
      hide WellFormed, Paired, Autocomplete;
      FollowedSound(Model(), cid, row, status);
      if status.Some? {
        var t := GetCardTodoId(cid);
        if t.Some? && t.value in todos {
          todos := todos[t.value := status.value == Done];
        }
      }
      if row.instance.Some? {
        board.MaybeAutocompleteInstance(row.instance.value);
      }
    }

    /** `patch_todo`, as far as the done flag goes. */
    method PatchTodoRow(t: nat, done: Option<bool>)
      requires Valid()
      modifies this`todos, board`cards
      ensures Valid() && Model() == PatchTodo(old(Model()), t, done)
    {
      hide WellFormed, Paired;
      ShapeSound(Model(), PatchTodo(Model(), t, done));
      if done.None? {
        return;
      }
      if t in todos {
        todos := todos[t := done.value];
      }
      var status := StatusFor(done.value);
      var rest := set l | l in links && l.TodoLink? && l.todo == t :: l.card;
      ghost var linked := rest;
      while rest != {}
        invariant rest <= linked
        invariant todos == if t in old(todos) then old(todos)[t := done.value] else old(todos)
        invariant board.cards == Restatused(old(board.cards), linked - rest, status)
      {
        var cid :| cid in rest;
        rest := rest - {cid};
        if cid in board.cards && board.cards[cid].status != status {
          board.cards := board.cards[cid := board.cards[cid].(status := status)];
        }
      }
      assert linked - {} == linked == CardsOf(links, t);
      assert Model().board == old(Model()).board.(cards := board.cards);
    }

    /** `delete_todo` */
    method DeleteTodoRow(t: nat)
      requires Valid()
      modifies this
      ensures Valid() && Model() == DeleteTodo(old(Model()), t)
    {
      var rest := set l | l in links && l.TodoLink? && l.todo == t :: l.card;
      ghost var linked := rest;
      var own := t in todos && t in manualTodos;
      todos := todos - {t};
      if own {
        manualRows := manualRows - {t};
      }
      ghost var st := Model();
      while rest != {}
        invariant rest <= linked
        invariant Model() == st.(links := links)
        invariant links == set l | l in old(links) && !(l.TodoLink? && l.todo == t && l.card in linked - rest)
      {
        var cid :| cid in rest;
        rest := rest - {cid};
        links := links - {TodoLink(cid, t)};
      }
      forall l | l in old(links) && l.TodoLink? && l.todo == t
        ensures l.card in linked - rest
      {
      }
    }

    /** `lookahead_delete_card`: the todo id is read before the link row goes. */
    method LookaheadDeleteCard(cid: string)
      requires Valid()
      modifies this, board
      ensures Valid() && Model() == DeleteCard(old(Model()), cid)
    {
      hide DropCards, WellFormed, Paired, TodoOf;
      DeleteCardSound(Model(), cid);
      var t := GetCardTodoId(cid);
      board.DeleteLookaheadCard(cid);
      links := set l | l in links && l.card in board.cards;
      if t.Some? {
        todos := todos - {t.value};
      }
    }
  }

  /** Keys, foreign keys and the pairing of links survive each write. */
  lemma RowSound(st: State, cid: string, row: Card)
    requires WellFormed(st.board) && Paired(st)
    ensures WellFormed(WithRow(st, cid, row).board) && Paired(WithRow(st, cid, row))
  {
  }

  lemma WithTodoSound(st: State, cid: string)
    requires Paired(st) && cid in st.board.cards
    ensures Paired(WithTodo(st, cid))
  {
  }

  /** Dependency and resource rows have no part in the pairing. */
  lemma DependenciesApart(st: State, cid: string, ds: seq<string>)
    requires Paired(st) && cid in st.board.cards
    ensures
      var b' := SetDependencies(st.board, cid, ds);
      b' == st.board.(deps := b'.deps) && Paired(st.(board := b'))
  {
    hide AddDependencies;
  }

  lemma ResourcesApart(st: State, cid: string, es: seq<ResourceEntry>)
    requires Paired(st) && cid in st.board.cards
    ensures
      var b' := SetResources(st.board, cid, es);
      b' == st.board.(bom := b'.bom) && Paired(st.(board := b'))
  {
    hide AddResources;
  }

  lemma RelateShape(st: State, cid: string, req: Request)
    requires cid in st.board.cards
    ensures
      var st' := Relate(st, cid, req);
      && st' == st.(board := st.board.(deps := st'.board.deps, bom := st'.board.bom), links := st'.links)
      && (forall l: Link | l.TodoLink? :: l in st'.links <==> l in st.links)
      && (forall l | l in st'.links && l !in st.links :: l.card == cid)
  {
    hide AddDependencies, AddResources, DependenciesKnown, EntriesKnown;
  }

  /** The mirror only looks at cards, todos and todo links. */
  lemma SameTodoLinks(st: State, st': State)
    requires st'.board.cards == st.board.cards && st'.todos == st.todos && st'.nextTodo == st.nextTodo
    requires forall l: Link | l.TodoLink? :: l in st'.links <==> l in st.links
    requires forall l | l in st'.links && l !in st.links :: l.card in st.board.cards
    ensures Paired(st) ==> Paired(st')
    ensures InStep(st) <==> InStep(st')
    ensures forall cid :: OthersInStep(st, cid) <==> OthersInStep(st', cid)
  {
  }

  /** The relations of a request leave cards, todos and todo links alone. */
  lemma RelateKeeps(st: State, cid: string, req: Request)
    requires cid in st.board.cards
    ensures
      var st' := Relate(st, cid, req);
      && st' == st.(board := st.board.(deps := st'.board.deps, bom := st'.board.bom), links := st'.links)
      && (forall l: Link | l.TodoLink? :: l in st'.links <==> l in st.links)
      && (Paired(st) ==> Paired(st')) && (InStep(st) <==> InStep(st'))
      && (OthersInStep(st, cid) <==> OthersInStep(st', cid))
  {
    hide Relate, Paired, InStep, OthersInStep;
    RelateShape(st, cid, req);
    SameTodoLinks(st, Relate(st, cid, req));
  }

  /** Todo flags, card fields and instance rows have no part in it. */
  lemma ShapeSound(st: State, st': State)
    requires WellFormed(st.board) && Paired(st)
    requires st'.links == st.links && st'.todos.Keys == st.todos.Keys && st'.nextTodo == st.nextTodo
    requires st'.board == st.board.(cards := st'.board.cards, instances := st'.board.instances)
    requires st'.board.cards.Keys == st.board.cards.Keys
    ensures WellFormed(st'.board) && Paired(st')
  {
    hide TaskGraph;
  }

  lemma AutocompleteShape(b: Tables, iid: string)
    ensures Autocomplete(b, iid) == b.(instances := Autocomplete(b, iid).instances)
  {
  }

  lemma FollowedSound(st: State, cid: string, row: Card, status: Option<CardStatus>)
    requires WellFormed(st.board) && Paired(st)
    ensures
      var st' := Followed(st, cid, row, status);
      && WellFormed(st'.board) && Paired(st')
      && st' == st.(board := st.board.(instances := st'.board.instances), todos := st'.todos)
      && (status.Some? && TodoOf(st, cid).Some? && TodoOf(st, cid).value in st.todos ==>
            Paired(st.(todos := st.todos[TodoOf(st, cid).value := status.value.Done?])))
  {
    hide Autocomplete, WellFormed, Paired;
    var t := TodoOf(st, cid);
    var st1 := if status.Some? && t.Some? && t.value in st.todos
               then st.(todos := st.todos[t.value := status.value.Done?]) else st;
    ShapeSound(st, st1);
    if row.instance.Some? {
      AutocompleteShape(st.board, row.instance.value);
      ShapeSound(st, Followed(st, cid, row, status));
    }
  }

  lemma SetLinksSound(st: State, cid: string, request: seq<(string, string)>)
    requires Paired(st) && (request != [] ==> cid in st.board.cards)
    ensures Paired(SetLinks(st, cid, request))
  {
  }

  lemma DeleteCardSound(st: State, cid: string)
    requires WellFormed(st.board) && Paired(st)
    ensures WellFormed(DeleteCard(st, cid).board) && Paired(DeleteCard(st, cid))
  {
  }

  // ---- Each endpoint keeps the mirror ---------------------------------------------------

  /** A todo given to a card that has none. */
  lemma EnsureTodoKeeps(st: State, cid: string)
    requires Paired(st) && cid in st.board.cards
    ensures
      var st' := EnsureTodo(st, cid);
      && Paired(st') && (InStep(st') <==> InStep(st))
      && TodoOf(st', cid).Some? && st'.board == st.board
  {
    hide Paired, InStep;
    if TodoOf(st, cid).None? {
      var st' := WithTodo(st, cid);
      WithTodoSound(st, cid);
      assert TodoLink(cid, st.nextTodo) in st'.links;
      NewTodoInStep(st, cid);
    }
  }

  lemma NewTodoInStep(st: State, cid: string)
    requires Paired(st) && cid in st.board.cards && TodoOf(st, cid).None?
    ensures InStep(WithTodo(st, cid)) <==> InStep(st)
  {
    var st' := WithTodo(st, cid);
    assert forall l | l in st.links :: l in st'.links && (l.TodoLink? ==> l.todo != st.nextTodo);
    assert forall l | l in st'.links && l !in st.links :: l == TodoLink(cid, st.nextTodo);
  }

  /** The linked todo of a card, if its row still exists, says what the card's status says. */
  ghost predicate CardInStep(st: State, cid: string, status: CardStatus) {
    forall t | TodoLink(cid, t) in st.links && t in st.todos :: st.todos[t] <==> status.Done?
  }

  /** Writing one card's row leaves the mirror in step exactly when that card's todo agrees. */
  lemma RowWritten(st: State, cid: string, card: Card)
    requires Paired(st) && (cid !in st.board.cards || InStep(st.(board := st.board.(cards := st.board.cards - {cid}))))
    requires cid !in st.board.cards ==> InStep(st)
    ensures
      var st' := st.(board := st.board.(cards := st.board.cards[cid := card]));
      Paired(st') && (InStep(st') <==> CardInStep(st, cid, card.status))
  {
    var st' := st.(board := st.board.(cards := st.board.cards[cid := card]));
    if CardInStep(st, cid, card.status) {
      forall l | l in st'.links && l.TodoLink? && l.todo in st'.todos && l.card in st'.board.cards
        ensures st'.todos[l.todo] <==> st'.board.cards[l.card].status.Done?
      {
        assert l == TodoLink(l.card, l.todo);
      }
    }
  }

  /** Re-posting an existing card resets its status without touching its todo. */
  ghost predicate Resets(st: State, cid: string, card: Card) {
    && cid in st.board.cards && (exists t :: TodoLink(cid, t) in st.links && t in st.todos)
    && st.board.cards[cid].status.Done? != card.status.Done?
  }

  lemma CardInStepUnlessReset(st: State, cid: string, card: Card)
    requires Mirrored(st)
    ensures CardInStep(st, cid, card.status) <==> !Resets(st, cid, card)
  {
    if t :| TodoLink(cid, t) in st.links && t in st.todos {
      assert TodoLink(cid, t).card in st.board.cards;
      assert st.todos[t] == st.board.cards[cid].status.Done?;
      assert forall u | TodoLink(cid, u) in st.links :: TodoLink(cid, u) == TodoLink(cid, t);
    }
  }

  /** After the row is written and its relations are set: still paired, and in step unless it resets. */
  lemma RowAndRelations(st: State, cid: string, row: Card, req: Request)
    requires Mirrored(st)
    ensures
      var st1 := Relate(WithRow(st, cid, row), cid, req);
      && Paired(st1) && (InStep(st1) <==> !Resets(st, cid, row)) && OthersInStep(st1, cid)
      && st1.board.cards == st.board.cards[cid := row]
  {
    hide Relate, Resets, CardInStep;
    RowWritten(st, cid, row);
    CardInStepUnlessReset(st, cid, row);
    RelateKeeps(WithRow(st, cid, row), cid, req);
  }

  /** A POST keeps the mirror exactly when it does not re-post a card across the done line. */
  lemma CreateCardMirrors(st: State, cid: string, card: Card, req: Request)
    requires Mirrored(st)
    ensures
      var st' := CreateCard(st, cid, card, req);
      && Paired(st')
      && (Mirrored(st') <==> !Resets(st, cid, card))
      && (Serviceable(st.board.cards.Keys + {cid}, st.board.catalog, cid, req) ==> TodoOf(st', cid).Some?)
  {
    hide TodoOf, EnsureTodo, Relate, Resets, Serviceable, Paired, InStep, OthersInStep;
    RowAndRelations(st, cid, card, req);
    assert WithRow(st, cid, card).board.cards.Keys == st.board.cards.Keys + {cid};
    EnsureTodoKeeps(Relate(WithRow(st, cid, card), cid, req), cid);
  }

  /** Every pair but one card's is in step. */
  ghost predicate OthersInStep(st: State, cid: string) {
    forall l | l in st.links && l.TodoLink? && l.todo in st.todos && l.card in st.board.cards && l.card != cid ::
      st.todos[l.todo] <==> st.board.cards[l.card].status.Done?
  }

  lemma EnsureTodoOthers(st: State, cid: string)
    requires Paired(st) && cid in st.board.cards && OthersInStep(st, cid)
    ensures OthersInStep(EnsureTodo(st, cid), cid)
  {
  }

  /** Writing the linked todo's flag, if its row exists, puts the last pair in step. */
  lemma TodoWritten(st: State, cid: string, t: nat, done: bool)
    requires Paired(st) && TodoLink(cid, t) in st.links && OthersInStep(st, cid)
    requires st.board.cards[cid].status.Done? == done
    ensures Mirrored(if t in st.todos then st.(todos := st.todos[t := done]) else st)
  {
    var st' := if t in st.todos then st.(todos := st.todos[t := done]) else st;
    forall l | l in st'.links && l.TodoLink? && l.todo in st'.todos && l.card in st'.board.cards
      ensures st'.todos[l.todo] <==> st'.board.cards[l.card].status.Done?
    {
      assert l in st.links;
    }
  }

  /** A todo that follows its card's status ends up in step with it. */
  lemma FollowedMirrors(st: State, cid: string, row: Card, status: Option<CardStatus>)
    requires Paired(st) && OthersInStep(st, cid) && TodoOf(st, cid).Some?
    requires cid in st.board.cards && st.board.cards[cid] == row
    requires if status.Some? then status.value == row.status else InStep(st)
    ensures Mirrored(Followed(st, cid, row, status))
    ensures TodoOf(st, cid).Some? ==> exists t :: TodoLink(cid, t) in Followed(st, cid, row, status).links
  {
    hide Autocomplete, Paired, InStep, OthersInStep;
    var t := TodoOf(st, cid).value;
    if status.Some? {
      TodoWritten(st, cid, t, row.status.Done?);
    }
    AutocompleteMirrors(
      if status.Some? && t in st.todos then st.(todos := st.todos[t := row.status.Done?]) else st);
  }

  /** A PATCH that ends in an error after moving a card across the done line. */
  ghost predicate HalfPatched(st: State, cid: string, edited: Card, status: Option<CardStatus>, req: Request) {
    && cid in st.board.cards
    && !Serviceable(st.board.cards.Keys, st.board.catalog, cid, req)
    && Resets(st, cid, Patched(st, cid, edited, status))
  }

  /**
   A PATCH keeps the mirror exactly when it does not name an unknown card or resource
   while moving the card across the done line; one that is served leaves a todo.
   */
  lemma UpdateCardMirrors(st: State, cid: string, edited: Card, status: Option<CardStatus>, req: Request)
    requires Mirrored(st)
    ensures Mirrored(UpdateCard(st, cid, edited, status, req)) <==> !HalfPatched(st, cid, edited, status, req)
    ensures cid in st.board.cards && Serviceable(st.board.cards.Keys, st.board.catalog, cid, req) ==>
      exists t :: TodoLink(cid, t) in UpdateCard(st, cid, edited, status, req).links
  {
    hide EnsureTodo, Followed, Relate, Serviceable, Resets, Paired, InStep, OthersInStep, CardInStep;
    if cid in st.board.cards {
      var row := Patched(st, cid, edited, status);
      RowAndRelations(st, cid, row, req);
      var st1 := Relate(WithRow(st, cid, row), cid, req);
      if Serviceable(st.board.cards.Keys, st.board.catalog, cid, req) {
        EnsureTodoKeeps(st1, cid);
        EnsureTodoOthers(st1, cid);
        if status.None? {
          SameStatusResetsNothing(st, cid, row);
        }
        FollowedMirrors(EnsureTodo(st1, cid), cid, row, status);
      }
    }
  }

  lemma SameStatusResetsNothing(st: State, cid: string, row: Card)
    requires cid in st.board.cards && row.status == st.board.cards[cid].status
    ensures !Resets(st, cid, row)
  {
  }

  lemma AutocompleteMirrors(st: State)
    requires Mirrored(st)
    ensures forall iid :: Mirrored(st.(board := Autocomplete(st.board, iid)))
  {
  }

  lemma PatchTodoMirrors(st: State, t: nat, done: Option<bool>)
    requires Mirrored(st)
    ensures Mirrored(PatchTodo(st, t, done))
  {
    if done.Some? {
      var st' := PatchTodo(st, t, done);
      forall l | l in st'.links && l.TodoLink? && l.todo in st'.todos && l.card in st'.board.cards
        ensures st'.todos[l.todo] <==> st'.board.cards[l.card].status.Done?
      {
        assert l in st.links;
        if l.todo == t {
          assert l.card in CardsOf(st.links, t);
        }
      }
    }
  }

  /**
   Ticking an open todo and unticking it again restores everything exactly when
   its cards were planned: a card in progress or blocked comes back as planned.
   */
  lemma TickAndUntick(st: State, t: nat)
    requires Mirrored(st) && t in st.todos && !st.todos[t]
    ensures PatchTodo(PatchTodo(st, t, Some(true)), t, Some(false)) == st
       <==> forall cid | cid in CardsOf(st.links, t) && cid in st.board.cards :: st.board.cards[cid].status.Planned?
  {
    hide Paired;
    CardsOfExist(st, t);
    var back := PatchTodo(PatchTodo(st, t, Some(true)), t, Some(false));
    if forall cid | cid in CardsOf(st.links, t) :: st.board.cards[cid].status.Planned? {
      assert back.board.cards == st.board.cards;
      assert back.todos == st.todos;
    } else {
      var cid :| cid in CardsOf(st.links, t) && !st.board.cards[cid].status.Planned?;
      assert back.board.cards[cid].status.Planned?;
    }
  }

  lemma CardsOfExist(st: State, t: nat)
    requires Paired(st)
    ensures CardsOf(st.links, t) <= st.board.cards.Keys
  {
  }

  /** A board whose surviving cards keep their status, with links of the others gone. */
  lemma CascadeMirrors(st: State, board: Tables)
    requires Mirrored(st)
    requires forall x | x in board.cards && x in st.board.cards ::
      board.cards[x].status.Done? == st.board.cards[x].status.Done?
    ensures Mirrored(Cascade(st, board))
  {
  }

  lemma DeleteCardMirrors(st: State, cid: string)
    requires Mirrored(st)
    ensures Mirrored(DeleteCard(st, cid))
  {
    CascadeMirrors(st, DropCards(st.board, {cid}));
  }

  const NOTHING_MORE := Request(None, None, None)

  // ---- What a request leaves ------------------------------------------------------------

  /** A card's user links are exactly the valid ones asked for; every other link stays. */
  lemma SetLinksExactly(st: State, cid: string, request: seq<(string, string)>)
    ensures
      var links := SetLinks(st, cid, request).links;
      && (forall kind, target :: UserLink(cid, kind, target) in links <==>
            kind in {"situation", "key_date", "item"} && target != ""
            && exists i :: 0 <= i < |request| && request[i] == (kind, target))
      && (forall l: Link | l.TodoLink? || l.card != cid :: l in links <==> l in st.links)
  {
    forall kind, target
      ensures UserLink(cid, kind, target) in Requested(cid, request) <==>
        kind in {"situation", "key_date", "item"} && target != ""
        && exists i :: 0 <= i < |request| && request[i] == (kind, target)
    {
      if i :| 0 <= i < |request| && request[i] == (kind, target) {
        assert request[i].0 == kind && request[i].1 == target;
      }
    }
  }

  /**
   A todo's flag goes to its row, if there is one, and to every card linked to it, done
   or planned, even where the link dangles; a patch without a flag changes nothing.
   */
  lemma PatchedTodo(st: State, t: nat, done: Option<bool>)
    ensures
      var st' := PatchTodo(st, t, done);
      && st'.todos.Keys == st.todos.Keys && st'.board.cards.Keys == st.board.cards.Keys
      && st' == st.(todos := st'.todos, board := st.board.(cards := st'.board.cards))
      && (forall u | u in st.todos ::
            st'.todos[u] == if u == t && done.Some? then done.value else st.todos[u])
      && (forall x | x in st.board.cards ::
            st'.board.cards[x] ==
              if done.Some? && TodoLink(x, t) in st.links
              then st.board.cards[x].(status := if done.value then Done else Planned) else st.board.cards[x])
  {
    forall x
      ensures x in CardsOf(st.links, t) <==> TodoLink(x, t) in st.links
    {
      if x in CardsOf(st.links, t) {
        var l :| l in st.links && l.TodoLink? && l.todo == t && l.card == x;
        assert l == TodoLink(x, t);
      }
      if TodoLink(x, t) in st.links {
        assert TodoLink(x, t).card == x;
      }
    }
  }

  /** The todo goes with its links and with the items row made for it; everything else stays. */
  lemma DeletedTodoRows(st: State, t: nat)
    ensures
      var st' := DeleteTodo(st, t);
      && st'.todos.Keys == st.todos.Keys - {t} && (forall u | u in st'.todos :: st'.todos[u] == st.todos[u])
      && (forall l :: l in st'.links <==> l in st.links && (l.TodoLink? ==> l.todo != t))
      && (forall u :: u in st'.manualRows <==>
            u in st.manualRows && !(u == t && t in st.todos && t in st.manualTodos))
      && (st'.board, st'.nextTodo, st'.manualTodos) == (st.board, st.nextTodo, st.manualTodos)
  {
  }

  /** The relations a request carries are the card's own afterwards, and those it does not carry stay. */
  ghost predicate Served(st: State, st': State, cid: string, req: Request) {
    && (forall d :: (cid, d) in st'.board.deps <==>
          if req.dependsOn.Some? then d in req.dependsOn.value && d != cid else (cid, d) in st.board.deps)
    && (forall kind, target :: UserLink(cid, kind, target) in st'.links <==>
          if req.links.Some?
          then kind in {"situation", "key_date", "item"} && target != "" && (kind, target) in req.links.value
          else UserLink(cid, kind, target) in st.links)
    && (forall r :: (cid, r) in st'.board.bom <==>
          if req.resources.Some?
          then exists i :: 0 <= i < |req.resources.value| && req.resources.value[i].resource == Some(r)
          else (cid, r) in st.board.bom)
  }

  lemma RelationsServed(st: State, cid: string, req: Request)
    requires cid in st.board.cards && Serviceable(st.board.cards.Keys, st.board.catalog, cid, req)
    ensures Served(st, Relate(st, cid, req), cid, req)
  {
    hide Relate, Serviceable;
    DependenciesServed(st, cid, req);
    LinksServed(st, cid, req);
    ResourcesServed(st, cid, req);
  }

  lemma DependenciesServed(st: State, cid: string, req: Request)
    requires cid in st.board.cards && Serviceable(st.board.cards.Keys, st.board.catalog, cid, req)
    ensures forall d :: (cid, d) in Relate(st, cid, req).board.deps <==>
      if req.dependsOn.Some? then d in req.dependsOn.value && d != cid else (cid, d) in st.board.deps
  {
    hide AddDependencies, AddResources;
    if req.dependsOn.Some? {
      var ds := req.dependsOn.value;
      assert ds[..|ds|] == ds;
      SetDependenciesExactly(st.board, cid, ds, |ds|);
      assert forall d :: d in ds <==> exists j :: 0 <= j < |ds| && ds[j] == d;
    }
  }

  lemma LinksServed(st: State, cid: string, req: Request)
    requires cid in st.board.cards && Serviceable(st.board.cards.Keys, st.board.catalog, cid, req)
    ensures forall kind, target :: UserLink(cid, kind, target) in Relate(st, cid, req).links <==>
      if req.links.Some?
      then kind in {"situation", "key_date", "item"} && target != "" && (kind, target) in req.links.value
      else UserLink(cid, kind, target) in st.links
  {
    hide AddDependencies, AddResources, SetLinks;
    if req.links.Some? {
      var st1 := if req.dependsOn.Some? then st.(board := SetDependencies(st.board, cid, req.dependsOn.value)) else st;
      SetLinksExactly(st1, cid, req.links.value);
      var request := req.links.value;
      assert forall kind, target ::
        (kind, target) in request <==> exists i :: 0 <= i < |request| && request[i] == (kind, target);
    }
  }

  lemma ResourcesServed(st: State, cid: string, req: Request)
    requires cid in st.board.cards && Serviceable(st.board.cards.Keys, st.board.catalog, cid, req)
    ensures forall r :: (cid, r) in Relate(st, cid, req).board.bom <==>
      if req.resources.Some?
      then exists i :: 0 <= i < |req.resources.value| && req.resources.value[i].resource == Some(r)
      else (cid, r) in st.board.bom
  {
    hide AddDependencies, AddResources, Requested;
    if req.resources.Some? {
      var es := req.resources.value;
      assert es[..|es|] == es;
      var b1 := if req.dependsOn.Some? then SetDependencies(st.board, cid, req.dependsOn.value) else st.board;
      SetResourcesExactly(b1, cid, es, |es|);
      assert Relate(st, cid, req).board.bom == SetResources(b1, cid, es).bom;
      forall r | exists i :: 0 <= i < |es| && es[i].resource == Some(r)
        ensures (cid, r) in SetResources(b1, cid, es).bom
      {
        var i :| 0 <= i < |es| && es[i].resource == Some(r);
        NamedHasRow(b1, cid, es, i);
      }
    }
  }

  /** Some entry naming the resource is the last one. */
  lemma {:induction false} NamedHasRow(b: Tables, cid: string, es: seq<ResourceEntry>, i: int)
    requires cid in b.cards && EntriesKnown(b.catalog, es) && 0 <= i < |es| && es[i].resource.Some?
    ensures (cid, es[i].resource.value) in SetResources(b, cid, es).bom
    decreases |es| - i
  {
    hide AddResources;
    if j :| i < j < |es| && es[j].resource == es[i].resource {
      NamedHasRow(b, cid, es, j);
    } else {
      LastEntryWins(OtherRows(b.bom, cid), b.catalog, cid, es, i);
    }
  }

  /** The card keeps the todo it has, and one that has none gets the next, done as the card is. */
  ghost predicate HasItsTodo(st: State, st': State, cid: string, status: CardStatus) {
    if exists t :: TodoLink(cid, t) in st.links
    then
      && (forall t :: TodoLink(cid, t) in st'.links <==> TodoLink(cid, t) in st.links)
      && st'.todos.Keys == st.todos.Keys && st'.nextTodo == st.nextTodo
    else
      && (forall t :: TodoLink(cid, t) in st'.links <==> t == st.nextTodo)
      && st'.todos.Keys == st.todos.Keys + {st.nextTodo} && st'.nextTodo == st.nextTodo + 1
      && st'.todos[st.nextTodo] == status.Done?
  }

  lemma TodoEnsured(st: State, cid: string)
    requires Paired(st) && cid in st.board.cards
    ensures
      var st' := EnsureTodo(st, cid);
      && HasItsTodo(st, st', cid, st.board.cards[cid].status)
      && (forall t | t in st.todos :: t in st'.todos && st'.todos[t] == st.todos[t])
  {
  }

  /** A POST that names only known cards and resources leaves its row, its relations and a todo. */
  lemma CreatedCard(st: State, cid: string, card: Card, req: Request)
    requires Mirrored(st) && Serviceable(st.board.cards.Keys + {cid}, st.board.catalog, cid, req)
    ensures
      var st' := CreateCard(st, cid, card, req);
      && st'.board.cards == st.board.cards[cid := card]
      && Served(st, st', cid, req)
      && HasItsTodo(st, st', cid, card.status)
      && (forall t | t in st.todos :: t in st'.todos && st'.todos[t] == st.todos[t])
  {
    hide Relate, Served, Paired, InStep, Serviceable, TodoOf;
    var st0 := WithRow(st, cid, card);
    assert st0.board.cards.Keys == st.board.cards.Keys + {cid};
    RowAndRelations(st, cid, card, req);
    RelationsServed(st0, cid, req);
    SameRelations(st, st0, cid, req, Relate(st0, cid, req), Relate(st0, cid, req));
    EnsureTodoKeeps(Relate(st0, cid, req), cid);
    TodoEnsured(Relate(st0, cid, req), cid);
    RelateKeeps(st0, cid, req);
    SameRelations(st0, st0, cid, req, Relate(st0, cid, req), EnsureTodo(Relate(st0, cid, req), cid));
    SameRelations(st, st0, cid, req, EnsureTodo(Relate(st0, cid, req), cid), EnsureTodo(Relate(st0, cid, req), cid));
  }

  /**
   A PATCH that names only known cards and resources leaves its row, its relations and
   a todo, and with a status that completes its instance's cards the instance completes.
   */
  lemma UpdatedCard(st: State, cid: string, edited: Card, status: Option<CardStatus>, req: Request)
    requires Mirrored(st) && cid in st.board.cards
    requires Serviceable(st.board.cards.Keys, st.board.catalog, cid, req)
    ensures
      var st' := UpdateCard(st, cid, edited, status, req);
      var row := edited.(status := if status.Some? then status.value else st.board.cards[cid].status);
      && st'.board.cards == st.board.cards[cid := row]
      && Served(st, st', cid, req)
      && HasItsTodo(st, st', cid, row.status)
      && (row.instance.Some? && row.instance.value in st.board.instances ==>
            st'.board.instances
              == Autocomplete(st'.board.(instances := st.board.instances), row.instance.value).instances)
      && (row.instance.None? ==> st'.board.instances == st.board.instances)
      && (status.Some? ==> forall t | TodoLink(cid, t) in st'.links && t in st'.todos ::
            st'.todos[t] == row.status.Done?)
  {
    hide Relate, Served, InStep, Serviceable, Autocomplete, OthersInStep, Paired;
    var row := Patched(st, cid, edited, status);
    var st0 := WithRow(st, cid, row);
    var st1 := Relate(st0, cid, req);
    assert st0.board.cards.Keys == st.board.cards.Keys;
    RowAndRelations(st, cid, row, req);
    var st2 := EnsureTodo(st1, cid);
    RelateKeeps(st0, cid, req);
    RelationsServed(st0, cid, req);
    EnsureTodoKeeps(st1, cid);
    TodoEnsured(st1, cid);
    var st' := Followed(st2, cid, row, status);
    FollowedRows(st2, cid, row, status);
    SameRelations(st, st0, cid, req, st1, st');
  }

  lemma FollowedRows(st: State, cid: string, row: Card, status: Option<CardStatus>)
    requires Paired(st) && TodoOf(st, cid).Some?
    ensures
      var st' := Followed(st, cid, row, status);
      && st' == st.(todos := st'.todos, board := st.board.(instances := st'.board.instances))
      && (row.instance.Some? ==>
            st'.board.instances == Autocomplete(st.board, row.instance.value).instances)
      && (row.instance.None? ==> st'.board.instances == st.board.instances)
      && (status.Some? ==> forall t | TodoLink(cid, t) in st'.links && t in st'.todos ::
            st'.todos[t] == status.value.Done?)
  {
    hide Autocomplete;
    if row.instance.Some? {
      AutocompleteShape(st.board, row.instance.value);
    }
    var t := TodoOf(st, cid).value;
    forall u | TodoLink(cid, u) in st.links
      ensures u == t
    {
      assert TodoLink(cid, u) == TodoLink(cid, t);
    }
  }

  /** A request looks the same from states with the same relation rows. */
  lemma SameRelations(st: State, st0: State, cid: string, req: Request, st1: State, st2: State)
    requires st0.board.deps == st.board.deps && st0.board.bom == st.board.bom && st0.links == st.links
    requires st2.board.deps == st1.board.deps && st2.board.bom == st1.board.bom
    requires forall l: Link | l.UserLink? :: l in st2.links <==> l in st1.links
    ensures Served(st0, st1, cid, req) ==> Served(st, st2, cid, req)
  {
  }

  /** Creating a fresh card and deleting it leaves nothing behind but a used-up todo id. */
  lemma CreateThenDelete(st: State, cid: string, card: Card, req: Request)
    requires Mirrored(st) && WellFormed(st.board) && cid !in st.board.cards
    requires Serviceable(st.board.cards.Keys + {cid}, st.board.catalog, cid, req)
    ensures DeleteCard(CreateCard(st, cid, card, req), cid) == st.(nextTodo := st.nextTodo + 1)
  {
    hide Relate, Serviceable, WellFormed, Paired, InStep;
    var st0 := WithRow(st, cid, card);
    var st1 := Relate(st0, cid, req);
    assert st0.board.cards.Keys == st.board.cards.Keys + {cid};
    RelateKeeps(st0, cid, req);
    FreshHasNoRows(st, cid);
    RelateAdds(st0, cid, req);
    assert TodoOf(st1, cid).None?;
    DeleteUndoes(st, st1, cid);
  }

  lemma FreshHasNoRows(st: State, cid: string)
    requires Paired(st) && WellFormed(st.board) && cid !in st.board.cards
    ensures forall e | e in st.board.deps :: e.0 != cid && e.1 != cid
    ensures forall k | k in st.board.bom :: k.0 != cid
    ensures st.nextTodo !in st.todos && forall l | l in st.links :: l.card in st.board.cards
  {
    hide TaskGraph;
  }

  /** Relations only ever change rows of the card itself. */
  lemma RelateAdds(st: State, cid: string, req: Request)
    requires cid in st.board.cards
    ensures
      var st' := Relate(st, cid, req);
      && (forall e: (string, string) | e.0 != cid :: e in st'.board.deps <==> e in st.board.deps)
      && (forall k: (string, int) | k.0 != cid :: (k in st'.board.bom <==> k in st.board.bom)
                                   && (k in st.board.bom ==> st'.board.bom[k] == st.board.bom[k]))
      && (forall l: Link | l.card != cid :: l in st'.links <==> l in st.links)
  {
    hide AddDependencies, AddResources, DependenciesKnown;
    if req.dependsOn.Some? {
      SetDependenciesFacts(st.board, cid, req.dependsOn.value);
    }
    if req.resources.Some? {
      AddResourcesFacts(OtherRows(st.board.bom, cid), st.board.catalog, cid, req.resources.value);
    }
  }

  /** Deleting a card that was just given its first todo. */
  lemma DeleteUndoes(st: State, st1: State, cid: string)
    requires cid !in st.board.cards && cid in st1.board.cards && st.nextTodo !in st.todos
    requires st1 == st.(board := st1.board, links := st1.links) && TodoOf(st1, cid).None?
    requires st1.board == st.board.(cards := st1.board.cards, deps := st1.board.deps, bom := st1.board.bom)
    requires st1.board.cards - {cid} == st.board.cards
    requires forall e | e in st.board.deps :: e.0 != cid && e.1 != cid
    requires forall e: (string, string) | e.0 != cid :: e in st1.board.deps <==> e in st.board.deps
    requires forall k | k in st.board.bom :: k.0 != cid
    requires forall k: (string, int) | k.0 != cid :: (k in st1.board.bom <==> k in st.board.bom)
                                      && (k in st.board.bom ==> st1.board.bom[k] == st.board.bom[k])
    requires forall l | l in st.links :: l.card in st.board.cards
    requires forall l: Link | l.card != cid :: l in st1.links <==> l in st.links
    ensures DeleteCard(WithTodo(st1, cid), cid) == st.(nextTodo := st.nextTodo + 1)
  {
    var st2 := WithTodo(st1, cid);
    assert TodoLink(cid, st.nextTodo) in st2.links;
    assert TodoOf(st2, cid) == Some(st.nextTodo);
    var gone := DeleteCard(st2, cid);
    assert gone.board.cards == st.board.cards;
    assert gone.board.deps == st.board.deps;
    assert gone.board.bom == st.board.bom;
    assert gone.links == st.links;
    assert gone.todos == st.todos;
  }

  // ---- The scheduling operations ---------------------------------------------------------

  lemma {:induction false} PutTasksKeepsStatus(co: Cohort, cards: map<string, Card>, cids: seq<string>,
                                               tasks: seq<Task>, k: int)
    requires 0 <= k <= |tasks| == |cids|
    ensures forall x | x in cards ::
      x in PutTasks(co, cards, cids, tasks, k) && PutTasks(co, cards, cids, tasks, k)[x].status == cards[x].status
  {
    hide FreshCard, Place;
    if k > 0 {
      PutTasksKeepsStatus(co, cards, cids, tasks, k - 1);
    }
  }

  ghost predicate StatusesKept(b: Tables, b': Tables) {
    forall x | x in b.cards && x in b'.cards :: b'.cards[x].status == b.cards[x].status
  }

  lemma MaterialiseKeepsStatus(b: Tables, co: Cohort, cids: seq<string>, tasks: seq<Task>)
    requires |cids| == |tasks|
    ensures StatusesKept(b, Materialise(b, co, cids, tasks))
    ensures b.cards.Keys <= Materialise(b, co, cids, tasks).cards.Keys
  {
    hide PutTasks, FillTasks;
    PutTasksKeepsStatus(co, b.cards, cids, tasks, Reach(b.catalog, tasks, 0));
  }

  // ---- Runs ----------------------------------------------------------------------------

  datatype Op =
    | OpCreateCard(cid: string, card: Card, req: Request)
    | OpUpdateCard(cid: string, card: Card, status: Option<CardStatus>, req: Request)
    | OpDeleteCard(cid: string)
    | OpSetLinks(cid: string, request: seq<(string, string)>)
    | OpPatchTodo(todo: nat, done: Option<bool>)
    | OpDeleteTodo(todo: nat)
    | OpInsertTodo(flag: bool, manual: bool)
    | OpPurgeTodos(gone: set<nat>)
    | OpInstantiate(tid: string, start: int, project: string, owner: string, iid: string, ids: seq<string>)
    | OpReschedule(iid: string, start: int)
    | OpUpgrade(iid: string, rows: seq<string>, ids: seq<string>)
    | OpDeleteInstance(iid: string)
    | OpDetach(cid: string)

  /** New card ids are fresh, and links hang off existing cards. */
  ghost predicate Allowed(st: State, op: Op) {
    match op
    case OpSetLinks(cid, _) => cid in st.board.cards
    case OpInstantiate(tid, _, _, _, _, ids) =>
      tid in st.board.templates && FreshIds(st.board, ids, |st.board.templates[tid].tasks|)
    case OpUpgrade(iid, rows, ids) =>
      Outdated(st.board, iid) ==>
        Rows(st.board, iid, rows)
        && FreshIds(st.board, ids, |st.board.templates[st.board.instances[iid].templateId].tasks|)
    case _ => true
  }

  ghost function Apply(st: State, op: Op): State
    requires Allowed(st, op)
  {
    match op
    case OpCreateCard(cid, card, req) => CreateCard(st, cid, card, req)
    case OpUpdateCard(cid, edited, status, req) => UpdateCard(st, cid, edited, status, req)
    case OpDeleteCard(cid) => DeleteCard(st, cid)
    case OpSetLinks(cid, request) => SetLinks(st, cid, request)
    case OpPatchTodo(t, done) => PatchTodo(st, t, done)
    case OpDeleteTodo(t) => DeleteTodo(st, t)
    case OpInsertTodo(flag, manual) =>
      var own := if manual then {st.nextTodo} else {};
      st.(todos := st.todos[st.nextTodo := flag], nextTodo := st.nextTodo + 1,
          manualTodos := st.manualTodos + own, manualRows := st.manualRows + own)
    case OpPurgeTodos(gone) => st.(todos := st.todos - gone)
    case OpInstantiate(tid, start, project, owner, iid, ids) =>
      Cascade(st, Instantiate(st.board, tid, start, project, owner, iid, ids))
    case OpReschedule(iid, start) => Cascade(st, Reschedule(st.board, iid, start))
    case OpUpgrade(iid, rows, ids) => Cascade(st, Upgrade(st.board, iid, rows, ids))
    case OpDeleteInstance(iid) => Cascade(st, DeleteInstance(st.board, iid))
    case OpDetach(cid) => Cascade(st, Detach(st.board, cid))
  }

  /** Neither a re-post across the done line nor a PATCH that moves a card across it and then fails. */
  ghost predicate Proper(st: State, op: Op) {
    match op
    case OpCreateCard(cid, card, _) => !Resets(st, cid, card)
    case OpUpdateCard(cid, edited, status, req) => !HalfPatched(st, cid, edited, status, req)
    case _ => true
  }

  ghost predicate Scheduling(op: Op) {
    op.OpInstantiate? || op.OpReschedule? || op.OpUpgrade? || op.OpDeleteInstance? || op.OpDetach?
  }

  lemma InstantiateKeepsStatus(b: Tables, tid: string, start: int, project: string, owner: string, iid: string,
                               ids: seq<string>)
    requires tid in b.templates && |ids| == |b.templates[tid].tasks|
    ensures StatusesKept(b, Instantiate(b, tid, start, project, owner, iid, ids))
  {
    hide Materialise, Edges, AllKnown;
    var inst := Instantiate(b, tid, start, project, owner, iid, ids).instances;
    var b1 := b.(instances := inst);
    MaterialiseKeepsStatus(b1, CohortOf(b, tid, start, project, iid), ids, b.templates[tid].tasks);
    InstancesFollow(b, tid, start, project, owner, iid, ids);
  }

  lemma UpgradeKeepsStatus(b: Tables, iid: string, rows: seq<string>, ids: seq<string>)
    requires Outdated(b, iid) ==>
      Rows(b, iid, rows) && |ids| == |b.templates[b.instances[iid].templateId].tasks|
    ensures StatusesKept(b, Upgrade(b, iid, rows, ids))
  {
    hide Materialise, Edges, AllKnown, ByLocal;
    if Outdated(b, iid) {
      var inst := b.instances[iid];
      var t := b.templates[inst.templateId];
      MaterialiseKeepsStatus(b, Cohort(t.unit, inst.startDate, inst.project, iid),
        Targets(ByLocal(b.cards, rows, |rows|), t.tasks, ids), t.tasks);
    }
  }

  lemma RescheduleKeepsStatus(b: Tables, iid: string, start: int)
    ensures StatusesKept(b, Reschedule(b, iid, start))
  {
    hide Shift, Index;
  }

  /** No scheduling operation changes the status of a card that is there before and after. */
  lemma SchedulingKeepsStatus(st: State, op: Op)
    requires Allowed(st, op) && Scheduling(op)
    ensures StatusesKept(st.board, Apply(st, op).board)
  {
    hide Instantiate, Upgrade, Reschedule, Rows, Outdated, StatusesKept;
    match op
    case OpInstantiate(tid, start, project, owner, iid, ids) =>
      InstantiateKeepsStatus(st.board, tid, start, project, owner, iid, ids);
    case OpUpgrade(iid, rows, ids) => UpgradeKeepsStatus(st.board, iid, rows, ids);
    case OpReschedule(iid, start) => RescheduleKeepsStatus(st.board, iid, start);
    case OpDeleteInstance(iid) => DropKeepsStatus(st.board, iid);
    case OpDetach(cid) => DetachKeepsStatus(st.board, cid);
  }

  lemma DropKeepsStatus(b: Tables, iid: string)
    ensures StatusesKept(b, DeleteInstance(b, iid))
  {
  }

  lemma DetachKeepsStatus(b: Tables, cid: string)
    ensures StatusesKept(b, Detach(b, cid))
  {
  }

  lemma InstancesFollow(b: Tables, tid: string, start: int, project: string, owner: string, iid: string,
                        ids: seq<string>)
    requires tid in b.templates && |ids| == |b.templates[tid].tasks|
    ensures
      var b' := Instantiate(b, tid, start, project, owner, iid, ids);
      b'.cards
        == Materialise(b.(instances := b'.instances), CohortOf(b, tid, start, project, iid), ids,
                       b.templates[tid].tasks).cards
  {
    hide PutTasks, FillTasks, Edges, AllKnown;
  }

  lemma SetLinksMirrors(st: State, cid: string, request: seq<(string, string)>)
    requires Mirrored(st) && cid in st.board.cards
    ensures Mirrored(SetLinks(st, cid, request))
  {
    hide Paired;
    SetLinksSound(st, cid, request);
  }

  lemma LinkStep(st: State, op: Op)
    requires Mirrored(st) && Allowed(st, op)
    requires op.OpSetLinks? || op.OpDeleteTodo? || op.OpInsertTodo? || op.OpPurgeTodos?
    ensures Mirrored(Apply(st, op))
  {
    hide SetLinks, Mirrored;
    if op.OpSetLinks? {
      SetLinksMirrors(st, op.cid, op.request);
    } else {
      TodoRowStep(st, op);
    }
  }

  lemma TodoRowStep(st: State, op: Op)
    requires Mirrored(st) && (op.OpDeleteTodo? || op.OpInsertTodo? || op.OpPurgeTodos?)
    ensures Mirrored(Apply(st, op))
  {
  }

  /** A step keeps the mirror exactly when it is proper. */
  lemma StepMirrors(st: State, op: Op)
    requires Mirrored(st) && Allowed(st, op)
    ensures Mirrored(Apply(st, op)) <==> Proper(st, op)
  {
    hide Mirrored, Resets, HalfPatched, CreateCard, UpdateCard, DeleteCard, PatchTodo, Reschedule, Instantiate;
    hide Upgrade, Detach;
    if op.OpCreateCard? {
      CreateCardMirrors(st, op.cid, op.card, op.req);
    } else if op.OpUpdateCard? {
      UpdateCardMirrors(st, op.cid, op.card, op.status, op.req);
    } else if op.OpDeleteCard? {
      DeleteCardMirrors(st, op.cid);
    } else if op.OpPatchTodo? {
      PatchTodoMirrors(st, op.todo, op.done);
    } else if Scheduling(op) {
      SchedulingKeepsStatus(st, op);
      CascadeMirrors(st, Apply(st, op).board);
    } else {
      LinkStep(st, op);
    }
  }

  ghost predicate IsRun(st: State, ops: seq<Op>)
    decreases |ops|
  {
    ops == [] || (Allowed(st, ops[0]) && Proper(st, ops[0]) && IsRun(Apply(st, ops[0]), ops[1..]))
  }

  ghost function After(st: State, ops: seq<Op>): State
    requires IsRun(st, ops)
    decreases |ops|
  {
    if ops == [] then st else After(Apply(st, ops[0]), ops[1..])
  }

  /** The tables a new database starts with. */
  lemma EmptyMirrored(catalog: set<int>)
    ensures Mirrored(State(Tables(map[], map[], map[], {}, map[], catalog), {}, map[], 0, {}, {}))
  {
  }

  /** Over every run, links stay one to one and cards and todos agree on being done. */
  lemma {:induction false} RunMirrors(st: State, ops: seq<Op>)
    requires Mirrored(st) && IsRun(st, ops)
    ensures Mirrored(After(st, ops))
    decreases |ops|
  {
    hide Mirrored, Apply, Proper;
    if ops != [] {
      StepMirrors(st, ops[0]);
      RunMirrors(Apply(st, ops[0]), ops[1..]);
    }
  }

  // ---- Where the conditions fail ------------------------------------------------------

  /** One finished card with its finished todo. */
  ghost function Finished(): State {
    State(Tables(map[], map[], map["c" := Card("", "", "", 1, 1, 1, 1, Done, "", "", "", None, None)], {}, map[], {}),
          {TodoLink("c", 0)}, map[0 := true], 1, {}, {})
  }

  lemma FinishedMirrored()
    ensures Mirrored(Finished())
  {
  }

  /** Re-posting the card with the default status leaves its todo done. */
  lemma RepostBreaks()
    ensures
      var st := Finished();
      Mirrored(st) && !Mirrored(CreateCard(st, "c", st.board.cards["c"].(status := Planned), NOTHING_MORE))
  {
    hide CreateCard, Mirrored;
    var st := Finished();
    FinishedMirrored();
    assert TodoLink("c", 0) in st.links && 0 in st.todos;
    CreateCardMirrors(st, "c", st.board.cards["c"].(status := Planned), NOTHING_MORE);
  }

  /** Reopening the card while naming a dependency that does not exist leaves its todo done. */
  lemma FailedPatchBreaks()
    ensures
      var st := Finished();
      && Mirrored(st)
      && !Mirrored(UpdateCard(st, "c", st.board.cards["c"], Some(InProgress), Request(Some(["x"]), None, None)))
  {
    hide UpdateCard, Mirrored;
    var st := Finished();
    FinishedMirrored();
    assert TodoLink("c", 0) in st.links && 0 in st.todos;
    assert ["x"][0] == "x" && "x" != "c";
    UpdateCardMirrors(st, "c", st.board.cards["c"], Some(InProgress), Request(Some(["x"]), None, None));
  }

  /** One blocked card with its open todo: ticked and unticked, the card is planned. */
  lemma BlockedIsForgotten()
    ensures
      var st := State(Tables(map[], map[], map["c" := Card("", "", "", 1, 1, 1, 1, Blocked, "", "", "", None, None)],
                             {}, map[], {}), {TodoLink("c", 0)}, map[0 := false], 1, {}, {});
      Mirrored(st) && PatchTodo(PatchTodo(st, 0, Some(true)), 0, Some(false)) != st
  {
    hide PatchTodo;
    var st := State(Tables(map[], map[], map["c" := Card("", "", "", 1, 1, 1, 1, Blocked, "", "", "", None, None)],
                           {}, map[], {}), {TodoLink("c", 0)}, map[0 := false], 1, {}, {});
    assert Mirrored(st);
    assert TodoLink("c", 0) in st.links;
    assert "c" in CardsOf(st.links, 0) && "c" in st.board.cards;
    hide Mirrored;
    TickAndUntick(st, 0);
  }
}
