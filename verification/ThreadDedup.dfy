/**
 Saving an analysis without repeating a conversation's todos (api/app.py:521-697,
 api/db.py:912-953).
 */
module ThreadDedup {
  import opened Descriptions

  // ---- Tables ----------------------------------------------------------------------

  /** A todo row; `item` is "" when it belongs to no item. */
  datatype Todo = Todo(item: string, description: string)

  /** Conversation of each item row ("" for none), todo rows, next row id. */
  datatype Store = Store(convs: map<string, string>, todos: map<nat, Todo>, nextId: nat)

  /** `tracked` is has_action and a category other than fyi. */
  datatype Analysis = Analysis(item: string, conv: string, tracked: bool, actions: seq<string>)

  predicate InConversation(st: Store, t: nat, c: string) {
    t in st.todos && st.todos[t].item in st.convs && st.convs[st.todos[t].item] == c
  }

  predicate TodoExists(st: Store, item: string, description: string) {
    exists t | t in st.todos :: st.todos[t] == Todo(item, description)
  }

  predicate TodoExistsInConversation(st: Store, c: string, description: string) {
    c != ""
    && exists t | t in st.todos :: InConversation(st, t, c) && Norm(st.todos[t].description) == Norm(description)
  }

  function SaveAction(st: Store, a: Analysis, description: string): Store {
    if TodoExists(st, a.item, description) || TodoExistsInConversation(st, a.conv, description) then st
    else st.(todos := st.todos[st.nextId := Todo(a.item, description)], nextId := st.nextId + 1)
  }

  function SaveActions(st: Store, a: Analysis, k: nat): Store
    requires k <= |a.actions|
  {
    if k == 0 then st else SaveAction(SaveActions(st, a, k - 1), a, a.actions[k - 1])
  }

  /** The store after the item row is written and, on re-analysis, its old todos are dropped. */
  function Upserted(st: Store, a: Analysis, reanalyze: bool): Store {
    st.(convs := st.convs[a.item := a.conv],
        todos := if reanalyze then map t | t in st.todos && st.todos[t].item != a.item :: st.todos[t] else st.todos)
  }

  function Save(st: Store, a: Analysis, reanalyze: bool): Store {
    var st1 := Upserted(st, a, reanalyze);
    if a.tracked then SaveActions(st1, a, |a.actions|) else st1
  }

  class TodoStore {
    var convs: map<string, string>
    var todos: map<nat, Todo>
    var nextId: nat

    ghost function Model(): Store
      reads this
    {
      Store(convs, todos, nextId)
    }

    /** `_save_analysis` */
    method SaveAnalysis(a: Analysis, reanalyze: bool)
      modifies this
      ensures Model() == Save(old(Model()), a, reanalyze)
    {
      if reanalyze {
        todos := map t | t in todos && todos[t].item != a.item :: todos[t];
      }
      convs := convs[a.item := a.conv];
      ghost var start := Model();
      if a.tracked {
        for i := 0 to |a.actions|
          invariant Model() == SaveActions(start, a, i)
        {
          var d := a.actions[i];
          var st := Store(convs, todos, nextId);
          if !TodoExists(st, a.item, d) && !TodoExistsInConversation(st, a.conv, d) {
            todos := todos[nextId := Todo(a.item, d)];
            nextId := nextId + 1;
          }
        }
      }
    }
  }

  // ---- No conversation holds a description twice ---------------------------------------

  /** Row ids are handed out upwards, and a todo's item row exists. */
  ghost predicate Sound(st: Store) {
    && (forall t | t in st.todos :: t < st.nextId)
    && (forall t | t in st.todos :: st.todos[t].item == "" || st.todos[t].item in st.convs)
  }

  ghost predicate Deduplicated(st: Store) {
    forall c, t, u | c != "" && t != u && InConversation(st, t, c) && InConversation(st, u, c) ::
      Norm(st.todos[t].description) != Norm(st.todos[u].description)
  }

  lemma {:induction false} SaveActionsExtends(st: Store, a: Analysis, k: nat)
    requires k <= |a.actions| && forall t | t in st.todos :: t < st.nextId
    ensures
      var st' := SaveActions(st, a, k);
      && st'.convs == st.convs
      && (forall t | t in st'.todos :: t < st'.nextId)
      && (forall t | t in st.todos :: t in st'.todos && st'.todos[t] == st.todos[t])
      && (forall t | t in st'.todos && t !in st.todos ::
            t >= st.nextId && st'.todos[t].item == a.item && st'.todos[t].description in a.actions)
      && st.nextId <= st'.nextId
  {
    if k > 0 {
      SaveActionsExtends(st, a, k - 1);
    }
  }

  /** One action item: the new todo, if any, is filed under the save's own conversation. */
  lemma SaveActionDeduplicates(st: Store, a: Analysis, description: string)
    requires forall t | t in st.todos :: t < st.nextId
    requires a.item in st.convs && st.convs[a.item] == a.conv && Deduplicated(st)
    ensures Deduplicated(SaveAction(st, a, description))
  {
    hide Norm;
    var st' := SaveAction(st, a, description);
    if st' != st {
      var added := st.nextId;
      forall c, t, u | c != "" && t != u && InConversation(st', t, c) && InConversation(st', u, c)
        ensures Norm(st'.todos[t].description) != Norm(st'.todos[u].description)
      {
        if t != added {
          assert InConversation(st, t, c);
        }
        if u != added {
          assert InConversation(st, u, c);
        }
      }
    }
  }

  /** Inserting a save's action items never creates a repeat, however many there are. */
  lemma {:induction false} SaveActionsDeduplicates(st: Store, a: Analysis, k: nat)
    requires k <= |a.actions| && (forall t | t in st.todos :: t < st.nextId)
    requires a.item in st.convs && st.convs[a.item] == a.conv && Deduplicated(st)
    ensures Deduplicated(SaveActions(st, a, k))
  {
    hide Norm, SaveAction, Deduplicated;
    if k > 0 {
      SaveActionsExtends(st, a, k - 1);
      SaveActionsDeduplicates(st, a, k - 1);
      SaveActionDeduplicates(SaveActions(st, a, k - 1), a, a.actions[k - 1]);
    }
  }

  /**
   The todo table answers for this action item of the save: a todo of the item itself
   says exactly that, or one of an item of the same conversation says it but for case,
   spacing and closing stops.
   */
  ghost predicate Recorded(st: Store, a: Analysis, description: string) {
    exists t :: t in st.todos
      && (|| (st.todos[t].item == a.item && st.todos[t].description == description)
          || (a.conv != "" && st.todos[t].item in st.convs && st.convs[st.todos[t].item] == a.conv
              && Norm(st.todos[t].description) == Norm(description)))
  }

  /** Just what the guard of an insert asks. */
  lemma RecordedIff(st: Store, a: Analysis, description: string)
    ensures Recorded(st, a, description)
       <==> TodoExists(st, a.item, description) || TodoExistsInConversation(st, a.conv, description)
  {
    hide Norm;
    if TodoExists(st, a.item, description) {
      var t :| t in st.todos && st.todos[t] == Todo(a.item, description);
    } else if TodoExistsInConversation(st, a.conv, description) {
      var t :| t in st.todos && InConversation(st, t, a.conv) && Norm(st.todos[t].description) == Norm(description);
    }
  }

  /** Nothing a save is asked to track is lost: each action item ends up recorded. */
  lemma {:induction false} SaveActionsRecordsAll(st: Store, a: Analysis, k: nat, i: nat)
    requires i < k <= |a.actions| && (forall t | t in st.todos :: t < st.nextId)
    ensures Recorded(SaveActions(st, a, k), a, a.actions[i])
  {
    hide Norm;
    var prev := SaveActions(st, a, k - 1);
    var st' := SaveActions(st, a, k);
    var d := a.actions[i];
    SaveActionsExtends(st, a, k - 1);
    RecordedIff(prev, a, d);
    if i < k - 1 {
      SaveActionsRecordsAll(st, a, k - 1, i);
      RecordedStays(prev, st', a, d);
    } else if st' != prev {
      assert st'.todos[prev.nextId] == Todo(a.item, d);
    }
  }

  lemma RecordedStays(st: Store, st': Store, a: Analysis, description: string)
    requires Recorded(st, a, description) && st'.convs == st.convs
    requires forall t | t in st.todos :: t in st'.todos && st'.todos[t] == st.todos[t]
    ensures Recorded(st', a, description)
  {
    hide Norm;
    var t :| t in st.todos
      && (|| (st.todos[t].item == a.item && st.todos[t].description == description)
          || (a.conv != "" && st.todos[t].item in st.convs && st.convs[st.todos[t].item] == a.conv
              && Norm(st.todos[t].description) == Norm(description)));
    assert t in st'.todos && st'.todos[t] == st.todos[t];
  }

  /** And no todo is added without need: each one added says what no row answered for before it. */
  lemma SaveActionOnlyIfNeeded(st: Store, a: Analysis, description: string)
    requires forall t | t in st.todos :: t < st.nextId
    ensures
      var st' := SaveAction(st, a, description);
      && st'.convs == st.convs
      && (Recorded(st, a, description) ==> st' == st)
      && (!Recorded(st, a, description) ==>
            && st'.todos.Keys == st.todos.Keys + {st.nextId} && st.nextId !in st.todos
            && (forall t | t in st.todos :: st'.todos[t] == st.todos[t])
            && st'.todos[st.nextId] == Todo(a.item, description) && st'.nextId == st.nextId + 1)
  {
    hide Recorded, TodoExists, TodoExistsInConversation;
    RecordedIff(st, a, description);
  }

  lemma {:induction false} RecordedAddNothing(st: Store, a: Analysis, k: nat)
    requires k <= |a.actions| && forall d | d in a.actions :: Recorded(st, a, d)
    ensures SaveActions(st, a, k) == st
  {
    hide TodoExists, TodoExistsInConversation, Recorded;
    if k > 0 {
      RecordedAddNothing(st, a, k - 1);
      assert a.actions[k - 1] in a.actions;
      RecordedIff(st, a, a.actions[k - 1]);
    }
  }

  /** Scanning an unchanged item again adds nothing. */
  lemma SaveAgain(st: Store, a: Analysis)
    requires Sound(st)
    ensures Save(Save(st, a, false), a, false) == Save(st, a, false)
  {
    hide Norm, SaveActions, Recorded;
    var st1 := Upserted(st, a, false);
    var st2 := Save(st, a, false);
    if a.tracked {
      SaveActionsExtends(st1, a, |a.actions|);
      forall d | d in a.actions
        ensures Recorded(st2, a, d)
      {
        var i :| 0 <= i < |a.actions| && a.actions[i] == d;
        SaveActionsRecordsAll(st1, a, |a.actions|, i);
      }
      RecordedAddNothing(st2, a, |a.actions|);
    }
    assert Upserted(st2, a, false) == st2;
  }

  /**
   A save files the item under its conversation; a re-analysis drops the item's todos
   and no other; what is added are action items, if they are tracked, and then each of
   them ends up recorded.
   */
  lemma SaveRows(st: Store, a: Analysis, reanalyze: bool)
    requires Sound(st)
    ensures
      var st' := Save(st, a, reanalyze);
      && st'.convs == st.convs[a.item := a.conv]
      && (forall t | t in st.todos ::
            if reanalyze && st.todos[t].item == a.item then t !in st'.todos
            else t in st'.todos && st'.todos[t] == st.todos[t])
      && (forall t | t in st'.todos && t !in st.todos ::
            a.tracked && st'.todos[t].item == a.item && st'.todos[t].description in a.actions)
      && (a.tracked ==> forall d | d in a.actions :: Recorded(st', a, d))
  {
    hide Norm, SaveActions, Recorded;
    var st1 := Upserted(st, a, reanalyze);
    if a.tracked {
      SaveActionsExtends(st1, a, |a.actions|);
      forall d | d in a.actions
        ensures Recorded(Save(st, a, reanalyze), a, d)
      {
        var i :| 0 <= i < |a.actions| && a.actions[i] == d;
        SaveActionsRecordsAll(st1, a, |a.actions|, i);
      }
    }
  }

  /**
   A todo of the item that the save leaves in place would meet, in the conversation
   the item is now filed under, a todo with the same normalised description.
   */
  ghost predicate Clash(st: Store, a: Analysis, reanalyze: bool) {
    && !reanalyze && a.conv != ""
    && exists t, u :: t in st.todos && u in st.todos && t != u
         && st.todos[t].item == a.item && (st.todos[u].item == a.item || InConversation(st, u, a.conv))
         && Norm(st.todos[t].description) == Norm(st.todos[u].description)
  }

  lemma UpsertedDeduplicated(st: Store, a: Analysis, reanalyze: bool)
    requires Deduplicated(st)
    ensures Deduplicated(Upserted(st, a, reanalyze)) <==> !Clash(st, a, reanalyze)
  {
    hide Norm;
    var st1 := Upserted(st, a, reanalyze);
    if Clash(st, a, reanalyze) {
      var t, u :| t in st.todos && u in st.todos && t != u
         && st.todos[t].item == a.item && (st.todos[u].item == a.item || InConversation(st, u, a.conv))
         && Norm(st.todos[t].description) == Norm(st.todos[u].description);
      assert InConversation(st1, t, a.conv) && InConversation(st1, u, a.conv);
    } else {
      forall c, t, u | c != "" && t != u && InConversation(st1, t, c) && InConversation(st1, u, c)
        ensures Norm(st1.todos[t].description) != Norm(st1.todos[u].description)
      {
        if st.todos[t].item != a.item && st.todos[u].item != a.item {
          assert InConversation(st, t, c) && InConversation(st, u, c);
        }
      }
    }
  }

  /** A save keeps every conversation free of repeats, exactly when no todo left in place clashes. */
  lemma SaveDeduplicatesIff(st: Store, a: Analysis, reanalyze: bool)
    requires Sound(st) && Deduplicated(st)
    ensures Deduplicated(Save(st, a, reanalyze)) <==> !Clash(st, a, reanalyze)
  {
    hide Norm, Clash;
    var st1 := Upserted(st, a, reanalyze);
    UpsertedDeduplicated(st, a, reanalyze);
    if a.tracked {
      SaveActionsExtends(st1, a, |a.actions|);
      if Deduplicated(st1) {
        SaveActionsDeduplicates(st1, a, |a.actions|);
      } else {
        var c, t, u :| c != "" && t != u && InConversation(st1, t, c) && InConversation(st1, u, c)
          && Norm(st1.todos[t].description) == Norm(st1.todos[u].description);
        var st2 := Save(st, a, reanalyze);
        assert InConversation(st2, t, c) && InConversation(st2, u, c);
      }
    }
  }

  /** Saved again under another conversation, an item takes along a todo that conversation already holds. */
  lemma ChangedConversationRepeats()
    ensures
      var st := Store(map["a" := "c", "b" := "d"], map[0 := Todo("a", "x"), 1 := Todo("b", "x")], 2);
      Sound(st) && Deduplicated(st) && !Deduplicated(Save(st, Analysis("b", "c", false, []), false))
  {
    hide Norm, Save;
    var st := Store(map["a" := "c", "b" := "d"], map[0 := Todo("a", "x"), 1 := Todo("b", "x")], 2);
    assert Deduplicated(st) by {
      assert forall c, t, u | InConversation(st, t, c) && InConversation(st, u, c) :: t == u;
    }
    assert st.todos[1].item == "b" && InConversation(st, 0, "c");
    SaveDeduplicatesIff(st, Analysis("b", "c", false, []), false);
  }

  // ---- Runs ------------------------------------------------------------------------------

  datatype Op = SaveOp(a: Analysis, reanalyze: bool) | DeleteTodo(id: nat) | DeleteItem(item: string)

  function Apply(st: Store, op: Op): Store {
    match op
    case SaveOp(a, reanalyze) => Save(st, a, reanalyze)
    case DeleteTodo(id) => st.(todos := map t | t in st.todos && t != id :: st.todos[t])
    case DeleteItem(item) =>
      st.(convs := st.convs - {item}, todos := map t | t in st.todos && st.todos[t].item != item :: st.todos[t])
  }

  function Run(st: Store, ops: seq<Op>): Store
    decreases |ops|
  {
    if ops == [] then st else Run(Apply(st, ops[0]), ops[1..])
  }

  /** A save names an item, and an incremental save keeps its conversation. */
  ghost predicate Stable(st: Store, op: Op) {
    op.SaveOp? ==>
      op.a.item != "" && (op.reanalyze || op.a.item !in st.convs || st.convs[op.a.item] == op.a.conv)
  }

  ghost predicate StableRun(st: Store, ops: seq<Op>)
    decreases |ops|
  {
    ops == [] || (Stable(st, ops[0]) && StableRun(Apply(st, ops[0]), ops[1..]))
  }

  lemma StableSaveDoesNotClash(st: Store, op: Op)
    requires Sound(st) && Deduplicated(st) && Stable(st, op) && op.SaveOp?
    ensures !Clash(st, op.a, op.reanalyze)
  {
    hide Norm;
    if !op.reanalyze && op.a.conv != "" {
      forall t, u | t in st.todos && u in st.todos && t != u && st.todos[t].item == op.a.item
          && (st.todos[u].item == op.a.item || InConversation(st, u, op.a.conv))
        ensures Norm(st.todos[t].description) != Norm(st.todos[u].description)
      {
        assert InConversation(st, t, op.a.conv);
        assert InConversation(st, u, op.a.conv);
      }
    }
  }

  lemma StepKeepsSound(st: Store, op: Op)
    requires Sound(st)
    ensures Sound(Apply(st, op))
  {
    hide Norm, SaveActions;
    if op.SaveOp? && op.a.tracked {
      SaveActionsExtends(Upserted(st, op.a, op.reanalyze), op.a, |op.a.actions|);
    }
  }

  lemma StepKeepsDeduplicated(st: Store, op: Op)
    requires Sound(st) && Deduplicated(st) && Stable(st, op)
    ensures Deduplicated(Apply(st, op))
  {
    hide Norm, Clash, Save;
    if op.SaveOp? {
      StableSaveDoesNotClash(st, op);
      SaveDeduplicatesIff(st, op.a, op.reanalyze);
    } else {
      forall c, t | InConversation(Apply(st, op), t, c)
        ensures InConversation(st, t, c)
      {
      }
    }
  }

  /** The tables a new database starts with. */
  lemma EmptyStore()
    ensures Sound(Store(map[], map[], 0)) && Deduplicated(Store(map[], map[], 0))
  {
  }

  /**
   Over any sequence of incremental and re-analysis saves and deletions, no
   conversation ever holds two todos with the same normalised description.
   */
  lemma {:induction false} RunDeduplicated(st: Store, ops: seq<Op>)
    requires Sound(st) && Deduplicated(st) && StableRun(st, ops)
    ensures Deduplicated(Run(st, ops))
    decreases |ops|
  {
    hide Apply, Sound, Deduplicated, Stable;
    if ops != [] {
      StepKeepsSound(st, ops[0]);
      StepKeepsDeduplicated(st, ops[0]);
      RunDeduplicated(Apply(st, ops[0]), ops[1..]);
    }
  }
}
