/**
 The per-project centroid index and the item lists it is derived from
 (api/embedder.py:84-213).
 */
module Centroids {
  import opened Options

  /** A filed item; V is the type of (non-empty) embedding vectors. */
  datatype Entry<V> = Entry(id: string, vector: V, category: string)

  /** One row of the embeddings table. */
  datatype Rec<V> = Rec(items: seq<Entry<V>>, centroids: map<string, V>, counts: map<string, nat>)

  // ---- Item lists ----------------------------------------------------------------

  function Vectors<V>(items: seq<Entry<V>>, category: string): seq<V> {
    if items == [] then []
    else if items[0].category == category then [items[0].vector] + Vectors(items[1..], category)
    else Vectors(items[1..], category)
  }

  function Without<V>(items: seq<Entry<V>>, id: string): seq<Entry<V>> {
    if items == [] then []
    else if items[0].id == id then Without(items[1..], id)
    else [items[0]] + Without(items[1..], id)
  }

  function CategoriesOf<V>(items: seq<Entry<V>>, id: string): set<string> {
    set i | 0 <= i < |items| && items[i].id == id :: items[i].category
  }

  function Categories<V>(items: seq<Entry<V>>): set<string> {
    set i | 0 <= i < |items| :: items[i].category
  }

  ghost predicate UniqueIds<V>(items: seq<Entry<V>>) {
    forall i, j | 0 <= i < j < |items| :: items[i].id != items[j].id
  }

  /** The index computed from scratch from an item list. */
  function Rebuilt<V>(centre: seq<V> -> V, items: seq<Entry<V>>): Rec<V> {
    Rec(items,
        map c | c in Categories(items) :: centre(Vectors(items, c)),
        map c | c in Categories(items) :: |Vectors(items, c)|)
  }

  /** The stored index is the one its item list determines, and no item is listed twice. */
  ghost predicate Agrees<V>(centre: seq<V> -> V, r: Rec<V>) {
    UniqueIds(r.items) && r == Rebuilt(centre, r.items)
  }

  // ---- What the two operations write ------------------------------------------------

  /** `_recompute_centroid`, with `centre` for the normalised mean of a non-empty list. */
  function RecomputeCentroid<V>(centre: seq<V> -> V, items: seq<Entry<V>>, category: string): Option<V> {
    var vectors := Vectors(items, category);
    if vectors == [] then None else Some(centre(vectors))
  }

  function CountMembers<V>(items: seq<Entry<V>>, category: string): Option<nat> {
    var vectors := Vectors(items, category);
    if vectors == [] then None else Some(|vectors|)
  }

  /** Map m with the listed keys, and only those, set or dropped as `value` says. */
  function Patched<T>(m: map<string, T>, keys: set<string>, value: string -> Option<T>): map<string, T> {
    map k | k in m.Keys + keys && (k in keys ==> value(k).Some?) :: if k in keys then value(k).value else m[k]
  }

  /** Record r with its items replaced and the listed categories, and only those, recomputed. */
  function Refreshed<V>(centre: seq<V> -> V, r: Rec<V>, items: seq<Entry<V>>, categories: set<string>): Rec<V> {
    Rec(items,
        Patched(r.centroids, categories, c => RecomputeCentroid(centre, items, c)),
        Patched(r.counts, categories, c => CountMembers(items, c)))
  }

  function Removed<V>(centre: seq<V> -> V, r: Rec<V>, id: string): Rec<V> {
    Refreshed(centre, r, Without(r.items, id), CategoriesOf(r.items, id))
  }

  function Filed<V>(centre: seq<V> -> V, r: Rec<V>, entry: Entry<V>, categories: set<string>): Rec<V> {
    Refreshed(centre, r, Without(r.items, entry.id) + [entry], categories)
  }

  /** A re-filing request; "" stands for an absent old project or old category. */
  datatype Update<V> = Update(project: string, entry: Entry<V>, oldProject: string, oldCategory: string) {
    predicate Crosses() {
      oldProject != "" && oldProject != project
    }

    function Affected(): set<string> {
      {entry.category} + if oldCategory != "" && !Crosses() then {oldCategory} else {}
    }
  }

  function TargetOf<V>(recs: map<string, Rec<V>>, project: string): Rec<V> {
    if project in recs then recs[project] else Rec([], map[], map[])
  }

  function Departed<V>(centre: seq<V> -> V, recs: map<string, Rec<V>>, id: string, project: string)
    : map<string, Rec<V>>
  {
    if project in recs then recs[project := Removed(centre, recs[project], id)] else recs
  }

  function Updated<V>(centre: seq<V> -> V, recs: map<string, Rec<V>>, u: Update<V>): map<string, Rec<V>> {
    var recs1 := if u.Crosses() then Departed(centre, recs, u.entry.id, u.oldProject) else recs;
    recs1[u.project := Filed(centre, TargetOf(recs1, u.project), u.entry, u.Affected())]
  }

  lemma WithoutNothing<V>(id: string)
    ensures Without<V>([], id) == []
  {
  }

  lemma PatchedNone<T>(m: map<string, T>, value: string -> Option<T>)
    ensures Patched(m, {}, value) == m
  {
  }

  /** One more key. */
  lemma PatchedStep<T>(m: map<string, T>, keys: set<string>, k: string, value: string -> Option<T>)
    ensures Patched(m, keys + {k}, value) ==
      if value(k).Some? then Patched(m, keys, value)[k := value(k).value] else Patched(m, keys, value) - {k}
  {
  }

  /** The embeddings table, behind the embedder's lock. */
  class CentroidIndex<V> {
    const centre: seq<V> -> V
    const available: bool
    var recs: map<string, Rec<V>>

    constructor (centre: seq<V> -> V, available: bool)
      ensures this.centre == centre && this.available == available && recs == map[]
    {
      this.centre, this.available, recs := centre, available, map[];
    }

    /** The loop both operations share: recompute the listed categories, in any order. */
    method RecomputeAll(r: Rec<V>, items: seq<Entry<V>>, categories: set<string>) returns (r': Rec<V>)
      ensures r' == Refreshed(centre, r, items, categories)
    {
      hide Vectors, Patched;
      var centroids: map<string, V>, counts: map<string, nat>, todo := r.centroids, r.counts, categories;
      ghost var centroid := c => RecomputeCentroid(centre, items, c);
      ghost var members := c => CountMembers(items, c);
      PatchedNone(centroids, centroid);
      PatchedNone(counts, members);
      assert categories - categories == {};
      while todo != {}
        invariant todo <= categories
        invariant centroids == Patched(r.centroids, categories - todo, centroid)
        invariant counts == Patched(r.counts, categories - todo, members)
      {
        var c :| c in todo;
        var computed := RecomputeCentroid(centre, items, c);
        if computed.Some? {
          centroids := centroids[c := computed.value];
          counts := counts[c := |Vectors(items, c)|];
        } else {
          centroids := centroids - {c};
          counts := counts - {c};
        }
        PatchedStep(r.centroids, categories - todo, c, centroid);
        PatchedStep(r.counts, categories - todo, c, members);
        assert categories - (todo - {c}) == (categories - todo) + {c};
        todo := todo - {c};
      }
      assert categories - todo == categories;
      return Rec(items, centroids, counts);
    }

    /** `update_project`; an empty vector arrives as None. */
    method UpdateProject(project: string, id: string, vector: Option<V>, category: string,
                         oldProject: string, oldCategory: string)
      modifies this
      ensures recs ==
        if !available || vector.None? then old(recs)
        else Updated(centre, old(recs), Update(project, Entry(id, vector.value, category), oldProject, oldCategory))
    {
      hide Refreshed, Vectors, Without;
      if !available || vector.None? {
        return;
      }
      if oldProject != "" && oldProject != project {
        if oldProject in recs {
          var source := recs[oldProject];
          var left := RecomputeAll(source, Without(source.items, id), CategoriesOf(source.items, id));
          recs := recs[oldProject := left];
        }
      }
      var affected := {category};
      if oldCategory != "" && oldCategory != category && !(oldProject != "" && oldProject != project) {
        affected := affected + {oldCategory};
      }
      var entry := Entry(id, vector.value, category);
      var target;
      if project in recs {
        target := RecomputeAll(recs[project], Without(recs[project].items, id) + [entry], affected);
      } else {
        WithoutNothing<V>(id);
        assert Without<V>([], id) + [entry] == [entry];
        target := RecomputeAll(Rec([], map[], map[]), [entry], affected);
      }
      recs := recs[project := target];
      assert affected == Update(project, entry, oldProject, oldCategory).Affected();
    }

    /** `remove_item` */
    method RemoveItem(id: string, project: string)
      modifies this
      ensures recs == if !available then old(recs) else Departed(centre, old(recs), id, project)
    {
      hide Refreshed, Vectors, Without;
      if !available || project !in recs {
        return;
      }
      var r := recs[project];
      var left := RecomputeAll(r, Without(r.items, id), CategoriesOf(r.items, id));
      recs := recs[project := left];
    }
  }

  // ---- When the index still agrees --------------------------------------------------

  lemma {:induction false} VectorsMembers<V>(items: seq<Entry<V>>, category: string)
    ensures Vectors(items, category) != [] <==> category in Categories(items)
  {
    if items != [] {
      VectorsMembers(items[1..], category);
      if category in Categories(items[1..]) {
        var i :| 0 <= i < |items[1..]| && items[1..][i].category == category;
        assert items[i + 1].category == category;
      }
      if items[0].category != category && category in Categories(items) {
        var i :| 0 <= i < |items| && items[i].category == category;
        assert items[1..][i - 1].category == category;
      }
    }
  }

  lemma {:induction false} VectorsAppend<V>(items: seq<Entry<V>>, e: Entry<V>, category: string)
    ensures Vectors(items + [e], category)
         == Vectors(items, category) + if e.category == category then [e.vector] else []
  {
    if items != [] {
      VectorsAppend(items[1..], e, category);
      assert (items + [e])[1..] == items[1..] + [e];
    } else {
      assert items + [e] == [e] && [e][1..] == [];
    }
  }

  /** Dropping an item leaves every other category's vectors, and shortens its own. */
  lemma {:induction false} VectorsWithout<V>(items: seq<Entry<V>>, id: string, category: string)
    ensures category !in CategoriesOf(items, id) ==> Vectors(Without(items, id), category) == Vectors(items, category)
    ensures |Vectors(Without(items, id), category)| <= |Vectors(items, category)|
    ensures category in CategoriesOf(items, id) ==>
      |Vectors(Without(items, id), category)| < |Vectors(items, category)|
  {
    if items != [] {
      VectorsWithout(items[1..], id, category);
      if category in CategoriesOf(items[1..], id) {
        var i :| 0 <= i < |items[1..]| && items[1..][i].id == id && items[1..][i].category == category;
        assert items[i + 1].id == id && items[i + 1].category == category;
      }
      if category in CategoriesOf(items, id) && !(items[0].id == id && items[0].category == category) {
        var i :| 0 <= i < |items| && items[i].id == id && items[i].category == category;
        assert items[1..][i - 1].id == id && items[1..][i - 1].category == category;
      }
    }
  }

  lemma {:induction false} WithoutMembers<V>(items: seq<Entry<V>>, id: string)
    ensures forall e | e in Without(items, id) :: e in items && e.id != id
    ensures forall e | e in items && e.id != id :: e in Without(items, id)
  {
    if items != [] {
      WithoutMembers(items[1..], id);
      assert items == [items[0]] + items[1..];
    }
  }

  function Ids<V>(items: seq<Entry<V>>): set<string> {
    set i | 0 <= i < |items| :: items[i].id
  }

  lemma IdsOfCons<V>(e: Entry<V>, items: seq<Entry<V>>)
    ensures Ids([e] + items) == {e.id} + Ids(items)
  {
    var all := [e] + items;
    assert all[0] == e;
    forall i | 0 <= i < |items|
      ensures all[i + 1].id == items[i].id
    {
    }
  }

  lemma {:induction false} WithoutIds<V>(items: seq<Entry<V>>, id: string)
    ensures Ids(Without(items, id)) == Ids(items) - {id}
    ensures UniqueIds(items) ==> UniqueIds(Without(items, id))
  {
    if items != [] {
      WithoutIds(items[1..], id);
      var left := Without(items[1..], id);
      assert items == [items[0]] + items[1..];
      IdsOfCons(items[0], items[1..]);
      IdsOfCons(items[0], left);
      forall j | 0 <= j < |left|
        ensures UniqueIds(items) ==> left[j].id != items[0].id
      {
        assert left[j].id in Ids(left);
      }
    }
  }

  /** Recomputing every category whose vectors changed restores the whole index. */
  lemma RefreshedRebuilds<V>(centre: seq<V> -> V, r: Rec<V>, items: seq<Entry<V>>, categories: set<string>)
    requires r == Rebuilt(centre, r.items)
    requires forall c | c !in categories :: Vectors(items, c) == Vectors(r.items, c)
    ensures Refreshed(centre, r, items, categories) == Rebuilt(centre, items)
  {
    hide Vectors, Categories;
    var done := Refreshed(centre, r, items, categories);
    var rebuilt := Rebuilt(centre, items);
    forall c: string
      ensures c in done.centroids <==> c in rebuilt.centroids
      ensures c in done.counts <==> c in rebuilt.counts
    {
      VectorsMembers(items, c);
      VectorsMembers(r.items, c);
    }
    assert done.centroids == rebuilt.centroids;
    assert done.counts == rebuilt.counts;
  }

  /** Removing an item needs no condition. */
  lemma RemovedAgrees<V>(centre: seq<V> -> V, r: Rec<V>, id: string)
    requires Agrees(centre, r)
    ensures Agrees(centre, Removed(centre, r, id))
  {
    hide Vectors, Categories, CategoriesOf, Rebuilt, Patched;
    WithoutIds(r.items, id);
    forall c | c !in CategoriesOf(r.items, id)
      ensures Vectors(Without(r.items, id), c) == Vectors(r.items, c)
    {
      VectorsWithout(r.items, id, c);
    }
    RefreshedRebuilds(centre, r, Without(r.items, id), CategoriesOf(r.items, id));
  }

  /** Filing an item agrees exactly when the category it leaves is among those recomputed. */
  lemma FiledAgreesIff<V>(centre: seq<V> -> V, r: Rec<V>, entry: Entry<V>, categories: set<string>)
    requires Agrees(centre, r) && entry.category in categories
    ensures Agrees(centre, Filed(centre, r, entry, categories)) <==> CategoriesOf(r.items, entry.id) <= categories
  {
    hide Vectors, Categories, CategoriesOf;
    var left := Without(r.items, entry.id);
    var items := left + [entry];
    WithoutIds(r.items, entry.id);
    forall c: string
      ensures c !in categories ==> Vectors(items, c) == Vectors(left, c)
    {
      VectorsAppend(left, entry, c);
    }
    if CategoriesOf(r.items, entry.id) <= categories {
      forall c | c !in categories
        ensures Vectors(items, c) == Vectors(r.items, c)
      {
        VectorsWithout(r.items, entry.id, c);
      }
      RefreshedRebuilds(centre, r, items, categories);
    } else {
      var c :| c in CategoriesOf(r.items, entry.id) && c !in categories;
      VectorsWithout(r.items, entry.id, c);
      VectorsMembers(r.items, c);
      var done := Filed(centre, r, entry, categories);
      assert c in done.counts && done.counts[c] == |Vectors(r.items, c)|;
      assert |Vectors(items, c)| < done.counts[c];
    }
  }

  ghost predicate AllAgree<V>(centre: seq<V> -> V, recs: map<string, Rec<V>>) {
    forall p | p in recs :: Agrees(centre, recs[p])
  }

  /**
   The category the target project lists the item under, if any, is the one it is filed
   under, or the old one the request names without naming another project to leave.
   */
  ghost predicate NamesOldCategory<V>(recs: map<string, Rec<V>>, u: Update<V>) {
    u.project in recs ==>
      forall e | e in recs[u.project].items && e.id == u.entry.id ::
        || e.category == u.entry.category
        || (u.oldCategory != "" && e.category == u.oldCategory && (u.oldProject == "" || u.oldProject == u.project))
  }

  lemma NamedAreAffected<V>(recs: map<string, Rec<V>>, u: Update<V>)
    ensures NamesOldCategory(recs, u)
       <==> (u.project in recs ==> CategoriesOf(recs[u.project].items, u.entry.id) <= u.Affected())
  {
    if u.project in recs {
      var items := recs[u.project].items;
      if NamesOldCategory(recs, u) {
        forall c | c in CategoriesOf(items, u.entry.id)
          ensures c in u.Affected()
        {
          var i :| 0 <= i < |items| && items[i].id == u.entry.id && items[i].category == c;
          assert items[i] in items;
        }
      } else {
        var e :| e in items && e.id == u.entry.id && e.category != u.entry.category
          && !(u.oldCategory != "" && e.category == u.oldCategory && (u.oldProject == "" || u.oldProject == u.project));
        assert e.category in CategoriesOf(items, u.entry.id);
      }
    }
  }

  lemma NothingAgrees<V>(centre: seq<V> -> V)
    ensures Agrees(centre, Rec([], map[], map[]))
  {
    assert Rec([], map[], map[]) == Rebuilt(centre, []);
  }

  lemma DepartedAgrees<V>(centre: seq<V> -> V, recs: map<string, Rec<V>>, id: string, project: string)
    requires AllAgree(centre, recs)
    ensures AllAgree(centre, Departed(centre, recs, id, project))
  {
    hide Agrees, Removed;
    if project in recs {
      RemovedAgrees(centre, recs[project], id);
    }
  }

  /**
   An update leaves every project's index in agreement exactly when it names the
   category the item leaves and, if it names it, does not also cross projects.
   */
  lemma UpdatedAgreesIff<V>(centre: seq<V> -> V, recs: map<string, Rec<V>>, u: Update<V>)
    requires AllAgree(centre, recs)
    ensures AllAgree(centre, Updated(centre, recs, u)) <==> NamesOldCategory(recs, u)
  {
    hide Agrees, Removed, Filed, NamesOldCategory;
    NamedAreAffected(recs, u);
    var recs1 := if u.Crosses() then Departed(centre, recs, u.entry.id, u.oldProject) else recs;
    if u.Crosses() {
      DepartedAgrees(centre, recs, u.entry.id, u.oldProject);
    }
    var target := TargetOf(recs1, u.project);
    NothingAgrees(centre);
    FiledAgreesIff(centre, target, u.entry, u.Affected());
    var done := Updated(centre, recs, u);
    assert done[u.project] == Filed(centre, target, u.entry, u.Affected());
  }

  /** The project an item moves away from loses that item and nothing else. */
  lemma DepartedItems<V>(centre: seq<V> -> V, recs: map<string, Rec<V>>, id: string, project: string)
    requires project in recs
    ensures
      var recs' := Departed(centre, recs, id, project);
      && recs'.Keys == recs.Keys && (forall p | p in recs && p != project :: recs'[p] == recs[p])
      && (forall e | e in recs'[project].items :: e in recs[project].items && e.id != id)
      && (forall e | e in recs[project].items && e.id != id :: e in recs'[project].items)
  {
    hide Patched;
    WithoutMembers(recs[project].items, id);
  }

  /** Filing lists the entry once and keeps every other one. */
  lemma FiledItems<V>(centre: seq<V> -> V, r: Rec<V>, entry: Entry<V>, categories: set<string>)
    requires UniqueIds(r.items)
    ensures
      var items := Filed(centre, r, entry, categories).items;
      && UniqueIds(items) && entry in items
      && (forall e: Entry<V> | e.id != entry.id :: e in items <==> e in r.items)
  {
    hide Patched;
    WithoutMembers(r.items, entry.id);
    WithoutIds(r.items, entry.id);
    var left := Without(r.items, entry.id);
    var items := left + [entry];
    assert items[|left|] == entry;
    assert forall j | 0 <= j < |left| :: left[j].id in Ids(left);
  }

  /**
   An update files the item once, in the target project, and takes it out of the old
   project it names, if that is another one; nothing else moves anywhere.
   */
  lemma UpdatedFiles<V>(centre: seq<V> -> V, recs: map<string, Rec<V>>, u: Update<V>)
    requires AllAgree(centre, recs)
    ensures
      var recs' := Updated(centre, recs, u);
      && recs'.Keys == recs.Keys + {u.project}
      && (forall p | p in recs && p != u.project && p != u.oldProject :: recs'[p] == recs[p])
      && UniqueIds(recs'[u.project].items) && u.entry in recs'[u.project].items
      && (forall e: Entry<V> | e.id != u.entry.id ::
            e in recs'[u.project].items <==> u.project in recs && e in recs[u.project].items)
      && (u.oldProject != "" && u.oldProject != u.project && u.oldProject in recs ==>
            forall e: Entry<V> ::
              e in recs'[u.oldProject].items <==> e in recs[u.oldProject].items && e.id != u.entry.id)
  {
    hide Filed, Removed, Rebuilt, UniqueIds;
    var target := TargetOf(recs, u.project);
    assert UniqueIds(target.items) by {
      NothingListedTwice<V>();
    }
    FiledItems(centre, target, u.entry, u.Affected());
    var recs1 := if u.Crosses() then Departed(centre, recs, u.entry.id, u.oldProject) else recs;
    assert TargetOf(recs1, u.project) == target;
    if u.oldProject in recs {
      DepartedItems(centre, recs, u.entry.id, u.oldProject);
    }
  }

  lemma NothingListedTwice<V>()
    ensures UniqueIds<V>([])
  {
  }

  // ---- Where the condition fails ----------------------------------------------------------

  /**
   Re-filing the one item of a project under another category without naming the
   old one leaves the old centroid behind; so does naming it while claiming to move
   the item from another project.
   */
  lemma UnnamedCategoryStays<V>(centre: seq<V> -> V, v: V, oldProject: string, oldCategory: string)
    requires oldCategory == "" || (oldProject != "" && oldProject != "p")
    ensures
      var recs := map["p" := Rebuilt(centre, [Entry("x", v, "a")])];
      AllAgree(centre, recs)
      && !AllAgree(centre, Updated(centre, recs, Update("p", Entry("x", v, "b"), oldProject, oldCategory)))
  {
    hide Rebuilt, Updated;
    var items := [Entry("x", v, "a")];
    var recs := map["p" := Rebuilt(centre, items)];
    var u := Update("p", Entry("x", v, "b"), oldProject, oldCategory);
    RebuiltAgrees(centre, items);
    assert items[0] in items && items[0].id == "x";
    UpdatedAgreesIff(centre, recs, u);
  }

  /** Naming the category it leaves is enough, and the emptied category goes from the index. */
  lemma NamedCategoryGoes<V>(centre: seq<V> -> V, v: V, w: V)
    ensures
      var recs := map["p" := Rebuilt(centre, [Entry("x", v, "a")])];
      var recs' := Updated(centre, recs, Update("p", Entry("x", w, "b"), "", "a"));
      && AllAgree(centre, recs')
      && recs'["p"] == Rec([Entry("x", w, "b")], map["b" := centre([w])], map["b" := 1])
  {
    hide Updated, AllAgree;
    var items := [Entry("x", v, "a")];
    var recs := map["p" := Rebuilt(centre, items)];
    var u := Update("p", Entry("x", w, "b"), "", "a");
    assert AllAgree(centre, recs) by {
      RebuiltAgrees(centre, items);
      AgreesAlone(centre, "p", Rebuilt(centre, items));
    }
    assert forall e | e in items :: e == items[0];
    UpdatedAgreesIff(centre, recs, u);
    RefiledAlone(centre, v, w);
  }

  lemma AgreesAlone<V>(centre: seq<V> -> V, project: string, r: Rec<V>)
    requires Agrees(centre, r)
    ensures AllAgree(centre, map[project := r])
  {
    hide Agrees;
  }

  lemma RefiledAlone<V>(centre: seq<V> -> V, v: V, w: V)
    ensures
      var recs := map["p" := Rebuilt(centre, [Entry("x", v, "a")])];
      Updated(centre, recs, Update("p", Entry("x", w, "b"), "", "a"))["p"]
        == Rec([Entry("x", w, "b")], map["b" := centre([w])], map["b" := 1])
  {
    var left, entry := Entry("x", v, "a"), Entry("x", w, "b");
    var recs := map["p" := Rebuilt(centre, [left])];
    var u := Update("p", entry, "", "a");
    assert [left][1..] == [] && [entry][1..] == [];
    assert Without([left], "x") + [entry] == [entry];
    assert Vectors([entry], "b") == [w] && Vectors([entry], "a") == [];
    assert u.Affected() == {"a", "b"};
    assert [left][0].category == "a" && Categories([left]) == {"a"};
    var r := Filed(centre, Rebuilt(centre, [left]), entry, {"a", "b"});
    assert r.items == [entry];
    assert r.centroids == map["b" := centre([w])];
    assert r.counts == map["b" := 1];
  }

  lemma RebuiltAgrees<V>(centre: seq<V> -> V, items: seq<Entry<V>>)
    requires UniqueIds(items)
    ensures Agrees(centre, Rebuilt(centre, items)) && Rebuilt(centre, items).items == items
  {
  }

  // ---- Runs --------------------------------------------------------------------------

  datatype Op<V> = UpdateOp(u: Update<V>) | RemoveOp(id: string, project: string)

  function Apply<V>(centre: seq<V> -> V, recs: map<string, Rec<V>>, op: Op<V>): map<string, Rec<V>> {
    match op
    case UpdateOp(u) => Updated(centre, recs, u)
    case RemoveOp(id, project) => Departed(centre, recs, id, project)
  }

  function Run<V>(centre: seq<V> -> V, recs: map<string, Rec<V>>, ops: seq<Op<V>>): map<string, Rec<V>>
    decreases |ops|
  {
    if ops == [] then recs else Run(centre, Apply(centre, recs, ops[0]), ops[1..])
  }

  /** Every update of the run names the category its item leaves in the target project. */
  ghost predicate ProperRun<V>(centre: seq<V> -> V, recs: map<string, Rec<V>>, ops: seq<Op<V>>)
    decreases |ops|
  {
    ops == [] || ((ops[0].UpdateOp? ==> NamesOldCategory(recs, ops[0].u))
                  && ProperRun(centre, Apply(centre, recs, ops[0]), ops[1..]))
  }

  /** The index a new database starts with. */
  lemma EmptyIndex<V>(centre: seq<V> -> V)
    ensures AllAgree<V>(centre, map[])
  {
  }

  /** The index equals a recomputation from the item lists after any run of proper updates and removals. */
  lemma {:induction false} RunAgrees<V>(centre: seq<V> -> V, recs: map<string, Rec<V>>, ops: seq<Op<V>>)
    requires AllAgree(centre, recs) && ProperRun(centre, recs, ops)
    ensures AllAgree(centre, Run(centre, recs, ops))
    decreases |ops|
  {
    hide AllAgree, NamesOldCategory, Updated, Departed;
    if ops != [] {
      if ops[0].UpdateOp? {
        UpdatedAgreesIff(centre, recs, ops[0].u);
      } else {
        DepartedAgrees(centre, recs, ops[0].id, ops[0].project);
      }
      RunAgrees(centre, Apply(centre, recs, ops[0]), ops[1..]);
    }
  }
}
