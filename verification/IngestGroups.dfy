/**
 Grouping an ingest batch by conversation, so that a reply chain is analysed
 oldest first (api/orchestrator.py:721-736).
 */
module IngestGroups {
  import opened Sorting

  /** `conv` is "" for standalone items; `time` ranks the timestamps. */
  datatype Item = Item(id: string, conv: string, time: int)

  function ByTime(): (Item, Item) -> bool {
    (x: Item, y: Item) => x.time <= y.time
  }

  function OfConv(raw: seq<Item>, c: string): seq<Item> {
    if raw == [] then []
    else
      var n := |raw| - 1;
      OfConv(raw[..n], c) + (if raw[n].conv == c then [raw[n]] else [])
  }

  /** Conversations in order of first appearance. */
  function Convs(raw: seq<Item>): seq<string> {
    if raw == [] then []
    else
      var n := |raw| - 1;
      var before := Convs(raw[..n]);
      if raw[n].conv == "" || raw[n].conv in before then before else before + [raw[n].conv]
  }

  function Singles(raw: seq<Item>): seq<seq<Item>> {
    if raw == [] then []
    else
      var n := |raw| - 1;
      Singles(raw[..n]) + (if raw[n].conv == "" then [[raw[n]]] else [])
  }

  function Threads(raw: seq<Item>, convs: seq<string>): (threads: seq<seq<Item>>)
    ensures |threads| == |convs|
  {
    if convs == [] then []
    else
      var n := |convs| - 1;
      Threads(raw, convs[..n]) + [Sort(OfConv(raw, convs[n]), ByTime())]
  }

  function Groups(raw: seq<Item>): seq<seq<Item>> {
    Threads(raw, Convs(raw)) + Singles(raw)
  }

  /** One dictionary of conversations, one list of standalones, each thread sorted. */
  method GroupItems(raw: seq<Item>) returns (groups: seq<seq<Item>>)
    ensures groups == Groups(raw)
  {
    hide Sort;
    var grouped: map<string, seq<Item>> := map[];
    var order: seq<string> := [];
    var standalones: seq<seq<Item>> := [];
    for i := 0 to |raw|
      invariant order == Convs(raw[..i]) && standalones == Singles(raw[..i])
      invariant forall c :: c in grouped <==> c in order
      invariant forall c | c in grouped :: grouped[c] == OfConv(raw[..i], c)
    {
      assert raw[..i + 1][..i] == raw[..i];
      var c := raw[i].conv;
      if c == "" {
        standalones := standalones + [[raw[i]]];
        BlankIsNoConv(raw[..i]);
      } else if c in grouped {
        grouped := grouped[c := grouped[c] + [raw[i]]];
      } else {
        NewConv(raw[..i], c);
        grouped := grouped[c := [raw[i]]];
        order := order + [c];
      }
    }
    assert raw[..|raw|] == raw;
    groups := [];
    for k := 0 to |order|
      invariant groups == Threads(raw, order[..k])
    {
      assert order[k] in grouped;
      assert order[..k + 1][..k] == order[..k];
      groups := groups + [Sort(grouped[order[k]], ByTime())];
    }
    assert order[..|order|] == order;
    groups := groups + standalones;
  }

  lemma {:induction false} BlankIsNoConv(raw: seq<Item>)
    ensures "" !in Convs(raw)
  {
    if raw != [] {
      BlankIsNoConv(raw[..|raw| - 1]);
    }
  }

  lemma {:induction false} NewConv(raw: seq<Item>, c: string)
    requires c != "" && c !in Convs(raw)
    ensures OfConv(raw, c) == []
  {
    if raw != [] {
      NewConv(raw[..|raw| - 1], c);
    }
  }

  // ---- The groups partition the batch ------------------------------------------------

  ghost predicate DistinctIds(raw: seq<Item>) {
    forall i, j | 0 <= i < j < |raw| :: raw[i].id != raw[j].id
  }

  /** Every item of the batch sits in exactly one place of exactly one group. */
  ghost predicate Partition(raw: seq<Item>, groups: seq<seq<Item>>) {
    && (forall g, k | 0 <= g < |groups| && 0 <= k < |groups[g]| :: groups[g][k] in raw)
    && (forall x | x in raw :: exists g, k :: 0 <= g < |groups| && 0 <= k < |groups[g]| && groups[g][k] == x)
    && (forall g, k, g', k' | 0 <= g < |groups| && 0 <= k < |groups[g]|
                            && 0 <= g' < |groups| && 0 <= k' < |groups[g']| ::
          groups[g][k].id == groups[g'][k'].id ==> g == g' && k == k')
  }

  /** A group is a whole conversation, oldest first, ties as received; or one standalone item. */
  ghost predicate Thread(raw: seq<Item>, group: seq<Item>) {
    || (exists x :: x in raw && x.conv == "" && group == [x])
    || (exists c :: c != "" && Sorted(group, ByTime())
         && (forall x :: x in group <==> x in raw && x.conv == c)
         && (forall e :: Class(group, ByTime(), e) == Class(OfConv(raw, c), ByTime(), e)))
  }

  lemma ThreadOrder(raw: seq<Item>, group: seq<Item>, j: int, k: int)
    requires Thread(raw, group) && 0 <= j < k < |group|
    ensures group[j].time <= group[k].time && group[j].conv == group[k].conv
  {
    assert group[j] in group && group[k] in group;
    assert Sorted(group, ByTime()) ==> ByTime()(group[j], group[k]);
  }

  lemma {:induction false} OfConvMember(raw: seq<Item>, c: string, x: Item)
    ensures x in OfConv(raw, c) <==> x in raw && x.conv == c
  {
    if raw != [] {
      var n := |raw| - 1;
      OfConvMember(raw[..n], c, x);
      assert raw == raw[..n] + [raw[n]];
    }
  }

  lemma {:induction false} OfConvDistinct(raw: seq<Item>, c: string)
    requires DistinctIds(raw)
    ensures DistinctIds(OfConv(raw, c))
  {
    if raw != [] {
      var n := |raw| - 1;
      OfConvDistinct(raw[..n], c);
      forall i | 0 <= i < |OfConv(raw[..n], c)|
        ensures OfConv(raw[..n], c)[i].id != raw[n].id
      {
        var x := OfConv(raw[..n], c)[i];
        OfConvMember(raw[..n], c, x);
        var j :| 0 <= j < n && raw[j] == x;
      }
    }
  }

  lemma {:induction false} ConvsFacts(raw: seq<Item>)
    ensures forall c :: c in Convs(raw) <==> c != "" && exists x :: x in raw && x.conv == c
    ensures forall i, j | 0 <= i < j < |Convs(raw)| :: Convs(raw)[i] != Convs(raw)[j]
  {
    if raw != [] {
      var n := |raw| - 1;
      ConvsFacts(raw[..n]);
      assert raw == raw[..n] + [raw[n]];
      forall c
        ensures c in Convs(raw) <==> c != "" && exists x :: x in raw && x.conv == c
      {
        if c != "" && c in Convs(raw) && c !in Convs(raw[..n]) {
          assert raw[n] in raw;
        }
      }
    }
  }

  lemma {:induction false} SinglesMembers(raw: seq<Item>)
    ensures forall g | 0 <= g < |Singles(raw)| ::
      |Singles(raw)[g]| == 1 && Singles(raw)[g][0] in raw && Singles(raw)[g][0].conv == ""
    ensures forall x | x in raw && x.conv == "" :: [x] in Singles(raw)
  {
    if raw != [] {
      var n := |raw| - 1;
      SinglesMembers(raw[..n]);
      assert raw == raw[..n] + [raw[n]];
      if raw[n].conv == "" {
        assert Singles(raw)[|Singles(raw)| - 1] == [raw[n]];
      }
    }
  }

  lemma {:induction false} SinglesDistinct(raw: seq<Item>)
    requires DistinctIds(raw)
    ensures forall g | 0 <= g < |Singles(raw)| :: |Singles(raw)[g]| == 1
    ensures forall g, h | 0 <= g < h < |Singles(raw)| :: Singles(raw)[g][0].id != Singles(raw)[h][0].id
  {
    if raw != [] {
      var n := |raw| - 1;
      var before: seq<seq<Item>> := Singles(raw[..n]);
      SinglesMembers(raw[..n]);
      SinglesDistinct(raw[..n]);
      forall g | 0 <= g < |before|
        ensures before[g][0].id != raw[n].id
      {
        var j :| 0 <= j < n && raw[j] == before[g][0];
      }
    }
  }

  lemma {:induction false} ThreadsFacts(raw: seq<Item>, convs: seq<string>)
    ensures forall g | 0 <= g < |convs| :: Threads(raw, convs)[g] == Sort(OfConv(raw, convs[g]), ByTime())
  {
    if convs != [] {
      ThreadsFacts(raw, convs[..|convs| - 1]);
    }
  }

  /** A permutation of distinct items has no repeats. */
  lemma SortedDistinct(s: seq<Item>, t: seq<Item>)
    requires DistinctIds(s) && multiset(t) == multiset(s)
    ensures DistinctIds(t)
    ensures forall x :: x in t <==> x in s
  {
    PermutedDistinct(s, t, (x: Item) => x.id);
  }

  lemma SameIdSameItem(s: seq<Item>, x: Item, y: Item)
    requires DistinctIds(s) && x in s && y in s && x.id == y.id
    ensures x == y
  {
  }

  /** Conversations come first, one group each, then the standalone items. */
  lemma GroupAt(raw: seq<Item>, g: int)
    requires 0 <= g < |Groups(raw)|
    ensures |Groups(raw)| == |Convs(raw)| + |Singles(raw)|
    ensures Groups(raw)[g] ==
      if g < |Convs(raw)| then Sort(OfConv(raw, Convs(raw)[g]), ByTime()) else Singles(raw)[g - |Convs(raw)|]
  {
    hide Sort, OfConv, Convs, Singles, Threads;
    ThreadsFacts(raw, Convs(raw));
  }

  /** A sorted conversation is a thread of the batch. */
  lemma ConversationIsThread(raw: seq<Item>, c: string)
    requires DistinctIds(raw) && c != ""
    ensures
      var t := Sort(OfConv(raw, c), ByTime());
      && Thread(raw, t) && DistinctIds(t)
      && (forall x :: x in t <==> x in raw && x.conv == c)
  {
    hide Sort, OfConv, DistinctIds, Class;
    var members := OfConv(raw, c);
    var t := Sort(members, ByTime());
    TimeIsTotal();
    SortIsStable(members, ByTime());
    OfConvDistinct(raw, c);
    SortedDistinct(members, t);
    forall x
      ensures x in t <==> x in raw && x.conv == c
    {
      OfConvMember(raw, c, x);
    }
  }

  lemma TimeIsTotal()
    ensures TotalPreorder(ByTime())
  {
  }

  lemma GroupIsThread(raw: seq<Item>, g: int)
    requires DistinctIds(raw) && 0 <= g < |Groups(raw)|
    ensures Thread(raw, Groups(raw)[g]) && DistinctIds(Groups(raw)[g])
    ensures forall x | x in Groups(raw)[g] :: x in raw
    ensures g < |Convs(raw)| ==> forall x :: x in Groups(raw)[g] <==> x in raw && x.conv == Convs(raw)[g]
    ensures g >= |Convs(raw)| ==> Groups(raw)[g] == Singles(raw)[g - |Convs(raw)|]
    ensures forall x | x in Groups(raw)[g] :: x.conv == "" <==> g >= |Convs(raw)|
  {
    hide Sort, OfConv, Convs, Singles, Groups, Thread;
    GroupAt(raw, g);
    if g < |Convs(raw)| {
      ConvsFacts(raw);
      assert Convs(raw)[g] in Convs(raw);
      ConversationIsThread(raw, Convs(raw)[g]);
    } else {
      SinglesMembers(raw);
      var single := Singles(raw)[g - |Convs(raw)|];
      assert single == [single[0]];
      SingleIsThread(raw, single[0]);
    }
  }

  lemma SingleIsThread(raw: seq<Item>, x: Item)
    requires x in raw && x.conv == ""
    ensures Thread(raw, [x])
  {
    assert [x] == [x];
  }

  /** The groups partition the batch, and each is a thread in time order. */
  lemma GroupsPartition(raw: seq<Item>)
    requires DistinctIds(raw)
    ensures Partition(raw, Groups(raw))
    ensures forall g | 0 <= g < |Groups(raw)| :: Thread(raw, Groups(raw)[g])
  {
    hide Sort, Groups, Thread;
    var groups := Groups(raw);
    forall g | 0 <= g < |groups|
      ensures Thread(raw, groups[g])
      ensures forall k | 0 <= k < |groups[g]| :: groups[g][k] in raw
    {
      GroupIsThread(raw, g);
    }
    forall x | x in raw
      ensures exists g, k :: 0 <= g < |groups| && 0 <= k < |groups[g]| && groups[g][k] == x
    {
      var g := GroupOf(raw, x);
      var k :| 0 <= k < |groups[g]| && groups[g][k] == x;
    }
    forall g, k, g', k' | 0 <= g < |groups| && 0 <= k < |groups[g]| && 0 <= g' < |groups| && 0 <= k' < |groups[g']|
                          && groups[g][k].id == groups[g'][k'].id
      ensures g == g' && k == k'
    {
      OnePlace(raw, g, k, g', k');
    }
  }

  lemma GroupOf(raw: seq<Item>, x: Item) returns (g: int)
    requires DistinctIds(raw) && x in raw
    ensures 0 <= g < |Groups(raw)| && x in Groups(raw)[g]
  {
    hide Sort, OfConv, Convs, Singles, Threads, Thread;
    ConvsFacts(raw);
    SinglesMembers(raw);
    if x.conv == "" {
      var k :| 0 <= k < |Singles(raw)| && Singles(raw)[k] == [x];
      g := |Convs(raw)| + k;
    } else {
      assert x.conv in Convs(raw);
      var k :| 0 <= k < |Convs(raw)| && Convs(raw)[k] == x.conv;
      g := k;
      GroupIsThread(raw, g);
    }
  }

  lemma OnePlace(raw: seq<Item>, g: int, k: int, g': int, k': int)
    requires DistinctIds(raw)
    requires 0 <= g < |Groups(raw)| && 0 <= k < |Groups(raw)[g]|
    requires 0 <= g' < |Groups(raw)| && 0 <= k' < |Groups(raw)[g']|
    requires Groups(raw)[g][k].id == Groups(raw)[g'][k'].id
    ensures g == g' && k == k'
  {
    hide Sort, Thread, Groups, Convs, Singles;
    var x := Groups(raw)[g][k];
    GroupAt(raw, g);
    GroupIsThread(raw, g);
    GroupIsThread(raw, g');
    SameIdSameItem(raw, x, Groups(raw)[g'][k']);
    ConvsFacts(raw);
    SinglesMembers(raw);
    SinglesDistinct(raw);
    assert x in Groups(raw)[g] && x in Groups(raw)[g'];
    assert g < |Convs(raw)| <==> g' < |Convs(raw)|;
    if g < |Convs(raw)| {
      assert x.conv == Convs(raw)[g] == Convs(raw)[g'];
    } else {
      var s, s' := Singles(raw)[g - |Convs(raw)|], Singles(raw)[g' - |Convs(raw)|];
      assert |s| == |s'| == 1 && s[0].id == s'[0].id;
    }
    assert g == g';
  }
}
