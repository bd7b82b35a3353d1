/**
 The order in which re-analysis visits stored items: three stable sorts in a row
 (api/orchestrator.py:534-551).
 */
module ReanalyzeOrder {
  import opened Options
  import opened Sorting

  /** Timestamps are ranks in the order of the stored ISO strings; NULL and "" are None. */
  datatype Record = Record(
    id: string, source: string, hierarchy: Option<string>, passdown: bool,
    timestamp: Option<nat>, processedAt: Option<nat>)

  function Rank(r: Record): int {
    if r.hierarchy == Some("user") then 0
    else if r.hierarchy == Some("project") then 1
    else if r.hierarchy == Some("topic") then 2
    else 3
  }

  /** The first non-empty timestamp; an empty one sorts below all others. */
  function When(r: Record): int {
    if r.timestamp.Some? then r.timestamp.value
    else if r.processedAt.Some? then r.processedAt.value
    else -1
  }

  function NewestFirst(): (Record, Record) -> bool {
    (x, y) => When(x) >= When(y)
  }

  function PassdownFirst(): (Record, Record) -> bool {
    (x: Record, y: Record) => x.passdown || !y.passdown
  }

  function ByRank(): (Record, Record) -> bool {
    (x, y) => Rank(x) <= Rank(y)
  }

  /** The documented priority: tier, then passdowns, then newest first. */
  predicate Precedes(x: Record, y: Record) {
    || Rank(x) < Rank(y)
    || (Rank(x) == Rank(y) && x.passdown && !y.passdown)
    || (Rank(x) == Rank(y) && x.passdown == y.passdown && When(x) >= When(y))
  }

  /** The tiers from the front of the queue to its end. */
  const TIERS: seq<string> := ["user", "project", "topic"]

  /** The place of a record's tier, the last for one without or with another. */
  ghost predicate InTier(r: Record, k: nat) {
    if k < |TIERS| then r.hierarchy == Some(TIERS[k])
    else k == |TIERS| && (r.hierarchy == None || r.hierarchy.value !in TIERS)
  }

  /** A record of an earlier tier comes first, whatever else it holds. */
  lemma TierFirst(x: Record, y: Record, j: nat, k: nat)
    requires InTier(x, j) && InTier(y, k)
    ensures Precedes(x, y) <==>
      || j < k
      || (j == k && x.passdown && !y.passdown)
      || (j == k && x.passdown == y.passdown && NotOlder(x, y))
  {
    TierIsRank(x, j);
    TierIsRank(y, k);
  }

  lemma TierIsRank(r: Record, k: nat)
    requires InTier(r, k)
    ensures Rank(r) == k
  {
    assert forall s :: s in TIERS <==> s == TIERS[0] || s == TIERS[1] || s == TIERS[2];
  }

  /** By timestamp, else by processing time; a record with neither is older than one with any. */
  ghost predicate NotOlder(x: Record, y: Record) {
    var (s, t) := (if x.timestamp.Some? then x.timestamp else x.processedAt,
                   if y.timestamp.Some? then y.timestamp else y.processedAt);
    t.None? || (s.Some? && s.value >= t.value)
  }

  lemma EveryRecordHasTier(r: Record) returns (k: nat)
    ensures InTier(r, k)
  {
    k := Rank(r);
    assert forall s :: s in TIERS <==> s == TIERS[0] || s == TIERS[1] || s == TIERS[2];
  }

  function Priority(): (Record, Record) -> bool {
    (x, y) => Precedes(x, y)
  }

  function Reanalyzable(records: seq<Record>): seq<Record> {
    if records == [] then []
    else (if records[0].source != "manual" then [records[0]] else []) + Reanalyzable(records[1..])
  }

  lemma OrdersAreTotal()
    ensures TotalPreorder(NewestFirst()) && TotalPreorder(PassdownFirst()) && TotalPreorder(ByRank())
    ensures TotalPreorder(Priority())
  {
  }

  lemma CascadeIsPriority(s: seq<Record>)
    ensures Sort(Sort(Sort(s, NewestFirst()), PassdownFirst()), ByRank()) == Sort(s, Priority())
  {
    OrdersAreTotal();
    var inner := Lex(PassdownFirst(), NewestFirst());
    CascadeIsCompound(s, PassdownFirst(), NewestFirst());
    LexIsTotalPreorder(PassdownFirst(), NewestFirst());
    CascadeIsCompound(s, ByRank(), inner);
    SortCongruent(s, Lex(ByRank(), inner), Priority());
  }

  /** Manual records are left out, and every other record is there as often as it is stored. */
  lemma {:induction false} ReanalyzableCounts(records: seq<Record>, r: Record)
    ensures multiset(Reanalyzable(records))[r] == if r.source == "manual" then 0 else multiset(records)[r]
  {
    if records != [] {
      ReanalyzableCounts(records[1..], r);
      assert records == [records[0]] + records[1..];
      var front := if records[0].source != "manual" then [records[0]] else [];
      assert multiset(Reanalyzable(records)) == multiset(front) + multiset(Reanalyzable(records[1..]));
    }
  }

  /** Manual cards have no source to re-extract from. */
  method Select(records: seq<Record>) returns (selected: seq<Record>)
    ensures selected == Reanalyzable(records)
  {
    selected := [];
    for i := 0 to |records|
      invariant selected + Reanalyzable(records[i..]) == Reanalyzable(records)
    {
      assert records[i..][1..] == records[i + 1..];
      if records[i].source != "manual" {
        selected := selected + [records[i]];
      }
    }
  }

  lemma PriorityFacts(s: seq<Record>)
    ensures
      var queue := Sort(s, Priority());
      && multiset(queue) == multiset(s)
      && (forall i, j | 0 <= i < j < |queue| :: Precedes(queue[i], queue[j]))
      && (forall e :: Class(queue, Priority(), e) == Class(s, Priority(), e))
  {
    OrdersAreTotal();
    SortIsStable(s, Priority());
    var queue := Sort(s, Priority());
    forall i, j | 0 <= i < j < |queue|
      ensures Precedes(queue[i], queue[j])
    {
      assert Priority()(queue[i], queue[j]);
    }
  }

  /**
   The three sorts of the program.  Their result is a permutation of the items to
   re-analyse in priority order, with full ties in stored order.
   */
  method QueueOrder(records: seq<Record>) returns (queue: seq<Record>)
    ensures multiset(queue) == multiset(Reanalyzable(records))
    ensures forall r :: multiset(queue)[r] == if r.source == "manual" then 0 else multiset(records)[r]
    ensures forall i, j | 0 <= i < j < |queue| :: Precedes(queue[i], queue[j])
    ensures forall e :: Class(queue, Priority(), e) == Class(Reanalyzable(records), Priority(), e)
  {
    hide Precedes, Priority, NewestFirst, PassdownFirst, ByRank, Sort, Class;
    queue := Select(records);
    CascadeIsPriority(queue);
    PriorityFacts(queue);
    queue := Sort(queue, NewestFirst());
    queue := Sort(queue, PassdownFirst());
    queue := Sort(queue, ByRank());
    forall r
      ensures multiset(queue)[r] == if r.source == "manual" then 0 else multiset(records)[r]
    {
      ReanalyzableCounts(records, r);
    }
  }

  /** No other order of the same items meets that description. */
  lemma QueueOrderUnique(records: seq<Record>, queue: seq<Record>)
    requires StablySorts(Reanalyzable(records), queue, Priority()) && |queue| == |Reanalyzable(records)|
    ensures queue == Sort(Sort(Sort(Reanalyzable(records), NewestFirst()), PassdownFirst()), ByRank())
  {
    var s := Reanalyzable(records);
    OrdersAreTotal();
    CascadeIsPriority(s);
    SortIsStable(s, Priority());
    assert |Sort(s, Priority())| == |multiset(Sort(s, Priority()))| == |multiset(s)|;
    StableSortUnique(queue, Sort(s, Priority()), Priority());
  }
}
