/** The priority ranking of the "today" list: a fixed ten-entry table, rank 999 for every
    other label, and the client-side stable sort by rank (`items.sort` with a comparator
    that subtracts ranks). */
module NotionPriority {
  import opened Types
  import opened StableSort

  /** `PRIORITY_ORDER`: the ten labels, most urgent first. */
  const PriorityOrder: map<string, nat> := map[
    "Immediate 🔥" := 0,
    "Quick ⚡️" := 1,
    "Scheduled 📅" := 2,
    "1st Priority 🚀" := 3,
    "2nd Priority 📘" := 4,
    "3rd Priority 📙" := 5,
    "4th Priority 📕" := 6,
    "5th Priority 📗" := 7,
    "Errand 🚗" := 8,
    "Remember 💭" := 9
  ]

  /** The rank of any label that is not in the table (the `?? 999` fallback). */
  const UnknownRank: nat := 999

  /** The ten labels in table order. */
  const Labels: seq<string> := [
    "Immediate 🔥", "Quick ⚡️", "Scheduled 📅", "1st Priority 🚀", "2nd Priority 📘",
    "3rd Priority 📙", "4th Priority 📕", "5th Priority 📗", "Errand 🚗", "Remember 💭"
  ]

  function Rank(priority: string): (r: nat)
  {
    if priority in PriorityOrder then PriorityOrder[priority] else UnknownRank
  }

  /** The table gives exactly the ten labels, in order, the distinct ranks 0 to 9. */
  lemma RankTable()
    ensures |Labels| == 10
    ensures forall p :: p in PriorityOrder <==> p in Labels
    ensures forall i :: 0 <= i < |Labels| ==> Rank(Labels[i]) == i
    ensures forall i, j :: 0 <= i < j < |Labels| ==> Labels[i] != Labels[j]
  {
    forall i | 0 <= i < |Labels| ensures Rank(Labels[i]) == i {
      if i == 0 {} else if i == 1 {} else if i == 2 {} else if i == 3 {} else if i == 4 {}
      else if i == 5 {} else if i == 6 {} else if i == 7 {} else if i == 8 {} else {}
    }
  }

  /** Every label outside the table, the empty label included, ranks strictly after every
      label in it. */
  lemma UnknownRanksLast(known: string, other: string)
    requires known in PriorityOrder && other !in PriorityOrder
    ensures Rank(known) < Rank(other)
    ensures Rank(other) == UnknownRank
    ensures "" !in PriorityOrder
  {
    assert Rank(known) <= 9 by {
      assert forall p :: p in PriorityOrder ==> PriorityOrder[p] <= 9;
    }
  }

  // ------------------------------------------------------------ sorting the list

  /** The key the client-side sort compares. */
  function ItemRank(x: ActionItem): nat
  {
    Rank(x.priority)
  }

  /** The list in the order `items.sort` leaves it (module StableSort). */
  function SortByRank(items: seq<ActionItem>): seq<ActionItem>
  {
    SortBy(items, ItemRank)
  }

  /** The sorted list holds the same items, most urgent first, and items of equal rank stay
      in the order the query returned them. */
  lemma SortByRankCorrect(items: seq<ActionItem>)
    ensures var r := SortByRank(items);
            && multiset(r) == multiset(items)
            && (forall i, j :: 0 <= i < j < |r| ==> Rank(r[i].priority) <= Rank(r[j].priority))
            && forall k: nat :: WithKey(r, ItemRank, k) == WithKey(items, ItemRank, k)
  {
    SortCorrect(items, ItemRank);
  }

  /** Remember, Immediate, Quick sorts to Immediate, Quick, Remember. */
  lemma SortExample(a: ActionItem, b: ActionItem, c: ActionItem)
    requires a.priority == "Remember 💭" && b.priority == "Immediate 🔥" && c.priority == "Quick ⚡️"
    ensures SortByRank([a, b, c]) == [b, c, a]
  {
    assert ItemRank(a) == 9 && ItemRank(b) == 0 && ItemRank(c) == 1;
    assert [a, b, c][..2] == [a, b] && [a, b][..1] == [a] && [a][..0] == [];
    assert SortBy([a], ItemRank) == [a];
    assert InsertPos([a], b, ItemRank) == 0 by {
      assert [a][..0] == [];
    }
    assert SortBy([a, b], ItemRank) == [b, a];
    assert InsertPos([b, a], c, ItemRank) == 1 by {
      assert [b, a][..1] == [b];
    }
    assert [b, a][..1] == [b] && [b, a][1..] == [a];
  }
}
