/** The "today" view (src/today-action-items.tsx): its state cells, the pure updaters it hands
    to them, its own copy of the rank table and the colour of each priority. */
module TodayActionItems {
  import opened Wrappers
  import opened Types
  import opened Cache
  import opened NotionRemote
  import opened NotionPriority
  import opened Notion

  // ------------------------------------------------------------ the local rank table

  /** The view's own `PRIORITY_ORDER`: the same ten labels, ranked from 1. */
  const LocalPriorityOrder: map<string, nat> := map[
    "Immediate 🔥" := 1,
    "Quick ⚡️" := 2,
    "Scheduled 📅" := 3,
    "1st Priority 🚀" := 4,
    "2nd Priority 📘" := 5,
    "3rd Priority 📙" := 6,
    "4th Priority 📕" := 7,
    "5th Priority 📗" := 8,
    "Errand 🚗" := 9,
    "Remember 💭" := 10
  ]

  /** `Object.keys(PRIORITY_ORDER)`: the labels in the order the object literal lists them. */
  const Priorities: seq<string> := [
    "Immediate 🔥", "Quick ⚡️", "Scheduled 📅", "1st Priority 🚀", "2nd Priority 📘",
    "3rd Priority 📙", "4th Priority 📕", "5th Priority 📗", "Errand 🚗", "Remember 💭"
  ]

  /** The local table ranks exactly the gateway's labels, each one higher than the gateway
      does, so both tables order the labels the same way; `priorities` lists them most urgent
      first. */
  lemma LocalOrderAgrees()
    ensures forall p :: p in LocalPriorityOrder <==> p in PriorityOrder
    ensures forall p :: p in LocalPriorityOrder ==> LocalPriorityOrder[p] == Rank(p) + 1
    ensures forall p, q :: p in LocalPriorityOrder && q in LocalPriorityOrder ==>
              (LocalPriorityOrder[p] < LocalPriorityOrder[q] <==> Rank(p) < Rank(q))
    ensures |Priorities| == 10
    ensures forall i :: 0 <= i < |Priorities| ==>
              Priorities[i] in LocalPriorityOrder && LocalPriorityOrder[Priorities[i]] == i + 1
  {
    forall p | p in LocalPriorityOrder ensures LocalPriorityOrder[p] == Rank(p) + 1 {
      assert p in PriorityOrder;
    }
    forall i | 0 <= i < |Priorities|
      ensures Priorities[i] in LocalPriorityOrder && LocalPriorityOrder[Priorities[i]] == i + 1
    {
      if i == 0 {} else if i == 1 {} else if i == 2 {} else if i == 3 {} else if i == 4 {}
      else if i == 5 {} else if i == 6 {} else if i == 7 {} else if i == 8 {} else {}
    }
  }

  // ------------------------------------------------------------ getPriorityColor

  datatype Color = Red | Orange | Yellow | Blue | Purple | Green | Magenta | PrimaryText | SecondaryText

  function PriorityColor(priority: string): Color
  {
    if priority == "Immediate 🔥" then Red
    else if priority == "Quick ⚡️" then Orange
    else if priority == "Scheduled 📅" then Yellow
    else if priority == "1st Priority 🚀" then Blue
    else if priority == "2nd Priority 📘" then Purple
    else if priority == "3rd Priority 📙" then Green
    else if priority == "4th Priority 📕" then Magenta
    else if priority == "5th Priority 📗" then PrimaryText
    else SecondaryText
  }

  /** The colours of the eight most urgent labels, in table order. */
  const UrgentColors: seq<Color> := [Red, Orange, Yellow, Blue, Purple, Green, Magenta, PrimaryText]

  lemma {:induction false} UrgentColor(i: nat)
    requires i < 8
    ensures PriorityColor(Priorities[i]) == UrgentColors[i]
  {
    if i == 0 {} else if i == 1 {} else if i == 2 {} else if i == 3 {}
    else if i == 4 {} else if i == 5 {} else if i == 6 {} else {}
  }

  /** The eight most urgent labels get eight distinct colours. */
  lemma PriorityColorsDistinct()
    ensures forall i, j :: 0 <= i < j < 8 ==> PriorityColor(Priorities[i]) != PriorityColor(Priorities[j])
  {
    forall i, j | 0 <= i < j < 8 ensures PriorityColor(Priorities[i]) != PriorityColor(Priorities[j]) {
      UrgentColor(i);
      UrgentColor(j);
    }
  }

  /** SecondaryText is the colour of exactly the labels outside the eight most urgent: Errand,
      Remember and every label outside the table. */
  lemma PriorityColorDefault(p: string)
    ensures PriorityColor(p) == SecondaryText <==> p !in Priorities[..8]
  {
    if p in Priorities[..8] {
      var i :| 0 <= i < 8 && Priorities[..8][i] == p;
      UrgentColor(i);
    } else {
      forall k | 0 <= k < 8 ensures p != Priorities[k] {
        assert Priorities[..8][k] == Priorities[k];
      }
      assert p != Priorities[0] && p != Priorities[1] && p != Priorities[2] && p != Priorities[3];
      assert p != Priorities[4] && p != Priorities[5] && p != Priorities[6] && p != Priorities[7];
    }
  }

  // ------------------------------------------------------------ the visibility filter

  /** An item `fetchItems` keeps: not done, or toggled in this session. */
  predicate Shown(x: ActionItem, toggled: set<string>)
  {
    !x.done || x.id in toggled
  }

  /** `actionItems.filter((item) => !item.done || recentlyToggled.has(item.id))`. */
  function Visible(items: seq<ActionItem>, toggled: set<string>): (r: seq<ActionItem>)
    ensures |r| <= |items|
  {
    if items == [] then []
    else
      var last := items[|items| - 1];
      Visible(items[..|items| - 1], toggled) + (if Shown(last, toggled) then [last] else [])
  }

  /** The view holds exactly the fetched items that are shown, each no more often than it was
      fetched. */
  lemma {:induction false} VisibleMembers(items: seq<ActionItem>, toggled: set<string>)
    ensures forall x :: x in Visible(items, toggled) <==> x in items && Shown(x, toggled)
    ensures multiset(Visible(items, toggled)) <= multiset(items)
    decreases |items|
  {
    if items != [] {
      var rest, last := items[..|items| - 1], items[|items| - 1];
      VisibleMembers(rest, toggled);
      assert items == rest + [last];
    }
  }

  /** The filter keeps the fetched order: it distributes over concatenation. */
  lemma {:induction false} VisibleAppend(a: seq<ActionItem>, b: seq<ActionItem>, toggled: set<string>)
    ensures Visible(a + b, toggled) == Visible(a, toggled) + Visible(b, toggled)
    decreases |b|
  {
    if b == [] {
      assert a + b == a;
    } else {
      var b' := b[..|b| - 1];
      assert (a + b)[..|a + b| - 1] == a + b';
      VisibleAppend(a, b', toggled);
    }
  }

  /** When every item is shown the list is kept whole, and when none is the view is empty. */
  lemma {:induction false} VisibleAllOrNone(items: seq<ActionItem>, toggled: set<string>)
    ensures (forall i :: 0 <= i < |items| ==> Shown(items[i], toggled)) ==> Visible(items, toggled) == items
    ensures (forall i :: 0 <= i < |items| ==> !Shown(items[i], toggled)) ==> Visible(items, toggled) == []
    decreases |items|
  {
    if items != [] {
      var items' := items[..|items| - 1];
      VisibleAllOrNone(items', toggled);
      assert items == items' + [items[|items| - 1]];
    }
  }

  // ------------------------------------------------------------ the list updaters

  /** `prev.map((item) => (item.id === id ? f(item) : item))`. */
  function UpdateWhere(items: seq<ActionItem>, id: string, f: ActionItem -> ActionItem): (r: seq<ActionItem>)
    ensures |r| == |items|
    ensures forall i :: 0 <= i < |items| ==> r[i] == if items[i].id == id then f(items[i]) else items[i]
  {
    seq(|items|, i requires 0 <= i < |items| => if items[i].id == id then f(items[i]) else items[i])
  }

  function Flip(x: ActionItem): ActionItem
  {
    x.(done := !x.done)
  }

  /** The local effect of a successful toggle. */
  function FlipDone(items: seq<ActionItem>, id: string): seq<ActionItem>
  {
    UpdateWhere(items, id, Flip)
  }

  /** The local effect of a content edit and of a successful save. */
  function SetContent(items: seq<ActionItem>, id: string, content: string): seq<ActionItem>
  {
    UpdateWhere(items, id, (x: ActionItem) => x.(content := content))
  }

  /** The fields a detail-form submission spreads over an item; None is a field the form did
      not send. The form never sends `id`. */
  datatype Patch = Patch(
    title: Option<string>,
    doDate: Option<Option<string>>,
    project: Option<string>,
    priority: Option<string>,
    priorityIcon: Option<string>,
    done: Option<bool>,
    content: Option<string>)

  const NoChange := Patch(None, None, None, None, None, None, None)

  /** `{ ...item, ...updates }`. */
  function Apply(x: ActionItem, p: Patch): ActionItem
  {
    ActionItem(x.id, p.title.GetOr(x.title), p.doDate.GetOr(x.doDate), p.project.GetOr(x.project),
               p.priority.GetOr(x.priority), p.priorityIcon.GetOr(x.priorityIcon), p.done.GetOr(x.done),
               p.content.GetOr(x.content))
  }

  /** Two spreads in a row: a field of the later patch wins. */
  function Then(p: Patch, q: Patch): Patch
  {
    Patch(if q.title.Some? then q.title else p.title,
          if q.doDate.Some? then q.doDate else p.doDate,
          if q.project.Some? then q.project else p.project,
          if q.priority.Some? then q.priority else p.priority,
          if q.priorityIcon.Some? then q.priorityIcon else p.priorityIcon,
          if q.done.Some? then q.done else p.done,
          if q.content.Some? then q.content else p.content)
  }

  function Merge(items: seq<ActionItem>, id: string, p: Patch): seq<ActionItem>
  {
    UpdateWhere(items, id, (x: ActionItem) => Apply(x, p))
  }

  /** Every updater keeps the length, the order of the ids and every item of another id. */
  lemma UpdatersKeepShape(items: seq<ActionItem>, id: string, content: string, p: Patch)
    ensures var flipped, edited, merged := FlipDone(items, id), SetContent(items, id, content), Merge(items, id, p);
            && |flipped| == |edited| == |merged| == |items|
            && forall i :: 0 <= i < |items| ==>
                 && flipped[i].id == edited[i].id == merged[i].id == items[i].id
                 && (items[i].id != id ==> flipped[i] == edited[i] == merged[i] == items[i])
  {
  }

  /** Flipping twice restores the list; flipping changes only `done` of the matching items. */
  lemma FlipDoneInvolution(items: seq<ActionItem>, id: string)
    ensures FlipDone(FlipDone(items, id), id) == items
    ensures forall i :: 0 <= i < |items| && items[i].id == id ==>
              FlipDone(items, id)[i].done == !items[i].done
              && FlipDone(items, id)[i].(done := items[i].done) == items[i]
  {
    var once := FlipDone(items, id);
    assert forall i :: 0 <= i < |items| ==> once[i].id == items[i].id;
    assert FlipDone(once, id) == items;
  }

  /** Content edits: the last write wins, and writing the content an item already has is a
      no-op. */
  lemma SetContentLastWins(items: seq<ActionItem>, id: string, a: string, b: string)
    ensures SetContent(SetContent(items, id, a), id, b) == SetContent(items, id, b)
    ensures (forall i :: 0 <= i < |items| && items[i].id == id ==> items[i].content == a) ==>
              SetContent(items, id, a) == items
  {
    var once := SetContent(items, id, a);
    assert forall i :: 0 <= i < |items| ==> once[i].id == items[i].id;
  }

  /** A content-only submission has the effect of a content edit, an empty one changes
      nothing, and two submissions have the effect of one with their fields combined. */
  lemma MergeLaws(items: seq<ActionItem>, id: string, content: string, p: Patch, q: Patch)
    ensures Merge(items, id, NoChange.(content := Some(content))) == SetContent(items, id, content)
    ensures Merge(items, id, NoChange) == items
    ensures Merge(Merge(items, id, p), id, q) == Merge(items, id, Then(p, q))
  {
    var once := Merge(items, id, p);
    assert forall i :: 0 <= i < |items| ==> once[i].id == items[i].id;
  }

  // ------------------------------------------------------------ the view

  /** The action-items partition `fetchItems(forceRefresh)` leaves. A forced refresh starts
      from the cleared partition; a non-empty cached list or a failed query leaves the partition
      it starts from; otherwise it is the partition a fresh gateway fetch leaves. */
  ghost function PartAfterFetch(forceRefresh: bool, part: map<string, string>,
                                answer: Outcome<seq<ActionItemPage>>, pages: map<string, ProjectPage>)
    : map<string, string>
    requires ItemsParse(part)
  {
    var start := if forceRefresh then map[] else part;
    if ReadItems(start) != [] || answer.Err? then start
    else FreshPart(start, answer.value, pages)
  }

  /** A fetch from the view, forced or not, keeps project titles cached only beside a
      non-empty item list. */
  lemma FetchKeepsTitlesOnlyWithItems(forceRefresh: bool, part: map<string, string>,
                                      answer: Outcome<seq<ActionItemPage>>, pages: map<string, ProjectPage>)
    requires ItemsParse(part)
    ensures TitlesOnlyWithItems(part) ==> TitlesOnlyWithItems(PartAfterFetch(forceRefresh, part, answer, pages))
    ensures forceRefresh && answer.Err? ==> PartAfterFetch(forceRefresh, part, answer, pages) == map[]
  {
    if answer.Ok? {
      TitlesOnlyWithItemsPreserved(if forceRefresh then map[] else part, answer.value, pages);
    } else {
      TitlesOnlyWithItemsPreserved(part, [], pages);
    }
  }

  /** What `fetchItems(forceRefresh)` does to the cache and the service, from the item
      partition `part0` and request log `log0` to `part` and `log`, given the service's answer
      to the Action Items query and its project pages. A forced refresh starts from the cleared
      partition. A non-empty cached list is the result, with no request sent. Otherwise the
      query is sent; its error is the result, or the result is the rank-sorted mapped items
      with their titles resolved against the starting partition, after the query come the
      retrieves of that resolution, and the new partition is the one the gateway's fresh
      fetch leaves. A successful result is what the cache then holds. */
  ghost predicate FetchedAs(forceRefresh: bool, part0: map<string, string>, log0: seq<Call>,
                            answer: Outcome<seq<ActionItemPage>>, pages: map<string, ProjectPage>,
                            r: Outcome<seq<ActionItem>>, part: map<string, string>, log: seq<Call>)
  {
    && ItemsParse(part0) && ItemsParse(part)
    && part == PartAfterFetch(forceRefresh, part0, answer, pages)
    && (r.Ok? ==> ReadItems(part) == r.value)
    && (!forceRefresh && ReadItems(part0) != [] ==> r == Ok(ReadItems(part0)) && log == log0)
    && (forceRefresh || ReadItems(part0) == [] ==>
          var start := if forceRefresh then map[] else part0;
          match answer
          case Err(m) => r == Err(m) && log == log0 + [QueryDatabase(ActionItemsDatabaseId)]
          case Ok(found) =>
            var ls := Lookups(start, found, pages);
            && r == Ok(SortByRank(ItemsOf(found, ls)))
            && log == log0 + [QueryDatabase(ActionItemsDatabaseId)] + RetrieveCalls(ls))
  }

  /** The cache and service half of `fetchItems(forceRefresh)`: a forced refresh clears the
      action-items cache, then the gateway fetch runs. */
  method LoadItems(forceRefresh: bool, store: CacheStore, client: NotionClient)
    returns (r: Outcome<seq<ActionItem>>)
    requires store.Valid()
    modifies store`itemsPart, client`log
    ensures store.Valid()
    ensures FetchedAs(forceRefresh, old(store.itemsPart), old(client.log), client.actionItemsAnswer, client.pages,
                      r, store.itemsPart, client.log)
  {
    if forceRefresh {
      store.ClearActionItemsCache();
      assert store.itemsPart == map[] && store.GetCachedActionItems() == [];
      r := FetchTodayActionItems(store, client);
      if client.actionItemsAnswer.Ok? {
        assert store.itemsPart == FreshPart(map[], client.actionItemsAnswer.value, client.pages);
      }
    } else {
      ghost var part0 := store.itemsPart;
      r := FetchTodayActionItems(store, client);
      if ReadItems(part0) == [] && client.actionItemsAnswer.Ok? {
        assert store.itemsPart == FreshPart(part0, client.actionItemsAnswer.value, client.pages);
      }
    }
  }

  /** The state cells of the view. */
  class TodayView {
    var items: seq<ActionItem>
    var recentlyToggled: set<string>
    var isLoading: bool

    /** The initial state: no items, nothing toggled, loading. */
    constructor ()
      ensures items == [] && recentlyToggled == {} && isLoading
    {
      items := [];
      recentlyToggled := {};
      isLoading := true;
    }

    /** `fetchItems(forceRefresh)`. A forced refresh clears the action-items cache and the
        toggled set first, so the list comes from the service. The filter reads the toggled
        set the call started with: the state update of the refresh is not visible to the
        running call. A failed fetch leaves the list as it was. The cache and the service see
        exactly what `FetchedAs` describes; after a failed forced refresh the item cache is
        left empty. */
    method FetchItems(forceRefresh: bool, store: CacheStore, client: NotionClient)
      returns (ghost fetched: Outcome<seq<ActionItem>>)
      requires store.Valid()
      modifies this, store`itemsPart, client`log
      ensures !isLoading
      ensures recentlyToggled == if forceRefresh then {} else old(recentlyToggled)
      ensures items == if fetched.Ok? then Visible(fetched.value, old(recentlyToggled)) else old(items)
      ensures store.Valid()
      ensures FetchedAs(forceRefresh, old(store.itemsPart), old(client.log), client.actionItemsAnswer, client.pages,
                        fetched, store.itemsPart, client.log)
    {
      isLoading := true;
      var toggled := recentlyToggled;
      if forceRefresh {
        recentlyToggled := {};
      }
      var r := LoadItems(forceRefresh, store, client);
      fetched := r;
      if r.Ok? {
        items := Visible(r.value, toggled);
      }
      isLoading := false;
    }

    /** `toggleDone(itemId)`: the service is told Done = true; only once it accepts, the id is
        remembered and the matching items flip. */
    method ToggleDone(client: NotionClient, itemId: string)
      modifies this`items, this`recentlyToggled, client`log
      ensures client.log == old(client.log) + [Call.UpdatePage(itemId, map["Done" := Checkbox(true)])]
      ensures client.updateAnswer.Ok? ==>
                recentlyToggled == old(recentlyToggled) + {itemId} && items == FlipDone(old(items), itemId)
      ensures client.updateAnswer.Err? ==>
                recentlyToggled == old(recentlyToggled) && items == old(items)
    {
      var r := ToggleActionItemDone(client, itemId);
      if r.Ok? {
        recentlyToggled := recentlyToggled + {itemId};
        items := FlipDone(items, itemId);
      }
    }

    /** `handleContentUpdate`. */
    method HandleContentUpdate(itemId: string, newContent: string)
      modifies this`items
      ensures items == SetContent(old(items), itemId, newContent)
    {
      items := SetContent(items, itemId, newContent);
    }

    /** `handleItemUpdate`. */
    method HandleItemUpdate(itemId: string, updates: Patch)
      modifies this`items
      ensures items == Merge(old(items), itemId, updates)
    {
      items := Merge(items, itemId, updates);
    }

    /** The body of `debouncedSave`: the content is written to the service and, once it
        accepts, to the matching items. The view defines this callback but never calls it. */
    method SaveContent(client: NotionClient, itemId: string, content: string)
      modifies this`items, client`log
      ensures client.log == old(client.log) + [Call.UpdatePage(itemId, map["Content" := RichText(content)])]
      ensures items == if client.updateAnswer.Ok? then SetContent(old(items), itemId, content) else old(items)
    {
      var r := UpdateActionItemContent(client, itemId, content);
      if r.Ok? {
        items := SetContent(items, itemId, content);
      }
    }
  }
}
