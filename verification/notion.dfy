/** The gateway to the workspace service (src/notion.ts): mapping pages to projects and action
    items, the spark-file lookup, the cache-first "today" aggregator and the property writes
    of the update operations. */
module Notion {
  import opened Wrappers
  import opened Types
  import opened Cache
  import opened NotionRemote
  import opened NotionPriority
  import opened StableSort

  /** JavaScript truthiness of an optional string: present and not "". */
  predicate Truthy(s: Option<string>)
  {
    s.Some? && s.value != ""
  }

  // ------------------------------------------------------------ fetchProjects

  /** The title `fetchProjects` gives a project page (`Name || Title || Project`, then the
      first text or ""). */
  function ProjectTitle(page: ProjectPage): string
  {
    match page.properties
    case None => ""
    case Some(props) =>
      var chosen :=
        if props.name.Some? then props.name
        else if props.title.Some? then props.title
        else props.project;
      if chosen.Some? then chosen.value.firstText.GetOr("") else ""
  }

  /** The title-like properties in the order `fetchProjects` consults them. */
  function TitleCandidates(props: ProjectProperties): seq<Option<TitleProperty>>
  {
    [props.name, props.title, props.project]
  }

  /** The title is the first text of the first PRESENT candidate, or "" when there is none or
      the page has no properties. A present candidate with no text is still chosen: a later
      candidate is not consulted. */
  lemma ProjectTitleIsFirstPresent(page: ProjectPage)
    ensures page.properties.None? ==> ProjectTitle(page) == ""
    ensures page.properties.Some? ==>
              var ps := TitleCandidates(page.properties.value);
              && (forall i :: 0 <= i < |ps| && ps[i].Some? && (forall j :: 0 <= j < i ==> ps[j].None?) ==>
                    ProjectTitle(page) == ps[i].value.firstText.GetOr(""))
              && ((forall i :: 0 <= i < |ps| ==> ps[i].None?) ==> ProjectTitle(page) == "")
  {
    if page.properties.Some? {
      var ps := TitleCandidates(page.properties.value);
      forall i | 0 <= i < |ps| && ps[i].Some? && (forall j :: 0 <= j < i ==> ps[j].None?)
        ensures ProjectTitle(page) == ps[i].value.firstText.GetOr("")
      {
        if i == 0 {
        } else if i == 1 {
          assert ps[0].None?;
        } else {
          assert ps[0].None? && ps[1].None?;
        }
      }
      if forall i :: 0 <= i < |ps| ==> ps[i].None? {
        assert ps[0].None? && ps[1].None? && ps[2].None?;
      }
    }
  }

  method FetchProjects(client: NotionClient) returns (r: Outcome<seq<Project>>)
    modifies client`log
    ensures client.log == old(client.log) + [QueryDatabase(ProjectsDatabaseId)]
    ensures client.projectsAnswer.Err? ==> r == Err(client.projectsAnswer.message)
    ensures client.projectsAnswer.Ok? ==>
              var pages := client.projectsAnswer.value;
              && r.Ok? && |r.value| == |pages|
              && forall i :: 0 <= i < |pages| ==> r.value[i] == Project(pages[i].id, ProjectTitle(pages[i]))
  {
    var response := client.QueryProjects();
    match response
    case Err(e) =>
      r := Err(e);
    case Ok(pages) =>
      r := Ok(seq(|pages|, i requires 0 <= i < |pages| => Project(pages[i].id, ProjectTitle(pages[i]))));
  }

  // ------------------------------------------------------------ findOrCreateSparkFile

  /** The title of a project's spark file. */
  function SparkFileName(projectName: string): string
  {
    projectName + " Spark File"
  }

  /** Distinct projects names give distinct spark-file names. */
  lemma SparkFileNameInjective(a: string, b: string)
    ensures SparkFileName(a) == SparkFileName(b) <==> a == b
  {
    if SparkFileName(a) == SparkFileName(b) {
      assert |a| == |b|;
      assert a == SparkFileName(a)[..|a|];
    }
  }

  /** The properties of a newly created spark file. */
  function SparkFileProperties(projectName: string, projectId: string): map<string, PropertyValue>
  {
    map[
      "title" := TitleText(SparkFileName(projectName)),
      "Projects" := Relation([projectId]),
      "Areas / Tags" := Relation([SparkFileTagId])
    ]
  }

  /** Returns the id of the first note titled with the spark-file name and related to the
      project; creates one, with the same name, only when the query matches nothing. */
  method FindOrCreateSparkFile(client: NotionClient, projectName: string, projectId: string)
    returns (r: Outcome<string>)
    modifies client`log
    ensures var query := Call.QueryNotes(SparkFileName(projectName), projectId);
            match client.notesAnswer
            case Err(e) => r == Err(e) && client.log == old(client.log) + [query]
            case Ok(found) =>
              if found != [] then
                r == Ok(found[0]) && client.log == old(client.log) + [query]
              else
                r == client.createAnswer
                && client.log == old(client.log)
                                 + [query, Call.CreatePage(NotesDatabaseId, SparkFileProperties(projectName, projectId))]
  {
    var name := SparkFileName(projectName);
    var response := client.QueryNotes(name, projectId);
    match response
    case Err(e) =>
      r := Err(e);
    case Ok(found) =>
      if |found| > 0 {
        r := Ok(found[0]);
      } else {
        r := client.CreatePage(NotesDatabaseId, SparkFileProperties(projectName, projectId));
      }
  }

  // ------------------------------------------------------------ fetchTodayActionItems

  /** The related project id of a page, where "" counts as none (the `if (projectId)` test). */
  function LinkedProject(page: ActionItemPage): Option<string>
  {
    if Truthy(page.projectId) then page.projectId else None
  }

  /** The title read from a retrieved project page, or None when reading it throws (the page
      has no properties), which the aggregator catches like a failed retrieve. */
  function RetrievedTitle(page: ProjectPage): Option<string>
  {
    match page.properties
    case None => None
    case Some(props) =>
      Some(if props.project.Some? then props.project.value.firstText.GetOr("") else "")
  }

  /** How one item's project title was resolved. */
  datatype Lookup =
    | NoProject
    | CacheHit(title: string)
    | Retrieved(projectId: string, title: string)
    | RetrieveFailed(projectId: string)

  function TitleOf(l: Lookup): string
  {
    match l
    case NoProject => ""
    case CacheHit(t) => t
    case Retrieved(_, t) => t
    case RetrieveFailed(_) => ""
  }

  /** Title resolution for one page against the title entries of `part`: a cached non-empty
      title is used as is; otherwise the project page is retrieved. */
  function LookupOf(part: map<string, string>, page: ActionItemPage, pages: map<string, ProjectPage>): Lookup
  {
    match LinkedProject(page)
    case None => NoProject
    case Some(pid) =>
      var cached := ReadTitle(part, pid).GetOr("");
      if cached != "" then CacheHit(cached)
      else if pid in pages && RetrievedTitle(pages[pid]).Some? then Retrieved(pid, RetrievedTitle(pages[pid]).value)
      else RetrieveFailed(pid)
  }

  function Lookups(part: map<string, string>, items: seq<ActionItemPage>, pages: map<string, ProjectPage>)
    : (ls: seq<Lookup>)
    ensures |ls| == |items|
  {
    seq(|items|, i requires 0 <= i < |items| => LookupOf(part, items[i], pages))
  }

  /** The retrieve requests the lookups issue, in list order. */
  function RetrieveCalls(ls: seq<Lookup>): seq<Call>
  {
    if ls == [] then []
    else
      var l := ls[|ls| - 1];
      RetrieveCalls(ls[..|ls| - 1])
      + (if l.Retrieved? || l.RetrieveFailed? then [Call.RetrievePage(l.projectId)] else [])
  }

  /** The partition after the title of every successfully retrieved project is cached. */
  function CacheTitles(part: map<string, string>, ls: seq<Lookup>): map<string, string>
  {
    if ls == [] then part
    else
      var l := ls[|ls| - 1];
      var before := CacheTitles(part, ls[..|ls| - 1]);
      if l.Retrieved? then before[TitleKey(l.projectId) := l.title] else before
  }

  /** `page` mapped to an action item with the resolved project title. */
  function MapPage(page: ActionItemPage, projectTitle: string): (x: ActionItem)
    ensures x.id == page.id && x.project == projectTitle
    ensures x.priorityIcon == x.priority
    ensures x.doDate.Some? ==> x.doDate.value != ""
    ensures Truthy(page.doDateStart) ==> x.doDate == page.doDateStart
    ensures !Truthy(page.doDateStart) ==> x.doDate.None?
    ensures x.done <==> page.done == Some(true)
    ensures Truthy(page.title) ==> x.title == page.title.value
    ensures !Truthy(page.title) ==> x.title == ""
    ensures Truthy(page.priority) ==> x.priority == page.priority.value
    ensures !Truthy(page.priority) ==> x.priority == "" && Rank(x.priority) == UnknownRank
    ensures Truthy(page.content) ==> x.content == page.content.value
    ensures !Truthy(page.content) ==> x.content == ""
  {
    var priority := page.priority.GetOr("");
    ActionItem(
      page.id,
      page.title.GetOr(""),
      if Truthy(page.doDateStart) then page.doDateStart else None,
      projectTitle,
      priority,
      priority,
      page.done.GetOr(false),
      page.content.GetOr(""))
  }

  function ItemsOf(items: seq<ActionItemPage>, ls: seq<Lookup>): (xs: seq<ActionItem>)
    requires |ls| == |items|
    ensures |xs| == |items|
  {
    seq(|items|, i requires 0 <= i < |items| => MapPage(items[i], TitleOf(ls[i])))
  }

  /** The synchronous part of every `Promise.all` callback, in list order: the cache read and,
      on a miss, the retrieve request. */
  method ResolveTitles(store: CacheStore, client: NotionClient, items: seq<ActionItemPage>)
    returns (ls: seq<Lookup>)
    modifies client`log
    ensures ls == Lookups(store.itemsPart, items, client.pages)
    ensures client.log == old(client.log) + RetrieveCalls(ls)
  {
    ls := [];
    var i := 0;
    while i < |items|
      invariant 0 <= i <= |items| && |ls| == i
      invariant forall j :: 0 <= j < i ==> ls[j] == LookupOf(store.itemsPart, items[j], client.pages)
      invariant client.log == old(client.log) + RetrieveCalls(ls)
    {
      var lookup: Lookup;
      var pid := LinkedProject(items[i]);
      if pid.None? {
        lookup := NoProject;
      } else {
        var projectTitle := store.GetCachedProjectTitle(pid.value).GetOr("");
        if projectTitle != "" {
          lookup := CacheHit(projectTitle);
        } else {
          var projectPage := client.RetrievePage(pid.value);
          if projectPage.Ok? && RetrievedTitle(projectPage.value).Some? {
            lookup := Retrieved(pid.value, RetrievedTitle(projectPage.value).value);
          } else {
            lookup := RetrieveFailed(pid.value);
          }
        }
      }
      assert (ls + [lookup])[..i] == ls;
      ls := ls + [lookup];
      i := i + 1;
    }
  }

  /** The continuation of every callback whose retrieve succeeded: its title is cached. */
  method CacheRetrievedTitles(store: CacheStore, ls: seq<Lookup>)
    requires store.Valid()
    modifies store`itemsPart
    ensures store.Valid()
    ensures store.itemsPart == CacheTitles(old(store.itemsPart), ls)
    ensures store.GetCachedActionItems() == old(store.GetCachedActionItems())
  {
    var k := 0;
    while k < |ls|
      invariant 0 <= k <= |ls|
      invariant store.Valid()
      invariant store.itemsPart == CacheTitles(old(store.itemsPart), ls[..k])
      invariant store.GetCachedActionItems() == old(store.GetCachedActionItems())
    {
      assert ls[..k + 1][..k] == ls[..k];
      if ls[k].Retrieved? {
        store.CacheProjectTitle(ls[k].projectId, ls[k].title);
      }
      k := k + 1;
    }
    assert ls[..k] == ls;
  }

  /** The "today" list, cache first. A non-empty cached list is returned as it is, with no
      request. Otherwise the Action Items query is sent; if it fails, the error is returned and
      nothing is cached. If it succeeds, each item's project title is resolved: every cache
      read and every retrieve request happens first, in list order (each callback of the
      `Promise.all` runs synchronously up to its first `await`), then each successful
      retrieve caches its title; a failed retrieve leaves the title "" and does not abort.
      The mapped items are sorted by rank and cached before they are returned. */
  method FetchTodayActionItems(store: CacheStore, client: NotionClient)
    returns (r: Outcome<seq<ActionItem>>)
    requires store.Valid()
    modifies store`itemsPart, client`log
    ensures store.Valid()
    ensures r.Ok? ==> store.GetCachedActionItems() == r.value
    ensures old(store.GetCachedActionItems()) == [] ==>
              |client.log| > |old(client.log)| && client.log[|old(client.log)|] == QueryDatabase(ActionItemsDatabaseId)
    ensures old(store.GetCachedActionItems()) != [] ==>
              && r == Ok(old(store.GetCachedActionItems()))
              && client.log == old(client.log)
              && store.itemsPart == old(store.itemsPart)
    ensures old(store.GetCachedActionItems()) == [] && client.actionItemsAnswer.Err? ==>
              && r == Err(client.actionItemsAnswer.message)
              && client.log == old(client.log) + [QueryDatabase(ActionItemsDatabaseId)]
              && store.itemsPart == old(store.itemsPart)
    ensures old(store.GetCachedActionItems()) == [] && client.actionItemsAnswer.Ok? ==>
              var items := client.actionItemsAnswer.value;
              var ls := Lookups(old(store.itemsPart), items, client.pages);
              && r == Ok(SortByRank(ItemsOf(items, ls)))
              && client.log == old(client.log) + [QueryDatabase(ActionItemsDatabaseId)] + RetrieveCalls(ls)
              && store.itemsPart == CacheTitles(old(store.itemsPart), ls)[ItemsKey := Serial.StringifyItems(r.value)]
              && store.GetCachedActionItems() == r.value
  {
    var cachedItems := store.GetCachedActionItems();
    if |cachedItems| > 0 {
      return Ok(cachedItems);
    }

    var response := client.QueryActionItems();
    if response.Err? {
      return Err(response.message);
    }
    var items := response.value;
    var ls := ResolveTitles(store, client, items);
    CacheRetrievedTitles(store, ls);
    var a := new ActionItem[|items|](j requires 0 <= j < |items| => MapPage(items[j], TitleOf(ls[j])));
    assert a[..] == ItemsOf(items, ls);
    SortInPlace(a, ItemRank);
    store.CacheActionItems(a[..]);
    r := Ok(a[..]);
  }

  // ------------------------------------------------------------ what title resolution promises

  /** A retrieve request is sent exactly for the projects some item links to and whose cached
      title is absent or empty. */
  lemma {:induction false} RetrievesOnlyOnMiss(part: map<string, string>, items: seq<ActionItemPage>,
                                               pages: map<string, ProjectPage>)
    ensures forall c :: c in RetrieveCalls(Lookups(part, items, pages)) ==>
              && c.RetrievePage?
              && ReadTitle(part, c.pageId).GetOr("") == ""
              && exists i :: 0 <= i < |items| && LinkedProject(items[i]) == Some(c.pageId)
    ensures forall i :: 0 <= i < |items| && LinkedProject(items[i]).Some? &&
                        ReadTitle(part, LinkedProject(items[i]).value).GetOr("") == "" ==>
              Call.RetrievePage(LinkedProject(items[i]).value) in RetrieveCalls(Lookups(part, items, pages))
    decreases |items|
  {
    forall i | 0 <= i < |items| && LinkedProject(items[i]).Some? &&
               ReadTitle(part, LinkedProject(items[i]).value).GetOr("") == ""
      ensures Call.RetrievePage(LinkedProject(items[i]).value) in RetrieveCalls(Lookups(part, items, pages))
    {
      RetrieveCallsOfMiss(Lookups(part, items, pages), i);
    }
    if items != [] {
      var items' := items[..|items| - 1];
      RetrievesOnlyOnMiss(part, items', pages);
      var ls := Lookups(part, items, pages);
      assert ls[..|ls| - 1] == Lookups(part, items', pages);
      forall c | c in RetrieveCalls(ls)
        ensures c.RetrievePage? && ReadTitle(part, c.pageId).GetOr("") == ""
        ensures exists i :: 0 <= i < |items| && LinkedProject(items[i]) == Some(c.pageId)
      {
        if c in RetrieveCalls(Lookups(part, items', pages)) {
          var i :| 0 <= i < |items'| && LinkedProject(items'[i]) == Some(c.pageId);
          assert items[i] == items'[i];
        } else {
          assert LinkedProject(items[|items| - 1]) == Some(c.pageId);
        }
      }
    }
  }

  /** Lookups against one partition whose retrieves agree with `pages`. */
  ghost predicate RetrievesAgree(ls: seq<Lookup>, pages: map<string, ProjectPage>)
  {
    forall j :: 0 <= j < |ls| && ls[j].Retrieved? ==>
      ls[j].projectId in pages && RetrievedTitle(pages[ls[j].projectId]) == Some(ls[j].title)
  }

  /** After the titles are cached, a project's entry holds its retrieved title if any item
      retrieved it, and is unchanged otherwise. */
  lemma {:induction false} CacheTitlesAt(part: map<string, string>, ls: seq<Lookup>,
                                         pages: map<string, ProjectPage>, pid: string)
    requires RetrievesAgree(ls, pages)
    ensures (exists j :: 0 <= j < |ls| && ls[j].Retrieved? && ls[j].projectId == pid)
              ==> pid in pages && RetrievedTitle(pages[pid]).Some?
                  && ReadTitle(CacheTitles(part, ls), pid) == RetrievedTitle(pages[pid])
    ensures (forall j :: 0 <= j < |ls| ==> !(ls[j].Retrieved? && ls[j].projectId == pid))
              ==> ReadTitle(CacheTitles(part, ls), pid) == ReadTitle(part, pid)
    decreases |ls|
  {
    if ls != [] {
      var ls' := ls[..|ls| - 1];
      var l := ls[|ls| - 1];
      CacheTitlesAt(part, ls', pages, pid);
      var before := CacheTitles(part, ls');
      if l.Retrieved? {
        TitleWriteReadBack(before, l.projectId, l.title);
      }
      if exists j :: 0 <= j < |ls| && ls[j].Retrieved? && ls[j].projectId == pid {
        if !(l.Retrieved? && l.projectId == pid) {
          var j :| 0 <= j < |ls| && ls[j].Retrieved? && ls[j].projectId == pid;
          assert ls'[j] == ls[j];
        }
      }
    }
  }

  /** One item of ResolutionIdempotent. */
  lemma ResolutionIdempotentAt(part: map<string, string>, items: seq<ActionItemPage>,
                               pages: map<string, ProjectPage>, i: nat)
    requires i < |items|
    ensures var ls := Lookups(part, items, pages);
            var again := Lookups(CacheTitles(part, ls), items, pages);
            && TitleOf(again[i]) == TitleOf(ls[i])
            && ((again[i].Retrieved? || again[i].RetrieveFailed?) ==>
                  ls[i].RetrieveFailed? || (ls[i].Retrieved? && ls[i].title == ""))
  {
    var ls := Lookups(part, items, pages);
    var part' := CacheTitles(part, ls);
    var again := Lookups(part', items, pages);
    assert ls[i] == LookupOf(part, items[i], pages) && again[i] == LookupOf(part', items[i], pages);
    if LinkedProject(items[i]).Some? {
      var pid := LinkedProject(items[i]).value;
      assert RetrievesAgree(ls, pages);
      CacheTitlesAt(part, ls, pages, pid);
      if exists j :: 0 <= j < |ls| && ls[j].Retrieved? && ls[j].projectId == pid {
        var j :| 0 <= j < |ls| && ls[j].Retrieved? && ls[j].projectId == pid;
        assert LinkedProject(items[j]) == Some(pid);
        assert ls[j] == LookupOf(part, items[j], pages);
        assert ls[i] == ls[j];
      } else {
        assert ReadTitle(part', pid) == ReadTitle(part, pid);
        assert again[i] == ls[i];
      }
    }
  }

  /** Resolving the titles a second time, against the partition the first resolution left,
      gives every item the same title, and retrieves again only the projects whose first
      retrieve failed or returned an empty title. (The client answers every retrieve of one id
      alike; see TitleCacheNeverHits for why the program never resolves twice against one
      partition.) */
  lemma ResolutionIdempotent(part: map<string, string>, items: seq<ActionItemPage>,
                             pages: map<string, ProjectPage>)
    ensures var ls := Lookups(part, items, pages);
            var again := Lookups(CacheTitles(part, ls), items, pages);
            && ItemsOf(items, again) == ItemsOf(items, ls)
            && forall i :: 0 <= i < |items| && (again[i].Retrieved? || again[i].RetrieveFailed?) ==>
                             ls[i].RetrieveFailed? || (ls[i].Retrieved? && ls[i].title == "")
  {
    forall i | 0 <= i < |items| {
      ResolutionIdempotentAt(part, items, pages, i);
    }
  }

  /** No project title is cached. */
  ghost predicate NoTitles(part: map<string, string>)
  {
    forall id :: ReadTitle(part, id).None?
  }

  /** The invariant the program keeps on the action-items partition: project titles are
      cached only beside a non-empty item list. */
  ghost predicate TitlesOnlyWithItems(part: map<string, string>)
  {
    ItemsParse(part) && (ReadItems(part) == [] ==> NoTitles(part))
  }

  /** The partition a fresh fetch leaves (FetchTodayActionItems). */
  function FreshPart(part: map<string, string>, items: seq<ActionItemPage>, pages: map<string, ProjectPage>)
    : map<string, string>
  {
    var ls := Lookups(part, items, pages);
    CacheTitles(part, ls)[ItemsKey := Serial.StringifyItems(SortByRank(ItemsOf(items, ls)))]
  }

  /** Every operation that writes the action-items partition keeps the invariant: the empty
      partition of a new store or of a clear, and a fresh fetch (which runs only when the
      cached list is empty). A cache-hit fetch writes nothing. */
  lemma TitlesOnlyWithItemsPreserved(part: map<string, string>, items: seq<ActionItemPage>,
                                     pages: map<string, ProjectPage>)
    ensures TitlesOnlyWithItems(map[])
    ensures TitlesOnlyWithItems(part) && ReadItems(part) == [] ==>
              TitlesOnlyWithItems(FreshPart(part, items, pages))
  {
    if TitlesOnlyWithItems(part) && ReadItems(part) == [] {
      if items != [] {
        FreshPartHoldsItems(part, items, pages);
      } else {
        FreshPartOfNothing(part, pages);
      }
    }
  }

  /** A fresh fetch of a non-empty answer caches a non-empty list. */
  lemma FreshPartHoldsItems(part: map<string, string>, items: seq<ActionItemPage>,
                            pages: map<string, ProjectPage>)
    requires items != []
    ensures ItemsParse(FreshPart(part, items, pages)) && ReadItems(FreshPart(part, items, pages)) != []
  {
    var ls := Lookups(part, items, pages);
    var sorted := SortByRank(ItemsOf(items, ls));
    ItemsWriteRead(CacheTitles(part, ls), sorted);
    SortByRankCorrect(ItemsOf(items, ls));
    assert |sorted| == |multiset(sorted)| == |items|;
  }

  /** A fresh fetch of an empty answer caches no title. */
  lemma FreshPartOfNothing(part: map<string, string>, pages: map<string, ProjectPage>)
    requires NoTitles(part)
    ensures ItemsParse(FreshPart(part, [], pages)) && NoTitles(FreshPart(part, [], pages))
  {
    var ls := Lookups(part, [], pages);
    var text := Serial.StringifyItems(SortByRank(ItemsOf([], ls)));
    ItemsWriteRead(part, SortByRank(ItemsOf([], ls)));
    assert ls == [] && FreshPart(part, [], pages) == part[ItemsKey := text];
    ItemsWriteKeepsTitles(part, text);
    var part' := part[ItemsKey := text];
    forall id ensures ReadTitle(part', id).None? {
      assert ReadTitle(part, id).None?;
    }
  }

  /** Writing the item list changes no project title. */
  lemma ItemsWriteKeepsTitles(part: map<string, string>, text: string)
    ensures forall id :: ReadTitle(part[ItemsKey := text], id) == ReadTitle(part, id)
  {
    forall id ensures ReadTitle(part[ItemsKey := text], id) == ReadTitle(part, id) {
      assert TitleKey(id) != ItemsKey;
    }
  }

  /** While the invariant holds, a fetch that resolves titles finds none cached: every linked
      project is retrieved, and the title cache never supplies a title. */
  lemma TitleCacheNeverHits(part: map<string, string>, items: seq<ActionItemPage>,
                            pages: map<string, ProjectPage>)
    requires TitlesOnlyWithItems(part) && ReadItems(part) == []
    ensures forall i :: 0 <= i < |items| ==> !Lookups(part, items, pages)[i].CacheHit?
    ensures forall i :: 0 <= i < |items| && LinkedProject(items[i]).Some? ==>
              Call.RetrievePage(LinkedProject(items[i]).value) in RetrieveCalls(Lookups(part, items, pages))
  {
    var ls := Lookups(part, items, pages);
    forall i | 0 <= i < |items| && LinkedProject(items[i]).Some?
      ensures Call.RetrievePage(LinkedProject(items[i]).value) in RetrieveCalls(ls)
    {
      RetrieveCallsOfMiss(ls, i);
    }
  }

  /** The retrieve of a lookup that missed the cache is among the requests sent. */
  lemma {:induction false} RetrieveCallsOfMiss(ls: seq<Lookup>, i: nat)
    requires i < |ls| && (ls[i].Retrieved? || ls[i].RetrieveFailed?)
    ensures Call.RetrievePage(ls[i].projectId) in RetrieveCalls(ls)
    decreases |ls|
  {
    if i < |ls| - 1 {
      RetrieveCallsOfMiss(ls[..|ls| - 1], i);
    }
  }

  // ------------------------------------------------------------ updates

  /** `toggleActionItemDone`: sets Done to true whatever the item's current state. */
  method ToggleActionItemDone(client: NotionClient, pageId: string) returns (r: Outcome<()>)
    modifies client`log
    ensures r == client.updateAnswer
    ensures client.log == old(client.log) + [Call.UpdatePage(pageId, map["Done" := Checkbox(true)])]
  {
    r := client.UpdatePage(pageId, map["Done" := Checkbox(true)]);
  }

  /** `updateActionItemContent`: writes Content, even when it is "". */
  method UpdateActionItemContent(client: NotionClient, pageId: string, content: string)
    returns (r: Outcome<()>)
    modifies client`log
    ensures r == client.updateAnswer
    ensures client.log == old(client.log) + [Call.UpdatePage(pageId, map["Content" := RichText(content)])]
  {
    r := client.UpdatePage(pageId, map["Content" := RichText(content)]);
  }

  /** The three states of `doDate` in an update: the key is absent (`undefined`), null, or a
      string. */
  datatype DateUpdate = Absent | Null | Value(date: string)

  /** The fields an update may carry; None is a missing key. */
  datatype ItemUpdate = ItemUpdate(
    title: Option<string>,
    priority: Option<string>,
    project: Option<string>,
    doDate: DateUpdate,
    content: Option<string>)

  /** The property names `updateActionItem` may write. */
  const UpdatableProperties: set<string> := {"Action Item", "Priority", "Projects (DB)", "Do Date", "Content"}

  /** `props` writes a truthy title, priority, project and content and nothing for a missing or
      empty one; it writes Do Date whenever `doDate` is present: its start when it is a
      non-empty string, a clear (null) when it is null or "". */
  ghost predicate WritesExactly(u: ItemUpdate, props: map<string, PropertyValue>)
  {
    && props.Keys <= UpdatableProperties
    && ("Action Item" in props <==> Truthy(u.title))
    && ("Action Item" in props ==> props["Action Item"] == TitleText(u.title.value))
    && ("Priority" in props <==> Truthy(u.priority))
    && ("Priority" in props ==> props["Priority"] == SelectName(u.priority.value))
    && ("Projects (DB)" in props <==> Truthy(u.project))
    && ("Projects (DB)" in props ==> props["Projects (DB)"] == Relation([u.project.value]))
    && ("Do Date" in props <==> !u.doDate.Absent?)
    && ("Do Date" in props ==>
          props["Do Date"] == if u.doDate.Value? && u.doDate.date != "" then DateStart(u.doDate.date) else Cleared)
    && ("Content" in props <==> Truthy(u.content))
    && ("Content" in props ==> props["Content"] == RichText(u.content.value))
  }

  /** Only Do Date is ever cleared; an empty title, priority, project or content is omitted. */
  lemma OnlyDateCleared(u: ItemUpdate, props: map<string, PropertyValue>, key: string)
    requires WritesExactly(u, props)
    requires key in props && props[key] == Cleared
    ensures key == "Do Date"
    ensures u.doDate.Null? || u.doDate == Value("")
  {
  }

  /** `{ title: "Buy milk" }` writes the title only; `{ doDate: null }` clears the date only. */
  lemma UpdateExamples(p1: map<string, PropertyValue>, p2: map<string, PropertyValue>)
    requires WritesExactly(ItemUpdate(Some("Buy milk"), None, None, Absent, None), p1)
    requires WritesExactly(ItemUpdate(None, None, None, Null, None), p2)
    ensures p1 == map["Action Item" := TitleText("Buy milk")]
    ensures p2 == map["Do Date" := Cleared]
  {
    assert p1.Keys == {"Action Item"};
    assert p2.Keys == {"Do Date"};
  }

  /** The `properties` object of `updateActionItem`, built by conditional assignments. */
  method UpdateProperties(u: ItemUpdate) returns (props: map<string, PropertyValue>)
    ensures WritesExactly(u, props)
  {
    props := map[];
    if Truthy(u.title) {
      props := props["Action Item" := TitleText(u.title.value)];
    }
    if Truthy(u.priority) {
      props := props["Priority" := SelectName(u.priority.value)];
    }
    if Truthy(u.project) {
      props := props["Projects (DB)" := Relation([u.project.value])];
    }
    if !u.doDate.Absent? {
      props := props["Do Date" := if u.doDate.Value? && u.doDate.date != "" then DateStart(u.doDate.date) else Cleared];
    }
    if Truthy(u.content) {
      props := props["Content" := RichText(u.content.value)];
    }
  }

  /** `updateActionItem`: one page update carrying exactly the writes of `u`. */
  method UpdateActionItem(client: NotionClient, pageId: string, u: ItemUpdate) returns (r: Outcome<()>)
    modifies client`log
    ensures r == client.updateAnswer
    ensures |client.log| == |old(client.log)| + 1 && client.log[..|old(client.log)|] == old(client.log)
    ensures var c := client.log[|old(client.log)|];
            c.UpdatePage? && c.pageId == pageId && WritesExactly(u, c.properties)
  {
    var props := UpdateProperties(u);
    r := client.UpdatePage(pageId, props);
  }
}
