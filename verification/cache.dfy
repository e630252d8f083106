/** The local cache: two independent key-value partitions, one for the project list and one
    for the "today" action items, which also holds one entry per project title under a
    prefixed key. Structured values are stored as text (module Serial). */
module Cache {
  import opened Wrappers
  import opened Types
  import opened Serial

  const ProjectsKey := "notion-projects"
  const ItemsKey := "notion-today-items"
  const TitlePrefix := "project-title-"

  /** The key a project's title is cached under, in the action-items partition. */
  function TitleKey(projectId: string): (key: string)
    ensures key != ItemsKey
    ensures |key| == |TitlePrefix| + |projectId| && key[|TitlePrefix|..] == projectId
  {
    var key := TitlePrefix + projectId;
    assert key[0] == 'p' && ItemsKey[0] == 'n';
    key
  }

  /** Distinct projects never share a title entry. */
  lemma TitleKeyInjective(a: string, b: string)
    ensures TitleKey(a) == TitleKey(b) <==> a == b
  {
    if TitleKey(a) == TitleKey(b) {
      assert a == TitleKey(a)[|TitlePrefix|..];
    }
  }

  // ------------------------------------------------------------ reading a partition

  /** The stored text under `key`, where "" stands for "nothing stored" (the `cached ? … : []`
      test treats both the same way). */
  function StoredText(part: map<string, string>, key: string): string
  {
    if key in part then part[key] else ""
  }

  /** A partition whose project list, if any, parses. The source does not guard `JSON.parse`,
      so malformed text is outside the contract of the getters. */
  ghost predicate ProjectsParse(part: map<string, string>)
  {
    StoredText(part, ProjectsKey) != "" ==> ParseProjects(StoredText(part, ProjectsKey)).Some?
  }

  ghost predicate ItemsParse(part: map<string, string>)
  {
    StoredText(part, ItemsKey) != "" ==> ParseItems(StoredText(part, ItemsKey)).Some?
  }

  /** The project list a partition holds, or [] when none is stored. */
  function ReadProjects(part: map<string, string>): seq<Project>
    requires ProjectsParse(part)
  {
    var cached := StoredText(part, ProjectsKey);
    if cached != "" then ParseProjects(cached).value else []
  }

  /** The action-item list a partition holds, or [] when none is stored. */
  function ReadItems(part: map<string, string>): seq<ActionItem>
    requires ItemsParse(part)
  {
    var cached := StoredText(part, ItemsKey);
    if cached != "" then ParseItems(cached).value else []
  }

  /** The cached title of a project, or None (the source's `null`). */
  function ReadTitle(part: map<string, string>, projectId: string): Option<string>
  {
    if TitleKey(projectId) in part then Some(part[TitleKey(projectId)]) else None
  }

  // ------------------------------------------------------------ what a write does to reads

  lemma ProjectsWriteRead(part: map<string, string>, ps: seq<Project>)
    ensures ProjectsParse(part[ProjectsKey := StringifyProjects(ps)])
    ensures ReadProjects(part[ProjectsKey := StringifyProjects(ps)]) == ps
  {
    ProjectsRoundTrip(ps);
  }

  lemma ItemsWriteRead(part: map<string, string>, xs: seq<ActionItem>)
    ensures ItemsParse(part[ItemsKey := StringifyItems(xs)])
    ensures ReadItems(part[ItemsKey := StringifyItems(xs)]) == xs
  {
    ItemsRoundTrip(xs);
  }

  /** Caching a title never disturbs the cached action-item list. */
  lemma TitleWriteKeepsItems(part: map<string, string>, projectId: string, title: string)
    requires ItemsParse(part)
    ensures ItemsParse(part[TitleKey(projectId) := title])
    ensures ReadItems(part[TitleKey(projectId) := title]) == ReadItems(part)
  {
  }

  /** Caching a title reads back that title for that project and leaves every other
      project's title as it was. */
  lemma TitleWriteReadBack(part: map<string, string>, projectId: string, title: string)
    ensures forall other :: ReadTitle(part[TitleKey(projectId) := title], other)
                            == if other == projectId then Some(title) else ReadTitle(part, other)
  {
    forall other
      ensures ReadTitle(part[TitleKey(projectId) := title], other)
              == if other == projectId then Some(title) else ReadTitle(part, other)
    {
      TitleKeyInjective(projectId, other);
    }
  }

  // ------------------------------------------------------------ the store

  /** The two `Cache` instances of the extension, with the getters and setters built on them. */
  class CacheStore {
    /** The partition holding the project list. */
    var projectsPart: map<string, string>
    /** The partition holding the action-item list and the project titles. */
    var itemsPart: map<string, string>

    /** Both stored lists parse; every setter keeps this. */
    ghost predicate Valid()
      reads this
    {
      ProjectsParse(projectsPart) && ItemsParse(itemsPart)
    }

    constructor ()
      ensures Valid()
      ensures projectsPart == map[] && itemsPart == map[]
    {
      projectsPart := map[];
      itemsPart := map[];
    }

    function GetCachedProjects(): seq<Project>
      reads this
      requires Valid()
    {
      ReadProjects(projectsPart)
    }

    function GetCachedActionItems(): seq<ActionItem>
      reads this
      requires Valid()
    {
      ReadItems(itemsPart)
    }

    function GetCachedProjectTitle(projectId: string): Option<string>
      reads this
    {
      ReadTitle(itemsPart, projectId)
    }

    method CacheProjects(ps: seq<Project>)
      requires Valid()
      modifies this`projectsPart
      ensures Valid()
      ensures projectsPart == old(projectsPart)[ProjectsKey := StringifyProjects(ps)]
      ensures GetCachedProjects() == ps
      ensures GetCachedActionItems() == old(GetCachedActionItems())
    {
      ProjectsWriteRead(projectsPart, ps);
      projectsPart := projectsPart[ProjectsKey := StringifyProjects(ps)];
    }

    method CacheActionItems(xs: seq<ActionItem>)
      requires Valid()
      modifies this`itemsPart
      ensures Valid()
      ensures itemsPart == old(itemsPart)[ItemsKey := StringifyItems(xs)]
      ensures GetCachedActionItems() == xs
      ensures GetCachedProjects() == old(GetCachedProjects())
      ensures forall id :: GetCachedProjectTitle(id) == old(GetCachedProjectTitle(id))
    {
      ItemsWriteRead(itemsPart, xs);
      itemsPart := itemsPart[ItemsKey := StringifyItems(xs)];
    }

    method CacheProjectTitle(projectId: string, title: string)
      requires Valid()
      modifies this`itemsPart
      ensures Valid()
      ensures itemsPart == old(itemsPart)[TitleKey(projectId) := title]
      ensures GetCachedActionItems() == old(GetCachedActionItems())
      ensures GetCachedProjects() == old(GetCachedProjects())
      ensures forall id :: GetCachedProjectTitle(id)
                           == if id == projectId then Some(title) else old(GetCachedProjectTitle(id))
    {
      TitleWriteKeepsItems(itemsPart, projectId, title);
      TitleWriteReadBack(itemsPart, projectId, title);
      itemsPart := itemsPart[TitleKey(projectId) := title];
    }

    /** Empties the action-items partition: the list and every project title. */
    method ClearActionItemsCache()
      requires Valid()
      modifies this`itemsPart
      ensures Valid()
      ensures itemsPart == map[]
      ensures GetCachedActionItems() == []
      ensures GetCachedProjects() == old(GetCachedProjects())
      ensures forall id :: GetCachedProjectTitle(id) == None
    {
      itemsPart := map[];
    }
  }
}
