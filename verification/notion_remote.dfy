/** The remote workspace service as the gateway sees it: the shapes of the pages it returns,
    the property writes the gateway sends, and the client object. The service itself is not
    modelled: the client answers every request with a value fixed in its fields (every proof
    holds for any fixed answers in these fields, and every retrieve of one page id gets the
    same answer) and records the request in a ghost log. */
module NotionRemote {
  import opened Wrappers

  const NotesDatabaseId := "e194928c96664eb6b5518b690f08ea05"
  const ProjectsDatabaseId := "e0d34b0831c24e30a48ac235e425459b"
  const SparkFileTagId := "137577f82e28806f82c9f2b86497fe2f"
  const ActionItemsDatabaseId := "d1c2b6fab84843638eb88480f0d4223e"

  /** A page of the Action Items database, reduced to what the gateway reads. Each field is
      the value of a `?.` chain on the page's properties, None where the chain yields
      `undefined`: the first plain text of "Action Item", the start of "Do Date", the first
      relation id of "Projects (DB)", the select name of "Priority", the "Done" checkbox and
      the first plain text of "Content". */
  datatype ActionItemPage = ActionItemPage(
    id: string,
    title: Option<string>,
    doDateStart: Option<string>,
    projectId: Option<string>,
    priority: Option<string>,
    done: Option<bool>,
    content: Option<string>)

  /** A title property object; `firstText` is `title?.[0]?.plain_text`. */
  datatype TitleProperty = TitleProperty(firstText: Option<string>)

  /** The title-like properties a project page may carry under the names Name, Title and
      Project; None where the page has no property of that name. */
  datatype ProjectProperties = ProjectProperties(
    name: Option<TitleProperty>,
    title: Option<TitleProperty>,
    project: Option<TitleProperty>)

  /** A page of the Projects database; `properties` is None for a partial page object, which
      has no `properties` key. */
  datatype ProjectPage = ProjectPage(id: string, properties: Option<ProjectProperties>)

  /** The value written to one page property. */
  datatype PropertyValue =
    | TitleText(content: string)     // { title: [{ text: { content } }] }
    | RichText(content: string)      // { rich_text: [{ text: { content } }] }
    | SelectName(name: string)       // { select: { name } }
    | Relation(ids: seq<string>)     // { relation: [{ id }, ...] }
    | DateStart(start: string)       // { date: { start } }
    | Checkbox(checked: bool)        // { checkbox }
    | Cleared                        // null: clears the property

  /** One request sent to the service. */
  datatype Call =
    | QueryDatabase(databaseId: string)
    | QueryNotes(titleEquals: string, projectContains: string)
    | RetrievePage(pageId: string)
    | CreatePage(databaseId: string, properties: map<string, PropertyValue>)
    | UpdatePage(pageId: string, properties: map<string, PropertyValue>)

  /** The service client. Its fields are the answers the service gives; `log` is every request
      sent so far, oldest first. */
  class NotionClient {
    /** The answer to the Action Items query (already filtered and sorted by the service). */
    var actionItemsAnswer: Outcome<seq<ActionItemPage>>
    /** The answer to the Projects query. */
    var projectsAnswer: Outcome<seq<ProjectPage>>
    /** The pages `pages.retrieve` can return; retrieving any other id fails. */
    var pages: map<string, ProjectPage>
    /** The ids of the notes the spark-file query matches. */
    var notesAnswer: Outcome<seq<string>>
    /** The id of a created page, or the error creating it fails with. */
    var createAnswer: Outcome<string>
    /** Whether a page update succeeds. */
    var updateAnswer: Outcome<()>
    ghost var log: seq<Call>

    method QueryActionItems() returns (r: Outcome<seq<ActionItemPage>>)
      modifies this`log
      ensures r == actionItemsAnswer
      ensures log == old(log) + [QueryDatabase(ActionItemsDatabaseId)]
    {
      r := actionItemsAnswer;
      log := log + [QueryDatabase(ActionItemsDatabaseId)];
    }

    method QueryProjects() returns (r: Outcome<seq<ProjectPage>>)
      modifies this`log
      ensures r == projectsAnswer
      ensures log == old(log) + [QueryDatabase(ProjectsDatabaseId)]
    {
      r := projectsAnswer;
      log := log + [QueryDatabase(ProjectsDatabaseId)];
    }

    /** The Notes query filtered by title and by related project. */
    method QueryNotes(titleEquals: string, projectContains: string) returns (r: Outcome<seq<string>>)
      modifies this`log
      ensures r == notesAnswer
      ensures log == old(log) + [Call.QueryNotes(titleEquals, projectContains)]
    {
      r := notesAnswer;
      log := log + [Call.QueryNotes(titleEquals, projectContains)];
    }

    method RetrievePage(pageId: string) returns (r: Outcome<ProjectPage>)
      modifies this`log
      ensures r == if pageId in pages then Ok(pages[pageId]) else Err("page not found")
      ensures log == old(log) + [Call.RetrievePage(pageId)]
    {
      r := if pageId in pages then Ok(pages[pageId]) else Err("page not found");
      log := log + [Call.RetrievePage(pageId)];
    }

    method CreatePage(databaseId: string, properties: map<string, PropertyValue>)
      returns (r: Outcome<string>)
      modifies this`log
      ensures r == createAnswer
      ensures log == old(log) + [Call.CreatePage(databaseId, properties)]
    {
      r := createAnswer;
      log := log + [Call.CreatePage(databaseId, properties)];
    }

    method UpdatePage(pageId: string, properties: map<string, PropertyValue>)
      returns (r: Outcome<()>)
      modifies this`log
      ensures r == updateAnswer
      ensures log == old(log) + [Call.UpdatePage(pageId, properties)]
    {
      r := updateAnswer;
      log := log + [Call.UpdatePage(pageId, properties)];
    }
  }
}
