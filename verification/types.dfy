/** The two records the extension keeps in its cache and shows in its views. */
module Types {
  import opened Wrappers

  /** A row of the Projects database: its page id and its display title. */
  datatype Project = Project(id: string, title: string)

  /** An entry of the "today" list. `priorityIcon` duplicates `priority`; `project` holds the
      resolved title of the linked project, or "" when there is none. */
  datatype ActionItem = ActionItem(
    id: string,
    title: string,
    doDate: Option<string>,
    project: string,
    priority: string,
    priorityIcon: string,
    done: bool,
    content: string)
}
