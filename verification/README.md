# notion-ppv core, in Dafny

This project models the logic of a Raycast extension that shows a Notion workspace's action
items "for today". The model covers three parts of the extension:

- the gateway to the workspace service (`src/notion.ts`). This is the ten-entry priority
  table and the client-side stable sort by rank. It is also the cache-first "today" aggregator,
  with its per-project title resolution through a title cache and its write-back of the sorted
  list. It also covers the translation of partial updates into property writes, the Done toggle,
  project-title extraction and the spark-file find-or-create;
- the local cache (`src/cache.ts`), a class with two key-value partitions. One holds the project
  list. The other holds the action-item list plus one entry per project title, under the prefix
  `project-title-`;
- the "today" view (`src/today-action-items.tsx`), a class with the state cells `items`,
  `recentlyToggled` and `isLoading`. It comes with the pure list updaters those cells are given,
  the view's own 1-based rank table and the priority colours.

The workspace service is an oracle. `NotionRemote.NotionClient` answers every request with a
value fixed in its fields, so each proof holds whatever those fields hold. Every retrieve of
one page id gets the same answer (see "## Left out"). The client also keeps a
ghost log of the requests sent, in order. Contracts about the service state which requests are
made, with what properties, and in which order.

Files:

- `wrappers.dfy` — Option and Outcome. A rejected promise is an `Err`.
- `types.dfy` — Project and ActionItem.
- `serial.dfy` — a concrete text form for the cached lists, with proved round trips.
- `cache.dfy` — the cache.
- `stable_sort.dfy` — a stable insertion sort by a natural key. The specification is a function
  on sequences, and the in-place version works on an array.
- `notion_priority.dfy` — the rank table and the sort by rank.
- `notion_remote.dfy` — page shapes, property values, the request log and the client.
- `notion.dfy` — the gateway operations.
- `today_action_items.dfy` — the view.

Four behaviours of the code are easy to misread:

- `fetchProjects` picks the first project property that is *present* (`Name || Title ||
  Project` on property objects). It does not pick the first one with non-empty text. A present
  `Name` with no text gives the title "", even when `Title` holds text.
- A failed project retrieve inside `fetchTodayActionItems` is caught per item and leaves the
  project title "". It does not abort the list. A retrieved page without `properties` makes the
  title read throw inside the same `try`, so it is treated as a failed retrieve and nothing is
  cached.
- `toggleActionItemDone` always writes `Done = true`. The view still flips `done` locally, so
  "Mark Not Done" on a done item shows it as not done while the write sent says done
  (`TodayActionItems.TodayView.ToggleDone`).
- The title cache never supplies a title when the operations run one after another. Titles are
  written only by a fetch that also caches a non-empty item list. A fetch resolves titles only
  when the cached list is empty, and the clear that empties it also removes every title
  (`Notion.TitlesOnlyWithItemsPreserved`, `Notion.TitleCacheNeverHits`,
  `TodayActionItems.FetchKeepsTitlesOnlyWithItems`).

## Model

| member | source | states |
|---|---|---|
| NotionPriority.RankTable | src/notion.ts:18-29 | the table gives exactly the ten labels, in order, the distinct ranks 0..9 |
| NotionPriority.UnknownRanksLast | src/notion.ts:279-283 | every label outside the table, "" included, gets rank 999, strictly after every known label |
| NotionPriority.SortByRankCorrect | src/notion.ts:279-283 | the sorted list is a permutation of the mapped items, non-decreasing by rank, and keeps the query order among equal ranks |
| NotionPriority.SortExample | src/notion.ts:279-283 | Remember, Immediate, Quick sorts to Immediate, Quick, Remember |
| StableSort.SortCorrect | src/notion.ts:279-283 | the reference sort is sorted by key, a permutation of its input, and stable for every key |
| StableSort.InsertInPlace | src/notion.ts:279-283 | one insertion step in place: the prefix becomes the reference insertion and the suffix is untouched |
| StableSort.SortInPlace | src/notion.ts:279-283 | `items.sort` with a comparator that subtracts ranks leaves the array equal to the reference sort of its old contents |
| Serial.ProjectsRoundTrip | src/cache.ts:20-27 | parsing the stored text of a project list gives the list back, and the stored text is never "" |
| Serial.ItemsRoundTrip | src/cache.ts:29-36 | parsing the stored text of an action-item list gives the list back, and the stored text is never "" |
| Cache.TitleKey | src/cache.ts:17-18 | a title key never equals the key of the action-item list and ends with the project id |
| Cache.TitleKeyInjective | src/cache.ts:38-44 | two projects share a title entry exactly when their ids are equal |
| Cache.ProjectsWriteRead | src/cache.ts:20-27 | after the project list is stored, reading it gives that list |
| Cache.ItemsWriteRead | src/cache.ts:29-36 | after the action-item list is stored, reading it gives that list |
| Cache.TitleWriteKeepsItems | src/cache.ts:29-40 | caching a title leaves the cached action-item list as it was |
| Cache.TitleWriteReadBack | src/cache.ts:38-44 | caching a title reads back that title for that id and leaves every other id's title unchanged |
| Cache.CacheStore.constructor | src/cache.ts:13-14 | two empty partitions, so every getter gives its default |
| Cache.CacheStore.CacheProjects | src/cache.ts:20-22 | the project list reads back, and the action items are unchanged |
| Cache.CacheStore.CacheActionItems | src/cache.ts:29-31 | the action-item list reads back, and the projects and every project title are unchanged |
| Cache.CacheStore.CacheProjectTitle | src/cache.ts:38-40 | the title reads back for that id, and the action items, the projects and other titles are unchanged |
| Cache.CacheStore.ClearActionItemsCache | src/cache.ts:46-48 | the item list reads as [] and every title as null, and the projects are unchanged |
| Notion.ProjectTitleIsFirstPresent | src/notion.ts:36-47 | the title is the first text of the first present property among Name, Title and Project, else ""; a page without properties gets "" |
| Notion.FetchProjects | src/notion.ts:31-49 | one Projects query; on success, one project per page in page order, with that page's id and extracted title; on failure, the error |
| Notion.SparkFileNameInjective | src/notion.ts:60 | distinct project names give distinct spark-file names |
| Notion.FindOrCreateSparkFile | src/notion.ts:51-97 | queries by name and project; returns the first match and creates nothing; when nothing matches, creates one page with the same name, the project relation and the spark-file tag; a query error is rethrown |
| Notion.MapPage | src/notion.ts:266-275 | a non-empty title, date start, priority and content are copied, and a missing or empty one gives the default ("", null, "", ""). priorityIcon equals priority, and done holds exactly when the checkbox is true |
| Notion.ResolveTitles | src/notion.ts:245-256 | every item's cache read and retrieve request, in list order: the lookups are those of the partition at entry, and the log grows by their retrieves |
| Notion.CacheRetrievedTitles | src/notion.ts:257-262 | each successful retrieve caches its title; the cached action-item list is untouched |
| Notion.FetchTodayActionItems | src/notion.ts:188-292 | a non-empty cached list is returned with no request and no write; a failed query is rethrown and nothing is cached; otherwise the result is the rank-sorted mapped items with resolved titles, the log is the query and then the retrieves, and the cache holds the new titles and the returned list |
| Notion.RetrievesOnlyOnMiss | src/notion.ts:250-256 | a retrieve is sent exactly for the projects some item links to whose cached title is absent or "": every retrieve is for such a project, and every such project is retrieved |
| Notion.CacheTitlesAt | src/notion.ts:255-262 | after write-back, a project some item retrieved holds its retrieved title, and every other project's entry is unchanged |
| Notion.ResolutionIdempotent | src/notion.ts:250-263 | resolving again against the updated cache gives every item the same title, and retrieves only the projects whose first retrieve failed or gave "" |
| Notion.TitlesOnlyWithItemsPreserved | src/cache.ts:46-48 | titles are cached only beside a non-empty item list; an empty partition has this property, and so does the partition a fresh fetch leaves, since a fresh fetch runs only on an empty list (src/notion.ts:193-196, 259, 286) |
| Notion.TitleCacheNeverHits | src/notion.ts:250-256 | while that invariant holds, a fetch that resolves titles finds none cached and retrieves every linked project |
| Notion.ToggleActionItemDone | src/notion.ts:294-304 | one update that sets Done to true, whatever the item's state |
| Notion.UpdateActionItemContent | src/notion.ts:306-327 | one update that writes Content, even when it is "" |
| Notion.UpdateProperties | src/notion.ts:340-372 | writes exactly the truthy title, priority, project and content; writes Do Date whenever doDate is present, as a start if non-empty and as a clear otherwise |
| Notion.OnlyDateCleared | src/notion.ts:360-366 | Do Date is the only property ever cleared, and only for a null or "" date |
| Notion.UpdateExamples | src/notion.ts:340-372 | a title-only update writes only the title; a null date writes only a Do Date clear |
| Notion.UpdateActionItem | src/notion.ts:329-383 | exactly one page update, whose properties are exactly the writes of the update |
| TodayActionItems.LocalOrderAgrees | src/today-action-items.tsx:19-39 | the view's table ranks the same labels, each one higher than the gateway's, so it orders them identically; `priorities` lists them most urgent first |
| TodayActionItems.PriorityColorsDistinct | src/today-action-items.tsx:215-232 | the eight most urgent labels get eight distinct colours |
| TodayActionItems.PriorityColorDefault | src/today-action-items.tsx:215-240 | a label gets SecondaryText exactly when it is not one of the eight most urgent: Errand, Remember and every unknown label |
| TodayActionItems.VisibleMembers | src/today-action-items.tsx:67 | the view holds exactly the fetched items that are not done or were toggled, each no more often than fetched |
| TodayActionItems.VisibleAppend | src/today-action-items.tsx:67 | the filter keeps the fetched order: it distributes over concatenation |
| TodayActionItems.VisibleAllOrNone | src/today-action-items.tsx:67 | a list whose items are all shown is kept whole; one whose items are all hidden gives [] |
| TodayActionItems.UpdatersKeepShape | src/today-action-items.tsx:84-112 | flipping, content edits and merges keep the length and the ids in order, and leave items of other ids equal |
| TodayActionItems.FlipDoneInvolution | src/today-action-items.tsx:84 | flipping twice restores the list; flipping changes only `done` of the matching items |
| TodayActionItems.SetContentLastWins | src/today-action-items.tsx:99-101 | of two content edits the last wins; re-writing the current content changes nothing |
| TodayActionItems.MergeLaws | src/today-action-items.tsx:111-113 | a content-only merge is a content edit, an empty merge changes nothing, and two merges equal one merge of the combined fields |
| TodayActionItems.TodayView.constructor | src/today-action-items.tsx:33-35 | no items, nothing toggled, loading |
| TodayActionItems.FetchKeepsTitlesOnlyWithItems | src/today-action-items.tsx:59-66 | a fetch from the view, forced or not, keeps titles cached only beside a non-empty item list, and a failed forced refresh leaves the item cache empty |
| TodayActionItems.LoadItems | src/today-action-items.tsx:62-66 | the cache and service half of a fetch: a forced refresh clears the item cache first; a non-empty cached list is the result with no request; otherwise the query is sent, its error is the result or the result is the rank-sorted answer with titles resolved against the starting partition, the log is the query and then the retrieves, and the item partition is exactly the one the gateway's fresh fetch leaves |
| TodayActionItems.TodayView.FetchItems | src/today-action-items.tsx:59-78 | shows exactly the visible fetched items, filtered with the toggled set the call started with; a forced refresh also empties the toggled set. The result, the new item partition and the request log are exactly those of the cache and service half, so a forced refresh always queries the service and gets every title anew, and a failed one leaves the item cache empty. A failed query leaves the list as it was. Loading ends |
| TodayActionItems.TodayView.ToggleDone | src/today-action-items.tsx:80-97 | always sends Done = true; only on success does it add the id to the toggled set and flip the matching items; on failure nothing changes |
| TodayActionItems.TodayView.HandleContentUpdate | src/today-action-items.tsx:99-101 | the content edit applied to the matching items only |
| TodayActionItems.TodayView.HandleItemUpdate | src/today-action-items.tsx:111-113 | the merge applied to the matching items only |
| TodayActionItems.TodayView.SaveContent | src/today-action-items.tsx:41-57 | writes Content to the service, and applies the content edit to the matching items only on success. The view defines this callback but never calls it |

## Left out

- NotionRemote.NotionClient.RetrievePage: every retrieve of one page id gives the same answer, from one fixed map. The source sends its retrieves concurrently, and one can fail (under rate limiting, say) while another for the same id succeeds. `Notion.CacheTitlesAt` and `Notion.ResolutionIdempotent` hold under this per-id determinism only.
- Overlapping asynchronous operations. Each operation runs to completion before the next
  starts. Two fetches that both await on an empty cache, or a toggle that lands while a fetch
  awaits, are not modelled. Under such overlap the title cache can supply a title, so
  `Notion.TitleCacheNeverHits` speaks of operations run one after another only.
- The service SDK (`databases.query`, `pages.create`, `pages.update`, `pages.retrieve`). It is
  foreign code. Each call is an oracle method that returns a fixed answer and logs the request.
- The service-side filter and sort of the Action Items query (src/notion.ts:198-243). The
  service evaluates them, so the query result is an arbitrary sequence of pages.
- Date and time: `today.setHours(0,0,0,0)` and `toISOString` (src/notion.ts:189-190, 228). These
  depend on the host clock and time zone. The date is a plain string.
- The interleaving inside `Promise.all`. Each callback runs synchronously up to its first
  `await`, so every cache read and retrieve request comes first, in list order. The title writes
  follow. The model takes them in list order too, but the service may answer in any order. Two
  items that share an uncached project each send a retrieve, as in the source.
- The 3000 ms debounce of `debouncedSave`, the toasts, the console logging, navigation and all
  rendering. `SaveContent` is the callback's body once the timer fires. Nothing in the view
  calls `debouncedSave`, so the model states what a call would do.
- `JSON.stringify`/`JSON.parse` and the `Cache` persistence. The stored text uses a concrete
  quoted-field form with a proved round trip, not JSON text.
- Cache.ReadItems and Cache.ReadProjects: stored text that does not parse is outside the contract
  (the `Valid` precondition), because the source does not guard `JSON.parse`.
- NotionPriority.Rank: the lookup `PRIORITY_ORDER[label]` also finds inherited object keys
  (`toString`, `constructor`, ...). The model gives those labels rank 999, like every unknown
  label.
- Partial page objects in the Action Items query: the model assumes every page carries
  `properties`.
- `fetchProjects` state wiring in the view (`loadProjects`, `projects`), `editingContent` and
  `selectedItem`. These are display-only state.
- `createNewNote`, `appendNoteToSparkFile`, `createActionItem`, `createProject` (src/notion.ts:99-186)
  and the form components. They are single requests or UI, outside the modelled core.
- TodayActionItems.TodayView.HandleItemUpdate: the spread `{...item, ...updates}` could in
  principle also overwrite `id`. The form never sends one, so `Patch` has no id field.
