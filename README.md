# Task dashboard: list query, task creation, view derivation and selection

A Dafny model of the core of a task-tracking dashboard for recurring
retail data-load jobs. Each task records a retailer, a schedule day, a load
type, source credentials, expected file counts by format, a list of file
mappings, a completion flag and two timestamps.

The model covers two pieces:

- **The `/api/tasks` route** (`app/api/tasks/route.ts`).
  - `GET` defaults the `search` and `day` query parameters. It builds a
    query document holding a case-insensitive retailer constraint only for
    a non-empty search, and a day constraint for every day except `"all"`.
    It returns the stored tasks that match.
  - `POST` spreads the request body into a new record. It forces
    `completed` to `false` and stamps `createdAt` and `updatedAt` from two
    clock reads. It inserts the record and echoes it back with its id.
  - Every failure in either handler becomes status 500 with a fixed
    `{error}` body.
  - The document store is a class holding a sequence of records
    (`TaskStore.TaskCollection`). A record inserted without an id gets a
    fresh one from a counter, rendered in hexadecimal.
- **The dashboard** (`components/task-dashboard.tsx`).
  - The derived view keeps the fetched tasks that pass the load-type and
    status filters. It then sorts them by retailer, day, file count or
    last update, ascending or descending. `Array.prototype.sort` is stable,
    so the sort is a stable insertion sort driven by the page's own
    comparator.
  - The selection is a set of task ids. Handlers toggle one id, select
    every id in the view, or clear the set. `toggleSort` flips the sort
    direction. The select-all checkbox is checked when the selection's
    size equals the view's length and the view is non-empty.

Files: `seqs.dfy` (order-preserving filter, subsequences), `text.dfy`
(string order, case-insensitive containment), `task_types.dfy` (the task
record), `dashboard_view.dfy`, `dashboard_state.dfy`, `task_store.dfy`,
`tasks_route.dfy`.

Modelling choices:

- Things outside the program are parameters:
  - whether the database connection is up (`connected`);
  - what `request.json()` produced (`None` when the body does not parse);
  - the two clock reads (`clock1`, `clock2`).
- Timestamps are integers (milliseconds). Comparing dates by subtraction
  becomes integer subtraction.
- `localeCompare` is modelled as ordinal comparison on character codes
  (`Text.Compare`).
- A `$regex` constraint with `$options: "i"` is modelled as ASCII
  case-insensitive substring containment (`Text.ContainsIgnoreCase`). This
  agrees with the regex only for patterns without metacharacters.
- A POST body carrying its own `_id` keeps it, because the spread copies
  it. The insert then uses that id, and a duplicate id makes the insert
  fail, which becomes a 500. Nothing in the handler stops a client from
  choosing the `_id`, and the model keeps that behaviour.
- Only the day value `"all"` is special. Any other value, `"today"`
  included, becomes a literal day constraint.

## Model

| member | source | states |
|---|---|---|
| `TaskTypes.LoadTypeName` | lib/types.ts:17 | a load type is named "Direct load" or "Indirect load", and each name belongs to exactly one load type |
| `TaskTypes.IdSet` | components/task-dashboard.tsx:97 | the id set of a task list contains the id of every task that has one, and nothing else |
| `TaskTypes.IdSetSize` | components/task-dashboard.tsx:97 | when every task has an id and no id repeats, the id set has exactly as many elements as the list |
| `TaskTypes.DistinctIdsOfSubMultiset` | components/task-dashboard.tsx:39-47 | a list that takes each task no more often than a list with distinct ids also has distinct ids |
| `Seqs.Filter` | components/task-dashboard.tsx:40-47 | filtering never lengthens a list, and it keeps only elements of the input that pass the predicate |
| `Seqs.FilterCount` | components/task-dashboard.tsx:40-47 | after filtering, a passing element keeps its multiplicity and a failing one has multiplicity 0, so nothing is invented or duplicated |
| `Seqs.FilterIsSubsequence` | components/task-dashboard.tsx:40-47 | the filtered list is a subsequence of the input, so the original order is kept |
| `Seqs.NoDuplicatesCount` | components/task-dashboard.tsx:97 | a list has no repeated element exactly when every multiplicity is at most one |
| `Text.Compare` | components/task-dashboard.tsx:74 | the stand-in for `localeCompare` returns -1, 0 or 1 |
| `Text.CompareZeroIffEqual` | components/task-dashboard.tsx:74 | two strings compare as 0 exactly when they are equal |
| `Text.CompareAntisymmetric` | components/task-dashboard.tsx:74 | `b.localeCompare(a)` is the negation of `a.localeCompare(b)`, so the descending comparator is the ascending one reversed |
| `Text.CompareTransitive` | components/task-dashboard.tsx:74 | string order is transitive |
| `Text.ContainsIgnoreCase` | app/api/tasks/route.ts:17 | no contract of its own. `ContainsAt` states what containment means, and `EmptyNeedleMatches` and `ContainsIgnoreCaseIsCaseBlind` state its case-blind matching |
| `Text.ContainsAt` | app/api/tasks/route.ts:17 | substring containment holds exactly when some window of the text equals the pattern |
| `Text.EmptyNeedleMatches` | app/api/tasks/route.ts:16-18 | the empty pattern matches every retailer, so leaving out the constraint for an empty search changes nothing |
| `Text.ContainsIgnoreCaseIsCaseBlind` | app/api/tasks/route.ts:17 | lower-casing either the text or the pattern does not change the result of the case-insensitive match |
| `DashboardView.MatchesLoadType` | components/task-dashboard.tsx:41 | no contract of its own. `LoadTypeFilterSelects` states which tasks pass it |
| `DashboardView.MatchesStatus` | components/task-dashboard.tsx:42-45 | no contract of its own. `StatusFilterSelects` and `UnknownStatusKeepsNothing` state which tasks pass it |
| `DashboardView.FilterTasks` | components/task-dashboard.tsx:39-47 | the filtered list is never longer than the fetched one, and every task in it is fetched and passes both filters. `FilterTasksSpec` adds order, completeness and multiplicity |
| `DashboardView.FilterTasksSpec` | components/task-dashboard.tsx:39-47 | the filtered list is a subsequence of the fetched list. It contains a task exactly when the fetched list does and the task passes both filters, and each passing task keeps its multiplicity |
| `DashboardView.StatusFilterSelects` | components/task-dashboard.tsx:42-45 | "all" keeps every task that passes the load-type filter, "completed" keeps exactly the completed ones, and "pending" keeps exactly the others |
| `DashboardView.UnknownStatusKeepsNothing` | components/task-dashboard.tsx:42-45 | a status filter other than "all", "completed" or "pending" keeps no task |
| `DashboardView.LoadTypeFilterSelects` | components/task-dashboard.tsx:41 | filtering on a load type's name keeps exactly that load type's tasks. Any other value except "all", such as a different capitalisation, keeps nothing |
| `DashboardView.NoFilterKeepsAll` | components/task-dashboard.tsx:39-47 | with both filters at "all", the fetched list passes through unchanged |
| `DashboardView.ParseSortKey` | components/task-dashboard.tsx:51-71 | "day", "fileCount" and "updatedAt" select their keys, and every other `sortBy` value falls back to retailer |
| `DashboardView.Comparator` | components/task-dashboard.tsx:48-77 | no contract of its own. `ComparatorMeaning` and `ComparatorTransitive` state its sign and its consistency |
| `DashboardView.ComparatorMeaning` | components/task-dashboard.tsx:73-77 | the comparator is at most 0 exactly when the sort values are in ascending order (for "asc") or descending order (for "desc"). It is 0 exactly on equal sort values, and swapping its arguments negates it |
| `DashboardView.ComparatorTransitive` | components/task-dashboard.tsx:73-77 | the comparator's "may precede" relation is transitive for every key and direction |
| `DashboardView.Insert` | components/task-dashboard.tsx:48-78 | inserting a task adds exactly that one task to the list, and the result starts with the inserted task or with the list's old head |
| `DashboardView.SortTasks` | components/task-dashboard.tsx:48-78 | the sorted list is a permutation of its input (same multiset, same length) |
| `DashboardView.InsertSorted` | components/task-dashboard.tsx:48-78 | inserting into a sorted list gives a sorted list |
| `DashboardView.SortSorted` | components/task-dashboard.tsx:48-78 | every pair of adjacent elements in the sort's output is in comparator order |
| `DashboardView.InsertTies` | components/task-dashboard.tsx:48-78 | an inserted task lands before every task with the same sort value, and the other tasks' order is untouched |
| `DashboardView.SortStable` | components/task-dashboard.tsx:48-78 | for every sort value, the tasks with that value appear in the output in the same order as in the input (stability) |
| `DashboardView.FileCountAscendingExample` | components/task-dashboard.tsx:60-77 | file counts [9, 3, 9] sort ascending to [3, 9, 9], and the two nines keep their order |
| `DashboardView.FileCountDescendingExample` | components/task-dashboard.tsx:60-77 | file counts [9, 3, 9] sort descending to [9, 9, 3], and the two nines keep their order |
| `DashboardView.DeriveView` | components/task-dashboard.tsx:39-78 | the view is never longer than the fetched list, and every task in it is fetched and passes both filters. `ViewContents`, `ViewOrdered` and `ViewStable` state the rest |
| `DashboardView.ViewContents` | components/task-dashboard.tsx:39-78 | the view is a permutation of a subsequence of the fetched tasks. It contains a task exactly when the fetched list does and the task passes both filters, with the fetched multiplicity |
| `DashboardView.ViewOrdered` | components/task-dashboard.tsx:39-78 | adjacent view elements are non-decreasing in the chosen key for "asc" and non-increasing for "desc" |
| `DashboardView.ViewStable` | components/task-dashboard.tsx:39-78 | tasks with equal sort keys appear in the view in their order in the filtered list |
| `DashboardState.Toggle` | components/task-dashboard.tsx:85-93 | the toggled id is in the new selection exactly when `checked`, and every other id's membership is unchanged |
| `DashboardState.Flip` | components/task-dashboard.tsx:116-118 | toggling always changes the sort direction |
| `DashboardState.FlipTwice` | components/task-dashboard.tsx:116-118 | toggling twice restores the direction |
| `DashboardState.ViewDistinctIds` | components/task-dashboard.tsx:39-78 | when the fetched tasks all have distinct ids, so do the tasks of every view derived from them |
| `DashboardState.SelectAllChecked` | components/task-dashboard.tsx:222 | no contract of its own. `CheckedAfterSelectAll`, `CheckedIffWholeViewSelected` and `StaleSelectionChecksBox` state when the box is checked |
| `DashboardState.CheckedAfterSelectAll` | components/task-dashboard.tsx:222 | after select-all over a view with distinct ids, the box is checked exactly when the view is non-empty. After clearing, it is never checked |
| `DashboardState.CheckedIffWholeViewSelected` | components/task-dashboard.tsx:222 | while the selection holds only ids from the view, the box is checked exactly when the view is non-empty and every task in it is selected |
| `DashboardState.StaleSelectionChecksBox` | components/task-dashboard.tsx:222 | the box compares sizes only. A one-id selection left over from another filter checks it for a one-task view whose task is not selected |
| `DashboardState.Dashboard.constructor` | components/task-dashboard.tsx:19-30 | the initial state: no tasks and no selection, empty search, day, load type and status all "all", sorted by retailer ascending |
| `DashboardState.Dashboard.View` | components/task-dashboard.tsx:39-78 | no contract of its own. It is `DeriveView` of the current state, and `SelectAll` states what selecting over it gives |
| `DashboardState.Dashboard.ShowFetched` | components/task-dashboard.tsx:29-30 | a newly fetched list replaces the tasks and keeps the selection |
| `DashboardState.Dashboard.TaskSelect` | components/task-dashboard.tsx:85-93 | `checked` gives old ∪ {id}, otherwise old \ {id}, and no other id's membership changes |
| `DashboardState.Dashboard.SelectAll` | components/task-dashboard.tsx:95-101 | the selection becomes exactly the ids of the current view, or empty. The select-all box is then checked exactly when `checked` holds and the view is non-empty |
| `DashboardState.Dashboard.ToggleSort` | components/task-dashboard.tsx:116-118 | the sort order becomes the flipped old order, so two toggles are the identity |
| `TaskStore.Matches` | app/api/tasks/route.ts:14-22 | no contract of its own. `TasksRoute.QueryFor` states which tasks match the query built from the parameters |
| `TaskStore.FindIn` | app/api/tasks/route.ts:24 | `find` never returns more records than are stored, and every record returned is stored and matches. `FindInSpec` adds order, completeness and multiplicity |
| `TaskStore.FindInSpec` | app/api/tasks/route.ts:24 | `find` returns a subsequence of the store that contains a record exactly when it is stored and matches, each with its stored multiplicity |
| `TaskStore.EmptyQueryFindsAll` | app/api/tasks/route.ts:14-24 | the empty query returns the whole store in order |
| `TaskStore.FindInDistinctIds` | app/api/tasks/route.ts:24 | records found in a store with distinct ids have distinct ids |
| `TaskStore.HexId` | app/api/tasks/route.ts:46 | a generated id is never empty |
| `TaskStore.HexRoundTrip` | app/api/tasks/route.ts:46 | reading a generated id back as a hexadecimal number gives its counter value |
| `TaskStore.HexIdInjective` | app/api/tasks/route.ts:46 | different counter values give different ids |
| `TaskStore.TaskCollection.constructor` | app/api/tasks/route.ts:24 | a new collection is empty and satisfies the store invariant: ids present, distinct, and below the counter |
| `TaskStore.TaskCollection.InsertOne` | app/api/tasks/route.ts:46 | the insert keeps ids distinct. Without an id, the record gets the fresh id made from the counter. With an unused id, the record keeps it. With a taken id, the insert fails and the store is unchanged. On success the store holds exactly one more record, whose id was not present before |
| `TasksRoute.SearchParam` | app/api/tasks/route.ts:11 | a missing or empty `search` becomes "", and any other value is kept |
| `TasksRoute.DayParam` | app/api/tasks/route.ts:12 | a missing or empty `day` becomes "all", and any other value is kept |
| `TasksRoute.QueryFor` | app/api/tasks/route.ts:14-22 | there is a retailer constraint exactly for a non-empty search, and a day constraint exactly for a day other than "all" ("today" included). A task matches exactly when its retailer contains the search and, unless the day is "all", its day contains the day text, both case-insensitively |
| `TasksRoute.BuildQuery` | app/api/tasks/route.ts:14-22 | adding fields to an empty query document one by one yields the query described by `QueryFor` |
| `TasksRoute.DefaultsListEverything` | app/api/tasks/route.ts:11-26 | with no parameters, the query is empty and every stored task is listed |
| `TasksRoute.Get` | app/api/tasks/route.ts:5-31 | status is 200 exactly when the database answers (`connected`; an invalid pattern is not modelled, see Left out), and the body then lists the matching stored tasks, with distinct ids. Otherwise the response is 500 with `{error: "Failed to fetch tasks"}` and no other shape |
| `TasksRoute.Stamp` | app/api/tasks/route.ts:39-44 | the record keeps every body field, `_id` included. `completed` is false whatever the body said, and `createdAt` and `updatedAt` are the two clock reads |
| `TasksRoute.StampIgnoresOverriddenFields` | app/api/tasks/route.ts:39-44 | two bodies that differ only in `completed`, `createdAt` or `updatedAt` produce the same record |
| `TasksRoute.Post` | app/api/tasks/route.ts:33-53 | status is 200 exactly when the connection is up, the body parses and its `_id`, if any, is not taken. The store then gains exactly the stamped record with a previously absent id: the body's own `_id` when it brings one, otherwise the next generated id. That record is echoed. Otherwise the store is unchanged and the response is 500 with `{error: "Failed to create task"}` |

## Left out

- SWR caching, the 30-second refresh interval and `mutate()` revalidation
  (components/task-dashboard.tsx:29-37). These are asynchronous library
  behaviour and timers. `Dashboard.ShowFetched` stands for a fetched list
  arriving.
- The `fetch` calls: the fetcher, the request URL built with
  `encodeURIComponent`, and `handleTaskComplete`'s PUT request
  (components/task-dashboard.tsx:16, 34, 103-114). They are network I/O.
  `searchQuery` and `dayFilter` are kept as fields, but only the request
  key uses them.
- The PUT and DELETE handlers of `/api/tasks/[id]`
  (app/api/tasks/[id]/route.ts). They are outside the modelled core, so
  update and delete semantics, including `updatedAt` refresh and 404 on a
  missing id, are not modelled.
- The MongoDB client and connection (`clientPromise`, `client.db`). Their
  availability is the `connected` parameter.
- Regular-expression semantics of `$regex`. The search text reaches the
  database unescaped, so a pattern with metacharacters behaves differently
  from the substring containment modelled here. Case folding covers ASCII
  letters only.
- TasksRoute.Get: an invalid pattern (for example `search=(`) makes `find`
  reject although the connection is up, and the handler then answers 500
  `{error: "Failed to fetch tasks"}` (app/api/tasks/route.ts:16-29). The
  model has no pattern syntax and never fails on a pattern. Its `connected`
  parameter stands for the database answering at all, so the 500 for an
  invalid pattern is only reached by passing `connected == false`.
- `Text.Compare`: locale-aware collation of `localeCompare` is replaced by
  ordinal order on character codes, a total order. The model's string sort
  order can therefore differ from a browser's.
- `TaskStore.HexId`: ids are hexadecimal renderings of a counter, not
  12-byte ObjectIds. The model does not distinguish ObjectId ids from
  string ids supplied by a client.
- `TaskStore.FindIn`: the order of `find` results is the store's natural
  order, which the model fixes as insertion order.
- The shape of an arbitrary JSON body. `TasksRoute.TaskBody` has every
  task field with its declared type. Missing fields, fields of the wrong
  type, and extra unknown fields, which the spread would also copy into
  the record, are not modelled.
- JavaScript numbers are modelled as integers: `fileCount` may not be
  fractional or `NaN`, and an unparseable date (`NaN` timestamp) is not
  modelled.
- `console.error` logging in the catch blocks.
- UI: rendering, badges, the detail modal and `handleViewMore`
  (components/task-dashboard.tsx:80-83, 120-303). Also the add-task modal
  (components/add-task-modal.tsx), which only holds form defaults and
  sends the POST body, and the login gate (app/page.tsx), a client-side
  username comparison.
