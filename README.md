# Task list page of a task-tracking client

This project models the state of the `Task` page of a React task-tracking
client (`src/components/Task.js`). The page keeps six pieces of state:

- the task list as last fetched from the server (`allTasks`);
- the rows shown after searching (`filteredTasks`);
- the draft of the create and edit forms (`formData`, with a title and a description);
- whether the create form is open (`notice`);
- whether the edit form is open (`showEdit`);
- the id of the task chosen for editing (`editId`).

Event handlers change this state: fetching the list, typing into a form,
creating, deleting and updating a task, opening a task for editing,
searching, and the buttons that open and close the forms.

The model has five modules:

- `Wrappers` (`wrappers.dfy`): the `Option` type that carries the outcome
  of a fetch that may fail.
- `Text` (`text.dfy`): ASCII lower-casing (`LowerStr`) and substring
  containment (`Includes`), the stand-ins for `toLowerCase` and `includes`.
  `Includes` is proved equivalent to "occurs at some position".
- `TaskSearch` (`search.dfy`): the task record, the search predicate
  `Matches` and the search itself, `Filter`. `Filter` is proved equal to an
  independent description, `IsSearchResult`: the order-preserving
  subsequence that keeps every copy of every matching task and nothing
  else. It is also proved to be the only such result. Further lemmas cover
  the empty query, case-insensitivity, narrowing and broadening a query,
  and idempotence.
- `TaskPage` (`component.dfy`): the class `TaskComponent` with the six
  fields and one method per handler. Each server call is replaced by a
  parameter holding its outcome:
  - `Option<seq<Task>>` for the list fetch;
  - `Option<Task>` for the single-task fetch;
  - `bool` for create, update and delete.
  
  Two ghost fields support the contracts. `requests` logs every server
  call a handler issues, with its payload. `viewQuery` is the query the
  shown rows reflect. The invariant `Valid()` states that the shown rows
  are always `Filter(allTasks, viewQuery)`.
- `TaskScenarios` (`scenarios.dfy`): sequences of events checked against
  the handlers' contracts alone.

The model follows the code as written, including where it behaves
differently from what a user might expect:

- A successful list fetch sets the shown rows to the whole list and does
  not re-apply the query still typed in the search box. One might expect
  the query to be re-applied.
- A successful edit closes the form but keeps the draft and `editId`. One
  might expect both to be cleared.
- Choosing Edit opens the edit form before the task is fetched, and the
  form stays open if the fetch fails. One might expect it to open only once
  the task has arrived.
- The task is fetched only when `editId` changes. Choosing Edit, Cancel,
  then creating a task empties the draft; choosing the same task again
  then opens an empty form, and saving it sends that empty draft
  (`TaskScenarios.EditSameTaskTwice`).
- Grouping by status (TODO / IN_PROGRESS / DONE) does not occur in this
  file, so it is not modelled.

## Model

| member | source | states |
|---|---|---|
| Text.LowerStr | src/components/Task.js:98-101 | the lower-cased text has the same length as the input, each character lower-cased in place (ASCII letters only) |
| Text.LowerStrIdempotent | src/components/Task.js:98-101 | lower-casing an already lower-cased string changes nothing |
| Text.Includes | src/components/Task.js:100-101 | `includes` never holds for a query longer than the text, and for a query as long as the text it holds exactly when the two are equal |
| Text.IncludesIff | src/components/Task.js:100-101 | `includes` holds exactly when the query occurs at some position of the text |
| Text.IncludesEmpty | src/components/Task.js:100-101 | every text includes the empty query |
| Text.IncludesSelf | src/components/Task.js:100-101 | every text includes itself |
| Text.IncludesTransitive | src/components/Task.js:100-101 | if a text includes a query and that query includes a shorter one, the text includes the shorter one |
| Text.IncludesFirstChar | src/components/Task.js:100-101 | a text that includes a non-empty query contains the query's first character |
| TaskSearch.Matches | src/components/Task.js:99-102 | the filter callback (lower-cased title or lower-cased description includes the lower-cased query) never accepts a query longer than both the title and the description |
| TaskSearch.MatchesIff | src/components/Task.js:99-102 | a task matches exactly when the lower-cased query occurs at some position of its lower-cased title or of its lower-cased description |
| TaskSearch.Filter | src/components/Task.js:99-102 | every kept task matches, every matching task of the list is kept, nothing outside the list appears, and the result is no longer than the list |
| TaskSearch.FilterIsSearchResult | src/components/Task.js:99-103 | the filter's output is an order-preserving subsequence of the list holding every copy of each matching task and no other task |
| TaskSearch.SearchResultUnique | src/components/Task.js:99-103 | any order-preserving subsequence with exactly those counts is the filter's output, so the search result is unique |
| TaskSearch.SubsequenceMultiset | src/components/Task.js:99-103 | a subsequence holds no more copies of any task than the list it comes from |
| TaskSearch.FilterEmptyQuery | src/components/Task.js:97-103 | an empty query keeps the whole list, in order |
| TaskSearch.MatchesWeaker | src/components/Task.js:99-102 | a task matching a query matches every query whose lower-cased text the first one includes |
| TaskSearch.FilterNarrowing | src/components/Task.js:99-103 | filtering a broad query's result by a narrower query gives the narrow query's result on the whole list |
| TaskSearch.FilterIdempotent | src/components/Task.js:99-103 | searching the search result again with the same query changes nothing |
| TaskSearch.FilterBroadening | src/components/Task.js:99-103 | the narrow query's rows are an order-preserving part of a broader query's rows, so broadening never hides a task |
| TaskSearch.FilterCaseInsensitive | src/components/Task.js:98-101 | a query and its lower-cased form keep the same tasks |
| TaskPage.DraftOf | src/components/Task.js:91 | the draft filled from a fetched task keeps only its title and description: putting the task's id and dates back rebuilds the task exactly |
| TaskPage.TaskComponent.constructor | src/components/Task.js:6-18 | on mount both forms are closed, `editId` and the draft are empty, one list fetch is issued, and both lists are the fetched list (empty if the fetch fails) |
| TaskPage.TaskComponent.GetAllTasks | src/components/Task.js:20-29 | on success both lists become the fetched list and the active query is dropped; on failure both lists are unchanged; one list fetch is issued and nothing else changes |
| TaskPage.TaskComponent.HandleChange | src/components/Task.js:31-37 | exactly the named field of the draft becomes the typed value; the other field and all other state are unchanged |
| TaskPage.TaskComponent.HandleSubmit | src/components/Task.js:39-58 | the draft is sent; on success the create form closes, the draft is emptied and the list is fetched once; on failure the form state and draft are unchanged |
| TaskPage.TaskComponent.HandleDelete | src/components/Task.js:60-69 | the delete is sent for the given id; on success exactly one list fetch follows; otherwise the lists are unchanged; forms, draft and `editId` are never touched |
| TaskPage.TaskComponent.HandleEditSubmit | src/components/Task.js:71-82 | the draft is sent for `editId`; on success the edit form closes and the list is fetched once, keeping the draft and `editId`; on failure the edit form stays as it was |
| TaskPage.TaskComponent.EditIdEffect | src/components/Task.js:84-95 | with a non-empty `editId` the task is fetched and, on success, copied into the draft; with an empty one nothing is fetched; a failed fetch leaves the draft unchanged |
| TaskPage.TaskComponent.OpenEdit | src/components/Task.js:156-159 | `editId` becomes the row's id and the edit form opens; the task is fetched into the draft only when the id changed |
| TaskPage.TaskComponent.HandleSearch | src/components/Task.js:97-104 | the shown rows become the search result over the whole list, whatever was shown before, and are a subsequence of it; no other state changes |
| TaskPage.TaskComponent.ToggleNotice | src/components/Task.js:111-114 | "Add New Task" flips the create form's flag and changes nothing else |
| TaskPage.TaskComponent.CancelCreate | src/components/Task.js:236-242 | Cancel on the create form closes it and keeps the draft |
| TaskPage.TaskComponent.CancelEdit | src/components/Task.js:294-300 | Cancel on the edit form closes it and keeps the draft and `editId` |
| TaskScenarios.ShipMatches | src/components/Task.js:98-101 | the query "SHIP" and the query "ship" both match the task titled "Ship" |
| TaskScenarios.MilkMisses | src/components/Task.js:98-101 | neither "SHIP" nor "ship" matches the task titled "Milk" with an empty description |
| TaskScenarios.SearchThenRefresh | src/components/Task.js:97-104 | with tasks "Milk" and "Ship", searching "SHIP" shows only "Ship", searching "" shows both again, and a later successful fetch shows the whole list although "ship" was the last query |
| TaskScenarios.EditSameTaskTwice | src/components/Task.js:84-95 | editing "Milk" fills the draft from it; after Cancel and a create, choosing "Milk" again issues no fetch, so the edit form shows an empty draft and the update sends it |
| TaskScenarios.CreateFailsThenRetry | src/components/Task.js:39-58 | after a failed create the form stays open with the typed draft, and the retry sends that same draft |

## Left out

- HTTP transport: URLs, axios calls and response parsing are replaced by outcome parameters. The server's behaviour is not modelled, so no property relates a create to the contents of the next fetched list.
- `alert` and `console` output, all markup and styling, and the pager buttons, which have no handlers.
- React scheduling: state updates are applied in order, at once. Overlapping requests, and a slow fetch overwriting a newer one, are not modelled.
- The edit form submits without `preventDefault`. The browser's native form submission that follows is navigation and is not modelled.
- Lower-casing covers ASCII letters only. Full Unicode `toLowerCase` is not modelled.
- TaskPage.TaskComponent.EditIdEffect: the draft keeps only the fetched task's title and description. The source copies the whole task object into the draft, with its id and dates. Those extra fields are never shown or edited. They are sent with every update or create issued while the draft still holds them, until a successful create empties the draft or another task is fetched into it (see the next line).
- TaskPage.TaskComponent.HandleSubmit: the logged `Create` request holds only the draft's title and description. After an edit is saved or cancelled, the shared draft still holds the whole fetched task. A create started then posts that object, so the request also carries the edited task's `_id`, dates and status.
- TaskPage.TaskComponent.HandleChange: the field name is one of the two inputs. The source's `[name]: value` would accept any name, but only `title` and `description` inputs exist.
- A task without a title makes the source's search throw. A task without a description makes it throw only when its title does not include the query, because `||` skips the description test otherwise. Here every task has both fields as strings.
- The text of the search box is browser input state, not component state. Only the query that the shown rows reflect is kept, as the ghost `viewQuery`.
- src/components/Navbar.js, src/components/CheckAuth.js, src/App.js and src/components/Layout.js: routing, session-token checks and layout are not part of this model.
