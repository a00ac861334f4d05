# construction-project-manager, modelled in Dafny

This Dafny project models the logic core of construction-project-manager.
That application manages construction projects and their work items. It has a
REST backend over an SQLite file and a React client. The core has three parts:

- **The project handlers**, `backend/src/controllers/projectController.ts`. The
  seven handlers run on an in-memory store of the two tables, the `Store` class
  in `store.dfy`. The `projects` table is a map keyed by primary key, plus the
  order in which its rows were inserted. The `work_items` table is a sequence
  in insertion order. Each handler returns a `Response`:
  - `Ok` (200), `Created` (201) or `NoContent` (204);
  - `BadRequest` (400) or `NotFound` (404);
  - `ServerError` (500), when a statement breaks a column constraint.

  The uuid a handler draws and the clock reading it takes are parameters.
- **The schema**, `backend/src/utils/database.ts`, in `schema.dfy`: the
  `NOT NULL` columns, the defaults, and the work-item insert. The once-only
  database handle is in `database.dfy`.
- **The client reducer**, `frontend/src/context/AppContext.tsx`, in
  `app_state.dfy`.

JavaScript values from a request body are `Undefined | Null | Str | Num`
(`js_values.dfy`). The same file defines truthiness (`!x`, `x || d`) and
`parseFloat` as a decimal-prefix reader. It also encodes how SQLite stores a
NaN: as NULL.

The list handler and the detail handler compute the completion figure by
different routes:
- the list handler uses SQL `SUM`/`COALESCE`/`COUNT` over a left join;
- the detail handler uses a JavaScript `reduce`.

`progress.dfy` proves that the two agree for every table.

The `updateProject` handler builds its `UPDATE` statement by successive
pushes. `project_update.dfy` proves three things about that statement:
- what it does to a row;
- that it equals the partial update the handler promises;
- that it fails exactly when the body sets `name` to `null`.

Where the handlers' checks differ from one another, the model follows the code:
- `createProject` refuses a falsy name (`!name`, projectController.ts:44),
  but `updateProject` only tests `name !== undefined` (projectController.ts:125).
  An update may therefore set the name to the empty string. Only `null` is
  refused there, by the `NOT NULL` constraint, with a 500.
- `createProjectWorkItem` does not check that quantities are non-negative.
- A quantity or price that does not parse reaches the `NOT NULL` constraint
  as NULL and gives a 500, not a 400.

## Model

| member | source | states |
|---|---|---|
| `JsValues.Truthy` | backend/src/controllers/projectController.ts:44 | `!v` holds exactly for `undefined`, `null`, `""` and `0` |
| `JsValues.Or` | backend/src/controllers/projectController.ts:58-60 | `v || d` is `v` when `v` is truthy and `d` otherwise |
| `JsValues.ParseFloat` | backend/src/controllers/projectController.ts:222-223 | a number parses to itself; `undefined` and `null` parse to NaN |
| `JsValues.TrimStart` | backend/src/controllers/projectController.ts:222-223 | the leading white space `parseFloat` skips: the result is a suffix of the input and does not start with white space |
| `JsValues.TrimSpaces` | backend/src/controllers/projectController.ts:222-223 | any run of leading white space is skipped in full |
| `JsValues.ParseUnsignedDigits` | backend/src/controllers/projectController.ts:222-223 | a run of digits followed by non-numeric text (such as `"12m"`) reads as the digits' decimal value |
| `Schema.ProjectConstraints` | backend/src/utils/database.ts:17-27 | a row within the `projects` constraints has a non-null `name` |
| `Schema.WorkItemConstraints` | backend/src/utils/database.ts:29-44 | a row within the `work_items` constraints has a non-null `name` and `unit` |
| `Schema.InsertWorkItem` | backend/src/utils/database.ts:29-44 | the insert succeeds iff name and unit are non-null and both numbers are finite (NaN binds as NULL); the row keeps the table's constraints, takes `completed_quantity` 0 and status `NOT_STARTED`, and copies every bound value (keys, name, unit, description, dates, numbers, timestamps) |
| `Progress.ItemsOf` | backend/src/controllers/projectController.ts:88 | `WHERE project_id = ?` yields exactly the table's rows with that project id |
| `Progress.Reduce` | backend/src/controllers/projectController.ts:91-92 | the JavaScript `reduce` from `acc` never falls below `acc` when no summed quantity is negative |
| `Progress.SqlSum` | backend/src/controllers/projectController.ts:12-13 | `SUM` over a project's group is NULL iff no row of the join belongs to the project |
| `Progress.SqlCount` | backend/src/controllers/projectController.ts:11 | `COUNT(wi.id)` is at most the table's size and 0 iff no row belongs to the project |
| `Progress.Round2` | backend/src/controllers/projectController.ts:28 | `Math.round(x * 100) / 100` is a whole number of hundredths within half a hundredth of `x`: above `x - 0.005`, at most `x + 0.005` |
| `Progress.Completion` | backend/src/controllers/projectController.ts:22-28 | 0 when the design total is not positive; otherwise completed over design as a percentage, rounded to a whole number of hundredths within half a hundredth of that share |
| `Progress.DetailCompletion` | backend/src/controllers/projectController.ts:91-98 | the detail figure is 0 for a project without items or without a positive design total; otherwise the reduced completed total over the reduced design total as a percentage, rounded to a whole number of hundredths within half a hundredth |
| `Progress.ListCompletion` | backend/src/controllers/projectController.ts:21-28 | the list figure is 0 for a project with no row in the join or with a summed design total that is not positive; with a positive summed design total it is the summed share as a percentage, rounded to a whole number of hundredths within half a hundredth |
| `Progress.SqlSumIsReduce` | backend/src/controllers/projectController.ts:11-15 | `COALESCE(SUM(..), 0)` over the join equals the `reduce` over the project's fetched items; the SUM is NULL iff the project has no item |
| `Progress.SqlCountIsLength` | backend/src/controllers/projectController.ts:11 | `COUNT(wi.id)` is the number of the project's items |
| `Progress.ListAgreesWithDetail` | backend/src/controllers/projectController.ts:21-30 | the list's completion percentage equals the detail handler's for every project and table |
| `Progress.Round2Bounds` | backend/src/controllers/projectController.ts:98 | rounding to hundredths keeps a value within [0, 100] |
| `Progress.Round2Exact` | backend/src/controllers/projectController.ts:98 | a value already on a hundredth is not moved by rounding |
| `Progress.CompletionBounds` | backend/src/controllers/projectController.ts:91-98 | when no item is negative or over-completed, the percentage lies in [0, 100] |
| `Progress.ReduceMonotone` | backend/src/controllers/projectController.ts:91-92 | the completed total is at most the design total when each item's is |
| `ProjectUpdate.BudgetCell` | backend/src/controllers/projectController.ts:143 | a falsy budget (0, "", null) is stored as NULL; a non-zero number is stored as itself; a truthy budget that parses is stored as its value and one that does not (NaN) as NULL |
| `ProjectUpdate.ClauseColumnInverse` | backend/src/controllers/projectController.ts:126-150 | each pushed `SET` clause names the column it was pushed for |
| `ProjectUpdate.UpdateColumnsShape` | backend/src/controllers/projectController.ts:125-150 | the statement assigns each supplied field's column exactly once and `updated_at` exactly once, last; no other column |
| `ProjectUpdate.PushIfSupplied` | backend/src/controllers/projectController.ts:125-128 | one step of the builder pushes a clause and a value exactly when the field is not `undefined` |
| `ProjectUpdate.BuildUpdate` | backend/src/controllers/projectController.ts:122-152 | `updates` lists the supplied fields' clauses in handler order then `updated_at`; `values` is one longer, with the timestamp then the id last; a field's clause is present iff the field is supplied |
| `ProjectUpdate.UpdateClausesMembership` | backend/src/controllers/projectController.ts:125-148 | a field's clause is in the statement iff the body supplies the field |
| `ProjectUpdate.AssignAll` | backend/src/controllers/projectController.ts:154 | an empty `SET` list leaves the row as it is; the assignments never change the key or `created_at` |
| `ProjectUpdate.Patch` | backend/src/controllers/projectController.ts:125-152 | the promised partial update: each supplied column takes the bound value (budget through its NULL rule), every other column keeps its value, key and `created_at` are kept, `updated_at` is `now` |
| `ProjectUpdate.RunUpdate` | backend/src/controllers/projectController.ts:154 | a successful `UPDATE` leaves the row within the table's constraints and keeps its key |
| `ProjectUpdate.PatchConstraints` | backend/src/utils/database.ts:19 | the patched row keeps the constraints iff the body does not set `name` to `null` |
| `ProjectUpdate.AssignAllColumns` | backend/src/controllers/projectController.ts:154 | running the built clauses with their values assigns the columns in turn |
| `ProjectUpdate.ApplyUpdateColumns` | backend/src/controllers/projectController.ts:125-152 | the assigned columns replace exactly the supplied fields (budget through its NULL rule) and refresh `updated_at` |
| `ProjectUpdate.UpdateStatementIsPatch` | backend/src/controllers/projectController.ts:121-156 | the built statement performs the promised partial update, and fails iff the body sets `name` to `null` |
| `ProjectStore.Erase` | backend/src/controllers/projectController.ts:170 | removing a key leaves exactly the other keys |
| `ProjectStore.NewProject` | backend/src/controllers/projectController.ts:52-65 | the inserted row keeps the constraints; status `PLANNING` when none is given; a truthy description, date or status is stored as given and a falsy one as NULL; the budget through its NULL rule; both timestamps `now` |
| `ProjectStore.WorkItemRow` | backend/src/controllers/projectController.ts:216-228 | the bound parameters: the fresh id, the route's project id, name and unit as given, falsy description and dates as NULL and truthy ones as given, quantity and price as `parseFloat` of the body field (a number as itself, a string by its decimal prefix), both timestamps `now` |
| `ProjectStore.ProjectsValid` | backend/src/utils/database.ts:17-27 | the invariant of the `projects` table (keys matching rows and listed once in insertion order, `name` not null, timestamps not after the clock) is the body; the ensures states only a corollary: the first-inserted row is not newer than the last-inserted one |
| `ProjectStore.OrderCardinality` | backend/src/utils/database.ts:17 | in a valid `projects` table each stored project is listed once: the number of projects is the length of the insertion order |
| `ProjectStore.ItemsValid` | backend/src/utils/database.ts:29-44 | in a valid `work_items` table no two rows share a key, and every row has a non-null name and unit |
| `ProjectStore.Group` | backend/src/controllers/projectController.ts:11-16 | a joined row is its project's; its count is 0 iff no work item belongs to the project, and then both totals are 0 |
| `ProjectStore.GroupBy` | backend/src/controllers/projectController.ts:9-18 | the grouped rows are one per project, in reverse insertion order |
| `ProjectStore.WithProgress` | backend/src/controllers/projectController.ts:21-30 | the list row keeps the joined row; its percentage is 0 without a positive design total, otherwise the share of the totals rounded to a whole number of hundredths within half a hundredth |
| `ProjectStore.ListProjects` | backend/src/controllers/projectController.ts:9-30 | the list response has one entry per project, newest-inserted first, each holding that project's joined row |
| `ProjectStore.GroupAgrees` | backend/src/controllers/projectController.ts:9-30 | a joined row's count, totals and percentage are those of the project's own items, all 0 without items |
| `ProjectStore.ListedRows` | backend/src/controllers/projectController.ts:9-18 | the list holds each stored project exactly once, ordered by `created_at` descending |
| `ProjectStore.ListedFigures` | backend/src/controllers/projectController.ts:21-30 | every listed project carries the figures of its own items |
| `ProjectStore.ItemsOfSorted` | backend/src/controllers/projectController.ts:189 | filtering a table kept in creation order yields items in creation order |
| `ProjectStore.ProjectsInsert` | backend/src/controllers/projectController.ts:52-65 | inserting a new project row keeps the `projects` invariants (unique keys, constraints, creation order) |
| `ProjectStore.ProjectsReplace` | backend/src/controllers/projectController.ts:154 | replacing a row by its update keeps the `projects` invariants |
| `ProjectStore.ProjectsErase` | backend/src/controllers/projectController.ts:170 | deleting a row keeps the `projects` invariants |
| `ProjectStore.ItemsAppend` | backend/src/controllers/projectController.ts:213-228 | appending a new work item keeps the `work_items` invariants |
| `ProjectStore.ExecUpdate` | backend/src/controllers/projectController.ts:154 | `UPDATE ... WHERE id = ?` keeps the set of keys and changes no row but the one the last bound value names |
| `ProjectStore.ExecBuiltUpdate` | backend/src/controllers/projectController.ts:121-156 | on a stored, valid row, the statement the builder produces fails iff the body sets `name` to `null`, and otherwise replaces that row by the promised partial update |
| `ProjectStore.UpdateOutcome` | backend/src/controllers/projectController.ts:121-157 | on a stored row of a valid table, the built statement fails iff the body sets `name` to `null`, and otherwise stores the patched row and keeps the table valid |
| `ProjectStore.Store.constructor` | backend/src/utils/database.ts:16-44 | the tables start empty and valid |
| `ProjectStore.Store.GetAllProjects` | backend/src/controllers/projectController.ts:6-32 | every project exactly once, newest first, each with its item count, its totals and the detail handler's percentage |
| `ProjectStore.Store.CreateProject` | backend/src/controllers/projectController.ts:42-68 | a falsy name gives 400 and writes nothing; a key in use gives 500; otherwise the new row with its defaults is stored and returned with 201 |
| `ProjectStore.Store.GetProjectById` | backend/src/controllers/projectController.ts:78-101 | 404 for an unknown id; otherwise the row, exactly its items, and their completion figure |
| `ProjectStore.Store.UpdateProject` | backend/src/controllers/projectController.ts:111-157 | 404 for an unknown id and nothing written; 500 and nothing written when the body sets `name` to `null`; otherwise exactly the partial update, returned |
| `ProjectStore.Store.DeleteProject` | backend/src/controllers/projectController.ts:167-176 | 404 when no row is removed; otherwise only that project row goes and the work items stay |
| `ProjectStore.Store.GetProjectWorkItems` | backend/src/controllers/projectController.ts:186-190 | exactly the items with that project id, oldest first; an unknown id gives an empty list, not 404 |
| `ProjectStore.Store.CreateProjectWorkItem` | backend/src/controllers/projectController.ts:200-231 | 400 iff name or unit is falsy or a quantity or price is `undefined`; 500 iff validation passes and the key is in use or a number does not parse; nothing is written unless 201; on 201 the row is appended under the route's project id, which is not looked up |
| `ProjectStore.DeleteThenListItems` | backend/src/controllers/projectController.ts:170-189 | after deleting a project, listing its work items still returns all of them |
| `ProjectStore.WorkItemInsertFails` | backend/src/controllers/projectController.ts:213-228 | once name and unit are present, the insert fails iff the quantity or the price is NaN |
| `ProjectStore.ZeroQuantityAccepted` | backend/src/controllers/projectController.ts:203 | a zero design quantity passes validation and is stored, with completed quantity 0 and status `NOT_STARTED` |
| `Database.Connection.constructor` | backend/src/utils/database.ts:5 | the handle starts unset |
| `Database.Connection.InitializeDatabase` | backend/src/utils/database.ts:7-13 | the store is set only when no handle is set; otherwise the existing handle is returned unchanged |
| `Database.Connection.GetDatabase` | backend/src/utils/database.ts:92-97 | fails iff no handle is set, else returns the handle |
| `Database.InitialiseTwice` | backend/src/utils/database.ts:7-13 | a second initialisation returns the first store, and `getDatabase` returns it too |
| `Database.GetBeforeInitialise` | backend/src/utils/database.ts:92-95 | `getDatabase` fails before initialisation |
| `AppState.AppReducer` | frontend/src/context/AppContext.tsx:35-68 | only `SET_LOADING` can leave the state loading; only `SET_ERROR` touches the error; only the work-item actions touch the work items; the loading, error and work-item actions keep projects and current project |
| `AppState.ReplaceById` | frontend/src/context/AppContext.tsx:52 | the map keeps length and order and replaces exactly the elements whose id equals the payload's |
| `AppState.WithoutId` | frontend/src/context/AppContext.tsx:59 | the filter keeps exactly the projects whose id differs |
| `AppState.InitialStateEmpty` | frontend/src/context/AppContext.tsx:26-32 | empty lists, no current project, no error, not loading |
| `AppState.LoadingFlag` | frontend/src/context/AppContext.tsx:37-64 | `SET_LOADING` changes only `loading`; every other action leaves `loading` false |
| `AppState.SetActionsReplaceOneField` | frontend/src/context/AppContext.tsx:39-46 | each `SET_*` action replaces its own field and `loading`, nothing else |
| `AppState.SetErrorKeepsData` | frontend/src/context/AppContext.tsx:40 | `SET_ERROR` sets the error, clears `loading` and keeps projects, current project and work items |
| `AppState.AddAppends` | frontend/src/context/AppContext.tsx:47-64 | `ADD_PROJECT` and `ADD_WORK_ITEM` append the payload; the old list is a prefix of the new one |
| `AppState.UpdateProjectEffect` | frontend/src/context/AppContext.tsx:49-55 | `UPDATE_PROJECT` keeps the list's length and order, replaces exactly the elements with the payload's id, and makes the payload current iff the current id (undefined when none) equals the payload's |
| `AppState.UpdateWithoutIdBecomesCurrent` | frontend/src/context/AppContext.tsx:53 | with no current project, a payload without an id becomes current |
| `AppState.DeleteProjectEffect` | frontend/src/context/AppContext.tsx:56-62 | `DELETE_PROJECT` removes exactly the projects with that id and clears the current project iff its id matches |
| `AppState.WithoutIdAppend` | frontend/src/context/AppContext.tsx:59 | the filter distributes over concatenation, so the survivors keep their relative order |
| `AppState.WithoutIdSingle` | frontend/src/context/AppContext.tsx:59 | a single project is kept iff its id differs |
| `AppState.WithoutIdAbsent` | frontend/src/context/AppContext.tsx:59 | a list without that id is left as it is |
| `AppState.DeleteIdempotent` | frontend/src/context/AppContext.tsx:56-62 | deleting twice with the same id is deleting once |
| `AppState.UpdateIdempotent` | frontend/src/context/AppContext.tsx:49-55 | updating twice with the same payload is updating once |

## Left out

- HTTP plumbing. The Express app, the routes, the JSON bodies and the 404
  fallback are not part of this model. A handler's response is its `Response`
  value.
- `getDatabase()` failing inside a handler before initialisation is not
  modelled. The handlers run on an initialised store, and the guard is
  modelled on its own in `Database`.
- Other storage failures are not modelled: an unreachable file, a locked
  database, a crash between statements. Only constraint violations give a 500.
- The clock. `new Date().toISOString()` is a natural-number reading passed in
  and required not to run backwards. ISO strings sort as their instants, so
  `ORDER BY created_at` is modelled on those readings. For rows with equal
  times the model fixes one of the orders SQLite may return. The project list
  (`ORDER BY p.created_at DESC`) shows them newest-inserted first, since it is
  the insertion order reversed. The work-item list (`ORDER BY created_at ASC`)
  shows rows with equal `created_at` in insertion order. The detail handler's
  item query has no `ORDER BY`, and its items come in table order.
- `uuidv4()`. The fresh key is a parameter. A collision is not excluded: it
  fails the insert with a 500.
- IEEE floating point. Quantities, totals and percentages are reals, and
  `Math.round(x * 100) / 100` is `floor(x * 100 + 1/2) / 100`. The model
  does not capture binary rounding of the division.
- `JsValues.ParseFloat` does not model `"Infinity"`, overflow to infinity, or
  white space beyond the common ASCII and Latin-1 spaces and the byte-order
  mark. Converting an object or array argument to a string is also left out:
  request fields are strings, numbers, `null` or absent.
- SQLite type affinity is not modelled. A number bound to a `TEXT` column,
  such as `name: 5`, is stored and returned by SQLite as the text `'5'`; the
  model keeps it as the number 5. A date is not validated.
- Columns the handlers never write keep their JavaScript value. An insert
  always binds both timestamps, so the `CURRENT_TIMESTAMP` defaults are not
  modelled.
- The `materials`, `equipment` and `workers` tables are not modelled: no
  handler uses them.
- The foreign key on `work_items.project_id` is not modelled, because SQLite
  does not enforce it by default. No cascade is declared either.
- Client types hold only `id`, `name`, `description` and `status` of a
  project, and `id`, `projectId`, `name` and `unit` of a work item. The
  reducer reads nothing but `id`.
- The reducer's `default` branch is not modelled: the action type is closed.
- The React context, provider and hook are not modelled.
- Concurrency between requests is not modelled. Each handler runs as one step
  on the store.
