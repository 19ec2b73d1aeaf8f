# Todo server core, modelled in Dafny

This project models the server side of a small todo application. Each user has a table of
todos. A todo is either top-level or a subtask of a top-level todo, so nesting is one level deep.

The model covers these parts:

- **`TodoService`.** It has an ownership-checked lookup and the parent validation. It maps
  PostgreSQL foreign-key errors to application errors. Its operations are create, list, get,
  partial update, cascading delete and an all-or-nothing bulk reorder.
- **The older `/todos` router.** It works on the session directly. Its create and update let
  different exceptions through than the service's do.
- **The list query of both routers.** It is an outer join of each top-level todo with its
  subtasks, then the optional filters, `ORDER BY` and `OFFSET`/`LIMIT` on the joined rows. The
  page is then regrouped into nested todos.
- **The two parsers of PostgreSQL error text** and the three application exception classes
  with their status codes.
- **The `Todo` row, its status enum, the request and response schemas and their defaults.**

The database is the class `Store.TodoStore`. It holds a map from id to row and the next
serial id. Its methods check the NOT NULL and foreign-key constraints and stamp `modified_at`
on changed rows. `Delete` removes the todo and, by the ORM cascade, its subtasks.

Every operation that changes the table has a spec function. It takes the table before the
call and returns the outcome and the table after it. The method is proved equal to that
function. The lemmas state what the source promises about the function:

- ownership masking;
- the parent checks and their order;
- the error mapping;
- the partial-update semantics;
- reorder's all-or-nothing validation, its effect and its idempotence;
- the invariants "nesting is at most one level deep" and "a subtask has its parent's owner";
- what a listing returns.

The loops of the source are loops here. They are the two passes of `_nest_subtasks`, the
`setattr` loop of the updates, and the reorder loops that collect ids, compare parents,
build the order mapping and assign orders. Each carries the invariants that tie it to its
specification.

Files:

- `wrappers.dfy`: Option and Result.
- `text.dfy`: the parts of Python's `str` the code uses.
- `exceptions.dfy`: the exceptions and the parsers.
- `models.dfy`: the row.
- `schemas.dfy`: the request and response shapes.
- `store.dfy`: the table.
- `grouping.dfy`: the regrouping.
- `listing.dfy`: the list queries.
- `service.dfy`: `TodoService`.
- `legacy.dfy`: the older router.

Behaviour of the code that the model keeps as written:

- `total_count` counts the joined rows before OFFSET/LIMIT (server/app/services/todos.py:211-214),
  so a todo with N subtasks counts N times. `Listing.ListTodosSpec` states the count for every
  table and `Listing.RowCountExample` shows one.
- OFFSET/LIMIT apply to the joined rows (server/app/services/todos.py:217), so one page can hold
  part of a todo's subtasks and the next page the rest (`Listing.SplitPageExample`).
- Update checks only the new parent (server/app/services/todos.py:280-284), never whether the
  moved todo has subtasks of its own. It can therefore make a subtask of a subtask
  (`Service.UpdateBreaksDepth`). One-level nesting is proved to hold after create, after
  reorder, and after an update that moves a todo without subtasks.
- The named parent of a reorder is only looked up (server/app/services/todos.py:360-366). It is
  not checked to be top-level (`Service.ReorderCheckSpec`).
- A `parent_id` filter in the listing never matches, because it is combined with
  `parent_id IS NULL` (server/app/services/todos.py:190,198-199; `Listing.ParentIdFilterFindsNothing`).
- The service's create with `parent_id` 0 skips the parent check and fails the foreign key
  (server/app/services/todos.py:142-157; `Service.CreateWithParentZero`).

## Model

| member | source | states |
|---|---|---|
| Exceptions.StatusCodes | server/app/core/exceptions.py:34-46 | BaseAppException keeps its message and defaults to 500. ResourceNotFoundException is always 404. ValidationException defaults to 400. An explicit status code is kept. |
| Exceptions.ConstraintAtIff | server/app/core/exceptions.py:29-32 | The anchored pattern `constraint\s+"([^"]+)"` yields `name` exactly when the text is "constraint", at least one whitespace, then a quoted non-empty name without quotes. |
| Exceptions.SearchConstraintLeftmost | server/app/core/exceptions.py:29-32 | `re.search` finds nothing exactly when no position matches. Otherwise it returns the group of the leftmost matching position. |
| Exceptions.ExtractConstraintNameSpec | server/app/core/exceptions.py:29-32 | The extracted name is the group of the leftmost match. It is "unknown" when nothing matches. |
| Exceptions.ConstraintAfterPlainPrefix | server/app/core/exceptions.py:29-32 | A message whose text before `constraint "<name>"` has no 'c' yields `name`. |
| Exceptions.ExtractUniqueViolationDetails | server/app/core/exceptions.py:7-27 | The derived field name is never empty. A constraint name ending in `_<field>_key` gives `field`, or "unknown" when that part is empty. |
| Exceptions.KeyFieldConvention | server/app/core/exceptions.py:13-19 | A constraint named `<prefix>_<field>_key` gives the field `field`, e.g. `users_email_key` gives `email`. |
| Exceptions.UnderscoreKeyIsUnknown | server/app/core/exceptions.py:15-27 | The name `_key` gives an empty field. That skips the Detail fallback, so the result is "unknown". |
| Exceptions.UniqueViolationField | server/app/core/exceptions.py:13-27 | A unique violation on a constraint named `<prefix>_<field>_key` reports `field`, for example `users_email_key` gives `email`. |
| Exceptions.DetailFallback | server/app/core/exceptions.py:21-27 | Without a `_key` field, the result is the first comma-separated, trimmed entry of `Detail: Key (...)`. It is "unknown" when there is no such text or the entry trims to empty. |
| Text.Strip | server/app/services/todos.py:200-201 | `str.strip()`: the text with leading and trailing whitespace removed and nothing else. It is empty exactly when the text is all whitespace. |
| Text.Split | server/app/api/endpoints/todos.py:94 | `str.split(',')`: at least one part, no part holds the separator, and joining the parts back gives the text. |
| Text.SplitJoin | server/app/api/endpoints/todos.py:94 | Splitting a join of separator-free parts gives back exactly those parts. |
| Text.NatTextValue | server/app/services/todos.py:101 | The decimal text written for an id reads back as that id. |
| Text.IntText | server/app/services/todos.py:101 | `str(n)` is never empty. It is the digits of `n`, with a minus sign before negative numbers. |
| Models.StatusValuesRoundTrip | server/app/models/todos.py:7-10 | Each of the three statuses parses back from its string value. |
| Models.ParseStatus | server/app/models/todos.py:7-10 | A parsed status has the given string as its value. |
| Models.NewTodo | server/app/models/todos.py:12-29 | A row built from the title and the owner has status pending, is not bookmarked, has order 0 and has no parent. |
| Schemas.TodoCreateWithDefaults | server/app/schemas/todos.py:6-14 | A `TodoCreate` with only a title defaults to pending, not bookmarked, order 0 and no parent. |
| Schemas.ResponseOf | server/app/schemas/todos.py:23-28 | A `TodoResponse` carries the row's columns, and `subtasks` defaults to the empty list. |
| Schemas.DefaultFilter | server/app/schemas/todos.py:36-41 | Every filter field is absent, and `columns` defaults to the tuple `(None,)`. |
| Schemas.DefaultPagination | server/app/schemas/todos.py:43-47 | Page 1, page size 10, ordered by "created_at", direction "desc". |
| Store.ForeignKeyViolationNamesConstraint | server/app/models/todos.py:29 | PostgreSQL's report of a bad `parent_id` names the constraint `todos_parent_id_fkey`, as the parser reads it. |
| Store.Closure | server/app/models/todos.py:33-39 | The cascade set contains the start set, lies within the table and holds every subtask of its members. |
| Store.ClosureLeast | server/app/models/todos.py:33-39 | The cascade set is the least such set: every closed superset of the start contains it. |
| Store.Cascade | server/app/models/todos.py:33-39 | Deleting a todo removes the todo, its subtasks, and every row whose parent is removed. |
| Store.DeleteKeepsWellFormed | server/app/models/todos.py:28-39 | After a cascading delete, every remaining `parent_id` still references a remaining row. |
| Store.CascadeStaysWithOwner | server/app/models/todos.py:33-39 | When subtasks share their parent's owner, a cascade removes only rows of the deleted todo's owner. |
| Store.InsertResult | server/app/models/todos.py:15-29 | An INSERT fails the foreign key exactly when `parent_id` names no row, and then leaves the table as it was. Otherwise it adds one row with a fresh id and both timestamps set to now. Either way the serial advances by one, because a sequence value is not returned on rollback. |
| Store.Stamp | server/app/models/todos.py:23-25 | `onupdate=now()`: a row that the commit changes gets `modified_at` now. Unchanged rows stay as they are. |
| Store.FlushResult | server/app/models/todos.py:15-29 | An UPDATE fails on a null in a NOT NULL column or an unknown parent, and then changes nothing. Otherwise it writes the row, stamped. |
| Store.TodoStore.constructor | server/app/models/todos.py:12-15 | The table starts empty, with the serial at 1. |
| Store.TodoStore.Insert | server/app/services/todos.py:145-151 | `add` and `commit` have the effect of InsertResult on the table and the serial, and keep the table well formed. |
| Store.TodoStore.Flush | server/app/services/todos.py:291-292 | `commit` after assignments has the effect of FlushResult on the table. |
| Store.TodoStore.CommitRows | server/app/services/todos.py:385 | `commit` of staged rows writes them, stamped by Stamp. |
| Store.TodoStore.Delete | server/app/services/todos.py:320-321 | `delete` and `commit` remove the cascade of the todo and keep the table well formed. |
| Grouping.ParentIdsSpec | server/app/services/todos.py:112-125 | The parents are each distinct id once, exactly the ids that occur, in order of first appearance. |
| Grouping.OnlyNullRowsGiveNoSubtasks | server/app/services/todos.py:119-120 | A parent seen only with a null subtask gets the empty list. |
| Grouping.SubtasksOfAppend | server/app/services/todos.py:119-120 | A parent's subtasks over two runs of rows are the first run's subtasks followed by the second's. |
| Grouping.NestSpec | server/app/api/endpoints/todos.py:26-40 | One item per distinct parent, in first-seen order, with that parent's record from its first row. Each item's subtasks are exactly the non-null subtasks paired with it, in row order. The older router's copy of the grouping is the same. |
| Grouping.NestShowsRows | server/app/services/todos.py:103-125 | Regrouping loses no row and invents none. Every row's parent is an item carrying that row's subtask, and every item and each of its subtasks comes from a row. |
| Grouping.CollectPairs | server/app/services/todos.py:115-120 | The first loop leaves each parent in the dict once, in first-seen order, with the subtask list of every parent that has one. |
| Grouping.MergeSubtasks | server/app/services/todos.py:122-123 | The second loop gives every parent exactly its collected subtasks. |
| Grouping.NestSubtasks | server/app/services/todos.py:103-125 | `_nest_subtasks` returns Nest of its input. |
| Listing.TopLevelIds | server/app/services/todos.py:190 | The ids of exactly the caller's top-level todos, ascending. |
| Listing.JoinRowsSpec | server/app/services/todos.py:187-190 | The join holds exactly the rows of the outer join: an owned top-level todo with each of its subtasks, or with null when it has none. |
| Listing.SearchTerm | server/app/services/todos.py:200-201 | The search is used exactly when it is given and not blank. It is then trimmed and non-empty. |
| Listing.Where | server/app/services/todos.py:193-202 | A row is kept exactly when its parent passes the status, bookmark, `parent_id` and search filters. |
| Listing.OrderColumn | server/app/services/todos.py:205 | `order_by` names a column of the table, or falls back to `order`. |
| Listing.TextCmpTrans | server/app/services/todos.py:204-209 | The text order is transitive, so ORDER BY on titles is a total preorder. |
| Listing.TodoCmpFlip | server/app/services/todos.py:204-209 | ORDER BY is antisymmetric: swapping two todos negates the comparison. |
| Listing.TodoCmpTrans | server/app/services/todos.py:204-209 | ORDER BY is transitive. |
| Listing.InsertRow | server/app/services/todos.py:204-209 | Inserting a row into an ordered sequence keeps it ordered and adds exactly that row. |
| Listing.SortRows | server/app/services/todos.py:204-209 | The sorted rows are a permutation of the input and are ordered. |
| Listing.Window | server/app/services/todos.py:216-217 | OFFSET/LIMIT fail on a negative value. Otherwise they give the rows from the offset on, at most `limit` of them. |
| Listing.SelectedSpec | server/app/services/todos.py:187-209 | The selected rows are exactly the join rows passing the filters, in the requested order. |
| Listing.SelectedOnce | server/app/services/todos.py:187-214 | The selected rows hold each matching join row exactly once, so their number, the `count(*)` of the query, is the number of matching join rows. |
| Listing.JoinRowsNoRepeats | server/app/services/todos.py:187-190 | The outer join has no repeated row. |
| Listing.PageOfWindow | server/app/services/todos.py:217-223 | Regrouping the OFFSET/LIMIT window shows every selected row at positions OFFSET to OFFSET+LIMIT. Every item and subtask comes from such a row. |
| Listing.ListTodosSpec | server/app/services/todos.py:164-232 | The listing fails, with the generic error, exactly when OFFSET or LIMIT is negative. Otherwise it echoes page and page size. `total_count` is the number of matching join rows. The items show every selected row at positions OFFSET to OFFSET+LIMIT, and every item and subtask comes from such a row. There are at most `page_size` items, each an owned top-level todo passing the filters with only its own subtasks, in the requested order. |
| Listing.ParentIdFilterFindsNothing | server/app/services/todos.py:187-199 | A `parent_id` filter together with `parent_id IS NULL` gives no items and a count of 0. |
| Listing.RowCountExample | server/app/services/todos.py:211-223 | A todo with two subtasks counts 2 in `total_count`, and one page holds the todo with both subtasks. |
| Listing.SplitPageExample | server/app/services/todos.py:216-223 | With page size 1 the same todo appears on pages 1 and 2, with a different subtask each time. |
| Listing.StripAll | server/app/api/endpoints/todos.py:94 | Each requested column name is trimmed. |
| Listing.InvalidColumns | server/app/api/endpoints/todos.py:101-102 | The invalid names are exactly the requested names that are not `TodoResponse` fields. |
| Listing.WithId | server/app/api/endpoints/todos.py:96-98 | "id" is appended when it is missing, and the requested names keep their order. |
| Listing.CheckColumns | server/app/api/endpoints/todos.py:100-108 | The check passes exactly when every name is a `TodoResponse` field. Otherwise it fails with a 400 ValidationException. |
| Listing.RequestedColumns | server/app/api/endpoints/todos.py:91-108 | The default tuple fails with the generic error, and an empty text keeps the default columns. Otherwise the names are split, trimmed and extended with "id", and the request fails exactly when one of them is not a field. |
| Listing.LegacyListSpec | server/app/api/endpoints/todos.py:82-168 | The older listing fails with the column error, or when OFFSET or LIMIT is negative. Otherwise it returns at most `page_size` owned top-level todos passing the filters. They show exactly the selected rows at positions OFFSET to OFFSET+LIMIT. |
| Listing.LegacyListOrder | server/app/api/endpoints/todos.py:130-153 | The older listing orders by `order` descending first, then by the requested column. |
| Service.GetTodoById | server/app/services/todos.py:41-54 | A row is returned exactly when the id exists and the caller owns it. An absent todo and another user's todo give the same None. |
| Service.ValidateParentTodo | server/app/services/todos.py:56-70 | The check passes exactly when the parent is an owned top-level todo. Otherwise it raises a 400 ValidationException. |
| Service.HandleForeignKeyViolation | server/app/services/todos.py:72-101 | A ValidationException is raised exactly when the SQLSTATE, read from `sqlstate` and then `pgcode`, is 23503. |
| Service.ParentKeyViolationMessage | server/app/services/todos.py:88-101 | The `todos_parent_id_fkey` violation gives "Parent Todo with ID '<parent_id>' does not exist." |
| Service.OtherKeyViolationMessage | server/app/services/todos.py:96-101 | Any other foreign-key constraint gives "Unknown entity with ID 'unknown' does not exist." |
| Service.OtherIntegrityErrorReRaised | server/app/services/todos.py:155-157 | An integrity error with another code is re-raised unchanged. |
| Service.NotNullViolationReRaised | server/app/services/todos.py:295-297 | A NOT NULL violation is re-raised unchanged. |
| Service.CreateSpec | server/app/services/todos.py:127-162 | Create succeeds exactly when there is no parent or the parent is an owned top-level todo. The new row has the request's fields, the caller as owner, the next id and both timestamps now. A failure is a ValidationException and leaves the table as it was. The serial is spent exactly when the parent check was skipped and the INSERT failed. |
| Service.CreateParentErrors | server/app/services/todos.py:141-143 | An absent or foreign parent gives "Parent todo not found". A parent that is a subtask gives "Cannot add subtask to a subtask". |
| Service.CreateWithParentZero | server/app/services/todos.py:141-157 | `parent_id` 0 is falsy, so the check is skipped. The INSERT fails the foreign key, which is reported as "Parent Todo with ID '0' does not exist.". The serial value is spent. |
| Service.CreateKeepsInvariants | server/app/services/todos.py:141-153 | Create keeps nesting at most one level deep and keeps subtasks with their parent's owner. |
| Service.GetAndDeleteMasking | server/app/services/todos.py:248-321 | For an absent or foreign todo, get and delete raise NotFound "Todo not found" and the table is unchanged. Otherwise get returns the row. |
| Service.DeleteSpec | server/app/services/todos.py:315-321 | Delete removes the todo and, transitively, its subtasks. The table stays well formed, and other users' rows are kept. |
| Service.AssignAllAppend | server/app/services/todos.py:288-289 | Assigning two lists of fields in turn is assigning their concatenation. |
| Service.DumpAssignsPatch | server/app/services/todos.py:287-289 | Assigning the exclude-unset dump replaces exactly the fields that were sent, a sent null included. |
| Service.UpdateMasking | server/app/services/todos.py:276-278 | A todo the caller does not own gives NotFound "Todo not found" and changes nothing. |
| Service.UpdateParentErrors | server/app/services/todos.py:280-284 | The parent checks, in order: "Todo cannot be its own parent", then "Parent todo not found", then "Cannot add subtask to a subtask". All are ValidationExceptions and change nothing. |
| Service.UpdatePatchesOnlySentFields | server/app/services/todos.py:286-294 | When the checks pass and no NOT NULL field is sent null, the row gets exactly the sent fields, stamped if it changed. Every other row is unchanged. |
| Service.UpdateNullTitle | server/app/services/todos.py:295-297 | A null title passes the checks, fails at the database and is re-raised as it is. |
| Service.UpdateBreaksDepth | server/app/services/todos.py:280-284 | Moving a todo that has a subtask under another top-level todo succeeds and leaves a subtask of a subtask. |
| Service.UpdateKeepsInvariants | server/app/services/todos.py:280-294 | When the moved todo has no subtasks, update keeps nesting at most one level deep. It always keeps subtasks with their parent's owner. |
| Service.RequestIds | server/app/services/todos.py:345 | The requested ids, one per entry, in order. |
| Service.FoundIds | server/app/services/todos.py:346-353 | The fetched ids are exactly the requested ids that exist and belong to the caller. |
| Service.OrderMapping | server/app/services/todos.py:379 | The mapping has exactly the requested ids as keys. Each id maps to the `new_order` of the last entry naming it. |
| Service.DistinctCount | server/app/services/todos.py:355-357 | A list has as many distinct ids as entries exactly when no id repeats. |
| Service.ReorderCountCheck | server/app/services/todos.py:345-357 | The count check passes exactly when the ids are distinct and each is an owned todo. A duplicated, missing or foreign id is rejected. |
| Service.ReorderCheckSpec | server/app/services/todos.py:355-376 | The checks, in order: "One or more todos not found"; NotFound "Parent todo not found"; then the sibling check against the named parent or the top level. |
| Service.ReorderFailsAsChecked | server/app/services/todos.py:343-392 | Reorder fails exactly when a check does, with that error, and then writes nothing. |
| Service.ReorderApply | server/app/services/todos.py:378-385 | An accepted batch gives each requested todo its `new_order`. In those rows only `order` and the stamp change, and every other row is unchanged. |
| Service.ReorderSameChecks | server/app/services/todos.py:345-376 | An applied batch passes the checks again: ids, owners and parents are unchanged. |
| Service.ReorderAppliedTwice | server/app/services/todos.py:378-385 | Applying an accepted batch to its own result changes nothing. |
| Service.ReorderIdempotent | server/app/services/todos.py:343-387 | Running the same accepted batch twice leaves the table as after the first run. |
| Service.ReorderEmpty | server/app/services/todos.py:343-387 | An empty batch, with no parent or an owned parent, succeeds with no rows and changes nothing. |
| Service.ReorderKeepsInvariants | server/app/services/todos.py:378-385 | Reorder keeps both table invariants. |
| Service.TodoService.constructor | server/app/services/todos.py:33-39 | The service keeps the session it was given. |
| Service.TodoService.CreateTodo | server/app/services/todos.py:127-162 | `create_todo` has the outcome and the table of CreateResult, and keeps the table well formed. |
| Service.TodoService.ListTodos | server/app/services/todos.py:164-232 | `list_todos` returns ListTodosResult, whose count and page ListTodosSpec states. Its grouping loop computes Nest. |
| Service.TodoService.GetTodo | server/app/services/todos.py:234-257 | `get_todo` returns GetTodoResult. |
| Service.TodoService.UpdateTodo | server/app/services/todos.py:259-302 | `update_todo`, with its `setattr` loop, has the outcome and table of UpdateResult. |
| Service.TodoService.DeleteTodo | server/app/services/todos.py:304-326 | `delete_todo` has the outcome and table of DeleteResult. |
| Service.TodoService.ReorderTodos | server/app/services/todos.py:328-392 | `reorder_todos` has the outcome and table of ReorderResult. |
| Service.TodoService.ApplyReorder | server/app/services/todos.py:378-387 | The assignment loop and the commit leave the table of ReorderApplied and return the fetched rows. |
| Service.ValidateReorder | server/app/services/todos.py:355-376 | The checks made by the loops return ReorderCheck. |
| Service.CollectIds | server/app/services/todos.py:345 | The list comprehension computes RequestIds. |
| Service.AllHaveParent | server/app/services/todos.py:365-376 | The loop succeeds exactly when every fetched todo has the expected `parent_id`. |
| Service.CollectOrders | server/app/services/todos.py:379 | The dict comprehension computes OrderMapping. |
| Service.StageOrders | server/app/services/todos.py:382-383 | Each fetched todo gets its mapped order, and every other row stays as it was. |
| Service.StagedIsReordered | server/app/services/todos.py:382-383 | The staged rows are the rows Reordered describes. |
| Legacy.Normalized | server/app/api/endpoints/todos.py:51-52 | A `parent_id` below 1 becomes None, and any other value is kept. |
| Legacy.LegacyCreateAsService | server/app/api/endpoints/todos.py:42-79 | Without `parent_id`, create fails with "Could not create todo. Please try again later." Otherwise it is the service's create on the normalised request: the same table, the same todo and the same ValidationExceptions. |
| Legacy.LegacyCreateSpec | server/app/api/endpoints/todos.py:49-74 | Create succeeds exactly when `parent_id` is given and is either below 1 or an owned top-level todo. The new row then has no parent in the first case. |
| Legacy.LegacyCreateWithParentZero | server/app/api/endpoints/todos.py:51-52 | `parent_id` 0 makes a top-level todo, where the service's create fails. |
| Legacy.CreateTodo | server/app/api/endpoints/todos.py:42-79 | The older `create_todo` has the outcome and table of LegacyCreateResult. |
| Legacy.ListTodos | server/app/api/endpoints/todos.py:82-168 | The older `list_todos` returns LegacyListResult, whose page LegacyListSpec states. Its grouping loop, `nest_subtasks`, computes Nest. |
| Legacy.GetTodo | server/app/api/endpoints/todos.py:171-189 | The older `get_todo` returns what the service's does. |
| Legacy.DeleteTodo | server/app/api/endpoints/todos.py:238-258 | The older `delete_todo` has the outcome and table of the service's. |
| Legacy.ParentChecksAgree | server/app/api/endpoints/todos.py:207-221 | The older update refuses the same new parents as the service, never with a ValidationException. |
| Legacy.LegacyUpdateAsService | server/app/api/endpoints/todos.py:191-236 | The older update succeeds on exactly the requests the service's does, with the same row and table. Its failures are never 400s. |
| Legacy.LegacyUpdateParentErrors | server/app/api/endpoints/todos.py:207-221 | Its own parent gives the generic "Could not update todo..." error. An absent or foreign parent gives NotFound "Parent todo not found". A parent that is a subtask gives the generic error. |
| Legacy.LegacyUpdateNullColumn | server/app/api/endpoints/todos.py:224-236 | A null in a NOT NULL column becomes the generic error, where the service re-raises it. |
| Legacy.UpdateTodo | server/app/api/endpoints/todos.py:191-236 | The older `update_todo`, with its `setattr` loop, has the outcome and table of LegacyUpdateResult. |

## Left out

- Authentication and the current user: the user is an `int` parameter. Users, JWTs and cookies are outside this core.
- Routing, application wiring, settings, the engine and session lifecycle, and logging calls are not modelled.
- Async, sessions, rollback and concurrency are not modelled. Each operation is one atomic step on the table.
- Time: server timestamps are a `now` parameter given to each operation that writes.
- Catch-all failures of the database or the driver (an outage, a timeout) are not modelled. In the source they become the generic "Could not … Please try again later." errors. The modelled database refuses only NOT NULL and foreign-key violations.
- Integer width: `id`, `order`, `user_id` and `parent_id` are INTEGER columns, but the model's integers are unbounded. A value outside 32 bits makes the driver fail, and the catch-alls turn that into the generic "Could not …" error. For example, `get_todo` of id 2^31 gives that error, where the model gives NotFound.
- Tie order in ORDER BY: PostgreSQL leaves it unspecified. The model fixes it: join rows in id order (parents, then each parent's subtasks), then a stable sort.
- Collation: titles compare by code point, not by the database collation.
- The `status` column is assumed to sort as a native enum, in declaration order.
- ILIKE: `%` and `_` inside the search text are taken literally, and case folding is ASCII only.
- `getattr(parent, order_by, parent.order)`: only the table's column names are recognised. Other attributes of the aliased class are treated as unknown and fall back to `order`.
- Legacy.ListTodos: the validated column list is never applied to the query in the source either. The model checks the names and returns full rows.
- `TodoReorderRequest` is not declared in server/app/schemas/todos.py. Its shape, a list of `(todo_id, new_order)` entries and an optional `parent_id`, is taken from how `reorder_todos` uses it.
- Service.ReorderResult: the returned rows are listed in id order. The source returns them in the order the query yields them, which is unspecified.
- Driver error texts: only the SQLSTATE and the parts the parsers read are modelled, not the driver's message prefixes.
- The older router is not mounted by the application. It is modelled for its own behaviour.
- Exception chaining (`from e`) and the logged messages are not modelled.
