/**
 * `TodoService` (server/app/services/todos.py): ownership-checked lookup, parent validation,
 * the foreign-key error mapping, create, list, get, partial update, cascading delete and
 * the all-or-nothing bulk reorder, over the table held by a `TodoStore`.
 *
 * Each operation that changes the table has a spec function over the table before the call,
 * returning the outcome and the table after it; the method on `TodoService` is proved equal
 * to it, and the lemmas below state what the source promises about those functions.
 */
module Service {
  import opened Wrappers
  import opened Text
  import opened Models
  import opened Schemas
  import opened Exceptions
  import opened Store
  import opened Grouping
  import opened Listing

  // ---------------------------------------------------------------------------
  // Messages

  const TodoNotFound: string := "Todo not found"
  const ParentNotFound: string := "Parent todo not found"
  const SubtaskOfSubtask: string := "Cannot add subtask to a subtask"
  const OwnParent: string := "Todo cannot be its own parent"
  const TodosNotFound: string := "One or more todos not found"
  const NotSubtasksOfParent: string := "All todos must be subtasks of the specified parent"
  const NotRootLevel: string := "All todos must be root-level todos when no parent is specified"

  /** What an operation raises: an application exception, or the database error itself. */
  datatype Failure = AppFailure(error: AppError) | DbFailure(integrity: IntegrityError)

  // ---------------------------------------------------------------------------
  // Lookups and checks

  /** `_get_todo_by_id`: the row, unless it is absent or belongs to another user. */
  function GetTodoById(rows: Table, todoId: int, userId: int): (r: Option<Todo>)
    ensures r.Some? <==> todoId in rows && rows[todoId].userId == userId
    ensures r.Some? ==> r.value == rows[todoId]
  {
    match Lookup(rows, todoId)
    case None => None
    case Some(todo) => if todo.userId != userId then None else Some(todo)
  }

  /** `_validate_parent_todo`: None when the check passes, else the ValidationException it raises. */
  function ValidateParentTodo(rows: Table, parentId: int, userId: int): (e: Option<AppError>)
    ensures e.None? <==> parentId in rows && rows[parentId].userId == userId && !Truthy(rows[parentId].parentId)
    ensures e.Some? ==> e.value.kind == Validation && e.value.statusCode == 400
  {
    match GetTodoById(rows, parentId, userId)
    case None => Some(ValidationException(ParentNotFound))
    case Some(parent) => if Truthy(parent.parentId) then Some(ValidationException(SubtaskOfSubtask)) else None
  }

  /** The SQLSTATE the handler reads: `sqlstate`, or `pgcode` when that is empty or missing. */
  function ErrorCode(error: IntegrityError): Option<string> {
    if error.sqlstate.Some? && error.sqlstate.value != "" then error.sqlstate else error.pgcode
  }

  /** Python's `str()` of an optional id, as an f-string writes it. */
  function OptionText(id: Option<int>): string {
    match id
    case None => "None"
    case Some(n) => IntText(n)
  }

  /**
   * `_handle_foreign_key_violation`: the ValidationException it raises for a foreign-key
   * violation; None when it returns normally and the caller re-raises the original error.
   */
  function HandleForeignKeyViolation(error: IntegrityError, entityId: Option<int>): (r: Option<AppError>)
    ensures r.Some? <==> ErrorCode(error) == Some(PgForeignKeyViolation)
    ensures r.Some? ==> r.value.kind == Validation && r.value.statusCode == 400
  {
    if ErrorCode(error) == Some(PgForeignKeyViolation) then
      if ExtractConstraintName(error.text) == ParentForeignKey
      then Some(ValidationException("Parent Todo with ID '" + OptionText(entityId) + "' does not exist."))
      else Some(ValidationException("Unknown entity with ID 'unknown' does not exist."))
    else None
  }

  /** The `except IntegrityError` clause: the mapped exception, or the original error re-raised. */
  function MapIntegrityError(error: IntegrityError, entityId: Option<int>): Failure {
    match HandleForeignKeyViolation(error, entityId)
    case Some(e) => AppFailure(e)
    case None => DbFailure(error)
  }

  /** A violation of `todos_parent_id_fkey` names the parent id that was sent. */
  lemma ParentKeyViolationMessage(parentId: int)
    ensures HandleForeignKeyViolation(ForeignKeyViolation(parentId), Some(parentId))
         == Some(ValidationException("Parent Todo with ID '" + IntText(parentId) + "' does not exist."))
  {
    ForeignKeyViolationNamesConstraint(parentId);
    assert ErrorCode(ForeignKeyViolation(parentId)) == Some(PgForeignKeyViolation);
  }

  /** A foreign-key violation of any other constraint names neither the entity nor the id. */
  lemma OtherKeyViolationMessage(error: IntegrityError, entityId: Option<int>)
    requires ErrorCode(error) == Some(PgForeignKeyViolation)
    requires ExtractConstraintName(error.text) != ParentForeignKey
    ensures HandleForeignKeyViolation(error, entityId)
         == Some(ValidationException("Unknown entity with ID 'unknown' does not exist."))
  {
  }

  /** An error with another SQLSTATE, such as a NOT NULL violation, is re-raised unchanged. */
  lemma OtherIntegrityErrorReRaised(error: IntegrityError, entityId: Option<int>)
    requires ErrorCode(error) != Some(PgForeignKeyViolation)
    ensures MapIntegrityError(error, entityId) == DbFailure(error)
  {
  }

  lemma NotNullViolationReRaised(column: string, entityId: Option<int>)
    ensures MapIntegrityError(NotNullViolation(column), entityId) == DbFailure(NotNullViolation(column))
  {
    assert NotNullViolation(column).sqlstate == Some("23502");
    assert "23502" != PgForeignKeyViolation by { assert "23502"[4] != PgForeignKeyViolation[4]; }
  }

  // ---------------------------------------------------------------------------
  // Table invariants

  /** One-level nesting: a todo's parent is itself top-level. */
  ghost predicate DepthAtMostOne(rows: Table) {
    forall k :: k in rows && rows[k].parentId.Some? && rows[k].parentId.value in rows ==>
      rows[rows[k].parentId.value].parentId.None?
  }

  /** Every subtask belongs to its parent's owner. */
  ghost predicate SameOwner(rows: Table) {
    forall k :: k in rows && rows[k].parentId.Some? && rows[k].parentId.value in rows ==>
      rows[rows[k].parentId.value].userId == rows[k].userId
  }

  // ---------------------------------------------------------------------------
  // create_todo

  const CreateFailed: string := "Could not create todo. Please try again later."

  /** `Todo(**todo_in.model_dump(), user_id=...)` before the INSERT fills in the id and timestamps. */
  function NewRow(c: TodoCreate, userId: int): Todo {
    Todo(0, c.title, c.status, c.isBookmarked, c.order, 0, 0, userId, c.parentId)
  }

  /** `create_todo`: the outcome, the table after it, and the next serial value. */
  function CreateResult(rows: Table, nextId: int, c: TodoCreate, userId: int, now: int)
    : (r: (Result<TodoView, Failure>, Table, int))
    requires WellFormed(rows, nextId)
    ensures WellFormed(r.1, r.2)
    ensures r.0.Err? ==> r.1 == rows
  {
    var check := if Truthy(c.parentId) then ValidateParentTodo(rows, c.parentId.value, userId) else None;
    if check.Some? then (Err(AppFailure(check.value)), rows, nextId)
    else
      var inserted := InsertResult(rows, nextId, NewRow(c, userId), now);
      match inserted.0
      case Ok(todo) => (Ok(ResponseOf(todo)), inserted.1, inserted.2)
      case Err(e) => (Err(MapIntegrityError(e, c.parentId)), rows, inserted.2)
  }

  /** The parent a create may name: an owned top-level todo. */
  ghost predicate OwnedTopLevel(rows: Table, p: int, userId: int) {
    p in rows && rows[p].userId == userId && rows[p].parentId.None?
  }

  /**
   * Create succeeds exactly when there is no parent or the parent is an owned top-level todo;
   * the new row carries the request's fields, the caller as owner, the next serial id and
   * `now` as both timestamps, and nothing else in the table changes. A failure leaves the
   * table as it was; the serial has advanced exactly when the INSERT was attempted, that is
   * when the parent check was skipped.
   */
  lemma CreateSpec(rows: Table, nextId: int, c: TodoCreate, userId: int, now: int)
    requires WellFormed(rows, nextId)
    ensures var (r, after, next) := CreateResult(rows, nextId, c, userId, now);
      && (r.Ok? <==> c.parentId.None? || OwnedTopLevel(rows, c.parentId.value, userId))
      && (r.Ok? ==>
            && r.value.subtasks == []
            && r.value.todo == Todo(nextId, c.title, c.status, c.isBookmarked, c.order, now, now, userId, c.parentId)
            && nextId !in rows && after == rows[nextId := r.value.todo] && next == nextId + 1)
      && (r.Err? ==> after == rows && r.error.AppFailure? && r.error.error.kind == Validation)
      && (r.Err? ==> (next == nextId <==> Truthy(c.parentId)) && (next == nextId + 1 <==> !Truthy(c.parentId)))
  {
    if c.parentId.Some? {
      var p := c.parentId.value;
      if p in rows && rows[p].parentId.Some? {
        assert rows[p].parentId.value in rows;
      }
      if !Truthy(c.parentId) {
        assert p !in rows;
      }
    }
  }

  /** Which validation message a rejected create carries. */
  lemma CreateParentErrors(rows: Table, nextId: int, c: TodoCreate, userId: int, now: int)
    requires WellFormed(rows, nextId) && Truthy(c.parentId)
    ensures var p := c.parentId.value;
      var r := CreateResult(rows, nextId, c, userId, now).0;
      && (p !in rows || rows[p].userId != userId ==> r == Err(AppFailure(ValidationException(ParentNotFound))))
      && (p in rows && rows[p].userId == userId && rows[p].parentId.Some? ==>
            r == Err(AppFailure(ValidationException(SubtaskOfSubtask))))
  {
    var p := c.parentId.value;
    if p in rows && rows[p].parentId.Some? {
      assert rows[p].parentId.value in rows;
    }
  }

  /**
   * `parent_id` 0 is falsy, so the parent check is skipped; the INSERT then fails the foreign
   * key and the handler maps that to a ValidationException naming id 0. The serial value the
   * INSERT took is spent.
   */
  lemma CreateWithParentZero(rows: Table, nextId: int, c: TodoCreate, userId: int, now: int)
    requires WellFormed(rows, nextId) && c.parentId == Some(0)
    ensures CreateResult(rows, nextId, c, userId, now)
         == (Err(AppFailure(ValidationException("Parent Todo with ID '0' does not exist."))), rows, nextId + 1)
  {
    ParentZeroMessage();
    assert 0 !in rows;
    var inserted := InsertResult(rows, nextId, NewRow(c, userId), now);
    assert inserted == (Err(ForeignKeyViolation(0)), rows, nextId + 1);
  }

  /** The message the failed INSERT with parent id 0 is turned into. */
  lemma ParentZeroMessage()
    ensures MapIntegrityError(ForeignKeyViolation(0), Some(0))
         == AppFailure(ValidationException("Parent Todo with ID '0' does not exist."))
  {
    ParentKeyViolationMessage(0);
    var zero := IntText(0);
    assert zero == "0" by { assert NatText(0) == [Digit(0)]; }
    assert "Parent Todo with ID '" + zero + "' does not exist." == "Parent Todo with ID '0' does not exist.";
  }

  /** Create keeps one-level nesting and keeps every subtask with its parent's owner. */
  lemma CreateKeepsInvariants(rows: Table, nextId: int, c: TodoCreate, userId: int, now: int)
    requires WellFormed(rows, nextId) && DepthAtMostOne(rows) && SameOwner(rows)
    ensures var after := CreateResult(rows, nextId, c, userId, now).1;
      DepthAtMostOne(after) && SameOwner(after)
  {
    CreateSpec(rows, nextId, c, userId, now);
  }

  // ---------------------------------------------------------------------------
  // get_todo and delete_todo

  /** `get_todo`. */
  function GetTodoResult(rows: Table, todoId: int, userId: int): (r: Result<TodoView, AppError>) {
    match GetTodoById(rows, todoId, userId)
    case None => Err(ResourceNotFoundException(TodoNotFound))
    case Some(todo) => Ok(ResponseOf(todo))
  }

  /** `delete_todo`: the outcome and the table after it. */
  function DeleteResult(rows: Table, todoId: int, userId: int): (r: (Result<(), AppError>, Table))
    requires forall k :: k in rows ==> rows[k].id == k
  {
    match GetTodoById(rows, todoId, userId)
    case None => (Err(ResourceNotFoundException(TodoNotFound)), rows)
    case Some(todo) => (Ok(()), rows - Cascade(rows, todoId))
  }

  /**
   * An absent todo and another user's todo are indistinguishable: get and delete both raise
   * NotFound "Todo not found" and the table is untouched; otherwise get returns the row.
   */
  lemma GetAndDeleteMasking(rows: Table, nextId: int, todoId: int, userId: int)
    requires WellFormed(rows, nextId)
    ensures var owned := todoId in rows && rows[todoId].userId == userId;
      && (!owned ==> GetTodoResult(rows, todoId, userId) == Err(ResourceNotFoundException(TodoNotFound)))
      && (!owned ==> DeleteResult(rows, todoId, userId) == (Err(ResourceNotFoundException(TodoNotFound)), rows))
      && (owned ==> GetTodoResult(rows, todoId, userId) == Ok(TodoView(rows[todoId], [])))
  {
  }

  /**
   * A successful delete removes the todo and, transitively, its subtasks, and leaves a
   * well-formed table. When subtasks share their parent's owner, no other user's row is touched.
   */
  lemma DeleteSpec(rows: Table, nextId: int, todoId: int, userId: int)
    requires WellFormed(rows, nextId) && SameOwner(rows)
    requires todoId in rows && rows[todoId].userId == userId
    ensures var (r, after) := DeleteResult(rows, todoId, userId);
      && r.Ok? && todoId !in after && after.Keys <= rows.Keys
      && WellFormed(after, nextId)
      && (forall k :: k in rows && rows[k].parentId == Some(todoId) ==> k !in after)
      && (forall k :: k in rows && rows[k].userId != userId ==> k in after && after[k] == rows[k])
  {
    DeleteKeepsWellFormed(rows, nextId, todoId);
    CascadeStaysWithOwner(rows, todoId);
  }

  // ---------------------------------------------------------------------------
  // update_todo

  const UpdateFailed: string := "Could not update todo. Please try again later."

  /** `setattr(todo, field, value)` for one entry of the dump. */
  function Assign(d: Draft, a: Assignment): Draft {
    match a
    case AssignTitle(v) => d.(title := v)
    case AssignStatus(v) => d.(status := v)
    case AssignIsBookmarked(v) => d.(isBookmarked := v)
    case AssignOrder(v) => d.(order := v)
    case AssignParentId(v) => d.(parentId := v)
  }

  /** The assignments done in order. */
  function AssignAll(d: Draft, assignments: seq<Assignment>): (r: Draft)
    ensures r.row == d.row
    decreases |assignments|
  {
    if assignments == [] then d
    else Assign(AssignAll(d, assignments[..|assignments| - 1]), assignments[|assignments| - 1])
  }

  /** The intended effect of a patch: a field is replaced, even by null, exactly when it was sent. */
  function Patched(d: Draft, u: TodoUpdate): Draft {
    Draft(d.row,
      if u.title.Set? then u.title.value else d.title,
      if u.status.Set? then u.status.value else d.status,
      if u.isBookmarked.Set? then u.isBookmarked.value else d.isBookmarked,
      if u.order.Set? then u.order.value else d.order,
      if u.parentId.Set? then u.parentId.value else d.parentId)
  }

  lemma {:induction false} AssignAllAppend(d: Draft, a: seq<Assignment>, b: seq<Assignment>)
    ensures AssignAll(d, a + b) == AssignAll(AssignAll(d, a), b)
    decreases |b|
  {
    if b == [] {
      assert a + b == a;
    } else {
      assert (a + b)[..|a + b| - 1] == a + b[..|b| - 1];
      AssignAllAppend(d, a, b[..|b| - 1]);
    }
  }

  /** Assigning at most one more entry after a list of entries whose effect is known. */
  lemma AssignOneMore(d: Draft, xs: seq<Assignment>, ys: seq<Assignment>, before: Draft, after: Draft)
    requires |ys| <= 1 && AssignAll(d, xs) == before
    requires after == if ys == [] then before else Assign(before, ys[0])
    ensures AssignAll(d, xs + ys) == after
  {
    if ys == [] {
      assert xs + ys == xs;
    } else {
      assert (xs + ys)[..|xs + ys| - 1] == xs;
    }
  }

  /** Assigning the exclude-unset dump of a patch is exactly the patch. */
  lemma DumpAssignsPatch(d: Draft, u: TodoUpdate)
    ensures AssignAll(d, DumpExcludeUnset(u)) == Patched(d, u)
  {
    var t := if u.title.Set? then [AssignTitle(u.title.value)] else [];
    var s := if u.status.Set? then [AssignStatus(u.status.value)] else [];
    var b := if u.isBookmarked.Set? then [AssignIsBookmarked(u.isBookmarked.value)] else [];
    var o := if u.order.Set? then [AssignOrder(u.order.value)] else [];
    var p := if u.parentId.Set? then [AssignParentId(u.parentId.value)] else [];
    var d1 := d.(title := if u.title.Set? then u.title.value else d.title);
    var d2 := d1.(status := if u.status.Set? then u.status.value else d.status);
    var d3 := d2.(isBookmarked := if u.isBookmarked.Set? then u.isBookmarked.value else d.isBookmarked);
    var d4 := d3.(order := if u.order.Set? then u.order.value else d.order);
    var d5 := d4.(parentId := if u.parentId.Set? then u.parentId.value else d.parentId);
    AssignOneMore(d, [], t, d, d1);
    assert [] + t == t;
    AssignOneMore(d, t, s, d1, d2);
    AssignOneMore(d, t + s, b, d2, d3);
    AssignOneMore(d, t + s + b, o, d3, d4);
    AssignOneMore(d, t + s + b + o, p, d4, d5);
  }

  /** The checks `update_todo` makes on the new `parent_id` before assigning anything. */
  function UpdateParentCheck(rows: Table, todoId: int, newParent: Option<int>, userId: int): Option<AppError> {
    if newParent.None? then None
    else if newParent.value == todoId then Some(ValidationException(OwnParent))
    else ValidateParentTodo(rows, newParent.value, userId)
  }

  /** `update_todo`: the outcome and the table after it. */
  function UpdateResult(rows: Table, nextId: int, todoId: int, u: TodoUpdate, userId: int, now: int)
    : (r: (Result<TodoView, Failure>, Table))
    requires WellFormed(rows, nextId)
    ensures WellFormed(r.1, nextId)
    ensures r.0.Err? ==> r.1 == rows
  {
    match GetTodoById(rows, todoId, userId)
    case None => (Err(AppFailure(ResourceNotFoundException(TodoNotFound))), rows)
    case Some(todo) =>
      match UpdateParentCheck(rows, todoId, u.parentId.Attr(), userId)
      case Some(e) => (Err(AppFailure(e)), rows)
      case None =>
        var flushed := FlushResult(rows, nextId, AssignAll(ToDraft(todo), DumpExcludeUnset(u)), now);
        match flushed.0
        case Ok(t) => (Ok(ResponseOf(t)), flushed.1)
        case Err(e) => (Err(MapIntegrityError(e, u.parentId.Attr())), rows)
  }

  /** A todo the caller does not own is reported as not found, before the patch is looked at. */
  lemma UpdateMasking(rows: Table, nextId: int, todoId: int, u: TodoUpdate, userId: int, now: int)
    requires WellFormed(rows, nextId)
    requires todoId !in rows || rows[todoId].userId != userId
    ensures UpdateResult(rows, nextId, todoId, u, userId, now) == (Err(AppFailure(ResourceNotFoundException(TodoNotFound))), rows)
  {
  }

  /**
   * The parent checks of an update, in order: a todo cannot be its own parent, the new parent
   * must be owned, and it must not itself be a subtask. Each failure leaves the table as it was.
   */
  lemma UpdateParentErrors(rows: Table, nextId: int, todoId: int, u: TodoUpdate, userId: int, now: int)
    requires WellFormed(rows, nextId)
    requires todoId in rows && rows[todoId].userId == userId && u.parentId.Attr().Some?
    ensures var p := u.parentId.Attr().value;
      var r := UpdateResult(rows, nextId, todoId, u, userId, now);
      && (p == todoId ==> r == (Err(AppFailure(ValidationException(OwnParent))), rows))
      && (p != todoId && (p !in rows || rows[p].userId != userId) ==>
            r == (Err(AppFailure(ValidationException(ParentNotFound))), rows))
      && (p != todoId && p in rows && rows[p].userId == userId && rows[p].parentId.Some? ==>
            r == (Err(AppFailure(ValidationException(SubtaskOfSubtask))), rows))
  {
    var p := u.parentId.Attr().value;
    if p in rows && rows[p].parentId.Some? {
      assert rows[p].parentId.value in rows;
    }
  }

  /**
   * Partial update: when the checks pass and no sent field is null where the table forbids
   * it, the row gets exactly the sent fields (a null `parent_id` included), is stamped if it
   * changed, and every other row is unchanged.
   */
  lemma UpdatePatchesOnlySentFields(rows: Table, nextId: int, todoId: int, u: TodoUpdate, userId: int, now: int)
    requires WellFormed(rows, nextId)
    requires todoId in rows && rows[todoId].userId == userId
    requires UpdateParentCheck(rows, todoId, u.parentId.Attr(), userId).None?
    requires FirstNullColumn(Patched(ToDraft(rows[todoId]), u)).None?
    ensures var (r, after) := UpdateResult(rows, nextId, todoId, u, userId, now);
      var t := Realize(Patched(ToDraft(rows[todoId]), u));
      && r.Ok? && after.Keys == rows.Keys
      && (t == rows[todoId] ==> after[todoId] == t)
      && (t != rows[todoId] ==> after[todoId] == t.(modifiedAt := now))
      && r.value == ResponseOf(after[todoId])
      && (forall k :: k in rows && k != todoId ==> after[k] == rows[k])
  {
    DumpAssignsPatch(ToDraft(rows[todoId]), u);
    var t := Realize(Patched(ToDraft(rows[todoId]), u));
    if t.parentId.Some? {
      assert t.parentId == u.parentId.Attr() || t.parentId == rows[todoId].parentId;
    }
  }

  /** A null sent for `title` passes the checks and fails at the database; the error is re-raised as is. */
  lemma UpdateNullTitle(rows: Table, nextId: int, todoId: int, u: TodoUpdate, userId: int, now: int)
    requires WellFormed(rows, nextId)
    requires todoId in rows && rows[todoId].userId == userId && u.title == Set(None)
    requires UpdateParentCheck(rows, todoId, u.parentId.Attr(), userId).None?
    ensures UpdateResult(rows, nextId, todoId, u, userId, now) == (Err(DbFailure(NotNullViolation("title"))), rows)
  {
    DumpAssignsPatch(ToDraft(rows[todoId]), u);
    NotNullViolationReRaised("title", u.parentId.Attr());
  }

  /**
   * Update checks only that the new parent is an owned top-level todo, never that the moved
   * todo has no subtasks of its own: moving a todo that has a subtask under another top-level
   * todo succeeds and leaves a subtask of a subtask.
   */
  lemma UpdateBreaksDepth(rows: Table, a: Todo, b: Todo, c: Todo, userId: int, now: int)
    requires a.id == 1 && b.id == 2 && c.id == 3
    requires a.userId == userId && c.userId == userId && b.userId == userId
    requires a.parentId == None && b.parentId == Some(1) && c.parentId == None
    requires rows == map[1 := a, 2 := b, 3 := c]
    ensures WellFormed(rows, 4) && DepthAtMostOne(rows) && SameOwner(rows)
    ensures var (r, after) := UpdateResult(rows, 4, 1, TodoUpdate(Unset, Unset, Unset, Unset, Set(Some(3))), userId, now);
      r.Ok? && !DepthAtMostOne(after)
  {
    var u := TodoUpdate(Unset, Unset, Unset, Unset, Set(Some(3)));
    BreaksDepthTable(rows, a, b, c, userId);
    UpdatePatchesOnlySentFields(rows, 4, 1, u, userId, now);
    var after := UpdateResult(rows, 4, 1, u, userId, now).1;
    assert after[1].parentId == Some(3) by {
      assert Realize(Patched(ToDraft(rows[1]), u)).parentId == Some(3);
    }
    ParentHasParent(after, 2);
  }

  /** The three-row table of UpdateBreaksDepth is consistent and admits the move of todo 1 under todo 3. */
  lemma BreaksDepthTable(rows: Table, a: Todo, b: Todo, c: Todo, userId: int)
    requires a.id == 1 && b.id == 2 && c.id == 3
    requires a.userId == userId && c.userId == userId && b.userId == userId
    requires a.parentId == None && b.parentId == Some(1) && c.parentId == None
    requires rows == map[1 := a, 2 := b, 3 := c]
    ensures WellFormed(rows, 4) && DepthAtMostOne(rows) && SameOwner(rows)
    ensures 1 in rows && rows[1].userId == userId && 2 in rows && rows[2].parentId == Some(1)
    ensures UpdateParentCheck(rows, 1, Some(3), userId).None?
    ensures FirstNullColumn(Patched(ToDraft(rows[1]), TodoUpdate(Unset, Unset, Unset, Unset, Set(Some(3))))).None?
  {
    assert rows.Keys == {1, 2, 3};
  }

  /** A row whose parent has a parent of its own breaks one-level nesting. */
  lemma ParentHasParent(rows: Table, k: int)
    requires k in rows && rows[k].parentId.Some? && rows[k].parentId.value in rows
    requires rows[rows[k].parentId.value].parentId.Some?
    ensures !DepthAtMostOne(rows)
  {
  }

  /**
   * When the moved todo has no subtasks (or `parent_id` is not sent), a successful update
   * keeps one-level nesting, and it always keeps subtasks with their parent's owner.
   */
  lemma UpdateKeepsInvariants(rows: Table, nextId: int, todoId: int, u: TodoUpdate, userId: int, now: int)
    requires WellFormed(rows, nextId) && DepthAtMostOne(rows) && SameOwner(rows)
    requires u.parentId.Attr().Some? ==> forall k :: k in rows ==> rows[k].parentId != Some(todoId)
    ensures var after := UpdateResult(rows, nextId, todoId, u, userId, now).1;
      DepthAtMostOne(after) && SameOwner(after)
  {
    var (r, after) := UpdateResult(rows, nextId, todoId, u, userId, now);
    if r.Ok? {
      assert todoId in rows && rows[todoId].userId == userId;
      assert UpdateParentCheck(rows, todoId, u.parentId.Attr(), userId).None?;
      var d := Patched(ToDraft(rows[todoId]), u);
      DumpAssignsPatch(ToDraft(rows[todoId]), u);
      assert FirstNullColumn(d).None?;
      UpdatePatchesOnlySentFields(rows, nextId, todoId, u, userId, now);
      var t := Realize(d);
      assert after[todoId].parentId == t.parentId && after[todoId].userId == userId;
      assert t.parentId == u.parentId.Attr() || t.parentId == rows[todoId].parentId;
      forall k | k in after && after[k].parentId.Some? && after[k].parentId.value in after
        ensures after[after[k].parentId.value].parentId.None?
        ensures after[after[k].parentId.value].userId == after[k].userId
      {
        var p := after[k].parentId.value;
        assert after[k].parentId == rows[k].parentId || k == todoId;
        assert after[p].parentId == rows[p].parentId || p == todoId;
        assert after[p].userId == rows[p].userId;
      }
    }
  }

  // ---------------------------------------------------------------------------
  // reorder_todos

  /** `[reorder.todo_id for reorder in reorders]`. */
  function RequestIds(reorders: seq<Reorder>): (ids: seq<int>)
    ensures |ids| == |reorders|
    ensures forall i :: 0 <= i < |reorders| ==> ids[i] == reorders[i].todoId
  {
    seq(|reorders|, i requires 0 <= i < |reorders| => reorders[i].todoId)
  }

  /** The rows the query fetches: id in the list and owned by the caller. */
  function FoundIds(rows: Table, ids: seq<int>, userId: int): (found: set<int>)
    ensures forall k :: k in found <==> k in rows && k in ids && rows[k].userId == userId
  {
    set k | k in rows && k in ids && rows[k].userId == userId
  }

  /** Entry `i` is the last one naming its id. */
  predicate LastEntryFor(reorders: seq<Reorder>, i: int)
    requires 0 <= i < |reorders|
  {
    forall j :: i < j < |reorders| ==> reorders[j].todoId != reorders[i].todoId
  }

  /** The dict comprehension `{todo_id: new_order}`: a later entry for the same id wins. */
  function OrderMapping(reorders: seq<Reorder>): (m: map<int, int>)
    ensures forall k :: k in m <==> exists i :: 0 <= i < |reorders| && reorders[i].todoId == k
    ensures forall i {:trigger LastEntryFor(reorders, i)} :: 0 <= i < |reorders| && LastEntryFor(reorders, i) ==>
              m[reorders[i].todoId] == reorders[i].newOrder
    decreases |reorders|
  {
    if reorders == [] then map[]
    else
      var init := reorders[..|reorders| - 1];
      var last := reorders[|reorders| - 1];
      var m := OrderMapping(init)[last.todoId := last.newOrder];
      assert forall i :: 0 <= i < |init| ==> init[i] == reorders[i];
      assert forall i {:trigger LastEntryFor(reorders, i)} :: 0 <= i < |init| && LastEntryFor(reorders, i) ==>
        last.todoId != reorders[i].todoId && LastEntryFor(init, i);
      m
  }

  /** Every fetched id is a requested one, so it has an entry in the order mapping. */
  lemma FoundInMapping(rows: Table, reorders: seq<Reorder>, userId: int)
    ensures FoundIds(rows, RequestIds(reorders), userId) <= OrderMapping(reorders).Keys
  {
    forall k | k in FoundIds(rows, RequestIds(reorders), userId) ensures k in OrderMapping(reorders) {
      var i :| 0 <= i < |reorders| && RequestIds(reorders)[i] == k;
    }
  }

  /** The validation of `reorder_todos`, in the order it runs; None when the batch is accepted. */
  function ReorderCheck(rows: Table, req: TodoReorderRequest, userId: int): Option<AppError> {
    var ids := RequestIds(req.reorders);
    var found := FoundIds(rows, ids, userId);
    if |found| != |ids| then Some(ValidationException(TodosNotFound))
    else if req.parentId.Some? then
      if GetTodoById(rows, req.parentId.value, userId).None? then Some(ResourceNotFoundException(ParentNotFound))
      else if exists k :: k in found && rows[k].parentId != req.parentId then Some(ValidationException(NotSubtasksOfParent))
      else None
    else if exists k :: k in found && rows[k].parentId.Some? then Some(ValidationException(NotRootLevel))
    else None
  }

  /** The rows staged for the commit: each fetched todo with its new order. */
  function Reordered(rows: Table, found: set<int>, mapping: map<int, int>): (staged: Table)
    requires found <= mapping.Keys
    ensures staged.Keys == rows.Keys
  {
    map k | k in rows :: if k in found then rows[k].(order := mapping[k]) else rows[k]
  }

  /** The rows `reorder_todos` returns, read after the commit, in id order. */
  function RowsOf(rows: Table, ids: seq<int>): (r: seq<Todo>)
    requires forall i :: 0 <= i < |ids| ==> ids[i] in rows
    ensures |r| == |ids| && forall i :: 0 <= i < |ids| ==> r[i] == rows[ids[i]]
  {
    seq(|ids|, i requires 0 <= i < |ids| => rows[ids[i]])
  }

  /** The table after an accepted batch: each fetched row with its new order, committed. */
  function ReorderApplied(rows: Table, req: TodoReorderRequest, userId: int, now: int): (after: Table)
    ensures after.Keys == rows.Keys
    ensures forall k :: k in after ==>
      after[k].id == rows[k].id && after[k].parentId == rows[k].parentId && after[k].userId == rows[k].userId
  {
    var found := FoundIds(rows, RequestIds(req.reorders), userId);
    var mapping := OrderMapping(req.reorders);
    assert found <= mapping.Keys by {
      forall k | k in found ensures k in mapping {
        var i :| 0 <= i < |req.reorders| && RequestIds(req.reorders)[i] == k;
      }
    }
    Stamp(rows, Reordered(rows, found, mapping), now)
  }

  /** `reorder_todos`: the outcome and the table after it. */
  function ReorderResult(rows: Table, nextId: int, req: TodoReorderRequest, userId: int, now: int)
    : (r: (Result<seq<Todo>, AppError>, Table))
    requires WellFormed(rows, nextId)
    ensures WellFormed(r.1, nextId)
    ensures r.0.Err? ==> r.1 == rows
  {
    match ReorderCheck(rows, req, userId)
    case Some(e) => (Err(e), rows)
    case None =>
      var after := ReorderApplied(rows, req, userId, now);
      (Ok(RowsOf(after, SortedIds(FoundIds(rows, RequestIds(req.reorders), userId)))), after)
  }

  lemma {:induction false} DistinctCount(ids: seq<int>)
    ensures |set x | x in ids| <= |ids|
    ensures |set x | x in ids| == |ids| <==> Distinct(ids)
    decreases |ids|
  {
    if ids != [] {
      var init := ids[..|ids| - 1];
      var last := ids[|ids| - 1];
      DistinctCount(init);
      assert (set x | x in ids) == (set x | x in init) + {last};
      if last in init {
        var i :| 0 <= i < |init| && init[i] == last;
        assert ids[i] == ids[|ids| - 1];
      } else {
        assert (set x | x in init) !! {last};
        if Distinct(init) {
          forall i, j | 0 <= i < j < |ids| ensures ids[i] != ids[j] {
            if j == |ids| - 1 { assert ids[i] == init[i]; } else { assert ids[i] == init[i] && ids[j] == init[j]; }
          }
        }
        if !Distinct(init) {
          var i, j :| 0 <= i < j < |init| && init[i] == init[j];
          assert ids[i] == ids[j];
        }
      }
    }
  }

  /**
   * The count check of a reorder passes exactly when the ids are pairwise distinct and each
   * is an existing todo of the caller: a duplicated, missing or foreign id is rejected.
   */
  lemma ReorderCountCheck(rows: Table, ids: seq<int>, userId: int)
    ensures |FoundIds(rows, ids, userId)| == |ids| <==>
              Distinct(ids) && forall i :: 0 <= i < |ids| ==> ids[i] in rows && rows[ids[i]].userId == userId
  {
    var found := FoundIds(rows, ids, userId);
    var all := set x | x in ids;
    DistinctCount(ids);
    assert found <= all;
    if found != all {
      ProperSubsetSmaller(found, all);
      if forall x :: x in all ==> x in found {
        assert false;
      }
      var x :| x in all && x !in found;
      var i :| 0 <= i < |ids| && ids[i] == x;
      assert !(ids[i] in rows && rows[ids[i]].userId == userId);
    } else {
      forall i | 0 <= i < |ids| ensures ids[i] in rows && rows[ids[i]].userId == userId {
        assert ids[i] in all;
      }
    }
  }

  /** A reorder fails exactly when its validation does, with that error, and then writes nothing. */
  lemma ReorderFailsAsChecked(rows: Table, nextId: int, req: TodoReorderRequest, userId: int, now: int)
    requires WellFormed(rows, nextId)
    ensures var (r, after) := ReorderResult(rows, nextId, req, userId, now);
      && (r.Err? <==> ReorderCheck(rows, req, userId).Some?)
      && (r.Err? ==> r.error == ReorderCheck(rows, req, userId).value && after == rows)
  {
  }

  /** Some fetched row has a parent other than `parentId` exactly when some requested id does. */
  lemma SiblingMismatch(rows: Table, ids: seq<int>, userId: int, parentId: Option<int>)
    requires forall i :: 0 <= i < |ids| ==> ids[i] in rows && rows[ids[i]].userId == userId
    ensures (exists k :: k in FoundIds(rows, ids, userId) && rows[k].parentId != parentId)
        <==> (exists i :: 0 <= i < |ids| && rows[ids[i]].parentId != parentId)
  {
    var found := FoundIds(rows, ids, userId);
    if exists k :: k in found && rows[k].parentId != parentId {
      var k :| k in found && rows[k].parentId != parentId;
      var i :| 0 <= i < |ids| && ids[i] == k;
    }
    if exists i :: 0 <= i < |ids| && rows[ids[i]].parentId != parentId {
      var i :| 0 <= i < |ids| && rows[ids[i]].parentId != parentId;
      assert ids[i] in found;
    }
  }

  /** Some fetched row has a parent exactly when some requested id does. */
  lemma RootMismatch(rows: Table, ids: seq<int>, userId: int)
    requires forall i :: 0 <= i < |ids| ==> ids[i] in rows && rows[ids[i]].userId == userId
    ensures (exists k :: k in FoundIds(rows, ids, userId) && rows[k].parentId.Some?)
        <==> (exists i :: 0 <= i < |ids| && rows[ids[i]].parentId.Some?)
  {
    var found := FoundIds(rows, ids, userId);
    if exists k :: k in found && rows[k].parentId.Some? {
      var k :| k in found && rows[k].parentId.Some?;
      var i :| 0 <= i < |ids| && ids[i] == k;
    }
    if exists i :: 0 <= i < |ids| && rows[ids[i]].parentId.Some? {
      var i :| 0 <= i < |ids| && rows[ids[i]].parentId.Some?;
      assert ids[i] in found;
    }
  }

  /**
   * Reorder validation, in the order it runs: the count check (a duplicated, missing or
   * foreign id), then the parent lookup, then the sibling check against the named parent or
   * against the top level.
   */
  lemma ReorderCheckSpec(rows: Table, req: TodoReorderRequest, userId: int)
    ensures var ids := RequestIds(req.reorders);
      var e := ReorderCheck(rows, req, userId);
      var countOk := Distinct(ids) && forall i :: 0 <= i < |ids| ==> ids[i] in rows && rows[ids[i]].userId == userId;
      && (!countOk ==> e == Some(ValidationException(TodosNotFound)))
      && (countOk && req.parentId.Some? && GetTodoById(rows, req.parentId.value, userId).None? ==>
            e == Some(ResourceNotFoundException(ParentNotFound)))
      && (countOk && req.parentId.Some? && GetTodoById(rows, req.parentId.value, userId).Some? ==>
            (e.Some? <==> exists i :: 0 <= i < |ids| && rows[ids[i]].parentId != req.parentId)
            && (e.Some? ==> e == Some(ValidationException(NotSubtasksOfParent))))
      && (countOk && req.parentId.None? ==>
            (e.Some? <==> exists i :: 0 <= i < |ids| && rows[ids[i]].parentId.Some?)
            && (e.Some? ==> e == Some(ValidationException(NotRootLevel))))
  {
    var ids := RequestIds(req.reorders);
    ReorderCountCheck(rows, ids, userId);
    if Distinct(ids) && forall i :: 0 <= i < |ids| ==> ids[i] in rows && rows[ids[i]].userId == userId {
      SiblingMismatch(rows, ids, userId, req.parentId);
      RootMismatch(rows, ids, userId);
    }
  }

  /** The entry of a distinct batch that names `k`. */
  lemma MappingOfDistinct(reorders: seq<Reorder>, i: int)
    requires Distinct(RequestIds(reorders)) && 0 <= i < |reorders|
    ensures OrderMapping(reorders)[reorders[i].todoId] == reorders[i].newOrder
    decreases |reorders|
  {
    var init := reorders[..|reorders| - 1];
    if i < |reorders| - 1 {
      assert RequestIds(init) == RequestIds(reorders)[..|reorders| - 1];
      assert reorders[i] == init[i];
      assert RequestIds(reorders)[i] != RequestIds(reorders)[|reorders| - 1];
      MappingOfDistinct(init, i);
    }
  }

  /**
   * An accepted batch gives each requested todo its `new_order` and changes nothing else:
   * the same rows, every other todo unchanged, and in each reordered row only `order` (and
   * the modification stamp, when the order actually changed).
   */
  lemma ReorderApply(rows: Table, req: TodoReorderRequest, userId: int, now: int)
    requires ReorderCheck(rows, req, userId).None?
    ensures var after := ReorderApplied(rows, req, userId, now);
      && (forall i :: 0 <= i < |req.reorders| ==> req.reorders[i].todoId in rows && after[req.reorders[i].todoId].order == req.reorders[i].newOrder)
      && (forall i :: 0 <= i < |req.reorders| ==>
            after[req.reorders[i].todoId].(order := rows[req.reorders[i].todoId].order, modifiedAt := rows[req.reorders[i].todoId].modifiedAt)
              == rows[req.reorders[i].todoId])
      && (forall k :: k in rows && k !in RequestIds(req.reorders) ==> after[k] == rows[k])
  {
    var ids := RequestIds(req.reorders);
    var found := FoundIds(rows, ids, userId);
    var mapping := OrderMapping(req.reorders);
    assert found <= mapping.Keys by {
      forall k | k in found ensures k in mapping {
        var i :| 0 <= i < |ids| && ids[i] == k;
      }
    }
    var staged := Reordered(rows, found, mapping);
    var after := Stamp(rows, staged, now);
    assert after == ReorderApplied(rows, req, userId, now);
    forall i | 0 <= i < |req.reorders|
      ensures req.reorders[i].todoId in rows && after[req.reorders[i].todoId].order == req.reorders[i].newOrder
      ensures after[req.reorders[i].todoId].(order := rows[req.reorders[i].todoId].order, modifiedAt := rows[req.reorders[i].todoId].modifiedAt)
              == rows[req.reorders[i].todoId]
    {
      StagedEntry(rows, req, userId, i);
    }
    forall k | k in rows && k !in ids ensures after[k] == rows[k] {
      assert k !in found;
      assert staged[k] == rows[k];
    }
  }

  /** Entry `i` of an accepted batch names a found todo, which is staged with its `new_order`. */
  lemma StagedEntry(rows: Table, req: TodoReorderRequest, userId: int, i: int)
    requires ReorderCheck(rows, req, userId).None? && 0 <= i < |req.reorders|
    ensures var found := FoundIds(rows, RequestIds(req.reorders), userId);
      var mapping := OrderMapping(req.reorders);
      && found <= mapping.Keys && req.reorders[i].todoId in found
      && Reordered(rows, found, mapping)[req.reorders[i].todoId] == rows[req.reorders[i].todoId].(order := req.reorders[i].newOrder)
  {
    var ids := RequestIds(req.reorders);
    var found := FoundIds(rows, ids, userId);
    var mapping := OrderMapping(req.reorders);
    ReorderCountCheck(rows, ids, userId);
    assert found <= mapping.Keys by {
      forall k | k in found ensures k in mapping {
        var j :| 0 <= j < |ids| && ids[j] == k;
      }
    }
    assert ids[i] == req.reorders[i].todoId && ids[i] in found;
    MappingOfDistinct(req.reorders, i);
  }

  /** An accepted batch, applied, is accepted again: ids, owners and parents did not change. */
  lemma ReorderSameChecks(rows: Table, req: TodoReorderRequest, userId: int, now: int)
    requires ReorderCheck(rows, req, userId).None?
    ensures var after := ReorderApplied(rows, req, userId, now);
      && FoundIds(after, RequestIds(req.reorders), userId) == FoundIds(rows, RequestIds(req.reorders), userId)
      && ReorderCheck(after, req, userId).None?
  {
    var ids := RequestIds(req.reorders);
    var found := FoundIds(rows, ids, userId);
    var after := ReorderApplied(rows, req, userId, now);
    assert FoundIds(after, ids, userId) == found;
    if req.parentId.Some? {
      assert GetTodoById(after, req.parentId.value, userId).Some?;
      assert !exists k :: k in found && after[k].parentId != req.parentId;
    } else {
      assert !exists k :: k in found && after[k].parentId.Some?;
    }
  }

  /** After an accepted batch, every fetched row already has the order the batch gives it. */
  lemma OrdersAlreadySet(rows: Table, req: TodoReorderRequest, userId: int, now: int)
    requires ReorderCheck(rows, req, userId).None?
    ensures var after := ReorderApplied(rows, req, userId, now);
      var found := FoundIds(rows, RequestIds(req.reorders), userId);
      found <= OrderMapping(req.reorders).Keys && Reordered(after, found, OrderMapping(req.reorders)) == after
  {
    var ids := RequestIds(req.reorders);
    var found := FoundIds(rows, ids, userId);
    var mapping := OrderMapping(req.reorders);
    var after := ReorderApplied(rows, req, userId, now);
    assert found <= mapping.Keys by {
      ReorderCountCheck(rows, ids, userId);
      forall k | k in found ensures k in mapping {
        var i :| 0 <= i < |ids| && ids[i] == k;
      }
    }
    var again := Reordered(after, found, mapping);
    forall k | k in after ensures again[k] == after[k] {
      if k in found {
        AppliedOrderIsMapped(rows, req, userId, now, k);
      }
    }
  }

  /** A todo the batch found carries, after the batch, the order its entry asked for. */
  lemma AppliedOrderIsMapped(rows: Table, req: TodoReorderRequest, userId: int, now: int, k: int)
    requires ReorderCheck(rows, req, userId).None?
    requires k in FoundIds(rows, RequestIds(req.reorders), userId)
    ensures k in OrderMapping(req.reorders)
    ensures ReorderApplied(rows, req, userId, now)[k].order == OrderMapping(req.reorders)[k]
  {
    var ids := RequestIds(req.reorders);
    ReorderApply(rows, req, userId, now);
    ReorderCountCheck(rows, ids, userId);
    var i :| 0 <= i < |ids| && ids[i] == k;
    MappingOfDistinct(req.reorders, i);
  }

  /** Applying an accepted batch to its own result changes nothing. */
  lemma ReorderAppliedTwice(rows: Table, req: TodoReorderRequest, userId: int, now: int, later: int)
    requires ReorderCheck(rows, req, userId).None?
    ensures var after := ReorderApplied(rows, req, userId, now);
      ReorderApplied(after, req, userId, later) == after
  {
    var after := ReorderApplied(rows, req, userId, now);
    ReorderSameChecks(rows, req, userId, now);
    OrdersAlreadySet(rows, req, userId, now);
    assert Stamp(after, after, later) == after;
  }

  /** Applying the same batch a second time is accepted and changes nothing. */
  lemma ReorderIdempotent(rows: Table, nextId: int, req: TodoReorderRequest, userId: int, now: int, later: int)
    requires WellFormed(rows, nextId)
    requires ReorderResult(rows, nextId, req, userId, now).0.Ok?
    ensures var after := ReorderResult(rows, nextId, req, userId, now).1;
      ReorderResult(after, nextId, req, userId, later).0.Ok?
      && ReorderResult(after, nextId, req, userId, later).1 == after
  {
    ReorderSameChecks(rows, req, userId, now);
    ReorderAppliedTwice(rows, req, userId, now, later);
  }

  /** An empty batch succeeds with no rows when no parent, or an owned parent, is named. */
  lemma ReorderEmpty(rows: Table, nextId: int, parentId: Option<int>, userId: int, now: int)
    requires WellFormed(rows, nextId)
    requires parentId.Some? ==> parentId.value in rows && rows[parentId.value].userId == userId
    ensures ReorderResult(rows, nextId, TodoReorderRequest([], parentId), userId, now) == (Ok([]), rows)
  {
    var req := TodoReorderRequest([], parentId);
    assert FoundIds(rows, [], userId) == {};
    var after := ReorderResult(rows, nextId, req, userId, now).1;
    assert Reordered(rows, {}, map[]) == rows;
    assert Stamp(rows, rows, now) == rows;
  }

  /** Reorder changes neither `parent_id` nor ownership, so it keeps both table invariants. */
  lemma ReorderKeepsInvariants(rows: Table, nextId: int, req: TodoReorderRequest, userId: int, now: int)
    requires WellFormed(rows, nextId) && DepthAtMostOne(rows) && SameOwner(rows)
    ensures var after := ReorderResult(rows, nextId, req, userId, now).1;
      DepthAtMostOne(after) && SameOwner(after)
  {
    var (r, after) := ReorderResult(rows, nextId, req, userId, now);
    if r.Ok? {
      assert after == ReorderApplied(rows, req, userId, now);
    }
  }

  // ---------------------------------------------------------------------------
  // The service object

  /** `TodoService`: the operations, run against the table behind its session `db`. */
  class TodoService {
    const db: TodoStore

    constructor (db: TodoStore)
      ensures this.db == db
    {
      this.db := db;
    }

    /** `create_todo`. */
    method CreateTodo(todoIn: TodoCreate, userId: int, now: int) returns (r: Result<TodoView, Failure>)
      requires db.Valid()
      modifies db
      ensures db.Valid()
      ensures (r, db.rows, db.nextId) == CreateResult(old(db.rows), old(db.nextId), todoIn, userId, now)
    {
      if Truthy(todoIn.parentId) {
        var e := ValidateParentTodo(db.rows, todoIn.parentId.value, userId);
        if e.Some? {
          return Err(AppFailure(e.value));
        }
      }
      var inserted := db.Insert(NewRow(todoIn, userId), now);
      match inserted
      case Ok(todo) =>
        r := Ok(ResponseOf(todo));
      case Err(e) =>
        r := Err(MapIntegrityError(e, todoIn.parentId));
    }

    /** `list_todos`: the joined, filtered, ordered rows are counted, paged, then grouped. */
    method ListTodos(userId: int, filters: TodoFilter, pagination: PaginationParams) returns (r: Result<ListPage, AppError>)
      ensures r == ListTodosResult(db.rows, userId, filters, pagination)
    {
      var selected := Selected(db.rows, userId, filters, ServiceOrdering(pagination));
      var totalRecords := |selected|;
      var page := Window(selected, Offset(pagination), pagination.pageSize);
      if page.None? {
        return Err(BaseAppException(RetrieveTodosFailed));
      }
      var todos := NestSubtasks(page.value);
      r := Ok(ListPage(todos, totalRecords, pagination.page, pagination.pageSize));
    }

    /** `get_todo`. */
    method GetTodo(todoId: int, userId: int) returns (r: Result<TodoView, AppError>)
      ensures r == GetTodoResult(db.rows, todoId, userId)
    {
      var todo := GetTodoById(db.rows, todoId, userId);
      if todo.None? {
        return Err(ResourceNotFoundException(TodoNotFound));
      }
      r := Ok(ResponseOf(todo.value));
    }

    /** `update_todo`: the checks, then one `setattr` per field of the exclude-unset dump, then the commit. */
    method UpdateTodo(todoId: int, todoIn: TodoUpdate, userId: int, now: int) returns (r: Result<TodoView, Failure>)
      requires db.Valid()
      modifies db
      ensures db.Valid() && db.nextId == old(db.nextId)
      ensures (r, db.rows) == UpdateResult(old(db.rows), old(db.nextId), todoId, todoIn, userId, now)
    {
      var todo := GetTodoById(db.rows, todoId, userId);
      if todo.None? {
        return Err(AppFailure(ResourceNotFoundException(TodoNotFound)));
      }
      var newParent := todoIn.parentId.Attr();
      if newParent.Some? {
        if newParent.value == todoId {
          return Err(AppFailure(ValidationException(OwnParent)));
        }
        var e := ValidateParentTodo(db.rows, newParent.value, userId);
        if e.Some? {
          return Err(AppFailure(e.value));
        }
      }
      var todoData := DumpExcludeUnset(todoIn);
      var draft := ToDraft(todo.value);
      for i := 0 to |todoData|
        invariant draft == AssignAll(ToDraft(todo.value), todoData[..i])
      {
        assert todoData[..i + 1][..i] == todoData[..i];
        draft := Assign(draft, todoData[i]);
      }
      assert todoData[..|todoData|] == todoData;
      var flushed := db.Flush(draft, now);
      match flushed
      case Ok(t) =>
        r := Ok(ResponseOf(t));
      case Err(e) =>
        r := Err(MapIntegrityError(e, newParent));
    }

    /** `delete_todo`. */
    method DeleteTodo(todoId: int, userId: int) returns (r: Result<(), AppError>)
      requires db.Valid()
      modifies db
      ensures db.Valid() && db.nextId == old(db.nextId)
      ensures (r, db.rows) == DeleteResult(old(db.rows), todoId, userId)
    {
      var todo := GetTodoById(db.rows, todoId, userId);
      if todo.None? {
        return Err(ResourceNotFoundException(TodoNotFound));
      }
      db.Delete(todoId);
      r := Ok(());
    }

    /** `reorder_todos`: validate the whole batch, then assign each fetched todo its new order and commit. */
    method ReorderTodos(req: TodoReorderRequest, userId: int, now: int) returns (r: Result<seq<Todo>, AppError>)
      requires db.Valid()
      modifies db
      ensures db.Valid() && db.nextId == old(db.nextId)
      ensures (r, db.rows) == ReorderResult(old(db.rows), old(db.nextId), req, userId, now)
    {
      var todoIds := CollectIds(req.reorders);
      var todos := SortedIds(FoundIds(db.rows, todoIds, userId));
      var invalid := ValidateReorder(db.rows, req, userId, todoIds, todos);
      if invalid.Some? {
        return Err(invalid.value);
      }
      var reordered := ApplyReorder(req, userId, now, todos);
      r := Ok(reordered);
    }

    /** The second half of `reorder_todos`, once the batch is accepted: the order mapping, the assignments, the commit. */
    method ApplyReorder(req: TodoReorderRequest, userId: int, now: int, todos: seq<int>) returns (reordered: seq<Todo>)
      requires db.Valid()
      requires todos == SortedIds(FoundIds(db.rows, RequestIds(req.reorders), userId))
      modifies db
      ensures db.Valid() && db.nextId == old(db.nextId)
      ensures db.rows == ReorderApplied(old(db.rows), req, userId, now)
      ensures reordered == RowsOf(db.rows, todos)
    {
      var found := FoundIds(db.rows, RequestIds(req.reorders), userId);
      var orderMapping := CollectOrders(req.reorders);
      FoundInMapping(db.rows, req.reorders, userId);
      var staged := StageOrders(db.rows, todos, orderMapping);
      ghost var before := db.rows;
      StagedIsReordered(before, found, orderMapping, staged);
      assert WellFormed(staged, db.nextId) by {
        forall k | k in staged ensures staged[k].id == before[k].id && staged[k].parentId == before[k].parentId { }
      }
      db.CommitRows(staged, now);
      reordered := RowsOf(db.rows, todos);
    }
  }

  /**
   * The checks of `reorder_todos` on the fetched todos, in the order it makes them; None when
   * the batch is accepted.
   */
  method ValidateReorder(rows: Table, req: TodoReorderRequest, userId: int, todoIds: seq<int>, todos: seq<int>)
    returns (invalid: Option<AppError>)
    requires todoIds == RequestIds(req.reorders) && todos == SortedIds(FoundIds(rows, todoIds, userId))
    ensures invalid == ReorderCheck(rows, req, userId)
  {
    var found := FoundIds(rows, todoIds, userId);
    if |todos| != |todoIds| {
      return Some(ValidationException(TodosNotFound));
    }
    if req.parentId.Some? {
      var parent := GetTodoById(rows, req.parentId.value, userId);
      if parent.None? {
        return Some(ResourceNotFoundException(ParentNotFound));
      }
      var siblings := AllHaveParent(rows, todos, req.parentId);
      if !siblings {
        var j :| 0 <= j < |todos| && rows[todos[j]].parentId != req.parentId;
        assert todos[j] in found;
        return Some(ValidationException(NotSubtasksOfParent));
      }
      assert !exists k :: k in found && rows[k].parentId != req.parentId by {
        forall k | k in found ensures rows[k].parentId == req.parentId {
          var j :| 0 <= j < |todos| && todos[j] == k;
        }
      }
    } else {
      var topLevel := AllHaveParent(rows, todos, None);
      if !topLevel {
        var j :| 0 <= j < |todos| && rows[todos[j]].parentId != None;
        assert todos[j] in found;
        return Some(ValidationException(NotRootLevel));
      }
      assert !exists k :: k in found && rows[k].parentId.Some? by {
        forall k | k in found ensures rows[k].parentId.None? {
          var j :| 0 <= j < |todos| && todos[j] == k;
        }
      }
    }
    return None;
  }

  /** `[reorder.todo_id for reorder in reorders]`, element by element. */
  method CollectIds(reorders: seq<Reorder>) returns (todoIds: seq<int>)
    ensures todoIds == RequestIds(reorders)
  {
    todoIds := [];
    for i := 0 to |reorders|
      invariant todoIds == RequestIds(reorders[..i])
    {
      todoIds := todoIds + [reorders[i].todoId];
    }
    assert reorders[..|reorders|] == reorders;
  }

  /** The loop over the fetched todos that compares each `parent_id` with the expected one. */
  method AllHaveParent(rows: Table, todos: seq<int>, parentId: Option<int>) returns (ok: bool)
    requires forall j :: 0 <= j < |todos| ==> todos[j] in rows
    ensures ok <==> forall j :: 0 <= j < |todos| ==> rows[todos[j]].parentId == parentId
  {
    for i := 0 to |todos|
      invariant forall j :: 0 <= j < i ==> rows[todos[j]].parentId == parentId
    {
      if rows[todos[i]].parentId != parentId {
        return false;
      }
    }
    return true;
  }

  /** The dict comprehension `{todo_id: new_order}`, entry by entry. */
  method CollectOrders(reorders: seq<Reorder>) returns (orderMapping: map<int, int>)
    ensures orderMapping == OrderMapping(reorders)
  {
    orderMapping := map[];
    for i := 0 to |reorders|
      invariant orderMapping == OrderMapping(reorders[..i])
    {
      assert reorders[..i + 1][..i] == reorders[..i];
      orderMapping := orderMapping[reorders[i].todoId := reorders[i].newOrder];
    }
    assert reorders[..|reorders|] == reorders;
  }

  /** `todo.order = order_mapping[todo.id]` for each fetched todo, on the rows staged for the commit. */
  method StageOrders(rows: Table, todos: seq<int>, orderMapping: map<int, int>) returns (staged: Table)
    requires forall i, j :: 0 <= i < j < |todos| ==> todos[i] < todos[j]
    requires forall j :: 0 <= j < |todos| ==> todos[j] in rows && todos[j] in orderMapping
    ensures staged.Keys == rows.Keys
    ensures forall k :: k in rows ==>
      staged[k] == if k in todos then rows[k].(order := orderMapping[k]) else rows[k]
  {
    staged := rows;
    for i := 0 to |todos|
      invariant staged.Keys == rows.Keys
      invariant forall k :: k in staged ==>
        staged[k] == if k in todos[..i] then rows[k].(order := orderMapping[k]) else rows[k]
    {
      var k := todos[i];
      assert k !in todos[..i];
      staged := staged[k := staged[k].(order := orderMapping[k])];
      forall k' | k' in staged
        ensures staged[k'] == if k' in todos[..i + 1] then rows[k'].(order := orderMapping[k']) else rows[k']
      {
        assert k' in todos[..i + 1] <==> k' in todos[..i] || k' == k;
      }
    }
    assert todos[..|todos|] == todos;
  }

  /** Staging the fetched ids in ascending order gives the rows `Reordered` describes. */
  lemma StagedIsReordered(rows: Table, found: set<int>, orderMapping: map<int, int>, staged: Table)
    requires found <= orderMapping.Keys
    requires staged.Keys == rows.Keys
    requires forall k :: k in rows ==>
      staged[k] == if k in SortedIds(found) then rows[k].(order := orderMapping[k]) else rows[k]
    ensures staged == Reordered(rows, found, orderMapping)
  {
    var reordered := Reordered(rows, found, orderMapping);
    forall k | k in rows ensures staged[k] == reordered[k] {
      assert k in SortedIds(found) <==> k in found;
    }
  }
}
