/**
 * The older router for `/todos`, which works on the session directly instead of through
 * `TodoService`. Its get, delete and list behave as the service's do (list with a
 * different ordering and column check); its create and update differ in which exceptions
 * they let through. Each handler is a method on the store proved equal to a spec function,
 * and the lemmas below compare those functions with the service's.
 */
module Legacy {
  import opened Wrappers
  import opened Models
  import opened Schemas
  import opened Exceptions
  import opened Store
  import opened Grouping
  import opened Listing
  import opened Service

  // ---------------------------------------------------------------------------
  // create_todo

  /** The request after `if todo_in.parent_id < 1: todo_in.parent_id = None`. */
  function Normalized(c: TodoCreate): (n: TodoCreate)
    requires c.parentId.Some?
    ensures n.parentId.None? || n.parentId.value >= 1
    ensures n.parentId.Some? ==> n.parentId == c.parentId
    ensures n == c.(parentId := n.parentId)
  {
    if c.parentId.value < 1 then c.(parentId := None) else c
  }

  /**
   * `create_todo` of the older router. With no `parent_id` the comparison `None < 1` raises
   * a TypeError, which the catch-all turns into the generic error; validation errors pass
   * through; a database error also becomes the generic error.
   */
  function LegacyCreateResult(rows: Table, nextId: int, c: TodoCreate, userId: int, now: int)
    : (r: (Result<TodoView, AppError>, Table, int))
    requires WellFormed(rows, nextId)
    ensures WellFormed(r.1, r.2)
    ensures r.0.Err? ==> r.1 == rows
  {
    if c.parentId.None? then (Err(BaseAppException(CreateFailed)), rows, nextId)
    else
      var request := Normalized(c);
      var check := if Truthy(request.parentId) then ValidateParentTodo(rows, request.parentId.value, userId) else None;
      if check.Some? then (Err(check.value), rows, nextId)
      else
        var inserted := InsertResult(rows, nextId, NewRow(request, userId), now);
        match inserted.0
        case Ok(todo) => (Ok(ResponseOf(todo)), inserted.1, inserted.2)
        case Err(_) => (Err(BaseAppException(CreateFailed)), rows, inserted.2)
  }

  /**
   * Apart from the request without `parent_id`, which always fails with the generic error,
   * the older create is the service's create on the normalised request: the same table
   * afterwards, the same todo, and the same validation errors.
   */
  lemma LegacyCreateAsService(rows: Table, nextId: int, c: TodoCreate, userId: int, now: int)
    requires WellFormed(rows, nextId)
    ensures var (r, after, next) := LegacyCreateResult(rows, nextId, c, userId, now);
      && (c.parentId.None? ==> r == Err(BaseAppException(CreateFailed)) && after == rows && next == nextId)
      && (c.parentId.Some? ==>
            var (sr, sAfter, sNext) := CreateResult(rows, nextId, Normalized(c), userId, now);
            && after == sAfter && next == sNext
            && (r.Ok? <==> sr.Ok?)
            && (r.Ok? ==> r.value == sr.value)
            && (r.Err? ==> sr == Err(AppFailure(r.error)) && r.error.kind == Validation))
  {
    if c.parentId.Some? {
      var n := Normalized(c);
      CreateSpec(rows, nextId, n, userId, now);
      if n.parentId.Some? {
        var p := n.parentId.value;
        if p in rows && rows[p].parentId.Some? {
          assert rows[p].parentId.value in rows;
        }
      }
    }
  }

  /**
   * The older create succeeds exactly when `parent_id` is given and is below 1 or names an
   * owned top-level todo; the new row then has no parent in the first case.
   */
  lemma LegacyCreateSpec(rows: Table, nextId: int, c: TodoCreate, userId: int, now: int)
    requires WellFormed(rows, nextId)
    ensures var (r, after, next) := LegacyCreateResult(rows, nextId, c, userId, now);
      && (r.Ok? <==> c.parentId.Some? && (c.parentId.value < 1 || OwnedTopLevel(rows, c.parentId.value, userId)))
      && (r.Ok? ==>
            var parent := if c.parentId.value < 1 then None else c.parentId;
            && r.value.todo == Todo(nextId, c.title, c.status, c.isBookmarked, c.order, now, now, userId, parent)
            && after == rows[nextId := r.value.todo] && next == nextId + 1)
  {
    LegacyCreateAsService(rows, nextId, c, userId, now);
    if c.parentId.Some? {
      CreateSpec(rows, nextId, Normalized(c), userId, now);
    }
  }

  /**
   * `parent_id` 0 is normalised to no parent, so the older create makes a top-level todo
   * where the service fails the foreign key.
   */
  lemma LegacyCreateWithParentZero(rows: Table, nextId: int, c: TodoCreate, userId: int, now: int)
    requires WellFormed(rows, nextId) && c.parentId == Some(0)
    ensures var (r, after, next) := LegacyCreateResult(rows, nextId, c, userId, now);
      r.Ok? && r.value.todo.parentId.None? && next == nextId + 1
    ensures CreateResult(rows, nextId, c, userId, now).0.Err?
  {
    LegacyCreateSpec(rows, nextId, c, userId, now);
    CreateWithParentZero(rows, nextId, c, userId, now);
  }

  /** `create_todo`. */
  method CreateTodo(db: TodoStore, todoIn: TodoCreate, userId: int, now: int) returns (r: Result<TodoView, AppError>)
    requires db.Valid()
    modifies db
    ensures db.Valid()
    ensures (r, db.rows, db.nextId) == LegacyCreateResult(old(db.rows), old(db.nextId), todoIn, userId, now)
  {
    if todoIn.parentId.None? {
      return Err(BaseAppException(CreateFailed));
    }
    var request := todoIn;
    if request.parentId.value < 1 {
      request := request.(parentId := None);
    }
    if Truthy(request.parentId) {
      var e := ValidateParentTodo(db.rows, request.parentId.value, userId);
      if e.Some? {
        return Err(e.value);
      }
    }
    var inserted := db.Insert(NewRow(request, userId), now);
    match inserted
    case Ok(todo) =>
      r := Ok(ResponseOf(todo));
    case Err(_) =>
      r := Err(BaseAppException(CreateFailed));
  }

  // ---------------------------------------------------------------------------
  // list_todos, get_todo and delete_todo

  /** `list_todos`: the column check, then the joined, filtered, ordered page, regrouped. */
  method ListTodos(db: TodoStore, userId: int, filters: TodoFilter, pagination: PaginationParams)
    returns (r: Result<seq<TodoView>, AppError>)
    ensures r == LegacyListResult(db.rows, userId, filters, pagination)
  {
    var requestedColumns := RequestedColumns(filters.columns);
    if requestedColumns.Err? {
      return Err(requestedColumns.error);
    }
    var todoPairs := Selected(db.rows, userId, filters, LegacyOrdering(pagination));
    var page := Window(todoPairs, Offset(pagination), pagination.pageSize);
    if page.None? {
      return Err(BaseAppException(RetrieveTodosFailed));
    }
    var todos := NestSubtasks(page.value);
    r := Ok(todos);
  }

  /** `get_todo`: the same outcome as the service's. */
  method GetTodo(db: TodoStore, todoId: int, userId: int) returns (r: Result<TodoView, AppError>)
    ensures r == GetTodoResult(db.rows, todoId, userId)
  {
    var todo := Lookup(db.rows, todoId);
    if todo.None? || todo.value.userId != userId {
      return Err(ResourceNotFoundException(TodoNotFound));
    }
    r := Ok(ResponseOf(todo.value));
  }

  /** `delete_todo`: the same outcome and table as the service's. */
  method DeleteTodo(db: TodoStore, todoId: int, userId: int) returns (r: Result<(), AppError>)
    requires db.Valid()
    modifies db
    ensures db.Valid() && db.nextId == old(db.nextId)
    ensures (r, db.rows) == DeleteResult(old(db.rows), todoId, userId)
  {
    var todo := Lookup(db.rows, todoId);
    if todo.None? || todo.value.userId != userId {
      return Err(ResourceNotFoundException(TodoNotFound));
    }
    db.Delete(todoId);
    r := Ok(());
  }

  // ---------------------------------------------------------------------------
  // update_todo

  /**
   * The parent checks of the older update. Only ResourceNotFoundException passes the
   * handler's `except`; the two ValidationExceptions become the generic error.
   */
  function LegacyParentCheck(rows: Table, todoId: int, newParent: Option<int>, userId: int): Option<AppError> {
    if newParent.None? then None
    else if newParent.value == todoId then Some(BaseAppException(UpdateFailed))
    else
      match GetTodoById(rows, newParent.value, userId)
      case None => Some(ResourceNotFoundException(ParentNotFound))
      case Some(parent) => if Truthy(parent.parentId) then Some(BaseAppException(UpdateFailed)) else None
  }

  /** `update_todo` of the older router: the outcome and the table after it. */
  function LegacyUpdateResult(rows: Table, nextId: int, todoId: int, u: TodoUpdate, userId: int, now: int)
    : (r: (Result<TodoView, AppError>, Table))
    requires WellFormed(rows, nextId)
    ensures WellFormed(r.1, nextId)
    ensures r.0.Err? ==> r.1 == rows
  {
    match GetTodoById(rows, todoId, userId)
    case None => (Err(ResourceNotFoundException(TodoNotFound)), rows)
    case Some(todo) =>
      match LegacyParentCheck(rows, todoId, u.parentId.Attr(), userId)
      case Some(e) => (Err(e), rows)
      case None =>
        var flushed := FlushResult(rows, nextId, AssignAll(ToDraft(todo), DumpExcludeUnset(u)), now);
        match flushed.0
        case Ok(t) => (Ok(ResponseOf(t)), flushed.1)
        case Err(_) => (Err(BaseAppException(UpdateFailed)), rows)
  }

  /** The two routers refuse the same new parents; the older one never with a ValidationException. */
  lemma ParentChecksAgree(rows: Table, todoId: int, newParent: Option<int>, userId: int)
    ensures LegacyParentCheck(rows, todoId, newParent, userId).None?
        <==> UpdateParentCheck(rows, todoId, newParent, userId).None?
    ensures LegacyParentCheck(rows, todoId, newParent, userId).Some? ==>
              LegacyParentCheck(rows, todoId, newParent, userId).value.kind != Validation
  {
  }

  /**
   * The older update succeeds on exactly the requests the service's does, with the same row
   * and table; it only reports failures differently, and never with a 400.
   */
  lemma LegacyUpdateAsService(rows: Table, nextId: int, todoId: int, u: TodoUpdate, userId: int, now: int)
    requires WellFormed(rows, nextId)
    ensures var (r, after) := LegacyUpdateResult(rows, nextId, todoId, u, userId, now);
      var (sr, sAfter) := UpdateResult(rows, nextId, todoId, u, userId, now);
      && after == sAfter
      && (r.Ok? <==> sr.Ok?)
      && (r.Ok? ==> r.value == sr.value)
      && (r.Err? ==> r.error.kind != Validation)
  {
    var newParent := u.parentId.Attr();
    ParentChecksAgree(rows, todoId, newParent, userId);
    if todoId in rows && rows[todoId].userId == userId && LegacyParentCheck(rows, todoId, newParent, userId).None? {
      var flushed := FlushResult(rows, nextId, AssignAll(ToDraft(rows[todoId]), DumpExcludeUnset(u)), now);
      var legacy := LegacyUpdateResult(rows, nextId, todoId, u, userId, now);
      var service := UpdateResult(rows, nextId, todoId, u, userId, now);
      assert flushed.0.Ok? ==> legacy == (Ok(ResponseOf(flushed.0.value)), flushed.1) && service == (Ok(ResponseOf(flushed.0.value)), flushed.1);
      assert flushed.0.Err? ==> legacy == (Err(BaseAppException(UpdateFailed)), rows) && service.0.Err? && service.1 == rows;
    }
  }

  /**
   * The parent checks of the older update, in order: a todo made its own parent is the
   * generic 500 error, an unowned parent is NotFound, and a parent that is a subtask is the
   * generic error again. Each leaves the table as it was.
   */
  lemma LegacyUpdateParentErrors(rows: Table, nextId: int, todoId: int, u: TodoUpdate, userId: int, now: int)
    requires WellFormed(rows, nextId)
    requires todoId in rows && rows[todoId].userId == userId && u.parentId.Attr().Some?
    ensures var p := u.parentId.Attr().value;
      var r := LegacyUpdateResult(rows, nextId, todoId, u, userId, now);
      && (p == todoId ==> r == (Err(BaseAppException(UpdateFailed)), rows))
      && (p != todoId && (p !in rows || rows[p].userId != userId) ==>
            r == (Err(ResourceNotFoundException(ParentNotFound)), rows))
      && (p != todoId && p in rows && rows[p].userId == userId && rows[p].parentId.Some? ==>
            r == (Err(BaseAppException(UpdateFailed)), rows))
  {
    var p := u.parentId.Attr().value;
    if p in rows && rows[p].parentId.Some? {
      assert rows[p].parentId.value in rows;
    }
  }

  /**
   * A null sent for a NOT NULL column passes the checks and fails at the database; the older
   * router reports it as the generic error, where the service re-raises it.
   */
  lemma LegacyUpdateNullColumn(rows: Table, nextId: int, todoId: int, u: TodoUpdate, userId: int, now: int)
    requires WellFormed(rows, nextId)
    requires todoId in rows && rows[todoId].userId == userId
    requires LegacyParentCheck(rows, todoId, u.parentId.Attr(), userId).None?
    requires FirstNullColumn(Patched(ToDraft(rows[todoId]), u)).Some?
    ensures LegacyUpdateResult(rows, nextId, todoId, u, userId, now) == (Err(BaseAppException(UpdateFailed)), rows)
  {
    DumpAssignsPatch(ToDraft(rows[todoId]), u);
  }

  /** `update_todo`: the checks, one `setattr` per field of the exclude-unset dump, then the commit. */
  method UpdateTodo(db: TodoStore, todoId: int, todoIn: TodoUpdate, userId: int, now: int)
    returns (r: Result<TodoView, AppError>)
    requires db.Valid()
    modifies db
    ensures db.Valid() && db.nextId == old(db.nextId)
    ensures (r, db.rows) == LegacyUpdateResult(old(db.rows), old(db.nextId), todoId, todoIn, userId, now)
  {
    var todo := Lookup(db.rows, todoId);
    if todo.None? || todo.value.userId != userId {
      return Err(ResourceNotFoundException(TodoNotFound));
    }
    var newParent := todoIn.parentId.Attr();
    if newParent.Some? {
      if newParent.value == todoId {
        return Err(BaseAppException(UpdateFailed));
      }
      var parent := Lookup(db.rows, newParent.value);
      if parent.None? || parent.value.userId != userId {
        return Err(ResourceNotFoundException(ParentNotFound));
      }
      if Truthy(parent.value.parentId) {
        return Err(BaseAppException(UpdateFailed));
      }
    }
    var todoData := DumpExcludeUnset(todoIn);
    var draft := ToDraft(todo.value);
    for i := 0 to |todoData|
      invariant draft == AssignAll(ToDraft(todo.value), todoData[..i])
    {
      assert todoData[..i + 1][..i] == todoData[..i];
      draft := Assign(draft, todoData[i]);
    }
    assert todoData[..|todoData|] == todoData;
    var flushed := db.Flush(draft, now);
    match flushed
    case Ok(t) =>
      r := Ok(ResponseOf(t));
    case Err(_) =>
      r := Err(BaseAppException(UpdateFailed));
  }
}
