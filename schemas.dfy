/** Request and response shapes of the todo API (server/app/schemas/todos.py). */
module Schemas {
  import opened Wrappers
  import opened Models

  /** `TodoCreate`: `title` is required; the other fields have defaults. */
  datatype TodoCreate = TodoCreate(
    title: string,
    status: TodoStatus,
    isBookmarked: bool,
    order: int,
    parentId: Option<int>)

  /** A `TodoCreate` where only the title was sent. */
  function TodoCreateWithDefaults(title: string): (c: TodoCreate)
    ensures c.title == title && c.status == Pending && !c.isBookmarked && c.order == 0 && c.parentId == None
  {
    TodoCreate(title, Pending, false, 0, None)
  }

  /** A field of a patch: not sent at all, or sent with a value that may be null. */
  datatype Field<+T> = Unset | Set(value: Option<T>) {
    /** The attribute as Python reads it: the default None when unset. */
    function Attr(): Option<T> {
      match this
      case Unset => None
      case Set(v) => v
    }
  }

  /** `TodoUpdate`: every field optional, so it acts as a patch. */
  datatype TodoUpdate = TodoUpdate(
    title: Field<string>,
    status: Field<TodoStatus>,
    isBookmarked: Field<bool>,
    order: Field<int>,
    parentId: Field<int>)

  /** One entry of `model_dump(exclude_unset=True)`: a field name with the value that was sent. */
  datatype Assignment =
    | AssignTitle(title: Option<string>)
    | AssignStatus(status: Option<TodoStatus>)
    | AssignIsBookmarked(isBookmarked: Option<bool>)
    | AssignOrder(order: Option<int>)
    | AssignParentId(parentId: Option<int>)

  /** `model_dump(exclude_unset=True)`: the fields that were sent, in declaration order. */
  function DumpExcludeUnset(u: TodoUpdate): seq<Assignment> {
    (if u.title.Set? then [AssignTitle(u.title.value)] else [])
    + (if u.status.Set? then [AssignStatus(u.status.value)] else [])
    + (if u.isBookmarked.Set? then [AssignIsBookmarked(u.isBookmarked.value)] else [])
    + (if u.order.Set? then [AssignOrder(u.order.value)] else [])
    + (if u.parentId.Set? then [AssignParentId(u.parentId.value)] else [])
  }

  /** `TodoResponse`: the row's columns plus `subtasks`, which defaults to the empty list. */
  datatype TodoView = TodoView(todo: Todo, subtasks: seq<Todo>)

  function ResponseOf(t: Todo): (v: TodoView)
    ensures v.todo == t && v.subtasks == []
  {
    TodoView(t, [])
  }

  /** `TodoResponse.model_fields`, in declaration order (inherited fields first). */
  const ResponseFields: seq<string> :=
    ["title", "status", "is_bookmarked", "order", "parent_id", "id", "user_id", "created_at", "modified_at", "subtasks"]

  /**
   * The `columns` filter. Its default is written `None,` with a trailing comma, so the
   * default value is the one-element tuple `(None,)`, not None.
   */
  datatype Columns = NoneTuple | ColumnsText(text: string)

  /** `TodoFilter`: every field optional. */
  datatype TodoFilter = TodoFilter(
    status: Option<TodoStatus>,
    isBookmarked: Option<bool>,
    search: Option<string>,
    parentId: Option<int>,
    columns: Columns)

  function DefaultFilter(): (f: TodoFilter)
    ensures f.status == None && f.isBookmarked == None && f.search == None && f.parentId == None
    ensures f.columns == NoneTuple
  {
    TodoFilter(None, None, None, None, NoneTuple)
  }

  /** `PaginationParams`: plain ints and strings, with no range or allow-list constraint. */
  datatype PaginationParams = PaginationParams(page: int, pageSize: int, orderBy: string, orderDirection: string)

  function DefaultPagination(): (p: PaginationParams)
    ensures p.page == 1 && p.pageSize == 10 && p.orderBy == "created_at" && p.orderDirection == "desc"
  {
    PaginationParams(1, 10, "created_at", "desc")
  }

  /** One entry of a reorder request. */
  datatype Reorder = Reorder(todoId: int, newOrder: int)

  /** A reorder request: the new orders, and the sibling group (None for the top level). */
  datatype TodoReorderRequest = TodoReorderRequest(reorders: seq<Reorder>, parentId: Option<int>)
}
