/** The `todos` table row and its status enumeration (server/app/models/todos.py). */
module Models {
  import opened Wrappers

  /** `TodoStatus`: a string enum with exactly three members, in this declaration order. */
  datatype TodoStatus = Pending | InProgress | Completed

  /** The string value of each member. */
  function StatusValue(s: TodoStatus): string {
    match s
    case Pending => "pending"
    case InProgress => "in_progress"
    case Completed => "completed"
  }

  /** `TodoStatus(v)`: the member whose value is `v`, if any. */
  function ParseStatus(v: string): (s: Option<TodoStatus>)
    ensures s.Some? ==> StatusValue(s.value) == v
  {
    if v == "pending" then Some(Pending)
    else if v == "in_progress" then Some(InProgress)
    else if v == "completed" then Some(Completed)
    else None
  }

  /** The three values are distinct and each one parses back to its own member. */
  lemma StatusValuesRoundTrip(s: TodoStatus)
    ensures ParseStatus(StatusValue(s)) == Some(s)
  {
  }

  /**
   * One row of `todos`. `createdAt` and `modifiedAt` stand for the server-side timestamps
   * (as instants supplied by the caller); `parentId` references another row's `id`.
   */
  datatype Todo = Todo(
    id: int,
    title: string,
    status: TodoStatus,
    isBookmarked: bool,
    order: int,
    createdAt: int,
    modifiedAt: int,
    userId: int,
    parentId: Option<int>)

  /** A row built from only the required columns: every other column takes its default. */
  function NewTodo(title: string, userId: int, now: int): (t: Todo)
    ensures t.title == title && t.userId == userId
    ensures t.status == Pending && !t.isBookmarked && t.order == 0 && t.parentId == None
  {
    Todo(0, title, Pending, false, 0, now, now, userId, None)
  }

  /** Python truthiness of an optional id: None and 0 are false. */
  predicate Truthy(id: Option<int>) {
    id.Some? && id.value != 0
  }
}
