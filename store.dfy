/**
 * The `todos` table as the service sees it through its session: rows keyed by id, a serial
 * id counter, the NOT NULL and foreign-key checks PostgreSQL makes at commit, the
 * `modified_at` stamp that SQLAlchemy adds to every row an UPDATE changes, and the ORM's
 * "all, delete-orphan" cascade from a todo to its subtasks (server/app/models/todos.py).
 */
module Store {
  import opened Wrappers
  import opened Text
  import opened Models
  import Exceptions

  /** The driver error SQLAlchemy wraps as IntegrityError: SQLSTATE, as `sqlstate` and/or `pgcode`, and the text. */
  datatype IntegrityError = IntegrityError(sqlstate: Option<string>, pgcode: Option<string>, text: string)

  /** The foreign key `todos.parent_id -> todos.id`. */
  const ParentForeignKey: string := "todos_parent_id_fkey"

  const ForeignKeyPrefix: string := "insert" + " or update" + " on table" + " \"todos\"" + " violates" + " foreign key "

  /** PostgreSQL's report of a `parent_id` that references no row. */
  function ForeignKeyViolation(parentId: int): IntegrityError {
    IntegrityError(Some(Exceptions.PgForeignKeyViolation), None,
      ForeignKeyPrefix + (Exceptions.ConstraintWord + " " + "\"" + ParentForeignKey + "\"" + ForeignKeyDetail(parentId)))
  }

  function ForeignKeyDetail(parentId: int): string {
    "\nDETAIL:  Key (parent_id)=(" + IntText(parentId) + ") is not present in table \"todos\"."
  }

  /** PostgreSQL's report of a NULL written to a NOT NULL column. */
  function NotNullViolation(column: string): IntegrityError {
    IntegrityError(Some("23502"), None, "null value in column \"" + column + "\" of relation \"todos\" violates not-null constraint")
  }

  /** The constraint named in a foreign-key report is `todos_parent_id_fkey`. */
  lemma ForeignKeyViolationNamesConstraint(parentId: int)
    ensures Exceptions.ExtractConstraintName(ForeignKeyViolation(parentId).text) == ParentForeignKey
  {
    ForeignKeyTextNamesConstraint(ForeignKeyDetail(parentId));
  }

  lemma ForeignKeyTextNamesConstraint(rest: string)
    ensures Exceptions.ExtractConstraintName(
              ForeignKeyPrefix + (Exceptions.ConstraintWord + " " + "\"" + ParentForeignKey + "\"" + rest)) == ParentForeignKey
  {
    PrefixHasNoC();
    ForeignKeyTail(rest);
    Exceptions.ConstraintAfterPlainPrefix(ForeignKeyPrefix, " ", ParentForeignKey, rest);
  }

  lemma PrefixHasNoC()
    ensures 'c' !in ForeignKeyPrefix
  {
    assert 'c' !in "insert" && 'c' !in " or update" && 'c' !in " on table";
    assert 'c' !in " \"todos\"" && 'c' !in " violates" && 'c' !in " foreign key ";
  }

  lemma ForeignKeyTail(rest: string)
    ensures Exceptions.ConstraintSplit(
              Exceptions.ConstraintWord + " " + "\"" + ParentForeignKey + "\"" + rest, " ", ParentForeignKey, rest)
  {
    assert Exceptions.AllIn(" ", Exceptions.Space);
    Exceptions.NoQuoteIsAllIn(ParentForeignKey);
    assert ParentForeignKey != [];
  }

  type Table = map<int, Todo>

  /** `session.get(Todo, id)`. */
  function Lookup(rows: Table, id: int): Option<Todo> {
    if id in rows then Some(rows[id]) else None
  }

  /**
   * What the database guarantees of the table: each row is stored under its own id, ids are
   * positive and below the next serial value, and every `parent_id` references a row.
   */
  ghost predicate WellFormed(rows: Table, nextId: int) {
    && nextId >= 1
    && forall k :: k in rows ==>
      && rows[k].id == k
      && 1 <= k < nextId
      && (rows[k].parentId.Some? ==> rows[k].parentId.value in rows)
  }

  /** The subtasks of any of the todos in `s`: the rows whose `parent_id` is in `s`. */
  function ChildrenOf(rows: Table, s: set<int>): set<int> {
    set k | k in rows && rows[k].parentId.Some? && rows[k].parentId.value in s
  }

  /** A proper subset is strictly smaller. */
  lemma ProperSubsetSmaller(a: set<int>, b: set<int>)
    requires a < b
    ensures |a| < |b|
  {
    var d := b - a;
    assert b == a + d;
    assert d != {};
  }

  /** The smallest set of rows that contains `s` and every subtask of its members. */
  function Closure(rows: Table, s: set<int>): (c: set<int>)
    requires s <= rows.Keys
    ensures s <= c <= rows.Keys
    ensures ChildrenOf(rows, c) <= c
    decreases |rows.Keys - s|
  {
    var next := s + ChildrenOf(rows, s);
    if next == s then s
    else
      ProperSubsetSmaller(rows.Keys - next, rows.Keys - s);
      Closure(rows, next)
  }

  /** Closure is the least closed superset: every closed superset of `s` contains it. */
  lemma {:induction false} ClosureLeast(rows: Table, s: set<int>, d: set<int>)
    requires s <= rows.Keys && s <= d && ChildrenOf(rows, d) <= d
    ensures Closure(rows, s) <= d
    decreases |rows.Keys - s|
  {
    var next := s + ChildrenOf(rows, s);
    if next != s {
      ProperSubsetSmaller(rows.Keys - next, rows.Keys - s);
      assert ChildrenOf(rows, s) <= ChildrenOf(rows, d);
      ClosureLeast(rows, next, d);
    }
  }

  /** What deleting todo `id` removes: the todo and, transitively, its subtasks. */
  function Cascade(rows: Table, id: int): (c: set<int>)
    requires id in rows
    ensures id in c && c <= rows.Keys
    ensures forall k :: k in rows && rows[k].parentId == Some(id) ==> k in c
    ensures forall k :: k in rows && rows[k].parentId.Some? && rows[k].parentId.value in c ==> k in c
  {
    var c := Closure(rows, {id});
    assert forall k :: k in rows && rows[k].parentId.Some? && rows[k].parentId.value in c ==> k in ChildrenOf(rows, c);
    c
  }

  /** Deleting the cascade keeps every remaining `parent_id` pointing at a remaining row. */
  lemma DeleteKeepsWellFormed(rows: Table, nextId: int, id: int)
    requires WellFormed(rows, nextId) && id in rows
    ensures WellFormed(rows - Cascade(rows, id), nextId)
  {
  }

  /**
   * When every subtask has its parent's owner, everything the cascade removes belongs to
   * the owner of the deleted todo.
   */
  lemma CascadeStaysWithOwner(rows: Table, id: int)
    requires id in rows
    requires forall k :: k in rows && rows[k].parentId.Some? && rows[k].parentId.value in rows ==>
               rows[rows[k].parentId.value].userId == rows[k].userId
    ensures forall k :: k in Cascade(rows, id) ==> rows[k].userId == rows[id].userId
  {
    var owned := set k | k in rows && rows[k].userId == rows[id].userId;
    forall k | k in ChildrenOf(rows, owned) ensures k in owned {
      assert rows[rows[k].parentId.value].userId == rows[k].userId;
    }
    ClosureLeast(rows, {id}, owned);
  }

  /**
   * The rows that the ORM is about to write, with the INSERT defaults: a fresh serial id and
   * both timestamps set to `now`. An unknown `parent_id` fails the foreign key and nothing
   * is written, but the serial value taken by `nextval` is not given back: sequences are
   * outside the transaction that rolls back.
   */
  function InsertResult(rows: Table, nextId: int, t: Todo, now: int): (r: (Result<Todo, IntegrityError>, Table, int))
    requires WellFormed(rows, nextId)
    ensures WellFormed(r.1, r.2)
    ensures r.0.Err? <==> t.parentId.Some? && t.parentId.value !in rows
    ensures r.2 == nextId + 1
    ensures r.0.Err? ==> r.0.error == ForeignKeyViolation(t.parentId.value) && r.1 == rows
    ensures r.0.Ok? ==> r.0.value.id !in rows && r.1 == rows[r.0.value.id := r.0.value]
    ensures r.0.Ok? ==> r.0.value == t.(id := nextId, createdAt := now, modifiedAt := now)
  {
    if t.parentId.Some? && t.parentId.value !in rows then (Err(ForeignKeyViolation(t.parentId.value)), rows, nextId + 1)
    else
      var row := t.(id := nextId, createdAt := now, modifiedAt := now);
      assert nextId !in rows;
      (Ok(row), rows[nextId := row], nextId + 1)
  }

  /** The `onupdate=now()` of `modified_at`: rows the flush changes get `now`; the rest are as staged. */
  function Stamp(before: Table, staged: Table, now: int): (r: Table)
    ensures r.Keys == staged.Keys
    ensures forall k :: k in staged && k in before && staged[k] != before[k] ==> r[k] == staged[k].(modifiedAt := now)
    ensures forall k :: k in staged && (k !in before || staged[k] == before[k]) ==> r[k] == staged[k]
  {
    map k | k in staged :: if k in before && staged[k] != before[k] then staged[k].(modifiedAt := now) else staged[k]
  }

  /** A row being edited in the session: the columns an update may set can hold None. */
  datatype Draft = Draft(
    row: Todo,
    title: Option<string>,
    status: Option<TodoStatus>,
    isBookmarked: Option<bool>,
    order: Option<int>,
    parentId: Option<int>)

  function ToDraft(t: Todo): Draft {
    Draft(t, Some(t.title), Some(t.status), Some(t.isBookmarked), Some(t.order), t.parentId)
  }

  /** The first NOT NULL column, in table order, that the draft sets to None. */
  function FirstNullColumn(d: Draft): Option<string> {
    if d.title.None? then Some("title")
    else if d.status.None? then Some("status")
    else if d.isBookmarked.None? then Some("is_bookmarked")
    else if d.order.None? then Some("order")
    else None
  }

  function Realize(d: Draft): Todo
    requires FirstNullColumn(d).None?
  {
    d.row.(title := d.title.value, status := d.status.value, isBookmarked := d.isBookmarked.value,
           order := d.order.value, parentId := d.parentId)
  }

  /** Realizing an untouched draft gives back the row it was made from. */
  lemma RealizeToDraft(t: Todo)
    ensures FirstNullColumn(ToDraft(t)).None? && Realize(ToDraft(t)) == t
  {
  }

  /**
   * Commit of an edited row: a NULL in a NOT NULL column or an unknown `parent_id` is
   * refused and nothing changes; otherwise the row is written, stamped if it changed.
   */
  function FlushResult(rows: Table, nextId: int, d: Draft, now: int): (r: (Result<Todo, IntegrityError>, Table))
    requires WellFormed(rows, nextId) && d.row.id in rows && rows[d.row.id].id == d.row.id
    ensures WellFormed(r.1, nextId)
    ensures r.0.Err? ==> r.1 == rows
    ensures r.0.Ok? ==> FirstNullColumn(d).None? && r.1 == Stamp(rows, rows[d.row.id := Realize(d)], now) && r.0.value == r.1[d.row.id]
  {
    match FirstNullColumn(d)
    case Some(column) => (Err(NotNullViolation(column)), rows)
    case None =>
      var t := Realize(d);
      if t.parentId.Some? && t.parentId.value !in rows then (Err(ForeignKeyViolation(t.parentId.value)), rows)
      else
        var after := Stamp(rows, rows[t.id := t], now);
        (Ok(after[t.id]), after)
  }

  class TodoStore {
    var rows: Table
    var nextId: int

    ghost predicate Valid()
      reads this
    {
      WellFormed(rows, nextId)
    }

    /** An empty table; the serial starts at 1. */
    constructor ()
      ensures Valid() && rows == map[] && nextId == 1
    {
      rows := map[];
      nextId := 1;
    }

    /** `session.add(todo); commit()`. */
    method Insert(t: Todo, now: int) returns (r: Result<Todo, IntegrityError>)
      requires Valid()
      modifies this
      ensures Valid()
      ensures (r, rows, nextId) == InsertResult(old(rows), old(nextId), t, now)
    {
      if t.parentId.Some? && t.parentId.value !in rows {
        r := Err(ForeignKeyViolation(t.parentId.value));
        nextId := nextId + 1;
      } else {
        var row := t.(id := nextId, createdAt := now, modifiedAt := now);
        rows := rows[nextId := row];
        nextId := nextId + 1;
        r := Ok(row);
      }
    }

    /** `commit()` after attribute assignments on one row. */
    method Flush(d: Draft, now: int) returns (r: Result<Todo, IntegrityError>)
      requires Valid() && d.row.id in rows && rows[d.row.id].id == d.row.id
      modifies this
      ensures Valid() && nextId == old(nextId)
      ensures (r, rows) == FlushResult(old(rows), old(nextId), d, now)
    {
      var outcome := FlushResult(rows, nextId, d, now);
      r := outcome.0;
      rows := outcome.1;
    }

    /** `commit()` after assigning to several rows; only the listed kind of change is allowed. */
    method CommitRows(staged: Table, now: int)
      requires Valid() && WellFormed(staged, nextId) && staged.Keys == rows.Keys
      modifies this
      ensures Valid() && nextId == old(nextId)
      ensures rows == Stamp(old(rows), staged, now)
    {
      rows := Stamp(rows, staged, now);
      assert forall k :: k in rows ==> rows[k].id == staged[k].id && rows[k].parentId == staged[k].parentId;
    }

    /** `session.delete(todo); commit()`: the todo and, by cascade, its subtasks. */
    method Delete(id: int)
      requires Valid() && id in rows
      modifies this
      ensures Valid() && nextId == old(nextId)
      ensures rows == old(rows) - Cascade(old(rows), id)
    {
      DeleteKeepsWellFormed(rows, nextId, id);
      rows := rows - Cascade(rows, id);
    }
  }
}
