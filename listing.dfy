/**
 * The list query of `list_todos` (server/app/services/todos.py) and of the older router
 * (server/app/api/endpoints/todos.py) as functions over the table: the outer join of each
 * top-level todo with its subtasks, the filters, the ORDER BY, and OFFSET/LIMIT.
 */
module Listing {
  import opened Wrappers
  import opened Text
  import opened Models
  import opened Schemas
  import opened Store
  import opened Grouping
  import opened Exceptions

  // ---------------------------------------------------------------------------
  // Table scans in id order

  lemma MinExists(s: set<int>)
    requires s != {}
    ensures exists m :: m in s && forall x :: x in s ==> m <= x
    decreases |s|
  {
    if forall x :: x !in s {
      assert false;
    }
    var y :| y in s;
    if s != {y} {
      MinExists(s - {y});
      var m :| m in s - {y} && forall x :: x in s - {y} ==> m <= x;
      var least := if y < m then y else m;
      forall x | x in s ensures least <= x {
        if x != y {
          assert x in s - {y};
        }
      }
    }
  }

  function MinOf(s: set<int>): (m: int)
    requires s != {}
    ensures m in s && forall x :: x in s ==> m <= x
  {
    MinExists(s);
    var m :| m in s && forall x :: x in s ==> m <= x;
    m
  }

  /** The elements of `s` in ascending order. */
  function SortedIds(s: set<int>): (r: seq<int>)
    ensures forall x :: x in r <==> x in s
    ensures forall i, j :: 0 <= i < j < |r| ==> r[i] < r[j]
    ensures |r| == |s|
    decreases |s|
  {
    if s == {} then []
    else
      var m := MinOf(s);
      [m] + SortedIds(s - {m})
  }

  // ---------------------------------------------------------------------------
  // The outer join `t LEFT OUTER JOIN st ON st.parent_id = t.id`
  // WHERE t.user_id = :user AND t.parent_id IS NULL

  /** Ids of the caller's top-level todos, ascending. */
  function TopLevelIds(rows: Table, userId: int): (ids: seq<int>)
    ensures forall id :: id in ids <==> id in rows && rows[id].userId == userId && rows[id].parentId.None?
    ensures forall i, j :: 0 <= i < j < |ids| ==> ids[i] < ids[j]
  {
    SortedIds(set id | id in rows && rows[id].userId == userId && rows[id].parentId.None?)
  }

  /** Ids of the rows whose `parent_id` is `parentId`, ascending. */
  function ChildIds(rows: Table, parentId: int): (ids: seq<int>)
    ensures forall id :: id in ids <==> id in rows && rows[id].parentId == Some(parentId)
    ensures forall i, j :: 0 <= i < j < |ids| ==> ids[i] < ids[j]
  {
    SortedIds(set id | id in rows && rows[id].parentId == Some(parentId))
  }

  /** The join rows of one parent: one per subtask, or a single row with a null subtask. */
  function RowsOfParent(rows: Table, p: int): seq<JoinRow>
    requires p in rows
  {
    var subs := ChildIds(rows, p);
    if subs == [] then [JoinRow(rows[p], None)]
    else seq(|subs|, i requires 0 <= i < |subs| => JoinRow(rows[p], Some(rows[subs[i]])))
  }

  function RowsOfParents(rows: Table, ps: seq<int>): seq<JoinRow>
    requires forall p :: p in ps ==> p in rows
  {
    if ps == [] then [] else RowsOfParent(rows, ps[0]) + RowsOfParents(rows, ps[1..])
  }

  /** The unfiltered join, parents in id order and each parent's subtasks in id order. */
  function JoinRows(rows: Table, userId: int): seq<JoinRow> {
    RowsOfParents(rows, TopLevelIds(rows, userId))
  }

  /** A row of the join: an owned top-level parent with one of its subtasks, or with null when it has none. */
  ghost predicate IsJoinRow(rows: Table, userId: int, r: JoinRow) {
    var p := r.parent.id;
    && p in rows && rows[p] == r.parent && r.parent.userId == userId && r.parent.parentId.None?
    && match r.sub
       case None => forall k :: k in rows ==> rows[k].parentId != Some(p)
       case Some(s) => s.id in rows && rows[s.id] == s && s.parentId == Some(p)
  }

  lemma {:induction false} RowsOfParentsSpec(rows: Table, userId: int, ps: seq<int>)
    requires forall k :: k in rows ==> rows[k].id == k
    requires forall p :: p in ps ==> p in rows && rows[p].userId == userId && rows[p].parentId.None?
    ensures forall r :: r in RowsOfParents(rows, ps) ==> r.parent.id in ps && IsJoinRow(rows, userId, r)
    ensures forall r: JoinRow :: r.parent.id in ps && IsJoinRow(rows, userId, r) ==> r in RowsOfParents(rows, ps)
    decreases |ps|
  {
    if ps != [] {
      RowsOfParentsSpec(rows, userId, ps[1..]);
      RowsOfParentSpec(rows, userId, ps[0]);
    }
  }

  lemma RowsOfParentSpec(rows: Table, userId: int, p: int)
    requires forall k :: k in rows ==> rows[k].id == k
    requires p in rows && rows[p].userId == userId && rows[p].parentId.None?
    ensures forall r :: r in RowsOfParent(rows, p) ==> r.parent.id == p && IsJoinRow(rows, userId, r)
    ensures forall r: JoinRow :: r.parent.id == p && IsJoinRow(rows, userId, r) ==> r in RowsOfParent(rows, p)
  {
    forall r: JoinRow | r.parent.id == p && IsJoinRow(rows, userId, r) ensures r in RowsOfParent(rows, p) {
      JoinRowOfParent(rows, userId, p, r);
    }
  }

  /** One join row of the parent: the row with that subtask, or the null-subtask row. */
  lemma JoinRowOfParent(rows: Table, userId: int, p: int, r: JoinRow)
    requires forall k :: k in rows ==> rows[k].id == k
    requires p in rows && r.parent.id == p && IsJoinRow(rows, userId, r)
    ensures r in RowsOfParent(rows, p)
  {
    var subs := ChildIds(rows, p);
    if r.sub.Some? {
      var s := r.sub.value;
      assert s.id in subs;
      var i :| 0 <= i < |subs| && subs[i] == s.id;
      assert RowsOfParent(rows, p)[i] == r;
    } else {
      assert (set id | id in rows && rows[id].parentId == Some(p)) == {};
    }
  }

  /** The join holds exactly the rows the outer join produces for the caller's top-level todos. */
  lemma JoinRowsSpec(rows: Table, userId: int)
    requires forall k :: k in rows ==> rows[k].id == k
    ensures forall r :: r in JoinRows(rows, userId) <==> IsJoinRow(rows, userId, r)
  {
    var ps := TopLevelIds(rows, userId);
    RowsOfParentsSpec(rows, userId, ps);
    forall r | IsJoinRow(rows, userId, r) ensures r.parent.id in ps {
    }
  }

  // ---------------------------------------------------------------------------
  // WHERE: the optional filters, all on the parent row

  /** The ILIKE pattern's text: the trimmed search, when the search is given and not blank. */
  function SearchTerm(search: Option<string>): (term: Option<string>)
    ensures term.Some? <==> search.Some? && !AllSpace(search.value)
    ensures term.Some? ==> term.value != [] && IsStripOf(search.value, term.value)
  {
    if search.Some? && Strip(search.value) != [] then Some(Strip(search.value)) else None
  }

  /** The filter conditions as the query adds them; each is skipped when its field is absent. */
  predicate Matches(f: TodoFilter, t: Todo) {
    && (f.status.Some? ==> t.status == f.status.value)
    && (f.isBookmarked.Some? ==> t.isBookmarked == f.isBookmarked.value)
    && (f.parentId.Some? ==> t.parentId == f.parentId)
    && (SearchTerm(f.search).Some? ==> ContainsIgnoringCase(t.title, SearchTerm(f.search).value))
  }

  function Where(rs: seq<JoinRow>, f: TodoFilter): (r: seq<JoinRow>)
    ensures forall x :: x in r <==> x in rs && Matches(f, x.parent)
    ensures |r| <= |rs|
  {
    if rs == [] then []
    else (if Matches(f, rs[0].parent) then [rs[0]] else []) + Where(rs[1..], f)
  }

  // ---------------------------------------------------------------------------
  // ORDER BY

  /** Code-point order on strings, a proper prefix first: -1, 0 or 1. */
  function TextCmp(a: string, b: string): (c: int)
    ensures -1 <= c <= 1
    ensures c == 0 <==> a == b
  {
    if a == [] || b == [] then (if a == b then 0 else if a == [] then -1 else 1)
    else if a[0] < b[0] then -1
    else if b[0] < a[0] then 1
    else
      assert a == [a[0]] + a[1..] && b == [b[0]] + b[1..];
      TextCmp(a[1..], b[1..])
  }

  lemma {:induction false} TextCmpFlip(a: string, b: string)
    ensures TextCmp(b, a) == -TextCmp(a, b)
  {
    if a != [] && b != [] && a[0] == b[0] {
      TextCmpFlip(a[1..], b[1..]);
    }
  }

  lemma {:induction false} TextCmpTrans(a: string, b: string, c: string)
    requires TextCmp(a, b) <= 0 && TextCmp(b, c) <= 0
    ensures TextCmp(a, c) <= 0
  {
    if a != [] && b != [] && c != [] && a[0] == b[0] && b[0] == c[0] {
      TextCmpTrans(a[1..], b[1..], c[1..]);
    }
  }

  /** A sort key: a number, a text, or SQL NULL. */
  datatype SortKey = Num(n: int) | Str(s: string) | Null

  /** PostgreSQL's default order: NULL sorts after every value (last ascending, first descending). */
  function KeyCmp(a: SortKey, b: SortKey): (c: int)
    ensures -1 <= c <= 1
    ensures c == 0 <==> a == b
  {
    match (a, b)
    case (Null, Null) => 0
    case (Null, _) => 1
    case (_, Null) => -1
    case (Num(x), Num(y)) => if x < y then -1 else if y < x then 1 else 0
    case (Str(x), Str(y)) => TextCmp(x, y)
    case (Num(_), Str(_)) => -1
    case (Str(_), Num(_)) => 1
  }

  lemma KeyCmpFlip(a: SortKey, b: SortKey)
    ensures KeyCmp(b, a) == -KeyCmp(a, b)
  {
    if a.Str? && b.Str? {
      TextCmpFlip(a.s, b.s);
    }
  }

  lemma KeyCmpTrans(a: SortKey, b: SortKey, c: SortKey)
    requires KeyCmp(a, b) <= 0 && KeyCmp(b, c) <= 0
    ensures KeyCmp(a, c) <= 0
  {
    if a.Str? && b.Str? && c.Str? {
      TextCmpTrans(a.s, b.s, c.s);
    }
  }

  datatype Direction = Asc | Desc

  /** `order_direction`: exactly "desc" sorts descending, any other text ascending. */
  function DirectionOf(orderDirection: string): Direction {
    if orderDirection == "desc" then Desc else Asc
  }

  function DirectedCmp(a: SortKey, b: SortKey, d: Direction): (c: int)
    ensures d == Asc ==> c == KeyCmp(a, b)
    ensures d == Desc ==> c == KeyCmp(b, a)
  {
    if d == Asc then KeyCmp(a, b) else KeyCmp(b, a)
  }

  /** The sortable columns of the `todos` table. */
  datatype Column = ColId | ColTitle | ColStatus | ColIsBookmarked | ColOrder | ColCreatedAt | ColModifiedAt | ColUserId | ColParentId

  /** The column attribute of the aliased table named `name`, if there is one. */
  function ColumnNamed(name: string): Option<Column> {
    if name == "id" then Some(ColId)
    else if name == "title" then Some(ColTitle)
    else if name == "status" then Some(ColStatus)
    else if name == "is_bookmarked" then Some(ColIsBookmarked)
    else if name == "order" then Some(ColOrder)
    else if name == "created_at" then Some(ColCreatedAt)
    else if name == "modified_at" then Some(ColModifiedAt)
    else if name == "user_id" then Some(ColUserId)
    else if name == "parent_id" then Some(ColParentId)
    else None
  }

  /** `getattr(parent, order_by, parent.order)`: an unknown name falls back to `order`. */
  function OrderColumn(orderBy: string): (c: Column)
    ensures ColumnNamed(orderBy).Some? ==> c == ColumnNamed(orderBy).value
    ensures ColumnNamed(orderBy).None? ==> c == ColOrder
  {
    ColumnNamed(orderBy).GetOr(ColOrder)
  }

  /** The native enum type orders its labels by declaration. */
  function StatusRank(s: TodoStatus): int {
    match s
    case Pending => 0
    case InProgress => 1
    case Completed => 2
  }

  function KeyOf(t: Todo, c: Column): SortKey {
    match c
    case ColId => Num(t.id)
    case ColTitle => Str(t.title)
    case ColStatus => Num(StatusRank(t.status))
    case ColIsBookmarked => Num(if t.isBookmarked then 1 else 0)
    case ColOrder => Num(t.order)
    case ColCreatedAt => Num(t.createdAt)
    case ColModifiedAt => Num(t.modifiedAt)
    case ColUserId => Num(t.userId)
    case ColParentId => if t.parentId.Some? then Num(t.parentId.value) else Null
  }

  /** One ORDER BY term. */
  datatype OrderTerm = OrderTerm(column: Column, direction: Direction)

  /** ORDER BY: the first term that tells the two todos apart decides. */
  function TodoCmp(x: Todo, y: Todo, terms: seq<OrderTerm>): (c: int)
    ensures -1 <= c <= 1
  {
    if terms == [] then 0
    else
      var c := DirectedCmp(KeyOf(x, terms[0].column), KeyOf(y, terms[0].column), terms[0].direction);
      if c != 0 then c else TodoCmp(x, y, terms[1..])
  }

  lemma {:induction false} TodoCmpFlip(x: Todo, y: Todo, terms: seq<OrderTerm>)
    ensures TodoCmp(y, x, terms) == -TodoCmp(x, y, terms)
  {
    if terms != [] {
      KeyCmpFlip(KeyOf(x, terms[0].column), KeyOf(y, terms[0].column));
      TodoCmpFlip(x, y, terms[1..]);
    }
  }

  lemma {:induction false} TodoCmpTrans(x: Todo, y: Todo, z: Todo, terms: seq<OrderTerm>)
    requires TodoCmp(x, y, terms) <= 0 && TodoCmp(y, z, terms) <= 0
    ensures TodoCmp(x, z, terms) <= 0
  {
    if terms != [] {
      var col, d := terms[0].column, terms[0].direction;
      var a, b, c := KeyOf(x, col), KeyOf(y, col), KeyOf(z, col);
      if d == Asc {
        KeyCmpTrans(a, b, c);
      } else {
        KeyCmpTrans(c, b, a);
      }
      KeyCmpFlip(a, b);
      if DirectedCmp(a, c, d) == 0 {
        assert a == c;
        TodoCmpTrans(x, y, z, terms[1..]);
      }
    }
  }

  /** Each row sorts no later than the next one. */
  predicate Ordered(rs: seq<JoinRow>, terms: seq<OrderTerm>) {
    forall i :: 0 < i < |rs| ==> TodoCmp(rs[i - 1].parent, rs[i].parent, terms) <= 0
  }

  /** Stable insertion: `x` goes after every row it does not sort before. */
  function InsertRow(x: JoinRow, rs: seq<JoinRow>, terms: seq<OrderTerm>): (r: seq<JoinRow>)
    ensures multiset(r) == multiset(rs) + multiset{x}
    ensures |r| == |rs| + 1
    ensures r[0] == x || (rs != [] && r[0] == rs[0])
    ensures Ordered(rs, terms) ==> Ordered(r, terms)
  {
    if rs == [] then [x]
    else if TodoCmp(x.parent, rs[0].parent, terms) < 0 then [x] + rs
    else
      TodoCmpFlip(x.parent, rs[0].parent, terms);
      assert rs == [rs[0]] + rs[1..];
      var tail := InsertRow(x, rs[1..], terms);
      assert Ordered(rs, terms) ==> Ordered([rs[0]] + tail, terms) by {
        if Ordered(rs, terms) {
          assert Ordered(rs[1..], terms) by {
            forall i | 0 < i < |rs[1..]| ensures TodoCmp(rs[1..][i - 1].parent, rs[1..][i].parent, terms) <= 0 {
              assert rs[1..][i - 1] == rs[i] && rs[1..][i] == rs[i + 1];
            }
          }
          if |rs| > 1 {
            assert TodoCmp(rs[0].parent, rs[1].parent, terms) <= 0;
          }
          assert TodoCmp(rs[0].parent, tail[0].parent, terms) <= 0;
          forall i | 0 < i < |[rs[0]] + tail| ensures TodoCmp(([rs[0]] + tail)[i - 1].parent, ([rs[0]] + tail)[i].parent, terms) <= 0 {
            if i > 1 {
              assert ([rs[0]] + tail)[i - 1] == tail[i - 2] && ([rs[0]] + tail)[i] == tail[i - 1];
            }
          }
        }
      }
      [rs[0]] + tail
  }

  /** The database's ORDER BY, with ties kept in join order. */
  function SortRows(rs: seq<JoinRow>, terms: seq<OrderTerm>): (r: seq<JoinRow>)
    ensures multiset(r) == multiset(rs)
    ensures Ordered(r, terms)
  {
    if rs == [] then []
    else
      assert rs == rs[..|rs| - 1] + [rs[|rs| - 1]];
      InsertRow(rs[|rs| - 1], SortRows(rs[..|rs| - 1], terms), terms)
  }

  /** Sorted neighbours give a sorted sequence: any earlier row sorts no later than any later one. */
  lemma {:induction false} OrderedEverywhere(rs: seq<JoinRow>, terms: seq<OrderTerm>)
    requires Ordered(rs, terms)
    ensures forall i, j :: 0 <= i < j < |rs| ==> TodoCmp(rs[i].parent, rs[j].parent, terms) <= 0
  {
    forall i, j | 0 <= i < j < |rs| ensures TodoCmp(rs[i].parent, rs[j].parent, terms) <= 0 {
      OrderedFrom(rs, terms, i, j);
    }
  }

  lemma {:induction false} OrderedFrom(rs: seq<JoinRow>, terms: seq<OrderTerm>, i: int, j: int)
    requires Ordered(rs, terms) && 0 <= i < j < |rs|
    ensures TodoCmp(rs[i].parent, rs[j].parent, terms) <= 0
    decreases j - i
  {
    if i + 1 < j {
      OrderedFrom(rs, terms, i, j - 1);
      TodoCmpTrans(rs[i].parent, rs[j - 1].parent, rs[j].parent, terms);
    }
  }

  // ---------------------------------------------------------------------------
  // OFFSET / LIMIT

  /**
   * `OFFSET offset LIMIT limit` on the joined rows. PostgreSQL rejects a negative OFFSET or
   * LIMIT; otherwise the result is the rows from position `offset` on, at most `limit` of them.
   */
  function Window(rs: seq<JoinRow>, offset: int, limit: int): (w: Option<seq<JoinRow>>)
    ensures w.None? <==> offset < 0 || limit < 0
    ensures w.Some? ==> |w.value| == if offset >= |rs| then 0 else if limit < |rs| - offset then limit else |rs| - offset
    ensures w.Some? ==> forall i :: 0 <= i < |w.value| ==> w.value[i] == rs[offset + i]
  {
    if offset < 0 || limit < 0 then None
    else if offset >= |rs| then Some([])
    else if limit < |rs| - offset then Some(rs[offset..offset + limit])
    else Some(rs[offset..])
  }

  // ---------------------------------------------------------------------------
  // The service's list query

  const RetrieveTodosFailed: string := "Could not retrieve todos. Please try again later."

  /** The service's listing: the fetched page regrouped, the joined-row count, and the echoed paging. */
  datatype ListPage = ListPage(items: seq<TodoView>, totalCount: int, page: int, pageSize: int)

  /** `order_by(desc(col))` or `order_by(asc(col))` for the requested column. */
  function ServiceOrdering(p: PaginationParams): seq<OrderTerm> {
    [OrderTerm(OrderColumn(p.orderBy), DirectionOf(p.orderDirection))]
  }

  /** The filtered and ordered join, before OFFSET/LIMIT. */
  function Selected(rows: Table, userId: int, f: TodoFilter, terms: seq<OrderTerm>): seq<JoinRow> {
    SortRows(Where(JoinRows(rows, userId), f), terms)
  }

  /** `list_todos` of the service, on the table as it is. */
  function ListTodosResult(rows: Table, userId: int, f: TodoFilter, p: PaginationParams): Result<ListPage, AppError> {
    var selected := Selected(rows, userId, f, ServiceOrdering(p));
    match Window(selected, Offset(p), p.pageSize)
    case None => Err(BaseAppException(RetrieveTodosFailed))
    case Some(w) => Ok(ListPage(Nest(w), |selected|, p.page, p.pageSize))
  }

  // ---------------------------------------------------------------------------
  // The older router's list query

  /** The columns the older router selects when `columns` is empty. */
  const DefaultColumns: seq<string> := ["id", "title", "status", "is_bookmarked", "order", "parent_id", "created_at", "modified_at"]

  function StripAll(parts: seq<string>): (r: seq<string>)
    ensures |r| == |parts| && forall i :: 0 <= i < |parts| ==> r[i] == Strip(parts[i])
  {
    if parts == [] then [] else [Strip(parts[0])] + StripAll(parts[1..])
  }

  /** The requested names that are not `TodoResponse` fields, in request order. */
  function InvalidColumns(cols: seq<string>): (r: seq<string>)
    ensures forall c :: c in r <==> c in cols && c !in ResponseFields
  {
    if cols == [] then []
    else (if cols[0] in ResponseFields then [] else [cols[0]]) + InvalidColumns(cols[1..])
  }

  lemma IdIsResponseField()
    ensures "id" in ResponseFields
  {
    assert ResponseFields[5] == "id";
  }

  /** The requested names with "id" appended when it is missing. */
  function WithId(entries: seq<string>): (r: seq<string>)
    ensures |entries| <= |r| && "id" in r && r[..|entries|] == entries
    ensures forall c :: c in r <==> c in entries || c == "id"
  {
    if "id" in entries then entries else entries + ["id"]
  }

  /** Every requested name must be a `TodoResponse` field; the error lists the ones that are not. */
  function CheckColumns(requested: seq<string>): (r: Result<seq<string>, AppError>)
    ensures r.Ok? <==> forall c :: c in requested ==> c in ResponseFields
    ensures r.Ok? ==> r.value == requested
    ensures r.Err? ==> r.error.kind == Validation && r.error.statusCode == 400
  {
    var invalid := InvalidColumns(requested);
    if invalid != [] then
      assert invalid[0] in invalid;
      Err(ValidationException("Invalid column(s): " + JoinWith(invalid, ", ") + ". Valid columns are: " + JoinWith(ResponseFields, ", ")))
    else
      Ok(requested)
  }

  /**
   * The `columns` check of the older router. The default `(None,)` is truthy and has no
   * `split`, so it fails with the catch-all error; an empty text keeps the default columns.
   */
  function RequestedColumns(columns: Columns): (r: Result<seq<string>, AppError>)
    ensures columns.NoneTuple? ==> r == Err(BaseAppException(RetrieveTodosFailed))
    ensures columns == ColumnsText([]) ==> r == Ok(DefaultColumns)
    ensures columns.ColumnsText? && columns.text != [] ==>
      var entries := StripAll(Split(columns.text, ','));
      && (r.Ok? <==> forall c :: c in entries ==> c in ResponseFields)
      && (r.Ok? ==> |entries| < |r.value| + 1 && r.value[..|entries|] == entries && "id" in r.value)
      && (r.Ok? ==> forall c :: c in r.value ==> c in ResponseFields)
      && (r.Err? ==> r.error.kind == Validation && r.error.statusCode == 400)
  {
    match columns
    case NoneTuple => Err(BaseAppException(RetrieveTodosFailed))
    case ColumnsText(text) =>
      if text == [] then Ok(DefaultColumns)
      else
        var entries := StripAll(Split(text, ','));
        IdIsResponseField();
        CheckColumns(WithId(entries))
  }

  /** `order_by(t.order.desc())` first, then the requested column. */
  function LegacyOrdering(p: PaginationParams): seq<OrderTerm> {
    [OrderTerm(ColOrder, Desc), OrderTerm(OrderColumn(p.orderBy), DirectionOf(p.orderDirection))]
  }

  /** `list_todos` of the older router: only the regrouped page, with no count. */
  function LegacyListResult(rows: Table, userId: int, f: TodoFilter, p: PaginationParams): Result<seq<TodoView>, AppError> {
    match RequestedColumns(f.columns)
    case Err(e) => Err(e)
    case Ok(_) =>
      match Window(Selected(rows, userId, f, LegacyOrdering(p)), Offset(p), p.pageSize)
      case None => Err(BaseAppException(RetrieveTodosFailed))
      case Some(w) => Ok(Nest(w))
  }

  // ---------------------------------------------------------------------------
  // What a listing returns

  /** The selected rows are exactly the rows of the join that pass the filters, in the requested order. */
  lemma SelectedSpec(rows: Table, userId: int, f: TodoFilter, terms: seq<OrderTerm>)
    requires forall k :: k in rows ==> rows[k].id == k
    ensures forall r :: r in Selected(rows, userId, f, terms) <==> IsJoinRow(rows, userId, r) && Matches(f, r.parent)
    ensures forall i, j :: 0 <= i < j < |Selected(rows, userId, f, terms)| ==>
              TodoCmp(Selected(rows, userId, f, terms)[i].parent, Selected(rows, userId, f, terms)[j].parent, terms) <= 0
  {
    JoinRowsSpec(rows, userId);
    var filtered := Where(JoinRows(rows, userId), f);
    var sorted := SortRows(filtered, terms);
    forall r ensures r in sorted <==> r in filtered {
      assert r in sorted <==> r in multiset(sorted);
      assert r in filtered <==> r in multiset(filtered);
    }
    OrderedEverywhere(sorted, terms);
  }

  // ---------------------------------------------------------------------------
  // How many rows are selected: `total_count`

  /** No row occurs twice. */
  ghost predicate NoRepeats(rs: seq<JoinRow>) {
    forall i, j :: 0 <= i < j < |rs| ==> rs[i] != rs[j]
  }

  lemma NoRepeatsAppend(a: seq<JoinRow>, b: seq<JoinRow>)
    requires NoRepeats(a) && NoRepeats(b)
    requires forall x :: x in a ==> x !in b
    ensures NoRepeats(a + b)
  {
    forall i, j | 0 <= i < j < |a + b| ensures (a + b)[i] != (a + b)[j] {
      if i < |a| <= j {
        assert (a + b)[i] == a[i] && (a + b)[j] == b[j - |a|];
        assert a[i] in a && b[j - |a|] in b;
      }
    }
  }

  /** One parent's rows differ in their subtasks, which are distinct rows of the table. */
  lemma RowsOfParentNoRepeats(rows: Table, p: int)
    requires forall k :: k in rows ==> rows[k].id == k
    requires p in rows
    ensures NoRepeats(RowsOfParent(rows, p))
    ensures forall r :: r in RowsOfParent(rows, p) ==> r.parent == rows[p]
  {
    var subs := ChildIds(rows, p);
    var rs := RowsOfParent(rows, p);
    if subs != [] {
      forall i, j | 0 <= i < j < |rs| ensures rs[i] != rs[j] {
        assert subs[i] in subs && subs[j] in subs;
        assert rs[i].sub.value.id == subs[i] && rs[j].sub.value.id == subs[j];
      }
    }
  }

  lemma {:induction false} RowsOfParentsNoRepeats(rows: Table, ps: seq<int>)
    requires forall k :: k in rows ==> rows[k].id == k
    requires forall p :: p in ps ==> p in rows
    requires forall i, j :: 0 <= i < j < |ps| ==> ps[i] < ps[j]
    ensures NoRepeats(RowsOfParents(rows, ps))
    ensures forall r :: r in RowsOfParents(rows, ps) ==> r.parent.id in ps
    decreases |ps|
  {
    if ps != [] {
      var head, tail := RowsOfParent(rows, ps[0]), RowsOfParents(rows, ps[1..]);
      RowsOfParentNoRepeats(rows, ps[0]);
      RowsOfParentsNoRepeats(rows, ps[1..]);
      forall r | r in head ensures r !in tail && r.parent.id == ps[0] {
        forall k | 0 <= k < |ps[1..]| ensures ps[1..][k] != ps[0] {
          assert ps[0] < ps[k + 1];
        }
      }
      NoRepeatsAppend(head, tail);
    }
  }

  lemma {:induction false} WhereNoRepeats(rs: seq<JoinRow>, f: TodoFilter)
    requires NoRepeats(rs)
    ensures NoRepeats(Where(rs, f))
    decreases |rs|
  {
    if rs != [] {
      var rest := rs[1..];
      assert NoRepeats(rest) by {
        forall i, j | 0 <= i < j < |rest| ensures rest[i] != rest[j] {
          assert rest[i] == rs[i + 1] && rest[j] == rs[j + 1];
        }
      }
      WhereNoRepeats(rest, f);
      var head := if Matches(f, rs[0].parent) then [rs[0]] else [];
      forall x | x in head ensures x !in Where(rest, f) {
        forall k | 0 <= k < |rest| ensures rest[k] != x {
          assert rest[k] == rs[k + 1];
        }
      }
      NoRepeatsAppend(head, Where(rest, f));
    }
  }

  lemma {:induction false} NoRepeatsCounts(rs: seq<JoinRow>)
    requires NoRepeats(rs)
    ensures forall x :: multiset(rs)[x] <= 1
    decreases |rs|
  {
    if rs != [] {
      var rest := rs[1..];
      assert NoRepeats(rest) by {
        forall i, j | 0 <= i < j < |rest| ensures rest[i] != rest[j] {
          assert rest[i] == rs[i + 1] && rest[j] == rs[j + 1];
        }
      }
      NoRepeatsCounts(rest);
      assert rs == [rs[0]] + rest;
      assert rs[0] !in rest by {
        forall k | 0 <= k < |rest| ensures rest[k] != rs[0] {
          assert rest[k] == rs[k + 1];
        }
      }
    }
  }

  lemma RepeatCounts(rs: seq<JoinRow>, i: int, j: int)
    requires 0 <= i < j < |rs| && rs[i] == rs[j]
    ensures multiset(rs)[rs[i]] >= 2
  {
    assert rs == rs[..j] + [rs[j]] + rs[j + 1..];
    assert rs[i] == rs[..j][i];
  }

  /** A permutation of a sequence without repeats has none either. */
  lemma NoRepeatsPermutation(a: seq<JoinRow>, b: seq<JoinRow>)
    requires NoRepeats(a) && multiset(a) == multiset(b)
    ensures NoRepeats(b)
  {
    NoRepeatsCounts(a);
    forall i, j | 0 <= i < j < |b| ensures b[i] != b[j] {
      if b[i] == b[j] {
        RepeatCounts(b, i, j);
      }
    }
  }

  /** Without repeats, a sequence is as long as the set of its rows is large. */
  lemma {:induction false} NoRepeatsCard(rs: seq<JoinRow>)
    requires NoRepeats(rs)
    ensures |set r | r in rs| == |rs|
    decreases |rs|
  {
    if rs != [] {
      var rest := rs[1..];
      assert NoRepeats(rest) by {
        forall i, j | 0 <= i < j < |rest| ensures rest[i] != rest[j] {
          assert rest[i] == rs[i + 1] && rest[j] == rs[j + 1];
        }
      }
      NoRepeatsCard(rest);
      assert (set r | r in rs) == {rs[0]} + (set r | r in rest);
      assert rs[0] !in (set r | r in rest) by {
        forall k | 0 <= k < |rest| ensures rest[k] != rs[0] {
          assert rest[k] == rs[k + 1];
        }
      }
    }
  }

  /** The join has no repeated row: parents differ, and one parent's subtasks differ. */
  lemma JoinRowsNoRepeats(rows: Table, userId: int)
    requires forall k :: k in rows ==> rows[k].id == k
    ensures NoRepeats(JoinRows(rows, userId))
  {
    RowsOfParentsNoRepeats(rows, TopLevelIds(rows, userId));
  }

  /** The rows of the outer join that pass the filters: one per (parent, subtask) pair, or (parent, null). */
  ghost function MatchingRows(rows: Table, userId: int, f: TodoFilter): (m: set<JoinRow>)
    requires forall k :: k in rows ==> rows[k].id == k
    ensures forall r :: r in m <==> IsJoinRow(rows, userId, r) && Matches(f, r.parent)
  {
    JoinRowsSpec(rows, userId);
    set r | r in JoinRows(rows, userId) && Matches(f, r.parent)
  }

  /**
   * The selected rows hold each matching row of the join exactly once, so there are as many
   * of them as matching rows: the number `SELECT count(*)` over the query returns.
   */
  lemma SelectedOnce(rows: Table, userId: int, f: TodoFilter, terms: seq<OrderTerm>)
    requires forall k :: k in rows ==> rows[k].id == k
    ensures NoRepeats(Selected(rows, userId, f, terms))
    ensures |Selected(rows, userId, f, terms)| == |MatchingRows(rows, userId, f)|
  {
    var join := JoinRows(rows, userId);
    JoinRowsNoRepeats(rows, userId);
    WhereNoRepeats(join, f);
    var sel := Selected(rows, userId, f, terms);
    NoRepeatsPermutation(Where(join, f), sel);
    NoRepeatsCard(sel);
    SelectedSpec(rows, userId, f, terms);
    assert (set r | r in sel) == MatchingRows(rows, userId, f);
  }

  /** Selected rows of one parent carry the same record, the table's row. */
  lemma SelectedParentRecords(rows: Table, userId: int, f: TodoFilter, terms: seq<OrderTerm>)
    requires forall k :: k in rows ==> rows[k].id == k
    ensures SameParentRecords(Selected(rows, userId, f, terms))
  {
    var sel := Selected(rows, userId, f, terms);
    SelectedSpec(rows, userId, f, terms);
    forall i, j | 0 <= i < |sel| && 0 <= j < |sel| && sel[i].parent.id == sel[j].parent.id
      ensures sel[i].parent == sel[j].parent
    {
      assert sel[i] in sel && sel[j] in sel;
    }
  }

  /** Position `i` of `n` selected rows is on page `p`: at or after OFFSET and before OFFSET + LIMIT. */
  ghost predicate OnPage(p: PaginationParams, n: int, i: int) {
    Offset(p) <= i < Offset(p) + p.pageSize && 0 <= i < n
  }

  /**
   * `items` is page `p` of the selected rows `sel`: every row on the page is shown, and every
   * item and every subtask it carries comes from a row on the page.
   */
  ghost predicate PageOf(items: seq<TodoView>, sel: seq<JoinRow>, p: PaginationParams) {
    && (forall i :: OnPage(p, |sel|, i) ==> Shows(items, sel[i]))
    && (forall v :: v in items ==> exists i :: OnPage(p, |sel|, i) && sel[i].parent == v.todo)
    && (forall v, s :: v in items && s in v.subtasks ==>
          exists i :: OnPage(p, |sel|, i) && sel[i].parent == v.todo && sel[i].sub == Some(s))
  }

  /** Regrouping the OFFSET/LIMIT window gives that page. */
  lemma PageOfWindow(sel: seq<JoinRow>, p: PaginationParams)
    requires Offset(p) >= 0 && p.pageSize >= 0
    requires SameParentRecords(sel)
    ensures PageOf(Nest(Window(sel, Offset(p), p.pageSize).value), sel, p)
  {
    var o := Offset(p);
    var w := Window(sel, o, p.pageSize).value;
    assert SameParentRecords(w) by {
      forall i, j | 0 <= i < |w| && 0 <= j < |w| && w[i].parent.id == w[j].parent.id ensures w[i].parent == w[j].parent {
        assert w[i] == sel[o + i] && w[j] == sel[o + j];
      }
    }
    NestShowsRows(w);
    var items := Nest(w);
    forall i | OnPage(p, |sel|, i) ensures Shows(items, sel[i]) {
      assert w[i - o] == sel[i];
    }
    forall v | v in items ensures exists i :: OnPage(p, |sel|, i) && sel[i].parent == v.todo {
      assert ComesFrom(v, w);
      var i :| 0 <= i < |w| && w[i].parent == v.todo;
      assert OnPage(p, |sel|, o + i) && sel[o + i] == w[i];
    }
    forall v, s | v in items && s in v.subtasks
      ensures exists i :: OnPage(p, |sel|, i) && sel[i].parent == v.todo && sel[i].sub == Some(s)
    {
      assert ComesFrom(v, w);
      var i :| 0 <= i < |w| && w[i].parent == v.todo && w[i].sub == Some(s);
      assert OnPage(p, |sel|, o + i) && sel[o + i] == w[i];
    }
  }

  /** A window of a sequence ordered everywhere is ordered everywhere, and holds only rows of the sequence. */
  lemma WindowSpec(rs: seq<JoinRow>, offset: int, limit: int, terms: seq<OrderTerm>)
    requires Window(rs, offset, limit).Some?
    requires forall i, j :: 0 <= i < j < |rs| ==> TodoCmp(rs[i].parent, rs[j].parent, terms) <= 0
    ensures var w := Window(rs, offset, limit).value;
      && (forall r :: r in w ==> r in rs)
      && (forall i, j :: 0 <= i < j < |w| ==> TodoCmp(w[i].parent, w[j].parent, terms) <= 0)
  {
    var w := Window(rs, offset, limit).value;
    forall r | r in w ensures r in rs {
      var i :| 0 <= i < |w| && w[i] == r;
      assert rs[offset + i] == r;
    }
    forall i, j | 0 <= i < j < |w| ensures TodoCmp(w[i].parent, w[j].parent, terms) <= 0 {
      assert w[i] == rs[offset + i] && w[j] == rs[offset + j];
    }
  }

  lemma {:induction false} ParentIdsNoLonger(w: seq<JoinRow>)
    ensures |ParentIds(w)| <= |w|
    decreases |w|
  {
    if w != [] {
      ParentIdsNoLonger(w[..|w| - 1]);
    }
  }

  /** An item of a listing: an owned top-level todo passing the filters, with subtasks of its own. */
  ghost predicate ListedItem(rows: Table, userId: int, f: TodoFilter, v: TodoView) {
    && v.todo.id in rows && rows[v.todo.id] == v.todo && v.todo.userId == userId && v.todo.parentId.None?
    && Matches(f, v.todo)
    && forall s :: s in v.subtasks ==> s.id in rows && rows[s.id] == s && s.parentId == Some(v.todo.id)
  }

  /** Regrouped rows of the join are listed items, no more of them than rows. */
  lemma NestOfJoinRows(rows: Table, userId: int, f: TodoFilter, w: seq<JoinRow>)
    requires forall r :: r in w ==> IsJoinRow(rows, userId, r) && Matches(f, r.parent)
    ensures |Nest(w)| <= |w|
    ensures forall v :: v in Nest(w) ==> ListedItem(rows, userId, f, v)
  {
    NestSpec(w);
    ParentIdsNoLonger(w);
    forall v | v in Nest(w) ensures ListedItem(rows, userId, f, v) {
      var k :| 0 <= k < |Nest(w)| && Nest(w)[k] == v;
      var id := ParentIds(w)[k];
      FirstParentIsFirstRow(w, id);
      assert w[FirstIndex(w, id)] in w;
      forall s | s in v.subtasks ensures s.id in rows && rows[s.id] == s && s.parentId == Some(v.todo.id) {
        SubtasksComeFromRows(w, id, s);
        var j :| 0 <= j < |w| && w[j].parent.id == id && w[j].sub == Some(s);
        assert w[j] in w;
      }
    }
  }

  /** Regrouping keeps the row order: items appear in the order of their parents' first rows. */
  lemma NestKeepsOrder(w: seq<JoinRow>, terms: seq<OrderTerm>)
    requires forall i, j :: 0 <= i < j < |w| ==> TodoCmp(w[i].parent, w[j].parent, terms) <= 0
    ensures forall k, l :: 0 <= k < l < |Nest(w)| ==> TodoCmp(Nest(w)[k].todo, Nest(w)[l].todo, terms) <= 0
  {
    NestSpec(w);
    var ids := ParentIds(w);
    ParentIdsSpec(w);
    forall k, l | 0 <= k < l < |Nest(w)| ensures TodoCmp(Nest(w)[k].todo, Nest(w)[l].todo, terms) <= 0 {
      FirstParentIsFirstRow(w, ids[k]);
      FirstParentIsFirstRow(w, ids[l]);
      var i, j := FirstIndex(w, ids[k]), FirstIndex(w, ids[l]);
      assert i < j;
      assert Nest(w)[k].todo == w[i].parent && Nest(w)[l].todo == w[j].parent;
    }
  }

  /** `(page - 1) * page_size`, the OFFSET of both list queries. */
  function Offset(p: PaginationParams): int {
    (p.page - 1) * p.pageSize
  }

  /** Items ordered by one column in one direction. */
  predicate ItemsOrdered(items: seq<TodoView>, c: Column, d: Direction) {
    forall k, l :: 0 <= k < l < |items| ==> DirectedCmp(KeyOf(items[k].todo, c), KeyOf(items[l].todo, c), d) <= 0
  }

  /** The page a listing regroups, when OFFSET and LIMIT are accepted. */
  lemma PageOfSelected(rows: Table, userId: int, f: TodoFilter, p: PaginationParams, terms: seq<OrderTerm>)
    requires forall k :: k in rows ==> rows[k].id == k
    requires Offset(p) >= 0 && p.pageSize >= 0
    ensures var w := Window(Selected(rows, userId, f, terms), Offset(p), p.pageSize).value;
      && |Nest(w)| <= p.pageSize
      && (forall v :: v in Nest(w) ==> ListedItem(rows, userId, f, v))
      && (forall k, l :: 0 <= k < l < |Nest(w)| ==> TodoCmp(Nest(w)[k].todo, Nest(w)[l].todo, terms) <= 0)
  {
    var selected := Selected(rows, userId, f, terms);
    SelectedSpec(rows, userId, f, terms);
    var w := Window(selected, Offset(p), p.pageSize).value;
    WindowSpec(selected, Offset(p), p.pageSize, terms);
    NestOfJoinRows(rows, userId, f, w);
    NestKeepsOrder(w, terms);
  }

  /**
   * `list_todos` of the service. It fails exactly when OFFSET or LIMIT is negative. Otherwise
   * it echoes `page` and `page_size`, returns at most `page_size` items, each an owned
   * top-level todo passing the filters with only its own subtasks, in the requested order.
   */
  lemma ListTodosSpec(rows: Table, userId: int, f: TodoFilter, p: PaginationParams)
    requires forall k :: k in rows ==> rows[k].id == k
    ensures var r := ListTodosResult(rows, userId, f, p);
      && (r.Err? <==> Offset(p) < 0 || p.pageSize < 0)
      && (r.Err? ==> r.error == BaseAppException(RetrieveTodosFailed))
      && (r.Ok? ==> r.value.page == p.page && r.value.pageSize == p.pageSize && |r.value.items| <= p.pageSize)
      && (r.Ok? ==> forall v :: v in r.value.items ==> ListedItem(rows, userId, f, v))
      && (r.Ok? ==> ItemsOrdered(r.value.items, OrderColumn(p.orderBy), DirectionOf(p.orderDirection)))
      && (r.Ok? ==> r.value.totalCount == |MatchingRows(rows, userId, f)|)
      && (r.Ok? ==> PageOf(r.value.items, Selected(rows, userId, f, ServiceOrdering(p)), p))
  {
    if Offset(p) >= 0 && p.pageSize >= 0 {
      var terms := ServiceOrdering(p);
      var sel := Selected(rows, userId, f, terms);
      var items := Nest(Window(sel, Offset(p), p.pageSize).value);
      assert ListTodosResult(rows, userId, f, p) == Ok(ListPage(items, |sel|, p.page, p.pageSize));
      ServicePageItems(rows, userId, f, p);
      SelectedOnce(rows, userId, f, terms);
      SelectedParentRecords(rows, userId, f, terms);
      PageOfWindow(sel, p);
    }
  }

  /** The items of the service's page: listed items, no more than `page_size`, in the requested order. */
  lemma ServicePageItems(rows: Table, userId: int, f: TodoFilter, p: PaginationParams)
    requires forall k :: k in rows ==> rows[k].id == k
    requires Offset(p) >= 0 && p.pageSize >= 0
    ensures var items := Nest(Window(Selected(rows, userId, f, ServiceOrdering(p)), Offset(p), p.pageSize).value);
      && |items| <= p.pageSize
      && (forall v :: v in items ==> ListedItem(rows, userId, f, v))
      && ItemsOrdered(items, OrderColumn(p.orderBy), DirectionOf(p.orderDirection))
  {
    var terms := ServiceOrdering(p);
    PageOfSelected(rows, userId, f, p, terms);
    var items := Nest(Window(Selected(rows, userId, f, terms), Offset(p), p.pageSize).value);
    forall k, l | 0 <= k < l < |items|
      ensures DirectedCmp(KeyOf(items[k].todo, OrderColumn(p.orderBy)), KeyOf(items[l].todo, OrderColumn(p.orderBy)), DirectionOf(p.orderDirection)) <= 0
    {
      assert TodoCmp(items[k].todo, items[l].todo, terms) <= 0;
    }
  }

  /** A `parent_id` filter contradicts `parent_id IS NULL`: the listing is empty and counts nothing. */
  lemma ParentIdFilterFindsNothing(rows: Table, userId: int, f: TodoFilter, p: PaginationParams)
    requires forall k :: k in rows ==> rows[k].id == k
    requires f.parentId.Some?
    ensures var r := ListTodosResult(rows, userId, f, p);
      r.Ok? ==> r.value.items == [] && r.value.totalCount == 0
  {
    var join := JoinRows(rows, userId);
    JoinRowsSpec(rows, userId);
    WhereNone(join, f);
  }

  lemma {:induction false} WhereNone(rs: seq<JoinRow>, f: TodoFilter)
    requires forall r :: r in rs ==> !Matches(f, r.parent)
    ensures Where(rs, f) == []
  {
    if rs != [] {
      assert rs[0] in rs;
      WhereNone(rs[1..], f);
    }
  }

  /**
   * The older router's listing. It fails with the column check's error, or when OFFSET or LIMIT
   * is negative. Otherwise it returns at most `page_size` owned top-level todos passing the filters.
   */
  lemma LegacyListSpec(rows: Table, userId: int, f: TodoFilter, p: PaginationParams)
    requires forall k :: k in rows ==> rows[k].id == k
    ensures var r := LegacyListResult(rows, userId, f, p);
      && (RequestedColumns(f.columns).Err? ==> r == Err(RequestedColumns(f.columns).error))
      && (RequestedColumns(f.columns).Ok? ==> (r.Err? <==> Offset(p) < 0 || p.pageSize < 0))
      && (r.Ok? ==> |r.value| <= p.pageSize)
      && (r.Ok? ==> forall v :: v in r.value ==> ListedItem(rows, userId, f, v))
      && (r.Ok? ==> PageOf(r.value, Selected(rows, userId, f, LegacyOrdering(p)), p))
  {
    if RequestedColumns(f.columns).Ok? && Offset(p) >= 0 && p.pageSize >= 0 {
      PageOfSelected(rows, userId, f, p, LegacyOrdering(p));
      SelectedParentRecords(rows, userId, f, LegacyOrdering(p));
      PageOfWindow(Selected(rows, userId, f, LegacyOrdering(p)), p);
    }
  }

  /** The older router's items come by `order` descending first, then by the requested column. */
  lemma LegacyListOrder(rows: Table, userId: int, f: TodoFilter, p: PaginationParams)
    requires forall k :: k in rows ==> rows[k].id == k
    ensures var r := LegacyListResult(rows, userId, f, p);
      && (r.Ok? ==> ItemsOrdered(r.value, ColOrder, Desc))
      && (r.Ok? ==> forall k, l :: 0 <= k < l < |r.value| && r.value[k].todo.order == r.value[l].todo.order ==>
            DirectedCmp(KeyOf(r.value[k].todo, OrderColumn(p.orderBy)),
                        KeyOf(r.value[l].todo, OrderColumn(p.orderBy)), DirectionOf(p.orderDirection)) <= 0)
  {
    var terms := LegacyOrdering(p);
    if RequestedColumns(f.columns).Ok? && Offset(p) >= 0 && p.pageSize >= 0 {
      var items := Nest(Window(Selected(rows, userId, f, terms), Offset(p), p.pageSize).value);
      assert LegacyListResult(rows, userId, f, p) == Ok(items);
      assert forall k, l :: 0 <= k < l < |items| ==> TodoCmp(items[k].todo, items[l].todo, terms) <= 0 by {
        PageOfSelected(rows, userId, f, p, terms);
      }
      LegacyPairsOrdered(items, p);
    }
  }

  /** Items in the legacy ORDER BY: by `order` descending, ties by the requested column. */
  lemma LegacyPairsOrdered(items: seq<TodoView>, p: PaginationParams)
    requires forall k, l :: 0 <= k < l < |items| ==> TodoCmp(items[k].todo, items[l].todo, LegacyOrdering(p)) <= 0
    ensures ItemsOrdered(items, ColOrder, Desc)
    ensures forall k, l :: 0 <= k < l < |items| && items[k].todo.order == items[l].todo.order ==>
              DirectedCmp(KeyOf(items[k].todo, OrderColumn(p.orderBy)),
                          KeyOf(items[l].todo, OrderColumn(p.orderBy)), DirectionOf(p.orderDirection)) <= 0
  {
    var terms := LegacyOrdering(p);
    forall k, l | 0 <= k < l < |items|
      ensures && DirectedCmp(KeyOf(items[k].todo, ColOrder), KeyOf(items[l].todo, ColOrder), Desc) <= 0
              && (items[k].todo.order == items[l].todo.order ==>
                    DirectedCmp(KeyOf(items[k].todo, OrderColumn(p.orderBy)),
                                KeyOf(items[l].todo, OrderColumn(p.orderBy)), DirectionOf(p.orderDirection)) <= 0)
    {
      TwoTerms(items[k].todo, items[l].todo, terms[0], terms[1]);
    }
  }

  /** Under ORDER BY t0, t1: t0 orders the pair, and only a tie on t0 defers to t1. */
  lemma TwoTerms(x: Todo, y: Todo, t0: OrderTerm, t1: OrderTerm)
    requires TodoCmp(x, y, [t0, t1]) <= 0
    ensures DirectedCmp(KeyOf(x, t0.column), KeyOf(y, t0.column), t0.direction) <= 0
    ensures DirectedCmp(KeyOf(x, t0.column), KeyOf(y, t0.column), t0.direction) == 0 ==>
              DirectedCmp(KeyOf(x, t1.column), KeyOf(y, t1.column), t1.direction) <= 0
  {
    assert [t0, t1][1..] == [t1];
    assert [t1][1..] == [];
  }

  lemma {:induction false} TodoCmpSelf(x: Todo, terms: seq<OrderTerm>)
    ensures TodoCmp(x, x, terms) == 0
  {
    if terms != [] {
      TodoCmpSelf(x, terms[1..]);
    }
  }

  /** The example table of RowCountExample and SplitPageExample: todo 1 of `userId` with subtasks 2 and 3. */
  ghost predicate OneParentTwoSubtasks(rows: Table, userId: int, parent: Todo, first: Todo, second: Todo) {
    && parent.id == 1 && first.id == 2 && second.id == 3
    && parent.userId == userId && parent.parentId == None
    && first.parentId == Some(1) && second.parentId == Some(1)
    && rows == map[1 := parent, 2 := first, 3 := second]
  }

  lemma SortedIdsOne(x: int)
    ensures SortedIds({x}) == [x]
  {
    var r := SortedIds({x});
    assert r[0] in r;
  }

  lemma SortedIdsTwo(x: int, y: int)
    requires x < y
    ensures SortedIds({x, y}) == [x, y]
  {
    var r := SortedIds({x, y});
    assert r[0] in r && r[1] in r;
  }

  lemma ExampleIds(rows: Table, userId: int, parent: Todo, first: Todo, second: Todo)
    requires OneParentTwoSubtasks(rows, userId, parent, first, second)
    ensures TopLevelIds(rows, userId) == [1]
    ensures ChildIds(rows, 1) == [2, 3]
  {
    assert (set id | id in rows && rows[id].userId == userId && rows[id].parentId.None?) == {1};
    SortedIdsOne(1);
    assert (set id | id in rows && rows[id].parentId == Some(1)) == {2, 3};
    SortedIdsTwo(2, 3);
  }

  lemma ExampleJoin(rows: Table, userId: int, parent: Todo, first: Todo, second: Todo)
    requires OneParentTwoSubtasks(rows, userId, parent, first, second)
    ensures JoinRows(rows, userId) == [JoinRow(parent, Some(first)), JoinRow(parent, Some(second))]
  {
    ExampleIds(rows, userId, parent, first, second);
    var joined := [JoinRow(parent, Some(first)), JoinRow(parent, Some(second))];
    assert RowsOfParent(rows, 1) == joined;
    assert [1][1..] == [];
    assert RowsOfParents(rows, []) == [];
    assert RowsOfParents(rows, [1]) == joined + [];
  }

  lemma NestOne(r: JoinRow)
    requires r.sub.Some?
    ensures Nest([r]) == [TodoView(r.parent, [r.sub.value])]
  {
    assert [r][..0] == [];
    assert ParentIds([r]) == [r.parent.id];
    assert SubtasksOf([r], r.parent.id) == [r.sub.value];
  }

  lemma NestTwo(r1: JoinRow, r2: JoinRow)
    requires r1.sub.Some? && r2.sub.Some? && r1.parent == r2.parent
    ensures Nest([r1, r2]) == [TodoView(r1.parent, [r1.sub.value, r2.sub.value])]
  {
    var id := r1.parent.id;
    assert [r1, r2][..1] == [r1];
    assert [r1][..0] == [];
    assert ParentIds([r1]) == [id];
    assert ParentIds([r1, r2]) == [id];
    assert SubtasksOf([r1], id) == [r1.sub.value];
    assert SubtasksOf([r1, r2], id) == [r1.sub.value, r2.sub.value];
    assert FirstParent([r1, r2], id) == r1.parent;
  }

  lemma {:induction false} WhereNoFilter(rs: seq<JoinRow>, f: TodoFilter)
    requires f.status == None && f.isBookmarked == None && f.search == None && f.parentId == None
    ensures Where(rs, f) == rs
  {
    if rs != [] {
      WhereNoFilter(rs[1..], f);
      assert [rs[0]] + rs[1..] == rs;
    }
  }

  /** Two rows that tie under the ordering keep their order. */
  lemma SortTie(r1: JoinRow, r2: JoinRow, terms: seq<OrderTerm>)
    requires TodoCmp(r2.parent, r1.parent, terms) == 0
    ensures SortRows([r1, r2], terms) == [r1, r2]
  {
    assert [r1, r2][..1] == [r1];
    assert [r1][..0] == [];
    assert SortRows([r1], terms) == [r1];
    assert InsertRow(r2, [r1], terms) == [r1] + InsertRow(r2, [], terms);
  }

  lemma ExampleSelected(rows: Table, userId: int, parent: Todo, first: Todo, second: Todo, terms: seq<OrderTerm>)
    requires OneParentTwoSubtasks(rows, userId, parent, first, second)
    ensures Selected(rows, userId, TodoFilter(None, None, None, None, NoneTuple), terms)
         == [JoinRow(parent, Some(first)), JoinRow(parent, Some(second))]
  {
    var r1, r2 := JoinRow(parent, Some(first)), JoinRow(parent, Some(second));
    ExampleJoin(rows, userId, parent, first, second);
    WhereNoFilter([r1, r2], TodoFilter(None, None, None, None, NoneTuple));
    TodoCmpSelf(parent, terms);
    SortTie(r1, r2, terms);
  }

  /**
   * One top-level todo with two subtasks, no filter, any ordering: `total_count` is 2, the
   * number of joined rows, while a page of two or more holds the one todo with both subtasks.
   */
  lemma RowCountExample(rows: Table, userId: int, parent: Todo, first: Todo, second: Todo, p: PaginationParams)
    requires OneParentTwoSubtasks(rows, userId, parent, first, second)
    requires p.page == 1 && p.pageSize >= 2
    ensures ListTodosResult(rows, userId, TodoFilter(None, None, None, None, NoneTuple), p)
         == Ok(ListPage([TodoView(parent, [first, second])], 2, 1, p.pageSize))
  {
    var r1, r2 := JoinRow(parent, Some(first)), JoinRow(parent, Some(second));
    ExampleSelected(rows, userId, parent, first, second, ServiceOrdering(p));
    assert Offset(p) == 0;
    assert Window([r1, r2], 0, p.pageSize) == Some([r1, r2]);
    NestTwo(r1, r2);
  }

  /**
   * The same table with `page_size` 1: the first page carries the todo with only its first
   * subtask, and the second page repeats the todo with the second subtask.
   */
  lemma SplitPageExample(rows: Table, userId: int, parent: Todo, first: Todo, second: Todo, p: PaginationParams)
    requires OneParentTwoSubtasks(rows, userId, parent, first, second)
    requires (p.page == 1 || p.page == 2) && p.pageSize == 1
    ensures ListTodosResult(rows, userId, TodoFilter(None, None, None, None, NoneTuple), p)
         == Ok(ListPage([TodoView(parent, if p.page == 1 then [first] else [second])], 2, p.page, 1))
  {
    var r1, r2 := JoinRow(parent, Some(first)), JoinRow(parent, Some(second));
    ExampleSelected(rows, userId, parent, first, second, ServiceOrdering(p));
    if p.page == 1 {
      assert Offset(p) == 0;
      assert [r1, r2][0..1] == [r1];
      assert Window([r1, r2], 0, 1) == Some([r1]);
      NestOne(r1);
    } else {
      assert Offset(p) == 1;
      assert [r1, r2][1..] == [r2];
      assert Window([r1, r2], 1, 1) == Some([r2]);
      NestOne(r2);
    }
  }
}
