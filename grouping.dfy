/**
 * Regrouping the rows of the parent/subtask outer join into nested todos: `_nest_subtasks`
 * (server/app/services/todos.py) and its copy `nest_subtasks` (server/app/api/endpoints/todos.py).
 */
module Grouping {
  import opened Wrappers
  import opened Models
  import opened Schemas

  /** One row of the outer join: a top-level todo and one of its subtasks, or None when it has none. */
  datatype JoinRow = JoinRow(parent: Todo, sub: Option<Todo>)

  /** The distinct parent ids of `rows`, in order of first appearance. */
  function ParentIds(rows: seq<JoinRow>): seq<int>
    decreases |rows|
  {
    if rows == [] then []
    else
      var ids := ParentIds(rows[..|rows| - 1]);
      var id := rows[|rows| - 1].parent.id;
      if id in ids then ids else ids + [id]
  }

  /** The parent record carried by the first row with parent id `id`. */
  function FirstParent(rows: seq<JoinRow>, id: int): Todo
    requires id in ParentIds(rows)
    decreases |rows|
  {
    var init := rows[..|rows| - 1];
    if id in ParentIds(init) then FirstParent(init, id) else rows[|rows| - 1].parent
  }

  /** The non-null subtasks paired with parent `id`, in row order. */
  function SubtasksOf(rows: seq<JoinRow>, id: int): seq<Todo>
    decreases |rows|
  {
    if rows == [] then []
    else
      var last := rows[|rows| - 1];
      SubtasksOf(rows[..|rows| - 1], id) + (if last.parent.id == id && last.sub.Some? then [last.sub.value] else [])
  }

  /** The grouping: one item per distinct parent, first-seen order, with that parent's subtasks. */
  function Nest(rows: seq<JoinRow>): seq<TodoView> {
    var ids := ParentIds(rows);
    seq(|ids|, k requires 0 <= k < |ids| => TodoView(FirstParent(rows, ids[k]), SubtasksOf(rows, ids[k])))
  }

  predicate Distinct(s: seq<int>) {
    forall i, j :: 0 <= i < j < |s| ==> s[i] != s[j]
  }

  /** Index of the first row whose parent is `id`; `|rows|` when there is none. */
  function FirstIndex(rows: seq<JoinRow>, id: int): (i: nat)
    ensures i <= |rows|
    ensures i < |rows| ==> rows[i].parent.id == id
    ensures forall j :: 0 <= j < i ==> rows[j].parent.id != id
  {
    if rows == [] then 0
    else if rows[0].parent.id == id then 0
    else 1 + FirstIndex(rows[1..], id)
  }

  /** ParentIds lists each parent id at most once. */
  lemma {:induction false} ParentIdsDistinct(rows: seq<JoinRow>)
    ensures Distinct(ParentIds(rows))
    decreases |rows|
  {
    if rows != [] {
      ParentIdsDistinct(rows[..|rows| - 1]);
    }
  }

  /** ParentIds lists exactly the parent ids that occur in `rows`. */
  lemma {:induction false} ParentIdsMembers(rows: seq<JoinRow>)
    ensures forall id :: id in ParentIds(rows) <==> FirstIndex(rows, id) < |rows|
    decreases |rows|
  {
    if rows != [] {
      var init := rows[..|rows| - 1];
      ParentIdsMembers(init);
      forall id ensures id in ParentIds(rows) <==> FirstIndex(rows, id) < |rows| {
        if id in ParentIds(init) {
          FirstIndexOfPrefix(rows, id);
        } else {
          FirstIndexPastPrefix(rows, id);
        }
      }
    }
  }

  /** A parent comes before another in ParentIds exactly when its first row comes first. */
  lemma {:induction false} ParentIdsOrder(rows: seq<JoinRow>)
    ensures forall k, l :: 0 <= k < l < |ParentIds(rows)| ==>
              FirstIndex(rows, ParentIds(rows)[k]) < FirstIndex(rows, ParentIds(rows)[l])
    decreases |rows|
  {
    if rows != [] {
      var init := rows[..|rows| - 1];
      ParentIdsOrder(init);
      ParentIdsMembers(init);
      ParentIdsMembers(rows);
      var ids := ParentIds(rows);
      forall k, l | 0 <= k < l < |ids| ensures FirstIndex(rows, ids[k]) < FirstIndex(rows, ids[l]) {
        assert ids[k] in ParentIds(init);
        FirstIndexOfPrefix(rows, ids[k]);
        if l < |ParentIds(init)| {
          assert ids[l] in ParentIds(init);
          FirstIndexOfPrefix(rows, ids[l]);
        } else {
          assert ids[l] == rows[|rows| - 1].parent.id;
        }
      }
    }
  }

  /**
   * ParentIds lists every parent id of `rows` exactly once, and a parent comes before another
   * exactly when its first row comes before the other's first row.
   */
  lemma ParentIdsSpec(rows: seq<JoinRow>)
    ensures Distinct(ParentIds(rows))
    ensures forall id :: id in ParentIds(rows) <==> FirstIndex(rows, id) < |rows|
    ensures forall k, l :: 0 <= k < l < |ParentIds(rows)| ==>
              FirstIndex(rows, ParentIds(rows)[k]) < FirstIndex(rows, ParentIds(rows)[l])
  {
    ParentIdsDistinct(rows);
    ParentIdsMembers(rows);
    ParentIdsOrder(rows);
  }

  /** FirstIndex is determined by its contract. */
  lemma {:induction false} FirstIndexUnique(rows: seq<JoinRow>, id: int, i: nat)
    requires i <= |rows|
    requires i < |rows| ==> rows[i].parent.id == id
    requires forall j :: 0 <= j < i ==> rows[j].parent.id != id
    ensures FirstIndex(rows, id) == i
    decreases |rows|
  {
    if rows != [] && i > 0 {
      forall j | 0 <= j < i - 1 ensures rows[1..][j].parent.id != id {
        assert rows[1..][j] == rows[j + 1];
      }
      FirstIndexUnique(rows[1..], id, i - 1);
    }
  }

  /** A parent that already occurs in all rows but the last has the same first row in both. */
  lemma FirstIndexOfPrefix(rows: seq<JoinRow>, id: int)
    requires rows != []
    requires FirstIndex(rows[..|rows| - 1], id) < |rows| - 1
    ensures FirstIndex(rows, id) == FirstIndex(rows[..|rows| - 1], id)
  {
    var init := rows[..|rows| - 1];
    var b := FirstIndex(init, id);
    assert forall j :: 0 <= j < b ==> rows[j] == init[j];
    FirstIndexUnique(rows, id, b);
  }

  /** A parent absent from all rows but the last first occurs in the last row, if at all. */
  lemma FirstIndexPastPrefix(rows: seq<JoinRow>, id: int)
    requires rows != []
    requires FirstIndex(rows[..|rows| - 1], id) == |rows| - 1
    ensures FirstIndex(rows, id) < |rows| <==> rows[|rows| - 1].parent.id == id
    ensures FirstIndex(rows, id) < |rows| ==> FirstIndex(rows, id) == |rows| - 1
  {
    var init := rows[..|rows| - 1];
    assert forall j :: 0 <= j < |rows| - 1 ==> rows[j] == init[j];
    if rows[|rows| - 1].parent.id == id {
      FirstIndexUnique(rows, id, |rows| - 1);
    } else {
      FirstIndexUnique(rows, id, |rows|);
    }
  }

  /** Each item carries the record of its parent's first row. */
  lemma {:induction false} FirstParentIsFirstRow(rows: seq<JoinRow>, id: int)
    requires id in ParentIds(rows)
    ensures FirstIndex(rows, id) < |rows|
    ensures FirstParent(rows, id) == rows[FirstIndex(rows, id)].parent
    decreases |rows|
  {
    ParentIdsSpec(rows);
    var init := rows[..|rows| - 1];
    ParentIdsSpec(init);
    if id in ParentIds(init) {
      FirstParentIsFirstRow(init, id);
      FirstIndexOfPrefix(rows, id);
    } else {
      FirstIndexPastPrefix(rows, id);
    }
  }

  /** The subtasks gathered for a parent over consecutive pieces of rows are the pieces' subtasks in order. */
  lemma {:induction false} SubtasksOfAppend(a: seq<JoinRow>, b: seq<JoinRow>, id: int)
    ensures SubtasksOf(a + b, id) == SubtasksOf(a, id) + SubtasksOf(b, id)
    decreases |b|
  {
    if b != [] {
      assert (a + b)[..|a + b| - 1] == a + b[..|b| - 1];
      SubtasksOfAppend(a, b[..|b| - 1], id);
    } else {
      assert a + b == a;
    }
  }

  /** A parent whose rows all have a null subtask gets the empty list. */
  lemma {:induction false} OnlyNullRowsGiveNoSubtasks(rows: seq<JoinRow>, id: int)
    requires forall i :: 0 <= i < |rows| && rows[i].parent.id == id ==> rows[i].sub.None?
    ensures SubtasksOf(rows, id) == []
    decreases |rows|
  {
    if rows != [] {
      OnlyNullRowsGiveNoSubtasks(rows[..|rows| - 1], id);
    }
  }

  /** Every subtask gathered for parent `id` comes from a row pairing it with that parent. */
  lemma {:induction false} SubtasksComeFromRows(rows: seq<JoinRow>, id: int, t: Todo)
    requires t in SubtasksOf(rows, id)
    ensures exists i :: 0 <= i < |rows| && rows[i].parent.id == id && rows[i].sub == Some(t)
    decreases |rows|
  {
    var init := rows[..|rows| - 1];
    if t in SubtasksOf(init, id) {
      SubtasksComeFromRows(init, id, t);
      var i :| 0 <= i < |init| && init[i].parent.id == id && init[i].sub == Some(t);
      assert rows[i] == init[i];
    }
  }

  /**
   * The grouping contract: one item per distinct parent id in first-seen order, each item the
   * parent's first record with exactly its non-null subtasks in row order.
   */
  lemma NestSpec(rows: seq<JoinRow>)
    ensures |Nest(rows)| == |ParentIds(rows)|
    ensures forall k :: 0 <= k < |Nest(rows)| ==>
              Nest(rows)[k].todo.id == ParentIds(rows)[k]
              && Nest(rows)[k].subtasks == SubtasksOf(rows, ParentIds(rows)[k])
    ensures forall k, l :: 0 <= k < l < |Nest(rows)| ==> Nest(rows)[k].todo.id != Nest(rows)[l].todo.id
    ensures forall i :: 0 <= i < |rows| ==> exists k :: 0 <= k < |Nest(rows)| && Nest(rows)[k].todo.id == rows[i].parent.id
  {
    ParentIdsSpec(rows);
    var ids := ParentIds(rows);
    forall k | 0 <= k < |ids| ensures Nest(rows)[k].todo.id == ids[k] {
      FirstParentIsFirstRow(rows, ids[k]);
    }
    forall i | 0 <= i < |rows| ensures exists k :: 0 <= k < |Nest(rows)| && Nest(rows)[k].todo.id == rows[i].parent.id {
      assert rows[i].parent.id in ids;
      var k :| 0 <= k < |ids| && ids[k] == rows[i].parent.id;
      assert Nest(rows)[k].todo.id == rows[i].parent.id;
    }
  }

  /** Each row's subtask is gathered under its parent. */
  lemma {:induction false} SubtasksOfHas(rows: seq<JoinRow>, i: int)
    requires 0 <= i < |rows| && rows[i].sub.Some?
    ensures rows[i].sub.value in SubtasksOf(rows, rows[i].parent.id)
    decreases |rows|
  {
    if i < |rows| - 1 {
      var init := rows[..|rows| - 1];
      assert init[i] == rows[i];
      SubtasksOfHas(init, i);
    }
  }

  /** Rows naming the same parent id carry the same parent record, as rows of one join do. */
  ghost predicate SameParentRecords(rows: seq<JoinRow>) {
    forall i, j :: 0 <= i < |rows| && 0 <= j < |rows| && rows[i].parent.id == rows[j].parent.id ==> rows[i].parent == rows[j].parent
  }

  /** The items show row `r`: its parent is an item, which carries `r`'s subtask when it has one. */
  ghost predicate Shows(items: seq<TodoView>, r: JoinRow) {
    exists v :: v in items && v.todo == r.parent && (r.sub.Some? ==> r.sub.value in v.subtasks)
  }

  /** Item `v` and each of its subtasks come from rows of `rows`. */
  ghost predicate ComesFrom(v: TodoView, rows: seq<JoinRow>) {
    && (exists i :: 0 <= i < |rows| && rows[i].parent == v.todo)
    && forall s :: s in v.subtasks ==> exists i :: 0 <= i < |rows| && rows[i].parent == v.todo && rows[i].sub == Some(s)
  }

  /** Regrouping loses no row and invents none: every row is shown, and every item comes from the rows. */
  lemma NestShowsRows(rows: seq<JoinRow>)
    requires SameParentRecords(rows)
    ensures forall i :: 0 <= i < |rows| ==> Shows(Nest(rows), rows[i])
    ensures forall v :: v in Nest(rows) ==> ComesFrom(v, rows)
  {
    NestSpec(rows);
    var items := Nest(rows);
    var ids := ParentIds(rows);
    forall i | 0 <= i < |rows| ensures Shows(items, rows[i]) {
      var id := rows[i].parent.id;
      var k :| 0 <= k < |items| && items[k].todo.id == id;
      FirstParentIsFirstRow(rows, ids[k]);
      assert items[k].todo == rows[FirstIndex(rows, id)].parent;
      if rows[i].sub.Some? {
        SubtasksOfHas(rows, i);
      }
      assert items[k] in items;
    }
    forall v | v in items ensures ComesFrom(v, rows) {
      var k :| 0 <= k < |items| && items[k] == v;
      var id := ids[k];
      FirstParentIsFirstRow(rows, id);
      var first := FirstIndex(rows, id);
      assert v.todo == rows[first].parent;
      forall s | s in v.subtasks ensures exists i :: 0 <= i < |rows| && rows[i].parent == v.todo && rows[i].sub == Some(s) {
        SubtasksComeFromRows(rows, id, s);
        var i :| 0 <= i < |rows| && rows[i].parent.id == id && rows[i].sub == Some(s);
        assert rows[i].parent == rows[first].parent;
      }
    }
  }

  lemma DistinctAppend(s: seq<int>, x: int)
    requires Distinct(s) && x !in s
    ensures Distinct(s + [x])
  {
  }

  /** How ParentIds and FirstParent change when one more row is read. */
  lemma ReadOneMoreParent(rows: seq<JoinRow>, i: nat)
    requires i < |rows|
    ensures var before, after, r := rows[..i], rows[..i + 1], rows[i];
      && ParentIds(after) == (if r.parent.id in ParentIds(before) then ParentIds(before) else ParentIds(before) + [r.parent.id])
      && (forall id :: id in ParentIds(before) ==> FirstParent(after, id) == FirstParent(before, id))
      && (r.parent.id !in ParentIds(before) ==> FirstParent(after, r.parent.id) == r.parent)
  {
    assert rows[..i + 1][..i] == rows[..i];
  }

  /** How SubtasksOf changes when one more row is read. */
  lemma ReadOneMoreSubtask(rows: seq<JoinRow>, i: nat)
    requires i < |rows|
    ensures var before, after, r := rows[..i], rows[..i + 1], rows[i];
      && ParentIds(after) == (if r.parent.id in ParentIds(before) then ParentIds(before) else ParentIds(before) + [r.parent.id])
      && (forall id :: id != r.parent.id ==> SubtasksOf(after, id) == SubtasksOf(before, id))
      && SubtasksOf(after, r.parent.id) == SubtasksOf(before, r.parent.id) + (if r.sub.Some? then [r.sub.value] else [])
  {
    assert rows[..i + 1][..i] == rows[..i];
  }

  /** The parents dict of the first pass of `_nest_subtasks` after reading `rows`. */
  ghost predicate CollectedParents(rows: seq<JoinRow>, todosKeys: seq<int>, todosDict: map<int, TodoView>) {
    && todosKeys == ParentIds(rows)
    && (forall id :: id in todosDict <==> id in todosKeys)
    && (forall id :: id in todosDict ==> todosDict[id] == TodoView(FirstParent(rows, id), []))
  }

  /** The subtasks map of the first pass of `_nest_subtasks` after reading `rows`. */
  ghost predicate CollectedSubtasks(rows: seq<JoinRow>, subtasksKeys: seq<int>, subtasksMap: map<int, seq<Todo>>) {
    && (forall id :: id in subtasksMap <==> id in subtasksKeys)
    && Distinct(subtasksKeys)
    && (forall id :: id in subtasksMap ==> id in ParentIds(rows) && subtasksMap[id] == SubtasksOf(rows, id))
    && (forall id :: id !in subtasksMap ==> SubtasksOf(rows, id) == [])
  }

  /** What the first pass of `_nest_subtasks` has built after reading `rows`. */
  ghost predicate Collected(rows: seq<JoinRow>, todosKeys: seq<int>, todosDict: map<int, TodoView>,
                            subtasksKeys: seq<int>, subtasksMap: map<int, seq<Todo>>)
  {
    CollectedParents(rows, todosKeys, todosDict) && CollectedSubtasks(rows, subtasksKeys, subtasksMap)
  }

  /** Row `i` as the first pass reads it into the parents dict. */
  method ReadParent(todoPairs: seq<JoinRow>, i: nat, todosKeys: seq<int>, todosDict: map<int, TodoView>)
    returns (todosKeys': seq<int>, todosDict': map<int, TodoView>)
    requires i < |todoPairs|
    requires CollectedParents(todoPairs[..i], todosKeys, todosDict)
    ensures CollectedParents(todoPairs[..i + 1], todosKeys', todosDict')
  {
    var parent := todoPairs[i].parent;
    ReadOneMoreParent(todoPairs, i);
    todosKeys', todosDict' := todosKeys, todosDict;
    var parentResponse := ResponseOf(parent);
    if parent.id !in todosDict' {
      todosDict' := todosDict'[parent.id := parentResponse];
      todosKeys' := todosKeys' + [parent.id];
    }
    forall id | id in todosDict' ensures todosDict'[id] == TodoView(FirstParent(todoPairs[..i + 1], id), []) {
      if id != parent.id || parent.id in ParentIds(todoPairs[..i]) {
        assert id in ParentIds(todoPairs[..i]);
      }
    }
  }

  /** Row `i` as the first pass reads it into the subtasks map. */
  method ReadSubtask(todoPairs: seq<JoinRow>, i: nat, subtasksKeys: seq<int>, subtasksMap: map<int, seq<Todo>>)
    returns (subtasksKeys': seq<int>, subtasksMap': map<int, seq<Todo>>)
    requires i < |todoPairs|
    requires CollectedSubtasks(todoPairs[..i], subtasksKeys, subtasksMap)
    ensures forall id :: id in subtasksMap' <==> id in subtasksKeys'
    ensures Distinct(subtasksKeys')
    ensures forall id :: id in subtasksMap' ==> id in ParentIds(todoPairs[..i + 1]) && subtasksMap'[id] == SubtasksOf(todoPairs[..i + 1], id)
    ensures forall id :: id !in subtasksMap' ==> SubtasksOf(todoPairs[..i + 1], id) == []
  {
    var parent, sub := todoPairs[i].parent, todoPairs[i].sub;
    ReadOneMoreSubtask(todoPairs, i);
    subtasksKeys', subtasksMap' := subtasksKeys, subtasksMap;
    if sub.Some? {
      if parent.id !in subtasksMap' {
        DistinctAppend(subtasksKeys', parent.id);
        subtasksMap' := subtasksMap'[parent.id := []];
        subtasksKeys' := subtasksKeys' + [parent.id];
      }
      subtasksMap' := subtasksMap'[parent.id := subtasksMap'[parent.id] + [sub.value]];
    }
    ghost var before, after := ParentIds(todoPairs[..i]), ParentIds(todoPairs[..i + 1]);
    assert parent.id in after;
    assert forall id :: id in before ==> id in after;
    forall id | id in subtasksMap'
      ensures id in after && subtasksMap'[id] == SubtasksOf(todoPairs[..i + 1], id)
    {
      if id != parent.id {
        assert id in subtasksMap;
      }
    }
    forall id | id !in subtasksMap' ensures SubtasksOf(todoPairs[..i + 1], id) == [] {
      assert id !in subtasksMap;
    }
    forall id ensures id in subtasksMap' <==> id in subtasksKeys' {
      assert id in subtasksMap <==> id in subtasksKeys;
    }
  }

  /** First pass of `_nest_subtasks`: each parent once with no subtasks, and each parent's subtask list. */
  method CollectPairs(todoPairs: seq<JoinRow>)
    returns (todosKeys: seq<int>, todosDict: map<int, TodoView>, subtasksKeys: seq<int>, subtasksMap: map<int, seq<Todo>>)
    ensures Collected(todoPairs, todosKeys, todosDict, subtasksKeys, subtasksMap)
  {
    todosKeys, todosDict, subtasksKeys, subtasksMap := [], map[], [], map[];
    for i := 0 to |todoPairs|
      invariant Collected(todoPairs[..i], todosKeys, todosDict, subtasksKeys, subtasksMap)
    {
      todosKeys, todosDict := ReadParent(todoPairs, i, todosKeys, todosDict);
      subtasksKeys, subtasksMap := ReadSubtask(todoPairs, i, subtasksKeys, subtasksMap);
    }
    assert todoPairs[..|todoPairs|] == todoPairs;
  }

  /** Second pass of `_nest_subtasks`: extend each parent's subtasks with its collected list. */
  method MergeSubtasks(todoPairs: seq<JoinRow>, todosKeys: seq<int>, todosDict: map<int, TodoView>,
                       subtasksKeys: seq<int>, subtasksMap: map<int, seq<Todo>>)
    returns (merged: map<int, TodoView>)
    requires Collected(todoPairs, todosKeys, todosDict, subtasksKeys, subtasksMap)
    ensures forall id :: id in merged <==> id in todosKeys
    ensures forall id :: id in merged ==> merged[id] == TodoView(FirstParent(todoPairs, id), SubtasksOf(todoPairs, id))
  {
    merged := todosDict;
    for j := 0 to |subtasksKeys|
      invariant forall id :: id in merged <==> id in todosKeys
      invariant forall id :: id in merged ==>
                  merged[id] == TodoView(FirstParent(todoPairs, id),
                                         if id in subtasksKeys[..j] then SubtasksOf(todoPairs, id) else [])
    {
      var parentId := subtasksKeys[j];
      assert subtasksKeys[..j + 1] == subtasksKeys[..j] + [parentId];
      assert parentId !in subtasksKeys[..j];
      ghost var prev := merged;
      merged := merged[parentId := merged[parentId].(subtasks := merged[parentId].subtasks + subtasksMap[parentId])];
      forall id | id in merged
        ensures merged[id] == TodoView(FirstParent(todoPairs, id),
                                       if id in subtasksKeys[..j + 1] then SubtasksOf(todoPairs, id) else [])
      {
        if id != parentId {
          assert merged[id] == prev[id];
          assert id in subtasksKeys[..j + 1] <==> id in subtasksKeys[..j];
        }
      }
    }
    assert subtasksKeys[..|subtasksKeys|] == subtasksKeys;
    forall id | id in merged ensures merged[id] == TodoView(FirstParent(todoPairs, id), SubtasksOf(todoPairs, id)) {
      if id !in subtasksKeys {
        assert id !in subtasksMap;
      }
    }
  }

  /** `_nest_subtasks`: collect parents and subtask lists, merge them, then list the parents in first-seen order. */
  method NestSubtasks(todoPairs: seq<JoinRow>) returns (items: seq<TodoView>)
    ensures items == Nest(todoPairs)
  {
    var todosKeys, todosDict, subtasksKeys, subtasksMap := CollectPairs(todoPairs);
    todosDict := MergeSubtasks(todoPairs, todosKeys, todosDict, subtasksKeys, subtasksMap);
    items := [];
    for k := 0 to |todosKeys|
      invariant items == Nest(todoPairs)[..k]
    {
      assert todosKeys[k] in todosDict;
      assert todosDict[todosKeys[k]] == Nest(todoPairs)[k];
      assert Nest(todoPairs)[..k + 1] == Nest(todoPairs)[..k] + [Nest(todoPairs)[k]];
      items := items + [todosDict[todosKeys[k]]];
    }
  }
}
