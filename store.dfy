/**
 * The todo store: three fields (`todos`, `lists`, `currentListId`) and seven
 * actions. Each action computes the new value of one or two fields from the
 * old state with a pure function on sequences defined here; the class applies
 * it and leaves every other field alone. The random id and the clock are
 * parameters of the actions.
 */
module Store {
  import opened Optional
  import opened Seqs
  import opened Types

  /** The ids of `todos`, position by position. */
  function Ids(todos: seq<Todo>): seq<Id>
  {
    seq(|todos|, i requires 0 <= i < |todos| => todos[i].id)
  }

  /**
   * No two todos share an id. The store never checks this: it holds as long
   * as every id handed to `addTodo` is fresh, no update patches an id and no
   * `reorderTodos` lists an id twice (a repeated id is picked twice).
   */
  ghost predicate UniqueIds(todos: seq<Todo>) {
    forall i, j :: 0 <= i < j < |todos| ==> todos[i].id != todos[j].id
  }

  // ----- addTodo -----

  /** The draft part of a todo: everything except `id`, the time stamps and `completed`. */
  function DraftOf(t: Todo): Draft {
    Draft(t.title, t.notes, t.priority, t.tags, t.listId, t.due, t.repeat, t.order)
  }

  /**
   * `{...draft, id, createdAt: now, updatedAt: now, completed: false, order}`:
   * the draft's own fields survive except `order`, which is overridden.
   */
  function Stamp(d: Draft, id: Id, now: Timestamp, order: int): (t: Todo)
    ensures DraftOf(t) == d.(order := order)
    ensures t.id == id && !t.completed
    ensures t.createdAt == now && t.updatedAt == now
  {
    Todo(id, d.title, d.notes, d.priority, d.tags, d.listId, d.due, d.repeat, false, now, now, order)
  }

  /**
   * The todos after `addTodo`: exactly one new todo at the end, stamped with
   * the given id and time and ordered by the number of todos before it; every
   * earlier todo stays at its index.
   */
  function WithAdded(todos: seq<Todo>, d: Draft, id: Id, now: Timestamp): (r: seq<Todo>)
    ensures |r| == |todos| + 1
    ensures r[..|todos|] == todos
    ensures r[|todos|] == Stamp(d, id, now, |todos|)
    ensures r[|todos|].order == |todos|
  {
    todos + [Stamp(d, id, now, |todos|)]
  }

  /** Adding with a fresh id keeps ids unique. */
  lemma AddKeepsUniqueIds(todos: seq<Todo>, d: Draft, id: Id, now: Timestamp)
    requires UniqueIds(todos) && id !in Ids(todos)
    ensures UniqueIds(WithAdded(todos, d, id, now))
  {
    var r := WithAdded(todos, d, id, now);
    forall i, j | 0 <= i < j < |r| ensures r[i].id != r[j].id {
      if j == |todos| {
        assert Ids(todos)[i] == r[i].id;
      }
    }
  }

  // ----- updateTodo and toggleTodo: a map over the todos with a matching id -----

  /** `todos.map(t => t.id === id ? f(t) : t)`: positions kept, only matching todos rewritten. */
  function MapMatching(todos: seq<Todo>, id: Id, f: Todo -> Todo): (r: seq<Todo>)
    ensures |r| == |todos|
    ensures forall i :: 0 <= i < |todos| && todos[i].id != id ==> r[i] == todos[i]
    ensures forall i :: 0 <= i < |todos| && todos[i].id == id ==> r[i] == f(todos[i])
  {
    if todos == [] then []
    else [if todos[0].id == id then f(todos[0]) else todos[0]] + MapMatching(todos[1..], id, f)
  }

  /** When no todo has the id, the map changes nothing. */
  lemma MapMatchingAbsent(todos: seq<Todo>, id: Id, f: Todo -> Todo)
    requires id !in Ids(todos)
    ensures MapMatching(todos, id, f) == todos
  {
    var r := MapMatching(todos, id, f);
    forall i | 0 <= i < |todos| ensures r[i] == todos[i] {
      assert Ids(todos)[i] == todos[i].id;
    }
  }

  /** When `f` keeps ids, the map keeps the id at every position. */
  lemma MapMatchingKeepsIds(todos: seq<Todo>, id: Id, f: Todo -> Todo)
    requires forall t :: f(t).id == t.id
    ensures Ids(MapMatching(todos, id, f)) == Ids(todos)
  {
  }

  /** Every field the patch sets, other than `updatedAt`, has the patch's value in `r`. */
  predicate Applied(c: Patch, r: Todo) {
    && (c.id.Some? ==> r.id == c.id.value)
    && (c.title.Some? ==> r.title == c.title.value)
    && (c.notes.Some? ==> r.notes == c.notes.value)
    && (c.priority.Some? ==> r.priority == c.priority.value)
    && (c.tags.Some? ==> r.tags == c.tags.value)
    && (c.listId.Some? ==> r.listId == c.listId.value)
    && (c.due.Some? ==> r.due == c.due.value)
    && (c.repeat.Some? ==> r.repeat == c.repeat.value)
    && (c.completed.Some? ==> r.completed == c.completed.value)
    && (c.createdAt.Some? ==> r.createdAt == c.createdAt.value)
    && (c.order.Some? ==> r.order == c.order.value)
  }

  /** Every field the patch leaves alone, other than `updatedAt`, is the same in `t` and `r`. */
  predicate Untouched(c: Patch, t: Todo, r: Todo) {
    && (c.id.None? ==> r.id == t.id)
    && (c.title.None? ==> r.title == t.title)
    && (c.notes.None? ==> r.notes == t.notes)
    && (c.priority.None? ==> r.priority == t.priority)
    && (c.tags.None? ==> r.tags == t.tags)
    && (c.listId.None? ==> r.listId == t.listId)
    && (c.due.None? ==> r.due == t.due)
    && (c.repeat.None? ==> r.repeat == t.repeat)
    && (c.completed.None? ==> r.completed == t.completed)
    && (c.createdAt.None? ==> r.createdAt == t.createdAt)
    && (c.order.None? ==> r.order == t.order)
  }

  /**
   * `{ ...t, ...changes, updatedAt: now }`: the patch wins over the old todo,
   * and `updatedAt` is `now` even when the patch carries its own.
   */
  function Merge(t: Todo, c: Patch, now: Timestamp): (r: Todo)
    ensures Applied(c, r) && Untouched(c, t, r)
    ensures r.updatedAt == now
  {
    Todo(
      c.id.GetOr(t.id), c.title.GetOr(t.title), c.notes.GetOr(t.notes),
      c.priority.GetOr(t.priority), c.tags.GetOr(t.tags), c.listId.GetOr(t.listId),
      c.due.GetOr(t.due), c.repeat.GetOr(t.repeat), c.completed.GetOr(t.completed),
      c.createdAt.GetOr(t.createdAt), now, c.order.GetOr(t.order))
  }

  /** An empty patch only refreshes `updatedAt`. */
  lemma MergeNoChanges(t: Todo, now: Timestamp)
    ensures Merge(t, NoChanges, now) == t.(updatedAt := now)
  {
  }

  /** Applying the same patch at the same time twice is applying it once. */
  lemma MergeIdempotent(t: Todo, c: Patch, now: Timestamp)
    ensures Merge(Merge(t, c, now), c, now) == Merge(t, c, now)
  {
  }

  /** The todos after `updateTodo(id, changes)`. */
  function WithUpdated(todos: seq<Todo>, id: Id, c: Patch, now: Timestamp): (r: seq<Todo>)
    ensures |r| == |todos|
    ensures forall i :: 0 <= i < |todos| && todos[i].id != id ==> r[i] == todos[i]
    ensures forall i :: 0 <= i < |todos| && todos[i].id == id ==> r[i] == Merge(todos[i], c, now)
  {
    MapMatching(todos, id, (t: Todo) => Merge(t, c, now))
  }

  /** Updating an id no todo has is a no-op. */
  lemma UpdateAbsent(todos: seq<Todo>, id: Id, c: Patch, now: Timestamp)
    requires id !in Ids(todos)
    ensures WithUpdated(todos, id, c, now) == todos
  {
    MapMatchingAbsent(todos, id, (t: Todo) => Merge(t, c, now));
  }

  /** A patch without `id` keeps every id, hence keeps ids unique. */
  lemma UpdateKeepsUniqueIds(todos: seq<Todo>, id: Id, c: Patch, now: Timestamp)
    requires UniqueIds(todos) && c.id.None?
    ensures Ids(WithUpdated(todos, id, c, now)) == Ids(todos)
    ensures UniqueIds(WithUpdated(todos, id, c, now))
  {
    var r := WithUpdated(todos, id, c, now);
    assert forall i :: 0 <= i < |r| ==> r[i].id == todos[i].id;
  }

  /** A patch that carries an `id` can make two todos share one: uniqueness is not an invariant of the store. */
  lemma UpdateCanDuplicateIds(a: Todo, b: Todo, now: Timestamp)
    requires a.id == "x" && b.id == "y"
    ensures UniqueIds([a, b])
    ensures !UniqueIds(WithUpdated([a, b], "x", NoChanges.(id := Some("y")), now))
  {
    var r := WithUpdated([a, b], "x", NoChanges.(id := Some("y")), now);
    assert r[0].id == "y" == r[1].id;
  }

  /** `{ ...t, completed: !t.completed, updatedAt: now }` */
  function Flip(t: Todo, now: Timestamp): (r: Todo)
    ensures r.completed == !t.completed && r.updatedAt == now
    ensures r.(completed := t.completed, updatedAt := t.updatedAt) == t
  {
    t.(completed := !t.completed, updatedAt := now)
  }

  /**
   * The todos after `toggleTodo(id)`: positions kept, a matching todo differs
   * from its old value only in `completed` (negated) and `updatedAt`.
   */
  function Toggled(todos: seq<Todo>, id: Id, now: Timestamp): (r: seq<Todo>)
    ensures |r| == |todos|
    ensures forall i :: 0 <= i < |todos| && todos[i].id != id ==> r[i] == todos[i]
    ensures forall i :: 0 <= i < |todos| && todos[i].id == id ==> r[i] == Flip(todos[i], now)
    ensures Ids(r) == Ids(todos)
  {
    MapMatching(todos, id, (t: Todo) => Flip(t, now))
  }

  /** Toggling the same id twice restores `completed`; only `updatedAt` of the matching todos moved. */
  lemma {:induction false} ToggleTwice(todos: seq<Todo>, id: Id, now1: Timestamp, now2: Timestamp)
    ensures var r := Toggled(Toggled(todos, id, now1), id, now2);
      && |r| == |todos|
      && forall i :: 0 <= i < |todos| ==>
           r[i] == if todos[i].id == id then todos[i].(updatedAt := now2) else todos[i]
  {
    var r1 := Toggled(todos, id, now1);
    var r := Toggled(r1, id, now2);
    forall i | 0 <= i < |todos|
      ensures r[i] == if todos[i].id == id then todos[i].(updatedAt := now2) else todos[i]
    {
      assert r1[i].id == Ids(r1)[i] == Ids(todos)[i] == todos[i].id;
    }
  }

  /** Toggling an id no todo has is a no-op. */
  lemma ToggleAbsent(todos: seq<Todo>, id: Id, now: Timestamp)
    requires id !in Ids(todos)
    ensures Toggled(todos, id, now) == todos
  {
    MapMatchingAbsent(todos, id, (t: Todo) => Flip(t, now));
  }

  // ----- deleteTodo -----

  /** The filter predicate of `deleteTodo`. */
  function IdIsNot(id: Id): (keep: Todo -> bool)
    ensures forall t: Todo :: keep(t) <==> t.id != id
  {
    (t: Todo) => t.id != id
  }

  /**
   * The todos after `deleteTodo(id)`: exactly the todos with another id, in
   * their original relative order (see `DeleteConcat`).
   */
  function Without(todos: seq<Todo>, id: Id): (r: seq<Todo>)
    ensures id !in Ids(r)
    ensures forall i :: 0 <= i < |r| ==> r[i] in todos
    ensures forall i :: 0 <= i < |todos| && todos[i].id != id ==> todos[i] in r
  {
    var r := Filter(todos, IdIsNot(id));
    assert forall i :: 0 <= i < |r| ==> Ids(r)[i] != id;
    r
  }

  /** Survivors keep their relative order: deleting from a concatenation deletes from each part. */
  lemma DeleteConcat(a: seq<Todo>, b: seq<Todo>, id: Id)
    ensures Without(a + b, id) == Without(a, id) + Without(b, id)
  {
    FilterConcat(a, b, IdIsNot(id));
  }

  /** Deleting twice is deleting once. */
  lemma DeleteIdempotent(todos: seq<Todo>, id: Id)
    ensures Without(Without(todos, id), id) == Without(todos, id)
  {
    FilterIdempotent(todos, IdIsNot(id));
  }

  /** Deleting an id no todo has is a no-op. */
  lemma DeleteAbsent(todos: seq<Todo>, id: Id)
    requires id !in Ids(todos)
    ensures Without(todos, id) == todos
  {
    forall i | 0 <= i < |todos| ensures IdIsNot(id)(todos[i]) {
      assert Ids(todos)[i] == todos[i].id;
    }
    FilterAllPass(todos, IdIsNot(id));
  }

  /** With unique ids, deleting a present id removes exactly one todo. */
  lemma {:induction false} DeleteRemovesOne(todos: seq<Todo>, id: Id)
    requires UniqueIds(todos) && id in Ids(todos)
    ensures |Without(todos, id)| == |todos| - 1
  {
    if todos[0].id == id {
      assert id !in Ids(todos[1..]) by {
        forall i | 0 <= i < |todos| - 1 ensures Ids(todos[1..])[i] != id {
          assert todos[1..][i] == todos[i + 1];
        }
      }
      DeleteAbsent(todos[1..], id);
    } else {
      var k :| 0 <= k < |todos| && Ids(todos)[k] == id;
      assert Ids(todos[1..])[k - 1] == id;
      DeleteRemovesOne(todos[1..], id);
    }
  }

  /** Deleting keeps ids unique. */
  lemma {:induction false} DeleteKeepsUniqueIds(todos: seq<Todo>, id: Id)
    requires UniqueIds(todos)
    ensures UniqueIds(Without(todos, id))
  {
    if todos != [] {
      DeleteKeepsUniqueIds(todos[1..], id);
      var rest := Without(todos[1..], id);
      forall j | 0 <= j < |rest| ensures rest[j].id != todos[0].id {
        var k :| 0 <= k < |todos[1..]| && todos[1..][k] == rest[j];
        assert todos[k + 1] == rest[j];
      }
    }
  }

  // ----- reorderTodos -----

  /** `todos.find(t => t.id === id)` when it finds one: the index of the first todo with that id. */
  function FindIndex(todos: seq<Todo>, id: Id): (k: nat)
    requires id in Ids(todos)
    ensures k < |todos| && todos[k].id == id
    ensures forall j :: 0 <= j < k ==> todos[j].id != id
  {
    if todos[0].id == id then 0
    else
      var k :| 0 <= k < |todos| && Ids(todos)[k] == id;
      assert Ids(todos[1..])[k - 1] == id;
      1 + FindIndex(todos[1..], id)
  }

  /** Every id of `ids` belongs to some todo (the `!` of `find(...)!` asserts it). */
  predicate AllPresent(todos: seq<Todo>, ids: seq<Id>) {
    forall i :: 0 <= i < |ids| ==> ids[i] in Ids(todos)
  }

  /**
   * The todos after `reorderTodos(ids)`: one todo per id, in the order of
   * `ids`, each the first old todo with that id with its `order` set to its
   * new position. Todos whose id is not in `ids` are dropped.
   */
  function Reordered(todos: seq<Todo>, ids: seq<Id>): (r: seq<Todo>)
    requires AllPresent(todos, ids)
    ensures |r| == |ids| && Ids(r) == ids
    ensures forall i :: 0 <= i < |r| ==> r[i].order == i
    ensures forall i :: 0 <= i < |r| ==> r[i].(order := 0) == todos[FindIndex(todos, ids[i])].(order := 0)
  {
    seq(|ids|, i requires 0 <= i < |ids| => todos[FindIndex(todos, ids[i])].(order := i))
  }

  /** With unique ids, position `i` of the result is THE todo with id `ids[i]`, renumbered. */
  lemma ReorderPicksTheTodo(todos: seq<Todo>, ids: seq<Id>, i: nat, k: nat)
    requires AllPresent(todos, ids) && UniqueIds(todos)
    requires i < |ids| && k < |todos| && todos[k].id == ids[i]
    ensures Reordered(todos, ids)[i] == todos[k].(order := i)
  {
    assert FindIndex(todos, ids[i]) == k;
  }

  /** Todos whose id is not listed are dropped. */
  lemma ReorderDropsUnlisted(todos: seq<Todo>, ids: seq<Id>, t: Todo)
    requires AllPresent(todos, ids) && t in todos && t.id !in ids
    ensures forall u :: u in Reordered(todos, ids) ==> u.id != t.id
  {
    var r := Reordered(todos, ids);
    forall u | u in r ensures u.id != t.id {
      var i :| 0 <= i < |r| && r[i] == u;
      assert Ids(r)[i] == u.id;
    }
  }

  /**
   * When `ids` lists every id of a store with unique ids exactly once, nothing
   * is dropped: every old todo appears in the result, renumbered by its new position.
   */
  lemma ReorderFullKeepsAll(todos: seq<Todo>, ids: seq<Id>, k: nat)
    requires AllPresent(todos, ids) && UniqueIds(todos)
    requires multiset(ids) == multiset(Ids(todos))
    requires k < |todos|
    ensures exists i :: 0 <= i < |ids| && Reordered(todos, ids)[i] == todos[k].(order := i)
  {
    assert Ids(todos)[k] == todos[k].id;
    assert todos[k].id in multiset(ids);
    var i :| 0 <= i < |ids| && ids[i] == todos[k].id;
    ReorderPicksTheTodo(todos, ids, i, k);
  }

  /** Distinct ids give distinct todos. */
  lemma ReorderKeepsUniqueIds(todos: seq<Todo>, ids: seq<Id>)
    requires AllPresent(todos, ids)
    requires forall i, j :: 0 <= i < j < |ids| ==> ids[i] != ids[j]
    ensures UniqueIds(Reordered(todos, ids))
  {
    var r := Reordered(todos, ids);
    assert forall i :: 0 <= i < |r| ==> r[i].id == Ids(r)[i];
  }

  /** Reordering two todos by `[id2, id1]` puts the second first, with orders 0 and 1. */
  lemma ReorderExample(a: Todo, b: Todo)
    requires a.id == "id1" && b.id == "id2"
    ensures AllPresent([a, b], ["id2", "id1"])
    ensures Reordered([a, b], ["id2", "id1"]) == [b.(order := 0), a.(order := 1)]
  {
    assert Ids([a, b]) == ["id1", "id2"];
    assert FindIndex([a, b], "id1") == 0;
    assert FindIndex([a, b], "id2") == 1;
  }

  // ----- the store -----

  /** The store's state; each action replaces one or two fields and leaves the others alone. */
  class TodoStore {
    var todos: seq<Todo>
    var lists: seq<List>
    var currentListId: Option<Id>

    /** The initial state: no todos, no lists, no list selected. */
    constructor ()
      ensures todos == [] && lists == [] && currentListId == None
    {
      todos := [];
      lists := [];
      currentListId := None;
    }

    /** `addTodo(draft)`, with the generated id and the current time given. */
    method AddTodo(draft: Draft, id: Id, now: Timestamp)
      modifies this
      ensures todos == WithAdded(old(todos), draft, id, now)
      ensures lists == old(lists) && currentListId == old(currentListId)
      ensures UniqueIds(old(todos)) && id !in Ids(old(todos)) ==> UniqueIds(todos)
    {
      if UniqueIds(todos) && id !in Ids(todos) {
        AddKeepsUniqueIds(todos, draft, id, now);
      }
      todos := WithAdded(todos, draft, id, now);
    }

    /** `updateTodo(id, changes)`, with the current time given. */
    method UpdateTodo(id: Id, changes: Patch, now: Timestamp)
      modifies this
      ensures todos == WithUpdated(old(todos), id, changes, now)
      ensures lists == old(lists) && currentListId == old(currentListId)
      ensures id !in Ids(old(todos)) ==> todos == old(todos)
      ensures UniqueIds(old(todos)) && changes.id.None? ==> UniqueIds(todos)
    {
      if id !in Ids(todos) {
        UpdateAbsent(todos, id, changes, now);
      }
      if UniqueIds(todos) && changes.id.None? {
        UpdateKeepsUniqueIds(todos, id, changes, now);
      }
      todos := WithUpdated(todos, id, changes, now);
    }

    /** `deleteTodo(id)`. */
    method DeleteTodo(id: Id)
      modifies this
      ensures todos == Without(old(todos), id)
      ensures lists == old(lists) && currentListId == old(currentListId)
      ensures id !in Ids(old(todos)) ==> todos == old(todos)
      ensures UniqueIds(old(todos)) ==> UniqueIds(todos)
    {
      if id !in Ids(todos) {
        DeleteAbsent(todos, id);
      }
      if UniqueIds(todos) {
        DeleteKeepsUniqueIds(todos, id);
      }
      todos := Without(todos, id);
    }

    /** `toggleTodo(id)`, with the current time given. */
    method ToggleTodo(id: Id, now: Timestamp)
      modifies this
      ensures todos == Toggled(old(todos), id, now)
      ensures lists == old(lists) && currentListId == old(currentListId)
      ensures id !in Ids(old(todos)) ==> todos == old(todos)
      ensures UniqueIds(old(todos)) ==> UniqueIds(todos)
    {
      if id !in Ids(todos) {
        ToggleAbsent(todos, id, now);
      }
      todos := Toggled(todos, id, now);
    }

    /** `reorderTodos(ids)`; every id must belong to some todo. */
    method ReorderTodos(ids: seq<Id>)
      requires AllPresent(todos, ids)
      modifies this
      ensures todos == Reordered(old(todos), ids)
      ensures lists == old(lists) && currentListId == old(currentListId)
    {
      todos := Reordered(todos, ids);
    }

    /** `addList(name)`, with the generated id given: the new list is appended and selected. */
    method AddList(name: string, id: Id)
      modifies this
      ensures lists == old(lists) + [List(id, name)]
      ensures currentListId == Some(id)
      ensures todos == old(todos)
    {
      lists := lists + [List(id, name)];
      currentListId := Some(id);
    }

    /** `setCurrentList(id)`: `None` selects every list. */
    method SetCurrentList(id: Option<Id>)
      modifies this
      ensures currentListId == id
      ensures todos == old(todos) && lists == old(lists)
    {
      currentListId := id;
    }
  }
}
