/** The records the store keeps: todos, lists, the draft a new todo is built from and the partial update. */
module Types {
  import opened Optional

  /** Opaque identifiers and ISO-8601 time stamps; the model never looks inside them. */
  type Id = string
  type Timestamp = string

  datatype Priority = Low | Medium | High

  datatype Repeat = Daily | Weekly | Monthly

  /** One task. `order` is a JavaScript number, modelled as an integer. */
  datatype Todo = Todo(
    id: Id,
    title: string,
    notes: Option<string>,
    priority: Priority,
    tags: seq<string>,
    listId: Id,
    due: Option<string>,
    repeat: Option<Repeat>,
    completed: bool,
    createdAt: Timestamp,
    updatedAt: Timestamp,
    order: int
  )

  /** A named list that todos refer to through `listId`. */
  datatype List = List(id: Id, name: string)

  /** What `addTodo` receives: a todo without `id`, `createdAt`, `updatedAt` and `completed`. */
  datatype Draft = Draft(
    title: string,
    notes: Option<string>,
    priority: Priority,
    tags: seq<string>,
    listId: Id,
    due: Option<string>,
    repeat: Option<Repeat>,
    order: int
  )

  /**
   * What `updateTodo` receives (`Partial<Todo>`): `None` leaves a field alone.
   * An optional field can also be set to `undefined`, hence `Some(None)`.
   */
  datatype Patch = Patch(
    id: Option<Id>,
    title: Option<string>,
    notes: Option<Option<string>>,
    priority: Option<Priority>,
    tags: Option<seq<string>>,
    listId: Option<Id>,
    due: Option<Option<string>>,
    repeat: Option<Option<Repeat>>,
    completed: Option<bool>,
    createdAt: Option<Timestamp>,
    updatedAt: Option<Timestamp>,
    order: Option<int>
  )

  /** The patch that sets nothing (`{}`). */
  const NoChanges := Patch(None, None, None, None, None, None, None, None, None, None, None, None)
}
