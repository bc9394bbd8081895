# Todo store and task-list view, modelled in Dafny

This project models the state store of a browser task-list manager and the
pure logic its main page derives from that store.

- **The store** (`store.dfy`, module `Store`) holds three fields: `todos`,
  `lists` and `currentListId`. It has seven actions: `addTodo`,
  `updateTodo`, `deleteTodo`, `toggleTodo`, `reorderTodos`, `addList` and
  `setCurrentList`. Each action is a pure function on sequences, which
  class `TodoStore` applies to the fields it replaces. Every method states
  that the other fields do not change. The random id and the clock are
  method parameters.
- **The view** (`view.dfy`, module `View`) holds the `filteredTodos`
  pipeline, the draft that `handleAddTodo` builds, the blank-name guard of
  `handleAddList`, and the two handlers as methods on a store.
- **Support modules.** `types.dfy` holds the records: `Todo` and `List`
  with the fields of `apps/web/src/types.ts:1-22` (the optional fields as
  `Option`), `Draft` for the argument of `addTodo` (every field of a todo
  except `id`, `createdAt`, `updatedAt` and `completed`,
  `apps/web/src/store.ts:9`), and `Patch` for the `Partial<Todo>` of
  `updateTodo` (`apps/web/src/store.ts:10`), where an optional field is
  `Option<Option<…>>` so that "leave as is" and "clear" stay apart. `text.dfy` holds the
  JavaScript string operations the view uses: `trim`, `toLowerCase`,
  `split`, `join` and `includes`. `seqs.dfy` holds `Array.prototype.filter`.
  `option.dfy` holds an option type.

Id uniqueness is not a store invariant, because the source never checks
it. The model states when it is kept:
- `addTodo` keeps it when the new id is fresh.
- `deleteTodo` and `toggleTodo` always keep it.
- `updateTodo` keeps it when the patch has no `id`.
- `reorderTodos` keeps it when the listed ids are distinct.
- `UpdateCanDuplicateIds` shows a patch that breaks it.

Where the code's behaviour may surprise a reader, the model follows the code:
- **`deleteTodo`** removes every todo with the id, not only one. It removes
  exactly one only when ids are unique (`DeleteRemovesOne`).
- **The list filter** treats an empty `currentListId` like no selection,
  because `''` is falsy.
- **`reorderTodos` with an unknown id** does not fail in the code. Spreading
  `undefined` stores a bare `{order}` object. The model makes a known id a
  precondition.
- **The `addTodo` argument** does carry `order`, because the type omits only
  `id`, the two time stamps and `completed`. The store overrides it.
- **Time stamps** are opaque values here. Nothing is claimed about one
  being later than another.

## Model

| member | source | states |
|---|---|---|
| Seqs.Filter | apps/web/src/store.ts:51 | the result keeps exactly the elements that pass, is no longer than the input and is a sub-multiset of it |
| Seqs.FilterConcat | apps/web/src/store.ts:51 | filtering a concatenation filters each part, so survivors keep their relative order |
| Seqs.FilterIdempotent | apps/web/src/store.ts:51 | filtering twice with the same test is filtering once |
| Seqs.FilterAllPass | apps/web/src/App.tsx:29-34 | when every element passes, the filter returns its input unchanged |
| Store.Stamp | apps/web/src/store.ts:34-41 | the new todo keeps every draft field except `order`, has the given id, `completed` false and `createdAt == updatedAt == now` |
| Store.WithAdded | apps/web/src/store.ts:27-43 | `addTodo` appends exactly one todo; earlier todos stay at their indices; the new one has `order` = old count, overriding the draft's |
| Store.AddKeepsUniqueIds | apps/web/src/store.ts:29-36 | adding with an id no todo has keeps ids unique |
| Store.MapMatching | apps/web/src/store.ts:47 | the `t.id === id ? f(t) : t` map keeps length and positions, rewrites matching todos with `f` and leaves the others equal |
| Store.MapMatchingAbsent | apps/web/src/store.ts:55 | when no todo has the id, the map returns the todos unchanged |
| Store.MapMatchingKeepsIds | apps/web/src/store.ts:55 | a rewrite that keeps ids keeps the id at every position |
| Store.Merge | apps/web/src/store.ts:47 | every field the patch sets takes the patch's value, every other field keeps the old value, and `updatedAt` is `now` even if the patch carries one |
| Store.MergeNoChanges | apps/web/src/store.ts:47 | an empty patch only refreshes `updatedAt` |
| Store.MergeIdempotent | apps/web/src/store.ts:47 | applying the same patch at the same time twice equals applying it once |
| Store.WithUpdated | apps/web/src/store.ts:45-48 | `updateTodo` keeps length and positions; todos with another id are unchanged; each matching todo becomes the merge of the old todo and the patch |
| Store.UpdateAbsent | apps/web/src/store.ts:45-48 | updating an id no todo has leaves `todos` unchanged |
| Store.UpdateKeepsUniqueIds | apps/web/src/store.ts:45-48 | a patch without `id` keeps every id, so ids stay unique |
| Store.UpdateCanDuplicateIds | apps/web/src/store.ts:47 | a patch carrying an `id` can give two todos the same id |
| Store.Flip | apps/web/src/store.ts:56 | the toggled todo has `completed` negated and `updatedAt` = `now`, and differs from the old todo in no other field |
| Store.Toggled | apps/web/src/store.ts:53-58 | `toggleTodo` keeps length, positions and ids; a matching todo is flipped; other todos are unchanged |
| Store.ToggleTwice | apps/web/src/store.ts:53-58 | toggling the same id twice restores every todo except that matching ones carry the second `updatedAt` |
| Store.ToggleAbsent | apps/web/src/store.ts:53-58 | toggling an id no todo has leaves `todos` unchanged |
| Store.IdIsNot | apps/web/src/store.ts:51 | the filter of `deleteTodo` keeps a todo iff its id is not the deleted one |
| Store.Without | apps/web/src/store.ts:49-52 | after `deleteTodo` no todo has the id; every survivor was there before; every todo with another id survives |
| Store.DeleteConcat | apps/web/src/store.ts:51 | deleting from a concatenation deletes from each part, so survivors keep their original relative order |
| Store.DeleteIdempotent | apps/web/src/store.ts:49-52 | deleting the same id twice equals deleting it once |
| Store.DeleteAbsent | apps/web/src/store.ts:49-52 | deleting an id no todo has leaves `todos` unchanged |
| Store.DeleteRemovesOne | apps/web/src/store.ts:51 | with unique ids, deleting a present id removes exactly one todo |
| Store.DeleteKeepsUniqueIds | apps/web/src/store.ts:51 | deleting keeps ids unique |
| Store.FindIndex | apps/web/src/store.ts:62 | `find` picks the first todo with the id: its index holds that id and no earlier index does |
| Store.Reordered | apps/web/src/store.ts:59-65 | `reorderTodos` gives one todo per listed id, in the order of `ids`, each the first old todo with that id with only `order` set to its position |
| Store.ReorderPicksTheTodo | apps/web/src/store.ts:61-63 | with unique ids, position `i` holds the todo whose id is `ids[i]`, renumbered to `i` |
| Store.ReorderDropsUnlisted | apps/web/src/store.ts:59-65 | a todo whose id is not listed is not in the result |
| Store.ReorderFullKeepsAll | apps/web/src/store.ts:59-65 | when `ids` lists every id exactly once and ids are unique, every old todo appears, renumbered |
| Store.ReorderKeepsUniqueIds | apps/web/src/store.ts:59-65 | distinct listed ids give a result with unique ids |
| Store.ReorderExample | apps/web/src/store.ts:59-65 | reordering two todos by `[id2, id1]` gives id2 order 0 and id1 order 1 |
| Store.TodoStore.constructor | apps/web/src/store.ts:24-26 | the store starts with no todos, no lists and no selected list |
| Store.TodoStore.AddTodo | apps/web/src/store.ts:27-44 | `todos` becomes the old todos with the stamped draft appended; lists and selection unchanged; uniqueness kept for a fresh id |
| Store.TodoStore.UpdateTodo | apps/web/src/store.ts:45-48 | `todos` becomes the updated todos; an absent id changes nothing; lists and selection unchanged |
| Store.TodoStore.DeleteTodo | apps/web/src/store.ts:49-52 | `todos` loses the todos with the id; an absent id changes nothing; uniqueness kept; lists and selection unchanged |
| Store.TodoStore.ToggleTodo | apps/web/src/store.ts:53-58 | `todos` becomes the toggled todos; an absent id changes nothing; uniqueness kept; lists and selection unchanged |
| Store.TodoStore.ReorderTodos | apps/web/src/store.ts:59-65 | given ids that all belong to todos, `todos` becomes the reordered todos; lists and selection unchanged |
| Store.TodoStore.AddList | apps/web/src/store.ts:66-73 | `{id, name}` becomes the last list, `currentListId` becomes that id, todos unchanged |
| Store.TodoStore.SetCurrentList | apps/web/src/store.ts:74 | only `currentListId` changes, to the given value |
| Text.LeadingSpace | apps/web/src/App.tsx:38 | the length of the white-space run that starts the string |
| Text.TrailingSpace | apps/web/src/App.tsx:38 | the length of the white-space run that ends the string |
| Text.Trim | apps/web/src/App.tsx:38-41 | `trim` returns the slice after the leading white space; it has no white space at either end, and only white space follows it |
| Text.BlankIffTrimEmpty | apps/web/src/App.tsx:38 | the trimmed string is empty, so falsy, exactly when every character is white space |
| Text.TrimIdempotent | apps/web/src/App.tsx:45 | trimming a trimmed string changes nothing |
| Text.Lower | apps/web/src/App.tsx:32-33 | `toLowerCase` keeps the length, turns each upper-case ASCII letter into the letter 32 code points up, leaves no upper-case letter and keeps every other character |
| Text.LowerIdempotent | apps/web/src/App.tsx:32-33 | lower-casing twice is lower-casing once |
| Text.Join | apps/web/src/App.tsx:33 | `join` of no parts is `''`, and the joined string starts with the first part |
| Text.Split | apps/web/src/App.tsx:44 | `split(',')` gives at least one piece, no piece contains the separator, and joining the pieces with it gives the input back |
| Text.SplitJoin | apps/web/src/App.tsx:44 | splitting the join of separator-free pieces gives the pieces back |
| Text.JoinConcat | apps/web/src/App.tsx:33 | joining a concatenation of piece lists joins each and puts one separator between them |
| Text.SplitConcat | apps/web/src/App.tsx:44 | splitting `a` + separator + `b` gives the pieces of `a` followed by those of `b` |
| Text.SplitPiece | apps/web/src/App.tsx:44 | a string without the separator splits into itself alone |
| Text.SplitPrefix | apps/web/src/App.tsx:44 | a separator-free prefix followed by the separator becomes the first piece |
| Text.Includes | apps/web/src/App.tsx:32-33 | `includes` is true exactly when the needle occurs at some position |
| Text.NotIncludedWithout | apps/web/src/App.tsx:32-33 | a needle containing a character the haystack lacks is not included |
| Text.IncludesEmpty | apps/web/src/App.tsx:32-33 | the empty string is included in every string |
| View.Insert | apps/web/src/App.tsx:35 | inserting adds one element, and the result starts with the inserted todo or the old first todo |
| View.InsertAddsOne | apps/web/src/App.tsx:35 | inserting adds exactly that todo: the multiset grows by it and by nothing else |
| View.InsertKeepsSorted | apps/web/src/App.tsx:35 | inserting into a list sorted by `order` keeps it sorted |
| View.SortByOrder | apps/web/src/App.tsx:35 | the sort returns a permutation of its input, sorted ascending by `order` |
| View.InCurrentList | apps/web/src/App.tsx:29 | with no list selected or `''` every todo is kept; otherwise a todo is kept iff its `listId` is the selected list |
| View.MatchesSearch | apps/web/src/App.tsx:31-33 | the empty search matches every todo; a case-insensitive hit in the title or in the tags joined by a space matches; a match is never longer than the title or the joined tags |
| View.FilteredTodos | apps/web/src/App.tsx:28-35 | `filteredTodos` is sorted by `order`, no longer than `todos`, holds a todo iff it is in `todos`, passes the list filter and matches the search, and is a permutation of the doubly filtered todos |
| View.EmptySearchMatches | apps/web/src/App.tsx:30-34 | an empty search keeps every todo |
| View.ShowAllIsSortedPermutation | apps/web/src/App.tsx:28-35 | with no list selected (or `''`) and an empty search, the visible todos are a permutation of all todos |
| View.SearchIgnoresQueryCase | apps/web/src/App.tsx:32-33 | the search does not depend on the case of the query |
| View.SearchSpansAdjacentTags | apps/web/src/App.tsx:33 | because tags are joined with a space, a query can match across two tags that neither contains it |
| View.SelectListExample | apps/web/src/App.tsx:29 | selecting list L1 over a todo of L1 and one of L2 shows only the first |
| View.ExampleMatch | apps/web/src/App.tsx:32-33 | "milk" matches the title "Buy milk"; "home" matches the tag `home` |
| View.ExampleMiss | apps/web/src/App.tsx:32-33 | neither "milk" nor "home" matches the title "Write report" with tag `work` |
| View.SearchExample | apps/web/src/App.tsx:28-35 | with every list shown, searching "milk" or "home" over those two todos shows only the first |
| View.TrimAll | apps/web/src/App.tsx:45 | trimming each piece keeps the number of pieces and their positions |
| View.TrimAllConcat | apps/web/src/App.tsx:45 | trimming piece by piece distributes over concatenation |
| View.TrimKeepsOut | apps/web/src/App.tsx:45 | trimming a string never introduces a character it lacked |
| View.TrimAllKeepsOut | apps/web/src/App.tsx:44-45 | trimmed comma-free pieces stay comma-free |
| View.NotEmpty | apps/web/src/App.tsx:46 | `filter(Boolean)` on strings keeps exactly the non-empty ones |
| View.ParseTags | apps/web/src/App.tsx:43-46 | every parsed tag is non-empty, has no white space at either end and contains no comma |
| View.ParseTagsPiece | apps/web/src/App.tsx:43-46 | text without a comma gives its trimmed self as the only tag, or no tag when it is blank |
| View.ParseTagsConcat | apps/web/src/App.tsx:43-46 | the tags of `a,b` are the tags of `a` followed by those of `b`, so tags keep input order |
| View.BuildDraft | apps/web/src/App.tsx:37-51 | no draft iff the title is blank; otherwise the title and notes are trimmed, blank notes and an empty due date are absent, tags are parsed, the list is the selection or `''`, repeat is absent and order is 0 |
| View.HandleAddTodo | apps/web/src/App.tsx:37-51 | a blank title leaves the store alone; otherwise the draft is appended with `order` = old count; lists and selection unchanged |
| View.ListNameToAdd | apps/web/src/App.tsx:59-61 | no name iff it is blank; otherwise the trimmed, non-empty name |
| View.HandleAddList | apps/web/src/App.tsx:59-61 | a blank name changes nothing; otherwise the trimmed name becomes a new, selected list; todos unchanged |

## Left out

- Store.TodoStore.ReorderTodos: requires every listed id to belong to a todo. The source instead stores a bare `{order: index}` object for an unknown id; the model does not reproduce that malformed record.
- View.SortByOrder: the model's insertion sort is stable, like the engine's `sort`, but no lemma states stability.
- Persistence: the zustand `create`/`persist` wrapper and the `todo-app-storage` local-storage snapshot are a foreign library and browser I/O, so they are not modelled.
- Id generation: `generateId` draws from `Math.random`, so the id is a method parameter. Freshness appears only as a hypothesis of the uniqueness statements.
- Clock: `now()` reads the system time, so the time stamp is a method parameter. No ordering of time stamps is claimed.
- Store.WithUpdated: one time stamp goes to every todo with the id, while `updateTodo` calls `now()` once per matching todo, so with repeated ids the source's stamps may differ where the model's are equal.
- Store.Toggled: one time stamp goes to every todo with the id, while `toggleTodo` calls `now()` once per matching todo, so with repeated ids the source's stamps may differ where the model's are equal.
- `subtasks`: no operation reads or writes this dead field, so it is not part of `Todo`.
- Text: `toLowerCase` is modelled on ASCII letters only; full Unicode case mapping is not modelled. `trim` uses ECMAScript's full white-space and line-terminator set.
- `order`: JavaScript numbers are floats; `order` is an unbounded integer, so NaN and fractional orders are not modelled.
- `Partial<Todo>`: a patch cannot set a required field such as `title` to `undefined`. An optional field can be cleared (`Some(None)`).
- UI: JSX rendering, the theme toggle, date formatting and the React `useState` setters and form resets are not modelled.
