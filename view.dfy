/**
 * The logic the todo page derives from the store: the visible todos (list
 * filter, case-insensitive search, sort by `order`) and the shaping of the
 * form fields into what `addTodo` and `addList` receive.
 */
module View {
  import opened Optional
  import opened Seqs
  import opened Text
  import opened Types
  import opened Store

  // ----- filteredTodos -----

  /** `currentListId ? t.listId === currentListId : true`: no list and `''` are falsy and keep every todo. */
  predicate InCurrentList(t: Todo, current: Option<Id>): (keep: bool)
    ensures current.None? || current == Some("") ==> keep
    ensures current.Some? && current.value != "" ==> (keep <==> t.listId == current.value)
  {
    current.None? || current.value == "" || t.listId == current.value
  }

  /** The lower-cased search occurs in the lower-cased title or in the lower-cased tags joined by one space. */
  predicate MatchesSearch(t: Todo, search: string): (m: bool)
    ensures search == "" ==> m
    ensures Includes(Lower(t.title), Lower(search)) ==> m
    ensures Includes(Lower(Join(t.tags, " ")), Lower(search)) ==> m
    ensures m ==> |search| <= |t.title| || |search| <= |Join(t.tags, " ")|
  {
    IncludesEmpty(Lower(t.title));
    Includes(Lower(t.title), Lower(search)) || Includes(Lower(Join(t.tags, " ")), Lower(search))
  }

  function InCurrentListTest(current: Option<Id>): Todo -> bool {
    (t: Todo) => InCurrentList(t, current)
  }

  function MatchesSearchTest(search: string): Todo -> bool {
    (t: Todo) => MatchesSearch(t, search)
  }

  /** Ascending by `order`. */
  predicate SortedByOrder(s: seq<Todo>) {
    forall i, j :: 0 <= i < j < |s| ==> s[i].order <= s[j].order
  }

  /** Putting a todo whose order is at most the head's in front of a sorted list keeps it sorted. */
  lemma SortedCons(x: Todo, s: seq<Todo>)
    requires SortedByOrder(s)
    requires s != [] ==> x.order <= s[0].order
    ensures SortedByOrder([x] + s)
  {
    var r := [x] + s;
    forall i, j | 0 <= i < j < |r| ensures r[i].order <= r[j].order {
      if i == 0 && j > 1 {
        assert r[j] == s[j - 1];
      }
    }
  }

  /** Puts `t` in front of the first todo whose `order` is not smaller, so equal orders keep their input order. */
  function Insert(t: Todo, s: seq<Todo>): (r: seq<Todo>)
    ensures |r| == |s| + 1 && (r[0] == t || (s != [] && r[0] == s[0]))
  {
    if s == [] || t.order <= s[0].order then [t] + s
    else [s[0]] + Insert(t, s[1..])
  }

  /** Inserting adds exactly the one element. */
  lemma {:induction false} InsertAddsOne(t: Todo, s: seq<Todo>)
    ensures multiset(Insert(t, s)) == multiset(s) + multiset{t}
  {
    if s != [] && t.order > s[0].order {
      InsertAddsOne(t, s[1..]);
      assert s == [s[0]] + s[1..];
    }
  }

  /** Inserting into a sorted list keeps it sorted. */
  lemma {:induction false} InsertKeepsSorted(t: Todo, s: seq<Todo>)
    requires SortedByOrder(s)
    ensures SortedByOrder(Insert(t, s))
  {
    if s == [] || t.order <= s[0].order {
      SortedCons(t, s);
    } else {
      var rest := Insert(t, s[1..]);
      InsertKeepsSorted(t, s[1..]);
      assert rest[0].order >= s[0].order by {
        if rest[0] != t {
          assert rest[0] == s[1];
        }
      }
      SortedCons(s[0], rest);
    }
  }

  /** `sort((a, b) => a.order - b.order)`: a sorted permutation of `s` (a stable insertion sort). */
  function SortByOrder(s: seq<Todo>): (r: seq<Todo>)
    ensures SortedByOrder(r)
    ensures multiset(r) == multiset(s)
  {
    if s == [] then []
    else
      var rest := SortByOrder(s[1..]);
      InsertKeepsSorted(s[0], rest);
      InsertAddsOne(s[0], rest);
      assert s == [s[0]] + s[1..];
      Insert(s[0], rest)
  }

  /**
   * `filteredTodos`: the todos of the selected list that match the search,
   * sorted by `order`. Nothing else appears, nothing that passes is lost.
   */
  function FilteredTodos(todos: seq<Todo>, current: Option<Id>, search: string): (r: seq<Todo>)
    ensures SortedByOrder(r)
    ensures |r| <= |todos|
    ensures forall t :: t in r <==> t in todos && InCurrentList(t, current) && MatchesSearch(t, search)
    ensures multiset(r) == multiset(Filter(Filter(todos, InCurrentListTest(current)), MatchesSearchTest(search)))
  {
    var inList := Filter(todos, InCurrentListTest(current));
    var found := Filter(inList, MatchesSearchTest(search));
    var r := SortByOrder(found);
    forall t ensures t in r <==> t in found {
      assert t in r <==> t in multiset(r);
      assert t in found <==> t in multiset(found);
    }
    r
  }

  /** An empty search matches every todo. */
  lemma EmptySearchMatches(t: Todo)
    ensures MatchesSearch(t, "")
  {
    IncludesEmpty(Lower(t.title));
  }

  /** With no list selected (or `''`) and no search, every todo is visible, sorted by `order`. */
  lemma ShowAllIsSortedPermutation(todos: seq<Todo>, current: Option<Id>)
    requires current.None? || current == Some("")
    ensures multiset(FilteredTodos(todos, current, "")) == multiset(todos)
  {
    FilterAllPass(todos, InCurrentListTest(current));
    forall i | 0 <= i < |todos| ensures MatchesSearchTest("")(todos[i]) {
      EmptySearchMatches(todos[i]);
    }
    FilterAllPass(todos, MatchesSearchTest(""));
  }

  /** The search ignores the case of the query. */
  lemma SearchIgnoresQueryCase(t: Todo, search: string)
    ensures MatchesSearch(t, search) <==> MatchesSearch(t, Lower(search))
  {
    LowerIdempotent(search);
  }

  /**
   * Because the tags are joined with a space before the search, a query can
   * match across two adjacent tags that neither contains it.
   */
  lemma SearchSpansAdjacentTags(t: Todo)
    requires t.title == "" && t.tags == ["ab", "cd"]
    ensures MatchesSearch(t, "b c")
    ensures !Includes(t.tags[0], "b c") && !Includes(t.tags[1], "b c")
  {
    assert Join(t.tags, " ") == "ab cd";
    assert Lower("ab cd") == "ab cd";
    assert Lower("b c") == "b c";
    assert OccursAt("ab cd", "b c", 1);
  }

  /**
   * Selecting a list shows the todos of that list only: of a todo 'Buy milk'
   * tagged home in L1 and a todo 'Write report' tagged work in L2, selecting
   * L1 keeps the first.
   */
  lemma SelectListExample(milk: Todo, report: Todo)
    requires milk.title == "Buy milk" && milk.tags == ["home"] && milk.listId == "L1"
    requires report.title == "Write report" && report.tags == ["work"] && report.listId == "L2"
    ensures FilteredTodos([milk, report], Some("L1"), "") == [milk]
  {
    var todos := [milk, report];
    var inList := Filter(todos, InCurrentListTest(Some("L1")));
    assert inList == [milk] by {
      assert todos[1..] == [report];
      assert Filter([report], InCurrentListTest(Some("L1"))) == [];
    }
    EmptySearchMatches(milk);
    assert Filter([milk], MatchesSearchTest("")) == [milk];
  }

  /**
   * Of a todo 'Buy milk' tagged home in L1 and a todo 'Write report' tagged
   * work in L2, "milk" matches the first title and "home" its tag.
   */
  lemma ExampleMatch(milk: Todo, query: string)
    requires milk.title == "Buy milk" && milk.tags == ["home"]
    requires query == "milk" || query == "home"
    ensures MatchesSearch(milk, query)
  {
    assert Lower(query) == query;
    if query == "milk" {
      assert Lower(milk.title) == "buy milk";
      assert OccursAt("buy milk", "milk", 4);
    } else {
      assert Join(milk.tags, " ") == "home";
      assert Lower("home") == "home";
      assert OccursAt("home", "home", 0);
    }
  }

  /**
   * Of a todo 'Buy milk' tagged home in L1 and a todo 'Write report' tagged
   * work in L2, the second matches neither "milk" nor "home".
   */
  lemma ExampleMiss(report: Todo, query: string)
    requires report.title == "Write report" && report.tags == ["work"]
    requires query == "milk" || query == "home"
    ensures !MatchesSearch(report, query)
  {
    assert Lower(query) == query;
    assert Lower(report.title) == "write report";
    assert Join(report.tags, " ") == "work";
    assert Lower("work") == "work";
    NotIncludedWithout("write report", query, 0);
    NotIncludedWithout("work", query, 0);
  }

  /**
   * Searching a todo 'Buy milk' tagged home in L1 and a todo 'Write report'
   * tagged work in L2, with every list shown: "milk" (a title match) and
   * "home" (a tag match) both give the first todo only.
   */
  lemma SearchExample(milk: Todo, report: Todo, query: string)
    requires milk.title == "Buy milk" && milk.tags == ["home"] && milk.listId == "L1"
    requires report.title == "Write report" && report.tags == ["work"] && report.listId == "L2"
    requires query == "milk" || query == "home"
    ensures FilteredTodos([milk, report], None, query) == [milk]
  {
    var todos := [milk, report];
    var p := MatchesSearchTest(query);
    FilterAllPass(todos, InCurrentListTest(None));
    ExampleMatch(milk, query);
    ExampleMiss(report, query);
    assert p(milk) && !p(report);
    assert Filter([report], p) == [] by {
      assert [report][1..] == [];
    }
    assert todos[1..] == [report];
    assert Filter(todos, p) == [milk];
    assert SortByOrder([milk]) == [milk];
  }

  // ----- handleAddTodo: shaping the form into a draft -----

  /** `pieces.map(tag => tag.trim())` */
  function TrimAll(pieces: seq<string>): (r: seq<string>)
    ensures |r| == |pieces|
    ensures forall k :: 0 <= k < |r| ==> r[k] == Trim(pieces[k])
  {
    seq(|pieces|, k requires 0 <= k < |pieces| => Trim(pieces[k]))
  }

  /** Trimming piece by piece distributes over concatenation. */
  lemma TrimAllConcat(a: seq<string>, b: seq<string>)
    ensures TrimAll(a + b) == TrimAll(a) + TrimAll(b)
  {
    var r, s := TrimAll(a + b), TrimAll(a) + TrimAll(b);
    assert |r| == |s|;
    forall k | 0 <= k < |r| ensures r[k] == s[k] {
      if k < |a| {
        assert (a + b)[k] == a[k];
      } else {
        assert (a + b)[k] == b[k - |a|];
      }
    }
  }

  /** `Boolean` on a string: only `''` is falsy. */
  function NotEmpty(): (keep: string -> bool)
    ensures !keep("")
    ensures forall s: string :: keep(s) <==> |s| > 0
  {
    (s: string) => s != []
  }

  /** A slice of a string without `c` does not contain `c`. */
  lemma TrimKeepsOut(s: string, c: char)
    requires c !in s
    ensures c !in Trim(s)
  {
    var r := Trim(s);
    var a := LeadingSpace(s);
    forall k | 0 <= k < |r| ensures r[k] != c {
      assert r[k] == s[a + k];
    }
  }

  /** Trimmed pieces without `c` still lack `c`. */
  lemma TrimAllKeepsOut(pieces: seq<string>, c: char)
    requires forall k :: 0 <= k < |pieces| ==> c !in pieces[k]
    ensures forall k :: 0 <= k < |pieces| ==> c !in TrimAll(pieces)[k]
  {
    forall k | 0 <= k < |pieces| ensures c !in TrimAll(pieces)[k] {
      TrimKeepsOut(pieces[k], c);
    }
  }

  /**
   * `tags.split(',').map(tag => tag.trim()).filter(Boolean)`: every tag is
   * non-empty, has no white space at either end and no comma.
   */
  function ParseTags(input: string): (tags: seq<string>)
    ensures forall k :: 0 <= k < |tags| ==> tags[k] != [] && Trimmed(tags[k]) && ',' !in tags[k]
  {
    var pieces := Split(input, ',');
    TrimAllKeepsOut(pieces, ',');
    Filter(TrimAll(pieces), NotEmpty())
  }

  /** Text without a comma gives its trimmed self as the one tag, or no tag when blank. */
  lemma ParseTagsPiece(s: string)
    requires ',' !in s
    ensures ParseTags(s) == if Trim(s) == [] then [] else [Trim(s)]
  {
    SplitPiece(s, ',');
    assert TrimAll([s]) == [Trim(s)];
  }

  /** Tags come out in input order: the tags of `a,b` are the tags of `a` followed by those of `b`. */
  lemma ParseTagsConcat(a: string, b: string)
    ensures ParseTags(a + "," + b) == ParseTags(a) + ParseTags(b)
  {
    var pa, pb := Split(a, ','), Split(b, ',');
    calc {
      ParseTags(a + "," + b);
      Filter(TrimAll(Split(a + "," + b, ',')), NotEmpty());
      { SplitConcat(a, b, ','); }
      Filter(TrimAll(pa + pb), NotEmpty());
      { TrimAllConcat(pa, pb); }
      Filter(TrimAll(pa) + TrimAll(pb), NotEmpty());
      { FilterConcat(TrimAll(pa), TrimAll(pb), NotEmpty()); }
      Filter(TrimAll(pa), NotEmpty()) + Filter(TrimAll(pb), NotEmpty());
    }
  }

  /**
   * The draft `handleAddTodo` passes to `addTodo`, or `None` when the trimmed
   * title is empty and nothing is added. The title and notes are trimmed,
   * blank notes and an empty due date become absent, the list is the selected
   * one or `''`, and `order` is 0 (the store overrides it).
   */
  function BuildDraft(title: string, notes: string, priority: Priority, tags: string,
                      due: string, current: Option<Id>): (r: Option<Draft>)
    ensures r.None? <==> IsBlank(title)
    ensures r.Some? ==> r.value.title == Trim(title) && r.value.title != []
    ensures r.Some? ==> (r.value.notes.None? <==> IsBlank(notes))
    ensures r.Some? && r.value.notes.Some? ==> r.value.notes.value == Trim(notes) && r.value.notes.value != []
    ensures r.Some? ==> r.value.priority == priority && r.value.tags == ParseTags(tags)
    ensures r.Some? ==> r.value.listId == (if current.Some? then current.value else "")
    ensures r.Some? ==> (r.value.due.None? <==> due == []) && (r.value.due.Some? ==> r.value.due.value == due)
    ensures r.Some? ==> r.value.repeat.None? && r.value.order == 0
  {
    BlankIffTrimEmpty(title);
    BlankIffTrimEmpty(notes);
    var t := Trim(title);
    if t == [] then None
    else
      var n := Trim(notes);
      Some(Draft(
        t,
        if n == [] then None else Some(n),
        priority,
        ParseTags(tags),
        current.GetOr(""),
        if due == [] then None else Some(due),
        None,
        0))
  }

  /** `handleAddTodo`: the form becomes a todo at the end of the store, unless the title is blank. */
  method HandleAddTodo(store: TodoStore, title: string, notes: string, priority: Priority,
                       tags: string, due: string, id: Id, now: Timestamp)
    modifies store
    ensures IsBlank(title) ==> store.todos == old(store.todos)
    ensures !IsBlank(title) ==>
      store.todos == WithAdded(old(store.todos),
                               BuildDraft(title, notes, priority, tags, due, old(store.currentListId)).value, id, now)
    ensures !IsBlank(title) ==> store.todos[|old(store.todos)|].order == |old(store.todos)|
    ensures store.lists == old(store.lists) && store.currentListId == old(store.currentListId)
  {
    var draft := BuildDraft(title, notes, priority, tags, due, store.currentListId);
    if draft.Some? {
      store.AddTodo(draft.value, id, now);
    }
  }

  // ----- handleAddList -----

  /** The name `handleAddList` passes to `addList`, or `None` when it is blank after trimming. */
  function ListNameToAdd(name: string): (r: Option<string>)
    ensures r.None? <==> IsBlank(name)
    ensures r.Some? ==> r.value == Trim(name) && r.value != [] && Trimmed(r.value)
  {
    BlankIffTrimEmpty(name);
    if Trim(name) == [] then None else Some(Trim(name))
  }

  /** `handleAddList`: a non-blank name becomes a new, selected list. */
  method HandleAddList(store: TodoStore, name: string, id: Id)
    modifies store
    ensures IsBlank(name) ==> store.lists == old(store.lists) && store.currentListId == old(store.currentListId)
    ensures !IsBlank(name) ==> store.lists == old(store.lists) + [List(id, Trim(name))] && store.currentListId == Some(id)
    ensures store.todos == old(store.todos)
  {
    var toAdd := ListNameToAdd(name);
    if toAdd.Some? {
      store.AddList(toAdd.value, id);
    }
  }
}
