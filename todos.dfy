/** The task list: an ordered sequence of tasks, newest first, with a counter
    that hands out ids. */
module Todos {
  import opened Optional
  import opened Text

  /** A task. Its creation timestamp is not part of the model. */
  datatype Todo = Todo(id: int, text: string, completed: bool)

  /** The fields of the list object that its logic reads or writes. */
  datatype ListState = ListState(todos: seq<Todo>, nextId: int)

  /** No two tasks share an id. */
  predicate DistinctIds(todos: seq<Todo>) {
    forall i, j :: 0 <= i < j < |todos| ==> todos[i].id != todos[j].id
  }

  /** Every id in the list was handed out before `nextId`. */
  predicate IdsBelow(todos: seq<Todo>, nextId: int) {
    forall i :: 0 <= i < |todos| ==> todos[i].id < nextId
  }

  /** What the list keeps true: ids are distinct and all were handed out. */
  predicate WellFormed(s: ListState) {
    DistinctIds(s.todos) && IdsBelow(s.todos, s.nextId)
  }

  /** `k` is the position of the first task with `id`. */
  predicate FirstWithId(todos: seq<Todo>, id: int, k: int) {
    0 <= k < |todos| && todos[k].id == id && forall j :: 0 <= j < k ==> todos[j].id != id
  }

  /** Array.prototype.find by id, as a position: the first task with `id`,
      or None when no task has it. */
  function FindIndex(todos: seq<Todo>, id: int): (r: Option<nat>)
    ensures r.Some? ==> FirstWithId(todos, id, r.value)
    ensures r.None? <==> forall k :: 0 <= k < |todos| ==> todos[k].id != id
  {
    if todos == [] then None
    else if todos[0].id == id then Some(0)
    else
      match FindIndex(todos[1..], id)
      case None => None
      case Some(k) => Some(k + 1)
  }

  /** The list after `toggleTodo(id)`: the first task with `id` has its
      completion flipped; every other task, the length, the order, the ids
      and the texts stay as they were. */
  function Toggled(todos: seq<Todo>, id: int): (r: seq<Todo>)
    ensures |r| == |todos|
    ensures forall k :: 0 <= k < |r| ==> r[k].id == todos[k].id && r[k].text == todos[k].text
    ensures forall k :: 0 <= k < |r| ==> (r[k].completed == !todos[k].completed <==> FirstWithId(todos, id, k))
    ensures (forall k :: 0 <= k < |todos| ==> todos[k].id != id) ==> r == todos
  {
    match FindIndex(todos, id)
    case None => todos
    case Some(k) => todos[k := todos[k].(completed := !todos[k].completed)]
  }

  /** Toggling the same id twice restores the list. */
  lemma ToggleTwice(todos: seq<Todo>, id: int)
    ensures Toggled(Toggled(todos, id), id) == todos
  {
    var once := Toggled(todos, id);
    forall k | 0 <= k < |todos| ensures FirstWithId(once, id, k) == FirstWithId(todos, id, k) {
    }
  }

  /** The list after `deleteTodo(id)`: Array.prototype.filter keeping the
      tasks whose id differs. */
  function Without(todos: seq<Todo>, id: int): (r: seq<Todo>)
    ensures |r| <= |todos|
    ensures forall k :: 0 <= k < |r| ==> r[k].id != id
  {
    if todos == [] then []
    else if todos[0].id == id then Without(todos[1..], id)
    else [todos[0]] + Without(todos[1..], id)
  }

  /** Deleting keeps exactly the tasks whose id differs, and never lengthens
      the list. */
  lemma {:induction false} WithoutMembers(todos: seq<Todo>, id: int)
    ensures |Without(todos, id)| <= |todos|
    ensures forall t :: t in Without(todos, id) <==> t in todos && t.id != id
  {
    if todos != [] {
      WithoutMembers(todos[1..], id);
      assert forall t :: t in todos <==> t == todos[0] || t in todos[1..];
    }
  }

  /** Filtering keeps relative order: it distributes over concatenation. */
  lemma {:induction false} WithoutConcat(a: seq<Todo>, b: seq<Todo>, id: int)
    ensures Without(a + b, id) == Without(a, id) + Without(b, id)
  {
    if a != [] {
      assert (a + b)[1..] == a[1..] + b;
      WithoutConcat(a[1..], b, id);
    } else {
      assert a + b == b;
    }
  }

  /** Deleting an id no task has leaves the list unchanged. */
  lemma {:induction false} WithoutAbsent(todos: seq<Todo>, id: int)
    requires forall k :: 0 <= k < |todos| ==> todos[k].id != id
    ensures Without(todos, id) == todos
  {
    if todos != [] {
      WithoutAbsent(todos[1..], id);
    }
  }

  /** In a list with distinct ids, deleting an id that is present removes
      exactly that task and keeps the others in their order. */
  lemma {:induction false} WithoutPresent(todos: seq<Todo>, id: int, k: nat)
    requires DistinctIds(todos) && k < |todos| && todos[k].id == id
    ensures Without(todos, id) == todos[..k] + todos[k + 1..]
  {
    var tail := todos[1..];
    if k == 0 {
      assert forall j :: 0 <= j < |tail| ==> tail[j].id != id by {
        assert forall j :: 0 < j < |todos| ==> todos[j].id != todos[0].id;
      }
      WithoutAbsent(tail, id);
    } else {
      assert todos[0].id != id;
      assert DistinctIds(tail) by {
        assert forall i, j :: 0 <= i < j < |tail| ==> tail[i] == todos[i + 1] && tail[j] == todos[j + 1];
      }
      WithoutPresent(tail, id, k - 1);
      assert Without(todos, id) == [todos[0]] + Without(tail, id);
      assert [todos[0]] + tail[..k - 1] == todos[..k];
      assert tail[k..] == todos[k + 1..];
    }
  }

  /** The number of completed tasks: `filter(t => t.completed).length`. */
  function CompletedCount(todos: seq<Todo>): (n: nat)
    ensures n <= |todos|
    ensures n == 0 <==> forall k :: 0 <= k < |todos| ==> !todos[k].completed
    ensures n == |todos| <==> forall k :: 0 <= k < |todos| ==> todos[k].completed
  {
    if todos == [] then 0
    else (if todos[0].completed then 1 else 0) + CompletedCount(todos[1..])
  }

  /** Flipping one task's completion moves the completed count by one. */
  lemma {:induction false} CompletedCountFlip(todos: seq<Todo>, k: nat)
    requires k < |todos|
    ensures var flipped := todos[k := todos[k].(completed := !todos[k].completed)];
      CompletedCount(flipped) == CompletedCount(todos) + (if todos[k].completed then -1 else 1)
  {
    var flipped := todos[k := todos[k].(completed := !todos[k].completed)];
    if k > 0 {
      assert flipped[1..] == todos[1..][k - 1 := todos[k].(completed := !todos[k].completed)];
      CompletedCountFlip(todos[1..], k - 1);
    } else {
      assert flipped[1..] == todos[1..];
    }
  }

  /** The (total, completed) pair `updateStats` shows. */
  function Stats(todos: seq<Todo>): (r: (nat, nat))
    ensures r.0 == |todos| && r.1 == CompletedCount(todos) && r.1 <= r.0
    ensures todos == [] ==> r == (0, 0)
  {
    (|todos|, CompletedCount(todos))
  }

  /** The list object as the constructor leaves it: the stored tasks and
      counter when present, else an empty list and 1. */
  function Loaded(savedTodos: Option<seq<Todo>>, savedNextId: Option<int>): (s: ListState)
    ensures s.todos == (if savedTodos.Some? then savedTodos.value else [])
    ensures s.nextId == (if savedNextId.Some? then savedNextId.value else 1)
    ensures savedTodos.None? && savedNextId.None? ==> WellFormed(s)
  {
    ListState(savedTodos.GetOr([]), savedNextId.GetOr(1))
  }

  /** `addTodo(input)`: blank input (empty once trimmed) changes nothing;
      otherwise a new open task with the trimmed text and the next id goes in
      front, the counter moves on by one and the old list follows unchanged. */
  function Added(s: ListState, input: string): (r: ListState)
    ensures Trim(input) == [] ==> r == s
    ensures Trim(input) != [] ==>
      && |r.todos| == |s.todos| + 1 && r.todos[1..] == s.todos
      && r.todos[0] == Todo(s.nextId, Trim(input), false)
      && r.nextId == s.nextId + 1
    ensures WellFormed(s) ==> WellFormed(r)
  {
    var text := Trim(input);
    if text == [] then s
    else ListState([Todo(s.nextId, text, false)] + s.todos, s.nextId + 1)
  }

  /** `toggleTodo(id)` on the whole object; the counter is kept. */
  function ToggledState(s: ListState, id: int): (r: ListState)
    ensures r.nextId == s.nextId && r.todos == Toggled(s.todos, id)
    ensures WellFormed(s) ==> WellFormed(r)
  {
    s.(todos := Toggled(s.todos, id))
  }

  /** `deleteTodo(id)` on the whole object; the counter is written back to
      storage but keeps its value, so ids are never reused. */
  function Deleted(s: ListState, id: int): (r: ListState)
    ensures r.nextId == s.nextId && r.todos == Without(s.todos, id)
    ensures WellFormed(s) ==> WellFormed(r)
  {
    var r := s.(todos := Without(s.todos, id));
    assert WellFormed(s) ==> WellFormed(r) by {
      if WellFormed(s) {
        WithoutKeepsWellFormed(s.todos, id, s.nextId);
      }
    }
    r
  }

  lemma {:induction false} WithoutKeepsWellFormed(todos: seq<Todo>, id: int, nextId: int)
    requires DistinctIds(todos) && IdsBelow(todos, nextId)
    ensures DistinctIds(Without(todos, id)) && IdsBelow(Without(todos, id), nextId)
  {
    if todos != [] {
      var tail := todos[1..];
      assert DistinctIds(tail) && IdsBelow(tail, nextId) by {
        assert forall i :: 0 <= i < |tail| ==> tail[i] == todos[i + 1];
      }
      WithoutKeepsWellFormed(tail, id, nextId);
      if todos[0].id != id {
        var rest := Without(tail, id);
        WithoutMembers(tail, id);
        HeadIdUnique(todos);
        ConsKeepsWellFormed(todos[0], rest, nextId);
      }
    }
  }

  /** No task after the first one carries the first one's id. */
  lemma HeadIdUnique(todos: seq<Todo>)
    requires todos != [] && DistinctIds(todos)
    ensures forall t :: t in todos[1..] ==> t.id != todos[0].id
  {
    forall t | t in todos[1..] ensures t.id != todos[0].id {
      var m :| 0 <= m < |todos| - 1 && todos[1..][m] == t;
      assert todos[m + 1] == t;
    }
  }

  /** A task whose id is fresh for the rest and below `nextId` can go in front. */
  lemma ConsKeepsWellFormed(t: Todo, rest: seq<Todo>, nextId: int)
    requires DistinctIds(rest) && IdsBelow(rest, nextId) && t.id < nextId
    requires forall u :: u in rest ==> u.id != t.id
    ensures DistinctIds([t] + rest) && IdsBelow([t] + rest, nextId)
  {
    var r := [t] + rest;
    forall i, j | 0 <= i < j < |r| ensures r[i].id != r[j].id {
      assert r[j] == rest[j - 1];
      if i > 0 {
        assert r[i] == rest[i - 1];
      }
    }
    forall i | 0 <= i < |r| ensures r[i].id < nextId {
      if i > 0 {
        assert r[i] == rest[i - 1];
      }
    }
  }

  /** Adding A and then B puts B in front of A, both in front of the old list. */
  lemma AddedNewestFirst(s: ListState, a: string, b: string)
    requires Trim(a) != [] && Trim(b) != []
    ensures Added(Added(s, a), b).todos
         == [Todo(s.nextId + 1, Trim(b), false), Todo(s.nextId, Trim(a), false)] + s.todos
  {
    var once := Added(s, a);
    assert once.todos == [Todo(s.nextId, Trim(a), false)] + s.todos;
  }

  /** Deleting the only task leaves an empty list whose stats are (0, 0). */
  lemma DeleteOnlyTask(t: Todo, nextId: int)
    ensures Deleted(ListState([t], nextId), t.id).todos == []
    ensures Stats(Deleted(ListState([t], nextId), t.id).todos) == (0, 0)
  {
    assert [t][1..] == [];
    assert Without([t], t.id) == Without([], t.id) == [];
  }

  /** Toggling moves the completed count by exactly one when the id is
      present and not at all when it is absent. */
  lemma ToggledCount(todos: seq<Todo>, id: int)
    ensures FindIndex(todos, id).None? ==> CompletedCount(Toggled(todos, id)) == CompletedCount(todos)
    ensures FindIndex(todos, id).Some? ==>
      var k := FindIndex(todos, id).value;
      CompletedCount(Toggled(todos, id)) == CompletedCount(todos) + (if todos[k].completed then -1 else 1)
  {
    if FindIndex(todos, id).Some? {
      CompletedCountFlip(todos, FindIndex(todos, id).value);
    }
  }

  /** The task list object. Each method changes the fields exactly as the
      corresponding function above changes a ListState. */
  class TodoList {
    var todos: seq<Todo>
    var nextId: int

    function State(): ListState
      reads this
    {
      ListState(todos, nextId)
    }

    /** An empty list with counter 1, then the stored tasks and counter when present. */
    constructor (savedTodos: Option<seq<Todo>>, savedNextId: Option<int>)
      ensures State() == Loaded(savedTodos, savedNextId)
    {
      var loaded: seq<Todo> := [];
      if savedTodos.Some? {
        loaded := savedTodos.value;
      }
      var counter := 1;
      if savedNextId.Some? {
        counter := savedNextId.value;
      }
      todos, nextId := loaded, counter;
    }

    /** `input` is the raw text of the entry field. */
    method AddTodo(input: string)
      modifies this
      ensures State() == Added(old(State()), input)
    {
      var text := Trim(input);
      if text == [] {
        return;
      }
      var todo := Todo(nextId, text, false);
      nextId := nextId + 1;
      todos := [todo] + todos;
    }

    method ToggleTodo(id: int)
      modifies this
      ensures State() == ToggledState(old(State()), id)
    {
      var found := FindIndex(todos, id);
      if found.Some? {
        var k := found.value;
        todos := todos[k := todos[k].(completed := !todos[k].completed)];
      }
    }

    method DeleteTodo(id: int)
      modifies this
      ensures State() == Deleted(old(State()), id)
    {
      todos := Without(todos, id);
    }
  }
}
