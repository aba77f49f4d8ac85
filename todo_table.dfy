/**
 * The state of the in-memory Todo store as a value, and its four operations
 * as pure functions over that value. The class in module Jdbi keeps the same
 * two pieces of state in fields and is proved against these functions.
 */
module TodoTable {
  import opened Wrappers
  import opened Core

  /** The table from id to Todo and the counter that gives the next id. */
  datatype Table = Table(todos: map<int, Todo>, nextId: int)

  /**
   * The store's invariant: every stored Todo carries its own key as id, and
   * every key was issued by the counter, so the counter's value is unused.
   */
  predicate Inv(s: Table)
  {
    && 0 <= s.nextId
    && forall k :: k in s.todos ==> s.todos[k].id == k && 0 <= k < s.nextId
  }

  /** A freshly constructed store: no Todos, counter at 0. */
  function Empty(): (s: Table)
    ensures Inv(s)
    ensures forall id :: Get(s, id) == None
  {
    Table(map[], 0)
  }

  /** `getTodo(id)`: present with the stored Todo, or absent. */
  function Get(s: Table, id: int): (r: Option<Todo>)
    ensures Inv(s) && r.Some? ==> r.value.id == id
    ensures Inv(s) && (id < 0 || s.nextId <= id) ==> r == None
  {
    if id in s.todos then Some(s.todos[id]) else None
  }

  /**
   * `createTodo(todo)`: the caller's id is ignored; the counter's value is
   * assigned, the Todo is stored under it and returned, and the counter
   * moves on.
   */
  function Create(s: Table, todo: Todo): (r: (Table, Todo))
    ensures r.1.id == s.nextId && r.1.title == todo.title && r.1.content == todo.content
    ensures Get(r.0, r.1.id) == Some(r.1)
    ensures forall k :: k != r.1.id ==> Get(r.0, k) == Get(s, k)
    ensures r.0.nextId == s.nextId + 1
    ensures Inv(s) ==> Inv(r.0) && Get(s, r.1.id) == None
  {
    var created := WithId(todo, s.nextId);
    (Table(s.todos[created.id := created], s.nextId + 1), created)
  }

  /**
   * `updateTodo(todo)`: when `todo.id` is a key, the entry is replaced by
   * `todo` as given and `todo` is returned as present; otherwise absent is
   * returned and the store is left as it was.
   */
  function Update(s: Table, todo: Todo): (r: (Table, Option<Todo>))
    ensures r.1 == if Get(s, todo.id).Some? then Some(todo) else None
    ensures Get(r.0, todo.id) == r.1
    ensures forall k :: k != todo.id ==> Get(r.0, k) == Get(s, k)
    ensures r.0.nextId == s.nextId
    ensures r.1.None? ==> r.0 == s
    ensures Inv(s) ==> Inv(r.0)
  {
    if todo.id in s.todos then
      (Table(s.todos[todo.id := todo], s.nextId), Some(todo))
    else
      (s, None)
  }

  /**
   * `getTodos()` may return `listed`: every entry of `listed` is a stored
   * Todo, no id appears twice, and every stored Todo appears. The order is
   * not fixed.
   */
  predicate Lists(s: Table, listed: seq<Todo>)
  {
    && |listed| == |s.todos|
    && (forall i :: 0 <= i < |listed| ==> Get(s, listed[i].id) == Some(listed[i]))
    && (forall i, j :: 0 <= i < j < |listed| ==> listed[i].id != listed[j].id)
    && (forall k :: k in s.todos ==> s.todos[k] in listed)
  }

  /** The store after `createTodo` has been called on each of `todos` in turn, with the Todos it returned. */
  function CreateSeq(s: Table, todos: seq<Todo>): (r: (Table, seq<Todo>))
    ensures |r.1| == |todos| && r.0.nextId == s.nextId + |todos|
    ensures forall i :: 0 <= i < |todos| ==>
              r.1[i].id == s.nextId + i && r.1[i].title == todos[i].title && r.1[i].content == todos[i].content
    decreases |todos|
  {
    if todos == [] then (s, [])
    else
      var (s1, created) := Create(s, todos[0]);
      var (s2, rest) := CreateSeq(s1, todos[1..]);
      (s2, [created] + rest)
  }

  /**
   * Successive creates keep every Todo they returned: each is found under
   * the id it was given, entries that existed before are untouched, and the
   * invariant holds throughout.
   */
  lemma {:induction false} CreateSeqStores(s: Table, todos: seq<Todo>)
    ensures Inv(s) ==> Inv(CreateSeq(s, todos).0)
    ensures forall i :: 0 <= i < |todos| ==>
              Get(CreateSeq(s, todos).0, CreateSeq(s, todos).1[i].id) == Some(CreateSeq(s, todos).1[i])
    ensures forall k :: k < s.nextId ==> Get(CreateSeq(s, todos).0, k) == Get(s, k)
    decreases |todos|
  {
    if todos != [] {
      var (s1, c) := Create(s, todos[0]);
      CreateSeqStores(s1, todos[1..]);
      var r, r1 := CreateSeq(s, todos), CreateSeq(s1, todos[1..]);
      assert r == (r1.0, [c] + r1.1);
      forall i | 0 <= i < |todos|
        ensures Get(r.0, r.1[i].id) == Some(r.1[i])
      {
        if i > 0 {
          assert r.1[i] == r1.1[i - 1];
        }
      }
    }
  }

  /** `getTodos()` on a fresh store lists nothing. */
  lemma ListsEmpty(listed: seq<Todo>)
    requires Lists(Empty(), listed)
    ensures listed == []
  {
  }

  /** Every Todo that `getTodo` finds is among those `getTodos` lists. */
  lemma ListedWhenFound(s: Table, listed: seq<Todo>, todo: Todo)
    requires Lists(s, listed)
    requires Get(s, todo.id) == Some(todo)
    ensures todo in listed
  {
  }

  /**
   * The i-th of successive creates assigns id `nextId + i`, so a Todo that
   * already carries that id comes back equal to itself.
   */
  lemma CreateKeepsMatchingIds(s: Table, todos: seq<Todo>, i: int)
    requires 0 <= i < |todos| && todos[i].id == s.nextId + i
    ensures CreateSeq(s, todos).1[i] == todos[i]
  {
  }

  /** After successive creates, `getTodos()` lists each Todo that was returned. */
  lemma CreatedAreListed(s: Table, todos: seq<Todo>, listed: seq<Todo>)
    requires Lists(CreateSeq(s, todos).0, listed)
    ensures forall i :: 0 <= i < |todos| ==> CreateSeq(s, todos).1[i] in listed
  {
    var r := CreateSeq(s, todos);
    CreateSeqStores(s, todos);
    forall i | 0 <= i < |todos|
      ensures r.1[i] in listed
    {
      ListedWhenFound(r.0, listed, r.1[i]);
    }
  }

  /**
   * After successive creates, `getTodos()` lists, unchanged, each input
   * that already carried the id the store assigned to it.
   */
  lemma MatchingIdsAreListed(s: Table, todos: seq<Todo>, listed: seq<Todo>)
    requires Lists(CreateSeq(s, todos).0, listed)
    ensures forall i :: 0 <= i < |todos| && todos[i].id == s.nextId + i ==> todos[i] in listed
  {
    var r := CreateSeq(s, todos);
    CreateSeqStores(s, todos);
    forall i | 0 <= i < |todos| && todos[i].id == s.nextId + i
      ensures todos[i] in listed
    {
      CreateKeepsMatchingIds(s, todos, i);
      ListedWhenFound(r.0, listed, r.1[i]);
    }
  }

  /**
   * Creating `todos` on a store that holds nothing lists exactly the Todos
   * the creates returned: each of them, and nothing else.
   */
  lemma CreatedAreListedExactly(s: Table, todos: seq<Todo>, listed: seq<Todo>)
    requires Inv(s) && s.todos == map[]
    requires Lists(CreateSeq(s, todos).0, listed)
    ensures forall x :: x in listed <==> x in CreateSeq(s, todos).1
  {
    var r := CreateSeq(s, todos);
    CreateSeqStores(s, todos);
    CreatedAreListed(s, todos, listed);
    forall x | x in listed
      ensures x in r.1
    {
      var k := x.id;
      assert Get(r.0, k) == Some(x);
      assert s.nextId <= k < s.nextId + |todos|;
      assert Get(r.0, r.1[k - s.nextId].id) == Some(r.1[k - s.nextId]);
    }
  }

  /** Once an id has been issued, no later create issues it again. */
  lemma CreatedIdsAreDistinct(s: Table, todos: seq<Todo>, i: int, j: int)
    requires 0 <= i < j < |todos|
    ensures CreateSeq(s, todos).1[i].id < CreateSeq(s, todos).1[j].id
  {
  }

  /** Updating an id that a create returned succeeds and returns the update exactly, with no field merge. */
  lemma UpdateAfterCreate(s: Table, todo: Todo, update: Todo)
    requires update.id == Create(s, todo).1.id
    ensures Update(Create(s, todo).0, update).1 == Some(update)
    ensures Get(Update(Create(s, todo).0, update).0, update.id) == Some(update)
  {
  }

  /** Repeating an update changes nothing more and returns the same result. */
  lemma UpdateIsIdempotent(s: Table, todo: Todo)
    ensures var (s1, r1) := Update(s, todo);
      Update(s1, todo) == (s1, r1)
  {
    if todo.id in s.todos {
      var m := s.todos[todo.id := todo];
      assert m[todo.id := todo] == m;
    }
  }
}
