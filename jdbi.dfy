/**
 * `DummyTodoDAO`: the in-memory Todo store. Its table and its id counter
 * are fields that `createTodo` and `updateTodo` change in place; every
 * method is proved against the matching function of module TodoTable.
 */
module Jdbi {
  import opened Wrappers
  import opened Core
  import opened TodoTable

  /** A set with no element is the empty set. */
  lemma EmptyWithoutElements(s: set<int>)
    requires forall k :: k !in s
    ensures s == {}
  {
    var none: set<int> := {};
    assert forall k :: k in s <==> k in none;
  }

  /** A non-empty set has an element to pick. */
  lemma HasElement(s: set<int>)
    requires s != {}
    ensures exists k :: k in s
  {
    if forall k :: k !in s {
      EmptyWithoutElements(s);
      assert false;
    }
  }

  class DummyTodoDao {
    var todos: map<int, Todo>
    var nextId: int

    /** The store's state as a value. */
    function State(): Table
      reads this
    {
      Table(todos, nextId)
    }

    predicate Valid()
      reads this
    {
      Inv(State())
    }

    /** A new store is empty and its counter is at 0. */
    constructor ()
      ensures Valid() && State() == Empty()
    {
      todos := map[];
      nextId := 0;
    }

    /** Stores a copy of `todo` under the next id, whatever id `todo` carried, and returns that copy. */
    method CreateTodo(todo: Todo) returns (created: Todo)
      requires Valid()
      modifies this
      ensures Valid()
      ensures (State(), created) == Create(old(State()), todo)
    {
      created := WithId(todo, nextId);
      todos := todos[nextId := created];
      nextId := nextId + 1;
    }

    /** Overwrites the entry under `todo.id` with `todo` and returns it, or returns absent when there is none. */
    method UpdateTodo(todo: Todo) returns (updated: Option<Todo>)
      requires Valid()
      modifies this
      ensures Valid()
      ensures (State(), updated) == Update(old(State()), todo)
    {
      if todo.id in todos {
        todos := todos[todo.id := todo];
        updated := Some(todo);
      } else {
        updated := None;
      }
    }

    /** Looks `id` up: present with the Todo stored under it, absent otherwise. */
    method GetTodo(id: int) returns (found: Option<Todo>)
      requires Valid()
      ensures found == Get(State(), id)
      ensures found.Some? ==> found.value.id == id
    {
      if id in todos {
        found := Some(todos[id]);
      } else {
        found := None;
      }
    }

    /** Lists every stored Todo once, in no particular order. */
    method GetTodos() returns (listed: seq<Todo>)
      requires Valid()
      ensures Lists(State(), listed)
    {
      listed := [];
      var rest := todos.Keys;
      while rest != {}
        invariant rest <= todos.Keys
        invariant |listed| + |rest| == |todos|
        invariant forall i :: 0 <= i < |listed| ==> listed[i].id in todos && listed[i].id !in rest
        invariant forall i :: 0 <= i < |listed| ==> todos[listed[i].id] == listed[i]
        invariant forall i, j :: 0 <= i < j < |listed| ==> listed[i].id != listed[j].id
        invariant forall k :: k in todos && k !in rest ==> todos[k] in listed
        decreases rest
      {
        HasElement(rest);
        var k :| k in rest;
        listed := listed + [todos[k]];
        rest := rest - {k};
      }
    }
  }
}
