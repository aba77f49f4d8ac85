/**
 * The seven scenarios that pin down `DummyTodoDAO`, each run against a
 * freshly constructed store (the test fixture builds a new one before
 * every scenario). Each method returns what the store answered and its
 * postcondition is the expected answer.
 */
module JdbiTest {
  import opened Wrappers
  import opened Core
  import opened TodoTable
  import opened Jdbi

  /** Creating on a fresh store returns the input with the store's first id, 0, in place of its own id 1. */
  method CreateTodo() returns (current: Todo)
    ensures current == Todo(0, "title", Some("content"))
  {
    var dao := new DummyTodoDao();
    var newTodo := WithContent(ATodo(1, "title"), Some("content"));
    current := dao.CreateTodo(newTodo);
  }

  /** Updating the Todo just created returns the update, present and exactly as given. */
  method UpdateTodoWithAnExistingTodo() returns (current: Option<Todo>)
    ensures current == Some(Todo(0, "updatedTodo", Some("updatedContent")))
  {
    var dao := new DummyTodoDao();
    var newTodo := WithContent(ATodo(0, "title"), Some("content"));
    var updatedTodo := WithContent(WithTitle(newTodo, "updatedTodo"), Some("updatedContent"));
    var _ := dao.CreateTodo(newTodo);
    current := dao.UpdateTodo(updatedTodo);
  }

  /** Updating an id that was never issued returns absent. */
  method UpdateTodoWithANonExistingTodo() returns (current: Option<Todo>)
    ensures current == None
  {
    var dao := new DummyTodoDao();
    var updatedTodo := WithContent(ATodo(0, "updatedTitle"), Some("updatedContent"));
    current := dao.UpdateTodo(updatedTodo);
  }

  /** Listing a fresh store gives the empty list. */
  method GetTodosWithNoTodos() returns (current: seq<Todo>)
    ensures current == []
  {
    var dao := new DummyTodoDao();
    current := dao.GetTodos();
    ListsEmpty(current);
  }

  /** Two creates of Todos already carrying ids 0 and 1 list both of them, unchanged, and nothing else. */
  method GetTodosWithTodos() returns (current: seq<Todo>)
    ensures Todo(0, "title0", Some("content0")) in current
    ensures Todo(1, "title1", Some("content1")) in current
    ensures forall x :: x in current ==> x == Todo(0, "title0", Some("content0")) || x == Todo(1, "title1", Some("content1"))
  {
    var dao := new DummyTodoDao();
    var newTodo0 := WithContent(ATodo(0, "title0"), Some("content0"));
    var newTodo1 := WithContent(ATodo(1, "title1"), Some("content1"));
    ghost var start := dao.State();
    var _ := dao.CreateTodo(newTodo0);
    ghost var afterFirst := dao.State();
    var _ := dao.CreateTodo(newTodo1);
    current := dao.GetTodos();
    ghost var todos := [newTodo0, newTodo1];
    assert todos[1..] == [newTodo1] && [newTodo1][1..] == [];
    assert CreateSeq(afterFirst, [newTodo1]).0 == dao.State();
    assert CreateSeq(start, todos).0 == dao.State();
    MatchingIdsAreListed(start, todos, current);
    assert todos[0] in current && todos[1] in current;
    CreatedAreListedExactly(start, todos, current);
    CreateKeepsMatchingIds(start, todos, 0);
    CreateKeepsMatchingIds(start, todos, 1);
    assert CreateSeq(start, todos).1 == todos;
  }

  /** Getting the id a create assigned returns that Todo, present. */
  method GetTodoWithAnExistingTodo() returns (current: Option<Todo>)
    ensures current == Some(Todo(0, "title", Some("content")))
  {
    var dao := new DummyTodoDao();
    var newTodo := WithContent(ATodo(0, "title"), Some("content"));
    var _ := dao.CreateTodo(newTodo);
    current := dao.GetTodo(0);
  }

  /** Getting an id on a fresh store returns absent. */
  method GetTodoWithANonExistingTodo() returns (current: Option<Todo>)
    ensures current == None
  {
    var dao := new DummyTodoDao();
    current := dao.GetTodo(0);
  }
}
