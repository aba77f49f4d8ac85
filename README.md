# DummyTodoDAO: an in-memory Todo store

This project models `DummyTodoDAO`, the in-memory data-access object of a
small Todo web service (package `fr.blemale.dropwizard.todo.jdbi`), as its
unit test suite `DummyTodoDAOTest` pins it down.

The store keeps a table from id to Todo and a counter for the next id. It
starts empty with the counter at 0, and it offers four operations:

- `createTodo` ignores the caller's id. It stores a copy under the counter's
  value, returns that copy and advances the counter.
- `updateTodo` replaces the entry under the Todo's id and returns it as
  present. When that id is not a key, it returns absent and changes nothing.
- `getTodo` returns the Todo stored under an id as present, or absent.
- `getTodos` lists every stored Todo, in no fixed order.

A Todo is an immutable record `(id, title, content)` with an optional
content. Its builder copies a Todo and overrides one field at a time.

The files:

- `wrappers.dfy` (module `Wrappers`): `Option`, standing in for Guava's `Optional`.
- `core.dfy` (module `Core`): the `Todo` datatype and the builder's
  copy-and-override calls as pure functions.
- `todo_table.dfy` (module `TodoTable`): the store's state as a value
  (`Table`), its invariant (`Inv`: every Todo is stored under its own id,
  and every key is below the counter), and the four operations as
  functions. The lemmas relate the operations to each other and to
  sequences of creates.
- `jdbi.dfy` (module `Jdbi`): class `DummyTodoDao`. Its map field and counter
  field are changed in place by `modifies this` methods. Each method is
  proved against the matching `TodoTable` function and keeps `Valid()`.
  `GetTodos` copies the table into a list with a loop over the key set.
- `jdbi_test.dfy` (module `JdbiTest`): the seven test scenarios as client
  methods. Each one runs on a fresh store, and its postcondition is the
  answer the test expects.

## Model

| member | source | states |
|---|---|---|
| `Core.OverrideReplacesOneField` | src/test/java/fr/blemale/dropwizard/todo/jdbi/DummyTodoDAOTest.java:32-33 | a builder override replaces exactly the named field, overriding with the field's own value gives an equal Todo, the last override wins, and `aTodo(id, title).withContent(c)` is the Todo `(id, title, c)` |
| `TodoTable.Empty` | src/test/java/fr/blemale/dropwizard/todo/jdbi/DummyTodoDAOTest.java:20-23 | a fresh store satisfies the invariant and `getTodo` finds nothing in it |
| `TodoTable.Get` | src/test/java/fr/blemale/dropwizard/todo/jdbi/DummyTodoDAOTest.java:84-104 | in a store that keeps the invariant, a present answer for `id` is a Todo whose id is `id`, and an id never issued (negative, or not below the counter) is absent |
| `TodoTable.Create` | src/test/java/fr/blemale/dropwizard/todo/jdbi/DummyTodoDAOTest.java:30-38 | the result keeps the input's title and content, and its id is the counter's value, not the input's id; a following `getTodo` of that id finds it; every other id answers as before; the counter grows by one; the invariant is kept and the assigned id was unused |
| `TodoTable.Update` | src/test/java/fr/blemale/dropwizard/todo/jdbi/DummyTodoDAOTest.java:40-61 | present with the input exactly when its id is stored, absent otherwise; a following `getTodo` of that id returns the same answer; other ids and the counter are untouched; on absent the store is unchanged; the invariant is kept |
| `TodoTable.CreateSeq` | src/test/java/fr/blemale/dropwizard/todo/jdbi/DummyTodoDAOTest.java:74-78 | successive creates return one Todo per input; the i-th gets id `nextId + i` and keeps its input's title and content; the counter ends `|todos|` higher |
| `TodoTable.CreateSeqStores` | src/test/java/fr/blemale/dropwizard/todo/jdbi/DummyTodoDAOTest.java:77-79 | after successive creates, each returned Todo is found under its id, entries below the old counter answer as before, and the invariant is kept |
| `TodoTable.ListsEmpty` | src/test/java/fr/blemale/dropwizard/todo/jdbi/DummyTodoDAOTest.java:63-70 | `getTodos` on a fresh store returns the empty list |
| `TodoTable.ListedWhenFound` | src/test/java/fr/blemale/dropwizard/todo/jdbi/DummyTodoDAOTest.java:79-81 | every Todo that `getTodo` finds is in the list `getTodos` returns |
| `TodoTable.CreateKeepsMatchingIds` | src/test/java/fr/blemale/dropwizard/todo/jdbi/DummyTodoDAOTest.java:74-78 | an input that already carries the id its create assigns comes back equal to itself |
| `TodoTable.CreatedAreListed` | src/test/java/fr/blemale/dropwizard/todo/jdbi/DummyTodoDAOTest.java:72-82 | after successive creates, `getTodos` lists every Todo the creates returned |
| `TodoTable.CreatedAreListedExactly` | src/test/java/fr/blemale/dropwizard/todo/jdbi/DummyTodoDAOTest.java:72-82 | after successive creates on a store that holds nothing, a Todo is listed by `getTodos` exactly when one of the creates returned it |
| `TodoTable.MatchingIdsAreListed` | src/test/java/fr/blemale/dropwizard/todo/jdbi/DummyTodoDAOTest.java:72-82 | after successive creates, `getTodos` lists, unchanged, every input that already carried its assigned id |
| `TodoTable.CreatedIdsAreDistinct` | src/test/java/fr/blemale/dropwizard/todo/jdbi/DummyTodoDAOTest.java:77-78 | successive creates assign strictly increasing ids, so no id is issued twice |
| `TodoTable.UpdateAfterCreate` | src/test/java/fr/blemale/dropwizard/todo/jdbi/DummyTodoDAOTest.java:40-50 | updating the id a create returned gives present with the update exactly, and `getTodo` then returns it: title and content are replaced, not merged |
| `TodoTable.UpdateIsIdempotent` | src/test/java/fr/blemale/dropwizard/todo/jdbi/DummyTodoDAOTest.java:40-61 | repeating an update leaves the store as the first update left it and returns the same answer |
| `Jdbi.DummyTodoDao.constructor` | src/test/java/fr/blemale/dropwizard/todo/jdbi/DummyTodoDAOTest.java:20-23 | a new store is valid, holds no Todo and its counter is 0 |
| `Jdbi.DummyTodoDao.CreateTodo` | src/test/java/fr/blemale/dropwizard/todo/jdbi/DummyTodoDAOTest.java:30-38 | the new table, counter and returned Todo are those of `TodoTable.Create`, and the store stays valid |
| `Jdbi.DummyTodoDao.UpdateTodo` | src/test/java/fr/blemale/dropwizard/todo/jdbi/DummyTodoDAOTest.java:40-61 | the new table, counter and answer are those of `TodoTable.Update`, and the store stays valid |
| `Jdbi.DummyTodoDao.GetTodo` | src/test/java/fr/blemale/dropwizard/todo/jdbi/DummyTodoDAOTest.java:84-104 | answers as `TodoTable.Get`: present exactly when the id is stored, and then with a Todo carrying that id |
| `Jdbi.DummyTodoDao.GetTodos` | src/test/java/fr/blemale/dropwizard/todo/jdbi/DummyTodoDAOTest.java:63-82 | the list has one entry per stored Todo, each entry is the Todo stored under its id, no id appears twice, and every stored Todo appears |
| `JdbiTest.CreateTodo` | src/test/java/fr/blemale/dropwizard/todo/jdbi/DummyTodoDAOTest.java:30-38 | on a fresh store, creating `(1, "title", "content")` returns `(0, "title", "content")` |
| `JdbiTest.UpdateTodoWithAnExistingTodo` | src/test/java/fr/blemale/dropwizard/todo/jdbi/DummyTodoDAOTest.java:40-50 | after a create, updating id 0 to `("updatedTodo", "updatedContent")` returns it, present |
| `JdbiTest.UpdateTodoWithANonExistingTodo` | src/test/java/fr/blemale/dropwizard/todo/jdbi/DummyTodoDAOTest.java:53-61 | on a fresh store, updating id 0 returns absent |
| `JdbiTest.GetTodosWithNoTodos` | src/test/java/fr/blemale/dropwizard/todo/jdbi/DummyTodoDAOTest.java:63-70 | on a fresh store, `getTodos` returns the empty list |
| `JdbiTest.GetTodosWithTodos` | src/test/java/fr/blemale/dropwizard/todo/jdbi/DummyTodoDAOTest.java:72-82 | creating Todos that carry ids 0 and 1 lists both of them, unchanged, and nothing else |
| `JdbiTest.GetTodoWithAnExistingTodo` | src/test/java/fr/blemale/dropwizard/todo/jdbi/DummyTodoDAOTest.java:84-94 | after creating `(0, "title", "content")`, getting id 0 returns it, present |
| `JdbiTest.GetTodoWithANonExistingTodo` | src/test/java/fr/blemale/dropwizard/todo/jdbi/DummyTodoDAOTest.java:96-104 | on a fresh store, getting id 0 returns absent |

## Left out

- The body of `DummyTodoDAO`, `Todo` and `TodoBuilder` is not part of this model. The store is modelled from the contract its test suite pins down. The builder is modelled from the way the tests use it.
- `Core.ATodo`: the content a builder gives before `withContent` is called is taken to be absent. The tests always set the content, so they never show this default.
- Ids are Java `long` values but are modelled as unbounded integers. Counter overflow after 2^63 creates is not modelled.
- Guava `Optional` is modelled by the `Option` datatype. The returned `List` is modelled by a sequence.
- `getTodos` makes no promise about order. The model states membership, no duplicate ids and the length, and leaves the order open.
- The JUnit and Hamcrest machinery is not modelled. The fixture that builds a new store before each test becomes the constructor call at the start of each scenario. Setting the field to `null` after each test is not modelled.
- Concurrency is not modelled. Every operation is treated as single-threaded.
- The web layer, JDBI wiring and any real database DAO are not modelled. They belong to the rest of the service, not to this store.
