/**
 * The Todo record and its builder.
 *
 * A Todo is an immutable value; two Todos are equal exactly when their id,
 * title and content are equal. The builder's copy-and-override calls
 * (`aTodo(todo).withId(..)`, `.withTitle(..)`, `.withContent(..)`) become
 * pure functions that return a new value with one field replaced.
 */
module Core {
  import opened Wrappers

  /** `id` is the store key (a Java `long`), `content` is optional text. */
  datatype Todo = Todo(id: int, title: string, content: Option<string>)

  /** `aTodo(id, title)`: a Todo whose content is not set yet. */
  function ATodo(id: int, title: string): Todo
  {
    Todo(id, title, None)
  }

  /** `withId`: the same Todo under another id. */
  function WithId(t: Todo, id: int): Todo
  {
    t.(id := id)
  }

  /** `withTitle`: the same Todo with another title. */
  function WithTitle(t: Todo, title: string): Todo
  {
    t.(title := title)
  }

  /** `withContent`: the same Todo with another (optional) content. */
  function WithContent(t: Todo, content: Option<string>): Todo
  {
    t.(content := content)
  }

  /**
   * Copy-with-override replaces exactly the named field: every other field
   * of the copy is the original's, overriding a field with its own value
   * gives back an equal Todo, and a later override of the same field wins.
   */
  lemma OverrideReplacesOneField(t: Todo, id: int, title: string, content: Option<string>,
                                 id2: int, title2: string, content2: Option<string>)
    ensures WithId(t, id).id == id && WithId(t, id).title == t.title && WithId(t, id).content == t.content
    ensures WithTitle(t, title).title == title && WithTitle(t, title).id == t.id && WithTitle(t, title).content == t.content
    ensures WithContent(t, content).content == content && WithContent(t, content).id == t.id && WithContent(t, content).title == t.title
    ensures WithId(t, t.id) == t && WithTitle(t, t.title) == t && WithContent(t, t.content) == t
    ensures WithId(WithId(t, id2), id) == WithId(t, id)
    ensures WithTitle(WithTitle(t, title2), title) == WithTitle(t, title)
    ensures WithContent(WithContent(t, content2), content) == WithContent(t, content)
    ensures WithContent(ATodo(id, title), content) == Todo(id, title, content)
  {
  }
}
