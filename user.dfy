/** The user resolvers: the signed-in caller's own row, and a user's todos. */
module UserResolvers {
  import opened Base
  import opened Seqs
  import opened Db
  import opened TodoResolvers

  /** The `me` query: null for an anonymous caller, without a lookup; the
      caller's row otherwise, NOT_FOUND if it is gone. */
  function Me(users: seq<User>, userId: Option<int>): (r: Result<Option<User>>)
    ensures !LoggedIn(userId) ==> r == Ok(None)
    ensures LoggedIn(userId) && !UserExists(users, userId.value) ==> r == Err(USER_NOT_FOUND)
    ensures LoggedIn(userId) && UserExists(users, userId.value) ==>
      r.Ok? && r.value.Some? && r.value.value in users && r.value.value.id == userId.value
  {
    if !LoggedIn(userId) then Ok(None)
    else
      match FindUser(users, userId.value)
      case None => Err(USER_NOT_FOUND)
      case Some(u) => Ok(Some(u))
  }

  /** The `User.todos` field: the parent's todos, newest first. */
  function UserTodos(todos: seq<Todo>, parent: User): (r: seq<Todo>)
    ensures forall t :: t in r <==> t in todos && t.userId == parent.id
    ensures multiset(r) == multiset(TodosOwnedBy(todos, parent.id))
    ensures Sorted(r, TodoCreatedAt, true)
  {
    var owned := TodosOwnedBy(todos, parent.id);
    var r := SortBy(owned, TodoCreatedAt, true);
    assert forall t :: t in r <==> t in owned by {
      forall t ensures t in r <==> t in owned {
        assert t in r <==> multiset(r)[t] > 0;
        assert t in owned <==> multiset(owned)[t] > 0;
      }
    }
    r
  }

  /** The `todos` query and the `todos` field of the caller's own row list
      the same todos in the same order. */
  lemma OwnTodosAgree(s: State, userId: Option<int>)
    requires LoggedIn(userId) && UserExists(s.users, userId.value)
    ensures Me(s.users, userId).Ok? && Me(s.users, userId).value.Some?
    ensures Todos(s.todos, userId) == Ok(UserTodos(s.todos, Me(s.users, userId).value.value))
  {
  }

  /** Among the caller's todos listed by `me { todos }`, reading any one
      by id returns it. */
  lemma ListedTodosReadable(s: State, userId: Option<int>, t: Todo)
    requires Consistent(s) && LoggedIn(userId) && UserExists(s.users, userId.value)
    requires t in UserTodos(s.todos, Me(s.users, userId).value.value)
    ensures TodoById(s.todos, userId, t.id) == Ok(t)
  {
  }
}
