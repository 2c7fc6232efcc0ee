/** The todo resolvers: every operation needs a signed-in caller; a single
    todo is looked up by id and must belong to the caller, existence being
    checked before ownership. */
module TodoResolvers {
  import opened Base
  import opened Seqs
  import opened Db

  const TODO_NOT_FOUND: Error := Error(NotFound, "Todo not found")
  const ACCESS_DENIED: Error := Error(Forbidden, "You do not have permission to access this todo")
  const UPDATE_DENIED: Error := Error(Forbidden, "You do not have permission to update this todo")
  const DELETE_DENIED: Error := Error(Forbidden, "You do not have permission to delete this todo")

  /** An optional GraphQL argument: left out, given as `null`, or given. */
  datatype Arg<+T> = Undefined | Null | Given(value: T)

  /** The `todos` query: the caller's todos, newest first. */
  function Todos(todos: seq<Todo>, userId: Option<int>): (r: Result<seq<Todo>>)
    ensures r.Err? <==> !LoggedIn(userId)
    ensures r.Err? ==> r.error == AUTH_REQUIRED
    ensures r.Ok? ==> forall t :: t in r.value <==> t in todos && t.userId == userId.value
    ensures r.Ok? ==> multiset(r.value) == multiset(TodosOwnedBy(todos, userId.value))
    ensures r.Ok? ==> Sorted(r.value, TodoCreatedAt, true)
  {
    if !LoggedIn(userId) then Err(AUTH_REQUIRED)
    else
      var owned := TodosOwnedBy(todos, userId.value);
      var r := SortBy(owned, TodoCreatedAt, true);
      assert forall t :: t in r <==> t in owned by {
        forall t ensures t in r <==> t in owned {
          assert t in r <==> multiset(r)[t] > 0;
          assert t in owned <==> multiset(owned)[t] > 0;
        }
      }
      Ok(r)
  }

  /** The lookup shared by `todo`, `updateTodo` and `deleteTodo`: a missing
      id is NOT_FOUND, then a todo of another user is refused with `denied`. */
  function Owned(todos: seq<Todo>, userId: int, id: int, denied: Error): (r: Result<Todo>)
    ensures (forall t :: t in todos ==> t.id != id) ==> r == Err(TODO_NOT_FOUND)
    ensures r.Ok? ==> r.value in todos && r.value.id == id && r.value.userId == userId
    ensures (exists t :: t in todos && t.id == id) ==> r.Ok? || r == Err(denied)
    ensures TodoKeys(todos) ==> forall t :: t in todos && t.id == id ==> r == if t.userId == userId then Ok(t) else Err(denied)
  {
    match FindTodo(todos, id)
    case None => Err(TODO_NOT_FOUND)
    case Some(t) => if t.userId != userId then Err(denied) else Ok(t)
  }

  /** The `todo(id)` query. */
  function TodoById(todos: seq<Todo>, userId: Option<int>, id: int): (r: Result<Todo>)
    ensures !LoggedIn(userId) ==> r == Err(AUTH_REQUIRED)
    ensures LoggedIn(userId) ==> r == Owned(todos, userId.value, id, ACCESS_DENIED)
  {
    if !LoggedIn(userId) then Err(AUTH_REQUIRED) else Owned(todos, userId.value, id, ACCESS_DENIED)
  }

  /** `updateTodo`'s data: each argument that is not left out is written;
      `null` for the non-nullable title or completed flag is refused, and
      `null` for the description clears it. `updatedAt` becomes `now`. */
  function Patch(t: Todo, title: Arg<string>, description: Arg<string>, completed: Arg<bool>, now: int): (r: Option<Todo>)
    ensures r.None? <==> title.Null? || completed.Null?
    ensures r.Some? ==> r.value.id == t.id && r.value.userId == t.userId && r.value.createdAt == t.createdAt
    ensures r.Some? ==> r.value.updatedAt == now
    ensures r.Some? ==> r.value.title == (if title.Given? then title.value else t.title)
    ensures r.Some? ==> r.value.completed == (if completed.Given? then completed.value else t.completed)
    ensures r.Some? ==> (r.value.description == match description
                                                 case Undefined => t.description
                                                 case Null => None
                                                 case Given(d) => Some(d))
  {
    if title.Null? || completed.Null? then None
    else
      Some(t.(title := if title.Given? then title.value else t.title,
              description := match description
                             case Undefined => t.description
                             case Null => None
                             case Given(d) => Some(d),
              completed := if completed.Given? then completed.value else t.completed,
              updatedAt := now))
  }

  /** `createTodo` on database `s`: a new, not completed todo owned by the
      caller. Connecting to a user row that does not exist is refused. */
  function CreateTodoStep(s: State, userId: Option<int>, title: string, description: Option<string>, now: int): (o: Outcome<Todo>)
    ensures !LoggedIn(userId) ==> o == Outcome(s, Err(AUTH_REQUIRED))
    ensures o.result.Err? ==> o.state == s
    ensures o.result.Ok? <==> LoggedIn(userId) && UserExists(s.users, userId.value)
    ensures o.result.Ok? ==>
      && o.result.value == Todo(s.nextTodoId, title, description, false, now, now, userId.value)
      && o.state == s.(todos := s.todos + [o.result.value], nextTodoId := s.nextTodoId + 1)
  {
    if !LoggedIn(userId) then Outcome(s, Err(AUTH_REQUIRED))
    else if FindUser(s.users, userId.value).None? then Outcome(s, Err(WRITE_REJECTED))
    else
      var t := Todo(s.nextTodoId, title, description, false, now, now, userId.value);
      Outcome(s.(todos := s.todos + [t], nextTodoId := s.nextTodoId + 1), Ok(t))
  }

  /** `updateTodo` on database `s`: after the checks, the row is replaced
      by its patched version. */
  function UpdateTodoStep(s: State, userId: Option<int>, id: int, title: Arg<string>, description: Arg<string>,
                          completed: Arg<bool>, now: int): (o: Outcome<Todo>)
    ensures !LoggedIn(userId) ==> o == Outcome(s, Err(AUTH_REQUIRED))
    ensures LoggedIn(userId) && Owned(s.todos, userId.value, id, UPDATE_DENIED).Err? ==>
      o == Outcome(s, Err(Owned(s.todos, userId.value, id, UPDATE_DENIED).error))
    ensures o.result.Err? ==> o.state == s
    ensures o.result.Ok? ==>
      && LoggedIn(userId)
      && Owned(s.todos, userId.value, id, UPDATE_DENIED).Ok?
      && Patch(Owned(s.todos, userId.value, id, UPDATE_DENIED).value, title, description, completed, now) == Some(o.result.value)
      && o.state == s.(todos := SetTodo(s.todos, o.result.value))
    ensures o.result.Ok? <==>
      LoggedIn(userId) && Owned(s.todos, userId.value, id, UPDATE_DENIED).Ok? && !title.Null? && !completed.Null?
    ensures LoggedIn(userId) && Owned(s.todos, userId.value, id, UPDATE_DENIED).Ok? && (title.Null? || completed.Null?) ==>
      o == Outcome(s, Err(WRITE_REJECTED))
  {
    if !LoggedIn(userId) then Outcome(s, Err(AUTH_REQUIRED))
    else
      match Owned(s.todos, userId.value, id, UPDATE_DENIED)
      case Err(e) => Outcome(s, Err(e))
      case Ok(t) =>
        match Patch(t, title, description, completed, now)
        case None => Outcome(s, Err(WRITE_REJECTED))
        case Some(v) => Outcome(s.(todos := SetTodo(s.todos, v)), Ok(v))
  }

  /** `deleteTodo` on database `s`: after the checks, the row with that id
      is removed and `true` returned. */
  function DeleteTodoStep(s: State, userId: Option<int>, id: int): (o: Outcome<bool>)
    ensures !LoggedIn(userId) ==> o == Outcome(s, Err(AUTH_REQUIRED))
    ensures LoggedIn(userId) && Owned(s.todos, userId.value, id, DELETE_DENIED).Err? ==>
      o == Outcome(s, Err(Owned(s.todos, userId.value, id, DELETE_DENIED).error))
    ensures o.result.Ok? ==> o.result.value
    ensures o.result.Ok? <==> LoggedIn(userId) && Owned(s.todos, userId.value, id, DELETE_DENIED).Ok?
    ensures o.result.Err? ==> o.state == s
    ensures o.result.Ok? ==> forall t :: t in o.state.todos <==> t in s.todos && t.id != id
    ensures o.state == s.(todos := o.state.todos)
  {
    if !LoggedIn(userId) then Outcome(s, Err(AUTH_REQUIRED))
    else
      match Owned(s.todos, userId.value, id, DELETE_DENIED)
      case Err(e) => Outcome(s, Err(e))
      case Ok(_) => Outcome(s.(todos := WithoutTodo(s.todos, id)), Ok(true))
  }

  /** `delete({ where: { id } })` on todos: every row with that id goes. */
  function WithoutTodo(todos: seq<Todo>, id: int): (r: seq<Todo>)
    ensures forall t :: t in r <==> t in todos && t.id != id
  {
    Filter(todos, (t: Todo) => t.id != id)
  }

  /** The `Todo.user` field: the owner's row. */
  function TodoUser(users: seq<User>, parent: Todo): (r: Option<User>)
    ensures r.Some? ==> r.value in users && r.value.id == parent.userId
    ensures r.None? <==> !UserExists(users, parent.userId)
  {
    FindUser(users, parent.userId)
  }

  /** In a consistent database every todo's owner resolves. */
  lemma OwnerResolves(s: State, t: Todo)
    requires Consistent(s) && t in s.todos
    ensures TodoUser(s.users, t).Some?
  {
  }

  /** Each todo mutation keeps the database consistent. */
  lemma CreateTodoConsistent(s: State, userId: Option<int>, title: string, description: Option<string>, now: int)
    requires Consistent(s)
    ensures Consistent(CreateTodoStep(s, userId, title, description, now).state)
  {
    var c := CreateTodoStep(s, userId, title, description, now);
    if c.result.Ok? {
      assert forall t :: t in c.state.todos <==> t in s.todos || t == c.result.value;
    }
  }

  lemma UpdateTodoConsistent(s: State, userId: Option<int>, id: int, title: Arg<string>, description: Arg<string>,
                             completed: Arg<bool>, now: int)
    requires Consistent(s)
    ensures Consistent(UpdateTodoStep(s, userId, id, title, description, completed, now).state)
  {
    var u := UpdateTodoStep(s, userId, id, title, description, completed, now);
    if u.result.Ok? {
      SetTodoKeys(s.todos, Owned(s.todos, userId.value, id, UPDATE_DENIED).value, u.result.value);
    }
  }

  lemma DeleteTodoConsistent(s: State, userId: Option<int>, id: int)
    requires Consistent(s)
    ensures Consistent(DeleteTodoStep(s, userId, id).state)
  {
  }

  /** Replacing an existing todo by one with the same id and owner keeps
      the table's keys unique, and every other row in place. */
  lemma SetTodoKeys(todos: seq<Todo>, old_t: Todo, t: Todo)
    requires TodoKeys(todos) && old_t in todos && t.id == old_t.id && t.userId == old_t.userId
    ensures TodoKeys(SetTodo(todos, t))
    ensures forall x :: x in SetTodo(todos, t) <==> x == t || (x in todos && x.id != t.id)
  {
    var r := SetTodo(todos, t);
    forall x
      ensures x in r <==> x == t || (x in todos && x.id != t.id)
    {
      if x in r {
        var i :| 0 <= i < |r| && r[i] == x;
      }
      if x == t {
        var i :| 0 <= i < |todos| && todos[i] == old_t;
        assert r[i] == t;
      } else if x in todos && x.id != t.id {
        var i :| 0 <= i < |todos| && todos[i] == x;
        assert r[i] == x;
      }
    }
  }

  /** A created todo is then readable by its creator. */
  lemma CreateThenRead(s: State, userId: Option<int>, title: string, description: Option<string>, now: int)
    requires Consistent(s)
    requires CreateTodoStep(s, userId, title, description, now).result.Ok?
    ensures var o := CreateTodoStep(s, userId, title, description, now);
      TodoById(o.state.todos, userId, o.result.value.id) == Ok(o.result.value)
  {
    CreateTodoConsistent(s, userId, title, description, now);
  }

  /** An updated todo reads back as written. */
  lemma UpdateThenRead(s: State, userId: Option<int>, id: int, title: Arg<string>, description: Arg<string>,
                       completed: Arg<bool>, now: int)
    requires Consistent(s)
    requires UpdateTodoStep(s, userId, id, title, description, completed, now).result.Ok?
    ensures var o := UpdateTodoStep(s, userId, id, title, description, completed, now);
      TodoById(o.state.todos, userId, id) == Ok(o.result.value)
  {
    var o := UpdateTodoStep(s, userId, id, title, description, completed, now);
    SetTodoKeys(s.todos, Owned(s.todos, userId.value, id, UPDATE_DENIED).value, o.result.value);
  }

  /** After a successful delete the id is not found. */
  lemma DeleteThenGone(s: State, userId: Option<int>, id: int)
    requires DeleteTodoStep(s, userId, id).result.Ok?
    ensures TodoById(DeleteTodoStep(s, userId, id).state.todos, userId, id) == Err(TODO_NOT_FOUND)
  {
  }

  /** The `createTodo` resolver against the live database. */
  method CreateTodo(db: Store, userId: Option<int>, title: string, description: Option<string>, now: int)
    returns (r: Result<Todo>)
    requires db.Valid()
    modifies db
    ensures db.Valid()
    ensures db.Snapshot() == old(CreateTodoStep(db.Snapshot(), userId, title, description, now)).state
    ensures r == old(CreateTodoStep(db.Snapshot(), userId, title, description, now)).result
  {
    CreateTodoConsistent(db.Snapshot(), userId, title, description, now);
    if !LoggedIn(userId) {
      return Err(AUTH_REQUIRED);
    }
    if FindUser(db.users, userId.value).None? {
      return Err(WRITE_REJECTED);
    }
    var t := Todo(db.nextTodoId, title, description, false, now, now, userId.value);
    db.todos := db.todos + [t];
    db.nextTodoId := db.nextTodoId + 1;
    r := Ok(t);
  }

  /** The `updateTodo` resolver against the live database. */
  method UpdateTodo(db: Store, userId: Option<int>, id: int, title: Arg<string>, description: Arg<string>,
                    completed: Arg<bool>, now: int)
    returns (r: Result<Todo>)
    requires db.Valid()
    modifies db
    ensures db.Valid()
    ensures db.Snapshot() == old(UpdateTodoStep(db.Snapshot(), userId, id, title, description, completed, now)).state
    ensures r == old(UpdateTodoStep(db.Snapshot(), userId, id, title, description, completed, now)).result
  {
    UpdateTodoConsistent(db.Snapshot(), userId, id, title, description, completed, now);
    if !LoggedIn(userId) {
      return Err(AUTH_REQUIRED);
    }
    var found := Owned(db.todos, userId.value, id, UPDATE_DENIED);
    if found.Err? {
      return Err(found.error);
    }
    var patched := Patch(found.value, title, description, completed, now);
    if patched.None? {
      return Err(WRITE_REJECTED);
    }
    db.todos := SetTodo(db.todos, patched.value);
    r := Ok(patched.value);
  }

  /** The `deleteTodo` resolver against the live database. */
  method DeleteTodo(db: Store, userId: Option<int>, id: int) returns (r: Result<bool>)
    requires db.Valid()
    modifies db
    ensures db.Valid()
    ensures db.Snapshot() == old(DeleteTodoStep(db.Snapshot(), userId, id)).state
    ensures r == old(DeleteTodoStep(db.Snapshot(), userId, id)).result
  {
    DeleteTodoConsistent(db.Snapshot(), userId, id);
    if !LoggedIn(userId) {
      return Err(AUTH_REQUIRED);
    }
    var found := Owned(db.todos, userId.value, id, DELETE_DENIED);
    if found.Err? {
      return Err(found.error);
    }
    db.todos := WithoutTodo(db.todos, id);
    r := Ok(true);
  }
}
