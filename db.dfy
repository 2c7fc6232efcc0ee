/** The four tables the resolvers read and write through the Prisma client
    (users, todos, chat rooms, messages), held in memory, and the log of
    NEW_MESSAGE events the chat resolvers publish. Timestamps are
    milliseconds; ids are the tables' auto-incremented integer keys. */
module Db {
  import opened Base
  import opened Seqs

  datatype User = User(
    id: int,
    username: Option<string>,
    email: string,
    password: string,                  // the bcrypt hash, never the password
    isVerified: bool,
    verificationCode: Option<string>,
    verificationExpiry: Option<int>,
    isAdmin: bool,
    createdAt: int)

  datatype Todo = Todo(
    id: int,
    title: string,
    description: Option<string>,
    completed: bool,
    createdAt: int,
    updatedAt: int,
    userId: int)

  datatype ChatRoom = ChatRoom(id: int, name: string, createdAt: int)

  datatype Message = Message(id: int, content: string, createdAt: int, userId: int, roomId: int)

  /** The whole persistent state, plus the publish log. */
  datatype State = State(
    users: seq<User>,
    todos: seq<Todo>,
    rooms: seq<ChatRoom>,
    messages: seq<Message>,
    published: seq<Message>,
    nextUserId: int,
    nextTodoId: int,
    nextRoomId: int,
    nextMessageId: int)

  /** What a mutating resolver leaves behind: the database after the call,
      and what the call returned or threw. */
  datatype Outcome<+T> = Outcome(state: State, result: Result<T>)

  // Sort keys of the `orderBy: { createdAt }` clauses.
  function UserCreatedAt(u: User): int { u.createdAt }
  function TodoCreatedAt(t: Todo): int { t.createdAt }
  function RoomCreatedAt(c: ChatRoom): int { c.createdAt }
  function MessageCreatedAt(m: Message): int { m.createdAt }

  ghost predicate UserExists(users: seq<User>, id: int) {
    exists u :: u in users && u.id == id
  }

  ghost predicate RoomExists(rooms: seq<ChatRoom>, id: int) {
    exists c :: c in rooms && c.id == id
  }

  /** `id` and `email` are unique keys of the user table. */
  ghost predicate UserKeys(users: seq<User>) {
    && (forall a, b :: a in users && b in users && a.id == b.id ==> a == b)
    && (forall a, b :: a in users && b in users && a.email == b.email ==> a == b)
  }

  ghost predicate TodoKeys(todos: seq<Todo>) {
    forall a, b :: a in todos && b in todos && a.id == b.id ==> a == b
  }

  ghost predicate RoomKeys(rooms: seq<ChatRoom>) {
    forall a, b :: a in rooms && b in rooms && a.id == b.id ==> a == b
  }

  ghost predicate MessageKeys(messages: seq<Message>) {
    forall a, b :: a in messages && b in messages && a.id == b.id ==> a == b
  }

  /** The database's integrity: unique keys, ids below the next
      auto-increment value, and every todo owner, message author and
      message room referring to an existing row. */
  ghost predicate Consistent(s: State) {
    && UserKeys(s.users)
    && TodoKeys(s.todos)
    && RoomKeys(s.rooms)
    && MessageKeys(s.messages)
    && 1 <= s.nextUserId && 1 <= s.nextTodoId && 1 <= s.nextRoomId && 1 <= s.nextMessageId
    && (forall u :: u in s.users ==> 1 <= u.id < s.nextUserId)
    && (forall t :: t in s.todos ==> 1 <= t.id < s.nextTodoId)
    && (forall c :: c in s.rooms ==> 1 <= c.id < s.nextRoomId)
    && (forall m :: m in s.messages ==> 1 <= m.id < s.nextMessageId)
    && (forall t :: t in s.todos ==> UserExists(s.users, t.userId))
    && (forall m :: m in s.messages ==> UserExists(s.users, m.userId) && RoomExists(s.rooms, m.roomId))
  }

  /** `findUnique({ where: { id } })` on users. */
  function FindUser(users: seq<User>, id: int): (r: Option<User>)
    ensures r.Some? ==> r.value in users && r.value.id == id
    ensures r.None? <==> !UserExists(users, id)
  {
    Find(users, (u: User) => u.id == id)
  }

  /** `findUnique({ where: { email } })` on users. */
  function FindUserByEmail(users: seq<User>, email: string): (r: Option<User>)
    ensures r.Some? ==> r.value in users && r.value.email == email
    ensures r.None? <==> forall u :: u in users ==> u.email != email
  {
    Find(users, (u: User) => u.email == email)
  }

  /** `findUnique({ where: { id } })` on todos. */
  function FindTodo(todos: seq<Todo>, id: int): (r: Option<Todo>)
    ensures r.Some? ==> r.value in todos && r.value.id == id
    ensures r.None? <==> forall t :: t in todos ==> t.id != id
  {
    Find(todos, (t: Todo) => t.id == id)
  }

  /** `findUnique({ where: { id } })` on chat rooms. */
  function FindRoom(rooms: seq<ChatRoom>, id: int): (r: Option<ChatRoom>)
    ensures r.Some? ==> r.value in rooms && r.value.id == id
    ensures r.None? <==> !RoomExists(rooms, id)
  {
    Find(rooms, (c: ChatRoom) => c.id == id)
  }

  /** `findMany({ where: { userId } })` on todos, unordered. */
  function TodosOwnedBy(todos: seq<Todo>, userId: int): (r: seq<Todo>)
    ensures forall t :: t in r <==> t in todos && t.userId == userId
    ensures forall t :: multiset(r)[t] == if t.userId == userId then multiset(todos)[t] else 0
  {
    Filter(todos, (t: Todo) => t.userId == userId)
  }

  /** `findMany({ where: { roomId } })` on messages, unordered. */
  function MessagesInRoom(messages: seq<Message>, roomId: int): (r: seq<Message>)
    ensures forall m :: m in r <==> m in messages && m.roomId == roomId
    ensures forall m :: multiset(r)[m] == if m.roomId == roomId then multiset(messages)[m] else 0
  {
    Filter(messages, (m: Message) => m.roomId == roomId)
  }

  /** The user table with the row `u.id` replaced by `u` (`update({ where: { id } })`). */
  function SetUser(users: seq<User>, u: User): (r: seq<User>)
    ensures |r| == |users|
    ensures forall i :: 0 <= i < |users| ==> r[i] == if users[i].id == u.id then u else users[i]
  {
    ReplaceWhere(users, (x: User) => x.id == u.id, u)
  }

  /** The todo table with the row `t.id` replaced by `t`. */
  function SetTodo(todos: seq<Todo>, t: Todo): (r: seq<Todo>)
    ensures |r| == |todos|
    ensures forall i :: 0 <= i < |todos| ==> r[i] == if todos[i].id == t.id then t else todos[i]
  {
    ReplaceWhere(todos, (x: Todo) => x.id == t.id, t)
  }

  /** Replacing an existing user row by one with the same id and email keeps
      the table's keys unique and every other row in place. */
  lemma {:induction false} SetUserKeys(users: seq<User>, old_u: User, u: User)
    requires UserKeys(users) && old_u in users
    requires u.id == old_u.id && u.email == old_u.email
    ensures UserKeys(SetUser(users, u))
    ensures u in SetUser(users, u)
    ensures forall x :: x in SetUser(users, u) <==> x == u || (x in users && x.id != u.id)
    ensures forall id :: UserExists(SetUser(users, u), id) <==> UserExists(users, id)
  {
    var r := SetUser(users, u);
    forall x
      ensures x in r <==> x == u || (x in users && x.id != u.id)
    {
      if x in r {
        var i :| 0 <= i < |r| && r[i] == x;
      }
      if x == u {
        var i :| 0 <= i < |users| && users[i] == old_u;
        assert r[i] == u;
      } else if x in users && x.id != u.id {
        var i :| 0 <= i < |users| && users[i] == x;
        assert r[i] == x;
      }
    }
    forall id | UserExists(users, id)
      ensures UserExists(r, id)
    {
      var x :| x in users && x.id == id;
      if x.id == u.id { assert u in r; } else { assert x in r; }
    }
  }

  /** The in-memory database: one object whose fields the resolvers'
      persistence calls update. */
  class Store {
    var users: seq<User>
    var todos: seq<Todo>
    var rooms: seq<ChatRoom>
    var messages: seq<Message>
    var published: seq<Message>
    var nextUserId: int
    var nextTodoId: int
    var nextRoomId: int
    var nextMessageId: int

    function Snapshot(): State
      reads this
    {
      State(users, todos, rooms, messages, published, nextUserId, nextTodoId, nextRoomId, nextMessageId)
    }

    ghost predicate Valid()
      reads this
    {
      Consistent(Snapshot())
    }

    /** An empty database whose auto-increment counters start at 1. */
    constructor ()
      ensures Valid()
      ensures Snapshot() == State([], [], [], [], [], 1, 1, 1, 1)
    {
      users, todos, rooms, messages, published := [], [], [], [], [];
      nextUserId, nextTodoId, nextRoomId, nextMessageId := 1, 1, 1, 1;
    }
  }
}
