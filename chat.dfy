/** The chat resolvers: rooms, the messages posted in them, and the
    NEW_MESSAGE events a message publishes. A subscriber to a room receives
    the published messages of that room and of no other. */
module ChatResolvers {
  import opened Base
  import opened Seqs
  import opened Db

  const ROOM_NOT_FOUND: Error := Error(NotFound, "Chat room not found")

  /** The `chatRooms` query: every room, newest first. */
  function ChatRooms(rooms: seq<ChatRoom>, userId: Option<int>): (r: Result<seq<ChatRoom>>)
    ensures r.Err? <==> !LoggedIn(userId)
    ensures r.Err? ==> r.error == AUTH_REQUIRED
    ensures r.Ok? ==> multiset(r.value) == multiset(rooms)
    ensures r.Ok? ==> Sorted(r.value, RoomCreatedAt, true)
  {
    if !LoggedIn(userId) then Err(AUTH_REQUIRED) else Ok(SortBy(rooms, RoomCreatedAt, true))
  }

  /** The `chatRoom(id)` query. */
  function ChatRoomById(rooms: seq<ChatRoom>, userId: Option<int>, id: int): (r: Result<ChatRoom>)
    ensures !LoggedIn(userId) ==> r == Err(AUTH_REQUIRED)
    ensures LoggedIn(userId) && !RoomExists(rooms, id) ==> r == Err(ROOM_NOT_FOUND)
    ensures r.Ok? <==> LoggedIn(userId) && RoomExists(rooms, id)
    ensures r.Ok? ==> r.value in rooms && r.value.id == id
  {
    if !LoggedIn(userId) then Err(AUTH_REQUIRED)
    else
      match FindRoom(rooms, id)
      case None => Err(ROOM_NOT_FOUND)
      case Some(c) => Ok(c)
  }

  /** The `ChatRoom.messages` field: the room's messages, oldest first. */
  function RoomMessages(messages: seq<Message>, roomId: int): (r: seq<Message>)
    ensures forall m :: m in r <==> m in messages && m.roomId == roomId
    ensures multiset(r) == multiset(MessagesInRoom(messages, roomId))
    ensures Sorted(r, MessageCreatedAt, false)
  {
    var inRoom := MessagesInRoom(messages, roomId);
    var r := SortBy(inRoom, MessageCreatedAt, false);
    assert forall m :: m in r <==> m in inRoom by {
      forall m ensures m in r <==> m in inRoom {
        assert m in r <==> multiset(r)[m] > 0;
        assert m in inRoom <==> multiset(inRoom)[m] > 0;
      }
    }
    r
  }

  /** The `messages(roomId)` query: the room must exist. */
  function Messages(s: State, userId: Option<int>, roomId: int): (r: Result<seq<Message>>)
    ensures !LoggedIn(userId) ==> r == Err(AUTH_REQUIRED)
    ensures LoggedIn(userId) && !RoomExists(s.rooms, roomId) ==> r == Err(ROOM_NOT_FOUND)
    ensures r.Ok? <==> LoggedIn(userId) && RoomExists(s.rooms, roomId)
    ensures r.Ok? ==> r.value == RoomMessages(s.messages, roomId)
  {
    if !LoggedIn(userId) then Err(AUTH_REQUIRED)
    else if FindRoom(s.rooms, roomId).None? then Err(ROOM_NOT_FOUND)
    else Ok(RoomMessages(s.messages, roomId))
  }

  /** `createChatRoom` on database `s`: a room with the given name, no
      further checks. */
  function CreateChatRoomStep(s: State, userId: Option<int>, name: string, now: int): (o: Outcome<ChatRoom>)
    ensures !LoggedIn(userId) ==> o == Outcome(s, Err(AUTH_REQUIRED))
    ensures o.result.Ok? <==> LoggedIn(userId)
    ensures o.result.Ok? ==>
      && o.result.value == ChatRoom(s.nextRoomId, name, now)
      && o.state == s.(rooms := s.rooms + [o.result.value], nextRoomId := s.nextRoomId + 1)
  {
    if !LoggedIn(userId) then Outcome(s, Err(AUTH_REQUIRED))
    else
      var c := ChatRoom(s.nextRoomId, name, now);
      Outcome(s.(rooms := s.rooms + [c], nextRoomId := s.nextRoomId + 1), Ok(c))
  }

  /** `sendMessage` on database `s`: the room must exist; the message is
      created, authored by the caller, and then published once. Connecting
      to an author row that does not exist is refused. */
  function SendMessageStep(s: State, userId: Option<int>, content: string, roomId: int, now: int): (o: Outcome<Message>)
    ensures !LoggedIn(userId) ==> o == Outcome(s, Err(AUTH_REQUIRED))
    ensures LoggedIn(userId) && !RoomExists(s.rooms, roomId) ==> o == Outcome(s, Err(ROOM_NOT_FOUND))
    ensures o.result.Err? ==> o.state == s
    ensures o.result.Ok? <==> LoggedIn(userId) && RoomExists(s.rooms, roomId) && UserExists(s.users, userId.value)
    ensures o.result.Ok? ==>
      && o.result.value == Message(s.nextMessageId, content, now, userId.value, roomId)
      && o.state == s.(messages := s.messages + [o.result.value],
                       published := s.published + [o.result.value],
                       nextMessageId := s.nextMessageId + 1)
  {
    if !LoggedIn(userId) then Outcome(s, Err(AUTH_REQUIRED))
    else if FindRoom(s.rooms, roomId).None? then Outcome(s, Err(ROOM_NOT_FOUND))
    else if FindUser(s.users, userId.value).None? then Outcome(s, Err(WRITE_REJECTED))
    else
      var m := Message(s.nextMessageId, content, now, userId.value, roomId);
      Outcome(s.(messages := s.messages + [m], published := s.published + [m], nextMessageId := s.nextMessageId + 1), Ok(m))
  }

  /** The `newMessage(roomId)` subscription filter. */
  predicate ForRoom(m: Message, roomId: int) {
    m.roomId == roomId
  }

  /** The messages a subscriber to `roomId` receives, in order. The filter
      runs over the live event stream and nothing is replayed, so a
      subscription opened when the log held `subscribedAt` events sees only
      the room's events published after that. */
  function Delivered(published: seq<Message>, subscribedAt: nat, roomId: int): (r: seq<Message>)
    requires subscribedAt <= |published|
    ensures forall m :: m in r <==> m in published[subscribedAt..] && m.roomId == roomId
  {
    Filter(published[subscribedAt..], (m: Message) => ForRoom(m, roomId))
  }

  /** After a successful send, every open subscription to the message's
      room receives exactly that message once more, and a subscription to
      any other room receives nothing new. */
  lemma SendDelivers(s: State, userId: Option<int>, content: string, roomId: int, now: int,
                     subscribedAt: nat, subscribed: int)
    requires SendMessageStep(s, userId, content, roomId, now).result.Ok?
    requires subscribedAt <= |s.published|
    ensures var o := SendMessageStep(s, userId, content, roomId, now);
      Delivered(o.state.published, subscribedAt, subscribed) ==
        Delivered(s.published, subscribedAt, subscribed) + (if subscribed == roomId then [o.result.value] else [])
  {
    var o := SendMessageStep(s, userId, content, roomId, now);
    var m := o.result.value;
    assert o.state.published[subscribedAt..] == s.published[subscribedAt..] + [m];
    FilterAppend(s.published[subscribedAt..], [m], (x: Message) => ForRoom(x, subscribed));
    assert Filter([m], (x: Message) => ForRoom(x, subscribed)) == if subscribed == roomId then [m] else [] by {
      var f := Filter([m], (x: Message) => ForRoom(x, subscribed));
      assert |f| <= 1;
      if subscribed == roomId {
        assert m in f;
      }
    }
  }

  /** A failed send publishes nothing. */
  lemma FailedSendIsSilent(s: State, userId: Option<int>, content: string, roomId: int, now: int,
                           subscribedAt: nat, subscribed: int)
    requires SendMessageStep(s, userId, content, roomId, now).result.Err?
    requires subscribedAt <= |s.published|
    ensures Delivered(SendMessageStep(s, userId, content, roomId, now).state.published, subscribedAt, subscribed)
         == Delivered(s.published, subscribedAt, subscribed)
  {
  }

  /** A sent message is listed among its room's messages. */
  lemma SendThenListed(s: State, userId: Option<int>, content: string, roomId: int, now: int)
    requires SendMessageStep(s, userId, content, roomId, now).result.Ok?
    ensures var o := SendMessageStep(s, userId, content, roomId, now);
      Messages(o.state, userId, roomId).Ok? && o.result.value in Messages(o.state, userId, roomId).value
  {
    var o := SendMessageStep(s, userId, content, roomId, now);
    assert o.result.value in o.state.messages;
  }

  /** The `Message.user` and `Message.room` fields: author and room rows. */
  function MessageUser(users: seq<User>, parent: Message): (r: Option<User>)
    ensures r.Some? ==> r.value in users && r.value.id == parent.userId
    ensures r.None? <==> !UserExists(users, parent.userId)
  {
    FindUser(users, parent.userId)
  }

  function MessageRoom(rooms: seq<ChatRoom>, parent: Message): (r: Option<ChatRoom>)
    ensures r.Some? ==> r.value in rooms && r.value.id == parent.roomId
    ensures r.None? <==> !RoomExists(rooms, parent.roomId)
  {
    FindRoom(rooms, parent.roomId)
  }

  /** Creating a room keeps the database consistent. */
  lemma CreateChatRoomConsistent(s: State, userId: Option<int>, name: string, now: int)
    requires Consistent(s)
    ensures Consistent(CreateChatRoomStep(s, userId, name, now).state)
  {
    var o := CreateChatRoomStep(s, userId, name, now);
    if o.result.Ok? {
      var rooms := o.state.rooms;
      assert forall c :: c in rooms <==> c in s.rooms || c == o.result.value;
      forall id | RoomExists(s.rooms, id)
        ensures RoomExists(rooms, id)
      {
        var c :| c in s.rooms && c.id == id;
        assert c in rooms;
      }
    }
  }

  /** Sending a message keeps the database consistent. */
  lemma SendMessageConsistent(s: State, userId: Option<int>, content: string, roomId: int, now: int)
    requires Consistent(s)
    ensures Consistent(SendMessageStep(s, userId, content, roomId, now).state)
  {
    var o := SendMessageStep(s, userId, content, roomId, now);
    if o.result.Ok? {
      assert forall m :: m in o.state.messages <==> m in s.messages || m == o.result.value;
    }
  }

  /** In a consistent database every message's author and room resolve. */
  lemma MessageFieldsResolve(s: State, m: Message)
    requires Consistent(s) && m in s.messages
    ensures MessageUser(s.users, m).Some? && MessageRoom(s.rooms, m).Some?
  {
  }

  /** The `createChatRoom` resolver against the live database. */
  method CreateChatRoom(db: Store, userId: Option<int>, name: string, now: int) returns (r: Result<ChatRoom>)
    requires db.Valid()
    modifies db
    ensures db.Valid()
    ensures db.Snapshot() == old(CreateChatRoomStep(db.Snapshot(), userId, name, now)).state
    ensures r == old(CreateChatRoomStep(db.Snapshot(), userId, name, now)).result
  {
    CreateChatRoomConsistent(db.Snapshot(), userId, name, now);
    if !LoggedIn(userId) {
      return Err(AUTH_REQUIRED);
    }
    var c := ChatRoom(db.nextRoomId, name, now);
    db.rooms := db.rooms + [c];
    db.nextRoomId := db.nextRoomId + 1;
    r := Ok(c);
  }

  /** The `sendMessage` resolver against the live database: the message is
      stored, then published. */
  method SendMessage(db: Store, userId: Option<int>, content: string, roomId: int, now: int) returns (r: Result<Message>)
    requires db.Valid()
    modifies db
    ensures db.Valid()
    ensures db.Snapshot() == old(SendMessageStep(db.Snapshot(), userId, content, roomId, now)).state
    ensures r == old(SendMessageStep(db.Snapshot(), userId, content, roomId, now)).result
  {
    SendMessageConsistent(db.Snapshot(), userId, content, roomId, now);
    if !LoggedIn(userId) {
      return Err(AUTH_REQUIRED);
    }
    if FindRoom(db.rooms, roomId).None? {
      return Err(ROOM_NOT_FOUND);
    }
    if FindUser(db.users, userId.value).None? {
      return Err(WRITE_REJECTED);
    }
    var m := Message(db.nextMessageId, content, now, userId.value, roomId);
    db.messages := db.messages + [m];
    db.nextMessageId := db.nextMessageId + 1;
    db.published := db.published + [m];
    r := Ok(m);
  }
}
