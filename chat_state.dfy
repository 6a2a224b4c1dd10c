/**
 The values held by the chat store: the signed-in user, the joined rooms with
 their message threads, and the last visited route, together with the actions
 the store understands.
 */
module ChatState {

  datatype Option<+T> = None | Some(value: T)

  datatype Result<+R, +E> = Ok(value: R) | Err(error: E)

  /** The user of this browser tab; the icon is an opaque image reference. */
  datatype User = User(name: string, icon: string)

  /**
   A message of a room's thread. `isMyMessage` is present only on messages this
   client sent itself; messages received from the server do not carry the field.
   Dates are millisecond timestamps, kept as plain integers.
   */
  datatype Message = Message(author: string, text: string, date: int, icon: string,
                             isMyMessage: Option<bool>)

  /** A joined room; `messages` stays absent until the first message is appended. */
  datatype Room = Room(name: string, hash: string, messages: Option<seq<Message>>)

  /** The whole store: `user` and `prevUrl` are absent (null) until they are set. */
  datatype State = State(user: Option<User>, rooms: seq<Room>, prevUrl: Option<string>)

  /** The six action kinds of the reducer, and any other action type. */
  datatype Action =
    | CreateUser(name: string, icon: string)
    | CreateRoom(name: string, hash: string)
    | LeaveRoom(remaining: seq<Room>)
    | SendMessage(roomId: string, author: string, text: string, date: int, icon: string,
                  isMyMessage: bool)
    | SavePrevUrl(id: string)
    | SaveMessage(roomId: string, author: string, text: string, date: int, icon: string)
    | Unrecognised(kind: string)
  {
    predicate IsMessageAction() {
      SendMessage? || SaveMessage?
    }
  }

  /** Indexing `rooms` with the "not found" index -1 is a TypeError in the store. */
  datatype Error = NoRoomWithHash(roomId: string)

  /** The messages of a room, an absent thread read as the empty one. */
  function MessagesOf(room: Room): seq<Message> {
    match room.messages
    case None => []
    case Some(ms) => ms
  }

  /**
   The store's initial state, built from what the tab's session storage held
   under "user" and "rooms" (None when nothing, or null, was stored).
   */
  function InitialState(storedUser: Option<User>, storedRooms: Option<seq<Room>>): (s: State)
    ensures s.user == storedUser && s.prevUrl == None
    ensures storedRooms == None ==> s.rooms == []
    ensures storedRooms.Some? ==> s.rooms == storedRooms.value
  {
    var rooms := if storedRooms.Some? then storedRooms.value else [];
    State(storedUser, rooms, None)
  }
}
