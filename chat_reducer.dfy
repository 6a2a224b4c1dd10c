/**
 The chat store's reducer over values: every action kind maps the state to a
 new state, and the two message actions fail when no room has the action's
 `roomId` as its hash.
 */
module ChatReducer {
  import opened ChatState

  /** No room of `rooms` has hash `roomId`. */
  ghost predicate NoRoomWith(rooms: seq<Room>, roomId: string) {
    forall j :: 0 <= j < |rooms| ==> rooms[j].hash != roomId
  }

  /**
   The index of the first room whose hash is `roomId`, or -1 when there is
   none: the array's `findIndex` with the predicate `r.hash === roomId`.
   */
  function FindIndex(rooms: seq<Room>, roomId: string): (i: int)
    ensures -1 <= i < |rooms|
    ensures i == -1 <==> NoRoomWith(rooms, roomId)
    ensures 0 <= i ==> rooms[i].hash == roomId
    ensures forall j :: 0 <= j < i ==> rooms[j].hash != roomId
  {
    if |rooms| == 0 then -1
    else if rooms[0].hash == roomId then 0
    else
      var k := FindIndex(rooms[1..], roomId);
      if k == -1 then -1 else k + 1
  }

  /** The first index whose room has hash `roomId` is what `findIndex` returns. */
  lemma FindIndexIsFirstMatch(rooms: seq<Room>, roomId: string, k: nat)
    requires k < |rooms| && rooms[k].hash == roomId
    requires forall j :: 0 <= j < k ==> rooms[j].hash != roomId
    ensures FindIndex(rooms, roomId) == k
  {
  }

  /**
   `t` is `s` with message `m` appended to the thread of room `i` (an absent
   thread read as empty) and with everything else as it was.
   */
  ghost predicate AppendedAt(s: State, t: State, i: int, m: Message) {
    && 0 <= i < |s.rooms|
    && t.user == s.user && t.prevUrl == s.prevUrl
    && |t.rooms| == |s.rooms|
    && t.rooms[i].name == s.rooms[i].name
    && t.rooms[i].hash == s.rooms[i].hash
    && t.rooms[i].messages == Some(MessagesOf(s.rooms[i]) + [m])
    && forall j :: 0 <= j < |s.rooms| && j != i ==> t.rooms[j] == s.rooms[j]
  }

  /**
   The lookup-and-append shared by the two message actions: find the first
   room with hash `roomId` and append `m` to its messages, creating the thread
   when it is absent.
   */
  function AppendMessage(s: State, roomId: string, m: Message): (r: Result<State, Error>)
    ensures r.Err? <==> NoRoomWith(s.rooms, roomId)
    ensures r.Err? ==> r.error == NoRoomWithHash(roomId)
    ensures r.Ok? ==> AppendedAt(s, r.value, FindIndex(s.rooms, roomId), m)
  {
    var i := FindIndex(s.rooms, roomId);
    if i == -1 then Err(NoRoomWithHash(roomId))
    else
      var room := s.rooms[i];
      var thread := match room.messages
        case Some(ms) => ms + [m]
        case None => [m];
      assert thread == MessagesOf(room) + [m];
      Ok(s.(rooms := s.rooms[i := room.(messages := Some(thread))]))
  }

  /** The message a message action appends; only SEND_MESSAGE attaches `isMyMessage`. */
  function MessageOf(a: Action): Message
    requires a.IsMessageAction()
  {
    match a
    case SendMessage(_, author, text, date, icon, mine) => Message(author, text, date, icon, Some(mine))
    case SaveMessage(_, author, text, date, icon) => Message(author, text, date, icon, None)
  }

  /** The reducer: one step of the store for action `a`. */
  function Reduce(s: State, a: Action): (r: Result<State, Error>)
    ensures a.CreateUser? ==>
      r.Ok? && r.value.user == Some(User(a.name, a.icon)) &&
      r.value.rooms == s.rooms && r.value.prevUrl == s.prevUrl
    ensures a.CreateRoom? ==>
      && r.Ok?
      && |r.value.rooms| == |s.rooms| + 1
      && r.value.rooms[..|s.rooms|] == s.rooms
      && r.value.rooms[|s.rooms|] == Room(a.name, a.hash, None)
      && r.value.user == s.user && r.value.prevUrl == s.prevUrl
    ensures a.LeaveRoom? ==>
      r.Ok? && r.value.rooms == a.remaining &&
      r.value.user == s.user && r.value.prevUrl == s.prevUrl
    ensures a.SavePrevUrl? ==>
      r.Ok? && r.value.prevUrl == Some(a.id) &&
      r.value.user == s.user && r.value.rooms == s.rooms
    ensures a.Unrecognised? ==> r == Ok(s)
    ensures a.SendMessage? ==>
      && (r.Err? <==> NoRoomWith(s.rooms, a.roomId))
      && (r.Err? ==> r.error == NoRoomWithHash(a.roomId))
      && (r.Ok? ==> AppendedAt(s, r.value, FindIndex(s.rooms, a.roomId),
                               Message(a.author, a.text, a.date, a.icon, Some(a.isMyMessage))))
    ensures a.SaveMessage? ==>
      && (r.Err? <==> NoRoomWith(s.rooms, a.roomId))
      && (r.Err? ==> r.error == NoRoomWithHash(a.roomId))
      && (r.Ok? ==> AppendedAt(s, r.value, FindIndex(s.rooms, a.roomId),
                               Message(a.author, a.text, a.date, a.icon, None)))
  {
    match a
    case CreateUser(name, icon) => Ok(s.(user := Some(User(name, icon))))
    case CreateRoom(name, hash) => Ok(s.(rooms := s.rooms + [Room(name, hash, None)]))
    case LeaveRoom(remaining) => Ok(s.(rooms := remaining))
    case SendMessage(roomId, _, _, _, _, _) => AppendMessage(s, roomId, MessageOf(a))
    case SavePrevUrl(id) => Ok(s.(prevUrl := Some(id)))
    case SaveMessage(roomId, _, _, _, _) => AppendMessage(s, roomId, MessageOf(a))
    case Unrecognised(_) => Ok(s)
  }

  /**
   The store as Redux drives it: on the first call there is no state yet and
   the reducer starts from `initial`.
   */
  function Dispatch(state: Option<State>, initial: State, a: Action): (r: Result<State, Error>)
    ensures state == None ==> r == Reduce(initial, a)
    ensures state == None && a.Unrecognised? ==> r == Ok(initial)
    ensures state.Some? ==> r == Reduce(state.value, a)
  {
    match state
    case None => Reduce(initial, a)
    case Some(s) => Reduce(s, a)
  }

  /** Dispatching `actions` in order, stopping at the first action that fails. */
  function ReduceAll(s: State, actions: seq<Action>): Result<State, Error>
    decreases |actions|
  {
    if |actions| == 0 then Ok(s)
    else
      match Reduce(s, actions[0])
      case Err(e) => Err(e)
      case Ok(t) => ReduceAll(t, actions[1..])
  }

  /** The CREATE_ROOM actions for rooms with the given names and hashes. */
  function CreateRoomActions(specs: seq<(string, string)>): (acts: seq<Action>)
  {
    if |specs| == 0 then [] else [CreateRoom(specs[0].0, specs[0].1)] + CreateRoomActions(specs[1..])
  }

  /** The rooms that CREATE_ROOM makes for the given names and hashes. */
  function NewRooms(specs: seq<(string, string)>): seq<Room>
  {
    if |specs| == 0 then [] else [Room(specs[0].0, specs[0].1, None)] + NewRooms(specs[1..])
  }

  /** CREATE_ROOM makes one room per name and hash. */
  lemma {:induction false} NewRoomsLength(specs: seq<(string, string)>)
    ensures |NewRooms(specs)| == |specs|
  {
    if |specs| > 0 {
      NewRoomsLength(specs[1..]);
    }
  }

  /** The k-th new room has the k-th name and hash and no messages. */
  lemma {:induction false} NewRoomsAt(specs: seq<(string, string)>, k: nat)
    requires k < |specs|
    ensures |NewRooms(specs)| == |specs|
    ensures NewRooms(specs)[k] == Room(specs[k].0, specs[k].1, None)
  {
    if k == 0 {
      NewRoomsLength(specs);
    } else {
      NewRoomsAt(specs[1..], k - 1);
    }
  }

  /** One CREATE_ROOM step of a run: the first action appends its room. */
  lemma CreateRoomStep(s: State, specs: seq<(string, string)>)
    requires |specs| > 0
    ensures ReduceAll(s, CreateRoomActions(specs))
         == ReduceAll(s.(rooms := s.rooms + [Room(specs[0].0, specs[0].1, None)]),
                      CreateRoomActions(specs[1..]))
  {
  }

  /**
   A run of CREATE_ROOM actions appends one message-less room per action, in
   dispatch order, after the rooms already there.
   */
  lemma {:induction false} CreateRoomsAppendInOrder(s: State, specs: seq<(string, string)>)
    ensures ReduceAll(s, CreateRoomActions(specs)) == Ok(s.(rooms := s.rooms + NewRooms(specs)))
    decreases |specs|
  {
    if |specs| == 0 {
      assert CreateRoomActions(specs) == [];
      assert ReduceAll(s, []) == Ok(s);
      assert s.rooms + NewRooms(specs) == s.rooms;
      assert s.(rooms := s.rooms + NewRooms(specs)) == s;
    } else {
      var rest := specs[1..];
      var r0 := Room(specs[0].0, specs[0].1, None);
      var t := s.(rooms := s.rooms + [r0]);
      CreateRoomStep(s, specs);
      CreateRoomsAppendInOrder(t, rest);
      assert NewRooms(specs) == [r0] + NewRooms(rest);
      assert t.rooms + NewRooms(rest) == s.rooms + NewRooms(specs);
    }
  }

  /**
   After n CREATE_ROOM actions there are n more rooms, and each new room
   carries its action's hash verbatim.
   */
  lemma CreateRoomsCountAndHashes(s: State, specs: seq<(string, string)>)
    ensures ReduceAll(s, CreateRoomActions(specs)).Ok?
    ensures
      var t := ReduceAll(s, CreateRoomActions(specs)).value;
      |t.rooms| == |s.rooms| + |specs| &&
      forall k :: 0 <= k < |specs| ==> t.rooms[|s.rooms| + k].hash == specs[k].1
  {
    CreateRoomsAppendInOrder(s, specs);
    NewRoomsLength(specs);
    forall k | 0 <= k < |specs|
      ensures (s.rooms + NewRooms(specs))[|s.rooms| + k].hash == specs[k].1
    {
      NewRoomsAt(specs, k);
    }
  }

  /** `findIndex` depends only on the hashes of the rooms. */
  lemma FindIndexSeesOnlyHashes(rs: seq<Room>, ts: seq<Room>, roomId: string)
    requires |rs| == |ts|
    requires forall j :: 0 <= j < |rs| ==> rs[j].hash == ts[j].hash
    ensures FindIndex(rs, roomId) == FindIndex(ts, roomId)
  {
  }

  /**
   Two message actions for the same room, dispatched one after the other,
   both land in that room, and its thread ends with the two messages in
   dispatch order.
   */
  lemma TwoAppendsKeepDispatchOrder(s: State, a1: Action, a2: Action)
    requires a1.IsMessageAction() && a2.IsMessageAction()
    requires a1.roomId == a2.roomId
    requires !NoRoomWith(s.rooms, a1.roomId)
    ensures Reduce(s, a1).Ok?
    ensures Reduce(Reduce(s, a1).value, a2).Ok?
    ensures
      var i := FindIndex(s.rooms, a1.roomId);
      var t := Reduce(Reduce(s, a1).value, a2).value;
      t.rooms[i].messages == Some(MessagesOf(s.rooms[i]) + [MessageOf(a1), MessageOf(a2)])
  {
    var i := FindIndex(s.rooms, a1.roomId);
    var t1 := Reduce(s, a1).value;
    assert AppendedAt(s, t1, i, MessageOf(a1));
    FindIndexSeesOnlyHashes(s.rooms, t1.rooms, a1.roomId);
    var t2 := Reduce(t1, a2).value;
    assert AppendedAt(t1, t2, i, MessageOf(a2));
    assert MessagesOf(t1.rooms[i]) == MessagesOf(s.rooms[i]) + [MessageOf(a1)];
    assert MessagesOf(s.rooms[i]) + [MessageOf(a1)] + [MessageOf(a2)]
        == MessagesOf(s.rooms[i]) + [MessageOf(a1), MessageOf(a2)];
  }

  /**
   A message action picks the first room with the hash: when hashes are
   unique, that is the one room with the hash.
   */
  lemma AppendTargetsTheRoomWithTheHash(rooms: seq<Room>, roomId: string, k: nat)
    requires k < |rooms| && rooms[k].hash == roomId
    requires forall i, j :: 0 <= i < j < |rooms| ==> rooms[i].hash != rooms[j].hash
    ensures FindIndex(rooms, roomId) == k
  {
  }

  /**
   A session from nothing: set the user, create room "R1", then send "hi"
   to it; the room's thread is that one message, flagged as this client's.
   */
  lemma FirstSessionScenario()
    ensures
      var s0 := InitialState(None, None);
      var acts := [CreateUser("A", "i1"), CreateRoom("R1", "h1"),
                   SendMessage("h1", "A", "hi", 1000, "i1", true)];
      var r := ReduceAll(s0, acts);
      && r.Ok?
      && r.value.user == Some(User("A", "i1"))
      && r.value.rooms == [Room("R1", "h1", Some([Message("A", "hi", 1000, "i1", Some(true))]))]
  {
  }
}
