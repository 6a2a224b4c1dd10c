/**
 The two message actions as the store runs them: the state's rooms are
 objects, the reducer copies the array of rooms (a shallow copy, so the copy
 holds the same room objects) and assigns the found room's `messages` field
 in place. The previous state therefore sees the new message too.
 */
module ChatHeap {
  import opened ChatState
  import ChatReducer

  /** A room object; only its `messages` field is ever assigned. */
  class RoomCell {
    const name: string
    const hash: string
    var messages: Option<seq<Message>>

    constructor (name: string, hash: string, messages: Option<seq<Message>>)
      ensures this.name == name && this.hash == hash && this.messages == messages
    {
      this.name := name;
      this.hash := hash;
      this.messages := messages;
    }

    /** The room this object holds right now. */
    function Value(): Room
      reads this
    {
      Room(name, hash, messages)
    }
  }

  /** The store's state with its rooms as references to room objects. */
  datatype HeapState = HeapState(user: Option<User>, rooms: seq<RoomCell>, prevUrl: Option<string>)

  /** The rooms the objects `cells` hold right now. */
  function RoomValues(cells: seq<RoomCell>): seq<Room>
    reads cells
  {
    seq(|cells|, i requires 0 <= i < |cells| reads cells => cells[i].Value())
  }

  /** The state `s` describes right now, as a value. */
  function Snapshot(s: HeapState): State
    reads s.rooms
  {
    State(s.user, RoomValues(s.rooms), s.prevUrl)
  }

  /** No room object occurs twice in `cells`. */
  predicate Distinct(cells: seq<RoomCell>) {
    forall i, j :: 0 <= i < j < |cells| ==> cells[i] != cells[j]
  }

  /** `findIndex` over the room objects: a left-to-right scan for the first hash equal to `roomId`. */
  method FindIndex(rooms: seq<RoomCell>, roomId: string) returns (index: int)
    ensures -1 <= index < |rooms|
    ensures index == -1 <==> forall j :: 0 <= j < |rooms| ==> rooms[j].hash != roomId
    ensures 0 <= index ==> rooms[index].hash == roomId
    ensures forall j :: 0 <= j < index ==> rooms[j].hash != roomId
    ensures index == ChatReducer.FindIndex(RoomValues(rooms), roomId)
  {
    var k := 0;
    while k < |rooms|
      invariant 0 <= k <= |rooms|
      invariant forall j :: 0 <= j < k ==> rooms[j].hash != roomId
    {
      if rooms[k].hash == roomId {
        index := k;
        ChatReducer.FindIndexIsFirstMatch(RoomValues(rooms), roomId, k);
        return;
      }
      k := k + 1;
    }
    index := -1;
  }

  /**
   The lookup-and-append of both message actions, as written: the found room
   object's `messages` is replaced by the old thread (or nothing) plus `m`.
   The new state holds the very same room objects as `s`, and when no room
   object occurs twice it describes what the reducer over values computes.
   */
  method AppendMessage(s: HeapState, roomId: string, m: Message) returns (r: Result<HeapState, Error>)
    modifies s.rooms
    ensures r.Err? <==> forall j :: 0 <= j < |s.rooms| ==> s.rooms[j].hash != roomId
    ensures r.Err? ==> r.error == NoRoomWithHash(roomId) && Snapshot(s) == old(Snapshot(s))
    ensures r.Ok? ==> r.value == s
    ensures r.Ok? ==>
      var i := ChatReducer.FindIndex(old(RoomValues(s.rooms)), roomId);
      && 0 <= i < |s.rooms|
      && s.rooms[i].messages == Some(MessagesOf(old(s.rooms[i].Value())) + [m])
      && forall j :: 0 <= j < |s.rooms| && s.rooms[j] != s.rooms[i] ==>
           s.rooms[j].messages == old(s.rooms[j].messages)
    ensures r.Ok? && Distinct(s.rooms) ==>
      Snapshot(r.value) == ChatReducer.AppendMessage(old(Snapshot(s)), roomId, m).value
    ensures r.Ok? ==> Snapshot(s) != old(Snapshot(s))
  {
    var index := FindIndex(s.rooms, roomId);
    if index == -1 {
      return Err(NoRoomWithHash(roomId));
    }
    ghost var before := Snapshot(s);
    var newRooms := s.rooms;
    var room := newRooms[index];
    ghost var thread := MessagesOf(room.Value()) + [m];
    assert room.messages.None? ==> thread == [m];
    room.messages := if room.messages.Some? then Some(room.messages.value + [m]) else Some([m]);
    r := Ok(s.(rooms := newRooms));
    assert room.messages == Some(thread);
    assert |MessagesOf(RoomValues(s.rooms)[index])| != |MessagesOf(before.rooms[index])|;
    if Distinct(s.rooms) {
      var expected := ChatReducer.AppendMessage(before, roomId, m).value;
      assert RoomValues(s.rooms) == expected.rooms;
    }
  }

  /**
   The lookup-and-append done without touching the input: the found room is
   replaced by a fresh object carrying the longer thread, the other entries
   keep their objects, and nothing `s` refers to changes.
   */
  method AppendMessageCopying(s: HeapState, roomId: string, m: Message) returns (r: Result<HeapState, Error>)
    ensures r.Err? <==> forall j :: 0 <= j < |s.rooms| ==> s.rooms[j].hash != roomId
    ensures r.Err? ==> r.error == NoRoomWithHash(roomId)
    ensures r.Ok? ==>
      var i := ChatReducer.FindIndex(RoomValues(s.rooms), roomId);
      && 0 <= i < |s.rooms|
      && |r.value.rooms| == |s.rooms|
      && fresh(r.value.rooms[i])
      && forall j :: 0 <= j < |s.rooms| && j != i ==> r.value.rooms[j] == s.rooms[j]
    ensures r.Ok? ==> Snapshot(r.value) == ChatReducer.AppendMessage(Snapshot(s), roomId, m).value
    ensures Snapshot(s) == old(Snapshot(s))
  {
    var index := FindIndex(s.rooms, roomId);
    if index == -1 {
      return Err(NoRoomWithHash(roomId));
    }
    var room := s.rooms[index];
    var thread := if room.messages.Some? then room.messages.value + [m] else [m];
    var copy := new RoomCell(room.name, room.hash, Some(thread));
    r := Ok(s.(rooms := s.rooms[index := copy]));
    var expected := ChatReducer.AppendMessage(Snapshot(s), roomId, m).value;
    assert RoomValues(r.value.rooms) == expected.rooms;
  }

  /** SEND_MESSAGE over room objects: appends the message with its `isMyMessage` flag. */
  method SendMessage(s: HeapState, roomId: string, author: string, text: string, date: int,
                     icon: string, isMyMessage: bool) returns (r: Result<HeapState, Error>)
    modifies s.rooms
    ensures r.Err? <==> forall j :: 0 <= j < |s.rooms| ==> s.rooms[j].hash != roomId
    ensures r.Err? ==> r.error == NoRoomWithHash(roomId) && Snapshot(s) == old(Snapshot(s))
    ensures r.Ok? ==> r.value == s && Snapshot(s) != old(Snapshot(s))
    ensures r.Ok? ==>
      var i := ChatReducer.FindIndex(old(RoomValues(s.rooms)), roomId);
      && 0 <= i < |s.rooms|
      && s.rooms[i].messages == Some(MessagesOf(old(s.rooms[i].Value())) + [Message(author, text, date, icon, Some(isMyMessage))])
      && forall j :: 0 <= j < |s.rooms| && s.rooms[j] != s.rooms[i] ==>
           s.rooms[j].messages == old(s.rooms[j].messages)
    ensures Distinct(s.rooms) ==>
      var expected := ChatReducer.Reduce(old(Snapshot(s)),
                                         Action.SendMessage(roomId, author, text, date, icon, isMyMessage));
      if r.Ok? then expected == Ok(Snapshot(r.value)) else expected == Err(r.error)
  {
    r := AppendMessage(s, roomId, Message(author, text, date, icon, Some(isMyMessage)));
  }

  /** SAVE_MESSAGE over room objects: appends a received message, without `isMyMessage`. */
  method SaveMessage(s: HeapState, roomId: string, author: string, text: string, date: int,
                     icon: string) returns (r: Result<HeapState, Error>)
    modifies s.rooms
    ensures r.Err? <==> forall j :: 0 <= j < |s.rooms| ==> s.rooms[j].hash != roomId
    ensures r.Err? ==> r.error == NoRoomWithHash(roomId) && Snapshot(s) == old(Snapshot(s))
    ensures r.Ok? ==> r.value == s && Snapshot(s) != old(Snapshot(s))
    ensures r.Ok? ==>
      var i := ChatReducer.FindIndex(old(RoomValues(s.rooms)), roomId);
      && 0 <= i < |s.rooms|
      && s.rooms[i].messages == Some(MessagesOf(old(s.rooms[i].Value())) + [Message(author, text, date, icon, None)])
      && forall j :: 0 <= j < |s.rooms| && s.rooms[j] != s.rooms[i] ==>
           s.rooms[j].messages == old(s.rooms[j].messages)
    ensures Distinct(s.rooms) ==>
      var expected := ChatReducer.Reduce(old(Snapshot(s)),
                                         Action.SaveMessage(roomId, author, text, date, icon));
      if r.Ok? then expected == Ok(Snapshot(r.value)) else expected == Err(r.error)
  {
    r := AppendMessage(s, roomId, Message(author, text, date, icon, None));
  }

  /**
   The state before a SEND_MESSAGE is not left as it was: reading the room of
   the previous state after the dispatch shows the new message.
   */
  method PreviousStateSeesAppend() returns (before: Option<seq<Message>>, after: Option<seq<Message>>)
    ensures before == None
    ensures after == Some([Message("A", "hi", 1000, "i1", Some(true))])
  {
    var room := new RoomCell("R1", "h1", None);
    var previous := HeapState(None, [room], None);
    before := previous.rooms[0].messages;
    var r := SendMessage(previous, "h1", "A", "hi", 1000, "i1", true);
    after := previous.rooms[0].messages;
  }
}
