# Chat store reducer

A Dafny model of the client-side chat store of a real-time chat application.
The store holds the signed-in user, the joined rooms (each with its message
thread) and the last visited route. A reducer maps the state and an action to
the next state. There are six action kinds:

- CREATE_USER replaces the user.
- CREATE_ROOM appends a room.
- LEAVE_ROOM replaces the room list.
- SEND_MESSAGE appends a message this client sent; the message carries `isMyMessage`.
- SAVE_MESSAGE appends a message received from the server, without `isMyMessage`.
- SAVE_PREV_URL records the last visited route.

Any other action leaves the state as it is.

The project has three modules:

- `ChatState` (`chat_state.dfy`) holds the values: users, messages, rooms, the state and the actions. It also builds the initial state from what session storage held.
- `ChatReducer` (`chat_reducer.dfy`) is the reducer over values: every arm, the `findIndex` lookup by hash, and lemmas about runs of actions.
- `ChatHeap` (`chat_heap.dfy`) models the two message arms as the store runs them. Rooms are objects there. The array of rooms is copied shallowly and the found room's `messages` field is assigned in place. The methods are proved against the reducer over values.

A message action whose `roomId` matches no room makes `findIndex` return -1. The store then reads `messages` of `undefined` and throws a TypeError. The model returns `Err(NoRoomWithHash(roomId))` in that case, not a silent no-op, because the code throws before any assignment.

## Model

| member | source | states |
|---|---|---|
| ChatState.InitialState | src/state/chat/reducers.js:3-10 | the initial state holds the stored user and no previous route; absent stored rooms become the empty list, stored rooms are kept |
| ChatReducer.FindIndex | src/state/chat/reducers.js:32 | the result is -1 exactly when no room has the hash; otherwise it is an index whose room has the hash and no earlier room has it |
| ChatReducer.FindIndexIsFirstMatch | src/state/chat/reducers.js:60 | any index that holds the hash with no earlier match is the index the lookup returns |
| ChatReducer.AppendMessage | src/state/chat/reducers.js:32-54 | fails with NoRoomWithHash exactly when no room matches; otherwise the first matching room's thread becomes its old thread (empty if absent) plus the message, its name and hash stay, every other room, the user and prevUrl are unchanged, and the room count is the same |
| ChatReducer.Reduce | src/state/chat/reducers.js:12-86 | per action: CREATE_USER sets the user to exactly the payload's name and icon; CREATE_ROOM keeps the old rooms as a prefix and adds one message-less room with the payload's name and hash; LEAVE_ROOM sets the rooms to the payload; SEND_MESSAGE and SAVE_MESSAGE append at the first matching room, with and without isMyMessage, or fail when none matches; SAVE_PREV_URL sets only prevUrl; any other action returns the state unchanged |
| ChatReducer.Dispatch | src/state/chat/reducers.js:12 | with no state yet every action is reduced from the initial state (so an unrecognised action yields the initial state); with a state, the action is reduced from it |
| ChatReducer.CreateRoomsAppendInOrder | src/state/chat/reducers.js:17-26 | a run of CREATE_ROOM actions appends one message-less room per action after the existing rooms, in dispatch order |
| ChatReducer.CreateRoomsCountAndHashes | src/state/chat/reducers.js:17-26 | after n CREATE_ROOM actions there are exactly n more rooms, and each new room carries its action's hash verbatim |
| ChatReducer.NewRoomsLength | src/state/chat/reducers.js:21-24 | each CREATE_ROOM payload gives exactly one room |
| ChatReducer.NewRoomsAt | src/state/chat/reducers.js:21-24 | the k-th room created has the k-th payload's name and hash and no messages |
| ChatReducer.FindIndexSeesOnlyHashes | src/state/chat/reducers.js:32 | two room lists with the same hashes at every index give the same lookup result, so appending a message never moves the target room |
| ChatReducer.TwoAppendsKeepDispatchOrder | src/state/chat/reducers.js:36-52 | two message actions for one existing room both succeed, and the room's thread becomes its old thread followed by the first and then the second message |
| ChatReducer.AppendTargetsTheRoomWithTheHash | src/state/chat/reducers.js:60 | when hashes are unique, a message action targets the one room carrying its roomId |
| ChatReducer.FirstSessionScenario | src/state/chat/reducers.js:14-55 | from an empty session, CREATE_USER A, CREATE_ROOM R1/h1 and SEND_MESSAGE "hi" to h1 give user A and one room whose thread is that message, flagged as this client's |
| ChatHeap.FindIndex | src/state/chat/reducers.js:32 | the left-to-right scan over room objects returns the first index with the hash, or -1 when there is none, and agrees with the lookup over values |
| ChatHeap.AppendMessage | src/state/chat/reducers.js:32-54 | fails exactly when no room object has the hash, changing nothing; otherwise it assigns the first matching object's thread to old thread plus message, leaves every other object's thread alone, and returns a state holding the same room objects, so the input state changes too; with no object listed twice the new state is what the reducer over values computes |
| ChatHeap.AppendMessageCopying | src/state/chat/reducers.js:61-64 | the same lookup and append, but the matching room is replaced by a fresh object; every other entry keeps its object, the input state is left as it was, and the result is what the reducer over values computes, aliases or not |
| ChatHeap.SendMessage | src/state/chat/reducers.js:31-55 | SEND_MESSAGE over room objects fails with NoRoomWithHash exactly when no room matches, changing nothing; on success the first matching object's thread becomes its old thread plus the message with isMyMessage, every other object's thread stays, the returned state holds the same objects so the input state changes too, and with distinct room objects the outcome matches Reduce on the SEND_MESSAGE action |
| ChatHeap.SaveMessage | src/state/chat/reducers.js:59-81 | SAVE_MESSAGE over room objects: the same as SendMessage (failure changes nothing, success appends at the first match and leaves other objects alone), with a message that has no isMyMessage |
| ChatHeap.PreviousStateSeesAppend | src/state/chat/reducers.js:33-36 | a room of the previous state with no thread shows the new message after a SEND_MESSAGE to it |

## Left out

- Reading session storage (`sessionStorage.getItem` with `JSON.parse`): the stored user and rooms are parameters of `InitialState`. Only the default of the rooms to `[]` is modelled.
- The `debugger` statement in the LEAVE_ROOM arm has no effect on the state.
- Action creators, action type constants and thunk operations are not part of this model. Payload shapes follow the reducer's field reads. Actions are a datatype, so a payload cannot lack a field. JavaScript would copy an `undefined` in that case.
- Dates are plain integers and icons opaque strings; no time arithmetic happens in the reducer.
- LEAVE_ROOM, CREATE_ROOM, CREATE_USER and SAVE_PREV_URL are modelled on values only. They build new records and change no object.
- src/views/components/mainContent/MainContent.jsx is not part of this model. It covers socket events, the typing debounce timer, routing, form reset and markup; all of that is I/O, timing or UI. Its current-room lookup is the same first-match-by-hash search as `FindIndex`.
- Redux's identity check on an unchanged state is modelled as value equality (`Reduce(s, a) == Ok(s)`); reference identity is not modelled.

## Findings

| source | as written | input that shows it | evidently intended | confidence | as-written member | corrected member |
|---|---|---|---|---|---|---|
| src/state/chat/reducers.js:33-36 | the message arms copy the rooms array shallowly and then assign `messages` on the room object the previous state also holds, so the previous state is changed | a state with one room `h1` whose messages are absent, then SEND_MESSAGE to `h1`: the previous state's room now has the message | a reducer that leaves its input untouched and builds a fresh room object for the changed room | medium, not executed | ChatHeap.AppendMessage | ChatHeap.AppendMessageCopying |
