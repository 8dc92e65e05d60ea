# Video call signaling, modelled in Dafny

The application is a browser video call for a handful of people. Each pair of
participants has its own peer-to-peer connection (a full mesh). A small
Flask-SocketIO relay keeps track of who is in which room and forwards opaque
signaling payloads between sessions. Two sequential state machines drive it,
and this project models both:

- **The relay's room registry** (`video_call_app/app.py`), in `room_server.dfy`.
  The global `rooms` dict maps a room id to its participant list and creator.
  The `create-room`, `join-room`, `leave-room`, `disconnect` and `signal`
  handlers change it and emit events. `SignalingServer` holds the dict as a
  map, plus the insertion order that Python iterates it in, plus an outbox
  that records every `emit` with its target. The pure functions `Joined`,
  `DropMember`, `VisitRoom` and `DisconnectFrom` say what a handler does to
  the registry. The handler methods are proved equal to them, and the lemmas
  state what that means: rooms are deleted exactly when they empty, a leave
  undoes a join, and a disconnect has a fixed effect on each room.
- **The call page's peer mesh** (`video_call_app/static/js/call.js`), in
  `call_client.dfy`. The `Call` class holds the module-level state: the
  `peers` table, the local and screen streams, the sharing and enable flags,
  the status line and the socket outbox. Its methods are the socket, button
  and page handlers. `MediaTrack` and `Peer` are classes because the page
  changes them in place: a track's `enabled` flag and ended state; a peer's
  senders, the payloads given to it, its local description and whether it
  was destroyed.
- `wire.dfy` holds the event vocabulary both sides share.

Inputs the code only awaits or receives are parameters. These are the results
of `getUserMedia` and `getDisplayMedia` (`None` when they reject), the
generated room id, the caller's `request.sid`, the offer that `createOffer()`
returns, and whether a peer-library call throws (`peerThrows`).

Some behaviours of the code look unintended. The model keeps them as written:

- A newly joined session and every session already present both create
  *initiator* records for each other. The new session also sends each of them
  a `new-peer` request. No tie-break is applied.
- Clicking share while already sharing stops sharing. It does not do nothing.
- A session that joins while the screen is shared is sent the camera track,
  not the screen track (`JoinWhileSharing`).
- A peer's `error` event is only logged. The record stays in the table.
- `user-joined` overwrites an existing record without destroying it.
- Ending the call navigates to '/', which fires the page's own `beforeunload`
  listener. So `leave-room` is sent twice (`EndCallThenUnload`). For a
  session that joined the same room twice, the second one removes the
  second copy (`DuplicateJoinSurvivesLeave`).
- The relay announces a disconnect as `user-disconnected`. The page has no
  listener for that event, so the departed session's record stays in every
  other page's table (`Call.Receive`).

## Model

| member | source | states |
|---|---|---|
| `RoomServer.RemoveFirst` | video_call_app/app.py:79 | `list.remove` cuts out the first occurrence of the caller (no earlier position holds it) and keeps the other participants in their order; the length drops by one and the multiset loses one copy |
| `RoomServer.RemoveFirstKeepsOthers` | video_call_app/app.py:70-79 | after a removal, the ordered list of everybody but the removed session (what a later `existing-participants` reply is built from) is unchanged |
| `RoomServer.OthersSkip` | video_call_app/app.py:70-79 | removing one occurrence of a session leaves the ordered list of everybody else unchanged |
| `RoomServer.Others` | video_call_app/app.py:70 | the `existing-participants` list never contains the caller and keeps every other member with its multiplicity |
| `RoomServer.OthersAfterJoin` | video_call_app/app.py:63-71 | the reply to a join equals the pre-join list minus the caller, in order; if the caller was not yet a member, it is the whole pre-join list |
| `RoomServer.Without` | video_call_app/app.py:83 | `del rooms[id]` removes that key from the iteration order, keeps every other key and keeps the order duplicate-free; deleting an absent key changes nothing |
| `RoomServer.WithoutAt` | video_call_app/app.py:83 | in a duplicate-free order, deleting the key at position `i` cuts out exactly that position, so the other keys keep their relative order |
| `RoomServer.Joined` | video_call_app/app.py:64 | a join appends the caller at the end without a duplicate check (the room's multiset gains one copy); the creator and all other rooms are unchanged, no key is added or removed |
| `RoomServer.DropMember` | video_call_app/app.py:79-83 | removing a member deletes the room exactly when it had one participant, otherwise removes the first occurrence; other rooms are untouched; the key order is kept, or loses only that key on deletion; the registry stays well formed |
| `RoomServer.VisitRoom` | video_call_app/app.py:35-42 | one iteration of the disconnect loop touches only the room it visits, keeps the key order unless it deletes that room (then only that key leaves the order), and keeps the registry well formed |
| `RoomServer.DisconnectFrom` | video_call_app/app.py:34-42 | walking the snapshot of room ids keeps the registry well formed and never adds a room |
| `RoomServer.Keep` | video_call_app/app.py:34-42 | the entries of an order that survive, in that order |
| `RoomServer.DisconnectOrder` | video_call_app/app.py:34-42 | after a disconnect the surviving room ids are the old ones in their old dict order, so later walks see the same order minus the deleted rooms |
| `RoomServer.DisconnectRoom` | video_call_app/app.py:34-42 | after a disconnect: a room holding the caller lost one occurrence and was deleted exactly when that emptied it; every other room is untouched; no room appears |
| `RoomServer.DisconnectNotices` | video_call_app/app.py:40-42 | a disconnect emits `user-disconnected`, in dict order, to exactly the rooms that held the caller and someone else before it started |
| `RoomServer.DisconnectRemovesSingleMembership` | video_call_app/app.py:34-39 | a session listed at most once per room is in no room after its disconnect |
| `RoomServer.RemoveAppended` | video_call_app/app.py:64-79 | removing a session just appended to a list that did not hold it gives the list back |
| `RoomServer.LeaveEmptiesRoom` | video_call_app/app.py:64-83 | joining an empty room and leaving it deletes the room, leaves every other room as it was, and drops only that key from the dict order |
| `RoomServer.LeaveRestoresRoom` | video_call_app/app.py:64-83 | joining a non-empty room as a new member and leaving it gives back the same registry, key order included |
| `RoomServer.LeaveUndoesJoin` | video_call_app/app.py:63-83 | a leave right after a session's first join restores the registry, except that a room that was empty before the join is deleted (only its key leaves the dict order) |
| `RoomServer.DuplicateJoinSurvivesLeave` | video_call_app/app.py:64-79 | a session that joined twice is still a participant after one leave |
| `RoomServer.SignalingServer.constructor` | video_call_app/app.py:12 | the registry starts empty and nothing has been emitted |
| `RoomServer.SignalingServer.CreateRoom` | video_call_app/app.py:44-52 | inserts (or overwrites) the room with no participants and the caller as creator, appends a new key to the dict order, and sends `room-created` to the caller |
| `RoomServer.SignalingServer.JoinRoom` | video_call_app/app.py:54-71 | an unknown room gets `error` 'Room not found' and leaves the registry unchanged; otherwise the caller is appended, `user-joined` goes to the room except the caller, and the caller gets the pre-join members other than itself |
| `RoomServer.SignalingServer.Drop` | video_call_app/app.py:79-83 | the in-place remove-then-delete step equals `DropMember` and reports whether the room was deleted |
| `RoomServer.SignalingServer.LeaveRoom` | video_call_app/app.py:73-86 | does nothing unless the room exists and lists the caller; otherwise equals `DropMember`, and sends `user-left` to the room only if the room survives |
| `RoomServer.SignalingServer.Visit` | video_call_app/app.py:35-42 | one pass of the disconnect loop removes the caller from that room and notifies the room only if it survives, exactly as `VisitRoom` says |
| `RoomServer.SignalingServer.Disconnect` | video_call_app/app.py:29-42 | the loop that mutates the dict while walking a snapshot of it ends in the state and emits that `DisconnectFrom` gives |
| `RoomServer.SignalingServer.Signal` | video_call_app/app.py:88-96 | forwards the payload unchanged to `to`, stamped `from` the caller, with no membership check and no change to the rooms |
| `CallClient.FirstOfKind` | video_call_app/static/js/call.js:222 | the index of the first track of the kind, with no earlier track of that kind |
| `CallClient.TrackOf` | video_call_app/static/js/call.js:222 | `getVideoTracks()[0]` is absent exactly when the stream has no track of that kind; otherwise it is a track of the stream of that kind |
| `CallClient.SendersFor` | video_call_app/static/js/call.js:82-86 | one sender per local track, in track order |
| `CallClient.ReplaceVideo` | video_call_app/static/js/call.js:260-264 | after the substitution every video sender sends the new track, no sender changes kind, and non-video senders are untouched |
| `CallClient.ReplaceVideoLastWins` | video_call_app/static/js/call.js:264-297 | two substitutions in a row equal the last one alone |
| `CallClient.ShareThenRestore` | video_call_app/static/js/call.js:250-307 | sharing and then restoring the camera gives every sender back the track it had, provided all video senders were on the camera |
| `CallClient.AttachedVideoIsCamera` | video_call_app/static/js/call.js:82-86 | with one video track in the local stream, every video sender a new record gets sends the camera track |
| `CallClient.NewPeerRequests` | video_call_app/static/js/call.js:117-121 | exactly one `new-peer` signal per listed session, addressed to it, in list order |
| `CallClient.Peer.constructor` | video_call_app/static/js/call.js:161-186 | a new record closes over the session id and the role, sends nothing yet, has been given no payload and is live |
| `CallClient.Peer.ReplaceVideoTrack` | video_call_app/static/js/call.js:260-264 | the sender loop leaves the peer's senders equal to `ReplaceVideo` of the old ones |
| `CallClient.AttachTracks` | video_call_app/static/js/call.js:82-86 | the `addTrack` loop appends one sender per track, in order |
| `CallClient.StopAll` | video_call_app/static/js/call.js:315-321 | every track of the list is stopped |
| `CallClient.DestroyAll` | video_call_app/static/js/call.js:71 | every peer of the set is destroyed |
| `CallClient.ReplaceVideoOnAll` | video_call_app/static/js/call.js:260-264 | every peer's senders become `ReplaceVideo` of its old senders |
| `CallClient.Call.constructor` | video_call_app/static/js/call.js:21-27 | no streams, not sharing, camera and microphone flags on, empty table |
| `CallClient.Call.InitializeCall` | video_call_app/static/js/call.js:38-57 | `join-room` is emitted, and the status set to Connected, only when media capture succeeded; on failure nothing is emitted, the old stream is kept and the status is Media Error |
| `CallClient.Call.OnDisconnect` | video_call_app/static/js/call.js:66-73 | every record is destroyed, the table is emptied and the status is Disconnected |
| `CallClient.Call.OnUserJoined` | video_call_app/static/js/call.js:75-87 | stores a new initiator record with one sender per local track (none without a local stream); other entries are unchanged and a replaced record is not destroyed |
| `CallClient.Call.OnUserLeft` | video_call_app/static/js/call.js:89-101 | destroys and removes the record if present; otherwise the table is unchanged; no other record is destroyed |
| `CallClient.Call.OnExistingParticipants` | video_call_app/static/js/call.js:103-123 | every listed session gets a new initiator record with the local tracks; unlisted entries are unchanged; exactly one `new-peer` request per listed session is emitted, in list order |
| `CallClient.Call.OnSignal` | video_call_app/static/js/call.js:125-154 | the sender always has a record afterwards (a new one is a non-initiator with no senders); offer, answer and candidate payloads are passed on unchanged; `new-peer` sets and emits the offer back to the sender; other types, and library failures, change nothing further |
| `CallClient.Call.OnPeerSignal` | video_call_app/static/js/call.js:169-174 | handshake data a record produces is sent to the id its handler closed over |
| `CallClient.Call.ToggleVideo` | video_call_app/static/js/call.js:219-232 | with a camera track the flag flips and the track's `enabled` becomes the new flag; without one nothing changes; senders are untouched |
| `CallClient.Call.ToggleAudio` | video_call_app/static/js/call.js:234-247 | the same for the microphone track and flag |
| `CallClient.Call.StopScreenSharing` | video_call_app/static/js/call.js:284-307 | a no-op while there is no screen stream; otherwise the screen tracks are stopped, every video sender goes back to the camera track if there is one, sharing is cleared, and `screenStream` keeps its value |
| `CallClient.Call.ShareScreen` | video_call_app/static/js/call.js:249-282 | when not sharing: a failed capture changes nothing, a successful one stores the stream, puts the screen track on every video sender and sets sharing; when sharing: it behaves as `StopScreenSharing` |
| `CallClient.Call.EndCall` | video_call_app/static/js/call.js:309-328 | emits `leave-room`, stops every local and screen track and destroys every record, which all stay in the table |
| `CallClient.Call.BeforeUnload` | video_call_app/static/js/call.js:407-420 | emits `leave-room` and stops every local and screen track, but destroys no record |
| `CallClient.Call.Receive` | video_call_app/static/js/call.js:75-158 | `user-disconnected`, `room-created` and `error` leave the table, the records and the outbox unchanged |
| `CallClient.ToggleVideoTwice` | video_call_app/static/js/call.js:220-232 | two clicks restore the flag, leave the camera enabled exactly as the flag says, and change no sender |
| `CallClient.ShareThenStop` | video_call_app/static/js/call.js:250-307 | share then click again: every record sends what it sent before, the screen tracks are stopped and `screenStream` still holds the capture |
| `CallClient.EndCallThenUnload` | video_call_app/static/js/call.js:309-328 | the end-call click, followed by the `beforeunload` that its navigation fires, emits `leave-room` twice, stops every track and destroys every record, which all stay in the table |
| `CallClient.JoinWhileSharing` | video_call_app/static/js/call.js:82-86 | a session that joins during a share is sent the camera: all older records send the screen, and the mesh as a whole does not |

## Left out

- Presentation: `addVideoStream`, the chat sidebar (`sendChatMessage`, `addChatMessage`), the copy-room-id button, the status indicator styling, the button icons, `localVideo.srcObject`, `alert` and console logging. None of them holds state the handlers read.
- The peer-connection library is not part of this model. A `Peer` is an abstract record that has the operations `call.js` calls (`addTrack`, `signal`, `createOffer`, `setLocalDescription`, `destroy`, and `replaceTrack` on the senders in `_senders`). Offer/answer/ICE negotiation, the tracks the library attaches from its `stream` option, and the remote `stream` event are not modelled.
- `OnSignal`: one flag, `peerThrows`, stands for every exception the library can raise inside the `try`. The model does not separate a failure in `setLocalDescription` after a successful `createOffer`.
- `ShareScreen`: requires the captured display stream to hold a video track, which `getDisplayMedia({video: true})` provides. The code's path for a stream without one is not modelled.
- Awaiting `getUserMedia` or `getDisplayMedia` is treated as one atomic step. Other events that run during the await are not interleaved.
- The Socket.IO transport: connection and reconnection options, the server's `connect` handler (it only prints), and the room subscriptions made by `join_room`/`leave_room`. An emit to a room is recorded with the room id and the skipped session; who receives it is not modelled.
- Payload validation: a handler given a payload without `room_id`, `to` or `signal` raises in the source. The model's handlers take typed arguments.
- JavaScript object keys: session ids are assumed not to collide with `Object.prototype` property names such as `toString`.
- Randomness, routes and start-up: `secrets.token_urlsafe` (the room id is a parameter), `secrets.token_hex`, the Flask routes, `create_ssl_context` and the `__main__` block.
- `video_call_app/static/js/index.js`, `install.py`, `run.py` and `generate_ssl.py` are not part of this model. They hold forms, navigation and subprocess/OpenSSL set-up, not signaling state.
