/**
 The vocabulary the browser client and the Flask-SocketIO relay exchange.
 Both sides treat a signal payload as opaque except for its `type` field,
 which the client dispatches on.
 */
module Wire {

  datatype Option<+T> = None | Some(value: T)

  /** A Socket.IO session id (`request.sid` on the server, `data.sid` on the client). */
  type Sid = string

  /** A room id, as minted by `secrets.token_urlsafe(8)`. */
  type RoomId = string

  /** A signaling payload: its `type` field and everything else, kept opaque. */
  datatype SignalData = SignalData(kind: string, body: string)

  const OFFER := "offer"
  const ANSWER := "answer"
  const CANDIDATE := "candidate"
  const NEW_PEER := "new-peer"

  /** The payload the client sends to ask a present participant to make an offer. */
  const NewPeerRequest := SignalData(NEW_PEER, "")

  /** Events the relay emits to clients, with their payloads. */
  datatype ServerEvent =
    | RoomCreated(roomId: RoomId)
    | Error(message: string)
    | UserJoined(sid: Sid)
    | ExistingParticipants(participants: seq<Sid>)
    | UserLeft(sid: Sid)
    | UserDisconnected(sid: Sid)
    | Signal(from: Sid, signal: SignalData)

  /** Events the call page emits to the relay, with their payloads. */
  datatype ClientEvent =
    | JoinRoom(roomId: RoomId)
    | LeaveRoom(roomId: RoomId)
    | SendSignal(to: Sid, signal: SignalData)
}
