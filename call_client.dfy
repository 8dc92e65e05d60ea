/**
 The call page's peer mesh (video_call_app/static/js/call.js): the `peers`
 table, the local and screen media, and the socket, button and peer handlers
 that change them. The peer-connection library is abstract: a `Peer` records
 which tracks it sends, which payloads it was given and whether it was
 destroyed. Media capture results and library failures are parameters.
 */
module CallClient {
  import opened Wire

  datatype Kind = Audio | Video

  /** A media track: its kind is fixed, `enabled` and its ended state change in place. */
  class MediaTrack {
    const kind: Kind
    var enabled: bool
    var stopped: bool

    constructor (kind: Kind)
      ensures this.kind == kind && enabled && !stopped
    {
      this.kind := kind;
      enabled, stopped := true, false;
    }

    /** `track.stop()`. */
    method Stop()
      modifies this`stopped
      ensures stopped
    {
      stopped := true;
    }
  }

  /** A media stream is the list of its tracks, in `getTracks()` order. */
  datatype Stream = Stream(tracks: seq<MediaTrack>)

  /** Index of the first track of `kind`, or `|tracks|` if there is none. */
  function FirstOfKind(tracks: seq<MediaTrack>, kind: Kind): (i: nat)
    ensures i <= |tracks|
    ensures i < |tracks| ==> tracks[i].kind == kind
    ensures forall j :: 0 <= j < i ==> tracks[j].kind != kind
  {
    if tracks == [] then 0
    else if tracks[0].kind == kind then 0
    else 1 + FirstOfKind(tracks[1..], kind)
  }

  /** `getVideoTracks()[0]` / `getAudioTracks()[0]`: absent when the stream has none. */
  function TrackOf(s: Stream, kind: Kind): (t: Option<MediaTrack>)
    ensures t.None? <==> forall j :: 0 <= j < |s.tracks| ==> s.tracks[j].kind != kind
    ensures t.Some? ==> t.value in s.tracks && t.value.kind == kind
  {
    var i := FirstOfKind(s.tracks, kind);
    if i < |s.tracks| then Some(s.tracks[i]) else None
  }

  function TracksOf(s: Option<Stream>): seq<MediaTrack>
  {
    if s.Some? then s.value.tracks else []
  }

  function TrackSet(t: Option<MediaTrack>): set<MediaTrack>
  {
    if t.Some? then {t.value} else {}
  }

  /** An RTP sender: the track it currently sends. */
  datatype Sender = Sender(track: MediaTrack)

  /** The senders `addTrack` creates for `tracks`, one per track, in order. */
  function SendersFor(tracks: seq<MediaTrack>): (r: seq<Sender>)
    ensures |r| == |tracks|
    ensures forall i :: 0 <= i < |r| ==> r[i].track == tracks[i]
  {
    seq(|tracks|, i requires 0 <= i < |tracks| => Sender(tracks[i]))
  }

  /** Every sender whose track is a video track sends `t`. */
  predicate AllVideoOn(senders: seq<Sender>, t: MediaTrack)
  {
    forall i :: 0 <= i < |senders| && senders[i].track.kind == Video ==> senders[i].track == t
  }

  /** `replaceTrack(t)` applied to every sender whose track is a video track. */
  function ReplaceVideo(senders: seq<Sender>, t: MediaTrack): (r: seq<Sender>)
    requires t.kind == Video
    ensures |r| == |senders|
    ensures AllVideoOn(r, t)
    ensures forall i :: 0 <= i < |r| ==> r[i].track.kind == senders[i].track.kind
    ensures forall i :: 0 <= i < |r| && senders[i].track.kind != Video ==> r[i] == senders[i]
  {
    seq(|senders|, i requires 0 <= i < |senders| =>
      if senders[i].track.kind == Video then Sender(t) else senders[i])
  }

  /** Only the last substitution counts: replacing the video track with `a`
      and then with `b` is the same as replacing it with `b`. */
  lemma ReplaceVideoLastWins(senders: seq<Sender>, a: MediaTrack, b: MediaTrack)
    requires a.kind == Video && b.kind == Video
    ensures ReplaceVideo(ReplaceVideo(senders, a), b) == ReplaceVideo(senders, b)
  {
  }

  /** Substituting the track every video sender already sends changes nothing. */
  lemma ReplaceVideoUnchanged(senders: seq<Sender>, t: MediaTrack)
    requires t.kind == Video && AllVideoOn(senders, t)
    ensures ReplaceVideo(senders, t) == senders
  {
  }

  /** Sharing the screen and then restoring the camera gives back, on every
      sender, the track it sent before. */
  lemma ShareThenRestore(senders: seq<Sender>, camera: MediaTrack, screen: MediaTrack)
    requires camera.kind == Video && screen.kind == Video
    requires AllVideoOn(senders, camera)
    ensures ReplaceVideo(ReplaceVideo(senders, screen), camera) == senders
  {
    ReplaceVideoLastWins(senders, screen, camera);
    ReplaceVideoUnchanged(senders, camera);
  }

  /** When the local stream has at most one video track (what
      `getUserMedia({video: true})` yields), the senders attached for it send
      the camera track on video. */
  lemma AttachedVideoIsCamera(s: Stream)
    requires forall i, j :: 0 <= i < j < |s.tracks| && s.tracks[i].kind == Video ==> s.tracks[j].kind != Video
    requires TrackOf(s, Video).Some?
    ensures AllVideoOn(SendersFor(s.tracks), TrackOf(s, Video).value)
  {
    var i := FirstOfKind(s.tracks, Video);
    var r := SendersFor(s.tracks);
    forall j | 0 <= j < |r| && r[j].track.kind == Video
      ensures r[j].track == s.tracks[i]
    {
      assert !(j < i);
      assert !(i < j);
    }
  }

  /** One `signal` event per listed session: the request to make an offer. */
  function NewPeerRequests(sids: seq<Sid>): (r: seq<ClientEvent>)
    ensures |r| == |sids|
    ensures forall i :: 0 <= i < |r| ==> r[i] == SendSignal(sids[i], NewPeerRequest)
  {
    seq(|sids|, i requires 0 <= i < |sids| => SendSignal(sids[i], NewPeerRequest))
  }

  /** The payload types `signal()` is given: `offer`, `answer` and `candidate`. */
  predicate IsNegotiation(kind: string)
  {
    kind == OFFER || kind == ANSWER || kind == CANDIDATE
  }

  /** A connection to one remote session, as the peer library exposes it. */
  class Peer {
    /** The id the event handlers wired by `createPeer` close over. */
    const remote: Sid
    const initiator: bool
    var senders: seq<Sender>
    /** Remote payloads passed to `signal()`, in order. */
    var applied: seq<SignalData>
    var localDescription: Option<SignalData>
    var destroyed: bool

    /** `createPeer(peerId, initiator)`. */
    constructor (peerId: Sid, initiator: bool)
      ensures remote == peerId && this.initiator == initiator
      ensures senders == [] && applied == [] && localDescription == None && !destroyed
    {
      remote, this.initiator := peerId, initiator;
      senders, applied, localDescription, destroyed := [], [], None, false;
    }

    /** `peer.addTrack(track, stream)`. */
    method AddTrack(t: MediaTrack)
      modifies this`senders
      ensures senders == old(senders) + [Sender(t)]
    {
      senders := senders + [Sender(t)];
    }

    /** `peer.signal(payload)`. */
    method ApplySignal(s: SignalData)
      modifies this`applied
      ensures applied == old(applied) + [s]
    {
      applied := applied + [s];
    }

    /** `peer.setLocalDescription(offer)`. */
    method SetLocalDescription(offer: SignalData)
      modifies this`localDescription
      ensures localDescription == Some(offer)
    {
      localDescription := Some(offer);
    }

    /** `peer.destroy()`. */
    method Destroy()
      modifies this`destroyed
      ensures destroyed
    {
      destroyed := true;
    }

    /** `replaceTrack(t)` on each of this peer's senders that sends video. */
    method ReplaceVideoTrack(t: MediaTrack)
      requires t.kind == Video
      modifies this`senders
      ensures senders == ReplaceVideo(old(senders), t)
    {
      var i := 0;
      while i < |senders|
        invariant 0 <= i <= |senders| == |old(senders)|
        invariant forall j :: 0 <= j < i ==> senders[j] == ReplaceVideo(old(senders), t)[j]
        invariant forall j :: i <= j < |senders| ==> senders[j] == old(senders)[j]
      {
        if senders[i].track.kind == Video {
          senders := senders[i := Sender(t)];
        }
        i := i + 1;
      }
    }
  }

  /** `forEach(track => peer.addTrack(track, stream))`. */
  method AttachTracks(p: Peer, tracks: seq<MediaTrack>)
    modifies p`senders
    ensures p.senders == old(p.senders) + SendersFor(tracks)
  {
    for i := 0 to |tracks|
      invariant p.senders == old(p.senders) + SendersFor(tracks[..i])
    {
      assert SendersFor(tracks[..i + 1]) == SendersFor(tracks[..i]) + [Sender(tracks[i])];
      p.AddTrack(tracks[i]);
    }
    assert tracks[..|tracks|] == tracks;
  }

  /** `forEach(track => track.stop())`. */
  method StopAll(tracks: seq<MediaTrack>)
    modifies tracks`stopped
    ensures forall t :: t in tracks ==> t.stopped
  {
    for i := 0 to |tracks|
      invariant forall j :: 0 <= j < i ==> tracks[j].stopped
    {
      tracks[i].Stop();
    }
  }

  /** `Object.values(peers).forEach(peer => peer.destroy())`. */
  method DestroyAll(ps: set<Peer>)
    modifies ps`destroyed
    ensures forall p :: p in ps ==> p.destroyed
  {
    var todo := ps;
    while todo != {}
      invariant todo <= ps
      invariant forall p :: p in ps && p !in todo ==> p.destroyed
      decreases todo
    {
      var p :| p in todo;
      p.Destroy();
      todo := todo - {p};
    }
  }

  /** `sender.replaceTrack(t)` for every video sender of every peer. */
  method ReplaceVideoOnAll(ps: set<Peer>, t: MediaTrack)
    requires t.kind == Video
    modifies ps`senders
    ensures forall p :: p in ps ==> p.senders == ReplaceVideo(old(p.senders), t)
  {
    var todo := ps;
    while todo != {}
      invariant todo <= ps
      invariant forall p :: p in ps && p !in todo ==> p.senders == ReplaceVideo(old(p.senders), t)
      invariant forall p :: p in todo ==> p.senders == old(p.senders)
      decreases todo
    {
      var p :| p in todo;
      p.ReplaceVideoTrack(t);
      todo := todo - {p};
    }
  }

  /** The connection status line: its text, as `updateConnectionStatus` sets it. */
  datatype Status = Initial | Connected | MediaError | Disconnected

  /** A fresh record for `sid` as `createPeer` makes it, with `senders` attached. */
  ghost predicate FreshRecord(p: Peer, sid: Sid, initiator: bool, senders: seq<Sender>)
    reads p
  {
    p.remote == sid && p.initiator == initiator && p.senders == senders
    && p.applied == [] && p.localDescription == None && !p.destroyed
  }

  /** The call page: its module-level state and the handlers that change it. */
  class Call {
    const roomId: RoomId
    var localStream: Option<Stream>
    var screenStream: Option<Stream>
    var isScreenSharing: bool
    var isVideoEnabled: bool
    var isAudioEnabled: bool
    var peers: map<Sid, Peer>
    /** Everything emitted on the socket so far. */
    var outbox: seq<ClientEvent>
    var status: Status

    /** Each record in the table is its own peer object. */
    ghost predicate Valid()
      reads this
    {
      forall a, b :: a in peers && b in peers && a != b ==> peers[a] != peers[b]
    }

    function Camera(): Option<MediaTrack>
      reads this
    {
      if localStream.Some? then TrackOf(localStream.value, Video) else None
    }

    function Microphone(): Option<MediaTrack>
      reads this
    {
      if localStream.Some? then TrackOf(localStream.value, Audio) else None
    }

    function ScreenTrack(): Option<MediaTrack>
      reads this
    {
      if screenStream.Some? then TrackOf(screenStream.value, Video) else None
    }

    /** The senders a new initiator record gets: one per local track, if any. */
    function LocalSenders(): seq<Sender>
      reads this
    {
      SendersFor(TracksOf(localStream))
    }

    /** The senders after `stopScreenSharing` restores the camera, if there is one. */
    function Restored(senders: seq<Sender>): seq<Sender>
      reads this
    {
      if Camera().Some? then ReplaceVideo(senders, Camera().value) else senders
    }

    /** Every video sender of every record sends `t`. */
    ghost predicate MeshSends(t: MediaTrack)
      reads this, peers.Values
    {
      forall p :: p in peers.Values ==> AllVideoOn(p.senders, t)
    }

    /** Page load: the `let` declarations at the top of the handler. */
    constructor (roomId: RoomId)
      ensures Valid() && this.roomId == roomId
      ensures localStream == None && screenStream == None && !isScreenSharing
      ensures isVideoEnabled && isAudioEnabled
      ensures peers == map[] && outbox == [] && status == Initial
    {
      this.roomId := roomId;
      localStream, screenStream, isScreenSharing := None, None, false;
      isVideoEnabled, isAudioEnabled := true, true;
      peers, outbox, status := map[], [], Initial;
    }

    /** `initializeCall`, run on every socket `connect`: `media` is what
        `getUserMedia` resolved to, `None` when it rejected. */
    method InitializeCall(media: Option<Stream>)
      modifies this`localStream, this`outbox, this`status
      ensures media.Some? ==>
        localStream == media && outbox == old(outbox) + [JoinRoom(roomId)] && status == Connected
      ensures media.None? ==>
        localStream == old(localStream) && outbox == old(outbox) && status == MediaError
    {
      if media.None? {
        status := MediaError;
        return;
      }
      localStream := media;
      outbox := outbox + [JoinRoom(roomId)];
      status := Connected;
    }

    /** Socket `disconnect`. */
    method OnDisconnect()
      modifies this`peers, this`status, peers.Values`destroyed
      ensures Valid()
      ensures status == Disconnected && peers == map[]
      ensures forall p :: p in old(peers.Values) ==> p.destroyed
    {
      status := Disconnected;
      DestroyAll(peers.Values);
      peers := map[];
    }

    /** `user-joined`: a new initiator record replaces whatever was stored
        under `sid`, and the replaced record is not destroyed. */
    method OnUserJoined(sid: Sid)
      requires Valid()
      modifies this`peers
      ensures Valid()
      ensures sid in peers && fresh(peers[sid])
      ensures peers == old(peers)[sid := peers[sid]]
      ensures FreshRecord(peers[sid], sid, true, LocalSenders())
      ensures forall p :: p in old(peers.Values) ==> p.destroyed == old(p.destroyed)
    {
      var peer := new Peer(sid, true);
      peers := peers[sid := peer];
      AttachTracks(peer, TracksOf(localStream));
    }

    /** `user-left`: destroys and drops the record for `sid`, if any. */
    method OnUserLeft(sid: Sid)
      requires Valid()
      modifies this`peers, peers.Values`destroyed
      ensures Valid()
      ensures peers == old(peers) - {sid}
      ensures sid in old(peers) ==> old(peers)[sid].destroyed
      ensures forall k :: k in peers ==> peers[k].destroyed == old(peers[k].destroyed)
    {
      if sid in peers {
        peers[sid].Destroy();
        peers := peers - {sid};
      }
    }

    /** `existing-participants`: an initiator record for each listed session
        and one `new-peer` request to each, in list order. */
    method OnExistingParticipants(sids: seq<Sid>)
      requires Valid()
      modifies this`peers, this`outbox
      ensures Valid()
      ensures forall k :: k in peers <==> k in old(peers) || k in sids
      ensures forall k :: k in old(peers) && k !in sids ==> peers[k] == old(peers)[k]
      ensures forall s :: s in sids ==> fresh(peers[s]) && FreshRecord(peers[s], s, true, LocalSenders())
      ensures outbox == old(outbox) + NewPeerRequests(sids)
    {
      for i := 0 to |sids|
        invariant Valid()
        invariant forall k :: k in peers <==> k in old(peers) || k in sids[..i]
        invariant forall k :: k in old(peers) && k !in sids[..i] ==> peers[k] == old(peers)[k]
        invariant forall s :: s in sids[..i] ==> fresh(peers[s]) && FreshRecord(peers[s], s, true, LocalSenders())
        invariant outbox == old(outbox) + NewPeerRequests(sids[..i])
      {
        var sid := sids[i];
        // the same steps as `user-joined`: create, store, attach the local tracks
        OnUserJoined(sid);
        assert sids[..i + 1] == sids[..i] + [sid];
        outbox := outbox + [SendSignal(sid, NewPeerRequest)];
      }
      assert sids[..|sids|] == sids;
    }

    /** Socket `signal` from `from`. A session without a record first gets a
        non-initiator one. `peerThrows` says the library call for the payload
        (`signal()`, or `createOffer()` for `new-peer`) throws; the handler
        catches that and only logs it. `offer` is what `createOffer()` returns. */
    method OnSignal(from: Sid, signal: SignalData, offer: SignalData, peerThrows: bool)
      requires Valid()
      modifies this`peers, this`outbox, peers.Values`applied, peers.Values`localDescription
      ensures Valid()
      ensures from in peers
      ensures from in old(peers) ==> peers == old(peers)
      ensures from !in old(peers) ==>
        && fresh(peers[from]) && peers == old(peers)[from := peers[from]]
        && peers[from].remote == from && !peers[from].initiator
        && peers[from].senders == [] && !peers[from].destroyed
      ensures peers[from].applied ==
        (if from in old(peers) then old(peers[from].applied) else [])
        + (if IsNegotiation(signal.kind) && !peerThrows then [signal] else [])
      ensures peers[from].localDescription ==
        if signal.kind == NEW_PEER && !peerThrows then Some(offer)
        else if from in old(peers) then old(peers[from].localDescription) else None
      ensures outbox == old(outbox)
        + (if signal.kind == NEW_PEER && !peerThrows then [SendSignal(from, offer)] else [])
      ensures forall k :: k in peers && k != from ==>
        peers[k].applied == old(peers[k].applied) && peers[k].localDescription == old(peers[k].localDescription)
    {
      if from !in peers {
        var peer := new Peer(from, false);
        peers := peers[from := peer];
      }
      var p := peers[from];
      if IsNegotiation(signal.kind) {
        if !peerThrows {
          p.ApplySignal(signal);
        }
      } else if signal.kind == NEW_PEER {
        if !peerThrows {
          p.SetLocalDescription(offer);
          outbox := outbox + [SendSignal(from, offer)];
        }
      }
    }

    /** A record's own `signal` event: the handshake data it produced goes
        to the session id its handler closed over, whether or not the table
        still holds that record. */
    method OnPeerSignal(p: Peer, data: SignalData)
      modifies this`outbox
      ensures outbox == old(outbox) + [SendSignal(p.remote, data)]
    {
      outbox := outbox + [SendSignal(p.remote, data)];
    }

    /** The camera button. */
    method ToggleVideo()
      modifies this`isVideoEnabled, TrackSet(Camera())`enabled
      ensures Camera() == old(Camera())
      ensures Camera().Some? ==> isVideoEnabled == !old(isVideoEnabled) && Camera().value.enabled == isVideoEnabled
      ensures Camera().None? ==> isVideoEnabled == old(isVideoEnabled)
    {
      var videoTrack := Camera();
      if videoTrack.Some? {
        isVideoEnabled := !isVideoEnabled;
        videoTrack.value.enabled := isVideoEnabled;
      }
    }

    /** The microphone button. */
    method ToggleAudio()
      modifies this`isAudioEnabled, TrackSet(Microphone())`enabled
      ensures Microphone() == old(Microphone())
      ensures Microphone().Some? ==>
        isAudioEnabled == !old(isAudioEnabled) && Microphone().value.enabled == isAudioEnabled
      ensures Microphone().None? ==> isAudioEnabled == old(isAudioEnabled)
    {
      var audioTrack := Microphone();
      if audioTrack.Some? {
        isAudioEnabled := !isAudioEnabled;
        audioTrack.value.enabled := isAudioEnabled;
      }
    }

    /** `stopScreenSharing`, also wired to the screen track's `onended`.
        `screenStream` keeps its value afterwards. */
    method StopScreenSharing()
      modifies this`isScreenSharing, peers.Values`senders, TracksOf(screenStream)`stopped
      ensures screenStream.None? ==>
        isScreenSharing == old(isScreenSharing) && forall p :: p in peers.Values ==> p.senders == old(p.senders)
      ensures screenStream.Some? ==>
        && !isScreenSharing
        && (forall t :: t in TracksOf(screenStream) ==> t.stopped)
        && (forall p :: p in peers.Values ==> p.senders == old(Restored(p.senders)))
    {
      if screenStream.Some? {
        StopAll(screenStream.value.tracks);
        var videoTrack := Camera();
        if videoTrack.Some? {
          ReplaceVideoOnAll(peers.Values, videoTrack.value);
        }
        isScreenSharing := false;
      }
    }

    /** The share-screen button: starts sharing, or stops it when already
        sharing. `capture` is what `getDisplayMedia({video: true})` resolved
        to, `None` when it rejected; a captured display stream always holds
        a video track. */
    method ShareScreen(capture: Option<Stream>)
      requires capture.Some? ==> TrackOf(capture.value, Video).Some?
      modifies this`screenStream, this`isScreenSharing, peers.Values`senders, TracksOf(screenStream)`stopped
      ensures old(isScreenSharing) || capture.None? ==> screenStream == old(screenStream)
      ensures !old(isScreenSharing) && capture.None? ==>
        !isScreenSharing && forall p :: p in peers.Values ==> p.senders == old(p.senders)
      ensures !old(isScreenSharing) && capture.Some? ==>
        && screenStream == capture && isScreenSharing
        && forall p :: p in peers.Values ==> p.senders == ReplaceVideo(old(p.senders), ScreenTrack().value)
      ensures old(isScreenSharing) && screenStream.None? ==>
        isScreenSharing && forall p :: p in peers.Values ==> p.senders == old(p.senders)
      ensures old(isScreenSharing) && screenStream.Some? ==>
        && !isScreenSharing
        && (forall t :: t in TracksOf(screenStream) ==> t.stopped)
        && (forall p :: p in peers.Values ==> p.senders == old(Restored(p.senders)))
    {
      if !isScreenSharing {
        if capture.None? {
          return;
        }
        screenStream := capture;
        var videoTrack := TrackOf(capture.value, Video).value;
        ReplaceVideoOnAll(peers.Values, videoTrack);
        isScreenSharing := true;
      } else {
        StopScreenSharing();
      }
    }

    /** The end-call button: the page then navigates away. */
    method EndCall()
      modifies this`outbox, TracksOf(localStream)`stopped, TracksOf(screenStream)`stopped, peers.Values`destroyed
      ensures outbox == old(outbox) + [LeaveRoom(roomId)]
      ensures forall t :: t in TracksOf(localStream) || t in TracksOf(screenStream) ==> t.stopped
      ensures forall p :: p in peers.Values ==> p.destroyed
    {
      outbox := outbox + [LeaveRoom(roomId)];
      StopAll(TracksOf(localStream));
      StopAll(TracksOf(screenStream));
      DestroyAll(peers.Values);
    }

    /** `beforeunload`: like ending the call, except that no record is destroyed. */
    method BeforeUnload()
      modifies this`outbox, TracksOf(localStream)`stopped, TracksOf(screenStream)`stopped
      ensures outbox == old(outbox) + [LeaveRoom(roomId)]
      ensures forall t :: t in TracksOf(localStream) || t in TracksOf(screenStream) ==> t.stopped
      ensures forall p :: p in peers.Values ==> p.destroyed == old(p.destroyed)
    {
      outbox := outbox + [LeaveRoom(roomId)];
      StopAll(TracksOf(localStream));
      StopAll(TracksOf(screenStream));
    }

    /** A relay event, routed to its listener. `user-disconnected` and
        `room-created` have none on this page; `error` only raises an alert. */
    method Receive(ev: ServerEvent, offer: SignalData, peerThrows: bool)
      requires Valid()
      modifies this`peers, this`outbox, peers.Values`destroyed, peers.Values`applied, peers.Values`localDescription
      ensures Valid()
      ensures ev.UserDisconnected? || ev.RoomCreated? || ev.Error? ==>
        && peers == old(peers) && outbox == old(outbox)
        && forall p :: p in peers.Values ==>
             p.destroyed == old(p.destroyed) && p.applied == old(p.applied)
             && p.localDescription == old(p.localDescription)
    {
      match ev
      case UserJoined(sid) => OnUserJoined(sid);
      case UserLeft(sid) => OnUserLeft(sid);
      case ExistingParticipants(sids) => OnExistingParticipants(sids);
      case Signal(from, signal) => OnSignal(from, signal, offer, peerThrows);
      case UserDisconnected(_) =>
      case RoomCreated(_) =>
      case Error(_) =>
    }
  }

  // ---------------------------------------------------------------------
  // Sequences of events

  /** Clicking the camera button twice restores the flag, leaves the camera
      track enabled exactly when the flag says so, and attaches or detaches
      nothing. */
  method ToggleVideoTwice(c: Call)
    modifies c`isVideoEnabled, TrackSet(c.Camera())`enabled
    ensures c.isVideoEnabled == old(c.isVideoEnabled)
    ensures c.Camera().Some? ==> c.Camera().value.enabled == c.isVideoEnabled
    ensures c.peers == old(c.peers) && forall p :: p in c.peers.Values ==> p.senders == old(p.senders)
  {
    c.ToggleVideo();
    c.ToggleVideo();
  }

  /** Sharing the screen and clicking again gives every record back the
      track it sent before; the screen tracks are stopped but `screenStream`
      still holds the old capture. */
  method ShareThenStop(c: Call, capture: Stream)
    requires !c.isScreenSharing && TrackOf(capture, Video).Some?
    requires c.Camera().Some? && c.MeshSends(c.Camera().value)
    modifies c`screenStream, c`isScreenSharing, c.peers.Values`senders, capture.tracks`stopped
    modifies TracksOf(c.screenStream)`stopped
    ensures !c.isScreenSharing && c.screenStream == Some(capture)
    ensures forall t :: t in capture.tracks ==> t.stopped
    ensures c.peers == old(c.peers) && forall p :: p in c.peers.Values ==> p.senders == old(p.senders)
  {
    c.ShareScreen(Some(capture));
    var screen := TrackOf(capture, Video).value;
    c.ShareScreen(None);
    var camera := c.Camera().value;
    forall p | p in c.peers.Values
      ensures p.senders == old(p.senders)
    {
      ShareThenRestore(old(p.senders), camera, screen);
    }
  }

  /** The end-call click ends by navigating to '/', which fires the page's
      own `beforeunload` listener: `leave-room` goes out twice, and every
      track is stopped and every record destroyed. */
  method EndCallThenUnload(c: Call)
    modifies c`outbox, TracksOf(c.localStream)`stopped, TracksOf(c.screenStream)`stopped, c.peers.Values`destroyed
    ensures c.outbox == old(c.outbox) + [LeaveRoom(c.roomId), LeaveRoom(c.roomId)]
    ensures forall t :: t in TracksOf(c.localStream) || t in TracksOf(c.screenStream) ==> t.stopped
    ensures c.peers == old(c.peers) && forall p :: p in c.peers.Values ==> p.destroyed
  {
    c.EndCall();
    c.BeforeUnload();
  }

  /** A session that joins while the screen is shared is sent the camera,
      not the screen: the new record's video sender is the only one in the
      mesh off the shared track. */
  method JoinWhileSharing(c: Call, capture: Stream, sid: Sid)
    requires c.Valid() && !c.isScreenSharing && TrackOf(capture, Video).Some?
    requires c.Camera().Some? && c.Camera() != TrackOf(capture, Video)
    modifies c`screenStream, c`isScreenSharing, c`peers, c.peers.Values`senders, TracksOf(c.screenStream)`stopped
    ensures c.isScreenSharing && c.ScreenTrack() == TrackOf(capture, Video)
    ensures forall k :: k in c.peers && k != sid ==> AllVideoOn(c.peers[k].senders, c.ScreenTrack().value)
    ensures !c.MeshSends(c.ScreenTrack().value)
  {
    c.ShareScreen(Some(capture));
    ghost var screen := c.ScreenTrack().value;
    ghost var before := c.peers;
    assert forall p :: p in before.Values ==> AllVideoOn(p.senders, screen);
    c.OnUserJoined(sid);
    forall k | k in c.peers && k != sid
      ensures AllVideoOn(c.peers[k].senders, screen)
    {
      assert c.peers[k] == before[k] && before[k] in before.Values;
    }
    var tracks := c.localStream.value.tracks;
    var i := FirstOfKind(tracks, Video);
    var p := c.peers[sid];
    assert p.senders[i].track == tracks[i] == c.Camera().value != screen;
    assert p in c.peers.Values;
  }
}
