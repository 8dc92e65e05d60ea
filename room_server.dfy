/**
 The relay's room registry (video_call_app/app.py): the global `rooms` dict and
 the Socket.IO handlers that change it. Each handler is a method of
 `SignalingServer`; the pure functions before the class say what a handler
 does to the registry, and the lemmas say what that means.
 */
module RoomServer {
  import opened Wire

  /** One value of the `rooms` dict. */
  datatype Room = Room(participants: seq<Sid>, creator: Sid)

  /** Where an `emit` goes: to one session (`to=sid`, or the caller when no
      `to` is given), or to every session subscribed to a room, possibly
      skipping one (`include_self=False`). */
  datatype Target = Direct(to: Sid) | Broadcast(room: RoomId, except: Option<Sid>)

  datatype Emit = Emit(target: Target, event: ServerEvent)

  predicate Distinct<T(==)>(s: seq<T>)
  {
    forall i, j :: 0 <= i < j < |s| ==> s[i] != s[j]
  }

  /** The `rooms` dict as a value: its entries, and the insertion order in
      which Python iterates them. */
  datatype Registry = Registry(order: seq<RoomId>, rooms: map<RoomId, Room>)
  {
    /** Each room id is listed exactly once, and only if the dict holds it. */
    ghost predicate Valid()
    {
      Distinct(order) && forall k :: k in rooms <==> k in order
    }
  }

  // ---------------------------------------------------------------------
  // List operations the handlers use

  /** The position `list.remove` deletes: the first occurrence of `x`. */
  function IndexOf(s: seq<Sid>, x: Sid): (i: nat)
    requires x in s
    ensures i < |s| && s[i] == x && x !in s[..i]
  {
    if s[0] == x then 0
    else
      var j := IndexOf(s[1..], x);
      assert s[..j + 1] == [s[0]] + s[1..][..j];
      1 + j
  }

  /** `list.remove(x)`: drops the first occurrence of `x` only. */
  function RemoveFirst(s: seq<Sid>, x: Sid): (r: seq<Sid>)
    requires x in s
    ensures |r| == |s| - 1
    ensures multiset(r) == multiset(s) - multiset{x}
    ensures exists i :: 0 <= i < |s| && s[i] == x && x !in s[..i] && r == s[..i] + s[i + 1..]
  {
    var i := IndexOf(s, x);
    assert s == s[..i] + [x] + s[i + 1..];
    s[..i] + s[i + 1..]
  }

  /** `list.remove` keeps everybody else in their order: the
      `existing-participants` reply a later join gets is as if the removed
      session had never been listed once. */
  lemma RemoveFirstKeepsOthers(s: seq<Sid>, x: Sid)
    requires x in s
    ensures Others(RemoveFirst(s, x), x) == Others(s, x)
  {
    var i :| 0 <= i < |s| && s[i] == x && RemoveFirst(s, x) == s[..i] + s[i + 1..];
    OthersSkip(s, i);
  }

  /** Dropping one occurrence of `x` does not change the others, in order. */
  lemma {:induction false} OthersSkip(s: seq<Sid>, i: nat)
    requires i < |s|
    ensures Others(s[..i] + s[i + 1..], s[i]) == Others(s, s[i])
    decreases i
  {
    var x, t := s[i], s[1..];
    assert s == [s[0]] + t;
    OthersCons(s[0], t, x);
    if i == 0 {
      assert s[..0] + s[1..] == t;
    } else {
      var u := t[..i - 1] + t[i..];
      assert t[i - 1] == x;
      OthersSkip(t, i - 1);
      assert s[..i] + s[i + 1..] == [s[0]] + u;
      OthersCons(s[0], u, x);
    }
  }

  /** One step of the filter. */
  lemma OthersCons(a: Sid, u: seq<Sid>, x: Sid)
    ensures Others([a] + u, x) == if a == x then Others(u, x) else [a] + Others(u, x)
  {
    assert ([a] + u)[0] == a && ([a] + u)[1..] == u;
  }

  /** `[sid for sid in ps if sid != caller]`: everybody but the caller, in list order. */
  function Others(ps: seq<Sid>, caller: Sid): (r: seq<Sid>)
    ensures caller !in r
    ensures forall y :: y != caller ==> multiset(r)[y] == multiset(ps)[y]
  {
    if ps == [] then []
    else
      assert ps == [ps[0]] + ps[1..];
      if ps[0] == caller then Others(ps[1..], caller)
      else [ps[0]] + Others(ps[1..], caller)
  }

  /** The key order after `del rooms[k]`. */
  function Without(s: seq<RoomId>, k: RoomId): (r: seq<RoomId>)
    ensures forall y :: y in r <==> y in s && y != k
    ensures Distinct(s) ==> Distinct(r)
    ensures k !in s ==> r == s
  {
    if s == [] then []
    else if s[0] == k then Without(s[1..], k)
    else
      var t := Without(s[1..], k);
      assert Distinct(s) ==> s[0] !in s[1..] && Distinct(s[1..]);
      assert s == [s[0]] + s[1..];
      [s[0]] + t
  }

  /** `del` keeps the other keys in their insertion order: deleting the key
      at position `i` of a duplicate-free order just cuts it out. */
  lemma {:induction false} WithoutAt(s: seq<RoomId>, i: nat)
    requires Distinct(s) && i < |s|
    ensures Without(s, s[i]) == s[..i] + s[i + 1..]
    decreases i
  {
    var k := s[i];
    assert s[0] == k <==> i == 0;
    if i == 0 {
      assert k !in s[1..];
      assert s[..0] + s[1..] == s[1..];
    } else {
      assert Distinct(s[1..]) && s[1..][i - 1] == k;
      WithoutAt(s[1..], i - 1);
      assert s[..i] + s[i + 1..] == [s[0]] + (s[1..][..i - 1] + s[1..][i..]);
    }
  }

  // ---------------------------------------------------------------------
  // What the handlers do to the registry

  /** `rooms[id]['participants'].append(sid)`, with no duplicate check. */
  function Joined(reg: Registry, id: RoomId, sid: Sid): (r: Registry)
    requires id in reg.rooms
    ensures reg.Valid() ==> r.Valid()
    ensures r.order == reg.order && r.rooms.Keys == reg.rooms.Keys
    ensures r.rooms[id].creator == reg.rooms[id].creator
    ensures r.rooms[id].participants == reg.rooms[id].participants + [sid]
    ensures multiset(r.rooms[id].participants) == multiset(reg.rooms[id].participants) + multiset{sid}
    ensures forall k :: k in reg.rooms && k != id ==> r.rooms[k] == reg.rooms[k]
  {
    var room := reg.rooms[id];
    Registry(reg.order, reg.rooms[id := room.(participants := room.participants + [sid])])
  }

  /** `participants.remove(sid)`, then `del rooms[id]` if the list became
      empty: the step that `leave-room` and `disconnect` share. */
  function DropMember(reg: Registry, id: RoomId, sid: Sid): (r: Registry)
    requires id in reg.rooms && sid in reg.rooms[id].participants
    ensures reg.Valid() ==> r.Valid()
    ensures id in r.rooms <==> |reg.rooms[id].participants| > 1
    ensures id in r.rooms ==>
      r.rooms[id] == reg.rooms[id].(participants := RemoveFirst(reg.rooms[id].participants, sid))
    ensures forall k :: k != id ==> (k in r.rooms <==> k in reg.rooms)
    ensures forall k :: k != id && k in reg.rooms ==> r.rooms[k] == reg.rooms[k]
    ensures r.order == if |reg.rooms[id].participants| > 1 then reg.order else Without(reg.order, id)
  {
    var room := reg.rooms[id];
    var rest := RemoveFirst(room.participants, sid);
    if rest == [] then Registry(Without(reg.order, id), reg.rooms - {id})
    else Registry(reg.order, reg.rooms[id := room.(participants := rest)])
  }

  /** One iteration of the loop in `handle_disconnect`, for room `id` of the
      snapshot: the registry afterwards and what it emitted. */
  function VisitRoom(reg: Registry, id: RoomId, sid: Sid): (out: (Registry, seq<Emit>))
    requires id in reg.rooms
    ensures reg.Valid() ==> out.0.Valid()
    ensures forall k :: k != id ==> (k in out.0.rooms <==> k in reg.rooms)
    ensures forall k :: k != id && k in reg.rooms ==> out.0.rooms[k] == reg.rooms[k]
    ensures out.0.order == if id in out.0.rooms then reg.order else Without(reg.order, id)
  {
    if sid in reg.rooms[id].participants then
      var r := DropMember(reg, id, sid);
      (r, if id in r.rooms then [Emit(Broadcast(id, None), UserDisconnected(sid))] else [])
    else (reg, [])
  }

  /** The loop of `handle_disconnect` over the room ids `ks`, in order. */
  function DisconnectFrom(reg: Registry, ks: seq<RoomId>, sid: Sid): (out: (Registry, seq<Emit>))
    requires Distinct(ks) && forall k :: k in ks ==> k in reg.rooms
    ensures reg.Valid() ==> out.0.Valid()
    ensures forall k :: k in out.0.rooms ==> k in reg.rooms
    decreases |ks|
  {
    if ks == [] then (reg, [])
    else
      var (r1, e1) := VisitRoom(reg, ks[0], sid);
      assert ks[0] !in ks[1..];
      var (r2, e2) := DisconnectFrom(r1, ks[1..], sid);
      (r2, e1 + e2)
  }

  /** The entries of `s` that are keys of `keys`, in the order of `s`. */
  function Keep(s: seq<RoomId>, keys: set<RoomId>): (r: seq<RoomId>)
    ensures forall y :: y in r <==> y in s && y in keys
  {
    if s == [] then []
    else (if s[0] in keys then [s[0]] else []) + Keep(s[1..], keys)
  }

  lemma {:induction false} KeepAll(s: seq<RoomId>, keys: set<RoomId>)
    requires forall y :: y in s ==> y in keys
    ensures Keep(s, keys) == s
    decreases |s|
  {
    if s != [] {
      KeepAll(s[1..], keys);
      assert s == [s[0]] + s[1..];
    }
  }

  /** Deleting a key that is not kept anyway does not change what is kept. */
  lemma {:induction false} WithoutIsKeep(s: seq<RoomId>, k: RoomId, keys: set<RoomId>)
    requires k !in keys
    ensures Keep(Without(s, k), keys) == Keep(s, keys)
    decreases |s|
  {
    if s != [] {
      WithoutIsKeep(s[1..], k, keys);
      if s[0] != k {
        var t := Without(s[1..], k);
        assert ([s[0]] + t)[0] == s[0] && ([s[0]] + t)[1..] == t;
      }
    }
  }

  /** `del` during the walk never reorders the dict: after a disconnect the
      surviving room ids are the old ones, in their old order. */
  lemma {:induction false} DisconnectOrder(reg: Registry, ks: seq<RoomId>, sid: Sid)
    requires reg.Valid() && Distinct(ks) && forall k :: k in ks ==> k in reg.rooms
    ensures var out := DisconnectFrom(reg, ks, sid).0;
      out.order == Keep(reg.order, out.rooms.Keys)
    decreases |ks|
  {
    var out := DisconnectFrom(reg, ks, sid).0;
    if ks == [] {
      KeepAll(reg.order, reg.rooms.Keys);
    } else {
      var v := VisitRoom(reg, ks[0], sid).0;
      assert ks[0] !in ks[1..];
      assert out == DisconnectFrom(v, ks[1..], sid).0;
      DisconnectOrder(v, ks[1..], sid);
      if ks[0] !in v.rooms {
        WithoutIsKeep(reg.order, ks[0], out.rooms.Keys);
      }
    }
  }

  lemma AppendAssoc<T>(a: seq<T>, b: seq<T>, c: seq<T>)
    ensures (a + b) + c == a + (b + c)
  {
  }

  /** One step of the walk: visit the first room, then the rest. */
  lemma DisconnectFromStep(reg: Registry, ks: seq<RoomId>, sid: Sid)
    requires ks != [] && Distinct(ks) && forall k :: k in ks ==> k in reg.rooms
    ensures ks[0] !in ks[1..] && Distinct(ks[1..])
    ensures var v := VisitRoom(reg, ks[0], sid);
      && (forall k :: k in ks[1..] ==> k in v.0.rooms)
      && DisconnectFrom(reg, ks, sid)
         == (DisconnectFrom(v.0, ks[1..], sid).0, v.1 + DisconnectFrom(v.0, ks[1..], sid).1)
  {
    assert ks[0] !in ks[1..];
  }

  /** The `user-disconnected` notices for the rooms among `ks` that hold
      `sid` and somebody else, in the order of `ks`. */
  function Notices(rooms: map<RoomId, Room>, ks: seq<RoomId>, sid: Sid): seq<Emit>
    requires forall k :: k in ks ==> k in rooms
  {
    if ks == [] then []
    else
      var p := rooms[ks[0]].participants;
      (if sid in p && |p| > 1 then [Emit(Broadcast(ks[0], None), UserDisconnected(sid))] else [])
      + Notices(rooms, ks[1..], sid)
  }

  // ---------------------------------------------------------------------
  // What the handlers promise

  /** The `existing-participants` reply to a successful join lists the
      members from before the join, minus the caller, in their order; when
      the caller was not yet a member that is the whole old list. */
  lemma {:induction false} OthersAfterJoin(ps: seq<Sid>, caller: Sid)
    ensures Others(ps + [caller], caller) == Others(ps, caller)
    ensures caller !in ps ==> Others(ps, caller) == ps
  {
    OthersAppend(ps, [caller], caller);
    assert Others([caller], caller) == [];
    if caller !in ps {
      OthersOfNonMember(ps, caller);
    }
  }

  lemma {:induction false} OthersAppend(ps: seq<Sid>, qs: seq<Sid>, caller: Sid)
    ensures Others(ps + qs, caller) == Others(ps, caller) + Others(qs, caller)
    decreases |ps|
  {
    if ps == [] {
      assert ps + qs == qs;
    } else {
      assert (ps + qs)[0] == ps[0] && (ps + qs)[1..] == ps[1..] + qs;
      OthersAppend(ps[1..], qs, caller);
    }
  }

  lemma {:induction false} OthersOfNonMember(ps: seq<Sid>, caller: Sid)
    requires caller !in ps
    ensures Others(ps, caller) == ps
    decreases |ps|
  {
    if ps != [] {
      OthersOfNonMember(ps[1..], caller);
      assert ps == [ps[0]] + ps[1..];
    }
  }

  /** Removing a value just appended to a list that did not hold it gives the list back. */
  lemma RemoveAppended(ps: seq<Sid>, sid: Sid)
    requires sid !in ps
    ensures RemoveFirst(ps + [sid], sid) == ps
  {
    var s := ps + [sid];
    var i :| 0 <= i < |s| && s[i] == sid && RemoveFirst(s, sid) == s[..i] + s[i + 1..];
    assert i == |ps|;
    assert s[..i] + s[i + 1..] == ps;
  }

  /** Leaving right after a first join puts the registry back as it was,
      unless the room was empty before the join: then leaving deletes it. */
  lemma LeaveUndoesJoin(reg: Registry, id: RoomId, sid: Sid)
    requires id in reg.rooms && sid !in reg.rooms[id].participants
    ensures var after := DropMember(Joined(reg, id, sid), id, sid);
      if reg.rooms[id].participants == [] then
        id !in after.rooms && after.rooms == reg.rooms - {id} && after.order == Without(reg.order, id)
      else after == reg
  {
    if reg.rooms[id].participants == [] {
      LeaveEmptiesRoom(reg, id, sid);
    } else {
      LeaveRestoresRoom(reg, id, sid);
    }
  }

  /** The case of a room that was empty: joining and leaving deletes it. */
  lemma LeaveEmptiesRoom(reg: Registry, id: RoomId, sid: Sid)
    requires id in reg.rooms && reg.rooms[id].participants == []
    ensures DropMember(Joined(reg, id, sid), id, sid).rooms == reg.rooms - {id}
    ensures DropMember(Joined(reg, id, sid), id, sid).order == Without(reg.order, id)
  {
    var j := Joined(reg, id, sid);
    assert j.rooms[id].participants == [sid];
    assert j.rooms - {id} == reg.rooms - {id};
  }

  /** The case of a room with other members: joining and leaving restores the registry. */
  lemma LeaveRestoresRoom(reg: Registry, id: RoomId, sid: Sid)
    requires id in reg.rooms && sid !in reg.rooms[id].participants && reg.rooms[id].participants != []
    ensures DropMember(Joined(reg, id, sid), id, sid) == reg
  {
    var room := reg.rooms[id];
    var j := Joined(reg, id, sid);
    RemoveAppended(room.participants, sid);
    assert j.rooms[id := room] == reg.rooms;
  }

  /** Because `join-room` does not check for duplicates, a session that
      joined twice is still listed after one `leave-room`. */
  lemma DuplicateJoinSurvivesLeave(reg: Registry, id: RoomId, sid: Sid)
    requires id in reg.rooms && sid in reg.rooms[id].participants
    ensures var after := DropMember(Joined(reg, id, sid), id, sid);
      id in after.rooms && sid in after.rooms[id].participants
  {
    var j := Joined(reg, id, sid);
    var rest := RemoveFirst(j.rooms[id].participants, sid);
    assert multiset(rest)[sid] >= 1;
  }

  /** What `handle_disconnect` does to one room `k`, given the snapshot `ks`
      of room ids it walks: a room in `ks` that holds the caller loses one
      occurrence of it and is deleted exactly when that empties it; any other
      room is untouched; no room is created. */
  lemma {:induction false} DisconnectRoom(reg: Registry, ks: seq<RoomId>, sid: Sid, k: RoomId)
    requires Distinct(ks) && forall j :: j in ks ==> j in reg.rooms
    ensures var r := DisconnectFrom(reg, ks, sid).0;
      && (k in r.rooms ==> k in reg.rooms)
      && (k in reg.rooms && !(k in ks && sid in reg.rooms[k].participants) ==>
            k in r.rooms && r.rooms[k] == reg.rooms[k])
      && (k in ks && sid in reg.rooms[k].participants ==>
            && (k in r.rooms <==> |reg.rooms[k].participants| > 1)
            && (k in r.rooms ==>
                  r.rooms[k] == reg.rooms[k].(participants := RemoveFirst(reg.rooms[k].participants, sid))))
    decreases |ks|
  {
    if ks != [] {
      var r1 := VisitRoom(reg, ks[0], sid).0;
      assert ks[0] !in ks[1..];
      DisconnectRoom(r1, ks[1..], sid, k);
    }
  }

  /** `handle_disconnect` notifies, in snapshot order, exactly the rooms that
      held the caller and somebody else before it started. */
  lemma {:induction false} DisconnectNotices(reg: Registry, ks: seq<RoomId>, sid: Sid)
    requires Distinct(ks) && forall j :: j in ks ==> j in reg.rooms
    ensures DisconnectFrom(reg, ks, sid).1 == Notices(reg.rooms, ks, sid)
    decreases |ks|
  {
    if ks != [] {
      var r1 := VisitRoom(reg, ks[0], sid).0;
      assert ks[0] !in ks[1..];
      DisconnectNotices(r1, ks[1..], sid);
      NoticesFrame(reg.rooms, r1.rooms, ks[1..], sid);
    }
  }

  /** `Notices` only looks at the rooms it is asked about. */
  lemma {:induction false} NoticesFrame(a: map<RoomId, Room>, b: map<RoomId, Room>, ks: seq<RoomId>, sid: Sid)
    requires forall k :: k in ks ==> k in a && k in b && a[k] == b[k]
    ensures Notices(a, ks, sid) == Notices(b, ks, sid)
    decreases |ks|
  {
    if ks != [] {
      NoticesFrame(a, b, ks[1..], sid);
    }
  }

  /** A session listed at most once in each room is in no room after its
      disconnect. */
  lemma DisconnectRemovesSingleMembership(reg: Registry, sid: Sid)
    requires reg.Valid()
    requires forall k :: k in reg.rooms ==> multiset(reg.rooms[k].participants)[sid] <= 1
    ensures var r := DisconnectFrom(reg, reg.order, sid).0;
      forall k :: k in r.rooms ==> sid !in r.rooms[k].participants
  {
    var r := DisconnectFrom(reg, reg.order, sid).0;
    forall k | k in r.rooms
      ensures sid !in r.rooms[k].participants
    {
      DisconnectRoom(reg, reg.order, sid, k);
      var ps := reg.rooms[k].participants;
      if sid in ps {
        var rest := RemoveFirst(ps, sid);
        assert multiset(rest)[sid] == 0;
      }
    }
  }

  // ---------------------------------------------------------------------
  // The handlers

  /** The relay process: the global `rooms` dict and everything emitted so far. */
  class SignalingServer {
    var order: seq<RoomId>
    var rooms: map<RoomId, Room>
    var outbox: seq<Emit>

    function State(): Registry
      reads this
    {
      Registry(order, rooms)
    }

    ghost predicate Valid()
      reads this
    {
      State().Valid()
    }

    /** Module load: `rooms = {}`. */
    constructor ()
      ensures Valid() && rooms == map[] && order == [] && outbox == []
    {
      order, rooms, outbox := [], map[], [];
    }

    /** `create-room`: `id` stands for `secrets.token_urlsafe(8)`. */
    method CreateRoom(caller: Sid, id: RoomId)
      requires Valid()
      modifies this
      ensures Valid()
      ensures rooms == old(rooms)[id := Room([], caller)]
      ensures order == if id in old(rooms) then old(order) else old(order) + [id]
      ensures outbox == old(outbox) + [Emit(Direct(caller), RoomCreated(id))]
    {
      if id !in rooms {
        order := order + [id];
      }
      rooms := rooms[id := Room([], caller)];
      outbox := outbox + [Emit(Direct(caller), RoomCreated(id))];
    }

    /** `join-room`. */
    method JoinRoom(caller: Sid, id: RoomId)
      requires Valid()
      modifies this
      ensures Valid()
      ensures id !in old(rooms) ==>
        State() == old(State()) && outbox == old(outbox) + [Emit(Direct(caller), Error("Room not found"))]
      ensures id in old(rooms) ==>
        && State() == Joined(old(State()), id, caller)
        && outbox == old(outbox) + [
             Emit(Broadcast(id, Some(caller)), UserJoined(caller)),
             Emit(Direct(caller), ExistingParticipants(Others(old(rooms)[id].participants, caller)))]
    {
      if id !in rooms {
        outbox := outbox + [Emit(Direct(caller), Error("Room not found"))];
        return;
      }
      rooms := rooms[id := rooms[id].(participants := rooms[id].participants + [caller])];
      outbox := outbox + [Emit(Broadcast(id, Some(caller)), UserJoined(caller))];
      var participants := Others(rooms[id].participants, caller);
      OthersAfterJoin(old(rooms)[id].participants, caller);
      outbox := outbox + [Emit(Direct(caller), ExistingParticipants(participants))];
    }

    /** The shared removal step of `leave-room` and `disconnect`. */
    method Drop(id: RoomId, sid: Sid) returns (deleted: bool)
      requires Valid() && id in rooms && sid in rooms[id].participants
      modifies this`order, this`rooms
      ensures Valid()
      ensures State() == DropMember(old(State()), id, sid)
      ensures deleted <==> id !in rooms
    {
      var room := rooms[id];
      rooms := rooms[id := room.(participants := RemoveFirst(room.participants, sid))];
      deleted := rooms[id].participants == [];
      if deleted {
        rooms := rooms - {id};
        order := Without(order, id);
      }
      assert rooms == DropMember(old(State()), id, sid).rooms;
    }

    /** `leave-room`. */
    method LeaveRoom(caller: Sid, id: RoomId)
      requires Valid()
      modifies this
      ensures Valid()
      ensures !(id in old(rooms) && caller in old(rooms)[id].participants) ==>
        State() == old(State()) && outbox == old(outbox)
      ensures id in old(rooms) && caller in old(rooms)[id].participants ==>
        && State() == DropMember(old(State()), id, caller)
        && outbox == old(outbox) + (if id in rooms then [Emit(Broadcast(id, None), UserLeft(caller))] else [])
    {
      if id in rooms && caller in rooms[id].participants {
        var deleted := Drop(id, caller);
        if !deleted {
          outbox := outbox + [Emit(Broadcast(id, None), UserLeft(caller))];
        }
      }
    }

    /** The body of the `disconnect` loop for one room of the snapshot. */
    method Visit(id: RoomId, caller: Sid)
      requires Valid() && id in rooms
      modifies this
      ensures Valid()
      ensures State() == VisitRoom(old(State()), id, caller).0
      ensures outbox == old(outbox) + VisitRoom(old(State()), id, caller).1
    {
      if caller in rooms[id].participants {
        var deleted := Drop(id, caller);
        if !deleted {
          outbox := outbox + [Emit(Broadcast(id, None), UserDisconnected(caller))];
        }
      }
    }

    /** `disconnect`: walks a snapshot of the rooms in dict order, mutating
        the dict as it goes. */
    method Disconnect(caller: Sid)
      requires Valid()
      modifies this
      ensures Valid()
      ensures State() == DisconnectFrom(old(State()), old(order), caller).0
      ensures outbox == old(outbox) + DisconnectFrom(old(State()), old(order), caller).1
    {
      var snapshot := order;
      ghost var target := DisconnectFrom(old(State()), snapshot, caller);
      var i := 0;
      while i < |snapshot|
        invariant 0 <= i <= |snapshot|
        invariant Valid()
        invariant Distinct(snapshot[i..]) && forall k :: k in snapshot[i..] ==> k in rooms
        invariant DisconnectFrom(State(), snapshot[i..], caller).0 == target.0
        invariant outbox + DisconnectFrom(State(), snapshot[i..], caller).1 == old(outbox) + target.1
      {
        ghost var rest := snapshot[i + 1..];
        ghost var visit := VisitRoom(State(), snapshot[i], caller);
        ghost var sent := outbox;
        DisconnectFromStep(State(), snapshot[i..], caller);
        Visit(snapshot[i], caller);
        AppendAssoc(sent, visit.1, DisconnectFrom(visit.0, rest, caller).1);
        i := i + 1;
        assert snapshot[i..] == rest;
      }
    }

    /** `signal`: forwards the payload to `to`, stamped with the caller, with
        no membership check. */
    method Signal(caller: Sid, to: Sid, signal: SignalData)
      modifies this`outbox
      ensures State() == old(State())
      ensures outbox == old(outbox) + [Emit(Direct(to), ServerEvent.Signal(caller, signal))]
    {
      outbox := outbox + [Emit(Direct(to), ServerEvent.Signal(caller, signal))];
    }
  }
}
