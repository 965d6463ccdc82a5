// The reconnect manager: state stashed for disconnected agents, exclusive
// claims on it, and buffering of the events those agents miss.
module Reconnect {
  import opened Options
  import opened Tombstones
  import Access

  const RECONNECT_WINDOW_SECS := 120
  const MAX_BUFFERED_MESSAGES := 200
  const DESTROYED_ROOM_TTL := RECONNECT_WINDOW_SECS + 60
  const MAX_DESTROYED_ROOMS := 4096

  type AgentId = string
  type RoomId = string
  type Token = nat

  // A frame with its unique id and the two places its payload may name a room.
  datatype Frame = Frame(id: Option<nat>, payloadRoom: Option<RoomId>, messageRoom: Option<RoomId>)

  function FrameRoomId(frame: Frame): Option<RoomId> {
    if frame.payloadRoom.Some? then frame.payloadRoom else frame.messageRoom
  }

  // What that means: the payload's own room counts before its message's.
  predicate Names(frame: Frame, room: RoomId) {
    frame.payloadRoom == Some(room) || (frame.payloadRoom.None? && frame.messageRoom == Some(room))
  }

  datatype StashedAgent = StashedAgent(
    agentId: AgentId, name: string, apiKey: string,
    rooms: set<RoomId>, missed: seq<Frame>, disconnectedAt: int, claim: Option<Token>)

  datatype ReclaimError = CredentialMismatch | AlreadyClaimed

  // --- what each operation does to the stash of one agent ---

  predicate Expired(stash: StashedAgent, now: int) {
    now - stash.disconnectedAt >= RECONNECT_WINDOW_SECS
  }

  // Buffers a frame unless the stash is full.
  function Buffered(stash: StashedAgent, frame: Frame): StashedAgent {
    if |stash.missed| < MAX_BUFFERED_MESSAGES then stash.(missed := stash.missed + [frame]) else stash
  }

  function Forgotten(stash: StashedAgent, room: RoomId): StashedAgent {
    stash.(rooms := stash.rooms - {room},
           missed := Filter((f: Frame) => FrameRoomId(f) != Some(room), stash.missed))
  }

  // Forgetting a room takes it and its frames, and leaves the other rooms, and the
  // other frames in the order they had.
  lemma ForgottenKeepsOthers(stash: StashedAgent, room: RoomId, f: Frame, g: Frame)
    ensures var after := Forgotten(stash, room);
            && after == stash.(rooms := after.rooms, missed := after.missed)
            && (forall r :: r in after.rooms <==> r in stash.rooms && r != room)
            && (f in after.missed <==> f in stash.missed && !Names(f, room))
            && (Precedes(after.missed, f, g) <==> Precedes(stash.missed, f, g) && !Names(f, room) && !Names(g, room))
  {
    FilterKeepsOrder((f: Frame) => FrameRoomId(f) != Some(room), stash.missed, f, g);
  }

  datatype ClaimOutcome = NoStash | Claimed | Rejected(error: ReclaimError)

  // Removes an expired stash, refuses a wrong key or a stash already claimed,
  // and otherwise marks the stash with the token without removing it.
  function ClaimStash(stash: Option<StashedAgent>, apiKey: string, noAuth: bool, token: Token, now: int)
    : (Option<StashedAgent>, ClaimOutcome)
  {
    match stash
    case None => (None, NoStash)
    case Some(s) =>
      if Expired(s, now) then (None, NoStash)
      else if !noAuth && s.apiKey != apiKey then (stash, Rejected(CredentialMismatch))
      else if s.claim.Some? then (stash, Rejected(AlreadyClaimed))
      else (Some(s.(claim := Some(token))), Claimed)
  }

  predicate HoldsLease(stash: Option<StashedAgent>, token: Token) {
    stash.Some? && stash.value.claim == Some(token)
  }

  function CommitLease(stash: Option<StashedAgent>, token: Token): Option<StashedAgent> {
    if HoldsLease(stash, token) then None else stash
  }

  function DropLease(stash: Option<StashedAgent>, token: Token): Option<StashedAgent> {
    if HoldsLease(stash, token) then Some(stash.value.(claim := None)) else stash
  }

  // --- the manager ---

  function Get(m: map<AgentId, StashedAgent>, agent: AgentId): Option<StashedAgent> {
    if agent in m then Some(m[agent]) else None
  }

  function Put(m: map<AgentId, StashedAgent>, agent: AgentId, stash: Option<StashedAgent>): map<AgentId, StashedAgent> {
    match stash
    case None => m - {agent}
    case Some(s) => m[agent := s]
  }

  // Whether a stash takes part in a room event: its key may discover the room,
  // and it has space left.
  predicate Receives(stash: StashedAgent, visibility: string, ownerKey: Option<string>, granted: set<string>, noAuth: bool) {
    && (|| Access.CanAccessRoomParts(visibility, ownerKey, stash.apiKey, noAuth)
        || (stash.apiKey != "" && stash.apiKey in granted))
    && |stash.missed| < MAX_BUFFERED_MESSAGES
  }

  // Who may discover a room, case by case.
  predicate MayDiscover(apiKey: string, visibility: string, ownerKey: Option<string>, granted: set<string>, noAuth: bool) {
    || noAuth
    || visibility == "public"
    || (apiKey == "" && ownerKey.None?)
    || (apiKey != "" && apiKey in granted)
    || (apiKey != "" && ownerKey == Some(apiKey) && apiKey != Access.LEGACY_UNOWNED_OWNER_KEY)
  }

  // Exactly the stashes with space whose key may discover the room.
  lemma ReceivesExactly(stash: StashedAgent, visibility: string, ownerKey: Option<string>, granted: set<string>, noAuth: bool)
    ensures Receives(stash, visibility, ownerKey, granted, noAuth) <==>
              |stash.missed| < 200 && MayDiscover(stash.apiKey, visibility, ownerKey, granted, noAuth)
  {}

  predicate NamesDestroyedRoom(destroyed: map<RoomId, int>, frame: Frame) {
    FrameRoomId(frame).Some? && FrameRoomId(frame).value in destroyed
  }

  lemma NamesDestroyedExactly(destroyed: map<RoomId, int>, frame: Frame)
    ensures NamesDestroyedRoom(destroyed, frame) <==> exists r :: r in destroyed && Names(frame, r)
  {
    if NamesDestroyedRoom(destroyed, frame) { assert Names(frame, FrameRoomId(frame).value); }
  }

  class DestroyedRoomCache {
    var rooms: map<RoomId, int>

    constructor ()
      ensures rooms == map[]
    {
      rooms := map[];
    }

    method PruneAt(now: int)
      modifies this
      ensures Pruned(old(rooms), rooms, now, DESTROYED_ROOM_TTL, MAX_DESTROYED_ROOMS)
    {
      rooms := Prune(rooms, now, DESTROYED_ROOM_TTL, MAX_DESTROYED_ROOMS);
    }

    // Prunes, records the room and prunes again, so that the bound holds afterwards.
    method Insert(room: RoomId, now: int)
      modifies this
      ensures |rooms| <= MAX_DESTROYED_ROOMS
      ensures forall r :: r in rooms && r != room ==> r in old(rooms) && rooms[r] == old(rooms)[r]
      ensures SurelyRecorded(old(rooms), room, now, DESTROYED_ROOM_TTL, MAX_DESTROYED_ROOMS) ==>
                room in rooms && rooms[room] == now
      ensures (forall r :: r in old(rooms) ==> old(rooms)[r] <= now) ==>
                Pruned(old(rooms)[room := now], rooms, now, DESTROYED_ROOM_TTL, MAX_DESTROYED_ROOMS)
    {
      rooms := Record(rooms, room, now, DESTROYED_ROOM_TTL, MAX_DESTROYED_ROOMS);
    }

    method Contains(room: RoomId, now: int) returns (found: bool)
      modifies this
      ensures Pruned(old(rooms), rooms, now, DESTROYED_ROOM_TTL, MAX_DESTROYED_ROOMS)
      ensures found == (room in rooms)
    {
      PruneAt(now);
      found := room in rooms;
    }
  }

  class ReconnectManager {
    var stashed: map<AgentId, StashedAgent>
    const destroyed: DestroyedRoomCache

    constructor ()
      ensures stashed == map[] && destroyed.rooms == map[] && fresh(destroyed)
    {
      stashed := map[];
      destroyed := new DestroyedRoomCache();
    }

    ghost predicate Valid()
      reads this
    {
      forall a :: a in stashed ==> stashed[a].agentId == a && |stashed[a].missed| <= MAX_BUFFERED_MESSAGES
    }

    // Replaces whatever was stashed for the agent. Rooms already recorded as
    // destroyed are left out, before the insertion and once more after it.
    method Stash(agent: AgentId, name: string, apiKey: string, rooms: set<RoomId>, now: int)
      requires Valid()
      modifies this, destroyed
      ensures Valid()
      ensures Pruned(old(destroyed.rooms), destroyed.rooms, now, DESTROYED_ROOM_TTL, MAX_DESTROYED_ROOMS)
      ensures stashed == old(stashed)[agent :=
                StashedAgent(agent, name, apiKey, rooms - destroyed.rooms.Keys, [], now, None)]
    {
      destroyed.PruneAt(now);
      var open := set r | r in rooms && r !in destroyed.rooms;
      stashed := stashed[agent := StashedAgent(agent, name, apiKey, open, [], now, None)];
      var entry := stashed[agent];
      stashed := stashed[agent := entry.(rooms := set r | r in entry.rooms && r !in destroyed.rooms)];
      assert stashed[agent].rooms == rooms - destroyed.rooms.Keys;
    }

    method BeginReclaim(agent: AgentId, apiKey: string, noAuth: bool, token: Token, now: int)
      returns (outcome: ClaimOutcome, lease: ReclaimLease?)
      requires Valid()
      modifies this
      ensures Valid()
      ensures outcome == ClaimStash(Get(old(stashed), agent), apiKey, noAuth, token, now).1
      ensures stashed == Put(old(stashed), agent, ClaimStash(Get(old(stashed), agent), apiKey, noAuth, token, now).0)
      // Stashed within the last two minutes, or not at all.
      ensures outcome == NoStash <==> agent !in old(stashed) || now >= old(stashed)[agent].disconnectedAt + 120
      ensures outcome == Rejected(CredentialMismatch) <==>
                && agent in old(stashed) && now < old(stashed)[agent].disconnectedAt + 120
                && !noAuth && old(stashed)[agent].apiKey != apiKey
      ensures outcome == Rejected(AlreadyClaimed) <==>
                && agent in old(stashed) && now < old(stashed)[agent].disconnectedAt + 120
                && (noAuth || old(stashed)[agent].apiKey == apiKey) && old(stashed)[agent].claim.Some?
      ensures outcome == Claimed <==>
                && agent in old(stashed) && now < old(stashed)[agent].disconnectedAt + 120
                && (noAuth || old(stashed)[agent].apiKey == apiKey) && old(stashed)[agent].claim.None?
      ensures stashed == match outcome
                         case NoStash => old(stashed) - {agent}
                         case Rejected(_) => old(stashed)
                         case Claimed => old(stashed)[agent := old(stashed)[agent].(claim := Some(token))]
      ensures outcome.Claimed? <==> lease != null
      ensures lease != null ==> fresh(lease) && lease.manager == this && lease.agentId == agent
                                && lease.token == token && lease.active
    {
      lease := null;
      if agent !in stashed {
        assert stashed - {agent} == stashed;
        return NoStash, null;
      }
      var stash := stashed[agent];
      assert stashed[agent := stash] == stashed;
      if Expired(stash, now) {
        stashed := stashed - {agent};
        return NoStash, null;
      }
      if !noAuth && stash.apiKey != apiKey {
        return Rejected(CredentialMismatch), null;
      }
      if stash.claim.Some? {
        return Rejected(AlreadyClaimed), null;
      }
      stashed := stashed[agent := stash.(claim := Some(token))];
      lease := new ReclaimLease(this, agent, token);
      outcome := Claimed;
    }

    // The check against the destroyed rooms happens before the entry is locked.
    method BufferMessage(agent: AgentId, frame: Frame, now: int)
      requires Valid()
      modifies this, destroyed
      ensures Valid()
      ensures stashed == if NamesDestroyedRoom(destroyed.rooms, frame) || agent !in old(stashed) then old(stashed)
                         else old(stashed)[agent := Buffered(old(stashed)[agent], frame)]
      ensures (exists r :: r in destroyed.rooms && Names(frame, r)) || agent !in old(stashed) ==> stashed == old(stashed)
      ensures !(exists r :: r in destroyed.rooms && Names(frame, r)) && agent in old(stashed) ==>
                stashed == old(stashed)[agent := if |old(stashed)[agent].missed| < 200
                                                 then old(stashed)[agent].(missed := old(stashed)[agent].missed + [frame])
                                                 else old(stashed)[agent]]
      ensures destroyed.rooms == old(destroyed.rooms)
              || Pruned(old(destroyed.rooms), destroyed.rooms, now, DESTROYED_ROOM_TTL, MAX_DESTROYED_ROOMS)
    {
      if FrameRoomId(frame).Some? {
        var gone := destroyed.Contains(FrameRoomId(frame).value, now);
        if gone {
          return;
        }
      }
      if agent in stashed {
        var stash := stashed[agent];
        if |stash.missed| < MAX_BUFFERED_MESSAGES {
          stash := stash.(missed := stash.missed + [frame]);
        }
        stashed := stashed[agent := stash];
      }
    }

    // Visits every stash once. The returned set is exactly the agents whose
    // stash took the frame; every other stash is untouched.
    method BufferVisibleRoomEvent(visibility: string, ownerKey: Option<string>, granted: set<string>,
                                  noAuth: bool, frame: Frame, now: int)
      returns (buffered: set<AgentId>)
      requires Valid()
      modifies this, destroyed
      ensures Valid()
      ensures destroyed.rooms == old(destroyed.rooms)
              || Pruned(old(destroyed.rooms), destroyed.rooms, now, DESTROYED_ROOM_TTL, MAX_DESTROYED_ROOMS)
      ensures stashed.Keys == old(stashed).Keys
      ensures forall a :: a in buffered <==>
                a in old(stashed) && Receives(old(stashed)[a], visibility, ownerKey, granted, noAuth)
                && !NamesDestroyedRoom(destroyed.rooms, frame)
      ensures forall a :: a in stashed ==>
                stashed[a] == if a in buffered then old(stashed)[a].(missed := old(stashed)[a].missed + [frame])
                              else old(stashed)[a]
    {
      buffered := {};
      // One pruning stands for the pruning of every lookup made at this instant.
      if FrameRoomId(frame).Some? {
        destroyed.PruneAt(now);
      }
      var gone := NamesDestroyedRoom(destroyed.rooms, frame);
      var todo := stashed.Keys;
      while todo != {}
        modifies this
        invariant Valid()
        invariant todo <= stashed.Keys == old(stashed).Keys
        invariant buffered !! todo && buffered <= old(stashed).Keys
        invariant forall a :: a in old(stashed) && a !in todo ==>
                    (a in buffered <==> Receives(old(stashed)[a], visibility, ownerKey, granted, noAuth) && !gone)
        invariant forall a :: a in stashed ==>
                    stashed[a] == if a in buffered then Buffered(old(stashed)[a], frame) else old(stashed)[a]
        decreases todo
      {
        var a :| a in todo;
        todo := todo - {a};
        var entry := stashed[a];
        if Receives(entry, visibility, ownerKey, granted, noAuth) && !gone {
          stashed := stashed[a := entry.(missed := entry.missed + [frame])];
          buffered := buffered + {a};
        }
      }
    }

    // Records the room as destroyed, then removes it from every stash.
    method ForgetRoom(room: RoomId, now: int)
      requires Valid()
      modifies this, destroyed
      ensures Valid()
      ensures |destroyed.rooms| <= MAX_DESTROYED_ROOMS
      ensures SurelyRecorded(old(destroyed.rooms), room, now, DESTROYED_ROOM_TTL, MAX_DESTROYED_ROOMS) ==>
                room in destroyed.rooms && destroyed.rooms[room] == now
      ensures (forall r :: r in old(destroyed.rooms) ==> old(destroyed.rooms)[r] <= now) ==>
                Pruned(old(destroyed.rooms)[room := now], destroyed.rooms, now, DESTROYED_ROOM_TTL, MAX_DESTROYED_ROOMS)
      ensures stashed.Keys == old(stashed).Keys
      ensures forall a :: a in stashed ==> stashed[a] == Forgotten(old(stashed)[a], room)
      ensures forall a, r :: a in stashed ==> (r in stashed[a].rooms <==> r in old(stashed)[a].rooms && r != room)
      ensures forall a, f :: a in stashed ==> (f in stashed[a].missed <==> f in old(stashed)[a].missed && !Names(f, room))
    {
      destroyed.Insert(room, now);
      var todo := stashed.Keys;
      while todo != {}
        modifies this
        invariant Valid()
        invariant todo <= stashed.Keys == old(stashed).Keys
        invariant forall a :: a in stashed ==>
                    stashed[a] == if a in todo then old(stashed)[a] else Forgotten(old(stashed)[a], room)
        decreases todo
      {
        var a :| a in todo;
        todo := todo - {a};
        var entry := stashed[a];
        FilterShorter((f: Frame) => FrameRoomId(f) != Some(room), entry.missed);
        stashed := stashed[a := entry.(rooms := entry.rooms - {room},
                                       missed := Filter((f: Frame) => FrameRoomId(f) != Some(room), entry.missed))];
      }
    }

    // The periodic clean-up.
    method DiscardExpired(now: int)
      requires Valid()
      modifies this, destroyed
      ensures Valid()
      ensures forall a :: a in stashed <==> a in old(stashed) && now < old(stashed)[a].disconnectedAt + 120
      ensures forall a :: a in stashed ==> stashed[a] == old(stashed)[a]
      ensures Pruned(old(destroyed.rooms), destroyed.rooms, now, DESTROYED_ROOM_TTL, MAX_DESTROYED_ROOMS)
    {
      stashed := map a | a in stashed && !Expired(stashed[a], now) :: stashed[a];
      destroyed.PruneAt(now);
    }
  }

  lemma {:induction false} FilterShorter(keep: Frame -> bool, s: seq<Frame>)
    ensures |Filter(keep, s)| <= |s|
  {
    if s != [] {
      FilterShorter(keep, s[1..]);
    }
  }

  // Exclusive, abort-safe ownership of a stash while registration is pending.
  class ReclaimLease {
    const manager: ReconnectManager
    const agentId: AgentId
    const token: Token
    var active: bool

    constructor (manager: ReconnectManager, agentId: AgentId, token: Token)
      ensures this.manager == manager && this.agentId == agentId && this.token == token && active
    {
      this.manager, this.agentId, this.token, active := manager, agentId, token, true;
    }

    method Snapshot() returns (stash: Option<StashedAgent>)
      ensures stash == if agentId in manager.stashed && manager.stashed[agentId].claim == Some(token)
                       then Some(manager.stashed[agentId]) else None
    {
      if agentId in manager.stashed && manager.stashed[agentId].claim == Some(token) {
        stash := Some(manager.stashed[agentId]);
      } else {
        stash := None;
      }
    }

    // Takes the stash out, if this lease still owns it; its buffered frames are
    // handed to the caller.
    method Commit() returns (taken: Option<StashedAgent>)
      requires active && manager.Valid()
      modifies this, manager
      ensures !active && manager.Valid()
      ensures manager.stashed == Put(old(manager.stashed), agentId, CommitLease(Get(old(manager.stashed), agentId), token))
      ensures agentId in old(manager.stashed) && old(manager.stashed)[agentId].claim == Some(token) ==>
                && manager.stashed == old(manager.stashed) - {agentId}
                && taken == Some(old(manager.stashed)[agentId].(claim := None))
      ensures !(agentId in old(manager.stashed) && old(manager.stashed)[agentId].claim == Some(token)) ==>
                manager.stashed == old(manager.stashed) && taken.None?
    {
      if agentId in manager.stashed && manager.stashed[agentId].claim == Some(token) {
        taken := Some(manager.stashed[agentId].(claim := None));
        manager.stashed := manager.stashed - {agentId};
      } else {
        taken := None;
        assert Put(manager.stashed, agentId, Get(manager.stashed, agentId)) == manager.stashed;
      }
      active := false;
    }

    // What dropping an uncommitted lease does: the stash becomes claimable again
    // and loses nothing.
    method Release()
      requires manager.Valid()
      modifies manager
      ensures manager.Valid()
      ensures manager.stashed == if active
                then Put(old(manager.stashed), agentId, DropLease(Get(old(manager.stashed), agentId), token))
                else old(manager.stashed)
      ensures manager.stashed ==
                if active && agentId in old(manager.stashed) && old(manager.stashed)[agentId].claim == Some(token)
                then old(manager.stashed)[agentId := old(manager.stashed)[agentId].(claim := None)]
                else old(manager.stashed)
    {
      if active && agentId in manager.stashed {
        var entry := manager.stashed[agentId];
        if entry.claim == Some(token) {
          manager.stashed := manager.stashed[agentId := entry.(claim := None)];
        } else {
          assert manager.stashed[agentId := entry] == manager.stashed;
        }
      } else if active {
        assert manager.stashed - {agentId} == manager.stashed;
      }
    }
  }
}
