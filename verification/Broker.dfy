// Room membership in join order and the round-robin turn token.
module Broker {
  import opened Options
  import opened Tombstones

  type AgentId = string
  type RoomId = string

  const ROOM_TOMBSTONE_TTL := 5 * 60
  const MAX_ROOM_TOMBSTONES := 4096

  // One room as the broker sees it; no holder is recorded for an absent one.
  datatype Room = Room(members: seq<AgentId>, holder: Option<AgentId>)

  const EMPTY_ROOM := Room([], None)

  function Joined(room: Room, agent: AgentId): Room {
    Room(if agent in room.members then room.members else room.members + [agent],
         if room.holder.None? then Some(agent) else room.holder)
  }

  function Without(members: seq<AgentId>, agent: AgentId): seq<AgentId> {
    Filter((m: AgentId) => m != agent, members)
  }

  // A leaving holder passes the token to the first remaining member.
  function Left(room: Room, agent: AgentId): Room {
    var rest := Without(room.members, agent);
    Room(rest, if room.holder != Some(agent) then room.holder
               else if rest == [] then None
               else Some(rest[0]))
  }

  // First position of the agent, or the length when absent.
  function Position(members: seq<AgentId>, agent: AgentId): (i: nat)
    ensures i <= |members|
    ensures agent in members ==> i < |members| && members[i] == agent
    ensures agent !in members ==> i == |members|
  {
    if members == [] then 0
    else if members[0] == agent then 0
    else 1 + Position(members[1..], agent)
  }

  // Whom a message by `sender` passes the token to, given a member list.
  function NextHolder(members: seq<AgentId>, sender: AgentId): Option<AgentId> {
    if members == [] then None
    else if sender !in members then Some(members[0])
    else Some(members[(Position(members, sender) + 1) % |members|])
  }

  function Advanced(room: Room, sender: AgentId): Room {
    room.(holder := NextHolder(room.members, sender))
  }

  // The members are distinct, and a holder exists exactly when there are
  // members, and is one of them.
  ghost predicate TurnInv(room: Room) {
    && NoDup(room.members)
    && (room.holder.None? <==> room.members == [])
    && (room.holder.Some? ==> room.holder.value in room.members)
  }

  // --- what one operation does, member by member ---

  // A newcomer comes last, and has the token only of a room without a holder.
  lemma JoinExactly(room: Room, agent: AgentId, a: AgentId, b: AgentId)
    ensures var after := Joined(room, agent);
            && (a in after.members <==> a in room.members || a == agent)
            && (Precedes(after.members, a, b) <==>
                  Precedes(room.members, a, b) || (a in room.members && b == agent && agent !in room.members))
            && after.holder == match room.holder case Some(h) => Some(h) case None => Some(agent)
  {
    var after := Joined(room, agent).members;
    if agent !in room.members {
      assert forall i :: 0 <= i < |room.members| ==> after[i] == room.members[i];
      if i, j :| 0 <= i < j < |room.members| && room.members[i] == a && room.members[j] == b {
        assert after[i] == a && after[j] == b;
      }
      if a in room.members && b == agent {
        var i :| 0 <= i < |room.members| && room.members[i] == a;
        assert after[i] == a && after[|room.members|] == b;
      }
    }
  }

  // A leaver leaves the others in their order. The token moves only if it held it,
  // and then goes to whoever of the others came before all the rest.
  lemma LeaveExactly(room: Room, agent: AgentId, a: AgentId, b: AgentId)
    requires TurnInv(room)
    ensures var after := Left(room, agent);
            && (a in after.members <==> a in room.members && a != agent)
            && (Precedes(after.members, a, b) <==> Precedes(room.members, a, b) && a != agent && b != agent)
            && (room.holder != Some(agent) ==> after.holder == room.holder)
            && (room.holder == Some(agent) ==>
                  (after.holder == Some(a) <==>
                     && a in room.members && a != agent
                     && forall c :: c in room.members && c != agent && c != a ==> Precedes(room.members, a, c)))
  {
    var rest := Without(room.members, agent);
    FilterKeepsOrder((m: AgentId) => m != agent, room.members, a, b);
    FilterNoDup((m: AgentId) => m != agent, room.members);
    if rest != [] { FirstExactly(room.members, agent, a); }
  }

  // The first of those who remain.
  lemma FirstExactly(members: seq<AgentId>, agent: AgentId, a: AgentId)
    requires NoDup(members) && Without(members, agent) != []
    ensures Without(members, agent)[0] == a <==>
              && a in members && a != agent
              && forall c :: c in members && c != agent && c != a ==> Precedes(members, a, c)
  {
    var rest := Without(members, agent);
    FilterNoDup((m: AgentId) => m != agent, members);
    var first := rest[0];
    forall c | c in members && c != agent && c != first
      ensures Precedes(members, first, c)
    {
      assert c in rest;
      var j :| 0 <= j < |rest| && rest[j] == c;
      assert Precedes(rest, first, c);
      FilterKeepsOrder((m: AgentId) => m != agent, members, first, c);
    }
    assert first in rest;
    if a != first && a in members && a != agent {
      NotBothPrecede(members, a, first);
    }
  }

  lemma NotBothPrecede(members: seq<AgentId>, a: AgentId, b: AgentId)
    requires NoDup(members) && Precedes(members, b, a)
    ensures !Precedes(members, a, b)
  {
    var k, l :| 0 <= k < l < |members| && members[k] == b && members[l] == a;
    forall i, j | 0 <= i < |members| && 0 <= j < |members| && members[i] == a && members[j] == b
      ensures j < i
    {
      SamePlace(members, i, l);
      SamePlace(members, j, k);
    }
  }

  lemma SamePlace(members: seq<AgentId>, i: nat, j: nat)
    requires NoDup(members) && i < |members| && j < |members| && members[i] == members[j]
    ensures i == j
  {
    if i < j {
      NoDupDistinct(members, i, j);
    } else if j < i {
      NoDupDistinct(members, j, i);
    }
  }

  // A message passes the token to the member after its sender, whoever held it.
  lemma AdvanceExactly(room: Room, sender: AgentId, i: nat)
    requires NoDup(room.members)
    ensures Advanced(room, sender).members == room.members
    ensures i < |room.members| && room.members[i] == sender ==>
              Advanced(room, sender).holder == Some(if i + 1 < |room.members| then room.members[i + 1] else room.members[0])
    ensures sender !in room.members && room.members != [] ==> Advanced(room, sender).holder == Some(room.members[0])
    ensures room.members == [] ==> Advanced(room, sender).holder == None
  {
    if i < |room.members| && room.members[i] == sender { NextOf(room.members, i); }
  }

  // --- one room under any sequence of operations ---

  datatype Op =
    | Join(agent: AgentId)
    | Leave(agent: AgentId)
    | Advance(sender: AgentId)
    | Destroy

  function Apply(room: Room, op: Op): Room {
    match op
    case Join(a) => Joined(room, a)
    case Leave(a) => Left(room, a)
    case Advance(a) => Advanced(room, a)
    case Destroy => EMPTY_ROOM
  }

  function Run(room: Room, ops: seq<Op>): Room
    decreases |ops|
  {
    if ops == [] then room else Run(Apply(room, ops[0]), ops[1..])
  }

  lemma ApplyKeepsTurn(room: Room, op: Op)
    requires TurnInv(room)
    ensures TurnInv(Apply(room, op))
  {
    match op
    case Join(a) => if a !in room.members { NoDupSnoc(room.members, a); }
    case Leave(a) => FilterNoDup((m: AgentId) => m != a, room.members);
    case Advance(_) =>
    case Destroy =>
  }

  lemma {:induction false} RunKeepsTurn(room: Room, ops: seq<Op>)
    requires TurnInv(room)
    ensures TurnInv(Run(room, ops))
    decreases |ops|
  {
    if ops != [] {
      ApplyKeepsTurn(room, ops[0]);
      RunKeepsTurn(Apply(room, ops[0]), ops[1..]);
    }
  }

  // After any run of joins, leaves, sends and destruction the token is sound.
  lemma TurnIsAlwaysSound(ops: seq<Op>)
    ensures TurnInv(Run(EMPTY_ROOM, ops))
  {
    RunKeepsTurn(EMPTY_ROOM, ops);
  }

  // Leaving is the inverse of a join that added the agent.
  lemma {:induction false} JoinThenLeave(room: Room, agent: AgentId)
    requires TurnInv(room) && agent !in room.members
    ensures Left(Joined(room, agent), agent) == room
  {
    FilterConcat((m: AgentId) => m != agent, room.members, [agent]);
    FilterAll((m: AgentId) => m != agent, room.members);
    assert [agent][1..] == [];
  }

  // Whether an agent is a member after these operations, from what they do to it
  // alone.
  function StaysIn(ops: seq<Op>, agent: AgentId, member: bool): bool
    decreases |ops|
  {
    if ops == [] then member
    else
      var now := match ops[0]
                 case Join(a) => member || a == agent
                 case Leave(a) => member && a != agent
                 case Advance(_) => member
                 case Destroy => false;
      StaysIn(ops[1..], agent, now)
  }

  lemma {:induction false} MembershipFollows(room: Room, ops: seq<Op>, agent: AgentId)
    ensures agent in Run(room, ops).members <==> StaysIn(ops, agent, agent in room.members)
    decreases |ops|
  {
    if ops != [] {
      MembershipFollows(Apply(room, ops[0]), ops[1..], agent);
    }
  }

  // `advance_turn_from` reads the members and writes the holder without the
  // lifecycle lock. Whatever happens to the room between the two, the token it
  // writes is sound exactly when the member it had in mind has stayed or come
  // back, or, for a room that was empty, when nobody has come to stay.
  lemma LateAdvanceExactly(room: Room, between: seq<Op>, sender: AgentId)
    requires TurnInv(room)
    ensures var next := NextHolder(room.members, sender);
            TurnInv(Run(room, between).(holder := next)) <==>
            if next.Some? then StaysIn(between, next.value, true) else forall a: AgentId :: !StaysIn(between, a, false)
  {
    var next := NextHolder(room.members, sender);
    RunKeepsTurn(room, between);
    if next.Some? {
      MembershipFollows(room, between, next.value);
    } else {
      EmptiesExactly(room, between);
    }
  }

  // An empty room is empty again exactly when nobody has come to stay.
  lemma EmptiesExactly(room: Room, ops: seq<Op>)
    requires room.members == []
    ensures Run(room, ops).members == [] <==> forall a: AgentId :: !StaysIn(ops, a, false)
  {
    var after := Run(room, ops).members;
    if after != [] {
      MembershipFollows(room, ops, after[0]);
      assert StaysIn(ops, after[0], false);
    } else {
      NobodyStays(room, ops);
    }
  }

  lemma NobodyStays(room: Room, ops: seq<Op>)
    requires room.members == [] && Run(room, ops).members == []
    ensures forall a: AgentId :: !StaysIn(ops, a, false)
  {
    forall a: AgentId
      ensures !StaysIn(ops, a, false)
    {
      MembershipFollows(room, ops, a);
    }
  }

  // It can go wrong: the next member leaves between the two.
  lemma LateAdvanceCanHandTokenToStranger()
    ensures var room := Run(EMPTY_ROOM, [Join("a"), Join("b")]);
            var later := Left(room, "b");
            TurnInv(later) && !TurnInv(later.(holder := NextHolder(room.members, "a")))
  {
    var ops := [Join("a"), Join("b")];
    RunKeepsTurn(EMPTY_ROOM, ops);
    assert ops[1..] == [Join("b")] && ops[1..][1..] == [];
    var one := Apply(EMPTY_ROOM, Join("a"));
    var room := Apply(one, Join("b"));
    assert Run(EMPTY_ROOM, ops) == Run(one, [Join("b")]) == room;
    assert room.members == ["a", "b"];
    ApplyKeepsTurn(room, Leave("b"));
    assert Position(["a", "b"], "a") == 0;
    assert "b" !in Without(room.members, "b");
  }

  // --- rotation ---

  lemma {:induction false} PositionOf(members: seq<AgentId>, i: nat)
    requires NoDup(members) && i < |members|
    ensures Position(members, members[i]) == i
  {
    if i > 0 {
      NoDupDistinct(members, 0, i);
      PositionOf(members[1..], i - 1);
    }
  }

  // `sends` messages, each by whoever holds the token at that moment.
  function HolderSends(room: Room, sends: nat): Room {
    if sends == 0 then room
    else
      var before := HolderSends(room, sends - 1);
      if before.holder.None? then before else Advanced(before, before.holder.value)
  }

  // Position k places after i, going round once at most.
  function Around(i: nat, k: nat, n: nat): nat
    requires i < n && k <= n
  {
    if i + k < n then i + k else i + k - n
  }

  lemma ModNext(i: nat, n: nat)
    requires i < n
    ensures (i + 1) % n == if i + 1 < n then i + 1 else 0
  {}

  lemma NextOf(members: seq<AgentId>, i: nat)
    requires NoDup(members) && i < |members|
    ensures NextHolder(members, members[i]) == Some(members[if i + 1 < |members| then i + 1 else 0])
  {
    PositionOf(members, i);
    ModNext(i, |members|);
  }

  // The holder after k such sends is the member k places further on.
  lemma {:induction false} HolderAfter(room: Room, i: nat, k: nat)
    requires TurnInv(room) && i < |room.members| && room.holder == Some(room.members[i])
    requires k <= |room.members|
    ensures HolderSends(room, k) == room.(holder := Some(room.members[Around(i, k, |room.members|)]))
  {
    if k > 0 {
      HolderAfter(room, i, k - 1);
      NextOf(room.members, Around(i, k - 1, |room.members|));
    }
  }

  // How many such sends it takes until the agent holds the token.
  function Distance(room: Room, agent: AgentId): (k: nat)
    requires room.holder.Some? && room.holder.value in room.members && agent in room.members
    ensures k < |room.members|
  {
    var i := Position(room.members, room.holder.value);
    var p := Position(room.members, agent);
    if p >= i then p - i else p + |room.members| - i
  }

  // With n members and no churn, n sends by the holders bring the token back to
  // its start, and on the way every member holds it exactly once.
  lemma TokenVisitsEveryoneOnce(room: Room, agent: AgentId)
    requires TurnInv(room) && agent in room.members
    ensures HolderSends(room, |room.members|) == room
    ensures forall j :: 0 <= j < |room.members| ==>
              (HolderSends(room, j).holder == Some(agent) <==> j == Distance(room, agent))
  {
    var i := Position(room.members, room.holder.value);
    HolderAfter(room, i, |room.members|);
    forall j | 0 <= j < |room.members|
      ensures HolderSends(room, j).holder == Some(agent) <==> j == Distance(room, agent)
    {
      HolderAfter(room, i, j);
      PositionOf(room.members, Around(i, j, |room.members|));
    }
  }

  // --- the broker's maps ---

  datatype LeaveOutcome = LeaveOutcome(nowEmpty: bool, newHolder: Option<AgentId>, holderChanged: bool)

  // What a leave reports of the room it changes.
  function OutcomeOf(before: Room, agent: AgentId): LeaveOutcome {
    var after := Left(before, agent);
    var changed := before.holder == Some(agent);
    LeaveOutcome(after.members == [], if changed then after.holder else None, changed)
  }

  // It reports whether nobody is left, and to whom the token went if the leaver had it.
  lemma OutcomeExactly(before: Room, agent: AgentId)
    requires TurnInv(before)
    ensures var r := OutcomeOf(before, agent);
            && (r.nowEmpty <==> forall a :: a in before.members ==> a == agent)
            && (r.holderChanged <==> before.holder == Some(agent))
            && (r.newHolder.Some? <==> before.holder == Some(agent) && exists a :: a in before.members && a != agent)
            && (r.newHolder.Some? ==> r.newHolder == Left(before, agent).holder)
  {
    var rest := Left(before, agent).members;
    if rest != [] {
      assert rest[0] in rest;
    } else {
      forall a | a in before.members
        ensures a == agent
      {
        assert a != agent ==> a in rest;
      }
    }
  }

  class Broker {
    var roomMembers: map<RoomId, seq<AgentId>>
    var turnHolders: map<RoomId, AgentId>
    var tombstones: map<RoomId, int>

    constructor ()
      ensures roomMembers == map[] && turnHolders == map[] && tombstones == map[]
    {
      roomMembers, turnHolders, tombstones := map[], map[], map[];
    }

    // What the maps say about one room.
    ghost function View(room: RoomId): Room
      reads this
    {
      Room(if room in roomMembers then roomMembers[room] else [],
           if room in turnHolders then Some(turnHolders[room]) else None)
    }

    ghost predicate Valid()
      reads this
    {
      forall r :: TurnInv(View(r))
    }

    method PruneTombstones(now: int)
      modifies this`tombstones
      ensures Pruned(old(tombstones), tombstones, now, ROOM_TOMBSTONE_TTL, MAX_ROOM_TOMBSTONES)
    {
      tombstones := Prune(tombstones, now, ROOM_TOMBSTONE_TTL, MAX_ROOM_TOMBSTONES);
    }

    // Admission is refused for a tombstoned room and for one the store no longer
    // has; otherwise the agent is a member, and takes the token of an empty room.
    method JoinRoom(agent: AgentId, room: RoomId, roomExists: bool, now: int)
      returns (ok: bool, newHolder: Option<AgentId>)
      requires Valid()
      modifies this
      ensures Valid()
      ensures Pruned(old(tombstones), tombstones, now, ROOM_TOMBSTONE_TTL, MAX_ROOM_TOMBSTONES)
      ensures ok == (room !in tombstones && roomExists)
      ensures View(room) == if ok then Joined(old(View(room)), agent) else old(View(room))
      ensures forall r :: r != room ==> View(r) == old(View(r))
      ensures newHolder == if ok && old(View(room)).holder.None? then Some(agent) else None
    {
      PruneTombstones(now);
      assert forall r :: View(r) == old(View(r));
      newHolder := None;
      ok := room !in tombstones && roomExists;
      if !ok {
        return;
      }
      assert TurnInv(View(room));
      ApplyKeepsTurn(View(room), Join(agent));
      var entry := if room in roomMembers then roomMembers[room] else [];
      if agent !in entry {
        entry := entry + [agent];
      }
      roomMembers := roomMembers[room := entry];
      if room !in turnHolders {
        turnHolders := turnHolders[room := agent];
        newHolder := Some(agent);
      }
      assert forall r :: r != room ==> View(r) == old(View(r));
    }

    method LeaveRoom(agent: AgentId, room: RoomId, now: int) returns (outcome: LeaveOutcome)
      requires TurnInv(View(room))
      modifies this
      ensures TurnInv(View(room))
      ensures View(room) == Left(old(View(room)), agent)
      ensures forall r :: r != room ==> View(r) == old(View(r))
      ensures roomMembers.Keys == old(roomMembers.Keys)
      ensures outcome == OutcomeOf(old(View(room)), agent)
    {
      PruneTombstones(now);
      assert forall r :: View(r) == old(View(r));
      ApplyKeepsTurn(View(room), Leave(agent));
      var wasHolder := room in turnHolders && turnHolders[room] == agent;
      var nowEmpty := true;
      if room in roomMembers {
        roomMembers := roomMembers[room := Without(roomMembers[room], agent)];
        nowEmpty := roomMembers[room] == [];
      }
      var newHolder: Option<AgentId> := None;
      if wasHolder {
        if nowEmpty {
          turnHolders := turnHolders - {room};
        } else {
          newHolder := Some(roomMembers[room][0]);
          turnHolders := turnHolders[room := roomMembers[room][0]];
        }
      }
      assert forall r :: r != room ==> View(r) == old(View(r));
      outcome := LeaveOutcome(nowEmpty, newHolder, wasHolder);
    }

    method LeaveAllRooms(agent: AgentId, now: int) returns (outcomes: map<RoomId, LeaveOutcome>)
      requires Valid()
      modifies this
      ensures Valid()
      ensures forall r :: View(r) == if agent in old(View(r)).members then Left(old(View(r)), agent) else old(View(r))
      ensures forall r :: r in outcomes <==> agent in old(View(r)).members
      ensures forall r :: r in outcomes ==> outcomes[r] == OutcomeOf(old(View(r)), agent)
    {
      var rooms := set r | r in roomMembers && agent in roomMembers[r];
      outcomes := LeaveEach(agent, rooms, now);
      forall r
        ensures TurnInv(View(r))
      {
        assert TurnInv(old(View(r)));
        ApplyKeepsTurn(old(View(r)), Leave(agent));
      }
    }

    method LeaveEach(agent: AgentId, rooms: set<RoomId>, now: int) returns (outcomes: map<RoomId, LeaveOutcome>)
      requires forall r :: r in rooms ==> TurnInv(View(r))
      modifies this
      ensures outcomes.Keys == rooms
      ensures forall r :: View(r) == if r in rooms then Left(old(View(r)), agent) else old(View(r))
      ensures forall r :: r in rooms ==> outcomes[r] == OutcomeOf(old(View(r)), agent)
    {
      outcomes := map[];
      var todo := rooms;
      while todo != {}
        invariant todo <= rooms && outcomes.Keys == rooms - todo
        invariant forall r :: r in outcomes ==> View(r) == Left(old(View(r)), agent)
        invariant forall r :: r !in outcomes ==> View(r) == old(View(r))
        invariant forall r :: r in outcomes ==> outcomes[r] == OutcomeOf(old(View(r)), agent)
        decreases todo
      {
        var r :| r in todo;
        assert TurnInv(old(View(r)));
        outcomes := LeaveNext(agent, r, outcomes, now);
        todo := todo - {r};
      }
    }

    // One room of several to leave.
    method LeaveNext(agent: AgentId, room: RoomId, before: map<RoomId, LeaveOutcome>, now: int)
      returns (outcomes: map<RoomId, LeaveOutcome>)
      requires TurnInv(View(room))
      modifies this
      ensures outcomes == before[room := OutcomeOf(old(View(room)), agent)]
      ensures View(room) == Left(old(View(room)), agent)
      ensures forall r :: r != room ==> View(r) == old(View(r))
    {
      var outcome := LeaveRoom(agent, room, now);
      outcomes := before[room := outcome];
    }

    method AdvanceTurnFrom(room: RoomId, sender: AgentId) returns (next: Option<AgentId>)
      requires Valid()
      modifies this`turnHolders
      ensures Valid()
      ensures View(room) == Advanced(old(View(room)), sender)
      ensures forall r :: r != room ==> View(r) == old(View(r))
      ensures next == View(room).holder
    {
      ApplyKeepsTurn(View(room), Advance(sender));
      var members := if room in roomMembers then roomMembers[room] else [];
      if members == [] {
        turnHolders := turnHolders - {room};
        assert forall r :: r != room ==> View(r) == old(View(r));
        return None;
      }
      next := NextHolder(members, sender);
      turnHolders := turnHolders[room := next.value];
      assert forall r :: r != room ==> View(r) == old(View(r));
    }

    method Tombstone(room: RoomId, now: int)
      modifies this`tombstones
      ensures |tombstones| <= MAX_ROOM_TOMBSTONES
      ensures forall r :: r in tombstones && r != room ==> r in old(tombstones) && tombstones[r] == old(tombstones)[r]
      ensures SurelyRecorded(old(tombstones), room, now, ROOM_TOMBSTONE_TTL, MAX_ROOM_TOMBSTONES) ==>
                room in tombstones && tombstones[room] == now
      ensures (forall r :: r in old(tombstones) ==> old(tombstones)[r] <= now) ==>
                Pruned(old(tombstones)[room := now], tombstones, now, ROOM_TOMBSTONE_TTL, MAX_ROOM_TOMBSTONES)
    {
      tombstones := Record(tombstones, room, now, ROOM_TOMBSTONE_TTL, MAX_ROOM_TOMBSTONES);
    }

    // Deletion and clean-up under one lock; a failed deletion changes no room.
    method DestroyRoomWith(room: RoomId, deleted: bool, now: int) returns (members: Option<seq<AgentId>>)
      requires Valid()
      modifies this
      ensures Valid()
      ensures members == if deleted then Some(old(View(room)).members) else None
      ensures View(room) == if deleted then EMPTY_ROOM else old(View(room))
      ensures forall r :: r != room ==> View(r) == old(View(r))
      ensures !deleted ==> Pruned(old(tombstones), tombstones, now, ROOM_TOMBSTONE_TTL, MAX_ROOM_TOMBSTONES)
      ensures deleted ==> |tombstones| <= MAX_ROOM_TOMBSTONES
      ensures deleted && SurelyRecorded(old(tombstones), room, now, ROOM_TOMBSTONE_TTL, MAX_ROOM_TOMBSTONES) ==>
                room in tombstones && tombstones[room] == now
    {
      PruneTombstones(now);
      assert forall r :: View(r) == old(View(r));
      if !deleted {
        return None;
      }
      PrunedStaySure(old(tombstones), tombstones, room, now, ROOM_TOMBSTONE_TTL, MAX_ROOM_TOMBSTONES);
      Tombstone(room, now);
      members := Some(if room in roomMembers then roomMembers[room] else []);
      assert members.value == View(room).members && forall r :: View(r) == old(View(r));
      RemoveRoom(room);
    }

    method RemoveRoom(room: RoomId)
      modifies this`roomMembers, this`turnHolders
      ensures View(room) == EMPTY_ROOM && forall r :: r != room ==> View(r) == old(View(r))
    {
      roomMembers := roomMembers - {room};
      turnHolders := turnHolders - {room};
      assert forall r :: r != room ==> View(r) == old(View(r));
    }
  }
}
