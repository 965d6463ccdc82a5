// Room destruction against everything that could bring a room back: joins,
// reconnect restores, stashing and buffering, interleaved step by step.
module Destruction {
  import opened Options
  import opened Reconnect

  // A `buffer_message` between its check of the destroyed rooms and its push.
  datatype Push = Push(agent: AgentId, frame: Frame)

  datatype State = State(
    durable: set<RoomId>,                  // rows of `rooms`
    used: set<RoomId>,                     // every id ever given out
    members: map<RoomId, set<AgentId>>,
    tombstones: set<RoomId>,
    deleting: Option<RoomId>,              // a destruction holding the lifecycle lock
    destroyedCache: set<RoomId>,
    stashes: map<AgentId, StashedAgent>,
    filtered: map<AgentId, set<RoomId>>,   // stashing: rooms after the first filter
    unchecked: set<AgentId>,               // stashing: inserted, second filter to come
    toVisit: map<RoomId, set<AgentId>>,    // forgetting: stashes still to visit
    forgotten: set<RoomId>,                // forgetting has begun, now or earlier
    pushes: set<Push>,
    late: set<Frame>)                      // history: pushed although recorded destroyed

  datatype Step =
    | Create(room: RoomId)
    | Join(agent: AgentId, room: RoomId)          // also reconnect restore and takeover
    | Leave(agent: AgentId, room: RoomId)
    | DestroyDelete(room: RoomId)                 // durable delete, lock taken
    | DestroyClean                                // tombstone and clear, lock released
    | EvictTombstone(room: RoomId)
    | ForgetBegin(room: RoomId)
    | ForgetVisit(room: RoomId, agent: AgentId)
    | EvictCache(room: RoomId)
    | StashFilter(agent: AgentId, rooms: set<RoomId>)
    | StashInsert(agent: AgentId, stash: StashedAgent)
    | StashRecheck(agent: AgentId)
    | RemoveStash(agent: AgentId)
    | BufferVisible(agent: AgentId, frame: Frame)
    | PushCheck(agent: AgentId, frame: Frame)
    | PushDo(push: Push)

  const INITIAL := State({}, {}, map[], {}, None, {}, map[], map[], {}, map[], {}, {}, {})

  predicate NamesRoomIn(frame: Frame, rooms: set<RoomId>) {
    FrameRoomId(frame).Some? && FrameRoomId(frame).value in rooms
  }

  function MembersOf(st: State, room: RoomId): set<AgentId> {
    if room in st.members then st.members[room] else {}
  }

  function PutStash(st: State, agent: AgentId, stash: StashedAgent): State {
    st.(stashes := st.stashes[agent := stash])
  }

  function Next(st: State, step: Step): State {
    match step
    case Create(room) =>
      if room in st.used then st else st.(durable := st.durable + {room}, used := st.used + {room})
    case Join(agent, room) =>
      if st.deleting.Some? || room in st.tombstones || room !in st.durable then st
      else st.(members := st.members[room := MembersOf(st, room) + {agent}])
    case Leave(agent, room) =>
      if st.deleting.Some? || room !in st.members then st
      else st.(members := st.members[room := st.members[room] - {agent}])
    case DestroyDelete(room) =>
      if st.deleting.Some? || room !in st.durable then st
      else st.(durable := st.durable - {room}, deleting := Some(room))
    case DestroyClean =>
      if st.deleting.None? then st
      else st.(tombstones := st.tombstones + {st.deleting.value},
               members := st.members - {st.deleting.value}, deleting := None)
    case EvictTombstone(room) => st.(tombstones := st.tombstones - {room})
    case ForgetBegin(room) =>
      if room in st.forgotten || room !in st.used || room in st.durable then st
      else st.(destroyedCache := st.destroyedCache + {room}, forgotten := st.forgotten + {room},
               toVisit := st.toVisit[room := st.stashes.Keys])
    case ForgetVisit(room, agent) =>
      if room !in st.toVisit || agent !in st.toVisit[room] then st
      else
        var visited := st.(toVisit := st.toVisit[room := st.toVisit[room] - {agent}]);
        if agent in st.stashes then PutStash(visited, agent, Forgotten(st.stashes[agent], room)) else visited
    case EvictCache(room) => st.(destroyedCache := st.destroyedCache - {room})
    case StashFilter(agent, rooms) => st.(filtered := st.filtered[agent := rooms - st.destroyedCache])
    case StashInsert(agent, stash) =>
      if agent !in st.filtered then st
      else PutStash(st, agent, stash.(rooms := st.filtered[agent], missed := []))
           .(filtered := st.filtered - {agent}, unchecked := st.unchecked + {agent})
    case StashRecheck(agent) =>
      if agent !in st.unchecked then st
      else
        var checked := st.(unchecked := st.unchecked - {agent});
        if agent !in st.stashes then checked
        else PutStash(checked, agent, st.stashes[agent].(rooms := st.stashes[agent].rooms - st.destroyedCache))
    case RemoveStash(agent) => st.(stashes := st.stashes - {agent})
    case BufferVisible(agent, frame) =>
      if agent !in st.stashes || NamesRoomIn(frame, st.destroyedCache) then st
      else PutStash(st, agent, Buffered(st.stashes[agent], frame))
    case PushCheck(agent, frame) =>
      if NamesRoomIn(frame, st.destroyedCache) then st
      else st.(pushes := st.pushes + {Push(agent, frame)})
    case PushDo(push) =>
      if push !in st.pushes then st
      else
        var pushed := st.(pushes := st.pushes - {push},
                          late := st.late + if NamesRoomIn(push.frame, st.destroyedCache) then {push.frame} else {});
        if push.agent !in st.stashes then pushed
        else PutStash(pushed, push.agent, Buffered(st.stashes[push.agent], push.frame))
  }

  function Run(st: State, steps: seq<Step>): State
    decreases |steps|
  {
    if steps == [] then st else Run(Next(st, steps[0]), steps[1..])
  }

  // --- what changes what ---

  // Rooms come by creation and go by destruction, in two steps under the lock.
  lemma RoomChanges(st: State, step: Step, room: RoomId)
    ensures var after := Next(st, step);
            && (room in after.used <==> room in st.used || step == Create(room))
            && (room in after.durable <==>
                  || (step == Create(room) && room !in st.used)
                  || (room in st.durable && !(step == DestroyDelete(room) && st.deleting.None?)))
  {}

  lemma DeletingChanges(st: State, step: Step, room: RoomId)
    ensures Next(st, step).deleting == Some(room) <==>
              || (step == DestroyDelete(room) && st.deleting.None? && room in st.durable)
              || (st.deleting == Some(room) && !step.DestroyClean?)
  {}

  lemma TombstoneChanges(st: State, step: Step, room: RoomId)
    ensures room in Next(st, step).tombstones <==>
              || (step.DestroyClean? && st.deleting == Some(room))
              || (room in st.tombstones && step != EvictTombstone(room))
  {}

  // Admission needs the lock, the room and no tombstone; leaving needs the lock; and
  // the last step of a destruction empties the room.
  lemma MemberChanges(st: State, step: Step, agent: AgentId, room: RoomId)
    ensures agent in MembersOf(Next(st, step), room) <==>
              || (step == Join(agent, room) && st.deleting.None? && room !in st.tombstones && room in st.durable)
              || (agent in MembersOf(st, room)
                  && !(step == Leave(agent, room) && st.deleting.None?)
                  && !(step.DestroyClean? && st.deleting == Some(room)))
  {}

  // A room is recorded as destroyed when its forgetting begins, and until evicted.
  lemma RecordChanges(st: State, step: Step, room: RoomId)
    ensures var after := Next(st, step);
            var begins := step == ForgetBegin(room) && room !in st.forgotten && room in st.used && room !in st.durable;
            && (room in after.forgotten <==> room in st.forgotten || begins)
            && (room in after.destroyedCache <==> begins || (room in st.destroyedCache && step != EvictCache(room)))
  {}

  // Forgetting visits each stash there was at its beginning once.
  lemma VisitChanges(st: State, step: Step, room: RoomId, agent: AgentId)
    ensures var begins := step == ForgetBegin(room) && room !in st.forgotten && room in st.used && room !in st.durable;
            StillToVisit(Next(st, step), room, agent) <==>
              (begins && agent in st.stashes) || (!begins && StillToVisit(st, room, agent) && step != ForgetVisit(room, agent))
  {}

  // Rooms come into a stash only when it is inserted, filtered; they go with the
  // second filter, with a visit of their forgetting, or with the stash.
  lemma StashRoomChanges(st: State, step: Step, agent: AgentId, room: RoomId)
    ensures room in RoomsOf(Next(st, step), agent) <==>
              if step.StashInsert? && step.agent == agent && agent in st.filtered then room in st.filtered[agent]
              else && room in RoomsOf(st, agent) && step != RemoveStash(agent)
                   && !(step == StashRecheck(agent) && agent in st.unchecked && room in st.destroyedCache)
                   && !(step == ForgetVisit(room, agent) && StillToVisit(st, room, agent))
  {}

  // Frames come into a stash by a visible event or a push already checked, as long
  // as there is space; they go with a visit of their room's forgetting, or with the
  // stash that held them.
  lemma StashFrameChanges(st: State, step: Step, agent: AgentId, f: Frame)
    ensures f in MissedOf(Next(st, step), agent) <==>
              || (agent in st.stashes && |st.stashes[agent].missed| < 200
                  && ((step == BufferVisible(agent, f) && forall r :: r in st.destroyedCache ==> !Names(f, r))
                      || (step == PushDo(Push(agent, f)) && Push(agent, f) in st.pushes)))
              || (f in MissedOf(st, agent) && step != RemoveStash(agent)
                  && !(step.StashInsert? && step.agent == agent && agent in st.filtered)
                  && !(step.ForgetVisit? && step.agent == agent && StillToVisit(st, step.room, agent) && Names(f, step.room)))
  {
    if step.ForgetVisit? {
      if agent in st.stashes { ForgottenKeepsOthers(st.stashes[agent], step.room, f, f); }
    } else if step.BufferVisible? || step.PushDo? {
      NamesInExactly(f, st.destroyedCache);
      BufferedFrames(st, step, agent, f);
    }
  }

  lemma BufferedFrames(st: State, step: Step, agent: AgentId, f: Frame)
    requires step.BufferVisible? || step.PushDo?
    ensures f in MissedOf(Next(st, step), agent) <==>
              || f in MissedOf(st, agent)
              || (agent in st.stashes && |st.stashes[agent].missed| < 200
                  && ((step == BufferVisible(agent, f) && !NamesRoomIn(f, st.destroyedCache))
                      || (step == PushDo(Push(agent, f)) && Push(agent, f) in st.pushes)))
  {}

  lemma NamesInExactly(f: Frame, rooms: set<RoomId>)
    ensures NamesRoomIn(f, rooms) <==> exists r :: r in rooms && Names(f, r)
  {
    if NamesRoomIn(f, rooms) { assert Names(f, FrameRoomId(f).value); }
  }

  // A stashing call filters with the rooms recorded then, inserts, and filters again.
  lemma StashingChanges(st: State, step: Step, agent: AgentId)
    ensures var after := Next(st, step);
            && (agent in after.stashes <==>
                  (agent in st.stashes && step != RemoveStash(agent))
                  || (step.StashInsert? && step.agent == agent && agent in st.filtered))
  {}

  lemma UncheckedChanges(st: State, step: Step, agent: AgentId)
    ensures agent in Next(st, step).unchecked <==>
              || (agent in st.unchecked && step != StashRecheck(agent))
              || (step.StashInsert? && step.agent == agent && agent in st.filtered)
  {}

  lemma FilteredChanges(st: State, step: Step, agent: AgentId)
    ensures var after := Next(st, step);
            && (agent in after.filtered <==>
                  (step.StashFilter? && step.agent == agent)
                  || (agent in st.filtered && !(step.StashInsert? && step.agent == agent)))
            && (agent in after.filtered ==>
                  after.filtered[agent] == if step.StashFilter? && step.agent == agent then step.rooms - st.destroyedCache
                                           else st.filtered[agent])
  {}

  // A push is made once, by a call whose check found its room not recorded.
  lemma PushChanges(st: State, step: Step, push: Push)
    ensures var after := Next(st, step);
            && (push in after.pushes <==>
                  || (step == PushCheck(push.agent, push.frame) && forall r :: r in st.destroyedCache ==> !Names(push.frame, r))
                  || (push in st.pushes && step != PushDo(push)))
  {
    NamesInExactly(push.frame, st.destroyedCache);
  }

  function RoomsOf(st: State, agent: AgentId): set<RoomId> {
    if agent in st.stashes then st.stashes[agent].rooms else {}
  }

  function MissedOf(st: State, agent: AgentId): seq<Frame> {
    if agent in st.stashes then st.stashes[agent].missed else []
  }

  // The step admits the agent, or takes it out, at its place in the run.
  ghost predicate AdmittedAt(steps: seq<Step>, i: nat, agent: AgentId, room: RoomId)
    requires i < |steps|
  {
    var st := Run(INITIAL, steps[..i]);
    steps[i] == Join(agent, room) && st.deleting.None? && room !in st.tombstones && room in st.durable
  }

  ghost predicate TakenOutAt(steps: seq<Step>, i: nat, agent: AgentId, room: RoomId)
    requires i < |steps|
  {
    var st := Run(INITIAL, steps[..i]);
    (steps[i] == Leave(agent, room) && st.deleting.None?) || (steps[i].DestroyClean? && st.deleting == Some(room))
  }

  ghost predicate InSince(steps: seq<Step>, i: nat, agent: AgentId, room: RoomId)
    requires i < |steps|
  {
    AdmittedAt(steps, i, agent, room) && forall j :: i < j < |steps| ==> !TakenOutAt(steps, j, agent, room)
  }

  lemma InSinceSnoc(steps: seq<Step>, n: nat, i: nat, agent: AgentId, room: RoomId)
    requires |steps| == n + 1 && i < n
    ensures InSince(steps, i, agent, room) <==> InSince(steps[..n], i, agent, room) && !TakenOutAt(steps, n, agent, room)
  {
    var init := steps[..n];
    forall j | 0 <= j < n
      ensures init[j] == steps[j] && init[..j] == steps[..j]
    {}
    assert forall j :: 0 <= j < n ==> (TakenOutAt(steps, j, agent, room) <==> TakenOutAt(init, j, agent, room));
  }

  // Over every run, an agent is a member exactly when it was admitted at some step
  // and was not taken out at any later one.
  lemma {:induction false} MembersExactly(steps: seq<Step>, agent: AgentId, room: RoomId)
    ensures agent in MembersOf(Run(INITIAL, steps), room) <==>
              exists i :: 0 <= i < |steps| && InSince(steps, i, agent, room)
    decreases |steps|
  {
    if steps != [] {
      var n := |steps| - 1;
      var init := steps[..n];
      assert steps == init + [steps[n]];
      RunSnoc(INITIAL, init, steps[n]);
      MembersExactly(init, agent, room);
      MemberChanges(Run(INITIAL, init), steps[n], agent, room);
      if AdmittedAt(steps, n, agent, room) {
        assert InSince(steps, n, agent, room);
      } else if i :| 0 <= i < n && InSince(init, i, agent, room) {
        InSinceSnoc(steps, n, i, agent, room);
        assert TakenOutAt(steps, n, agent, room) || InSince(steps, i, agent, room);
      }
      if i :| 0 <= i < n && InSince(steps, i, agent, room) {
        InSinceSnoc(steps, n, i, agent, room);
        assert InSince(init, i, agent, room);
      }
    }
  }

  lemma {:induction false} RunSnoc(st: State, steps: seq<Step>, step: Step)
    ensures Run(st, steps + [step]) == Next(Run(st, steps), step)
    decreases |steps|
  {
    if steps == [] {
      assert [step][1..] == [];
    } else {
      assert (steps + [step])[1..] == steps[1..] + [step];
      RunSnoc(Next(st, steps[0]), steps[1..], step);
    }
  }

  // --- membership ---

  // Members exist only in rooms that are durable, or just being destroyed.
  ghost predicate MembersDurable(st: State) {
    && st.durable <= st.used
    && (st.deleting.Some? ==> st.deleting.value in st.used && st.deleting.value !in st.durable)
    && forall r :: MembersOf(st, r) != {} ==> r in st.durable || st.deleting == Some(r)
  }

  lemma NextKeepsMembersDurable(st: State, step: Step)
    requires MembersDurable(st)
    ensures MembersDurable(Next(st, step))
  {}

  lemma {:induction false} RunKeepsMembersDurable(st: State, steps: seq<Step>)
    requires MembersDurable(st)
    ensures MembersDurable(Run(st, steps))
    decreases |steps|
  {
    if steps != [] {
      NextKeepsMembersDurable(st, steps[0]);
      RunKeepsMembersDurable(Next(st, steps[0]), steps[1..]);
    }
  }

  lemma {:induction false} GoneStaysGone(st: State, steps: seq<Step>, room: RoomId)
    requires room in st.used && room !in st.durable
    ensures room in Run(st, steps).used && room !in Run(st, steps).durable
    decreases |steps|
  {
    if steps != [] {
      NextKeepsGone(st, steps[0], room);
      GoneStaysGone(Next(st, steps[0]), steps[1..], room);
    }
  }

  lemma NextKeepsGone(st: State, step: Step, room: RoomId)
    requires room in st.used && room !in st.durable
    ensures room in Next(st, step).used && room !in Next(st, step).durable
  {}

  // Once a room has been destroyed it never has a member again, whatever joins,
  // restores and evictions follow.
  lemma DestroyedRoomStaysEmpty(before: seq<Step>, after: seq<Step>, room: RoomId)
    requires var st := Run(INITIAL, before); room in st.used && room !in st.durable
    ensures var st := Run(Run(INITIAL, before), after);
            st.deleting != Some(room) ==> MembersOf(st, room) == {}
  {
    RunKeepsMembersDurable(INITIAL, before);
    RunKeepsMembersDurable(Run(INITIAL, before), after);
    GoneStaysGone(Run(INITIAL, before), after, room);
  }

  // --- stashes ---

  predicate StillToVisit(st: State, room: RoomId, agent: AgentId) {
    room in st.toVisit && agent in st.toVisit[room]
  }

  // A stash may hold a room recorded as destroyed only until its own second
  // filter, or until the forgetting reaches it.
  ghost predicate RoomsForgotten(st: State) {
    && (st.destroyedCache <= st.forgotten && st.toVisit.Keys == st.forgotten)
    && forall a, r :: a in st.stashes && r in st.stashes[a].rooms && r in st.destroyedCache ==>
         a in st.unchecked || StillToVisit(st, r, a)
  }

  // A frame of such a room stays only until the forgetting reaches it, unless a
  // `buffer_message` that had already passed its check pushed it later.
  ghost predicate FramesForgotten(st: State) {
    && (st.destroyedCache <= st.forgotten && st.toVisit.Keys == st.forgotten)
    && forall a, f :: a in st.stashes && f in st.stashes[a].missed && NamesRoomIn(f, st.destroyedCache) ==>
         f in st.late || StillToVisit(st, FrameRoomId(f).value, a)
  }

  lemma NextKeepsRoomsForgotten(st: State, step: Step)
    requires RoomsForgotten(st)
    ensures RoomsForgotten(Next(st, step))
  {}

  lemma NextKeepsFramesForgotten(st: State, step: Step)
    requires FramesForgotten(st)
    ensures FramesForgotten(Next(st, step))
  {}

  lemma {:induction false} RunKeepsForgotten(st: State, steps: seq<Step>)
    requires RoomsForgotten(st) && FramesForgotten(st)
    ensures RoomsForgotten(Run(st, steps)) && FramesForgotten(Run(st, steps))
    decreases |steps|
  {
    if steps != [] {
      NextKeepsRoomsForgotten(st, steps[0]);
      NextKeepsFramesForgotten(st, steps[0]);
      RunKeepsForgotten(Next(st, steps[0]), steps[1..]);
    }
  }

  // When the forgetting of a room is over and its id is still recorded, no
  // finished stash holds the room, and every frame of it that a stash still
  // holds came from such a late push.
  lemma ForgottenRoomLeavesStashes(steps: seq<Step>, room: RoomId, agent: AgentId)
    requires var st := Run(INITIAL, steps);
             && room in st.destroyedCache && agent in st.stashes
             && room in st.toVisit && st.toVisit[room] == {}
    ensures var st := Run(INITIAL, steps);
            && (agent !in st.unchecked ==> room !in st.stashes[agent].rooms)
            && (forall f :: f in st.stashes[agent].missed && FrameRoomId(f) == Some(room) ==> f in st.late)
  {
    RunKeepsForgotten(INITIAL, steps);
  }

  // A push after the check puts a frame of a destroyed room into a stash exactly
  // when the room was recorded in between and the stash is there with space.
  lemma PushAfterCheck(st: State, push: Push, room: RoomId)
    requires push in st.pushes && FrameRoomId(push.frame) == Some(room)
    requires push.agent in st.stashes && push.frame !in st.stashes[push.agent].missed
    ensures var after := Next(st, PushDo(push));
            (push.frame in after.stashes[push.agent].missed && room in after.destroyedCache)
            <==> (room in st.destroyedCache && |st.stashes[push.agent].missed| < MAX_BUFFERED_MESSAGES)
  {}

  // It happens: check, destroy and forget completely, then push.
  lemma LatePushReachesStash()
    ensures exists steps, agent, frame ::
              var st := Run(INITIAL, steps);
              && agent in st.stashes && agent !in st.unchecked && frame in st.stashes[agent].missed
              && NamesRoomIn(frame, st.destroyedCache) && !StillToVisit(st, FrameRoomId(frame).value, agent)
  {
    var f := Frame(Some(1), Some("r"), None);
    var setUp := StashedBeforeDestruction("r", "b", f);
    var s5 := Run(INITIAL, setUp);
    var finish := [DestroyDelete("r"), DestroyClean, ForgetBegin("r"), ForgetVisit("r", "b"), PushDo(Push("b", f))];
    PushedAfterForgetting(s5, "r", "b", f);
    RunConcat(INITIAL, setUp, finish);
  }

  lemma StashedBeforeDestruction(room: RoomId, agent: AgentId, f: Frame) returns (steps: seq<Step>)
    ensures var st := Run(INITIAL, steps);
            && room in st.durable && room in st.used && st.deleting.None? && room !in st.forgotten
            && agent in st.stashes && st.stashes[agent].missed == [] && agent !in st.unchecked
            && Push(agent, f) in st.pushes
  {
    var stash := StashedAgent(agent, agent, "", {}, [], 0, None);
    steps := [Create(room), StashFilter(agent, {room}), StashInsert(agent, stash), StashRecheck(agent), PushCheck(agent, f)];
    Run5(INITIAL, steps[0], steps[1], steps[2], steps[3], steps[4]);
    var filtered := Next(Next(INITIAL, steps[0]), steps[1]);
    var inserted := Next(filtered, steps[2]);
    assert agent in inserted.unchecked && agent in inserted.stashes;
    var checked := Next(inserted, steps[3]);
    assert agent !in checked.unchecked && checked.stashes[agent].missed == [];
  }

  lemma PushedAfterForgetting(st: State, room: RoomId, agent: AgentId, f: Frame)
    requires room in st.durable && room in st.used && st.deleting.None? && room !in st.forgotten
    requires agent in st.stashes && st.stashes[agent].missed == [] && agent !in st.unchecked
    requires Push(agent, f) in st.pushes && FrameRoomId(f) == Some(room)
    ensures var after := Run(st, [DestroyDelete(room), DestroyClean, ForgetBegin(room), ForgetVisit(room, agent),
                                  PushDo(Push(agent, f))]);
            && agent in after.stashes && agent !in after.unchecked && f in after.stashes[agent].missed
            && room in after.destroyedCache && !StillToVisit(after, room, agent)
  {
    Run5(st, DestroyDelete(room), DestroyClean, ForgetBegin(room), ForgetVisit(room, agent), PushDo(Push(agent, f)));
    var destroyed := Next(Next(st, DestroyDelete(room)), DestroyClean);
    var begun := Next(destroyed, ForgetBegin(room));
    assert begun.toVisit[room] == st.stashes.Keys && begun.stashes == st.stashes && begun.pushes == st.pushes;
    var visited := Next(begun, ForgetVisit(room, agent));
    assert visited.stashes[agent] == Forgotten(st.stashes[agent], room);
  }

  lemma Run5(st: State, a: Step, b: Step, c: Step, d: Step, e: Step)
    ensures Run(st, [a, b, c, d, e]) == Next(Next(Next(Next(Next(st, a), b), c), d), e)
  {
    RunHead(st, a, [b, c, d, e]);
    RunHead(Next(st, a), b, [c, d, e]);
    var two := Next(Next(st, a), b);
    RunHead(two, c, [d, e]);
    RunHead(Next(two, c), d, [e]);
    RunHead(Next(Next(two, c), d), e, []);
    assert [a] + [b, c, d, e] == [a, b, c, d, e] && [b] + [c, d, e] == [b, c, d, e];
    assert [c] + [d, e] == [c, d, e] && [d] + [e] == [d, e] && [e] + [] == [e];
  }

  lemma RunHead(st: State, step: Step, rest: seq<Step>)
    ensures Run(st, [step] + rest) == Run(Next(st, step), rest)
  {
    assert ([step] + rest)[1..] == rest;
  }

  lemma {:induction false} RunConcat(st: State, xs: seq<Step>, ys: seq<Step>)
    ensures Run(st, xs + ys) == Run(Run(st, xs), ys)
    decreases |xs|
  {
    if xs == [] {
      assert xs + ys == ys;
    } else {
      assert (xs + ys)[1..] == xs[1..] + ys;
      RunConcat(Next(st, xs[0]), xs[1..], ys);
    }
  }
}
