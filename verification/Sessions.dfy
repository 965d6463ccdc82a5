// Registration, takeover and disconnect clean-up of all agents, step by step under
// the agent lifecycle guard: the registry entry of each agent and its rooms.
module Sessions {
  import opened Options

  type AgentId = string
  type RoomId = string
  type SessionId = nat

  datatype Phase =
    | Taking(rooms: set<RoomId>)       // registered for, its rooms known, not in the registry yet
    | Restoring(rooms: set<RoomId>)    // in the registry, rooms still to be joined
    | Live
    | Leaving(rooms: set<RoomId>)      // disconnected, found to own the entry, rooms still to be left
    | FailLeaving(rooms: set<RoomId>)  // never acknowledged, entry removed, rooms still to be left
    | Ended

  datatype Session = Session(agent: AgentId, phase: Phase)

  datatype State = State(
    guarded: bool,                    // whether the lifecycle guard is taken at all
    guard: Option<SessionId>,
    registry: map<AgentId, SessionId>,
    members: set<(RoomId, AgentId)>,
    sessions: map<SessionId, Session>,
    newest: map<AgentId, SessionId>)  // history: the session last installed

  datatype Step =
    | RegisterBegin(s: SessionId, agent: AgentId, reconnect: bool, reclaimed: Option<set<RoomId>>)
    | RegisterInstall(s: SessionId)
    | RegisterJoin(s: SessionId, room: RoomId, admitted: bool)
    | RegisterEnd(s: SessionId)
    | CleanupCheck(s: SessionId)
    | CleanupLeave(s: SessionId, room: RoomId)
    | CleanupRemove(s: SessionId)
    | FailRemove(s: SessionId)
    | FailLeave(s: SessionId, room: RoomId)
    | FailEnd(s: SessionId)
    | FrameJoin(s: SessionId, room: RoomId)   // handled while the session owns the entry
    | FrameLeave(s: SessionId, room: RoomId)
    | LateJoin(s: SessionId, room: RoomId)    // handled whether it does or not

  function Initial(guarded: bool): State {
    State(guarded, None, map[], {}, map[], map[])
  }

  predicate Owns(st: State, s: SessionId) {
    s in st.sessions && st.sessions[s].agent in st.registry && st.registry[st.sessions[s].agent] == s
  }

  predicate In(st: State, s: SessionId) {
    s in st.sessions && st.sessions[s].phase.Live?
  }

  predicate MayTakeGuard(st: State) {
    !st.guarded || st.guard.None?
  }

  function RoomsOf(st: State, agent: AgentId): (rooms: set<RoomId>)
    ensures forall r :: r in rooms <==> (r, agent) in st.members
  {
    set m | m in st.members && m.1 == agent :: m.0
  }

  function To(st: State, s: SessionId, phase: Phase): State
    requires s in st.sessions
  {
    st.(sessions := st.sessions[s := st.sessions[s].(phase := phase)])
  }

  function Joined(st: State, agent: AgentId, room: RoomId): State {
    st.(members := st.members + {(room, agent)})
  }

  function Left(st: State, agent: AgentId, room: RoomId): State {
    st.(members := st.members - {(room, agent)})
  }

  // A reclaimed stash brings its own rooms; a taken-over agent has the ones it is in.
  function BeginStep(st: State, s: SessionId, agent: AgentId, reconnect: bool, reclaimed: Option<set<RoomId>>): State {
    if s in st.sessions || !MayTakeGuard(st) || (agent in st.registry && !reconnect) then st
    else
      var rooms := if reconnect && reclaimed.Some? then reclaimed.value else RoomsOf(st, agent);
      st.(sessions := st.sessions[s := Session(agent, Taking(rooms))], guard := Some(s))
  }

  function InstallStep(st: State, s: SessionId): State
    requires s in st.sessions && st.sessions[s].phase.Taking?
  {
    var agent := st.sessions[s].agent;
    To(st, s, Restoring(st.sessions[s].phase.rooms)).(registry := st.registry[agent := s], newest := st.newest[agent := s])
  }

  function NextRegister(st: State, step: Step): State {
    match step
    case RegisterBegin(s, agent, reconnect, reclaimed) => BeginStep(st, s, agent, reconnect, reclaimed)
    case RegisterInstall(s) => if s in st.sessions && st.sessions[s].phase.Taking? then InstallStep(st, s) else st
    case RegisterJoin(s, room, admitted) =>
      if s in st.sessions && st.sessions[s].phase.Restoring? && room in st.sessions[s].phase.rooms then
        var next := To(st, s, Restoring(st.sessions[s].phase.rooms - {room}));
        if admitted then Joined(next, st.sessions[s].agent, room) else next
      else st
    case RegisterEnd(s) =>
      if s in st.sessions && st.sessions[s].phase == Restoring({}) then To(st, s, Live).(guard := None) else st
    case _ => st
  }

  // A session that no longer owns its agent's entry just ends.
  function CheckStep(st: State, s: SessionId): State
    requires s in st.sessions
  {
    if Owns(st, s) then To(st, s, Leaving(RoomsOf(st, st.sessions[s].agent))).(guard := Some(s)) else To(st, s, Ended)
  }

  function FailRemoveStep(st: State, s: SessionId): State
    requires s in st.sessions
  {
    var agent := st.sessions[s].agent;
    if Owns(st, s) then To(st, s, FailLeaving(RoomsOf(st, agent))).(guard := Some(s), registry := st.registry - {agent})
    else To(st, s, Ended)
  }

  // The entry goes only if it is still this session's.
  function RemoveStep(st: State, s: SessionId): State
    requires s in st.sessions
  {
    To(st, s, Ended).(guard := None, registry := if Owns(st, s) then st.registry - {st.sessions[s].agent} else st.registry)
  }

  function NextCleanup(st: State, step: Step): State {
    match step
    case CleanupCheck(s) => if In(st, s) && MayTakeGuard(st) then CheckStep(st, s) else st
    case CleanupLeave(s, room) =>
      if s in st.sessions && st.sessions[s].phase.Leaving? && room in st.sessions[s].phase.rooms
      then Left(To(st, s, Leaving(st.sessions[s].phase.rooms - {room})), st.sessions[s].agent, room) else st
    case CleanupRemove(s) =>
      if s in st.sessions && st.sessions[s].phase == Leaving({}) then RemoveStep(st, s) else st
    case FailRemove(s) => if In(st, s) && MayTakeGuard(st) then FailRemoveStep(st, s) else st
    case FailLeave(s, room) =>
      if s in st.sessions && st.sessions[s].phase.FailLeaving? && room in st.sessions[s].phase.rooms
      then Left(To(st, s, FailLeaving(st.sessions[s].phase.rooms - {room})), st.sessions[s].agent, room) else st
    case FailEnd(s) =>
      if s in st.sessions && st.sessions[s].phase == FailLeaving({}) then To(st, s, Ended).(guard := None) else st
    case _ => st
  }

  function NextFrame(st: State, step: Step): State {
    match step
    case FrameJoin(s, room) => if In(st, s) && Owns(st, s) then Joined(st, st.sessions[s].agent, room) else st
    case FrameLeave(s, room) => if In(st, s) && Owns(st, s) then Left(st, st.sessions[s].agent, room) else st
    case LateJoin(s, room) => if In(st, s) then Joined(st, st.sessions[s].agent, room) else st
    case _ => st
  }

  predicate IsRegister(step: Step) {
    step.RegisterBegin? || step.RegisterInstall? || step.RegisterJoin? || step.RegisterEnd?
  }

  predicate IsFrame(step: Step) {
    step.FrameJoin? || step.FrameLeave? || step.LateJoin?
  }

  function Next(st: State, step: Step): State {
    if IsRegister(step) then NextRegister(st, step)
    else if IsFrame(step) then NextFrame(st, step)
    else NextCleanup(st, step)
  }

  function Run(st: State, steps: seq<Step>): State
    decreases |steps|
  {
    if steps == [] then st else Run(Next(st, steps[0]), steps[1..])
  }

  // --- what changes what ---

  predicate InPhase(st: State, s: SessionId, phase: Phase) {
    s in st.sessions && st.sessions[s].phase == phase
  }

  // A registration that may begin takes the guard, and so does a clean-up of an
  // owner; the one frees it when all rooms are restored, the other when all are left.
  lemma GuardChanges(st: State, step: Step, t: SessionId)
    ensures var after := Next(st, step);
            var frees := || (step.RegisterEnd? && InPhase(st, step.s, Restoring({})))
                         || (step.CleanupRemove? && InPhase(st, step.s, Leaving({})))
                         || (step.FailEnd? && InPhase(st, step.s, FailLeaving({})));
            var free := !st.guarded || st.guard.None?;
            var takes := || (step.RegisterBegin? && step.s !in st.sessions && free
                             && (step.agent in st.registry ==> step.reconnect))
                         || ((step.CleanupCheck? || step.FailRemove?) && InPhase(st, step.s, Live) && free && Owns(st, step.s));
            after.guard == Some(t) <==> if takes then step.s == t else st.guard == Some(t) && !frees
  {}

  // The entry of an agent: set by an installation, removed by the clean-up of its
  // owner at its end, or of an unacknowledged owner at its beginning.
  lemma RegistryChanges(st: State, step: Step, agent: AgentId, t: SessionId)
    ensures var after := Next(st, step);
            var held := st.guarded && st.guard.Some?;
            EntryIs(after, agent, t) <==>
              if step.RegisterInstall? && step.s in st.sessions && st.sessions[step.s].phase.Taking? && st.sessions[step.s].agent == agent
              then step.s == t
              else EntryIs(st, agent, t)
                   && !(step.CleanupRemove? && InPhase(st, step.s, Leaving({})) && step.s == t && st.sessions[t].agent == agent)
                   && !(step.FailRemove? && InPhase(st, step.s, Live) && !held && step.s == t && st.sessions[t].agent == agent)
  {}

  predicate EntryIs(st: State, agent: AgentId, t: SessionId) {
    agent in st.registry && st.registry[agent] == t
  }

  // Members come by a restored room that admits them and by the joins of live
  // sessions; they go by a clean-up, room by room, and by a leave of the owner.
  lemma MemberChanges(st: State, step: Step, agent: AgentId, room: RoomId)
    ensures var acts := step.s in st.sessions && st.sessions[step.s].agent == agent;
            (room, agent) in Next(st, step).members <==>
              || (acts && step == RegisterJoin(step.s, room, true) && HasListed(st, step.s, room) && st.sessions[step.s].phase.Restoring?)
              || (acts && step == LateJoin(step.s, room) && InPhase(st, step.s, Live))
              || (acts && step == FrameJoin(step.s, room) && InPhase(st, step.s, Live) && Owns(st, step.s))
              || ((room, agent) in st.members
                  && !(acts && step == CleanupLeave(step.s, room) && HasListed(st, step.s, room) && st.sessions[step.s].phase.Leaving?)
                  && !(acts && step == FailLeave(step.s, room) && HasListed(st, step.s, room) && st.sessions[step.s].phase.FailLeaving?)
                  && !(acts && step == FrameLeave(step.s, room) && InPhase(st, step.s, Live) && Owns(st, step.s)))
  {}

  // The room is on the list the session has still to work through.
  predicate HasListed(st: State, s: SessionId, room: RoomId) {
    s in st.sessions && match st.sessions[s].phase
                        case Restoring(rooms) => room in rooms
                        case Leaving(rooms) => room in rooms
                        case FailLeaving(rooms) => room in rooms
                        case _ => false
  }

  // A room leaves that list when it has been joined, or left.
  lemma ListChanges(st: State, step: Step, s: SessionId, room: RoomId)
    requires s in st.sessions && !(step.s == s && (step.RegisterInstall? || step.CleanupCheck? || step.FailRemove?))
    requires !(step.s == s && (step.RegisterEnd? || step.CleanupRemove? || step.FailEnd?))
    ensures HasListed(Next(st, step), s, room) <==>
              && HasListed(st, s, room)
              && !((step == RegisterJoin(s, room, true) || step == RegisterJoin(s, room, false)) && st.sessions[s].phase.Restoring?)
              && !(step == CleanupLeave(s, room) && st.sessions[s].phase.Leaving?)
              && !(step == FailLeave(s, room) && st.sessions[s].phase.FailLeaving?)
  {}

  // --- what the guard keeps ---

  predicate HoldsGuard(phase: Phase) {
    phase.Taking? || phase.Restoring? || phase.Leaving? || phase.FailLeaving?
  }

  predicate Registered(phase: Phase) {
    phase.Restoring? || phase.Live? || phase.Leaving?
  }

  predicate IsNewest(st: State, s: SessionId) {
    s in st.sessions && st.sessions[s].agent in st.newest && st.newest[st.sessions[s].agent] == s
  }

  function NewestOf(st: State, agent: AgentId): Option<SessionId> {
    if agent in st.newest then Some(st.newest[agent]) else None
  }

  ghost predicate GuardInv(st: State) {
    forall s :: s in st.sessions && HoldsGuard(st.sessions[s].phase) ==> st.guard == Some(s)
  }

  // The registry holds the newest session of an agent until that one ends.
  predicate RegistryFits(st: State, agent: AgentId) {
    if agent !in st.newest then agent !in st.registry
    else
      var s := st.newest[agent];
      && s in st.sessions && st.sessions[s].agent == agent
      && !st.sessions[s].phase.Taking?
      && (agent in st.registry <==> Registered(st.sessions[s].phase))
      && (agent in st.registry ==> st.registry[agent] == s)
  }

  // Nobody else than the newest session of an agent restores or leaves its rooms.
  predicate ActsAsNewest(st: State, s: SessionId) {
    s in st.sessions && !st.sessions[s].phase.Taking? ==>
      && st.sessions[s].agent in st.newest
      && (HoldsGuard(st.sessions[s].phase) ==> IsNewest(st, s))
  }

  ghost predicate TakeoverInv(st: State) {
    && st.guarded
    && GuardInv(st)
    && (forall a :: RegistryFits(st, a))
    && (forall s :: ActsAsNewest(st, s))
  }

  lemma OwnerIsNewest(st: State, s: SessionId)
    requires TakeoverInv(st) && s in st.sessions
    ensures Owns(st, s) <==> IsNewest(st, s) && Registered(st.sessions[s].phase)
  {
    assert RegistryFits(st, st.sessions[s].agent);
  }

  lemma RegisterKeepsGuard(st: State, step: Step)
    requires GuardInv(st) && st.guarded && IsRegister(step)
    ensures GuardInv(NextRegister(st, step)) && NextRegister(st, step).guarded
  {}

  lemma CleanupKeepsGuard(st: State, step: Step)
    requires GuardInv(st) && st.guarded
    ensures GuardInv(NextCleanup(st, step)) && NextCleanup(st, step).guarded
  {}

  // A session goes from one phase to another and the registry stays as it is.
  ghost predicate Moves(st: State, after: State, s: SessionId) {
    && s in st.sessions
    && after.guarded && GuardInv(after)
    && after.registry == st.registry && after.newest == st.newest
    && after.sessions.Keys == st.sessions.Keys
    && (forall t :: t in st.sessions && t != s ==> after.sessions[t] == st.sessions[t])
    && after.sessions[s].agent == st.sessions[s].agent
    && !after.sessions[s].phase.Taking?
  }

  lemma MoveKeeps(st: State, after: State, s: SessionId)
    requires TakeoverInv(st) && Moves(st, after, s)
    requires IsNewest(st, s) ==> (Registered(after.sessions[s].phase) <==> Registered(st.sessions[s].phase))
    requires !st.sessions[s].phase.Taking? && (HoldsGuard(after.sessions[s].phase) ==> IsNewest(st, s))
    ensures TakeoverInv(after)
  {
    forall a
      ensures RegistryFits(after, a)
    {
      assert RegistryFits(st, a);
    }
    forall t
      ensures ActsAsNewest(after, t)
    {
      assert ActsAsNewest(st, t);
    }
  }

  // The newest session of an agent gives up its entry.
  lemma ReleaseKeeps(st: State, after: State, s: SessionId)
    requires TakeoverInv(st) && IsNewest(st, s) && Moves(st, after.(registry := st.registry), s)
    requires after.registry == st.registry - {st.sessions[s].agent} && !Registered(after.sessions[s].phase)
    requires after.guarded && GuardInv(after)
    ensures TakeoverInv(after)
  {
    forall a
      ensures RegistryFits(after, a)
    {
      assert RegistryFits(st, a);
    }
    forall t
      ensures ActsAsNewest(after, t)
    {
      assert ActsAsNewest(st, t);
    }
  }

  lemma BeginKeeps(st: State, s: SessionId, agent: AgentId, reconnect: bool, reclaimed: Option<set<RoomId>>)
    requires TakeoverInv(st)
    ensures TakeoverInv(BeginStep(st, s, agent, reconnect, reclaimed))
  {
    var after := BeginStep(st, s, agent, reconnect, reclaimed);
    RegisterKeepsGuard(st, RegisterBegin(s, agent, reconnect, reclaimed));
    forall a
      ensures RegistryFits(after, a)
    {
      assert RegistryFits(st, a);
    }
    forall t
      ensures ActsAsNewest(after, t)
    {
      assert ActsAsNewest(st, t);
    }
  }

  lemma InstallKeeps(st: State, s: SessionId)
    requires TakeoverInv(st) && s in st.sessions && st.sessions[s].phase.Taking?
    ensures TakeoverInv(InstallStep(st, s))
  {
    var after := InstallStep(st, s);
    RegisterKeepsGuard(st, RegisterInstall(s));
    forall a
      ensures RegistryFits(after, a)
    {
      assert RegistryFits(st, a);
    }
    forall t
      ensures ActsAsNewest(after, t)
    {
      assert ActsAsNewest(st, t);
    }
  }

  lemma RegisterKeepsTakeover(st: State, step: Step)
    requires TakeoverInv(st) && IsRegister(step)
    ensures TakeoverInv(NextRegister(st, step))
  {
    var after := NextRegister(st, step);
    RegisterKeepsGuard(st, step);
    assert ActsAsNewest(st, step.s);
    match step
    case RegisterBegin(s, agent, reconnect, reclaimed) => BeginKeeps(st, s, agent, reconnect, reclaimed);
    case RegisterInstall(s) => if s in st.sessions && st.sessions[s].phase.Taking? { InstallKeeps(st, s); }
    case RegisterJoin(s, room, admitted) => if after != st { MoveKeeps(st, after, s); }
    case RegisterEnd(s) => if after != st { MoveKeeps(st, after, s); }
  }

  lemma CheckKeepsTakeover(st: State, s: SessionId)
    requires TakeoverInv(st) && s in st.sessions && st.sessions[s].phase.Live? && MayTakeGuard(st)
    ensures TakeoverInv(CheckStep(st, s)) && TakeoverInv(FailRemoveStep(st, s))
  {
    CleanupKeepsGuard(st, CleanupCheck(s));
    CleanupKeepsGuard(st, FailRemove(s));
    OwnerIsNewest(st, s);
    MoveKeeps(st, CheckStep(st, s), s);
    if Owns(st, s) {
      ReleaseKeeps(st, FailRemoveStep(st, s), s);
    } else {
      MoveKeeps(st, FailRemoveStep(st, s), s);
    }
  }

  lemma CleanupKeepsTakeover(st: State, step: Step)
    requires TakeoverInv(st)
    ensures TakeoverInv(NextCleanup(st, step))
  {
    var after := NextCleanup(st, step);
    CleanupKeepsGuard(st, step);
    assert ActsAsNewest(st, step.s);
    if after != st {
      match step
      case CleanupCheck(s) => CheckKeepsTakeover(st, s);
      case FailRemove(s) => CheckKeepsTakeover(st, s);
      case CleanupRemove(s) =>
        OwnerIsNewest(st, s);
        ReleaseKeeps(st, after, s);
      case _ => MoveKeeps(st, after, step.s);
    }
  }

  lemma FrameKeepsTakeover(st: State, step: Step)
    requires TakeoverInv(st) && IsFrame(step)
    ensures TakeoverInv(NextFrame(st, step))
  {
    var after := NextFrame(st, step);
    forall a
      ensures RegistryFits(after, a)
    {
      assert RegistryFits(st, a);
    }
    forall t
      ensures ActsAsNewest(after, t)
    {
      assert ActsAsNewest(st, t);
    }
  }

  lemma NextKeepsTakeover(st: State, step: Step)
    requires TakeoverInv(st)
    ensures TakeoverInv(Next(st, step))
  {
    if IsRegister(step) {
      RegisterKeepsTakeover(st, step);
    } else if IsFrame(step) {
      FrameKeepsTakeover(st, step);
    } else {
      CleanupKeepsTakeover(st, step);
    }
  }

  lemma {:induction false} RunKeepsTakeover(st: State, steps: seq<Step>)
    requires TakeoverInv(st)
    ensures TakeoverInv(Run(st, steps))
    decreases |steps|
  {
    if steps != [] {
      NextKeepsTakeover(st, steps[0]);
      RunKeepsTakeover(Next(st, steps[0]), steps[1..]);
    }
  }

  // --- a newer session survives the clean-up of older ones ---

  predicate Releasing(step: Step) {
    step.CleanupLeave? || step.CleanupRemove? || step.FailRemove? || step.FailLeave? || step.FrameLeave?
  }

  // The newest session of the agent leaves a room or gives up the entry itself.
  predicate Releases(st: State, step: Step, agent: AgentId) {
    Releasing(step) && agent in st.newest && st.newest[agent] == step.s
  }

  ghost predicate NeverReleased(st: State, steps: seq<Step>, agent: AgentId)
    decreases |steps|
  {
    steps == [] || (!Releases(st, steps[0], agent) && NeverReleased(Next(st, steps[0]), steps[1..], agent))
  }

  ghost predicate Keeps(st: State, after: State, agent: AgentId) {
    && (agent in st.registry ==> agent in after.registry)
    && RoomsOf(st, agent) <= RoomsOf(after, agent)
  }

  lemma OnlyNewestReleases(st: State, step: Step, agent: AgentId)
    requires TakeoverInv(st) && !Releases(st, step, agent)
    ensures Keeps(st, Next(st, step), agent)
  {
    var s := step.s;
    assert ActsAsNewest(st, s);
    if s in st.sessions { OwnerIsNewest(st, s); }
  }

  // However often the agent is taken over and however late the clean-ups of its
  // older sessions run, it stays registered and in its rooms until its newest
  // session leaves.
  lemma {:induction false} AgentKeepsItsPlace(st: State, steps: seq<Step>, agent: AgentId)
    requires TakeoverInv(st) && NeverReleased(st, steps, agent)
    ensures Keeps(st, Run(st, steps), agent)
    decreases |steps|
  {
    if steps != [] {
      OnlyNewestReleases(st, steps[0], agent);
      NextKeepsTakeover(st, steps[0]);
      AgentKeepsItsPlace(Next(st, steps[0]), steps[1..], agent);
    }
  }

  // --- a registration restores the rooms it came for ---

  // The session still has this room to join, or is in it.
  predicate WillBeIn(st: State, s: SessionId, agent: AgentId, room: RoomId) {
    && s in st.sessions && st.sessions[s].agent == agent
    && match st.sessions[s].phase
       case Taking(rooms) => room in rooms
       case Restoring(rooms) => room in rooms || (room, agent) in st.members
       case _ => false
  }

  lemma NextRestores(st: State, step: Step, s: SessionId, agent: AgentId, room: RoomId)
    requires TakeoverInv(st) && WillBeIn(st, s, agent, room) && step != RegisterJoin(s, room, false)
    ensures WillBeIn(Next(st, step), s, agent, room) || step == RegisterEnd(s)
    ensures step == RegisterEnd(s) && In(Next(st, step), s) ==> (room, agent) in Next(st, step).members
  {
    assert ActsAsNewest(st, step.s);
    assert ActsAsNewest(st, s);
    assert RegistryFits(st, agent);
  }

  // A session registers, for the rooms of a stash it reclaimed or those its agent is
  // in. When it goes live, with anything of other agents and sessions in between, the
  // agent is in every one of those rooms to which it was not refused admission.
  lemma {:induction false} RoomsAreRestored(st: State, steps: seq<Step>, s: SessionId, agent: AgentId, room: RoomId)
    requires TakeoverInv(st) && WillBeIn(st, s, agent, room)
    requires forall i :: 0 <= i < |steps| ==> steps[i] != RegisterJoin(s, room, false) && steps[i] != RegisterEnd(s)
    requires In(Next(Run(st, steps), RegisterEnd(s)), s)
    ensures (room, agent) in Next(Run(st, steps), RegisterEnd(s)).members
    decreases |steps|
  {
    if steps == [] {
      NextRestores(st, RegisterEnd(s), s, agent, room);
    } else {
      NextRestores(st, steps[0], s, agent, room);
      NextKeepsTakeover(st, steps[0]);
      RoomsAreRestored(Next(st, steps[0]), steps[1..], s, agent, room);
    }
  }

  lemma RegistrationRestores(st: State, s: SessionId, agent: AgentId, reconnect: bool, reclaimed: Option<set<RoomId>>,
                             steps: seq<Step>, room: RoomId)
    requires TakeoverInv(st) && st.guard.None? && s !in st.sessions && (agent in st.registry ==> reconnect)
    requires if reconnect && reclaimed.Some? then room in reclaimed.value else (room, agent) in st.members
    requires forall i :: 0 <= i < |steps| ==> steps[i] != RegisterJoin(s, room, false) && steps[i] != RegisterEnd(s)
    requires In(Next(Run(Next(st, RegisterBegin(s, agent, reconnect, reclaimed)), steps), RegisterEnd(s)), s)
    ensures (room, agent) in Next(Run(Next(st, RegisterBegin(s, agent, reconnect, reclaimed)), steps), RegisterEnd(s)).members
  {
    NextKeepsTakeover(st, RegisterBegin(s, agent, reconnect, reclaimed));
    RoomsAreRestored(Next(st, RegisterBegin(s, agent, reconnect, reclaimed)), steps, s, agent, room);
  }

  predicate Overtaken(st: State, s: SessionId) {
    && s in st.sessions && !st.sessions[s].phase.Taking?
    && st.sessions[s].agent in st.newest && st.newest[st.sessions[s].agent] != s
  }

  lemma NextKeepsOvertaken(st: State, step: Step, s: SessionId)
    requires Overtaken(st, s)
    ensures Overtaken(Next(st, step), s) && Next(st, step).sessions[s].agent == st.sessions[s].agent
  {}

  lemma {:induction false} StaysOvertaken(st: State, steps: seq<Step>, s: SessionId)
    requires Overtaken(st, s)
    ensures Overtaken(Run(st, steps), s) && Run(st, steps).sessions[s].agent == st.sessions[s].agent
    decreases |steps|
  {
    if steps != [] {
      NextKeepsOvertaken(st, steps[0], s);
      StaysOvertaken(Next(st, steps[0]), steps[1..], s);
    }
  }

  lemma NewestOrOvertaken(st: State, step: Step, s: SessionId)
    requires TakeoverInv(st) && IsNewest(st, s)
    ensures IsNewest(Next(st, step), s) || Overtaken(Next(st, step), s)
    ensures Next(st, step).sessions[s].agent == st.sessions[s].agent
  {
    assert RegistryFits(st, st.sessions[s].agent);
  }

  // A session that is the newest at the end was so all along.
  lemma NewestAllAlong(st: State, steps: seq<Step>, s: SessionId)
    requires steps != [] && TakeoverInv(st) && IsNewest(st, s) && IsNewest(Run(st, steps), s)
    ensures IsNewest(Next(st, steps[0]), s)
  {
    NewestOrOvertaken(st, steps[0], s);
    if Overtaken(Next(st, steps[0]), s) { StaysOvertaken(Next(st, steps[0]), steps[1..], s); }
  }

  lemma {:induction false} UnreleasedWhileNewest(st: State, steps: seq<Step>, s: SessionId)
    requires TakeoverInv(st) && IsNewest(st, s) && IsNewest(Run(st, steps), s)
    requires forall i :: 0 <= i < |steps| ==> !(Releasing(steps[i]) && steps[i].s == s)
    ensures NeverReleased(st, steps, st.sessions[s].agent)
    ensures Run(st, steps).sessions[s].agent == st.sessions[s].agent
    decreases |steps|
  {
    if steps != [] {
      NewestAllAlong(st, steps, s);
      NextKeepsTakeover(st, steps[0]);
      NewestOrOvertaken(st, steps[0], s);
      UnreleasedWhileNewest(Next(st, steps[0]), steps[1..], s);
    }
  }

  // The installed session itself: until it leaves or is taken over, its entry and its
  // rooms stay, whatever all other sessions do.
  lemma NewerSessionSurvives(st: State, steps: seq<Step>, s: SessionId)
    requires TakeoverInv(st) && Owns(st, s)
    requires forall i :: 0 <= i < |steps| ==> !(Releasing(steps[i]) && steps[i].s == s)
    requires IsNewest(Run(st, steps), s)
    ensures Owns(Run(st, steps), s)
    ensures RoomsOf(st, st.sessions[s].agent) <= RoomsOf(Run(st, steps), st.sessions[s].agent)
  {
    OwnerIsNewest(st, s);
    UnreleasedWhileNewest(st, steps, s);
    AgentKeepsItsPlace(st, steps, st.sessions[s].agent);
    NewestIsRegistered(st, steps, s);
  }

  lemma NewestIsRegistered(st: State, steps: seq<Step>, s: SessionId)
    requires TakeoverInv(st) && IsNewest(Run(st, steps), s)
    requires Run(st, steps).sessions[s].agent in Run(st, steps).registry
    ensures Owns(Run(st, steps), s)
  {
    RunKeepsTakeover(st, steps);
    assert RegistryFits(Run(st, steps), Run(st, steps).sessions[s].agent);
  }

  lemma {:induction false} RunSnoc(st: State, steps: seq<Step>, step: Step)
    ensures Run(st, steps + [step]) == Next(Run(st, steps), step)
    decreases |steps|
  {
    if steps == [] {
      assert [step][1..] == [];
    } else {
      assert (steps + [step])[1..] == steps[1..] + [step];
      RunSnoc(Next(st, steps[0]), steps[1..], step);
    }
  }

  lemma {:induction false} RunConcat(st: State, first: seq<Step>, second: seq<Step>)
    ensures Run(st, first + second) == Run(Run(st, first), second)
    decreases |first|
  {
    if first == [] {
      assert first + second == second;
    } else {
      assert (first + second)[1..] == first[1..] + second;
      RunConcat(Next(st, first[0]), first[1..], second);
    }
  }

  lemma Run2(st: State, a: Step, b: Step)
    ensures Run(st, [a, b]) == Next(Next(st, a), b)
  {
    RunSnoc(st, [a], b);
    assert [a] + [b] == [a, b];
    RunSnoc(st, [], a);
    assert [] + [a] == [a];
  }

  lemma Run3(st: State, a: Step, b: Step, c: Step)
    ensures Run(st, [a, b, c]) == Next(Next(Next(st, a), b), c)
  {
    RunSnoc(st, [a, b], c);
    assert [a, b] + [c] == [a, b, c];
    Run2(st, a, b);
  }

  // A session registers, with no rooms to restore.
  function Registering(s: SessionId, agent: AgentId): seq<Step> {
    [RegisterBegin(s, agent, true, None), RegisterInstall(s), RegisterEnd(s)]
  }

  lemma Registers(st: State, s: SessionId, agent: AgentId)
    requires s !in st.sessions && MayTakeGuard(st) && RoomsOf(st, agent) == {}
    ensures Run(st, Registering(s, agent)) == st.(guard := None, registry := st.registry[agent := s], newest := st.newest[agent := s],
                                                  sessions := st.sessions[s := Session(agent, Live)])
  {
    Run3(st, RegisterBegin(s, agent, true, None), RegisterInstall(s), RegisterEnd(s));
    var begun := Next(st, RegisterBegin(s, agent, true, None));
    assert begun == st.(guard := Some(s), sessions := st.sessions[s := Session(agent, Taking({}))]);
    var placed := Next(begun, RegisterInstall(s));
    assert placed.sessions == st.sessions[s := Session(agent, Restoring({}))];
    assert Next(placed, RegisterEnd(s)).sessions == st.sessions[s := Session(agent, Live)];
  }

  // A session leaves that is in no room.
  lemma Leaves(st: State, s: SessionId)
    requires In(st, s) && Owns(st, s) && MayTakeGuard(st) && RoomsOf(st, st.sessions[s].agent) == {}
    ensures var agent := st.sessions[s].agent;
            Run(st, [CleanupCheck(s), CleanupRemove(s)]) ==
            st.(guard := None, registry := st.registry - {agent}, sessions := st.sessions[s := Session(agent, Ended)])
  {
    var agent := st.sessions[s].agent;
    Run2(st, CleanupCheck(s), CleanupRemove(s));
    var leaving := Next(st, CleanupCheck(s));
    assert leaving == st.(guard := Some(s), sessions := st.sessions[s := Session(agent, Leaving({}))]);
    assert Next(leaving, CleanupRemove(s)).sessions == st.sessions[s := Session(agent, Ended)];
  }

  // Session 1 registers for "a" and joins "r".
  const FIRST_JOINS := Registering(1, "a") + [FrameJoin(1, "r")]

  lemma FirstJoins(guarded: bool)
    ensures Run(Initial(guarded), FIRST_JOINS) ==
            State(guarded, None, map["a" := 1], {("r", "a")}, map[1 := Session("a", Live)], map["a" := 1])
  {
    assert RoomsOf(Initial(guarded), "a") == {};
    Registers(Initial(guarded), 1, "a");
    RunSnoc(Initial(guarded), Registering(1, "a"), FrameJoin(1, "r"));
  }

  // Session 2 takes over from it while session 1 is leaving.
  const SECOND_TAKES_OVER := [RegisterBegin(2, "a", true, None), RegisterInstall(2), RegisterJoin(2, "r", true), RegisterEnd(2)]

  const FIRST_LEAVING := map[1 := Session("a", Leaving({"r"}))]

  function BothHere(phase: Phase): map<SessionId, Session> {
    FIRST_LEAVING[2 := Session("a", phase)]
  }

  lemma SecondBegins()
    ensures Next(State(false, Some(1), map["a" := 1], {("r", "a")}, FIRST_LEAVING, map["a" := 1]), SECOND_TAKES_OVER[0]) ==
            State(false, Some(2), map["a" := 1], {("r", "a")}, BothHere(Taking({"r"})), map["a" := 1])
  {
    var st := State(false, Some(1), map["a" := 1], {("r", "a")}, FIRST_LEAVING, map["a" := 1]);
    assert RoomsOf(st, "a") == {"r"};
  }

  lemma SecondInstalls()
    ensures Next(State(false, Some(2), map["a" := 1], {("r", "a")}, BothHere(Taking({"r"})), map["a" := 1]), SECOND_TAKES_OVER[1]) ==
            State(false, Some(2), map["a" := 2], {("r", "a")}, BothHere(Restoring({"r"})), map["a" := 2])
  {
    assert BothHere(Taking({"r"}))[2 := Session("a", Restoring({"r"}))] == BothHere(Restoring({"r"}));
  }

  lemma SecondJoins()
    ensures Next(State(false, Some(2), map["a" := 2], {("r", "a")}, BothHere(Restoring({"r"})), map["a" := 2]), SECOND_TAKES_OVER[2]) ==
            State(false, Some(2), map["a" := 2], {("r", "a")}, BothHere(Restoring({})), map["a" := 2])
  {
    assert {"r"} - {"r"} == {};
    assert {("r", "a")} + {("r", "a")} == {("r", "a")};
    assert BothHere(Restoring({"r"}))[2 := Session("a", Restoring({}))] == BothHere(Restoring({}));
  }

  lemma SecondEnds()
    ensures Next(State(false, Some(2), map["a" := 2], {("r", "a")}, BothHere(Restoring({})), map["a" := 2]), SECOND_TAKES_OVER[3]) ==
            State(false, None, map["a" := 2], {("r", "a")}, BothHere(Live), map["a" := 2])
  {
    assert BothHere(Restoring({}))[2 := Session("a", Live)] == BothHere(Live);
  }

  lemma FirstIsLeaving()
    ensures Run(Initial(false), FIRST_JOINS + [CleanupCheck(1)]) ==
            State(false, Some(1), map["a" := 1], {("r", "a")}, FIRST_LEAVING, map["a" := 1])
  {
    FirstJoins(false);
    RunSnoc(Initial(false), FIRST_JOINS, CleanupCheck(1));
    assert RoomsOf(Run(Initial(false), FIRST_JOINS), "a") == {"r"};
  }

  // Without the guard it does not survive: the older session passes its ownership
  // check, the newer one takes over, and the older one leaves the room for both.
  lemma UnguardedCleanupRemovesNewerSession()
    ensures var st := Run(Initial(false), FIRST_JOINS + [CleanupCheck(1)] + SECOND_TAKES_OVER);
            var after := Next(st, CleanupLeave(1, "r"));
            && In(st, 2) && Owns(st, 2) && IsNewest(st, 2) && RoomsOf(st, "a") == {"r"}
            && In(after, 2) && Owns(after, 2) && IsNewest(after, 2) && RoomsOf(after, "a") == {}
  {
    FirstIsLeaving();
    var leaving := Run(Initial(false), FIRST_JOINS + [CleanupCheck(1)]);
    RunConcat(Initial(false), FIRST_JOINS + [CleanupCheck(1)], SECOND_TAKES_OVER);
    SecondBegins();
    SecondInstalls();
    SecondJoins();
    SecondEnds();
    RunSnoc(leaving, SECOND_TAKES_OVER[..3], SECOND_TAKES_OVER[3]);
    Run3(leaving, SECOND_TAKES_OVER[0], SECOND_TAKES_OVER[1], SECOND_TAKES_OVER[2]);
    assert SECOND_TAKES_OVER == SECOND_TAKES_OVER[..3] + [SECOND_TAKES_OVER[3]];
    assert SECOND_TAKES_OVER[..3] == [SECOND_TAKES_OVER[0], SECOND_TAKES_OVER[1], SECOND_TAKES_OVER[2]];
    FirstLeavesForBoth();
  }

  lemma FirstLeavesForBoth()
    ensures var st := State(false, None, map["a" := 2], {("r", "a")}, BothHere(Live), map["a" := 2]);
            var after := Next(st, CleanupLeave(1, "r"));
            && In(st, 2) && Owns(st, 2) && IsNewest(st, 2) && RoomsOf(st, "a") == {"r"}
            && In(after, 2) && Owns(after, 2) && IsNewest(after, 2) && RoomsOf(after, "a") == {}
  {
    var st := State(false, None, map["a" := 2], {("r", "a")}, BothHere(Live), map["a" := 2]);
    assert RoomsOf(st, "a") == {"r"};
    assert ("r", "a") !in Next(st, CleanupLeave(1, "r")).members;
  }

  // --- every member is registered ---

  // A session in this phase stands for the agent being in the room: the agent is
  // registered, or the room is on the list still to be left.
  predicate Answers(phase: Phase, room: RoomId) {
    match phase
    case Restoring(_) => true
    case Live => true
    case Leaving(rooms) => room in rooms
    case FailLeaving(rooms) => room in rooms
    case _ => false
  }

  predicate Answered(st: State, room: RoomId, agent: AgentId) {
    && agent in st.newest && st.newest[agent] in st.sessions
    && Answers(st.sessions[st.newest[agent]].phase, room)
  }

  ghost predicate MembersAnswered(st: State) {
    forall m :: m in st.members ==> Answered(st, m.0, m.1)
  }

  lemma RegisterKeepsAnswered(st: State, step: Step)
    requires TakeoverInv(st) && MembersAnswered(st) && IsRegister(step)
    ensures MembersAnswered(NextRegister(st, step))
  {
    var after := NextRegister(st, step);
    assert ActsAsNewest(st, step.s);
    forall m | m in after.members
      ensures Answered(after, m.0, m.1)
    {
      assert m in st.members ==> Answered(st, m.0, m.1);
      assert RegistryFits(st, m.1);
    }
  }

  lemma CleanupKeepsAnswered(st: State, step: Step)
    requires TakeoverInv(st) && MembersAnswered(st)
    ensures MembersAnswered(NextCleanup(st, step))
  {
    var after := NextCleanup(st, step);
    assert ActsAsNewest(st, step.s);
    if step.s in st.sessions { OwnerIsNewest(st, step.s); }
    forall m | m in after.members
      ensures Answered(after, m.0, m.1)
    {
      assert Answered(st, m.0, m.1);
      assert RegistryFits(st, m.1);
    }
  }

  lemma FrameKeepsAnswered(st: State, step: Step)
    requires TakeoverInv(st) && MembersAnswered(st) && IsFrame(step) && !step.LateJoin?
    ensures MembersAnswered(NextFrame(st, step))
  {
    var after := NextFrame(st, step);
    if step.s in st.sessions { OwnerIsNewest(st, step.s); }
    forall m | m in after.members
      ensures Answered(after, m.0, m.1)
    {
      assert m in st.members ==> Answered(st, m.0, m.1);
    }
  }

  predicate FramesAtomic(steps: seq<Step>) {
    forall i :: 0 <= i < |steps| ==> !steps[i].LateJoin?
  }

  lemma {:induction false} RunKeepsAnswered(st: State, steps: seq<Step>)
    requires TakeoverInv(st) && MembersAnswered(st) && FramesAtomic(steps)
    ensures MembersAnswered(Run(st, steps))
    decreases |steps|
  {
    if steps != [] {
      if IsRegister(steps[0]) {
        RegisterKeepsAnswered(st, steps[0]);
      } else if IsFrame(steps[0]) {
        FrameKeepsAnswered(st, steps[0]);
      } else {
        CleanupKeepsAnswered(st, steps[0]);
      }
      NextKeepsTakeover(st, steps[0]);
      RunKeepsAnswered(Next(st, steps[0]), steps[1..]);
    }
  }

  lemma InitialKeeps()
    ensures TakeoverInv(Initial(true)) && MembersAnswered(Initial(true))
  {}

  // Over every run with frames atomic: whenever nobody holds the guard, every
  // member of every room is a registered agent.
  lemma MembersAreRegistered(steps: seq<Step>)
    requires FramesAtomic(steps) && Run(Initial(true), steps).guard.None?
    ensures var st := Run(Initial(true), steps); forall m :: m in st.members ==> m.1 in st.registry
  {
    InitialKeeps();
    RunKeepsTakeover(Initial(true), steps);
    RunKeepsAnswered(Initial(true), steps);
    var st := Run(Initial(true), steps);
    forall m | m in st.members
      ensures m.1 in st.registry
    {
      assert Answered(st, m.0, m.1);
      assert RegistryFits(st, m.1);
    }
  }

  // --- a join handled late ---

  // A member nobody stands for, and nobody will: the newest session of the agent
  // has ended, or is leaving without this room on its list.
  predicate Ghost(st: State, room: RoomId, agent: AgentId) {
    (room, agent) in st.members && agent in st.newest && !Answered(st, room, agent)
  }

  lemma NextKeepsGhost(st: State, step: Step, room: RoomId, agent: AgentId)
    requires TakeoverInv(st) && Ghost(st, room, agent)
    requires agent in Next(st, step).newest && Next(st, step).newest[agent] == st.newest[agent]
    ensures Ghost(Next(st, step), room, agent)
  {
    assert RegistryFits(st, agent);
    assert ActsAsNewest(st, step.s);
    if step.s in st.sessions { OwnerIsNewest(st, step.s); }
  }

  lemma {:induction false} RunKeepsGhost(st: State, steps: seq<Step>, room: RoomId, agent: AgentId)
    requires TakeoverInv(st) && Ghost(st, room, agent)
    requires agent in Run(st, steps).newest && Run(st, steps).newest[agent] == st.newest[agent]
    ensures Ghost(Run(st, steps), room, agent)
    decreases |steps|
  {
    if steps != [] {
      var s := st.newest[agent];
      assert RegistryFits(st, agent);
      RunKeepsTakeover(st, steps);
      assert RegistryFits(Run(st, steps), agent);
      NewestAllAlong(st, steps, s);
      NewestOrOvertaken(st, steps[0], s);
      NextKeepsGhost(st, steps[0], room, agent);
      NextKeepsTakeover(st, steps[0]);
      RunKeepsGhost(Next(st, steps[0]), steps[1..], room, agent);
    }
  }

  // A session reads a join while it is live and handles it after a takeover, at any
  // moment of a run. At every later moment at which the guard is free and nobody has
  // taken over again, the agent is an unregistered member exactly when the join
  // came after the newer session had ended, or had begun to leave without this room.
  lemma LateJoinExactly(before: seq<Step>, s: SessionId, room: RoomId, later: seq<Step>)
    requires FramesAtomic(before) && FramesAtomic(later)
    requires In(Run(Initial(true), before), s)
    requires var st := Run(Initial(true), before);
             var end := Run(Next(st, LateJoin(s, room)), later);
             var agent := st.sessions[s].agent;
             end.guard.None? && NewestOf(end, agent) == NewestOf(st, agent)
    ensures var st := Run(Initial(true), before);
            var end := Run(Next(st, LateJoin(s, room)), later);
            var agent := st.sessions[s].agent;
            (room, agent) in end.members && agent !in end.registry <==> !Answered(st, room, agent)
  {
    var st := Run(Initial(true), before);
    var agent := st.sessions[s].agent;
    var joined := Next(st, LateJoin(s, room));
    var end := Run(joined, later);
    InitialKeeps();
    RunKeepsTakeover(Initial(true), before);
    RunKeepsAnswered(Initial(true), before);
    NextKeepsTakeover(st, LateJoin(s, room));
    RunKeepsTakeover(joined, later);
    assert ActsAsNewest(st, s);
    assert RegistryFits(end, agent);
    if Answered(st, room, agent) {
      LateJoinAnswered(st, s, room);
      RunKeepsAnswered(joined, later);
      if (room, agent) in end.members { assert Answered(end, room, agent); }
    } else {
      RunKeepsGhost(joined, later, room, agent);
    }
  }

  lemma LateJoinAnswered(st: State, s: SessionId, room: RoomId)
    requires MembersAnswered(st) && In(st, s) && Answered(st, room, st.sessions[s].agent)
    ensures MembersAnswered(Next(st, LateJoin(s, room)))
  {
    var after := Next(st, LateJoin(s, room));
    forall m | m in after.members
      ensures Answered(after, m.0, m.1)
    {
      if m in st.members { assert Answered(st, m.0, m.1); }
    }
  }

  // Sessions 1 and 2 have registered for "a", and session 2 has left again.
  const SECOND_ENDED := State(true, None, map[], {}, map[1 := Session("a", Live), 2 := Session("a", Ended)], map["a" := 2])

  lemma TwoRegister()
    ensures Run(Initial(true), Registering(1, "a") + Registering(2, "a")) ==
            SECOND_ENDED.(registry := map["a" := 2], sessions := map[1 := Session("a", Live), 2 := Session("a", Live)])
  {
    assert RoomsOf(Initial(true), "a") == {};
    Registers(Initial(true), 1, "a");
    var first := Run(Initial(true), Registering(1, "a"));
    assert RoomsOf(first, "a") == {};
    Registers(first, 2, "a");
    RunConcat(Initial(true), Registering(1, "a"), Registering(2, "a"));
  }

  lemma SecondLeaves()
    ensures Run(Initial(true), Registering(1, "a") + Registering(2, "a") + [CleanupCheck(2), CleanupRemove(2)]) == SECOND_ENDED
  {
    TwoRegister();
    var both := Run(Initial(true), Registering(1, "a") + Registering(2, "a"));
    assert RoomsOf(both, "a") == {};
    Leaves(both, 2);
    RunConcat(Initial(true), Registering(1, "a") + Registering(2, "a"), [CleanupCheck(2), CleanupRemove(2)]);
  }

  // It happens: session 2 takes over, leaves and ends, and session 1 then handles
  // its last join.
  lemma LateJoinLeavesGhostMember()
    ensures var before := Registering(1, "a") + Registering(2, "a") + [CleanupCheck(2), CleanupRemove(2)];
            var after := Next(Run(Initial(true), before), LateJoin(1, "r"));
            FramesAtomic(before) && after.guard.None? && ("r", "a") in after.members && "a" !in after.registry
  {
    SecondLeaves();
    assert In(SECOND_ENDED, 1);
  }
}
