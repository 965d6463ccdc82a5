// The reconnect hand-over of one identity, as interleaved steps: sessions that
// register, replay, commit, fail or disconnect, while any number of room events
// are being published, each in two passes (stashes first, live agents second).
//
// Identities do not share stash or registry entries, and a publish pass visits
// each entry under its own lock, so one identity sees exactly these steps.
module HandOver {
  import opened Options
  import opened Reconnect

  type SessionId = Token

  datatype Phase =
    | Registering             // lifecycle guard held, not yet in the registry
    | Installed               // in the registry, initial frames not yet chosen
    | Replaying               // initial frames given to the writer
    | Written                 // initial write succeeded, lease not yet committed
    | Tail(rest: seq<Frame>)  // lease committed, late frames being sent
    | Live
    | Failed                  // initial write failed, lease not yet dropped
    | Closing                 // disconnect clean-up holds the guard
    | Closed

  // `initial` and `queue` are everything handed to this session's writer.
  datatype Session = Session(
    leased: bool, claimed: seq<Frame>, phase: Phase,
    initial: seq<Frame>, queue: seq<Frame>, broken: bool)

  // History only: what became of an event that a stash took.
  datatype Fate = Waiting | Owned(owner: SessionId) | Discarded | Forgotten | Overwritten

  datatype State = State(
    now: int,
    stash: Option<StashedAgent>,
    live: Option<SessionId>,
    guard: Option<SessionId>,
    sessions: map<SessionId, Session>,
    hidden: set<RoomId>,            // rooms this identity may not access now
    published: map<Frame, bool>,    // event -> did the stash take it in the first pass
    passed: set<Frame>,             // events whose second pass is over
    fate: map<Frame, Fate>,
    tainted: set<Frame>)            // events that were inaccessible at some time

  datatype Step =
    | Tick(seconds: nat)
    | SetHidden(rooms: set<RoomId>)
    | Forget(room: RoomId)
    | Expire
    | BufferVisit(frame: Frame)
    | LiveVisit(frame: Frame, accepted: bool)
    | Register(s: SessionId, reconnect: bool)
    | Install(s: SessionId)
    | Snapshot(s: SessionId)
    | WriteOk(s: SessionId)
    | WriteFail(s: SessionId)
    | DropLeaseStep(s: SessionId)
    | Commit(s: SessionId)
    | TailSend(s: SessionId)
    | TailBreak(s: SessionId)
    | CleanupStash(s: SessionId, rooms: set<RoomId>)
    | CleanupRemove(s: SessionId)

  const INITIAL := State(0, None, None, None, map[], {}, map[], {}, map[], {})

  predicate Visible(hidden: set<RoomId>, f: Frame) {
    FrameRoomId(f).None? || FrameRoomId(f).value !in hidden
  }

  function VisibleOf(hidden: set<RoomId>, fs: seq<Frame>): seq<Frame> {
    Filter((f: Frame) => Visible(hidden, f), fs)
  }

  function Missed(st: State): seq<Frame> {
    if st.stash.Some? then st.stash.value.missed else []
  }

  // Relabels the events still waiting in the stash.
  function Settle(st: State, fate: Fate): map<Frame, Fate> {
    map f | f in st.fate :: if f in Missed(st) then fate else st.fate[f]
  }

  predicate In(st: State, s: SessionId, phase: Phase) {
    s in st.sessions && st.sessions[s].phase == phase
  }

  function With(st: State, s: SessionId, session: Session): State {
    st.(sessions := st.sessions[s := session])
  }

  function To(st: State, s: SessionId, phase: Phase): State
    requires s in st.sessions
  {
    With(st, s, st.sessions[s].(phase := phase))
  }

  predicate Unused(st: State, f: Frame) {
    f.id.Some? && forall g :: g in st.published ==> g.id != f.id
  }

  function HideRooms(st: State, rooms: set<RoomId>): State {
    st.(hidden := rooms, tainted := st.tainted + set f | f in st.published && !Visible(rooms, f))
  }

  function ForgetRoomStep(st: State, room: RoomId): State {
    var hiding := HideRooms(st, st.hidden + {room});
    if st.stash.None? then hiding
    else hiding.(
      stash := Some(Reconnect.Forgotten(st.stash.value, room)),
      fate := map f | f in st.fate ::
        if f in Missed(st) && FrameRoomId(f) == Some(room) then Forgotten else st.fate[f])
  }

  function DiscardStash(st: State): State {
    st.(stash := None, fate := Settle(st, Discarded))
  }

  predicate CanBuffer(st: State, f: Frame) {
    st.stash.Some? && Visible(st.hidden, f) && |st.stash.value.missed| < MAX_BUFFERED_MESSAGES
  }

  function BufferStep(st: State, f: Frame): State {
    if !Unused(st, f) then st
    else if CanBuffer(st, f) then
      st.(stash := Some(Buffered(st.stash.value, f)), published := st.published[f := true], fate := st.fate[f := Waiting])
    else
      st.(published := st.published[f := false], tainted := st.tainted + if Visible(st.hidden, f) then {} else {f})
  }

  function LiveStep(st: State, f: Frame, accepted: bool): State {
    if f !in st.published || f in st.passed then st
    else
      var after := st.(passed := st.passed + {f});
      if !st.published[f] && st.live.Some? && st.live.value in st.sessions && Visible(st.hidden, f) && accepted then
        var s := st.live.value;
        With(after, s, st.sessions[s].(queue := st.sessions[s].queue + [f]))
      else after
  }

  // The registering session takes the lifecycle guard; a lease comes with the
  // events buffered so far.
  function Admit(st: State, s: SessionId, leased: bool): State {
    With(st, s, Session(leased, if leased then Missed(st) else [], Registering, [], [], false)).(guard := Some(s))
  }

  // Claim, take over, start afresh or be refused, under the lifecycle guard.
  function RegisterStep(st: State, s: SessionId, reconnect: bool): State {
    if s in st.sessions || st.guard.Some? then st
    else if reconnect then
      var (stash, outcome) := ClaimStash(st.stash, "", true, s, st.now);
      match outcome
      case Rejected(_) => st
      case Claimed => Admit(st.(stash := stash), s, true)
      case NoStash => Admit(DiscardStash(st), s, false)
    else if st.live.Some? then st
    else Admit(st, s, false)
  }

  function SnapshotStep(st: State, s: SessionId): State
    requires s in st.sessions
  {
    var session := st.sessions[s];
    var chosen := if session.leased && HoldsLease(st.stash, s) then st.stash.value.missed else session.claimed;
    With(st, s, session.(phase := Replaying, initial := VisibleOf(st.hidden, chosen)))
  }

  function CommitStep(st: State, s: SessionId): State
    requires s in st.sessions
  {
    if st.sessions[s].leased && HoldsLease(st.stash, s) then
      To(st, s, Tail(st.stash.value.missed)).(stash := CommitLease(st.stash, s), fate := Settle(st, Owned(s)))
    else To(st, s, Tail([]))
  }

  predicate Replayed(session: Session, f: Frame) {
    f.id.Some? && exists g :: g in session.initial && g.id == f.id
  }

  // Sends, or skips, the first late frame.
  function TailSession(hidden: set<RoomId>, x: Session): Session
    requires x.phase.Tail?
  {
    var rest := x.phase.rest;
    if rest == [] then x.(phase := Live)
    else if Replayed(x, rest[0]) || !Visible(hidden, rest[0]) then x.(phase := Tail(rest[1..]))
    else x.(phase := Tail(rest[1..]), queue := x.queue + [rest[0]])
  }

  function TailStep(st: State, s: SessionId): State
    requires s in st.sessions && st.sessions[s].phase.Tail?
  {
    With(st, s, TailSession(st.hidden, st.sessions[s]))
  }

  // A session that no longer owns the registry entry just ends. One that was in
  // rooms stashes them, replacing any earlier stash.
  function CleanupStashStep(st: State, s: SessionId, rooms: set<RoomId>): State
    requires s in st.sessions
  {
    if st.live != Some(s) then To(st, s, Closed)
    else
      var closing := To(st, s, Closing).(guard := Some(s));
      if rooms == {} then closing
      else closing.(stash := Some(StashedAgent("", "", "", rooms, [], st.now, None)), fate := Settle(st, Overwritten))
  }

  function Next(st: State, step: Step): State {
    match step
    case Tick(seconds) => st.(now := st.now + seconds)
    case SetHidden(rooms) => HideRooms(st, rooms)
    case Forget(room) => ForgetRoomStep(st, room)
    case Expire => if st.stash.Some? && Expired(st.stash.value, st.now) then DiscardStash(st) else st
    case BufferVisit(f) => BufferStep(st, f)
    case LiveVisit(f, accepted) => LiveStep(st, f, accepted)
    case Register(s, reconnect) => RegisterStep(st, s, reconnect)
    case Install(s) =>
      if In(st, s, Registering) && st.guard == Some(s) then To(st, s, Installed).(live := Some(s), guard := None) else st
    case Snapshot(s) => if In(st, s, Installed) then SnapshotStep(st, s) else st
    case WriteOk(s) => if In(st, s, Replaying) then To(st, s, Written) else st
    case WriteFail(s) =>
      if In(st, s, Replaying) && st.guard.None? then
        To(st, s, Failed).(live := if st.live == Some(s) then None else st.live)
      else st
    case DropLeaseStep(s) =>
      if In(st, s, Failed) then
        To(st, s, Closed).(stash := if st.sessions[s].leased then DropLease(st.stash, s) else st.stash)
      else st
    case Commit(s) => if In(st, s, Written) then CommitStep(st, s) else st
    case TailSend(s) => if s in st.sessions && st.sessions[s].phase.Tail? then TailStep(st, s) else st
    case TailBreak(s) =>
      if s in st.sessions && st.sessions[s].phase.Tail? then
        With(st, s, st.sessions[s].(phase := Live, broken := true))
      else st
    case CleanupStash(s, rooms) => if In(st, s, Live) && st.guard.None? then CleanupStashStep(st, s, rooms) else st
    case CleanupRemove(s) =>
      if In(st, s, Closing) then
        To(st, s, Closed).(guard := None, live := if st.live == Some(s) then None else st.live)
      else st
  }

  function Run(st: State, steps: seq<Step>): State
    decreases |steps|
  {
    if steps == [] then st else Run(Next(st, steps[0]), steps[1..])
  }

  lemma RunSnoc(st: State, steps: seq<Step>, step: Step)
    ensures Run(st, steps + [step]) == Next(Run(st, steps), step)
    decreases |steps|
  {
    if steps == [] {
      assert [step][1..] == [];
    } else {
      assert (steps + [step])[1..] == steps[1..] + [step];
      RunSnoc(Next(st, steps[0]), steps[1..], step);
    }
  }

  lemma {:induction false} RunConcat(st: State, xs: seq<Step>, ys: seq<Step>)
    ensures Run(st, xs + ys) == Run(Run(st, xs), ys)
    decreases |xs|
  {
    if xs == [] {
      assert xs + ys == ys;
    } else {
      assert (xs + ys)[1..] == xs[1..] + ys;
      RunConcat(Next(st, xs[0]), xs[1..], ys);
    }
  }

  // --- what changes what ---

  // An event is published once, under a new id; its second pass follows.
  lemma PublishChanges(st: State, step: Step, f: Frame)
    ensures f in Next(st, step).published <==>
              || f in st.published
              || (step == BufferVisit(f) && f.id.Some? && forall g :: g in st.published ==> g.id != f.id)
  {
    if step.BufferVisit? { FirstPassPublishes(st, step.frame, f); }
  }

  lemma FirstPassPublishes(st: State, f: Frame, g: Frame)
    ensures g in Next(st, BufferVisit(f)).published <==>
              g in st.published || (g == f && f.id.Some? && forall h :: h in st.published ==> h.id != f.id)
  {}

  lemma PassedChanges(st: State, step: Step, f: Frame)
    ensures f in Next(st, step).passed <==> f in st.passed || (step.LiveVisit? && step.frame == f && f in st.published)
  {}

  // Its first pass puts it last in a stash that has space, if there is one and the
  // room is accessible, and nowhere otherwise.
  lemma FirstPassChanges(st: State, f: Frame)
    requires f.id.Some? && forall g :: g in st.published ==> g.id != f.id
    ensures var after := Next(st, BufferVisit(f));
            var taken := st.stash.Some? && |st.stash.value.missed| < 200 && forall room :: room in st.hidden ==> !Names(f, room);
            && after.published[f] == taken
            && after.stash == (if taken then Some(st.stash.value.(missed := st.stash.value.missed + [f])) else st.stash)
            && (f in after.fate && after.fate[f] == Waiting <==> taken || (f in st.fate && st.fate[f] == Waiting))
  {
    VisibleExactly(st.hidden, f);
  }

  lemma VisibleExactly(hidden: set<RoomId>, f: Frame)
    ensures Visible(hidden, f) <==> forall room :: room in hidden ==> !Names(f, room)
  {
    if !Visible(hidden, f) { assert Names(f, FrameRoomId(f).value); }
  }

  // Its second pass sends it to the session registered then, if no stash took it, the
  // room is accessible and the queue has space, and to no other.
  lemma SecondPassChanges(st: State, f: Frame, accepted: bool, s: SessionId)
    requires s in st.sessions && f in st.published && f !in st.passed
    ensures var heard := !st.published[f] && st.live == Some(s) && accepted && forall room :: room in st.hidden ==> !Names(f, room);
            Next(st, LiveVisit(f, accepted)).sessions[s] ==
              if heard then st.sessions[s].(queue := st.sessions[s].queue + [f]) else st.sessions[s]
  {
    VisibleExactly(st.hidden, f);
  }

  // A session registers under the guard: with a lease on a fresh unclaimed stash, or
  // without one, discarding an expired one, or over a live session; or it is refused.
  lemma RegistersExactly(st: State, s: SessionId, reconnect: bool)
    requires s !in st.sessions
    ensures var after := Next(st, Register(s, reconnect));
            var young := st.stash.Some? && st.now < st.stash.value.disconnectedAt + 120;
            && (s in after.sessions <==>
                  st.guard.None? && if reconnect then !(young && st.stash.value.claim.Some?) else st.live.None?)
            && (s in after.sessions ==>
                  && after.guard == Some(s) && after.sessions[s].phase.Registering?
                  && after.sessions[s].initial == [] && after.sessions[s].queue == [] && !after.sessions[s].broken
                  && (after.sessions[s].leased <==> reconnect && young)
                  && after.sessions[s].claimed == (if reconnect && young then st.stash.value.missed else [])
                  && after.stash == (if reconnect && young then Some(st.stash.value.(claim := Some(s)))
                                     else if reconnect then None else st.stash))
            && (s !in after.sessions ==> after == st)
  {}

  // The registry entry: set by an installation, removed by a failed write of its own
  // session and at the end of its own clean-up.
  lemma LiveChanges(st: State, step: Step, s: SessionId)
    ensures Next(st, step).live == Some(s) <==>
              if step.Install? && In(st, step.s, Registering) && st.guard == Some(step.s) then step.s == s
              else && st.live == Some(s)
                   && !(step == WriteFail(s) && In(st, s, Replaying) && st.guard.None?)
                   && !(step == CleanupRemove(s) && In(st, s, Closing))
  {}

  // The guard: taken by a registration and by the clean-up of the registered session.
  lemma GuardChanges(st: State, step: Step, s: SessionId)
    ensures Next(st, step).guard == Some(s) <==>
              || (step.Register? && step.s == s && s !in st.sessions && s in Next(st, step).sessions)
              || (step.CleanupStash? && step.s == s && In(st, s, Live) && st.guard.None? && st.live == Some(s))
              || (st.guard == Some(s)
                  && !(step.Install? && In(st, step.s, Registering) && st.guard == Some(step.s))
                  && !(step.CleanupRemove? && In(st, step.s, Closing)))
  {}

  // What is hidden, and what was hidden at some time since it was published.
  lemma HiddenChanges(st: State, step: Step, room: RoomId)
    ensures room in Next(st, step).hidden <==>
              if step.SetHidden? then room in step.rooms else room in st.hidden || step == Forget(room)
  {}

  lemma TaintChanges(st: State, step: Step, f: Frame)
    requires f in st.published
    ensures f in Next(st, step).tainted <==>
              || f in st.tainted
              || (step.SetHidden? && exists room :: room in step.rooms && Names(f, room))
              || (step.Forget? && exists room :: room in st.hidden + {step.room} && Names(f, room))
  {
    if step.SetHidden? {
      VisibleExactly(step.rooms, f);
    } else if step.Forget? {
      VisibleExactly(st.hidden + {step.room}, f);
    }
  }

  // The course of a session, each step from its own phase only.
  lemma WriteExactly(st: State, s: SessionId)
    requires s in st.sessions
    ensures In(Next(st, WriteOk(s)), s, Written) <==> In(st, s, Replaying) || In(st, s, Written)
    ensures In(Next(st, WriteFail(s)), s, Failed) <==> (In(st, s, Replaying) && st.guard.None?) || In(st, s, Failed)
  {}

  lemma EndsExactly(st: State, s: SessionId)
    requires s in st.sessions
    ensures In(Next(st, CleanupRemove(s)), s, Closed) <==> In(st, s, Closing) || In(st, s, Closed)
    ensures In(Next(st, DropLeaseStep(s)), s, Closed) <==> In(st, s, Failed) || In(st, s, Closed)
  {}

  // A commit takes the whole stash over, if the lease still holds it, as the late
  // frames to be sent.
  lemma CommitExactly(st: State, s: SessionId)
    requires In(st, s, Written)
    ensures var after := Next(st, Commit(s));
            var holds := st.sessions[s].leased && st.stash.Some? && st.stash.value.claim == Some(s);
            && after.stash == (if holds then None else st.stash)
            && after.sessions[s] == st.sessions[s].(phase := Tail(if holds then st.stash.value.missed else []))
  {}

  // The late frames go out one by one, in order, save those replayed already and those
  // of rooms inaccessible by then; a writer that is gone ends them.
  lemma TailExactly(st: State, s: SessionId)
    requires s in st.sessions && st.sessions[s].phase.Tail?
    ensures var x := st.sessions[s];
            var rest := x.phase.rest;
            var after := Next(st, TailSend(s)).sessions[s];
            && (rest == [] ==> after == x.(phase := Live))
            && (rest != [] ==>
                  var skipped := || (rest[0].id.Some? && exists g :: g in x.initial && g.id == rest[0].id)
                                 || exists room :: room in st.hidden && Names(rest[0], room);
                  after == x.(phase := Tail(rest[1..]), queue := if skipped then x.queue else x.queue + [rest[0]]))
    ensures Next(st, TailBreak(s)).sessions[s] == st.sessions[s].(phase := Live, broken := true)
  {
    if st.sessions[s].phase.rest != [] { VisibleExactly(st.hidden, st.sessions[s].phase.rest[0]); }
  }

  // A clean-up of the registered session stashes the rooms it was in, empty and
  // unclaimed, in place of any earlier stash; another session's just ends.
  lemma CleanupExactly(st: State, s: SessionId, rooms: set<RoomId>)
    requires In(st, s, Live) && st.guard.None?
    ensures var after := Next(st, CleanupStash(s, rooms));
            && after.sessions[s].phase == (if st.live == Some(s) then Closing else Closed)
            && after.stash == (if st.live == Some(s) && rooms != {} then Some(StashedAgent("", "", "", rooms, [], st.now, None))
                               else st.stash)
  {}

  // --- invariant ---

  ghost predicate UniqueIds(st: State) {
    forall f, g :: f in st.published && g in st.published && f.id == g.id ==> f == g
  }

  ghost predicate EventsInv(st: State) {
    && (forall f :: f in st.published ==> f.id.Some?)
    && (forall f :: f in st.fate <==> f in st.published && st.published[f])
    && (forall f :: f in st.passed ==> f in st.published)
    && (forall f :: f in st.published && !Visible(st.hidden, f) ==> f in st.tainted)
  }

  // The stash holds exactly the events still waiting, each once.
  ghost predicate StashInv(st: State) {
    && NoDup(Missed(st))
    && (forall f :: f in Missed(st) <==> f in st.fate && st.fate[f] == Waiting)
  }

  predicate BeforeCommit(phase: Phase) {
    phase.Registering? || phase.Installed? || phase.Replaying? || phase.Written? || phase.Failed?
  }

  function Rest(x: Session): seq<Frame> {
    if x.phase.Tail? then x.phase.rest else []
  }

  // Replayed and late frames came from the stash; queued ones before the commit
  // were live.
  ghost predicate Sources(st: State, x: Session) {
    && (forall f :: f in x.claimed || f in x.initial || f in Rest(x) ==> f in st.fate)
    && (forall f :: f in x.queue ==> f in st.published)
    && (forall f :: f in x.queue && !st.published[f] ==> f in st.passed)
    && (BeforeCommit(x.phase) ==> forall f :: f in x.queue ==> !st.published[f])
    && (x.phase.Registering? || x.phase.Installed? ==> x.initial == [])
  }

  // Nothing is handed over twice.
  ghost predicate Once(x: Session) {
    && NoDup(x.claimed) && NoDup(x.initial) && NoDup(x.queue) && NoDup(Rest(x))
    && (forall f :: f in x.queue ==> f !in x.initial && f !in Rest(x))
  }

  // Events a session took over at its commit are handed over, or still to come.
  ghost predicate OwnsWhatItTook(st: State, s: SessionId, x: Session) {
    forall f :: f in st.fate && st.fate[f] == Owned(s) ==>
      && !BeforeCommit(x.phase)
      && (f in st.tainted || x.broken || f in x.initial || f in x.queue || f in Rest(x))
  }

  ghost predicate SessionInv(st: State, s: SessionId) {
    s in st.sessions ==>
      Sources(st, st.sessions[s]) && Once(st.sessions[s]) && OwnsWhatItTook(st, s, st.sessions[s])
  }

  ghost predicate OwnersKnown(st: State) {
    forall f :: f in st.fate && st.fate[f].Owned? ==> st.fate[f].owner in st.sessions
  }

  ghost predicate Inv(st: State) {
    && UniqueIds(st) && EventsInv(st) && StashInv(st) && OwnersKnown(st)
    && forall s :: s in st.sessions ==> SessionInv(st, s)
  }

  lemma NextKeepsUniqueIds(st: State, step: Step)
    requires UniqueIds(st)
    ensures UniqueIds(Next(st, step))
  {}

  // Steps of one session that touch neither the events nor the stash contents.
  predicate Quiet(step: Step) {
    || step.Tick? || step.Install? || step.Snapshot? || step.WriteOk? || step.WriteFail?
    || step.DropLeaseStep? || step.TailSend? || step.TailBreak? || step.CleanupRemove?
  }

  ghost predicate SameEvents(st: State, after: State) {
    && after.published == st.published && after.passed == st.passed && after.fate == st.fate
    && after.tainted == st.tainted && after.hidden == st.hidden && Missed(after) == Missed(st)
  }

  lemma QuietKeepsEvents(st: State, step: Step)
    requires Quiet(step)
    ensures SameEvents(st, Next(st, step))
  {}

  lemma BufferKeepsEvents(st: State, f: Frame)
    requires EventsInv(st) && StashInv(st)
    ensures EventsInv(BufferStep(st, f)) && StashInv(BufferStep(st, f))
  {
    if CanBuffer(st, f) && Unused(st, f) {
      NoDupSnoc(Missed(st), f);
    }
  }

  lemma HideKeepsEvents(st: State, rooms: set<RoomId>)
    requires EventsInv(st) && StashInv(st)
    ensures EventsInv(HideRooms(st, rooms)) && StashInv(HideRooms(st, rooms))
  {}

  lemma ForgetKeepsEvents(st: State, room: RoomId)
    requires EventsInv(st) && StashInv(st)
    ensures EventsInv(ForgetRoomStep(st, room)) && StashInv(ForgetRoomStep(st, room))
  {
    HideKeepsEvents(st, st.hidden + {room});
    FilterNoDup((f: Frame) => FrameRoomId(f) != Some(room), Missed(st));
  }

  // Emptying or replacing the stash with its events relabelled.
  lemma SettleKeepsEvents(st: State, after: State, fate: Fate)
    requires EventsInv(st) && StashInv(st) && fate != Waiting
    requires after.fate == Settle(st, fate) && Missed(after) == []
    requires after.published == st.published && after.passed == st.passed
    requires after.tainted == st.tainted && after.hidden == st.hidden
    ensures EventsInv(after) && StashInv(after)
  {}

  lemma RegisterKeepsEvents(st: State, s: SessionId, reconnect: bool)
    requires EventsInv(st) && StashInv(st)
    ensures EventsInv(RegisterStep(st, s, reconnect)) && StashInv(RegisterStep(st, s, reconnect))
  {
    if reconnect && ClaimStash(st.stash, "", true, s, st.now).1.NoStash? {
      SettleKeepsEvents(st, DiscardStash(st), Discarded);
    }
  }

  lemma CommitKeepsEvents(st: State, s: SessionId)
    requires EventsInv(st) && StashInv(st) && s in st.sessions
    ensures EventsInv(CommitStep(st, s)) && StashInv(CommitStep(st, s))
  {
    SettleKeepsEvents(st, st.(stash := None, fate := Settle(st, Owned(s))), Owned(s));
  }

  lemma CleanupKeepsEvents(st: State, s: SessionId, rooms: set<RoomId>)
    requires EventsInv(st) && StashInv(st) && s in st.sessions
    ensures EventsInv(CleanupStashStep(st, s, rooms)) && StashInv(CleanupStashStep(st, s, rooms))
  {
    if st.live == Some(s) && rooms != {} {
      SettleKeepsEvents(st, CleanupStashStep(st, s, rooms), Overwritten);
    }
  }

  lemma LiveKeepsEvents(st: State, f: Frame, accepted: bool)
    requires EventsInv(st) && StashInv(st)
    ensures EventsInv(LiveStep(st, f, accepted)) && StashInv(LiveStep(st, f, accepted))
  {}

  lemma NextKeepsEvents(st: State, step: Step)
    requires EventsInv(st) && StashInv(st)
    ensures EventsInv(Next(st, step)) && StashInv(Next(st, step))
  {
    match step {
      case BufferVisit(f) => BufferKeepsEvents(st, f);
      case SetHidden(rooms) => HideKeepsEvents(st, rooms);
      case Forget(room) => ForgetKeepsEvents(st, room);
      case LiveVisit(f, accepted) => LiveKeepsEvents(st, f, accepted);
      case Expire => SettleKeepsEvents(st, DiscardStash(st), Discarded);
      case Register(s, reconnect) => RegisterKeepsEvents(st, s, reconnect);
      case Commit(s) => if In(st, s, Written) { CommitKeepsEvents(st, s); }
      case CleanupStash(s, rooms) => if s in st.sessions { CleanupKeepsEvents(st, s, rooms); }
      case _ => QuietKeepsEvents(st, step);
    }
  }

  lemma NextKeepsOwners(st: State, step: Step)
    requires OwnersKnown(st)
    ensures OwnersKnown(Next(st, step))
  {}

  // The one session whose record a step may change.
  function Subject(st: State, step: Step): Option<SessionId> {
    match step
    case Register(s, _) => Some(s)
    case Install(s) => Some(s)
    case Snapshot(s) => Some(s)
    case WriteOk(s) => Some(s)
    case WriteFail(s) => Some(s)
    case DropLeaseStep(s) => Some(s)
    case Commit(s) => Some(s)
    case TailSend(s) => Some(s)
    case TailBreak(s) => Some(s)
    case CleanupStash(s, _) => Some(s)
    case CleanupRemove(s) => Some(s)
    case LiveVisit(_, _) => st.live
    case _ => None
  }

  // Outcomes of first passes never change, histories only grow.
  ghost predicate Grows(st: State, after: State) {
    && (forall f :: f in st.published ==> f in after.published && after.published[f] == st.published[f])
    && st.passed <= after.passed && st.tainted <= after.tainted
  }

  ghost predicate NoNewOwner(st: State, after: State, s: SessionId) {
    forall f :: f in after.fate && after.fate[f] == Owned(s) ==> f in st.fate && st.fate[f] == Owned(s)
  }

  // Steps of the room and of time, rather than of one session.
  predicate IsEventStep(step: Step) {
    step.Tick? || step.SetHidden? || step.Forget? || step.Expire? || step.BufferVisit? || step.LiveVisit?
  }

  lemma EventStepGrows(st: State, step: Step)
    requires EventsInv(st) && IsEventStep(step)
    ensures Grows(st, Next(st, step))
  {}

  lemma SessionStepGrows(st: State, step: Step)
    requires !IsEventStep(step)
    ensures Grows(st, Next(st, step))
  {}

  lemma NextGrows(st: State, step: Step)
    requires EventsInv(st)
    ensures Grows(st, Next(st, step))
  {
    if IsEventStep(step) { EventStepGrows(st, step); } else { SessionStepGrows(st, step); }
  }

  lemma OnlyCommitOwns(st: State, step: Step, s: SessionId)
    requires step != Commit(s)
    ensures NoNewOwner(st, Next(st, step), s)
  {}

  ghost predicate SessionKept(st: State, after: State, s: SessionId) {
    (s in after.sessions <==> s in st.sessions) && (s in st.sessions ==> after.sessions[s] == st.sessions[s])
  }

  lemma EventStepKeepsOthers(st: State, step: Step, s: SessionId)
    requires Subject(st, step) != Some(s) && IsEventStep(step)
    ensures SessionKept(st, Next(st, step), s)
  {}

  lemma SessionStepKeepsOthers(st: State, step: Step, s: SessionId)
    requires Subject(st, step) != Some(s) && !IsEventStep(step)
    ensures SessionKept(st, Next(st, step), s)
  {}

  lemma OnlySubjectChanges(st: State, step: Step, s: SessionId)
    requires Subject(st, step) != Some(s)
    ensures s in Next(st, step).sessions <==> s in st.sessions
    ensures s in st.sessions ==> Next(st, step).sessions[s] == st.sessions[s]
  {
    if IsEventStep(step) { EventStepKeepsOthers(st, step, s); } else { SessionStepKeepsOthers(st, step, s); }
  }

  lemma SessionFrame(st: State, after: State, s: SessionId)
    requires SessionInv(st, s) && Grows(st, after) && NoNewOwner(st, after, s)
    requires EventsInv(st) && EventsInv(after)
    requires s in after.sessions ==> s in st.sessions && after.sessions[s] == st.sessions[s]
    ensures SessionInv(after, s)
  {}

  // Moving on to another phase changes nothing else.
  lemma PhaseChange(st: State, after: State, s: SessionId, phase: Phase)
    requires SessionInv(st, s) && s in st.sessions && s in after.sessions
    requires SameEvents(st, after) && after.sessions[s] == st.sessions[s].(phase := phase)
    requires BeforeCommit(phase) ==> BeforeCommit(st.sessions[s].phase)
    requires phase.Registering? || phase.Installed? ==> st.sessions[s].initial == []
    requires !phase.Tail? && Rest(st.sessions[s]) == []
    ensures SessionInv(after, s)
  {}

  lemma LiveKeepsSession(st: State, f: Frame, accepted: bool, s: SessionId)
    requires EventsInv(st) && SessionInv(st, s) && st.live == Some(s)
    ensures SessionInv(LiveStep(st, f, accepted), s)
  {
    if s in st.sessions && LiveStep(st, f, accepted).sessions != st.sessions {
      NoDupSnoc(st.sessions[s].queue, f);
    }
  }

  lemma AdmitKeepsSession(st: State, s: SessionId, leased: bool)
    requires StashInv(st) && OwnersKnown(st) && s !in st.sessions
    ensures SessionInv(Admit(st, s, leased), s)
  {}

  lemma RegisterKeepsSession(st: State, s: SessionId, reconnect: bool)
    requires EventsInv(st) && StashInv(st) && OwnersKnown(st) && SessionInv(st, s)
    ensures SessionInv(RegisterStep(st, s, reconnect), s)
  {
    if s !in st.sessions {
      var (stash, outcome) := ClaimStash(st.stash, "", true, s, st.now);
      if reconnect && outcome.Claimed? {
        AdmitKeepsSession(st.(stash := stash), s, true);
      } else if reconnect && outcome.NoStash? {
        SettleKeepsEvents(st, DiscardStash(st), Discarded);
        AdmitKeepsSession(DiscardStash(st), s, false);
      } else {
        AdmitKeepsSession(st, s, false);
      }
    }
  }

  lemma SnapshotKeepsSession(st: State, s: SessionId)
    requires EventsInv(st) && StashInv(st) && SessionInv(st, s) && In(st, s, Installed)
    ensures SessionInv(SnapshotStep(st, s), s)
  {
    FilterNoDup((f: Frame) => Visible(st.hidden, f), Missed(st));
    FilterNoDup((f: Frame) => Visible(st.hidden, f), st.sessions[s].claimed);
  }

  lemma CommitTakesStash(st: State, s: SessionId)
    requires EventsInv(st) && StashInv(st) && SessionInv(st, s) && In(st, s, Written)
    requires st.sessions[s].leased && HoldsLease(st.stash, s)
    ensures SessionInv(CommitStep(st, s), s)
  {}

  lemma CommitTakesNothing(st: State, s: SessionId)
    requires SessionInv(st, s) && In(st, s, Written)
    ensures SessionInv(To(st, s, Tail([])), s)
  {}

  lemma CommitKeepsSession(st: State, s: SessionId)
    requires EventsInv(st) && StashInv(st) && SessionInv(st, s) && In(st, s, Written)
    ensures SessionInv(CommitStep(st, s), s)
  {
    if st.sessions[s].leased && HoldsLease(st.stash, s) {
      CommitTakesStash(st, s);
    } else {
      CommitTakesNothing(st, s);
    }
  }

  // A late frame is skipped only if it was replayed or is inaccessible.
  lemma SkippedIsReplayed(st: State, x: Session, f: Frame)
    requires UniqueIds(st) && EventsInv(st) && Sources(st, x) && f in st.published
    ensures Replayed(x, f) <==> f in x.initial
  {
    if Replayed(x, f) {
      var g :| g in x.initial && g.id == f.id;
      assert g == f;
    }
  }

  lemma TailKeepsOnce(hidden: set<RoomId>, x: Session)
    requires x.phase.Tail? && Once(x)
    requires x.phase.rest != [] && x.phase.rest[0] in x.initial ==> Replayed(x, x.phase.rest[0])
    ensures Once(TailSession(hidden, x))
  {
    var rest := x.phase.rest;
    if rest != [] {
      MemberSplit(rest);
      NoDupSnoc(x.queue, rest[0]);
    }
  }

  lemma MemberSplit(rest: seq<Frame>)
    requires rest != []
    ensures forall f :: f in rest <==> f == rest[0] || f in rest[1..]
  {
    assert rest == [rest[0]] + rest[1..];
  }

  lemma TailKeepsSources(st: State, x: Session)
    requires x.phase.Tail? && EventsInv(st) && Sources(st, x)
    ensures Sources(st, TailSession(st.hidden, x))
  {
    if x.phase.rest != [] {
      MemberSplit(x.phase.rest);
    }
  }

  lemma TailKeepsOwned(st: State, s: SessionId, x: Session)
    requires x.phase.Tail? && EventsInv(st) && OwnsWhatItTook(st, s, x)
    requires x.phase.rest != [] && Replayed(x, x.phase.rest[0]) ==> x.phase.rest[0] in x.initial
    ensures OwnsWhatItTook(st, s, TailSession(st.hidden, x))
  {
    if x.phase.rest != [] {
      MemberSplit(x.phase.rest);
    }
  }

  lemma TailKeepsSession(st: State, s: SessionId)
    requires UniqueIds(st) && EventsInv(st) && SessionInv(st, s)
    requires s in st.sessions && st.sessions[s].phase.Tail?
    ensures SessionInv(TailStep(st, s), s)
  {
    var x := st.sessions[s];
    if x.phase.rest != [] {
      MemberSplit(x.phase.rest);
      SkippedIsReplayed(st, x, x.phase.rest[0]);
    }
    TailKeepsOnce(st.hidden, x);
    TailKeepsSources(st, x);
    TailKeepsOwned(st, s, x);
    var y := TailSession(st.hidden, x);
    assert Sources(TailStep(st, s), y) && OwnsWhatItTook(TailStep(st, s), s, y);
  }

  lemma PhaseStepKeepsSession(st: State, step: Step, s: SessionId)
    requires SessionInv(st, s) && Subject(st, step) == Some(s)
    requires step.Install? || step.WriteOk? || step.WriteFail? || step.DropLeaseStep? || step.CleanupRemove?
    ensures SessionInv(Next(st, step), s)
  {
    var after := Next(st, step);
    if after.sessions != st.sessions {
      PhaseChange(st, after, s, after.sessions[s].phase);
    }
  }

  lemma CleanupKeepsSession(st: State, s: SessionId, rooms: set<RoomId>)
    requires EventsInv(st) && SessionInv(st, s) && In(st, s, Live)
    ensures SessionInv(CleanupStashStep(st, s, rooms), s)
  {
    var after := CleanupStashStep(st, s, rooms);
    PhaseChange(st, st.(sessions := after.sessions), s, after.sessions[s].phase);
    CleanupOwnsNothing(st, s, rooms);
    FateFrame(st.(sessions := after.sessions), after, s);
  }

  lemma CleanupOwnsNothing(st: State, s: SessionId, rooms: set<RoomId>)
    requires In(st, s, Live)
    ensures var after := CleanupStashStep(st, s, rooms);
            after.fate.Keys == st.fate.Keys && NoNewOwner(st.(sessions := after.sessions), after, s)
  {}

  // Only fates change, and none to this owner.
  lemma FateFrame(st: State, after: State, s: SessionId)
    requires SessionInv(st, s) && NoNewOwner(st, after, s) && after.fate.Keys == st.fate.Keys
    requires after.sessions == st.sessions && after.published == st.published && after.passed == st.passed
    requires after.tainted == st.tainted
    ensures SessionInv(after, s)
  {}

  lemma TailBreakKeepsSession(st: State, s: SessionId)
    requires SessionInv(st, s)
    ensures SessionInv(Next(st, TailBreak(s)), s)
  {}

  lemma OwnStepKeepsSession(st: State, step: Step, s: SessionId)
    requires UniqueIds(st) && EventsInv(st) && StashInv(st) && OwnersKnown(st) && SessionInv(st, s)
    requires Subject(st, step) == Some(s)
    ensures SessionInv(Next(st, step), s)
  {
    match step {
      case LiveVisit(f, accepted) => LiveKeepsSession(st, f, accepted, s);
      case Register(_, reconnect) => RegisterKeepsSession(st, s, reconnect);
      case Snapshot(_) => if In(st, s, Installed) { SnapshotKeepsSession(st, s); }
      case Commit(_) => if In(st, s, Written) { CommitKeepsSession(st, s); }
      case TailSend(_) => if s in st.sessions && st.sessions[s].phase.Tail? { TailKeepsSession(st, s); }
      case TailBreak(_) => TailBreakKeepsSession(st, s);
      case CleanupStash(_, rooms) => if In(st, s, Live) { CleanupKeepsSession(st, s, rooms); }
      case _ => PhaseStepKeepsSession(st, step, s);
    }
  }

  lemma NextKeepsSession(st: State, step: Step, s: SessionId)
    requires UniqueIds(st) && EventsInv(st) && StashInv(st) && OwnersKnown(st) && SessionInv(st, s)
    ensures SessionInv(Next(st, step), s)
  {
    if Subject(st, step) == Some(s) {
      OwnStepKeepsSession(st, step, s);
    } else {
      NextKeepsEvents(st, step);
      NextGrows(st, step);
      OnlySubjectChanges(st, step, s);
      OnlyCommitOwns(st, step, s);
      SessionFrame(st, Next(st, step), s);
    }
  }

  lemma NextKeepsInv(st: State, step: Step)
    requires Inv(st)
    ensures Inv(Next(st, step))
  {
    NextKeepsUniqueIds(st, step);
    NextKeepsEvents(st, step);
    NextKeepsOwners(st, step);
    forall s | s in Next(st, step).sessions
      ensures SessionInv(Next(st, step), s)
    {
      NextKeepsSession(st, step, s);
    }
  }

  lemma {:induction false} RunKeepsInv(st: State, steps: seq<Step>)
    requires Inv(st)
    ensures Inv(Run(st, steps))
    decreases |steps|
  {
    if steps != [] {
      NextKeepsInv(st, steps[0]);
      RunKeepsInv(Next(st, steps[0]), steps[1..]);
    }
  }

  // --- what every run guarantees ---

  // Everything handed to the session's writer, in order.
  function Output(x: Session): seq<Frame> {
    x.initial + x.queue
  }

  // No session is handed an event twice, whatever the interleaving.
  lemma AtMostOnce(steps: seq<Step>, s: SessionId, f: Frame)
    requires s in Run(INITIAL, steps).sessions
    ensures multiset(Output(Run(INITIAL, steps).sessions[s]))[f] <= 1
  {
    RunKeepsInv(INITIAL, steps);
    var x := Run(INITIAL, steps).sessions[s];
    assert SessionInv(Run(INITIAL, steps), s);
    CountOfMember(x.initial, f);
    CountOfMember(x.queue, f);
  }

  predicate Handed(st: State, s: SessionId, f: Frame) {
    s in st.sessions && f in Output(st.sessions[s])
  }

  // A step hands a session only frames of rooms the identity may access then:
  // live frames, those replayed first, and the late ones.
  lemma HandedIsAccessible(st: State, step: Step, s: SessionId, f: Frame)
    requires Handed(Next(st, step), s, f) && !Handed(st, s, f)
    ensures forall room :: room in st.hidden ==> !Names(f, room)
  {
    if Subject(st, step) != Some(s) {
      OnlySubjectChanges(st, step, s);
    } else if step.TailSend? {
      TailHandsAccessible(st, s, f);
    } else if step.LiveVisit? {
      LiveHandsAccessible(st, step.frame, step.accepted, s, f);
    } else {
      StepHandsAccessible(st, step, s, f);
    }
  }

  lemma TailHandsAccessible(st: State, s: SessionId, f: Frame)
    requires Handed(Next(st, TailSend(s)), s, f) && !Handed(st, s, f)
    ensures forall room :: room in st.hidden ==> !Names(f, room)
  {}

  lemma LiveHandsAccessible(st: State, frame: Frame, accepted: bool, s: SessionId, f: Frame)
    requires Handed(Next(st, LiveVisit(frame, accepted)), s, f) && !Handed(st, s, f)
    ensures forall room :: room in st.hidden ==> !Names(f, room)
  {}

  lemma StepHandsAccessible(st: State, step: Step, s: SessionId, f: Frame)
    requires Subject(st, step) == Some(s) && !step.TailSend? && !step.LiveVisit?
    requires Handed(Next(st, step), s, f) && !Handed(st, s, f)
    ensures forall room :: room in st.hidden ==> !Names(f, room)
  {}

  // The step of the run at which the session was handed the frame, of a room it
  // could access at that moment.
  ghost predicate HandedAt(steps: seq<Step>, i: nat, s: SessionId, f: Frame)
    requires i < |steps|
  {
    var st := Run(INITIAL, steps[..i]);
    !Handed(st, s, f) && Handed(Next(st, steps[i]), s, f) && forall room :: room in st.hidden ==> !Names(f, room)
  }

  // Over every run, whatever becomes inaccessible and when: every frame a session
  // was ever handed was of an accessible room at the step that handed it over.
  lemma {:induction false} NothingHiddenIsHanded(steps: seq<Step>, s: SessionId, f: Frame)
    requires Handed(Run(INITIAL, steps), s, f)
    ensures exists i :: 0 <= i < |steps| && HandedAt(steps, i, s, f)
    decreases |steps|
  {
    if steps != [] {
      var n := |steps| - 1;
      var st := Run(INITIAL, steps[..n]);
      assert steps == steps[..n] + [steps[n]];
      RunSnoc(INITIAL, steps[..n], steps[n]);
      if Handed(st, s, f) {
        NothingHiddenIsHanded(steps[..n], s, f);
        var i :| 0 <= i < n && HandedAt(steps[..n], i, s, f);
        assert steps[..n][..i] == steps[..i];
        assert HandedAt(steps, i, s, f);
      } else {
        HandedIsAccessible(st, steps[n], s, f);
        assert HandedAt(steps, n, s, f);
      }
    }
  }

  // And what is replayed first is all of the accessible frames buffered so far, in
  // the order they came in.
  lemma SnapshotReplaysAccessible(st: State, s: SessionId, f: Frame, g: Frame)
    requires In(st, s, Installed) && st.sessions[s].leased && HoldsLease(st.stash, s)
    ensures var replayed := Next(st, Snapshot(s)).sessions[s].initial;
            && (f in replayed <==> f in st.stash.value.missed && forall room :: room in st.hidden ==> !Names(f, room))
            && (f in replayed && g in replayed ==> (Precedes(replayed, f, g) <==> Precedes(st.stash.value.missed, f, g)))
  {
    FilterKeepsOrder((x: Frame) => Visible(st.hidden, x), st.stash.value.missed, f, g);
    VisibleExactly(st.hidden, f);
  }

  predicate PastTail(phase: Phase) {
    phase.Live? || phase.Closing? || phase.Closed?
  }

  // An event that a stash took, and whose stash a session committed, has been
  // handed to that session exactly once when its late frames are through.
  lemma ExactlyOnce(steps: seq<Step>, s: SessionId, f: Frame)
    requires var st := Run(INITIAL, steps);
             && f in st.fate && st.fate[f] == Owned(s) && f !in st.tainted
             && (s in st.sessions ==> PastTail(st.sessions[s].phase) && !st.sessions[s].broken)
    ensures s in Run(INITIAL, steps).sessions
    ensures multiset(Output(Run(INITIAL, steps).sessions[s]))[f] == 1
  {
    RunKeepsInv(INITIAL, steps);
    var st := Run(INITIAL, steps);
    assert SessionInv(st, s);
    CountOfMember(st.sessions[s].initial, f);
    CountOfMember(st.sessions[s].queue, f);
  }

  // A first pass that meets a stash with room for the event, in a room the
  // identity may access, puts it there.
  lemma StashTakesEvent(st: State, f: Frame)
    requires Unused(st, f) && CanBuffer(st, f)
    ensures var after := Next(st, BufferVisit(f));
            && f in after.fate && after.fate[f] == Waiting
            && Missed(after) == Missed(st) + [f]
  {}

  // What may have become of an event that left a stash.
  predicate LeftBy(st: State, step: Step, f: Frame, fate: Fate) {
    match fate
    case Owned(s) => step == Commit(s) && HoldsLease(st.stash, s)
    case Discarded => st.stash.Some? && Expired(st.stash.value, st.now)
    case Forgotten => step.Forget? && FrameRoomId(f) == Some(step.room)
    case Overwritten => step.CleanupStash? && st.stash.Some?
    case Waiting => false
  }

  lemma EventStepFate(st: State, step: Step, f: Frame)
    requires EventsInv(st) && StashInv(st) && IsEventStep(step)
    requires f in st.fate && st.fate[f] != Next(st, step).fate[f]
    ensures st.fate[f] == Waiting && LeftBy(st, step, f, Next(st, step).fate[f])
  {}

  lemma SessionStepFate(st: State, step: Step, f: Frame)
    requires EventsInv(st) && StashInv(st) && !IsEventStep(step)
    requires f in st.fate && st.fate[f] != Next(st, step).fate[f]
    ensures st.fate[f] == Waiting && LeftBy(st, step, f, Next(st, step).fate[f])
  {}

  // The only ways an event leaves a stash: committed by the session that holds
  // the lease, expired, destroyed with its room, or replaced with its stash.
  lemma FateChange(st: State, step: Step, f: Frame)
    requires EventsInv(st) && StashInv(st)
    requires f in st.fate && st.fate[f] != Next(st, step).fate[f]
    ensures st.fate[f] == Waiting && LeftBy(st, step, f, Next(st, step).fate[f])
  {
    if IsEventStep(step) { EventStepFate(st, step, f); } else { SessionStepFate(st, step, f); }
  }

  // An event leaves its stash at this step of the run, in this way.
  ghost predicate LeavesAt(steps: seq<Step>, i: nat, f: Frame, fate: Fate)
    requires i < |steps|
  {
    var st := Run(INITIAL, steps[..i]);
    f in st.fate && st.fate[f] == Waiting && LeftBy(st, steps[i], f, fate)
  }

  // The last step of a run is the cause, or the fate was settled before it.
  lemma LastStepOrEarlier(steps: seq<Step>, n: nat, f: Frame)
    requires |steps| == n + 1
    requires f in Run(INITIAL, steps).fate && Run(INITIAL, steps).fate[f] != Waiting
    ensures var st := Run(INITIAL, steps[..n]);
            var fate := Run(INITIAL, steps).fate[f];
            LeavesAt(steps, n, f, fate) || (f in st.fate && st.fate[f] == fate)
  {
    var init, st := steps[..n], Run(INITIAL, steps[..n]);
    assert steps == init + [steps[n]];
    RunSnoc(INITIAL, init, steps[n]);
    EventsOfRun(init);
    if f !in st.fate {
      NewFateIsWaiting(st, steps[n], f);
    } else if st.fate[f] != Run(INITIAL, steps).fate[f] {
      FateChange(st, steps[n], f);
    }
  }

  lemma EventsOfRun(steps: seq<Step>)
    ensures EventsInv(Run(INITIAL, steps)) && StashInv(Run(INITIAL, steps))
  {
    RunKeepsInv(INITIAL, steps);
  }

  // Over every run, an event that is no longer waiting left its stash at one of the
  // steps, and for the reason its fate names.
  lemma {:induction false} FateHasCause(steps: seq<Step>, f: Frame)
    requires f in Run(INITIAL, steps).fate && Run(INITIAL, steps).fate[f] != Waiting
    ensures exists i :: 0 <= i < |steps| && LeavesAt(steps, i, f, Run(INITIAL, steps).fate[f])
    decreases |steps|
  {
    if steps != [] {
      var n, fate := |steps| - 1, Run(INITIAL, steps).fate[f];
      LastStepOrEarlier(steps, n, f);
      if !LeavesAt(steps, n, f, fate) {
        FateHasCause(steps[..n], f);
        var i :| 0 <= i < n && LeavesAt(steps[..n], i, f, fate);
        assert steps[..n][..i] == steps[..i];
        assert LeavesAt(steps, i, f, fate);
      }
    }
  }

  lemma NewFateIsWaiting(st: State, step: Step, f: Frame)
    requires f !in st.fate && f in Next(st, step).fate
    ensures Next(st, step).fate[f] == Waiting
  {}

  lemma {:induction false} StaysSettled(st: State, steps: seq<Step>, f: Frame)
    requires Inv(st) && f in st.fate && st.fate[f] != Waiting
    ensures f in Run(st, steps).fate && Run(st, steps).fate[f] == st.fate[f]
    decreases |steps|
  {
    if steps != [] {
      var next := Next(st, steps[0]);
      NextKeepsInv(st, steps[0]);
      NextGrows(st, steps[0]);
      if next.fate[f] != st.fate[f] { FateChange(st, steps[0], f); }
      StaysSettled(next, steps[1..], f);
    }
  }

  // The first events of a stash stay its first events, in the same order, as long
  // as none of them leaves it.
  lemma NextKeepsOrder(st: State, step: Step, first: seq<Frame>)
    requires EventsInv(st) && StashInv(st) && first <= Missed(st)
    requires forall f :: f in first ==> f in Next(st, step).fate && Next(st, step).fate[f] == Waiting
    ensures first <= Missed(Next(st, step))
  {
    var after := Next(st, step);
    if first != [] {
      assert first[0] in Missed(st) && after.fate[first[0]] == Waiting;
      if step.Forget? {
        ForgetKeepsOrder(st, step.room, first);
      } else {
        OtherStepKeepsOrder(st, step, first);
      }
    }
  }

  lemma ForgetKeepsOrder(st: State, room: RoomId, first: seq<Frame>)
    requires EventsInv(st) && StashInv(st) && first <= Missed(st)
    requires forall f :: f in first ==> f in st.fate && ForgetRoomStep(st, room).fate[f] == Waiting
    ensures first <= Missed(ForgetRoomStep(st, room))
  {
    var rest := Missed(st)[|first|..];
    var keep := (f: Frame) => FrameRoomId(f) != Some(room);
    assert Missed(st) == first + rest;
    FilterAll(keep, first);
    FilterConcat(keep, first, rest);
  }

  lemma EventStepKeepsOrder(st: State, step: Step, first: seq<Frame>)
    requires EventsInv(st) && StashInv(st) && first <= Missed(st) && IsEventStep(step) && !step.Forget?
    requires first != [] && first[0] in st.fate && Next(st, step).fate[first[0]] == Waiting
    ensures first <= Missed(Next(st, step))
  {}

  lemma SessionStepKeepsMissed(st: State, step: Step)
    requires !IsEventStep(step) && !step.Register? && !step.Commit? && !step.CleanupStash?
    ensures Missed(Next(st, step)) == Missed(st)
  {}

  lemma OtherStepKeepsOrder(st: State, step: Step, first: seq<Frame>)
    requires EventsInv(st) && StashInv(st) && first <= Missed(st) && !step.Forget?
    requires first != [] && first[0] in st.fate && Next(st, step).fate[first[0]] == Waiting
    ensures first <= Missed(Next(st, step))
  {
    assert first[0] in Missed(st);
    if IsEventStep(step) {
      EventStepKeepsOrder(st, step, first);
    } else if !step.Register? && !step.Commit? && !step.CleanupStash? {
      SessionStepKeepsMissed(st, step);
    }
  }

  lemma {:induction false} WaitingKeepsOrder(st: State, steps: seq<Step>, first: seq<Frame>)
    requires Inv(st) && first <= Missed(st)
    requires forall f :: f in first ==> f in Run(st, steps).fate && Run(st, steps).fate[f] == Waiting
    ensures first <= Missed(Run(st, steps))
    decreases |steps|
  {
    if steps != [] {
      var next := Next(st, steps[0]);
      NextKeepsInv(st, steps[0]);
      NextGrows(st, steps[0]);
      forall f | f in first
        ensures f in next.fate && next.fate[f] == Waiting
      {
        assert f in Missed(st);
        if next.fate[f] != Waiting { StaysSettled(next, steps[1..], f); }
      }
      NextKeepsOrder(st, steps[0], first);
      WaitingKeepsOrder(next, steps[1..], first);
    }
  }

  lemma {:induction false} NeverOwns(st: State, steps: seq<Step>, s: SessionId)
    requires s in st.sessions && (st.sessions[s].phase.Failed? || st.sessions[s].phase.Closed?)
    ensures NoNewOwner(st, Run(st, steps), s)
    decreases |steps|
  {
    if steps != [] {
      var next := Next(st, steps[0]);
      FailedStaysClosed(st, steps[0], s);
      NeverOwns(next, steps[1..], s);
    }
  }

  lemma FailedStaysClosed(st: State, step: Step, s: SessionId)
    requires s in st.sessions && (st.sessions[s].phase.Failed? || st.sessions[s].phase.Closed?)
    ensures var next := Next(st, step);
            s in next.sessions && (next.sessions[s].phase.Failed? || next.sessions[s].phase.Closed?)
    ensures NoNewOwner(st, Next(st, step), s)
  {
    if step == Commit(s) {
      assert Next(st, step) == st;
    } else {
      OnlyCommitOwns(st, step, s);
      if Subject(st, step) != Some(s) { OnlySubjectChanges(st, step, s); }
    }
  }

  // A handshake fails, and anything may happen before the next attempt. The failed
  // session never takes an event, and an attempt that meets the stash unclaimed is
  // given, before any later ones and in the order they had, all events buffered at
  // the failure, if none of them has left the stash meanwhile.
  lemma FailedHandshakeKeepsBuffered(st: State, s: SessionId, between: seq<Step>, again: SessionId)
    requires Inv(st) && In(st, s, Replaying) && st.guard.None?
    requires var end := Run(Next(st, WriteFail(s)), between);
             && (forall f :: f in Missed(st) ==> f in end.fate && end.fate[f] == Waiting)
             && end.guard.None? && again !in end.sessions
             && end.stash.Some? && end.stash.value.claim.None? && !Expired(end.stash.value, end.now)
    ensures var end := Run(Next(st, WriteFail(s)), between);
            var retry := Next(end, Register(again, true));
            && NoNewOwner(st, end, s)
            && HoldsLease(retry.stash, again) && retry.sessions[again].leased
            && Missed(st) <= retry.sessions[again].claimed
  {
    var failed := Next(st, WriteFail(s));
    assert In(failed, s, Failed) && failed.fate == st.fate && Missed(failed) == Missed(st);
    NextKeepsInv(st, WriteFail(s));
    WaitingKeepsOrder(failed, between, Missed(st));
    NeverOwns(failed, between, s);
    RetryClaims(Run(failed, between), again);
  }

  lemma RetryClaims(st: State, again: SessionId)
    requires st.guard.None? && again !in st.sessions
    requires st.stash.Some? && st.stash.value.claim.None? && !Expired(st.stash.value, st.now)
    ensures var retry := Next(st, Register(again, true));
            && HoldsLease(retry.stash, again)
            && again in retry.sessions && retry.sessions[again].leased && retry.sessions[again].claimed == Missed(st)
  {}

  // Dropping the lease is what makes the stash unclaimed again.
  lemma DroppedLeaseUnclaims(st: State, s: SessionId)
    requires In(st, s, Failed) && st.sessions[s].leased && HoldsLease(st.stash, s)
    ensures var dropped := Next(st, DropLeaseStep(s));
            dropped.stash == Some(st.stash.value.(claim := None)) && dropped.fate == st.fate
  {}

  // --- runs in which every registration asks to reconnect ---

  predicate AllReconnect(steps: seq<Step>) {
    forall i :: 0 <= i < |steps| && steps[i].Register? ==> steps[i].reconnect
  }

  predicate HandShaking(phase: Phase) {
    phase.Installed? || phase.Replaying? || phase.Written?
  }

  ghost predicate GuardInv(st: State) {
    && (st.guard.Some? ==> In(st, st.guard.value, Registering) || In(st, st.guard.value, Closing))
    && (forall s :: s in st.sessions && (st.sessions[s].phase.Registering? || st.sessions[s].phase.Closing?)
          ==> st.guard == Some(s))
  }

  ghost predicate LiveInv(st: State) {
    st.live.Some? ==>
      && st.live.value in st.sessions
      && var phase := st.sessions[st.live.value].phase;
         !phase.Registering? && !phase.Failed? && !phase.Closed?
  }

  // A stash beside a registered session is the one that session is claiming, or
  // the one its own clean-up has just made; a registering session that did not
  // claim met no stash.
  ghost predicate ClaimInv(st: State) {
    && (st.stash.Some? && st.live.Some? && st.live.value in st.sessions ==>
          var x := st.sessions[st.live.value];
          x.phase.Closing? || (HandShaking(x.phase) && x.leased && st.stash.value.claim == st.live))
    && (st.stash.Some? && st.guard.Some? && In(st, st.guard.value, Registering) ==>
          st.sessions[st.guard.value].leased && st.stash.value.claim == st.guard)
  }

  ghost predicate Exclusive(st: State) {
    GuardInv(st) && LiveInv(st) && ClaimInv(st)
  }

  predicate Guards(phase: Phase) {
    phase.Registering? || phase.Closing?
  }

  // Only session s is another one afterwards.
  ghost predicate OnlyChanges(st: State, after: State, s: SessionId) {
    && s in after.sessions
    && (forall t :: t != s ==> (t in after.sessions <==> t in st.sessions))
    && (forall t :: t != s && t in st.sessions ==> after.sessions[t] == st.sessions[t])
  }

  lemma TakesGuard(st: State, after: State, s: SessionId)
    requires GuardInv(st) && OnlyChanges(st, after, s)
    requires st.guard.None? && after.guard == Some(s) && Guards(after.sessions[s].phase)
    ensures GuardInv(after)
  {}

  lemma FreesGuard(st: State, after: State, s: SessionId)
    requires GuardInv(st) && OnlyChanges(st, after, s)
    requires st.guard == Some(s) && after.guard.None? && !Guards(after.sessions[s].phase)
    ensures GuardInv(after)
  {}

  lemma LeavesGuard(st: State, after: State, s: SessionId)
    requires GuardInv(st) && s in st.sessions && OnlyChanges(st, after, s)
    requires after.guard == st.guard && !Guards(st.sessions[s].phase) && !Guards(after.sessions[s].phase)
    ensures GuardInv(after)
  {}

  lemma RegisterKeepsGuard(st: State, s: SessionId, reconnect: bool)
    requires GuardInv(st)
    ensures GuardInv(RegisterStep(st, s, reconnect))
  {
    var after := RegisterStep(st, s, reconnect);
    if after != st { TakesGuard(st, after, s); }
  }

  lemma InstallKeepsGuard(st: State, s: SessionId)
    requires GuardInv(st) && In(st, s, Registering) && st.guard == Some(s)
    ensures GuardInv(To(st, s, Installed).(live := Some(s), guard := None))
  {
    FreesGuard(st, To(st, s, Installed).(live := Some(s), guard := None), s);
  }

  lemma CleanupKeepsGuard(st: State, s: SessionId, rooms: set<RoomId>)
    requires GuardInv(st) && In(st, s, Live) && st.guard.None?
    ensures GuardInv(CleanupStashStep(st, s, rooms))
  {
    var after := CleanupStashStep(st, s, rooms);
    if st.live == Some(s) { TakesGuard(st, after, s); } else { LeavesGuard(st, after, s); }
  }

  lemma GuardStepKeepsGuard(st: State, step: Step)
    requires GuardInv(st)
    requires step.Register? || step.Install? || step.CleanupStash? || step.CleanupRemove?
    ensures GuardInv(Next(st, step))
  {
    var after := Next(st, step);
    if after != st {
      match step
      case Register(s, reconnect) => RegisterKeepsGuard(st, s, reconnect);
      case Install(s) => InstallKeepsGuard(st, s);
      case CleanupStash(s, rooms) => CleanupKeepsGuard(st, s, rooms);
      case CleanupRemove(s) => FreesGuard(st, after, s);
    }
  }

  lemma EventStepKeepsGuard(st: State, step: Step)
    requires GuardInv(st) && IsEventStep(step)
    ensures GuardInv(Next(st, step))
  {}

  lemma EarlyStepKeepsGuard(st: State, step: Step)
    requires GuardInv(st) && (step.Snapshot? || step.WriteOk? || step.WriteFail? || step.DropLeaseStep?)
    ensures GuardInv(Next(st, step))
  {}

  lemma LateStepKeepsGuard(st: State, step: Step)
    requires GuardInv(st) && (step.Commit? || step.TailSend? || step.TailBreak?)
    ensures GuardInv(Next(st, step))
  {
    var after := Next(st, step);
    if after != st { LeavesGuard(st, after, step.s); }
  }

  lemma NextKeepsGuard(st: State, step: Step)
    requires GuardInv(st)
    ensures GuardInv(Next(st, step))
  {
    if step.Register? || step.Install? || step.CleanupStash? || step.CleanupRemove? {
      GuardStepKeepsGuard(st, step);
    } else if step.Snapshot? || step.WriteOk? || step.WriteFail? || step.DropLeaseStep? {
      EarlyStepKeepsGuard(st, step);
    } else if step.Commit? || step.TailSend? || step.TailBreak? {
      LateStepKeepsGuard(st, step);
    } else {
      EventStepKeepsGuard(st, step);
    }
  }

  lemma EventStepKeepsLive(st: State, step: Step)
    requires LiveInv(st) && IsEventStep(step)
    ensures LiveInv(Next(st, step))
  {}

  lemma GuardStepKeepsLive(st: State, step: Step)
    requires GuardInv(st) && LiveInv(st)
    requires step.Register? || step.Install? || step.CleanupStash? || step.CleanupRemove?
    ensures LiveInv(Next(st, step))
  {}

  lemma PhaseStepKeepsLive(st: State, step: Step)
    requires LiveInv(st) && !IsEventStep(step)
    requires !(step.Register? || step.Install? || step.CleanupStash? || step.CleanupRemove?)
    ensures LiveInv(Next(st, step))
  {}

  lemma SessionStepKeepsLive(st: State, step: Step)
    requires GuardInv(st) && LiveInv(st) && !IsEventStep(step)
    ensures LiveInv(Next(st, step))
  {
    if step.Register? || step.Install? || step.CleanupStash? || step.CleanupRemove? {
      GuardStepKeepsLive(st, step);
    } else {
      PhaseStepKeepsLive(st, step);
    }
  }

  lemma NextKeepsLive(st: State, step: Step)
    requires GuardInv(st) && LiveInv(st)
    ensures LiveInv(Next(st, step))
  {
    if IsEventStep(step) { EventStepKeepsLive(st, step); } else { SessionStepKeepsLive(st, step); }
  }

  lemma RegisterKeepsClaim(st: State, s: SessionId)
    requires Exclusive(st)
    ensures ClaimInv(Next(st, Register(s, true)))
  {}

  lemma SessionStepKeepsClaim(st: State, step: Step)
    requires Exclusive(st)
    requires step.Install? || step.Snapshot? || step.WriteOk? || step.WriteFail? || step.DropLeaseStep?
    ensures ClaimInv(Next(st, step))
  {}

  lemma LateStepKeepsClaim(st: State, step: Step)
    requires Exclusive(st)
    requires step.Commit? || step.TailSend? || step.TailBreak? || step.CleanupStash? || step.CleanupRemove?
    ensures ClaimInv(Next(st, step))
  {}

  lemma EventStepKeepsClaim(st: State, step: Step)
    requires Exclusive(st)
    requires step.Tick? || step.SetHidden? || step.Forget? || step.Expire? || step.BufferVisit? || step.LiveVisit?
    ensures ClaimInv(Next(st, step))
  {}

  lemma NextKeepsExclusive(st: State, step: Step)
    requires Exclusive(st) && (step.Register? ==> step.reconnect)
    ensures Exclusive(Next(st, step))
  {
    NextKeepsGuard(st, step);
    NextKeepsLive(st, step);
    if step.Register? {
      RegisterKeepsClaim(st, step.s);
    } else if step.Commit? || step.TailSend? || step.TailBreak? || step.CleanupStash? || step.CleanupRemove? {
      LateStepKeepsClaim(st, step);
    } else if step.Install? || step.Snapshot? || step.WriteOk? || step.WriteFail? || step.DropLeaseStep? {
      SessionStepKeepsClaim(st, step);
    } else {
      EventStepKeepsClaim(st, step);
    }
  }

  lemma {:induction false} RunKeepsExclusive(st: State, steps: seq<Step>)
    requires Exclusive(st) && AllReconnect(steps)
    ensures Exclusive(Run(st, steps))
    decreases |steps|
  {
    if steps != [] {
      NextKeepsExclusive(st, steps[0]);
      RunKeepsExclusive(Next(st, steps[0]), steps[1..]);
    }
  }

  // So a clean-up that stashes never finds a stash to replace.
  lemma CleanupFindsNoStash(st: State, step: Step)
    requires Exclusive(st) && step.CleanupStash? && Next(st, step).stash != st.stash
    ensures st.stash.None?
  {}

  ghost predicate NoneOverwritten(st: State) {
    forall f :: f in st.fate ==> st.fate[f] != Overwritten
  }

  // Nothing is replaced when the stash stays, or there was none.
  lemma CleanupWouldReplace(st: State, step: Step, f: Frame)
    requires Exclusive(st) && step.CleanupStash? && st.stash.Some? && f in st.fate
    ensures Next(st, step).fate[f] == st.fate[f]
  {}

  lemma NextOverwritesNone(st: State, step: Step)
    requires EventsInv(st) && StashInv(st) && Exclusive(st) && NoneOverwritten(st)
    ensures NoneOverwritten(Next(st, step))
  {
    var after := Next(st, step);
    forall f | f in after.fate
      ensures after.fate[f] != Overwritten
    {
      if f !in st.fate {
        NewFateIsWaiting(st, step, f);
      } else if after.fate[f] != st.fate[f] {
        FateChange(st, step, f);
        if after.fate[f] == Overwritten { CleanupWouldReplace(st, step, f); }
      }
    }
  }

  lemma {:induction false} RunOverwritesNone(st: State, steps: seq<Step>)
    requires EventsInv(st) && StashInv(st) && Exclusive(st) && NoneOverwritten(st) && AllReconnect(steps)
    ensures NoneOverwritten(Run(st, steps))
    decreases |steps|
  {
    if steps != [] {
      NextKeepsEvents(st, steps[0]);
      NextKeepsExclusive(st, steps[0]);
      NextOverwritesNone(st, steps[0]);
      RunOverwritesNone(Next(st, steps[0]), steps[1..]);
    }
  }

  // With reconnecting registrations, an event a stash took is still waiting
  // there once, or belongs to the session that committed it, unless its stash
  // expired or its room was destroyed.
  lemma BufferedEventsAreKept(steps: seq<Step>, f: Frame)
    requires AllReconnect(steps) && f in Run(INITIAL, steps).fate
    ensures var st := Run(INITIAL, steps);
            match st.fate[f]
            case Waiting => st.stash.Some? && multiset(Missed(st))[f] == 1
            case Owned(s) => s in st.sessions
            case Discarded => true
            case Forgotten => true
            case Overwritten => false
  {
    RunKeepsInv(INITIAL, steps);
    RunOverwritesNone(INITIAL, steps);
    CountOfMember(Missed(Run(INITIAL, steps)), f);
  }

  lemma {:induction false} RunKeepsOutcome(st: State, steps: seq<Step>, f: Frame)
    requires Inv(st) && f in st.published
    ensures Inv(Run(st, steps))
    ensures f in Run(st, steps).published && Run(st, steps).published[f] == st.published[f]
    decreases |steps|
  {
    if steps != [] {
      NextKeepsInv(st, steps[0]);
      NextGrows(st, steps[0]);
      RunKeepsOutcome(Next(st, steps[0]), steps[1..], f);
    }
  }

  // The rule as a whole: publish an event while a stash with room for it exists,
  // and let anything happen afterwards. The event is still waiting, or its stash
  // expired, or its room was destroyed, or one session committed it; and that
  // session, when done with its late frames and never denied the room, was
  // handed it exactly once.
  lemma BufferedThenDeliveredOnce(before: seq<Step>, f: Frame, later: seq<Step>)
    requires AllReconnect(before + [BufferVisit(f)] + later)
    requires Unused(Run(INITIAL, before), f) && CanBuffer(Run(INITIAL, before), f)
    ensures var st := Run(INITIAL, before + [BufferVisit(f)] + later);
            && f in st.fate && !st.fate[f].Overwritten?
            && (st.fate[f] == Waiting ==> multiset(Missed(st))[f] == 1)
            && (st.fate[f] != Waiting ==>
                  exists i :: 0 <= i < |before + [BufferVisit(f)] + later|
                              && LeavesAt(before + [BufferVisit(f)] + later, i, f, st.fate[f]))
            && (st.fate[f].Owned? ==>
                  var s := st.fate[f].owner;
                  && s in st.sessions
                  && (PastTail(st.sessions[s].phase) && !st.sessions[s].broken && f !in st.tainted ==>
                        multiset(Output(st.sessions[s]))[f] == 1))
  {
    var start := before + [BufferVisit(f)];
    RunKeepsInv(INITIAL, before);
    RunSnoc(INITIAL, before, BufferVisit(f));
    StashTakesEvent(Run(INITIAL, before), f);
    NextKeepsInv(Run(INITIAL, before), BufferVisit(f));
    RunConcat(INITIAL, start, later);
    RunKeepsOutcome(Run(INITIAL, start), later, f);
    var st := Run(INITIAL, start + later);
    BufferedEventsAreKept(start + later, f);
    if st.fate[f] != Waiting { FateHasCause(start + later, f); }
    if st.fate[f].Owned? {
      var s := st.fate[f].owner;
      if PastTail(st.sessions[s].phase) && !st.sessions[s].broken && f !in st.tainted {
        ExactlyOnce(start + later, s, f);
      }
    }
  }

  lemma {:induction false} RunKeepsLive(st: State, steps: seq<Step>)
    requires GuardInv(st) && LiveInv(st)
    ensures GuardInv(Run(st, steps)) && LiveInv(Run(st, steps))
    decreases |steps|
  {
    if steps != [] {
      NextKeepsGuard(st, steps[0]);
      NextKeepsLive(st, steps[0]);
      RunKeepsLive(Next(st, steps[0]), steps[1..]);
    }
  }

  // The state between the two passes of an event, `between` being whatever happens
  // after the first pass and before the second.
  function MidPublish(before: seq<Step>, f: Frame, between: seq<Step>): State {
    Run(Next(Run(INITIAL, before), BufferVisit(f)), between)
  }

  lemma MidKeepsOutcome(before: seq<Step>, f: Frame, between: seq<Step>)
    requires Unused(Run(INITIAL, before), f)
    ensures var mid := MidPublish(before, f, between);
            Inv(mid) && LiveInv(mid) && f in mid.published && mid.published[f] == CanBuffer(Run(INITIAL, before), f)
  {
    var st := Run(INITIAL, before);
    RunKeepsInv(INITIAL, before);
    NextKeepsInv(st, BufferVisit(f));
    FirstPassOutcome(st, f);
    RunKeepsOutcome(Next(st, BufferVisit(f)), between, f);
    MidKeepsLive(before, f, between);
  }

  lemma FirstPassOutcome(st: State, f: Frame)
    requires Unused(st, f)
    ensures var after := Next(st, BufferVisit(f)); f in after.published && after.published[f] == CanBuffer(st, f)
  {}

  lemma MidKeepsLive(before: seq<Step>, f: Frame, between: seq<Step>)
    ensures LiveInv(MidPublish(before, f, between))
  {
    RunKeepsLive(INITIAL, before);
    NextKeepsGuard(Run(INITIAL, before), BufferVisit(f));
    NextKeepsLive(Run(INITIAL, before), BufferVisit(f));
    RunKeepsLive(Next(Run(INITIAL, before), BufferVisit(f)), between);
  }

  // The second pass sends an accessible event to the session registered then,
  // exactly when no stash took it in the first pass.
  lemma HeardExactlyWhenNotBuffered(before: seq<Step>, f: Frame, between: seq<Step>, s: SessionId)
    requires Unused(Run(INITIAL, before), f)
    requires var mid := MidPublish(before, f, between);
             f !in mid.passed && mid.live == Some(s) && Visible(mid.hidden, f)
    ensures var mid := MidPublish(before, f, between);
            var after := Next(mid, LiveVisit(f, true));
            && s in mid.sessions && s in after.sessions
            && after.sessions[s].queue == mid.sessions[s].queue + if CanBuffer(Run(INITIAL, before), f) then [] else [f]
  {
    MidKeepsOutcome(before, f, between);
  }

  // With reconnecting registrations, a settled session that is still registered at
  // the second pass hears every event, provided its queue accepts the frame.
  lemma LiveSessionHearsEvent(before: seq<Step>, f: Frame, between: seq<Step>, s: SessionId)
    requires AllReconnect(before) && Unused(Run(INITIAL, before), f)
    requires Run(INITIAL, before).live == Some(s) && In(Run(INITIAL, before), s, Live)
    requires var mid := MidPublish(before, f, between);
             f !in mid.passed && mid.live == Some(s) && Visible(mid.hidden, f)
    ensures var after := Next(MidPublish(before, f, between), LiveVisit(f, true));
            s in after.sessions && f in Output(after.sessions[s])
  {
    assert Run(INITIAL, before).stash.None? by {
      RunKeepsExclusive(INITIAL, before);
    }
    HeardExactlyWhenNotBuffered(before, f, between, s);
  }

  // Published, and neither kept by a stash nor handed to any session.
  ghost predicate Lost(st: State, f: Frame) {
    f in st.passed && f !in st.fate && forall s :: s in st.sessions ==> f !in Output(st.sessions[s])
  }

  lemma UnheardSoFar(st: State, s: SessionId, f: Frame)
    requires Inv(st) && s in st.sessions && f in st.published && !st.published[f] && f !in st.passed
    ensures f !in Output(st.sessions[s])
  {
    assert SessionInv(st, s);
  }

  // An event accessible at its second pass is lost exactly when its first pass found
  // no stash to take it and its second pass finds no session: when the one came
  // before the stash was made and the other after the registry entry was removed.
  lemma LostExactly(before: seq<Step>, f: Frame, between: seq<Step>)
    requires Unused(Run(INITIAL, before), f)
    requires f !in MidPublish(before, f, between).passed && Visible(MidPublish(before, f, between).hidden, f)
    ensures Lost(Next(MidPublish(before, f, between), LiveVisit(f, true)), f) <==>
            !CanBuffer(Run(INITIAL, before), f) && MidPublish(before, f, between).live.None?
  {
    var mid := MidPublish(before, f, between);
    var after := Next(mid, LiveVisit(f, true));
    MidKeepsOutcome(before, f, between);
    if mid.live.Some? {
      HeardExactlyWhenNotBuffered(before, f, between, mid.live.value);
      assert !CanBuffer(Run(INITIAL, before), f) ==> f in Output(after.sessions[mid.live.value]);
    } else {
      forall s | s in after.sessions && !mid.published[f]
        ensures f !in Output(after.sessions[s])
      {
        UnheardSoFar(mid, s, f);
      }
    }
  }

  // A queue grows by an event whose second pass is not over, or by one that a stash
  // took.
  lemma QueueGrows(st: State, step: Step, s: SessionId, f: Frame)
    requires SessionInv(st, s) && f in st.passed && f !in st.fate
    requires s in Next(st, step).sessions && f in Next(st, step).sessions[s].queue
    ensures s in st.sessions && f in st.sessions[s].queue
  {
    if Subject(st, step) != Some(s) {
      OnlySubjectChanges(st, step, s);
    } else if step.TailSend? {
      TailQueue(st, s, f);
    } else {
      OtherQueue(st, step, s);
    }
  }

  lemma TailQueue(st: State, s: SessionId, f: Frame)
    requires SessionInv(st, s) && f !in st.fate
    requires s in Next(st, TailSend(s)).sessions && f in Next(st, TailSend(s)).sessions[s].queue
    ensures s in st.sessions && f in st.sessions[s].queue
  {
    if s in st.sessions && st.sessions[s].phase.Tail? && st.sessions[s].phase.rest != [] { MemberSplit(st.sessions[s].phase.rest); }
  }

  lemma OtherQueue(st: State, step: Step, s: SessionId)
    requires Subject(st, step) == Some(s) && !step.TailSend? && s in Next(st, step).sessions
    ensures var queue := Next(st, step).sessions[s].queue;
            || queue == []
            || (s in st.sessions && queue == st.sessions[s].queue)
            || (s in st.sessions && step.LiveVisit? && step.frame !in st.passed && queue == st.sessions[s].queue + [step.frame])
  {
    if !step.LiveVisit? { SessionStepKeepsQueue(st, step, s); }
  }

  lemma SessionStepKeepsQueue(st: State, step: Step, s: SessionId)
    requires Subject(st, step) == Some(s) && !step.TailSend? && !step.LiveVisit? && s in Next(st, step).sessions
    ensures Next(st, step).sessions[s].queue == if s in st.sessions then st.sessions[s].queue else []
  {}

  lemma NextKeepsLost(st: State, step: Step, f: Frame)
    requires Inv(st) && Lost(st, f)
    ensures Lost(Next(st, step), f)
  {
    var after := Next(st, step);
    NextKeepsInv(st, step);
    NextGrows(st, step);
    assert f in st.published && !st.published[f];
    forall s | s in after.sessions
      ensures f !in Output(after.sessions[s])
    {
      assert SessionInv(after, s) && SessionInv(st, s);
      if f in after.sessions[s].queue { QueueGrows(st, step, s, f); }
    }
  }

  // And what is lost stays lost.
  lemma {:induction false} RunKeepsLost(st: State, steps: seq<Step>, f: Frame)
    requires Inv(st) && Lost(st, f)
    ensures Lost(Run(st, steps), f)
    decreases |steps|
  {
    if steps != [] {
      NextKeepsLost(st, steps[0], f);
      NextKeepsInv(st, steps[0]);
      RunKeepsLost(Next(st, steps[0]), steps[1..], f);
    }
  }

  // A whole registration without a lease.
  function HandShake(s: SessionId, reconnect: bool): seq<Step> {
    [Register(s, reconnect), Install(s), Snapshot(s)] + [WriteOk(s), Commit(s), TailSend(s)]
  }

  function Fresh(phase: Phase): Session {
    Session(false, [], phase, [], [], false)
  }

  lemma Run3(st: State, a: Step, b: Step, c: Step)
    ensures Run(st, [a, b, c]) == Next(Next(Next(st, a), b), c)
  {
    RunSnoc(st, [a, b], c);
    RunSnoc(st, [a], b);
    RunSnoc(st, [], a);
    assert [] + [a] == [a] && [a] + [b] == [a, b] && [a, b] + [c] == [a, b, c];
  }

  lemma FirstHalf(st: State, s: SessionId, reconnect: bool)
    requires st.guard.None? && st.live.None? && s !in st.sessions && (reconnect ==> st.stash.None? && st.fate == map[])
    ensures Run(st, [Register(s, reconnect), Install(s), Snapshot(s)]) ==
            st.(live := Some(s), sessions := st.sessions[s := Fresh(Replaying)])
  {
    Run3(st, Register(s, reconnect), Install(s), Snapshot(s));
    var registered := Next(st, Register(s, reconnect));
    assert registered == st.(guard := Some(s), sessions := st.sessions[s := Fresh(Registering)]);
    var installed := Next(registered, Install(s));
    assert installed.sessions == st.sessions[s := Fresh(Installed)];
    assert Next(installed, Snapshot(s)).sessions == st.sessions[s := Fresh(Replaying)];
  }

  lemma SecondHalf(st: State, s: SessionId)
    requires s in st.sessions && st.sessions[s] == Fresh(Replaying)
    ensures Run(st, [WriteOk(s), Commit(s), TailSend(s)]) == st.(sessions := st.sessions[s := Fresh(Live)])
  {
    Run3(st, WriteOk(s), Commit(s), TailSend(s));
    var written := st.(sessions := st.sessions[s := Fresh(Written)]);
    FreshMovesOn(st, s, WriteOk(s), Replaying, Written);
    FreshMovesOn(written, s, Commit(s), Written, Tail([]));
    assert written.sessions[s := Fresh(Tail([]))] == st.sessions[s := Fresh(Tail([]))];
    var committed := st.(sessions := st.sessions[s := Fresh(Tail([]))]);
    FreshMovesOn(committed, s, TailSend(s), Tail([]), Live);
    assert committed.sessions[s := Fresh(Live)] == st.sessions[s := Fresh(Live)];
  }

  lemma FreshMovesOn(st: State, s: SessionId, step: Step, phase: Phase, next: Phase)
    requires s in st.sessions && st.sessions[s] == Fresh(phase)
    requires || (step == WriteOk(s) && phase.Replaying? && next.Written?)
             || (step == Commit(s) && phase.Written? && next == Tail([]))
             || (step == TailSend(s) && phase == Tail([]) && next.Live?)
    ensures Next(st, step) == st.(sessions := st.sessions[s := Fresh(next)])
  {}

  lemma HandShakeGoesLive(st: State, s: SessionId, reconnect: bool)
    requires st.guard.None? && st.live.None? && s !in st.sessions && (reconnect ==> st.stash.None? && st.fate == map[])
    ensures Run(st, HandShake(s, reconnect)) == st.(live := Some(s), sessions := st.sessions[s := Fresh(Live)])
  {
    FirstHalf(st, s, reconnect);
    RunConcat(st, [Register(s, reconnect), Install(s), Snapshot(s)], [WriteOk(s), Commit(s), TailSend(s)]);
    var mid := st.(live := Some(s), sessions := st.sessions[s := Fresh(Replaying)]);
    SecondHalf(mid, s);
    assert mid.sessions[s := Fresh(Live)] == st.sessions[s := Fresh(Live)];
  }

  function Departure(s: SessionId): seq<Step> {
    [CleanupStash(s, {"r"}), CleanupRemove(s), Tick(1)]
  }

  const ROOM_STASH := StashedAgent("", "", "", {"r"}, [], 0, None)

  lemma DepartureLeavesStash(s: SessionId)
    ensures Run(INITIAL.(live := Some(s), sessions := map[s := Fresh(Live)]), Departure(s)) ==
            INITIAL.(now := 1, stash := Some(ROOM_STASH), sessions := map[s := Fresh(Closed)])
  {
    var st := INITIAL.(live := Some(s), sessions := map[s := Fresh(Live)]);
    Run3(st, CleanupStash(s, {"r"}), CleanupRemove(s), Tick(1));
    var closing := Next(st, CleanupStash(s, {"r"}));
    assert closing == st.(guard := Some(s), stash := Some(ROOM_STASH), sessions := map[s := Fresh(Closing)]) by {
      assert Settle(st, Overwritten) == map[];
    }
    assert Next(closing, CleanupRemove(s)).sessions == map[s := Fresh(Closed)];
  }

  // A registered session with an old stash beside it.
  function StaleStash(): seq<Step> {
    HandShake(1, true) + Departure(1) + HandShake(2, false)
  }

  const STALE := INITIAL.(now := 1, stash := Some(ROOM_STASH), live := Some(2),
                          sessions := map[1 := Fresh(Closed), 2 := Fresh(Live)])

  lemma StaleStashIsReachable()
    ensures Run(INITIAL, StaleStash()) == STALE
  {
    HandShakeGoesLive(INITIAL, 1, true);
    assert INITIAL.sessions[1 := Fresh(Live)] == map[1 := Fresh(Live)];
    DepartureLeavesStash(1);
    var b := INITIAL.(now := 1, stash := Some(ROOM_STASH), sessions := map[1 := Fresh(Closed)]);
    HandShakeGoesLive(b, 2, false);
    assert b.sessions[2 := Fresh(Live)] == STALE.sessions;
    RunConcat(INITIAL, HandShake(1, true), Departure(1));
    RunConcat(INITIAL, HandShake(1, true) + Departure(1), HandShake(2, false));
  }

  // Register without asking to reconnect while an old stash exists: that stash
  // takes the event the live session should hear, and the session's own clean-up
  // then overwrites it. No session is ever handed the event.
  lemma StaleStashLosesEvent(f: Frame)
    requires f.id.Some?
    ensures var st := Run(INITIAL, StaleStash() + [BufferVisit(f), LiveVisit(f, true), CleanupStash(2, {"r"})]);
            && f in st.fate && st.fate[f] == Overwritten && f !in st.tainted
            && forall s :: s in st.sessions ==> f !in Output(st.sessions[s])
  {
    StaleStashIsReachable();
    RunConcat(INITIAL, StaleStash(), [BufferVisit(f), LiveVisit(f, true), CleanupStash(2, {"r"})]);
    Run3(STALE, BufferVisit(f), LiveVisit(f, true), CleanupStash(2, {"r"}));
    StaleStashSwallows(f);
    CleanupOverwrites(Next(Next(STALE, BufferVisit(f)), LiveVisit(f, true)), 2, f);
  }

  lemma StaleStashSwallows(f: Frame)
    requires f.id.Some?
    ensures var heard := Next(Next(STALE, BufferVisit(f)), LiveVisit(f, true));
            && heard.sessions == STALE.sessions && heard.live == Some(2) && heard.guard.None?
            && f in heard.fate && Missed(heard) == [f] && f !in heard.tainted
  {
    assert CanBuffer(STALE, f) && Unused(STALE, f);
    assert ROOM_STASH.missed + [f] == [f];
  }

  lemma CleanupOverwrites(st: State, s: SessionId, f: Frame)
    requires In(st, s, Live) && st.live == Some(s) && st.guard.None? && f in st.fate && f in Missed(st)
    ensures var after := Next(st, CleanupStash(s, {"r"}));
            && f in after.fate && after.fate[f] == Overwritten && after.tainted == st.tainted
            && after.sessions == st.sessions[s := st.sessions[s].(phase := Closing)]
  {}

  // Also with reconnecting registrations: the passes of the event fall on either
  // side of a disconnect, and nobody has it.
  lemma DisconnectLosesEvent(f: Frame)
    requires f.id.Some?
    ensures var steps := HandShake(1, true) + [BufferVisit(f)] + [CleanupStash(1, {"r"}), CleanupRemove(1)] + [LiveVisit(f, true)];
            AllReconnect(steps) && Lost(Run(INITIAL, steps), f)
  {
    var before, between := HandShake(1, true), [CleanupStash(1, {"r"}), CleanupRemove(1)];
    HandShakeGoesLive(INITIAL, 1, true);
    var st := Run(INITIAL, before);
    var first := Next(st, BufferVisit(f));
    RunSnoc(INITIAL, before, BufferVisit(f));
    RunConcat(INITIAL, before + [BufferVisit(f)], between);
    RunSnoc(INITIAL, before + [BufferVisit(f)] + between, LiveVisit(f, true));
    CleanupLeavesNobody(first, 1, f);
    LostExactly(before, f, between);
  }

  lemma CleanupLeavesNobody(st: State, s: SessionId, f: Frame)
    requires In(st, s, Live) && st.live == Some(s) && st.guard.None?
    ensures var after := Run(st, [CleanupStash(s, {"r"}), CleanupRemove(s)]);
            after.live.None? && after.passed == st.passed && after.hidden == st.hidden
  {
    RunSnoc(st, [CleanupStash(s, {"r"})], CleanupRemove(s));
    RunSnoc(st, [], CleanupStash(s, {"r"}));
    assert [CleanupStash(s, {"r"})] + [CleanupRemove(s)] == [CleanupStash(s, {"r"}), CleanupRemove(s)];
    assert [] + [CleanupStash(s, {"r"})] == [CleanupStash(s, {"r"})];
    var closing := Next(st, CleanupStash(s, {"r"}));
    assert In(closing, s, Closing);
  }
}
