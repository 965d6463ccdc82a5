// One vote: its rows in the tables and its copy in memory, written and removed in
// separate steps, two ways to close, and restarts that reload what was stored.
module Votes {
  import opened Options
  import opened Tallies

  datatype Electorate = Electorate(agents: set<string>, size: nat)

  datatype ActiveVote = ActiveVote(ballots: seq<Ballot>, voters: Electorate)

  // A vote taken out of memory, to be closed in the store and broadcast.
  datatype Closing = Closing(ballots: seq<Ballot>, voters: Electorate, byDeadline: bool, stored: bool)

  datatype Cast = Checked(ballot: Ballot) | Persisted(ballot: Ballot) | Full

  // How far the request that creates the vote has come.
  datatype Creation =
    | NotYet
    | TableWritten  // the tables have the vote, memory does not
    | Inserted      // memory has it too, destruction of the room to be checked
    | Undoing       // the room is gone: removed from memory, not yet from the tables
    | Settled

  datatype State = State(
    options: nat,
    creator: string,
    hasDeadline: bool,
    members: Electorate,        // of the room, at creation
    present: bool,              // the tables: the vote has a row
    open: bool,
    voters: Electorate,
    stored: seq<Ballot>,
    active: Option<ActiveVote>, // memory
    closing: Option<Closing>,
    casts: map<nat, Cast>,
    creation: Creation,
    destroyed: bool,            // the room
    forgetting: bool,           // destruction has yet to clear memory
    broadcasts: seq<Closing>,   // history: results sent in this server life
    refused: set<Ballot>)       // history: stored ballots memory would not take

  datatype Step =
    | CreateStored
    | CreateActive
    | CreateCheck
    | CreateUndo
    | CastCheck(c: nat, ballot: Ballot)
    | Persist(c: nat)
    | Record(c: nat)
    | Take(c: nat)
    | Deadline
    | CloseStored
    | Broadcast
    | DestroyStored
    | DestroyForget
    | Restart

  const NOBODY := Electorate({}, 0)

  // A request to create a vote in a room with these members.
  function Requested(options: nat, creator: string, hasDeadline: bool, members: set<string>): State {
    State(options, creator, hasDeadline, Electorate(members, |members|), false, false, NOBODY, [],
          None, None, map[], NotYet, false, false, [], {})
  }

  function Drop(st: State, c: nat): State {
    st.(casts := st.casts - {c})
  }

  function Memory(st: State): seq<Ballot> {
    if st.active.Some? then st.active.value.ballots else []
  }

  // While the vote is not in memory, only eligibility is checked.
  predicate CheckPasses(st: State, b: Ballot) {
    match st.active
    case Some(vote) => b.agent in vote.voters.agents && b.option < st.options
    case None => st.present && b.agent in st.voters.agents
  }

  function PersistStep(st: State, c: nat): State
    requires c in st.casts && st.casts[c].Checked?
  {
    var b := st.casts[c].ballot;
    if !st.present || !st.open || b.agent in AgentsOf(st.stored) then Drop(st, c)
    else st.(stored := st.stored + [b], casts := st.casts[c := Persisted(b)])
  }

  predicate MemoryTakes(st: State, b: Ballot) {
    && st.active.Some? && b.option < st.options
    && b.agent in st.active.value.voters.agents && b.agent !in AgentsOf(st.active.value.ballots)
  }

  function RefuseStep(st: State, c: nat, b: Ballot): State {
    Drop(st, c).(refused := st.refused + {b})
  }

  // The last elector's cast goes on to close the vote.
  function TakeInStep(st: State, c: nat, b: Ballot): State
    requires st.active.Some?
  {
    var ballots := st.active.value.ballots + [b];
    var recorded := st.(active := Some(st.active.value.(ballots := ballots)));
    if |ballots| >= st.active.value.voters.size then recorded.(casts := st.casts[c := Full]) else Drop(recorded, c)
  }

  function RecordStep(st: State, c: nat): State
    requires c in st.casts && st.casts[c].Persisted?
  {
    var b := st.casts[c].ballot;
    if MemoryTakes(st, b) then TakeInStep(st, c, b) else RefuseStep(st, c, b)
  }

  function Close(st: State, byDeadline: bool): State {
    if st.active.None? then st
    else st.(active := None, closing := Some(Closing(st.active.value.ballots, st.active.value.voters, byDeadline, false)))
  }

  function WithoutRow(st: State): State {
    st.(present := false, open := false, stored := [], voters := NOBODY)
  }

  // Opening the store completes the electorate of an open vote and closes it when
  // everyone has voted; what is still open is loaded into memory.
  function RestartStep(st: State): State {
    var reset := st.(active := None, closing := None, casts := map[], broadcasts := [], refused := {}, forgetting := false,
                     creation := if st.creation.NotYet? then NotYet else Settled);
    if !st.open || !st.present then reset
    else
      var agents := st.voters.agents + {st.creator} + AgentsOf(st.stored);
      var voters := Electorate(agents, |agents|);
      if voters.size > 0 && |st.stored| >= voters.size then reset.(voters := voters, open := false)
      else reset.(voters := voters, active := Some(ActiveVote(st.stored, voters)))
  }

  // Creating the vote, and destroying its room.
  function NextRoom(st: State, step: Step): State {
    match step
    case CreateStored =>
      if st.creation.NotYet? then st.(present := true, open := true, voters := st.members, creation := TableWritten) else st
    case CreateActive =>
      if st.creation.TableWritten? then st.(active := Some(ActiveVote([], st.members)), creation := Inserted) else st
    case CreateCheck =>
      if !st.creation.Inserted? then st
      else if st.destroyed then st.(active := None, creation := Undoing)
      else st.(creation := Settled)
    case CreateUndo => if st.creation.Undoing? then WithoutRow(st).(creation := Settled) else st
    case DestroyStored =>
      if st.destroyed then st
      else (if st.creation.NotYet? then st else WithoutRow(st)).(destroyed := true, forgetting := true)
    case DestroyForget => if st.forgetting then st.(active := None, forgetting := false) else st
    case _ => st
  }

  function NextVote(st: State, step: Step): State {
    match step
    case CastCheck(c, b) => if c !in st.casts && CheckPasses(st, b) then st.(casts := st.casts[c := Checked(b)]) else st
    case Persist(c) => if c in st.casts && st.casts[c].Checked? then PersistStep(st, c) else st
    case Record(c) => if c in st.casts && st.casts[c].Persisted? then RecordStep(st, c) else st
    case Take(c) => if c in st.casts && st.casts[c].Full? then Close(Drop(st, c), false) else st
    case Deadline => if st.hasDeadline then Close(st, true) else st
    case CloseStored =>
      if st.closing.Some? then st.(open := false, closing := Some(st.closing.value.(stored := true))) else st
    case Broadcast =>
      if st.closing.Some? && st.closing.value.stored
      then st.(closing := None, broadcasts := st.broadcasts + [st.closing.value]) else st
    case Restart => RestartStep(st)
    case _ => st
  }

  predicate IsRoomStep(step: Step) {
    step.CreateStored? || step.CreateActive? || step.CreateCheck? || step.CreateUndo? || step.DestroyStored? || step.DestroyForget?
  }

  function Next(st: State, step: Step): State {
    if IsRoomStep(step) then NextRoom(st, step) else NextVote(st, step)
  }

  function Run(st: State, steps: seq<Step>): State
    decreases |steps|
  {
    if steps == [] then st else Run(Next(st, steps[0]), steps[1..])
  }

  // --- what changes what ---

  // The row is written by the creation, and goes when that is undone or the room is
  // destroyed.
  predicate RowGoes(st: State, step: Step) {
    || (step.CreateUndo? && st.creation.Undoing?)
    || (step.DestroyStored? && !st.destroyed && !st.creation.NotYet?)
  }

  // Casting and closing leave the two requests and the existence of the row alone.
  ghost predicate SameRequests(st: State, after: State) {
    && after.present == st.present && after.creation == st.creation
    && after.destroyed == st.destroyed && after.forgetting == st.forgetting
  }

  lemma CastKeepsRequests(st: State, step: Step)
    requires step.CastCheck? || step.Persist? || step.Record?
    ensures SameRequests(st, Next(st, step)) && Next(st, step).voters == st.voters
  {
    if step.Record? { RecordKeepsRequests(st, step.c); }
  }

  lemma RecordKeepsRequests(st: State, c: nat)
    ensures SameRequests(st, Next(st, Record(c))) && Next(st, Record(c)).voters == st.voters
  {}

  lemma EndKeepsRequests(st: State, step: Step)
    requires step.Take? || step.Deadline? || step.CloseStored? || step.Broadcast?
    ensures SameRequests(st, Next(st, step)) && Next(st, step).voters == st.voters
  {}

  lemma VoteKeepsRequests(st: State, step: Step)
    requires !IsRoomStep(step) && !step.Restart?
    ensures SameRequests(st, Next(st, step)) && Next(st, step).voters == st.voters
  {
    if step.CastCheck? || step.Persist? || step.Record? { CastKeepsRequests(st, step); } else { EndKeepsRequests(st, step); }
  }

  // And they in turn leave the casts alone, but for a restart, which ends them all.
  lemma RoomKeepsCasts(st: State, step: Step)
    requires IsRoomStep(step)
    ensures Next(st, step).casts == st.casts
  {}

  lemma EndKeepsCasts(st: State, step: Step, c: nat)
    requires step.Take? || step.Deadline? || step.CloseStored? || step.Broadcast?
    ensures c in Next(st, step).casts <==> c in st.casts && !(step == Take(c) && st.casts[c].Full?)
    ensures c in Next(st, step).casts ==> Next(st, step).casts[c] == st.casts[c]
  {
    if step.Take? { TakeEndsCast(st, step.c, c); }
  }

  lemma TakeEndsCast(st: State, d: nat, c: nat)
    ensures c in Next(st, Take(d)).casts <==> c in st.casts && !(d == c && st.casts[c].Full?)
    ensures c in Next(st, Take(d)).casts ==> Next(st, Take(d)).casts[c] == st.casts[c]
  {}

  lemma PresentChanges(st: State, step: Step)
    ensures Next(st, step).present <==>
              (step.CreateStored? && st.creation.NotYet?) || (st.present && !RowGoes(st, step))
  {
    if !IsRoomStep(step) && !step.Restart? { VoteKeepsRequests(st, step); }
  }

  // A checked cast is stored while the vote is open and its agent has no ballot yet.
  predicate StoredNow(st: State, step: Step, b: Ballot) {
    && step.Persist? && step.c in st.casts && st.casts[step.c] == Checked(b)
    && st.present && st.open && forall o :: o in st.stored ==> o.agent != b.agent
  }

  lemma StoredChanges(st: State, step: Step, b: Ballot)
    ensures b in Next(st, step).stored <==> (b in st.stored && !RowGoes(st, step)) || StoredNow(st, step, b)
  {
    if step.Persist? {
      PersistStores(st, step.c, b);
    } else if !IsRoomStep(step) {
      VoteKeepsStored(st, step);
    }
  }

  lemma VoteKeepsStored(st: State, step: Step)
    requires !IsRoomStep(step) && !step.Persist?
    ensures Next(st, step).stored == st.stored
  {}

  lemma PersistStores(st: State, c: nat, b: Ballot)
    ensures b in Next(st, Persist(c)).stored <==> b in st.stored || StoredNow(st, Persist(c), b)
  {
    assert forall o :: o in st.stored ==> o.agent in AgentsOf(st.stored);
  }

  // The vote closes when its result is written, and at a restart that finds it full.
  lemma OpenChanges(st: State, step: Step)
    requires !step.Restart?
    ensures Next(st, step).open <==>
              || (step.CreateStored? && st.creation.NotYet?)
              || (st.open && !RowGoes(st, step) && !(step.CloseStored? && st.closing.Some?))
  {}

  lemma RestartCloses(st: State)
    ensures Next(st, Restart).open <==>
              st.open && !(st.present && |st.stored| >= |st.voters.agents + {st.creator} + AgentsOf(st.stored)|)
  {
    assert st.creator in st.voters.agents + {st.creator} + AgentsOf(st.stored);
  }

  // The electorate is that of the creation until a restart completes it.
  lemma ElectorateChanges(st: State, step: Step)
    requires !(step.Restart? && st.open && st.present)
    ensures Next(st, step).voters == if step.CreateStored? && st.creation.NotYet? then st.members
                                     else if RowGoes(st, step) then NOBODY
                                     else st.voters
  {
    if !IsRoomStep(step) && !step.Restart? { VoteKeepsRequests(st, step); }
  }

  lemma RestartElects(st: State, a: string)
    requires st.open && st.present
    ensures var voters := Next(st, Restart).voters;
            && (a in voters.agents <==> a in st.voters.agents || a == st.creator || exists b :: b in st.stored && b.agent == a)
            && voters.size == |voters.agents|
  {}

  predicate Forgets(st: State, step: Step) {
    || (step.CreateCheck? && st.creation.Inserted? && st.destroyed)
    || (step.DestroyForget? && st.forgetting)
  }

  // Taken out of memory to be closed: by the cast that filled it, or by its deadline.
  predicate Takes(st: State, step: Step) {
    || (step.Take? && step.c in st.casts && st.casts[step.c].Full?)
    || (step.Deadline? && st.hasDeadline)
  }

  // The vote comes into memory by its creation, empty, and by a restart with what is
  // stored, if still open; otherwise it loses nothing and gains a ballot when a stored
  // one is recorded, in range, by an elector without one.
  lemma ActiveChanges(st: State, step: Step, b: Ballot)
    ensures var after := Next(st, step);
            var inserted := step.CreateActive? && st.creation.TableWritten?;
            && (!step.Restart? ==>
                  && (after.active.Some? <==> inserted || (st.active.Some? && !Forgets(st, step) && !Takes(st, step)))
                  && (inserted ==> after.active == Some(ActiveVote([], st.members)))
                  && (!inserted && after.active.Some? ==>
                        && after.active.value.voters == st.active.value.voters
                        && (b in after.active.value.ballots <==>
                              b in st.active.value.ballots || RecordedNow(st, step, b))))
            && (step.Restart? ==>
                  && (after.active.Some? <==> st.present && after.open)
                  && (after.active.Some? ==> after.active.value == ActiveVote(st.stored, after.voters)))
  {
    if step.Record? && st.active.Some? { RecordChanges(st, step.c, b); }
  }

  predicate RecordedNow(st: State, step: Step, b: Ballot) {
    && step.Record? && step.c in st.casts && st.casts[step.c] == Persisted(b)
    && st.active.Some? && b.option < st.options && b.agent in st.active.value.voters.agents
    && forall o :: o in st.active.value.ballots ==> o.agent != b.agent
  }

  lemma RecordChanges(st: State, c: nat, b: Ballot)
    requires st.active.Some?
    ensures var after := Next(st, Record(c));
            && after.active.Some? && after.active.value.voters == st.active.value.voters
            && (b in after.active.value.ballots <==> b in st.active.value.ballots || RecordedNow(st, Record(c), b))
  {
    if c in st.casts && st.casts[c].Persisted? { TakesExactly(st, st.casts[c].ballot); }
  }

  // Memory takes a ballot in range by an elector that has none there.
  lemma TakesExactly(st: State, b: Ballot)
    ensures MemoryTakes(st, b) <==>
              && st.active.Some? && b.option < st.options && b.agent in st.active.value.voters.agents
              && forall o :: o in st.active.value.ballots ==> o.agent != b.agent
  {
    if st.active.Some? {
      assert forall o :: o in st.active.value.ballots ==> o.agent in AgentsOf(st.active.value.ballots);
    }
  }

  // The result taken out is closed in the tables, then broadcast, and then is done.
  lemma BroadcastChanges(st: State, step: Step)
    ensures Next(st, step).broadcasts ==
              if step.Restart? then []
              else if step.Broadcast? && st.closing.Some? && st.closing.value.stored then st.broadcasts + [st.closing.value]
              else st.broadcasts
  {
    if step.CastCheck? || step.Persist? || step.Record? {
      CastKeepsClosing(st, step);
    } else if IsRoomStep(step) {
      RoomKeepsClosing(st, step);
    }
  }

  lemma ClosingChanges(st: State, step: Step)
    requires !Takes(st, step)
    ensures Next(st, step).closing ==
              if step.Restart? || (step.Broadcast? && st.closing.Some? && st.closing.value.stored) then None
              else if step.CloseStored? && st.closing.Some? then Some(st.closing.value.(stored := true))
              else st.closing
  {
    if step.CastCheck? || step.Persist? || step.Record? {
      CastKeepsClosing(st, step);
    } else if IsRoomStep(step) {
      RoomKeepsClosing(st, step);
    }
  }

  lemma CastKeepsClosing(st: State, step: Step)
    requires step.CastCheck? || step.Persist? || step.Record?
    ensures Next(st, step).closing == st.closing && Next(st, step).broadcasts == st.broadcasts
  {
    if step.Record? { RecordKeepsClosing(st, step.c); }
  }

  lemma RecordKeepsClosing(st: State, c: nat)
    ensures Next(st, Record(c)).closing == st.closing && Next(st, Record(c)).broadcasts == st.broadcasts
  {}

  lemma RoomKeepsClosing(st: State, step: Step)
    requires IsRoomStep(step)
    ensures Next(st, step).closing == st.closing && Next(st, step).broadcasts == st.broadcasts
  {}

  lemma TakenIsClosed(st: State, step: Step)
    requires Takes(st, step)
    ensures Next(st, step).closing ==
              if st.active.Some?
              then Some(Closing(st.active.value.ballots, st.active.value.voters, step.Deadline?, false)) else st.closing
  {
    if step.Take? { TakeCloses(st, step.c); }
  }

  lemma TakeCloses(st: State, c: nat)
    requires c in st.casts && st.casts[c].Full?
    ensures Next(st, Take(c)).closing == if st.active.Some?
                                         then Some(Closing(st.active.value.ballots, st.active.value.voters, false, false))
                                         else st.closing
  {}

  // The two requests move on by their own steps only; a restart ends both.
  lemma CreationChanges(st: State, step: Step)
    ensures var after := Next(st, step).creation;
            && (after.NotYet? <==> st.creation.NotYet? && !step.CreateStored?)
            && (after.TableWritten? <==>
                  || (step.CreateStored? && st.creation.NotYet?)
                  || (st.creation.TableWritten? && !step.CreateActive? && !step.Restart?))
            && (after.Inserted? <==>
                  || (step.CreateActive? && st.creation.TableWritten?)
                  || (st.creation.Inserted? && !step.CreateCheck? && !step.Restart?))
            && (after.Undoing? <==>
                  || (step.CreateCheck? && st.creation.Inserted? && st.destroyed)
                  || (st.creation.Undoing? && !step.CreateUndo? && !step.Restart?))
  {
    if !IsRoomStep(step) && !step.Restart? { VoteKeepsRequests(st, step); }
  }

  lemma DestructionChanges(st: State, step: Step)
    ensures Next(st, step).destroyed <==> st.destroyed || step.DestroyStored?
    ensures Next(st, step).forgetting <==>
              || (step.DestroyStored? && !st.destroyed)
              || (st.forgetting && !step.DestroyForget? && !step.Restart?)
  {
    if !IsRoomStep(step) && !step.Restart? { VoteKeepsRequests(st, step); }
  }

  predicate CastIs(st: State, c: nat, cast: Cast) {
    c in st.casts && st.casts[c] == cast
  }

  // A cast passes its check against the vote in memory or, without one, against the
  // row's electorate alone; it is stored, recorded, and at most one goes on to close.
  lemma CheckedChanges(st: State, step: Step, c: nat, b: Ballot)
    ensures CastIs(Next(st, step), c, Checked(b)) <==>
              || (step == CastCheck(c, b) && c !in st.casts
                  && if st.active.Some? then b.agent in st.active.value.voters.agents && b.option < st.options
                     else st.present && b.agent in st.voters.agents)
              || (CastIs(st, c, Checked(b)) && step != Persist(c) && !step.Restart?)
  {
    if IsRoomStep(step) {
      RoomKeepsCasts(st, step);
    } else if step.Take? || step.Deadline? || step.CloseStored? || step.Broadcast? {
      EndKeepsCasts(st, step, c);
    } else if step.Persist? || step.Record? {
      CastEndsCheck(st, step, c, b);
    }
  }

  lemma CastEndsCheck(st: State, step: Step, c: nat, b: Ballot)
    requires step.Persist? || step.Record?
    ensures CastIs(Next(st, step), c, Checked(b)) <==> CastIs(st, c, Checked(b)) && step != Persist(c)
  {}

  lemma PersistedChanges(st: State, step: Step, c: nat, b: Ballot)
    ensures CastIs(Next(st, step), c, Persisted(b)) <==>
              || (step == Persist(c) && StoredNow(st, step, b))
              || (CastIs(st, c, Persisted(b)) && step != Record(c) && !step.Restart?)
  {
    if IsRoomStep(step) {
      RoomKeepsCasts(st, step);
    } else if step.Take? || step.Deadline? || step.CloseStored? || step.Broadcast? {
      EndKeepsCasts(st, step, c);
    } else if step.Persist? {
      PersistMovesOn(st, step.c, c, b);
    } else if step.Record? {
      RecordEndsCast(st, step.c, c, b);
    }
  }

  lemma PersistMovesOn(st: State, d: nat, c: nat, b: Ballot)
    ensures CastIs(Next(st, Persist(d)), c, Persisted(b)) <==>
              (d == c && StoredNow(st, Persist(d), b)) || CastIs(st, c, Persisted(b))
  {
    assert forall o :: o in st.stored ==> o.agent in AgentsOf(st.stored);
  }

  lemma RecordEndsCast(st: State, d: nat, c: nat, b: Ballot)
    ensures CastIs(Next(st, Record(d)), c, Persisted(b)) <==> CastIs(st, c, Persisted(b)) && d != c
  {}

  lemma FullChanges(st: State, step: Step, c: nat)
    ensures CastIs(Next(st, step), c, Full) <==>
              || (step == Record(c) && c in st.casts && st.casts[c].Persisted? && RecordedNow(st, step, st.casts[c].ballot)
                  && |st.active.value.ballots| + 1 >= st.active.value.voters.size)
              || (CastIs(st, c, Full) && step != Take(c) && !step.Restart?)
  {
    if IsRoomStep(step) {
      RoomKeepsCasts(st, step);
    } else if step.Take? || step.Deadline? || step.CloseStored? || step.Broadcast? {
      EndKeepsCasts(st, step, c);
    } else if step.Record? {
      RecordMovesOn(st, step.c, c);
    }
  }

  lemma RecordMovesOn(st: State, d: nat, c: nat)
    ensures CastIs(Next(st, Record(d)), c, Full) <==>
              || (d == c && c in st.casts && st.casts[c].Persisted? && RecordedNow(st, Record(d), st.casts[c].ballot)
                  && |st.active.value.ballots| + 1 >= st.active.value.voters.size)
              || CastIs(st, c, Full)
  {
    if d in st.casts && st.casts[d].Persisted? { TakesExactly(st, st.casts[d].ballot); }
  }

  // --- the two copies ---

  predicate InFlight(st: State, b: Ballot) {
    exists c :: c in st.casts && st.casts[c] == Persisted(b)
  }

  // As long as the row exists, what memory holds is stored, and what else is
  // stored is on its way to memory or was refused by it.
  ghost predicate CopiesMatch(st: State) {
    st.present ==>
      && (forall b :: b in Memory(st) ==> b in st.stored)
      && (st.active.Some? || st.creation.TableWritten? ==>
            forall b :: b in st.stored ==> b in Memory(st) || InFlight(st, b) || b in st.refused)
  }

  ghost predicate StoreInv(st: State) {
    && DistinctAgents(st.stored)
    && (!st.present ==> !st.open && st.stored == [])
    && (st.present && st.active.Some? ==> st.open && st.active.value.voters == st.voters)
  }

  // Before memory has the vote nothing can close it.
  ghost predicate EarlyInv(st: State) {
    && (st.creation.NotYet? ==> !st.present && st.casts == map[] && st.refused == {})
    && (st.creation.NotYet? || st.creation.TableWritten? ==>
          st.active.None? && st.closing.None? && st.broadcasts == [] && forall c :: c in st.casts ==> !st.casts[c].Full?)
    && (st.creation.TableWritten? && st.present ==> st.open && st.voters == st.members)
    && |st.members.agents| == st.members.size
  }

  ghost predicate MemoryInv(st: State) {
    st.active.Some? ==>
      var vote := st.active.value;
      && DistinctAgents(vote.ballots) && AgentsOf(vote.ballots) <= vote.voters.agents
      && |vote.voters.agents| == vote.voters.size
  }

  // As long as the row exists, casts in flight come from electors, and stored
  // ballots in flight or refused are not in memory and are all different.
  ghost predicate CastsInv(st: State) {
    st.present ==>
      && (forall c :: c in st.casts && !st.casts[c].Full? ==> st.casts[c].ballot.agent in st.voters.agents)
      && (forall c :: c in st.casts && st.casts[c].Persisted? ==> Awaited(st, st.casts[c].ballot))
      && (forall c, d :: c in st.casts && d in st.casts && c != d && st.casts[c].Persisted? && st.casts[d].Persisted? ==>
            st.casts[c].ballot.agent != st.casts[d].ballot.agent)
      && (forall b :: b in st.refused ==> b in st.stored && b.agent !in AgentsOf(Memory(st)) && b.agent in st.voters.agents)
  }

  // Stored, and neither in memory nor refused.
  ghost predicate Awaited(st: State, b: Ballot) {
    && b in st.stored && b.agent !in AgentsOf(Memory(st))
    && forall r :: r in st.refused ==> r.agent != b.agent
  }

  // A full vote has a cast about to close it, and only a full vote has one.
  ghost predicate FullInv(st: State) {
    && (st.active.Some? && st.active.value.ballots != [] && |st.active.value.ballots| >= st.active.value.voters.size ==>
          exists c :: c in st.casts && st.casts[c].Full?)
    && (st.active.Some? ==>
          forall c :: c in st.casts && st.casts[c].Full? ==> |st.active.value.ballots| >= st.active.value.voters.size)
  }

  ghost predicate VoteInv(st: State) {
    StoreInv(st) && EarlyInv(st) && MemoryInv(st) && CopiesMatch(st) && CastsInv(st) && FullInv(st)
  }

  // Another cast stays what it was.
  ghost predicate OthersKept(st: State, after: State, c: nat) {
    forall d :: d != c ==> (d in after.casts <==> d in st.casts) && (d in st.casts ==> after.casts[d] == st.casts[d])
  }

  lemma OthersStayInFlight(st: State, after: State, c: nat, b: Ballot)
    requires OthersKept(st, after, c) && InFlight(st, b)
    requires c in st.casts ==> st.casts[c] != Persisted(b)
    ensures InFlight(after, b)
  {
    var d :| d in st.casts && st.casts[d] == Persisted(b);
    assert d in after.casts;
  }

  lemma OthersStayFull(st: State, after: State, c: nat)
    requires OthersKept(st, after, c) && FullInv(st) && after.active == st.active
    requires (c in st.casts ==> !st.casts[c].Full?) && (c in after.casts ==> !after.casts[c].Full?)
    ensures FullInv(after)
  {
    if exists d :: d in st.casts && st.casts[d].Full? {
      var d :| d in st.casts && st.casts[d].Full?;
      assert d in after.casts && after.casts[d].Full?;
    }
  }

  lemma CheckKeepsInv(st: State, c: nat, b: Ballot)
    requires VoteInv(st)
    ensures VoteInv(Next(st, CastCheck(c, b)))
  {
    var after := Next(st, CastCheck(c, b));
    if after != st {
      forall d | InFlight(st, d)
        ensures InFlight(after, d)
      {
        OthersStayInFlight(st, after, c, d);
      }
      OthersStayFull(st, after, c);
      CheckKeepsCasts(st, c, b);
    }
  }

  lemma CheckKeepsCasts(st: State, c: nat, b: Ballot)
    requires VoteInv(st) && c !in st.casts && CheckPasses(st, b)
    ensures CastsInv(st.(casts := st.casts[c := Checked(b)]))
  {
    var after := st.(casts := st.casts[c := Checked(b)]);
    assert forall x :: Awaited(st, x) ==> Awaited(after, x);
  }

  lemma PersistKeepsStore(st: State, c: nat)
    requires StoreInv(st) && c in st.casts && st.casts[c].Checked?
    ensures StoreInv(PersistStep(st, c)) && OthersKept(st, PersistStep(st, c), c)
  {
    var b := st.casts[c].ballot;
    forall i | b.agent !in AgentsOf(st.stored) && 0 <= i < |st.stored|
      ensures st.stored[i].agent != b.agent
    {
      assert st.stored[i] in st.stored;
    }
  }

  lemma PersistKeepsCopies(st: State, c: nat)
    requires VoteInv(st) && c in st.casts && st.casts[c].Checked?
    ensures CopiesMatch(PersistStep(st, c))
  {
    var after := PersistStep(st, c);
    PersistKeepsStore(st, c);
    if after.present && (st.active.Some? || st.creation.TableWritten?) {
      forall x | x in after.stored
        ensures x in Memory(after) || InFlight(after, x) || x in after.refused
      {
        if x in st.stored {
          if InFlight(st, x) { OthersStayInFlight(st, after, c, x); }
        } else {
          assert after.casts[c] == Persisted(x);
        }
      }
    }
  }

  lemma PersistKeepsCasts(st: State, c: nat)
    requires VoteInv(st) && c in st.casts && st.casts[c].Checked?
    ensures CastsInv(PersistStep(st, c))
  {
    if !st.present || !st.open || st.casts[c].ballot.agent in AgentsOf(st.stored) {
      DropKeepsCasts(st, c);
    } else {
      StoredKeepsCasts(st, c);
    }
  }

  lemma DropKeepsCasts(st: State, c: nat)
    requires CastsInv(st)
    ensures CastsInv(Drop(st, c))
  {
    assert forall x :: Awaited(st, x) ==> Awaited(Drop(st, c), x);
  }

  lemma StoredKeepsCasts(st: State, c: nat)
    requires VoteInv(st) && c in st.casts && st.casts[c].Checked?
    requires st.present && st.open && st.casts[c].ballot.agent !in AgentsOf(st.stored)
    ensures CastsInv(PersistStep(st, c))
  {
    var after := PersistStep(st, c);
    var b := st.casts[c].ballot;
    forall x | x in st.stored
      ensures x.agent != b.agent
    {}
    forall d | d in after.casts && after.casts[d].Persisted?
      ensures Awaited(after, after.casts[d].ballot)
    {
      if d != c { assert Awaited(st, st.casts[d].ballot); }
    }
  }

  lemma PersistKeepsInv(st: State, c: nat)
    requires VoteInv(st) && c in st.casts && st.casts[c].Checked?
    ensures VoteInv(PersistStep(st, c))
  {
    PersistKeepsStore(st, c);
    PersistKeepsCopies(st, c);
    PersistKeepsCasts(st, c);
    OthersStayFull(st, PersistStep(st, c), c);
  }

  // As long as the row exists, memory refuses a stored ballot exactly when the
  // vote is not in memory or has no such option.
  lemma RecordRefusesExactly(st: State, c: nat)
    requires VoteInv(st) && st.present && c in st.casts && st.casts[c].Persisted?
    ensures st.casts[c].ballot in RecordStep(st, c).refused <==> st.active.None? || st.casts[c].ballot.option >= st.options
    ensures st.casts[c].ballot !in RecordStep(st, c).refused ==>
              Memory(RecordStep(st, c)) == Memory(st) + [st.casts[c].ballot]
  {
    assert Awaited(st, st.casts[c].ballot);
  }

  lemma TakeInKeepsMemory(st: State, c: nat, b: Ballot)
    requires MemoryInv(st) && StoreInv(st) && MemoryTakes(st, b)
    ensures MemoryInv(TakeInStep(st, c, b)) && StoreInv(TakeInStep(st, c, b)) && OthersKept(st, TakeInStep(st, c, b), c)
  {
    MemoryGrows(st.active.value, b);
  }

  lemma AgentsGrow(ballots: seq<Ballot>, b: Ballot)
    ensures AgentsOf(ballots + [b]) == AgentsOf(ballots) + {b.agent}
  {
    assert b in ballots + [b];
    assert forall x :: x in ballots + [b] <==> x in ballots || x == b;
  }

  lemma MemoryGrows(vote: ActiveVote, b: Ballot)
    requires DistinctAgents(vote.ballots) && b.agent !in AgentsOf(vote.ballots)
    ensures DistinctAgents(vote.ballots + [b]) && AgentsOf(vote.ballots + [b]) == AgentsOf(vote.ballots) + {b.agent}
  {
    assert forall i :: 0 <= i < |vote.ballots| ==> vote.ballots[i] in vote.ballots;
    AgentsGrow(vote.ballots, b);
  }

  lemma RefuseKeepsCopies(st: State, c: nat)
    requires VoteInv(st) && c in st.casts && st.casts[c].Persisted?
    ensures CopiesMatch(RefuseStep(st, c, st.casts[c].ballot))
  {
    var b := st.casts[c].ballot;
    forall x | InFlight(st, x) && x != b
      ensures InFlight(RefuseStep(st, c, b), x)
    {
      OthersStayInFlight(st, RefuseStep(st, c, b), c, x);
    }
  }

  lemma TakeInKeepsCopies(st: State, c: nat)
    requires VoteInv(st) && c in st.casts && st.casts[c].Persisted? && MemoryTakes(st, st.casts[c].ballot)
    ensures CopiesMatch(TakeInStep(st, c, st.casts[c].ballot))
  {
    var b := st.casts[c].ballot;
    var after := TakeInStep(st, c, b);
    assert st.present ==> Awaited(st, b);
    assert forall x :: x in Memory(after) <==> x in Memory(st) || x == b;
    forall x | InFlight(st, x) && x != b
      ensures InFlight(after, x)
    {
      OthersStayInFlight(st, after, c, x);
    }
  }

  lemma RefuseKeepsCasts(st: State, c: nat)
    requires VoteInv(st) && st.present && c in st.casts && st.casts[c].Persisted?
    ensures CastsInv(RefuseStep(st, c, st.casts[c].ballot))
  {
    var after := RefuseStep(st, c, st.casts[c].ballot);
    assert Awaited(st, st.casts[c].ballot);
    forall d | d in after.casts && after.casts[d].Persisted?
      ensures Awaited(after, after.casts[d].ballot)
    {
      assert d != c && Awaited(st, st.casts[d].ballot);
    }
  }

  lemma TakeInKeepsCasts(st: State, c: nat)
    requires VoteInv(st) && st.present && c in st.casts && st.casts[c].Persisted? && MemoryTakes(st, st.casts[c].ballot)
    ensures CastsInv(TakeInStep(st, c, st.casts[c].ballot))
  {
    MemoryGrows(st.active.value, st.casts[c].ballot);
    RecordedCastsKept(st, TakeInStep(st, c, st.casts[c].ballot), c);
  }

  lemma RecordedCastsKept(st: State, after: State, c: nat)
    requires CastsInv(st) && st.present && c in st.casts && st.casts[c].Persisted?
    requires after.present && after.stored == st.stored && after.voters == st.voters && after.refused == st.refused
    requires AgentsOf(Memory(after)) == AgentsOf(Memory(st)) + {st.casts[c].ballot.agent}
    requires forall d :: d in after.casts && !after.casts[d].Full? ==> d != c && d in st.casts && after.casts[d] == st.casts[d]
    ensures CastsInv(after)
  {
    assert Awaited(st, st.casts[c].ballot);
    forall d | d in after.casts && after.casts[d].Persisted?
      ensures Awaited(after, after.casts[d].ballot)
    {
      assert Awaited(st, st.casts[d].ballot);
    }
  }

  lemma TakeInKeepsFull(st: State, c: nat, b: Ballot)
    requires VoteInv(st) && c in st.casts && st.casts[c].Persisted? && MemoryTakes(st, b)
    ensures FullInv(TakeInStep(st, c, b))
  {
    var after := TakeInStep(st, c, b);
    if |after.active.value.ballots| >= st.active.value.voters.size {
      assert after.casts[c].Full?;
    }
  }

  lemma RefuseKeepsInv(st: State, c: nat)
    requires VoteInv(st) && c in st.casts && st.casts[c].Persisted?
    ensures VoteInv(RefuseStep(st, c, st.casts[c].ballot))
  {
    RefuseKeepsCopies(st, c);
    if st.present { RefuseKeepsCasts(st, c); }
    OthersStayFull(st, RefuseStep(st, c, st.casts[c].ballot), c);
  }

  lemma TakeInKeepsInv(st: State, c: nat)
    requires VoteInv(st) && c in st.casts && st.casts[c].Persisted? && MemoryTakes(st, st.casts[c].ballot)
    ensures VoteInv(TakeInStep(st, c, st.casts[c].ballot))
  {
    var b := st.casts[c].ballot;
    TakeInKeepsMemory(st, c, b);
    TakeInKeepsCopies(st, c);
    if st.present { TakeInKeepsCasts(st, c); }
    TakeInKeepsFull(st, c, b);
  }

  // Per server life there is one vote in memory, or one being closed, or one
  // broadcast result.
  predicate OneLife(st: State) {
    (if st.active.Some? then 1 else 0) + (if st.closing.Some? then 1 else 0) + |st.broadcasts| <= 1
  }

  lemma RoomKeepsOneLife(st: State, step: Step)
    requires OneLife(st) && EarlyInv(st)
    ensures OneLife(NextRoom(st, step))
  {}

  lemma RecordKeepsOneLife(st: State, c: nat)
    requires OneLife(st) && c in st.casts && st.casts[c].Persisted?
    ensures OneLife(RecordStep(st, c))
  {}

  lemma CastKeepsOneLife(st: State, step: Step)
    requires OneLife(st) && (step.CastCheck? || step.Persist? || step.Record?)
    ensures OneLife(NextVote(st, step))
  {
    if step.Record? {
      if step.c in st.casts && st.casts[step.c].Persisted? { RecordKeepsOneLife(st, step.c); }
    }
  }

  lemma CloseKeepsOneLife(st: State, step: Step)
    requires OneLife(st) && (step.Take? || step.Deadline? || step.CloseStored? || step.Broadcast?)
    ensures OneLife(NextVote(st, step))
  {}

  lemma NextKeepsOneLife(st: State, step: Step)
    requires OneLife(st) && EarlyInv(st)
    ensures OneLife(Next(st, step))
  {
    if IsRoomStep(step) {
      RoomKeepsOneLife(st, step);
    } else if step.CastCheck? || step.Persist? || step.Record? {
      CastKeepsOneLife(st, step);
    } else if !step.Restart? {
      CloseKeepsOneLife(st, step);
    }
  }

  lemma RestartKeepsInv(st: State)
    requires StoreInv(st) && EarlyInv(st)
    ensures VoteInv(RestartStep(st))
  {
    assert AgentsOf([]) == {};
  }

  // The vote leaving memory, one way or another.
  lemma LeavingKeepsInv(st: State, after: State)
    requires VoteInv(st) && after.active.None?
    requires !st.creation.NotYet? && !after.creation.NotYet? && !after.creation.TableWritten?
    requires after == st.(active := None, closing := after.closing, casts := after.casts, creation := after.creation,
                          forgetting := after.forgetting)
    requires forall c :: c in after.casts ==> c in st.casts && after.casts[c] == st.casts[c]
    ensures VoteInv(after)
  {
    assert AgentsOf([]) == {};
    assert forall x :: Awaited(st, x) ==> Awaited(after, x);
  }

  lemma CloseKeepsInv(st: State, step: Step)
    requires VoteInv(st) && (step.Take? || step.Deadline?)
    ensures VoteInv(NextVote(st, step))
  {
    var after := NextVote(st, step);
    if st.active.Some? && after.active.None? {
      LeavingKeepsInv(st, after);
    } else if step.Take? && after != st {
      DropFullKeepsInv(st, step.c);
    }
  }

  lemma DropFullKeepsInv(st: State, c: nat)
    requires VoteInv(st) && c in st.casts && st.casts[c].Full? && st.active.None?
    ensures VoteInv(Drop(st, c))
  {
    var after := Drop(st, c);
    forall x | InFlight(st, x)
      ensures InFlight(after, x)
    {
      OthersStayInFlight(st, after, c, x);
    }
    assert forall x :: Awaited(st, x) ==> Awaited(after, x);
  }

  lemma EndKeepsInv(st: State, step: Step)
    requires VoteInv(st) && OneLife(st) && (step.CloseStored? || step.Broadcast?)
    ensures VoteInv(NextVote(st, step))
  {
    var after := NextVote(st, step);
    assert forall x :: (Awaited(st, x) ==> Awaited(after, x)) && (InFlight(st, x) ==> InFlight(after, x));
  }

  lemma RowlessKeepsInv(st: State, after: State)
    requires VoteInv(st) && !st.creation.NotYet?
    requires after == WithoutRow(st).(creation := after.creation, destroyed := after.destroyed, forgetting := after.forgetting)
    requires after.creation == st.creation || after.creation.Settled?
    ensures VoteInv(after)
  {}

  lemma CreateKeepsInv(st: State, step: Step)
    requires VoteInv(st) && (step.CreateStored? || step.CreateActive?)
    ensures VoteInv(NextRoom(st, step))
  {
    var after := NextRoom(st, step);
    assert AgentsOf([]) == {};
    if step.CreateActive? && after != st {
      assert forall x :: (Awaited(st, x) ==> Awaited(after, x)) && (InFlight(st, x) ==> InFlight(after, x));
    }
  }

  lemma RoomKeepsInv(st: State, step: Step)
    requires VoteInv(st) && IsRoomStep(step)
    ensures VoteInv(NextRoom(st, step))
  {
    if step.CreateStored? || step.CreateActive? {
      CreateKeepsInv(st, step);
    } else if step.CreateCheck? || step.DestroyForget? {
      ForgettingKeepsInv(st, step);
    } else {
      RowStepKeepsInv(st, step);
    }
  }

  lemma ForgettingKeepsInv(st: State, step: Step)
    requires VoteInv(st) && (step.CreateCheck? || step.DestroyForget?)
    ensures VoteInv(NextRoom(st, step))
  {
    var after := NextRoom(st, step);
    if after.active.None? && after.active != st.active {
      LeavingKeepsInv(st, after);
    } else {
      SettlingKeepsInv(st, after);
    }
  }

  lemma RowStepKeepsInv(st: State, step: Step)
    requires VoteInv(st) && (step.CreateUndo? || step.DestroyStored?)
    ensures VoteInv(NextRoom(st, step))
  {
    var after := NextRoom(st, step);
    if !st.creation.NotYet? && after != st {
      RowlessKeepsInv(st, after);
    } else {
      SettlingKeepsInv(st, after);
    }
  }

  lemma SettlingKeepsInv(st: State, after: State)
    requires VoteInv(st)
    requires after == st.(creation := after.creation, destroyed := after.destroyed, forgetting := after.forgetting)
    requires after.creation == st.creation || (st.creation.Inserted? && !after.creation.NotYet? && !after.creation.TableWritten?)
    ensures VoteInv(after)
  {
    assert forall x :: (Awaited(st, x) ==> Awaited(after, x)) && (InFlight(st, x) ==> InFlight(after, x));
  }

  lemma NextKeepsVoteInv(st: State, step: Step)
    requires VoteInv(st) && OneLife(st)
    ensures VoteInv(Next(st, step))
  {
    if IsRoomStep(step) {
      RoomKeepsInv(st, step);
    } else if step.CastCheck? {
      CheckKeepsInv(st, step.c, step.ballot);
    } else if step.Persist? {
      if step.c in st.casts && st.casts[step.c].Checked? { PersistKeepsInv(st, step.c); }
    } else if step.Record? {
      if step.c in st.casts && st.casts[step.c].Persisted? {
        if MemoryTakes(st, st.casts[step.c].ballot) { TakeInKeepsInv(st, step.c); } else { RefuseKeepsInv(st, step.c); }
      }
    } else if step.Restart? {
      RestartKeepsInv(st);
    } else if step.Take? || step.Deadline? {
      CloseKeepsInv(st, step);
    } else {
      EndKeepsInv(st, step);
    }
  }

  // --- results ---

  // A result holds ballots of distinct electors, stored ones as long as the row
  // exists, and unless the deadline closed the vote, one of every elector.
  ghost predicate ResultInv(st: State, r: Closing) {
    && DistinctAgents(r.ballots) && AgentsOf(r.ballots) <= r.voters.agents
    && (st.present ==> forall b :: b in r.ballots ==> b in st.stored)
    && (r.byDeadline ==> st.hasDeadline)
    && (!r.byDeadline ==> AgentsOf(r.ballots) == r.voters.agents)
  }

  ghost predicate ResultsInv(st: State) {
    && (st.closing.Some? ==> ResultInv(st, st.closing.value))
    && (forall r :: r in st.broadcasts ==> ResultInv(st, r))
  }

  lemma FullMeansEveryone(vote: ActiveVote)
    requires DistinctAgents(vote.ballots) && AgentsOf(vote.ballots) <= vote.voters.agents
    requires |vote.voters.agents| == vote.voters.size
    ensures |vote.ballots| >= vote.voters.size <==> AgentsOf(vote.ballots) == vote.voters.agents
  {
    AgentsAreCounted(vote.ballots);
    var missing := vote.voters.agents - AgentsOf(vote.ballots);
    assert vote.voters.agents == AgentsOf(vote.ballots) + missing;
    assert |vote.voters.agents| == |AgentsOf(vote.ballots)| + |missing|;
  }

  lemma MemoryMakesResult(st: State, byDeadline: bool)
    requires VoteInv(st) && st.active.Some? && (byDeadline ==> st.hasDeadline)
    requires !byDeadline ==> |st.active.value.ballots| >= st.active.value.voters.size
    ensures ResultInv(st, Closing(st.active.value.ballots, st.active.value.voters, byDeadline, false))
  {
    FullMeansEveryone(st.active.value);
  }

  // Taking the vote out of memory makes a result of what memory held.
  lemma CloseKeepsResults(st: State, dropped: State, byDeadline: bool)
    requires ResultsInv(st) && dropped == st.(casts := dropped.casts)
    requires st.active.Some? ==> ResultInv(st, Closing(st.active.value.ballots, st.active.value.voters, byDeadline, false))
    ensures ResultsInv(Close(dropped, byDeadline))
  {}

  lemma TakeKeepsResults(st: State, c: nat)
    requires VoteInv(st) && ResultsInv(st)
    ensures ResultsInv(NextVote(st, Take(c)))
  {
    if c in st.casts && st.casts[c].Full? {
      if st.active.Some? { MemoryMakesResult(st, false); }
      CloseKeepsResults(st, Drop(st, c), false);
    }
  }

  lemma DeadlineKeepsResults(st: State)
    requires VoteInv(st) && ResultsInv(st)
    ensures ResultsInv(NextVote(st, Deadline))
  {
    if st.hasDeadline {
      if st.active.Some? { MemoryMakesResult(st, true); }
      CloseKeepsResults(st, st, true);
    }
  }

  // Results stay, and what is stored stays as long as the row exists.
  ghost predicate KeepsResults(st: State, after: State) {
    && after.hasDeadline == st.hasDeadline
    && (after.present ==> st.present && forall b :: b in st.stored ==> b in after.stored)
    && (after.closing.Some? ==> st.closing.Some? && after.closing.value.(stored := st.closing.value.stored) == st.closing.value)
    && (forall r :: r in after.broadcasts ==> r in st.broadcasts || (st.closing.Some? && r == st.closing.value))
  }

  lemma KeptResultsHold(st: State, after: State)
    requires ResultsInv(st) && KeepsResults(st, after)
    ensures ResultsInv(after)
  {}

  lemma PersistKeepsResults(st: State, c: nat)
    requires c in st.casts && st.casts[c].Checked?
    ensures KeepsResults(st, PersistStep(st, c))
  {}

  lemma RecordKeepsResults(st: State, c: nat)
    requires c in st.casts && st.casts[c].Persisted?
    ensures KeepsResults(st, RecordStep(st, c))
  {}

  lemma CastKeepsResults(st: State, step: Step)
    requires step.CastCheck? || step.Persist? || step.Record?
    ensures KeepsResults(st, NextVote(st, step))
  {
    if step.Persist? {
      if step.c in st.casts && st.casts[step.c].Checked? { PersistKeepsResults(st, step.c); }
    } else if step.Record? {
      if step.c in st.casts && st.casts[step.c].Persisted? { RecordKeepsResults(st, step.c); }
    }
  }

  lemma EndKeepsResults(st: State, step: Step)
    requires step.CloseStored? || step.Broadcast? || step.Restart?
    ensures KeepsResults(st, NextVote(st, step))
  {}

  lemma RoomKeepsResults(st: State, step: Step)
    requires IsRoomStep(step) && (step.CreateStored? ==> !st.creation.NotYet?)
    ensures KeepsResults(st, NextRoom(st, step))
  {}

  lemma NextKeepsResults(st: State, step: Step)
    requires VoteInv(st) && ResultsInv(st)
    ensures ResultsInv(Next(st, step))
  {
    if step.Take? {
      TakeKeepsResults(st, step.c);
    } else if step.Deadline? {
      DeadlineKeepsResults(st);
    } else if IsRoomStep(step) {
      if !(step.CreateStored? && st.creation.NotYet?) {
        RoomKeepsResults(st, step);
        KeptResultsHold(st, NextRoom(st, step));
      }
    } else if step.CastCheck? || step.Persist? || step.Record? {
      CastKeepsResults(st, step);
      KeptResultsHold(st, NextVote(st, step));
    } else {
      EndKeepsResults(st, step);
      KeptResultsHold(st, NextVote(st, step));
    }
  }

  ghost predicate Sound(st: State) {
    VoteInv(st) && OneLife(st) && ResultsInv(st)
  }

  lemma NextKeepsSound(st: State, step: Step)
    requires Sound(st)
    ensures Sound(Next(st, step))
  {
    NextKeepsVoteInv(st, step);
    NextKeepsOneLife(st, step);
    NextKeepsResults(st, step);
  }

  lemma {:induction false} RunKeepsSound(st: State, steps: seq<Step>)
    requires Sound(st)
    ensures Sound(Run(st, steps))
    decreases |steps|
  {
    if steps != [] {
      NextKeepsSound(st, steps[0]);
      RunKeepsSound(Next(st, steps[0]), steps[1..]);
    }
  }

  lemma RequestIsSound(options: nat, creator: string, hasDeadline: bool, members: set<string>)
    ensures Sound(Requested(options, creator, hasDeadline, members))
  {
    assert AgentsOf([]) == {};
  }

  // In every run, the creating and the destroying request interleaved with
  // everything else: at most one result is broadcast per server life; memory
  // holds only stored ballots exactly as long as the row exists or memory is
  // empty; and with no cast in flight it holds all of them exactly when it has
  // refused none.
  lemma CopiesAgreeExactly(options: nat, creator: string, hasDeadline: bool, members: set<string>, steps: seq<Step>)
    ensures var st := Run(Requested(options, creator, hasDeadline, members), steps);
            && |st.broadcasts| <= 1
            && ((forall b :: b in Memory(st) ==> b in st.stored) <==> st.present || Memory(st) == [])
            && (st.present && st.active.Some? && (forall c :: c in st.casts ==> !st.casts[c].Persisted?) ==>
                  ((forall b :: b in st.stored ==> b in Memory(st)) <==> st.refused == {}))
  {
    RequestIsSound(options, creator, hasDeadline, members);
    RunKeepsSound(Requested(options, creator, hasDeadline, members), steps);
    var st := Run(Requested(options, creator, hasDeadline, members), steps);
    if Memory(st) != [] {
      assert Memory(st)[0] in Memory(st);
    }
    if st.refused != {} && st.present {
      var b :| b in st.refused;
      assert b in st.stored && b.agent !in AgentsOf(Memory(st)) && b !in Memory(st);
    }
  }

  // Nobody casts between the writing of the tables and the insertion in memory.
  predicate PromptStep(st: State, step: Step) {
    step.CastCheck? ==> !st.creation.TableWritten?
  }

  predicate PromptRun(st: State, steps: seq<Step>)
    decreases |steps|
  {
    steps == [] || (PromptStep(st, steps[0]) && PromptRun(Next(st, steps[0]), steps[1..]))
  }

  ghost predicate PromptInv(st: State) {
    && (st.creation.NotYet? || st.creation.TableWritten? ==> st.casts == map[] && st.refused == {})
    && (st.present && st.active.Some? ==>
          st.refused == {} && forall c :: c in st.casts && !st.casts[c].Full? ==> st.casts[c].ballot.option < st.options)
  }

  lemma RecordKeepsPrompt(st: State, c: nat)
    requires VoteInv(st) && PromptInv(st) && c in st.casts && st.casts[c].Persisted?
    ensures PromptInv(RecordStep(st, c))
  {
    if st.present { RecordRefusesExactly(st, c); }
  }

  lemma CastKeepsPrompt(st: State, step: Step)
    requires PromptInv(st) && PromptStep(st, step) && (step.CastCheck? || step.Persist?) && EarlyInv(st)
    ensures PromptInv(NextVote(st, step))
  {}

  lemma EndKeepsPrompt(st: State, step: Step)
    requires PromptInv(st) && !IsRoomStep(step) && !step.CastCheck? && !step.Persist? && !step.Record? && EarlyInv(st)
    ensures PromptInv(NextVote(st, step))
  {}

  lemma RoomKeepsPrompt(st: State, step: Step)
    requires PromptInv(st) && EarlyInv(st) && IsRoomStep(step)
    ensures PromptInv(NextRoom(st, step))
  {}

  lemma {:induction false} RunKeepsPrompt(st: State, steps: seq<Step>)
    requires Sound(st) && PromptInv(st) && PromptRun(st, steps)
    ensures PromptInv(Run(st, steps))
    decreases |steps|
  {
    if steps != [] {
      var step := steps[0];
      if IsRoomStep(step) {
        RoomKeepsPrompt(st, step);
      } else if step.Record? {
        if step.c in st.casts && st.casts[step.c].Persisted? { RecordKeepsPrompt(st, step.c); }
      } else if step.CastCheck? || step.Persist? {
        CastKeepsPrompt(st, step);
      } else {
        EndKeepsPrompt(st, step);
      }
      NextKeepsSound(st, step);
      RunKeepsPrompt(Next(st, step), steps[1..]);
    }
  }

  // Then the two copies always agree once no cast is in flight.
  lemma PromptCopiesAgree(options: nat, creator: string, hasDeadline: bool, members: set<string>, steps: seq<Step>)
    requires PromptRun(Requested(options, creator, hasDeadline, members), steps)
    ensures var st := Run(Requested(options, creator, hasDeadline, members), steps);
            st.present && st.active.Some? && (forall c :: c in st.casts ==> !st.casts[c].Persisted?) ==>
              forall b :: b in st.stored <==> b in Memory(st)
  {
    RequestIsSound(options, creator, hasDeadline, members);
    RunKeepsPrompt(Requested(options, creator, hasDeadline, members), steps);
    CopiesAgreeExactly(options, creator, hasDeadline, members, steps);
  }

  // A result not due to a deadline holds every elector's ballot; and a vote left
  // in memory at rest still misses one, if it has any elector at all.
  lemma ClosesWhenEveryoneVoted(options: nat, creator: string, hasDeadline: bool, members: set<string>, steps: seq<Step>)
    ensures var st := Run(Requested(options, creator, hasDeadline, members), steps);
            && (forall r :: r in st.broadcasts && !r.byDeadline ==> AgentsOf(r.ballots) == r.voters.agents)
            && (st.active.Some? && st.casts == map[] && st.active.value.voters.agents != {} ==>
                  AgentsOf(st.active.value.ballots) != st.active.value.voters.agents)
  {
    RequestIsSound(options, creator, hasDeadline, members);
    RunKeepsSound(Requested(options, creator, hasDeadline, members), steps);
    var st := Run(Requested(options, creator, hasDeadline, members), steps);
    if st.active.Some? { FullMeansEveryone(st.active.value); }
  }

  // The elector of a refused ballot is never in memory, nor in a result.
  ghost predicate Barred(st: State, b: Ballot) {
    && b in st.refused && !st.creation.NotYet? && !st.creation.TableWritten?
    && (forall c :: c in st.casts && st.casts[c].Persisted? ==> st.casts[c].ballot.agent != b.agent)
    && (st.active.Some? ==> b.agent in st.active.value.voters.agents && b.agent !in AgentsOf(st.active.value.ballots))
    && (st.closing.Some? ==> b.agent in st.closing.value.voters.agents && b.agent !in AgentsOf(st.closing.value.ballots))
    && (forall r :: r in st.broadcasts ==> b.agent in r.voters.agents && b.agent !in AgentsOf(r.ballots))
  }

  lemma RecordKeepsBarred(st: State, c: nat, b: Ballot)
    requires Barred(st, b) && c in st.casts && st.casts[c].Persisted?
    ensures Barred(RecordStep(st, c), b)
  {
    var x := st.casts[c].ballot;
    if MemoryTakes(st, x) {
      AgentsGrow(st.active.value.ballots, x);
      TakeInKeepsBarred(st, c, x, b);
    }
  }

  lemma TakeInKeepsBarred(st: State, c: nat, x: Ballot, b: Ballot)
    requires Barred(st, b) && st.active.Some? && c in st.casts && x.agent != b.agent
    requires AgentsOf(st.active.value.ballots + [x]) == AgentsOf(st.active.value.ballots) + {x.agent}
    ensures Barred(TakeInStep(st, c, x), b)
  {}

  lemma PersistKeepsBarred(st: State, c: nat, b: Ballot)
    requires Barred(st, b) && CastsInv(st) && c in st.casts && st.casts[c].Checked?
    ensures Barred(PersistStep(st, c), b)
  {}

  lemma OtherStepKeepsBarred(st: State, step: Step, b: Ballot)
    requires Barred(st, b) && !IsRoomStep(step) && !step.Persist? && !step.Record? && !step.Restart?
    ensures Barred(NextVote(st, step), b)
  {}

  lemma RoomKeepsBarred(st: State, step: Step, b: Ballot)
    requires Barred(st, b) && IsRoomStep(step)
    ensures Barred(NextRoom(st, step), b)
  {}

  lemma NextKeepsBarred(st: State, step: Step, b: Ballot)
    requires Barred(st, b) && CastsInv(st) && !step.Restart?
    ensures Barred(Next(st, step), b)
  {
    if IsRoomStep(step) {
      RoomKeepsBarred(st, step, b);
    } else if step.Persist? {
      if step.c in st.casts && st.casts[step.c].Checked? { PersistKeepsBarred(st, step.c, b); }
    } else if step.Record? {
      if step.c in st.casts && st.casts[step.c].Persisted? { RecordKeepsBarred(st, step.c, b); }
    } else {
      OtherStepKeepsBarred(st, step, b);
    }
  }

  // Once memory has refused a stored ballot, no result of this server life comes
  // from everyone having voted.
  lemma {:induction false} RefusedVoteNeedsDeadline(st: State, steps: seq<Step>, b: Ballot)
    requires Sound(st) && Barred(st, b) && forall i :: 0 <= i < |steps| ==> !steps[i].Restart?
    ensures forall r :: r in Run(st, steps).broadcasts ==> r.byDeadline && Run(st, steps).hasDeadline
    decreases |steps|
  {
    if steps != [] {
      NextKeepsBarred(st, steps[0], b);
      NextKeepsSound(st, steps[0]);
      RefusedVoteNeedsDeadline(Next(st, steps[0]), steps[1..], b);
    }
  }

  // As long as the row exists a broadcast tally never exceeds the tally of the
  // stored ballots, and it sums to its ballot count exactly when all its ballots
  // name an existing option.
  lemma BroadcastTallyIsStored(options: nat, creator: string, hasDeadline: bool, members: set<string>, steps: seq<Step>, option: nat)
    ensures var st := Run(Requested(options, creator, hasDeadline, members), steps);
            forall r :: r in st.broadcasts ==>
              && (st.present ==> CountFor(r.ballots, option) <= CountFor(st.stored, option))
              && (Sum(Tally(options, r.ballots)) == |r.ballots| <==> InRange(options, r.ballots))
  {
    RequestIsSound(options, creator, hasDeadline, members);
    RunKeepsSound(Requested(options, creator, hasDeadline, members), steps);
    var st := Run(Requested(options, creator, hasDeadline, members), steps);
    forall r | r in st.broadcasts
      ensures st.present ==> CountFor(r.ballots, option) <= CountFor(st.stored, option)
      ensures Sum(Tally(options, r.ballots)) == |r.ballots| <==> InRange(options, r.ballots)
    {
      if st.present { TallyIsMonotone(r.ballots, st.stored, option); }
      TallySumsExactly(options, r.ballots);
    }
  }

  // --- options out of range ---

  // A cast checked while the vote is not in memory names an existing option.
  predicate CarefulStep(st: State, step: Step) {
    step.CastCheck? && st.active.None? ==> step.ballot.option < st.options
  }

  predicate CarefulRun(st: State, steps: seq<Step>)
    decreases |steps|
  {
    steps == [] || (CarefulStep(st, steps[0]) && CarefulRun(Next(st, steps[0]), steps[1..]))
  }

  ghost predicate OptionsInv(st: State) {
    && InRange(st.options, st.stored)
    && (forall c :: c in st.casts && !st.casts[c].Full? ==> st.casts[c].ballot.option < st.options)
    && InRange(st.options, Memory(st))
    && (st.closing.Some? ==> InRange(st.options, st.closing.value.ballots))
    && (forall r :: r in st.broadcasts ==> InRange(st.options, r.ballots))
  }

  lemma RecordKeepsOptions(st: State, c: nat)
    requires OptionsInv(st) && c in st.casts && st.casts[c].Persisted?
    ensures OptionsInv(RecordStep(st, c))
  {
    var b := st.casts[c].ballot;
    if MemoryTakes(st, b) { TakeInKeepsOptions(st, c, b); }
  }

  lemma TakeInKeepsOptions(st: State, c: nat, b: Ballot)
    requires OptionsInv(st) && st.active.Some? && c in st.casts && b.option < st.options
    ensures OptionsInv(TakeInStep(st, c, b))
  {
    MemoryKeepsOptions(st, TakeInStep(st, c, b));
  }

  // Steps that change no more than the memory, the creation and the casts under way.
  lemma MemoryKeepsOptions(st: State, after: State)
    requires OptionsInv(st) && InRange(st.options, Memory(after))
    requires after == st.(active := after.active, casts := after.casts, creation := after.creation)
    requires forall c :: c in after.casts && !after.casts[c].Full? ==> c in st.casts && after.casts[c] == st.casts[c]
    ensures OptionsInv(after)
  {}

  lemma PersistKeepsOptions(st: State, c: nat)
    requires OptionsInv(st) && c in st.casts && st.casts[c].Checked?
    ensures OptionsInv(PersistStep(st, c))
  {}

  lemma CloseKeepsOptions(st: State, step: Step)
    requires OptionsInv(st) && (step.Take? || step.Deadline?)
    ensures OptionsInv(NextVote(st, step))
  {}

  lemma EndKeepsOptions(st: State, step: Step)
    requires OptionsInv(st) && (step.CloseStored? || step.Broadcast?)
    ensures OptionsInv(NextVote(st, step))
  {}

  lemma RestartKeepsOptions(st: State)
    requires OptionsInv(st)
    ensures OptionsInv(RestartStep(st))
  {}

  lemma CreateKeepsOptions(st: State, step: Step)
    requires OptionsInv(st) && (step.CreateStored? || step.CreateActive? || step.CreateCheck?)
    ensures OptionsInv(NextRoom(st, step))
  {
    if !step.CreateStored? { MemoryKeepsOptions(st, NextRoom(st, step)); }
  }

  lemma DestroyKeepsOptions(st: State, step: Step)
    requires OptionsInv(st) && (step.CreateUndo? || step.DestroyStored? || step.DestroyForget?)
    ensures OptionsInv(NextRoom(st, step))
  {}

  predicate SameTerms(st: State, after: State) {
    after.options == st.options && after.hasDeadline == st.hasDeadline
  }

  lemma RoomKeepsTerms(st: State, step: Step)
    requires IsRoomStep(step)
    ensures SameTerms(st, NextRoom(st, step))
  {}

  lemma CastKeepsTerms(st: State, step: Step)
    requires step.CastCheck? || step.Persist? || step.Record?
    ensures SameTerms(st, NextVote(st, step))
  {}

  lemma EndKeepsTerms(st: State, step: Step)
    requires step.Take? || step.Deadline? || step.CloseStored? || step.Broadcast? || step.Restart?
    ensures SameTerms(st, NextVote(st, step))
  {}

  lemma StepKeepsTerms(st: State, step: Step)
    ensures SameTerms(st, Next(st, step))
  {
    if IsRoomStep(step) {
      RoomKeepsTerms(st, step);
    } else if step.CastCheck? || step.Persist? || step.Record? {
      CastKeepsTerms(st, step);
    } else {
      EndKeepsTerms(st, step);
    }
  }

  lemma NextKeepsOptions(st: State, step: Step)
    requires OptionsInv(st) && CarefulStep(st, step)
    ensures OptionsInv(Next(st, step)) && Next(st, step).options == st.options
  {
    StepKeepsTerms(st, step);
    if step.CreateStored? || step.CreateActive? || step.CreateCheck? {
      CreateKeepsOptions(st, step);
    } else if IsRoomStep(step) {
      DestroyKeepsOptions(st, step);
    } else if step.Persist? {
      if step.c in st.casts && st.casts[step.c].Checked? { PersistKeepsOptions(st, step.c); }
    } else if step.Record? {
      if step.c in st.casts && st.casts[step.c].Persisted? { RecordKeepsOptions(st, step.c); }
    } else if step.Take? || step.Deadline? {
      CloseKeepsOptions(st, step);
    } else if step.Restart? {
      RestartKeepsOptions(st);
    } else if !step.CastCheck? {
      EndKeepsOptions(st, step);
    }
  }

  lemma {:induction false} RunKeepsOptions(st: State, steps: seq<Step>)
    requires OptionsInv(st) && CarefulRun(st, steps)
    ensures OptionsInv(Run(st, steps)) && Run(st, steps).options == st.options
    decreases |steps|
  {
    if steps != [] {
      NextKeepsOptions(st, steps[0]);
      RunKeepsOptions(Next(st, steps[0]), steps[1..]);
    }
  }

  lemma CarefulTallySums(options: nat, creator: string, hasDeadline: bool, members: set<string>, steps: seq<Step>)
    requires CarefulRun(Requested(options, creator, hasDeadline, members), steps)
    ensures forall r :: r in Run(Requested(options, creator, hasDeadline, members), steps).broadcasts ==>
              Sum(Tally(options, r.ballots)) == |r.ballots|
  {
    RunKeepsOptions(Requested(options, creator, hasDeadline, members), steps);
    forall r | r in Run(Requested(options, creator, hasDeadline, members), steps).broadcasts
      ensures Sum(Tally(options, r.ballots)) == |r.ballots|
    {
      TallySumsExactly(options, r.ballots);
    }
  }

  // --- restarts ---

  // A restart leaves the electorate alone exactly when the creator was in it:
  // one who had left the room by the time of the count is admitted.
  lemma RestartKeepsElectorateExactly(st: State)
    requires st.open && st.present && AgentsOf(st.stored) <= st.voters.agents && st.voters.size == |st.voters.agents|
    ensures RestartStep(st).voters == st.voters <==> st.creator in st.voters.agents
  {
    if st.creator in st.voters.agents {
      assert st.voters.agents + {st.creator} + AgentsOf(st.stored) == st.voters.agents;
    } else {
      assert st.creator in RestartStep(st).voters.agents;
    }
  }

  ghost predicate Silent(st: State) {
    !st.open && st.active.None? && st.closing.None? && st.broadcasts == [] && st.creation.Settled?
  }

  // A full vote that a crash catches before it was broadcast is closed by the
  // restart, and its result is never broadcast afterwards.
  lemma {:induction false} SilentVoteStaysSilent(st: State, steps: seq<Step>)
    requires Silent(st)
    ensures Run(st, steps).broadcasts == []
    decreases |steps|
  {
    if steps != [] {
      SilentStep(st, steps[0]);
      SilentVoteStaysSilent(Next(st, steps[0]), steps[1..]);
    }
  }

  lemma SilentStep(st: State, step: Step)
    requires Silent(st)
    ensures Silent(Next(st, step))
  {}

  lemma CrashOfFullVoteIsSilent(st: State, steps: seq<Step>)
    requires VoteInv(st) && st.present && st.active.Some? && st.creator in st.voters.agents
    requires AgentsOf(st.active.value.ballots) == st.voters.agents
    ensures Run(RestartStep(st), steps).broadcasts == []
  {
    assert forall b :: b in st.active.value.ballots ==> b in st.stored;
    assert AgentsOf(st.stored) >= st.voters.agents;
    AgentsAreCounted(st.stored);
    StoredAreEligible(st);
    assert AgentsOf(st.stored) == st.voters.agents && st.voters.agents != {};
    assert st.voters.agents + {st.creator} + AgentsOf(st.stored) == st.voters.agents;
    SilentVoteStaysSilent(RestartStep(st), steps);
  }

  lemma StoredAreEligible(st: State)
    requires VoteInv(st) && st.present && st.active.Some?
    ensures AgentsOf(st.stored) <= st.voters.agents
  {
    forall b | b in st.stored
      ensures b.agent in st.voters.agents
    {
      if b in st.active.value.ballots { assert b.agent in AgentsOf(st.active.value.ballots); }
    }
  }

  // --- where the copies part ---

  lemma {:induction false} RunSnoc(st: State, steps: seq<Step>, step: Step)
    ensures Run(st, steps + [step]) == Next(Run(st, steps), step)
    decreases |steps|
  {
    if steps == [] {
      assert [step][1..] == [];
      assert [] + [step] == [step];
    } else {
      assert (steps + [step])[1..] == steps[1..] + [step];
      RunSnoc(Next(st, steps[0]), steps[1..], step);
    }
  }

  // Reached in one more step.
  lemma Then(start: State, steps: seq<Step>, st: State, step: Step, after: State)
    requires Run(start, steps) == st && Next(st, step) == after
    ensures Run(start, steps + [step]) == after
  {
    RunSnoc(start, steps, step);
  }

  lemma {:induction false} RunConcat(st: State, xs: seq<Step>, ys: seq<Step>)
    ensures Run(st, xs + ys) == Run(Run(st, xs), ys)
    decreases |xs|
  {
    if xs == [] {
      assert xs + ys == ys;
    } else {
      assert (xs + ys)[1..] == xs[1..] + ys;
      RunConcat(Next(st, xs[0]), xs[1..], ys);
    }
  }

  const CREATES := [CreateStored] + [CreateActive] + [CreateCheck]

  // A vote as a creating request leaves it when nothing interferes.
  function Opened(options: nat, creator: string, hasDeadline: bool, members: set<string>): State {
    var voters := Electorate(members, |members|);
    State(options, creator, hasDeadline, voters, true, true, voters, [],
          Some(ActiveVote([], voters)), None, map[], Settled, false, false, [], {})
  }

  lemma CreatesVote(options: nat, creator: string, hasDeadline: bool, members: set<string>)
    ensures Run(Requested(options, creator, hasDeadline, members), CREATES) == Opened(options, creator, hasDeadline, members)
  {
    var st := Requested(options, creator, hasDeadline, members);
    var written := Next(st, CreateStored);
    Then(st, [], st, CreateStored, written);
    assert [] + [CreateStored] == [CreateStored];
    Then(st, [CreateStored], written, CreateActive, Next(written, CreateActive));
    Then(st, [CreateStored] + [CreateActive], Next(written, CreateActive), CreateCheck, Opened(options, creator, hasDeadline, members));
  }

  function Votes1(b: Ballot): seq<Step> {
    [CastCheck(0, b)] + [Persist(0)] + [Record(0)]
  }

  // One ballot stored, and recorded if memory takes it without being full.
  lemma CastsOne(st: State, b: Ballot) returns (after: State)
    requires st.casts == map[] && CheckPasses(st, b) && st.present && st.open && st.stored == []
    requires MemoryTakes(st, b) ==> |st.active.value.ballots| + 1 < st.active.value.voters.size
    ensures after == Run(st, Votes1(b))
    ensures after == if MemoryTakes(st, b)
                     then st.(stored := [b], active := Some(st.active.value.(ballots := st.active.value.ballots + [b])))
                     else st.(stored := [b], refused := st.refused + {b})
  {
    var checked := st.(casts := map[0 := Checked(b)]);
    var persisted := st.(casts := map[0 := Persisted(b)], stored := [b]);
    assert AgentsOf([]) == {};
    Then(st, [], st, CastCheck(0, b), checked);
    assert [] + [CastCheck(0, b)] == [CastCheck(0, b)];
    Then(st, [CastCheck(0, b)], checked, Persist(0), persisted);
    after := Next(persisted, Record(0));
    Then(st, [CastCheck(0, b)] + [Persist(0)], persisted, Record(0), after);
    assert persisted.casts - {0} == map[];
  }

  // A ballot cast between the writing of the tables and the insertion in memory
  // is stored, and memory never has it: the vote can no longer close by ballots.
  lemma EarlyBallotIsNeverRecorded(a: string, b: string, later: seq<Step>)
    requires a != b && forall i :: 0 <= i < |later| ==> !later[i].Restart?
    ensures var start := Requested(2, a, false, {a, b});
            var st := Run(start, [CreateStored] + Votes1(Ballot(b, 0)) + ([CreateActive] + [CreateCheck]));
            && st.casts == map[] && st.present && st.active.Some? && st.stored == [Ballot(b, 0)] && Memory(st) == []
            && Run(st, later).broadcasts == []
  {
    var start := Requested(2, a, false, {a, b});
    var x := Ballot(b, 0);
    var written := Next(start, CreateStored);
    Then(start, [], start, CreateStored, written);
    assert [] + [CreateStored] == [CreateStored];
    var early := CastsOne(written, x);
    RunConcat(start, [CreateStored], Votes1(x));
    var st := InsertsLate(early);
    RunConcat(start, [CreateStored] + Votes1(x), [CreateActive] + [CreateCheck]);
    RequestIsSound(2, a, false, {a, b});
    RunKeepsSound(start, [CreateStored] + Votes1(x) + ([CreateActive] + [CreateCheck]));
    assert AgentsOf([]) == {};
    RefusedVoteNeedsDeadline(st, later, x);
    KeepsDeadline(st, later);
    if Run(st, later).broadcasts != [] { SomeMember(Run(st, later).broadcasts); }
  }

  lemma InsertsLate(st: State) returns (after: State)
    requires st.creation.TableWritten? && !st.destroyed
    ensures after == Run(st, [CreateActive] + [CreateCheck])
    ensures after == st.(active := Some(ActiveVote([], st.members)), creation := Settled)
  {
    var inserted := Next(st, CreateActive);
    after := Next(inserted, CreateCheck);
    Then(st, [], st, CreateActive, inserted);
    assert [] + [CreateActive] == [CreateActive];
    Then(st, [CreateActive], inserted, CreateCheck, after);
  }

  lemma {:induction false} KeepsDeadline(st: State, steps: seq<Step>)
    ensures Run(st, steps).hasDeadline == st.hasDeadline
    decreases |steps|
  {
    if steps != [] {
      StepKeepsTerms(st, steps[0]);
      KeepsDeadline(Next(st, steps[0]), steps[1..]);
    }
  }

  const DEADLINE_CLOSES := [Deadline] + [CloseStored] + [Broadcast]

  lemma DeadlineBroadcasts(st: State) returns (after: State)
    requires st.hasDeadline && st.active.Some? && st.closing.None? && st.broadcasts == []
    ensures after == Run(st, DEADLINE_CLOSES)
    ensures |after.broadcasts| == 1 && after.broadcasts[0].ballots == st.active.value.ballots
    ensures after.stored == st.stored && after.destroyed == st.destroyed
  {
    var taken := Next(st, Deadline);
    var closed := Next(taken, CloseStored);
    after := Next(closed, Broadcast);
    Then(st, [], st, Deadline, taken);
    assert [] + [Deadline] == [Deadline];
    Then(st, [Deadline], taken, CloseStored, closed);
    Then(st, [Deadline] + [CloseStored], closed, Broadcast, after);
  }

  // Destroying the room deletes the ballots first: a deadline before memory is
  // cleared still broadcasts a result of which nothing is stored.
  lemma DestroyedVoteIsBroadcast(a: string, b: string)
    requires a != b
    ensures var st := Run(Requested(2, a, true, {a, b}), CREATES + (Votes1(Ballot(a, 0)) + ([DestroyStored] + DEADLINE_CLOSES)));
            st.destroyed && st.stored == [] && |st.broadcasts| == 1 && st.broadcasts[0].ballots == [Ballot(a, 0)]
  {
    var x := Ballot(a, 0);
    var open := Opened(2, a, true, {a, b});
    CreatesVote(2, a, true, {a, b});
    assert AgentsOf([]) == {};
    var voted := CastsOne(open, x);
    var gone := Next(voted, DestroyStored);
    Then(voted, [], voted, DestroyStored, gone);
    assert [] + [DestroyStored] == [DestroyStored];
    var st := DeadlineBroadcasts(gone);
    RunConcat(voted, [DestroyStored], DEADLINE_CLOSES);
    RunConcat(open, Votes1(x), [DestroyStored] + DEADLINE_CLOSES);
    RunConcat(Requested(2, a, true, {a, b}), CREATES, Votes1(x) + ([DestroyStored] + DEADLINE_CLOSES));
  }

  // A deadline may take the vote, a late cast store an unknown option, and a
  // restart before the vote is closed bring it back with that ballot.
  lemma LateBallotIsNotTallied(a: string, b: string)
    requires a != b
    ensures var st := Run(Requested(2, a, true, {a, b}), CREATES + ([Deadline] + Votes1(Ballot(b, 7)) + ([Restart] + DEADLINE_CLOSES)));
            |st.broadcasts| == 1 && |st.broadcasts[0].ballots| == 1 && Sum(Tally(2, st.broadcasts[0].ballots)) == 0
  {
    var x := Ballot(b, 7);
    var open := Opened(2, a, true, {a, b});
    CreatesVote(2, a, true, {a, b});
    var late := CastsLate(a, b);
    var back := Reloads(late, a, b);
    var st := DeadlineBroadcasts(back);
    RunConcat(late, [Restart], DEADLINE_CLOSES);
    RunConcat(open, [Deadline] + Votes1(x), [Restart] + DEADLINE_CLOSES);
    RunConcat(Requested(2, a, true, {a, b}), CREATES, [Deadline] + Votes1(x) + ([Restart] + DEADLINE_CLOSES));
    TallySumsExactly(2, [x]);
    assert x in [x];
  }

  lemma CastsLate(a: string, b: string) returns (late: State)
    requires a != b
    ensures late == Run(Opened(2, a, true, {a, b}), [Deadline] + Votes1(Ballot(b, 7)))
    ensures late.open && late.present && late.creator == a && late.voters == Electorate({a, b}, 2) && late.hasDeadline
    ensures late.stored == [Ballot(b, 7)]
  {
    var open := Opened(2, a, true, {a, b});
    var taken := Next(open, Deadline);
    Then(open, [], open, Deadline, taken);
    assert [] + [Deadline] == [Deadline];
    late := CastsOne(taken, Ballot(b, 7));
    RunConcat(open, [Deadline], Votes1(Ballot(b, 7)));
  }

  lemma Reloads(st: State, a: string, b: string) returns (back: State)
    requires a != b && st.open && st.present && st.creator == a && st.voters == Electorate({a, b}, 2)
    requires st.stored == [Ballot(b, 7)]
    ensures back == Run(st, [Restart]) && back.active.Some? && back.active.value.ballots == st.stored
    ensures back.closing.None? && back.broadcasts == [] && back.hasDeadline == st.hasDeadline
  {
    back := Next(st, Restart);
    Then(st, [], st, Restart, back);
    assert [] + [Restart] == [Restart];
    assert AgentsOf(st.stored) == {b};
    assert st.voters.agents + {a} + {b} == {a, b};
  }
}
