// The vote tables and the map of active votes, changed in place as the handlers
// do, each method taking one step of the protocol for its vote.
module VoteStore {
  import opened Options
  import opened Tallies
  import opened Votes

  datatype VoteRow = VoteRow(
    room: string, options: nat, creator: string, hasDeadline: bool, open: bool, voters: Electorate, ballots: seq<Ballot>)

  // What memory keeps of a vote, its room and options included.
  datatype Entry = Entry(room: string, options: nat, vote: ActiveVote)

  datatype StoreResult = Stored | VoteNotFound | VoteClosed | AlreadyVoted

  datatype RecordResult = Recorded(cast: nat, eligible: nat, full: bool) | Missing | InvalidOption | AccessDenied | Repeated

  class VoteManager {
    var votes: map<string, VoteRow>
    var activeVotes: map<string, Entry>

    constructor ()
      ensures votes == map[] && activeVotes == map[]
    {
      votes, activeVotes := map[], map[];
    }

    // The tables hold this vote as the protocol state has it.
    ghost predicate ShowsRow(id: string, st: State)
      reads this
    {
      && (id in votes <==> st.present)
      && (id in votes ==> votes[id] == VoteRow(votes[id].room, st.options, st.creator, st.hasDeadline, st.open, st.voters, st.stored))
      && (!st.present ==> !st.open && st.stored == [] && st.voters == NOBODY)
    }

    // And memory too.
    ghost predicate Shows(id: string, st: State)
      reads this
    {
      && ShowsRow(id, st)
      && (id in activeVotes <==> st.active.Some?)
      && (id in activeVotes ==> activeVotes[id] == Entry(activeVotes[id].room, st.options, st.active.value))
    }

    ghost predicate OthersKept(id: string, rows: map<string, VoteRow>, active: map<string, Entry>)
      reads this
    {
      && (forall o :: o != id ==> (o in votes <==> o in rows) && (o in rows ==> votes[o] == rows[o]))
      && (forall o :: o != id ==> (o in activeVotes <==> o in active) && (o in active ==> activeVotes[o] == active[o]))
    }

    method WriteVote(id: string, room: string, options: nat, creator: string, hasDeadline: bool, members: set<string>)
      returns (stored: bool)
      modifies this`votes
      ensures stored == (id !in old(votes)) && (!stored ==> votes == old(votes))
      ensures forall st :: stored && old(Shows(id, st)) && st.creation.NotYet? && st.options == options && st.creator == creator
                           && st.hasDeadline == hasDeadline && st.members == Electorate(members, |members|) ==>
                Shows(id, Next(st, CreateStored))
      ensures id in votes && (stored ==> votes[id].room == room) && OthersKept(id, old(votes), old(activeVotes))
    {
      stored := id !in votes;
      if !stored {
        return;
      }
      votes := votes[id := VoteRow(room, options, creator, hasDeadline, true, Electorate(members, |members|), [])];
    }

    method InsertActive(id: string, room: string, options: nat, members: set<string>)
      modifies this`activeVotes
      ensures forall st :: old(Shows(id, st)) && st.creation.TableWritten? && st.options == options
                           && st.members == Electorate(members, |members|) ==>
                Shows(id, Next(st, CreateActive))
      ensures id in activeVotes && activeVotes[id].room == room && OthersKept(id, old(votes), old(activeVotes))
    {
      activeVotes := activeVotes[id := Entry(room, options, ActiveVote([], Electorate(members, |members|)))];
    }

    method PersistBallot(id: string, b: Ballot) returns (r: StoreResult)
      modifies this`votes
      ensures r == if id !in old(votes) then VoteNotFound
                   else if !old(votes)[id].open then VoteClosed
                   else if b.agent in AgentsOf(old(votes)[id].ballots) then AlreadyVoted
                   else Stored
      ensures forall st, c :: old(Shows(id, st)) && c in st.casts && st.casts[c] == Checked(b) ==>
                Shows(id, PersistStep(st, c)) && (r.Stored? <==> c in PersistStep(st, c).casts)
      ensures OthersKept(id, old(votes), old(activeVotes))
    {
      if id !in votes {
        return VoteNotFound;
      }
      var row := votes[id];
      if !row.open {
        return VoteClosed;
      }
      if b.agent in AgentsOf(row.ballots) {
        return AlreadyVoted;
      }
      votes := votes[id := row.(ballots := row.ballots + [b])];
      r := Stored;
    }

    method RecordBallot(id: string, b: Ballot) returns (r: RecordResult)
      modifies this`activeVotes
      ensures r.Missing? <==> id !in old(activeVotes)
      ensures r.InvalidOption? <==> id in old(activeVotes) && b.option >= old(activeVotes)[id].options
      ensures r.Recorded? ==> id in activeVotes && r.cast == |activeVotes[id].vote.ballots|
                              && r.eligible == activeVotes[id].vote.voters.size
      ensures forall st, c :: old(Shows(id, st)) && c in st.casts && st.casts[c] == Persisted(b) ==>
                && Shows(id, RecordStep(st, c)) && (r.Recorded? <==> MemoryTakes(st, b))
                && ((r.Recorded? && r.full) <==> c in RecordStep(st, c).casts)
      ensures OthersKept(id, old(votes), old(activeVotes))
    {
      if id !in activeVotes {
        return Missing;
      }
      var entry := activeVotes[id];
      if b.option >= entry.options {
        return InvalidOption;
      }
      if b.agent !in entry.vote.voters.agents {
        return AccessDenied;
      }
      if b.agent in AgentsOf(entry.vote.ballots) {
        return Repeated;
      }
      var ballots := entry.vote.ballots + [b];
      activeVotes := activeVotes[id := entry.(vote := entry.vote.(ballots := ballots))];
      r := Recorded(|ballots|, entry.vote.voters.size, |ballots| >= entry.vote.voters.size);
    }

    // Whoever takes the vote out of memory closes it; nobody else can.
    method TakeVote(id: string) returns (taken: Option<ActiveVote>)
      modifies this`activeVotes
      ensures id !in activeVotes
      ensures forall st: State :: old(Shows(id, st)) ==> taken == st.active
      ensures forall st: State, byDeadline: bool :: old(Shows(id, st)) ==> Shows(id, Close(st, byDeadline))
      ensures OthersKept(id, old(votes), old(activeVotes))
    {
      taken := if id in activeVotes then Some(activeVotes[id].vote) else None;
      activeVotes := activeVotes - {id};
      forall st, byDeadline | old(Shows(id, st))
        ensures taken == st.active && Shows(id, Close(st, byDeadline))
      {
        assert taken == st.active;
        assert ShowsRow(id, Close(st, byDeadline));
      }
    }

    method CloseVote(id: string)
      modifies this`votes
      ensures forall st :: old(Shows(id, st)) && st.closing.Some? ==> Shows(id, Next(st, CloseStored))
      ensures OthersKept(id, old(votes), old(activeVotes))
    {
      if id in votes {
        votes := votes[id := votes[id].(open := false)];
      }
    }

    // The vote rows of a room, deleted with it.
    method DeleteVotesOf(room: string)
      modifies this`votes
      ensures forall id :: id in votes <==> id in old(votes) && old(votes)[id].room != room
      ensures forall id :: id in votes ==> votes[id] == old(votes)[id]
      ensures forall id, st :: id in old(votes) && old(votes)[id].room == room && old(Shows(id, st))
                               && !st.creation.NotYet? && !st.destroyed ==>
                Shows(id, Next(st, DestroyStored))
    {
      votes := map id | id in votes && votes[id].room != room :: votes[id];
    }

    // Forgets the active votes of a room, whatever the tables still hold.
    method ForgetRoom(room: string)
      modifies this`activeVotes
      ensures forall id :: id in activeVotes <==> id in old(activeVotes) && old(activeVotes)[id].room != room
      ensures forall id :: id in activeVotes ==> activeVotes[id] == old(activeVotes)[id]
      ensures forall id, st :: id in old(activeVotes) && old(activeVotes)[id].room == room && old(Shows(id, st)) && st.forgetting ==>
                Shows(id, Next(st, DestroyForget))
    {
      activeVotes := map id | id in activeVotes && activeVotes[id].room != room :: activeVotes[id];
    }

    method RestartVote(id: string)
      requires id in votes && id !in activeVotes
      modifies this
      ensures votes.Keys == old(votes.Keys)
      ensures forall st :: old(ShowsRow(id, st)) ==> Shows(id, RestartStep(st))
      ensures OthersKept(id, old(votes), old(activeVotes))
    {
      var row := votes[id];
      if row.open {
        var agents := row.voters.agents + {row.creator} + AgentsOf(row.ballots);
        var voters := Electorate(agents, |agents|);
        var finished := voters.size > 0 && |row.ballots| >= voters.size;
        votes := votes[id := row.(voters := voters, open := !finished)];
        if !finished {
          activeVotes := activeVotes[id := Entry(row.room, row.options, ActiveVote(row.ballots, voters))];
        }
      }
    }

    // A new server on the same database: memory is empty, every vote is fixed up
    // and, if still open, reloaded; only what was stored matters.
    method Reload()
      modifies this
      ensures forall id, st :: id in votes && old(ShowsRow(id, st)) ==> Shows(id, RestartStep(st))
      ensures votes.Keys == old(votes.Keys) && activeVotes.Keys <= votes.Keys
    {
      activeVotes := map[];
      var todo := votes.Keys;
      while todo != {}
        invariant todo <= votes.Keys == old(votes.Keys) && activeVotes.Keys <= votes.Keys - todo
        invariant forall id :: id in todo ==> votes[id] == old(votes)[id]
        invariant forall id, st :: id in votes && id !in todo && old(ShowsRow(id, st)) ==> Shows(id, RestartStep(st))
        decreases todo
      {
        var id := AnyOf(todo);
        RestartVote(id);
        todo := todo - {id};
      }
    }
  }
}
