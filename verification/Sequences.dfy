// The per-room sequence allocator: a durable high-water mark beside the retained
// messages, shared with older binaries that choose sequence numbers themselves.
module Sequences {
  import opened Options

  datatype Metadata = Metadata(
    metaType: Option<string>, kind: Option<string>, target: Option<string>, source: Option<string>, eventId: Option<string>)

  datatype Content = Content(messageId: string, agentId: string, agentName: string, meta: Metadata)

  datatype Message = Message(seqNo: int, content: Content)

  // `rows` holds the retained messages in the order they were committed.
  datatype Room = Room(highWater: int, rows: seq<Message>)

  predicate Ascending(rows: seq<Message>) {
    forall i, j :: 0 <= i < j < |rows| ==> rows[i].seqNo < rows[j].seqNo
  }

  function Committed(room: Room, c: Content): Room {
    Room(room.highWater + 1, room.rows + [Message(room.highWater + 1, c)])
  }

  // An older binary names the sequence number itself; the trigger aborts it at or
  // below the mark.
  function OlderCommitted(room: Room, m: Message): Room {
    if m.seqNo <= room.highWater then room else Room(m.seqNo, room.rows + [m])
  }

  function Within(kept: set<int>): Message -> bool {
    (m: Message) => m.seqNo in kept
  }

  function NewerThan(cursor: int): Message -> bool {
    (m: Message) => m.seqNo > cursor
  }

  function Purged(room: Room, kept: set<int>): Room {
    room.(rows := Filter(Within(kept), room.rows))
  }

  function Greatest(rows: seq<Message>, floor: int): (g: int)
    ensures floor <= g && forall m :: m in rows ==> m.seqNo <= g
    ensures g == floor || exists m :: m in rows && m.seqNo == g
  {
    if rows == [] then floor
    else
      var g := Greatest(rows[1..], floor);
      assert forall m :: m in rows ==> m == rows[0] || m in rows[1..];
      if rows[0].seqNo > g then (assert rows[0] in rows; rows[0].seqNo) else g
  }

  // Opening the database raises the mark to the retained messages.
  function Reopened(room: Room): Room {
    room.(highWater := Greatest(room.rows, if room.highWater > 0 then room.highWater else 0))
  }

  function Min(a: nat, b: nat): nat {
    if a <= b then a else b
  }

  function After(rows: seq<Message>, cursor: int): seq<Message> {
    Filter(NewerThan(cursor), rows)
  }

  // What a history query with `since_seq` returns.
  function Since(rows: seq<Message>, cursor: int, limit: nat): seq<Message> {
    After(rows, cursor)[..Min(limit, |After(rows, cursor)|)]
  }

  datatype Step =
    | Insert(content: Content)
    | OlderInsert(m: Message)
    | Purge(kept: set<int>)
    | Reopen

  // A room with the history of everything ever committed to it.
  datatype State = State(room: Room, history: seq<Message>)

  function Next(st: State, step: Step): State {
    match step
    case Insert(c) => State(Committed(st.room, c), st.history + [Message(st.room.highWater + 1, c)])
    case OlderInsert(m) =>
      State(OlderCommitted(st.room, m), if m.seqNo <= st.room.highWater then st.history else st.history + [m])
    case Purge(kept) => State(Purged(st.room, kept), st.history)
    case Reopen => State(Reopened(st.room), st.history)
  }

  function Run(st: State, steps: seq<Step>): State
    decreases |steps|
  {
    if steps == [] then st else Run(Next(st, steps[0]), steps[1..])
  }

  // A new room, or one of an older database opened for the first time.
  function Opened(rows: seq<Message>): State {
    State(Reopened(Room(0, rows)), rows)
  }

  lemma {:induction false} FilterAscending(keep: Message -> bool, rows: seq<Message>)
    requires Ascending(rows)
    ensures Ascending(Filter(keep, rows))
  {
    if rows != [] {
      FilterAscending(keep, rows[1..]);
      forall m | m in Filter(keep, rows[1..])
        ensures rows[0].seqNo < m.seqNo
      {
        assert m in rows[1..];
      }
    }
  }

  ghost predicate MarkInv(st: State) {
    && Ascending(st.history) && Ascending(st.room.rows)
    && (forall m :: m in st.room.rows ==> m in st.history)
    && st.room.highWater == Greatest(st.history, 0)
  }

  lemma {:induction false} GreatestSnoc(rows: seq<Message>, floor: int, m: Message)
    requires m.seqNo > Greatest(rows, floor)
    ensures Greatest(rows + [m], floor) == m.seqNo
  {
    if rows != [] {
      assert (rows + [m])[1..] == rows[1..] + [m];
      GreatestSnoc(rows[1..], floor, m);
    }
  }

  lemma AppendKeepsMark(st: State, m: Message)
    requires MarkInv(st) && m.seqNo > st.room.highWater
    ensures MarkInv(State(Room(m.seqNo, st.room.rows + [m]), st.history + [m]))
  {
    GreatestSnoc(st.history, 0, m);
  }

  lemma InsertKeepsMark(st: State, c: Content)
    requires MarkInv(st)
    ensures MarkInv(Next(st, Insert(c)))
  {
    AppendKeepsMark(st, Message(st.room.highWater + 1, c));
  }

  lemma OlderInsertKeepsMark(st: State, m: Message)
    requires MarkInv(st)
    ensures MarkInv(Next(st, OlderInsert(m)))
  {
    if m.seqNo > st.room.highWater { AppendKeepsMark(st, m); }
  }

  lemma PurgeKeepsMark(st: State, kept: set<int>)
    requires MarkInv(st)
    ensures MarkInv(Next(st, Purge(kept)))
  {
    FilterAscending(Within(kept), st.room.rows);
  }

  lemma ReopenKeepsMark(st: State)
    requires MarkInv(st)
    ensures MarkInv(Next(st, Reopen))
  {}

  lemma NextKeepsMark(st: State, step: Step)
    requires MarkInv(st)
    ensures MarkInv(Next(st, step))
  {
    match step {
      case Insert(c) => InsertKeepsMark(st, c);
      case OlderInsert(m) => OlderInsertKeepsMark(st, m);
      case Purge(kept) => PurgeKeepsMark(st, kept);
      case Reopen => ReopenKeepsMark(st);
    }
  }

  lemma {:induction false} RunKeepsMark(st: State, steps: seq<Step>)
    requires MarkInv(st)
    ensures MarkInv(Run(st, steps))
    decreases |steps|
  {
    if steps != [] {
      NextKeepsMark(st, steps[0]);
      RunKeepsMark(Next(st, steps[0]), steps[1..]);
    }
  }

  // Over every run: everything ever committed is strictly increasing in commit
  // order, hence distinct, and the tip is the greatest number ever assigned.
  lemma SequencesNeverRepeat(rows: seq<Message>, steps: seq<Step>)
    requires Ascending(rows)
    ensures var st := Run(Opened(rows), steps);
            && Ascending(st.history)
            && (forall m :: m in st.history ==> m.seqNo <= st.room.highWater)
            && (st.room.highWater > 0 ==> exists m :: m in st.history && m.seqNo == st.room.highWater)
  {
    RunKeepsMark(Opened(rows), steps);
  }

  // --- what is retained ---

  // The message that the step commits in this state, if it commits one: an insert
  // one number above everything before, an older binary's only if it is above.
  predicate Commits(st: State, step: Step, m: Message) {
    match step
    case Insert(c) => m.seqNo == st.room.highWater + 1 && m.content == c
    case OlderInsert(older) => m == older && m.seqNo > st.room.highWater
    case _ => false
  }

  // Exactly what was there at first, or committed by one of the steps.
  ghost predicate EverCommitted(rows: seq<Message>, steps: seq<Step>, m: Message) {
    m in rows || exists i :: 0 <= i < |steps| && Commits(Run(Opened(rows), steps[..i]), steps[i], m)
  }

  // No purge after the message was committed dropped it.
  ghost predicate NeverPurged(rows: seq<Message>, steps: seq<Step>, m: Message) {
    forall i :: 0 <= i < |steps| && steps[i].Purge? && EverCommitted(rows, steps[..i], m) ==> m.seqNo in steps[i].kept
  }

  lemma EverCommittedSnoc(rows: seq<Message>, steps: seq<Step>, step: Step, m: Message)
    ensures EverCommitted(rows, steps + [step], m) <==>
              EverCommitted(rows, steps, m) || Commits(Run(Opened(rows), steps), step, m)
  {
    var all := steps + [step];
    assert all[..|steps|] == steps;
    forall i | 0 <= i < |steps|
      ensures all[..i] == steps[..i] && all[i] == steps[i]
    {}
    if i :| 0 <= i < |steps| && Commits(Run(Opened(rows), steps[..i]), steps[i], m) {
      assert Commits(Run(Opened(rows), all[..i]), all[i], m);
    }
    if Commits(Run(Opened(rows), steps), step, m) {
      assert Commits(Run(Opened(rows), all[..|steps|]), all[|steps|], m);
    }
  }

  lemma NeverPurgedSnoc(rows: seq<Message>, steps: seq<Step>, step: Step, m: Message)
    ensures NeverPurged(rows, steps + [step], m) <==>
              NeverPurged(rows, steps, m) && (step.Purge? && EverCommitted(rows, steps, m) ==> m.seqNo in step.kept)
  {
    var all := steps + [step];
    assert all[..|steps|] == steps;
    forall i | 0 <= i < |steps|
      ensures all[..i] == steps[..i] && all[i] == steps[i]
    {}
    if NeverPurged(rows, all, m) {
      forall i | 0 <= i < |steps| && steps[i].Purge? && EverCommitted(rows, steps[..i], m)
        ensures m.seqNo in steps[i].kept
      {
        assert EverCommitted(rows, all[..i], m);
      }
    }
  }

  lemma {:induction false} RunSnoc(st: State, steps: seq<Step>, step: Step)
    ensures Run(st, steps + [step]) == Next(Run(st, steps), step)
    decreases |steps|
  {
    if steps == [] {
      assert [step][1..] == [];
    } else {
      assert (steps + [step])[1..] == steps[1..] + [step];
      RunSnoc(Next(st, steps[0]), steps[1..], step);
    }
  }

  // A message not committed yet lies above the mark.
  lemma CommitsAbove(st: State, step: Step, m: Message)
    requires MarkInv(st) && Commits(st, step, m)
    ensures m !in st.history && m !in st.room.rows
  {
    assert m.seqNo > st.room.highWater;
  }

  lemma StepRetains(st: State, step: Step, m: Message)
    ensures m in Next(st, step).room.rows <==>
              (m in st.room.rows && (step.Purge? ==> m.seqNo in step.kept)) || Commits(st, step, m)
    ensures m in Next(st, step).history <==> m in st.history || Commits(st, step, m)
  {}

  // Over every run, the history is exactly what was there at first and what was
  // committed since, and the room retains exactly those messages of it that every
  // later purge was to keep.
  lemma {:induction false} RetainedExactly(rows: seq<Message>, steps: seq<Step>, m: Message)
    requires Ascending(rows)
    ensures var st := Run(Opened(rows), steps);
            && (m in st.history <==> EverCommitted(rows, steps, m))
            && (m in st.room.rows <==> EverCommitted(rows, steps, m) && NeverPurged(rows, steps, m))
    decreases |steps|
  {
    if steps != [] {
      var init, step := steps[..|steps| - 1], steps[|steps| - 1];
      var st := Run(Opened(rows), init);
      assert steps == init + [step];
      RetainedExactly(rows, init, m);
      RunSnoc(Opened(rows), init, step);
      EverCommittedSnoc(rows, init, step, m);
      NeverPurgedSnoc(rows, init, step, m);
      StepRetains(st, step, m);
      RunKeepsMark(Opened(rows), init);
      if Commits(st, step, m) {
        CommitsAbove(st, step, m);
        NewIsUnpurged(rows, init, m);
      }
    }
  }

  // What was never committed was never purged.
  lemma NewIsUnpurged(rows: seq<Message>, steps: seq<Step>, m: Message)
    requires !EverCommitted(rows, steps, m)
    ensures NeverPurged(rows, steps, m)
  {
    forall i | 0 <= i < |steps|
      ensures !EverCommitted(rows, steps[..i], m)
    {
      CommittedLater(rows, steps, i, m);
    }
  }

  lemma CommittedLater(rows: seq<Message>, steps: seq<Step>, i: nat, m: Message)
    requires i <= |steps|
    ensures EverCommitted(rows, steps[..i], m) ==> EverCommitted(rows, steps, m)
  {
    if j :| 0 <= j < i && Commits(Run(Opened(rows), steps[..i][..j]), steps[..i][j], m) {
      assert steps[..i][..j] == steps[..j] && steps[..i][j] == steps[j];
      assert Commits(Run(Opened(rows), steps[..j]), steps[j], m);
    }
  }

  // In particular a message just inserted is returned by a query from any earlier
  // cursor, after everything that query would have returned before.
  lemma InsertedIsReturned(rows: seq<Message>, steps: seq<Step>, c: Content, cursor: int, limit: nat)
    requires Ascending(rows) && cursor <= Run(Opened(rows), steps).room.highWater
    ensures var before := Run(Opened(rows), steps).room;
            var after := Run(Opened(rows), steps + [Insert(c)]).room;
            Since(after.rows, cursor, limit + 1) ==
              Since(before.rows, cursor, limit + 1) +
              if |Since(before.rows, cursor, limit + 1)| <= limit then [Message(before.highWater + 1, c)] else []
  {
    var st := Run(Opened(rows), steps);
    RunSnoc(Opened(rows), steps, Insert(c));
    SinceAppended(st.room.rows, Message(st.room.highWater + 1, c), cursor, limit);
  }

  lemma SinceAppended(rows: seq<Message>, m: Message, cursor: int, limit: nat)
    requires m.seqNo > cursor
    ensures Since(rows + [m], cursor, limit + 1) ==
              Since(rows, cursor, limit + 1) + if |Since(rows, cursor, limit + 1)| <= limit then [m] else []
  {
    FilterConcat(NewerThan(cursor), rows, [m]);
    assert [m][1..] == [] && Filter(NewerThan(cursor), [m]) == [m];
  }

  // A query returns exactly the retained messages committed after the cursor, in
  // commit order, up to the limit.
  lemma SinceIsExact(rows: seq<Message>, steps: seq<Step>, cursor: int, limit: nat)
    requires Ascending(rows)
    ensures var st := Run(Opened(rows), steps);
            var page := Since(st.room.rows, cursor, limit);
            && Ascending(page) && |page| <= limit
            && (forall m :: m in page ==> m in st.room.rows && m.seqNo > cursor)
            && (forall m :: m in st.room.rows && m.seqNo > cursor && m !in page ==>
                  |page| == limit && forall p :: p in page ==> p.seqNo < m.seqNo)
  {
    RunKeepsMark(Opened(rows), steps);
    SinceIsFirst(Run(Opened(rows), steps).room.rows, cursor, limit);
  }

  lemma SinceIsFirst(rows: seq<Message>, cursor: int, limit: nat)
    requires Ascending(rows)
    ensures var page := Since(rows, cursor, limit);
            && Ascending(page) && |page| <= limit
            && (forall m :: m in page ==> m in rows && m.seqNo > cursor)
            && (forall m :: m in rows && m.seqNo > cursor && m !in page ==>
                  |page| == limit && forall p :: p in page ==> p.seqNo < m.seqNo)
  {
    var all := After(rows, cursor);
    FilterAscending(NewerThan(cursor), rows);
    var page := Since(rows, cursor, limit);
    forall m | m in page
      ensures m in rows && m.seqNo > cursor
    {
      assert m in all;
    }
    forall m | m in rows && m.seqNo > cursor && m !in page
      ensures |page| == limit && forall p :: p in page ==> p.seqNo < m.seqNo
    {
      assert m in all;
      var k :| 0 <= k < |all| && all[k] == m;
      assert page == all[..|page|] && m !in all[..|page|];
    }
  }

  // --- how a room looks to a reader that comes back ---

  // Later, messages may be gone, and new ones are above the earlier mark.
  ghost predicate Evolves(before: Room, after: Room) {
    && before.highWater <= after.highWater
    && (forall m :: m in after.rows ==> m in before.rows || m.seqNo > before.highWater)
  }

  ghost predicate Readable(room: Room) {
    Ascending(room.rows) && forall m :: m in room.rows ==> m.seqNo <= room.highWater
  }

  lemma {:induction false} RoomsEvolve(st: State, steps: seq<Step>)
    requires MarkInv(st)
    ensures Readable(Run(st, steps).room) && Evolves(st.room, Run(st, steps).room)
    decreases |steps|
  {
    if steps != [] {
      var next := Next(st, steps[0]);
      NextKeepsMark(st, steps[0]);
      StepEvolves(st, steps[0]);
      RoomsEvolve(next, steps[1..]);
      EvolvesTransitive(st.room, next.room, Run(next, steps[1..]).room);
    }
  }

  lemma StepEvolves(st: State, step: Step)
    requires MarkInv(st)
    ensures Evolves(st.room, Next(st, step).room)
  {}

  lemma EvolvesTransitive(a: Room, b: Room, c: Room)
    requires Evolves(a, b) && Evolves(b, c)
    ensures Evolves(a, c)
  {}

  class MessageStore {
    var marks: map<string, int>
    var messages: map<string, seq<Message>>

    constructor ()
      ensures marks == map[] && messages == map[]
    {
      marks, messages := map[], map[];
    }

    ghost function View(room: string): Room
      reads this
    {
      Room(if room in marks then marks[room] else 0, if room in messages then messages[room] else [])
    }

    method InsertMessage(room: string, c: Content) returns (stored: Message)
      modifies this
      ensures stored == Message(old(View(room)).highWater + 1, c)
      ensures View(room) == Committed(old(View(room)), c)
      ensures View(room).rows == old(View(room)).rows + [stored] && View(room).highWater == stored.seqNo
      ensures forall r :: r != room ==> View(r) == old(View(r))
    {
      var mark := if room in marks then marks[room] else 0;
      stored := Message(mark + 1, c);
      messages := messages[room := (if room in messages then messages[room] else []) + [stored]];
      marks := marks[room := stored.seqNo];
    }

    // An insert by a binary that knows nothing of the mark.
    method InsertRow(room: string, m: Message) returns (ok: bool)
      modifies this
      ensures ok == (m.seqNo > old(View(room)).highWater)
      ensures View(room) == OlderCommitted(old(View(room)), m)
      ensures View(room) == if ok then Room(m.seqNo, old(View(room)).rows + [m]) else old(View(room))
      ensures forall r :: r != room ==> View(r) == old(View(r))
    {
      ok := m.seqNo > (if room in marks then marks[room] else 0);
      if ok {
        messages := messages[room := (if room in messages then messages[room] else []) + [m]];
        marks := marks[room := m.seqNo];
      }
    }

    method RoomTip(room: string) returns (tip: int)
      ensures tip == View(room).highWater
    {
      tip := if room in marks then marks[room] else 0;
    }

    method PurgeRoom(room: string, kept: set<int>)
      modifies this`messages
      ensures View(room) == Purged(old(View(room)), kept)
      ensures forall m :: m in View(room).rows <==> m in old(View(room)).rows && m.seqNo in kept
      ensures forall r :: r != room ==> View(r) == old(View(r))
    {
      if room in messages {
        messages := messages[room := Filter(Within(kept), messages[room])];
      }
    }

    method ReopenRoom(room: string)
      modifies this`marks
      ensures View(room) == Reopened(old(View(room)))
      ensures forall r :: r != room ==> View(r) == old(View(r))
    {
      var mark := if room in marks && marks[room] > 0 then marks[room] else 0;
      marks := marks[room := Greatest(if room in messages then messages[room] else [], mark)];
    }

    // The seeding statement, one room at a time.
    method Reopen()
      modifies this`marks
      ensures forall r :: View(r) == Reopened(old(View(r)))
    {
      var rooms := marks.Keys + messages.Keys;
      while rooms != {}
        invariant forall r :: r !in rooms ==> View(r) == Reopened(old(View(r)))
        invariant forall r :: r in rooms ==> View(r) == old(View(r))
        decreases rooms
      {
        var room := AnyOf(rooms);
        ReopenRoom(room);
        rooms := rooms - {room};
      }
    }

    method GetHistorySince(room: string, limit: nat, cursor: int) returns (page: seq<Message>)
      ensures page == Since(View(room).rows, cursor, limit)
    {
      var rows := if room in messages then messages[room] else [];
      page := [];
      var k := 0;
      while k < |rows| && |page| < limit
        invariant 0 <= k <= |rows| && |page| <= limit
        invariant page == After(rows[..k], cursor)
      {
        FilterConcat(NewerThan(cursor), rows[..k], [rows[k]]);
        assert rows[..k + 1] == rows[..k] + [rows[k]];
        if rows[k].seqNo > cursor {
          page := page + [rows[k]];
        }
        k := k + 1;
      }
      FilterConcat(NewerThan(cursor), rows[..k], rows[k..]);
      assert rows == rows[..k] + rows[k..];
      assert After(rows, cursor) == page + After(rows[k..], cursor);
    }
  }
}
