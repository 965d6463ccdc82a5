// The durable wake bridge of one target: wake, read and acknowledge calls in
// progress side by side, each step a store transaction or a remote call, with
// crashes between any two of them.
module WakeBridge {
  import opened Options
  import opened WakeStore

  type CallId = nat

  datatype Call =
    | Searching(key: EventKey, rank: int)             // reserved, room log to be searched
    | MustSend(key: EventKey, rank: int)              // search found nothing
    | Found(key: EventKey, rank: int, seqNo: int)     // in the room, to be recorded
    | Delivered(key: EventKey, rank: int, seqNo: int) // recorded, wake to be attempted
    | Acked                                           // acknowledged, pending events to be looked up
    | FollowUp(observed: int)                         // pending event found, wake to be attempted
    | Waking(claim: nat)                              // that claim taken, remote wake in progress
    | Reading(page: set<int>, highest: int)           // page fetched, read to be recorded

  // A successful claim; the epoch counts releases and acknowledgements.
  datatype ClaimRecord = ClaimRecord(time: int, epoch: nat)

  // `log` holds the retained messages by sequence number, with the event each
  // wake message of this target carries.
  datatype State = State(
    inbox: Inbox,
    log: map<int, Option<EventKey>>,
    tip: int,
    calls: map<CallId, Call>,
    minRank: int,
    lease: int,
    appended: map<int, Option<EventKey>>,  // history: every message ever in the room
    returned: set<int>,                    // history: sequence numbers returned by reads
    claims: seq<ClaimRecord>,              // history
    accepted: seq<int>,                    // history: cursors acknowledged
    epoch: nat,
    lapse: bool,                           // history: see Lapses
    lastOk: bool)                          // history: the attempt that ended last succeeded

  datatype Step =
    | AppendOther(seqNo: int)
    | Purge(kept: set<int>)
    | StartWake(c: CallId, key: EventKey, row: Row)
    | FindHit(c: CallId, seqNo: int)
    | FindMiss(c: CallId)
    | Send(c: CallId, appends: bool, reports: bool)
    | MarkStep(c: CallId, messageId: string)
    | TryWake(c: CallId, now: int)
    | StartAck(c: CallId, cursor: int)
    | AckQuery(c: CallId, best: Option<int>)
    | WakeOk(c: CallId)
    | WakeErr(c: CallId)
    | StartRead(c: CallId, after: int, limit: nat, page: set<int>, highest: int)
    | FinishRead(c: CallId)
    | Crash(c: CallId)

  function Initial(minRank: int, lease: int): State {
    State(Inbox(map[], NO_CURSORS), map[], 0, map[], minRank, lease, map[], {}, [], [], 0, false, true)
  }

  function Drop(st: State, c: CallId): State {
    st.(calls := st.calls - {c})
  }

  function To(st: State, c: CallId, call: Call): State {
    st.(calls := st.calls[c := call])
  }

  ghost predicate InLog(log: map<int, Option<EventKey>>, key: EventKey) {
    exists s :: s in log && log[s] == Some(key)
  }

  function WakesAbove(log: map<int, Option<EventKey>>, after: int): set<int> {
    set s | s in log && log[s].Some? && s > after
  }

  // The first `limit` wake messages above the cursor.
  predicate IsPage(log: map<int, Option<EventKey>>, after: int, limit: nat, page: set<int>) {
    IsFirst(WakesAbove(log, after), page, limit)
  }

  predicate IsHighest(page: set<int>, after: int, highest: int) {
    if page == {} then highest == after else highest in page && forall s :: s in page ==> s <= highest
  }

  // Those are exactly the wake messages with fewer than `limit` others before them.
  lemma PageExactly(log: map<int, Option<EventKey>>, after: int, limit: nat, page: set<int>)
    ensures IsPage(log, after, limit, page) <==>
              page == set s | s in log && log[s].Some? && s > after && |Below(WakesAbove(log, after), s)| < limit
  {
    FirstExactly(WakesAbove(log, after), page, limit);
    assert (set s | s in WakesAbove(log, after) && |Below(WakesAbove(log, after), s)| < limit)
      == set s | s in log && log[s].Some? && s > after && |Below(WakesAbove(log, after), s)| < limit;
  }

  // What a read records: the last of the page, or its own start.
  lemma HighestExactly(page: set<int>, after: int, highest: int)
    requires forall s :: s in page ==> s > after
    ensures IsHighest(page, after, highest) <==>
              highest in page + {after} && forall s :: s in page + {after} ==> s <= highest
  {
    if page != {} { assert forall g :: g in page ==> g > after; }
  }

  function Append(st: State, seqNo: int, wake: Option<EventKey>): State {
    st.(log := st.log[seqNo := wake], appended := st.appended[seqNo := wake], tip := seqNo)
  }

  // A call that reserved its event: delivered already, or to be searched for.
  function Begun(st: State, c: CallId, key: EventKey, rank: int, r: Reservation): State {
    if r.IdempotencyConflict? then st
    else To(st, c, if r.roomSeq.Some? then Delivered(key, rank, r.roomSeq.value) else Searching(key, rank))
  }

  function StartWakeStep(st: State, c: CallId, key: EventKey, row: Row): State {
    var (inbox, r) := Reserve(st.inbox, key, row);
    Begun(st.(inbox := inbox), c, key, row.hintRank, r)
  }

  // Once sent, the message may be in the room although the call failed.
  function SendStep(st: State, c: CallId, appends: bool, reports: bool): State
    requires c in st.calls && st.calls[c].MustSend?
  {
    if !appends then Drop(st, c)
    else
      var sent := Append(st, st.tip + 1, Some(st.calls[c].key));
      if reports then To(sent, c, Found(st.calls[c].key, st.calls[c].rank, st.tip + 1)) else Drop(sent, c)
  }

  function MarkCall(st: State, c: CallId, messageId: string): State
    requires c in st.calls && st.calls[c].Found?
  {
    var x := st.calls[c];
    if CanMark(st.inbox, x.key, x.seqNo)
    then To(st.(inbox := Mark(st.inbox, x.key, x.seqNo, messageId)), c, Delivered(x.key, x.rank, x.seqNo))
    else Drop(st, c)
  }

  function ClaimFor(st: State, c: CallId, observed: int, now: int): State {
    if CanClaim(st.inbox.cursors, observed, now, st.lease)
    then To(st, c, Waking(|st.claims|)).(
      inbox := st.inbox.(cursors := Claim(st.inbox.cursors, observed, now, st.lease)),
      claims := st.claims + [ClaimRecord(now, st.epoch)], lapse := false)
    else Drop(st, c)
  }

  function WithClaim(st: State, claimedAt: Option<int>): State {
    st.(inbox := st.inbox.(cursors := st.inbox.cursors.(claimedAt := claimedAt)))
  }

  function AckStep(st: State, c: CallId, cursor: int): State {
    match Acknowledge(st.inbox.cursors, cursor)
    case None => st
    case Some(cursors) =>
      To(st, c, Acked).(inbox := st.inbox.(cursors := cursors), accepted := st.accepted + [cursor],
                        epoch := st.epoch + 1, lapse := false)
  }

  // A call dying with its wake attempt still to come.
  predicate Lapses(call: Call) {
    call.Delivered? || call.Acked? || call.FollowUp?
  }

  // Steps of wake_agent up to the recorded delivery.
  ghost function NextDelivery(st: State, step: Step): State {
    match step
    case StartWake(c, key, row) => if c in st.calls then st else StartWakeStep(st, c, key, row)
    case FindHit(c, s) =>
      if c in st.calls && st.calls[c].Searching? && s in st.log && st.log[s] == Some(st.calls[c].key)
      then To(st, c, Found(st.calls[c].key, st.calls[c].rank, s)) else st
    case FindMiss(c) =>
      if c in st.calls && st.calls[c].Searching? && !InLog(st.log, st.calls[c].key)
      then To(st, c, MustSend(st.calls[c].key, st.calls[c].rank)) else st
    case Send(c, appends, reports) =>
      if c in st.calls && st.calls[c].MustSend? then SendStep(st, c, appends, reports) else st
    case MarkStep(c, messageId) =>
      if c in st.calls && st.calls[c].Found? then MarkCall(st, c, messageId) else st
    case _ => st
  }

  // Steps of maybe_wake, of acknowledge, and the end of a call by a crash.
  ghost function NextWake(st: State, step: Step): State {
    match step
    case TryWake(c, now) =>
      if c in st.calls && st.calls[c].Delivered? then
        if st.calls[c].rank < st.minRank then Drop(st, c) else ClaimFor(st, c, st.calls[c].seqNo, now)
      else if c in st.calls && st.calls[c].FollowUp? then ClaimFor(st, c, st.calls[c].observed, now)
      else st
    case StartAck(c, cursor) => if c in st.calls then st else AckStep(st, c, cursor)
    case AckQuery(c, best) =>
      if c in st.calls && st.calls[c].Acked? && IsMaxPending(st.inbox, st.minRank, best) then
        if best.None? then Drop(st, c) else To(st, c, FollowUp(best.value))
      else st
    case WakeOk(c) => if c in st.calls && st.calls[c].Waking? then Drop(st, c).(lastOk := true) else st
    case WakeErr(c) =>
      if c in st.calls && st.calls[c].Waking?
      then WithClaim(Drop(st, c), None).(lapse := true, lastOk := false, epoch := st.epoch + 1) else st
    case Crash(c) =>
      if c !in st.calls then st
      else Drop(st, c).(lapse := st.lapse || Lapses(st.calls[c]),
                        lastOk := st.lastOk && !Lapses(st.calls[c]) && !st.calls[c].Waking?)
    case _ => st
  }

  // Steps of read_inbox, other writers and the retention purge.
  ghost function NextRoom(st: State, step: Step): State {
    match step
    case AppendOther(s) => if s > st.tip then Append(st, s, None) else st
    case Purge(kept) => st.(log := map s | s in st.log && s in kept :: st.log[s])
    case StartRead(c, after, limit, page, highest) =>
      if c !in st.calls && 0 <= after && IsPage(st.log, after, limit, page) && IsHighest(page, after, highest)
      then To(st, c, Reading(page, highest)) else st
    case FinishRead(c) =>
      if c in st.calls && st.calls[c].Reading? then
        Drop(st, c).(inbox := st.inbox.(cursors := RecordRead(st.inbox.cursors, st.calls[c].highest)),
                     returned := st.returned + st.calls[c].page)
      else st
    case _ => st
  }

  predicate IsDelivery(step: Step) {
    step.StartWake? || step.FindHit? || step.FindMiss? || step.Send? || step.MarkStep?
  }

  predicate IsRoom(step: Step) {
    step.AppendOther? || step.Purge? || step.StartRead? || step.FinishRead?
  }

  ghost function Next(st: State, step: Step): State {
    if IsDelivery(step) then NextDelivery(st, step)
    else if IsRoom(step) then NextRoom(st, step)
    else NextWake(st, step)
  }

  ghost function Run(st: State, steps: seq<Step>): State
    decreases |steps|
  {
    if steps == [] then st else Run(Next(st, steps[0]), steps[1..])
  }

  // --- what changes what ---

  predicate CallIs(st: State, c: CallId, call: Call) {
    c in st.calls && st.calls[c] == call
  }

  // The room: a wake's own message or another writer's, one number further on; and
  // what a purge keeps.
  lemma LogChanges(st: State, step: Step, s: int)
    ensures var wake := SendsAt(st, step, s);
            var other := step == AppendOther(s) && s > st.tip;
            s in Next(st, step).log <==> wake || other || (s in st.log && (step.Purge? ==> s in step.kept))
  {
    if IsDelivery(step) { SentIsLogged(st, step, s); } else if !IsRoom(step) { WakeKeepsLogOf(st, step); }
  }

  predicate SendsAt(st: State, step: Step, s: int) {
    step.Send? && step.c in st.calls && st.calls[step.c].MustSend? && step.appends && s == st.tip + 1
  }

  lemma SentIsLogged(st: State, step: Step, s: int)
    requires IsDelivery(step)
    ensures var after := Next(st, step);
            && (s in after.log <==> SendsAt(st, step, s) || s in st.log)
            && (SendsAt(st, step, s) ==> after.log[s] == Some(st.calls[step.c].key) && after.tip == s)
            && (!SendsAt(st, step, s) && s in st.log ==> after.log[s] == st.log[s])
  {}

  lemma OtherIsLogged(st: State, s: int, t: int)
    requires s > st.tip
    ensures var after := Next(st, AppendOther(s));
            && (t in after.log <==> t == s || t in st.log) && after.log[s] == None && after.tip == s
            && (t != s && t in st.log ==> after.log[t] == st.log[t])
  {}

  lemma WakeKeepsLogOf(st: State, step: Step)
    ensures NextWake(st, step).log == st.log
  {}

  // The tables: a reservation by a wake call, with its number once that is found or
  // sent, if no other number is recorded.
  lemma NumberChanges(st: State, step: Step, key: EventKey, s: int)
    ensures var after := Next(st, step);
            && (key in after.inbox.rows <==>
                  key in st.inbox.rows || (step.StartWake? && step.key == key && step.c !in st.calls))
            && (NumberIs(after, key, s) <==>
                  || NumberIs(st, key, s)
                  || (step.MarkStep? && step.c in st.calls && st.calls[step.c].Found? && st.calls[step.c].key == key
                      && st.calls[step.c].seqNo == s && key in st.inbox.rows && st.inbox.rows[key].roomSeq.None?))
  {
    if IsRoom(step) { RoomKeepsRows(st, step); } else if !IsDelivery(step) { WakeKeepsRows(st, step); }
  }

  predicate NumberIs(st: State, key: EventKey, s: int) {
    key in st.inbox.rows && st.inbox.rows[key].roomSeq == Some(s)
  }

  // The cursors: what was read rises to the highest of a finished read, what was
  // acknowledged to the cursor of an accepted acknowledgement, and neither otherwise.
  lemma MaxReadChanges(st: State, step: Step)
    ensures var before := st.inbox.cursors.maxRead;
            Next(st, step).inbox.cursors.maxRead ==
              if step.FinishRead? && step.c in st.calls && st.calls[step.c].Reading? && st.calls[step.c].highest > before
              then st.calls[step.c].highest else before
  {
    if IsDelivery(step) { DeliveryKeepsClaims(st, step); } else if !IsRoom(step) { WakeKeepsRead(st, step); }
  }

  lemma WakeKeepsRead(st: State, step: Step)
    ensures NextWake(st, step).inbox.cursors.maxRead == st.inbox.cursors.maxRead
  {}

  lemma AcknowledgedChanges(st: State, step: Step)
    ensures var before := st.inbox.cursors;
            Next(st, step).inbox.cursors.lastAcked ==
              if step.StartAck? && step.c !in st.calls && before.lastAcked < step.cursor <= before.maxRead
              then step.cursor else before.lastAcked
  {
    if IsDelivery(step) { DeliveryKeepsClaims(st, step); } else if IsRoom(step) { RoomKeepsClaim(st, step); }
  }

  // An attempt: of a delivered event that meets the hint, or of a pending one after an
  // acknowledgement.
  predicate Attempts(st: State, step: Step) {
    && step.TryWake? && step.c in st.calls
    && ((st.calls[step.c].Delivered? && st.calls[step.c].rank >= st.minRank) || st.calls[step.c].FollowUp?)
  }

  predicate Claims(st: State, step: Step) {
    && Attempts(st, step)
    && (if st.calls[step.c].Delivered? then st.calls[step.c].seqNo else st.calls[step.c].observed) > st.inbox.cursors.lastAcked
    && (st.inbox.cursors.claimedAt.None? || step.now >= st.inbox.cursors.claimedAt.value + st.lease)
  }

  predicate Accepts(st: State, step: Step) {
    step.StartAck? && step.c !in st.calls && step.cursor <= st.inbox.cursors.maxRead
  }

  predicate Fails(st: State, step: Step) {
    step.WakeErr? && step.c in st.calls && st.calls[step.c].Waking?
  }

  // The claim: taken by an attempt that finds none younger than a lease, ended by a
  // failed wake and by an acknowledgement, and by nothing else.
  lemma ClaimChanges(st: State, step: Step)
    ensures Next(st, step).inbox.cursors.claimedAt ==
              if Claims(st, step) then Some(step.now)
              else if Accepts(st, step) || Fails(st, step) then None
              else st.inbox.cursors.claimedAt
  {
    if IsDelivery(step) {
      DeliveryKeepsClaims(st, step);
    } else if IsRoom(step) {
      RoomKeepsClaim(st, step);
    } else if step.TryWake? {
      AttemptClaims(st, step.c, step.now);
    }
  }

  lemma RoomKeepsClaim(st: State, step: Step)
    ensures NextRoom(st, step).inbox.cursors.claimedAt == st.inbox.cursors.claimedAt
    ensures NextRoom(st, step).inbox.cursors.lastAcked == st.inbox.cursors.lastAcked
  {}

  lemma AttemptClaims(st: State, c: CallId, now: int)
    ensures Next(st, TryWake(c, now)).inbox.cursors.claimedAt ==
              if Claims(st, TryWake(c, now)) then Some(now) else st.inbox.cursors.claimedAt
  {}

  lemma ClaimHistoryChanges(st: State, step: Step)
    ensures var after := Next(st, step);
            after.claims == if Claims(st, step) then st.claims + [ClaimRecord(step.now, st.epoch)] else st.claims
  {
    if IsDelivery(step) { DeliveryKeepsClaims(st, step); } else if IsRoom(step) { RoomKeepsHistory(st, step); }
  }

  lemma EpochChanges(st: State, step: Step)
    ensures Next(st, step).epoch == if Accepts(st, step) || Fails(st, step) then st.epoch + 1 else st.epoch
  {
    if IsDelivery(step) { DeliveryKeepsClaims(st, step); } else if IsRoom(step) { RoomKeepsHistory(st, step); }
  }

  lemma AcceptedChanges(st: State, step: Step)
    ensures Next(st, step).accepted == if Accepts(st, step) then st.accepted + [step.cursor] else st.accepted
  {
    if IsDelivery(step) { DeliveryKeepsClaims(st, step); }
  }

  predicate DiesUntried(st: State, step: Step) {
    && step.Crash? && step.c in st.calls
    && (st.calls[step.c].Delivered? || st.calls[step.c].Acked? || st.calls[step.c].FollowUp?)
  }

  // A lapse: an attempt failed or died untried since the last claim or acknowledgement.
  lemma LapseChanges(st: State, step: Step)
    ensures Next(st, step).lapse <==>
              Fails(st, step) || DiesUntried(st, step) || (st.lapse && !Claims(st, step) && !Accepts(st, step))
  {
    if IsDelivery(step) { DeliveryKeepsClaims(st, step); } else if IsRoom(step) { RoomKeepsHistory(st, step); }
  }

  lemma LastChanges(st: State, step: Step)
    ensures Next(st, step).lastOk <==>
              || (step.WakeOk? && step.c in st.calls && st.calls[step.c].Waking?)
              || (st.lastOk && !Fails(st, step) && !DiesUntried(st, step)
                  && !(step.Crash? && step.c in st.calls && st.calls[step.c].Waking?))
  {
    if IsDelivery(step) { DeliveryKeepsClaims(st, step); } else if IsRoom(step) { RoomKeepsHistory(st, step); }
  }

  lemma RoomKeepsHistory(st: State, step: Step)
    ensures NextRoom(st, step).lapse == st.lapse && NextRoom(st, step).lastOk == st.lastOk
    ensures NextRoom(st, step).claims == st.claims && NextRoom(st, step).epoch == st.epoch
  {}

  // A call's course through a delivery: reserved, searched for, sent if missing, and
  // recorded.
  predicate Starts(st: State, step: Step, c: CallId, key: EventKey, rank: int) {
    && step.StartWake? && step.c == c && c !in st.calls && step.key == key && step.row.hintRank == rank
    && SameEvent(st.inbox, key, step.row)
  }

  lemma SearchingChanges(st: State, step: Step, c: CallId, key: EventKey, rank: int)
    requires IsDelivery(step)
    ensures CallIs(Next(st, step), c, Searching(key, rank)) <==>
              || (Starts(st, step, c, key, rank) && !(key in st.inbox.rows && st.inbox.rows[key].roomSeq.Some?))
              || (CallIs(st, c, Searching(key, rank)) && !Finds(st, step, c) && !Misses(st, step, c))
  {}

  lemma MustSendChanges(st: State, step: Step, c: CallId, key: EventKey, rank: int)
    requires IsDelivery(step)
    ensures CallIs(Next(st, step), c, MustSend(key, rank)) <==>
              || (CallIs(st, c, Searching(key, rank)) && Misses(st, step, c))
              || (CallIs(st, c, MustSend(key, rank)) && !(step.Send? && step.c == c))
  {}

  lemma FoundChanges(st: State, step: Step, c: CallId, key: EventKey, rank: int, s: int)
    requires IsDelivery(step)
    ensures CallIs(Next(st, step), c, Found(key, rank, s)) <==>
              || (CallIs(st, c, Searching(key, rank)) && step == FindHit(c, s) && Finds(st, step, c))
              || (CallIs(st, c, MustSend(key, rank)) && step == Send(c, true, true) && s == st.tip + 1)
              || (CallIs(st, c, Found(key, rank, s)) && !(step.MarkStep? && step.c == c))
  {}

  lemma DeliveredChanges(st: State, step: Step, c: CallId, key: EventKey, rank: int, s: int)
    requires IsDelivery(step)
    ensures CallIs(Next(st, step), c, Delivered(key, rank, s)) <==>
              || (Starts(st, step, c, key, rank) && NumberIs(st, key, s))
              || (CallIs(st, c, Found(key, rank, s)) && step.MarkStep? && step.c == c && key in st.inbox.rows
                  && (st.inbox.rows[key].roomSeq.None? || NumberIs(st, key, s)))
              || CallIs(st, c, Delivered(key, rank, s))
  {}

  // And through its attempt, an acknowledgement and a read.
  lemma AttemptChanges(st: State, c: CallId, now: int)
    ensures var after := Next(st, TryWake(c, now));
            && (Claims(st, TryWake(c, now)) ==> CallIs(after, c, Waking(|st.claims|)))
            && (c in after.calls && !Claims(st, TryWake(c, now)) ==>
                  after.calls == st.calls && !st.calls[c].Delivered? && !st.calls[c].FollowUp?)
            && (c in st.calls && (st.calls[c].Delivered? || st.calls[c].FollowUp?) && !Claims(st, TryWake(c, now)) ==>
                  c !in after.calls)
  {}

  lemma AckCallChanges(st: State, c: CallId, cursor: int, best: Option<int>)
    ensures c !in st.calls ==>
              (CallIs(Next(st, StartAck(c, cursor)), c, Acked) <==> cursor <= st.inbox.cursors.maxRead)
    ensures CallIs(st, c, Acked) && IsMaxPending(st.inbox, st.minRank, best) ==>
              var after := Next(st, AckQuery(c, best));
              if best.Some? then CallIs(after, c, FollowUp(best.value)) else c !in after.calls
    ensures !(CallIs(st, c, Acked) && IsMaxPending(st.inbox, st.minRank, best)) ==> Next(st, AckQuery(c, best)) == st
  {}

  lemma EndsChange(st: State, c: CallId)
    requires c in st.calls
    ensures c in Next(st, WakeOk(c)).calls <==> !st.calls[c].Waking?
    ensures c in Next(st, WakeErr(c)).calls <==> !st.calls[c].Waking?
    ensures c !in Next(st, Crash(c)).calls
  {}

  lemma ReadChanges(st: State, c: CallId, after: int, limit: nat, page: set<int>, highest: int, s: int)
    ensures c !in st.calls && 0 <= after && IsPage(st.log, after, limit, page) && IsHighest(page, after, highest) ==>
              CallIs(Next(st, StartRead(c, after, limit, page, highest)), c, Reading(page, highest))
    ensures !(c !in st.calls && 0 <= after && IsPage(st.log, after, limit, page) && IsHighest(page, after, highest)) ==>
              Next(st, StartRead(c, after, limit, page, highest)) == st
    ensures c in st.calls && st.calls[c].Reading? ==>
              var done := Next(st, FinishRead(c));
              c !in done.calls && (s in done.returned <==> s in st.returned || s in st.calls[c].page)
  {}

  predicate SameEvent(x: Inbox, key: EventKey, row: Row) {
    key in x.rows ==>
      x.rows[key].eventJson == row.eventJson && x.rows[key].roomId == row.roomId && x.rows[key].hintRank == row.hintRank
  }

  ghost predicate Finds(st: State, step: Step, c: CallId) {
    step.FindHit? && step.c == c && c in st.calls && st.calls[c].Searching? && step.seqNo in st.log
    && st.log[step.seqNo] == Some(st.calls[c].key)
  }

  ghost predicate Misses(st: State, step: Step, c: CallId) {
    step.FindMiss? && step.c == c && c in st.calls && st.calls[c].Searching?
    && forall s :: s in st.log ==> st.log[s] != Some(st.calls[c].key)
  }

  // --- a key stands for one event ---

  ghost predicate SameBody(before: Inbox, after: Inbox, key: EventKey) {
    key in before.rows ==>
      && key in after.rows
      && after.rows[key].eventJson == before.rows[key].eventJson
      && after.rows[key].roomId == before.rows[key].roomId
      && after.rows[key].hintRank == before.rows[key].hintRank
      && (before.rows[key].roomSeq.Some? ==> after.rows[key].roomSeq == before.rows[key].roomSeq)
  }

  lemma DeliveryKeepsBody(st: State, step: Step, key: EventKey)
    ensures SameBody(st.inbox, NextDelivery(st, step).inbox, key)
  {
    if step.StartWake? { ReserveExactly(st.inbox, step.key, step.row); }
  }

  lemma WakeKeepsRows(st: State, step: Step)
    ensures NextWake(st, step).inbox.rows == st.inbox.rows
  {}

  lemma RoomKeepsRows(st: State, step: Step)
    ensures NextRoom(st, step).inbox.rows == st.inbox.rows
  {}

  // Over every run, once a key is reserved its event, room and hint never change,
  // and neither does its sequence number once that is recorded.
  lemma {:induction false} EventIsFixed(st: State, steps: seq<Step>, key: EventKey)
    ensures SameBody(st.inbox, Run(st, steps).inbox, key)
    decreases |steps|
  {
    if steps != [] {
      DeliveryKeepsBody(st, steps[0], key);
      WakeKeepsRows(st, steps[0]);
      RoomKeepsRows(st, steps[0]);
      EventIsFixed(Next(st, steps[0]), steps[1..], key);
    }
  }

  // --- idempotent delivery ---

  ghost predicate LogInv(st: State) {
    && (forall s :: s in st.log ==> s in st.appended && st.appended[s] == st.log[s])
    && (forall s :: s in st.appended ==> s <= st.tip)
  }

  // Whether every message of the event that the log holds is the one at `seqNo`.
  ghost predicate OnlyAt(log: map<int, Option<EventKey>>, key: EventKey, seqNo: int) {
    forall s :: s in log && log[s] == Some(key) ==> s == seqNo
  }

  // The log holds at most one message of the event, and a recorded sequence
  // number is that message's.
  ghost predicate KeyInv(st: State, k: EventKey) {
    && (forall s, t :: s in st.log && t in st.log && st.log[s] == Some(k) && st.log[t] == Some(k) ==> s == t)
    && (k in st.inbox.rows && st.inbox.rows[k].roomSeq.Some? ==>
          var s := st.inbox.rows[k].roomSeq.value;
          s in st.appended && st.appended[s] == Some(k) && OnlyAt(st.log, k, s))
  }

  predicate Delivering(call: Call) {
    call.Searching? || call.MustSend? || call.Found? || call.Delivered?
  }

  // What a call knows about its event stays true while it runs.
  ghost predicate CallInv(st: State, call: Call) {
    Delivering(call) ==>
      && call.key in st.inbox.rows && st.inbox.rows[call.key].hintRank == call.rank
      && (st.inbox.rows[call.key].roomSeq == if call.Delivered? then Some(call.seqNo) else None)
      && (call.MustSend? ==> !InLog(st.log, call.key))
      && (call.Found? ==> && call.seqNo in st.appended && st.appended[call.seqNo] == Some(call.key)
                          && OnlyAt(st.log, call.key, call.seqNo))
  }

  // No two delivering calls share a key.
  ghost predicate Serial(st: State) {
    forall c, d :: c in st.calls && d in st.calls && c != d && Delivering(st.calls[c]) && Delivering(st.calls[d])
      ==> st.calls[c].key != st.calls[d].key
  }

  // A wake call starts only while no other call for its key is in progress.
  ghost predicate SerialStep(st: State, step: Step) {
    step.StartWake? ==> forall d :: d in st.calls && Delivering(st.calls[d]) ==> st.calls[d].key != step.key
  }

  ghost predicate SerialRun(st: State, steps: seq<Step>)
    decreases |steps|
  {
    steps == [] || (SerialStep(st, steps[0]) && SerialRun(Next(st, steps[0]), steps[1..]))
  }

  lemma DeliveryKeepsLog(st: State, step: Step)
    requires LogInv(st)
    ensures LogInv(NextDelivery(st, step))
  {}

  lemma RoomKeepsLog(st: State, step: Step)
    requires LogInv(st)
    ensures LogInv(NextRoom(st, step))
  {}

  predicate SameRoom(st: State, after: State) {
    after.log == st.log && after.appended == st.appended && after.tip == st.tip && after.inbox.rows == st.inbox.rows
  }

  lemma ClaimKeepsRoom(st: State, c: CallId, observed: int, now: int)
    ensures SameRoom(st, ClaimFor(st, c, observed, now))
  {}

  lemma AckKeepsRoom(st: State, c: CallId, cursor: int)
    ensures SameRoom(st, AckStep(st, c, cursor))
  {}

  lemma EndKeepsRoom(st: State, step: Step)
    requires !step.TryWake? && !step.StartAck?
    ensures SameRoom(st, NextWake(st, step))
  {}

  lemma WakeKeepsLog(st: State, step: Step)
    ensures SameRoom(st, NextWake(st, step))
  {
    if step.TryWake? && step.c in st.calls && st.calls[step.c].Delivered? {
      ClaimKeepsRoom(st, step.c, st.calls[step.c].seqNo, step.now);
    } else if step.TryWake? && step.c in st.calls && st.calls[step.c].FollowUp? {
      ClaimKeepsRoom(st, step.c, st.calls[step.c].observed, step.now);
    } else if step.StartAck? {
      AckKeepsRoom(st, step.c, step.cursor);
    } else if !step.TryWake? {
      EndKeepsRoom(st, step);
    }
  }

  // Delivering touches no cursor, no claim and no history of claims.
  predicate SameClaims(st: State, after: State) {
    && after.inbox.cursors == st.inbox.cursors && after.claims == st.claims && after.epoch == st.epoch
    && after.accepted == st.accepted
    && after.lapse == st.lapse && after.lastOk == st.lastOk && after.minRank == st.minRank && after.lease == st.lease
  }

  lemma StartWakeKeepsClaims(st: State, c: CallId, key: EventKey, row: Row)
    ensures SameClaims(st, StartWakeStep(st, c, key, row))
  {}

  lemma DeliveryKeepsClaims(st: State, step: Step)
    ensures SameClaims(st, NextDelivery(st, step))
  {
    if step.StartWake? { StartWakeKeepsClaims(st, step.c, step.key, step.row); }
  }

  lemma NextKeepsLog(st: State, step: Step)
    requires LogInv(st)
    ensures LogInv(Next(st, step))
  {
    DeliveryKeepsLog(st, step);
    RoomKeepsLog(st, step);
    WakeKeepsLog(st, step);
  }

  function Caller(step: Step): Option<CallId> {
    match step
    case AppendOther(_) => None
    case Purge(_) => None
    case StartWake(c, _, _) => Some(c)
    case FindHit(c, _) => Some(c)
    case FindMiss(c) => Some(c)
    case Send(c, _, _) => Some(c)
    case MarkStep(c, _) => Some(c)
    case TryWake(c, _) => Some(c)
    case StartAck(c, _) => Some(c)
    case AckQuery(c, _) => Some(c)
    case WakeOk(c) => Some(c)
    case WakeErr(c) => Some(c)
    case StartRead(c, _, _, _, _) => Some(c)
    case FinishRead(c) => Some(c)
    case Crash(c) => Some(c)
  }

  ghost predicate CallKept(st: State, after: State, d: CallId) {
    && (d in after.calls <==> d in st.calls)
    && (d in st.calls ==> after.calls[d] == st.calls[d])
  }

  lemma DeliveryKeepsCall(st: State, step: Step, d: CallId)
    requires Caller(step) != Some(d)
    ensures CallKept(st, NextDelivery(st, step), d)
  {}

  lemma WakeKeepsCall(st: State, step: Step, d: CallId)
    requires Caller(step) != Some(d)
    ensures CallKept(st, NextWake(st, step), d)
  {}

  lemma RoomKeepsCall(st: State, step: Step, d: CallId)
    requires Caller(step) != Some(d)
    ensures CallKept(st, NextRoom(st, step), d)
  {}

  lemma OnlyCallerChanges(st: State, step: Step, d: CallId)
    requires Caller(step) != Some(d)
    ensures CallKept(st, Next(st, step), d)
  {
    DeliveryKeepsCall(st, step, d);
    WakeKeepsCall(st, step, d);
    RoomKeepsCall(st, step, d);
  }

  // Outside the delivery steps no call begins to deliver.
  lemma ClaimStartsNoDelivery(st: State, caller: CallId, observed: int, now: int, c: CallId)
    requires c in ClaimFor(st, caller, observed, now).calls && Delivering(ClaimFor(st, caller, observed, now).calls[c])
    ensures c in st.calls && st.calls[c] == ClaimFor(st, caller, observed, now).calls[c]
  {}

  lemma AckStartsNoDelivery(st: State, caller: CallId, cursor: int, c: CallId)
    requires c in AckStep(st, caller, cursor).calls && Delivering(AckStep(st, caller, cursor).calls[c])
    ensures c in st.calls && st.calls[c] == AckStep(st, caller, cursor).calls[c]
  {}

  lemma WakeStartsNoDelivery(st: State, step: Step, c: CallId)
    requires c in NextWake(st, step).calls && Delivering(NextWake(st, step).calls[c])
    ensures c in st.calls && st.calls[c] == NextWake(st, step).calls[c]
  {
    if step.TryWake? && step.c in st.calls && st.calls[step.c].Delivered? && st.calls[step.c].rank >= st.minRank {
      ClaimStartsNoDelivery(st, step.c, st.calls[step.c].seqNo, step.now, c);
    } else if step.TryWake? && step.c in st.calls && st.calls[step.c].FollowUp? {
      ClaimStartsNoDelivery(st, step.c, st.calls[step.c].observed, step.now, c);
    } else if step.StartAck? && step.c !in st.calls {
      AckStartsNoDelivery(st, step.c, step.cursor, c);
    }
  }

  lemma RoomStartsNoDelivery(st: State, step: Step, c: CallId)
    requires c in NextRoom(st, step).calls && Delivering(NextRoom(st, step).calls[c])
    ensures c in st.calls && st.calls[c] == NextRoom(st, step).calls[c]
  {}

  // Whether the call was already delivering under this key.
  predicate WasDelivering(st: State, c: CallId, key: EventKey) {
    c in st.calls && Delivering(st.calls[c]) && st.calls[c].key == key
  }

  // A call works on the key it started with.
  lemma CallerKeepsKey(st: State, step: Step, c: CallId)
    requires IsDelivery(step) && Caller(step) == Some(c)
    requires c in NextDelivery(st, step).calls && Delivering(NextDelivery(st, step).calls[c])
    ensures WasDelivering(st, c, NextDelivery(st, step).calls[c].key)
            || (step.StartWake? && step.key == NextDelivery(st, step).calls[c].key)
  {
    if step.StartWake? {
      if c !in st.calls { StartedCallHasKey(st, c, step.key, step.row); }
    } else if step.Send? {
      if c in st.calls && st.calls[c].MustSend? { SentCallKeepsKey(st, c, step.appends, step.reports); }
    }
  }

  lemma StartedCallHasKey(st: State, c: CallId, key: EventKey, row: Row)
    requires c !in st.calls
    ensures var after := StartWakeStep(st, c, key, row); c in after.calls ==> Delivering(after.calls[c]) && after.calls[c].key == key
  {}

  lemma SentCallKeepsKey(st: State, c: CallId, appends: bool, reports: bool)
    requires c in st.calls && st.calls[c].MustSend?
    ensures var after := SendStep(st, c, appends, reports);
            c in after.calls ==> Delivering(after.calls[c]) && after.calls[c].key == st.calls[c].key
  {}

  lemma CallerOrigin(st: State, step: Step, c: CallId)
    requires c in Next(st, step).calls && Delivering(Next(st, step).calls[c])
    ensures WasDelivering(st, c, Next(st, step).calls[c].key)
            || (step.StartWake? && Caller(step) == Some(c) && step.key == Next(st, step).calls[c].key)
  {
    if IsRoom(step) {
      RoomStartsNoDelivery(st, step, c);
    } else if !IsDelivery(step) {
      WakeStartsNoDelivery(st, step, c);
    } else if Caller(step) == Some(c) {
      CallerKeepsKey(st, step, c);
    } else {
      OnlyCallerChanges(st, step, c);
    }
  }

  lemma NextKeepsSerial(st: State, step: Step)
    requires Serial(st) && SerialStep(st, step)
    ensures Serial(Next(st, step))
  {
    var after := Next(st, step);
    forall c, d | c in after.calls && d in after.calls && c != d && Delivering(after.calls[c]) && Delivering(after.calls[d])
      ensures after.calls[c].key != after.calls[d].key
    {
      CallerOrigin(st, step, c);
      CallerOrigin(st, step, d);
    }
  }

  // The event a step may write about: its row, or a new message of it.
  function Writes(st: State, step: Step): Option<EventKey> {
    match step
    case StartWake(_, key, _) => Some(key)
    case Send(c, _, _) => if c in st.calls && st.calls[c].MustSend? then Some(st.calls[c].key) else None
    case MarkStep(c, _) => if c in st.calls && st.calls[c].Found? then Some(st.calls[c].key) else None
    case _ => None
  }

  // Nothing about the event changes, except that messages may be purged.
  ghost predicate Untouched(st: State, after: State, k: EventKey) {
    && (k in after.inbox.rows <==> k in st.inbox.rows)
    && (k in st.inbox.rows ==> after.inbox.rows[k] == st.inbox.rows[k])
    && (forall s :: s in after.log && after.log[s] == Some(k) ==> s in st.log && st.log[s] == Some(k))
    && (forall s :: s in st.appended ==> s in after.appended && after.appended[s] == st.appended[s])
  }

  lemma StartWakeElsewhere(st: State, c: CallId, key: EventKey, row: Row, k: EventKey)
    requires key != k
    ensures Untouched(st, StartWakeStep(st, c, key, row), k)
  {}

  lemma SendElsewhere(st: State, c: CallId, appends: bool, reports: bool, k: EventKey)
    requires LogInv(st) && c in st.calls && st.calls[c].MustSend? && st.calls[c].key != k
    ensures Untouched(st, SendStep(st, c, appends, reports), k)
  {}

  lemma MarkElsewhere(st: State, c: CallId, messageId: string, k: EventKey)
    requires c in st.calls && st.calls[c].Found? && st.calls[c].key != k
    ensures Untouched(st, MarkCall(st, c, messageId), k)
  {}

  lemma DeliveryElsewhere(st: State, step: Step, k: EventKey)
    requires LogInv(st) && Writes(st, step) != Some(k)
    ensures Untouched(st, NextDelivery(st, step), k)
  {
    match step {
      case StartWake(c, key, row) => StartWakeElsewhere(st, c, key, row, k);
      case Send(c, appends, reports) =>
        if c in st.calls && st.calls[c].MustSend? { SendElsewhere(st, c, appends, reports, k); }
      case MarkStep(c, messageId) => if c in st.calls && st.calls[c].Found? { MarkElsewhere(st, c, messageId, k); }
      case _ =>
    }
  }

  lemma RoomElsewhere(st: State, step: Step, k: EventKey)
    requires LogInv(st)
    ensures Untouched(st, NextRoom(st, step), k)
  {}

  lemma OtherEventsUntouched(st: State, step: Step, k: EventKey)
    requires LogInv(st) && Writes(st, step) != Some(k)
    ensures Untouched(st, Next(st, step), k)
  {
    DeliveryElsewhere(st, step, k);
    RoomElsewhere(st, step, k);
    WakeKeepsLog(st, step);
  }

  lemma UntouchedKeepsKey(st: State, after: State, k: EventKey)
    requires KeyInv(st, k) && Untouched(st, after, k)
    ensures KeyInv(after, k)
  {}

  lemma UntouchedKeepsCall(st: State, after: State, call: Call)
    requires CallInv(st, call) && (Delivering(call) ==> Untouched(st, after, call.key))
    ensures CallInv(after, call)
  {}

  lemma StartWakeKeepsKey(st: State, c: CallId, key: EventKey, row: Row)
    requires KeyInv(st, key)
    ensures KeyInv(StartWakeStep(st, c, key, row), key)
    ensures c !in st.calls ==>
              var after := StartWakeStep(st, c, key, row);
              c in after.calls ==> CallInv(after, after.calls[c])
  {}

  lemma SendKeepsKey(st: State, c: CallId, appends: bool, reports: bool)
    requires LogInv(st) && c in st.calls && st.calls[c].MustSend?
    requires KeyInv(st, st.calls[c].key) && CallInv(st, st.calls[c])
    ensures var after := SendStep(st, c, appends, reports);
            && KeyInv(after, st.calls[c].key)
            && (c in after.calls ==> CallInv(after, after.calls[c]))
  {}

  lemma MarkKeepsKey(st: State, c: CallId, messageId: string)
    requires c in st.calls && st.calls[c].Found?
    requires KeyInv(st, st.calls[c].key) && CallInv(st, st.calls[c])
    ensures var after := MarkCall(st, c, messageId);
            && KeyInv(after, st.calls[c].key)
            && (c in after.calls ==> CallInv(after, after.calls[c]))
  {}

  ghost predicate DeliveryInv(st: State) {
    && LogInv(st) && Serial(st)
    && (forall k :: KeyInv(st, k))
    && (forall c :: c in st.calls ==> CallInv(st, st.calls[c]))
  }

  lemma FindKeepsCall(st: State, step: Step, c: CallId)
    requires c in st.calls && st.calls[c].Searching?
    requires LogInv(st) && CallInv(st, st.calls[c]) && KeyInv(st, st.calls[c].key)
    requires step.FindHit? || step.FindMiss?
    ensures c in NextDelivery(st, step).calls && CallInv(NextDelivery(st, step), NextDelivery(st, step).calls[c])
  {}

  lemma NextKeepsKey(st: State, step: Step, k: EventKey)
    requires DeliveryInv(st)
    ensures KeyInv(Next(st, step), k)
  {
    if Writes(st, step) != Some(k) {
      OtherEventsUntouched(st, step, k);
      assert KeyInv(st, k);
      UntouchedKeepsKey(st, Next(st, step), k);
    } else {
      assert KeyInv(st, k);
      match step {
        case StartWake(c, key, row) => StartWakeKeepsKey(st, c, key, row);
        case Send(c, appends, reports) => SendKeepsKey(st, c, appends, reports);
        case MarkStep(c, messageId) => MarkKeepsKey(st, c, messageId);
      }
    }
  }

  // The step of a delivering call leaves that call's knowledge right.
  lemma CallerKeepsCall(st: State, step: Step, c: CallId)
    requires DeliveryInv(st) && IsDelivery(step) && Caller(step) == Some(c)
    ensures var after := NextDelivery(st, step); c in after.calls ==> CallInv(after, after.calls[c])
  {
    if step.StartWake? {
      assert KeyInv(st, step.key);
      StartWakeKeepsKey(st, c, step.key, step.row);
    }
    if c in st.calls && Delivering(st.calls[c]) {
      assert CallInv(st, st.calls[c]) && KeyInv(st, st.calls[c].key);
      if step.Send? && st.calls[c].MustSend? {
        SendKeepsKey(st, c, step.appends, step.reports);
      } else if step.MarkStep? && st.calls[c].Found? {
        MarkKeepsKey(st, c, step.messageId);
      } else if (step.FindHit? || step.FindMiss?) && st.calls[c].Searching? {
        FindKeepsCall(st, step, c);
      }
    }
  }

  lemma NextKeepsCall(st: State, step: Step, c: CallId)
    requires DeliveryInv(st) && SerialStep(st, step) && c in Next(st, step).calls
    ensures CallInv(Next(st, step), Next(st, step).calls[c])
  {
    var after := Next(st, step);
    if IsDelivery(step) && Caller(step) == Some(c) {
      CallerKeepsCall(st, step, c);
    } else if Delivering(after.calls[c]) {
      OriginOfBystander(st, step, c);
      WriterIsNotBystander(st, step, c);
      OtherEventsUntouched(st, step, st.calls[c].key);
      UntouchedKeepsCall(st, after, st.calls[c]);
    }
  }

  lemma OriginOfBystander(st: State, step: Step, c: CallId)
    requires c in Next(st, step).calls && Delivering(Next(st, step).calls[c])
    requires !(IsDelivery(step) && Caller(step) == Some(c))
    ensures c in st.calls && st.calls[c] == Next(st, step).calls[c]
  {
    if IsRoom(step) {
      RoomStartsNoDelivery(st, step, c);
    } else if !IsDelivery(step) {
      WakeStartsNoDelivery(st, step, c);
    } else {
      OnlyCallerChanges(st, step, c);
    }
  }

  lemma WriterIsNotBystander(st: State, step: Step, c: CallId)
    requires Serial(st) && SerialStep(st, step) && c in st.calls && Delivering(st.calls[c])
    requires !(IsDelivery(step) && Caller(step) == Some(c))
    ensures Writes(st, step) != Some(st.calls[c].key)
  {}

  lemma NextKeepsDelivery(st: State, step: Step)
    requires DeliveryInv(st) && SerialStep(st, step)
    ensures DeliveryInv(Next(st, step))
  {
    NextKeepsLog(st, step);
    NextKeepsSerial(st, step);
    forall k ensures KeyInv(Next(st, step), k) { NextKeepsKey(st, step, k); }
    forall c | c in Next(st, step).calls
      ensures CallInv(Next(st, step), Next(st, step).calls[c])
    {
      NextKeepsCall(st, step, c);
    }
  }

  lemma {:induction false} RunKeepsDelivery(st: State, steps: seq<Step>)
    requires DeliveryInv(st) && SerialRun(st, steps)
    ensures DeliveryInv(Run(st, steps))
    decreases |steps|
  {
    if steps != [] {
      NextKeepsDelivery(st, steps[0]);
      RunKeepsDelivery(Next(st, steps[0]), steps[1..]);
    }
  }

  // Whatever crashes, lost replies and purges happen, with calls for one key not
  // overlapping the room never holds two messages of an event, and a recorded
  // sequence number is that of the event's own message.
  lemma EventIsInRoomOnce(minRank: int, lease: int, steps: seq<Step>, key: EventKey, a: int, b: int)
    requires SerialRun(Initial(minRank, lease), steps)
    ensures var st := Run(Initial(minRank, lease), steps);
            && (a in st.log && b in st.log && st.log[a] == Some(key) && st.log[b] == Some(key) ==> a == b)
            && (key in st.inbox.rows && st.inbox.rows[key].roomSeq == Some(a) ==>
                  && a in st.appended && st.appended[a] == Some(key)
                  && (b in st.log && st.log[b] == Some(key) ==> b == a))
  {
    RunKeepsDelivery(Initial(minRank, lease), steps);
    assert KeyInv(Run(Initial(minRank, lease), steps), key);
  }

  // A retry after a lost reply finds the message instead of sending again.
  lemma RetryFindsLostMessage(st: State, c: CallId, retry: CallId, row: Row, s: int)
    requires DeliveryInv(st) && c in st.calls && st.calls[c].MustSend? && retry !in st.calls && c != retry
    requires row == st.inbox.rows[st.calls[c].key] && s == st.tip + 1
    ensures var key := st.calls[c].key;
            var lost := Next(st, Send(c, true, false));
            var again := Next(lost, StartWake(retry, key, row));
            && retry in again.calls && again.calls[retry] == Searching(key, row.hintRank)
            && Next(again, FindMiss(retry)) == again
            && Next(again, FindHit(retry, s)).calls[retry] == Found(key, row.hintRank, s)
  {
    assert CallInv(st, st.calls[c]);
    var key := st.calls[c].key;
    var lost := Next(st, Send(c, true, false));
    assert s in lost.log && lost.log[s] == Some(key) && lost.inbox == st.inbox;
    var again := Next(lost, StartWake(retry, key, row));
    assert InLog(again.log, key);
  }

  // Whatever else is going on, a send keeps the event's message unique exactly
  // when the room holds none at that moment.
  lemma SendKeepsOnceExactly(st: State, c: CallId, reports: bool)
    requires LogInv(st) && c in st.calls && st.calls[c].MustSend?
    ensures var key := st.calls[c].key;
            OnlyAt(Next(st, Send(c, true, reports)).log, key, st.tip + 1) <==> !InLog(st.log, key)
  {
    var key := st.calls[c].key;
    var after := Next(st, Send(c, true, reports));
    assert after.log == st.log[st.tip + 1 := Some(key)];
    if InLog(st.log, key) {
      var s :| s in st.log && st.log[s] == Some(key);
      assert s in after.log && after.log[s] == Some(key) && s <= st.tip;
    }
  }

  // Overlapping calls for one event are another matter: both may find nothing,
  // and then both send.
  lemma OverlappingCallsSendTwice(st: State, c: CallId, d: CallId, key: EventKey, row: Row)
    requires LogInv(st) && !InLog(st.log, key) && key !in st.inbox.rows
    requires c !in st.calls && d !in st.calls && c != d
    ensures var after := Run(st, [StartWake(c, key, row), StartWake(d, key, row), FindMiss(c), FindMiss(d)]
                                 + [Send(c, true, true), Send(d, true, true)]);
            && st.tip + 1 in after.log && after.log[st.tip + 1] == Some(key)
            && st.tip + 2 in after.log && after.log[st.tip + 2] == Some(key)
  {
    var first := [StartWake(c, key, row), StartWake(d, key, row), FindMiss(c), FindMiss(d)];
    var both := BothSearching(st, c, d, key, row);
    SendTwice(st, first, both, c, d);
  }

  lemma SendTwice(start: State, steps: seq<Step>, st: State, c: CallId, d: CallId)
    requires Run(start, steps) == st
    requires c in st.calls && d in st.calls && c != d && st.calls[c].MustSend? && st.calls[d] == st.calls[c]
    ensures var after := Run(start, steps + [Send(c, true, true), Send(d, true, true)]);
            && st.tip + 1 in after.log && after.log[st.tip + 1] == Some(st.calls[c].key)
            && st.tip + 2 in after.log && after.log[st.tip + 2] == Some(st.calls[c].key)
  {
    RunConcat(start, steps, [Send(c, true, true), Send(d, true, true)]);
    Run2(st, Send(c, true, true), Send(d, true, true));
    BothSend(st, c, d);
  }

  lemma BothSend(st: State, c: CallId, d: CallId)
    requires c in st.calls && d in st.calls && c != d && st.calls[c].MustSend? && st.calls[d] == st.calls[c]
    ensures var after := Next(Next(st, Send(c, true, true)), Send(d, true, true));
            && st.tip + 1 in after.log && after.log[st.tip + 1] == Some(st.calls[c].key)
            && st.tip + 2 in after.log && after.log[st.tip + 2] == Some(st.calls[c].key)
  {
    var one := SendStep(st, c, true, true);
    assert Next(st, Send(c, true, true)) == one;
    assert Next(one, Send(d, true, true)) == SendStep(one, d, true, true);
  }

  lemma BothSearching(st: State, c: CallId, d: CallId, key: EventKey, row: Row) returns (both: State)
    requires !InLog(st.log, key) && key !in st.inbox.rows && c !in st.calls && d !in st.calls && c != d
    ensures both == Run(st, [StartWake(c, key, row), StartWake(d, key, row), FindMiss(c), FindMiss(d)])
    ensures both.log == st.log && both.tip == st.tip && c in both.calls && d in both.calls
    ensures both.calls[c] == MustSend(key, row.hintRank) && both.calls[d] == MustSend(key, row.hintRank)
  {
    var two := BothStarted(st, c, d, key, row);
    both := BothMiss(two, c, d);
    RunConcat(st, [StartWake(c, key, row), StartWake(d, key, row)], [FindMiss(c), FindMiss(d)]);
    assert [StartWake(c, key, row), StartWake(d, key, row)] + [FindMiss(c), FindMiss(d)]
        == [StartWake(c, key, row), StartWake(d, key, row), FindMiss(c), FindMiss(d)];
  }

  lemma BothStarted(st: State, c: CallId, d: CallId, key: EventKey, row: Row) returns (two: State)
    requires key !in st.inbox.rows && c !in st.calls && d !in st.calls && c != d
    ensures two == Run(st, [StartWake(c, key, row), StartWake(d, key, row)])
    ensures two.log == st.log && two.tip == st.tip
    ensures two.calls == st.calls[c := Searching(key, row.hintRank)][d := Searching(key, row.hintRank)]
  {
    var one := Next(st, StartWake(c, key, row));
    assert one == StartWakeStep(st, c, key, row) && d !in one.calls;
    two := Next(one, StartWake(d, key, row));
    assert two == StartWakeStep(one, d, key, row);
    Run2(st, StartWake(c, key, row), StartWake(d, key, row));
  }

  lemma BothMiss(st: State, c: CallId, d: CallId) returns (both: State)
    requires c in st.calls && d in st.calls && c != d && st.calls[c].Searching? && st.calls[d] == st.calls[c]
    requires !InLog(st.log, st.calls[c].key)
    ensures both == Run(st, [FindMiss(c), FindMiss(d)])
    ensures both.log == st.log && both.tip == st.tip && c in both.calls && d in both.calls
    ensures both.calls[c] == MustSend(st.calls[c].key, st.calls[c].rank) && both.calls[d] == both.calls[c]
  {
    var one := Next(st, FindMiss(c));
    both := Next(one, FindMiss(d));
    Run2(st, FindMiss(c), FindMiss(d));
  }

  lemma Run2(st: State, a: Step, b: Step)
    ensures Run(st, [a, b]) == Next(Next(st, a), b)
  {
    assert [a, b][1..] == [b] && [b][1..] == [];
    assert Run(Next(st, a), [b]) == Next(Next(st, a), b);
  }

  lemma {:induction false} RunConcat(st: State, xs: seq<Step>, ys: seq<Step>)
    ensures Run(st, xs + ys) == Run(Run(st, xs), ys)
    decreases |xs|
  {
    if xs == [] {
      assert xs + ys == ys;
    } else {
      assert (xs + ys)[1..] == xs[1..] + ys;
      RunConcat(Next(st, xs[0]), xs[1..], ys);
    }
  }
}
