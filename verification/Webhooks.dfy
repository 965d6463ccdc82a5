// The delivery queue of one webhook subscription: live enqueueing, the worker,
// retries, and the backfill of a new or re-enabled subscription.
module Webhooks {
  import opened Options

  const PAGE: nat := 1000
  const RETRY_SCHEDULE_SECS: seq<int> := [1, 4, 16, 64, 256]

  datatype Msg = Msg(metaType: Option<string>, kind: Option<string>, author: string)

  datatype Criteria = Criteria(excludeThinking: bool, kinds: seq<string>, onlyFrom: Option<string>, notFrom: Option<string>)

  predicate Passes(f: Criteria, m: Msg) {
    && m.metaType != Some("system")
    && !(f.excludeThinking && m.metaType == Some("thinking"))
    && (f.kinds == [] || (m.kind.Some? && m.kind.value in f.kinds))
    && (f.onlyFrom.Some? ==> m.author == f.onlyFrom.value)
    && (f.notFrom.Some? ==> m.author != f.notFrom.value)
  }

  predicate Matches(f: Criteria, cursor: int, seqNo: int, m: Msg) {
    seqNo > cursor && Passes(f, m)
  }

  // A queued delivery; `posts` counts the requests sent for it.
  datatype Row = Row(attempts: nat, due: int, posts: nat)

  datatype Status = Active | Failed

  // What the worker is doing for this subscription.
  datatype Work =
    | Idle
    | Loaded(seqNo: int)
    | Looked(seqNo: int)
    | Dropping(seqNo: int)
    | Posting(seqNo: int)
    | Advancing(seqNo: int)
    | GivingUp(seqNo: int)

  // A backfill filters with the cursor it read at its start.
  datatype Backfill =
    | NoBackfill
    | Snapshot(cursor: int)
    | Fetching(cursor: int, from: int, paged: bool)
    | Filling(cursor: int, todo: set<int>, upTo: int, more: bool)

  datatype State = State(
    filter: Criteria,
    since: int,
    log: map<int, Msg>,   // retained messages
    tip: int,
    status: Status,
    cursor: int,
    queue: map<int, Row>,
    work: Work,
    backfill: Backfill,
    ever: map<int, Msg>,  // history: every message ever in the room
    delivered: seq<int>)  // history: successful deliveries

  datatype Step =
    | Insert(seqNo: int, m: Msg, now: int)
    | Purge(kept: set<int>)
    | Load(seqNo: int, now: int)
    | LookUp
    | ReadMessage
    | DropRow
    | Blocked
    | PostOk
    | Advance
    | PostFail(now: int)
    | GiveUp
    | EnableRead
    | EnableSet
    | Fetch(page: set<int>, upTo: int)
    | FillOne(seqNo: int, now: int)
    | FillEnd

  // A subscription just created in a room with this history.
  function Subscribed(filter: Criteria, since: int, log: map<int, Msg>, tip: int): State {
    State(filter, since, log, tip, Active, since, map[], Idle, Fetching(since, since, true), log, [])
  }

  predicate IsHead(queue: map<int, Row>, s: int) {
    s in queue && forall q :: q in queue ==> s <= q
  }

  function Above(log: map<int, Msg>, from: int): set<int> {
    set s | s in log && s > from
  }

  // The first messages after `from`, a page of them, up to and including `upTo`.
  predicate IsPage(log: map<int, Msg>, from: int, page: set<int>, upTo: int) {
    && IsFirst(Above(log, from), page, PAGE)
    && (if page == {} then upTo == from else upTo in page && forall s :: s in page ==> s <= upTo)
  }

  // Those are exactly the messages with fewer than 1000 others before them, and how
  // far they reach.
  lemma PageExactly(log: map<int, Msg>, from: int, page: set<int>, upTo: int)
    ensures IsPage(log, from, page, upTo) <==>
              && (forall s :: s in page <==> s in log && s > from && |Below(Above(log, from), s)| < 1000)
              && (forall s :: s in page ==> s <= upTo)
              && (upTo in page || (upTo == from && page == {}))
  {
    FirstExactly(Above(log, from), page, 1000);
  }

  function Enqueue(st: State, cursor: int, s: int, m: Msg, now: int): State {
    if Matches(st.filter, cursor, s, m) && s !in st.queue
    then st.(queue := st.queue[s := Row(0, now, 0)])
    else st
  }

  function InsertStep(st: State, s: int, m: Msg, now: int): State {
    var stored := st.(log := st.log[s := m], ever := st.ever[s := m], tip := s);
    if st.status.Active? then Enqueue(stored, st.cursor, s, m, now) else stored
  }

  function PostFailStep(st: State, s: int, now: int): State
    requires s in st.queue
  {
    var attempts := st.queue[s].attempts;
    if attempts >= |RETRY_SCHEDULE_SECS|
    then st.(queue := st.queue - {s}, work := GivingUp(s))
    else st.(queue := st.queue[s := Row(attempts + 1, now + RETRY_SCHEDULE_SECS[attempts], st.queue[s].posts + 1)], work := Idle)
  }

  function NextRoom(st: State, step: Step): State {
    match step
    case Insert(s, m, now) => if s > st.tip then InsertStep(st, s, m, now) else st
    case Purge(kept) => st.(log := map s | s in st.log && s in kept :: st.log[s])
    case _ => st
  }

  function NextWorker(st: State, step: Step): State {
    match step
    case Load(s, now) =>
      if st.work.Idle? && IsHead(st.queue, s) && st.queue[s].due <= now then st.(work := Loaded(s)) else st
    case LookUp =>
      if !st.work.Loaded? then st
      else st.(work := if st.status.Active? then Looked(st.work.seqNo) else Dropping(st.work.seqNo))
    case ReadMessage =>
      if !st.work.Looked? then st
      else st.(work := if st.work.seqNo in st.log then Posting(st.work.seqNo) else Dropping(st.work.seqNo))
    case DropRow => if st.work.Dropping? then st.(queue := st.queue - {st.work.seqNo}, work := Idle) else st
    case Blocked => if st.work.Posting? then st.(status := Failed, work := Idle) else st
    case PostOk =>
      if !st.work.Posting? then st
      else st.(queue := st.queue - {st.work.seqNo}, delivered := st.delivered + [st.work.seqNo], work := Advancing(st.work.seqNo))
    case Advance =>
      if !st.work.Advancing? then st
      else st.(cursor := if st.work.seqNo > st.cursor then st.work.seqNo else st.cursor, work := Idle)
    case PostFail(now) => if st.work.Posting? && st.work.seqNo in st.queue then PostFailStep(st, st.work.seqNo, now) else st
    case GiveUp => if st.work.GivingUp? then st.(status := Failed, work := Idle) else st
    case _ => st
  }

  function NextBackfill(st: State, step: Step): State {
    match step
    case EnableRead => if st.backfill.NoBackfill? then st.(backfill := Snapshot(st.cursor)) else st
    case EnableSet =>
      if !st.backfill.Snapshot? then st
      else st.(status := Active, backfill := Fetching(st.backfill.cursor, st.backfill.cursor, false))
    case Fetch(page, upTo) =>
      if !st.backfill.Fetching? || !IsPage(st.log, st.backfill.from, page, upTo) then st
      else st.(backfill := Filling(st.backfill.cursor, page, upTo, st.backfill.paged && |page| == PAGE))
    case FillOne(s, now) =>
      if st.backfill.Filling? && s in st.backfill.todo && s in st.ever
         && forall t :: t in st.backfill.todo ==> s <= t
      then Enqueue(st, st.backfill.cursor, s, st.ever[s], now).(backfill := st.backfill.(todo := st.backfill.todo - {s}))
      else st
    case FillEnd =>
      if !st.backfill.Filling? || st.backfill.todo != {} then st
      else if st.backfill.more then st.(backfill := Fetching(st.backfill.cursor, st.backfill.upTo, true))
      else st.(backfill := NoBackfill)
    case _ => st
  }

  predicate IsRoom(step: Step) {
    step.Insert? || step.Purge?
  }

  predicate IsBackfill(step: Step) {
    step.EnableRead? || step.EnableSet? || step.Fetch? || step.FillOne? || step.FillEnd?
  }

  function Next(st: State, step: Step): State {
    if IsRoom(step) then NextRoom(st, step)
    else if IsBackfill(step) then NextBackfill(st, step)
    else NextWorker(st, step)
  }

  function Run(st: State, steps: seq<Step>): State
    decreases |steps|
  {
    if steps == [] then st else Run(Next(st, steps[0]), steps[1..])
  }

  // --- what changes what ---

  // What a filter lets through, criterion by criterion.
  lemma PassesExactly(f: Criteria, m: Msg)
    ensures Passes(f, m) <==>
              && (f.onlyFrom == None || f.onlyFrom == Some(m.author))
              && f.notFrom != Some(m.author)
              && (f.kinds == [] || exists k :: k in f.kinds && m.kind == Some(k))
              && m.metaType != Some("system")
              && (m.metaType == Some("thinking") ==> !f.excludeThinking)
  {}

  // A message is in the room from its insertion, above all numbers before, to the
  // purge that drops it.
  lemma LogChanges(st: State, step: Step, s: int)
    ensures var after := Next(st, step);
            var inserted := step.Insert? && step.seqNo == s && s > st.tip;
            && (s in after.log <==> inserted || (s in st.log && (step.Purge? ==> s in step.kept)))
            && (s in after.ever <==> inserted || s in st.ever)
            && (inserted ==> after.log[s] == step.m && after.ever[s] == step.m && after.tip == s)
            && (!inserted && s in after.log ==> after.log[s] == st.log[s])
            && (!inserted && s in st.ever ==> after.ever[s] == st.ever[s])
            && (!(step.Insert? && step.seqNo > st.tip) ==> after.tip == st.tip)
  {}

  // A row is queued once, for a message of the filter: when it is inserted, above the
  // cursor of an active subscription, or as the next one of a backfill.
  predicate QueuedNow(st: State, step: Step, s: int) {
    || (step.Insert? && step.seqNo == s && s > st.tip && st.status.Active? && s > st.cursor && Passes(st.filter, step.m))
    || (step.FillOne? && step.seqNo == s && st.backfill.Filling? && s in st.backfill.todo && s in st.ever
        && (forall t :: t in st.backfill.todo ==> s <= t) && s > st.backfill.cursor && Passes(st.filter, st.ever[s]))
  }

  // It goes with a successful request, with the sixth failed one, or when dropped.
  predicate UnqueuedNow(st: State, step: Step, s: int) {
    || (step.DropRow? && st.work == Dropping(s))
    || (step.PostOk? && st.work == Posting(s))
    || (step.PostFail? && st.work == Posting(s) && s in st.queue && st.queue[s].attempts >= 5)
  }

  lemma QueueChanges(st: State, step: Step, s: int)
    ensures s in Next(st, step).queue <==> QueuedNow(st, step, s) || (s in st.queue && !UnqueuedNow(st, step, s))
  {
    if IsBackfill(step) {
      BackfillQueues(st, step, s);
    } else if !IsRoom(step) {
      WorkerUnqueues(st, step, s);
    }
  }

  lemma BackfillQueues(st: State, step: Step, s: int)
    requires IsBackfill(step)
    ensures s in Next(st, step).queue <==> QueuedNow(st, step, s) || s in st.queue
    ensures s in st.queue ==> Next(st, step).queue[s] == st.queue[s]
  {}

  lemma WorkerUnqueues(st: State, step: Step, s: int)
    requires !IsRoom(step) && !IsBackfill(step)
    ensures s in Next(st, step).queue <==> s in st.queue && !UnqueuedNow(st, step, s)
  {}

  // A row's data: fresh at first, then one more attempt with each failure, and a wait
  // of 1, 4, 16, 64 and 256 seconds.
  lemma RowChanges(st: State, step: Step, s: int)
    requires s in Next(st, step).queue
    ensures var row := Next(st, step).queue[s];
            && (s !in st.queue ==> step.Insert? || step.FillOne?)
            && (s !in st.queue ==> row == Row(0, if step.Insert? then step.now else if step.FillOne? then step.now else 0, 0))
            && (s in st.queue && step.PostFail? && st.work == Posting(s) && st.queue[s].attempts < 5 ==>
                  row == Row(st.queue[s].attempts + 1, step.now + Pow4(st.queue[s].attempts), st.queue[s].posts + 1))
            && (s in st.queue && !(step.PostFail? && st.work == Posting(s)) ==> row == st.queue[s])
  {
    assert Pow4(2) == 16 && Pow4(4) == 256;
    if IsBackfill(step) { BackfillQueues(st, step, s); }
  }

  // A subscription fails with a blocked address or when the worker gives up on a row,
  // and is active again from its re-enabling on.
  lemma StatusChanges(st: State, step: Step)
    ensures Next(st, step).status.Active? <==>
              || (step.EnableSet? && st.backfill.Snapshot?)
              || (st.status.Active? && !(step.Blocked? && st.work.Posting?) && !(step.GiveUp? && st.work.GivingUp?))
  {}

  // Deliveries are the successful requests; the cursor follows them, upwards only.
  lemma DeliveryChanges(st: State, step: Step)
    ensures var after := Next(st, step);
            && after.delivered == (if step.PostOk? && st.work.Posting? then st.delivered + [st.work.seqNo] else st.delivered)
            && after.cursor == (if step.Advance? && st.work.Advancing? && st.work.seqNo > st.cursor then st.work.seqNo
                                else st.cursor)
  {}

  // The worker's course through one row.
  lemma WorkChanges(st: State, step: Step, s: int)
    ensures var w := Next(st, step).work;
            && (w == Loaded(s) <==>
                  || (step.Load? && step.seqNo == s && st.work.Idle? && IsHead(st.queue, s) && st.queue[s].due <= step.now)
                  || (st.work == Loaded(s) && !step.LookUp?))
            && (w == Looked(s) <==>
                  (step.LookUp? && st.work == Loaded(s) && st.status.Active?) || (st.work == Looked(s) && !step.ReadMessage?))
            && (w == Posting(s) <==>
                  || (step.ReadMessage? && st.work == Looked(s) && s in st.log)
                  || (st.work == Posting(s) && !step.Blocked? && !step.PostOk? && !(step.PostFail? && s in st.queue)))
  {}

  lemma WorkEnds(st: State, step: Step, s: int)
    ensures var w := Next(st, step).work;
            && (w == Dropping(s) <==>
                  || (step.LookUp? && st.work == Loaded(s) && st.status.Failed?)
                  || (step.ReadMessage? && st.work == Looked(s) && s !in st.log)
                  || (st.work == Dropping(s) && !step.DropRow?))
            && (w == Advancing(s) <==> (step.PostOk? && st.work == Posting(s)) || (st.work == Advancing(s) && !step.Advance?))
            && (w == GivingUp(s) <==>
                  || (step.PostFail? && st.work == Posting(s) && s in st.queue && st.queue[s].attempts >= 5)
                  || (st.work == GivingUp(s) && !step.GiveUp?))
  {}

  // The course of a backfill: the cursor read at its start serves to its end; a page
  // of a subscribe call that is full is followed by another, from where it ended.
  lemma BackfillChanges(st: State, step: Step)
    ensures Next(st, step).backfill ==
              match st.backfill
              case NoBackfill => if step.EnableRead? then Snapshot(st.cursor) else NoBackfill
              case Snapshot(c) => if step.EnableSet? then Fetching(c, c, false) else Snapshot(c)
              case Fetching(c, from, paged) =>
                if step.Fetch? && IsPage(st.log, from, step.page, step.upTo)
                then Filling(c, step.page, step.upTo, paged && |step.page| == 1000) else Fetching(c, from, paged)
              case Filling(c, todo, upTo, more) =>
                if step.FillEnd? && todo == {} then (if more then Fetching(c, upTo, true) else NoBackfill)
                else if step.FillOne? && step.seqNo in todo && step.seqNo in st.ever && forall t :: t in todo ==> step.seqNo <= t
                then Filling(c, todo - {step.seqNo}, upTo, more)
                else Filling(c, todo, upTo, more)
  {}

  // --- what is kept whatever the interleaving ---

  ghost predicate Known(st: State) {
    && (forall s :: s in st.log ==> s in st.ever && st.ever[s] == st.log[s])
    && (forall s :: s in st.ever ==> s <= st.tip)
    && (forall s :: s in st.queue ==> s in st.ever && Passes(st.filter, st.ever[s]))
    && (st.backfill.Filling? ==> forall s :: s in st.backfill.todo ==> s in st.ever)
  }

  // A row has been posted as often as it was attempted, at most five times.
  ghost predicate AttemptsBounded(st: State) {
    forall s :: s in st.queue ==> st.queue[s].posts == st.queue[s].attempts <= |RETRY_SCHEDULE_SECS|
  }

  lemma RoomKeepsKnown(st: State, step: Step)
    requires Known(st)
    ensures Known(NextRoom(st, step))
  {}

  lemma WorkerKeepsKnown(st: State, step: Step)
    requires Known(st)
    ensures Known(NextWorker(st, step))
  {}

  lemma BackfillKeepsKnown(st: State, step: Step)
    requires Known(st)
    ensures Known(NextBackfill(st, step))
  {}

  lemma NextKeepsAttemptsBounded(st: State, step: Step)
    requires AttemptsBounded(st)
    ensures AttemptsBounded(Next(st, step))
  {}

  lemma NextKeepsKnown(st: State, step: Step)
    requires Known(st)
    ensures Known(Next(st, step))
  {
    RoomKeepsKnown(st, step);
    WorkerKeepsKnown(st, step);
    BackfillKeepsKnown(st, step);
  }

  // What the worker has taken up passes the filter, and so does what it delivered.
  ghost predicate GenuineWork(st: State) {
    Genuine(st) && (st.work.Idle? || (st.work.seqNo in st.ever && Passes(st.filter, st.ever[st.work.seqNo])))
  }

  lemma RoomKeepsGenuine(st: State, step: Step)
    requires Known(st) && GenuineWork(st)
    ensures GenuineWork(NextRoom(st, step))
  {}

  lemma WorkerKeepsGenuine(st: State, step: Step)
    requires Known(st) && GenuineWork(st)
    ensures GenuineWork(NextWorker(st, step))
  {}

  lemma BackfillKeepsGenuine(st: State, step: Step)
    requires GenuineWork(st)
    ensures GenuineWork(NextBackfill(st, step))
  {}

  lemma {:induction false} RunKeepsGenuine(st: State, steps: seq<Step>)
    requires Known(st) && GenuineWork(st)
    ensures GenuineWork(Run(st, steps)) && Run(st, steps).filter == st.filter
    decreases |steps|
  {
    if steps != [] {
      NextKeepsKnown(st, steps[0]);
      RoomKeepsGenuine(st, steps[0]);
      WorkerKeepsGenuine(st, steps[0]);
      BackfillKeepsGenuine(st, steps[0]);
      RunKeepsGenuine(Next(st, steps[0]), steps[1..]);
    }
  }

  // Over every run whatsoever, a message that was delivered is by the one author
  // asked for, if one was, not by the one excluded, of a kind asked for, if any
  // were, no system message, and no thinking where that is excluded.
  lemma DeliversOnlyWanted(filter: Criteria, since: int, log: map<int, Msg>, tip: int, steps: seq<Step>, s: int)
    requires forall t :: t in log ==> t <= tip
    requires s in Run(Subscribed(filter, since, log, tip), steps).delivered
    ensures var st := Run(Subscribed(filter, since, log, tip), steps);
            && s in st.ever
            && var m := st.ever[s];
               && (forall a :: filter.onlyFrom == Some(a) ==> m.author == a)
               && filter.notFrom != Some(m.author)
               && (filter.kinds == [] || exists k :: k in filter.kinds && m.kind == Some(k))
               && m.metaType != Some("system")
               && (m.metaType == Some("thinking") ==> !filter.excludeThinking)
  {
    RunKeepsGenuine(Subscribed(filter, since, log, tip), steps);
  }

  lemma {:induction false} RunKeepsKnown(st: State, steps: seq<Step>)
    requires Known(st) && AttemptsBounded(st)
    ensures Known(Run(st, steps)) && AttemptsBounded(Run(st, steps))
    decreases |steps|
  {
    if steps != [] {
      NextKeepsKnown(st, steps[0]);
      NextKeepsAttemptsBounded(st, steps[0]);
      RunKeepsKnown(Next(st, steps[0]), steps[1..]);
    }
  }

  // A delivery is posted at most six times: its row is gone and the subscription
  // about to fail exactly when the sixth request fails; until then each failure
  // waits four times as long as the one before.
  lemma SixthFailureGivesUp(st: State, steps: seq<Step>, s: int, now: int)
    requires Known(st) && AttemptsBounded(st)
    ensures var at := Run(st, steps); at.work == Posting(s) && s in at.queue ==> FailsInTurn(at, Next(at, PostFail(now)), s, now)
  {
    RunKeepsKnown(st, steps);
    if Run(st, steps).work == Posting(s) && s in Run(st, steps).queue { FailureSpendsAttempt(Run(st, steps), s, now); }
  }

  predicate FailsInTurn(at: State, after: State, s: int, now: int)
    requires s in at.queue
  {
    && at.queue[s].posts <= 5
    && (at.queue[s].posts == 5 <==> s !in after.queue)
    && (s !in after.queue ==> after.work == GivingUp(s) && Next(after, GiveUp).status.Failed?)
    && (s in after.queue ==> after.queue[s].posts == at.queue[s].posts + 1
                             && after.queue[s].due == now + Pow4(at.queue[s].posts))
  }

  lemma FailureSpendsAttempt(at: State, s: int, now: int)
    requires AttemptsBounded(at) && at.work == Posting(s) && s in at.queue
    ensures FailsInTurn(at, Next(at, PostFail(now)), s, now)
  {
    assert Pow4(2) == 16 && Pow4(4) == 256;
    assert Next(at, PostFail(now)) == PostFailStep(at, s, now);
  }

  function Pow4(k: nat): nat {
    if k == 0 then 1 else 4 * Pow4(k - 1)
  }

  // --- in orderly runs ---

  // Still to be enqueued by the backfill in progress.
  predicate Awaits(b: Backfill, s: int) {
    match b
    case Fetching(_, from, _) => s > from
    case Filling(_, todo, upTo, more) => s in todo || (more && s > upTo)
    case _ => false
  }

  // A message the backfill will enqueue, unless it is purged before its page.
  predicate Owed(st: State, t: int) {
    && Awaits(st.backfill, t) && t in st.ever && Matches(st.filter, st.backfill.cursor, t, st.ever[t])
    && (t in st.log || (st.backfill.Filling? && t in st.backfill.todo))
  }

  // A last page leaves out no matching message that is not queued already.
  predicate PageSuffices(st: State, page: set<int>, upTo: int) {
    |page| < PAGE
    || forall s :: s in st.log && Matches(st.filter, st.cursor, s, st.log[s]) && s > upTo ==> s in st.queue
  }

  // The worker takes up no row at or beyond a message that a backfill still has
  // to enqueue; a subscription is re-enabled while the worker is idle for it,
  // and its one page suffices.
  ghost predicate OrderlyStep(st: State, step: Step) {
    && (step.Load? ==> !st.backfill.Snapshot? && forall t :: Owed(st, t) ==> step.seqNo < t)
    && (step.EnableRead? ==> st.work.Idle?)
    && (step.Fetch? && st.backfill.Fetching? && !st.backfill.paged ==> PageSuffices(st, step.page, step.upTo))
  }

  ghost predicate OrderlyRun(st: State, steps: seq<Step>)
    decreases |steps|
  {
    steps == [] || (OrderlyStep(st, steps[0]) && OrderlyRun(Next(st, steps[0]), steps[1..]))
  }

  // How far deliveries have come, the one under way included.
  function Head(st: State): int {
    if st.work.Idle? || st.work.GivingUp? then st.cursor else st.work.seqNo
  }

  // Whatever a backfill still has to enqueue lies beyond that.
  ghost predicate OwedBeyond(st: State) {
    && (st.backfill.Snapshot? ==> st.work.Idle? && st.backfill.cursor == st.cursor)
    && (!st.backfill.NoBackfill? ==> st.since <= st.backfill.cursor <= st.cursor)
    && (forall t :: Owed(st, t) ==> Head(st) < t)
  }

  // The worker is at the head of the queue, above the cursor.
  ghost predicate AtHead(st: State) {
    && (forall q :: q in st.queue ==> q > st.cursor)
    && (st.work.Loaded? || st.work.Looked? || st.work.Posting? || st.work.Dropping? ==> IsHead(st.queue, st.work.seqNo))
    && (st.work.Looked? || st.work.Posting? || st.work.Advancing? ==> st.status.Active?)
    && (st.work.Dropping? ==> st.status.Failed? || st.work.seqNo !in st.log)
    && (st.work.Advancing? ==> st.cursor < st.work.seqNo <= st.tip && forall q :: q in st.queue ==> st.work.seqNo < q)
  }

  function Reached(st: State): int {
    if st.work.Advancing? then st.work.seqNo else st.cursor
  }

  // Deliveries went out in increasing order, up to what was reached.
  ghost predicate InOrder(st: State) {
    && (forall i, j :: 0 <= i < j < |st.delivered| ==> st.delivered[i] < st.delivered[j])
    && (forall i :: 0 <= i < |st.delivered| ==> st.since < st.delivered[i] <= Reached(st))
    && (st.work.Advancing? ==> st.work.seqNo in st.delivered)
    && st.since <= st.cursor
  }

  ghost predicate Genuine(st: State) {
    forall s :: s in st.delivered ==> s in st.ever && Passes(st.filter, st.ever[s])
  }

  predicate Accounted(st: State, s: int) {
    s in st.queue || st.work == Advancing(s) || st.work == GivingUp(s) || Awaits(st.backfill, s)
  }

  // Every retained matching message beyond the cursor is queued or about to be.
  ghost predicate Complete(st: State) {
    st.status.Active? ==> forall s :: s in st.log && Matches(st.filter, st.cursor, s, st.log[s]) ==> Accounted(st, s)
  }

  // Every retained matching message up to the cursor was delivered.
  ghost predicate NoGap(st: State) {
    forall s :: s in st.log && Matches(st.filter, st.since, s, st.log[s]) && s <= st.cursor ==> s in st.delivered
  }

  ghost predicate QueueInv(st: State) {
    Known(st) && OwedBeyond(st) && AtHead(st) && InOrder(st) && Genuine(st) && Complete(st) && NoGap(st)
  }

  lemma RoomKeepsHead(st: State, step: Step)
    requires Known(st) && AtHead(st)
    ensures AtHead(NextRoom(st, step))
  {}

  lemma RoomKeepsOwed(st: State, step: Step)
    requires Known(st) && OwedBeyond(st) && AtHead(st) && CursorReached(st)
    ensures OwedBeyond(NextRoom(st, step))
  {
    var after := NextRoom(st, step);
    forall t | Owed(after, t)
      ensures Head(after) < t
    {
      if t in st.ever { assert Owed(st, t); }
    }
  }

  lemma RoomKeepsOrder(st: State, step: Step)
    requires InOrder(st) && Known(st) && Genuine(st)
    ensures InOrder(NextRoom(st, step)) && Genuine(NextRoom(st, step))
  {}

  lemma InsertKeepsComplete(st: State, s: int, m: Msg, now: int)
    requires Complete(st) && Known(st) && s > st.tip
    ensures Complete(InsertStep(st, s, m, now))
  {
    var after := InsertStep(st, s, m, now);
    if after.status.Active? {
      forall t | t in after.log && Matches(after.filter, after.cursor, t, after.log[t])
        ensures Accounted(after, t)
      {
        if t != s { assert Accounted(st, t); }
      }
    }
  }

  lemma RoomKeepsComplete(st: State, step: Step)
    requires Complete(st) && Known(st)
    ensures Complete(NextRoom(st, step))
  {
    if step.Insert? && step.seqNo > st.tip {
      InsertKeepsComplete(st, step.seqNo, step.m, step.now);
    } else if step.Purge? {
      var after := NextRoom(st, step);
      assert forall t :: t in after.log ==> (Accounted(after, t) <==> Accounted(st, t));
    }
  }

  // A message stored below the cursor would be passed over; none is, because
  // the cursor only reaches sequence numbers already used, or the caller's start.
  lemma RoomKeepsNoGap(st: State, step: Step)
    requires NoGap(st) && InOrder(st) && (st.cursor <= st.tip || st.cursor == st.since)
    ensures NoGap(NextRoom(st, step))
  {}

  lemma WorkerKeepsHead(st: State, step: Step)
    requires Known(st) && AtHead(st)
    ensures AtHead(NextWorker(st, step))
  {}

  lemma WorkerKeepsOwed(st: State, step: Step)
    requires Known(st) && OwedBeyond(st) && AtHead(st) && OrderlyStep(st, step)
    ensures OwedBeyond(NextWorker(st, step))
  {
    var after := NextWorker(st, step);
    forall t | Owed(after, t)
      ensures Head(after) < t
    {
      assert Owed(st, t);
    }
  }

  lemma PostOkKeepsOrder(st: State)
    requires Known(st) && AtHead(st) && InOrder(st) && Genuine(st) && st.work.Posting?
    ensures InOrder(NextWorker(st, PostOk)) && Genuine(NextWorker(st, PostOk))
  {}

  lemma WorkerKeepsOrder(st: State, step: Step)
    requires Known(st) && AtHead(st) && InOrder(st) && Genuine(st)
    ensures InOrder(NextWorker(st, step)) && Genuine(NextWorker(st, step))
  {
    if step.PostOk? && st.work.Posting? { PostOkKeepsOrder(st); }
  }

  lemma WorkerKeepsComplete(st: State, step: Step)
    requires AtHead(st) && Complete(st)
    ensures Complete(NextWorker(st, step))
  {
    var after := NextWorker(st, step);
    if after.status.Active? {
      forall t | t in after.log && Matches(after.filter, after.cursor, t, after.log[t])
        ensures Accounted(after, t)
      {
        assert Accounted(st, t);
      }
    }
  }

  // Nothing the filter accepts lies between the cursor and the head.
  lemma WorkerKeepsNoGap(st: State, step: Step)
    requires Known(st) && AtHead(st) && Complete(st) && NoGap(st) && OwedBeyond(st) && InOrder(st)
    ensures NoGap(NextWorker(st, step))
  {
    var after := NextWorker(st, step);
    forall t | t in after.log && Matches(after.filter, after.since, t, after.log[t]) && t <= after.cursor
      ensures t in after.delivered
    {
      if t > st.cursor {
        assert Accounted(st, t);
        assert Awaits(st.backfill, t) ==> Owed(st, t);
        assert st.work == Advancing(t);
      }
    }
  }

  lemma BackfillKeepsHead(st: State, step: Step)
    requires Known(st) && OwedBeyond(st) && AtHead(st)
    ensures AtHead(NextBackfill(st, step))
  {
    if step.FillOne? && NextBackfill(st, step) != st && Matches(st.filter, st.backfill.cursor, step.seqNo, st.ever[step.seqNo]) {
      assert Owed(st, step.seqNo);
    }
  }

  lemma BackfillKeepsOwed(st: State, step: Step)
    requires Known(st) && OwedBeyond(st) && AtHead(st) && OrderlyStep(st, step) && st.since <= st.cursor
    ensures OwedBeyond(NextBackfill(st, step))
  {
    var after := NextBackfill(st, step);
    forall t | Owed(after, t)
      ensures Head(after) < t
    {
      if !st.backfill.Snapshot? { assert Owed(st, t); }
    }
  }

  lemma PageIsEverything(log: map<int, Msg>, from: int, page: set<int>, upTo: int)
    requires IsPage(log, from, page, upTo) && |Above(log, from)| <= PAGE
    ensures page == Above(log, from)
  {
    var rest := Above(log, from) - page;
    if rest == {} {
      assert forall s :: s in Above(log, from) ==> s in page;
    } else {
      var x :| x in rest;
      SubsetSize(page + {x}, Above(log, from));
    }
  }

  lemma FetchKeepsComplete(st: State, page: set<int>, upTo: int)
    requires OwedBeyond(st) && Complete(st) && OrderlyStep(st, Fetch(page, upTo))
    ensures Complete(NextBackfill(st, Fetch(page, upTo)))
  {
    var after := NextBackfill(st, Fetch(page, upTo));
    if after != st && st.status.Active? {
      forall t | t in after.log && Matches(after.filter, after.cursor, t, after.log[t])
        ensures Accounted(after, t)
      {
        assert Accounted(st, t);
        if Awaits(st.backfill, t) {
          assert t in Above(st.log, st.backfill.from);
        }
      }
    }
  }

  lemma FillKeepsComplete(st: State, step: Step)
    requires Known(st) && OwedBeyond(st) && Complete(st) && (step.FillOne? || step.FillEnd?)
    ensures Complete(NextBackfill(st, step))
  {
    var after := NextBackfill(st, step);
    if after != st && st.status.Active? {
      forall t | t in after.log && Matches(after.filter, after.cursor, t, after.log[t])
        ensures Accounted(after, t)
      {
        assert Accounted(st, t);
      }
    }
  }

  lemma EnableKeepsComplete(st: State, step: Step)
    requires OwedBeyond(st) && Complete(st) && (step.EnableRead? || step.EnableSet?)
    ensures Complete(NextBackfill(st, step))
  {
    var after := NextBackfill(st, step);
    if step.EnableRead? {
      assert forall t :: Accounted(st, t) ==> Accounted(after, t);
    }
  }

  lemma BackfillKeepsComplete(st: State, step: Step)
    requires Known(st) && OwedBeyond(st) && Complete(st) && OrderlyStep(st, step) && IsBackfill(step)
    ensures Complete(NextBackfill(st, step))
  {
    if step.Fetch? {
      FetchKeepsComplete(st, step.page, step.upTo);
    } else if step.FillOne? || step.FillEnd? {
      FillKeepsComplete(st, step);
    } else {
      EnableKeepsComplete(st, step);
    }
  }

  lemma BackfillKeepsHistory(st: State, step: Step)
    ensures var after := NextBackfill(st, step);
            && after.delivered == st.delivered && after.cursor == st.cursor && after.since == st.since
            && after.log == st.log && after.ever == st.ever && after.filter == st.filter && after.work == st.work
  {}

  ghost predicate CursorReached(st: State) {
    st.cursor <= st.tip || st.cursor == st.since
  }

  lemma NextKeepsCursorReached(st: State, step: Step)
    requires CursorReached(st) && AtHead(st)
    ensures CursorReached(Next(st, step))
  {
    BackfillKeepsTip(st, step);
  }

  lemma BackfillKeepsTip(st: State, step: Step)
    ensures var after := NextBackfill(st, step);
            after.tip == st.tip && after.cursor == st.cursor && after.since == st.since
  {}

  lemma NextKeepsQueueInv(st: State, step: Step)
    requires QueueInv(st) && CursorReached(st) && OrderlyStep(st, step)
    ensures QueueInv(Next(st, step)) && CursorReached(Next(st, step))
  {
    NextKeepsCursorReached(st, step);
    NextKeepsKnown(st, step);
    if IsRoom(step) {
      RoomKeepsHead(st, step);
      RoomKeepsOwed(st, step);
      RoomKeepsOrder(st, step);
      RoomKeepsComplete(st, step);
      RoomKeepsNoGap(st, step);
    } else if IsBackfill(step) {
      BackfillKeepsHead(st, step);
      BackfillKeepsOwed(st, step);
      BackfillKeepsComplete(st, step);
      BackfillKeepsHistory(st, step);
    } else {
      WorkerKeepsHead(st, step);
      WorkerKeepsOwed(st, step);
      WorkerKeepsOrder(st, step);
      WorkerKeepsComplete(st, step);
      WorkerKeepsNoGap(st, step);
    }
  }

  lemma {:induction false} RunKeepsQueueInv(st: State, steps: seq<Step>)
    requires QueueInv(st) && CursorReached(st) && OrderlyRun(st, steps)
    ensures QueueInv(Run(st, steps)) && CursorReached(Run(st, steps))
    decreases |steps|
  {
    if steps != [] {
      NextKeepsQueueInv(st, steps[0]);
      RunKeepsQueueInv(Next(st, steps[0]), steps[1..]);
    }
  }

  lemma SubscribedIsSound(filter: Criteria, since: int, log: map<int, Msg>, tip: int)
    requires forall s :: s in log ==> s <= tip
    ensures QueueInv(Subscribed(filter, since, log, tip)) && CursorReached(Subscribed(filter, since, log, tip))
  {}

  // Over every orderly run from the subscribe call on, deliveries during
  // backfills included: what was delivered is in increasing order without
  // repetition and passes the filter; every retained matching message up to the
  // cursor was delivered; and while the subscription is active and at rest,
  // every later one is queued, and nothing at or below the cursor is.
  lemma DeliversEverythingInOrder(filter: Criteria, since: int, log: map<int, Msg>, tip: int, steps: seq<Step>)
    requires forall s :: s in log ==> s <= tip
    requires OrderlyRun(Subscribed(filter, since, log, tip), steps)
    ensures var st := Run(Subscribed(filter, since, log, tip), steps);
            && (forall i, j :: 0 <= i < j < |st.delivered| ==> st.delivered[i] < st.delivered[j])
            && (forall s :: s in st.delivered ==> s in st.ever && Passes(st.filter, st.ever[s]) && s > st.since)
            && (forall s :: s in st.log && Matches(st.filter, st.since, s, st.log[s]) && s <= st.cursor ==> s in st.delivered)
            && (forall s :: s in st.queue ==> s > st.cursor)
            && (st.status.Active? && st.backfill.NoBackfill? && st.work.Idle? ==>
                  forall s :: s in st.log && Matches(st.filter, st.cursor, s, st.log[s]) ==> s in st.queue)
  {
    SubscribedIsSound(filter, since, log, tip);
    RunKeepsQueueInv(Subscribed(filter, since, log, tip), steps);
    var st := Run(Subscribed(filter, since, log, tip), steps);
    if st.status.Active? && st.backfill.NoBackfill? && st.work.Idle? {
      forall s | s in st.log && Matches(st.filter, st.cursor, s, st.log[s])
        ensures s in st.queue
      {
        assert Accounted(st, s);
      }
    }
  }

  // --- where the code falls short ---

  // The queue once the rest of a page has been filled in.
  function Filled(st: State, todo: set<int>, now: int): map<int, Row>
    requires st.backfill.Filling?
  {
    map s | s in st.queue.Keys + (set t | t in todo && t in st.ever && Matches(st.filter, st.backfill.cursor, t, st.ever[t]))
      :: if s in st.queue then st.queue[s] else Row(0, now, 0)
  }

  // A last page is filled in by as many steps as it has messages.
  lemma {:induction false} FillRuns(st: State, now: int) returns (steps: seq<Step>)
    requires st.backfill.Filling? && !st.backfill.more
    requires forall s :: s in st.backfill.todo ==> s in st.ever
    ensures Run(st, steps) == st.(queue := Filled(st, st.backfill.todo, now), backfill := NoBackfill)
    decreases |st.backfill.todo|
  {
    var todo := st.backfill.todo;
    if todo == {} {
      steps := [FillEnd];
      LastStep(st, FillEnd);
      assert Filled(st, todo, now) == st.queue;
    } else {
      var s := LeastOf(todo);
      var next := Next(st, FillOne(s, now));
      FillOneKeepsFilled(st, s, now);
      var rest := FillRuns(next, now);
      steps := [FillOne(s, now)] + rest;
      assert steps[1..] == rest;
    }
  }

  lemma FillOneKeepsFilled(st: State, s: int, now: int)
    requires st.backfill.Filling? && s in st.backfill.todo && s in st.ever
    requires forall t :: t in st.backfill.todo ==> s <= t
    ensures var next := Next(st, FillOne(s, now));
            && next == st.(queue := next.queue, backfill := st.backfill.(todo := st.backfill.todo - {s}))
            && Filled(next, st.backfill.todo - {s}, now) == Filled(st, st.backfill.todo, now)
  {}

  // A re-enabled subscription replays one page: with the worker idle, and
  // whatever rows are still queued, the backlog is recovered exactly when the
  // page suffices.
  lemma EnableRecoversExactly(st: State, page: set<int>, upTo: int, now: int) returns (steps: seq<Step>)
    requires Known(st) && st.work.Idle? && st.backfill.NoBackfill?
    requires IsPage(st.log, st.cursor, page, upTo)
    ensures var after := Run(st, [EnableRead, EnableSet, Fetch(page, upTo)] + steps);
            && after.status.Active? && after.backfill.NoBackfill?
            && (Complete(after) <==> PageSuffices(st, page, upTo))
  {
    var fetched := st.(status := Active, backfill := Filling(st.cursor, page, upTo, false));
    EnableFetchesPage(st, page, upTo);
    steps := FillRuns(fetched, now);
    Chain(st, fetched, [EnableRead, EnableSet, Fetch(page, upTo)], steps);
    FilledIsComplete(st, page, upTo, fetched.(queue := Filled(fetched, page, now), backfill := NoBackfill));
  }

  lemma EnableFetchesPage(st: State, page: set<int>, upTo: int)
    requires st.backfill.NoBackfill? && IsPage(st.log, st.cursor, page, upTo)
    ensures Run(st, [EnableRead, EnableSet, Fetch(page, upTo)])
         == st.(status := Active, backfill := Filling(st.cursor, page, upTo, false))
  {
    var read := Next(st, EnableRead);
    var activated := Next(read, EnableSet);
    assert activated == st.(status := Active, backfill := Fetching(st.cursor, st.cursor, false));
    assert [EnableRead, EnableSet, Fetch(page, upTo)][1..] == [EnableSet, Fetch(page, upTo)];
    assert [EnableSet, Fetch(page, upTo)][1..] == [Fetch(page, upTo)];
    LastStep(activated, Fetch(page, upTo));
  }

  lemma FilledIsComplete(st: State, page: set<int>, upTo: int, after: State)
    requires IsPage(st.log, st.cursor, page, upTo)
    requires after == st.(status := Active, queue := after.queue, backfill := NoBackfill) && st.work.Idle?
    requires forall s :: s in after.queue <==>
               s in st.queue || (s in page && s in st.ever && Matches(st.filter, st.cursor, s, st.ever[s]))
    requires Known(st)
    ensures Complete(after) <==> PageSuffices(st, page, upTo)
  {
    if PageSuffices(st, page, upTo) {
      forall s | s in after.log && Matches(after.filter, after.cursor, s, after.log[s])
        ensures Accounted(after, s)
      {
        assert s in Above(st.log, st.cursor);
      }
    } else {
      var s :| s in st.log && Matches(st.filter, st.cursor, s, st.log[s]) && s > upTo && s !in st.queue;
      assert s !in page && !Accounted(after, s);
    }
  }

  // A backlog of at most a page always does.
  lemma SmallBacklogSuffices(st: State, page: set<int>, upTo: int)
    requires IsPage(st.log, st.cursor, page, upTo) && |Above(st.log, st.cursor)| <= PAGE
    ensures PageSuffices(st, page, upTo)
  {
    PageIsEverything(st.log, st.cursor, page, upTo);
    forall s | s in st.log && Matches(st.filter, st.cursor, s, st.log[s])
      ensures s <= upTo
    {
      assert s in Above(st.log, st.cursor);
    }
  }

  // What is wanted arrives: over every orderly run, a retained message beyond the
  // start that meets every criterion was delivered if the cursor has passed it, and
  // is queued if not, as long as the subscription is active and at rest.
  lemma WantedIsDelivered(filter: Criteria, since: int, log: map<int, Msg>, tip: int, steps: seq<Step>, s: int)
    requires forall t :: t in log ==> t <= tip
    requires OrderlyRun(Subscribed(filter, since, log, tip), steps)
    requires var st := Run(Subscribed(filter, since, log, tip), steps);
             && s > since && s in st.log
             && var m := st.log[s];
                && (filter.onlyFrom == None || filter.onlyFrom == Some(m.author))
                && filter.notFrom != Some(m.author)
                && (filter.kinds == [] || exists k :: k in filter.kinds && m.kind == Some(k))
                && m.metaType != Some("system")
                && (m.metaType == Some("thinking") ==> !filter.excludeThinking)
    ensures var st := Run(Subscribed(filter, since, log, tip), steps);
            && (s <= st.cursor ==> s in st.delivered)
            && (s > st.cursor && st.status.Active? && st.backfill.NoBackfill? && st.work.Idle? ==> s in st.queue)
  {
    DeliversEverythingInOrder(filter, since, log, tip, steps);
    RunKeepsTerms(Subscribed(filter, since, log, tip), steps);
  }

  lemma {:induction false} RunKeepsTerms(st: State, steps: seq<Step>)
    ensures Run(st, steps).filter == st.filter && Run(st, steps).since == st.since
    decreases |steps|
  {
    if steps != [] {
      NextKeepsTerms(st, steps[0]);
      RunKeepsTerms(Next(st, steps[0]), steps[1..]);
    }
  }

  lemma NextKeepsTerms(st: State, step: Step)
    ensures Next(st, step).filter == st.filter && Next(st, step).since == st.since
  {}

  // --- deliveries during a backfill ---

  // One successful delivery.
  function Deliver(s: int, now: int): seq<Step> {
    [Load(s, now), LookUp, ReadMessage, PostOk] + [Advance]
  }

  function Delivered(st: State, s: int): State {
    st.(queue := st.queue - {s}, delivered := st.delivered + [s], cursor := if s > st.cursor then s else st.cursor)
  }

  lemma DeliverRuns(st: State, s: int, now: int)
    requires st.work.Idle? && st.status.Active? && IsHead(st.queue, s) && st.queue[s].due <= now && s in st.log
    ensures Run(st, Deliver(s, now)) == Delivered(st, s)
  {
    var loaded := st.(work := Loaded(s));
    var posted := Next(st.(work := Posting(s)), PostOk);
    Run4(st, Load(s, now), LookUp, ReadMessage, PostOk);
    LoadedIsPosting(loaded, s);
    Chain(st, posted, [Load(s, now), LookUp, ReadMessage, PostOk], [Advance]);
    LastStep(posted, Advance);
  }

  predicate NothingStale(st: State) {
    forall q :: q in st.queue ==> q > st.cursor
  }

  // A row delivered while a last page is being filled in: when the backfill is
  // through, no row at or below the cursor is queued, to be sent late or again,
  // exactly when the backfill owed nothing up to that row.
  lemma DeliveryDuringFillExactly(st: State, s: int, now: int) returns (steps: seq<Step>)
    requires Known(st) && st.work.Idle? && st.status.Active? && NothingStale(st)
    requires IsHead(st.queue, s) && st.queue[s].due <= now && s in st.log
    requires st.backfill.Filling? && !st.backfill.more
    ensures var after := Run(st, Deliver(s, now) + steps);
            after.backfill.NoBackfill? && (NothingStale(after) <==> forall t :: Owed(st, t) ==> s < t)
  {
    var mid := Delivered(st, s);
    DeliverRuns(st, s, now);
    steps := FillRuns(mid, now);
    Chain(st, mid, Deliver(s, now), steps);
    OwedRowsAreStale(st, mid, s, mid.(queue := Filled(mid, mid.backfill.todo, now), backfill := NoBackfill));
  }

  lemma OwedRowsAreStale(st: State, mid: State, s: int, after: State)
    requires Known(st) && mid == Delivered(st, s) && IsHead(st.queue, s) && s > st.cursor
    requires st.backfill.Filling? && !st.backfill.more && after.cursor == s
    requires forall q :: q in after.queue <==>
               q in mid.queue || (q in st.backfill.todo && q in st.ever && Matches(st.filter, st.backfill.cursor, q, st.ever[q]))
    ensures NothingStale(after) <==> forall t :: Owed(st, t) ==> s < t
  {
    if NothingStale(after) {
      forall t | Owed(st, t)
        ensures s < t
      {
        assert t in after.queue;
      }
    } else {
      var q :| q in after.queue && q <= s;
      assert Owed(st, q);
    }
  }

  // The same for one delivered before the page of a short backlog is fetched, as
  // it may be right after subscribing.
  lemma DeliveryBeforePageExactly(st: State, s: int, page: set<int>, upTo: int, now: int) returns (steps: seq<Step>)
    requires Known(st) && st.work.Idle? && st.status.Active? && NothingStale(st)
    requires IsHead(st.queue, s) && st.queue[s].due <= now && s in st.log
    requires st.backfill.Fetching? && IsPage(st.log, st.backfill.from, page, upTo) && |page| < PAGE
    ensures var after := Run(st, Deliver(s, now) + ([Fetch(page, upTo)] + steps));
            after.backfill.NoBackfill? && (NothingStale(after) <==> forall t :: Owed(st, t) ==> s < t)
  {
    var mid := Delivered(st, s);
    DeliverRuns(st, s, now);
    var early := st.(backfill := Filling(st.backfill.cursor, page, upTo, false));
    var fetched := Delivered(early, s);
    LastStep(mid, Fetch(page, upTo));
    assert Run(mid, [Fetch(page, upTo)]) == fetched;
    steps := FillRuns(fetched, now);
    Chain(st, mid, Deliver(s, now), [Fetch(page, upTo)] + steps);
    Chain(mid, fetched, [Fetch(page, upTo)], steps);
    OwedRowsAreStale(early, fetched, s, fetched.(queue := Filled(fetched, page, now), backfill := NoBackfill));
    forall t
      ensures Owed(st, t) <==> Owed(early, t)
    {
      assert t in st.log && t > st.backfill.from ==> t in Above(st.log, st.backfill.from);
    }
  }

  // A worker that saw the subscription failed drops a row; nothing is lost
  // exactly when it has not been re-enabled since, or the message is gone, or
  // the backfill of the re-enabling has yet to come to it.
  lemma LateDropExactly(st: State)
    requires AtHeadButDropping(st) && Complete(st)
    requires st.work.seqNo in st.log ==> Passes(st.filter, st.log[st.work.seqNo])
    ensures Complete(Next(st, DropRow)) <==>
              (st.status.Failed? || st.work.seqNo !in st.log || Awaits(st.backfill, st.work.seqNo))
  {
    var after := Next(st, DropRow);
    if st.status.Failed? || st.work.seqNo !in st.log || Awaits(st.backfill, st.work.seqNo) {
      forall t | after.status.Active? && t in after.log && Matches(after.filter, after.cursor, t, after.log[t])
        ensures Accounted(after, t)
      {
        assert Accounted(st, t);
      }
    } else {
      assert !Accounted(after, st.work.seqNo);
    }
  }

  ghost predicate AtHeadButDropping(st: State) {
    st.work.Dropping? && IsHead(st.queue, st.work.seqNo) && st.work.seqNo > st.cursor
  }

  lemma {:induction false} RunConcat(st: State, xs: seq<Step>, ys: seq<Step>)
    ensures Run(st, xs + ys) == Run(Run(st, xs), ys)
    decreases |xs|
  {
    if xs == [] {
      assert xs + ys == ys;
    } else {
      assert (xs + ys)[1..] == xs[1..] + ys;
      RunConcat(Next(st, xs[0]), xs[1..], ys);
    }
  }

  lemma Run4(st: State, a: Step, b: Step, c: Step, d: Step)
    ensures Run(st, [a, b, c, d]) == Next(Next(Next(Next(st, a), b), c), d)
  {
    var s1 := Next(st, a);
    var s2 := Next(s1, b);
    var s3 := Next(s2, c);
    assert [a, b, c, d][1..] == [b, c, d] && [b, c, d][1..] == [c, d] && [c, d][1..] == [d] && [d][1..] == [];
    assert Run(s3, [d]) == Next(s3, d);
    assert Run(s2, [c, d]) == Run(s3, [d]);
    assert Run(s1, [b, c, d]) == Run(s2, [c, d]);
  }

  const ANY := Criteria(false, [], None, None)
  const CHAT := Msg(None, None, "someone")

  lemma Chain(a: State, b: State, xs: seq<Step>, ys: seq<Step>)
    requires Run(a, xs) == b
    ensures Run(a, xs + ys) == Run(b, ys)
  {
    RunConcat(a, xs, ys);
  }

  // A subscription to a room holding at most one message, number 1.
  function Single(log: map<int, Msg>, queued: bool, work: Work, status: Status, backfill: Backfill): State {
    State(ANY, 0, log, |log|, status, 0, if queued then map[1 := Row(0, 0, 0)] else map[], work, backfill, log, [])
  }

  const ONE := map[1 := CHAT]

  lemma OneIsSingle()
    ensures |ONE| == 1 && Above(ONE, 0) == {1} && IsPage(ONE, 0, {1}, 1) && IsPage(map[], 0, {}, 0)
  {
    assert ONE.Keys == {1};
    assert Above(map[], 0) == {};
  }

  const ARRIVES := [Fetch({}, 0), FillEnd, Insert(1, CHAT, 0), Load(1, 0)]

  lemma MessageArrives()
    ensures Run(Subscribed(ANY, 0, map[], 0), ARRIVES) == Single(ONE, true, Loaded(1), Active, NoBackfill)
  {
    OneIsSingle();
    var start := Subscribed(ANY, 0, map[], 0);
    Run4(start, Fetch({}, 0), FillEnd, Insert(1, CHAT, 0), Load(1, 0));
    var a := Next(start, Fetch({}, 0));
    assert a == start.(backfill := Filling(0, {}, 0, false));
    var b := Next(a, FillEnd);
    assert b == start.(backfill := NoBackfill);
    var c := Next(b, Insert(1, CHAT, 0));
    assert c.queue == map[1 := Row(0, 0, 0)];
    assert c == Single(ONE, true, Idle, Active, NoBackfill);
  }

  // A loaded delivery of an active subscription is on its way two steps later.
  lemma LoadedIsPosting(st: State, s: int)
    requires st.work == Loaded(s) && st.status.Active? && s in st.log
    ensures Next(Next(st, LookUp), ReadMessage) == st.(work := Posting(s))
  {}

  const RACES := [LookUp, ReadMessage, EnableRead, PostOk]

  lemma PostsDuringEnable(st: State)
    requires st.work == Posting(1) && st.backfill.NoBackfill? && st.cursor == 0 && st.delivered == [] && st.queue.Keys == {1}
    ensures Next(Next(st, EnableRead), PostOk)
         == st.(work := Advancing(1), backfill := Snapshot(0), queue := map[], delivered := [1])
  {
    assert st.queue - {1} == map[];
  }

  lemma EnableReadsWhilePosting()
    ensures Run(Single(ONE, true, Loaded(1), Active, NoBackfill), RACES)
         == Single(ONE, false, Advancing(1), Active, Snapshot(0)).(delivered := [1])
  {
    var start := Single(ONE, true, Loaded(1), Active, NoBackfill);
    Run4(start, LookUp, ReadMessage, EnableRead, PostOk);
    LoadedIsPosting(start, 1);
    PostsDuringEnable(start.(work := Posting(1)));
  }

  const REFILLS := [Advance, EnableSet, Fetch({1}, 1), FillOne(1, 0)]

  lemma EnableRefillsDelivered()
    ensures Run(Single(ONE, false, Advancing(1), Active, Snapshot(0)).(delivered := [1]), REFILLS)
         == Single(ONE, true, Idle, Active, Filling(0, {}, 1, false)).(delivered := [1], cursor := 1)
  {
    OneIsSingle();
    var start := Single(ONE, false, Advancing(1), Active, Snapshot(0)).(delivered := [1]);
    Run4(start, Advance, EnableSet, Fetch({1}, 1), FillOne(1, 0));
    var advanced := start.(work := Idle, cursor := 1);
    assert Next(start, Advance) == advanced;
    EnableFetches(advanced);
    FillOneQueues(advanced.(backfill := Filling(0, {1}, 1, false)), 1);
    assert {1} - {1} == {};
  }

  const RELOADS := [FillEnd, Load(1, 0), LookUp, ReadMessage]

  lemma FilledIsLoaded(st: State)
    requires st.backfill == Filling(0, {}, 1, false) && st.work.Idle? && st.queue == map[1 := Row(0, 0, 0)]
    ensures Next(Next(st, FillEnd), Load(1, 0)) == st.(backfill := NoBackfill, work := Loaded(1))
  {}

  lemma DeliveredIsReloaded()
    ensures Run(Single(ONE, true, Idle, Active, Filling(0, {}, 1, false)).(delivered := [1], cursor := 1), RELOADS)
         == Single(ONE, true, Posting(1), Active, NoBackfill).(delivered := [1], cursor := 1)
  {
    var start := Single(ONE, true, Idle, Active, Filling(0, {}, 1, false)).(delivered := [1], cursor := 1);
    Run4(start, FillEnd, Load(1, 0), LookUp, ReadMessage);
    FilledIsLoaded(start);
    LoadedIsPosting(start.(backfill := NoBackfill, work := Loaded(1)), 1);
  }

  // Enabling an active subscription while a delivery is on its way sends the
  // message twice.
  lemma EnableDuringDeliveryRepeats()
    ensures Run(Subscribed(ANY, 0, map[], 0), ARRIVES + (RACES + (REFILLS + (RELOADS + [PostOk])))).delivered == [1, 1]
  {
    MessageArrives();
    EnableReadsWhilePosting();
    EnableRefillsDelivered();
    DeliveredIsReloaded();
    var e := Single(ONE, true, Posting(1), Active, NoBackfill).(delivered := [1], cursor := 1);
    Chain4(Subscribed(ANY, 0, map[], 0), Single(ONE, true, Loaded(1), Active, NoBackfill),
           Single(ONE, false, Advancing(1), Active, Snapshot(0)).(delivered := [1]),
           Single(ONE, true, Idle, Active, Filling(0, {}, 1, false)).(delivered := [1], cursor := 1), e,
           ARRIVES, RACES, REFILLS, RELOADS, [PostOk]);
    RepeatsAtLast(e);
  }

  lemma RepeatsAtLast(st: State)
    requires st.work == Posting(1)
    ensures Run(st, [PostOk]).delivered == st.delivered + [1]
  {
    LastStep(st, PostOk);
  }

  lemma Chain4(a: State, b: State, c: State, d: State, e: State,
               ab: seq<Step>, bc: seq<Step>, cd: seq<Step>, de: seq<Step>, rest: seq<Step>)
    requires Run(a, ab) == b && Run(b, bc) == c && Run(c, cd) == d && Run(d, de) == e
    ensures Run(a, ab + (bc + (cd + (de + rest)))) == Run(e, rest)
  {
    Chain(a, b, ab, bc + (cd + (de + rest)));
    Chain(b, c, bc, cd + (de + rest));
    Chain(c, d, cd, de + rest);
    Chain(d, e, de, rest);
  }

  // Subscribing alone can send out of order and twice: a message stored after the
  // subscription began is delivered before the backfill has come to it.
  const FILLS := [Fetch({1, 2}, 2), FillOne(1, 0), FillOne(2, 0), FillEnd]

  lemma DeliveryDuringSubscribeRepeats()
    ensures Run(Subscribed(ANY, 0, ONE, 1),
                [Insert(2, CHAT, 0)] + Deliver(2, 0) + (FILLS + (Deliver(1, 0) + Deliver(2, 0)))).delivered == [2, 1, 2]
  {
    var early := DeliversEarly();
    RepeatsAfter(Subscribed(ANY, 0, ONE, 1), early, [Insert(2, CHAT, 0)] + Deliver(2, 0));
  }

  lemma RepeatsAfter(start: State, early: State, steps: seq<Step>)
    requires Run(start, steps) == early
    requires early.log.Keys == {1, 2} && early.ever == early.log && early.queue == map[]
    requires early.backfill == Fetching(0, 0, true) && early.work.Idle? && early.status.Active?
    requires Passes(early.filter, early.ever[1]) && Passes(early.filter, early.ever[2])
    ensures Run(start, steps + (FILLS + (Deliver(1, 0) + Deliver(2, 0)))).delivered == early.delivered + [1, 2]
  {
    var refilled := RefillsTwo(early);
    DeliversTwo(refilled);
    Chain(start, early, steps, FILLS + (Deliver(1, 0) + Deliver(2, 0)));
    Chain(early, refilled, FILLS, Deliver(1, 0) + Deliver(2, 0));
  }

  lemma DeliversEarly() returns (st: State)
    ensures st == Run(Subscribed(ANY, 0, ONE, 1), [Insert(2, CHAT, 0)] + Deliver(2, 0))
    ensures st.log.Keys == {1, 2} && st.ever == st.log && st.queue == map[] && st.delivered == [2] && st.cursor == 2
    ensures st.backfill == Fetching(0, 0, true) && st.work.Idle? && st.status.Active? && st.filter == ANY
    ensures st.ever[1] == CHAT && st.ever[2] == CHAT
  {
    var start := Subscribed(ANY, 0, ONE, 1);
    var inserted := Next(start, Insert(2, CHAT, 0));
    assert inserted == start.(log := ONE[2 := CHAT], ever := ONE[2 := CHAT], tip := 2, queue := map[2 := Row(0, 0, 0)]);
    LastStep(start, Insert(2, CHAT, 0));
    DeliverRuns(inserted, 2, 0);
    Chain(start, inserted, [Insert(2, CHAT, 0)], Deliver(2, 0));
    st := Delivered(inserted, 2);
    assert st.queue == map[];
  }

  lemma DeliversTwo(st: State)
    requires st.work.Idle? && st.status.Active? && st.log.Keys == {1, 2}
    requires st.queue == map[1 := Row(0, 0, 0), 2 := Row(0, 0, 0)]
    ensures Run(st, Deliver(1, 0) + Deliver(2, 0)).delivered == st.delivered + [1, 2]
  {
    var one := Delivered(st, 1);
    DeliverRuns(st, 1, 0);
    assert one.queue == map[2 := Row(0, 0, 0)];
    DeliverRuns(one, 2, 0);
    Chain(st, one, Deliver(1, 0), Deliver(2, 0));
  }

  lemma TwoAreAPage(st: State)
    requires st.log.Keys == {1, 2}
    ensures IsPage(st.log, 0, {1, 2}, 2)
  {
    assert Above(st.log, 0) == {1, 2};
  }

  lemma RefillsTwo(st: State) returns (after: State)
    requires st.backfill == Fetching(0, 0, true) && st.log.Keys == {1, 2} && st.ever.Keys == {1, 2} && st.queue == map[]
    requires Passes(st.filter, st.ever[1]) && Passes(st.filter, st.ever[2])
    ensures after == Run(st, FILLS)
    ensures after == st.(backfill := NoBackfill, queue := map[1 := Row(0, 0, 0), 2 := Row(0, 0, 0)])
  {
    TwoAreAPage(st);
    Run4(st, Fetch({1, 2}, 2), FillOne(1, 0), FillOne(2, 0), FillEnd);
    var fetched := Next(st, Fetch({1, 2}, 2));
    assert fetched == st.(backfill := Filling(0, {1, 2}, 2, false));
    FillsTwo(fetched);
    after := Next(Next(Next(fetched, FillOne(1, 0)), FillOne(2, 0)), FillEnd);
  }

  lemma FillsTwo(st: State)
    requires st.backfill == Filling(0, {1, 2}, 2, false) && st.ever.Keys == {1, 2} && st.queue == map[]
    requires Passes(st.filter, st.ever[1]) && Passes(st.filter, st.ever[2])
    ensures Next(Next(Next(st, FillOne(1, 0)), FillOne(2, 0)), FillEnd)
         == st.(backfill := NoBackfill, queue := map[1 := Row(0, 0, 0), 2 := Row(0, 0, 0)])
  {
    FillOneQueues(st, 1);
    assert {1, 2} - {1} == {2};
    var one := st.(backfill := Filling(0, {2}, 2, false), queue := map[1 := Row(0, 0, 0)]);
    FillOneQueues(one, 2);
    assert {2} - {2} == {};
  }

  lemma FillOneQueues(st: State, s: int)
    requires st.backfill.Filling? && s in st.backfill.todo && s in st.ever && s !in st.queue
    requires (forall t :: t in st.backfill.todo ==> s <= t) && Matches(st.filter, st.backfill.cursor, s, st.ever[s])
    ensures Next(st, FillOne(s, 0))
         == st.(queue := st.queue[s := Row(0, 0, 0)], backfill := st.backfill.(todo := st.backfill.todo - {s}))
  {}

  lemma LastStep(st: State, step: Step)
    ensures Run(st, [step]) == Next(st, step)
  {
    assert [step][1..] == [];
  }

  const BLOCKS := [LookUp, ReadMessage, Blocked, Load(1, 0)]

  lemma BlockedIsReloaded()
    ensures Run(Single(ONE, true, Loaded(1), Active, NoBackfill), BLOCKS) == Single(ONE, true, Loaded(1), Failed, NoBackfill)
  {
    var start := Single(ONE, true, Loaded(1), Active, NoBackfill);
    Run4(start, LookUp, ReadMessage, Blocked, Load(1, 0));
    LoadedIsPosting(start, 1);
  }

  const ENABLES := [LookUp, EnableRead, EnableSet, Fetch({1}, 1)]

  lemma FailedLookThenEnable(st: State)
    requires st.work == Loaded(1) && st.status.Failed? && st.backfill.NoBackfill? && st.cursor == 0
    ensures Next(Next(st, LookUp), EnableRead) == st.(work := Dropping(1), backfill := Snapshot(0))
  {}

  lemma EnableFetches(st: State)
    requires st.backfill == Snapshot(0) && IsPage(st.log, 0, {1}, 1)
    ensures Next(Next(st, EnableSet), Fetch({1}, 1)) == st.(status := Active, backfill := Filling(0, {1}, 1, false))
  {}

  lemma EnableMeetsFailedLook()
    ensures Run(Single(ONE, true, Loaded(1), Failed, NoBackfill), ENABLES)
         == Single(ONE, true, Dropping(1), Active, Filling(0, {1}, 1, false))
  {
    OneIsSingle();
    var start := Single(ONE, true, Loaded(1), Failed, NoBackfill);
    Run4(start, LookUp, EnableRead, EnableSet, Fetch({1}, 1));
    FailedLookThenEnable(start);
    EnableFetches(start.(work := Dropping(1), backfill := Snapshot(0)));
  }

  // Active and at rest, with a retained matching message that is not queued.
  predicate IsLost(st: State, s: int) {
    && st.status.Active? && st.work.Idle? && st.backfill.NoBackfill?
    && s in st.log && Matches(st.filter, st.cursor, s, st.log[s]) && s !in st.queue
  }

  // Enabling between the worker's look at a failed subscription and its deletion
  // of the row loses the message: the backfill finds the row already there.
  lemma EnableBeforeDropLosesMessage()
    ensures IsLost(Run(Subscribed(ANY, 0, map[], 0), ARRIVES + (BLOCKS + (ENABLES + ([FillOne(1, 0)] + ([FillEnd] + [DropRow]))))), 1)
  {
    MessageArrives();
    BlockedIsReloaded();
    EnableMeetsFailedLook();
    LastFill();
    LastFillEnd();
    var e := Single(ONE, true, Dropping(1), Active, Filling(0, {}, 1, false));
    Chain4(Subscribed(ANY, 0, map[], 0), Single(ONE, true, Loaded(1), Active, NoBackfill),
           Single(ONE, true, Loaded(1), Failed, NoBackfill),
           Single(ONE, true, Dropping(1), Active, Filling(0, {1}, 1, false)), e,
           ARRIVES, BLOCKS, ENABLES, [FillOne(1, 0)], [FillEnd] + [DropRow]);
    DropsLast(e, Single(ONE, true, Dropping(1), Active, NoBackfill));
  }

  lemma LastFill()
    ensures Run(Single(ONE, true, Dropping(1), Active, Filling(0, {1}, 1, false)), [FillOne(1, 0)])
         == Single(ONE, true, Dropping(1), Active, Filling(0, {}, 1, false))
  {
    var st := Single(ONE, true, Dropping(1), Active, Filling(0, {1}, 1, false));
    LastStep(st, FillOne(1, 0));
    assert Next(st, FillOne(1, 0)).backfill.todo == {};
  }

  lemma LastFillEnd()
    ensures Run(Single(ONE, true, Dropping(1), Active, Filling(0, {}, 1, false)), [FillEnd])
         == Single(ONE, true, Dropping(1), Active, NoBackfill)
  {
    LastStep(Single(ONE, true, Dropping(1), Active, Filling(0, {}, 1, false)), FillEnd);
  }

  lemma DropsLast(before: State, st: State)
    requires Run(before, [FillEnd]) == st && st.work == Dropping(1) && st.status.Active? && st.backfill.NoBackfill?
    requires 1 in st.log && Matches(st.filter, st.cursor, 1, st.log[1])
    ensures IsLost(Run(before, [FillEnd] + [DropRow]), 1)
  {
    Chain(before, st, [FillEnd], [DropRow]);
    LastStep(st, DropRow);
  }
}
