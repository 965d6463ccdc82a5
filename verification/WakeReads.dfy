// Read and acknowledge cursors of the wake bridge: nothing is acknowledged that
// was never returned by a read.
module WakeReads {
  import opened Options
  import opened WakeStore
  import opened WakeBridge

  predicate IsWake(st: State, s: int) {
    s in st.log && st.log[s].Some?
  }

  // What was read, or is being read, covers the log up to its cursor.
  ghost predicate ReadInv(st: State) {
    && st.inbox.cursors.lastAcked <= st.inbox.cursors.maxRead <= st.tip
    && (forall s :: s in st.log ==> s <= st.tip)
    && (forall s :: IsWake(st, s) && s <= st.inbox.cursors.maxRead ==> s in st.returned)
    && (forall c :: c in st.calls && st.calls[c].Reading? ==> ReadingInv(st, st.calls[c]))
  }

  ghost predicate ReadingInv(st: State, call: Call)
    requires call.Reading?
  {
    && call.highest <= st.tip
    && (forall s :: IsWake(st, s) && s <= call.highest ==> s in call.page || s <= st.inbox.cursors.maxRead)
  }

  // A read starts at or below what has been read already.
  predicate HonestStep(st: State, step: Step) {
    step.StartRead? ==> step.after <= st.inbox.cursors.maxRead
  }

  ghost predicate HonestRun(st: State, steps: seq<Step>)
    decreases |steps|
  {
    steps == [] || (HonestStep(st, steps[0]) && HonestRun(Next(st, steps[0]), steps[1..]))
  }

  // New messages go above the tip, nothing is recorded as read, no read begins.
  ghost predicate Harmless(st: State, after: State) {
    && after.inbox.cursors.maxRead == st.inbox.cursors.maxRead
    && after.inbox.cursors.lastAcked <= after.inbox.cursors.maxRead
    && after.returned == st.returned && st.tip <= after.tip
    && (forall s :: s in after.log ==> s <= after.tip && (s > st.tip || (s in st.log && after.log[s] == st.log[s])))
    && (forall c :: c in after.calls && after.calls[c].Reading? ==> c in st.calls && st.calls[c] == after.calls[c])
  }

  lemma HarmlessKeepsReads(st: State, after: State)
    requires ReadInv(st) && Harmless(st, after)
    ensures ReadInv(after)
  {}

  lemma SendIsHarmless(st: State, c: CallId, appends: bool, reports: bool)
    requires ReadInv(st) && c in st.calls && st.calls[c].MustSend?
    ensures Harmless(st, SendStep(st, c, appends, reports))
  {}

  lemma StartWakeIsHarmless(st: State, c: CallId, key: EventKey, row: Row)
    requires ReadInv(st)
    ensures Harmless(st, StartWakeStep(st, c, key, row))
  {}

  lemma MarkIsHarmless(st: State, c: CallId, messageId: string)
    requires ReadInv(st) && c in st.calls && st.calls[c].Found?
    ensures Harmless(st, MarkCall(st, c, messageId))
  {}

  lemma ClaimIsHarmless(st: State, c: CallId, observed: int, now: int)
    requires ReadInv(st)
    ensures Harmless(st, ClaimFor(st, c, observed, now))
  {}

  lemma AckIsHarmless(st: State, c: CallId, cursor: int)
    requires ReadInv(st)
    ensures Harmless(st, AckStep(st, c, cursor))
  {}

  lemma DeliveryIsHarmless(st: State, step: Step)
    requires ReadInv(st) && IsDelivery(step)
    ensures Harmless(st, NextDelivery(st, step))
  {
    if step.StartWake? {
      StartWakeIsHarmless(st, step.c, step.key, step.row);
    } else if step.Send? && step.c in st.calls && st.calls[step.c].MustSend? {
      SendIsHarmless(st, step.c, step.appends, step.reports);
    } else if step.MarkStep? && step.c in st.calls && st.calls[step.c].Found? {
      MarkIsHarmless(st, step.c, step.messageId);
    }
  }

  lemma WakeIsHarmless(st: State, step: Step)
    requires ReadInv(st) && !IsDelivery(step) && !IsRoom(step)
    ensures Harmless(st, NextWake(st, step))
  {
    if step.TryWake? && step.c in st.calls && st.calls[step.c].Delivered? {
      ClaimIsHarmless(st, step.c, st.calls[step.c].seqNo, step.now);
    } else if step.TryWake? && step.c in st.calls && st.calls[step.c].FollowUp? {
      ClaimIsHarmless(st, step.c, st.calls[step.c].observed, step.now);
    } else if step.StartAck? {
      AckIsHarmless(st, step.c, step.cursor);
    } else if !step.TryWake? {
      EndIsHarmless(st, step);
    }
  }

  lemma EndIsHarmless(st: State, step: Step)
    requires ReadInv(st) && (step.AckQuery? || step.WakeOk? || step.WakeErr? || step.Crash?)
    ensures Harmless(st, NextWake(st, step))
  {
    if step.AckQuery? {
      QueryIsHarmless(st, step.c, step.best);
    } else if step.c in st.calls {
      DropIsHarmless(st, step.c);
    }
  }

  lemma QueryIsHarmless(st: State, c: CallId, best: Option<int>)
    requires ReadInv(st)
    ensures Harmless(st, NextWake(st, AckQuery(c, best)))
  {}

  lemma DropIsHarmless(st: State, c: CallId)
    requires ReadInv(st)
    ensures Harmless(st, Drop(st, c))
  {}

  lemma RoomKeepsReads(st: State, step: Step)
    requires ReadInv(st) && IsRoom(step) && HonestStep(st, step)
    ensures ReadInv(NextRoom(st, step))
  {
    if step.AppendOther? || step.Purge? {
      HarmlessKeepsReads(st, NextRoom(st, step));
    }
  }

  lemma NextKeepsReads(st: State, step: Step)
    requires ReadInv(st) && HonestStep(st, step)
    ensures ReadInv(Next(st, step))
  {
    if IsDelivery(step) {
      DeliveryIsHarmless(st, step);
      HarmlessKeepsReads(st, NextDelivery(st, step));
    } else if IsRoom(step) {
      RoomKeepsReads(st, step);
    } else {
      WakeIsHarmless(st, step);
      HarmlessKeepsReads(st, NextWake(st, step));
    }
  }

  lemma {:induction false} RunKeepsReads(st: State, steps: seq<Step>)
    requires ReadInv(st) && HonestRun(st, steps)
    ensures ReadInv(Run(st, steps))
    decreases |steps|
  {
    if steps != [] {
      NextKeepsReads(st, steps[0]);
      RunKeepsReads(Next(st, steps[0]), steps[1..]);
    }
  }

  // If every read starts at or below what was read before, every retained wake
  // event up to the acknowledged cursor was returned by some read.
  lemma AcknowledgedWasReturned(minRank: int, lease: int, steps: seq<Step>, s: int)
    requires HonestRun(Initial(minRank, lease), steps)
    ensures var st := Run(Initial(minRank, lease), steps);
            IsWake(st, s) && s <= st.inbox.cursors.lastAcked ==> s in st.returned
  {
    RunKeepsReads(Initial(minRank, lease), steps);
  }

  // The default cursor, the last acknowledged one, is always such a start.
  lemma {:induction false} DefaultCursorIsHonest(st: State, steps: seq<Step>)
    requires CursorsOrdered(st.inbox.cursors)
    ensures CursorsOrdered(Run(st, steps).inbox.cursors)
    decreases |steps|
  {
    if steps != [] {
      StepKeepsCursorsOrdered(st, steps[0]);
      DefaultCursorIsHonest(Next(st, steps[0]), steps[1..]);
    }
  }

  lemma StepKeepsCursorsOrdered(st: State, step: Step)
    requires CursorsOrdered(st.inbox.cursors)
    ensures CursorsOrdered(Next(st, step).inbox.cursors)
  {
    if IsDelivery(step) {
      DeliveryKeepsClaims(st, step);
    } else if IsRoom(step) {
      RoomKeepsCursorsOrdered(st, step);
    } else {
      WakeKeepsCursorsOrdered(st, step);
    }
  }

  lemma RoomKeepsCursorsOrdered(st: State, step: Step)
    requires CursorsOrdered(st.inbox.cursors)
    ensures CursorsOrdered(NextRoom(st, step).inbox.cursors)
  {}

  lemma WakeKeepsCursorsOrdered(st: State, step: Step)
    requires CursorsOrdered(st.inbox.cursors)
    ensures CursorsOrdered(NextWake(st, step).inbox.cursors)
  {}

  // The acknowledged cursor is the greatest ever accepted.
  ghost predicate GreatestAccepted(st: State) {
    && 0 <= st.inbox.cursors.lastAcked && (forall a :: a in st.accepted ==> a <= st.inbox.cursors.lastAcked)
    && (st.inbox.cursors.lastAcked == 0 || st.inbox.cursors.lastAcked in st.accepted)
  }

  // An acknowledgement is accepted exactly up to what was read.
  lemma AcceptedExactly(st: State, c: CallId, cursor: int)
    requires c !in st.calls
    ensures Next(st, StartAck(c, cursor)).accepted ==
              if cursor <= st.inbox.cursors.maxRead then st.accepted + [cursor] else st.accepted
  {}

  lemma AckKeepsGreatest(st: State, c: CallId, cursor: int)
    requires GreatestAccepted(st)
    ensures GreatestAccepted(AckStep(st, c, cursor))
  {
    var after := AckStep(st, c, cursor);
    assert forall a :: a in after.accepted ==> a in st.accepted || a == cursor;
    assert forall a :: a in st.accepted ==> a in after.accepted;
    assert after != st ==> cursor in after.accepted;
  }

  lemma WakeKeepsGreatest(st: State, step: Step)
    requires GreatestAccepted(st)
    ensures GreatestAccepted(NextWake(st, step))
  {
    if step.StartAck? && step.c !in st.calls { AckKeepsGreatest(st, step.c, step.cursor); }
  }

  lemma DeliveryKeepsGreatest(st: State, step: Step)
    requires GreatestAccepted(st)
    ensures GreatestAccepted(NextDelivery(st, step))
  {
    DeliveryKeepsClaims(st, step);
  }

  lemma {:induction false} RunKeepsGreatest(st: State, steps: seq<Step>)
    requires GreatestAccepted(st)
    ensures GreatestAccepted(Run(st, steps))
    decreases |steps|
  {
    if steps != [] {
      if IsDelivery(steps[0]) {
        DeliveryKeepsGreatest(st, steps[0]);
      } else if !IsRoom(steps[0]) {
        WakeKeepsGreatest(st, steps[0]);
      }
      RunKeepsGreatest(Next(st, steps[0]), steps[1..]);
    }
  }

  // Over every run, whatever calls overlap, fail or crash: what counts as
  // acknowledged is the greatest cursor ever accepted, and nothing beyond it.
  lemma AcknowledgedIsGreatest(minRank: int, lease: int, steps: seq<Step>)
    ensures var st := Run(Initial(minRank, lease), steps);
            var acked := st.inbox.cursors.lastAcked;
            && (forall a :: a in st.accepted ==> a <= acked)
            && (acked > 0 ==> acked in st.accepted) && acked >= 0
  {
    RunKeepsGreatest(Initial(minRank, lease), steps);
  }

  // Exactly which starts are safe: those at or below what was read, and those
  // below the tip that skip nothing but messages returned before.
  predicate SkipsNothing(st: State, after: int) {
    after <= st.inbox.cursors.maxRead
    || (after <= st.tip && forall s :: s in st.log && st.log[s].Some? && st.inbox.cursors.maxRead < s <= after ==> s in st.returned)
  }

  lemma CompleteRead(st: State, c: CallId, after: int, limit: nat, page: set<int>, highest: int) returns (done: State)
    requires c !in st.calls && 0 <= after
    requires IsPage(st.log, after, limit, page) && IsHighest(page, after, highest)
    ensures done == Next(Next(st, StartRead(c, after, limit, page, highest)), FinishRead(c))
    ensures done == st.(inbox := st.inbox.(cursors := RecordRead(st.inbox.cursors, highest)), returned := st.returned + page)
  {
    var started := Next(st, StartRead(c, after, limit, page, highest));
    done := Next(started, FinishRead(c));
    assert done.calls == st.calls;
  }

  // A page leaves out nothing between its start and its highest message.
  lemma PageCovers(st: State, after: int, limit: nat, page: set<int>, highest: int, s: int)
    requires IsPage(st.log, after, limit, page) && IsHighest(page, after, highest)
    requires IsWake(st, s) && after < s <= highest
    ensures s in page
  {}

  lemma ReadIsSafeExactly(st: State, c: CallId, after: int, limit: nat, page: set<int>, highest: int)
    requires ReadInv(st) && c !in st.calls && 0 <= after
    requires IsPage(st.log, after, limit, page) && IsHighest(page, after, highest)
    ensures ReadInv(Next(Next(st, StartRead(c, after, limit, page, highest)), FinishRead(c))) <==> SkipsNothing(st, after)
  {
    var done := CompleteRead(st, c, after, limit, page, highest);
    if SkipsNothing(st, after) {
      forall s | IsWake(done, s) && s <= done.inbox.cursors.maxRead
        ensures s in done.returned
      {
        assert IsWake(st, s);
        if st.inbox.cursors.maxRead < s && after < s { PageCovers(st, after, limit, page, highest, s); }
      }
    } else if after <= st.tip {
      var s :| s in st.log && st.log[s].Some? && st.inbox.cursors.maxRead < s <= after && s !in st.returned;
      assert IsWake(done, s) && s !in page;
    }
  }

  // A start above that loses an event: read past the end, acknowledge, and the
  // next event, once sent, counts as acknowledged though no read returned it.
  lemma ReadPastTheEndLosesEvent(minRank: int, lease: int, key: EventKey, row: Row)
    ensures var st := Run(Initial(minRank, lease), [StartRead(0, 1, 100, {}, 1), FinishRead(0)] + [StartAck(0, 1), AckQuery(0, None)]
                          + ([StartWake(1, key, row), FindMiss(1)] + [Send(1, true, true)]));
            IsWake(st, 1) && 1 <= st.inbox.cursors.lastAcked && 1 !in st.returned
  {
    var start := Initial(minRank, lease);
    var acked := ReadsPastTheEnd(minRank, lease);
    RunConcat(start, [StartRead(0, 1, 100, {}, 1), FinishRead(0)] + [StartAck(0, 1), AckQuery(0, None)],
              [StartWake(1, key, row), FindMiss(1)] + [Send(1, true, true)]);
    SendsFirst(acked, key, row);
  }

  lemma ReadsPastTheEnd(minRank: int, lease: int) returns (st: State)
    ensures st == Run(Initial(minRank, lease), [StartRead(0, 1, 100, {}, 1), FinishRead(0)] + [StartAck(0, 1), AckQuery(0, None)])
    ensures st.calls == map[] && st.log == map[] && st.tip == 0 && st.returned == {}
    ensures st.inbox == Inbox(map[], Cursors(1, 1, None))
  {
    var start := Initial(minRank, lease);
    var read := CompleteRead(start, 0, 1, 100, {}, 1);
    st := AcknowledgesFirst(read);
    Run2(start, StartRead(0, 1, 100, {}, 1), FinishRead(0));
    RunConcat(start, [StartRead(0, 1, 100, {}, 1), FinishRead(0)], [StartAck(0, 1), AckQuery(0, None)]);
  }

  lemma AcknowledgesFirst(st: State) returns (after: State)
    requires st.calls == map[] && st.inbox == Inbox(map[], Cursors(0, 1, None))
    ensures after == Run(st, [StartAck(0, 1), AckQuery(0, None)])
    ensures after == st.(inbox := Inbox(map[], Cursors(1, 1, None)), accepted := st.accepted + [1], epoch := st.epoch + 1, lapse := false)
  {
    var acked := Next(st, StartAck(0, 1));
    assert acked == AckStep(st, 0, 1);
    after := Next(acked, AckQuery(0, None));
    assert after.calls == map[];
    Run2(st, StartAck(0, 1), AckQuery(0, None));
  }

  lemma SendsFirst(st: State, key: EventKey, row: Row)
    requires st.calls == map[] && st.log == map[] && st.tip == 0 && st.inbox.rows == map[]
    ensures var after := Run(st, [StartWake(1, key, row), FindMiss(1)] + [Send(1, true, true)]);
            IsWake(after, 1) && after.inbox.cursors == st.inbox.cursors && after.returned == st.returned
  {
    var begun := Next(st, StartWake(1, key, row));
    assert begun.calls == map[1 := Searching(key, row.hintRank)];
    var missed := Next(begun, FindMiss(1));
    assert missed.calls == map[1 := MustSend(key, row.hintRank)];
    assert Next(missed, Send(1, true, true)) == SendStep(missed, 1, true, true);
    Run2(st, StartWake(1, key, row), FindMiss(1));
    RunConcat(st, [StartWake(1, key, row), FindMiss(1)], [Send(1, true, true)]);
    assert [Send(1, true, true)][1..] == [];
  }
}
