// The wake claim of the bridge: no pending event is left without a claim, unless
// a wake attempt failed, and held claims are a lease apart.
module WakeClaims {
  import opened Options
  import opened WakeStore
  import opened WakeBridge

  // A call that will still attempt a wake covering this sequence number.
  predicate WillAttempt(st: State, call: Call, seqNo: int) {
    match call
    case Delivered(_, rank, s) => rank >= st.minRank && s == seqNo
    case Acked => true
    case FollowUp(observed) => seqNo <= observed
    case _ => false
  }

  ghost predicate Attempted(st: State, seqNo: int) {
    exists c :: c in st.calls && WillAttempt(st, st.calls[c], seqNo)
  }

  // Every pending eligible event is claimed for, or some call will attempt its
  // wake, or an attempt failed since the last claim or acknowledgement.
  ghost predicate Covered(st: State) {
    st.inbox.cursors.claimedAt.None? && !st.lapse ==>
      forall key :: Pending(st.inbox, key, st.minRank) ==> Attempted(st, st.inbox.rows[key].roomSeq.value)
  }

  // No pending event is added, the claim stands, and no attempt is dropped.
  ghost predicate KeepsAttempts(st: State, after: State) {
    && after.minRank == st.minRank
    && (after.inbox.cursors.claimedAt.None? && !after.lapse ==> st.inbox.cursors.claimedAt.None? && !st.lapse)
    && (forall key :: Pending(after.inbox, key, after.minRank) ==>
          Pending(st.inbox, key, st.minRank) && after.inbox.rows[key].roomSeq == st.inbox.rows[key].roomSeq)
    && (forall c, s :: c in st.calls && WillAttempt(st, st.calls[c], s) ==>
          c in after.calls && WillAttempt(after, after.calls[c], s))
  }

  lemma KeepsAttemptsKeepsCovered(st: State, after: State)
    requires Covered(st) && KeepsAttempts(st, after)
    ensures Covered(after)
  {
    if after.inbox.cursors.claimedAt.None? && !after.lapse {
      forall key | Pending(after.inbox, key, after.minRank)
        ensures Attempted(after, after.inbox.rows[key].roomSeq.value)
      {
        assert Pending(st.inbox, key, st.minRank);
        var c :| c in st.calls && WillAttempt(st, st.calls[c], st.inbox.rows[key].roomSeq.value);
        assert c in after.calls;
      }
    }
  }

  lemma StartWakeKeepsCovered(st: State, c: CallId, key: EventKey, row: Row)
    requires Covered(st) && c !in st.calls
    ensures Covered(StartWakeStep(st, c, key, row))
  {
    KeepsAttemptsKeepsCovered(st, StartWakeStep(st, c, key, row));
  }

  lemma SendKeepsCovered(st: State, c: CallId, appends: bool, reports: bool)
    requires Covered(st) && c in st.calls && st.calls[c].MustSend?
    ensures Covered(SendStep(st, c, appends, reports))
  {
    KeepsAttemptsKeepsCovered(st, SendStep(st, c, appends, reports));
  }

  // A newly recorded event is attempted by the call that recorded it.
  lemma MarkKeepsCovered(st: State, c: CallId, messageId: string)
    requires Covered(st) && c in st.calls && st.calls[c].Found?
    requires st.calls[c].key in st.inbox.rows ==> st.inbox.rows[st.calls[c].key].hintRank == st.calls[c].rank
    ensures Covered(MarkCall(st, c, messageId))
  {
    var after := MarkCall(st, c, messageId);
    var x := st.calls[c];
    if after.inbox.cursors.claimedAt.None? && !after.lapse {
      forall key | Pending(after.inbox, key, after.minRank)
        ensures Attempted(after, after.inbox.rows[key].roomSeq.value)
      {
        if key == x.key && c in after.calls {
          assert WillAttempt(after, after.calls[c], x.seqNo);
        } else {
          assert Pending(st.inbox, key, st.minRank);
          var d :| d in st.calls && WillAttempt(st, st.calls[d], st.inbox.rows[key].roomSeq.value);
          assert d in after.calls && after.calls[d] == st.calls[d];
        }
      }
    }
  }

  // An attempt takes the claim, or finds it taken, or finds its events
  // acknowledged meanwhile.
  lemma ClaimKeepsCovered(st: State, c: CallId, observed: int, now: int)
    requires Covered(st) && c in st.calls
    requires forall s :: WillAttempt(st, st.calls[c], s) ==> s <= observed
    ensures Covered(ClaimFor(st, c, observed, now))
  {
    var after := ClaimFor(st, c, observed, now);
    if after.inbox.cursors.claimedAt.None? && !after.lapse {
      forall key | Pending(after.inbox, key, after.minRank)
        ensures Attempted(after, after.inbox.rows[key].roomSeq.value)
      {
        assert Pending(st.inbox, key, st.minRank);
        var d :| d in st.calls && WillAttempt(st, st.calls[d], st.inbox.rows[key].roomSeq.value);
        assert d != c;
        assert d in after.calls && after.calls[d] == st.calls[d];
      }
    }
  }

  lemma AckKeepsCovered(st: State, c: CallId, cursor: int)
    requires Covered(st)
    ensures Covered(AckStep(st, c, cursor))
  {
    var after := AckStep(st, c, cursor);
    if after != st {
      assert c in after.calls && after.calls[c] == Acked;
    }
  }

  lemma QueryKeepsCovered(st: State, c: CallId, best: Option<int>)
    requires Covered(st) && c in st.calls && st.calls[c].Acked? && IsMaxPending(st.inbox, st.minRank, best)
    ensures Covered(if best.None? then Drop(st, c) else To(st, c, FollowUp(best.value)))
  {
    if best.Some? {
      var after := To(st, c, FollowUp(best.value));
      assert c in after.calls;
    }
  }

  // Dropping a call that attempts nothing, or failing outright, is covered.
  lemma EndKeepsCovered(st: State, step: Step)
    requires Covered(st) && (step.WakeOk? || step.WakeErr? || step.Crash?)
    ensures Covered(NextWake(st, step))
  {
    var after := NextWake(st, step);
    if !after.lapse && after != st {
      assert forall d :: d in st.calls && d != step.c ==> d in after.calls && after.calls[d] == st.calls[d];
      KeepsAttemptsKeepsCovered(st, after);
    }
  }

  // A delivering call carries the rank stored with its reservation.
  predicate RankKnown(st: State, call: Call) {
    Delivering(call) ==> call.key in st.inbox.rows && st.inbox.rows[call.key].hintRank == call.rank
  }

  ghost predicate RanksKnown(st: State) {
    forall c :: c in st.calls ==> RankKnown(st, st.calls[c])
  }

  ghost predicate RanksKept(st: State, after: State) {
    forall key :: key in st.inbox.rows ==>
      key in after.inbox.rows && after.inbox.rows[key].hintRank == st.inbox.rows[key].hintRank
  }

  // Calls are gone, kept, or carry a rank that is right.
  ghost predicate RanksFollow(st: State, after: State) {
    && RanksKept(st, after)
    && (forall c :: c in after.calls ==> (c in st.calls && st.calls[c] == after.calls[c]) || RankKnown(after, after.calls[c]))
  }

  lemma RanksFollowKeepsRanks(st: State, after: State)
    requires RanksKnown(st) && RanksFollow(st, after)
    ensures RanksKnown(after)
  {
    forall c | c in after.calls
      ensures RankKnown(after, after.calls[c])
    {
      if c in st.calls && st.calls[c] == after.calls[c] { assert RankKnown(st, st.calls[c]); }
    }
  }

  lemma DeliveryKeepsRanks(st: State, step: Step)
    requires RanksKnown(st) && IsDelivery(step)
    ensures RanksFollow(st, NextDelivery(st, step))
  {
    if step.c in st.calls { assert RankKnown(st, st.calls[step.c]); }
    if step.StartWake? {
      StartWakeKeepsRanks(st, step.c, step.key, step.row);
    } else if step.Send? && step.c in st.calls && st.calls[step.c].MustSend? {
      SendKeepsRanks(st, step.c, step.appends, step.reports);
    } else if step.MarkStep? && step.c in st.calls && st.calls[step.c].Found? {
      MarkKeepsRanks(st, step.c, step.messageId);
    }
  }

  lemma ReserveKeepsRanks(x: Inbox, key: EventKey, row: Row)
    ensures var (after, r) := Reserve(x, key, row);
            && (forall k :: k in x.rows ==> k in after.rows && after.rows[k].hintRank == x.rows[k].hintRank)
            && (r.Reserved? ==> key in after.rows && after.rows[key].hintRank == row.hintRank)
  {}

  lemma StartWakeKeepsRanks(st: State, c: CallId, key: EventKey, row: Row)
    ensures RanksFollow(st, StartWakeStep(st, c, key, row))
  {
    ReserveKeepsRanks(st.inbox, key, row);
    var (inbox, r) := Reserve(st.inbox, key, row);
    BegunKeepsRanks(st, inbox, c, key, row.hintRank, r);
  }

  lemma BegunKeepsRanks(st: State, inbox: Inbox, c: CallId, key: EventKey, rank: int, r: Reservation)
    requires RanksKept(st, st.(inbox := inbox))
    requires r.Reserved? ==> key in inbox.rows && inbox.rows[key].hintRank == rank
    ensures RanksFollow(st, Begun(st.(inbox := inbox), c, key, rank, r))
  {}

  lemma SendKeepsRanks(st: State, c: CallId, appends: bool, reports: bool)
    requires c in st.calls && st.calls[c].MustSend? && RankKnown(st, st.calls[c])
    ensures RanksFollow(st, SendStep(st, c, appends, reports))
  {}

  lemma MarkKeepsRanks(st: State, c: CallId, messageId: string)
    requires c in st.calls && st.calls[c].Found? && RankKnown(st, st.calls[c])
    ensures RanksFollow(st, MarkCall(st, c, messageId))
  {}

  lemma NextKeepsRanks(st: State, step: Step)
    requires RanksKnown(st)
    ensures RanksKnown(Next(st, step))
  {
    if IsDelivery(step) {
      DeliveryKeepsRanks(st, step);
      RanksFollowKeepsRanks(st, NextDelivery(st, step));
    } else {
      WakeKeepsLog(st, step);
      forall c | c in Next(st, step).calls && Delivering(Next(st, step).calls[c])
        ensures RankKnown(Next(st, step), Next(st, step).calls[c])
      {
        if IsRoom(step) { RoomStartsNoDelivery(st, step, c); } else { WakeStartsNoDelivery(st, step, c); }
        assert RankKnown(st, st.calls[c]);
      }
    }
  }

  lemma DeliveryKeepsCovered(st: State, step: Step)
    requires RanksKnown(st) && Covered(st) && IsDelivery(step)
    ensures Covered(NextDelivery(st, step))
  {
    if step.c in st.calls { assert RankKnown(st, st.calls[step.c]); }
    if step.StartWake? {
      if step.c !in st.calls { StartWakeKeepsCovered(st, step.c, step.key, step.row); }
    } else if step.Send? {
      if step.c in st.calls && st.calls[step.c].MustSend? { SendKeepsCovered(st, step.c, step.appends, step.reports); }
    } else if step.MarkStep? {
      if step.c in st.calls && st.calls[step.c].Found? { MarkKeepsCovered(st, step.c, step.messageId); }
    } else {
      KeepsAttemptsKeepsCovered(st, NextDelivery(st, step));
    }
  }

  // A delivery below the recipient's minimum hint needs no attempt.
  lemma FilteredKeepsCovered(st: State, c: CallId)
    requires Covered(st) && c in st.calls && st.calls[c].Delivered? && st.calls[c].rank < st.minRank
    ensures Covered(Drop(st, c))
  {
    KeepsAttemptsKeepsCovered(st, Drop(st, c));
  }

  lemma WakeKeepsCovered(st: State, step: Step)
    requires Covered(st) && !IsDelivery(step) && !IsRoom(step)
    ensures Covered(NextWake(st, step))
  {
    if step.TryWake? && step.c in st.calls && st.calls[step.c].Delivered? {
      if st.calls[step.c].rank < st.minRank {
        FilteredKeepsCovered(st, step.c);
      } else {
        ClaimKeepsCovered(st, step.c, st.calls[step.c].seqNo, step.now);
      }
    } else if step.TryWake? && step.c in st.calls && st.calls[step.c].FollowUp? {
      ClaimKeepsCovered(st, step.c, st.calls[step.c].observed, step.now);
    } else if step.StartAck? {
      AckKeepsCovered(st, step.c, step.cursor);
    } else if step.AckQuery? {
      if NextWake(st, step) != st { QueryKeepsCovered(st, step.c, step.best); }
    } else if !step.TryWake? {
      EndKeepsCovered(st, step);
    }
  }

  lemma RoomKeepsCovered(st: State, step: Step)
    requires Covered(st) && IsRoom(step)
    ensures Covered(NextRoom(st, step))
  {
    KeepsAttemptsKeepsCovered(st, NextRoom(st, step));
  }

  lemma NextKeepsCovered(st: State, step: Step)
    requires RanksKnown(st) && Covered(st)
    ensures Covered(Next(st, step))
  {
    if IsDelivery(step) {
      DeliveryKeepsCovered(st, step);
    } else if IsRoom(step) {
      RoomKeepsCovered(st, step);
    } else {
      WakeKeepsCovered(st, step);
    }
  }

  lemma {:induction false} RunKeepsCovered(st: State, steps: seq<Step>)
    requires RanksKnown(st) && Covered(st)
    ensures RanksKnown(Run(st, steps)) && Covered(Run(st, steps))
    decreases |steps|
  {
    if steps != [] {
      NextKeepsRanks(st, steps[0]);
      NextKeepsCovered(st, steps[0]);
      RunKeepsCovered(Next(st, steps[0]), steps[1..]);
    }
  }

  // When no call is in progress, a delivered, unacknowledged event that meets
  // the minimum hint is claimed for, unless since the last claim or
  // acknowledgement a wake attempt failed or a call died before its attempt.
  lemma NoLostWakeup(minRank: int, lease: int, steps: seq<Step>, key: EventKey)
    ensures var st := Run(Initial(minRank, lease), steps);
            st.calls == map[] && Pending(st.inbox, key, minRank) && st.inbox.cursors.claimedAt.None? ==> st.lapse
  {
    RunKeepsCovered(Initial(minRank, lease), steps);
    RunKeepsMinRank(Initial(minRank, lease), steps);
  }

  lemma {:induction false} RunKeepsMinRank(st: State, steps: seq<Step>)
    ensures Run(st, steps).minRank == st.minRank && Run(st, steps).lease == st.lease
    decreases |steps|
  {
    if steps != [] {
      StepKeepsMinRank(st, steps[0]);
      RunKeepsMinRank(Next(st, steps[0]), steps[1..]);
    }
  }

  lemma StepKeepsMinRank(st: State, step: Step)
    ensures Next(st, step).minRank == st.minRank && Next(st, step).lease == st.lease
  {
    if IsDelivery(step) {
      DeliveryKeepsClaims(st, step);
    } else if !IsRoom(step) {
      WakeKeepsMinRank(st, step);
    }
  }

  lemma WakeKeepsMinRank(st: State, step: Step)
    requires !IsDelivery(step) && !IsRoom(step)
    ensures NextWake(st, step).minRank == st.minRank && NextWake(st, step).lease == st.lease
  {
  }

  // --- the attempt that ended last ---

  // While another call's remote wake runs, no attempt takes the claim and no call
  // dies with its attempt still to come. Anything else may happen meanwhile.
  ghost predicate UndisturbedStep(st: State, step: Step) {
    forall d :: d in st.calls && st.calls[d].Waking? && Caller(step) != Some(d) ==>
      && (step.TryWake? ==> Next(st, step).claims == st.claims)
      && (step.Crash? && step.c in st.calls ==> !Lapses(st.calls[step.c]))
  }

  ghost predicate UndisturbedRun(st: State, steps: seq<Step>)
    decreases |steps|
  {
    steps == [] || (UndisturbedStep(st, steps[0]) && UndisturbedRun(Next(st, steps[0]), steps[1..]))
  }

  ghost predicate OneWaking(st: State) {
    forall c, d :: c in st.calls && d in st.calls && st.calls[c].Waking? && st.calls[d].Waking? ==> c == d
  }

  ghost predicate LapseShows(st: State) {
    st.lapse ==> !st.lastOk && forall d :: d in st.calls ==> !st.calls[d].Waking?
  }

  ghost predicate WakingKept(st: State, after: State) {
    forall d :: d in after.calls && after.calls[d].Waking? ==> d in st.calls && st.calls[d].Waking?
  }

  lemma DeliveryStartsNoWake(st: State, step: Step)
    requires IsDelivery(step)
    ensures WakingKept(st, NextDelivery(st, step))
  {}

  lemma RoomStartsNoWake(st: State, step: Step)
    requires IsRoom(step)
    ensures WakingKept(st, NextRoom(st, step))
    ensures NextRoom(st, step).lapse == st.lapse && NextRoom(st, step).lastOk == st.lastOk
  {}

  // An attempt that takes the claim starts a new slate.
  lemma ClaimKeepsSlate(st: State, c: CallId, observed: int, now: int)
    requires OneWaking(st) && LapseShows(st) && c in st.calls && !st.calls[c].Waking?
    requires ClaimFor(st, c, observed, now).claims != st.claims ==> forall d :: d in st.calls ==> !st.calls[d].Waking?
    ensures OneWaking(ClaimFor(st, c, observed, now)) && LapseShows(ClaimFor(st, c, observed, now))
  {
    assert CanClaim(st.inbox.cursors, observed, now, st.lease) ==>
             |ClaimFor(st, c, observed, now).claims| == |st.claims| + 1;
  }

  lemma AckKeepsSlate(st: State, c: CallId, cursor: int)
    requires OneWaking(st) && LapseShows(st) && c !in st.calls
    ensures OneWaking(AckStep(st, c, cursor)) && LapseShows(AckStep(st, c, cursor))
  {}

  lemma EndKeepsSlate(st: State, step: Step)
    requires OneWaking(st) && LapseShows(st) && (step.AckQuery? || step.WakeOk? || step.WakeErr?)
    ensures OneWaking(NextWake(st, step)) && LapseShows(NextWake(st, step))
  {}

  lemma CrashKeepsSlate(st: State, c: CallId)
    requires OneWaking(st) && LapseShows(st) && UndisturbedStep(st, Crash(c))
    ensures OneWaking(NextWake(st, Crash(c))) && LapseShows(NextWake(st, Crash(c)))
  {
    if c in st.calls && Lapses(st.calls[c]) {
      assert forall d :: d in st.calls ==> !st.calls[d].Waking?;
    }
  }

  lemma WakeKeepsSlate(st: State, step: Step)
    requires OneWaking(st) && LapseShows(st) && !IsDelivery(step) && !IsRoom(step) && UndisturbedStep(st, step)
    ensures OneWaking(NextWake(st, step)) && LapseShows(NextWake(st, step))
  {
    if step.TryWake? && step.c in st.calls && st.calls[step.c].Delivered? {
      if st.calls[step.c].rank >= st.minRank { ClaimKeepsSlate(st, step.c, st.calls[step.c].seqNo, step.now); }
    } else if step.TryWake? && step.c in st.calls && st.calls[step.c].FollowUp? {
      ClaimKeepsSlate(st, step.c, st.calls[step.c].observed, step.now);
    } else if step.StartAck? {
      if step.c !in st.calls { AckKeepsSlate(st, step.c, step.cursor); }
    } else if step.Crash? {
      CrashKeepsSlate(st, step.c);
    } else if !step.TryWake? {
      EndKeepsSlate(st, step);
    }
  }

  lemma NextKeepsSlate(st: State, step: Step)
    requires OneWaking(st) && LapseShows(st) && UndisturbedStep(st, step)
    ensures OneWaking(Next(st, step)) && LapseShows(Next(st, step))
  {
    if IsDelivery(step) {
      DeliveryStartsNoWake(st, step);
      DeliveryKeepsClaims(st, step);
    } else if IsRoom(step) {
      RoomStartsNoWake(st, step);
    } else {
      WakeKeepsSlate(st, step);
    }
  }

  lemma {:induction false} RunKeepsSlate(st: State, steps: seq<Step>)
    requires OneWaking(st) && LapseShows(st) && UndisturbedRun(st, steps)
    ensures OneWaking(Run(st, steps)) && LapseShows(Run(st, steps))
    decreases |steps|
  {
    if steps != [] {
      NextKeepsSlate(st, steps[0]);
      RunKeepsSlate(Next(st, steps[0]), steps[1..]);
    }
  }

  // If no attempt takes the claim, or dies untried, while another's remote wake
  // runs, an unclaimed pending event means that the attempt that ended last
  // failed or crashed; deliveries, coalesced attempts, reads, acknowledgements
  // and purges may go on meanwhile.
  lemma UnclaimedMeansLastFailed(minRank: int, lease: int, steps: seq<Step>, key: EventKey)
    requires UndisturbedRun(Initial(minRank, lease), steps)
    ensures var st := Run(Initial(minRank, lease), steps);
            st.calls == map[] && Pending(st.inbox, key, minRank) && st.inbox.cursors.claimedAt.None? ==> !st.lastOk
  {
    NoLostWakeup(minRank, lease, steps, key);
    RunKeepsSlate(Initial(minRank, lease), steps);
  }

  // Overlapping remote wakes break that. Whatever else is going on, a failing one
  // ends the claim of the newest.
  lemma FailedWakeReleasesOtherClaim(st: State, c: CallId, d: CallId)
    requires c != d && c in st.calls && d in st.calls && st.calls[c].Waking? && st.calls[d].Waking?
    ensures var after := Next(Next(st, WakeErr(c)), WakeOk(d));
            after.inbox.cursors.claimedAt.None? && after.lastOk && after.inbox.rows == st.inbox.rows
            && after.inbox.cursors.lastAcked == st.inbox.cursors.lastAcked && after.calls == st.calls - {c} - {d}
  {
    var one := Next(st, WakeErr(c));
    assert d in one.calls && one.calls[d].Waking?;
  }

  // --- the lease ---

  // The held claim is the newest one, and no older epoch ends after it.
  predicate ClaimMatchesHistory(st: State) {
    && (st.claims != [] ==> st.claims[|st.claims| - 1].epoch <= st.epoch)
    && (st.inbox.cursors.claimedAt == if st.claims != [] && st.claims[|st.claims| - 1].epoch == st.epoch
                                      then Some(st.claims[|st.claims| - 1].time) else None)
  }

  // Claims with no release or acknowledgement between them are a lease apart.
  ghost predicate LeasesKept(claims: seq<ClaimRecord>, lease: int) {
    forall i, j :: 0 <= i < j < |claims| ==>
      claims[i].epoch <= claims[j].epoch
      && (claims[i].epoch == claims[j].epoch ==> claims[j].time >= claims[i].time + lease)
  }

  ghost predicate LeaseInv(st: State) {
    st.lease >= 0 && ClaimMatchesHistory(st) && LeasesKept(st.claims, st.lease)
  }

  lemma ClaimKeepsLease(st: State, c: CallId, observed: int, now: int)
    requires LeaseInv(st)
    ensures LeaseInv(ClaimFor(st, c, observed, now))
  {
    if CanClaim(st.inbox.cursors, observed, now, st.lease) && st.claims != [] {
      var last := st.claims[|st.claims| - 1];
      assert last.epoch == st.epoch ==> now >= last.time + st.lease;
    }
  }

  lemma DeliveryKeepsLease(st: State, step: Step)
    requires LeaseInv(st) && IsDelivery(step)
    ensures LeaseInv(NextDelivery(st, step))
  {
    DeliveryKeepsClaims(st, step);
  }

  lemma WakeKeepsLease(st: State, step: Step)
    requires LeaseInv(st) && !IsDelivery(step) && !IsRoom(step)
    ensures LeaseInv(NextWake(st, step))
  {
    if step.TryWake? && step.c in st.calls && st.calls[step.c].Delivered? {
      ClaimKeepsLease(st, step.c, st.calls[step.c].seqNo, step.now);
    } else if step.TryWake? && step.c in st.calls && st.calls[step.c].FollowUp? {
      ClaimKeepsLease(st, step.c, st.calls[step.c].observed, step.now);
    }
  }

  lemma NextKeepsLease(st: State, step: Step)
    requires LeaseInv(st)
    ensures LeaseInv(Next(st, step))
  {
    if IsDelivery(step) {
      DeliveryKeepsLease(st, step);
    } else if !IsRoom(step) {
      WakeKeepsLease(st, step);
    }
  }

  lemma {:induction false} RunKeepsLease(st: State, steps: seq<Step>)
    requires LeaseInv(st)
    ensures LeaseInv(Run(st, steps))
    decreases |steps|
  {
    if steps != [] {
      NextKeepsLease(st, steps[0]);
      RunKeepsLease(Next(st, steps[0]), steps[1..]);
    }
  }

  // In every run, two claims between which the claim was neither released nor
  // acknowledged are at least a lease apart.
  lemma HeldClaimsAreALeaseApart(minRank: int, lease: nat, steps: seq<Step>)
    ensures LeasesKept(Run(Initial(minRank, lease), steps).claims, lease)
  {
    RunKeepsLease(Initial(minRank, lease), steps);
    RunKeepsMinRank(Initial(minRank, lease), steps);
  }

  // --- whose claim a failing wake releases ---

  ghost predicate ClaimsRecorded(st: State) {
    forall c :: c in st.calls && st.calls[c].Waking? ==> st.calls[c].claim < |st.claims|
  }

  ghost predicate RecordsKept(st: State, after: State) {
    && |st.claims| <= |after.claims|
    && (forall d :: d in after.calls && after.calls[d].Waking? ==>
          after.calls[d].claim < |after.claims| || (d in st.calls && after.calls[d] == st.calls[d]))
  }

  lemma ClaimKeepsRecords(st: State, c: CallId, observed: int, now: int)
    ensures RecordsKept(st, ClaimFor(st, c, observed, now))
  {}

  lemma WakeKeepsRecords(st: State, step: Step)
    requires !IsDelivery(step) && !IsRoom(step)
    ensures RecordsKept(st, NextWake(st, step))
  {
    if step.TryWake? && step.c in st.calls && st.calls[step.c].Delivered? {
      ClaimKeepsRecords(st, step.c, st.calls[step.c].seqNo, step.now);
    } else if step.TryWake? && step.c in st.calls && st.calls[step.c].FollowUp? {
      ClaimKeepsRecords(st, step.c, st.calls[step.c].observed, step.now);
    }
  }

  lemma NextKeepsRecords(st: State, step: Step)
    requires ClaimsRecorded(st)
    ensures ClaimsRecorded(Next(st, step))
  {
    if IsDelivery(step) || IsRoom(step) {
      forall d | d in Next(st, step).calls && Next(st, step).calls[d].Waking?
        ensures d in st.calls && Next(st, step).calls[d] == st.calls[d]
      {
        StaysWaking(st, step, d);
      }
      if IsDelivery(step) { DeliveryKeepsClaims(st, step); }
    } else {
      WakeKeepsRecords(st, step);
    }
  }

  lemma StaysWaking(st: State, step: Step, d: CallId)
    requires IsDelivery(step) || IsRoom(step)
    requires d in Next(st, step).calls && Next(st, step).calls[d].Waking?
    ensures d in st.calls && Next(st, step).calls[d] == st.calls[d]
  {
    if IsDelivery(step) {
      DeliveryStartsNoWake(st, step);
    } else {
      RoomStartsNoWake(st, step);
    }
    if Caller(step) != Some(d) { OnlyCallerChanges(st, step, d); }
  }

  lemma {:induction false} RunKeepsRecords(st: State, steps: seq<Step>)
    requires ClaimsRecorded(st)
    ensures ClaimsRecorded(Run(st, steps))
    decreases |steps|
  {
    if steps != [] {
      NextKeepsRecords(st, steps[0]);
      RunKeepsRecords(Next(st, steps[0]), steps[1..]);
    }
  }

  // In every run, a failing wake clears a claim that another attempt holds
  // exactly when an attempt has taken the claim since it did, and that was
  // neither released nor acknowledged; and no attempt can have done so within its
  // lease unless its own claim had been released or acknowledged.
  lemma FailedWakeReleasesExactly(minRank: int, lease: nat, steps: seq<Step>, c: CallId)
    requires var st := Run(Initial(minRank, lease), steps); c in st.calls && st.calls[c].Waking?
    ensures var st := Run(Initial(minRank, lease), steps);
            var own := st.calls[c].claim;
            && Next(st, WakeErr(c)).inbox.cursors.claimedAt.None?
            && own < |st.claims|
            && (st.inbox.cursors.claimedAt.Some? && own != |st.claims| - 1
                <==> exists j :: own < j < |st.claims| && st.claims[j].epoch == st.epoch)
            && (forall j :: own < j < |st.claims| && st.claims[j].epoch == st.claims[own].epoch ==>
                  st.claims[j].time >= st.claims[own].time + lease)
  {
    var st := Run(Initial(minRank, lease), steps);
    RunKeepsRecords(Initial(minRank, lease), steps);
    RunKeepsLease(Initial(minRank, lease), steps);
    RunKeepsMinRank(Initial(minRank, lease), steps);
    var last := |st.claims| - 1;
    if j :| st.calls[c].claim < j < |st.claims| && st.claims[j].epoch == st.epoch {
      assert j < last ==> st.claims[j].epoch <= st.claims[last].epoch;
    }
  }

  // --- a lost wakeup, from the start ---

  // An event delivered, its wake not yet attempted.
  lemma DeliversEvent(minRank: int, lease: nat, key: EventKey, row: Row) returns (st: State)
    ensures st == Run(Initial(minRank, lease), [StartWake(0, key, row), FindMiss(0)] + [Send(0, true, true), MarkStep(0, "m")])
    ensures st.calls == map[0 := Delivered(key, row.hintRank, 1)] && st.minRank == minRank && st.lease == lease
    ensures st.inbox == Inbox(map[key := row.(roomSeq := Some(1), messageId := Some("m"))], NO_CURSORS) && st.lastOk
  {
    var start := Initial(minRank, lease);
    var begun := Next(start, StartWake(0, key, row));
    assert begun.calls == map[0 := Searching(key, row.hintRank)];
    var missed := Next(begun, FindMiss(0));
    assert missed == begun.(calls := map[0 := MustSend(key, row.hintRank)]);
    var sent := Next(missed, Send(0, true, true));
    assert sent.calls == map[0 := Found(key, row.hintRank, 1)] && sent.inbox == missed.inbox;
    st := Next(sent, MarkStep(0, "m"));
    Run2(start, StartWake(0, key, row), FindMiss(0));
    Run2(missed, Send(0, true, true), MarkStep(0, "m"));
    RunConcat(start, [StartWake(0, key, row), FindMiss(0)], [Send(0, true, true), MarkStep(0, "m")]);
  }

  // A second attempt takes over the claim of a remote wake that outlasts its lease.
  lemma OvertakesSlowWake(st: State, key: EventKey, row: Row) returns (after: State)
    requires st.calls == map[0 := Delivered(key, row.hintRank, 1)] && row.hintRank >= st.minRank
    requires st.inbox == Inbox(map[key := row.(roomSeq := Some(1), messageId := Some("m"))], NO_CURSORS)
    ensures after == Run(st, [TryWake(0, 0), StartWake(1, key, row)] + [TryWake(1, st.lease)])
    ensures after.inbox.rows == st.inbox.rows && after.inbox.cursors.lastAcked == 0
    ensures after.calls.Keys == {0, 1} && after.calls[0].Waking? && after.calls[1].Waking? && after.minRank == st.minRank
  {
    var woken := Next(st, TryWake(0, 0));
    assert woken == ClaimFor(st, 0, 1, 0);
    assert woken.inbox == st.inbox.(cursors := Cursors(0, 0, Some(0)));
    var again := Next(woken, StartWake(1, key, row));
    assert again == woken.(calls := woken.calls[1 := Delivered(key, row.hintRank, 1)]);
    after := Next(again, TryWake(1, st.lease));
    assert after == ClaimFor(again, 1, 1, st.lease);
    Run2(st, TryWake(0, 0), StartWake(1, key, row));
    RunConcat(st, [TryWake(0, 0), StartWake(1, key, row)], [TryWake(1, st.lease)]);
    assert [TryWake(1, st.lease)][1..] == [];
  }

  // A remote wake outlasts its lease, a second one takes the claim, the first one
  // fails and the second succeeds: no call is left, the last attempt succeeded,
  // and the event is pending without a claim.
  lemma SlowWakeIsOvertaken(minRank: int, lease: nat, key: EventKey, row: Row)
    requires row.hintRank >= minRank
    ensures var steps := [StartWake(0, key, row), FindMiss(0)] + [Send(0, true, true), MarkStep(0, "m")]
                         + ([TryWake(0, 0), StartWake(1, key, row)] + [TryWake(1, lease)] + [WakeErr(0), WakeOk(1)]);
            var st := Run(Initial(minRank, lease), steps);
            && st.calls == map[] && st.lastOk
            && Pending(st.inbox, key, minRank) && st.inbox.cursors.claimedAt.None?
  {
    var delivered := DeliversEvent(minRank, lease, key, row);
    var both := OvertakesSlowWake(delivered, key, row);
    var p := [TryWake(0, 0), StartWake(1, key, row)] + [TryWake(1, lease)];
    RunConcat(delivered, p, [WakeErr(0), WakeOk(1)]);
    Run2(both, WakeErr(0), WakeOk(1));
    FailedWakeReleasesOtherClaim(both, 0, 1);
    RunConcat(Initial(minRank, lease), [StartWake(0, key, row), FindMiss(0)] + [Send(0, true, true), MarkStep(0, "m")],
              p + [WakeErr(0), WakeOk(1)]);
  }
}
