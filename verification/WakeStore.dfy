// The durable wake table and per-target cursors of the Codex bridge.
module WakeStore {
  import opened Options

  datatype EventKey = EventKey(target: string, source: string, eventId: string)

  // A reservation; `roomSeq` is recorded once the event is in the room.
  datatype Row = Row(eventJson: string, roomId: string, hintRank: int, roomSeq: Option<int>, messageId: Option<string>)

  datatype Cursors = Cursors(lastAcked: int, maxRead: int, claimedAt: Option<int>)

  // A target without a row behaves like one with these values.
  const NO_CURSORS := Cursors(0, 0, None)

  // Everything stored for one target.
  datatype Inbox = Inbox(rows: map<EventKey, Row>, cursors: Cursors)

  datatype Reservation = Reserved(duplicate: bool, roomSeq: Option<int>) | IdempotencyConflict

  function Reserve(x: Inbox, key: EventKey, row: Row): (Inbox, Reservation) {
    if key !in x.rows then (x.(rows := x.rows[key := row.(roomSeq := None, messageId := None)]), Reserved(false, None))
    else
      var existing := x.rows[key];
      if existing.eventJson != row.eventJson || existing.roomId != row.roomId || existing.hintRank != row.hintRank
      then (x, IdempotencyConflict)
      else (x, Reserved(true, existing.roomSeq))
  }

  // A key stands for one event: another body, room or hint under it conflicts and
  // changes nothing, the same one is a duplicate, and only a new key is recorded.
  lemma ReserveExactly(x: Inbox, key: EventKey, row: Row)
    ensures var (after, r) := Reserve(x, key, row);
            && (r.IdempotencyConflict? <==>
                  key in x.rows && (x.rows[key].eventJson, x.rows[key].roomId, x.rows[key].hintRank)
                                   != (row.eventJson, row.roomId, row.hintRank))
            && (r.Reserved? ==> (r.duplicate <==> key in x.rows) && (r.duplicate ==> r.roomSeq == x.rows[key].roomSeq))
            && (key in x.rows ==> after == x)
            && (key !in x.rows ==>
                  && r.Reserved? && r.roomSeq.None? && after.cursors == x.cursors
                  && after.rows == x.rows[key := Row(row.eventJson, row.roomId, row.hintRank, None, None)])
  {}

  predicate CanMark(x: Inbox, key: EventKey, seqNo: int) {
    key in x.rows && (x.rows[key].roomSeq.None? || x.rows[key].roomSeq == Some(seqNo))
  }

  function Mark(x: Inbox, key: EventKey, seqNo: int, messageId: string): Inbox {
    if CanMark(x, key, seqNo)
    then x.(rows := x.rows[key := x.rows[key].(roomSeq := Some(seqNo), messageId := Some(messageId))])
    else x
  }

  // A number is recorded with its message for a known event, unless another one is.
  lemma MarkExactly(x: Inbox, key: EventKey, seqNo: int, messageId: string)
    ensures var after := Mark(x, key, seqNo, messageId);
            if key in x.rows && x.rows[key].roomSeq in {None, Some(seqNo)}
            then CanMark(x, key, seqNo)
                 && after.rows == x.rows[key := Row(x.rows[key].eventJson, x.rows[key].roomId, x.rows[key].hintRank,
                                                    Some(seqNo), Some(messageId))]
                 && after.cursors == x.cursors
            else !CanMark(x, key, seqNo) && after == x
  {}

  predicate CanClaim(c: Cursors, observed: int, now: int, lease: int) {
    c.lastAcked < observed && (c.claimedAt.None? || c.claimedAt.value <= now - lease)
  }

  function Claim(c: Cursors, observed: int, now: int, lease: int): Cursors {
    if CanClaim(c, observed, now, lease) then c.(claimedAt := Some(now)) else c
  }

  function Max(a: int, b: int): int {
    if a >= b then a else b
  }

  function RecordRead(c: Cursors, maxSeq: int): Cursors {
    c.(maxRead := Max(c.maxRead, maxSeq))
  }

  // An acknowledgement beyond what was read is refused.
  function Acknowledge(c: Cursors, cursor: int): Option<Cursors> {
    if cursor > c.maxRead then None
    else Some(c.(lastAcked := Max(c.lastAcked, cursor), claimedAt := None))
  }

  predicate Pending(x: Inbox, key: EventKey, minRank: int) {
    && key in x.rows && x.rows[key].roomSeq.Some?
    && x.rows[key].roomSeq.value > x.cursors.lastAcked && x.rows[key].hintRank >= minRank
  }

  // Delivered, not yet acknowledged, and important enough for a wake.
  lemma PendingExactly(x: Inbox, key: EventKey, minRank: int)
    ensures !Pending(x, key, minRank) <==>
              || key !in x.rows || x.rows[key].hintRank < minRank
              || x.rows[key].roomSeq.None? || x.rows[key].roomSeq.value <= x.cursors.lastAcked
  {}

  // `best` is the greatest delivered, unacknowledged, eligible sequence number.
  ghost predicate IsMaxPending(x: Inbox, minRank: int, best: Option<int>) {
    && (best.Some? ==> exists key :: Pending(x, key, minRank) && x.rows[key].roomSeq == best)
    && (forall key :: Pending(x, key, minRank) ==> best.Some? && x.rows[key].roomSeq.value <= best.value)
  }

  lemma MaxPendingUnique(x: Inbox, minRank: int, a: Option<int>, b: Option<int>)
    requires IsMaxPending(x, minRank, a) && IsMaxPending(x, minRank, b)
    ensures a == b
  {
    if a.Some? {
      var key :| Pending(x, key, minRank) && x.rows[key].roomSeq == a;
      assert b.Some? && a.value <= b.value;
    }
    if b.Some? {
      var key :| Pending(x, key, minRank) && x.rows[key].roomSeq == b;
      assert a.Some? && b.value <= a.value;
    }
  }

  // The acknowledged cursor never moves back and never passes what was read.
  ghost predicate CursorsOrdered(c: Cursors) {
    c.lastAcked <= c.maxRead
  }

  lemma AcknowledgeIsMonotone(c: Cursors, cursor: int)
    requires CursorsOrdered(c)
    ensures Acknowledge(c, cursor).Some? <==> cursor <= c.maxRead
    ensures Acknowledge(c, cursor).Some? ==>
              var after := Acknowledge(c, cursor).value;
              CursorsOrdered(after) && after.lastAcked >= c.lastAcked && after.maxRead == c.maxRead
  {}

  // An accepted acknowledgement reaches its cursor and no further, keeps what was
  // read and ends the claim; of the pending events it settles exactly those up to it.
  lemma AcknowledgeSettles(x: Inbox, cursor: int, key: EventKey, minRank: int)
    requires cursor <= x.cursors.maxRead
    ensures Acknowledge(x.cursors, cursor).Some?
    ensures var after := x.(cursors := Acknowledge(x.cursors, cursor).value);
            && (after.cursors.lastAcked == cursor || (cursor < after.cursors.lastAcked == x.cursors.lastAcked))
            && after.cursors.lastAcked >= x.cursors.lastAcked
            && after.cursors.maxRead == x.cursors.maxRead && after.cursors.claimedAt.None?
            && (Pending(after, key, minRank) <==> Pending(x, key, minRank) && x.rows[key].roomSeq.value > cursor)
  {}

  // A claim that is still held can be taken again only a whole lease later.
  lemma ClaimsAreLeased(c: Cursors, observed: int, now: int, lease: int)
    requires CanClaim(c, observed, now, lease) && c.claimedAt.Some?
    ensures now >= c.claimedAt.value + lease
    ensures forall later :: later < now + lease ==> !CanClaim(Claim(c, observed, now, lease), observed, later, lease)
  {}

  class WakeStore {
    var events: map<EventKey, Row>
    var targets: map<string, Cursors>

    constructor ()
      ensures events == map[] && targets == map[]
    {
      events, targets := map[], map[];
    }

    ghost function View(target: string): Inbox
      reads this
    {
      Inbox(map k | k in events && k.target == target :: events[k],
            if target in targets then targets[target] else NO_CURSORS)
    }

    method EnsureTarget(target: string)
      modifies this`targets
      ensures target in targets
      ensures forall t :: View(t) == old(View(t))
    {
      if target !in targets {
        targets := targets[target := NO_CURSORS];
      }
      assert forall t :: View(t).rows == old(View(t)).rows;
    }

    method ReserveEvent(key: EventKey, row: Row) returns (r: Reservation)
      modifies this
      ensures r == Reserve(old(View(key.target)), key, row).1
      ensures View(key.target) == Reserve(old(View(key.target)), key, row).0
      ensures forall t :: t != key.target ==> View(t) == old(View(t))
    {
      if key in events {
        var existing := events[key];
        if existing.eventJson != row.eventJson || existing.roomId != row.roomId || existing.hintRank != row.hintRank {
          return IdempotencyConflict;
        }
        EnsureTarget(key.target);
        return Reserved(true, existing.roomSeq);
      }
      EnsureTarget(key.target);
      label ensured:
      events := events[key := row.(roomSeq := None, messageId := None)];
      assert View(key.target).rows == old@ensured(View(key.target)).rows[key := events[key]];
      assert forall t :: t != key.target ==> View(t).rows == old@ensured(View(t)).rows;
      r := Reserved(false, None);
    }

    method MarkDelivered(key: EventKey, seqNo: int, messageId: string) returns (ok: bool)
      modifies this`events
      ensures ok == CanMark(old(View(key.target)), key, seqNo)
      ensures View(key.target) == Mark(old(View(key.target)), key, seqNo, messageId)
      ensures forall t :: t != key.target ==> View(t) == old(View(t))
    {
      ok := key in events && (events[key].roomSeq.None? || events[key].roomSeq == Some(seqNo));
      if ok {
        events := events[key := events[key].(roomSeq := Some(seqNo), messageId := Some(messageId))];
      }
      assert View(key.target).rows == Mark(old(View(key.target)), key, seqNo, messageId).rows;
      assert forall t :: t != key.target ==> View(t).rows == old(View(t)).rows;
    }

    method ClaimWake(target: string, observed: int, now: int, lease: int) returns (claimed: bool)
      modifies this`targets
      ensures claimed == CanClaim(old(View(target)).cursors, observed, now, lease)
      ensures View(target) == old(View(target)).(cursors := Claim(old(View(target)).cursors, observed, now, lease))
      ensures forall t :: t != target ==> View(t) == old(View(t))
    {
      EnsureTarget(target);
      var c := targets[target];
      claimed := c.lastAcked < observed && (c.claimedAt.None? || c.claimedAt.value <= now - lease);
      if claimed {
        targets := targets[target := c.(claimedAt := Some(now))];
      }
      assert forall t :: View(t).rows == old(View(t)).rows;
    }

    method ReleaseWake(target: string)
      modifies this`targets
      ensures View(target) == old(View(target)).(cursors := old(View(target)).cursors.(claimedAt := None))
      ensures forall t :: t != target ==> View(t) == old(View(t))
    {
      if target in targets {
        targets := targets[target := targets[target].(claimedAt := None)];
      }
      assert forall t :: View(t).rows == old(View(t)).rows;
    }

    // A target without a row starts with the number given, whatever it is.
    method RecordReadSeq(target: string, maxSeq: int)
      modifies this`targets
      ensures old(target in targets) || 0 <= maxSeq ==>
                View(target) == old(View(target)).(cursors := RecordRead(old(View(target)).cursors, maxSeq))
      ensures old(target !in targets) ==> View(target) == old(View(target)).(cursors := Cursors(0, maxSeq, None))
      ensures forall t :: t != target ==> View(t) == old(View(t))
    {
      if target in targets {
        var c := targets[target];
        targets := targets[target := c.(maxRead := if c.maxRead >= maxSeq then c.maxRead else maxSeq)];
      } else {
        targets := targets[target := Cursors(0, maxSeq, None)];
      }
      assert forall t :: View(t).rows == old(View(t)).rows;
    }

    method AcknowledgeSeq(target: string, cursor: int) returns (ok: bool)
      modifies this`targets
      ensures ok == (cursor <= old(View(target)).cursors.maxRead)
      ensures ok ==> View(target).cursors.lastAcked ==
                       if cursor > old(View(target)).cursors.lastAcked then cursor else old(View(target)).cursors.lastAcked
      ensures View(target) == if ok
                then old(View(target)).(cursors := Acknowledge(old(View(target)).cursors, cursor).value)
                else old(View(target))
      ensures forall t :: t != target ==> View(t) == old(View(t))
    {
      var c := if target in targets then targets[target] else NO_CURSORS;
      ok := cursor <= c.maxRead;
      if ok && target in targets {
        targets := targets[target := c.(lastAcked := if c.lastAcked >= cursor then c.lastAcked else cursor, claimedAt := None)];
      }
      assert forall t :: View(t).rows == old(View(t)).rows;
    }

    method MaxPendingEligibleSeq(target: string, minRank: int) returns (best: Option<int>)
      ensures IsMaxPending(View(target), minRank, best)
    {
      best := None;
      var acked := if target in targets then targets[target].lastAcked else 0;
      var todo := events.Keys;
      while todo != {}
        invariant todo <= events.Keys
        invariant best.Some? ==> exists key :: key in events.Keys - todo && Pending(View(target), key, minRank)
                                               && View(target).rows[key].roomSeq == best
        invariant forall key :: key in events.Keys - todo && Pending(View(target), key, minRank) ==>
                    best.Some? && View(target).rows[key].roomSeq.value <= best.value
        decreases todo
      {
        var key :| key in todo;
        todo := todo - {key};
        var row := events[key];
        if key.target == target && row.roomSeq.Some? && row.roomSeq.value > acked && row.hintRank >= minRank {
          assert Pending(View(target), key, minRank);
          if best.None? || best.value < row.roomSeq.value {
            best := row.roomSeq;
          }
        }
      }
    }
  }
}
