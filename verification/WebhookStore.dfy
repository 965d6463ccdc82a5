// The subscription and delivery tables, changed in place as the send path, the
// worker and the backfill do, each method taking one step of the protocol.
module WebhookStore {
  import opened Options
  import opened Webhooks

  datatype Subscription = Subscription(filter: Criteria, status: Status, cursor: int, failures: int)

  class DeliveryTables {
    var subscriptions: map<string, Subscription>
    var deliveries: map<string, map<int, Row>>

    constructor ()
      ensures subscriptions == map[] && deliveries == map[]
    {
      subscriptions, deliveries := map[], map[];
    }

    function QueueOf(id: string): map<int, Row>
      reads this
    {
      if id in deliveries then deliveries[id] else map[]
    }

    // The tables hold this subscription as the protocol state has it.
    ghost predicate Shows(id: string, st: State)
      reads this
    {
      && id in subscriptions
      && subscriptions[id] == Subscription(st.filter, st.status, st.cursor, subscriptions[id].failures)
      && QueueOf(id) == st.queue
    }

    ghost predicate OthersKept(id: string, subs: map<string, Subscription>, queues: map<string, map<int, Row>>)
      reads this
    {
      && (forall o :: o != id ==> (o in subscriptions <==> o in subs) && (o in subs ==> subscriptions[o] == subs[o]))
      && (forall o :: o != id ==> QueueOf(o) == if o in queues then queues[o] else map[])
    }

    method EnqueueDelivery(id: string, s: int, now: int) returns (inserted: bool)
      modifies this`deliveries
      ensures inserted == (s !in old(QueueOf(id)))
      ensures QueueOf(id) == if inserted then old(QueueOf(id))[s := Row(0, now, 0)] else old(QueueOf(id))
      ensures OthersKept(id, old(subscriptions), old(deliveries))
    {
      inserted := s !in QueueOf(id);
      if inserted {
        deliveries := deliveries[id := QueueOf(id)[s := Row(0, now, 0)]];
      }
    }

    // A new message is offered to every active subscription of the room.
    method EnqueueForMessage(s: int, m: Msg, now: int)
      modifies this`deliveries
      ensures forall id, st :: old(Shows(id, st)) && s > st.tip ==> Shows(id, InsertStep(st, s, m, now))
    {
      var todo := subscriptions.Keys;
      while todo != {}
        invariant todo <= subscriptions.Keys
        invariant forall id :: id in todo ==> QueueOf(id) == old(QueueOf(id))
        invariant forall id :: id in subscriptions && id !in todo ==>
                    QueueOf(id) == if subscriptions[id].status.Active? && s !in old(QueueOf(id))
                                      && Matches(subscriptions[id].filter, subscriptions[id].cursor, s, m)
                                   then old(QueueOf(id))[s := Row(0, now, 0)] else old(QueueOf(id))
        decreases todo
      {
        var id :| id in todo;
        todo := todo - {id};
        var sub := subscriptions[id];
        if sub.status.Active? && Matches(sub.filter, sub.cursor, s, m) {
          var _ := EnqueueDelivery(id, s, now);
        }
      }
    }

    // A subscription's head of the line that is due.
    predicate DueHead(head: (string, int), now: int)
      reads this
    {
      IsHead(QueueOf(head.0), head.1) && QueueOf(head.0)[head.1].due <= now
    }

    function DueOf(head: (string, int)): int
      reads this
    {
      if head.1 in QueueOf(head.0) then QueueOf(head.0)[head.1].due else 0
    }

    // The order of a batch: by due time, then by number.
    predicate DueBefore(a: (string, int), b: (string, int))
      reads this
    {
      DueOf(a) < DueOf(b) || (DueOf(a) == DueOf(b) && a.1 <= b.1)
    }

    // The head of one line, if it is due.
    method HeadOf(id: string, now: int) returns (head: Option<int>)
      ensures head.Some? ==> DueHead((id, head.value), now)
      ensures head.None? ==> forall s :: !DueHead((id, s), now)
    {
      var queue := QueueOf(id);
      var todo := queue.Keys;
      if todo == {} {
        return None;
      }
      var least := AnyOf(todo);
      while todo != {}
        invariant todo <= queue.Keys && least in queue
        invariant forall s :: s in queue && s !in todo ==> least <= s
        decreases todo
      {
        var s := AnyOf(todo);
        todo := todo - {s};
        if s < least {
          least := s;
        }
      }
      head := if queue[least].due <= now then Some(least) else None;
    }

    method DueHeads(now: int) returns (heads: set<(string, int)>)
      ensures forall h :: h in heads <==> DueHead(h, now)
    {
      heads := {};
      var todo := deliveries.Keys;
      while todo != {}
        invariant todo <= deliveries.Keys
        invariant forall h :: h in heads <==> DueHead(h, now) && h.0 !in todo
        decreases todo
      {
        var id := AnyOf(todo);
        todo := todo - {id};
        var head := HeadOf(id, now);
        if head.Some? {
          heads := heads + {(id, head.value)};
        }
      }
    }

    method Earliest(heads: set<(string, int)>) returns (first: (string, int))
      requires heads != {} && forall h :: h in heads ==> h.1 in QueueOf(h.0)
      ensures first in heads && forall h :: h in heads ==> DueBefore(first, h)
    {
      first := AnyOf(heads);
      var todo := heads;
      while todo != {}
        invariant todo <= heads && first in heads
        invariant forall h :: h in heads && h !in todo ==> DueBefore(first, h)
        decreases todo
      {
        var h := AnyOf(todo);
        todo := todo - {h};
        if !DueBefore(first, h) {
          first := h;
        }
      }
    }

    // The heads that are due, at most one of each subscription and at most `limit`
    // of all, in order; one left out comes after all of a full batch.
    method LoadDue(now: int, limit: nat) returns (batch: seq<(string, int)>)
      ensures |batch| <= limit && forall k :: 0 <= k < |batch| ==> DueHead(batch[k], now)
      ensures forall j, k :: 0 <= j < k < |batch| ==> batch[j].0 != batch[k].0 && DueBefore(batch[j], batch[k])
      ensures forall h :: DueHead(h, now) && h !in batch ==>
                |batch| == limit && forall k :: 0 <= k < |batch| ==> DueBefore(batch[k], h)
    {
      batch := [];
      var rest := DueHeads(now);
      while |batch| < limit && rest != {}
        invariant |batch| <= limit && forall k :: 0 <= k < |batch| ==> DueHead(batch[k], now)
        invariant forall h :: h in rest ==> DueHead(h, now) && h !in batch
        invariant forall h :: DueHead(h, now) ==> h in rest || h in batch
        invariant forall j, k :: 0 <= j < k < |batch| ==> batch[j].0 != batch[k].0 && DueBefore(batch[j], batch[k])
        invariant forall k, h :: 0 <= k < |batch| && h in rest ==> DueBefore(batch[k], h)
        decreases rest
      {
        var first := Earliest(rest);
        batch := batch + [first];
        rest := rest - {first};
      }
    }

    method DeleteDelivery(id: string, s: int)
      modifies this`deliveries
      ensures QueueOf(id) == old(QueueOf(id)) - {s}
      ensures OthersKept(id, old(subscriptions), old(deliveries))
    {
      deliveries := deliveries[id := QueueOf(id) - {s}];
    }

    function FailuresOf(id: string): int
      reads this
    {
      if id in subscriptions then subscriptions[id].failures else 0
    }

    method AdvanceSubscriptionCursor(id: string, s: int)
      modifies this`subscriptions
      ensures forall st :: old(Shows(id, st)) && st.work == Advancing(s) ==> Shows(id, Next(st, Advance))
      ensures FailuresOf(id) == if id in old(subscriptions) && s > old(subscriptions[id].cursor) then 0 else old(FailuresOf(id))
      ensures OthersKept(id, old(subscriptions), old(deliveries))
    {
      if id in subscriptions && s > subscriptions[id].cursor {
        subscriptions := subscriptions[id := subscriptions[id].(cursor := s, failures := 0)];
      }
    }

    method SetSubscriptionStatus(id: string, status: Status, failures: Option<int>)
      modifies this`subscriptions
      ensures forall st :: old(Shows(id, st)) ==> Shows(id, st.(status := status))
      ensures FailuresOf(id) == if id in old(subscriptions) && failures.Some? then failures.value else old(FailuresOf(id))
      ensures OthersKept(id, old(subscriptions), old(deliveries))
    {
      if id in subscriptions {
        var sub := subscriptions[id].(status := status);
        subscriptions := subscriptions[id := if failures.Some? then sub.(failures := failures.value) else sub];
      }
    }

    // A request that succeeded, or failed: one more attempt, or the last one.
    method FinishPost(id: string, s: int, ok: bool, now: int)
      modifies this`deliveries
      ensures forall st :: old(Shows(id, st)) && st.work == Posting(s) && s in st.queue ==>
                Shows(id, Next(st, if ok then PostOk else PostFail(now)))
      ensures OthersKept(id, old(subscriptions), old(deliveries))
    {
      if ok {
        DeleteDelivery(id, s);
      } else if s in QueueOf(id) {
        var row := QueueOf(id)[s];
        var attempts := row.attempts + 1;
        if attempts - 1 >= |RETRY_SCHEDULE_SECS| {
          DeleteDelivery(id, s);
        } else {
          var due := now + RETRY_SCHEDULE_SECS[attempts - 1];
          deliveries := deliveries[id := QueueOf(id)[s := Row(attempts, due, row.posts + 1)]];
        }
      }
    }

    // One page of backlog, filtered with the cursor read when the backfill began.
    method Backfill(id: string, filter: Criteria, cursor: int, page: seq<(int, Msg)>, now: int)
      modifies this`deliveries
      ensures forall s :: s in QueueOf(id) <==>
                s in old(QueueOf(id)) || exists m :: (s, m) in page && Matches(filter, cursor, s, m)
      ensures forall s :: s in old(QueueOf(id)) ==> QueueOf(id)[s] == old(QueueOf(id))[s]
      ensures forall s :: s in QueueOf(id) && s !in old(QueueOf(id)) ==> QueueOf(id)[s] == Row(0, now, 0)
      ensures OthersKept(id, old(subscriptions), old(deliveries))
    {
      var k := 0;
      while k < |page|
        invariant 0 <= k <= |page|
        invariant forall s :: s in QueueOf(id) <==>
                    s in old(QueueOf(id)) || exists m :: (s, m) in page[..k] && Matches(filter, cursor, s, m)
        invariant forall s :: s in old(QueueOf(id)) ==> s in QueueOf(id) && QueueOf(id)[s] == old(QueueOf(id))[s]
        invariant forall s :: s in QueueOf(id) && s !in old(QueueOf(id)) ==> QueueOf(id)[s] == Row(0, now, 0)
        invariant OthersKept(id, old(subscriptions), old(deliveries))
      {
        var (s, m) := page[k];
        assert page[..k + 1] == page[..k] + [page[k]];
        if Matches(filter, cursor, s, m) {
          var _ := EnqueueDelivery(id, s, now);
        }
        k := k + 1;
      }
      assert page[..k] == page;
    }
  }
}
