// A bounded, expiring record of destroyed rooms. The reconnect manager and the
// broker each keep one, with different lifetimes.
module Tombstones {
  import opened Options

  // Entries younger than `ttl`.
  function Fresh(rooms: map<string, int>, now: int, ttl: int): map<string, int> {
    map r | r in rooms && now - rooms[r] < ttl :: rooms[r]
  }

  // What pruning may leave: only young entries with their own times, at most
  // `max` of them, all of them when they fit, and never an entry older than one
  // that was dropped for lack of space.
  ghost predicate Pruned(before: map<string, int>, after: map<string, int>, now: int, ttl: int, max: nat) {
    var young := Fresh(before, now, ttl);
    && (forall r :: r in after ==> r in young && after[r] == young[r])
    && |after| == (if |young| <= max then |young| else max)
    && (forall kept, dropped :: kept in after && dropped in young && dropped !in after
          ==> young[dropped] <= young[kept])
  }

  lemma SubmapOfSameSize(small: map<string, int>, big: map<string, int>)
    requires forall r :: r in small ==> r in big && small[r] == big[r]
    requires |small| == |big|
    ensures small == big
  {
    assert small.Keys <= big.Keys;
    forall r | r in big
      ensures r in small
    {
      if r !in small {
        SubsetSize(small.Keys, big.Keys - {r});
      }
    }
  }

  // While there is room, pruning forgets nothing young.
  lemma PrunedKeepsAllWhenSmall(before: map<string, int>, after: map<string, int>, now: int, ttl: int, max: nat)
    requires Pruned(before, after, now, ttl, max)
    requires |Fresh(before, now, ttl)| <= max
    ensures after == Fresh(before, now, ttl)
  {
    SubmapOfSameSize(after, Fresh(before, now, ttl));
  }

  // In other words: what is kept is younger than `ttl` to the tick, and an entry that
  // young is dropped only if all kept ones are as young, and there are `max` of them.
  lemma PrunedExactly(before: map<string, int>, after: map<string, int>, r: string, now: int, ttl: int, max: nat)
    requires Pruned(before, after, now, ttl, max)
    ensures |after| <= max
    ensures r in after ==> r in before && after[r] == before[r] && now <= before[r] + ttl - 1
    ensures r in before && now <= before[r] + ttl - 1 && r !in after ==>
              |after| == max && forall k :: k in after ==> before[r] <= after[k]
  {
    var young := Fresh(before, now, ttl);
    if r in young && r !in after && |young| <= max { PrunedKeepsAllWhenSmall(before, after, now, ttl, max); }
  }

  // Pruning at the same instant again changes nothing.
  lemma PruneIdempotent(before: map<string, int>, after: map<string, int>, again: map<string, int>,
                        now: int, ttl: int, max: nat)
    requires Pruned(before, after, now, ttl, max)
    requires Pruned(after, again, now, ttl, max)
    ensures again == after
  {
    assert Fresh(after, now, ttl) == after;
    PrunedKeepsAllWhenSmall(after, again, now, ttl, max);
  }

  // The entry with the smallest time; ties are broken arbitrarily.
  method Oldest(rooms: map<string, int>) returns (oldest: string)
    requires |rooms| > 0
    ensures oldest in rooms
    ensures forall r :: r in rooms ==> rooms[oldest] <= rooms[r]
  {
    var todo := rooms.Keys;
    assert todo != {} by {
      assert |todo| == |rooms|;
    }
    oldest :| oldest in todo;
    todo := todo - {oldest};
    while todo != {}
      invariant oldest in rooms && todo <= rooms.Keys
      invariant forall r :: r in rooms && r !in todo ==> rooms[oldest] <= rooms[r]
      decreases todo
    {
      var r :| r in todo;
      if rooms[r] < rooms[oldest] {
        oldest := r;
      }
      todo := todo - {r};
    }
  }

  method Prune(rooms: map<string, int>, now: int, ttl: int, max: nat) returns (pruned: map<string, int>)
    ensures Pruned(rooms, pruned, now, ttl, max)
  {
    pruned := Fresh(rooms, now, ttl);
    ghost var young := pruned;
    while |pruned| > max
      invariant forall r :: r in pruned ==> r in young && pruned[r] == young[r]
      invariant |pruned| == |young| || max <= |pruned| < |young|
      invariant forall kept, dropped :: kept in pruned && dropped in young && dropped !in pruned
                  ==> young[dropped] <= young[kept]
    {
      var oldest := Oldest(pruned);
      assert (pruned - {oldest}).Keys == pruned.Keys - {oldest};
      pruned := pruned - {oldest};
    }
  }

  // Whether a room recorded now is sure to be there afterwards: every other entry
  // is older, or all the young ones fit.
  ghost predicate SurelyRecorded(before: map<string, int>, room: string, now: int, ttl: int, max: nat) {
    || (forall r :: r in before && r != room ==> before[r] < now)
    || |Fresh(before[room := now], now, ttl)| <= max
  }

  // An entry newer than all others, or one of few, is kept.
  lemma NewestIsKept(added: map<string, int>, after: map<string, int>, room: string, now: int, ttl: int, max: nat)
    requires Pruned(added, after, now, ttl, max) && ttl > 0 && max > 0
    requires room in added && added[room] == now
    requires (forall r :: r in added && r != room ==> added[r] < now) || |Fresh(added, now, ttl)| <= max
    ensures room in after && after[room] == now
  {
    var young := Fresh(added, now, ttl);
    assert room in young;
    if |young| <= max {
      PrunedKeepsAllWhenSmall(added, after, now, ttl, max);
    } else {
      assert |after.Keys| == max;
      var kept := SomeOf(after.Keys);
      assert kept in young && (kept == room || young[kept] < now);
    }
  }

  // Pruning, adding and pruning again is adding and pruning once, as long as no
  // entry lies in the future.
  lemma TwicePruned(before: map<string, int>, mid: map<string, int>, after: map<string, int>,
                    room: string, now: int, ttl: int, max: nat)
    requires ttl > 0 && forall r :: r in before ==> before[r] <= now
    requires Pruned(before, mid, now, ttl, max) && Pruned(mid[room := now], after, now, ttl, max)
    ensures Pruned(before[room := now], after, now, ttl, max)
  {
    var fromBefore := Fresh(before, now, ttl);
    var added := mid[room := now];
    var young := Fresh(before[room := now], now, ttl);
    AddedIsFresh(before, mid, room, now, ttl, max);
    assert young == fromBefore[room := now];
    if |fromBefore| <= max {
      PrunedKeepsAllWhenSmall(before, mid, now, ttl, max);
    } else {
      SubsetSize(mid.Keys, added.Keys);
      SubsetSize(fromBefore.Keys, young.Keys);
      TwiceOrdered(before, mid, after, room, now, ttl, max);
    }
  }

  lemma AddedIsFresh(before: map<string, int>, mid: map<string, int>, room: string, now: int, ttl: int, max: nat)
    requires ttl > 0 && Pruned(before, mid, now, ttl, max)
    ensures Fresh(mid[room := now], now, ttl) == mid[room := now]
  {}

  lemma TwiceOrdered(before: map<string, int>, mid: map<string, int>, after: map<string, int>,
                     room: string, now: int, ttl: int, max: nat)
    requires ttl > 0 && forall r :: r in before ==> before[r] <= now
    requires Pruned(before, mid, now, ttl, max) && Pruned(mid[room := now], after, now, ttl, max)
    ensures var young := Fresh(before[room := now], now, ttl);
            forall kept, dropped :: kept in after && dropped in young && dropped !in after ==>
              kept in young && young[dropped] <= young[kept]
  {
    AddedIsFresh(before, mid, room, now, ttl, max);
    var young := Fresh(before[room := now], now, ttl);
    forall kept, dropped | kept in after && dropped in young && dropped !in after
      ensures kept in young && young[dropped] <= young[kept]
    {
      if dropped in mid[room := now] {
        assert mid[room := now][dropped] <= mid[room := now][kept];
      } else if kept != room {
        assert Fresh(before, now, ttl)[dropped] <= Fresh(before, now, ttl)[kept];
      }
    }
  }

  // Pruning first does not make that less sure.
  lemma PrunedStaySure(before: map<string, int>, mid: map<string, int>, room: string, now: int, ttl: int, max: nat)
    requires Pruned(before, mid, now, ttl, max)
    ensures SurelyRecorded(before, room, now, ttl, max) ==> SurelyRecorded(mid, room, now, ttl, max)
  {
    SubsetSize(Fresh(mid[room := now], now, ttl).Keys, Fresh(before[room := now], now, ttl).Keys);
  }

  // What both caches do to record a room.
  method Record(rooms: map<string, int>, room: string, now: int, ttl: int, max: nat) returns (after: map<string, int>)
    requires ttl > 0 && max > 0
    ensures |after| <= max
    ensures forall r :: r in after && r != room ==> r in rooms && after[r] == rooms[r]
    ensures SurelyRecorded(rooms, room, now, ttl, max) ==> room in after && after[room] == now
    ensures (forall r :: r in rooms ==> rooms[r] <= now) ==> Pruned(rooms[room := now], after, now, ttl, max)
  {
    var mid := Prune(rooms, now, ttl, max);
    after := Prune(mid[room := now], now, ttl, max);
    if forall r :: r in rooms ==> rooms[r] <= now {
      TwicePruned(rooms, mid, after, room, now, ttl, max);
    }
    if SurelyRecorded(rooms, room, now, ttl, max) {
      PrunedStaySure(rooms, mid, room, now, ttl, max);
      NewestIsKept(mid[room := now], after, room, now, ttl, max);
    }
  }
}
