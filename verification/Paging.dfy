// Loops that page through a room's history while others write to it: the bridge's
// search and inbox read, and the client's backlog scan.
module Paging {
  import opened Options
  import opened Sequences

  const PAGE: nat := 1000
  const BACKLOG_PAGE: nat := 32
  const WAKE_KIND := "agent_wake"

  predicate IsWakeFor(m: Message, target: string) {
    m.content.meta.kind == Some(WAKE_KIND) && m.content.meta.target == Some(target)
  }

  predicate IsEvent(m: Message, target: string, source: string, eventId: string) {
    IsWakeFor(m, target) && m.content.meta.source == Some(source) && m.content.meta.eventId == Some(eventId)
  }

  // The metadata a sent wake carries, as the sender writes it.
  predicate CarriesEvent(meta: Metadata, target: string, source: string, eventId: string) {
    meta == Metadata(meta.metaType, Some("agent_wake"), Some(target), Some(source), Some(eventId))
  }

  function EventsOf(target: string, source: string, eventId: string): Message -> bool {
    (m: Message) => IsEvent(m, target, source, eventId)
  }

  // The room at each successive request, as runs of the allocator leave it.
  ghost predicate Succession(rooms: nat -> Room) {
    && (forall k: nat :: Readable(rooms(k)))
    && (forall k: nat :: Evolves(rooms(k), rooms(k + 1)))
  }

  // No message in this stretch of the room is selected.
  ghost predicate NoneIn(room: Room, low: int, high: int, selected: Message -> bool) {
    forall m :: m in room.rows && low < m.seqNo <= high ==> !selected(m)
  }

  ghost predicate NoneAbove(room: Room, low: int, selected: Message -> bool) {
    forall m :: m in room.rows && low < m.seqNo ==> !selected(m)
  }

  // What was ruled out below a seen cursor stays ruled out.
  lemma RuledOutLater(before: Room, after: Room, low: int, high: int, selected: Message -> bool)
    requires Evolves(before, after) && NoneIn(before, low, high, selected) && high <= before.highWater
    ensures NoneIn(after, low, high, selected)
  {}

  // A page that holds no selected message rules out everything up to its end,
  // and everything above its start when it is not full.
  lemma PageRulesOut(room: Room, low: int, cursor: int, limit: nat, selected: Message -> bool)
    requires Readable(room) && NoneIn(room, low, cursor, selected)
    requires forall m :: m in Since(room.rows, cursor, limit) ==> !selected(m)
    ensures var page := Since(room.rows, cursor, limit);
            && (page != [] ==> cursor < page[|page| - 1].seqNo <= room.highWater
                               && NoneIn(room, low, page[|page| - 1].seqNo, selected))
            && (|page| < limit ==> NoneAbove(room, low, selected))
  {
    SinceIsFirst(room.rows, cursor, limit);
    var page := Since(room.rows, cursor, limit);
    if page != [] {
      var end := page[|page| - 1];
      assert end in page;
      forall m | m in room.rows && low < m.seqNo <= page[|page| - 1].seqNo
        ensures !selected(m)
      {
        assert m.seqNo <= cursor || m in page;
      }
    }
  }

  // --- when a loop over full pages ends ---

  // A page that is not full, or holds enough of what is wanted.
  predicate LastPage(page: seq<Message>, want: int, selected: Message -> bool) {
    |page| < PAGE || want <= |Selected(page, |page|, selected)|
  }

  // Reading page after page from this request and cursor on, as long as pages are
  // full and `want` more messages are to be found, ends within n more requests.
  predicate EndsWithin(rooms: nat -> Room, at: nat, cursor: int, want: int, n: nat, selected: Message -> bool)
    decreases n, 0
  {
    var page := Since(rooms(at).rows, cursor, PAGE);
    LastPage(page, want, selected) || (n > 0 && GoesOnWithin(rooms, at, page, want, n - 1, selected))
  }

  predicate GoesOnWithin(rooms: nat -> Room, at: nat, page: seq<Message>, want: int, n: nat, selected: Message -> bool)
    decreases n, 1
  {
    page != [] && EndsWithin(rooms, at + 1, page[|page| - 1].seqNo, want - |Selected(page, |page|, selected)|, n, selected)
  }

  // It does when the room's numbers stay below some bound.
  lemma {:induction false} BoundedRoomsEnd(rooms: nat -> Room, at: nat, cursor: int, want: int, bound: int, n: nat,
                                           selected: Message -> bool)
    requires Succession(rooms) && (forall k: nat :: rooms(k).highWater <= bound) && bound - cursor < n
    ensures EndsWithin(rooms, at, cursor, want, n, selected)
    decreases n
  {
    var page := Since(rooms(at).rows, cursor, PAGE);
    if !LastPage(page, want, selected) {
      FullPageClimbs(rooms, at, cursor, page, bound);
      BoundedRoomsEnd(rooms, at + 1, page[|page| - 1].seqNo, want - |Selected(page, |page|, selected)|, bound, n - 1, selected);
    }
  }

  lemma FullPageClimbs(rooms: nat -> Room, at: nat, cursor: int, page: seq<Message>, bound: int)
    requires Succession(rooms) && rooms(at).highWater <= bound
    requires page == Since(rooms(at).rows, cursor, PAGE) && |page| >= PAGE
    ensures page != [] && cursor < page[|page| - 1].seqNo <= bound
  {
    CollectedNextBound(rooms(at), cursor, PAGE, page);
  }

  // --- the search for an event ---

  lemma {:induction false} NoneSelected(page: seq<Message>, k: nat, selected: Message -> bool)
    requires k <= |page| && forall i :: 0 <= i < k ==> !selected(page[i])
    ensures Selected(page, k, selected) == []
  {
    if k > 0 { NoneSelected(page, k - 1, selected); }
  }

  lemma SearchGoesOn(rooms: nat -> Room, at: nat, cursor: int, left: nat, page: seq<Message>, selected: Message -> bool)
    requires page == Since(rooms(at).rows, cursor, PAGE) && |page| >= PAGE
    requires EndsWithin(rooms, at, cursor, 1, left, selected) && forall i :: 0 <= i < |page| ==> !selected(page[i])
    ensures left > 0 && EndsWithin(rooms, at + 1, page[|page| - 1].seqNo, 1, left - 1, selected)
  {
    NoneSelected(page, |page|, selected);
  }

  lemma ReadGoesOn(rooms: nat -> Room, at: nat, cursor: int, limit: nat, left: nat, page: seq<Message>,
                   before: seq<Message>, k: nat, selected: Message -> bool, result: seq<Message>)
    requires page == Since(rooms(at).rows, cursor, PAGE) && |page| >= PAGE && k <= |page|
    requires EndsWithin(rooms, at, cursor, limit - |before|, left, selected)
    requires result == before + Selected(page, k, selected) && (|result| == limit || (|result| < limit && k == |page|))
    ensures |result| < limit ==> left > 0
    ensures EndsWithin(rooms, at + 1, page[|page| - 1].seqNo, limit - |result|, if left > 0 then left - 1 else 0, selected)
  {}

  // The loop ends as soon as a page is not full or holds a match. The search finds
  // the first matching message of the room as last seen, and nothing exactly when
  // that room holds none.
  method FindEvent(rooms: nat -> Room, target: string, source: string, eventId: string)
    returns (found: Option<Message>, last: nat)
    requires Succession(rooms) && exists n: nat :: EndsWithin(rooms, 0, 0, 1, n, EventsOf(target, source, eventId))
    ensures found.Some? ==> found.value in rooms(last).rows && found.value.seqNo > 0 && IsEvent(found.value, target, source, eventId)
                            && NoneIn(rooms(last), 0, found.value.seqNo - 1, EventsOf(target, source, eventId))
    ensures found.None? ==> NoneAbove(rooms(last), 0, EventsOf(target, source, eventId))
    ensures found.Some? ==> CarriesEvent(found.value.content.meta, target, source, eventId)
    ensures found.None? ==>
              forall m :: m in rooms(last).rows && m.seqNo > 0 ==> !CarriesEvent(m.content.meta, target, source, eventId)
  {
    ghost var selected := EventsOf(target, source, eventId);
    ghost var left: nat :| EndsWithin(rooms, 0, 0, 1, left, selected);
    var cursor := 0;
    last := 0;
    while true
      invariant 0 <= cursor && (cursor == 0 || cursor <= rooms(last).highWater)
      invariant NoneIn(rooms(last), 0, cursor, selected)
      invariant EndsWithin(rooms, last, cursor, 1, left, selected)
      decreases left
    {
      var page := Since(rooms(last).rows, cursor, PAGE);
      SinceIsFirst(rooms(last).rows, cursor, PAGE);
      if page == [] {
        PageRulesOut(rooms(last), 0, cursor, PAGE, selected);
        return None, last;
      }
      var k := FirstEvent(page, target, source, eventId);
      if k < |page| {
        FirstOfPage(rooms(last), cursor, PAGE, k, selected);
        return Some(page[k]), last;
      }
      PageRulesOut(rooms(last), 0, cursor, PAGE, selected);
      ghost var start := cursor;
      cursor := page[|page| - 1].seqNo;
      if |page| < PAGE {
        return None, last;
      }
      SearchGoesOn(rooms, last, start, left, page, selected);
      left := left - 1;
      RuledOutLater(rooms(last), rooms(last + 1), 0, cursor, selected);
      last := last + 1;
    }
  }

  method FirstEvent(page: seq<Message>, target: string, source: string, eventId: string) returns (k: nat)
    ensures k <= |page|
    ensures k < |page| ==> IsEvent(page[k], target, source, eventId)
    ensures forall i :: 0 <= i < k ==> !IsEvent(page[i], target, source, eventId)
  {
    k := 0;
    while k < |page| && !IsEvent(page[k], target, source, eventId)
      invariant k <= |page|
      invariant forall i :: 0 <= i < k ==> !IsEvent(page[i], target, source, eventId)
    {
      k := k + 1;
    }
  }

  // The first selected message of a page is the first one of the room.
  lemma FirstOfPage(room: Room, cursor: int, limit: nat, k: nat, selected: Message -> bool)
    requires Readable(room) && cursor >= 0 && NoneIn(room, 0, cursor, selected)
    requires k < |Since(room.rows, cursor, limit)|
    requires forall i :: 0 <= i < k ==> !selected(Since(room.rows, cursor, limit)[i])
    ensures var m := Since(room.rows, cursor, limit)[k];
            m in room.rows && m.seqNo > cursor && NoneIn(room, 0, m.seqNo - 1, selected)
  {
    SinceIsFirst(room.rows, cursor, limit);
    var page := Since(room.rows, cursor, limit);
    assert page[k] in page;
    forall m | m in room.rows && 0 < m.seqNo <= page[k].seqNo - 1
      ensures !selected(m)
    {
      if m.seqNo > cursor {
        assert m in page;
        var i :| 0 <= i < |page| && page[i] == m;
        assert i < k;
      }
    }
  }

  // --- reading an inbox ---

  // The first `limit` selected messages above the cursor, in order.
  ghost predicate IsFirsts(rows: seq<Message>, after: int, limit: nat, selected: Message -> bool, r: seq<Message>) {
    && Ascending(r) && |r| <= limit
    && (forall m :: m in r ==> m in rows && m.seqNo > after && selected(m))
    && LeavesOutLater(rows, after, limit, selected, r)
  }

  ghost predicate LeavesOutLater(rows: seq<Message>, after: int, limit: nat, selected: Message -> bool, r: seq<Message>) {
    forall m :: m in rows && m.seqNo > after && selected(m) && m !in r ==>
      |r| == limit && forall p :: p in r ==> p.seqNo < m.seqNo
  }

  // That determines the answer.
  lemma {:induction false} FirstsUnique(rows: seq<Message>, after: int, limit: nat, selected: Message -> bool,
                                        a: seq<Message>, b: seq<Message>)
    requires Ascending(rows)
    requires IsFirsts(rows, after, limit, selected, a) && IsFirsts(rows, after, limit, selected, b)
    ensures a == b
    decreases |a|
  {
    if a == [] {
      if b != [] { SomeMember(b); }
    } else {
      assert a[0] in a;
      assert b != [];
      assert b[0] in b;
      assert a[0].seqNo == b[0].seqNo by {
        HeadIsLeast(a, b[0]);
        HeadIsLeast(b, a[0]);
      }
      SameNumberSameMessage(rows, a[0], b[0]);
      TailIsFirsts(rows, after, limit, selected, a);
      TailIsFirsts(rows, after, limit, selected, b);
      FirstsUnique(rows, a[0].seqNo, limit - 1, selected, a[1..], b[1..]);
    }
  }

  lemma HeadIsLeast(a: seq<Message>, m: Message)
    requires Ascending(a) && m in a
    ensures a[0].seqNo <= m.seqNo
  {}

  lemma SameNumberSameMessage(rows: seq<Message>, a: Message, b: Message)
    requires Ascending(rows) && a in rows && b in rows && a.seqNo == b.seqNo
    ensures a == b
  {
    var i :| 0 <= i < |rows| && rows[i] == a;
    var j :| 0 <= j < |rows| && rows[j] == b;
  }

  lemma TailIsFirsts(rows: seq<Message>, after: int, limit: nat, selected: Message -> bool, a: seq<Message>)
    requires IsFirsts(rows, after, limit, selected, a) && a != []
    ensures IsFirsts(rows, a[0].seqNo, limit - 1, selected, a[1..])
  {
    forall m | m in rows && m.seqNo > a[0].seqNo && selected(m) && m !in a[1..]
      ensures |a[1..]| == limit - 1 && forall p :: p in a[1..] ==> p.seqNo < m.seqNo
    {
      assert a == [a[0]] + a[1..] && a[0] in a;
      assert m !in a;
    }
  }

  function WakesFor(target: string): Message -> bool {
    (m: Message) => IsWakeFor(m, target)
  }

  // What was collected so far: every selected message up to the cursor.
  ghost predicate Collected(room: Room, after: int, cursor: int, selected: Message -> bool, r: seq<Message>) {
    && Ascending(r)
    && (forall i :: 0 <= i < |r| ==> after < r[i].seqNo <= cursor && selected(r[i]))
    && (forall m {:trigger m in room.rows} :: m in room.rows && after < m.seqNo <= cursor && selected(m) ==> m in r)
  }

  lemma CollectedLater(before: Room, after: Room, from: int, cursor: int, selected: Message -> bool, r: seq<Message>)
    requires Evolves(before, after) && Collected(before, from, cursor, selected, r) && cursor <= before.highWater
    ensures Collected(after, from, cursor, selected, r)
  {}

  // The next message of a page is the next one of the room.
  lemma NextOfPage(room: Room, cursor: int, limit: nat, page: seq<Message>, k: nat)
    requires Readable(room) && page == Since(room.rows, cursor, limit) && k < |page|
    ensures var low := if k == 0 then cursor else page[k - 1].seqNo;
            && page[k] in room.rows && cursor <= low < page[k].seqNo <= room.highWater
            && OnlyBetween(room, low, page[k])
  {
    SinceIsFirst(room.rows, cursor, limit);
    assert page[k] in page;
    var low := if k == 0 then cursor else page[k - 1].seqNo;
    assert k > 0 ==> page[k - 1] in page;
    forall m | m in room.rows && low < m.seqNo <= page[k].seqNo
      ensures m == page[k]
    {
      assert m in page;
      var i :| 0 <= i < |page| && page[i] == m;
      assert i >= k;
    }
  }

  ghost predicate OnlyBetween(room: Room, low: int, x: Message) {
    forall m :: m in room.rows && low < m.seqNo <= x.seqNo ==> m == x
  }

  lemma CollectedGrows(room: Room, after: int, low: int, x: Message, selected: Message -> bool, r: seq<Message>)
    requires Collected(room, after, low, selected, r) && after <= low < x.seqNo && OnlyBetween(room, low, x)
    ensures Collected(room, after, x.seqNo, selected, if selected(x) then r + [x] else r)
  {
    var more := if selected(x) then r + [x] else r;
    assert forall i :: 0 <= i < |r| ==> r[i].seqNo < x.seqNo;
    assert forall m :: m in r ==> m in more;
    forall m | m in room.rows && after < m.seqNo <= x.seqNo && selected(m)
      ensures m in more
    {
      if m.seqNo > low { assert m == x; } else { assert m in r; }
    }
  }

  // Adding a page's next message moves the cursor there.
  lemma CollectedNext(room: Room, after: int, cursor: int, limit: nat, page: seq<Message>, k: nat,
                      selected: Message -> bool, r: seq<Message>)
    requires Readable(room) && after <= cursor && page == Since(room.rows, cursor, limit) && k < |page|
    requires Collected(room, after, if k == 0 then cursor else page[k - 1].seqNo, selected, r)
    ensures cursor < page[k].seqNo <= room.highWater
    ensures Collected(room, after, page[k].seqNo, selected, if selected(page[k]) then r + [page[k]] else r)
  {
    NextOfPage(room, cursor, limit, page, k);
    CollectedGrows(room, after, if k == 0 then cursor else page[k - 1].seqNo, page[k], selected, r);
  }

  lemma CollectedIsFirsts(room: Room, after: int, cursor: int, limit: nat, selected: Message -> bool, r: seq<Message>)
    requires Collected(room, after, cursor, selected, r) && |r| <= limit
    requires |r| == limit || NoneAbove(room, cursor, selected)
    ensures LeavesOutLater(room.rows, after, limit, selected, r)
  {
    forall m | m in room.rows && m.seqNo > after && selected(m) && m !in r
      ensures |r| == limit && forall p :: p in r ==> p.seqNo < m.seqNo
    {
      assert m.seqNo > cursor;
    }
  }

  // Nothing selected lies beyond a page that is not full.
  lemma ShortPageEnds(room: Room, cursor: int, limit: nat, page: seq<Message>, selected: Message -> bool)
    requires Readable(room) && page == Since(room.rows, cursor, limit) && |page| < limit
    ensures NoneAbove(room, if page == [] then cursor else page[|page| - 1].seqNo, selected)
  {
    SinceIsFirst(room.rows, cursor, limit);
    forall m | m in room.rows && m.seqNo > cursor
      ensures page != [] && m.seqNo <= page[|page| - 1].seqNo
    {
      assert m in page;
      var i :| 0 <= i < |page| && page[i] == m;
    }
  }

  // The selected ones among the first k messages of a page.
  function Selected(page: seq<Message>, k: nat, selected: Message -> bool): seq<Message>
    requires k <= |page|
  {
    if k == 0 then []
    else Selected(page, k - 1, selected) + if selected(page[k - 1]) then [page[k - 1]] else []
  }

  lemma {:induction false} CollectedPage(room: Room, after: int, start: int, page: seq<Message>, k: nat,
                                         selected: Message -> bool, before: seq<Message>)
    requires Readable(room) && after <= start && page == Since(room.rows, start, PAGE) && 0 < k <= |page|
    requires Collected(room, after, start, selected, before)
    ensures Collected(room, after, page[k - 1].seqNo, selected, before + Selected(page, k, selected))
    ensures start < page[k - 1].seqNo <= room.highWater
    decreases k
  {
    var j := k - 1;
    var r := before + Selected(page, j, selected);
    if j > 0 {
      CollectedPage(room, after, start, page, j, selected, before);
    } else {
      assert r == before;
    }
    CollectedNext(room, after, start, PAGE, page, j, selected, r);
    assert before + Selected(page, k, selected) == if selected(page[j]) then r + [page[j]] else r;
  }

  // Adds the wakes of one page to what was collected, up to the limit.
  method TakeWakes(page: seq<Message>, target: string, limit: nat, before: seq<Message>)
    returns (k: nat, result: seq<Message>)
    requires |before| < limit
    ensures k <= |page| && (page != [] ==> k > 0) && result == before + Selected(page, k, WakesFor(target))
    ensures |result| <= limit && (|result| < limit ==> k == |page|)
  {
    k, result := 0, before;
    while k < |page| && |result| < limit
      invariant k <= |page| && |result| <= limit && (k == 0 ==> |result| < limit)
      invariant result == before + Selected(page, k, WakesFor(target))
    {
      if IsWakeFor(page[k], target) {
        result := result + [page[k]];
      }
      k := k + 1;
    }
  }

  lemma {:induction false} TakenAreSeen(rooms: nat -> Room, last: nat, before: seq<Message>, start: int, page: seq<Message>, k: nat,
                                        selected: Message -> bool)
    requires page == Since(rooms(last).rows, start, PAGE) && Ascending(rooms(last).rows) && k <= |page|
    requires AllSeen(rooms, last, before)
    ensures AllSeen(rooms, last, before + Selected(page, k, selected))
    decreases k
  {
    if k > 0 {
      TakenAreSeen(rooms, last, before, start, page, k - 1, selected);
      SinceIsFirst(rooms(last).rows, start, PAGE);
      assert page[k - 1] in page;
      assert SeenBy(rooms, last, page[k - 1]);
      var r := before + Selected(page, k - 1, selected);
      assert before + Selected(page, k, selected) == if selected(page[k - 1]) then r + [page[k - 1]] else r;
    } else {
      assert before + Selected(page, k, selected) == before;
    }
  }

  // Every one of these was in the room at some request so far.
  ghost predicate AllSeen(rooms: nat -> Room, last: nat, r: seq<Message>) {
    forall i :: 0 <= i < |r| ==> SeenBy(rooms, last, r[i])
  }

  lemma PageIsCollected(rooms: nat -> Room, last: nat, after: int, start: int, page: seq<Message>, k: nat,
                        selected: Message -> bool, before: seq<Message>)
    requires Readable(rooms(last)) && after <= start && page == Since(rooms(last).rows, start, PAGE) && 0 < k <= |page|
    requires Collected(rooms(last), after, start, selected, before) && AllSeen(rooms, last, before)
    ensures start < page[k - 1].seqNo <= rooms(last).highWater && start < page[|page| - 1].seqNo <= rooms(last).highWater
    ensures Collected(rooms(last), after, page[k - 1].seqNo, selected, before + Selected(page, k, selected))
    ensures AllSeen(rooms, last, before + Selected(page, k, selected))
  {
    CollectedNextBound(rooms(last), start, PAGE, page);
    CollectedPage(rooms(last), after, start, page, k, selected, before);
    TakenAreSeen(rooms, last, before, start, page, k, selected);
  }

  lemma CollectedAtNextRequest(rooms: nat -> Room, last: nat, from: int, upTo: int, selected: Message -> bool, r: seq<Message>)
    requires Evolves(rooms(last), rooms(last + 1)) && upTo <= rooms(last).highWater
    requires Collected(rooms(last), from, upTo, selected, r) && AllSeen(rooms, last, r)
    ensures Collected(rooms(last + 1), from, upTo, selected, r) && AllSeen(rooms, last + 1, r)
    ensures upTo <= rooms(last + 1).highWater
  {
    CollectedLater(rooms(last), rooms(last + 1), from, upTo, selected, r);
    forall i | 0 <= i < |r|
      ensures SeenBy(rooms, last + 1, r[i])
    {
      assert SeenBy(rooms, last, r[i]);
    }
  }

  // In a room that nobody changes meanwhile, that is exactly the first events.
  lemma StableRoomReadsFirsts(rooms: nat -> Room, last: nat, target: string, after: int, limit: nat, result: seq<Message>)
    requires forall k: nat :: rooms(k) == rooms(0)
    requires Ascending(result) && |result| <= limit && AllSeen(rooms, last, result)
    requires forall m :: m in result ==> IsWakeFor(m, target) && m.seqNo > after
    requires LeavesOutLater(rooms(last).rows, after, limit, WakesFor(target), result)
    ensures IsFirsts(rooms(0).rows, after, limit, WakesFor(target), result)
  {
    forall m | m in result
      ensures m in rooms(0).rows
    {
      var i :| 0 <= i < |result| && result[i] == m;
      assert SeenBy(rooms, last, result[i]);
    }
  }

  // Between two pages: everything up to `upTo` is collected, and the next request
  // starts at the cursor.
  ghost predicate Reading(rooms: nat -> Room, last: nat, after: int, cursor: int, upTo: int, limit: nat,
                          selected: Message -> bool, result: seq<Message>) {
    && |result| <= limit && after <= upTo && after <= cursor
    && (upTo == after || upTo <= rooms(last).highWater)
    && (|result| < limit ==> upTo == cursor)
    && Collected(rooms(last), after, upTo, selected, result) && AllSeen(rooms, last, result)
  }

  // One page later, whether another request follows or not.
  lemma PageRead(rooms: nat -> Room, last: nat, after: int, start: int, limit: nat, page: seq<Message>, k: nat,
                 selected: Message -> bool, before: seq<Message>, result: seq<Message>)
    requires Succession(rooms) && Reading(rooms, last, after, start, start, limit, selected, before)
    requires page == Since(rooms(last).rows, start, PAGE) && 0 < k <= |page|
    requires result == before + Selected(page, k, selected) && (|result| == limit || (|result| < limit && k == |page|))
    ensures Reading(rooms, last, after, page[|page| - 1].seqNo, page[k - 1].seqNo, limit, selected, result)
    ensures Reading(rooms, last + 1, after, page[|page| - 1].seqNo, page[k - 1].seqNo, limit, selected, result)
  {
    PageIsCollected(rooms, last, after, start, page, k, selected, before);
    CollectedAtNextRequest(rooms, last, after, page[k - 1].seqNo, selected, result);
  }

  lemma ReadingEnds(rooms: nat -> Room, last: nat, target: string, after: int, cursor: int, upTo: int, limit: nat, result: seq<Message>)
    requires Reading(rooms, last, after, cursor, upTo, limit, WakesFor(target), result)
    requires |result| == limit || NoneAbove(rooms(last), upTo, WakesFor(target))
    ensures Ascending(result) && AllSeen(rooms, last, result)
    ensures forall m :: m in result ==> IsWakeFor(m, target) && m.seqNo > after
    ensures LeavesOutLater(rooms(last).rows, after, limit, WakesFor(target), result)
  {
    CollectedIsFirsts(rooms(last), after, upTo, limit, WakesFor(target), result);
  }

  // The loop ends as soon as a page is not full or enough was collected. The events
  // read are the first wake events above the cursor of the room as last seen, save
  // that one purged since its page was read may be among them.
  method ReadEvents(rooms: nat -> Room, target: string, after: int, limit: nat)
    returns (result: seq<Message>, last: nat)
    requires Succession(rooms) && exists n: nat :: EndsWithin(rooms, 0, after, limit, n, WakesFor(target))
    ensures Ascending(result) && |result| <= limit
    ensures AllSeen(rooms, last, result) && forall m :: m in result ==> IsWakeFor(m, target) && m.seqNo > after
    ensures LeavesOutLater(rooms(last).rows, after, limit, WakesFor(target), result)
    ensures forall m :: m in result ==>
              m.content.meta == m.content.meta.(kind := Some("agent_wake"), target := Some(target))
    ensures forall m :: m in rooms(last).rows && m.seqNo > after && m !in result && |result| < limit ==>
              m.content.meta != m.content.meta.(kind := Some("agent_wake"), target := Some(target))
  {
    ghost var selected := WakesFor(target);
    ghost var left: nat :| EndsWithin(rooms, 0, after, limit, left, selected);
    var cursor := after;
    result := [];
    last := 0;
    ghost var upTo := after;
    while |result| < limit
      invariant Reading(rooms, last, after, cursor, upTo, limit, selected, result)
      invariant EndsWithin(rooms, last, cursor, limit - |result|, left, selected)
      decreases |result| < limit, left
    {
      var page := Since(rooms(last).rows, cursor, PAGE);
      if |page| < PAGE { ShortPageEnds(rooms(last), cursor, PAGE, page, selected); }
      if page == [] {
        break;
      }
      ghost var start, before := cursor, result;
      cursor := page[|page| - 1].seqNo;
      var k;
      k, result := TakeWakes(page, target, limit, result);
      upTo := page[k - 1].seqNo;
      PageRead(rooms, last, after, start, limit, page, k, selected, before, result);
      if |page| < PAGE {
        break;
      }
      ReadGoesOn(rooms, last, start, limit, left, page, before, k, selected, result);
      left := if left > 0 then left - 1 else 0;
      last := last + 1;
    }
    ReadingEnds(rooms, last, target, after, cursor, upTo, limit, result);
  }

  ghost predicate SeenBy(rooms: nat -> Room, last: nat, m: Message) {
    exists k: nat :: k <= last && m in rooms(k).rows
  }

  lemma CollectedNextBound(room: Room, cursor: int, limit: nat, page: seq<Message>)
    requires Readable(room) && page == Since(room.rows, cursor, limit) && page != []
    ensures cursor < page[|page| - 1].seqNo <= room.highWater
  {
    SinceIsFirst(room.rows, cursor, limit);
    assert page[|page| - 1] in page;
  }

  // --- the client's backlog scan ---

  datatype Identity = Identity(agentId: string, agentName: string, stable: bool)

  predicate IsSelf(me: Identity, m: Message) {
    m.content.agentId == me.agentId || (!me.stable && m.content.agentName == me.agentName)
  }

  // A message worth waking up for.
  predicate IsNews(me: Identity, m: Message) {
    m.content.meta.metaType != Some("thinking") && m.content.meta.metaType != Some("system") && !IsSelf(me, m)
  }

  function NewsFor(me: Identity): Message -> bool {
    (m: Message) => IsNews(me, m)
  }

  // A server that answers each request from the room as it is then.
  ghost predicate Honest(server: (nat, int) -> seq<Message>, rooms: nat -> Room) {
    && Succession(rooms)
    && (forall k: nat, cursor: int :: server(k, cursor) == Since(rooms(k).rows, cursor, BACKLOG_PAGE))
  }

  // The first k messages of the page lie up to here, and in a page in order hold
  // no news beyond the start.
  ghost predicate Ruled(page: seq<Message>, k: nat, start: int, through: int, me: Identity)
    requires k <= |page|
  {
    && (through == start || exists i :: 0 <= i < k && page[i].seqNo == through)
    && (forall i :: 0 <= i < k ==> page[i].seqNo <= through)
    && (Ascending(page) ==> forall i :: 0 <= i < k && page[i].seqNo > start ==> !IsNews(me, page[i]))
  }

  // Every message of the room between the start and a place in its page comes
  // before that place.
  lemma EarlierInPage(room: Room, start: int, page: seq<Message>, k: nat, m: Message)
    requires Readable(room) && page == Since(room.rows, start, BACKLOG_PAGE) && k <= |page|
    requires m in room.rows && m.seqNo > start
    requires k < |page| ==> m.seqNo < page[k].seqNo
    requires k == |page| ==> |page| < BACKLOG_PAGE || (page != [] && m.seqNo <= page[k - 1].seqNo)
    ensures exists i :: 0 <= i < k && page[i] == m
  {
    SinceIsFirst(room.rows, start, BACKLOG_PAGE);
    if k < |page| {
      assert page[k] in page;
    } else if page != [] {
      var end := page[k - 1];
      assert end in page;
    }
    assert m in page;
    var i :| 0 <= i < |page| && page[i] == m;
    assert i < k;
  }

  lemma ScanRulesOut(room: Room, since: int, start: int, tip: int, page: seq<Message>, k: nat, through: int, me: Identity)
    requires Readable(room) && since <= start <= through <= tip
    requires NoneIn(room, since, start, NewsFor(me))
    requires page == Since(room.rows, start, BACKLOG_PAGE) && k <= |page|
    requires Ruled(page, k, start, through, me) && (k < |page| ==> page[k].seqNo > tip)
    ensures NoneIn(room, since, if through == start then tip else through, NewsFor(me))
  {
    SinceIsFirst(room.rows, start, BACKLOG_PAGE);
    forall i | 0 <= i < |page|
      ensures page[i].seqNo > start
    {
      assert page[i] in page;
    }
    if through == start {
      StretchRuledOut(room, start, tip, page, k, through, me);
    } else {
      var j :| 0 <= j < k && page[j].seqNo == through;
      StretchRuledOut(room, start, through, page, k, through, me);
    }
  }

  lemma StretchRuledOut(room: Room, start: int, high: int, page: seq<Message>, k: nat, through: int, me: Identity)
    requires Readable(room) && page == Since(room.rows, start, BACKLOG_PAGE) && Ascending(page) && k <= |page|
    requires Ruled(page, k, start, through, me)
    requires k < |page| ==> high < page[k].seqNo
    requires k == |page| ==> page == [] || high <= page[k - 1].seqNo
    ensures NoneIn(room, start, high, NewsFor(me))
  {
    forall m | m in room.rows && start < m.seqNo <= high
      ensures !IsNews(me, m)
    {
      EarlierInPage(room, start, page, k, m);
    }
  }

  lemma FoundIsFirst(room: Room, since: int, start: int, page: seq<Message>, k: nat, through: int, me: Identity)
    requires Readable(room) && since <= start && k < |page|
    requires NoneIn(room, since, start, NewsFor(me))
    requires page == Since(room.rows, start, BACKLOG_PAGE) && Ruled(page, k, start, through, me)
    ensures page[k] in room.rows && NoneIn(room, since, page[k].seqNo - 1, NewsFor(me))
  {
    SinceIsFirst(room.rows, start, BACKLOG_PAGE);
    assert page[k] in page;
    forall m | m in room.rows && start < m.seqNo <= page[k].seqNo - 1
      ensures !IsNews(me, m)
    {
      EarlierInPage(room, start, page, k, m);
    }
  }

  // The scan ends for any answers whatsoever, and returns only news within
  // bounds. Given an honest server it returns the first news of the room as last
  // seen, and moves on to live events exactly when there is none.
  method ScanBacklog(server: (nat, int) -> seq<Message>, me: Identity, since: int, tip: int, ghost rooms: nat -> Room)
    returns (found: Option<Message>, last: nat)
    ensures found.Some? ==> since < found.value.seqNo <= tip && IsNews(me, found.value)
    ensures Honest(server, rooms) && tip <= rooms(0).highWater ==>
              && (found.Some? ==> found.value in rooms(last).rows && NoneIn(rooms(last), since, found.value.seqNo - 1, NewsFor(me)))
              && (found.None? ==> NoneIn(rooms(last), since, tip, NewsFor(me)))
    ensures found.Some? ==>
              var c := found.value.content;
              && c.meta.metaType !in {Some("thinking"), Some("system")} && c.agentId != me.agentId
              && (me.stable || c.agentName != me.agentName)
    ensures Honest(server, rooms) && tip <= rooms(0).highWater && found.None? ==>
              forall m :: m in rooms(last).rows && since < m.seqNo <= tip ==>
                || m.content.meta.metaType in {Some("thinking"), Some("system")}
                || m.content.agentId == me.agentId || (!me.stable && m.content.agentName == me.agentName)
  {
    var scannedThrough := since;
    last := 0;
    while scannedThrough < tip
      invariant since <= scannedThrough && (scannedThrough <= tip || scannedThrough == since)
      invariant Honest(server, rooms) && tip <= rooms(0).highWater ==>
                  tip <= rooms(last).highWater && NoneIn(rooms(last), since, scannedThrough, NewsFor(me))
      decreases tip - scannedThrough
    {
      var page := server(last, scannedThrough);
      ghost var start := scannedThrough;
      var advanced := false;
      var k := 0;
      while k < |page|
        invariant k <= |page| && start <= scannedThrough <= tip
        invariant advanced <==> start < scannedThrough
        invariant Ruled(page, k, start, scannedThrough, me)
        invariant page == server(last, start)
      {
        var m := page[k];
        if m.seqNo > tip {
          break;
        }
        ghost var before := scannedThrough;
        if m.seqNo > scannedThrough {
          scannedThrough := m.seqNo;
          advanced := true;
          if IsNews(me, m) {
            if Honest(server, rooms) && tip <= rooms(0).highWater {
              FoundIsFirst(rooms(last), since, start, page, k, before, me);
            }
            return Some(m), last;
          }
        }
        k := k + 1;
      }
      if Honest(server, rooms) && tip <= rooms(0).highWater {
        ScanRulesOut(rooms(last), since, start, tip, page, k, scannedThrough, me);
        RuledOutLater(rooms(last), rooms(last + 1), since, scannedThrough, NewsFor(me));
      }
      if !advanced {
        break;
      }
      last := last + 1;
    }
    found := None;
  }
}
