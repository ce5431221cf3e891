/** The in-memory buffer both engine generations keep: items wrapping a fetched event with a
    status, a delivery count and the delivery id of the reservation that holds it; and the two
    scans both generations share, reservation and removal of listed ids. */
module BufferItems {
  import opened Wrappers
  import opened Events

  /** "open" or "reserved" (the older engine calls the second status "delivered"). */
  datatype Status = Open | Reserved

  /** A buffer item. Delivery ids are drawn from a counter; the older engine's empty-string id and
      the newer engine's `undefined` are both None. */
  datatype Item = Item(event: Event, status: Status, deliveryCount: nat, deliveryId: Option<nat>)

  /** How a fetched event enters the buffer. */
  function OpenItem(e: Event): Item {
    Item(e, Open, 0, None)
  }

  /** The buffer after a fetch: the fetched events join the end, in order, as open items that were
      never delivered. */
  function Appended(buf: seq<Item>, page: seq<Event>): (r: seq<Item>)
    ensures |r| == |buf| + |page|
    ensures r[..|buf|] == buf
    ensures forall i :: 0 <= i < |page| ==> r[|buf| + i] == OpenItem(page[i])
  {
    buf + seq(|page|, i requires 0 <= i < |page| => OpenItem(page[i]))
  }

  /** The buffer invariant: an item is reserved exactly when it carries a delivery id, that id was
      handed out already (it is below the next fresh id), and a reserved item was delivered at
      least once. */
  predicate WellFormed(buf: seq<Item>, nextId: nat) {
    forall i :: 0 <= i < |buf| ==>
      && (buf[i].status == Reserved <==> buf[i].deliveryId.Some?)
      && (buf[i].deliveryId.Some? ==> buf[i].deliveryId.value < nextId && buf[i].deliveryCount >= 1)
  }

  /** Fetching keeps the invariant: new items are open and carry no delivery id. */
  lemma AppendedWellFormed(buf: seq<Item>, page: seq<Event>, nextId: nat)
    requires WellFormed(buf, nextId)
    ensures WellFormed(Appended(buf, page), nextId)
  {
    var r := Appended(buf, page);
    forall i | 0 <= i < |r|
      ensures (r[i].status == Reserved <==> r[i].deliveryId.Some?)
      ensures r[i].deliveryId.Some? ==> r[i].deliveryId.value < nextId && r[i].deliveryCount >= 1
    {
      if i < |buf| {
        assert r[i] == r[..|buf|][i] == buf[i];
      } else {
        assert r[i] == OpenItem(page[i - |buf|]);
      }
    }
  }

  /** What reserving does to one open item. */
  function Take(it: Item, did: nat): Item {
    it.(status := Reserved, deliveryId := Some(did), deliveryCount := it.deliveryCount + 1)
  }

  function CountOpen(buf: seq<Item>): (n: nat)
    ensures n <= |buf|
  {
    if buf == [] then 0 else (if buf[0].status == Open then 1 else 0) + CountOpen(buf[1..])
  }

  /** The events of the open items, in buffer order. */
  function OpenEvents(buf: seq<Item>): (r: seq<Event>)
    ensures |r| == CountOpen(buf)
  {
    if buf == [] then []
    else if buf[0].status == Open then [buf[0].event] + OpenEvents(buf[1..])
    else OpenEvents(buf[1..])
  }

  /** The reservation scan: walk the buffer in order and take each open item, until the number
      taken reaches the quota. `left` is the quota minus the items taken so far; the scan stops
      right after an item is taken with `left == 1`, so a quota below 1 never stops it. */
  function ReserveScan(buf: seq<Item>, left: int, did: nat): (r: (seq<Item>, seq<Event>))
    ensures |r.0| == |buf|
    ensures |r.1| <= CountOpen(buf)
    ensures left >= 1 ==> |r.1| <= left
    decreases |buf|
  {
    if buf == [] then ([], [])
    else if buf[0].status == Open then
      if left == 1 then ([Take(buf[0], did)] + buf[1..], [buf[0].event])
      else
        var rest := ReserveScan(buf[1..], left - 1, did);
        ([Take(buf[0], did)] + rest.0, [buf[0].event] + rest.1)
    else
      var rest := ReserveScan(buf[1..], left, did);
      ([buf[0]] + rest.0, rest.1)
  }

  /** Whether the open item that has `before` open items ahead of it is still within the quota. */
  predicate InQuota(before: nat, left: int) {
    left < 1 || before < left
  }

  /** How many items the scan takes out of `open` open ones: all of them when the quota is below 1,
      otherwise the smaller of the quota and the open count. */
  function Quota(left: int, open: nat): (n: nat)
    ensures n <= open
    ensures left >= 1 ==> n <= left && (n == open || n == left)
    ensures left < 1 ==> n == open
  {
    if left < 1 || open < left then open else left
  }

  lemma CountOpenPrefixStep(buf: seq<Item>, i: nat)
    requires 0 < i <= |buf|
    ensures CountOpen(buf[..i]) == (if buf[0].status == Open then 1 else 0) + CountOpen(buf[1..][..i - 1])
  {
    assert buf[..i][1..] == buf[1..][..i - 1];
  }

  /** Item by item, the scan reserves exactly the open items within the quota, with one delivery id
      and one more delivery each, and leaves every other item as it was. */
  lemma {:induction false} ReserveScanItems(buf: seq<Item>, left: int, did: nat, i: nat)
    requires i < |buf|
    ensures ReserveScan(buf, left, did).0[i] ==
      if buf[i].status == Open && InQuota(CountOpen(buf[..i]), left) then Take(buf[i], did) else buf[i]
    decreases |buf|
  {
    if i == 0 {
      assert buf[..0] == [];
    } else {
      CountOpenPrefixStep(buf, i);
      assert buf[1..][i - 1] == buf[i];
      if buf[0].status == Open {
        if left != 1 {
          ReserveScanItems(buf[1..], left - 1, did, i - 1);
        }
      } else {
        ReserveScanItems(buf[1..], left, did, i - 1);
      }
    }
  }

  /** The scan returns the events of the first open items in buffer order, as many as the quota
      allows. */
  lemma {:induction false} ReserveScanEvents(buf: seq<Item>, left: int, did: nat)
    ensures ReserveScan(buf, left, did).1 == OpenEvents(buf)[..Quota(left, CountOpen(buf))]
    decreases |buf|
  {
    if buf != [] {
      if buf[0].status == Open {
        if left != 1 {
          ReserveScanEvents(buf[1..], left - 1, did);
        }
      } else {
        ReserveScanEvents(buf[1..], left, did);
      }
    }
  }

  /** Every reserved event is the event of an open item of the buffer. */
  lemma {:induction false} ReserveScanTakesOpenItems(buf: seq<Item>, left: int, did: nat)
    ensures forall e :: e in ReserveScan(buf, left, did).1 ==>
      exists i :: 0 <= i < |buf| && buf[i].status == Open && buf[i].event == e
    decreases |buf|
  {
    if buf != [] {
      var r := ReserveScan(buf, left, did);
      var l' := if buf[0].status == Open then left - 1 else left;
      if !(buf[0].status == Open && left == 1) {
        ReserveScanTakesOpenItems(buf[1..], l', did);
        forall e | e in r.1
          ensures exists i :: 0 <= i < |buf| && buf[i].status == Open && buf[i].event == e
        {
          if e != buf[0].event || buf[0].status != Open {
            var j :| 0 <= j < |buf[1..]| && buf[1..][j].status == Open && buf[1..][j].event == e;
            assert buf[j + 1] == buf[1..][j];
          }
        }
      }
    }
  }

  /** Reserving with a fresh delivery id keeps the buffer invariant, with the counter moved on. */
  lemma ReserveScanWellFormed(buf: seq<Item>, left: int, did: nat)
    requires WellFormed(buf, did)
    ensures WellFormed(ReserveScan(buf, left, did).0, did + 1)
  {
    var r := ReserveScan(buf, left, did).0;
    forall i | 0 <= i < |r|
      ensures (r[i].status == Reserved <==> r[i].deliveryId.Some?)
      ensures r[i].deliveryId.Some? ==> r[i].deliveryId.value < did + 1 && r[i].deliveryCount >= 1
    {
      ReserveScanItems(buf, left, did, i);
    }
  }

  /** The result of filtering listed ids out of the buffer: the items kept, in order, and the
      events removed, in order. */
  datatype Removal = Removal(kept: seq<Item>, removed: seq<Event>)

  /** Removal of the listed ids from the buffer, as acknowledge and fail filter it: every item whose
      id is listed goes, whatever its status, and its event is collected. */
  function RemoveListed(buf: seq<Item>, ids: seq<EventId>): (r: Removal)
    ensures |r.kept| + |r.removed| == |buf|
  {
    if buf == [] then Removal([], [])
    else
      var rest := RemoveListed(buf[1..], ids);
      if buf[0].event.eventId in ids then Removal(rest.kept, [buf[0].event] + rest.removed)
      else Removal([buf[0]] + rest.kept, rest.removed)
  }

  /** Removal works item by item and keeps buffer order: removing from a concatenation is
      removing from each part. */
  lemma {:induction false} RemoveListedConcat(a: seq<Item>, b: seq<Item>, ids: seq<EventId>)
    ensures RemoveListed(a + b, ids).kept == RemoveListed(a, ids).kept + RemoveListed(b, ids).kept
    ensures RemoveListed(a + b, ids).removed == RemoveListed(a, ids).removed + RemoveListed(b, ids).removed
    decreases |a|
  {
    if a == [] {
      assert a + b == b;
    } else {
      assert (a + b)[1..] == a[1..] + b;
      RemoveListedConcat(a[1..], b, ids);
    }
  }

  /** Exactly the items whose id is listed go, whatever their status; every other item stays
      unchanged, and the removed events are those of the listed items. */
  lemma {:induction false} RemoveListedMembers(buf: seq<Item>, ids: seq<EventId>)
    ensures forall x :: x in RemoveListed(buf, ids).kept <==> x in buf && x.event.eventId !in ids
    ensures forall e :: e in RemoveListed(buf, ids).removed <==> e.eventId in ids && exists x :: x in buf && x.event == e
    decreases |buf|
  {
    if buf != [] {
      RemoveListedMembers(buf[1..], ids);
      assert buf == [buf[0]] + buf[1..];
      forall e: Event | e.eventId in ids && exists x :: x in buf && x.event == e
        ensures e in RemoveListed(buf, ids).removed
      {
        var x :| x in buf && x.event == e;
        if x != buf[0] {
          assert x in buf[1..];
        }
      }
    }
  }

  /** A list that names no buffered id removes nothing. */
  lemma {:induction false} RemoveUnlisted(buf: seq<Item>, ids: seq<EventId>)
    requires forall i :: 0 <= i < |buf| ==> buf[i].event.eventId !in ids
    ensures RemoveListed(buf, ids) == Removal(buf, [])
    decreases |buf|
  {
    if buf != [] {
      RemoveUnlisted(buf[1..], ids);
      assert [buf[0]] + buf[1..] == buf;
    }
  }

  /** Removing items keeps the buffer invariant. */
  lemma RemoveListedWellFormed(buf: seq<Item>, ids: seq<EventId>, nextId: nat)
    requires WellFormed(buf, nextId)
    ensures WellFormed(RemoveListed(buf, ids).kept, nextId)
  {
    RemoveListedMembers(buf, ids);
    var k := RemoveListed(buf, ids).kept;
    forall i | 0 <= i < |k|
      ensures (k[i].status == Reserved <==> k[i].deliveryId.Some?)
      ensures k[i].deliveryId.Some? ==> k[i].deliveryId.value < nextId && k[i].deliveryCount >= 1
    {
      assert k[i] in buf;
    }
  }

  /** The filter loop of acknowledge and fail, with accumulators for what stays and what goes. */
  method FilterListed(buf: seq<Item>, ids: seq<EventId>) returns (kept: seq<Item>, removed: seq<Event>)
    ensures Removal(kept, removed) == RemoveListed(buf, ids)
  {
    kept, removed := [], [];
    for i := 0 to |buf|
      invariant RemoveListed(buf[..i], ids) == Removal(kept, removed)
    {
      assert buf[..i + 1] == buf[..i] + [buf[i]];
      assert [buf[i]][1..] == [];
      RemoveListedConcat(buf[..i], [buf[i]], ids);
      if buf[i].event.eventId in ids {
        removed := removed + [buf[i].event];
      } else {
        kept := kept + [buf[i]];
      }
    }
    assert buf[..|buf|] == buf;
  }

  /** One step of the reservation scan at position `i`, seen from a loop that has collected the
      items and events before `i`: the next item joins the collected ones, and the scan either
      ends there (the quota is met) or goes on from `i + 1`. */
  lemma ReserveScanAt(buf: seq<Item>, i: nat, left: int, did: nat, passed: seq<Item>, events: seq<Event>)
    requires i < |buf|
    ensures var r := ReserveScan(buf[i..], left, did);
      var x := if buf[i].status == Open then Take(buf[i], did) else buf[i];
      var taken := if buf[i].status == Open then events + [buf[i].event] else events;
      var next := ReserveScan(buf[i + 1..], if buf[i].status == Open then left - 1 else left, did);
      if buf[i].status == Open && left == 1 then
        passed + r.0 == (passed + [x]) + buf[i + 1..] && events + r.1 == taken
      else
        passed + r.0 == (passed + [x]) + next.0 && events + r.1 == taken + next.1
  {
    assert buf[i..][0] == buf[i] && buf[i..][1..] == buf[i + 1..];
    var x := if buf[i].status == Open then Take(buf[i], did) else buf[i];
    assert passed + ([x] + buf[i + 1..]) == (passed + [x]) + buf[i + 1..];
    var next := ReserveScan(buf[i + 1..], if buf[i].status == Open then left - 1 else left, did);
    assert passed + ([x] + next.0) == (passed + [x]) + next.0;
    assert events + ([buf[i].event] + next.1) == (events + [buf[i].event]) + next.1;
    assert events + [buf[i].event] + [] == events + [buf[i].event];
  }

  /** A reservation loop has gone by the items before `i`, leaving `passed` and taking `events`;
      the scan of the rest, with what is left of the quota, completes the whole scan. */
  ghost predicate Reserving(buf: seq<Item>, amount: int, did: nat, i: nat, passed: seq<Item>, events: seq<Event>) {
    && i <= |buf|
    && ReserveScan(buf, amount, did).0 == passed + ReserveScan(buf[i..], amount - |events|, did).0
    && ReserveScan(buf, amount, did).1 == events + ReserveScan(buf[i..], amount - |events|, did).1
  }

  /** The loop's step at item `i`: it ends the scan when the quota is met, and otherwise keeps
      `Reserving` one item further. */
  lemma ReservingStep(buf: seq<Item>, amount: int, did: nat, i: nat, passed: seq<Item>, events: seq<Event>)
    requires i < |buf| && Reserving(buf, amount, did, i, passed, events)
    ensures var x := if buf[i].status == Open then Take(buf[i], did) else buf[i];
      var taken := if buf[i].status == Open then events + [buf[i].event] else events;
      if buf[i].status == Open && |taken| == amount then
        ReserveScan(buf, amount, did) == (passed + [x] + buf[i + 1..], taken)
      else
        Reserving(buf, amount, did, i + 1, passed + [x], taken)
  {
    ReserveScanAt(buf, i, amount - |events|, did, passed, events);
    if buf[i].status == Open {
      assert amount - |events + [buf[i].event]| == amount - |events| - 1;
    }
  }

  /** Every reservation loop starts `Reserving` and, once past the last item, has the whole scan. */
  lemma ReservingBounds(buf: seq<Item>, amount: int, did: nat, passed: seq<Item>, events: seq<Event>)
    ensures Reserving(buf, amount, did, 0, [], [])
    ensures Reserving(buf, amount, did, |buf|, passed, events) ==> ReserveScan(buf, amount, did) == (passed, events)
  {
    assert buf[0..] == buf && buf[|buf|..] == [];
    var r := ReserveScan(buf, amount, did);
    assert [] + r.0 == r.0 && [] + r.1 == r.1;
    assert passed + [] == passed && events + [] == events;
  }

  /** The reservation loop of the newer engine's `reserve`: a `for` over the buffer that reserves
      open items and breaks once `events.length === amount`. `passed` holds the items the loop has
      gone by, as it leaves them. */
  method ReserveLoop(buf: seq<Item>, amount: int, did: nat) returns (newBuf: seq<Item>, events: seq<Event>)
    ensures (newBuf, events) == ReserveScan(buf, amount, did)
  {
    var passed: seq<Item> := [];
    events := [];
    var i := 0;
    ReservingBounds(buf, amount, did, passed, events);
    while i < |buf|
      invariant Reserving(buf, amount, did, i, passed, events)
    {
      ReservingStep(buf, amount, did, i, passed, events);
      var x := if buf[i].status == Open then Take(buf[i], did) else buf[i];
      if buf[i].status == Open {
        events := events + [buf[i].event];
        if |events| == amount {
          newBuf := passed + [x] + buf[i + 1..];
          return;
        }
      }
      passed := passed + [x];
      i := i + 1;
    }
    ReservingBounds(buf, amount, did, passed, events);
    newBuf := passed;
  }

}
