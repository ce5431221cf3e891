/** The older engine generation: `DataPump`. The same buffer of open and delivered items as the
    newer engine, with its own rules: the fetch loop waits from `size - threshold` on, a pull takes
    at least one item, a timeout drops every exhausted item of the reservation whether listed or
    not, and the checkpoint is the id just before the oldest buffered event. */
module LibPump {
  import opened Wrappers
  import opened Events
  import opened Buckets
  import opened BufferItems
  import opened Pump

  // ---------------------------------------------------------------------------------------------
  // Pulling

  /** The quota `pullInner` works to: its `events.length >= amount` check fires after the first
      item taken when the amount is below 1. */
  function PullQuota(amount: int): (q: int)
    ensures q >= 1
    ensures amount >= 1 ==> q == amount
    ensures amount < 1 ==> q == 1
  {
    if amount >= 1 then amount else 1
  }

  /** The loop of `pullInner`: mark open items delivered under one id, breaking once
      `events.length >= amount`. `passed` holds the items the loop has gone by, as it leaves
      them. */
  method PullLoop(buf: seq<Item>, amount: int, did: nat) returns (newBuf: seq<Item>, events: seq<Event>)
    ensures (newBuf, events) == ReserveScan(buf, PullQuota(amount), did)
  {
    ghost var q := PullQuota(amount);
    var passed: seq<Item> := [];
    events := [];
    var i := 0;
    ReservingBounds(buf, q, did, passed, events);
    while i < |buf|
      invariant |events| < q
      invariant Reserving(buf, q, did, i, passed, events)
    {
      ReservingStep(buf, q, did, i, passed, events);
      var x := if buf[i].status == Open then Take(buf[i], did) else buf[i];
      if buf[i].status == Open {
        events := events + [buf[i].event];
        assert |events| >= amount <==> |events| == q;
        if |events| >= amount {
          newBuf := passed + [x] + buf[i + 1..];
          return;
        }
      }
      passed := passed + [x];
      i := i + 1;
    }
    ReservingBounds(buf, q, did, passed, events);
    newBuf := passed;
  }


  /** Where the generations differ on a non-positive amount: a pull of 0 takes exactly one item
      when any is open, a reservation of 0 takes every open item. */
  lemma PullZeroTakesOne(buf: seq<Item>, did: nat)
    requires CountOpen(buf) > 0
    ensures ReserveScan(buf, PullQuota(0), did).1 == [OpenEvents(buf)[0]]
    ensures ReserveScan(buf, 0, did).1 == OpenEvents(buf)
  {
    ReserveScanEvents(buf, 1, did);
    ReserveScanEvents(buf, 0, did);
    assert OpenEvents(buf)[..|OpenEvents(buf)|] == OpenEvents(buf);
  }

  // ---------------------------------------------------------------------------------------------
  // Redelivery timeout

  /** The filter of the older `reOpen`: an item of the reservation that is exhausted leaves and is
      reported, listed or not; a listed item of the reservation is reopened (its delivery id set
      to the empty string, here None); every other item stays. */
  function LibReOpenScan(buf: seq<Item>, ids: seq<EventId>, did: nat, max: int): (r: ReOpenOutcome)
    ensures |r.buffer| + |r.failed| == |buf|
    ensures |r.reopened| <= |r.buffer|
  {
    if buf == [] then ReOpenOutcome([], [], [])
    else
      var rest := LibReOpenScan(buf[1..], ids, did, max);
      if buf[0].deliveryId == Some(did) && Exhausted(buf[0], max) then rest.(failed := [buf[0].event] + rest.failed)
      else if Matches(buf[0], ids, did) then
        ReOpenOutcome([Reopened(buf[0])] + rest.buffer, rest.failed, [buf[0].event] + rest.reopened)
      else rest.(buffer := [buf[0]] + rest.buffer)
  }

  /** Every exhausted item of the reservation goes, even one whose id the timer does not list, and
      nothing else goes; a listed item of the reservation that is not exhausted comes back open;
      every other item (of another reservation, or of this one but neither listed nor exhausted)
      stays as it is; and nothing else is kept. */
  lemma {:induction false} LibReOpenScanMembers(buf: seq<Item>, ids: seq<EventId>, did: nat, max: int)
    ensures forall x :: x in buf && x.deliveryId == Some(did) && Exhausted(x, max) ==> x.event in LibReOpenScan(buf, ids, did, max).failed
    ensures forall e :: e in LibReOpenScan(buf, ids, did, max).failed ==>
      exists y :: y in buf && y.deliveryId == Some(did) && Exhausted(y, max) && y.event == e
    ensures forall x :: x in buf && Matches(x, ids, did) && !Exhausted(x, max) ==>
      Reopened(x) in LibReOpenScan(buf, ids, did, max).buffer && x.event in LibReOpenScan(buf, ids, did, max).reopened
    ensures forall x :: x in buf && !Matches(x, ids, did) && !(x.deliveryId == Some(did) && Exhausted(x, max)) ==>
      x in LibReOpenScan(buf, ids, did, max).buffer
    ensures forall x :: x in LibReOpenScan(buf, ids, did, max).buffer ==>
      (x in buf && !Matches(x, ids, did) && !(x.deliveryId == Some(did) && Exhausted(x, max)))
      || exists y :: y in buf && Matches(y, ids, did) && !Exhausted(y, max) && x == Reopened(y)
    decreases |buf|
  {
    if buf != [] {
      LibReOpenScanMembers(buf[1..], ids, did, max);
      assert buf == [buf[0]] + buf[1..];
      var r := LibReOpenScan(buf, ids, did, max);
      var rest := LibReOpenScan(buf[1..], ids, did, max);
      forall x | x in r.buffer
        ensures (x in buf && !Matches(x, ids, did) && !(x.deliveryId == Some(did) && Exhausted(x, max)))
                || exists y :: y in buf && Matches(y, ids, did) && !Exhausted(y, max) && x == Reopened(y)
      {
        if x !in rest.buffer && Matches(buf[0], ids, did) {
          assert x == Reopened(buf[0]);
        }
      }
      forall e | e in r.failed
        ensures exists y :: y in buf && y.deliveryId == Some(did) && Exhausted(y, max) && y.event == e
      {
        if e !in rest.failed {
          assert e == buf[0].event;
        }
      }
    }
  }

  /** When a timer lists every item its reservation still holds, the two generations agree. */
  lemma {:induction false} LibReOpenAgrees(buf: seq<Item>, ids: seq<EventId>, did: nat, max: int)
    requires forall i :: 0 <= i < |buf| && buf[i].deliveryId == Some(did) ==> buf[i].event.eventId in ids
    ensures LibReOpenScan(buf, ids, did, max) == ReOpenScan(buf, ids, did, max)
    decreases |buf|
  {
    if buf != [] {
      assert forall i :: 0 <= i < |buf[1..]| ==> buf[1..][i] == buf[i + 1];
      LibReOpenAgrees(buf[1..], ids, did, max);
    }
  }

  lemma LibReOpenWellFormed(buf: seq<Item>, ids: seq<EventId>, did: nat, max: int, nextId: nat)
    requires WellFormed(buf, nextId)
    ensures WellFormed(LibReOpenScan(buf, ids, did, max).buffer, nextId)
  {
    LibReOpenScanMembers(buf, ids, did, max);
    var k := LibReOpenScan(buf, ids, did, max).buffer;
    forall i | 0 <= i < |k|
      ensures (k[i].status == Reserved <==> k[i].deliveryId.Some?)
      ensures k[i].deliveryId.Some? ==> k[i].deliveryId.value < nextId && k[i].deliveryCount >= 1
    {
      assert k[i] in k;
    }
  }

  /** One step of the older reopen filter at position `i`, seen from a loop that has collected
      the outcome of the items before `i`. */
  lemma LibReOpenScanAt(buf: seq<Item>, i: nat, ids: seq<EventId>, did: nat, max: int,
                        kept: seq<Item>, failed: seq<Event>, reopened: seq<Event>)
    requires i < |buf|
    ensures var x := buf[i];
      var r, next := LibReOpenScan(buf[i..], ids, did, max), LibReOpenScan(buf[i + 1..], ids, did, max);
      var gone := x.deliveryId == Some(did) && Exhausted(x, max);
      var keep := if gone then [] else if Matches(x, ids, did) then [Reopened(x)] else [x];
      var fail := if gone then [x.event] else [];
      var reop := if !gone && Matches(x, ids, did) then [x.event] else [];
      && kept + r.buffer == (kept + keep) + next.buffer
      && failed + r.failed == (failed + fail) + next.failed
      && reopened + r.reopened == (reopened + reop) + next.reopened
  {
    var x := buf[i];
    assert buf[i..][0] == x && buf[i..][1..] == buf[i + 1..];
    var next := LibReOpenScan(buf[i + 1..], ids, did, max);
    assert kept + ([x] + next.buffer) == (kept + [x]) + next.buffer;
    assert kept + ([Reopened(x)] + next.buffer) == (kept + [Reopened(x)]) + next.buffer;
    assert failed + ([x.event] + next.failed) == (failed + [x.event]) + next.failed;
    assert reopened + ([x.event] + next.reopened) == (reopened + [x.event]) + next.reopened;
    assert kept + [] == kept && failed + [] == failed && reopened + [] == reopened;
  }

  /** The filter of the older `reOpen` with its accumulators, in buffer order. */
  method LibReOpenLoop(buf: seq<Item>, ids: seq<EventId>, did: nat, max: int) returns (o: ReOpenOutcome)
    ensures o == LibReOpenScan(buf, ids, did, max)
  {
    var kept, failed, reopened := [], [], [];
    assert buf[0..] == buf;
    ghost var all := LibReOpenScan(buf, ids, did, max);
    assert [] + all.buffer == all.buffer && [] + all.failed == all.failed && [] + all.reopened == all.reopened;
    for i := 0 to |buf|
      invariant all.buffer == kept + LibReOpenScan(buf[i..], ids, did, max).buffer
      invariant all.failed == failed + LibReOpenScan(buf[i..], ids, did, max).failed
      invariant all.reopened == reopened + LibReOpenScan(buf[i..], ids, did, max).reopened
    {
      LibReOpenScanAt(buf, i, ids, did, max, kept, failed, reopened);
      var it := buf[i];
      if it.deliveryId == Some(did) && Exhausted(it, max) {
        failed := failed + [it.event];
      } else if Matches(it, ids, did) {
        kept := kept + [Reopened(it)];
        reopened := reopened + [it.event];
      } else {
        kept := kept + [it];
      }
    }
    assert buf[|buf|..] == [];
    assert kept + [] == kept && failed + [] == failed && reopened + [] == reopened;
    o := ReOpenOutcome(kept, failed, reopened);
  }


  // ---------------------------------------------------------------------------------------------
  // Checkpoint

  /** The older `updateState`: with an empty buffer the given id (if any) and the bucket of its
      timestamp; otherwise the head's own bucket and the id just before the head's. */
  function LibCheckpoint(bucketOf: EventId -> string, before: EventId -> EventId, given: Option<EventId>, buf: seq<Item>): (r: Option<Cursor>)
    ensures buf != [] ==> r == Some(Cursor(buf[0].event.timeBucket, Some(before(buf[0].event.eventId))))
    ensures buf == [] ==> (r.Some? <==> given.Some? && given.value != "")
    ensures buf == [] && r.Some? ==> r.value == Cursor(bucketOf(given.value), given)
  {
    if buf == [] then
      if given.Some? && given.value != "" then Some(Cursor(bucketOf(given.value), given)) else None
    else
      Some(Cursor(buf[0].event.timeBucket, Some(before(buf[0].event.eventId))))
  }

  /** The older checkpoint stays strictly before every buffered event, when ids are ordered by
      `rank`, the buffer holds them in that order and `before` steps back. */
  lemma LibCheckpointStaysBeforeBuffered(bucketOf: EventId -> string, before: EventId -> EventId, rank: EventId -> int,
                                         given: Option<EventId>, buf: seq<Item>)
    requires forall id :: rank(before(id)) < rank(id)
    requires forall i, j :: 0 <= i < j < |buf| ==> rank(buf[i].event.eventId) <= rank(buf[j].event.eventId)
    ensures forall i :: 0 <= i < |buf| ==> rank(buf[i].event.eventId) > rank(LibCheckpoint(bucketOf, before, given, buf).value.eventId.value)
  {
    if buf != [] {
      var head := buf[0].event.eventId;
      assert rank(before(head)) < rank(head);
      forall i | 0 <= i < |buf|
        ensures rank(buf[i].event.eventId) > rank(LibCheckpoint(bucketOf, before, given, buf).value.eventId.value)
      {
        if i > 0 {
          assert rank(buf[0].event.eventId) <= rank(buf[i].event.eventId);
        }
      }
    }
  }

  /** The corrected checkpoint of the newer engine is the older one's, for a sink that exists and
      events whose bucket is the bucket of their id. */
  lemma CorrectedCheckpointIsOlder(bucketOf: EventId -> string, before: EventId -> EventId, tail: Option<EventId>, post: seq<Item>)
    requires post != [] ==> post[0].event.eventId != "" && post[0].event.timeBucket == bucketOf(post[0].event.eventId)
    ensures CheckpointAfterRemoval(bucketOf, before, true, tail, post) == LibCheckpoint(bucketOf, before, tail, post)
  {
  }

  // ---------------------------------------------------------------------------------------------
  // Walking the buckets

  /** The next bucket as the older loop picks it: the entry after the first occurrence of the
      current bucket in the view, so an unlisted bucket (index -1) is followed by the first. A
      missing or empty entry means none. */
  function NextByIndex(view: seq<string>, current: string): (r: Option<string>)
    ensures r.Some? ==> r.value in view && r.value != ""
    ensures current !in view ==> r == (if view != [] && view[0] != "" then Some(view[0]) else None)
    ensures forall i {:trigger view[..i]} :: 0 <= i < |view| && view[i] == current && current !in view[..i] ==>
      r == (if i + 1 < |view| && view[i + 1] != "" then Some(view[i + 1]) else None)
  {
    var k := IndexOf(view, current);
    if k + 1 < |view| && view[k + 1] != "" then Some(view[k + 1]) else None
  }

  /** A cursor whose bucket is not in the view goes back to the first bucket and walks the listing
      again. This happens once the hour the pump went live in is over: that bucket was only ever
      the appended "now" entry, and the new view appends the next hour instead. */
  lemma UnlistedBucketRestartsWalk(cached: seq<string>, now: string, current: string)
    requires current !in cached && current != now
    requires cached != [] && StrictlyAscending(cached) && IsBucketKey(current)
    requires DigitsValue(cached[0]) < DigitsValue(current)
    ensures NextByIndex(WithNowBucket(cached, now), current) == Some(cached[0])
    ensures DigitsValue(NextByIndex(WithNowBucket(cached, now), current).value) < DigitsValue(current)
  {
    var view := WithNowBucket(cached, now);
    assert view[0] == view[..|cached|][0] == cached[0];
    assert IsBucketKey(cached[0]);
  }

  /** The bucket the older walker reaches after `n` moves over a fixed view; it stays where it is
      once there is no next bucket (it then fetches again or waits on the notifier). */
  function WalkByIndex(view: seq<string>, current: string, n: nat): string
    decreases n
  {
    if n == 0 then current
    else match NextByIndex(view, current)
      case None => current
      case Some(b) => WalkByIndex(view, b, n - 1)
  }

  /** The entries of a view that the older walker can step through: none is empty and none is
      listed twice. */
  predicate Steppable(view: seq<string>) {
    && (forall k :: 0 <= k < |view| ==> view[k] != "")
    && (forall a, b :: 0 <= a < b < |view| ==> view[a] != view[b])
  }

  /** From the bucket at index `i` of a steppable view the walker moves to the entry at `i + 1`,
      or nowhere from the last one. */
  lemma NextOfListed(view: seq<string>, i: nat)
    requires Steppable(view) && i < |view|
    ensures NextByIndex(view, view[i]) == if i + 1 < |view| then Some(view[i + 1]) else None
  {
    assert forall j :: 0 <= j < i ==> view[..i][j] == view[j];
    assert view[i] !in view[..i];
  }

  /** From the bucket at index `i` of a steppable view the walker visits the following buckets one
      by one and then stays on the last one. */
  lemma {:induction false} WalkFromListed(view: seq<string>, i: nat, n: nat)
    requires Steppable(view) && i < |view|
    ensures WalkByIndex(view, view[i], n) == view[if i + n < |view| then i + n else |view| - 1]
    decreases n
  {
    if n > 0 {
      NextOfListed(view, i);
      if i + 1 < |view| {
        WalkFromListed(view, i + 1, n - 1);
        assert (i + 1) + (n - 1) == i + n;
      }
    }
  }

  /** Strictly ascending bucket keys are never empty and never repeat. */
  lemma AscendingSteppable(view: seq<string>)
    requires StrictlyAscending(view)
    ensures Steppable(view)
  {
    forall a, b | 0 <= a < b < |view|
      ensures view[a] != view[b]
    {
      assert DigitsValue(view[a]) < DigitsValue(view[b]);
    }
    assert forall k :: 0 <= k < |view| ==> IsBucketKey(view[k]);
  }

  /** On a steppable view, from any current bucket, listed or not, as many moves as the view has
      entries reach its last entry. */
  lemma WalkReachesLast(view: seq<string>, current: string)
    requires Steppable(view) && view != []
    ensures WalkByIndex(view, current, |view|) == view[|view| - 1]
  {
    if current in view {
      var i :| 0 <= i < |view| && view[i] == current;
      WalkFromListed(view, i, |view|);
    } else {
      assert NextByIndex(view, current) == Some(view[0]);
      WalkFromListed(view, 0, |view| - 1);
    }
  }

  /** Progress of the older walk: on an ascending view, from any current bucket, listed or not,
      as many moves as the view has entries reach its last entry, the bucket of now. */
  lemma WalkerReachesNow(cached: seq<string>, now: string, current: string)
    requires StrictlyAscending(WithNowBucket(cached, now))
    ensures var view := WithNowBucket(cached, now);
      WalkByIndex(view, current, |view|) == now
  {
    AscendingSteppable(WithNowBucket(cached, now));
    WalkReachesLast(WithNowBucket(cached, now), current);
  }

  // ---------------------------------------------------------------------------------------------
  // The engine

  datatype LibProcessor = LibProcessor(concurrency: int, hasFailedHandler: bool)

  datatype LibError = NotRunning | PullWithProcessor | AcknowledgeWithProcessor | LibBucketError(error: BucketError)

  /** How the fetch half of one buffer-loop iteration ends: fetch again (the page had a next
      cursor, or it was the last bucket and the page had events), move to a bucket, or wait on the
      notifier. */
  datatype LibLoopAction = Stopped | FetchMore | MoveToBucket(bucket: string) | TryAgain | WaitNotifier

  class DataPump {
    const size: int
    const threshold: int
    const maxRedeliveryCount: int
    const acknowledgeTimeoutMs: int
    const processor: Option<LibProcessor>
    /** The hour bucket of a time-uuid's timestamp, and the time-uuid just before a given one. */
    const bucketOf: EventId -> string
    const before: EventId -> EventId

    var state: Cursor
    /** `_timeBuckets`, the listing as last fetched. */
    var cachedBuckets: seq<string>
    var buffer: seq<Item>
    /** Pending waits: the buffer loop waiting for space, a puller waiting for events, the buffer
        loop waiting on the notifier. */
    var bufferWaiter: bool
    var waiter: bool
    var notifierWaiting: bool
    var running: bool
    var nextDeliveryId: nat
    var timers: seq<Timer>
    var stateWrites: seq<Cursor>
    var failedReports: seq<seq<Event>>

    ghost predicate Valid()
      reads this
    {
      && WellFormed(buffer, nextDeliveryId)
      && forall t :: t in timers ==> t.deliveryId < nextDeliveryId
    }

    predicate BelowThreshold()
      reads this
    {
      |buffer| <= size - threshold
    }

    predicate HasFailedHandler()
      reads this
    {
      processor.Some? && processor.value.hasFailedHandler
    }

    constructor (size: int, threshold: int, maxRedeliveryCount: int, acknowledgeTimeoutMs: int,
                 processor: Option<LibProcessor>, bucketOf: EventId -> string, before: EventId -> EventId, now: string)
      ensures this.size == size && this.threshold == threshold && this.maxRedeliveryCount == maxRedeliveryCount
      ensures this.acknowledgeTimeoutMs == acknowledgeTimeoutMs && this.processor == processor
      ensures this.bucketOf == bucketOf && this.before == before
      ensures state == Cursor(now, None) && cachedBuckets == [] && buffer == [] && !running
      ensures !bufferWaiter && !waiter && !notifierWaiting
      ensures timers == [] && stateWrites == [] && failedReports == []
      ensures Valid()
    {
      this.size := size;
      this.threshold := threshold;
      this.maxRedeliveryCount := maxRedeliveryCount;
      this.acknowledgeTimeoutMs := acknowledgeTimeoutMs;
      this.processor := processor;
      this.bucketOf := bucketOf;
      this.before := before;
      state := Cursor(now, None);
      cachedBuckets := [];
      buffer := [];
      bufferWaiter, waiter, notifierWaiting, running := false, false, false, false;
      nextDeliveryId := 0;
      timers, stateWrites, failedReports := [], [], [];
    }

    /** `updateTimeBuckets`: empty the cache, then request pages until one comes back without a
        cursor (a cursor of 0 also continues). The requests carry no cursor; `pages` are the
        answers as they come. */
    method UpdateTimeBuckets(pages: seq<Page>)
      requires PagingEnds(pages)
      modifies this`cachedBuckets
      ensures cachedBuckets == ConcatPages(pages)
    {
      // The loop runs once and then while the last answer had a cursor, the same pages the data
      // source's paging collects; the request cursors are dropped, since these requests carry
      // none.
      var collected, _ := CollectPages(pages);
      cachedBuckets := collected;
    }

    /** `start`: nothing when running; otherwise refresh the listing, put the cursor at the bucket
        closest to the saved checkpoint (or to the current hour, with a fresh id), and run. A bad
        key stops the start before `running` is set. */
    method Start(pages: seq<Page>, saved: Option<Cursor>, now: string, nowId: EventId) returns (r: Result<(), LibError>)
      requires PagingEnds(pages)
      modifies this`cachedBuckets, this`state, this`running
      ensures old(running) ==> r == Success(()) && running && cachedBuckets == old(cachedBuckets) && state == old(state)
      ensures !old(running) ==>
        var target := if saved.Some? then saved.value.timeBucket else now;
        var closest := ViewClosestTimeBucket(ConcatPages(pages), now, target);
        && cachedBuckets == ConcatPages(pages)
        && (closest.Failure? ==> r == Failure(LibBucketError(closest.error)) && !running && state == old(state))
        && (closest.Success? ==>
              r == Success(()) && running && state == Cursor(closest.value, if saved.Some? then saved.value.eventId else Some(nowId)))
    {
      if running {
        return Success(());
      }
      UpdateTimeBuckets(pages);
      var target := if saved.Some? then saved.value.timeBucket else now;
      var closest := ViewClosestTimeBucket(cachedBuckets, now, target);
      if closest.Failure? {
        return Failure(LibBucketError(closest.error));
      }
      state := Cursor(closest.value, if saved.Some? then saved.value.eventId else Some(nowId));
      running := true;
      r := Success(());
    }

    /** `stop`: a no-op when not running; otherwise release every wait. The buffer is kept. */
    method Stop()
      modifies this`running, this`notifierWaiting, this`bufferWaiter, this`waiter
      ensures !running
      ensures old(running) ==> !notifierWaiting && !bufferWaiter && !waiter
      ensures !old(running) ==> notifierWaiting == old(notifierWaiting) && bufferWaiter == old(bufferWaiter) && waiter == old(waiter)
    {
      if !running {
        return;
      }
      running := false;
      notifierWaiting, bufferWaiter, waiter := false, false, false;
    }

    /** The head of one buffer-loop iteration: when running and the buffer holds `size - threshold`
        items or more, wait for space. */
    method CheckSpace() returns (mustWait: bool)
      modifies this`bufferWaiter
      ensures mustWait <==> running && |buffer| >= size - threshold
      ensures bufferWaiter == (old(bufferWaiter) || mustWait)
    {
      mustWait := running && |buffer| >= size - threshold;
      if mustWait {
        bufferWaiter := true;
      }
    }

    /** The rest of one buffer-loop iteration, after `page` and its `nextCursor` came back for a
        request of `size - buffer.length` events: append, wake a puller, move the cursor's id; then,
        without a next cursor, move to the entry of the view after the current bucket's first
        occurrence (the first entry when it is not listed), or, with no such entry, fetch again
        when the page had events and wait on the notifier when it had none. */
    method FetchAndWalk(page: seq<Event>, nextCursor: Option<int>, now: string) returns (action: LibLoopAction)
      requires Valid()
      modifies this`buffer, this`waiter, this`state, this`notifierWaiting
      ensures Valid()
      ensures !old(running) ==> action == Stopped && buffer == old(buffer) && state == old(state)
                                && waiter == old(waiter) && notifierWaiting == old(notifierWaiting)
      ensures old(running) ==>
        var fetched := old(state).(eventId := if page == [] then old(state).eventId else LastEventId(page));
        && buffer == Appended(old(buffer), page)
        && waiter == (old(waiter) && page == [])
        && (nextCursor.Some? && nextCursor.value != 0 ==> action == FetchMore && state == fetched && notifierWaiting == old(notifierWaiting))
        && (!(nextCursor.Some? && nextCursor.value != 0) ==>
              var next := NextByIndex(WithNowBucket(cachedBuckets, now), fetched.timeBucket);
              && (next.Some? ==>
                    action == MoveToBucket(next.value) && state == fetched.(timeBucket := next.value)
                    && notifierWaiting == old(notifierWaiting))
              && (next.None? ==>
                    state == fetched
                    && (page != [] ==> action == TryAgain && notifierWaiting == old(notifierWaiting))
                    && (page == [] ==> action == WaitNotifier && notifierWaiting)))
    {
      if !running {
        return Stopped;
      }
      AppendedWellFormed(buffer, page, nextDeliveryId);
      buffer := Appended(buffer, page);
      if page != [] {
        waiter := false;
        state := state.(eventId := LastEventId(page));
      }
      if nextCursor.Some? && nextCursor.value != 0 {
        return FetchMore;
      }
      var next := NextByIndex(WithNowBucket(cachedBuckets, now), state.timeBucket);
      if next.Some? {
        state := state.(timeBucket := next.value);
        return MoveToBucket(next.value);
      }
      if page != [] {
        return TryAgain;
      }
      notifierWaiting := true;
      action := WaitNotifier;
    }

    /** `pullInner`: refused when not running; otherwise the first open items up to the quota are
        delivered under one fresh id and a timer is armed. When nothing was open the caller must
        wait for events and, if still running, pull again. */
    method PullInner(amount: int) returns (r: Result<seq<Event>, LibError>, mustWait: bool)
      requires Valid()
      modifies this`buffer, this`nextDeliveryId, this`timers, this`waiter
      ensures Valid()
      ensures !old(running) ==> r == Failure(NotRunning) && !mustWait && buffer == old(buffer)
                                && nextDeliveryId == old(nextDeliveryId) && timers == old(timers) && waiter == old(waiter)
      ensures old(running) ==>
        && r.Success?
        && (buffer, r.value) == ReserveScan(old(buffer), PullQuota(amount), old(nextDeliveryId))
        && nextDeliveryId == old(nextDeliveryId) + 1
        && (mustWait <==> r.value == [])
        && waiter == (old(waiter) || mustWait)
        && timers == old(timers) + (if r.value != [] then [Timer(EventIds(r.value), old(nextDeliveryId), acknowledgeTimeoutMs)] else [])
    {
      if !running {
        return Failure(NotRunning), false;
      }
      var deliveryId := nextDeliveryId;
      nextDeliveryId := nextDeliveryId + 1;
      var newBuffer, events := PullLoop(buffer, amount, deliveryId);
      ReserveScanWellFormed(buffer, PullQuota(amount), deliveryId);
      buffer := newBuffer;
      if events == [] {
        waiter := true;
        return Success(events), true;
      }
      timers := timers + [Timer(EventIds(events), deliveryId, acknowledgeTimeoutMs)];
      r, mustWait := Success(events), false;
    }

    /** `pull`: refused when a processor is configured. */
    method Pull(amount: int) returns (r: Result<seq<Event>, LibError>, mustWait: bool)
      requires Valid()
      modifies this`buffer, this`nextDeliveryId, this`timers, this`waiter
      ensures Valid()
      ensures processor.Some? ==> r == Failure(PullWithProcessor) && !mustWait && buffer == old(buffer)
                                  && nextDeliveryId == old(nextDeliveryId) && timers == old(timers) && waiter == old(waiter)
      ensures processor.None? && !old(running) ==>
        r == Failure(NotRunning) && !mustWait && buffer == old(buffer)
        && nextDeliveryId == old(nextDeliveryId) && timers == old(timers) && waiter == old(waiter)
      ensures processor.None? && old(running) ==>
        && r.Success?
        && (buffer, r.value) == ReserveScan(old(buffer), PullQuota(amount), old(nextDeliveryId))
        && nextDeliveryId == old(nextDeliveryId) + 1
        && (mustWait <==> r.value == [])
        && waiter == (old(waiter) || mustWait)
        && timers == old(timers) + (if r.value != [] then [Timer(EventIds(r.value), old(nextDeliveryId), acknowledgeTimeoutMs)] else [])
    {
      if processor.Some? {
        return Failure(PullWithProcessor), false;
      }
      r, mustWait := PullInner(amount);
    }

    /** `acknowledgeInner`: nothing for an empty list; otherwise remove exactly the listed ids,
        release the buffer loop once below the threshold, and checkpoint. It does not look at
        `running`. */
    method AcknowledgeInner(ids: seq<EventId>)
      requires Valid()
      modifies this`buffer, this`bufferWaiter, this`stateWrites
      ensures Valid()
      ensures ids == [] ==> buffer == old(buffer) && bufferWaiter == old(bufferWaiter) && stateWrites == old(stateWrites)
      ensures ids != [] ==>
        && buffer == RemoveListed(old(buffer), ids).kept
        && bufferWaiter == (old(bufferWaiter) && !BelowThreshold())
        && stateWrites == old(stateWrites) + OptionToSeq(LibCheckpoint(bucketOf, before, LastItemId(old(buffer)), buffer))
    {
      if ids == [] {
        return;
      }
      var lastEventInBuffer := LastItemId(buffer);
      var kept, removed := FilterListed(buffer, ids);
      RemoveListedWellFormed(buffer, ids, nextDeliveryId);
      buffer := kept;
      if bufferWaiter && BelowThreshold() {
        bufferWaiter := false;
      }
      stateWrites := stateWrites + OptionToSeq(LibCheckpoint(bucketOf, before, if buffer == [] then lastEventInBuffer else None, buffer));
    }

    /** `acknowledge`: refused when a processor is configured. */
    method Acknowledge(ids: seq<EventId>) returns (r: Result<(), LibError>)
      requires Valid()
      modifies this`buffer, this`bufferWaiter, this`stateWrites
      ensures Valid()
      ensures processor.Some? ==> r == Failure(AcknowledgeWithProcessor) && buffer == old(buffer)
                                  && bufferWaiter == old(bufferWaiter) && stateWrites == old(stateWrites)
      ensures processor.None? ==> r == Success(()) && buffer == RemoveListed(old(buffer), ids).kept
      ensures processor.None? && ids == [] ==> bufferWaiter == old(bufferWaiter) && stateWrites == old(stateWrites)
      ensures processor.None? && ids != [] ==>
        && bufferWaiter == (old(bufferWaiter) && !BelowThreshold())
        && stateWrites == old(stateWrites) + OptionToSeq(LibCheckpoint(bucketOf, before, LastItemId(old(buffer)), buffer))
    {
      if processor.Some? {
        return Failure(AcknowledgeWithProcessor);
      }
      if ids == [] {
        RemoveUnlisted(buffer, ids);
      }
      AcknowledgeInner(ids);
      r := Success(());
    }

    /** The older `reOpen`: nothing for an empty list; otherwise drop the reservation's exhausted
        items, reopen its listed ones, wake a puller when any reopened, release the buffer loop
        once below the threshold, and when any were dropped report them and checkpoint with the
        last of them as the tail. */
    method ReOpen(ids: seq<EventId>, deliveryId: nat)
      requires Valid()
      modifies this`buffer, this`waiter, this`bufferWaiter, this`stateWrites, this`failedReports
      ensures Valid()
      ensures ids == [] ==> buffer == old(buffer) && waiter == old(waiter) && bufferWaiter == old(bufferWaiter)
                            && stateWrites == old(stateWrites) && failedReports == old(failedReports)
      ensures ids != [] ==>
        var o := LibReOpenScan(old(buffer), ids, deliveryId, maxRedeliveryCount);
        && buffer == o.buffer
        && waiter == (old(waiter) && o.reopened == [])
        && bufferWaiter == (old(bufferWaiter) && !BelowThreshold())
        && (o.failed == [] ==> stateWrites == old(stateWrites) && failedReports == old(failedReports))
        && (o.failed != [] ==>
              && failedReports == old(failedReports) + (if HasFailedHandler() then [o.failed] else [])
              && stateWrites == old(stateWrites) + OptionToSeq(LibCheckpoint(bucketOf, before, LastEventId(o.failed), buffer)))
    {
      if ids == [] {
        return;
      }
      var o := LibReOpenLoop(buffer, ids, deliveryId, maxRedeliveryCount);
      LibReOpenWellFormed(buffer, ids, deliveryId, maxRedeliveryCount, nextDeliveryId);
      buffer := o.buffer;
      if o.reopened != [] {
        waiter := false;
      }
      if bufferWaiter && BelowThreshold() {
        bufferWaiter := false;
      }
      if o.failed != [] {
        if HasFailedHandler() {
          failedReports := failedReports + [o.failed];
        }
        stateWrites := stateWrites + OptionToSeq(LibCheckpoint(bucketOf, before, LastEventId(o.failed), buffer));
      }
    }

    /** A redelivery timer firing: it is disarmed and reopens its reservation's ids. */
    method FireTimer(k: nat)
      requires Valid() && k < |timers|
      modifies this`timers, this`buffer, this`waiter, this`bufferWaiter, this`stateWrites, this`failedReports
      ensures Valid()
      ensures timers == old(timers[..k] + timers[k + 1..])
      ensures old(timers[k]).eventIds == [] ==>
        buffer == old(buffer) && waiter == old(waiter) && bufferWaiter == old(bufferWaiter)
        && stateWrites == old(stateWrites) && failedReports == old(failedReports)
      ensures old(timers[k]).eventIds != [] ==>
        var o := LibReOpenScan(old(buffer), old(timers[k]).eventIds, old(timers[k]).deliveryId, maxRedeliveryCount);
        && buffer == o.buffer
        && waiter == (old(waiter) && o.reopened == [])
        && bufferWaiter == (old(bufferWaiter) && !BelowThreshold())
        && (o.failed == [] ==> stateWrites == old(stateWrites) && failedReports == old(failedReports))
        && (o.failed != [] ==>
              && failedReports == old(failedReports) + (if HasFailedHandler() then [o.failed] else [])
              && stateWrites == old(stateWrites) + OptionToSeq(LibCheckpoint(bucketOf, before, LastEventId(o.failed), buffer)))
    {
      var t := timers[k];
      timers := timers[..k] + timers[k + 1..];
      assert forall u :: u in timers ==> u in old(timers);
      ReOpen(t.eventIds, t.deliveryId);
    }
  }
}
