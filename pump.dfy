/** The newer engine generation: `FlowcoreDataPump`. A bounded buffer of fetched events that
    consumers reserve, acknowledge or fail; reservations that are neither acknowledged nor failed
    in time are reopened by a timer, up to a maximum number of deliveries; progress is
    checkpointed through an optional state sink. */
module Pump {
  import opened Wrappers
  import opened Events
  import opened Buckets
  import opened BufferItems

  const DefaultBufferSize := 1000
  const DefaultMaxRedeliveryCount := 3
  const DefaultAcknowledgeTimeoutMs := 5000

  /** `Math.ceil(bufferSize * 0.1)`: the smallest integer that is at least a tenth of the size. */
  function DefaultThreshold(size: int): (t: int)
    ensures 10 * t >= size
    ensures 10 * (t - 1) < size
  {
    (size + 9) / 10
  }

  // ---------------------------------------------------------------------------------------------
  // Redelivery timeout

  /** What one reopen pass does: the buffer it leaves, the events it gives up on (in buffer order)
      and the events it makes available again (in buffer order). */
  datatype ReOpenOutcome = ReOpenOutcome(buffer: seq<Item>, failed: seq<Event>, reopened: seq<Event>)

  /** The items a timer concerns: still held by the reservation that armed it, and listed. */
  predicate Matches(it: Item, ids: seq<EventId>, did: nat) {
    it.deliveryId == Some(did) && it.event.eventId in ids
  }

  /** A redelivery limit of -1 means unlimited; otherwise an item delivered more often than the
      limit is given up on. */
  predicate Exhausted(it: Item, maxRedeliveryCount: int) {
    maxRedeliveryCount > -1 && it.deliveryCount > maxRedeliveryCount
  }

  function Reopened(it: Item): Item {
    it.(status := Open, deliveryId := None)
  }

  /** The filter of `reOpen`: items the timer does not concern stay as they are, concerned items
      that are exhausted leave the buffer and are reported, the others become open again. */
  function ReOpenScan(buf: seq<Item>, ids: seq<EventId>, did: nat, max: int): (r: ReOpenOutcome)
    ensures |r.buffer| + |r.failed| == |buf|
    ensures |r.reopened| <= |r.buffer|
  {
    if buf == [] then ReOpenOutcome([], [], [])
    else
      var rest := ReOpenScan(buf[1..], ids, did, max);
      if !Matches(buf[0], ids, did) then rest.(buffer := [buf[0]] + rest.buffer)
      else if Exhausted(buf[0], max) then rest.(failed := [buf[0].event] + rest.failed)
      else ReOpenOutcome([Reopened(buf[0])] + rest.buffer, rest.failed, [buf[0].event] + rest.reopened)
  }

  /** Only the items held by that reservation and listed are touched: every other item stays, as it
      was; a concerned item either comes back open without a delivery id or, when exhausted, leaves
      and is reported; and nothing else is kept or reported. */
  lemma {:induction false} ReOpenScanMembers(buf: seq<Item>, ids: seq<EventId>, did: nat, max: int)
    ensures forall x :: x in buf && !Matches(x, ids, did) ==> x in ReOpenScan(buf, ids, did, max).buffer
    ensures forall x :: x in buf && Matches(x, ids, did) && !Exhausted(x, max) ==>
      Reopened(x) in ReOpenScan(buf, ids, did, max).buffer && x.event in ReOpenScan(buf, ids, did, max).reopened
    ensures forall x :: x in buf && Matches(x, ids, did) && Exhausted(x, max) ==> x.event in ReOpenScan(buf, ids, did, max).failed
    ensures forall x :: x in ReOpenScan(buf, ids, did, max).buffer ==>
      (x in buf && !Matches(x, ids, did)) || exists y :: y in buf && Matches(y, ids, did) && !Exhausted(y, max) && x == Reopened(y)
    ensures forall e :: e in ReOpenScan(buf, ids, did, max).failed ==>
      exists y :: y in buf && Matches(y, ids, did) && Exhausted(y, max) && y.event == e
    decreases |buf|
  {
    if buf != [] {
      ReOpenScanMembers(buf[1..], ids, did, max);
      assert buf == [buf[0]] + buf[1..];
      var r := ReOpenScan(buf, ids, did, max);
      var rest := ReOpenScan(buf[1..], ids, did, max);
      forall x | x in r.buffer
        ensures (x in buf && !Matches(x, ids, did)) || exists y :: y in buf && Matches(y, ids, did) && !Exhausted(y, max) && x == Reopened(y)
      {
        if x !in rest.buffer {
          if Matches(buf[0], ids, did) {
            assert x == Reopened(buf[0]);
          }
        }
      }
      forall e | e in r.failed
        ensures exists y :: y in buf && Matches(y, ids, did) && Exhausted(y, max) && y.event == e
      {
        if e !in rest.failed {
          assert e == buf[0].event;
        }
      }
    }
  }

  /** With no redelivery limit nothing is ever given up on: every concerned item comes back open,
      in place, and every other item stays. */
  lemma {:induction false} ReOpenUnlimited(buf: seq<Item>, ids: seq<EventId>, did: nat)
    ensures ReOpenScan(buf, ids, did, -1).failed == []
    ensures |ReOpenScan(buf, ids, did, -1).buffer| == |buf|
    ensures forall i :: 0 <= i < |buf| ==>
      ReOpenScan(buf, ids, did, -1).buffer[i] == (if Matches(buf[i], ids, did) then Reopened(buf[i]) else buf[i])
    decreases |buf|
  {
    if buf != [] {
      ReOpenUnlimited(buf[1..], ids, did);
      var r := ReOpenScan(buf, ids, did, -1);
      forall i | 0 <= i < |buf|
        ensures r.buffer[i] == (if Matches(buf[i], ids, did) then Reopened(buf[i]) else buf[i])
      {
        if i > 0 {
          assert buf[i] == buf[1..][i - 1];
        }
      }
    }
  }

  /** A timer that fires after its items were acknowledged, failed or cleared by a stop finds
      nothing it concerns and changes nothing. */
  lemma {:induction false} ReOpenStale(buf: seq<Item>, ids: seq<EventId>, did: nat, max: int)
    requires forall i :: 0 <= i < |buf| ==> !Matches(buf[i], ids, did)
    ensures ReOpenScan(buf, ids, did, max) == ReOpenOutcome(buf, [], [])
    decreases |buf|
  {
    if buf != [] {
      ReOpenStale(buf[1..], ids, did, max);
      assert [buf[0]] + buf[1..] == buf;
    }
  }

  /** With a limit of 0 the first timeout gives up: every concerned item has been delivered once,
      so none comes back and all of them are reported. */
  lemma ReOpenLimitZero(buf: seq<Item>, ids: seq<EventId>, did: nat, nextId: nat)
    requires WellFormed(buf, nextId)
    ensures ReOpenScan(buf, ids, did, 0).reopened == []
    ensures forall x :: x in buf && Matches(x, ids, did) ==> x.event in ReOpenScan(buf, ids, did, 0).failed
  {
    ReOpenScanMembers(buf, ids, did, 0);
    ReOpenLimitZeroReopensNothing(buf, ids, did, nextId);
  }

  lemma {:induction false} ReOpenLimitZeroReopensNothing(buf: seq<Item>, ids: seq<EventId>, did: nat, nextId: nat)
    requires WellFormed(buf, nextId)
    ensures ReOpenScan(buf, ids, did, 0).reopened == []
    decreases |buf|
  {
    if buf != [] {
      assert WellFormed(buf[1..], nextId) by {
        forall i | 0 <= i < |buf[1..]|
          ensures (buf[1..][i].status == Reserved <==> buf[1..][i].deliveryId.Some?)
          ensures buf[1..][i].deliveryId.Some? ==> buf[1..][i].deliveryId.value < nextId && buf[1..][i].deliveryCount >= 1
        {
          assert buf[1..][i] == buf[i + 1];
        }
      }
      ReOpenLimitZeroReopensNothing(buf[1..], ids, did, nextId);
    }
  }

  /** Reopening keeps the buffer invariant: a reopened item is open and carries no delivery id. */
  lemma ReOpenWellFormed(buf: seq<Item>, ids: seq<EventId>, did: nat, max: int, nextId: nat)
    requires WellFormed(buf, nextId)
    ensures WellFormed(ReOpenScan(buf, ids, did, max).buffer, nextId)
  {
    ReOpenScanMembers(buf, ids, did, max);
    var k := ReOpenScan(buf, ids, did, max).buffer;
    forall i | 0 <= i < |k|
      ensures (k[i].status == Reserved <==> k[i].deliveryId.Some?)
      ensures k[i].deliveryId.Some? ==> k[i].deliveryId.value < nextId && k[i].deliveryCount >= 1
    {
      assert k[i] in k;
    }
  }

  /** One step of the reopen pass at position `i`, seen from a loop that has collected the
      outcome of the items before `i`. */
  lemma ReOpenScanAt(buf: seq<Item>, i: nat, ids: seq<EventId>, did: nat, max: int,
                     kept: seq<Item>, failed: seq<Event>, reopened: seq<Event>)
    requires i < |buf|
    ensures var x := buf[i];
      var r, next := ReOpenScan(buf[i..], ids, did, max), ReOpenScan(buf[i + 1..], ids, did, max);
      var keep := if !Matches(x, ids, did) then [x] else if Exhausted(x, max) then [] else [Reopened(x)];
      var fail := if Matches(x, ids, did) && Exhausted(x, max) then [x.event] else [];
      var reop := if Matches(x, ids, did) && !Exhausted(x, max) then [x.event] else [];
      && kept + r.buffer == (kept + keep) + next.buffer
      && failed + r.failed == (failed + fail) + next.failed
      && reopened + r.reopened == (reopened + reop) + next.reopened
  {
    var x := buf[i];
    assert buf[i..][0] == x && buf[i..][1..] == buf[i + 1..];
    var next := ReOpenScan(buf[i + 1..], ids, did, max);
    assert kept + ([x] + next.buffer) == (kept + [x]) + next.buffer;
    assert kept + ([Reopened(x)] + next.buffer) == (kept + [Reopened(x)]) + next.buffer;
    assert failed + ([x.event] + next.failed) == (failed + [x.event]) + next.failed;
    assert reopened + ([x.event] + next.reopened) == (reopened + [x.event]) + next.reopened;
    assert kept + [] == kept && failed + [] == failed && reopened + [] == reopened;
  }

  /** The filter of `reOpen` with its accumulators, in buffer order. */
  method ReOpenLoop(buf: seq<Item>, ids: seq<EventId>, did: nat, max: int) returns (o: ReOpenOutcome)
    ensures o == ReOpenScan(buf, ids, did, max)
  {
    var kept, failed, reopened := [], [], [];
    assert buf[0..] == buf;
    ghost var all := ReOpenScan(buf, ids, did, max);
    assert [] + all.buffer == all.buffer && [] + all.failed == all.failed && [] + all.reopened == all.reopened;
    for i := 0 to |buf|
      invariant all.buffer == kept + ReOpenScan(buf[i..], ids, did, max).buffer
      invariant all.failed == failed + ReOpenScan(buf[i..], ids, did, max).failed
      invariant all.reopened == reopened + ReOpenScan(buf[i..], ids, did, max).reopened
    {
      ReOpenScanAt(buf, i, ids, did, max, kept, failed, reopened);
      var it := buf[i];
      if !Matches(it, ids, did) {
        kept := kept + [it];
      } else if Exhausted(it, max) {
        failed := failed + [it.event];
      } else {
        kept := kept + [Reopened(it)];
        reopened := reopened + [it.event];
      }
    }
    assert buf[|buf|..] == [];
    assert kept + [] == kept && failed + [] == failed && reopened + [] == reopened;
    o := ReOpenOutcome(kept, failed, reopened);
  }


  // ---------------------------------------------------------------------------------------------
  // Checkpoint

  /** The id of the last buffered item, which acknowledge and fail keep as the checkpoint for the
      case that the removal empties the buffer. */
  function LastItemId(buf: seq<Item>): (r: Option<EventId>)
    ensures r.None? <==> buf == []
    ensures r.Some? ==> r.value == buf[|buf| - 1].event.eventId
  {
    if buf == [] then None else Some(buf[|buf| - 1].event.eventId)
  }

  /** `updateState` as the newer engine writes it: the given id, else the head's own id; nothing
      without a sink or without a (non-empty) id. The bucket is the hour of the id's timestamp. */
  function UpdateStateAsWritten(bucketOf: EventId -> string, hasSetState: bool, given: Option<EventId>, buf: seq<Item>): (r: Option<Cursor>)
    ensures given.Some? ==> (r.Some? <==> hasSetState && given.value != "") && (r.Some? ==> r.value.eventId == given)
    ensures given.None? ==> (r.Some? <==> hasSetState && buf != [] && buf[0].event.eventId != "")
                            && (r.Some? ==> r.value.eventId == Some(buf[0].event.eventId))
    ensures r.Some? ==> r.value.eventId.Some? && r.value.timeBucket == bucketOf(r.value.eventId.value)
  {
    if !hasSetState then None
    else
      var id := if given.Some? then given else if buf == [] then None else Some(buf[0].event.eventId);
      if id.None? || id.value == "" then None else Some(Cursor(bucketOf(id.value), id))
  }

  /** `updateState` with the head case corrected as the older engine has it: while items remain,
      the checkpoint is the id just before the head's, so that resuming after it fetches the head
      again. */
  function UpdateState(bucketOf: EventId -> string, before: EventId -> EventId, hasSetState: bool, given: Option<EventId>, buf: seq<Item>): (r: Option<Cursor>)
    ensures given.Some? ==> r == UpdateStateAsWritten(bucketOf, hasSetState, given, buf)
    ensures buf == [] ==> r == UpdateStateAsWritten(bucketOf, hasSetState, given, buf)
    ensures given.None? && buf != [] ==>
      var head := buf[0].event.eventId;
      && (r.Some? <==> hasSetState && head != "")
      && (r.Some? ==> r.value == Cursor(bucketOf(head), Some(before(head))))
  {
    if !hasSetState then None
    else if given.Some? then
      if given.value == "" then None else Some(Cursor(bucketOf(given.value), given))
    else if buf == [] then None
    else
      var head := buf[0].event.eventId;
      if head == "" then None else Some(Cursor(bucketOf(head), Some(before(head))))
  }

  /** The checkpoint acknowledge, fail and reOpen ask for once items are removed: the id `tail`
      (the last item before the call, or the last event given up on) when the buffer is now empty,
      the id just before the buffer's head otherwise, each with the hour of the id it was taken
      from. */
  function CheckpointAfterRemoval(bucketOf: EventId -> string, before: EventId -> EventId, hasSetState: bool, tail: Option<EventId>, post: seq<Item>): (r: Option<Cursor>)
    ensures post == [] ==> r == (if hasSetState && tail.Some? && tail.value != "" then Some(Cursor(bucketOf(tail.value), tail)) else None)
    ensures post != [] ==>
      var head := post[0].event.eventId;
      r == (if hasSetState && head != "" then Some(Cursor(bucketOf(head), Some(before(head)))) else None)
  {
    UpdateState(bucketOf, before, hasSetState, if post == [] then tail else None, post)
  }

  /** As written, a checkpoint taken while items remain names the head itself. A resume fetches the
      events after the checkpoint id, so the head, which nobody acknowledged, is skipped. */
  lemma AsWrittenCheckpointSkipsHead(bucketOf: EventId -> string, rank: EventId -> int, post: seq<Item>)
    requires post != [] && post[0].event.eventId != ""
    ensures var r := UpdateStateAsWritten(bucketOf, true, None, post);
      r.Some? && r.value.eventId == Some(post[0].event.eventId)
      && !(rank(post[0].event.eventId) > rank(r.value.eventId.value))
  {
  }

  /** The corrected checkpoint stays strictly before every buffered event, when ids are ordered by
      `rank`, the buffer holds them in that order and `before` steps back. */
  lemma CheckpointStaysBeforeBuffered(bucketOf: EventId -> string, before: EventId -> EventId, rank: EventId -> int,
                                      hasSetState: bool, tail: Option<EventId>, post: seq<Item>)
    requires forall id :: rank(before(id)) < rank(id)
    requires forall i, j :: 0 <= i < j < |post| ==> rank(post[i].event.eventId) <= rank(post[j].event.eventId)
    ensures var r := CheckpointAfterRemoval(bucketOf, before, hasSetState, tail, post);
      post != [] && r.Some? ==> forall i :: 0 <= i < |post| ==> rank(post[i].event.eventId) > rank(r.value.eventId.value)
  {
    var r := CheckpointAfterRemoval(bucketOf, before, hasSetState, tail, post);
    if post != [] && r.Some? {
      var head := post[0].event.eventId;
      assert rank(before(head)) < rank(head);
      forall i | 0 <= i < |post|
        ensures rank(post[i].event.eventId) > rank(r.value.eventId.value)
      {
        if i > 0 {
          assert rank(post[0].event.eventId) <= rank(post[i].event.eventId);
        }
      }
    }
  }

  /** Once an acknowledged batch is removed, no later reservation hands any of it out again. */
  lemma AcknowledgedNeverReserved(buf: seq<Item>, ids: seq<EventId>, amount: int, did: nat)
    ensures forall e :: e in ReserveScan(RemoveListed(buf, ids).kept, amount, did).1 ==> e.eventId !in ids
  {
    var k := RemoveListed(buf, ids).kept;
    RemoveListedMembers(buf, ids);
    ReserveScanTakesOpenItems(k, amount, did);
    forall e | e in ReserveScan(k, amount, did).1
      ensures e.eventId !in ids
    {
      var i :| 0 <= i < |k| && k[i].status == Open && k[i].event == e;
      assert k[i] in k;
    }
  }

  // ---------------------------------------------------------------------------------------------
  // The engine

  /** The `stopAt` option: the hour bucket of the date and the time-uuid of the date. */
  datatype StopAt = StopAt(hourBucket: string, eventId: EventId)

  /** The `stopAt` argument of `restart`: absent keeps the option, null clears it. */
  datatype StopAtChange = KeepStopAt | ClearStopAt | SetStopAt(stopAt: StopAt)

  datatype Processor = Processor(concurrency: Option<int>, hasFailedHandler: bool)

  /** The options of `create` that the engine keeps (the data source, auth and notifier are
      wiring); `hasSetState` says whether the state manager has a `setState`. */
  datatype Options = Options(bufferSize: Option<int>, maxRedeliveryCount: Option<int>,
                             acknowledgeTimeoutMs: Option<int>, processor: Option<Processor>,
                             stopAt: Option<StopAt>, hasSetState: bool)

  /** An armed redelivery timer: when it fires it reopens these ids for this reservation. */
  datatype Timer = Timer(eventIds: seq<EventId>, deliveryId: nat, delayMs: int)

  datatype StartError = AlreadyRunning | StartBucketError(error: BucketError)

  /** How one iteration of the fetch loop ends. `DrainThenStop` waits for the buffer to empty and
      then stops; `PaceOneSecond` sleeps a second before the next fetch. */
  datatype LoopAction =
    | WaitForSpace
    | StoppedAtStopAt
    | DrainThenStop
    | NextBucket(bucket: string)
    | GoLive
    | PaceOneSecond
    | FetchAgain
    | LoopFailed(error: BucketError)

  class DataPump {
    const bufferSize: int
    const bufferThreshold: int
    const maxRedeliveryCount: int
    const acknowledgeTimeoutMs: int
    const processor: Option<Processor>
    const hasSetState: bool
    /** The hour bucket of a time-uuid's timestamp. */
    const bucketOf: EventId -> string
    /** The time-uuid just before a given one. */
    const before: EventId -> EventId

    var stopAt: Option<StopAt>
    var running: bool
    var restartTo: Option<Cursor>
    var buffer: seq<Item>
    var bufferState: Cursor
    var stopAtState: Option<Cursor>
    var isLive: bool
    /** Pending waits: a reserver waiting for events, the fetch loop waiting for space, the fetch
        loop waiting for the buffer to drain, and the live wait on the notifier. */
    var waitingForEvents: bool
    var waitingForThreshold: bool
    var waitingForEmpty: bool
    var notifierWaiting: bool
    /** The next fresh delivery id. */
    var nextDeliveryId: nat
    var timers: seq<Timer>
    /** What went to `setState` and to `failedHandler`, in order. */
    var stateWrites: seq<Cursor>
    var failedReports: seq<seq<Event>>

    ghost predicate Valid()
      reads this
    {
      && WellFormed(buffer, nextDeliveryId)
      && forall t :: t in timers ==> t.deliveryId < nextDeliveryId
    }

    /** The occupancy at which the fetch loop may fetch again. */
    predicate BelowThreshold()
      reads this
    {
      |buffer| <= bufferSize - bufferThreshold
    }

    function Concurrency(): int
      reads this
    {
      if processor.Some? && processor.value.concurrency.Some? then processor.value.concurrency.value else 1
    }

    predicate HasFailedHandler()
      reads this
    {
      processor.Some? && processor.value.hasFailedHandler
    }

    /** `create` and the constructor: the defaults, and a cursor at the current hour. */
    constructor Create(options: Options, bucketOf: EventId -> string, before: EventId -> EventId, now: string, nowId: EventId)
      ensures bufferSize == options.bufferSize.GetOr(DefaultBufferSize)
      ensures bufferThreshold == DefaultThreshold(bufferSize)
      ensures maxRedeliveryCount == options.maxRedeliveryCount.GetOr(DefaultMaxRedeliveryCount)
      ensures acknowledgeTimeoutMs == options.acknowledgeTimeoutMs.GetOr(DefaultAcknowledgeTimeoutMs)
      ensures processor == options.processor && stopAt == options.stopAt && hasSetState == options.hasSetState
      ensures this.bucketOf == bucketOf && this.before == before
      ensures !running && restartTo.None? && buffer == [] && stopAtState.None? && !isLive
      ensures bufferState == Cursor(now, Some(nowId))
      ensures !waitingForEvents && !waitingForThreshold && !waitingForEmpty && !notifierWaiting
      ensures timers == [] && stateWrites == [] && failedReports == []
      ensures Valid()
    {
      bufferSize := options.bufferSize.GetOr(DefaultBufferSize);
      bufferThreshold := DefaultThreshold(options.bufferSize.GetOr(DefaultBufferSize));
      maxRedeliveryCount := options.maxRedeliveryCount.GetOr(DefaultMaxRedeliveryCount);
      acknowledgeTimeoutMs := options.acknowledgeTimeoutMs.GetOr(DefaultAcknowledgeTimeoutMs);
      processor := options.processor;
      hasSetState := options.hasSetState;
      this.bucketOf := bucketOf;
      this.before := before;
      stopAt := options.stopAt;
      running := false;
      restartTo := None;
      buffer := [];
      bufferState := Cursor(now, Some(nowId));
      stopAtState := None;
      isLive := false;
      waitingForEvents, waitingForThreshold, waitingForEmpty, notifierWaiting := false, false, false, false;
      nextDeliveryId := 0;
      timers, stateWrites, failedReports := [], [], [];
    }

    /** `start` up to the fetch loop: refuses a second start, then places the cursor at the bucket
        closest to the saved checkpoint (or at the current hour) and resolves the stop-at bucket.
        `running` is set before either search, so a failed search leaves it set. */
    method Start(saved: Option<Cursor>, buckets: seq<string>, now: string, nowId: EventId) returns (r: Result<(), StartError>)
      modifies this`isLive, this`running, this`bufferState, this`stopAtState
      ensures !isLive && running
      ensures old(running) ==> r == Failure(AlreadyRunning) && bufferState == old(bufferState) && stopAtState == old(stopAtState)
      ensures !old(running) ==>
        var tb := if saved.None? then Success(Some(now)) else ClosestTimeBucket(buckets, saved.value.timeBucket, false);
        && (tb.Failure? ==> r == Failure(StartBucketError(tb.error)) && bufferState == old(bufferState) && stopAtState == old(stopAtState))
        && (tb.Success? ==> bufferState == Cursor(tb.value.GetOr(now), if saved.Some? then saved.value.eventId else Some(nowId)))
        && (tb.Success? && stopAt.None? ==> r == Success(()) && stopAtState == old(stopAtState))
        && (tb.Success? && stopAt.Some? ==>
              var sb := ClosestTimeBucket(buckets, stopAt.value.hourBucket, true);
              && (sb.Failure? ==> r == Failure(StartBucketError(sb.error)) && stopAtState == old(stopAtState))
              && (sb.Success? ==> r == Success(()) && stopAtState == Some(Cursor(sb.value.GetOr(now), Some(stopAt.value.eventId)))))
    {
      isLive := false;
      if running {
        return Failure(AlreadyRunning);
      }
      running := true;
      var timeBucket := now;
      if saved.Some? {
        var closest := ClosestTimeBucket(buckets, saved.value.timeBucket, false);
        if closest.Failure? {
          return Failure(StartBucketError(closest.error));
        }
        timeBucket := closest.value.GetOr(now);
      }
      bufferState := Cursor(timeBucket, if saved.Some? then saved.value.eventId else Some(nowId));
      if stopAt.Some? {
        var closest := ClosestTimeBucket(buckets, stopAt.value.hourBucket, true);
        if closest.Failure? {
          return Failure(StartBucketError(closest.error));
        }
        stopAtState := Some(Cursor(closest.value.GetOr(now), Some(stopAt.value.eventId)));
      }
      r := Success(());
    }

    /** `stop`: clears the buffer, aborts the live wait and releases the fetch loop; a reserver
        waiting for events is released too unless this stop is part of a restart. A pending drain
        wait is not released. */
    method Stop(isRestart: bool)
      requires Valid()
      modifies this`running, this`buffer, this`notifierWaiting, this`waitingForThreshold, this`waitingForEvents
      ensures Valid()
      ensures !running && buffer == [] && !notifierWaiting && !waitingForThreshold
      ensures waitingForEvents == (old(waitingForEvents) && isRestart)
    {
      running := false;
      buffer := [];
      notifierWaiting := false;
      waitingForThreshold := false;
      if !isRestart {
        waitingForEvents := false;
      }
    }

    /** `restart`: remembers where to resume, updates the stop-at option, and stops. */
    method Restart(state: Cursor, change: StopAtChange)
      requires Valid()
      modifies this`restartTo, this`stopAt
      modifies this`running, this`buffer, this`notifierWaiting, this`waitingForThreshold, this`waitingForEvents
      ensures Valid()
      ensures restartTo == Some(state)
      ensures stopAt == match change
        case KeepStopAt => old(stopAt)
        case ClearStopAt => None
        case SetStopAt(s) => Some(s)
      ensures !running && buffer == [] && !notifierWaiting && !waitingForThreshold
      ensures waitingForEvents == old(waitingForEvents)
    {
      restartTo := Some(state);
      match change {
        case KeepStopAt =>
        case ClearStopAt => stopAt := None;
        case SetStopAt(s) => stopAt := Some(s);
      }
      Stop(true);
    }

    /** The tail of `loop` once it has stopped: with a restart pending, resume at the bucket closest
        to the restart state (`buckets` is the freshly fetched list) and run again. The stop-at
        bucket is not recomputed. */
    method ResumeAfterRestart(buckets: seq<string>, now: string) returns (r: Result<bool, BucketError>)
      requires !running
      modifies this`bufferState, this`restartTo, this`running
      ensures old(restartTo).None? ==> r == Success(false) && !running && bufferState == old(bufferState) && restartTo.None?
      ensures old(restartTo).Some? ==>
        var c := ClosestTimeBucket(buckets, old(restartTo).value.timeBucket, false);
        && (c.Failure? ==> r == Failure(c.error) && !running && restartTo == old(restartTo) && bufferState == old(bufferState))
        && (c.Success? ==> r == Success(true) && running && restartTo.None?
                           && bufferState == Cursor(c.value.GetOr(now), old(restartTo).value.eventId))
    {
      if restartTo.None? {
        return Success(false);
      }
      var closest := ClosestTimeBucket(buckets, restartTo.value.timeBucket, false);
      if closest.Failure? {
        return Failure(closest.error);
      }
      bufferState := Cursor(closest.value.GetOr(now), restartTo.value.eventId);
      restartTo := None;
      running := true;
      r := Success(true);
    }

    /** The fetch half of one loop iteration: with no room, wait for the buffer to fall below the
        threshold; otherwise append the fetched page (`page`, at most the room asked for) as open
        items, wake a waiting reserver if it is non-empty, and move the cursor's id to its last
        event. */
    method FetchStep(page: seq<Event>) returns (fetched: bool)
      requires Valid()
      modifies this`buffer, this`bufferState, this`waitingForThreshold, this`waitingForEvents
      ensures Valid()
      ensures fetched <==> old(bufferSize - |buffer|) > 0
      ensures !fetched ==> waitingForThreshold && buffer == old(buffer) && bufferState == old(bufferState)
                           && waitingForEvents == old(waitingForEvents)
      ensures fetched ==>
        && buffer == Appended(old(buffer), page)
        && bufferState == old(bufferState).(eventId := if page == [] then old(bufferState).eventId else LastEventId(page))
        && waitingForEvents == (old(waitingForEvents) && page == [])
        && waitingForThreshold == old(waitingForThreshold)
    {
      var amountToFetch := bufferSize - |buffer|;
      if amountToFetch <= 0 {
        waitingForThreshold := true;
        return false;
      }
      AppendedWellFormed(buffer, page, nextDeliveryId);
      buffer := Appended(buffer, page);
      if page != [] {
        waitingForEvents := false;
        bufferState := bufferState.(eventId := LastEventId(page));
      }
      fetched := true;
    }

    /** The walker half of one loop iteration, after a fetch of `amount` asked for returned `page`:
        stop at the stop-at bucket once a page there is empty (draining first); on a short page move
        to the next known bucket, or else to the current hour, going live when the cursor already
        was at the current hour and the page was empty. */
    method WalkStep(page: seq<Event>, amount: int, buckets: seq<string>, now: string) returns (action: LoopAction)
      requires running && Valid()
      modifies this`bufferState, this`waitingForEmpty, this`isLive, this`notifierWaiting
      modifies this`running, this`buffer, this`waitingForThreshold, this`waitingForEvents
      ensures Valid()
      ensures var atStop := old(stopAtState).Some? && old(stopAtState).value.timeBucket != ""
                            && !LexLess(old(bufferState).timeBucket, old(stopAtState).value.timeBucket) && page == [];
        && (atStop && old(buffer) == [] ==>
              action == StoppedAtStopAt && !running && buffer == [] && bufferState == old(bufferState)
              && !notifierWaiting && !waitingForThreshold && !waitingForEvents)
        && (atStop && old(buffer) != [] ==> action == DrainThenStop && waitingForEmpty && bufferState == old(bufferState))
        && (!atStop && |page| == amount ==> action == FetchAgain && bufferState == old(bufferState))
        && (!atStop && |page| != amount ==>
              var next := NextTimeBucket(buckets, old(bufferState).timeBucket);
              && (next.Failure? ==> action == LoopFailed(next.error) && bufferState == old(bufferState))
              && (next.Success? && next.value.Some? && next.value.value != "" ==>
                    action == NextBucket(next.value.value) && bufferState == old(bufferState).(timeBucket := next.value.value))
              && (next.Success? && !(next.value.Some? && next.value.value != "") ==>
                    && bufferState == old(bufferState).(timeBucket := now)
                    && (old(bufferState).timeBucket == now && page == [] ==> action == GoLive && isLive && notifierWaiting)
                    && (!(old(bufferState).timeBucket == now && page == []) ==>
                          action == (if old(isLive) then PaceOneSecond else FetchAgain))))
      ensures action != StoppedAtStopAt ==> running && buffer == old(buffer)
      ensures action != StoppedAtStopAt ==> waitingForThreshold == old(waitingForThreshold) && waitingForEvents == old(waitingForEvents)
      ensures action != GoLive && action != StoppedAtStopAt ==> notifierWaiting == old(notifierWaiting)
      ensures action != GoLive ==> isLive == old(isLive)
      ensures action != DrainThenStop ==> waitingForEmpty == old(waitingForEmpty)
    {
      if stopAtState.Some? && stopAtState.value.timeBucket != ""
         && !LexLess(bufferState.timeBucket, stopAtState.value.timeBucket) && page == [] {
        if buffer == [] {
          Stop(false);
          return StoppedAtStopAt;
        }
        waitingForEmpty := true;
        return DrainThenStop;
      }
      if |page| == amount {
        return FetchAgain;
      }
      var next := NextTimeBucket(buckets, bufferState.timeBucket);
      if next.Failure? {
        return LoopFailed(next.error);
      }
      if next.value.Some? && next.value.value != "" {
        bufferState := bufferState.(timeBucket := next.value.value);
        return NextBucket(next.value.value);
      }
      var previousTimeBucket := bufferState.timeBucket;
      bufferState := bufferState.(timeBucket := now);
      if previousTimeBucket == now && page == [] {
        isLive := true;
        notifierWaiting := true;
        return GoLive;
      }
      action := if isLive then PaceOneSecond else FetchAgain;
    }

    /** `reserve`: when stopped, nothing; otherwise the first open items up to `amount` are taken
        under one fresh delivery id and a redelivery timer is armed for them. When nothing was
        open the caller must wait for events and try again. */
    method Reserve(amount: int) returns (events: seq<Event>, mustWait: bool)
      requires Valid()
      modifies this`buffer, this`nextDeliveryId, this`timers, this`waitingForEvents
      ensures Valid()
      ensures !old(running) ==> events == [] && buffer == old(buffer) && nextDeliveryId == old(nextDeliveryId)
      ensures old(running) ==> (buffer, events) == ReserveScan(old(buffer), amount, old(nextDeliveryId))
                               && nextDeliveryId == old(nextDeliveryId) + 1
      ensures mustWait <==> old(running) && events == []
      ensures waitingForEvents == (old(waitingForEvents) || mustWait)
      ensures timers == old(timers) + (if events != [] then [Timer(EventIds(events), old(nextDeliveryId), acknowledgeTimeoutMs)] else [])
    {
      if !running {
        return [], false;
      }
      var deliveryId := nextDeliveryId;
      nextDeliveryId := nextDeliveryId + 1;
      var newBuffer;
      newBuffer, events := ReserveLoop(buffer, amount, deliveryId);
      ReserveScanWellFormed(buffer, amount, deliveryId);
      buffer := newBuffer;
      if events == [] {
        waitingForEvents := true;
        return events, true;
      }
      timers := timers + [Timer(EventIds(events), deliveryId, acknowledgeTimeoutMs)];
      mustWait := false;
    }

    /** The common tail of a removal: release the fetch loop once below the threshold, write the
        checkpoint, and release a drain wait once the buffer is empty. */
    method AfterRemoval(tail: Option<EventId>)
      modifies this`waitingForThreshold, this`waitingForEmpty, this`stateWrites
      ensures waitingForThreshold == (old(waitingForThreshold) && !BelowThreshold())
      ensures waitingForEmpty == (old(waitingForEmpty) && buffer != [])
      ensures stateWrites == old(stateWrites) + OptionToSeq(CheckpointAfterRemoval(bucketOf, before, hasSetState, tail, buffer))
    {
      if BelowThreshold() {
        waitingForThreshold := false;
      }
      stateWrites := stateWrites + OptionToSeq(UpdateState(bucketOf, before, hasSetState, if buffer == [] then tail else None, buffer));
      if buffer == [] {
        waitingForEmpty := false;
      }
    }

    /** `acknowledge`: when running, removes exactly the listed ids, whatever their status, and
        checkpoints; an empty list still writes the checkpoint. */
    method Acknowledge(ids: seq<EventId>)
      requires Valid()
      modifies this`buffer, this`waitingForThreshold, this`waitingForEmpty, this`stateWrites
      ensures Valid()
      ensures !old(running) ==> buffer == old(buffer) && waitingForThreshold == old(waitingForThreshold)
                                && waitingForEmpty == old(waitingForEmpty) && stateWrites == old(stateWrites)
      ensures old(running) ==>
        && buffer == RemoveListed(old(buffer), ids).kept
        && waitingForThreshold == (old(waitingForThreshold) && !BelowThreshold())
        && waitingForEmpty == (old(waitingForEmpty) && buffer != [])
        && stateWrites == old(stateWrites) + OptionToSeq(CheckpointAfterRemoval(bucketOf, before, hasSetState, LastItemId(old(buffer)), buffer))
    {
      if !running {
        return;
      }
      var lastEventInBuffer := LastItemId(buffer);
      var kept, removed := FilterListed(buffer, ids);
      RemoveListedWellFormed(buffer, ids, nextDeliveryId);
      buffer := kept;
      AfterRemoval(lastEventInBuffer);
    }

    /** `fail`: when running and given ids, removes exactly the listed ids, hands the removed events
        to the failed handler in buffer order (even when none matched), and checkpoints. */
    method Fail(ids: seq<EventId>)
      requires Valid()
      modifies this`buffer, this`waitingForThreshold, this`waitingForEmpty, this`stateWrites, this`failedReports
      ensures Valid()
      ensures !old(running) || ids == [] ==>
        && buffer == old(buffer) && waitingForThreshold == old(waitingForThreshold)
        && waitingForEmpty == old(waitingForEmpty) && stateWrites == old(stateWrites) && failedReports == old(failedReports)
      ensures old(running) && ids != [] ==>
        && buffer == RemoveListed(old(buffer), ids).kept
        && failedReports == old(failedReports) + (if HasFailedHandler() then [RemoveListed(old(buffer), ids).removed] else [])
        && waitingForThreshold == (old(waitingForThreshold) && !BelowThreshold())
        && waitingForEmpty == (old(waitingForEmpty) && buffer != [])
        && stateWrites == old(stateWrites) + OptionToSeq(CheckpointAfterRemoval(bucketOf, before, hasSetState, LastItemId(old(buffer)), buffer))
    {
      if !running || ids == [] {
        return;
      }
      var lastEventInBuffer := LastItemId(buffer);
      var kept, removed := FilterListed(buffer, ids);
      RemoveListedWellFormed(buffer, ids, nextDeliveryId);
      buffer := kept;
      if HasFailedHandler() {
        failedReports := failedReports + [removed];
      }
      AfterRemoval(lastEventInBuffer);
    }

    /** `reOpen`, the redelivery timer's callback. It does not look at `running`. Reopened events
        wake a waiting reserver; events given up on are reported and followed by a removal's
        release and checkpoint, with the last of them as the tail. */
    method ReOpen(ids: seq<EventId>, deliveryId: nat)
      requires Valid()
      modifies this`buffer, this`waitingForEvents, this`waitingForThreshold, this`waitingForEmpty
      modifies this`stateWrites, this`failedReports
      ensures Valid()
      ensures var o := ReOpenScan(old(buffer), ids, deliveryId, maxRedeliveryCount);
        && buffer == o.buffer
        && waitingForEvents == (old(waitingForEvents) && o.reopened == [])
        && (o.failed == [] ==>
              waitingForThreshold == old(waitingForThreshold) && waitingForEmpty == old(waitingForEmpty)
              && stateWrites == old(stateWrites) && failedReports == old(failedReports))
        && (o.failed != [] ==>
              && failedReports == old(failedReports) + (if HasFailedHandler() then [o.failed] else [])
              && waitingForThreshold == (old(waitingForThreshold) && !BelowThreshold())
              && waitingForEmpty == (old(waitingForEmpty) && buffer != [])
              && stateWrites == old(stateWrites) + OptionToSeq(CheckpointAfterRemoval(bucketOf, before, hasSetState, LastEventId(o.failed), buffer)))
    {
      var o := ReOpenLoop(buffer, ids, deliveryId, maxRedeliveryCount);
      ReOpenWellFormed(buffer, ids, deliveryId, maxRedeliveryCount, nextDeliveryId);
      buffer := o.buffer;
      if o.reopened != [] {
        waitingForEvents := false;
      }
      if o.failed == [] {
        return;
      }
      if HasFailedHandler() {
        failedReports := failedReports + [o.failed];
      }
      AfterRemoval(LastEventId(o.failed));
    }

    /** A redelivery timer firing: it is disarmed and reopens its reservation's ids. */
    method FireTimer(k: nat)
      requires Valid() && k < |timers|
      modifies this`timers, this`buffer, this`waitingForEvents, this`waitingForThreshold, this`waitingForEmpty
      modifies this`stateWrites, this`failedReports
      ensures Valid()
      ensures timers == old(timers[..k] + timers[k + 1..])
      ensures var o := ReOpenScan(old(buffer), old(timers[k]).eventIds, old(timers[k]).deliveryId, maxRedeliveryCount);
        && buffer == o.buffer
        && waitingForEvents == (old(waitingForEvents) && o.reopened == [])
        && (o.failed == [] ==>
              waitingForThreshold == old(waitingForThreshold) && waitingForEmpty == old(waitingForEmpty)
              && stateWrites == old(stateWrites) && failedReports == old(failedReports))
        && (o.failed != [] ==>
              && failedReports == old(failedReports) + (if HasFailedHandler() then [o.failed] else [])
              && waitingForThreshold == (old(waitingForThreshold) && !BelowThreshold())
              && waitingForEmpty == (old(waitingForEmpty) && buffer != [])
              && stateWrites == old(stateWrites) + OptionToSeq(CheckpointAfterRemoval(bucketOf, before, hasSetState, LastEventId(o.failed), buffer)))
    {
      var t := timers[k];
      timers := timers[..k] + timers[k + 1..];
      assert forall u :: u in timers ==> u in old(timers);
      ReOpen(t.eventIds, t.deliveryId);
    }

    /** One turn of `processLoop`: reserve up to the processor's concurrency and, when the handler
        succeeds, acknowledge what was reserved; a handler that throws leaves the batch reserved
        until its timer fires. */
    method ProcessOnce(handlerSucceeds: bool) returns (events: seq<Event>, mustWait: bool)
      requires Valid()
      modifies this`buffer, this`nextDeliveryId, this`timers, this`waitingForEvents
      modifies this`waitingForThreshold, this`waitingForEmpty, this`stateWrites
      ensures Valid()
      ensures !old(running) ==>
        && events == [] && !mustWait && buffer == old(buffer) && nextDeliveryId == old(nextDeliveryId)
        && timers == old(timers) && waitingForEvents == old(waitingForEvents)
      ensures old(running) ==>
        var (reserved, taken) := ReserveScan(old(buffer), Concurrency(), old(nextDeliveryId));
        && events == taken
        && nextDeliveryId == old(nextDeliveryId) + 1
        && (mustWait <==> events == [])
        && waitingForEvents == (old(waitingForEvents) || mustWait)
        && timers == old(timers) + (if events != [] then [Timer(EventIds(events), old(nextDeliveryId), acknowledgeTimeoutMs)] else [])
        && (handlerSucceeds && events != [] ==>
              && buffer == RemoveListed(reserved, EventIds(events)).kept
              && waitingForThreshold == (old(waitingForThreshold) && !BelowThreshold())
              && waitingForEmpty == (old(waitingForEmpty) && buffer != [])
              && stateWrites == old(stateWrites) + OptionToSeq(CheckpointAfterRemoval(bucketOf, before, hasSetState, LastItemId(reserved), buffer)))
        && (!(handlerSucceeds && events != []) ==> buffer == reserved)
      ensures !(old(running) && handlerSucceeds && events != []) ==>
        waitingForThreshold == old(waitingForThreshold) && waitingForEmpty == old(waitingForEmpty) && stateWrites == old(stateWrites)
      ensures handlerSucceeds ==> forall x :: x in buffer ==> x.event.eventId !in EventIds(events)
    {
      events, mustWait := Reserve(Concurrency());
      if !mustWait && handlerSucceeds {
        ghost var reserved := buffer;
        Acknowledge(EventIds(events));
        RemoveListedMembers(reserved, EventIds(events));
      }
    }
  }
}
