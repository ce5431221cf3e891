/** `FlowcoreDataSource`, the newer engine's view of the service: cached name-to-id translation
    of the configured tenant, data core, flow type and event types, and the cached bucket listing
    with its closest and next searches. The service's answers are parameters. */
module Source {
  import opened Wrappers
  import opened Buckets

  /** A cached id counts only when it is a non-empty string (the source tests it for truthiness). */
  function ResolveId(cached: Option<string>, noTranslation: bool, name: string, answer: string): (r: string)
    ensures cached.Some? && cached.value != "" ==> r == cached.value
    ensures !(cached.Some? && cached.value != "") && noTranslation ==> r == name
    ensures !(cached.Some? && cached.value != "") && !noTranslation ==> r == answer
  {
    if cached.Some? && cached.value != "" then cached.value
    else if noTranslation then name
    else answer
  }

  /** Once resolved to a non-empty id, later lookups give the same id whatever the service answers. */
  lemma ResolvedIdIsStable(cached: Option<string>, noTranslation: bool, name: string, answer: string, laterAnswer: string)
    requires ResolveId(cached, noTranslation, name, answer) != ""
    ensures ResolveId(Some(ResolveId(cached, noTranslation, name, answer)), noTranslation, name, laterAnswer)
            == ResolveId(cached, noTranslation, name, answer)
  {
  }

  /** One entry of the event-type listing of a flow type. */
  datatype EventTypeEntry = EventTypeEntry(name: string, id: string)

  datatype SourceError = EventTypeNotFound(name: string) | SourceBucketError(error: BucketError)

  /** The id of the first entry of the listing with that name, none when no entry has it. */
  function FindEventTypeId(listing: seq<EventTypeEntry>, name: string): (r: Option<string>)
    ensures r.None? <==> forall k :: 0 <= k < |listing| ==> listing[k].name != name
    ensures r.Some? ==> exists k :: 0 <= k < |listing| && listing[k] == EventTypeEntry(name, r.value)
                                    && forall j :: 0 <= j < k ==> listing[j].name != name
  {
    if listing == [] then None
    else if listing[0].name == name then Some(listing[0].id)
    else
      var r := FindEventTypeId(listing[1..], name);
      assert forall k :: 0 < k < |listing| ==> listing[k] == listing[1..][k - 1];
      if r.Some? then
        ghost var k :| 0 <= k < |listing[1..]| && listing[1..][k] == EventTypeEntry(name, r.value)
                       && forall j :: 0 <= j < k ==> listing[1..][j].name != name;
        assert listing[k + 1] == EventTypeEntry(name, r.value);
        assert forall j :: 0 <= j < k + 1 ==> listing[j].name != name;
        r
      else r
  }

  /** The translation loop of `getEventTypeIds`: the ids of the names, in order, or an error
      naming the first name the listing lacks. */
  function TranslateEventTypes(names: seq<string>, listing: seq<EventTypeEntry>): (r: Result<seq<string>, SourceError>)
    ensures r.Success? ==> |r.value| == |names|
    ensures r.Failure? ==> r.error.EventTypeNotFound? && r.error.name in names
  {
    if names == [] then Success([])
    else
      match FindEventTypeId(listing, names[0])
      case None => Failure(EventTypeNotFound(names[0]))
      case Some(id) =>
        match TranslateEventTypes(names[1..], listing)
        case Failure(e) => Failure(e)
        case Success(ids) => Success([id] + ids)
  }

  /** Translation succeeds exactly when every name is listed, and then gives each name's id at the
      name's position; otherwise it reports the first name not listed. */
  lemma {:induction false} TranslateEventTypesMeaning(names: seq<string>, listing: seq<EventTypeEntry>)
    ensures var r := TranslateEventTypes(names, listing);
      && (r.Success? <==> forall i :: 0 <= i < |names| ==> FindEventTypeId(listing, names[i]).Some?)
      && (r.Success? ==> |r.value| == |names| && forall i :: 0 <= i < |names| ==> r.value[i] == FindEventTypeId(listing, names[i]).value)
      && (r.Failure? ==> exists i :: 0 <= i < |names| && r.error == EventTypeNotFound(names[i])
                           && FindEventTypeId(listing, names[i]).None?
                           && forall j :: 0 <= j < i ==> FindEventTypeId(listing, names[j]).Some?)
    decreases |names|
  {
    if names != [] {
      TranslateEventTypesMeaning(names[1..], listing);
      assert forall i :: 0 < i < |names| ==> names[i] == names[1..][i - 1];
      var r := TranslateEventTypes(names, listing);
      if r.Failure? && FindEventTypeId(listing, names[0]).Some? {
        var rest := TranslateEventTypes(names[1..], listing);
        var i :| 0 <= i < |names[1..]| && rest.error == EventTypeNotFound(names[1..][i])
                 && FindEventTypeId(listing, names[1..][i]).None?
                 && forall j :: 0 <= j < i ==> FindEventTypeId(listing, names[1..][j]).Some?;
        assert forall j :: 0 <= j < i + 1 ==> FindEventTypeId(listing, names[j]).Some? by {
          forall j | 0 < j < i + 1
            ensures FindEventTypeId(listing, names[j]).Some?
          {
            assert names[j] == names[1..][j - 1];
          }
        }
        assert names[i + 1] == names[1..][i];
      }
    }
  }

  /** The `for` loop of `getEventTypeIds`, pushing each found id and throwing at the first name
      not found. */
  method TranslateLoop(names: seq<string>, listing: seq<EventTypeEntry>) returns (r: Result<seq<string>, SourceError>)
    ensures r == TranslateEventTypes(names, listing)
  {
    var ids: seq<string> := [];
    assert names[0..] == names;
    match TranslateEventTypes(names, listing) {
      case Failure(_) =>
      case Success(all) => assert ids + all == all;
    }
    for i := 0 to |names|
      invariant TranslateEventTypes(names, listing) ==
        match TranslateEventTypes(names[i..], listing)
        case Failure(e) => Failure(e)
        case Success(rest) => Success(ids + rest)
    {
      assert names[i..][0] == names[i] && names[i..][1..] == names[i + 1..];
      var found := FindEventTypeId(listing, names[i]);
      if found.None? {
        return Failure(EventTypeNotFound(names[i]));
      }
      match TranslateEventTypes(names[i + 1..], listing) {
        case Failure(_) =>
        case Success(rest) => assert ids + ([found.value] + rest) == (ids + [found.value]) + rest;
      }
      ids := ids + [found.value];
    }
    assert names[|names|..] == [];
    assert ids + [] == ids;
    r := Success(ids);
  }

  /** What `getEventTypeIds` gives from a cache: the cached list, the names themselves without
      translation, or the translation of the names against the flow type's listing. */
  function EventTypeIdsFrom(cached: Option<seq<string>>, noTranslation: bool, names: seq<string>, listing: seq<EventTypeEntry>)
    : (r: Result<seq<string>, SourceError>)
    ensures cached.Some? ==> r == Success(cached.value)
    ensures r.Failure? ==> cached.None? && !noTranslation && r.error.EventTypeNotFound? && r.error.name in names
  {
    if cached.Some? then Success(cached.value)
    else if noTranslation then Success(names)
    else TranslateEventTypes(names, listing)
  }

  /** A bucket search's error, as the data source reports it. */
  function WithSourceError<T>(r: Result<T, BucketError>): Result<T, SourceError> {
    match r
    case Success(v) => Success(v)
    case Failure(e) => Failure(SourceBucketError(e))
  }

  class DataSource {
    const tenant: string
    const dataCore: string
    const flowType: string
    const eventTypes: seq<string>
    const noTranslation: bool

    var tenantId: Option<string>
    var dataCoreId: Option<string>
    var flowTypeId: Option<string>
    var eventTypeIds: Option<seq<string>>
    var timeBuckets: Option<seq<string>>

    constructor (tenant: string, dataCore: string, flowType: string, eventTypes: seq<string>, noTranslation: bool)
      ensures this.tenant == tenant && this.dataCore == dataCore && this.flowType == flowType
      ensures this.eventTypes == eventTypes && this.noTranslation == noTranslation
      ensures tenantId.None? && dataCoreId.None? && flowTypeId.None? && eventTypeIds.None? && timeBuckets.None?
    {
      this.tenant := tenant;
      this.dataCore := dataCore;
      this.flowType := flowType;
      this.eventTypes := eventTypes;
      this.noTranslation := noTranslation;
      tenantId, dataCoreId, flowTypeId := None, None, None;
      eventTypeIds, timeBuckets := None, None;
    }

    /** `getTenantId`; `answer` is the id the translation command returns. */
    method GetTenantId(answer: string) returns (id: string)
      modifies this`tenantId
      ensures id == ResolveId(old(tenantId), noTranslation, tenant, answer)
      ensures tenantId == if old(tenantId).Some? && old(tenantId).value != "" then old(tenantId) else Some(id)
    {
      if tenantId.Some? && tenantId.value != "" {
        return tenantId.value;
      }
      tenantId := Some(if noTranslation then tenant else answer);
      id := tenantId.value;
    }

    /** `getDataCoreId`; `answer` is the id the data core fetch returns. */
    method GetDataCoreId(answer: string) returns (id: string)
      modifies this`dataCoreId
      ensures id == ResolveId(old(dataCoreId), noTranslation, dataCore, answer)
      ensures dataCoreId == if old(dataCoreId).Some? && old(dataCoreId).value != "" then old(dataCoreId) else Some(id)
    {
      if dataCoreId.Some? && dataCoreId.value != "" {
        return dataCoreId.value;
      }
      dataCoreId := Some(if noTranslation then dataCore else answer);
      id := dataCoreId.value;
    }

    /** `getFlowTypeId`; translating first resolves the data core id it asks under. */
    method GetFlowTypeId(dataCoreAnswer: string, answer: string) returns (id: string)
      modifies this`dataCoreId, this`flowTypeId
      ensures id == ResolveId(old(flowTypeId), noTranslation, flowType, answer)
      ensures flowTypeId == if old(flowTypeId).Some? && old(flowTypeId).value != "" then old(flowTypeId) else Some(id)
      ensures (old(flowTypeId).Some? && old(flowTypeId).value != "") || noTranslation ==> dataCoreId == old(dataCoreId)
      ensures !(old(flowTypeId).Some? && old(flowTypeId).value != "") && !noTranslation ==>
        dataCoreId == Some(ResolveId(old(dataCoreId), noTranslation, dataCore, dataCoreAnswer))
    {
      if flowTypeId.Some? && flowTypeId.value != "" {
        return flowTypeId.value;
      }
      if noTranslation {
        flowTypeId := Some(flowType);
      } else {
        var _ := GetDataCoreId(dataCoreAnswer);
        flowTypeId := Some(answer);
      }
      id := flowTypeId.value;
    }

    /** `getEventTypeIds`: the cached list when there is one (even an empty one); the names
        themselves without translation; otherwise each name's id from the flow type's listing,
        failing on the first name the listing lacks, in which case nothing is cached. */
    method GetEventTypeIds(dataCoreAnswer: string, flowTypeAnswer: string, listing: seq<EventTypeEntry>)
      returns (r: Result<seq<string>, SourceError>)
      modifies this`dataCoreId, this`flowTypeId, this`eventTypeIds
      ensures old(eventTypeIds).Some? ==> r == Success(old(eventTypeIds).value) && eventTypeIds == old(eventTypeIds)
      ensures old(eventTypeIds).None? && noTranslation ==> r == Success(eventTypes) && eventTypeIds == Some(eventTypes)
      ensures old(eventTypeIds).None? && !noTranslation ==>
        r == TranslateEventTypes(eventTypes, listing)
        && eventTypeIds == (if r.Success? then Some(r.value) else None)
      ensures r.Success? ==> eventTypeIds == Some(r.value)
      ensures r == EventTypeIdsFrom(old(eventTypeIds), noTranslation, eventTypes, listing)
      ensures CachedByGetEventTypeIds(old(eventTypeIds), old(flowTypeId), old(dataCoreId), dataCoreAnswer, flowTypeAnswer, listing)
      ensures old(eventTypeIds).Some? || noTranslation ==> dataCoreId == old(dataCoreId) && flowTypeId == old(flowTypeId)
      ensures old(eventTypeIds).None? && !noTranslation ==>
        var flowCached := old(flowTypeId).Some? && old(flowTypeId).value != "";
        && flowTypeId == (if flowCached then old(flowTypeId) else Some(flowTypeAnswer))
        && dataCoreId == (if flowCached then old(dataCoreId) else Some(ResolveId(old(dataCoreId), false, dataCore, dataCoreAnswer)))
    {
      if eventTypeIds.Some? {
        return Success(eventTypeIds.value);
      }
      if noTranslation {
        eventTypeIds := Some(eventTypes);
      } else {
        var _ := GetFlowTypeId(dataCoreAnswer, flowTypeAnswer);
        var translated := TranslateLoop(eventTypes, listing);
        if translated.Failure? {
          return translated;
        }
        eventTypeIds := Some(translated.value);
      }
      r := Success(eventTypeIds.value);
    }

    /** The id caches after `getEventTypeIds` ran from the caches `ids0`, `flow0` and `core0`: the
        event-type ids are cached when the call succeeds; translating from an empty cache resolves
        and caches the flow type id and, when that was not cached, the data core id, whether or
        not the translation then succeeds; otherwise those two ids stay as they were. */
    ghost predicate CachedByGetEventTypeIds(ids0: Option<seq<string>>, flow0: Option<string>, core0: Option<string>,
                                            dataCoreAnswer: string, flowTypeAnswer: string, listing: seq<EventTypeEntry>)
      reads this
    {
      var r := EventTypeIdsFrom(ids0, noTranslation, eventTypes, listing);
      var flowCached := flow0.Some? && flow0.value != "";
      && eventTypeIds == (if r.Success? then Some(r.value) else ids0)
      && (ids0.Some? || noTranslation ==> dataCoreId == core0 && flowTypeId == flow0)
      && (ids0.None? && !noTranslation ==>
            && flowTypeId == (if flowCached then flow0 else Some(flowTypeAnswer))
            && dataCoreId == (if flowCached then core0 else Some(ResolveId(core0, false, dataCore, dataCoreAnswer))))
    }

    /** `getTimeBuckets`: the cached listing unless forced or absent; otherwise the pages' buckets
        in order, requested with the previous page's cursor, and cached. `pages` are the answers.
        Every page request carries the event-type ids: the first `getEventTypeIds` call either
        fails, before any request is sent, and the listing fails with it, or caches the ids, so
        the calls for later pages give the cache and change nothing. */
    method GetTimeBuckets(force: bool, pages: seq<Page>, dataCoreAnswer: string, flowTypeAnswer: string, listing: seq<EventTypeEntry>)
      returns (r: Result<seq<string>, SourceError>, requests: seq<Option<int>>)
      requires force || timeBuckets.None? ==> PagingEnds(pages)
      modifies this`timeBuckets, this`dataCoreId, this`flowTypeId, this`eventTypeIds
      ensures old(timeBuckets).Some? && !force ==>
        && r == Success(old(timeBuckets).value) && requests == [] && timeBuckets == old(timeBuckets)
        && eventTypeIds == old(eventTypeIds) && flowTypeId == old(flowTypeId) && dataCoreId == old(dataCoreId)
      ensures old(timeBuckets).None? || force ==>
        var ids := EventTypeIdsFrom(old(eventTypeIds), noTranslation, eventTypes, listing);
        && CachedByGetEventTypeIds(old(eventTypeIds), old(flowTypeId), old(dataCoreId), dataCoreAnswer, flowTypeAnswer, listing)
        && (ids.Failure? ==> r == Failure(ids.error) && requests == [] && timeBuckets == old(timeBuckets))
        && (ids.Success? ==>
              && r == Success(ConcatPages(pages)) && timeBuckets == Some(r.value) && |requests| == FirstEnd(pages) + 1
              && requests[0] == None && forall j :: 0 < j < |requests| ==> requests[j] == RequestCursor(pages[j - 1].nextCursor))
    {
      if timeBuckets.Some? && !force {
        return Success(timeBuckets.value), [];
      }
      var ids := GetEventTypeIds(dataCoreAnswer, flowTypeAnswer, listing);
      if ids.Failure? {
        return Failure(ids.error), [];
      }
      var buckets;
      buckets, requests := CollectPages(pages);
      timeBuckets := Some(buckets);
      r := Success(buckets);
    }

    /** `getClosestTimeBucket`: the listing (fetched when not cached, before the key is checked),
        then the closest search. */
    method GetClosestTimeBucket(target: string, before: bool, pages: seq<Page>,
                                dataCoreAnswer: string, flowTypeAnswer: string, listing: seq<EventTypeEntry>)
      returns (r: Result<Option<string>, SourceError>)
      requires timeBuckets.None? ==> PagingEnds(pages)
      modifies this`timeBuckets, this`dataCoreId, this`flowTypeId, this`eventTypeIds
      ensures old(timeBuckets).Some? ==>
        && timeBuckets == old(timeBuckets)
        && eventTypeIds == old(eventTypeIds) && flowTypeId == old(flowTypeId) && dataCoreId == old(dataCoreId)
      ensures old(timeBuckets).None? ==>
        var ids := EventTypeIdsFrom(old(eventTypeIds), noTranslation, eventTypes, listing);
        && CachedByGetEventTypeIds(old(eventTypeIds), old(flowTypeId), old(dataCoreId), dataCoreAnswer, flowTypeAnswer, listing)
        && (ids.Failure? ==> r == Failure(ids.error) && timeBuckets.None?)
        && (ids.Success? ==> timeBuckets == Some(ConcatPages(pages)))
      ensures timeBuckets.Some? ==> r == WithSourceError(ClosestTimeBucket(timeBuckets.value, target, before))
    {
      var buckets, _ := GetTimeBuckets(false, pages, dataCoreAnswer, flowTypeAnswer, listing);
      if buckets.Failure? {
        return Failure(buckets.error);
      }
      r := WithSourceError(ClosestTimeBucket(buckets.value, target, before));
    }

    /** `getNextTimeBucket`: the bucket after the closest one in the (cached) listing. */
    method GetNextTimeBucket(current: string, pages: seq<Page>,
                             dataCoreAnswer: string, flowTypeAnswer: string, listing: seq<EventTypeEntry>)
      returns (r: Result<Option<string>, SourceError>)
      requires timeBuckets.None? ==> PagingEnds(pages)
      modifies this`timeBuckets, this`dataCoreId, this`flowTypeId, this`eventTypeIds
      ensures old(timeBuckets).Some? ==>
        && timeBuckets == old(timeBuckets)
        && eventTypeIds == old(eventTypeIds) && flowTypeId == old(flowTypeId) && dataCoreId == old(dataCoreId)
      ensures old(timeBuckets).None? ==>
        var ids := EventTypeIdsFrom(old(eventTypeIds), noTranslation, eventTypes, listing);
        && CachedByGetEventTypeIds(old(eventTypeIds), old(flowTypeId), old(dataCoreId), dataCoreAnswer, flowTypeAnswer, listing)
        && (ids.Failure? ==> r == Failure(ids.error) && timeBuckets.None?)
        && (ids.Success? ==> timeBuckets == Some(ConcatPages(pages)))
      ensures timeBuckets.Some? ==> r == WithSourceError(NextTimeBucket(timeBuckets.value, current))
    {
      var closest := GetClosestTimeBucket(current, false, pages, dataCoreAnswer, flowTypeAnswer, listing);
      if closest.Failure? {
        return Failure(closest.error);
      }
      if closest.value.None? || closest.value.value == "" {
        return Success(None);
      }
      var buckets, _ := GetTimeBuckets(false, pages, dataCoreAnswer, flowTypeAnswer, listing);
      var index := IndexOf(buckets.value, closest.value.value);
      if index == -1 {
        return Failure(SourceBucketError(BucketNotFound(current)));
      }
      r := Success(if index + 1 < |buckets.value| then Some(buckets.value[index + 1]) else None);
    }
  }
}
