/** Time-bucket keys ("YYYYMMDDHH0000") and the searches both engines and the data source run
    over the ascending list of buckets that the service returns. */
module Buckets {
  import opened Wrappers

  predicate IsDigit(c: char) {
    '0' <= c <= '9'
  }

  predicate AllDigits(s: string) {
    forall i :: 0 <= i < |s| ==> IsDigit(s[i])
  }

  /** The check `/^\d{14}$/` that guards every closest-bucket search. */
  predicate IsBucketKey(s: string) {
    |s| == 14 && AllDigits(s)
  }

  function Pow10(n: nat): (r: nat)
    ensures r >= 1
  {
    if n == 0 then 1 else 10 * Pow10(n - 1)
  }

  function DigitValue(c: char): (d: nat)
    requires IsDigit(c)
    ensures d < 10
  {
    (c as int) - ('0' as int)
  }

  lemma MulMono(x: nat, y: nat, p: nat)
    requires x <= y
    ensures x * p <= y * p
  {
  }

  /** A leading digit `d` in front of a lower part `rest < p` stays below `10 * p`. */
  lemma DigitBound(d: nat, p: nat, rest: nat)
    requires d < 10 && rest < p
    ensures d * p + rest < 10 * p
  {
    MulMono(d + 1, 10, p);
    assert (d + 1) * p == d * p + p;
  }

  /** The number a string of decimal digits denotes, most significant digit first. */
  function DigitsValue(s: string): (v: nat)
    requires AllDigits(s)
    ensures v < Pow10(|s|)
  {
    if s == [] then 0
    else
      var p := Pow10(|s| - 1);
      var rest := DigitsValue(s[1..]);
      DigitBound(DigitValue(s[0]), p, rest);
      DigitValue(s[0]) * p + rest
  }

  /** `Number.parseFloat` restricted to bucket keys and other runs of digits, where it gives their
      decimal value (exact for a 14-digit key, which is below 2^53). Any other string gives None
      here; JavaScript would still parse a numeric prefix of it. */
  function ParseNumber(s: string): (r: Option<nat>)
    ensures r.Some? <==> |s| > 0 && AllDigits(s)
    ensures r.Some? ==> r.value == DigitsValue(s)
  {
    if |s| > 0 && AllDigits(s) then Some(DigitsValue(s)) else None
  }

  /** Whether a listed bucket is at or after a target that passed the key check, compared as
      numbers; a bucket that is not a run of digits compares false. */
  predicate AtOrAfter(t: string, target: string)
    requires IsBucketKey(target)
  {
    ParseNumber(t).Some? && ParseNumber(t).value >= DigitsValue(target)
  }

  /** Whether a listed bucket is at or before the target, compared as numbers. */
  predicate AtOrBefore(t: string, target: string)
    requires IsBucketKey(target)
  {
    ParseNumber(t).Some? && ParseNumber(t).value <= DigitsValue(target)
  }

  /** JavaScript's `a < b` on strings: lexicographic order of the characters. */
  predicate LexLess(a: string, b: string)
    decreases |a|
  {
    if a == [] then b != []
    else if b == [] then false
    else if a[0] != b[0] then a[0] < b[0]
    else LexLess(a[1..], b[1..])
  }

  /** Two digit strings of the same length: a smaller leading digit decides the order. */
  lemma LeadingDigitDecides(da: nat, db: nat, ra: nat, rb: nat, p: nat)
    requires da < db && ra < p
    ensures da * p + ra < db * p + rb
  {
    MulMono(da + 1, db, p);
    assert (da + 1) * p == da * p + p;
  }

  /** On digit strings of equal length (bucket keys), JavaScript's string order is the numeric
      order that `Number.parseFloat` gives: the newer engine compares buckets with `>=` on strings,
      the data source with `parseFloat`, and the two agree. */
  lemma {:induction false} LexLessIsNumericLess(a: string, b: string)
    requires |a| == |b| && AllDigits(a) && AllDigits(b)
    ensures LexLess(a, b) <==> DigitsValue(a) < DigitsValue(b)
    decreases |a|
  {
    if a != [] {
      var p := Pow10(|a| - 1);
      var ra, rb := DigitsValue(a[1..]), DigitsValue(b[1..]);
      var da, db := DigitValue(a[0]), DigitValue(b[0]);
      assert DigitsValue(a) == da * p + ra;
      assert DigitsValue(b) == db * p + rb;
      if a[0] == b[0] {
        LexLessIsNumericLess(a[1..], b[1..]);
      } else if a[0] < b[0] {
        LeadingDigitDecides(da, db, ra, rb, p);
      } else {
        LeadingDigitDecides(db, da, rb, ra, p);
      }
    }
  }

  /** The bucket keys of a list are valid and strictly ascending, as the service lists them. */
  ghost predicate StrictlyAscending(buckets: seq<string>) {
    && (forall i :: 0 <= i < |buckets| ==> IsBucketKey(buckets[i]))
    && (forall i, j :: 0 <= i < j < |buckets| ==> DigitsValue(buckets[i]) < DigitsValue(buckets[j]))
  }

  /** The default-mode search: the index of the first bucket at or after the target. */
  function FindFirstAtOrAfter(buckets: seq<string>, target: string): (r: Option<nat>)
    requires IsBucketKey(target)
    ensures r.Some? ==> r.value < |buckets| && AtOrAfter(buckets[r.value], target)
    ensures r.Some? ==> forall j :: 0 <= j < r.value ==> !AtOrAfter(buckets[j], target)
    ensures r.None? ==> forall j :: 0 <= j < |buckets| ==> !AtOrAfter(buckets[j], target)
  {
    if buckets == [] then None
    else if AtOrAfter(buckets[0], target) then Some(0)
    else
      match FindFirstAtOrAfter(buckets[1..], target)
      case None => None
      case Some(k) => Some(k + 1)
  }

  /** The "before"-mode search: the index of the last bucket at or before the target among the
      first `upTo` buckets. */
  function FindLastAtOrBefore(buckets: seq<string>, target: string, upTo: nat): (r: Option<nat>)
    requires IsBucketKey(target) && upTo <= |buckets|
    ensures r.Some? ==> r.value < upTo && AtOrBefore(buckets[r.value], target)
    ensures r.Some? ==> forall j :: r.value < j < upTo ==> !AtOrBefore(buckets[j], target)
    ensures r.None? ==> forall j :: 0 <= j < upTo ==> !AtOrBefore(buckets[j], target)
  {
    if upTo == 0 then None
    else if AtOrBefore(buckets[upTo - 1], target) then Some(upTo - 1)
    else FindLastAtOrBefore(buckets, target, upTo - 1)
  }

  datatype BucketError = InvalidTimeBucket(key: string) | BucketNotFound(key: string)

  /** `getClosestTimeBucket(timeBucket, getBefore)` of the data source, over its cached list. */
  function ClosestTimeBucket(buckets: seq<string>, target: string, before: bool): (r: Result<Option<string>, BucketError>)
    ensures r.Failure? <==> !IsBucketKey(target)
    ensures r.Failure? ==> r.error == InvalidTimeBucket(target)
    ensures r.Success? ==> (r.value.None? <==> buckets == [])
    ensures r.Success? && r.value.Some? ==> r.value.value in buckets
  {
    if !IsBucketKey(target) then Failure(InvalidTimeBucket(target))
    else
      var found := if before then FindLastAtOrBefore(buckets, target, |buckets|) else FindFirstAtOrAfter(buckets, target);
      if found.Some? then Success(Some(buckets[found.value]))
      else if buckets == [] then Success(None)
      else Success(Some(buckets[|buckets| - 1]))
  }

  /** On an ascending list the default search gives the smallest bucket at or after the target,
      or, when every bucket is earlier than the target, the last bucket. */
  lemma ClosestAfterOnAscendingList(buckets: seq<string>, target: string)
    requires StrictlyAscending(buckets) && IsBucketKey(target) && buckets != []
    ensures ClosestTimeBucket(buckets, target, false).Success?
    ensures ClosestTimeBucket(buckets, target, false).value.Some?
    ensures var c := ClosestTimeBucket(buckets, target, false).value.value;
      || (&& DigitsValue(c) >= DigitsValue(target)
          && forall i :: 0 <= i < |buckets| && DigitsValue(buckets[i]) >= DigitsValue(target) ==> DigitsValue(c) <= DigitsValue(buckets[i]))
      || (&& c == buckets[|buckets| - 1]
          && forall i :: 0 <= i < |buckets| ==> DigitsValue(buckets[i]) < DigitsValue(target))
  {
    var f := FindFirstAtOrAfter(buckets, target);
    var c := ClosestTimeBucket(buckets, target, false).value.value;
    if f.Some? {
      assert c == buckets[f.value];
      forall i | 0 <= i < |buckets| && DigitsValue(buckets[i]) >= DigitsValue(target)
        ensures DigitsValue(c) <= DigitsValue(buckets[i])
      {
        assert AtOrAfter(buckets[i], target);
        if i != f.value {
          assert f.value < i;
          assert DigitsValue(buckets[f.value]) < DigitsValue(buckets[i]);
        }
      }
    } else {
      assert c == buckets[|buckets| - 1];
      forall i | 0 <= i < |buckets|
        ensures DigitsValue(buckets[i]) < DigitsValue(target)
      {
        assert !AtOrAfter(buckets[i], target);
      }
    }
  }

  /** In "before" mode the search gives the largest bucket at or before the target, or, when every
      bucket is later than the target, the last bucket (not the first). */
  lemma ClosestBeforeOnAscendingList(buckets: seq<string>, target: string)
    requires StrictlyAscending(buckets) && IsBucketKey(target) && buckets != []
    ensures ClosestTimeBucket(buckets, target, true).Success?
    ensures ClosestTimeBucket(buckets, target, true).value.Some?
    ensures var c := ClosestTimeBucket(buckets, target, true).value.value;
      || (&& DigitsValue(c) <= DigitsValue(target)
          && forall i :: 0 <= i < |buckets| && DigitsValue(buckets[i]) <= DigitsValue(target) ==> DigitsValue(c) >= DigitsValue(buckets[i]))
      || (&& c == buckets[|buckets| - 1]
          && forall i :: 0 <= i < |buckets| ==> DigitsValue(buckets[i]) > DigitsValue(target))
  {
    var f := FindLastAtOrBefore(buckets, target, |buckets|);
    var c := ClosestTimeBucket(buckets, target, true).value.value;
    if f.Some? {
      assert c == buckets[f.value];
      forall i | 0 <= i < |buckets| && DigitsValue(buckets[i]) <= DigitsValue(target)
        ensures DigitsValue(c) >= DigitsValue(buckets[i])
      {
        assert AtOrBefore(buckets[i], target);
        if i != f.value {
          assert i < f.value;
          assert DigitsValue(buckets[i]) < DigitsValue(buckets[f.value]);
        }
      }
    } else {
      assert c == buckets[|buckets| - 1];
      forall i | 0 <= i < |buckets|
        ensures DigitsValue(buckets[i]) > DigitsValue(target)
      {
        assert !AtOrBefore(buckets[i], target);
      }
    }
  }

  /** A bucket that is in an ascending list is its own closest bucket, in both modes. */
  lemma ClosestOfListedBucket(buckets: seq<string>, i: nat, before: bool)
    requires StrictlyAscending(buckets) && i < |buckets|
    ensures ClosestTimeBucket(buckets, buckets[i], before) == Success(Some(buckets[i]))
  {
    var target := buckets[i];
    if !before {
      var f := FindFirstAtOrAfter(buckets, target);
      assert AtOrAfter(buckets[i], target);
      assert f.Some? && f.value <= i;
      assert DigitsValue(buckets[f.value]) >= DigitsValue(target) == DigitsValue(buckets[i]);
    } else {
      var f := FindLastAtOrBefore(buckets, target, |buckets|);
      assert AtOrBefore(buckets[i], target);
      assert f.Some? && f.value >= i;
      assert DigitsValue(buckets[f.value]) <= DigitsValue(target) == DigitsValue(buckets[i]);
    }
  }

  /** `Array.prototype.indexOf`: the first index holding x, or -1. */
  function IndexOf(s: seq<string>, x: string): (r: int)
    ensures -1 <= r < |s|
    ensures r == -1 <==> x !in s
    ensures r >= 0 ==> s[r] == x && forall j :: 0 <= j < r ==> s[j] != x
  {
    if s == [] then -1
    else if s[0] == x then 0
    else
      var k := IndexOf(s[1..], x);
      if k == -1 then -1 else k + 1
  }

  /** `getNextTimeBucket(timeBucket)`: the bucket after the closest one, or none. The
      "not found" error of the source cannot happen: the closest bucket comes from the list. */
  function NextTimeBucket(buckets: seq<string>, current: string): (r: Result<Option<string>, BucketError>)
    ensures r.Failure? <==> !IsBucketKey(current)
    ensures r.Failure? ==> r.error == InvalidTimeBucket(current)
    ensures r.Success? && r.value.Some? ==> r.value.value in buckets
  {
    match ClosestTimeBucket(buckets, current, false)
    case Failure(e) => Failure(e)
    case Success(None) => Success(None)
    case Success(Some(c)) =>
      if c == "" then Success(None)
      else
      var k := IndexOf(buckets, c);
      if k < 0 then Failure(BucketNotFound(current))
      else if k + 1 < |buckets| then Success(Some(buckets[k + 1]))
      else Success(None)
  }

  /** Walking an ascending list: from a listed bucket the walker moves to the one right after it,
      and from any key the next bucket is strictly later, so buckets are visited in ascending order. */
  lemma NextOnAscendingList(buckets: seq<string>, current: string)
    requires StrictlyAscending(buckets) && IsBucketKey(current)
    ensures forall i :: 0 <= i < |buckets| && buckets[i] == current ==>
      NextTimeBucket(buckets, current) == Success(if i + 1 < |buckets| then Some(buckets[i + 1]) else None)
    ensures var r := NextTimeBucket(buckets, current);
      r.Success? && (r.value.Some? ==> DigitsValue(r.value.value) > DigitsValue(current))
  {
    forall i | 0 <= i < |buckets| && buckets[i] == current
      ensures NextTimeBucket(buckets, current) == Success(if i + 1 < |buckets| then Some(buckets[i + 1]) else None)
    {
      ClosestOfListedBucket(buckets, i, false);
      var k := IndexOf(buckets, current);
      assert DigitsValue(buckets[k]) == DigitsValue(buckets[i]);
    }
    if buckets != [] {
      ClosestAfterOnAscendingList(buckets, current);
      var c := ClosestTimeBucket(buckets, current, false).value.value;
      var k := IndexOf(buckets, c);
      if k + 1 < |buckets| {
        assert DigitsValue(buckets[k]) < DigitsValue(buckets[|buckets| - 1]);
        assert DigitsValue(buckets[k]) < DigitsValue(buckets[k + 1]);
      }
    }
  }

  /** The older engine's `timeBuckets` view: the cached list with the bucket of "now" appended
      unless it is already the last one. */
  function WithNowBucket(cached: seq<string>, now: string): (r: seq<string>)
    ensures |r| > 0 && r[|r| - 1] == now
    ensures |r| >= |cached| && r[..|cached|] == cached
    ensures r == cached <==> (|cached| > 0 && cached[|cached| - 1] == now)
    ensures r != cached ==> r == cached + [now]
  {
    if |cached| > 0 && cached[|cached| - 1] == now then cached else cached + [now]
  }

  /** The older engine's `getClosestTimeBucket`: the data source's default search over the view,
      which is never empty, so it always yields a bucket for a valid key. */
  function ViewClosestTimeBucket(cached: seq<string>, now: string, target: string): (r: Result<string, BucketError>)
    ensures r.Failure? <==> !IsBucketKey(target)
    ensures r.Success? ==> r.value in WithNowBucket(cached, now)
  {
    if !IsBucketKey(target) then Failure(InvalidTimeBucket(target))
    else
      var view := WithNowBucket(cached, now);
      match FindFirstAtOrAfter(view, target)
      case Some(k) => Success(view[k])
      case None => Success(view[|view| - 1])
  }

  /** The two generations pick the same bucket: the older search is the newer default-mode search
      run on the view that has "now" appended. */
  lemma ViewClosestAgrees(cached: seq<string>, now: string, target: string)
    ensures match ViewClosestTimeBucket(cached, now, target)
      case Success(c) => ClosestTimeBucket(WithNowBucket(cached, now), target, false) == Success(Some(c))
      case Failure(e) => ClosestTimeBucket(WithNowBucket(cached, now), target, false) == Failure(e)
  {
  }

  /** One page of the bucket listing: its buckets and the cursor of the next page, if any. */
  datatype Page = Page(timeBuckets: seq<string>, nextCursor: Option<int>)

  /** The listing ends: some page comes back without a next cursor. */
  predicate PagingEnds(pages: seq<Page>) {
    exists k :: 0 <= k < |pages| && pages[k].nextCursor.None?
  }

  /** The buckets of the pages in order, up to and including the first page without a cursor. */
  function ConcatPages(pages: seq<Page>): (r: seq<string>)
    requires PagingEnds(pages)
    ensures |r| >= |pages[0].timeBuckets| && r[..|pages[0].timeBuckets|] == pages[0].timeBuckets
    decreases |pages|
  {
    if pages[0].nextCursor.None? then pages[0].timeBuckets
    else
      var k :| 0 <= k < |pages| && pages[k].nextCursor.None?;
      assert pages[1..][k - 1] == pages[k];
      pages[0].timeBuckets + ConcatPages(pages[1..])
  }

  lemma PagingEndsTail(pages: seq<Page>)
    requires PagingEnds(pages) && pages[0].nextCursor.Some?
    ensures PagingEnds(pages[1..])
  {
    var k :| 0 <= k < |pages| && pages[k].nextCursor.None?;
    assert pages[1..][k - 1] == pages[k];
  }

  /** The index of the last page requested: the first one without a next cursor. */
  function FirstEnd(pages: seq<Page>): (k: nat)
    requires PagingEnds(pages)
    ensures k < |pages| && pages[k].nextCursor.None?
    ensures forall j :: 0 <= j < k ==> pages[j].nextCursor.Some?
    decreases |pages|
  {
    if pages[0].nextCursor.None? then 0
    else
      PagingEndsTail(pages);
      1 + FirstEnd(pages[1..])
  }

  lemma ConcatPagesStep(pages: seq<Page>)
    requires PagingEnds(pages)
    ensures pages[0].nextCursor.None? ==> ConcatPages(pages) == pages[0].timeBuckets && FirstEnd(pages) == 0
    ensures pages[0].nextCursor.Some? ==>
      PagingEnds(pages[1..]) && ConcatPages(pages) == pages[0].timeBuckets + ConcatPages(pages[1..])
      && FirstEnd(pages) == 1 + FirstEnd(pages[1..])
  {
    if pages[0].nextCursor.Some? {
      PagingEndsTail(pages);
    }
  }

  /** One step of the listing at page `k`, seen from a loop that has collected `before`. */
  lemma ConcatPagesAt(pages: seq<Page>, k: nat, before: seq<string>)
    requires k < |pages| && PagingEnds(pages[k..])
    ensures pages[k].nextCursor.None? ==>
      before + ConcatPages(pages[k..]) == before + pages[k].timeBuckets && FirstEnd(pages[k..]) == 0
    ensures pages[k].nextCursor.Some? ==>
      && k + 1 < |pages| && PagingEnds(pages[k + 1..])
      && before + ConcatPages(pages[k..]) == (before + pages[k].timeBuckets) + ConcatPages(pages[k + 1..])
      && FirstEnd(pages[k..]) == 1 + FirstEnd(pages[k + 1..])
  {
    var rest := pages[k..];
    assert rest[0] == pages[k];
    ConcatPagesStep(rest);
    if pages[k].nextCursor.Some? {
      assert rest[1..] == pages[k + 1..];
      assert before + (pages[k].timeBuckets + ConcatPages(rest[1..])) == (before + pages[k].timeBuckets) + ConcatPages(rest[1..]);
    }
  }

  /** A loop over the pages has requested the pages before `k` and collected their buckets. */
  ghost predicate Collected(pages: seq<Page>, k: nat, collected: seq<string>) {
    k < |pages| && PagingEnds(pages[k..]) && collected + ConcatPages(pages[k..]) == ConcatPages(pages)
  }

  /** Collecting page `k`: either the listing goes on at `k + 1`, or it is complete. */
  lemma CollectedStep(pages: seq<Page>, k: nat, collected: seq<string>)
    requires Collected(pages, k, collected)
    ensures pages[k].nextCursor.Some? ==>
      Collected(pages, k + 1, collected + pages[k].timeBuckets) && FirstEnd(pages[k..]) == 1 + FirstEnd(pages[k + 1..])
    ensures pages[k].nextCursor.None? ==> collected + pages[k].timeBuckets == ConcatPages(pages) && FirstEnd(pages[k..]) == 0
  {
    ConcatPagesAt(pages, k, collected);
  }

  /** The cursor a page request carries: `cursor || undefined`, so a cursor of 0 is sent as none. */
  function RequestCursor(c: Option<int>): (r: Option<int>)
    ensures r.Some? <==> c.Some? && c.value != 0
    ensures r.Some? ==> r == c
  {
    if c.Some? && c.value != 0 then c else None
  }

  /** The cursors of the first `n` page requests: none for the first, then the cursor of the
      answer before, as `cursor || undefined` sends it. */
  function Requests(pages: seq<Page>, n: nat): (r: seq<Option<int>>)
    requires n <= |pages|
    ensures |r| == n
    ensures n > 0 ==> r[0] == None
    ensures forall j :: 0 < j < n ==> r[j] == RequestCursor(pages[j - 1].nextCursor)
  {
    if n == 0 then []
    else Requests(pages, n - 1) + [if n == 1 then None else RequestCursor(pages[n - 2].nextCursor)]
  }

  /** The do-while of the data source's `getTimeBuckets`: request a page with the cursor of the
      previous answer (none for the first), append its buckets, and stop after the first answer
      without a cursor. `pages` are the successive answers. */
  method CollectPages(pages: seq<Page>) returns (buckets: seq<string>, requests: seq<Option<int>>)
    requires PagingEnds(pages)
    ensures buckets == ConcatPages(pages)
    ensures |requests| == FirstEnd(pages) + 1
    ensures requests == Requests(pages, FirstEnd(pages) + 1)
  {
    buckets, requests := [], [];
    var cursor: Option<int> := None;
    var k := 0;
    assert pages[0..] == pages && [] + ConcatPages(pages) == ConcatPages(pages);
    while true
      invariant Collected(pages, k, buckets)
      invariant FirstEnd(pages) == k + FirstEnd(pages[k..])
      invariant requests == Requests(pages, k)
      invariant k == 0 ==> cursor.None?
      invariant k > 0 ==> cursor == pages[k - 1].nextCursor
      decreases |pages| - k
    {
      CollectedStep(pages, k, buckets);
      requests := requests + [RequestCursor(cursor)];
      var page := pages[k];
      buckets := buckets + page.timeBuckets;
      cursor := page.nextCursor;
      if cursor.None? {
        return;
      }
      assert cursor == pages[k].nextCursor;
      k := k + 1;
    }
  }
}
