/** What the rate limiter and the history promise across calls. */
module SuperscaleProperties {
  import opened Wrappers
  import opened Text
  import opened JsMath
  import opened Superscale

  /** The stored count never exceeds the maximum, if it did not before. */
  predicate CountWithinLimit(store: Store) {
    store.rateLimit.Some? ==> store.rateLimit.value.count <= RateLimitMax
  }

  /** Counting a request gives the count of the still-open window plus one
      (a closed window counts as empty); a closed window is replaced by one
      ending an hour from `now`, an open one keeps its end, so the counted
      window always contains `now`. */
  lemma UpdateCountsOneRequest(store: Store, now: int)
    ensures var before := GetRateLimitInfo(store, now);
      var after := UpdateRateLimit(store, now).rateLimit.value;
      && after.count == (if now > before.resetTime then 0 else before.count) + 1
      && after.resetTime == (if now > before.resetTime then now + RateLimitPeriod else before.resetTime)
      && now <= after.resetTime
  {
  }

  /** A window that ends at most an hour after `now` still does so once the
      request is counted: counting never pushes the reset further out. */
  lemma CountedWindowWithinAnHour(store: Store, now: int)
    requires GetRateLimitInfo(store, now).resetTime <= now + RateLimitPeriod
    ensures UpdateRateLimit(store, now).rateLimit.value.resetTime <= now + RateLimitPeriod
  {
  }

  /** A limited call records an error carrying the reset text, even when the
      same request is in the cache, and leaves the window untouched. */
  lemma LimitedCallRecordsError(store: Store, imageUrl: string, resize: int, anime: bool, now: int, outcome: FetchOutcome)
    requires IsRateLimited(store, now)
    ensures var (after, res) := SuperscaleImage(store, imageUrl, resize, anime, now, outcome);
      && res.status == StatusError
      && res.error == Some("Rate limit tercapai. Coba lagi dalam " + ResetTimeText(store, now) + ".")
      && after.rateLimit == store.rateLimit
      && after.history[0] == res
  {
  }

  /** A cache hit returns the first matching record, whatever its status, and
      changes neither the count nor the history. */
  lemma CacheHitChangesNothing(store: Store, imageUrl: string, resize: int, anime: bool, now: int, outcome: FetchOutcome)
    requires !IsRateLimited(store, now)
    requires FindCached(store.history, imageUrl, resize, anime).Some?
    ensures SuperscaleImage(store, imageUrl, resize, anime, now, outcome)
         == (store, FindCached(store.history, imageUrl, resize, anime).value)
  {
  }

  /** An uncached call past the limit check is counted exactly once, whether
      the request succeeds or fails, and its record heads the history. The
      record is a success exactly when a response arrived. */
  lemma UncachedCallCountsOnce(store: Store, imageUrl: string, resize: int, anime: bool, now: int, outcome: FetchOutcome)
    requires !IsRateLimited(store, now)
    requires FindCached(store.history, imageUrl, resize, anime).None?
    ensures var (after, res) := SuperscaleImage(store, imageUrl, resize, anime, now, outcome);
      && after.rateLimit == UpdateRateLimit(store, now).rateLimit
      && after.history[0] == res
      && (res.status == StatusSuccess <==> outcome.Fetched?)
      && (outcome.Fetched? ==> res.result == outcome.data && res.imageUrl == outcome.data)
      && (outcome.HttpError? ==> res.error == Some("Error: " + IntToString(outcome.status) + " " + outcome.statusText))
  {
  }

  /** No call lets the stored count exceed the maximum. */
  lemma CallKeepsCountWithinLimit(store: Store, imageUrl: string, resize: int, anime: bool, now: int, outcome: FetchOutcome)
    requires CountWithinLimit(store)
    ensures CountWithinLimit(SuperscaleImage(store, imageUrl, resize, anime, now, outcome).0)
  {
  }

  /** The history never holds more than `HistoryLimit` records. */
  lemma CallKeepsHistoryBounded(store: Store, imageUrl: string, resize: int, anime: bool, now: int, outcome: FetchOutcome)
    requires |store.history| <= HistoryLimit
    ensures |SuperscaleImage(store, imageUrl, resize, anime, now, outcome).0.history| <= HistoryLimit
  {
  }

  /** Once limited, every call up to the reset instant is limited too. */
  lemma LimitLastsUntilReset(store: Store, imageUrl: string, resize: int, anime: bool, now: int, outcome: FetchOutcome, later: int)
    requires IsRateLimited(store, now)
    requires now <= later <= GetRateLimitInfo(store, now).resetTime
    ensures IsRateLimited(SuperscaleImage(store, imageUrl, resize, anime, now, outcome).0, later)
  {
  }

  /** `FindCached` returns the FIRST matching record: no earlier entry is for
      the same request. */
  lemma {:induction false} FindCachedIsFirst(history: seq<SuperscaleResult>, imageUrl: string, resize: int, anime: bool)
    returns (k: nat)
    requires FindCached(history, imageUrl, resize, anime).Some?
    ensures k < |history| && history[k] == FindCached(history, imageUrl, resize, anime).value
    ensures forall j :: 0 <= j < k ==> !SameRequest(history[j], imageUrl, resize, anime)
    decreases |history|
  {
    if SameRequest(history[0], imageUrl, resize, anime) {
      k := 0;
    } else {
      var k' := FindCachedIsFirst(history[1..], imageUrl, resize, anime);
      k := k' + 1;
      forall j | 1 <= j < k
        ensures !SameRequest(history[j], imageUrl, resize, anime)
      {
        assert history[j] == history[1..][j - 1];
      }
    }
  }

  /** A saved record is what the next lookup for its request finds. */
  lemma SavedResultIsFound(store: Store, res: SuperscaleResult)
    ensures FindCached(SaveResult(store, res).history, res.originalUrl, res.resize, res.anime) == Some(res)
  {
  }

  /** Asking again for the same request, once not limited, returns the same
      record from the cache and changes nothing: this holds for error records
      too, so a failed request is not retried while its record is kept. */
  lemma RepeatedRequestIsCacheHit(store: Store, imageUrl: string, resize: int, anime: bool, now: int, outcome: FetchOutcome,
                                  later: int, laterOutcome: FetchOutcome)
    requires var after := SuperscaleImage(store, imageUrl, resize, anime, now, outcome).0;
      !IsRateLimited(after, later)
    ensures var (after, res) := SuperscaleImage(store, imageUrl, resize, anime, now, outcome);
      SuperscaleImage(after, imageUrl, resize, anime, later, laterOutcome) == (after, res)
  {
    var res := SuperscaleImage(store, imageUrl, resize, anime, now, outcome).1;
    if IsRateLimited(store, now) {
      SavedResultIsFound(store, res);
    } else if FindCached(store.history, imageUrl, resize, anime).None? {
      SavedResultIsFound(UpdateRateLimit(store, now), res);
    }
  }

  /** The reset text names the number of minutes, rounded up, left in the
      window: `m` with `(m - 1)` minutes < remaining time <= `m` minutes. */
  lemma ResetTimeTextNamesStartedMinutes(store: Store, now: int)
    requires GetRateLimitInfo(store, now).resetTime > now
    ensures var remaining := GetRateLimitInfo(store, now).resetTime - now;
      var m := RemainingMinutes(store, now);
      && ResetTimeText(store, now) == NatToString(m) + " menit"
      && (m - 1) * MillisPerMinute < remaining <= m * MillisPerMinute
  {
    var m := RemainingMinutes(store, now);
    assert m >= 1;
    if m == 1 {
      assert NatToString(1) == "1";
    }
  }
}
