/** The client-side rate limiter and result history of the image superscale
    call. Stored state (the rate-limit record and the history list) is an
    explicit `Store`; the clock is one `now` in milliseconds; the HTTP request
    is an outcome supplied by the caller. */
module Superscale {
  import opened Wrappers
  import opened Text
  import opened JsMath

  /** At most this many uncached requests per window. */
  const RateLimitMax: nat := 20
  /** A window lasts one hour, in milliseconds. */
  const RateLimitPeriod: nat := 60 * 60 * 1000
  /** The history keeps this many most recent results. */
  const HistoryLimit: nat := 10

  /** Requests counted in the current window and the instant it ends. */
  datatype RateLimitInfo = RateLimitInfo(count: int, resetTime: int)

  datatype Status = StatusSuccess | StatusError

  /** One recorded call: the request parameters and either the returned image
      or an error message. */
  datatype SuperscaleResult = SuperscaleResult(
    status: Status,
    imageUrl: Option<string>,
    result: Option<string>,
    timestamp: int,
    originalUrl: string,
    resize: int,
    anime: bool,
    error: Option<string>)

  /** The persisted state: the rate-limit record, absent before the first
      request, and the history, most recent first. */
  datatype Store = Store(rateLimit: Option<RateLimitInfo>, history: seq<SuperscaleResult>)

  /** What the HTTP request produced: a response with a body whose `result`
      field may be missing, a non-OK status, or a thrown value (an `Error`
      with a message, or something else). */
  datatype FetchOutcome =
    | Fetched(data: Option<string>)
    | HttpError(status: int, statusText: string)
    | Thrown(message: Option<string>)

  /** The stored record, or a fresh window from `now` with nothing counted. */
  function GetRateLimitInfo(store: Store, now: int): (info: RateLimitInfo)
    ensures store.rateLimit.Some? ==> info == store.rateLimit.value
    ensures store.rateLimit.None? ==> info.count == 0 && info.resetTime == now + RateLimitPeriod
  {
    store.rateLimit.GetOr(RateLimitInfo(0, now + RateLimitPeriod))
  }

  /** Counts one request: a window that is over (`now` past its reset time)
      is replaced by a new one holding this request; otherwise the request is
      added to the current window. */
  function UpdateRateLimit(store: Store, now: int): (r: Store)
    ensures r.history == store.history
    ensures var info := GetRateLimitInfo(store, now);
      r.rateLimit == Some(if now > info.resetTime then RateLimitInfo(1, now + RateLimitPeriod)
                          else RateLimitInfo(info.count + 1, info.resetTime))
  {
    var info := GetRateLimitInfo(store, now);
    if now > info.resetTime then store.(rateLimit := Some(RateLimitInfo(1, now + RateLimitPeriod)))
    else store.(rateLimit := Some(RateLimitInfo(info.count + 1, info.resetTime)))
  }

  /** Whether the current window is still open and already holds the maximum. */
  function IsRateLimited(store: Store, now: int): (limited: bool)
    ensures limited <==> UpdateRateLimit(store, now).rateLimit.value.count > RateLimitMax
  {
    var info := GetRateLimitInfo(store, now);
    !(now > info.resetTime) && info.count >= RateLimitMax
  }

  /** `Math.ceil(a / b)` for non-negative integers. */
  function CeilDiv(a: nat, b: nat): (q: nat)
    requires b > 0
    ensures a <= q * b
    ensures q == 0 || (q - 1) * b < a
  {
    (a + b - 1) / b
  }

  /** Whole minutes, rounded up, until the window resets; 0 once it has. */
  function RemainingMinutes(store: Store, now: int): (m: nat)
    ensures var remaining := GetRateLimitInfo(store, now).resetTime - now;
      && (m == 0 <==> remaining <= 0)
      && (m > 0 ==> (m - 1) * MillisPerMinute < remaining <= m * MillisPerMinute)
  {
    var info := GetRateLimitInfo(store, now);
    var remainingMs := if info.resetTime - now > 0 then info.resetTime - now else 0;
    CeilDiv(remainingMs, MillisPerMinute)
  }

  /** The reset time as the user reads it: "sekarang" (now), "1 menit", or
      "N menit". */
  function ResetTimeText(store: Store, now: int): (t: string)
    ensures t == "sekarang" <==> GetRateLimitInfo(store, now).resetTime <= now
  {
    var minutes := RemainingMinutes(store, now);
    if minutes <= 0 then "sekarang"
    else if minutes == 1 then "1 menit"
    else
      var digits := NatToString(minutes);
      assert (digits + " menit")[0] == digits[0] && IsDigit(digits[0]);
      digits + " menit"
  }

  /** Puts `result` in front of the history and keeps at most
      `HistoryLimit` entries. */
  function SaveResult(store: Store, result: SuperscaleResult): (r: Store)
    ensures r.rateLimit == store.rateLimit
    ensures |r.history| == if |store.history| + 1 < HistoryLimit then |store.history| + 1 else HistoryLimit
    ensures r.history[0] == result
    ensures forall i :: 1 <= i < |r.history| ==> r.history[i] == store.history[i - 1]
  {
    var history := [result] + store.history;
    store.(history := history[..if |history| < HistoryLimit then |history| else HistoryLimit])
  }

  /** A recorded call with the same image, scale factor and anime flag. */
  predicate SameRequest(item: SuperscaleResult, imageUrl: string, resize: int, anime: bool) {
    item.originalUrl == imageUrl && item.resize == resize && item.anime == anime
  }

  /** The first history entry for the same request, whatever its status. */
  function FindCached(history: seq<SuperscaleResult>, imageUrl: string, resize: int, anime: bool)
    : (r: Option<SuperscaleResult>)
    ensures r.Some? ==> r.value in history && SameRequest(r.value, imageUrl, resize, anime)
    ensures r.None? <==> forall i :: 0 <= i < |history| ==> !SameRequest(history[i], imageUrl, resize, anime)
    decreases |history|
  {
    if |history| == 0 then None
    else if SameRequest(history[0], imageUrl, resize, anime) then Some(history[0])
    else
      var r := FindCached(history[1..], imageUrl, resize, anime);
      assert forall i :: 1 <= i < |history| ==> history[i] == history[1..][i - 1];
      r
  }

  /** The record of a failed call. */
  function ErrorResult(message: string, now: int, imageUrl: string, resize: int, anime: bool): SuperscaleResult {
    SuperscaleResult(StatusError, None, None, now, imageUrl, resize, anime, Some(message))
  }

  /** The message of the rate-limit error. */
  function RateLimitMessage(store: Store, now: int): string {
    "Rate limit tercapai. Coba lagi dalam " + ResetTimeText(store, now) + "."
  }

  /** The message recorded for a failed request. */
  function FailureMessage(outcome: FetchOutcome): string
    requires !outcome.Fetched?
  {
    match outcome
    case HttpError(status, statusText) => "Error: " + IntToString(status) + " " + statusText
    case Thrown(message) => message.GetOr("Unknown error")
  }

  /** One call: a limited call records and returns an error; otherwise a
      cached result is returned as is; otherwise the request is counted, the
      outcome turned into a success or an error record, and that record saved
      and returned. */
  function SuperscaleImage(store: Store, imageUrl: string, resize: int, anime: bool, now: int, outcome: FetchOutcome)
    : (r: (Store, SuperscaleResult))
    ensures SameRequest(r.1, imageUrl, resize, anime)
  {
    if IsRateLimited(store, now) then
      var failure := ErrorResult(RateLimitMessage(store, now), now, imageUrl, resize, anime);
      (SaveResult(store, failure), failure)
    else
      match FindCached(store.history, imageUrl, resize, anime)
      case Some(cached) => (store, cached)
      case None =>
        var counted := UpdateRateLimit(store, now);
        var record := match outcome
          case Fetched(data) =>
            SuperscaleResult(StatusSuccess, data, data, now, imageUrl, resize, anime, None)
          case _ => ErrorResult(FailureMessage(outcome), now, imageUrl, resize, anime);
        (SaveResult(counted, record), record)
  }
}
