/** Pushing one batch to the server: bounded retry with exponential backoff and a capped Retry-After. */
module Client {
  import opened Options

  /** What the client makes of a response body: nothing, a version rejection, or anything else. */
  datatype Body = Unreadable | VersionError(min: Option<int>, max: Option<int>,
                                            received: Option<int>) | Other(json: int)

  /** `retryAfter` is the header as a finite number, if it is present and parses as one. */
  datatype Response = NetworkError | Reply(status: int, body: Body, retryAfter: Option<int>)

  datatype PushResult =
    | Ok(status: int, body: Body)
    | Transient(lastStatus: Option<int>, attempts: nat)
    | Permanent(status: int, body: Body)
    | UnsupportedVersion(status: int, min: Option<int>, max: Option<int>, received: Option<int>)

  const BACKOFF_DELAYS_MS: seq<int> := [1000, 2000, 4000, 8000, 16000, 32000]
  const MAX_RETRY_AFTER_MS := 60000
  const MAX_REQUESTS := 7

  predicate IsSuccess(r: Response) {
    r.Reply? && 200 <= r.status < 300
  }

  predicate IsRejection(r: Response) {
    r.Reply? && 400 <= r.status < 500 && r.status != 429
  }

  /** Everything else is tried again: network errors, 429 and all other statuses. */
  predicate Retryable(r: Response) {
    !IsSuccess(r) && !IsRejection(r)
  }

  function StatusOf(r: Response): Option<int> {
    if r.Reply? then Some(r.status) else None
  }

  /** A usable Retry-After, in seconds, wins over the backoff slot but is capped. */
  function RetryAfterDelayMs(header: Option<int>, attempt: nat): int {
    if header.Some? && header.value > 0 then
      if header.value * 1000 < MAX_RETRY_AFTER_MS then header.value * 1000 else MAX_RETRY_AFTER_MS
    else BACKOFF_DELAYS_MS[if attempt < |BACKOFF_DELAYS_MS| then attempt else |BACKOFF_DELAYS_MS| - 1]
  }

  predicate UsableHeader(r: Response) {
    r.Reply? && r.status == 429 && r.retryAfter.Some? && r.retryAfter.value > 0
  }

  /** How long the client waits after the failed response to its request number `attempt`, from 0. */
  function WaitAfter(r: Response, attempt: nat): int
    requires attempt < |BACKOFF_DELAYS_MS|
  {
    if r.Reply? && r.status == 429 then RetryAfterDelayMs(r.retryAfter, attempt) else BACKOFF_DELAYS_MS[attempt]
  }

  /** The result a response that is not retried leads to: a success without a readable body is permanent. */
  function Conclude(r: Response): PushResult
    requires r.Reply? && !Retryable(r)
  {
    if IsSuccess(r) then
      if r.body.Unreadable? then Permanent(r.status, r.body) else Ok(r.status, r.body)
    else
      match r.body
      case VersionError(min, max, received) => UnsupportedVersion(r.status, min, max, received)
      case _ => Permanent(r.status, r.body)
  }

  /** The number of requests: up to the first response that is not retried, but at most seven. */
  function RequestsFrom(server: nat -> Response, attempt: nat): (n: nat)
    requires attempt < MAX_REQUESTS
    ensures attempt < n <= MAX_REQUESTS
    decreases MAX_REQUESTS - attempt
  {
    if Retryable(server(attempt)) && attempt + 1 < MAX_REQUESTS then RequestsFrom(server, attempt + 1) else attempt + 1
  }

  /** A status of 200 to 299, or of 400 to 499 but for 429. */
  predicate IsFinal(r: Response) {
    match r
    case NetworkError => false
    case Reply(status, _, _) => 200 <= status <= 299 || 400 <= status <= 428 || 430 <= status <= 499
  }

  /** The client goes on exactly as long as responses are to be retried, and stops at the first that is not. */
  lemma {:induction false} StopsAtFirstFinal(server: nat -> Response, attempt: nat)
    requires attempt < MAX_REQUESTS
    ensures var n := RequestsFrom(server, attempt);
      && (forall i | attempt <= i < n - 1 :: !IsFinal(server(i)))
      && (n < 7 ==> IsFinal(server(n - 1)))
    decreases MAX_REQUESTS - attempt
  {
    if Retryable(server(attempt)) && attempt + 1 < MAX_REQUESTS { StopsAtFirstFinal(server, attempt + 1); }
  }

  function Outcome(server: nat -> Response): PushResult {
    var last := server(RequestsFrom(server, 0) - 1);
    if Retryable(last) then Transient(StatusOf(last), MAX_REQUESTS) else Conclude(last)
  }

  /** What the last response makes of the push, by its status and body. */
  lemma ResultOfLast(server: nat -> Response)
    ensures match server(RequestsFrom(server, 0) - 1)
      case NetworkError => Outcome(server) == Transient(None, 7)
      case Reply(status, body, _) =>
        if 200 <= status <= 299 then
          Outcome(server) == if body == Unreadable then Permanent(status, body) else Ok(status, body)
        else if 400 <= status <= 428 || 430 <= status <= 499 then
          Outcome(server) == if body.VersionError?
                             then UnsupportedVersion(status, body.min, body.max, body.received)
                             else Permanent(status, body)
        else Outcome(server) == Transient(Some(status), 7)
  {
  }

  function Sum(ms: seq<int>): int
    decreases |ms|
  {
    if ms == [] then 0 else Sum(ms[..|ms| - 1]) + ms[|ms| - 1]
  }

  function Pow2(k: nat): nat {
    if k == 0 then 1 else 2 * Pow2(k - 1)
  }

  lemma BackoffDoubles(k: nat)
    requires k < |BACKOFF_DELAYS_MS|
    ensures BACKOFF_DELAYS_MS[k] == 1000 * Pow2(k)
  {
    assert Pow2(1) == 2 && Pow2(2) == 4 && Pow2(3) == 8;
    assert Pow2(4) == 16 && Pow2(5) == 32;
  }

  lemma {:induction false} BackoffSum(ms: seq<int>)
    requires |ms| <= |BACKOFF_DELAYS_MS| && forall i | 0 <= i < |ms| :: ms[i] == BACKOFF_DELAYS_MS[i]
    ensures Sum(ms) == 1000 * (Pow2(|ms|) - 1)
    decreases |ms|
  {
    if ms != [] {
      BackoffSum(ms[..|ms| - 1]);
      BackoffDoubles(|ms| - 1);
    }
  }

  lemma {:induction false} SumBounds(ms: seq<int>)
    requires forall i | 0 <= i < |ms| :: 1000 <= ms[i] <= MAX_RETRY_AFTER_MS
    ensures 0 <= Sum(ms) <= MAX_RETRY_AFTER_MS * |ms|
    decreases |ms|
  {
    if ms != [] { SumBounds(ms[..|ms| - 1]); }
  }

  lemma WaitBounds(r: Response, attempt: nat)
    requires attempt < |BACKOFF_DELAYS_MS|
    ensures 1000 <= WaitAfter(r, attempt) <= MAX_RETRY_AFTER_MS
  {
  }

  /** The client slept after each failed response as long as that response and its slot call for. */
  ghost predicate Slept(server: nat -> Response, sleeps: seq<int>) {
    |sleeps| <= |BACKOFF_DELAYS_MS| && forall i | 0 <= i < |sleeps| :: sleeps[i] == WaitAfter(server(i), i)
  }

  /** Every wait is between 1 and 60 seconds, all of them together at most 6 minutes; without a usable
      Retry-After `k` waits take exactly 2^k - 1 seconds. */
  lemma SleepsAddUp(server: nat -> Response, sleeps: seq<int>)
    requires Slept(server, sleeps)
    ensures forall i | 0 <= i < |sleeps| :: 1000 <= sleeps[i] <= MAX_RETRY_AFTER_MS
    ensures 0 <= Sum(sleeps) <= 360000
    ensures (forall i | 0 <= i < |sleeps| :: !UsableHeader(server(i))) ==> Sum(sleeps) == 1000 * (Pow2(|sleeps|) - 1)
  {
    forall i | 0 <= i < |sleeps|
      ensures 1000 <= sleeps[i] <= MAX_RETRY_AFTER_MS
    {
      WaitBounds(server(i), i);
    }
    SumBounds(sleeps);
    if forall i | 0 <= i < |sleeps| :: !UsableHeader(server(i)) { BackoffSum(sleeps); }
  }

  /** After a 429 with a usable header the client waits that many seconds but at most a minute; otherwise 1, 2, 4, 8, 16
      and 32 seconds after the first to the sixth response. */
  lemma WaitIs(server: nat -> Response, sleeps: seq<int>, i: nat)
    requires Slept(server, sleeps) && i < |sleeps|
    ensures match server(i)
      case Reply(status, _, Some(seconds)) =>
        if status != 429 || seconds <= 0 then sleeps[i] == 1000 * Pow2(i)
        else if seconds <= 60 then sleeps[i] == 1000 * seconds
        else sleeps[i] == 60000
      case _ => sleeps[i] == 1000 * Pow2(i)
    ensures i < 6
  {
    BackoffDoubles(i);
  }

  lemma SleptNext(server: nat -> Response, sleeps: seq<int>)
    requires Slept(server, sleeps) && |sleeps| < |BACKOFF_DELAYS_MS|
    ensures Slept(server, sleeps + [WaitAfter(server(|sleeps|), |sleeps|)])
  {
  }

  /** The state of the loop before request number `attempt`: all earlier responses were retried. */
  ghost predicate Retrying(server: nat -> Response, attempt: nat) {
    attempt < MAX_REQUESTS && RequestsFrom(server, attempt) == RequestsFrom(server, 0)
  }

  lemma RetryNext(server: nat -> Response, attempt: nat)
    requires Retrying(server, attempt)
    ensures Retryable(server(attempt)) && attempt < |BACKOFF_DELAYS_MS| ==> Retrying(server, attempt + 1)
    ensures Retryable(server(attempt)) && attempt == |BACKOFF_DELAYS_MS| ==>
      RequestsFrom(server, 0) == MAX_REQUESTS && Outcome(server) == Transient(StatusOf(server(attempt)), MAX_REQUESTS)
    ensures !Retryable(server(attempt)) ==>
      RequestsFrom(server, 0) == attempt + 1 && Outcome(server) == Conclude(server(attempt))
  {
  }

  /** One push against a server that answers request number `i` with `server(i)`, however it likes.
      Every request is the same; the client stops at the first response that is not retried. */
  method PushBatch<R>(request: R, server: nat -> Response) returns (r: PushResult, sent: seq<R>, sleeps: seq<int>)
    ensures |sent| == RequestsFrom(server, 0) && forall i | 0 <= i < |sent| :: sent[i] == request
    ensures r == Outcome(server)
    ensures Slept(server, sleeps) && |sleeps| == |sent| - 1
    ensures r.Transient? ==> r.attempts == |sent| == MAX_REQUESTS
  {
    var attempt := 0;
    var lastStatus: Option<int> := None;
    sent, sleeps := [], [];
    while attempt <= |BACKOFF_DELAYS_MS|
      invariant Retrying(server, attempt) && |sent| == |sleeps| == attempt && Slept(server, sleeps)
      invariant forall i | 0 <= i < attempt :: sent[i] == request
      decreases MAX_REQUESTS - attempt
    {
      RetryNext(server, attempt);
      sent := sent + [request];
      var res := server(attempt);
      lastStatus := if res.Reply? then Some(res.status) else None;
      if res.Reply? && 200 <= res.status < 300 {
        r := if res.body.Unreadable? then Permanent(res.status, res.body) else Ok(res.status, res.body);
        return r, sent, sleeps;
      }
      if res.Reply? && 400 <= res.status < 500 && res.status != 429 {
        r := match res.body
          case VersionError(min, max, received) => UnsupportedVersion(res.status, min, max, received)
          case _ => Permanent(res.status, res.body);
        return r, sent, sleeps;
      }
      if attempt >= |BACKOFF_DELAYS_MS| { break; }
      SleptNext(server, sleeps);
      sleeps := sleeps + [WaitAfter(res, attempt)];
      attempt := attempt + 1;
    }
    return Transient(lastStatus, attempt + 1), sent, sleeps;
  }
}
