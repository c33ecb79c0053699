/** The Google Translate client of the fast builder: the request throttle and the
    retry loop of get_translation, with the shape check on the nested-array reply.
    The network is an oracle: attempt number k is asked for at `tries(k).now` and
    gets `tries(k).response`. Times are integer milliseconds. */
module GoogleClient {
  import opened Text
  import opened Yomitan
  import Throttle

  /** One answer of translate_a/single: HTTP 429, a request exception (connection
      failure, timeout or an error status), a body that is not JSON, or a parsed body.
      With requests 2.27 or later, `response.json()` on a body that is not JSON raises
      requests.exceptions.JSONDecodeError, a RequestException, so the first handler
      catches it and it is retried like any other request exception. */
  datatype Response = TooMany | RequestError | Unparsable | Body(data: Json)

  datatype Try = Try(now: int, response: Response)

  /** 0.1 seconds between requests. */
  const MinRequestInterval: int := 100
  /** The pause after a failed request that is retried: one second. */
  const ErrorPause: nat := 1000

  /** The wait after a 429 on attempt number a: (2 ** a) * 2 seconds. */
  function Backoff(a: nat): nat {
    Throttle.Pow2(a) * 2 * 1000
  }

  // ---- Python's truthiness, len() and [0] on a parsed value ----

  predicate Truthy(j: Json) {
    match j
    case JNull => false
    case JBool(b) => b
    case JInt(n) => n != 0
    case JStr(s) => s != ""
    case JArr(xs) => xs != []
    case JObj(fs) => fs != []
  }

  /** len(j); None where Python raises TypeError. */
  function Len(j: Json): Option<nat> {
    match j
    case JStr(s) => Some(|s|)
    case JArr(xs) => Some(|xs|)
    case JObj(fs) => Some(|fs|)
    case _ => None
  }

  /** j[0]; None where Python raises IndexError (empty), KeyError (an object, whose keys
      are strings) or TypeError (a scalar). */
  function Index0(j: Json): Option<Json> {
    match j
    case JStr(s) => if s == "" then None else Some(JStr([s[0]]))
    case JArr(xs) => if xs == [] then None else Some(xs[0])
    case _ => None
  }

  /** `if data and len(data) > 0 and len(data[0]) > 0: return data[0][0][0]`, and None
      both when the test fails and when an index or a len() raises. The value is
      returned as it is, not necessarily a string and not stripped. */
  function FirstText(data: Json): (r: Option<Json>)
    ensures r.Some? ==> Truthy(data) && (data.JArr? || data.JStr?)
  {
    if !Truthy(data) then None
    else
      match Len(data)
      case None => None
      case Some(_) =>
        match Index0(data)
        case None => None
        case Some(d0) =>
          match Len(d0)
          case None => None
          case Some(n) =>
            if n == 0 then None
            else
              match Index0(d0)
              case None => None
              case Some(d00) => Index0(d00)
  }

  /** The usual reply [[[translation, source, ...], ...], ...] gives the translation. */
  lemma {:induction false} FirstTextOfReply(t: string, inner: seq<Json>, sentences: seq<Json>, rest: seq<Json>)
    ensures FirstText(JArr([JArr([JArr([JStr(t)] + inner)] + sentences)] + rest)) == Some(JStr(t))
  {
    var s0 := JArr([JStr(t)] + inner);
    var d0 := JArr([s0] + sentences);
    assert ([d0] + rest)[0] == d0;
    assert ([s0] + sentences)[0] == s0;
    assert ([JStr(t)] + inner)[0] == JStr(t);
  }

  /** Replies that fail the check: an empty list, a first element that is empty, and
      an object. */
  lemma {:induction false} FirstTextRejects(rest: seq<Json>, fields: seq<(string, Json)>)
    ensures FirstText(JArr([])) == None
    ensures FirstText(JArr([JArr([])] + rest)) == None
    ensures FirstText(JObj(fields)) == None
  {
    assert ([JArr([])] + rest)[0] == JArr([]);
  }

  // ---- The retry loop ----

  /** What get_translation did: the attempts made, the value returned, the pauses slept
      between attempts (back-off and error pauses, not the throttle's) and the time of
      the last request. */
  datatype Tried = Tried(attempts: nat, result: Option<Json>, pauses: seq<nat>, last: int)

  /** Attempts k, k + 1, ... up to max - 1, the previous request having gone out at
      `last`: each is throttled; a 429 backs off and goes on, a request exception
      or a body that is not JSON pauses and goes on unless it was the last attempt,
      a parsed body gives its checked value; running out of attempts gives None. */
  function Retry(tries: nat -> Try, max: nat, k: nat, last: int, interval: int): Tried
    decreases max - k
  {
    if k >= max then Tried(0, None, [], last)
    else
      var sent := Throttle.Release(last, tries(k).now, interval);
      match tries(k).response
      case TooMany =>
        var r := Retry(tries, max, k + 1, sent, interval);
        Tried(r.attempts + 1, r.result, [Backoff(k)] + r.pauses, r.last)
      case RequestError | Unparsable =>
        if k < max - 1 then
          var r := Retry(tries, max, k + 1, sent, interval);
          Tried(r.attempts + 1, r.result, [ErrorPause] + r.pauses, r.last)
        else Tried(1, None, [], sent)
      case Body(d) => Tried(1, FirstText(d), [], sent)
  }

  /** The answers after which the loop goes on: a 429, and a request exception. */
  predicate Retried(r: Response) {
    !r.Body?
  }

  /** A request exception: an error of the transport or status, or a body that is not JSON. */
  predicate Failed(r: Response) {
    r.RequestError? || r.Unparsable?
  }

  /** At most max - k attempts, at least one when any is left. Every attempt before
      the last was a 429 or a request exception (a body that is not JSON included);
      the loop stops before the last attempt only on a parsed body; the value
      returned is the checked value of the last attempt's body, None when it had none. */
  lemma {:induction false} RetrySpec(tries: nat -> Try, max: nat, k: nat, last: int, interval: int)
    requires k < max
    ensures 1 <= Retry(tries, max, k, last, interval).attempts <= max - k
    ensures forall i :: k <= i < k + Retry(tries, max, k, last, interval).attempts - 1 ==> Retried(tries(i).response)
    ensures var j := k + Retry(tries, max, k, last, interval).attempts - 1;
      && (j < max - 1 ==> !Retried(tries(j).response))
      && Retry(tries, max, k, last, interval).result
         == (if tries(j).response.Body? then FirstText(tries(j).response.data) else None)
    decreases max - k
  {
    var sent := Throttle.Release(last, tries(k).now, interval);
    var resp := tries(k).response;
    if Retried(resp) && !(Failed(resp) && k == max - 1) {
      if k + 1 < max {
        RetrySpec(tries, max, k + 1, sent, interval);
      } else {
        assert Retry(tries, max, k + 1, sent, interval) == Tried(0, None, [], sent);
      }
    }
  }

  /** With the default three attempts every pause is one second or a back-off of 2, 4
      or 8 seconds, and there is at most one pause per attempt. */
  lemma {:induction false} RetryPauses(tries: nat -> Try, max: nat, k: nat, last: int, interval: int)
    requires max <= 3
    ensures var r := Retry(tries, max, k, last, interval);
      |r.pauses| <= r.attempts
      && forall i :: 0 <= i < |r.pauses| ==> r.pauses[i] == ErrorPause || r.pauses[i] in {2000, 4000, 8000}
    decreases max - k
  {
    if k < max {
      var sent := Throttle.Release(last, tries(k).now, interval);
      RetryPauses(tries, max, k + 1, sent, interval);
      assert Throttle.Pow2(1) == 2 && Throttle.Pow2(2) == 4;
    }
  }

  /** A body that is not JSON is retried after a one-second pause: the next attempt's
      parsed reply is what get_translation returns. */
  lemma {:induction false} RetryAfterUnparsable(tries: nat -> Try, max: nat, last: int, interval: int)
    requires 2 <= max && tries(0).response == Unparsable && tries(1).response.Body?
    ensures var r := Retry(tries, max, 0, last, interval);
      r.attempts == 2 && r.pauses == [ErrorPause] && r.result == FirstText(tries(1).response.data)
  {
    var sent := Throttle.Release(last, tries(0).now, interval);
    assert Retry(tries, max, 1, sent, interval).pauses == [];
  }

  /** The rest of a run after `done` attempts that paused for `pauses`. */
  function After(done: nat, pauses: seq<nat>, rest: Tried): Tried {
    Tried(done + rest.attempts, rest.result, pauses + rest.pauses, rest.last)
  }

  /** An attempt that goes on to the next one adds one attempt and one pause. */
  lemma {:induction false} RetryStep(tries: nat -> Try, max: nat, k: nat, last: int, interval: int, pauses: seq<nat>)
    requires k < max
    ensures var sent := Throttle.Release(last, tries(k).now, interval);
      var resp := tries(k).response;
      && (resp.TooMany? ==>
           After(k, pauses, Retry(tries, max, k, last, interval))
           == After(k + 1, pauses + [Backoff(k)], Retry(tries, max, k + 1, sent, interval)))
      && (Failed(resp) && k < max - 1 ==>
           After(k, pauses, Retry(tries, max, k, last, interval))
           == After(k + 1, pauses + [ErrorPause], Retry(tries, max, k + 1, sent, interval)))
  {
    var sent := Throttle.Release(last, tries(k).now, interval);
    var r := Retry(tries, max, k + 1, sent, interval);
    assert pauses + [Backoff(k)] + r.pauses == pauses + ([Backoff(k)] + r.pauses);
    assert pauses + [ErrorPause] + r.pauses == pauses + ([ErrorPause] + r.pauses);
  }

  // ---- The client ----

  class Client {
    var requestCount: nat
    var lastRequestTime: int
    const minRequestInterval: int

    constructor ()
      ensures requestCount == 0 && lastRequestTime == 0 && minRequestInterval == MinRequestInterval
    {
      requestCount := 0;
      lastRequestTime := 0;
      minRequestInterval := MinRequestInterval;
    }

    /** _rate_limit: sleep out the rest of the interval since the last request, then
        stamp and count this one. Returns the time slept. */
    method RateLimit(now: int) returns (slept: int)
      modifies this
      ensures slept == Throttle.Release(old(lastRequestTime), now, minRequestInterval) - now
      ensures requestCount == old(requestCount) + 1 && lastRequestTime == now + slept
    {
      var elapsed := now - lastRequestTime;
      slept := 0;
      if elapsed < minRequestInterval {
        slept := minRequestInterval - elapsed;
      }
      lastRequestTime := now + slept;
      requestCount := requestCount + 1;
    }

    /** get_translation with `maxRetries` attempts. */
    method GetTranslation(word: string, tries: nat -> Try, maxRetries: nat) returns (translation: Option<Json>, pauses: seq<nat>)
      modifies this
      ensures requestCount >= old(requestCount)
      ensures Tried(requestCount - old(requestCount), translation, pauses, lastRequestTime)
        == Retry(tries, maxRetries, 0, old(lastRequestTime), minRequestInterval)
    {
      ghost var goal := Retry(tries, maxRetries, 0, lastRequestTime, minRequestInterval);
      ghost var count0 := requestCount;
      pauses := [];
      var attempt := 0;
      assert goal == After(0, [], goal);
      while attempt < maxRetries
        invariant 0 <= attempt <= maxRetries
        invariant requestCount == count0 + attempt
        invariant goal == After(attempt, pauses, Retry(tries, maxRetries, attempt, lastRequestTime, minRequestInterval))
      {
        ghost var last := lastRequestTime;
        RetryStep(tries, maxRetries, attempt, last, minRequestInterval, pauses);
        var t := tries(attempt);
        var _ := RateLimit(t.now);
        match t.response {
          case TooMany =>
            pauses := pauses + [Backoff(attempt)];
          case RequestError | Unparsable =>
            if attempt < maxRetries - 1 {
              pauses := pauses + [ErrorPause];
            } else {
              return None, pauses;
            }
          case Body(data) =>
            return FirstText(data), pauses;
        }
        attempt := attempt + 1;
      }
      translation := None;
    }
  }
}
