/** The MyMemory / Glosbe client of the first builder: the request throttle, the
    rate-limit recovery ladder (back-off probes, then a VPN switch, then a manual
    switch), the choice of the best MyMemory match and the similar-phrase filter.
    The network is an oracle: each request is answered by the next `Attempt`, which
    carries the time at which it was asked for and what came back. */
module GlosbeClient {
  import opened Text
  import Throttle
  import Chunking

  // ---- What the servers answer ----

  /** How a rate-limit episode resolves: `probe(a)` says whether the probe request
      after back-off wait number `a` came back 200 (an exception or any other status
      counts as still limited), and `vpnSwitch` whether switching the VPN location
      would succeed. */
  datatype Recovery = Recovery(probe: nat -> bool, vpnSwitch: bool)

  /** One response: HTTP 429, a failure (an HTTP error, a timeout, a body that is
      not JSON), or a parsed body. */
  datatype Reply<T> = TooMany(recovery: Recovery) | Failed | Answered(body: T)

  /** A request asked for at time `now` and the reply it got. */
  datatype Attempt<T> = Attempt(now: int, reply: Reply<T>)

  /** An entry of MyMemory's `matches`: the translation (`""` when absent) and the
      `match` and `quality` scores (0 when absent), only ever compared. */
  datatype Match = Match(translation: string, score: int, quality: int)

  /** An entry of Glosbe's `phrases`: the phrase (`""` when absent) and whether it is
      a reverse (Korean-side) phrase (false when absent). */
  datatype PhraseData = PhraseData(phrase: string, reverse: bool)

  // ---- The rate-limit ladder ----

  const BaseDelay: nat := 60
  const MaxDelay: nat := 900
  const BackoffAttempts: nat := 3

  /** min(base_delay * 2 ** attempt, max_delay) */
  function BackoffDelay(a: nat): nat {
    Chunking.Min(BaseDelay * Throttle.Pow2(a), MaxDelay)
  }

  /** The waits of the first n back-off attempts. */
  function Ladder(n: nat): (r: seq<nat>)
    ensures |r| == n && forall a :: 0 <= a < n ==> r[a] == BackoffDelay(a)
  {
    if n == 0 then [] else Ladder(n - 1) + [BackoffDelay(n - 1)]
  }

  /** The first of the back-off probes from number `a` on that finds the limit lifted;
      BackoffAttempts when none does. */
  function FirstClear(probe: nat -> bool, a: nat): (k: nat)
    requires a <= BackoffAttempts
    ensures a <= k <= BackoffAttempts
    ensures k < BackoffAttempts ==> probe(k)
    ensures forall j :: a <= j < k ==> !probe(j)
    decreases BackoffAttempts - a
  {
    if a == BackoffAttempts then a else if probe(a) then a else FirstClear(probe, a + 1)
  }

  /** What one rate-limit episode does: the waits slept, whether a VPN switch was
      tried, and the hit counter afterwards. */
  datatype Handled = Handled(waits: seq<nat>, vpnTried: bool, hits: nat)

  function Handle(hits: nat, vpnAvailable: bool, r: Recovery): Handled {
    var h := hits + 1;
    var k := FirstClear(r.probe, 0);
    if k < BackoffAttempts then Handled(Ladder(k + 1), false, h)
    else Handled(Ladder(BackoffAttempts), vpnAvailable && h >= 2, 0)
  }

  /** The waits are 60, 120 and 240 seconds, in that order, as many as it took for a
      probe to succeed, and none exceeds the 900-second cap. */
  lemma {:induction false} HandleWaits(hits: nat, vpnAvailable: bool, r: Recovery)
    ensures var w := Handle(hits, vpnAvailable, r).waits;
      1 <= |w| <= 3 && w == [60, 120, 240][..|w|]
      && (forall i :: 0 <= i < |w| ==> w[i] <= MaxDelay)
      && (|w| < 3 ==> r.probe(|w| - 1))
      && (forall a :: 0 <= a < |w| - 1 ==> !r.probe(a))
  {
    assert Throttle.Pow2(1) == 2 && Throttle.Pow2(2) == 4;
    var w := Handle(hits, vpnAvailable, r).waits;
    assert Ladder(3) == [60, 120, 240];
    assert w == Ladder(3)[..|w|];
  }

  /** A VPN switch is tried only when a VPN client is available, this is at least the
      second hit, and every back-off probe failed. */
  lemma {:induction false} HandleVpn(hits: nat, vpnAvailable: bool, r: Recovery)
    ensures Handle(hits, vpnAvailable, r).vpnTried <==>
      vpnAvailable && hits + 1 >= 2 && forall a :: 0 <= a < BackoffAttempts ==> !r.probe(a)
  {
    var k := FirstClear(r.probe, 0);
    if k < BackoffAttempts {
      assert r.probe(k);
    }
  }

  /** The hit counter drops to 0 when recovery needed the VPN switch or the manual
      prompt, and otherwise (a probe succeeded) keeps the new hit. */
  lemma {:induction false} HandleHits(hits: nat, vpnAvailable: bool, r: Recovery)
    ensures var h := Handle(hits, vpnAvailable, r).hits;
      (h == 0 <==> forall a :: 0 <= a < BackoffAttempts ==> !r.probe(a))
      && (h != 0 ==> h == hits + 1)
  {
    var k := FirstClear(r.probe, 0);
    if k < BackoffAttempts {
      assert r.probe(k);
    }
  }

  // ---- The request loop ----

  /** The client's counters: requests sent, rate-limit hits, time of the last request. */
  datatype Counters = Counters(requests: nat, hits: nat, last: int)

  /** The client after a request and the body it settled on (None after a failure
      or when the replies run out). */
  datatype Settled<T> = Settled(after: Counters, body: Option<T>)

  /** A request that is retried after every 429 once the rate limit is handled. */
  function Settle<T>(c: Counters, vpnAvailable: bool, interval: int, attempts: seq<Attempt<T>>): Settled<T>
    decreases |attempts|
  {
    if attempts == [] then Settled(c, None)
    else
      var a := attempts[0];
      var c1 := Counters(c.requests + 1, c.hits, Throttle.Release(c.last, a.now, interval));
      match a.reply
      case TooMany(rec) =>
        Settle(c1.(hits := Handle(c1.hits, vpnAvailable, rec).hits), vpnAvailable, interval, attempts[1..])
      case Failed => Settled(c1, None)
      case Answered(b) => Settled(c1, Some(b))
  }

  /** Number of requests a Settle sends: up to and including the first reply that is
      not a 429. */
  function Consumed<T>(attempts: seq<Attempt<T>>): (n: nat)
    ensures n <= |attempts|
    ensures forall i :: 0 <= i < n - 1 ==> attempts[i].reply.TooMany?
    ensures (n == |attempts| && forall i :: 0 <= i < n ==> attempts[i].reply.TooMany?)
      || (0 < n && !attempts[n - 1].reply.TooMany?)
    decreases |attempts|
  {
    if attempts == [] then 0
    else if attempts[0].reply.TooMany? then 1 + Consumed(attempts[1..])
    else 1
  }

  /** Each request of a Settle goes through the throttle once, and the body it settles
      on is that of the first reply that is not a 429, which must be an answer. */
  lemma {:induction false} SettleSpec<T>(c: Counters, vpnAvailable: bool, interval: int, attempts: seq<Attempt<T>>)
    ensures var s := Settle(c, vpnAvailable, interval, attempts);
      && s.after.requests == c.requests + Consumed(attempts)
      && (s.body.Some? <==> 0 < Consumed(attempts) && attempts[Consumed(attempts) - 1].reply.Answered?)
      && (s.body.Some? ==> s.body.value == attempts[Consumed(attempts) - 1].reply.body)
    decreases |attempts|
  {
    if attempts != [] && attempts[0].reply.TooMany? {
      var a := attempts[0];
      var c1 := Counters(c.requests + 1, c.hits, Throttle.Release(c.last, a.now, interval));
      var c2 := c1.(hits := Handle(c1.hits, vpnAvailable, a.reply.recovery).hits);
      SettleSpec(c2, vpnAvailable, interval, attempts[1..]);
      var n := Consumed(attempts[1..]);
      if n > 0 {
        assert attempts[1..][n - 1] == attempts[n];
      }
    }
  }

  // ---- Choosing the MyMemory match ----

  /** A character of the Hangul Syllables block (U+AC00..U+D7AF) or the Hangul Jamo
      block (U+1100..U+11FF). */
  predicate IsKoreanChar(c: char) {
    ('\U{AC00}' <= c <= '\U{D7AF}') || ('\U{1100}' <= c <= '\U{11FF}')
  }

  predicate IsKoreanText(s: string) {
    exists i :: 0 <= i < |s| && IsKoreanChar(s[i])
  }

  /** (a.match, a.quality) < (b.match, b.quality) as Python compares tuples. */
  predicate KeyBelow(a: Match, b: Match) {
    a.score < b.score || (a.score == b.score && a.quality < b.quality)
  }

  /** max(ms, key=...): the index of the first match whose key nothing exceeds. */
  function FirstMax(ms: seq<Match>): (k: nat)
    requires ms != []
    ensures k < |ms|
    ensures forall j :: 0 <= j < |ms| ==> !KeyBelow(ms[k], ms[j])
    ensures forall j :: 0 <= j < k ==> KeyBelow(ms[j], ms[k])
    decreases |ms|
  {
    if |ms| == 1 then 0
    else
      var n := |ms| - 1;
      var k := FirstMax(ms[..n]);
      assert forall j :: 0 <= j < n ==> ms[..n][j] == ms[j];
      if KeyBelow(ms[k], ms[n]) then n else k
  }

  predicate NonBlank(m: Match) {
    Strip(m.translation) != ""
  }

  predicate KoreanMatch(m: Match) {
    IsKoreanText(m.translation)
  }

  /** The translation get_translation returns for a parsed answer. */
  function BestTranslation(ms: seq<Match>): Option<string> {
    var valid := Filter(ms, NonBlank);
    if valid == [] then None
    else
      var korean := Filter(valid, KoreanMatch);
      var pool := if korean != [] then korean else valid;
      var t := Strip(pool[FirstMax(pool)].translation);
      if t != "" then Some(t) else None
  }

  /** A match the selection may settle on: its translation is not blank, and it is in
      Korean script whenever some non-blank translation is. */
  ghost predicate Eligible(ms: seq<Match>, m: Match) {
    NonBlank(m) && (KoreanMatch(m) || forall j :: 0 <= j < |ms| && NonBlank(ms[j]) ==> !KoreanMatch(ms[j]))
  }

  /** There is a translation exactly when some match is not blank; it is then the
      stripped translation of an eligible match whose (match, quality) no eligible
      match exceeds. */
  lemma {:induction false} BestTranslationSpec(ms: seq<Match>)
    ensures BestTranslation(ms).None? <==> forall i :: 0 <= i < |ms| ==> !NonBlank(ms[i])
    ensures BestTranslation(ms).Some? ==> exists i :: (0 <= i < |ms| && Eligible(ms, ms[i])
      && BestTranslation(ms).value == Strip(ms[i].translation)
      && forall j :: 0 <= j < |ms| && Eligible(ms, ms[j]) ==> !KeyBelow(ms[i], ms[j]))
  {
    var valid := Filter(ms, NonBlank);
    if valid != [] {
      assert NonBlank(valid[0]) && valid[0] in ms;
      var korean := Filter(valid, KoreanMatch);
      var pool := if korean != [] then korean else valid;
      var k := FirstMax(pool);
      var m := pool[k];
      assert NonBlank(m) && m in ms;
      var i :| 0 <= i < |ms| && ms[i] == m;
      if korean != [] {
        assert KoreanMatch(m);
        forall j | 0 <= j < |ms| && Eligible(ms, ms[j]) ensures !KeyBelow(m, ms[j]) {
          assert KoreanMatch(korean[0]) && NonBlank(korean[0]) && korean[0] in ms;
          assert KoreanMatch(ms[j]);
          assert ms[j] in valid;
          assert ms[j] in pool;
        }
      } else {
        forall j | 0 <= j < |ms| && NonBlank(ms[j]) ensures !KoreanMatch(ms[j]) {
          assert ms[j] in valid;
        }
        forall j | 0 <= j < |ms| && Eligible(ms, ms[j]) ensures !KeyBelow(m, ms[j]) {
          assert ms[j] in pool;
        }
      }
      assert Eligible(ms, ms[i]);
    }
  }

  // ---- The similar-phrase filter ----

  /** A phrase entry the filter keeps: not reverse, not blank once stripped, and not
      the query word itself. */
  predicate Keeps(word: string, d: PhraseData) {
    !d.reverse && Strip(d.phrase) != "" && Strip(d.phrase) != word
  }

  /** The stripped phrases of the kept entries, in order. */
  function KeptPhrases(word: string, list: seq<PhraseData>): seq<string>
    decreases |list|
  {
    if list == [] then []
    else
      var rest := KeptPhrases(word, list[1..]);
      if Keeps(word, list[0]) then [Strip(list[0].phrase)] + rest else rest
  }

  /** Every kept phrase is non-blank, trimmed and not the query word. */
  lemma {:induction false} KeptPhrasesClean(word: string, list: seq<PhraseData>)
    ensures forall i :: 0 <= i < |KeptPhrases(word, list)| ==>
      KeptPhrases(word, list)[i] != "" && KeptPhrases(word, list)[i] != word && Trimmed(KeptPhrases(word, list)[i])
    decreases |list|
  {
    if list != [] {
      var rest := KeptPhrases(word, list[1..]);
      KeptPhrasesClean(word, list[1..]);
      var r := KeptPhrases(word, list);
      if Keeps(word, list[0]) {
        assert r == [Strip(list[0].phrase)] + rest;
        forall i | 0 <= i < |r| ensures r[i] != "" && r[i] != word && Trimmed(r[i]) {
          if i > 0 { assert r[i] == rest[i - 1]; }
        }
      } else {
        assert r == rest;
      }
    }
  }

  /** The entry kept phrase number i comes from: one the filter accepts, whose
      stripped phrase it is. */
  function Origin(word: string, list: seq<PhraseData>, i: nat): (j: nat)
    requires i < |KeptPhrases(word, list)|
    ensures j < |list| && Keeps(word, list[j]) && Strip(list[j].phrase) == KeptPhrases(word, list)[i]
    decreases |list|
  {
    assert list != [];
    var rest := KeptPhrases(word, list[1..]);
    if Keeps(word, list[0]) then
      assert KeptPhrases(word, list) == [Strip(list[0].phrase)] + rest;
      if i == 0 then 0
      else
        var j := Origin(word, list[1..], i - 1);
        assert list[j + 1] == list[1..][j];
        j + 1
    else
      assert KeptPhrases(word, list) == rest;
      var j := Origin(word, list[1..], i);
      assert list[j + 1] == list[1..][j];
      j + 1
  }

  /** Every entry the filter accepts contributes its stripped phrase. */
  lemma {:induction false} KeptPhrasesComplete(word: string, list: seq<PhraseData>)
    ensures forall j :: 0 <= j < |list| && Keeps(word, list[j]) ==> Strip(list[j].phrase) in KeptPhrases(word, list)
    decreases |list|
  {
    if list != [] {
      KeptPhrasesComplete(word, list[1..]);
      forall j | 1 <= j < |list| ensures list[j] == list[1..][j - 1] {
      }
    }
  }

  lemma {:induction false} KeptPhrasesAppend(word: string, a: seq<PhraseData>, b: seq<PhraseData>)
    ensures KeptPhrases(word, a + b) == KeptPhrases(word, a) + KeptPhrases(word, b)
    decreases |a|
  {
    if a == [] {
      assert a + b == b;
    } else {
      assert (a + b)[0] == a[0] && (a + b)[1..] == a[1..] + b;
      KeptPhrasesAppend(word, a[1..], b);
    }
  }

  /** The loop of get_similar_phrases that collects the kept phrases. */
  method FilterPhrases(word: string, list: seq<PhraseData>) returns (phrases: seq<string>)
    ensures phrases == KeptPhrases(word, list)
  {
    phrases := [];
    for i := 0 to |list|
      invariant phrases == KeptPhrases(word, list[..i])
    {
      assert list[..i + 1] == list[..i] + [list[i]];
      KeptPhrasesAppend(word, list[..i], [list[i]]);
      assert [list[i]][1..] == [];
      if !list[i].reverse {
        var phrase := Strip(list[i].phrase);
        if phrase != "" && phrase != word {
          phrases := phrases + [phrase];
        }
      }
    }
    assert list[..|list|] == list;
  }

  /** phrases[:5] of the kept phrases. */
  function SimilarPhrases(word: string, list: seq<PhraseData>): (r: seq<string>)
    ensures |r| <= 5 && |r| <= |KeptPhrases(word, list)|
    ensures r == KeptPhrases(word, list)[..|r|]
    ensures |r| < 5 ==> r == KeptPhrases(word, list)
  {
    Take(KeptPhrases(word, list), 5)
  }

  // ---- The client ----

  class Client {
    var requestCount: nat
    var rateLimitHits: nat
    var lastRequestTime: int
    /** One second between requests, in milliseconds. */
    const minRequestInterval: int
    /** Whether a VPN client was found when the client was created. */
    const vpnAvailable: bool

    function State(): Counters
      reads this
    {
      Counters(requestCount, rateLimitHits, lastRequestTime)
    }

    constructor (vpnAvailable: bool)
      ensures State() == Counters(0, 0, 0)
      ensures this.vpnAvailable == vpnAvailable && minRequestInterval == 1000
    {
      requestCount := 0;
      rateLimitHits := 0;
      lastRequestTime := 0;
      minRequestInterval := 1000;
      this.vpnAvailable := vpnAvailable;
    }

    /** _rate_limit: sleep until a second has passed since the last request, then
        stamp and count this one. Returns the time slept. */
    method RateLimit(now: int) returns (slept: int)
      modifies this
      ensures slept == Throttle.Release(old(lastRequestTime), now, minRequestInterval) - now
      ensures State() == Counters(old(requestCount) + 1, old(rateLimitHits), now + slept)
    {
      var elapsed := now - lastRequestTime;
      slept := 0;
      if elapsed < minRequestInterval {
        slept := minRequestInterval - elapsed;
      }
      lastRequestTime := now + slept;
      requestCount := requestCount + 1;
    }

    /** _handle_rate_limit: count the hit, wait and probe up to three times, then try
        a VPN switch, then fall back to the manual prompt. Always reports success. */
    method HandleRateLimit(r: Recovery) returns (ok: bool, waits: seq<nat>, vpnTried: bool)
      modifies this
      ensures ok
      ensures Handled(waits, vpnTried, rateLimitHits) == Handle(old(rateLimitHits), vpnAvailable, r)
      ensures requestCount == old(requestCount) && lastRequestTime == old(lastRequestTime)
    {
      rateLimitHits := rateLimitHits + 1;
      waits := [];
      vpnTried := false;
      var attempt := 0;
      while attempt < BackoffAttempts
        invariant 0 <= attempt <= BackoffAttempts
        invariant waits == Ladder(attempt)
        invariant FirstClear(r.probe, 0) == FirstClear(r.probe, attempt)
        invariant rateLimitHits == old(rateLimitHits) + 1
        invariant requestCount == old(requestCount) && lastRequestTime == old(lastRequestTime)
      {
        var delay := Chunking.Min(BaseDelay * Throttle.Pow2(attempt), MaxDelay);
        waits := waits + [delay];
        if r.probe(attempt) {
          return true, waits, false;
        }
        attempt := attempt + 1;
      }
      if vpnAvailable && rateLimitHits >= 2 {
        vpnTried := true;
        if r.vpnSwitch {
          rateLimitHits := 0;
          return true, waits, vpnTried;
        }
      }
      rateLimitHits := 0;
      ok := true;
    }

    /** get_translation: throttle, ask MyMemory, and after a 429 handle the limit and
        ask again; the reply's matches decide the translation. */
    method GetTranslation(word: string, attempts: seq<Attempt<seq<Match>>>) returns (r: Option<string>)
      modifies this
      ensures var s := Settle(old(State()), vpnAvailable, minRequestInterval, attempts);
        State() == s.after && r == (if s.body.Some? then BestTranslation(s.body.value) else None)
      decreases |attempts|
    {
      if attempts == [] {
        return None;
      }
      ghost var s := Settle(State(), vpnAvailable, minRequestInterval, attempts);
      var _ := RateLimit(attempts[0].now);
      match attempts[0].reply
      case TooMany(rec) =>
        ghost var sent := State();
        var ok, _, _ := HandleRateLimit(rec);
        assert State() == sent.(hits := Handle(sent.hits, vpnAvailable, rec).hits);
        assert s == Settle(State(), vpnAvailable, minRequestInterval, attempts[1..]);
        if ok {
          r := GetTranslation(word, attempts[1..]);
        } else {
          r := None;
        }
      case Failed =>
        r := None;
      case Answered(ms) =>
        assert s.body == Some(ms);
        r := BestTranslation(ms);
    }

    /** get_similar_phrases: the same request loop against Glosbe; the reply's phrases
        are filtered and cut to five, and a failure gives no phrases. */
    method GetSimilarPhrases(word: string, attempts: seq<Attempt<seq<PhraseData>>>) returns (r: seq<string>)
      modifies this
      ensures var s := Settle(old(State()), vpnAvailable, minRequestInterval, attempts);
        State() == s.after && r == (if s.body.Some? then SimilarPhrases(word, s.body.value) else [])
      decreases |attempts|
    {
      if attempts == [] {
        return [];
      }
      ghost var s := Settle(State(), vpnAvailable, minRequestInterval, attempts);
      var _ := RateLimit(attempts[0].now);
      match attempts[0].reply
      case TooMany(rec) =>
        ghost var sent := State();
        var ok, _, _ := HandleRateLimit(rec);
        assert State() == sent.(hits := Handle(sent.hits, vpnAvailable, rec).hits);
        assert s == Settle(State(), vpnAvailable, minRequestInterval, attempts[1..]);
        if ok {
          r := GetSimilarPhrases(word, attempts[1..]);
        } else {
          r := [];
        }
      case Failed =>
        r := [];
      case Answered(list) =>
        assert s.body == Some(list);
        var phrases := FilterPhrases(word, list);
        r := Take(phrases, 5);
    }
  }
}
