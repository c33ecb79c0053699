/** The minimum-interval throttle both API clients apply before each request. Time is
    counted in integer milliseconds; the clock is ideal, so after sleeping `d` ticks the
    time read back is exactly `d` ticks later. */
module Throttle {

  /** When a request asked for at `now` goes out, given that the previous one went out
      at `last`: at once when at least `interval` has passed, otherwise after sleeping
      `interval - (now - last)`, i.e. exactly `interval` after the previous request. */
  function Release(last: int, now: int, interval: int): (t: int)
    ensures t >= now && t - last >= interval
    ensures t == now || t == last + interval
    ensures t > now <==> now - last < interval
  {
    var elapsed := now - last;
    if elapsed < interval then now + (interval - elapsed) else now
  }

  /** The throttle never sends two requests closer together than `interval`, and never
      waits when it does not have to: it sends at the earliest admissible moment. */
  lemma {:induction false} ReleaseEarliest(last: int, now: int, interval: int, t: int)
    requires t >= now && t - last >= interval
    ensures Release(last, now, interval) <= t
  {
  }

  /** 2 ** a, the factor of the clients' exponential back-off. */
  function Pow2(a: nat): (r: nat)
    ensures r >= 1
  {
    if a == 0 then 1 else 2 * Pow2(a - 1)
  }
}
