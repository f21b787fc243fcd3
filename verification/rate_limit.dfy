/**
 * The in-process fixed-window rate limiter (src/server/security/rateLimit.ts),
 * as a transition on its keyed store with the clock passed in explicitly.
 * The login route calls it with key "login:<ip>", limit 10 and a one-minute
 * window, and sends `retryAfter` as the delay-seconds form of the Retry-After
 * header (section 10.2.3 of RFC 9110).
 */
module RateLimit {

  /** Calls counted in the current window, and the instant (ms) the window closes. */
  datatype Entry = Entry(count: int, resetAt: int)

  type Store = map<string, Entry>

  datatype Decision = Allowed | Limited(retryAfter: int)

  datatype Step = Step(decision: Decision, store: Store)

  /** `Math.ceil(ms / 1000)`: the least whole number of seconds covering `ms` milliseconds. */
  function CeilSeconds(ms: int): (s: int)
    ensures (s - 1) * 1000 < ms <= s * 1000
  {
    (ms + 999) / 1000
  }

  /** The entry for `key` is missing or its window has strictly passed. */
  predicate Expired(store: Store, key: string, now: int)
  {
    key !in store || store[key].resetAt < now
  }

  /** Every entry has counted at least one call and at most `limit`. */
  predicate Bounded(store: Store, limit: int)
  {
    forall k :: k in store ==> 1 <= store[k].count <= limit
  }

  /**
   * One `rateLimit({key, limit, windowMs})` call at time `now`. Only the
   * entry for `key` can change, and with a positive limit no entry ever
   * counts past it.
   */
  function Check(store: Store, key: string, limit: int, windowMs: int, now: int): (r: Step)
    ensures key in r.store
    ensures forall k :: k != key ==> (k in r.store <==> k in store)
    ensures forall k :: k != key && k in store ==> r.store[k] == store[k]
    ensures r.decision.Allowed? <==> Expired(store, key, now) || store[key].count < limit
    ensures Expired(store, key, now) ==> r.store[key] == Entry(1, now + windowMs)
    ensures !Expired(store, key, now) && r.decision.Allowed? ==>
      r.store[key] == store[key].(count := store[key].count + 1)
    ensures r.decision.Limited? ==>
      && r.store == store
      && r.decision.retryAfter >= 0
      && (r.decision.retryAfter - 1) * 1000 < store[key].resetAt - now <= r.decision.retryAfter * 1000
    ensures limit >= 1 && Bounded(store, limit) ==> Bounded(r.store, limit)
  {
    if key !in store || store[key].resetAt < now then
      Step(Allowed, store[key := Entry(1, now + windowMs)])
    else
      var entry := store[key];
      if entry.count >= limit then
        Step(Limited(CeilSeconds(entry.resetAt - now)), store)
      else
        Step(Allowed, store[key := entry.(count := entry.count + 1)])
  }

  /** Allowed calls among a run of calls for one key at the given instants. */
  function AllowedCount(store: Store, key: string, limit: int, windowMs: int, times: seq<int>): nat
    decreases |times|
  {
    if |times| == 0 then 0
    else
      var step := Check(store, key, limit, windowMs, times[0]);
      (if step.decision.Allowed? then 1 else 0)
        + AllowedCount(step.store, key, limit, windowMs, times[1..])
  }

  /**
   * While a window is open (no call after `resetAt`), calls for its key are
   * allowed only until the count reaches the limit.
   */
  lemma {:induction false} AllowedWithinOpenWindow(store: Store, key: string, limit: int, windowMs: int, times: seq<int>)
    requires key in store && store[key].count >= 1
    requires forall i :: 0 <= i < |times| ==> times[i] <= store[key].resetAt
    ensures AllowedCount(store, key, limit, windowMs, times) <= if limit > store[key].count then limit - store[key].count else 0
  {
    if |times| > 0 {
      var step := Check(store, key, limit, windowMs, times[0]);
      assert step.store[key].resetAt == store[key].resetAt;
      assert forall i :: 0 <= i < |times[1..]| ==> times[1..][i] == times[i + 1];
      AllowedWithinOpenWindow(step.store, key, limit, windowMs, times[1..]);
    }
  }

  /**
   * At most `limit` calls per key are allowed in one window: the call at `start`
   * that opens the window plus every later call up to `start + windowMs`.
   */
  lemma AtMostLimitPerWindow(store: Store, key: string, limit: int, windowMs: int, start: int, later: seq<int>)
    requires limit >= 1
    requires Expired(store, key, start)
    requires forall i :: 0 <= i < |later| ==> later[i] <= start + windowMs
    ensures AllowedCount(store, key, limit, windowMs, [start] + later) <= limit
  {
    var step := Check(store, key, limit, windowMs, start);
    assert ([start] + later)[1..] == later;
    AllowedWithinOpenWindow(step.store, key, limit, windowMs, later);
  }

  /** A call at exactly `resetAt` still belongs to the old window. */
  lemma ExpiryIsStrict(store: Store, key: string, limit: int, windowMs: int)
    requires key in store && store[key].count >= limit
    ensures Check(store, key, limit, windowMs, store[key].resetAt) == Step(Limited(0), store)
  {
  }
}
