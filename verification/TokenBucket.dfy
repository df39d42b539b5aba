/** The in-memory token bucket of core/rate_limit.py: lazy refill, one token a call. */
module TokenBucket {

  /** What a bucket is configured with; `refillRate` is tokens per second. */
  datatype Config = Config(capacity: nat, refillRate: real) {
    predicate Valid() { refillRate > 0.0 }
  }

  datatype BucketState = BucketState(tokens: real, lastRefill: real)

  function Min(a: real, b: real): real { if a <= b then a else b }

  /** A bucket just created at `now` is full. */
  function Fresh(c: Config, now: real): BucketState {
    BucketState(c.capacity as real, now)
  }

  /** What every bucket keeps between calls, seen from a clock that has reached `clock`. */
  predicate Sound(c: Config, b: BucketState, clock: real) {
    c.Valid() && 0.0 <= b.tokens <= c.capacity as real && b.lastRefill <= clock
  }

  /** The tokens that flow in from `from` to `to`. */
  function Inflow(c: Config, from: real, to: real): real {
    (to - from) * c.refillRate
  }

  function Refilled(c: Config, b: BucketState, now: real): real {
    Min(c.capacity as real, b.tokens + Inflow(c, b.lastRefill, now))
  }

  function Allows(c: Config, b: BucketState, now: real): bool {
    Refilled(c, b, now) >= 1.0
  }

  function After(c: Config, b: BucketState, now: real): BucketState {
    var tokens := Refilled(c, b, now);
    BucketState(if tokens >= 1.0 then tokens - 1.0 else tokens, now)
  }

  function RetryAfter(c: Config, b: BucketState): real
    requires c.Valid()
  {
    if b.tokens >= 1.0 then 0.0 else (1.0 - b.tokens) / c.refillRate
  }

  /** The bucket object, updated in place by every call. */
  class Bucket {
    const config: Config
    var tokens: real
    var lastRefill: real

    function State(): BucketState
      reads this
    {
      BucketState(tokens, lastRefill)
    }

    constructor (config: Config, now: real)
      ensures this.config == config && State() == Fresh(config, now)
    {
      this.config := config;
      tokens := config.capacity as real;
      lastRefill := now;
    }

    method Consume(now: real) returns (ok: bool)
      modifies this
      ensures ok == Allows(config, old(State()), now)
      ensures State() == After(config, old(State()), now)
    {
      ghost var before := State();
      var elapsed := now - lastRefill;
      tokens := Min(config.capacity as real, tokens + elapsed * config.refillRate);
      assert tokens == Refilled(config, before, now);
      lastRefill := now;
      if tokens >= 1.0 {
        tokens := tokens - 1.0;
        return true;
      }
      return false;
    }

    method Retry() returns (seconds: real)
      requires config.Valid()
      ensures seconds == RetryAfter(config, State())
    {
      if tokens >= 1.0 {
        return 0.0;
      }
      return (1.0 - tokens) / config.refillRate;
    }
  }

  // ---- Runs of calls ----

  /** Call times never go backwards, and start no earlier than `from`. */
  predicate Ordered(from: real, ts: seq<real>)
    decreases |ts|
  {
    ts == [] || (from <= ts[0] && Ordered(ts[0], ts[1..]))
  }

  /** How many calls of the run are granted with a time in [s, t]. */
  function Grants(c: Config, b: BucketState, ts: seq<real>, s: real, t: real): nat
    decreases |ts|
  {
    if ts == [] then 0
    else
      (if Allows(c, b, ts[0]) && s <= ts[0] <= t then 1 else 0)
      + Grants(c, After(c, b, ts[0]), ts[1..], s, t)
  }

  /** The granted calls of the run, as the subsequence of their times. */
  function Granted(c: Config, b: BucketState, ts: seq<real>): seq<real>
    decreases |ts|
  {
    if ts == [] then []
    else
      (if Allows(c, b, ts[0]) then [ts[0]] else [])
      + Granted(c, After(c, b, ts[0]), ts[1..])
  }

  lemma InflowAdds(c: Config, a: real, b: real, d: real)
    ensures Inflow(c, a, b) + Inflow(c, b, d) == Inflow(c, a, d)
  {
  }

  lemma InflowGrows(c: Config, a: real, b: real, d: real)
    requires c.Valid() && a <= b <= d
    ensures 0.0 == Inflow(c, a, a) <= Inflow(c, a, b) <= Inflow(c, a, d)
    ensures Inflow(c, b, d) <= Inflow(c, a, d)
  {
    var r := c.refillRate;
    assert 0.0 <= (b - a) * r && 0.0 <= (d - b) * r;
    InflowAdds(c, a, b, d);
  }

  lemma AfterIsSound(c: Config, b: BucketState, now: real)
    requires Sound(c, b, now)
    ensures Sound(c, After(c, b, now), now)
  {
    InflowGrows(c, b.lastRefill, now, now);
  }

  lemma {:induction false} NoGrantsPastEnd(c: Config, b: BucketState, ts: seq<real>, s: real, t: real)
    requires t < b.lastRefill && Ordered(b.lastRefill, ts)
    ensures Grants(c, b, ts, s, t) == 0
    decreases |ts|
  {
    if ts != [] {
      NoGrantsPastEnd(c, After(c, b, ts[0]), ts[1..], s, t);
    }
  }

  /** Inside the window the tokens in hand and those still to be refilled bound the grants. */
  lemma {:induction false} GrantsFromInside(c: Config, b: BucketState, ts: seq<real>, s: real, t: real)
    requires Sound(c, b, b.lastRefill) && Ordered(b.lastRefill, ts)
    requires s <= b.lastRefill <= t
    ensures Grants(c, b, ts, s, t) as real <= b.tokens + Inflow(c, b.lastRefill, t)
    decreases |ts|
  {
    InflowGrows(c, b.lastRefill, t, t);
    if ts != [] {
      var now := ts[0];
      var b' := After(c, b, now);
      AfterIsSound(c, b, now);
      if now <= t {
        GrantsFromInside(c, b', ts[1..], s, t);
        InflowAdds(c, b.lastRefill, now, t);
      } else {
        NoGrantsPastEnd(c, b', ts[1..], s, t);
      }
    }
  }

  /** Over any run, no interval [s, t] holds more than capacity + rate * (t - s) grants. */
  lemma {:induction false} BucketBound(c: Config, b: BucketState, ts: seq<real>, s: real, t: real)
    requires Sound(c, b, b.lastRefill) && Ordered(b.lastRefill, ts)
    requires s <= t
    ensures Grants(c, b, ts, s, t) as real <= c.capacity as real + Inflow(c, s, t)
    decreases |ts|
  {
    InflowGrows(c, s, t, t);
    if ts != [] {
      var now := ts[0];
      var b' := After(c, b, now);
      AfterIsSound(c, b, now);
      if now < s {
        BucketBound(c, b', ts[1..], s, t);
      } else if now <= t {
        GrantsFromInside(c, b', ts[1..], s, t);
        InflowGrows(c, s, now, t);
      } else {
        NoGrantsPastEnd(c, b', ts[1..], s, t);
      }
    }
  }

  /** The bound is sharp: a full bucket grants its whole capacity in one instant. */
  lemma {:induction false} BurstIsGranted(c: Config, k: nat, n: nat, now: real)
    requires c.Valid() && n <= k <= c.capacity
    ensures Grants(c, BucketState(k as real, now), seq(n, _ => now), now, now) == n
    decreases n
  {
    if n > 0 {
      var ts := seq(n, _ => now);
      assert ts[1..] == seq(n - 1, _ => now);
      assert Inflow(c, now, now) == 0.0;
      BurstIsGranted(c, k - 1, n - 1, now);
    }
  }

  // ---- Refused calls leave no trace ----

  /** Two states no later call can tell apart. */
  ghost predicate SameFuture(c: Config, b1: BucketState, b2: BucketState) {
    forall now :: now >= b1.lastRefill && now >= b2.lastRefill ==>
      Refilled(c, b1, now) == Refilled(c, b2, now)
  }

  lemma RefusalIsFree(c: Config, b: BucketState, now: real)
    requires c.Valid() && b.lastRefill <= now && !Allows(c, b, now)
    ensures SameFuture(c, After(c, b, now), b)
  {
    var b' := After(c, b, now);
    forall later | later >= now
      ensures Refilled(c, b', later) == Refilled(c, b, later)
    {
      InflowAdds(c, b.lastRefill, now, later);
      InflowGrows(c, now, later, later);
    }
  }

  /** The calls of `ts` that `keep` marks. */
  function Kept(ts: seq<real>, keep: seq<bool>): seq<real>
    requires |ts| == |keep|
    decreases |ts|
  {
    if ts == [] then [] else (if keep[0] then [ts[0]] else []) + Kept(ts[1..], keep[1..])
  }

  /** `keep` drops refused calls only. */
  predicate KeepsGrants(c: Config, b: BucketState, ts: seq<real>, keep: seq<bool>)
    requires |ts| == |keep|
    decreases |ts|
  {
    ts == [] ||
    ((Allows(c, b, ts[0]) ==> keep[0]) && KeepsGrants(c, After(c, b, ts[0]), ts[1..], keep[1..]))
  }

  /** Deleting any refused calls from a run changes no other decision. */
  lemma RefusedCallsCanGo(c: Config, b: BucketState, ts: seq<real>, keep: seq<bool>)
    requires c.Valid() && Ordered(b.lastRefill, ts) && |ts| == |keep| && KeepsGrants(c, b, ts, keep)
    ensures Granted(c, b, Kept(ts, keep)) == Granted(c, b, ts)
  {
    RefusedCallsCanGoFrom(c, b, b, ts, keep);
  }

  lemma {:induction false} RefusedCallsCanGoFrom(
    c: Config, b: BucketState, b0: BucketState, ts: seq<real>, keep: seq<bool>)
    requires c.Valid() && b0.lastRefill <= b.lastRefill && Ordered(b.lastRefill, ts)
    requires SameFuture(c, b, b0) && |ts| == |keep| && KeepsGrants(c, b, ts, keep)
    ensures Granted(c, b0, Kept(ts, keep)) == Granted(c, b, ts)
    decreases |ts|
  {
    if ts != [] {
      var now := ts[0];
      var b' := After(c, b, now);
      if keep[0] {
        var kept := Kept(ts, keep);
        assert kept[0] == now && kept[1..] == Kept(ts[1..], keep[1..]);
        assert After(c, b0, now) == b';
        RefusedCallsCanGoFrom(c, b', b', ts[1..], keep[1..]);
      } else {
        RefusalIsFree(c, b, now);
        assert SameFuture(c, b', b0);
        assert Kept(ts, keep) == Kept(ts[1..], keep[1..]);
        RefusedCallsCanGoFrom(c, b', b0, ts[1..], keep[1..]);
      }
    }
  }

  // ---- The retry hint ----

  function Final(c: Config, b: BucketState, ts: seq<real>): BucketState
    decreases |ts|
  {
    if ts == [] then b else Final(c, After(c, b, ts[0]), ts[1..])
  }

  /** A refused call moves the moment the next token is due neither forward nor back. */
  lemma DueMoment(c: Config, b: BucketState, now: real)
    requires c.Valid() && c.capacity >= 1 && b.tokens < 1.0 && b.lastRefill <= now
    ensures Allows(c, b, now) <==> now >= b.lastRefill + RetryAfter(c, b)
    ensures !Allows(c, b, now) ==>
      now + RetryAfter(c, After(c, b, now)) == b.lastRefill + RetryAfter(c, b)
  {
    var r, x, d := c.refillRate, 1.0 - b.tokens, now - b.lastRefill;
    assert Inflow(c, b.lastRefill, now) == d * r;
    Quotient(x, d, r);
    assert c.capacity as real >= 1.0;
  }

  lemma Quotient(x: real, d: real, r: real)
    requires r > 0.0
    ensures d * r >= x <==> d >= x / r
    ensures (x - d * r) / r == x / r - d
  {
    var q := x / r;
    assert q * r == x;
    if d >= q {
      assert (d - q) * r >= 0.0;
    } else {
      assert (q - d) * r > 0.0;
    }
    assert (x - d * r) == (q - d) * r;
  }

  /**
   * After a refusal the hint is exact, whatever is tried meanwhile: a call at `now` is
   * granted if and only if the hinted number of seconds has passed.
   */
  lemma {:induction false} RetryHintIsExact(c: Config, b: BucketState, ts: seq<real>, now: real)
    requires Sound(c, b, b.lastRefill) && c.capacity >= 1 && b.tokens < 1.0
    requires Ordered(b.lastRefill, ts + [now])
    requires forall t :: t in ts ==> t < b.lastRefill + RetryAfter(c, b)
    ensures Granted(c, b, ts) == []
    ensures Allows(c, Final(c, b, ts), now) <==> now >= b.lastRefill + RetryAfter(c, b)
    decreases |ts|
  {
    if ts == [] {
      DueMoment(c, b, now);
    } else {
      assert (ts + [now])[0] == ts[0] && (ts + [now])[1..] == ts[1..] + [now];
      var b' := After(c, b, ts[0]);
      assert ts[0] in ts;
      DueMoment(c, b, ts[0]);
      AfterIsSound(c, b, ts[0]);
      assert b'.lastRefill + RetryAfter(c, b') == b.lastRefill + RetryAfter(c, b);
      assert forall t :: t in ts[1..] ==> t in ts;
      RetryHintIsExact(c, b', ts[1..], now);
    }
  }

  /** A new bucket grants exactly its capacity at once, and not one call more. */
  lemma FreshGrantsCapacity(c: Config, n: nat, now: real)
    requires c.Valid()
    ensures Grants(c, Fresh(c, now), seq(n, _ => now), now, now) == if n <= c.capacity then n else c.capacity
  {
    BurstIsExact(c, c.capacity, n, now);
  }

  lemma {:induction false} BurstIsExact(c: Config, k: nat, n: nat, now: real)
    requires c.Valid() && k <= c.capacity
    ensures Grants(c, BucketState(k as real, now), seq(n, _ => now), now, now) == if n <= k then n else k
    decreases n
  {
    if n > 0 {
      var ts := seq(n, _ => now);
      assert ts[1..] == seq(n - 1, _ => now);
      assert Inflow(c, now, now) == 0.0;
      if k > 0 {
        BurstIsExact(c, k - 1, n - 1, now);
      } else {
        BurstIsExact(c, 0, n - 1, now);
      }
    }
  }

  /** A drained bucket is full again after `capacity / refillRate` seconds, and no sooner. */
  lemma DrainedIsFullAgain(c: Config, from: real, now: real)
    requires c.Valid() && c.capacity >= 1 && from <= now
    ensures Refilled(c, BucketState(0.0, from), now) == c.capacity as real
       <==> now - from >= c.capacity as real / c.refillRate
  {
    Quotient(c.capacity as real, now - from, c.refillRate);
  }
}
