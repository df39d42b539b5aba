/** The per-user limits of core/rate_limit.py: several buckets taken in a fixed order. */
module RateLimits {
  import opened TokenBucket

  datatype Tool = Bash | PythonExec | WebFetch | OtherTool(name: string)

  datatype Action = SendMessage | ToolCall(tool: Tool) | AgentRun | TokenCreate | OtherAction

  datatype BucketName =
    | Message | MessageHourly
    | AnyTool | PerTool(tool: Tool)
    | Run | RunHourly | RunDaily
    | Token

  function Limit(name: BucketName): (c: Config)
    ensures c.Valid() && c.capacity >= 1
  {
    match name
    case Message => Config(15, 15.0 / 60.0)
    case MessageHourly => Config(200, 200.0 / 3600.0)
    case AnyTool => Config(60, 60.0 / 60.0)
    case PerTool(WebFetch) => Config(20, 20.0 / 60.0)
    case PerTool(_) => Config(30, 30.0 / 60.0)
    case Run => Config(10, 10.0 / 60.0)
    case RunHourly => Config(100, 100.0 / 3600.0)
    case RunDaily => Config(500, 500.0 / 86400.0)
    case Token => Config(5, 5.0 / 3600.0)
  }

  /** The buckets every user has from the start; per-tool buckets come on demand. */
  const STATIC: seq<BucketName> :=
    [Message, MessageHourly, AnyTool, Run, RunHourly, RunDaily, Token]

  /** The buckets an action draws from, in the order it asks them. */
  function Chain(action: Action): seq<BucketName> {
    match action
    case SendMessage => [Message, MessageHourly]
    case ToolCall(OtherTool(_)) => [AnyTool]
    case ToolCall(tool) => [PerTool(tool), AnyTool]
    case AgentRun => [Run, RunHourly, RunDaily]
    case TokenCreate => [Token]
    case OtherAction => []
  }

  type Buckets = map<BucketName, BucketState>

  /** A bucket not created yet is created full by the call that first needs it. */
  function Lookup(m: Buckets, name: BucketName, now: real): BucketState {
    if name in m then m[name] else Fresh(Limit(name), now)
  }

  function NewBuckets(names: seq<BucketName>, now: real): Buckets {
    if names == [] then map[]
    else
      var last := names[|names| - 1];
      NewBuckets(names[..|names| - 1], now)[last := Fresh(Limit(last), now)]
  }

  datatype Verdict = Verdict(buckets: Buckets, allowed: bool, retry: real)

  /** Ask the buckets of `chain` in turn; the first refusal stops, what was taken stays taken. */
  function Cascade(m: Buckets, chain: seq<BucketName>, now: real): Verdict
    decreases |chain|
  {
    if chain == [] then Verdict(m, true, 0.0)
    else
      var c := Limit(chain[0]);
      var b := Lookup(m, chain[0], now);
      var b' := After(c, b, now);
      var m' := m[chain[0] := b'];
      if Allows(c, b, now) then Cascade(m', chain[1..], now)
      else Verdict(m', false, RetryAfter(c, b'))
  }

  /** One user's buckets, as the object that `check_rate_limit` updates. */
  class UserLimits {
    var buckets: map<BucketName, Bucket>
    ghost var states: Buckets  // what the buckets hold

    ghost predicate Consistent()
      reads this, buckets.Values
    {
      && states.Keys == buckets.Keys
      && (forall k :: k in buckets ==> states[k] == buckets[k].State() && buckets[k].config == Limit(k))
      && (forall j, k :: j in buckets && k in buckets && j != k ==> buckets[j] != buckets[k])
    }

    ghost predicate Valid()
      reads this, buckets.Values
    {
      Consistent() && forall i :: 0 <= i < |STATIC| ==> STATIC[i] in buckets
    }

    constructor (now: real)
      ensures Valid() && fresh(buckets.Values)
      ensures states == NewBuckets(STATIC, now)
    {
      buckets := map[];
      states := map[];
      new;
      CreateAll(STATIC, now);
    }

    method CreateAll(names: seq<BucketName>, now: real)
      requires buckets == map[] && states == map[]
      modifies this
      ensures Consistent() && fresh(buckets.Values)
      ensures states == NewBuckets(names, now)
      ensures forall i :: 0 <= i < |names| ==> names[i] in buckets
    {
      hide Limit, Fresh;
      for i := 0 to |names|
        invariant Consistent() && fresh(buckets.Values)
        invariant states == NewBuckets(names[..i], now)
        invariant forall j :: 0 <= j < i ==> names[j] in buckets
      {
        assert names[..i + 1][..i] == names[..i];
        Create(names[i], now);
      }
      assert names[..|names|] == names;
    }

    method Create(name: BucketName, now: real)
      requires Consistent()
      modifies this
      ensures Consistent() && fresh(buckets.Values - old(buckets.Values))
      ensures states == old(states)[name := Fresh(Limit(name), now)]
    {
      var bucket := new Bucket(Limit(name), now);
      buckets := buckets[name := bucket];
      states := states[name := Fresh(Limit(name), now)];
    }

    lemma HasStatic(name: BucketName)
      requires Valid() && !name.PerTool?
      ensures name in buckets
    {
      assert STATIC[0] in buckets && STATIC[1] in buckets && STATIC[2] in buckets && STATIC[3] in buckets
          && STATIC[4] in buckets && STATIC[5] in buckets && STATIC[6] in buckets;
    }

    /** Consume from one existing bucket. */
    method Take(name: BucketName, now: real) returns (ok: bool, retry: real)
      requires Consistent() && name in buckets
      modifies this`states, buckets.Values
      ensures Consistent()
      ensures ok == Allows(Limit(name), old(states)[name], now)
      ensures states == old(states)[name := After(Limit(name), old(states)[name], now)]
      ensures retry == if ok then 0.0 else RetryAfter(Limit(name), states[name])
    {
      hide Refilled, Inflow;
      ok := buckets[name].Consume(now);
      states := states[name := After(Limit(name), states[name], now)];
      retry := 0.0;
      if !ok {
        retry := buckets[name].Retry();
      }
    }

    method TakeTool(tool: Tool, now: real) returns (ok: bool, retry: real)
      requires Valid()
      modifies this, buckets.Values
      ensures Valid() && fresh(buckets.Values - old(buckets.Values))
      ensures
        var c, b := Limit(PerTool(tool)), Lookup(old(states), PerTool(tool), now);
        && ok == Allows(c, b, now)
        && states == old(states)[PerTool(tool) := After(c, b, now)]
        && retry == if ok then 0.0 else RetryAfter(c, After(c, b, now))
    {
      if PerTool(tool) !in buckets {
        Create(PerTool(tool), now);
      }
      ok, retry := Take(PerTool(tool), now);
    }

    method TakeTwo(first: BucketName, second: BucketName, now: real) returns (ok: bool, retry: real)
      requires Consistent() && first in buckets && second in buckets && first != second
      modifies this`states, buckets.Values
      ensures Consistent()
      ensures Verdict(states, ok, retry) == Cascade(old(states), [first, second], now)
    {
      hide After, Allows, RetryAfter, Limit, Refilled, Inflow;
      CascadeTwo(states, first, second, now);
      ok, retry := Take(first, now);
      if ok {
        ok, retry := Take(second, now);
      }
    }

    method CheckMessage(now: real) returns (allowed: bool, retry: real)
      requires Valid()
      modifies this`states, buckets.Values
      ensures Valid()
      ensures Verdict(states, allowed, retry) == Cascade(old(states), Chain(SendMessage), now)
    {
      HasStatic(Message);
      HasStatic(MessageHourly);
      allowed, retry := TakeTwo(Message, MessageHourly, now);
    }

    method CheckToolCall(tool: Tool, now: real) returns (allowed: bool, retry: real)
      requires Valid()
      modifies this, buckets.Values
      ensures Valid() && fresh(buckets.Values - old(buckets.Values))
      ensures Verdict(states, allowed, retry) == Cascade(old(states), Chain(ToolCall(tool)), now)
    {
      hide After, Allows, RetryAfter, Limit, Refilled, Inflow;
      if !tool.OtherTool? {
        CascadeTwo(states, PerTool(tool), AnyTool, now);
        allowed, retry := TakeTool(tool, now);
        if !allowed { return; }
      }
      HasStatic(AnyTool);
      allowed, retry := Take(AnyTool, now);
    }

    method CheckAgentRun(now: real) returns (allowed: bool, retry: real)
      requires Valid()
      modifies this`states, buckets.Values
      ensures Valid()
      ensures Verdict(states, allowed, retry) == Cascade(old(states), Chain(AgentRun), now)
    {
      hide After, Allows, RetryAfter, Limit, Refilled, Inflow;
      assert Chain(AgentRun)[1..] == [RunHourly, RunDaily];
      HasStatic(Run);
      HasStatic(RunHourly);
      HasStatic(RunDaily);
      allowed, retry := Take(Run, now);
      if allowed {
        allowed, retry := TakeTwo(RunHourly, RunDaily, now);
      }
    }

    method CheckRateLimit(action: Action, now: real) returns (allowed: bool, retry: real)
      requires Valid()
      modifies this, buckets.Values
      ensures Valid() && fresh(buckets.Values - old(buckets.Values))
      ensures Verdict(states, allowed, retry) == Cascade(old(states), Chain(action), now)
    {
      match action {
        case SendMessage => allowed, retry := CheckMessage(now);
        case ToolCall(tool) => allowed, retry := CheckToolCall(tool, now);
        case AgentRun => allowed, retry := CheckAgentRun(now);
        case TokenCreate =>
          HasStatic(Token);
          allowed, retry := Take(Token, now);
        case OtherAction => allowed, retry := true, 0.0;
      }
    }
  }

  lemma CascadeTwo(m: Buckets, first: BucketName, second: BucketName, now: real)
    requires first != second
    ensures
      var v := Cascade(m, [first], now);
      Cascade(m, [first, second], now) ==
      if v.allowed then Cascade(v.buckets, [second], now) else v
  {
    assert [first, second][1..] == [second];
  }

  // ---- Runs of mixed actions by one user ----

  datatype Call = Call(action: Action, now: real)

  predicate Ordered(from: real, calls: seq<Call>)
    decreases |calls|
  {
    calls == [] || (from <= calls[0].now && Ordered(calls[0].now, calls[1..]))
  }

  /** Granted calls in [s, t] that drew from the bucket `name`. */
  function GrantedCalls(m: Buckets, calls: seq<Call>, name: BucketName, s: real, t: real): nat
    decreases |calls|
  {
    if calls == [] then 0
    else
      var chain := Chain(calls[0].action);
      var v := Cascade(m, chain, calls[0].now);
      (if v.allowed && name in chain && s <= calls[0].now <= t then 1 else 0)
      + GrantedCalls(v.buckets, calls[1..], name, s, t)
  }

  /** Whether a call gets as far as consuming from `name`. */
  predicate Reaches(m: Buckets, chain: seq<BucketName>, now: real, name: BucketName)
    decreases |chain|
  {
    chain != [] &&
    (chain[0] == name ||
     (Allows(Limit(chain[0]), Lookup(m, chain[0], now), now) &&
      Reaches(m[chain[0] := After(Limit(chain[0]), Lookup(m, chain[0], now), now)], chain[1..], now, name)))
  }

  /** The times at which the run consumes from `name`. */
  function Touches(m: Buckets, calls: seq<Call>, name: BucketName): seq<real>
    decreases |calls|
  {
    if calls == [] then []
    else
      var chain := Chain(calls[0].action);
      (if Reaches(m, chain, calls[0].now, name) then [calls[0].now] else [])
      + Touches(Cascade(m, chain, calls[0].now).buckets, calls[1..], name)
  }

  predicate Distinct(chain: seq<BucketName>) {
    forall i, j :: 0 <= i < j < |chain| ==> chain[i] != chain[j]
  }

  /** What one call does to one bucket: nothing, or exactly one `consume`. */
  lemma {:induction false} CascadeEffect(m: Buckets, chain: seq<BucketName>, now: real, name: BucketName)
    requires Distinct(chain)
    ensures
      var v := Cascade(m, chain, now);
      if Reaches(m, chain, now, name) then
        && name in chain && name in v.buckets
        && v.buckets[name] == After(Limit(name), Lookup(m, name, now), now)
        && (v.allowed ==> Allows(Limit(name), Lookup(m, name, now), now))
      else
        && (name in v.buckets <==> name in m)
        && (name in m ==> v.buckets[name] == m[name])
        && (v.allowed ==> name !in chain)
    decreases |chain|
  {
    if chain != [] {
      var c, b := Limit(chain[0]), Lookup(m, chain[0], now);
      var m' := m[chain[0] := After(c, b, now)];
      if Allows(c, b, now) {
        CascadeEffect(m', chain[1..], now, name);
        if Reaches(m', chain[1..], now, name) {
          assert chain[0] != name;
        }
      }
    }
  }

  /** The state a run starts `name` in: the bucket there is, or the full one it will create. */
  function Start(m: Buckets, calls: seq<Call>, name: BucketName, from: real): BucketState {
    if name in m then m[name]
    else
      var ts := Touches(m, calls, name);
      Fresh(Limit(name), if ts == [] then from else ts[0])
  }

  lemma {:induction false} TouchesAreOrdered(m: Buckets, calls: seq<Call>, name: BucketName, from: real)
    requires Ordered(from, calls)
    ensures TokenBucket.Ordered(from, Touches(m, calls, name))
    decreases |calls|
  {
    if calls != [] {
      TouchesAreOrdered(Cascade(m, Chain(calls[0].action), calls[0].now).buckets, calls[1..], name, calls[0].now);
      var ts := Touches(Cascade(m, Chain(calls[0].action), calls[0].now).buckets, calls[1..], name);
      assert ([calls[0].now] + ts)[1..] == ts;
      assert [] + ts == ts;
    }
  }

  /** A user's granted calls that draw from a bucket are grants of that bucket alone. */
  lemma {:induction false} CallsRefineBucket(
    m: Buckets, calls: seq<Call>, name: BucketName, from: real, s: real, t: real)
    ensures GrantedCalls(m, calls, name, s, t)
         <= Grants(Limit(name), Start(m, calls, name, from), Touches(m, calls, name), s, t)
    decreases |calls|
  {
    if calls != [] {
      var now, chain := calls[0].now, Chain(calls[0].action);
      var m' := Cascade(m, chain, now).buckets;
      CascadeEffect(m, chain, now, name);
      CallsRefineBucket(m', calls[1..], name, from, s, t);
      var rest := Touches(m', calls[1..], name);
      assert ([now] + rest)[1..] == rest;
      if !Reaches(m, chain, now, name) {
        assert Touches(m, calls, name) == rest;
      }
    }
  }

  /**
   * Whatever actions a user mixes, the granted calls that draw from a bucket obey that
   * bucket's own bound, for every bucket of the cascade at once, although a refusal further
   * down the cascade has already spent the tokens of the buckets before it.
   */
  lemma EveryBucketBound(
    m: Buckets, calls: seq<Call>, name: BucketName, from: real, s: real, t: real)
    requires forall k :: k in m ==> Sound(Limit(k), m[k], from)
    requires Ordered(from, calls) && s <= t
    ensures GrantedCalls(m, calls, name, s, t) as real
         <= Limit(name).capacity as real + Inflow(Limit(name), s, t)
  {
    var b, ts := Start(m, calls, name, from), Touches(m, calls, name);
    TouchesAreOrdered(m, calls, name, from);
    WeakenStart(from, b.lastRefill, ts);
    CallsRefineBucket(m, calls, name, from, s, t);
    BucketBound(Limit(name), b, ts, s, t);
  }

  lemma WeakenStart(from: real, earlier: real, ts: seq<real>)
    requires TokenBucket.Ordered(from, ts)
    requires earlier <= from || (ts != [] && earlier == ts[0])
    ensures TokenBucket.Ordered(earlier, ts)
  {
  }

  /** A message burst is bounded by the minute and by the hour bucket at once. */
  lemma MessagesObeyBothLimits(calls: seq<Call>, from: real, s: real, t: real)
    requires Ordered(from, calls) && s <= t
    requires forall call :: call in calls ==> call.action == SendMessage
    ensures
      var n := GrantedCalls(NewBuckets(STATIC, from), calls, Message, s, t) as real;
      n <= 15.0 + (t - s) * (15.0 / 60.0) && n <= 200.0 + (t - s) * (200.0 / 3600.0)
  {
    var m := NewBuckets(STATIC, from);
    NewBucketsAreSound(STATIC, from);
    EveryBucketBound(m, calls, Message, from, s, t);
    EveryBucketBound(m, calls, MessageHourly, from, s, t);
    SameMessages(m, calls, s, t);
  }

  lemma {:induction false} NewBucketsAreSound(names: seq<BucketName>, now: real)
    ensures forall k :: k in NewBuckets(names, now) ==> Sound(Limit(k), NewBuckets(names, now)[k], now)
    decreases |names|
  {
    if names != [] {
      NewBucketsAreSound(names[..|names| - 1], now);
    }
  }

  lemma {:induction false} SameMessages(m: Buckets, calls: seq<Call>, s: real, t: real)
    requires forall call :: call in calls ==> call.action == SendMessage
    ensures GrantedCalls(m, calls, Message, s, t) == GrantedCalls(m, calls, MessageHourly, s, t)
    decreases |calls|
  {
    if calls != [] {
      assert calls[0] in calls;
      assert forall call :: call in calls[1..] ==> call in calls;
      SameMessages(Cascade(m, Chain(SendMessage), calls[0].now).buckets, calls[1..], s, t);
    }
  }

  // ---- The published limits ----

  /** So many calls in so many seconds, from any moment on. */
  predicate Publishes(name: BucketName, calls: nat, seconds: nat, from: real) {
    Limit(name).capacity == calls && Inflow(Limit(name), from, from + seconds as real) == calls as real
  }

  lemma RateOf(c: Config, seconds: real, from: real)
    requires seconds > 0.0 && c.refillRate * seconds == c.capacity as real
    ensures Inflow(c, from, from + seconds) == c.capacity as real
  {
    assert from + seconds - from == seconds;
  }

  /** Each bucket holds as many calls as flow in during its window. */
  lemma LimitsAreAsPublished(from: real)
    ensures Publishes(Message, 15, 60, from) && Publishes(MessageHourly, 200, 3600, from)
    ensures Publishes(AnyTool, 60, 60, from)
    ensures Publishes(PerTool(Bash), 30, 60, from) && Publishes(PerTool(PythonExec), 30, 60, from)
    ensures Publishes(PerTool(WebFetch), 20, 60, from)
    ensures Publishes(Run, 10, 60, from) && Publishes(RunHourly, 100, 3600, from)
    ensures Publishes(RunDaily, 500, 86400, from) && Publishes(Token, 5, 3600, from)
  {
    hide Inflow;
    RateOf(Limit(Message), 60.0, from);
    RateOf(Limit(MessageHourly), 3600.0, from);
    RateOf(Limit(AnyTool), 60.0, from);
    RateOf(Limit(PerTool(Bash)), 60.0, from);
    RateOf(Limit(PerTool(PythonExec)), 60.0, from);
    RateOf(Limit(PerTool(WebFetch)), 60.0, from);
    RateOf(Limit(Run), 60.0, from);
    RateOf(Limit(RunHourly), 3600.0, from);
    RateOf(Limit(RunDaily), 86400.0, from);
    RateOf(Limit(Token), 3600.0, from);
  }

  /** Which limits an action is under: those of its own kind and, for the listed tools, theirs. */
  lemma ActionsAreLimited(name: BucketName, tool: Tool)
    ensures name in Chain(SendMessage) <==> name == Message || name == MessageHourly
    ensures name in Chain(ToolCall(tool)) <==> name == AnyTool || (!tool.OtherTool? && name == PerTool(tool))
    ensures name in Chain(AgentRun) <==> name == Run || name == RunHourly || name == RunDaily
    ensures name in Chain(TokenCreate) <==> name == Token
    ensures Chain(OtherAction) == []
    ensures Distinct(Chain(SendMessage)) && Distinct(Chain(ToolCall(tool))) && Distinct(Chain(AgentRun))
  {
  }

  /** All limits but those per tool start full, and those per tool when they are first needed. */
  lemma {:induction false} NewBucketsAreFull(names: seq<BucketName>, now: real)
    ensures NewBuckets(names, now).Keys == set name | name in names
    ensures forall name :: name in names ==>
      NewBuckets(names, now)[name] == BucketState(Limit(name).capacity as real, now)
    decreases |names|
  {
    hide Limit;
    if names != [] {
      NewBucketsAreFull(names[..|names| - 1], now);
      assert names == names[..|names| - 1] + [names[|names| - 1]];
    }
  }

  lemma AllStatic(name: BucketName)
    ensures name in STATIC <==> !name.PerTool?
  {
    assert STATIC[0] == Message && STATIC[1] == MessageHourly && STATIC[2] == AnyTool && STATIC[3] == Run
        && STATIC[4] == RunHourly && STATIC[5] == RunDaily && STATIC[6] == Token;
  }

  /** The call is refused by `chain[i]`: the buckets before it have all granted it. */
  ghost predicate RefusedBy(m: Buckets, chain: seq<BucketName>, now: real, i: nat) {
    && i < |chain| && !Allows(Limit(chain[i]), Lookup(m, chain[i], now), now)
    && forall j :: 0 <= j < i ==> Allows(Limit(chain[j]), Lookup(m, chain[j], now), now)
  }

  /**
   * A call is granted if and only if every bucket of its chain grants it. A refusal comes with
   * the hint of the first bucket that refused: from that many seconds on, and not before, that
   * bucket has a token again.
   */
  lemma {:induction false} CascadeIsExact(m: Buckets, chain: seq<BucketName>, now: real) returns (i: nat)
    requires Distinct(chain)
    requires forall k :: k in m ==> Sound(Limit(k), m[k], now)
    ensures
      var v := Cascade(m, chain, now);
      if v.allowed then
        v.retry == 0.0 && forall j :: 0 <= j < |chain| ==> Allows(Limit(chain[j]), Lookup(m, chain[j], now), now)
      else
        && RefusedBy(m, chain, now, i) && chain[i] in v.buckets
        && forall later :: later >= now ==>
             (Allows(Limit(chain[i]), v.buckets[chain[i]], later) <==> later >= now + v.retry)
    decreases |chain|
  {
    i := 0;
    if chain != [] {
      var c, b := Limit(chain[0]), Lookup(m, chain[0], now);
      var b' := After(c, b, now);
      FreshIsSound(c, now);
      AfterIsSound(c, b, now);
      if Allows(c, b, now) {
        var m' := m[chain[0] := b'];
        SameElsewhere(m, chain, b', now);
        i := CascadeIsExact(m', chain[1..], now);
        i := i + 1;
      } else {
        forall later | later >= now
          ensures Allows(c, b', later) <==> later >= now + RetryAfter(c, b')
        {
          DueMoment(c, b', later);
        }
      }
    }
  }

  lemma FreshIsSound(c: Config, now: real)
    requires c.Valid()
    ensures Sound(c, Fresh(c, now), now)
  {
  }

  lemma SameElsewhere(m: Buckets, chain: seq<BucketName>, b: BucketState, now: real)
    requires chain != [] && Distinct(chain)
    ensures Distinct(chain[1..])
    ensures forall j :: 1 <= j < |chain| ==> Lookup(m[chain[0] := b], chain[j], now) == Lookup(m, chain[j], now)
  {
  }

  /** A bucket that a call needs for the first time is full, and its first calls are granted. */
  lemma NeededBucketsAreFull(m: Buckets, name: BucketName, n: nat, now: real)
    requires name !in m
    ensures Lookup(m, name, now) == BucketState(Limit(name).capacity as real, now)
    ensures Grants(Limit(name), Lookup(m, name, now), seq(n, _ => now), now, now)
         == if n <= Limit(name).capacity then n else Limit(name).capacity
  {
    hide Limit;
    FreshGrantsCapacity(Limit(name), n, now);
  }
}
