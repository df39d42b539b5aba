/**
 * The sliding-window limiter of core/rate_limit.py on one Redis sorted set, shared by
 * replicas, and its single-process form over a list. A request's member is the text of its
 * time, so a set of times stands for the sorted set.
 */
module SlidingWindow {
  import opened FiniteSets

  datatype Limit = Limit(capacity: nat, window: nat) {
    function Span(): real { window as real }
    predicate Valid() { capacity >= 1 && window >= 1 }
  }

  function Max(a: real, b: real): real { if a >= b then a else b }

  /** What `zremrangebyscore key 0 start` leaves. */
  function Pruned(members: set<real>, start: real): set<real> {
    set t | t in members && !(0.0 <= t <= start)
  }

  ghost predicate IsOldest(members: set<real>, oldest: real) {
    oldest in members && forall t :: t in members ==> oldest <= t
  }

  // ---- The protocol between replicas ----

  /**
   * A refused request removes its own entry in a later step of its own, or never if its
   * replica dies first; until then the entry is a phantom that other requests count.
   * `admitted` and `phantoms` record the run; `members` is what Redis holds.
   */
  datatype State = State(
    members: set<real>,
    deadline: real,
    admitted: set<real>,
    phantoms: set<real>,
    clock: real,
    lastCheck: real)

  datatype Event =
    | Check(now: real)      // a replica's pipeline reaches the server
    | Zrem(request: real)   // a refused request takes its entry back
    | Expire(at: real)      // the server drops the key, not before its deadline

  const INIT := State({}, 0.0, {}, {}, 0.0, 0.0)

  predicate Admits(limit: Limit, s: State, now: real) {
    |Pruned(s.members, now - limit.Span())| < limit.capacity
  }

  function Step(limit: Limit, s: State, e: Event): State {
    match e
    case Check(now) =>
      var ok := Admits(limit, s, now);
      s.(members := Pruned(s.members, now - limit.Span()) + {now},
         deadline := now + limit.Span() + 1.0,
         admitted := if ok then s.admitted + {now} else s.admitted,
         phantoms := if ok then s.phantoms else s.phantoms + {now},
         clock := now, lastCheck := now)
    case Zrem(request) =>
      s.(members := s.members - {request}, phantoms := s.phantoms - {request})
    case Expire(at) =>
      s.(members := {}, clock := at)
  }

  /** Checks run at distinct, nondecreasing times; only refused requests take entries back. */
  predicate Enabled(s: State, e: Event) {
    match e
    case Check(now) => s.lastCheck < now && s.clock <= now
    case Zrem(request) => request in s.phantoms
    case Expire(at) => s.deadline <= at && s.clock <= at
  }

  function Run(limit: Limit, s: State, es: seq<Event>): State
    decreases |es|
  {
    if es == [] then s else Run(limit, Step(limit, s, es[0]), es[1..])
  }

  predicate Possible(limit: Limit, s: State, es: seq<Event>)
    decreases |es|
  {
    es == [] || (Enabled(s, es[0]) && Possible(limit, Step(limit, s, es[0]), es[1..]))
  }

  // ---- The sorted set, and one whole check on it ----

  /** The key on the server; `run` is the protocol state it belongs to. */
  class SortedSet {
    const limit: Limit
    var members: set<real>
    var deadline: real  // when the server drops the key
    ghost var run: State

    ghost predicate Valid()
      reads this
    {
      run.members == members && run.deadline == deadline
    }

    constructor (limit: Limit)
      ensures Valid() && run == INIT && this.limit == limit
    {
      this.limit, members, deadline, run := limit, {}, 0.0, INIT;
    }

    /** The MULTI/EXEC pipeline: prune, count, add, push the expiry back. */
    method PruneCountAdd(now: real) returns (count: nat)
      requires Valid()
      modifies this
      ensures Valid() && run == Step(limit, old(run), Event.Check(now))
      ensures count < limit.capacity <==> Admits(limit, old(run), now)
    {
      members := Pruned(members, now - limit.Span());
      count := |members|;
      members := members + {now};
      deadline := now + limit.Span() + 1.0;
      run := Step(limit, run, Event.Check(now));
    }

    method Remove(request: real)
      requires Valid()
      modifies this
      ensures Valid() && run == Step(limit, old(run), Zrem(request))
    {
      members := members - {request};
      run := Step(limit, run, Zrem(request));
    }

    method Drop(at: real)
      requires Valid()
      modifies this
      ensures Valid() && run == Step(limit, old(run), Expire(at))
    {
      members := {};
      run := Step(limit, run, Expire(at));
    }

    /** `zrange key 0 0`: the lowest score, if there is one. */
    method Oldest() returns (found: bool, oldest: real)
      ensures found <==> members != {}
      ensures found ==> IsOldest(members, oldest)
    {
      found, oldest := false, 0.0;
      var rest := members;
      while rest != {}
        invariant rest <= members
        invariant found <==> rest < members
        invariant found ==> oldest in members && forall t :: t in members - rest ==> oldest <= t
        decreases rest
      {
        ghost var some := Pick(rest);
        var t :| t in rest;
        if !found || t < oldest {
          oldest := t;
        }
        found := true;
        assert forall u :: u in members - (rest - {t}) ==> u == t || u in members - rest;
        rest := rest - {t};
      }
      assert members - rest == members;
    }

    /** A whole check by one replica, nothing coming between its two steps. */
    method Check(now: real) returns (allowed: bool, retry: real)
      requires Valid()
      modifies this
      ensures Valid() && allowed == Admits(limit, old(run), now)
      ensures
        var checked := Step(limit, old(run), Event.Check(now));
        run == if allowed then checked else Step(limit, checked, Zrem(now))
      ensures allowed ==> retry == 0.0
      ensures !allowed && members == {} ==> retry == limit.Span()
      ensures !allowed && members != {} ==>
        exists oldest :: IsOldest(members, oldest) && retry == Max(limit.Span() - (now - oldest), 1.0)
    {
      var count := PruneCountAdd(now);
      if count >= limit.capacity {
        Remove(now);
        var found, oldest := Oldest();
        if found {
          return false, Max(limit.Span() - (now - oldest), 1.0);
        }
        return false, limit.Span();
      }
      return true, 0.0;
    }
  }

  /** The times of `ts` in the half-open window (start, start + span]. */
  function Within(ts: set<real>, start: real, span: real): set<real> {
    set t | t in ts && start < t <= start + span
  }

  /** Every entry in Redis is some request's, and every request of the last window is there. */
  ghost predicate Accounted(limit: Limit, s: State) {
    && s.members <= s.admitted + s.phantoms
    && (forall t :: t in s.admitted + s.phantoms && s.clock - limit.Span() < t ==> t in s.members)
  }

  /** The request times so far, and what they say about the key's deadline. */
  ghost predicate Dated(limit: Limit, s: State) {
    && 0.0 <= s.lastCheck <= s.clock && s.admitted !! s.phantoms
    && (forall t :: t in s.admitted + s.phantoms ==> 0.0 < t <= s.lastCheck)
    && (s.admitted + s.phantoms == {} || s.deadline == s.lastCheck + limit.Span() + 1.0)
  }

  ghost predicate Inv(limit: Limit, s: State) {
    Accounted(limit, s) && Dated(limit, s) && Packed(limit, s.admitted)
  }

  /** How many of `ts` fall in the window that ends at `end`. */
  function Load(ts: set<real>, end: real, span: real): nat {
    |Within(ts, end - span, span)|
  }

  /** No window that ends at an admitted request is over the limit. */
  ghost predicate Packed(limit: Limit, admitted: set<real>) {
    forall t :: t in admitted ==> Load(admitted, t, limit.Span()) <= limit.capacity
  }

  lemma OldLoads(admitted: set<real>, now: real, t: real, span: real)
    requires t in admitted && forall u :: u in admitted ==> u < now
    ensures Load(admitted + {now}, t, span) <= Load(admitted, t, span)
  {
    SubsetSize(Within(admitted + {now}, t - span, span), Within(admitted, t - span, span));
  }

  lemma NewLoad(admitted: set<real>, live: set<real>, now: real, span: real)
    requires forall t :: t in admitted && now - span < t ==> t in live
    ensures Load(admitted + {now}, now, span) <= |live| + 1
  {
    SubsetSize(Within(admitted + {now}, now - span, span), live + {now});
  }

  lemma AdmittingKeepsPacked(limit: Limit, admitted: set<real>, live: set<real>, now: real)
    requires Packed(limit, admitted) && |live| < limit.capacity
    requires forall t :: t in admitted ==> t < now
    requires forall t :: t in admitted && now - limit.Span() < t ==> t in live
    ensures Packed(limit, admitted + {now})
  {
    hide Load;
    forall t | t in admitted + {now}
      ensures Load(admitted + {now}, t, limit.Span()) <= limit.capacity
    {
      if t in admitted {
        OldLoads(admitted, now, t, limit.Span());
      } else {
        NewLoad(admitted, live, now, limit.Span());
      }
    }
  }

  /** The times later than `start`. */
  function Since(ts: set<real>, start: real): set<real> {
    set t | t in ts && start < t
  }

  /** What a check counts: the admitted requests and the phantoms of the last `window`. */
  lemma CountIsExact(limit: Limit, s: State, now: real)
    requires Accounted(limit, s) && Dated(limit, s) && Enabled(s, Check(now))
    ensures
      var start := now - limit.Span();
      Pruned(s.members, start)
      == Since(s.admitted, start) + Since(s.phantoms, start)
    ensures Since(s.admitted, now - limit.Span()) !! Since(s.phantoms, now - limit.Span())
  {
  }

  lemma CheckKeepsInv(limit: Limit, s: State, now: real)
    requires Inv(limit, s) && Enabled(s, Check(now))
    ensures Inv(limit, Step(limit, s, Check(now)))
  {
    hide Accounted, Dated, Packed, Step;
    CheckKeepsAccounts(limit, s, now);
    CheckKeepsDates(limit, s, now);
    CheckKeepsPacked(limit, s, now);
  }

  lemma CheckKeepsPacked(limit: Limit, s: State, now: real)
    requires Packed(limit, s.admitted)
    requires forall t :: t in s.admitted ==> t < now
    requires forall t :: t in s.admitted && now - limit.Span() < t ==> t in Pruned(s.members, now - limit.Span())
    ensures Packed(limit, Step(limit, s, Check(now)).admitted)
  {
    hide Packed;
    if Admits(limit, s, now) {
      AdmittingKeepsPacked(limit, s.admitted, Pruned(s.members, now - limit.Span()), now);
    }
  }

  lemma CheckKeepsAccounts(limit: Limit, s: State, now: real)
    requires Accounted(limit, s) && Dated(limit, s) && Enabled(s, Check(now))
    ensures Accounted(limit, Step(limit, s, Check(now)))
    ensures forall t :: t in s.admitted && now - limit.Span() < t ==> t in Pruned(s.members, now - limit.Span())
  {
  }

  lemma CheckKeepsDates(limit: Limit, s: State, now: real)
    requires Dated(limit, s) && Enabled(s, Check(now))
    ensures Dated(limit, Step(limit, s, Check(now)))
    ensures forall t :: t in s.admitted ==> t < now
  {
    assert forall t :: t in s.admitted ==> t in s.admitted + s.phantoms;
  }

  lemma StepKeepsInv(limit: Limit, s: State, e: Event)
    requires Inv(limit, s) && Enabled(s, e)
    ensures Inv(limit, Step(limit, s, e))
  {
    match e {
      case Check(now) => CheckKeepsInv(limit, s, now);
      case Zrem(_) =>
      case Expire(_) =>
    }
  }

  lemma {:induction false} RunKeepsInv(limit: Limit, s: State, es: seq<Event>)
    requires Inv(limit, s) && Possible(limit, s, es)
    ensures Inv(limit, Run(limit, s, es))
    decreases |es|
  {
    if es != [] {
      StepKeepsInv(limit, s, es[0]);
      RunKeepsInv(limit, Step(limit, s, es[0]), es[1..]);
    }
  }

  /**
   * Under every interleaving of checks, late or missing removals and key expiry, no window
   * of length `window` holds more than `capacity` admitted requests.
   */
  lemma WindowIsSafe(limit: Limit, es: seq<Event>, start: real)
    requires Possible(limit, INIT, es)
    ensures |Within(Run(limit, INIT, es).admitted, start, limit.Span())| <= limit.capacity
  {
    RunKeepsInv(limit, INIT, es);
    var admitted := Run(limit, INIT, es).admitted;
    var span := limit.Span();
    var inside := Within(admitted, start, span);
    if inside != {} {
      var latest := Latest(inside);
      SubsetSize(inside, Within(admitted, latest - span, span));
      assert Load(admitted, latest, span) <= limit.capacity;
    }
  }

  lemma {:induction false} Latest(ts: set<real>) returns (latest: real)
    requires ts != {}
    ensures latest in ts && forall t :: t in ts ==> t <= latest
    decreases ts
  {
    latest := Pick(ts);
    var first := latest;
    assert forall t :: t in ts ==> t == first || t in ts - {first};
    if ts != {latest} {
      var other := Latest(ts - {latest});
      if other > latest {
        latest := other;
      }
    }
  }

  /**
   * Phantoms only ever refuse: a request is admitted exactly when the admitted requests and
   * the phantoms of its window together leave room, so whoever is admitted would also be
   * admitted by a log of admitted requests alone.
   */
  lemma PhantomsOnlyRefuse(limit: Limit, es: seq<Event>, now: real)
    requires Possible(limit, INIT, es) && Enabled(Run(limit, INIT, es), Check(now))
    ensures
      var s, start := Run(limit, INIT, es), now - limit.Span();
      && (Admits(limit, s, now) <==>
            |Since(s.admitted, start)| + |Since(s.phantoms, start)| < limit.capacity)
      && (Admits(limit, s, now) ==> |Since(s.admitted, start)| < limit.capacity)
  {
    RunKeepsInv(limit, INIT, es);
    CountsBoth(limit, Run(limit, INIT, es), now);
  }

  lemma CountsBoth(limit: Limit, s: State, now: real)
    requires Accounted(limit, s) && Dated(limit, s) && Enabled(s, Check(now))
    ensures
      |Pruned(s.members, now - limit.Span())|
      == |Since(s.admitted, now - limit.Span())| + |Since(s.phantoms, now - limit.Span())|
  {
    CountIsExact(limit, s, now);
    DisjointSize(Since(s.admitted, now - limit.Span()), Since(s.phantoms, now - limit.Span()));
  }

  lemma DisjointSize<T>(a: set<T>, b: set<T>)
    requires a !! b
    ensures |a + b| == |a| + |b|
  {
  }

  /** The key lives one second longer than the window, so expiry never drops a live entry. */
  lemma ExpiryDropsNothingLive(limit: Limit, es: seq<Event>, at: real, t: real)
    requires Possible(limit, INIT, es) && Enabled(Run(limit, INIT, es), Expire(at))
    requires t in Run(limit, INIT, es).members
    ensures t <= at - limit.Span() - 1.0
  {
    RunKeepsInv(limit, INIT, es);
  }

  /** The server drops the whole key, and no check can tell: all it held was too old to count. */
  lemma ExpiryIsInvisible(limit: Limit, es: seq<Event>, at: real, now: real)
    requires Possible(limit, INIT, es) && Enabled(Run(limit, INIT, es), Expire(at)) && at <= now
    ensures
      var s := Run(limit, INIT, es);
      var s' := Step(limit, s, Expire(at));
      s'.members == {} && (Admits(limit, s', now) <==> Admits(limit, s, now))
  {
    var s := Run(limit, INIT, es);
    forall t | t in s.members
      ensures 0.0 <= t <= now - limit.Span()
    {
      ExpiryDropsNothingLive(limit, es, at, t);
      RunKeepsInv(limit, INIT, es);
    }
    assert Pruned(s.members, now - limit.Span()) == {} == Pruned({}, now - limit.Span());
  }

  // ---- Both conditions on the times are needed ----

  /** The times of the requests that a run admits, each as often as it happens. */
  function Admissions(limit: Limit, es: seq<Event>): seq<real>
    decreases |es|
  {
    if es == [] then []
    else
      var front, last := es[..|es| - 1], es[|es| - 1];
      Admissions(limit, front)
      + if last.Check? && Admits(limit, Run(limit, INIT, front), last.now) then [last.now] else []
  }

  lemma {:induction false} RunAppend(limit: Limit, s: State, es: seq<Event>, e: Event)
    ensures Run(limit, s, es + [e]) == Step(limit, Run(limit, s, es), e)
    ensures Possible(limit, s, es + [e]) <==> Possible(limit, s, es) && Enabled(Run(limit, s, es), e)
    decreases |es|
  {
    hide Step, Enabled;
    if es == [] {
      assert es + [e] == [e];
    } else {
      assert (es + [e])[1..] == es[1..] + [e];
      RunAppend(limit, Step(limit, s, es[0]), es[1..], e);
    }
  }

  predicate Ascending(ts: seq<real>) {
    forall i, j :: 0 <= i < j < |ts| ==> ts[i] < ts[j]
  }

  function Distinct(ts: seq<real>): set<real> {
    set t | t in ts
  }

  lemma AscendingAppend(ts: seq<real>, t: real, last: real)
    requires Ascending(ts) && (forall u :: u in ts ==> u <= last) && last < t
    ensures Ascending(ts + [t]) && Distinct(ts + [t]) == Distinct(ts) + {t}
    ensures forall u :: u in ts + [t] ==> u <= t
  {
    assert forall i :: 0 <= i < |ts| ==> ts[i] in ts;
  }

  /** With the conditions, admissions are distinct: the set of them loses none. */
  lemma {:induction false} AdmissionsAreDistinct(limit: Limit, es: seq<Event>)
    requires Possible(limit, INIT, es)
    ensures Ascending(Admissions(limit, es))
    ensures Run(limit, INIT, es).admitted == Distinct(Admissions(limit, es))
    ensures forall t :: t in Admissions(limit, es) ==> t <= Run(limit, INIT, es).lastCheck
    decreases |es|
  {
    hide Run, Pruned, Admits, Possible, Ascending, Distinct;
    if es == [] {
      NothingAdmitted(limit);
    } else {
      var front, last := es[..|es| - 1], es[|es| - 1];
      assert es == front + [last];
      RunAppend(limit, INIT, front, last);
      AdmissionsAreDistinct(limit, front);
      var s := Run(limit, INIT, front);
      if last.Check? && Admits(limit, s, last.now) {
        AscendingAppend(Admissions(limit, front), last.now, s.lastCheck);
      } else {
        assert Admissions(limit, es) == Admissions(limit, front);
      }
    }
  }

  lemma NothingAdmitted(limit: Limit)
    ensures Ascending(Admissions(limit, [])) && Run(limit, INIT, []).admitted == Distinct(Admissions(limit, []))
  {
  }

  /** A condition dropped: checks may share an instant, or clocks may go back. */
  datatype Lapse = SameInstant | LaggingClock

  predicate EnabledDespite(lapse: Lapse, s: State, e: Event) {
    match e
    case Check(now) =>
      if lapse.SameInstant? then s.lastCheck <= now && s.clock <= now
      else now > 0.0 && now !in s.admitted && now !in s.phantoms
    case _ => Enabled(s, e)
  }

  predicate PossibleDespite(lapse: Lapse, limit: Limit, es: seq<Event>)
    decreases |es|
  {
    es == [] ||
    (var front := es[..|es| - 1];
     PossibleDespite(lapse, limit, front) && EnabledDespite(lapse, Run(limit, INIT, front), es[|es| - 1]))
  }

  /** One more event of such a run. */
  lemma Extended(lapse: Lapse, limit: Limit, es: seq<Event>, e: Event) returns (longer: seq<Event>)
    requires PossibleDespite(lapse, limit, es) && EnabledDespite(lapse, Run(limit, INIT, es), e)
    ensures longer == es + [e] && PossibleDespite(lapse, limit, longer)
    ensures Run(limit, INIT, longer) == Step(limit, Run(limit, INIT, es), e)
    ensures Admissions(limit, longer) == Admissions(limit, es)
      + if e.Check? && Admits(limit, Run(limit, INIT, es), e.now) then [e.now] else []
  {
    hide Step, EnabledDespite, Admits, Run;
    longer := es + [e];
    assert longer[..|longer| - 1] == es;
    RunAppend(limit, INIT, es, e);
  }

  /** What a check does, given the entries that survive its pruning. */
  lemma CheckWith(limit: Limit, s: State, now: real, live: set<real>)
    requires Pruned(s.members, now - limit.Span()) == live
    ensures Admits(limit, s, now) <==> |live| < limit.capacity
    ensures
      var s' := Step(limit, s, Check(now));
      && s'.members == live + {now} && s'.clock == s'.lastCheck == now
      && s'.admitted == (if |live| < limit.capacity then s.admitted + {now} else s.admitted)
      && s'.phantoms == (if |live| < limit.capacity then s.phantoms else s.phantoms + {now})
  {
  }

  lemma ZremWith(limit: Limit, s: State, request: real, rest: set<real>, phantoms: set<real>)
    requires s.members - {request} == rest && s.phantoms - {request} == phantoms
    ensures Step(limit, s, Zrem(request)) == s.(members := rest, phantoms := phantoms)
  {
  }

  /**
   * In one instant any number of requests get through, whatever the limit: they share a
   * member, so they count once, and a refused one takes the admitted one's entry away.
   */
  lemma {:induction false} EqualTimesBreakTheWindow(limit: Limit, t: real, n: nat) returns (es: seq<Event>)
    requires limit.Valid() && t > 0.0
    ensures PossibleDespite(SameInstant, limit, es)
    ensures Admissions(limit, es) == seq(n, _ => t)
    ensures
      var s := Run(limit, INIT, es);
      s.clock <= t && s.lastCheck <= t && s.members <= if limit.capacity == 1 then {} else {t}
    decreases n
  {
    if n == 0 {
      es := [];
    } else {
      hide Run, PossibleDespite, Admissions, Step, Admits, Pruned;
      es := EqualTimesBreakTheWindow(limit, t, n - 1);
      assert seq(n - 1, _ => t) + [t] == seq(n, _ => t);
      var s := Run(limit, INIT, es);
      var live := LiveAtMost(s, t, t - limit.Span());
      CheckWith(limit, s, t, live);
      es := Extended(SameInstant, limit, es, Check(t));
      if limit.capacity == 1 {
        es := RefusedAndGone(limit, es, t);
      } else {
        assert live + {t} == {t};
      }
    }
  }

  /** The next request of the instant is refused and takes the shared member away. */
  lemma RefusedAndGone(limit: Limit, es: seq<Event>, t: real) returns (longer: seq<Event>)
    requires limit.Valid() && limit.capacity == 1 && t > 0.0 && PossibleDespite(SameInstant, limit, es)
    requires var s := Run(limit, INIT, es); s.members == {t} && s.clock == s.lastCheck == t
    ensures PossibleDespite(SameInstant, limit, longer) && Admissions(limit, longer) == Admissions(limit, es)
    ensures var s := Run(limit, INIT, longer); s.members == {} && s.clock == s.lastCheck == t
  {
    hide Run, PossibleDespite, Admissions, Step, Admits, Pruned;
    var s := Run(limit, INIT, es);
    LiveExactly(s, t, limit.Span());
    CheckWith(limit, s, t, {t});
    longer := Extended(SameInstant, limit, es, Check(t));
    var s' := Run(limit, INIT, longer);
    assert {t} + {t} - {t} == {};
    ZremWith(limit, s', t, {}, s'.phantoms - {t});
    longer := Extended(SameInstant, limit, longer, Zrem(t));
    assert Admissions(limit, es) + [] + [] == Admissions(limit, es);
  }

  lemma LiveAtMost(s: State, t: real, start: real) returns (live: set<real>)
    requires s.members <= {t}
    ensures live == Pruned(s.members, start) && live <= {t} && |live| <= 1
    ensures s.members == {} ==> live == {}
  {
    live := Pruned(s.members, start);
    SubsetSize(live, {t});
  }

  lemma LiveExactly(s: State, t: real, span: real)
    requires s.members == {t} && span > 0.0
    ensures Pruned(s.members, t - span) == {t}
  {
  }

  predicate AllWithin(ts: set<real>, low: real, high: real) {
    forall t :: t in ts ==> low < t <= high
  }

  lemma NonePruned(ts: set<real>, low: real, high: real, start: real)
    requires AllWithin(ts, low, high) && start <= low
    ensures Pruned(ts, start) == ts
  {
  }

  lemma AllPruned(ts: set<real>, low: real, high: real, start: real)
    requires AllWithin(ts, low, high) && 0.0 <= low && high <= start
    ensures Pruned(ts, start) == {}
  {
  }

  lemma AnotherWithin(ts: set<real>, low: real, high: real, t: real)
    requires AllWithin(ts, low, high) && low <= high < t
    ensures AllWithin(ts + {t}, low, t) && t !in ts && |ts + {t}| == |ts| + 1
  {
  }

  /** As many requests as the limit allows, all admitted, one after another before 1.5. */
  lemma {:induction false} Filled(limit: Limit, n: nat) returns (es: seq<Event>, last: real)
    requires limit.Valid() && n <= limit.capacity
    ensures PossibleDespite(LaggingClock, limit, es) && 1.0 <= last < 1.5
    ensures
      var s := Run(limit, INIT, es);
      && s.members == s.admitted && |s.members| == n && s.phantoms == {} && AllWithin(s.members, 1.0, last)
    ensures n == 1 ==> Run(limit, INIT, es).members == {last} && last > 1.0
    decreases n
  {
    if n == 0 {
      es, last := [], 1.0;
    } else {
      hide Run, PossibleDespite, Admissions, Step, Admits, Pruned, AllWithin;
      es, last := Filled(limit, n - 1);
      var s := Run(limit, INIT, es);
      var now := (last + 1.5) / 2.0;
      NonePruned(s.members, 1.0, last, now - limit.Span());
      AnotherWithin(s.members, 1.0, last, now);
      CheckWith(limit, s, now, s.members);
      es := Extended(LaggingClock, limit, es, Check(now));
      last := now;
      if n == 1 {
        assert s.members == {} && s.members + {now} == {now};
      }
    }
  }

  /**
   * A replica whose clock lags breaks every limit: it counts a set that faster clocks have
   * already pruned, and is admitted into a window that is full.
   */
  lemma LaggingClockBreaksTheWindow(limit: Limit) returns (es: seq<Event>)
    requires limit.Valid()
    ensures PossibleDespite(LaggingClock, limit, es)
    ensures |Within(Run(limit, INIT, es).admitted, 1.0, limit.Span())| > limit.capacity
  {
    hide Run, PossibleDespite, Admissions;
    var last;
    es, last := Filled(limit, limit.capacity);
    var full := Run(limit, INIT, es).admitted;
    if limit.capacity == 1 {
      es := OneLags(limit, es, last);
    } else {
      es := ManyLag(limit, es, last);
    }
    OverFull(full, last, Run(limit, INIT, es).admitted, limit.Span());
  }

  lemma OverFull(full: set<real>, last: real, admitted: set<real>, span: real)
    requires AllWithin(full, 1.0, last) && last < 1.5 && span >= 1.0 && full + {1.75} <= admitted
    ensures |Within(admitted, 1.0, span)| > |full|
  {
    assert 1.75 !in full;
    SubsetSize(full + {1.75}, Within(admitted, 1.0, span));
  }

  /** A fast clock empties the window's entries but its own, and leaves room. */
  lemma ManyLag(limit: Limit, es: seq<Event>, last: real) returns (longer: seq<Event>)
    requires limit.Valid() && limit.capacity >= 2
    requires PossibleDespite(LaggingClock, limit, es) && 1.0 <= last < 1.5
    requires
      var s := Run(limit, INIT, es);
      s.members == s.admitted && s.phantoms == {} && AllWithin(s.members, 1.0, last)
    ensures PossibleDespite(LaggingClock, limit, longer)
    ensures Run(limit, INIT, es).admitted + {1.75} <= Run(limit, INIT, longer).admitted
  {
    hide Run, PossibleDespite, Admissions, Step, Admits, Pruned;
    var fast := limit.Span() + 2.0;
    var s := Run(limit, INIT, es);
    AllPruned(s.members, 1.0, last, fast - limit.Span());
    CheckWith(limit, s, fast, {});
    longer := Extended(LaggingClock, limit, es, Check(fast));
    NonePruned({fast}, 1.75, fast, 1.75 - limit.Span());
    CheckWith(limit, Run(limit, INIT, longer), 1.75, {fast});
    longer := Extended(LaggingClock, limit, longer, Check(1.75));
  }

  /** With room for one, two refused requests on fast clocks prune the window and withdraw. */
  lemma OneLags(limit: Limit, es: seq<Event>, last: real) returns (longer: seq<Event>)
    requires limit.Valid() && limit.capacity == 1
    requires PossibleDespite(LaggingClock, limit, es) && 1.0 < last < 1.5
    requires
      var s := Run(limit, INIT, es);
      s.members == s.admitted == {last} && s.phantoms == {}
    ensures PossibleDespite(LaggingClock, limit, longer)
    ensures Run(limit, INIT, es).admitted + {1.75} <= Run(limit, INIT, longer).admitted
  {
    hide Run, PossibleDespite, Admissions, Step, Admits, Pruned;
    var first, second := limit.Span() + 1.0, limit.Span() + 1.5;
    NonePruned({last}, 1.0, last, first - limit.Span());
    CheckWith(limit, Run(limit, INIT, es), first, {last});
    longer := Extended(LaggingClock, limit, es, Check(first));
    OneSurvives(last, first, second - limit.Span());
    CheckWith(limit, Run(limit, INIT, longer), second, {first});
    longer := Extended(LaggingClock, limit, longer, Check(second));
    ZremWith(limit, Run(limit, INIT, longer), first, {second}, {second});
    longer := Extended(LaggingClock, limit, longer, Zrem(first));
    ZremWith(limit, Run(limit, INIT, longer), second, {}, {});
    longer := Extended(LaggingClock, limit, longer, Zrem(second));
    NonePruned({}, 1.75, 1.75, 1.75 - limit.Span());
    CheckWith(limit, Run(limit, INIT, longer), 1.75, {});
    longer := Extended(LaggingClock, limit, longer, Check(1.75));
  }

  lemma OneSurvives(old_: real, young: real, start: real)
    requires 0.0 <= old_ <= start < young
    ensures Pruned({old_} + {young}, start) == {young}
  {
  }
}
