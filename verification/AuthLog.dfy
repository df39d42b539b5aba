/**
 * The single-process attempt log of `check_auth_rate_limit` in core/rate_limit.py, and its
 * agreement with the Redis sorted set when requests come one after another.
 */
module AuthLog {
  import FiniteSets
  import opened SlidingWindow

  /** The answer to one request: whether it may go on, and the hint if it may not. */
  datatype Answer = Answer(allowed: bool, retry: real)

  datatype Reply = Reply(history: seq<real>, answer: Answer)

  /** The entries later than `cutoff`, in order. */
  function Recent(history: seq<real>, cutoff: real): seq<real>
    decreases |history|
  {
    if history == [] then []
    else (if history[0] > cutoff then [history[0]] else []) + Recent(history[1..], cutoff)
  }

  function Ask(limit: Limit, history: seq<real>, now: real): Reply
    requires limit.Valid()
  {
    var recent := Recent(history, now - limit.Span());
    if |recent| >= limit.capacity then
      Reply(recent, Answer(false, Max(limit.Span() - (now - recent[0]), 1.0)))
    else
      Reply(recent + [now], Answer(true, 0.0))
  }

  const AUTH_LIMIT := Limit(10, 900)

  class AttemptLog {
    var attempts: map<string, seq<real>>

    function History(ident: string): seq<real>
      reads this
    {
      if ident in attempts then attempts[ident] else []
    }

    method Check(ident: string, now: real) returns (allowed: bool, retry: real)
      modifies this
      ensures
        var reply := Ask(AUTH_LIMIT, old(History(ident)), now);
        Answer(allowed, retry) == reply.answer && attempts == old(attempts)[ident := reply.history]
    {
      hide Recent, Max;
      var history := Filter(History(ident), now - AUTH_LIMIT.Span());
      if |history| >= AUTH_LIMIT.capacity {
        retry := AUTH_LIMIT.Span() - (now - history[0]);
        attempts := attempts[ident := history];
        return false, Max(retry, 1.0);
      }
      history := history + [now];
      attempts := attempts[ident := history];
      return true, 0.0;
    }
  }

  /** The list comprehension that prunes. */
  method Filter(all: seq<real>, cutoff: real) returns (history: seq<real>)
    ensures history == Recent(all, cutoff)
  {
    history := [];
    for i := 0 to |all|
      invariant history + Recent(all[i..], cutoff) == Recent(all, cutoff)
    {
      if all[i] > cutoff {
        history := history + [all[i]];
      }
    }
    assert all[|all|..] == [] && history + [] == history;
  }

  // ---- Three ways to answer a run of requests ----

  predicate Rising(from: real, ts: seq<real>)
    decreases |ts|
  {
    ts == [] || (from < ts[0] && Rising(ts[0], ts[1..]))
  }

  /** By the pruned log. */
  function LogAnswers(limit: Limit, history: seq<real>, ts: seq<real>): seq<Answer>
    requires limit.Valid()
    decreases |ts|
  {
    if ts == [] then []
    else
      var reply := Ask(limit, history, ts[0]);
      [reply.answer] + LogAnswers(limit, reply.history, ts[1..])
  }

  /** By counting over the whole log of admitted requests, nothing ever pruned. */
  function CountAnswers(limit: Limit, admitted: seq<real>, ts: seq<real>): seq<Answer>
    requires limit.Valid()
    decreases |ts|
  {
    if ts == [] then []
    else
      var answer := Ask(limit, admitted, ts[0]).answer;
      [answer] + CountAnswers(limit, if answer.allowed then admitted + [ts[0]] else admitted, ts[1..])
  }

  /** The key as the server finds it at `now`. */
  function Found(limit: Limit, s: State, now: real): State {
    if now >= s.deadline then Step(limit, s, Expire(now)) else s
  }

  /** One whole request on the sorted set: expiry if due, the pipeline, and the removal. */
  function Request(limit: Limit, s: State, now: real): State {
    var s0 := Found(limit, s, now);
    var s1 := Step(limit, s0, Event.Check(now));
    if Admits(limit, s0, now) then s1 else Step(limit, s1, Zrem(now))
  }

  lemma {:induction false} OldestExists(members: set<real>) returns (oldest: real)
    requires members != {}
    ensures IsOldest(members, oldest)
    decreases members
  {
    oldest := FiniteSets.Pick(members);
    var first := oldest;
    assert forall t :: t in members ==> t == first || t in members - {first};
    if members != {first} {
      var other := OldestExists(members - {first});
      if other < oldest {
        oldest := other;
      }
    }
  }

  ghost function Oldest(members: set<real>): (oldest: real)
    requires members != {}
    ensures IsOldest(members, oldest)
  {
    assert exists t :: IsOldest(members, t) by { var t := OldestExists(members); }
    var oldest :| IsOldest(members, oldest);
    oldest
  }

  /** The answer to the request at `now`, read off the state it leaves. */
  ghost function AnswerIn(limit: Limit, s: State, now: real): Answer {
    if now in s.admitted then Answer(true, 0.0)
    else if s.members == {} then Answer(false, limit.Span())
    else Answer(false, Max(limit.Span() - (now - Oldest(s.members)), 1.0))
  }

  ghost function RedisAnswer(limit: Limit, s: State, now: real): Answer {
    AnswerIn(limit, Request(limit, s, now), now)
  }

  /** By the sorted set, each request finished before the next. */
  ghost function RedisAnswers(limit: Limit, s: State, ts: seq<real>): seq<Answer>
    decreases |ts|
  {
    if ts == [] then []
    else [RedisAnswer(limit, s, ts[0])] + RedisAnswers(limit, Request(limit, s, ts[0]), ts[1..])
  }

  /** One whole request on the server's key: expiry if it is due, then the check. */
  method CheckRequest(key: SortedSet, now: real) returns (answer: Answer)
    requires key.Valid() && key.limit.Valid() && now !in key.run.admitted
    modifies key
    ensures key.Valid() && key.run == Request(key.limit, old(key.run), now)
    ensures answer == RedisAnswer(key.limit, old(key.run), now)
  {
    hide Max, Pruned;
    if now >= key.deadline {
      key.Drop(now);
    }
    ghost var found := key.run;
    var allowed, retry := key.Check(now);
    answer := Answer(allowed, retry);
    CheckAnswers(key.limit, found, now, allowed, retry);
  }

  /** The contract of a check gives the answer that its state shows. */
  lemma CheckAnswers(limit: Limit, s0: State, now: real, allowed: bool, retry: real)
    requires now !in s0.admitted && allowed == Admits(limit, s0, now)
    requires allowed ==> retry == 0.0
    requires !allowed ==>
      var s := Step(limit, Step(limit, s0, Event.Check(now)), Zrem(now));
      && (s.members == {} ==> retry == limit.Span())
      && (s.members != {} ==>
            exists oldest :: IsOldest(s.members, oldest) && retry == Max(limit.Span() - (now - oldest), 1.0))
    ensures
      var s1 := Step(limit, s0, Event.Check(now));
      Answer(allowed, retry) == AnswerIn(limit, if allowed then s1 else Step(limit, s1, Zrem(now)), now)
  {
  }

  // ---- They agree ----

  predicate Increasing(history: seq<real>) {
    forall i, j :: 0 <= i < j < |history| ==> history[i] < history[j]
  }

  function Elements(history: seq<real>): set<real> {
    set t | t in history
  }

  lemma {:induction false} RecentHolds(history: seq<real>, cutoff: real, t: real)
    ensures t in Recent(history, cutoff) <==> t in history && t > cutoff
    decreases |history|
  {
    if history != [] {
      RecentHolds(history[1..], cutoff, t);
      assert t in history <==> t == history[0] || t in history[1..];
    }
  }

  lemma IncreasingFrom(first: real, rest: seq<real>)
    requires Increasing(rest) && forall i :: 0 <= i < |rest| ==> first < rest[i]
    ensures Increasing([first] + rest)
  {
  }

  lemma IncreasingTail(history: seq<real>)
    requires Increasing(history) && history != []
    ensures Increasing(history[1..]) && forall t :: t in history[1..] ==> history[0] < t
  {
  }

  lemma {:induction false} RecentIncreases(history: seq<real>, cutoff: real)
    requires Increasing(history)
    ensures Increasing(Recent(history, cutoff))
    decreases |history|
  {
    if history == [] {
      assert Recent(history, cutoff) == [];
    } else {
      hide Increasing;
      var rest := Recent(history[1..], cutoff);
      IncreasingTail(history);
      RecentIncreases(history[1..], cutoff);
      forall i | 0 <= i < |rest|
        ensures history[0] < rest[i]
      {
        RecentHolds(history[1..], cutoff, rest[i]);
      }
      IncreasingFrom(history[0], rest);
      assert [] + rest == rest;
    }
  }

  lemma RecentSpec(history: seq<real>, cutoff: real)
    requires Increasing(history)
    ensures Increasing(Recent(history, cutoff))
    ensures forall t :: t in Recent(history, cutoff) <==> t in history && t > cutoff
  {
    hide Recent, Increasing;
    RecentIncreases(history, cutoff);
    forall t
      ensures t in Recent(history, cutoff) <==> t in history && t > cutoff
    {
      RecentHolds(history, cutoff, t);
    }
  }

  lemma {:induction false} ForgetsAll(history: seq<real>, cutoff: real)
    requires forall i :: 0 <= i < |history| ==> history[i] <= cutoff
    ensures Recent(history, cutoff) == []
    decreases |history|
  {
    if history != [] {
      ForgetsAll(history[1..], cutoff);
    }
  }

  lemma {:induction false} RecentOfRecent(history: seq<real>, early: real, late: real)
    requires early <= late
    ensures Recent(Recent(history, early), late) == Recent(history, late)
    decreases |history|
  {
    if history != [] {
      RecentOfRecent(history[1..], early, late);
      var rest := Recent(history[1..], early);
      assert ([history[0]] + rest)[1..] == rest && [] + rest == rest;
    }
  }

  lemma {:induction false} RecentOfAppend(history: seq<real>, t: real, cutoff: real)
    ensures Recent(history + [t], cutoff) == Recent(history, cutoff) + Recent([t], cutoff)
    decreases |history|
  {
    if history != [] {
      RecentOfAppend(history[1..], t, cutoff);
      assert (history + [t])[1..] == history[1..] + [t];
    } else {
      assert history + [t] == [t];
    }
  }

  lemma {:induction false} ElementsSize(history: seq<real>)
    requires Increasing(history)
    ensures |Elements(history)| == |history|
    decreases |history|
  {
    if history != [] {
      ElementsSize(history[1..]);
      assert Elements(history) == Elements(history[1..]) + {history[0]};
    }
  }

  predicate Bounded(history: seq<real>, last: real) {
    forall i :: 0 <= i < |history| ==> 0.0 < history[i] <= last
  }

  /** The sorted set and the list hold the same entries. */
  ghost predicate Coupled(limit: Limit, s: State, history: seq<real>) {
    && 0.0 <= s.lastCheck <= s.clock && s.members == Elements(history) && Increasing(history)
    && Bounded(history, s.lastCheck)
    && (s.members == {} || s.deadline == s.lastCheck + limit.Span() + 1.0)
  }

  lemma RequestAgrees(limit: Limit, s: State, history: seq<real>, now: real)
    requires limit.Valid() && Coupled(limit, s, history) && s.clock <= now && s.lastCheck < now
    requires now !in s.admitted
    ensures RedisAnswer(limit, s, now) == Ask(limit, history, now).answer
  {
    hide Request, Found, Step, Pruned, Recent, Elements;
    var recent := LiveEntries(limit, s, history, now);
    NotYetIn(recent, s.lastCheck, now);
    RequestShape(limit, s, now, Elements(recent));
    ReadsOldest(limit, Request(limit, s, now), recent, now);
  }

  lemma ReadsOldest(limit: Limit, s: State, recent: seq<real>, now: real)
    requires limit.Valid() && Increasing(recent)
    requires now in s.admitted <==> |recent| < limit.capacity
    requires |recent| >= limit.capacity ==> s.members == Elements(recent)
    ensures AnswerIn(limit, s, now) ==
      if |recent| < limit.capacity then Answer(true, 0.0)
      else Answer(false, Max(limit.Span() - (now - recent[0]), 1.0))
  {
    if |recent| >= limit.capacity {
      FirstIsOldest(recent);
    }
  }

  lemma RequestKeepsCoupling(limit: Limit, s: State, history: seq<real>, now: real)
    requires limit.Valid() && Coupled(limit, s, history) && s.clock <= now && s.lastCheck < now
    requires now !in s.admitted
    ensures Coupled(limit, Request(limit, s, now), Ask(limit, history, now).history)
    ensures Request(limit, s, now).clock == Request(limit, s, now).lastCheck == now
  {
    var recent := LiveEntries(limit, s, history, now);
    NotYetIn(recent, s.lastCheck, now);
    RequestShape(limit, s, now, Elements(recent));
    AppendElement(recent, s.lastCheck, now);
  }

  /** The entries both sides keep when a request comes in at `now`. */
  lemma LiveEntries(limit: Limit, s: State, history: seq<real>, now: real) returns (recent: seq<real>)
    requires Coupled(limit, s, history) && s.clock <= now && s.lastCheck < now
    ensures recent == Recent(history, now - limit.Span()) && Increasing(recent)
    ensures Pruned(Found(limit, s, now).members, now - limit.Span()) == Elements(recent)
    ensures |Elements(recent)| == |recent| && Bounded(recent, s.lastCheck)
  {
    recent := Recent(history, now - limit.Span());
    RecentSpec(history, now - limit.Span());
    PruneAgrees(limit, s, history, now);
    ElementsSize(recent);
    assert forall i :: 0 <= i < |recent| ==> recent[i] in recent;
  }

  /** What one whole request leaves, given the entries that survive its pruning. */
  lemma RequestShape(limit: Limit, s: State, now: real, live: set<real>)
    requires now !in live && now !in s.admitted
    requires Pruned(Found(limit, s, now).members, now - limit.Span()) == live
    ensures
      var s' := Request(limit, s, now);
      && s'.clock == s'.lastCheck == now && s'.deadline == now + limit.Span() + 1.0
      && s'.members == (if |live| < limit.capacity then live + {now} else live)
      && (now in s'.admitted <==> |live| < limit.capacity)
  {
    assert live + {now} - {now} == live;
  }

  lemma NotYetIn(history: seq<real>, last: real, now: real)
    requires Bounded(history, last) && last < now
    ensures now !in Elements(history)
  {
  }

  lemma AppendElement(history: seq<real>, last: real, now: real)
    requires Increasing(history) && Bounded(history, last) && 0.0 <= last < now
    ensures Bounded(history + [now], now)
    ensures Elements(history + [now]) == Elements(history) + {now} && Increasing(history + [now])
  {
  }

  lemma FirstIsOldest(history: seq<real>)
    requires Increasing(history) && history != []
    ensures IsOldest(Elements(history), history[0])
    ensures forall t :: IsOldest(Elements(history), t) ==> t == history[0]
  {
    assert history[0] in Elements(history);
  }

  /** Pruning the set keeps what pruning the list keeps, also when the key has expired. */
  lemma PruneAgrees(limit: Limit, s: State, history: seq<real>, now: real)
    requires Coupled(limit, s, history) && s.clock <= now
    ensures Pruned(Found(limit, s, now).members, now - limit.Span())
         == Elements(Recent(history, now - limit.Span()))
  {
    RecentSpec(history, now - limit.Span());
    var recent := Recent(history, now - limit.Span());
    assert forall i :: 0 <= i < |history| ==> history[i] in s.members;
    if now >= s.deadline {
      ForgetsAll(history, now - limit.Span());
    } else {
      assert forall t :: t in Pruned(s.members, now - limit.Span()) <==> t in Elements(recent);
    }
  }

  /**
   * When every refusal takes its entry back before the next request, the sorted set gives
   * the same decision and the same hint as the pruned list, on every sequence of distinct
   * times.
   */
  lemma {:induction false} RedisAgreesWithLog(limit: Limit, s: State, history: seq<real>, ts: seq<real>)
    requires limit.Valid() && Coupled(limit, s, history) && s.clock == s.lastCheck
    requires Rising(s.lastCheck, ts) && forall t :: t in s.admitted ==> t <= s.lastCheck
    ensures RedisAnswers(limit, s, ts) == LogAnswers(limit, history, ts)
    decreases |ts|
  {
    if ts != [] {
      RequestAgrees(limit, s, history, ts[0]);
      RequestKeepsCoupling(limit, s, history, ts[0]);
      var s', reply := Request(limit, s, ts[0]), Ask(limit, history, ts[0]);
      RedisAgreesWithLog(limit, s', reply.history, ts[1..]);
    }
  }

  /** Pruning never changes an answer: the list answers as the full log does. */
  lemma {:induction false} PruningIsInvisible(
    limit: Limit, admitted: seq<real>, history: seq<real>, from: real, ts: seq<real>)
    requires limit.Valid() && Rising(from, ts)
    requires history == Recent(admitted, from - limit.Span())
    ensures LogAnswers(limit, history, ts) == CountAnswers(limit, admitted, ts)
    decreases |ts|
  {
    if ts != [] {
      var now, start := ts[0], ts[0] - limit.Span();
      RecentOfRecent(admitted, from - limit.Span(), start);
      var reply := Ask(limit, history, now);
      var admitted' := if reply.answer.allowed then admitted + [now] else admitted;
      RecentOfAppend(admitted, now, start);
      PruningIsInvisible(limit, admitted', reply.history, now, ts[1..]);
    }
  }

  // ---- The hint ----

  function Final(limit: Limit, history: seq<real>, ts: seq<real>): seq<real>
    requires limit.Valid()
    decreases |ts|
  {
    if ts == [] then history else Final(limit, Ask(limit, history, ts[0]).history, ts[1..])
  }

  /** While every request is refused the log only forgets. */
  lemma {:induction false} RefusalsOnlyForget(limit: Limit, history: seq<real>, from: real, ts: seq<real>, cutoff: real)
    requires limit.Valid() && Rising(from, ts)
    requires forall a :: a in LogAnswers(limit, history, ts) ==> !a.allowed
    requires ts != [] ==> ts[|ts| - 1] - limit.Span() <= cutoff
    ensures Recent(Final(limit, history, ts), cutoff) == Recent(history, cutoff)
    decreases |ts|
  {
    hide Recent, Max;
    if ts != [] {
      var reply := Ask(limit, history, ts[0]);
      var answers := LogAnswers(limit, history, ts);
      assert answers[0] == reply.answer && answers[1..] == LogAnswers(limit, reply.history, ts[1..]);
      assert answers[0] in answers;
      assert forall a :: a in answers[1..] ==> a in answers;
      if ts[1..] != [] {
        RisingBelowLast(ts[0], ts[1..]);
      }
      RefusalsOnlyForget(limit, reply.history, ts[0], ts[1..], cutoff);
      RecentOfRecent(history, ts[0] - limit.Span(), cutoff);
    }
  }

  lemma {:induction false} RisingBelowLast(from: real, ts: seq<real>)
    requires Rising(from, ts) && ts != []
    ensures from < ts[|ts| - 1]
    decreases |ts|
  {
    if |ts| > 1 {
      RisingBelowLast(ts[0], ts[1..]);
    }
  }

  /** In every run from an empty log the history rises and never exceeds the capacity. */
  lemma {:induction false} HistoryIsSound(limit: Limit, history: seq<real>, from: real, ts: seq<real>)
    requires limit.Valid() && Rising(from, ts)
    requires Increasing(history) && |history| <= limit.capacity && forall t :: t in history ==> t <= from
    ensures Increasing(Final(limit, history, ts)) && |Final(limit, history, ts)| <= limit.capacity
    decreases |ts|
  {
    hide Increasing, Recent;
    if ts != [] {
      AskKeepsHistory(limit, history, from, ts[0]);
      HistoryIsSound(limit, Ask(limit, history, ts[0]).history, ts[0], ts[1..]);
    }
  }

  lemma AskKeepsHistory(limit: Limit, history: seq<real>, from: real, now: real)
    requires limit.Valid() && from < now
    requires Increasing(history) && |history| <= limit.capacity && forall t :: t in history ==> t <= from
    ensures
      var h := Ask(limit, history, now).history;
      Increasing(h) && |h| <= limit.capacity && forall t :: t in h ==> t <= now
  {
    var recent := Recent(history, now - limit.Span());
    RecentSpec(history, now - limit.Span());
    RecentShrinks(history, now - limit.Span());
    hide Recent;
    assert forall i :: 0 <= i < |recent| ==> recent[i] in recent;
  }

  /**
   * The hint of a refusal is always sufficient: after any requests `before` from an empty log,
   * if every request between a refusal and `later` is refused too, a request at or after the
   * hinted moment is admitted. A hint above its floor of one second is also necessary.
   */
  lemma HintSuffices(limit: Limit, before: seq<real>, from: real, now: real, ts: seq<real>, later: real)
    requires limit.Valid() && Rising(from, before)
    requires
      var history := Final(limit, [], before);
      && !Ask(limit, history, now).answer.allowed
      && forall a :: a in LogAnswers(limit, Ask(limit, history, now).history, ts) ==> !a.allowed
    requires Rising(now, ts + [later])
    ensures
      var reply := Ask(limit, Final(limit, [], before), now);
      var granted := Ask(limit, Final(limit, reply.history, ts), later).answer.allowed;
      && (later >= now + reply.answer.retry ==> granted)
      && (later < now + reply.answer.retry && reply.answer.retry > 1.0 ==> !granted)
  {
    hide Increasing, Recent;
    NothingIncreases();
    HistoryIsSound(limit, [], from, before);
    HintSufficesFor(limit, Final(limit, [], before), now, ts, later);
  }

  lemma NothingIncreases()
    ensures Increasing([])
  {
  }

  lemma HintSufficesFor(limit: Limit, history: seq<real>, now: real, ts: seq<real>, later: real)
    requires limit.Valid() && Increasing(history) && |history| <= limit.capacity
    requires !Ask(limit, history, now).answer.allowed
    requires Rising(now, ts + [later])
    requires forall a :: a in LogAnswers(limit, Ask(limit, history, now).history, ts) ==> !a.allowed
    ensures
      var reply := Ask(limit, history, now);
      var granted := Ask(limit, Final(limit, reply.history, ts), later).answer.allowed;
      && (later >= now + reply.answer.retry ==> granted)
      && (later < now + reply.answer.retry && reply.answer.retry > 1.0 ==> !granted)
  {
    var reply := Ask(limit, history, now);
    var cutoff := later - limit.Span();
    RefusalKeepsCapacity(limit, history, now);
    PrefixRises(now, ts, later);
    RefusalsOnlyForget(limit, reply.history, now, ts, cutoff);
    OldestDecides(reply.history, cutoff);
  }

  lemma RefusalKeepsCapacity(limit: Limit, history: seq<real>, now: real)
    requires limit.Valid() && Increasing(history) && |history| <= limit.capacity
    requires !Ask(limit, history, now).answer.allowed
    ensures Increasing(Ask(limit, history, now).history)
    ensures |Ask(limit, history, now).history| == limit.capacity
  {
    RecentSpec(history, now - limit.Span());
    RecentShrinks(history, now - limit.Span());
  }

  lemma {:induction false} RecentShrinks(history: seq<real>, cutoff: real)
    ensures |Recent(history, cutoff)| <= |history|
    decreases |history|
  {
    if history != [] {
      RecentShrinks(history[1..], cutoff);
    }
  }

  lemma {:induction false} OldestDecides(history: seq<real>, cutoff: real)
    requires Increasing(history) && history != []
    ensures |Recent(history, cutoff)| < |history| <==> history[0] <= cutoff
    decreases |history|
  {
    RecentShrinks(history[1..], cutoff);
    if history[1..] != [] {
      OldestDecides(history[1..], cutoff);
    }
  }

  lemma {:induction false} PrefixRises(from: real, ts: seq<real>, later: real)
    requires Rising(from, ts + [later])
    ensures Rising(from, ts) && from < later && (ts != [] ==> ts[|ts| - 1] < later)
    decreases |ts|
  {
    if ts != [] {
      assert (ts + [later])[1..] == ts[1..] + [later];
      PrefixRises(ts[0], ts[1..], later);
    }
  }

  // ---- The limit itself ----

  /** The log after a run of requests with nothing ever pruned: the times of those admitted. */
  function AdmittedBy(limit: Limit, admitted: seq<real>, ts: seq<real>): seq<real>
    requires limit.Valid()
    decreases |ts|
  {
    if ts == [] then admitted
    else
      AdmittedBy(limit, if Ask(limit, admitted, ts[0]).answer.allowed then admitted + [ts[0]] else admitted, ts[1..])
  }

  /** Between an admitted request and the one `capacity` places before it lies a whole window. */
  ghost predicate WellSpread(limit: Limit, admitted: seq<real>) {
    forall i, j :: 0 <= i && j == i + limit.capacity && j < |admitted| ==>
      admitted[j] - admitted[i] >= limit.Span()
  }

  lemma {:induction false} ManyRecent(history: seq<real>, cutoff: real, k: nat)
    requires Increasing(history) && k < |history| && history[k] > cutoff
    ensures |Recent(history, cutoff)| >= |history| - k
    decreases |history|
  {
    if k == 0 {
      AllRecent(history, cutoff);
    } else {
      ManyRecent(history[1..], cutoff, k - 1);
    }
  }

  lemma {:induction false} AllRecent(history: seq<real>, cutoff: real)
    requires forall i :: 0 <= i < |history| ==> history[i] > cutoff
    ensures Recent(history, cutoff) == history
    decreases |history|
  {
    if history != [] {
      AllRecent(history[1..], cutoff);
    }
  }

  predicate UpTo(history: seq<real>, last: real) {
    forall i :: 0 <= i < |history| ==> history[i] <= last
  }

  lemma AdmittingSpreads(limit: Limit, admitted: seq<real>, from: real, now: real)
    requires limit.Valid() && WellSpread(limit, admitted) && Increasing(admitted) && UpTo(admitted, from) && from < now
    requires |Recent(admitted, now - limit.Span())| < limit.capacity
    ensures WellSpread(limit, admitted + [now]) && Increasing(admitted + [now]) && UpTo(admitted + [now], now)
  {
    hide Recent;
    var k := |admitted| - limit.capacity;
    if k >= 0 && admitted[k] > now - limit.Span() {
      ManyRecent(admitted, now - limit.Span(), k);
    }
  }

  lemma {:induction false} AdmittedIsSpread(limit: Limit, admitted: seq<real>, from: real, ts: seq<real>)
    requires limit.Valid() && Rising(from, ts)
    requires WellSpread(limit, admitted) && Increasing(admitted) && UpTo(admitted, from)
    ensures WellSpread(limit, AdmittedBy(limit, admitted, ts))
    decreases |ts|
  {
    hide Recent, Max, WellSpread, Increasing;
    if ts != [] {
      var now := ts[0];
      if Ask(limit, admitted, now).answer.allowed {
        AdmittingSpreads(limit, admitted, from, now);
        AdmittedIsSpread(limit, admitted + [now], now, ts[1..]);
      } else {
        AdmittedIsSpread(limit, admitted, now, ts[1..]);
      }
    }
  }

  /**
   * The sign-in limit: of any eleven attempts that are admitted the last comes fifteen minutes
   * or more after the first; and while fewer than ten lie within fifteen minutes, the next is
   * admitted.
   */
  lemma SignInsAreLimited(from: real, ts: seq<real>, i: nat, now: real)
    requires Rising(from, ts)
    ensures
      var admitted := AdmittedBy(AUTH_LIMIT, [], ts);
      && (i + 10 < |admitted| ==> admitted[i + 10] - admitted[i] >= 900.0)
      && (Ask(AUTH_LIMIT, admitted, now).answer.allowed <==> |Recent(admitted, now - 900.0)| < 10)
  {
    hide Recent;
    assert WellSpread(AUTH_LIMIT, []) && Increasing([]) && UpTo([], from);
    AdmittedIsSpread(AUTH_LIMIT, [], from, ts);
    var admitted := AdmittedBy(AUTH_LIMIT, [], ts);
    if i + 10 < |admitted| {
      var j := i + AUTH_LIMIT.capacity;
      assert admitted[j] - admitted[i] >= AUTH_LIMIT.Span();
    }
  }

  /** A hint is the time until the oldest recent attempt leaves the window, but one second at least. */
  lemma HintIs(limit: Limit, history: seq<real>, now: real)
    requires limit.Valid() && !Ask(limit, history, now).answer.allowed
    ensures
      var recent, retry := Recent(history, now - limit.Span()), Ask(limit, history, now).answer.retry;
      && recent != []
      && (if recent[0] + limit.Span() - now >= 1.0 then retry == recent[0] + limit.Span() - now else retry == 1.0)
  {
    hide Recent;
  }
}
