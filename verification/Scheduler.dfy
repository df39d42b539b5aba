/** The firing of one schedule by core/scheduler.py, over an abstract cron. */
module Scheduler {
  import opened Options

  /** `next(t)` is the first instant of the cron after `t`. */
  ghost predicate IsCron(next: int -> int) {
    forall t, u :: next(t) > t && (t <= u < next(t) ==> next(u) == next(t))
  }

  ghost predicate IsInstant(next: int -> int, t: int) {
    exists before :: t == next(before)
  }

  /** A job handed over: the instant it was due at, and the reading of the pass that fired it. */
  datatype Job = Job(instant: int, firedAt: int)

  /**
   * Where a pass of the loop stands: it reads the clock, queries the due rows, hands the queried
   * row over - perhaps much later, after the other rows that are due - and only then commits.
   */
  datatype Pass = Asleep | Awake(now: int) | Selected(instant: int, now: int) | Committing(now: int)

  /**
   * The row's `next_run_at`, every job ever handed over, the loop's pass, and the clock
   * readings of jobs that have ended and not yet committed.
   */
  datatype State = State(nextRun: Option<int>, jobs: seq<Job>, pass: Pass, ending: multiset<int>)

  /**
   * The atomic steps; anything else may come between two of them. `now` is always the reading
   * of a clock, and nothing is asked of it: loop and jobs may run on different machines.
   */
  datatype Event =
    | Start(now: int)                   // `start_scheduler` computes an unset next run
    | Wake(now: int)                    // a pass of the loop reads the clock
    | Query(instant: int, now: int)     // the pass finds the row due
    | HandOver(instant: int, now: int)  // and enqueues the job of the row as it was queried
    | Commit(now: int, ok: bool)        // the pass commits the advanced row, or fails to
    | JobEnds(now: int)                 // a job reads the clock
    | JobCommits(now: int, ok: bool)    // it commits the row computed from that reading

  const INIT := State(None, [], Asleep, multiset{})

  predicate Due(s: State) {
    s.pass.Awake? && s.nextRun.Some? && s.nextRun.value <= s.pass.now
  }

  predicate Enabled(s: State, e: Event) {
    match e
    case Start(_) => s.nextRun.None?
    case Wake(_) => !s.pass.Committing?
    case Query(instant, now) => Due(s) && s.pass == Awake(now) && s.nextRun == Some(instant)
    case HandOver(instant, now) => s.pass == Selected(instant, now)
    case Commit(now, _) => s.pass == Committing(now)
    case JobEnds(_) => s.jobs != []  // the queue may run a job more than once
    case JobCommits(now, _) => now in s.ending
  }

  /** The event changes the row. */
  predicate Writes(e: Event) {
    e.Start? || (e.Commit? && e.ok) || (e.JobCommits? && e.ok)
  }

  function Step(next: int -> int, s: State, e: Event): State {
    var s' := if Writes(e) then s.(nextRun := Some(next(e.now))) else s;
    match e
    case Start(_) => s'
    case Wake(now) => s'.(pass := Awake(now))
    case Query(instant, now) => s'.(pass := Selected(instant, now))
    case HandOver(instant, now) =>
      s'.(jobs := s.jobs + [Job(instant, now)], pass := Committing(now))
    case Commit(_, _) => s'.(pass := Asleep)
    case JobEnds(now) => s'.(ending := s.ending + multiset{now})
    case JobCommits(now, _) => s'.(ending := s.ending - multiset{now})
  }

  /** The row, the loop's pass and the jobs, changed in place step by step. */
  class Row {
    const next: int -> int
    var nextRun: Option<int>
    var jobs: seq<Job>
    var pass: Pass
    var ending: multiset<int>

    function Now(): State
      reads this
    {
      State(nextRun, jobs, pass, ending)
    }

    constructor (next: int -> int)
      ensures this.next == next && Now() == INIT
    {
      this.next := next;
      nextRun, jobs, pass, ending := None, [], Asleep, multiset{};
    }

    /** `start_scheduler` leaves rows that have a next run alone. */
    method Start(now: int)
      modifies this
      ensures
        if old(nextRun).None? then Now() == Step(next, old(Now()), Event.Start(now))
        else Now() == old(Now())
    {
      if nextRun.None? {
        nextRun := Some(next(now));
      }
    }

    method Wake(now: int)
      requires !pass.Committing?
      modifies this
      ensures Now() == Step(next, old(Now()), Event.Wake(now))
    {
      pass := Awake(now);
    }

    /** The query for due rows; what it found is kept, whatever becomes of the row. */
    method Query() returns (due: bool)
      requires pass.Awake?
      modifies this
      ensures due == Due(old(Now()))
      ensures due ==> Enabled(old(Now()), Event.Query(old(nextRun.value), old(pass.now)))
      ensures Now() ==
        if due then Step(next, old(Now()), Event.Query(old(nextRun.value), old(pass.now))) else old(Now())
    {
      due := nextRun.Some? && nextRun.value <= pass.now;
      if due {
        pass := Selected(nextRun.value, pass.now);
      }
    }

    /** The enqueueing, when the queried row's turn comes; `enqueued` is false if it raises. */
    method HandOver(enqueued: bool)
      requires pass.Selected?
      modifies this
      ensures Enabled(old(Now()), Event.HandOver(old(pass.instant), old(pass.now)))
      ensures Now() ==
        if enqueued then Step(next, old(Now()), Event.HandOver(old(pass.instant), old(pass.now))) else old(Now())
    {
      if enqueued {
        jobs := jobs + [Job(pass.instant, pass.now)];
        pass := Committing(pass.now);
      }
    }

    /** A failed commit is rolled back: the row keeps whatever it showed. */
    method Commit(ok: bool)
      requires pass.Committing?
      modifies this
      ensures Now() == Step(next, old(Now()), Event.Commit(old(pass.now), ok))
    {
      if ok {
        nextRun := Some(next(pass.now));
      }
      pass := Asleep;
    }

    method JobEnds(now: int)
      requires jobs != []
      modifies this
      ensures Now() == Step(next, old(Now()), Event.JobEnds(now))
    {
      ending := ending + multiset{now};
    }

    /** The job's transaction; it overwrites the row with what its reading gave. */
    method JobCommits(now: int, ok: bool)
      requires now in ending
      modifies this
      ensures Now() == Step(next, old(Now()), Event.JobCommits(now, ok))
    {
      ending := ending - multiset{now};
      if ok {
        nextRun := Some(next(now));
      }
    }
  }

  // ---- Runs ----

  function Front(es: seq<Event>): seq<Event>
    requires es != []
  {
    es[..|es| - 1]
  }

  function Last(es: seq<Event>): Event
    requires es != []
  {
    es[|es| - 1]
  }

  function Run(next: int -> int, es: seq<Event>): State
    decreases |es|
  {
    if es == [] then INIT else Step(next, Run(next, Front(es)), Last(es))
  }

  predicate Possible(next: int -> int, es: seq<Event>)
    decreases |es|
  {
    es == [] || (Possible(next, Front(es)) && Enabled(Run(next, Front(es)), Last(es)))
  }

  // ---- What the events alone tell ----

  function LastJob(es: seq<Event>): Option<Job>
    decreases |es|
  {
    if es == [] then None
    else if Last(es).HandOver? then Some(Job(Last(es).instant, Last(es).now))
    else LastJob(Front(es))
  }

  /** The reading from which the row was last written. */
  function LastWrite(es: seq<Event>): Option<int>
    decreases |es|
  {
    if es == [] then None else if Writes(Last(es)) then Some(Last(es).now) else LastWrite(Front(es))
  }

  /** The run up to its last query: what that query saw. */
  function AtQuery(es: seq<Event>): seq<Event>
    decreases |es|
  {
    if es == [] then [] else if Last(es).Query? then Front(es) else AtQuery(Front(es))
  }

  /** The row was last written from a reading not before the instant last fired. */
  predicate Settled(es: seq<Event>) {
    LastJob(es).Some? ==> LastWrite(es).Some? && LastWrite(es).value >= LastJob(es).value.instant
  }

  /** What was written then also lies after the reading of the pass that fired that instant. */
  predicate Covered(next: int -> int, es: seq<Event>) {
    LastJob(es).Some? ==> LastWrite(es).Some? && next(LastWrite(es).value) > LastJob(es).value.firedAt
  }

  /** Whenever a job is handed over, things were settled at the query that found its row. */
  predicate AlwaysSettled(es: seq<Event>) {
    forall j :: 0 <= j < |es| && es[j].HandOver? ==> Settled(AtQuery(es[..j]))
  }

  predicate AlwaysCovered(next: int -> int, es: seq<Event>) {
    forall j :: 0 <= j < |es| && es[j].HandOver? ==> Covered(next, AtQuery(es[..j]))
  }

  // ---- What holds in every run ----

  lemma NextIsMonotone(next: int -> int, t: int, u: int)
    requires IsCron(next) && t <= u
    ensures next(t) <= next(u)
  {
    if u < next(t) {
      assert next(u) == next(t);
    } else {
      assert next(u) > u;
    }
  }

  /** From which readings the cron goes on past an instant. */
  lemma PastInstant(next: int -> int, instant: int, reading: int)
    requires IsCron(next) && IsInstant(next, instant)
    ensures next(reading) > instant <==> reading >= instant
  {
    var before :| instant == next(before);
    if reading < instant {
      NextIsMonotone(next, reading, if reading <= before then before else reading);
      assert before <= reading < next(before) ==> next(reading) == next(before);
    }
    assert next(reading) > reading;
  }

  /** The last query saw `instant`, and no job has been handed over since. */
  ghost predicate Queried(next: int -> int, es: seq<Event>, instant: int) {
    && LastJob(AtQuery(es)) == LastJob(es)
    && LastWrite(AtQuery(es)).Some? && instant == next(LastWrite(AtQuery(es)).value)
  }

  /** What the events tell about the state they lead to. */
  ghost predicate Explained(next: int -> int, es: seq<Event>, s: State) {
    && s.nextRun == (if LastWrite(es).Some? then Some(next(LastWrite(es).value)) else None)
    && LastJob(es) == (if s.jobs == [] then None else Some(s.jobs[|s.jobs| - 1]))
    && (LastJob(es).Some? ==> LastWrite(es).Some?)
    && (s.pass.Selected? ==>
          s.nextRun.Some? && Queried(next, es, s.pass.instant) && s.pass.instant <= s.pass.now)
    && (s.pass.Committing? ==> LastJob(es).Some? && LastJob(es).value.firedAt == s.pass.now)
  }

  ghost predicate DueJobs(next: int -> int, jobs: seq<Job>) {
    forall i :: 0 <= i < |jobs| ==> jobs[i].instant <= jobs[i].firedAt && IsInstant(next, jobs[i].instant)
  }

  lemma {:induction false} RunIsExplained(next: int -> int, es: seq<Event>)
    requires Possible(next, es)
    ensures Explained(next, es, Run(next, es)) && DueJobs(next, Run(next, es).jobs)
    decreases |es|
  {
    hide Explained, Step, Enabled, DueJobs;
    if es == [] {
      NothingExplained(next);
    } else {
      RunIsExplained(next, Front(es));
      StepIsExplained(next, es, Run(next, Front(es)));
      StepKeepsDueJobs(next, Front(es), Run(next, Front(es)), Last(es));
    }
  }

  lemma NothingExplained(next: int -> int)
    ensures Explained(next, [], INIT) && DueJobs(next, [])
  {
  }

  lemma StepIsExplained(next: int -> int, es: seq<Event>, s: State)
    requires es != [] && Explained(next, Front(es), s) && Enabled(s, Last(es))
    ensures Explained(next, es, Step(next, s, Last(es)))
  {
    hide Front, Last;
  }

  lemma StepKeepsDueJobs(next: int -> int, es: seq<Event>, s: State, e: Event)
    requires Explained(next, es, s) && DueJobs(next, s.jobs) && Enabled(s, e)
    ensures DueJobs(next, Step(next, s, e).jobs)
  {
    hide LastWrite, LastJob, AtQuery;
    if e.HandOver? {
      var reading := LastWrite(AtQuery(es)).value;
      assert e.instant == next(reading);
    }
  }

  lemma {:induction false} PrefixPossible(next: int -> int, es: seq<Event>, n: nat)
    requires Possible(next, es) && n <= |es|
    ensures Possible(next, es[..n])
    ensures n < |es| ==> Enabled(Run(next, es[..n]), es[n])
    decreases |es|
  {
    hide Run, Enabled;
    if n == |es| {
      assert es[..n] == es;
    } else {
      assert Front(es)[..n] == es[..n];
      PrefixPossible(next, Front(es), n);
    }
  }

  // ---- Firing each instant once ----

  /** Later jobs are for later instants, so no instant has two jobs. */
  predicate Rising(jobs: seq<Job>) {
    forall i, j :: 0 <= i < j < |jobs| ==> jobs[i].instant < jobs[j].instant
  }

  /** Each job also covers the instants missed before it was fired. */
  predicate Spaced(jobs: seq<Job>) {
    forall i, j :: 0 <= i < j < |jobs| ==> jobs[i].firedAt < jobs[j].instant
  }

  lemma RisingAppend(jobs: seq<Job>, job: Job)
    ensures Rising(jobs + [job])
       <==> Rising(jobs) && (jobs != [] ==> jobs[|jobs| - 1].instant < job.instant)
  {
    var all := jobs + [job];
    if Rising(all) {
      assert forall i :: 0 <= i < |jobs| ==> all[i] == jobs[i];
      assert all[|jobs|] == job;
    }
  }

  lemma SpacedAppend(jobs: seq<Job>, job: Job)
    requires forall i :: 0 <= i < |jobs| ==> jobs[i].instant <= jobs[i].firedAt
    ensures Spaced(jobs + [job])
       <==> Spaced(jobs) && (jobs != [] ==> jobs[|jobs| - 1].firedAt < job.instant)
  {
    var all := jobs + [job];
    if Spaced(all) {
      assert forall i :: 0 <= i < |jobs| ==> all[i] == jobs[i];
      assert all[|jobs|] == job;
    }
  }

  /** A hand-over goes past the last job's instant exactly if things were settled at its query. */
  lemma {:induction false} HandOverPast(next: int -> int, es: seq<Event>, e: Event)
    requires IsCron(next) && Possible(next, es) && e.HandOver? && Enabled(Run(next, es), e)
    ensures
      var jobs := Run(next, es).jobs;
      && (Settled(AtQuery(es)) <==> (jobs != [] ==> jobs[|jobs| - 1].instant < e.instant))
      && (Covered(next, AtQuery(es)) <==> (jobs != [] ==> jobs[|jobs| - 1].firedAt < e.instant))
  {
    hide Run, Possible, LastWrite, LastJob, AtQuery;
    RunIsExplained(next, es);
    var jobs := Run(next, es).jobs;
    if jobs != [] {
      PastInstant(next, jobs[|jobs| - 1].instant, LastWrite(AtQuery(es)).value);
    }
  }

  lemma AlwaysAppend(next: int -> int, es: seq<Event>)
    requires es != []
    ensures AlwaysSettled(es)
       <==> AlwaysSettled(Front(es)) && (Last(es).HandOver? ==> Settled(AtQuery(Front(es))))
    ensures AlwaysCovered(next, es)
       <==> AlwaysCovered(next, Front(es)) && (Last(es).HandOver? ==> Covered(next, AtQuery(Front(es))))
  {
    hide Settled, Covered, AtQuery;
    assert forall j :: 0 <= j < |Front(es)| ==> Front(es)[j] == es[j] && Front(es)[..j] == es[..j];
    assert es[..|es| - 1] == Front(es);
  }

  lemma {:induction false} RisingIffSettled(next: int -> int, es: seq<Event>)
    requires IsCron(next) && Possible(next, es)
    ensures Rising(Run(next, es).jobs) <==> AlwaysSettled(es)
    ensures Spaced(Run(next, es).jobs) <==> AlwaysCovered(next, es)
    decreases |es|
  {
    hide Rising, Spaced, AlwaysSettled, AlwaysCovered, Settled, Covered, AtQuery, IsCron, Enabled, Step;
    if es == [] {
      NothingYet(next);
    } else {
      RisingIffSettled(next, Front(es));
      AlwaysAppend(next, es);
      StepRises(next, Front(es), Last(es));
    }
  }

  lemma {:induction false} StepRises(next: int -> int, es: seq<Event>, e: Event)
    requires IsCron(next) && Possible(next, es) && Enabled(Run(next, es), e)
    ensures
      var s := Run(next, es);
      && (Rising(Step(next, s, e).jobs) <==> Rising(s.jobs) && (e.HandOver? ==> Settled(AtQuery(es))))
      && (Spaced(Step(next, s, e).jobs) <==> Spaced(s.jobs) && (e.HandOver? ==> Covered(next, AtQuery(es))))
  {
    hide Rising, Spaced, Settled, Covered, AtQuery, IsCron, Run, Possible;
    if e.HandOver? {
      HandOverPast(next, es, e);
      RunIsExplained(next, es);
      RisingAppend(Run(next, es).jobs, Job(e.instant, e.now));
      SpacedAppend(Run(next, es).jobs, Job(e.instant, e.now));
    }
  }

  lemma NothingYet(next: int -> int)
    ensures Rising(Run(next, []).jobs) && Spaced(Run(next, []).jobs)
    ensures AlwaysSettled([]) && AlwaysCovered(next, [])
  {
  }

  /**
   * Whatever comes between the steps of passes and jobs, every job is for a cron instant that
   * had come, and the jobs' instants strictly rise, so that none is fired twice, if and only if
   * for every hand-over, when its row was queried, the row had last been written from a reading
   * not before the instant fired before. What is written after the query makes no difference.
   */
  lemma {:induction false} OneJobPerInstant(next: int -> int, es: seq<Event>)
    requires IsCron(next) && Possible(next, es)
    ensures
      var jobs := Run(next, es).jobs;
      && DueJobs(next, jobs)
      && (Rising(jobs) <==> AlwaysSettled(es))
  {
    RisingIffSettled(next, es);
    RunIsExplained(next, es);
  }

  /**
   * One job covers all instants missed before its pass began, if and only if every query whose
   * row is handed over sees an instant that had not passed when the job before was fired.
   */
  lemma {:induction false} MissedInstantsCoalesce(next: int -> int, es: seq<Event>)
    requires IsCron(next) && Possible(next, es)
    ensures Spaced(Run(next, es).jobs) <==> AlwaysCovered(next, es)
  {
    RisingIffSettled(next, es);
  }

  /**
   * Two hand-overs fire the same instant if and only if, at the query of the second, the row
   * had last been written from a reading before that instant with no other instant in between.
   */
  lemma {:induction false} SameInstantTwiceIff(next: int -> int, es: seq<Event>, i: nat, j: nat)
    requires IsCron(next) && Possible(next, es)
    requires i < j < |es| && es[i].HandOver? && es[j].HandOver?
    ensures LastWrite(AtQuery(es[..j])).Some?
    ensures
      var reading := LastWrite(AtQuery(es[..j])).value;
      es[j].instant == es[i].instant <==> reading < es[i].instant <= next(reading)
  {
    hide IsCron, Possible;
    InstantFromReading(next, es, i);
    InstantFromReading(next, es, j);
    SameNextIff(next, LastWrite(AtQuery(es[..j])).value, es[i].instant);
  }

  /** A hand-over fires what the row showed when it was queried. */
  lemma {:induction false} InstantFromReading(next: int -> int, es: seq<Event>, j: nat)
    requires Possible(next, es) && j < |es| && es[j].HandOver?
    ensures LastWrite(AtQuery(es[..j])).Some? && es[j].instant == next(LastWrite(AtQuery(es[..j])).value)
    ensures IsInstant(next, es[j].instant)
  {
    hide LastWrite, LastJob, AtQuery, Run, Possible;
    PrefixPossible(next, es, j);
    RunIsExplained(next, es[..j]);
    var reading := LastWrite(AtQuery(es[..j])).value;
    assert es[j].instant == next(reading);
  }

  lemma SameNextIff(next: int -> int, reading: int, instant: int)
    requires IsCron(next) && IsInstant(next, instant)
    ensures next(reading) == instant <==> reading < instant <= next(reading)
  {
    PastInstant(next, instant, reading);
    assert next(reading) > reading;
  }

  // ---- The row ----

  lemma ExtendRun(next: int -> int, es: seq<Event>, e: Event)
    ensures Run(next, es + [e]) == Step(next, Run(next, es), e)
    ensures Possible(next, es + [e]) <==> Possible(next, es) && Enabled(Run(next, es), e)
  {
    assert Front(es + [e]) == es;
  }

  /**
   * A write sets a next run after its own reading, and takes the row back if and only if an
   * instant lies after that reading and not after the one the row was last written from.
   * Nothing else moves the row.
   */
  lemma NextRunGoesBackIff(next: int -> int, es: seq<Event>, e: Event)
    requires IsCron(next) && Possible(next, es + [e]) && Run(next, es).nextRun.Some?
    ensures
      var before, after := Run(next, es).nextRun, Run(next, es + [e]).nextRun;
      && after.Some? && LastWrite(es).Some?
      && (!Writes(e) ==> after == before)
      && (Writes(e) ==> after.value > e.now)
      && (after.value < before.value <==> Writes(e) && next(e.now) <= LastWrite(es).value)
  {
    ExtendRun(next, es, e);
    RunIsExplained(next, es);
    if Writes(e) {
      var last := LastWrite(es).value;
      if e.now < last {
        NextIsMonotone(next, e.now, last);
        assert e.now <= last < next(e.now) ==> next(last) == next(e.now);
        assert next(last) > last;
      } else {
        NextIsMonotone(next, last, e.now);
        assert next(e.now) > e.now;
      }
    }
  }

  // ---- When commits succeed ----

  predicate NoCommitFails(es: seq<Event>) {
    forall j :: 0 <= j < |es| ==> !(es[j].Commit? && !es[j].ok)
  }

  /** No job commits a reading taken before the instant last fired. */
  predicate NoLateCommit(es: seq<Event>) {
    forall j :: 0 <= j < |es| && es[j].JobCommits? && es[j].ok && LastJob(es[..j]).Some? ==>
      es[j].now >= LastJob(es[..j]).value.instant
  }

  lemma NeitherInFront(es: seq<Event>)
    requires es != [] && NoCommitFails(es) && NoLateCommit(es)
    ensures NoCommitFails(Front(es)) && NoLateCommit(Front(es))
    ensures !(Last(es).Commit? && !Last(es).ok)
    ensures Last(es).JobCommits? && Last(es).ok && LastJob(Front(es)).Some? ==>
      Last(es).now >= LastJob(Front(es)).value.instant
  {
    hide LastJob;
    assert forall j :: 0 <= j < |Front(es)| ==> Front(es)[j] == es[j] && Front(es)[..j] == es[..j];
    assert es[..|es| - 1] == Front(es);
  }

  lemma {:induction false} CommittedIsSettled(next: int -> int, es: seq<Event>)
    requires Possible(next, es) && NoCommitFails(es) && NoLateCommit(es)
    ensures AlwaysSettled(es)
    ensures Run(next, es).pass.Committing? || Settled(es)
    ensures Run(next, es).pass.Selected? ==> Settled(AtQuery(es))
    decreases |es|
  {
    hide NoCommitFails, NoLateCommit, AlwaysSettled;
    if es == [] {
      NothingYet(next);
    } else {
      NeitherInFront(es);
      CommittedIsSettled(next, Front(es));
      RunIsExplained(next, Front(es));
      AlwaysAppend(next, es);
      JobsWereDue(next, Front(es));
    }
  }

  lemma JobsWereDue(next: int -> int, es: seq<Event>)
    requires Possible(next, es)
    ensures LastJob(es).Some? ==> LastJob(es).value.instant <= LastJob(es).value.firedAt
  {
    RunIsExplained(next, es);
  }

  /**
   * If the loop's commits succeed and no job commits a reading from before the instant last
   * fired, every instant is fired at most once.
   */
  lemma {:induction false} AtMostOncePerInstant(next: int -> int, es: seq<Event>)
    requires IsCron(next) && Possible(next, es) && NoCommitFails(es) && NoLateCommit(es)
    ensures Rising(Run(next, es).jobs)
  {
    CommittedIsSettled(next, es);
    OneJobPerInstant(next, es);
  }

  // ---- Both conditions are needed ----

  /** A cron that is due at every tenth unit of time. */
  function EveryTen(t: int): int {
    (t / 10 + 1) * 10
  }

  lemma EveryTenIsCron()
    ensures IsCron(EveryTen)
  {
  }

  /** One more step of a run, with the state it leads to. */
  lemma Extended(next: int -> int, es: seq<Event>, e: Event) returns (longer: seq<Event>)
    requires Possible(next, es) && Enabled(Run(next, es), e)
    ensures longer == es + [e] && Possible(next, longer)
    ensures Run(next, longer) == Step(next, Run(next, es), e)
  {
    longer := es + [e];
    ExtendRun(next, es, e);
  }

  /** A pass that reads the clock at `now`, finds `instant` due, and hands its job over. */
  lemma Fired(next: int -> int, es: seq<Event>, instant: int, now: int) returns (longer: seq<Event>)
    requires Possible(next, es)
    requires
      var s := Run(next, es);
      !s.pass.Committing? && s.nextRun == Some(instant) && instant <= now
    ensures longer == es + [Wake(now), Query(instant, now), HandOver(instant, now)] && Possible(next, longer)
    ensures
      var s := Run(next, es);
      Run(next, longer)
      == s.(jobs := s.jobs + [Job(instant, now)], pass := Committing(now))
  {
    hide Run, Possible;
    longer := Extended(next, es, Wake(now));
    longer := Extended(next, longer, Query(instant, now));
    longer := Extended(next, longer, HandOver(instant, now));
  }

  /** The first pass of a schedule that is due at 10. */
  lemma FirstPass(ok: bool) returns (es: seq<Event>)
    ensures es == [Start(0), Wake(10), Query(10, 10), HandOver(10, 10), Commit(10, ok)]
    ensures Possible(EveryTen, es)
    ensures Run(EveryTen, es)
         == State(Some(if ok then 20 else 10), [Job(10, 10)], Asleep, multiset{})
  {
    es := Extended(EveryTen, [], Start(0));
    hide Run, Possible;
    es := Fired(EveryTen, es, 10, 10);
    es := Extended(EveryTen, es, Commit(10, ok));
  }

  /** A commit that fails after the hand-over: the next pass fires the instant again. */
  lemma FailedCommitFiresTwice() returns (es: seq<Event>)
    ensures IsCron(EveryTen) && Possible(EveryTen, es)
    ensures es == [
      Start(0), Wake(10), Query(10, 10), HandOver(10, 10), Commit(10, false),
      Wake(11), Query(10, 11), HandOver(10, 11)]
    ensures Run(EveryTen, es).jobs == [Job(10, 10), Job(10, 11)]
  {
    hide Run, Possible;
    EveryTenIsCron();
    es := FirstPass(false);
    es := Fired(EveryTen, es, 10, 11);
  }

  /** Two passes, with the first job ending just before 20 and committing after it was fired. */
  lemma LateCommit() returns (es: seq<Event>)
    ensures es == [
      Start(0), Wake(10), Query(10, 10), HandOver(10, 10), Commit(10, true), JobEnds(19),
      Wake(20), Query(20, 20), HandOver(20, 20), Commit(20, true), JobCommits(19, true)]
    ensures Possible(EveryTen, es)
    ensures Run(EveryTen, es) == State(Some(20), [Job(10, 10), Job(20, 20)], Asleep, multiset{})
  {
    hide Run, Possible;
    es := FirstPass(true);
    es := Extended(EveryTen, es, JobEnds(19));
    es := Fired(EveryTen, es, 20, 20);
    es := Extended(EveryTen, es, Commit(20, true));
    es := Extended(EveryTen, es, JobCommits(19, true));
  }

  /**
   * All commits succeed, but the first job reads the clock just before 20 and commits after
   * the loop has fired 20: the row goes back, and 20 is fired again.
   */
  lemma LateCommitFiresTwice() returns (es: seq<Event>)
    ensures IsCron(EveryTen) && Possible(EveryTen, es)
    ensures es == [
      Start(0), Wake(10), Query(10, 10), HandOver(10, 10), Commit(10, true), JobEnds(19),
      Wake(20), Query(20, 20), HandOver(20, 20), Commit(20, true), JobCommits(19, true),
      Wake(21), Query(20, 21), HandOver(20, 21)]
    ensures Run(EveryTen, es).jobs == [Job(10, 10), Job(20, 20), Job(20, 21)]
  {
    hide Run, Possible;
    EveryTenIsCron();
    es := LateCommit();
    es := Fired(EveryTen, es, 20, 21);
  }

  /**
   * The same although, before the third hand-over, the second job has put the row right from
   * a reading of 22: the pass enqueues the row as it had queried it.
   */
  lemma QueriedRowFiresTwice() returns (es: seq<Event>)
    ensures IsCron(EveryTen) && Possible(EveryTen, es)
    ensures es == [
      Start(0), Wake(10), Query(10, 10), HandOver(10, 10), Commit(10, true), JobEnds(19),
      Wake(20), Query(20, 20), HandOver(20, 20), Commit(20, true), JobCommits(19, true),
      Wake(21), Query(20, 21), JobEnds(22), JobCommits(22, true), HandOver(20, 21)]
    ensures Run(EveryTen, es).jobs == [Job(10, 10), Job(20, 20), Job(20, 21)]
    ensures Run(EveryTen, es).nextRun == Some(30)
  {
    hide Run, Possible;
    EveryTenIsCron();
    es := LateCommit();
    es := Extended(EveryTen, es, Wake(21));
    es := Extended(EveryTen, es, Query(20, 21));
    es := Extended(EveryTen, es, JobEnds(22));
    es := Extended(EveryTen, es, JobCommits(22, true));
    es := Extended(EveryTen, es, HandOver(20, 21));
  }

  /**
   * A late commit can also bring up an instant that an earlier completion had skipped: no
   * instant is fired twice, yet 30 is fired after 40.
   */
  lemma LateCommitFiresOutOfOrder() returns (es: seq<Event>)
    ensures IsCron(EveryTen) && Possible(EveryTen, es)
    ensures Run(EveryTen, es).jobs == [Job(10, 10), Job(20, 20), Job(40, 40), Job(30, 41)]
  {
    hide Run, Possible;
    EveryTenIsCron();
    es := FirstPass(true);
    es := Fired(EveryTen, es, 20, 20);
    es := Extended(EveryTen, es, Commit(20, true));
    es := Extended(EveryTen, es, JobEnds(22));
    es := Extended(EveryTen, es, JobEnds(31));
    es := Extended(EveryTen, es, JobCommits(31, true));
    es := Fired(EveryTen, es, 40, 40);
    es := Extended(EveryTen, es, Commit(40, true));
    es := Extended(EveryTen, es, JobCommits(22, true));
    es := Fired(EveryTen, es, 30, 41);
  }
}
