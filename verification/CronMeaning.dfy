/** When the cron expressions of the schedule parser fire. */
module CronMeaning {
  import opened Text
  import opened NlCron
  import opened NlCronProperties

  /** A minute of the calendar, as far as cron looks at it; Sunday is 0. */
  datatype Moment = Moment(minute: nat, hour: nat, dom: nat, month: nat, dow: nat)

  /** Cron's reading of a field, for the fields the parser emits. */
  predicate FieldHits(field: string, v: nat) {
    if field == "*" then true
    else if "*/" <= field && AllDigits(field[2..]) then
      var n := Number(field[2..]);
      n > 0 && v % n == 0
    else if AllDigits(field) then v == Number(field)
    else (field == "1-5" && 1 <= v <= 5) || (field == "0,6" && (v == 0 || v == 6))
  }

  predicate CronDue(cron: string, m: Moment) {
    var fs := Words(cron);
    |fs| == 5 && FieldHits(fs[0], m.minute) && FieldHits(fs[1], m.hour)
    && FieldHits(fs[2], m.dom) && FieldHits(fs[3], m.month) && FieldHits(fs[4], m.dow)
  }

  /**
   * What the sentence asks for. Intervals are taken as cron takes them, from the full hour or
   * from midnight; `SteadyIffDivides` says when that is every N units.
   */
  predicate PlanDue(plan: Plan, m: Moment) {
    match plan
    case EveryMinutes(n) => n > 0 && m.minute % n == 0
    case EveryHours(n) => n > 0 && m.minute == 0 && m.hour % n == 0
    case Hourly => m.minute == 0
    case Weekdays(t) => Time(m.hour, m.minute) == t && 1 <= m.dow <= 5
    case Weekends(t) => Time(m.hour, m.minute) == t && (m.dow == 0 || m.dow == 6)
    case Weekly(day, t) => Time(m.hour, m.minute) == t && m.dow == day
    case Daily(t) => Time(m.hour, m.minute) == t
    case Monthly(t) => Time(m.hour, m.minute) == t && m.dom == 1
  }

  lemma DecimalField(n: nat, v: nat)
    ensures FieldHits(Decimal(n), v) <==> v == n
  {
    DecimalIsNotSpecial(n);
    NumberOfDecimal(n);
  }

  lemma StepField(n: nat, v: nat)
    ensures FieldHits("*/" + Decimal(n), v) <==> n > 0 && v % n == 0
  {
    NumberOfDecimal(n);
    assert ("*/" + Decimal(n))[2..] == Decimal(n);
  }

  lemma FixedFields(v: nat)
    ensures FieldHits("*", v) && (FieldHits("0", v) <==> v == 0) && (FieldHits("1", v) <==> v == 1)
  {
    DecimalField(0, v);
    DecimalField(1, v);
    assert Decimal(0) == "0" && Decimal(1) == "1";
  }

  lemma DayFields(v: nat)
    ensures FieldHits("1-5", v) <==> 1 <= v <= 5
    ensures FieldHits("0,6", v) <==> v == 0 || v == 6
  {
    assert !IsDigit("1-5"[1]) && !IsDigit("0,6"[1]);
  }

  /** The emitted cron fires exactly when the understood sentence says. */
  lemma CronMeansPlan(plan: Plan, m: Moment)
    requires ValidPlan(plan)
    ensures CronDue(Rendered(plan).cron, m) <==> PlanDue(plan, m)
  {
    FieldsAreSolid(plan);
    hide Decimal, FieldHits, Words, Join, Echo;
    WordsOfJoin(CronFields(plan));
    FixedFields(m.minute);
    FixedFields(m.hour);
    FixedFields(m.dom);
    FixedFields(m.month);
    FixedFields(m.dow);
    DayFields(m.dow);
    match plan {
      case EveryMinutes(n) => StepField(n, m.minute);
      case EveryHours(n) => StepField(n, m.hour);
      case Hourly =>
      case Weekly(day, t) => TimeFields(t, m); DecimalField(day, m.dow);
      case Weekdays(t) => TimeFields(t, m);
      case Weekends(t) => TimeFields(t, m);
      case Daily(t) => TimeFields(t, m);
      case Monthly(t) => TimeFields(t, m);
    }
  }

  lemma TimeFields(t: Time, m: Moment)
    ensures FieldHits(Decimal(t.minute), m.minute) && FieldHits(Decimal(t.hour), m.hour)
       <==> Time(m.hour, m.minute) == t
  {
    DecimalField(t.minute, m.minute);
    DecimalField(t.hour, m.hour);
  }

  /** So whatever plain English is accepted, its cron and its echo stand for one plan. */
  lemma AcceptedTextIsMeant(valid: Validator, text: string, m: Moment)
    requires PlainEnglish(valid, text) && Parse(valid, text).Some?
    ensures
      var understood := Understood(Words(Lower(Stripped(text))));
      && understood.Read?
      && Parse(valid, text).value == Rendered(understood.plan)
      && (CronDue(Parse(valid, text).value.cron, m) <==> PlanDue(understood.plan, m))
  {
    hide Understood, HumanizeCron, CronDue, PlanDue;
    var ws := Words(Lower(Stripped(text)));
    assert Stripped(text) != "" && !LooksLikeCron(valid, Stripped(text));
    PlansAreValid(ws);
    CronMeansPlan(Understood(ws).plan, m);
  }

  // ---- Intervals over unbounded time ----

  /** Unit `t` of an endless run is hit by the step `n` within each `period`. */
  predicate Hits(n: nat, period: nat, t: nat)
    requires n > 0 && period > 0
  {
    (t % period) % n == 0
  }

  function MinuteOf(t: nat, dom: nat, month: nat, dow: nat): Moment {
    Moment(t % 60, (t / 60) % 24, dom, month, dow)
  }

  /** "every N minutes" over minutes counted without end. */
  lemma MinutesHit(n: nat, t: nat, dom: nat, month: nat, dow: nat)
    requires 1 <= n <= 59
    ensures CronDue(Rendered(EveryMinutes(n)).cron, MinuteOf(t, dom, month, dow)) <==> Hits(n, 60, t)
  {
    CronMeansPlan(EveryMinutes(n), MinuteOf(t, dom, month, dow));
  }

  /** "every N hours" at the full hours counted without end. */
  lemma HoursHit(n: nat, hour: nat, dom: nat, month: nat, dow: nat)
    requires 1 <= n <= 23
    ensures CronDue(Rendered(EveryHours(n)).cron, Moment(0, hour % 24, dom, month, dow)) <==> Hits(n, 24, hour)
  {
    CronMeansPlan(EveryHours(n), Moment(0, hour % 24, dom, month, dow));
  }

  /** From hit to hit, always `n` further and nothing between. */
  ghost predicate Steady(n: nat, period: nat)
    requires n > 0 && period > 0
  {
    forall t: nat, u: nat :: Hits(n, period, t) && t < u <= t + n ==> (Hits(n, period, u) <==> u == t + n)
  }

  /** Quotient and remainder are unique. */
  lemma Remainder(k: nat, n: nat, r: nat)
    requires r < n
    ensures (k * n + r) % n == r && (k * n + r) / n == k
  {
    Unique(k, r, (k * n + r) / n, (k * n + r) % n, n);
  }

  lemma Unique(k: int, r: nat, q: int, s: nat, n: nat)
    requires k * n + r == q * n + s && r < n && s < n
    ensures k == q && r == s
  {
    assert (k - q) * n == s - r && (q - k) * n == r - s;
    if k > q {
      AtLeast(k - q, n);
    } else if k < q {
      AtLeast(q - k, n);
    }
  }

  lemma AtLeast(d: int, n: nat)
    requires d >= 1
    ensures d * n >= n
  {
    assert d * n == (d - 1) * n + n;
  }

  lemma HitAt(n: nat, period: nat, k: nat, q: nat)
    requires n > 0 && q < period && q % n == 0
    ensures Hits(n, period, k * period + q)
  {
    Remainder(k, period, q);
  }

  lemma Decompose(t: nat, period: nat) returns (k: nat, r: nat)
    requires period > 0
    ensures t == k * period + r && r == t % period < period
  {
    k, r := t / period, t % period;
  }

  lemma OneMore(k: nat, period: nat)
    ensures (k + 1) * period + 0 == k * period + period
  {
  }

  /** After any unit there is a hit at most `n` units later. */
  lemma GapIsBounded(n: nat, period: nat, t: nat) returns (next: nat)
    requires 1 <= n <= period
    ensures t < next <= t + n && Hits(n, period, next)
  {
    hide Hits;
    var k, r := Decompose(t, period);
    var q := NextMultiple(n, r);
    if q < period {
      next := k * period + q;
      HitAt(n, period, k, q);
    } else {
      next := (k + 1) * period + 0;
      OneMore(k, period);
      HitAt(n, period, k + 1, 0);
    }
  }

  lemma NextMultiple(n: nat, r: nat) returns (q: nat)
    requires n >= 1
    ensures r < q <= r + n && q % n == 0
  {
    var j := r / n;
    q := (j + 1) * n + 0;
    assert q == j * n + n;
    Remainder(j + 1, n, 0);
  }

  lemma ModAdds(a: nat, b: nat, n: nat)
    requires n > 0
    ensures (a * n + b) % n == b % n
  {
    var k, r := b / n, b % n;
    assert b == k * n + r;
    assert a * n + b == (a + k) * n + r;
    Remainder(a + k, n, r);
  }

  /** Where the step divides the period, hits are the multiples of the step. */
  lemma DividingHits(n: nat, period: nat, t: nat)
    requires 1 <= n <= period && period % n == 0
    ensures Hits(n, period, t) <==> t % n == 0
  {
    var k, r, d := t / period, t % period, period / n;
    assert period == d * n && t == k * period + r;
    TimesTimes(k, d, n);
    ModAdds(k * d, r, n);
  }

  lemma TimesTimes(k: nat, d: nat, n: nat)
    ensures k * (d * n) == (k * d) * n
  {
  }

  lemma NextMultipleIs(n: nat, t: nat, u: nat)
    requires n > 0 && t % n == 0 && t < u <= t + n
    ensures u % n == 0 <==> u == t + n
  {
    var k, r := Decompose(t, n);
    if u < t + n {
      Remainder(k, n, u - t);
    } else {
      OneMore(k, n);
      Remainder(k + 1, n, 0);
    }
  }

  lemma DividingIsSteady(n: nat, period: nat)
    requires 1 <= n <= period && period % n == 0
    ensures Steady(n, period)
  {
    forall t: nat, u: nat | Hits(n, period, t) && t < u <= t + n
      ensures Hits(n, period, u) <==> u == t + n
    {
      DividingHits(n, period, t);
      DividingHits(n, period, u);
      NextMultipleIs(n, t, u);
    }
  }

  /** Consecutive firings are always exactly `n` apart if and only if `n` divides the period. */
  lemma SteadyIffDivides(n: nat, period: nat)
    requires 1 <= n <= period
    ensures Steady(n, period) <==> period % n == 0
  {
    hide Hits;
    if period % n == 0 {
      DividingIsSteady(n, period);
    } else {
      var k, r := Decompose(period, n);
      var last := k * n + 0;
      Remainder(k, n, 0);
      HitAt(n, period, 0, last);
      HitAt(n, period, 1, 0);
      assert 0 * period + last == last && 1 * period + 0 == period;
      assert Hits(n, period, last) && Hits(n, period, period) && last < period < last + n;
    }
  }
}
