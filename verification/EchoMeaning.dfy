/**
 * The contract of the wizard's echo in core/nl_cron.py, raw cron included: an echo that can
 * be read back never names other moments than the cron does.
 */
module EchoMeaning {
  import opened Options
  import opened Text
  import opened NlCron
  import opened NlCronProperties
  import opened CronMeaning

  /** What the parser makes of an echo. */
  function ReadBack(human: string): Reading {
    Understood(Words(Lower(human)))
  }

  // ---- Times beyond the clock ----

  /** An echoed time can be read back only if it is on the clock. */
  lemma ReadableTimeIsValid(t: Time)
    ensures ParseTime(HumanizeTime(t)).Some? ==> ValidTime(t)
  {
    var h, m := Padded(t.hour), Padded(t.minute);
    var s := HumanizeTime(t);
    PaddedDigits(t.hour);
    PaddedDigits(t.minute);
    LeadingDigitsOf(h, ":" + m);
    assert s == h + (":" + m);
    assert s != "noon" && s != "midnight" by {
      assert s[0] == h[0];
    }
    if |h| == 2 {
      var rest := s[2..];
      assert rest == ":" + m && rest[1..3] == m[..2] && rest[3..] == m[2..];
      NumberOfPadded(t.hour);
      assert s[..2] == h;
      if |m| > 2 {
        assert IsDigit(m[2..][0]) && LeftTrimmed(m[2..]) == m[2..];
      } else {
        NumberOfPadded(t.minute);
        assert m[..2] == m && m[2..] == "";
      }
    }
  }

  // ---- Sentences ----

  /** Plain words joined are read back as they are. */
  lemma JoinedIsReadBack(ws: seq<string>)
    requires AllPlain(ws)
    ensures ReadBack(Join(ws)) == Understood(ws)
  {
    hide Understood, Plain, Solid;
    PlainWordsAreStable(ws);
    LowerOfJoin(ws);
    WordsOfJoin(ws);
  }

  lemma TailIsRead(ws: seq<string>, k: nat, t: Time)
    requires |ws| == k + 2 && ws[k] == "at" && ws[k + 1] == HumanizeTime(t)
    ensures TailAt(ws, k) == At(HumanizeTime(t))
  {
    assert ws[k + 1..] == [HumanizeTime(t)];
  }

  /** A timed echo, whatever its time: readable only as the plan it names. */
  lemma TimedEchoReadBack(plan: Plan)
    requires plan.Daily? || plan.Monthly? || (plan.Weekly? && plan.day <= 6)
    ensures Understood(Heard(plan)).Read? ==> ValidPlan(plan) && Understood(Heard(plan)) == Read(plan)
  {
    hide ParseTime, HumanizeTime, DayNumber, LeadingDigits, Number, DayWord;
    var ws := Heard(plan);
    ReadableTimeIsValid(plan.time);
    NoInterval(ws);
    if plan.Daily? {
      TailIsRead(ws, 2, plan.time);
      NotADay();
    } else if plan.Monthly? {
      TailIsRead(ws, 4, plan.time);
    } else {
      TailIsRead(ws, 2, plan.time);
      HeardDay(plan.day);
      NotWeekday(plan.day);
    }
    if ValidTime(plan.time) {
      HeardIsUnderstood(plan);
    }
  }

  lemma NotWeekday(day: nat)
    requires day <= 6
    ensures DayWord(day) != "weekday" && DayWord(day) != "weekdays"
    ensures DayWord(day) != "weekend" && DayWord(day) != "weekends"
    ensures DayWord(day) != "day"
  {
  }

  /** "every X unit" is read only as an interval. */
  lemma IntervalReadBack(x: string, unit: string)
    requires unit == "minutes" || unit == "hours"
    ensures
      var r := Understood(["every", x, unit]);
      r.Read? ==>
        && AllDigits(x) && ValidPlan(r.plan)
        && r.plan == (if unit == "minutes" then EveryMinutes(Number(x)) else EveryHours(Number(x)))
  {
    hide ParseTime, DayNumber, Number, LeadingDigits, AllDigits;
    var ws := ["every", x, unit];
    assert TailAt(ws, 2) == Unrelated;
    assert PartOfDay(unit) == None;
  }

  lemma NamelessIsNotRead(unit: string)
    requires unit == "minutes" || unit == "hours"
    ensures !Understood(["every", unit]).Read?
  {
    assert LeadingDigits(unit) == 0;
    assert DayNumber(unit) == None;
  }

  /** A sentence that starts with another word is never read. */
  lemma ForeignIsNotRead(ws: seq<string>)
    requires ws != [] && ws[0] == "cron"
    ensures !Understood(ws).Read?
  {
  }

  lemma NumberedWeekdayIsNotRead(dow: string, time: string)
    requires AllDigits(dow)
    ensures !Understood(["every", "weekday", dow, "at", time]).Read?
  {
    hide ParseTime, LeadingDigits, Number;
    var ws := ["every", "weekday", dow, "at", time];
    assert dow != "at" by {
      assert IsDigit(dow[0]);
    }
    assert TailAt(ws, 2) == Unrelated;
    assert DayNumber("weekday") == None;
    NoInterval(ws);
  }

  // ---- Reading back the descriptions ----

  lemma LowerConcat(a: string, b: string)
    ensures Lower(a + b) == Lower(a) + Lower(b)
  {
  }

  lemma FallbackReadBack(cron: string)
    ensures !ReadBack("cron `" + cron + "`").Read?
  {
    hide Understood;
    var rest := "`" + cron + "`";
    assert "cron `" + cron + "`" == "cron" + (" " + rest);
    LowerConcat("cron", " " + rest);
    LowerConcat(" ", rest);
    assert Lower("cron") == "cron" && Lower(" ") == " ";
    var tail := " " + Lower(rest);
    SplitWord("", "cron", tail);
    assert "" + "cron" == "cron" && tail[1..] == Lower(rest);
    assert Words("cron" + tail)[0] == "cron";
    ForeignIsNotRead(Words("cron" + tail));
  }

  lemma LowerKeepsSolid(s: string)
    requires forall i :: 0 <= i < |s| ==> !IsSpace(s[i])
    ensures forall i :: 0 <= i < |s| ==> !IsSpace(Lower(s)[i])
    ensures AllDigits(Lower(s)) ==> Lower(s) == s
  {
    if AllDigits(Lower(s)) {
      assert forall i :: 0 <= i < |s| ==> IsDigit(Lower(s)[i]);
    }
  }

  /** The description of a step field: "every X unit", for any text X after the step sign. */
  lemma StepReadBack(x: string, unit: string)
    requires unit == "minutes" || unit == "hours"
    requires forall i :: 0 <= i < |x| ==> !IsSpace(x[i])
    ensures
      var r := ReadBack("every " + x + " " + unit);
      r.Read? ==>
        && AllDigits(x) && ValidPlan(r.plan)
        && r.plan == (if unit == "minutes" then EveryMinutes(Number(x)) else EveryHours(Number(x)))
  {
    hide Understood, ValidPlan, Number, Lower, Words, Solid;
    var y := Lower(x);
    LowerKeepsSolid(x);
    UnitIsPlain(unit);
    LowerStep(x, unit);
    SplitStep(y, unit);
    if x == "" {
      NamelessIsNotRead(unit);
    } else {
      IntervalReadBack(y, unit);
    }
  }

  lemma LowerStep(x: string, unit: string)
    requires Lower(unit) == unit
    ensures Lower("every " + x + " " + unit) == "every " + (Lower(x) + (" " + unit))
    ensures |Lower(x)| == |x|
  {
    assert "every " + x + " " + unit == "every " + (x + (" " + unit));
    assert Lower("every ") == "every " && Lower(" ") == " ";
    assert |Lower(x)| == |x|;
    hide Lower;
    LowerConcat("every ", x + (" " + unit));
    LowerConcat(x, " " + unit);
    LowerConcat(" ", unit);
  }

  lemma UnitIsPlain(unit: string)
    requires unit == "minutes" || unit == "hours"
    ensures Solid(unit) && Lower(unit) == unit
  {
    assert Plain(unit);
    PlainIsStable(unit);
  }

  lemma SplitStep(y: string, unit: string)
    requires (forall i :: 0 <= i < |y| ==> !IsSpace(y[i])) && Solid(unit)
    ensures Words("every " + (y + (" " + unit))) == if y == "" then ["every", unit] else ["every", y, unit]
  {
    var tail := " " + unit;
    var rest := " " + (y + tail);
    assert "every " + (y + tail) == "every" + rest;
    SplitWord("", "every", rest);
    assert "" + "every" == "every" && rest[1..] == y + tail;
    SplitWord("", y, tail);
    assert "" + y == y && tail[1..] == unit;
    SplitWord("", unit, "");
    assert unit + "" == unit && "" + unit == unit;
  }

  // ---- Fields ----

  lemma DigitsField(f: string, v: nat)
    requires AllDigits(f)
    ensures FieldHits(f, v) <==> v == Number(f)
  {
    assert IsDigit(f[0]);
  }

  lemma StepFieldHits(x: string, v: nat)
    requires AllDigits(x)
    ensures FieldHits("*/" + x, v) <==> Number(x) > 0 && v % Number(x) == 0
  {
    assert ("*/" + x)[2..] == x;
  }

  // ---- The contract ----

  /** A description that is a plan's echo stands for the cron if the cron means the plan. */
  ghost predicate Faithful(human: string, parts: seq<string>)
    requires |parts| == 5
  {
    forall plan, m :: ReadBack(human) == Read(plan) ==> (PartsDue(parts, m) <==> PlanDue(plan, m))
  }

  predicate PartsDue(fs: seq<string>, m: Moment)
    requires |fs| == 5
  {
    FieldHits(fs[0], m.minute) && FieldHits(fs[1], m.hour)
    && FieldHits(fs[2], m.dom) && FieldHits(fs[3], m.month) && FieldHits(fs[4], m.dow)
  }

  lemma EchoReadBack(plan: Plan)
    requires ValidPlan(plan)
    ensures ReadBack(Join(Echo(plan))) == Read(plan)
  {
    hide Understood, Heard, Echo;
    EchoWords(plan);
    LowerOfJoin(Echo(plan));
    WordsOfJoin(Heard(plan));
    HeardIsUnderstood(plan);
  }

  /** If the echo of a plan is read back at all, it is read back as that plan. */
  lemma TimedReadBack(plan: Plan)
    requires plan.Daily? || plan.Monthly? || (plan.Weekly? && plan.day <= 6)
    ensures ReadBack(Join(Echo(plan))).Read? ==> ReadBack(Join(Echo(plan))) == Read(plan)
  {
    hide Understood, Heard, Echo;
    EchoWords(plan);
    LowerOfJoin(Echo(plan));
    WordsOfJoin(Heard(plan));
    TimedEchoReadBack(plan);
  }

  lemma FaithfulTo(human: string, parts: seq<string>, plan: Plan)
    requires |parts| == 5
    requires ReadBack(human).Read? ==> ReadBack(human) == Read(plan)
    requires forall m :: PartsDue(parts, m) <==> PlanDue(plan, m)
    ensures Faithful(human, parts)
  {
  }

  lemma UnreadIsFaithful(human: string, parts: seq<string>)
    requires |parts| == 5 && !ReadBack(human).Read?
    ensures Faithful(human, parts)
  {
  }

  /** The two digit fields of a timed cron hit its time. */
  lemma TimePartsHit(minute: string, hour: string, m: Moment)
    requires AllDigits(minute) && AllDigits(hour)
    ensures FieldHits(minute, m.minute) && FieldHits(hour, m.hour)
       <==> Time(m.hour, m.minute) == Time(Number(hour), Number(minute))
  {
    DigitsField(minute, m.minute);
    DigitsField(hour, m.hour);
  }

  lemma TimedPartsMean(parts: seq<string>, plan: Plan, m: Moment)
    requires |parts| == 5 && AllDigits(parts[0]) && AllDigits(parts[1]) && parts[3] == "*"
    requires plan.Daily? || plan.Monthly? || plan.Weekly?
    requires plan.time == Time(Number(parts[1]), Number(parts[0]))
    requires parts[2] == (if plan.Monthly? then "1" else "*")
    requires if plan.Weekly? then AllDigits(parts[4]) && Number(parts[4]) == plan.day else parts[4] == "*"
    ensures PartsDue(parts, m) <==> PlanDue(plan, m)
  {
    hide FieldHits, Number, AllDigits;
    TimePartsHit(parts[0], parts[1], m);
    FixedFields(m.dom);
    FixedFields(m.month);
    FixedFields(m.dow);
    if plan.Weekly? {
      DigitsField(parts[4], m.dow);
    }
  }

  lemma TimedIsFaithful(human: string, parts: seq<string>, plan: Plan)
    requires |parts| == 5 && AllDigits(parts[0]) && AllDigits(parts[1]) && parts[3] == "*"
    requires plan.Daily? || plan.Monthly? || (plan.Weekly? && plan.day <= 6)
    requires plan.time == Time(Number(parts[1]), Number(parts[0]))
    requires parts[2] == (if plan.Monthly? then "1" else "*")
    requires if plan.Weekly? then AllDigits(parts[4]) && Number(parts[4]) == plan.day else parts[4] == "*"
    requires human == Join(Echo(plan))
    ensures Faithful(human, parts)
  {
    hide PartsDue, PlanDue, ReadBack, Echo, Join, Number, AllDigits;
    TimedReadBack(plan);
    forall m
      ensures PartsDue(parts, m) <==> PlanDue(plan, m)
    {
      TimedPartsMean(parts, plan, m);
    }
    FaithfulTo(human, parts, plan);
  }

  lemma StepPartsMean(parts: seq<string>, x: string, hourly: bool, m: Moment)
    requires |parts| == 5 && AllDigits(x) && Number(x) > 0
    requires AnyDay(parts)
    requires if hourly then parts[0] == "0" && parts[1] == "*/" + x else parts[0] == "*/" + x && parts[1] == "*"
    ensures PartsDue(parts, m) <==> PlanDue(if hourly then EveryHours(Number(x)) else EveryMinutes(Number(x)), m)
  {
    hide FieldHits, Number, AllDigits;
    StepFieldHits(x, m.minute);
    StepFieldHits(x, m.hour);
    FixedFields(m.minute);
    FixedFields(m.hour);
    FixedFields(m.dom);
    FixedFields(m.month);
    FixedFields(m.dow);
  }

  lemma StepIsFaithful(parts: seq<string>, x: string, hourly: bool)
    requires |parts| == 5 && AllSolid(parts) && AnyDay(parts)
    requires if hourly then parts[0] == "0" && parts[1] == "*/" + x else parts[0] == "*/" + x && parts[1] == "*"
    ensures Faithful("every " + x + (if hourly then " hours" else " minutes"), parts)
  {
    var unit := if hourly then "hours" else "minutes";
    var human := "every " + x + " " + unit;
    assert human == "every " + x + (if hourly then " hours" else " minutes");
    assert forall i :: 0 <= i < |x| ==> x[i] == ("*/" + x)[i + 2];
    StepReadBack(x, unit);
    if ReadBack(human).Read? {
      var plan := ReadBack(human).plan;
      forall m
        ensures PartsDue(parts, m) <==> PlanDue(plan, m)
      {
        StepPartsMean(parts, x, hourly, m);
      }
      FaithfulTo(human, parts, plan);
    }
  }

  lemma NineIsFaithful(parts: seq<string>, weekdays: bool)
    requires |parts| == 5 && parts[0] == "0" && parts[1] == "9" && parts[2] == "*" && parts[3] == "*"
    requires parts[4] == (if weekdays then "1-5" else "*")
    ensures Faithful(if weekdays then "every weekday at 09:00" else "every day at 09:00", parts)
  {
    var plan := if weekdays then Weekdays(Time(9, 0)) else Daily(Time(9, 0));
    var human := Join(Echo(plan));
    NineEcho(weekdays);
    EchoReadBack(plan);
    hide FieldHits, ReadBack, Join, Echo;
    NineOClock();
    forall m
      ensures PartsDue(parts, m) <==> PlanDue(plan, m)
    {
      DecimalField(0, m.minute);
      DecimalField(9, m.hour);
      FixedFields(m.dom);
      FixedFields(m.month);
      FixedFields(m.dow);
      DayFields(m.dow);
    }
    FaithfulTo(human, parts, plan);
  }

  lemma NineEcho(weekdays: bool)
    ensures Join(Echo(if weekdays then Weekdays(Time(9, 0)) else Daily(Time(9, 0))))
         == if weekdays then "every weekday at 09:00" else "every day at 09:00"
  {
    NineOClock();
    hide HumanizeTime;
    JoinFour("every", if weekdays then "weekday" else "day", "at", "09:00");
  }

  lemma HourlyIsFaithful(parts: seq<string>)
    requires |parts| == 5 && parts[0] == "0" && parts[1] == "*" && AnyDay(parts)
    ensures Faithful("every hour on the hour", parts)
  {
    hide FieldHits, Join, ReadBack;
    HourlyEcho();
    EchoReadBack(Hourly);
    forall m
      ensures PartsDue(parts, m) <==> PlanDue(Hourly, m)
    {
      FixedFields(m.minute);
      FixedFields(m.hour);
      FixedFields(m.dom);
      FixedFields(m.month);
      FixedFields(m.dow);
    }
    FaithfulTo("every hour on the hour", parts, Hourly);
  }

  lemma OtherDayIsFaithful(parts: seq<string>, dow: string, t: Time)
    requires |parts| == 5 && AllDigits(dow)
    ensures Faithful("every " + ("weekday " + dow) + " at " + HumanizeTime(t), parts)
  {
    var ws := ["every", "weekday", dow, "at", HumanizeTime(t)];
    var human := "every " + ("weekday " + dow) + " at " + HumanizeTime(t);
    TimeWordIsPlain(t);
    hide HumanizeTime, Understood, Faithful;
    assert Plain("every") && Plain("weekday") && Plain(dow) && Plain("at");
    JoinFive("every", "weekday", dow, "at", HumanizeTime(t));
    assert "every" + " " + "weekday" + " " + dow + " " + "at" + " " == "every " + ("weekday " + dow) + " at ";
    assert human == Join(ws);
    JoinedIsReadBack(ws);
    NumberedWeekdayIsNotRead(dow, HumanizeTime(t));
    UnreadIsFaithful(human, parts);
  }

  lemma JoinFive(a: string, b: string, c: string, d: string, e: string)
    ensures Join([a, b, c, d, e]) == a + " " + b + " " + c + " " + d + " " + e
  {
    assert [a, b, c, d, e][1..] == [b, c, d, e];
    JoinFour(b, c, d, e);
    assert a + " " + (b + " " + c + " " + d + " " + e) == a + " " + b + " " + c + " " + d + " " + e;
  }

  lemma DailyIsFaithful(parts: seq<string>, t: Time)
    requires |parts| == 5 && AllDigits(parts[0]) && AllDigits(parts[1]) && AnyDay(parts)
    requires t == Time(Number(parts[1]), Number(parts[0]))
    ensures Faithful("every day at " + HumanizeTime(t), parts)
  {
    hide Faithful, HumanizeTime, Number, AllDigits;
    JoinFour("every", "day", "at", HumanizeTime(t));
    assert "every" + " " + "day" + " " + "at" + " " == "every day at ";
    TimedIsFaithful("every day at " + HumanizeTime(t), parts, Daily(t));
  }

  lemma MonthlyIsFaithful(parts: seq<string>, t: Time)
    requires |parts| == 5 && AllDigits(parts[0]) && AllDigits(parts[1])
    requires parts[2] == "1" && parts[3] == "*" && parts[4] == "*"
    requires t == Time(Number(parts[1]), Number(parts[0]))
    ensures Faithful("first of every month at " + HumanizeTime(t), parts)
  {
    hide Faithful, HumanizeTime, Number, AllDigits;
    JoinSix("first", "of", "every", "month", "at", HumanizeTime(t));
    assert "first" + " " + "of" + " " + "every" + " " + "month" + " " + "at" + " "
        == "first of every month at ";
    TimedIsFaithful("first of every month at " + HumanizeTime(t), parts, Monthly(t));
  }

  lemma WeeklyIsFaithful(parts: seq<string>, t: Time)
    requires |parts| == 5 && AllDigits(parts[0]) && AllDigits(parts[1])
    requires parts[2] == "*" && parts[3] == "*" && AllDigits(parts[4]) && Number(parts[4]) <= 6
    requires t == Time(Number(parts[1]), Number(parts[0]))
    ensures Faithful("every " + DayLabel(Number(parts[4])) + " at " + HumanizeTime(t), parts)
  {
    hide Faithful, HumanizeTime, DayLabel;
    var day := Number(parts[4]);
    var human := "every " + DayLabel(day) + " at " + HumanizeTime(t);
    JoinFour("every", DayLabel(day), "at", HumanizeTime(t));
    assert "every" + " " + DayLabel(day) + " " + "at" + " " == "every " + DayLabel(day) + " at ";
    TimedIsFaithful(human, parts, Weekly(day, t));
  }

  /**
   * The description of any cron of five fields, if the parser can read it back, names exactly
   * the moments at which the cron fires.
   */
  lemma DescriptionIsFaithful(cron: string)
    requires |Words(cron)| == 5
    ensures Faithful(HumanizeCron(cron), Words(cron))
  {
    hide Faithful, HumanizeTime, Number, DayLabel, Words;
    var parts := Words(cron);
    var minute, hour, dom, month, dow := parts[0], parts[1], parts[2], parts[3], parts[4];
    FieldsOf(cron);
    if minute == "0" && hour == "9" && dom == "*" && month == "*" && dow == "1-5" {
      NineIsFaithful(parts, true);
    } else if minute == "0" && hour == "9" && AnyDay(parts) {
      NineIsFaithful(parts, false);
    } else if "*/" <= minute && hour == "*" && AnyDay(parts) {
      assert minute == "*/" + minute[2..];
      StepIsFaithful(parts, minute[2..], false);
    } else if minute == "0" && "*/" <= hour && AnyDay(parts) {
      assert hour == "*/" + hour[2..];
      StepIsFaithful(parts, hour[2..], true);
    } else if minute == "0" && hour == "*" && AnyDay(parts) {
      HourlyIsFaithful(parts);
    } else if AllDigits(minute) && AllDigits(hour) && AnyDay(parts) {
      DailyIsFaithful(parts, Time(Number(hour), Number(minute)));
    } else if AllDigits(minute) && AllDigits(hour) && dom == "*" && month == "*" && AllDigits(dow) {
      if Number(dow) <= 6 {
        WeeklyIsFaithful(parts, Time(Number(hour), Number(minute)));
      } else {
        OtherDayIsFaithful(parts, dow, Time(Number(hour), Number(minute)));
      }
    } else if AllDigits(minute) && AllDigits(hour) && dom == "1" && month == "*" && dow == "*" {
      MonthlyIsFaithful(parts, Time(Number(hour), Number(minute)));
    } else {
      FallbackReadBack(cron);
      UnreadIsFaithful(HumanizeCron(cron), parts);
    }
  }

  lemma FieldsOf(cron: string)
    ensures AllSolid(Words(cron))
  {
    SplitIsSolid("", cron);
  }

  /**
   * Echo and confirm: for every text the parser accepts, plain English or cron, an echo that
   * reads as a plan stands for exactly the moments at which the stored cron fires.
   */
  lemma EchoNeverMisleads(valid: Validator, text: string, plan: Plan, m: Moment)
    requires Parse(valid, text).Some? && ReadBack(Parse(valid, text).value.human) == Read(plan)
    ensures CronDue(Parse(valid, text).value.cron, m) <==> PlanDue(plan, m)
  {
    hide Understood, HumanizeCron, Join, CronDue, PlanDue, PartsDue;
    var raw := Stripped(text);
    if LooksLikeCron(valid, raw) {
      DescriptionIsFaithful(raw);
      PartsAreDue(raw, m);
    } else {
      var ws := Words(Lower(raw));
      PlansAreValid(ws);
      EchoReadBack(Understood(ws).plan);
      CronMeansPlan(plan, m);
    }
  }

  lemma PartsAreDue(cron: string, m: Moment)
    requires |Words(cron)| == 5
    ensures CronDue(cron, m) <==> PartsDue(Words(cron), m)
  {
  }
}
