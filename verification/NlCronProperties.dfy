/** What the schedule parser promises: the echo means what the cron means. */
module NlCronProperties {
  import opened Options
  import opened Text
  import opened NlCron

  ghost predicate ValidPlan(plan: Plan) {
    match plan
    case EveryMinutes(n) => 1 <= n <= 59
    case EveryHours(n) => 1 <= n <= 23
    case Hourly => true
    case Weekly(day, t) => day <= 6 && ValidTime(t)
    case Weekdays(t) => ValidTime(t)
    case Weekends(t) => ValidTime(t)
    case Daily(t) => ValidTime(t)
    case Monthly(t) => ValidTime(t)
  }

  // ---- Times ----

  lemma ParsedTimesAreValid(s: string)
    ensures ParseTime(s).Some? ==> ValidTime(ParseTime(s).value)
  {
  }

  lemma TimeEchoSize(t: Time)
    requires ValidTime(t)
    ensures |HumanizeTime(t)| == 5 && Plain(HumanizeTime(t))
    ensures HumanizeTime(t)[..2] == Padded(t.hour) && HumanizeTime(t)[2] == ':'
    ensures HumanizeTime(t)[3..] == Padded(t.minute)
  {
    NumberOfPadded(t.hour);
    NumberOfPadded(t.minute);
  }

  /** Reading the echo of a time gives the time back. */
  lemma TimeRoundTrip(t: Time)
    requires ValidTime(t)
    ensures ParseTime(HumanizeTime(t)) == Some(t)
  {
    var s := HumanizeTime(t);
    TimeEchoSize(t);
    NumberOfPadded(t.hour);
    NumberOfPadded(t.minute);
    LeadingDigitsOf(Padded(t.hour), ":" + Padded(t.minute));
    assert s == Padded(t.hour) + (":" + Padded(t.minute));
    assert s[2..][1..3] == Padded(t.minute) && s[2..][3..] == "";
    assert s != "midnight" && s != "noon" by {
      assert s[2] == ':';
    }
  }

  // ---- Plans ----

  lemma IntervalsAreValid(ws: seq<string>)
    ensures ReadMinutes(ws).Read? ==> ValidPlan(ReadMinutes(ws).plan)
    ensures ReadHours(ws).Read? ==> ValidPlan(ReadHours(ws).plan)
  {
    hide Number, LeadingDigits, MinuteUnit, HourUnit;
  }

  lemma WeeklyIsValid(ws: seq<string>)
    ensures ReadWeekly(ws).Read? ==> ValidPlan(ReadWeekly(ws).plan)
  {
    hide ParseTime, Join;
    if TailAt(ws, 2).At? {
      ParsedTimesAreValid(TailAt(ws, 2).text);
    }
    if |ws| > 2 && TailAt(ws, 3).At? {
      ParsedTimesAreValid(TailAt(ws, 3).text);
    }
  }

  lemma TailTimesAreValid(tail: Tail)
    requires !tail.Unrelated?
    ensures TailTime(tail).Some? ==> ValidTime(TailTime(tail).value)
  {
    ParsedTimesAreValid("9am");
    if tail.At? {
      ParsedTimesAreValid(tail.text);
    }
  }

  lemma PlansAreValid(ws: seq<string>)
    requires Understood(ws).Read?
    ensures ValidPlan(Understood(ws).plan)
  {
    hide ReadMinutes, ReadHours, ReadWeekly, TailTime, TailAt;
    var vs := if |ws| >= 2 && ws[0] == "at" then ws[1..] else ws;
    IntervalsAreValid(vs);
    WeeklyIsValid(vs);
    forall k | !TailAt(vs, k).Unrelated?
      ensures TailTime(TailAt(vs, k)).Some? ==> ValidTime(TailTime(TailAt(vs, k)).value)
    {
      TailTimesAreValid(TailAt(vs, k));
    }
  }

  /** A lower-case word: read back as it was written. */
  predicate Plain(s: string) {
    s != "" && forall i :: 0 <= i < |s| ==> !IsSpace(s[i]) && !('A' <= s[i] <= 'Z')
  }

  lemma PlainIsStable(s: string)
    requires Plain(s)
    ensures Solid(s) && Lower(s) == s
  {
  }

  lemma LongPadded(n: nat)
    requires n >= 100
    ensures |Padded(n)| >= 3 && AllDigits(Padded(n))
  {
    assert |Decimal(n / 10)| >= 2;
  }

  lemma PaddedDigits(n: nat)
    ensures AllDigits(Padded(n)) && |Padded(n)| >= 2
    ensures |Padded(n)| == 2 <==> n < 100
  {
    if n < 100 {
      NumberOfPadded(n);
    } else {
      LongPadded(n);
    }
  }

  lemma TimeWordIsPlain(t: Time)
    ensures Plain(HumanizeTime(t))
  {
    PaddedDigits(t.hour);
    PaddedDigits(t.minute);
  }

  function DayWord(day: nat): string {
    match day
    case 0 => "sunday"
    case 1 => "monday"
    case 2 => "tuesday"
    case 3 => "wednesday"
    case 4 => "thursday"
    case 5 => "friday"
    case _ => "saturday"
  }

  lemma DayLabelLowered(day: nat)
    requires day <= 6
    ensures Lower(DayLabel(day)) == DayWord(day)
  {
    match day {
      case 0 => assert Lower("Sunday") == "sunday";
      case 1 => assert Lower("Monday") == "monday";
      case 2 => assert Lower("Tuesday") == "tuesday";
      case 3 => assert Lower("Wednesday") == "wednesday";
      case 4 => assert Lower("Thursday") == "thursday";
      case 5 => assert Lower("Friday") == "friday";
      case 6 => assert Lower("Saturday") == "saturday";
    }
  }

  lemma DayWordIsPlain(day: nat)
    requires day <= 6
    ensures Plain(DayWord(day))
  {
  }

  lemma DayLabelIsSolid(day: nat)
    requires day <= 6
    ensures Solid(DayLabel(day))
  {
  }

  /** The echo in lower case, as it is read back. */
  function Heard(plan: Plan): seq<string> {
    if plan.Weekly? then ["every", DayWord(plan.day), "at", HumanizeTime(plan.time)] else Echo(plan)
  }

  predicate AllPlain(ws: seq<string>) {
    forall i :: 0 <= i < |ws| ==> Plain(ws[i])
  }

  lemma HeardIsPlain(plan: Plan)
    requires plan.Weekly? ==> plan.day <= 6
    ensures AllPlain(Heard(plan))
  {
    hide HumanizeTime, Decimal;
    if plan.Weekly? {
      DayWordIsPlain(plan.day);
    }
    if !plan.EveryMinutes? && !plan.EveryHours? && !plan.Hourly? {
      TimeWordIsPlain(plan.time);
    }
  }

  lemma PlainWordsAreStable(ws: seq<string>)
    requires AllPlain(ws)
    ensures AllSolid(ws) && LowerAll(ws) == ws
  {
    forall i | 0 <= i < |ws|
      ensures Solid(ws[i]) && Lower(ws[i]) == ws[i]
    {
      PlainIsStable(ws[i]);
    }
  }

  lemma EchoWords(plan: Plan)
    requires plan.Weekly? ==> plan.day <= 6
    ensures AllSolid(Echo(plan)) && AllSolid(Heard(plan)) && LowerAll(Echo(plan)) == Heard(plan)
  {
    hide Lower, Plain, Solid, HumanizeTime, Decimal;
    HeardIsPlain(plan);
    PlainWordsAreStable(Heard(plan));
    if plan.Weekly? {
      DayLabelLowered(plan.day);
      DayLabelIsSolid(plan.day);
      var echo, heard := Echo(plan), Heard(plan);
      assert forall i :: 0 <= i < 4 ==> i == 1 || echo[i] == heard[i];
      assert forall i :: 0 <= i < 4 ==> LowerAll(heard)[i] == heard[i];
      assert LowerAll(echo) == heard;
    }
  }

  lemma HeardTimed(ws: seq<string>, k: nat, t: Time)
    requires ValidTime(t) && |ws| == k + 2 && ws[k] == "at" && ws[k + 1] == HumanizeTime(t)
    ensures TailAt(ws, k) == At(HumanizeTime(t)) && TailTime(TailAt(ws, k)) == Some(t)
  {
    TimeRoundTrip(t);
    assert ws[k + 1..] == [HumanizeTime(t)];
  }

  lemma HeardInterval(n: nat, unit: string)
    requires 1 <= n <= 59
    ensures Interval(["every", Decimal(n), unit]) == Some((Decimal(n), unit))
    ensures |Decimal(n)| <= 2 && Number(Decimal(n)) == n
  {
    SmallDecimal(n);
    NumberOfDecimal(n);
  }

  lemma NoInterval(ws: seq<string>)
    requires |ws| >= 4
    ensures ReadMinutes(ws) == NotThis && ReadHours(ws) == NotThis
  {
  }

  lemma HeardDay(day: nat)
    requires day <= 6
    ensures DayNumber(DayWord(day)) == Some(day)
  {
    match day {
      case 0 => assert DayNumber("sunday") == Some(0);
      case 1 => assert DayNumber("monday") == Some(1);
      case 2 => assert DayNumber("tuesday") == Some(2);
      case 3 => assert DayNumber("wednesday") == Some(3);
      case 4 => assert DayNumber("thursday") == Some(4);
      case 5 => assert DayNumber("friday") == Some(5);
      case 6 => assert DayNumber("saturday") == Some(6);
    }
  }

  lemma HeardWeekly(day: nat, t: Time)
    requires day <= 6 && ValidTime(t)
    ensures Understood(["every", DayWord(day), "at", HumanizeTime(t)]) == Read(Weekly(day, t))
  {
    hide ParseTime, Number, HumanizeTime, LeadingDigits, DayNumber;
    var ws := ["every", DayWord(day), "at", HumanizeTime(t)];
    NoInterval(ws);
    HeardTimed(ws, 2, t);
    HeardDay(day);
  }

  /** Each echo is understood as the plan it came from. */
  lemma HeardIsUnderstood(plan: Plan)
    requires ValidPlan(plan)
    ensures Understood(Heard(plan)) == Read(plan)
  {
    hide ParseTime, Number, HumanizeTime, LeadingDigits, DayNumber, Interval;
    var ws := Heard(plan);
    match plan {
      case EveryMinutes(n) => HeardInterval(n, "minutes");
      case EveryHours(n) => HeardInterval(n, "hours");
      case Hourly => NoInterval(ws);
      case Weekdays(t) => NoInterval(ws); HeardTimed(ws, 2, t);
      case Weekends(t) => NoInterval(ws); HeardTimed(ws, 2, t);
      case Weekly(day, t) => HeardWeekly(day, t);
      case Daily(t) => NoInterval(ws); HeardTimed(ws, 2, t); NotADay();
      case Monthly(t) => NoInterval(ws); HeardTimed(ws, 4, t);
    }
  }

  lemma NotADay()
    ensures DayNumber("day") == None
  {
  }

  // ---- The echo ----

  lemma {:induction false} JoinIsTrim(ws: seq<string>)
    requires AllSolid(ws) && ws != []
    ensures Join(ws) != "" && Trim(Join(ws))
    decreases |ws|
  {
    if |ws| > 1 {
      JoinIsTrim(ws[1..]);
      var rest := Join(ws[1..]);
      assert Join(ws) == ws[0] + " " + rest;
      assert Join(ws)[|Join(ws)| - 1] == rest[|rest| - 1];
    }
  }

  lemma HourlyEcho()
    ensures Join(Echo(Hourly)) == "every hour on the hour"
  {
    var ws := Echo(Hourly);
    assert Join(ws[4..]) == "hour";
    assert ws[3..][1..] == ws[4..] && Join(ws[3..]) == "the hour";
    assert ws[2..][1..] == ws[3..] && Join(ws[2..]) == "on the hour";
    assert ws[1..][1..] == ws[2..] && Join(ws[1..]) == "hour on the hour";
  }

  lemma EchoIsParsed(valid: Validator, plan: Plan)
    requires ValidPlan(plan) && !valid("every hour on the hour")
    ensures PlainEnglish(valid, Join(Echo(plan))) && Parse(valid, Join(Echo(plan))) == Some(Rendered(plan))
  {
    hide Join, Lower, Words, Stripped, HumanizeCron, Understood, Heard, Trim;
    var human := Join(Echo(plan));
    EchoWords(plan);
    WordsOfJoin(Echo(plan));
    JoinIsTrim(Echo(plan));
    TrimIsStripped(human);
    if plan.Hourly? {
      HourlyEcho();
    }
    LowerOfJoin(Echo(plan));
    WordsOfJoin(Heard(plan));
    HeardIsUnderstood(plan);
  }

  /**
   * For every plain-English text the parser accepts, the echo it shows parses back to the
   * same cron and the same echo. (The one echo of five words must not pass for cron.)
   */
  lemma EchoRoundTrip(valid: Validator, text: string)
    requires PlainEnglish(valid, text) && Parse(valid, text).Some?
    requires !valid("every hour on the hour")
    ensures Parse(valid, Parse(valid, text).value.human) == Parse(valid, text)
  {
    hide Understood, HumanizeCron;
    var ws := Words(Lower(Stripped(text)));
    assert Stripped(text) != "" && !LooksLikeCron(valid, Stripped(text));
    PlansAreValid(ws);
    EchoIsParsed(valid, Understood(ws).plan);
  }

  // ---- The description of the cron ----

  lemma FieldsAreSolid(plan: Plan)
    ensures AllSolid(CronFields(plan)) && |CronFields(plan)| == 5
  {
    hide Decimal;
  }

  lemma DecimalIs(n: nat, m: nat)
    ensures Decimal(n) == Decimal(m) <==> n == m
  {
    NumberOfDecimal(n);
    NumberOfDecimal(m);
  }

  lemma JoinThree(a: string, b: string, c: string)
    ensures Join([a, b, c]) == a + " " + b + " " + c
  {
    assert [a, b, c][1..] == [b, c] && [b, c][1..] == [c];
    assert Join([b, c]) == b + " " + c;
    assert a + " " + (b + " " + c) == a + " " + b + " " + c;
  }

  lemma JoinFour(a: string, b: string, c: string, d: string)
    ensures Join([a, b, c, d]) == a + " " + b + " " + c + " " + d
  {
    assert [a, b, c, d][1..] == [b, c, d];
    JoinThree(b, c, d);
  }

  lemma JoinSix(a: string, b: string, c: string, d: string, e: string, f: string)
    ensures Join([a, b, c, d, e, f]) == a + " " + b + " " + c + " " + d + " " + e + " " + f
  {
    assert [a, b, c, d, e, f][1..] == [b, c, d, e, f];
    assert [b, c, d, e, f][1..] == [c, d, e, f];
    JoinFour(c, d, e, f);
    var tail := c + " " + d + " " + e + " " + f;
    assert Join([b, c, d, e, f]) == b + " " + tail;
    assert Join([a, b, c, d, e, f]) == a + " " + (b + " " + tail);
  }

  lemma NineOClock()
    ensures Decimal(9) == "9" && Decimal(0) == "0" && HumanizeTime(Time(9, 0)) == "09:00"
  {
  }

  lemma DecimalIsNotSpecial(n: nat)
    ensures Decimal(n) != "*" && !("*/" <= Decimal(n)) && Decimal(n) != "1-5" && Decimal(n) != "0,6"
  {
    assert IsDigit(Decimal(n)[0]);
    assert |Decimal(n)| > 1 ==> IsDigit(Decimal(n)[1]);
  }

  /** The description of a timed cron, form by form. */
  lemma HumanizeTimed(t: Time, dom: string, dow: string)
    requires ValidTime(t) && Solid(dom) && Solid(dow)
    ensures
      var h := HumanizeCron(Join(TimedFields(t, dom, dow)));
      && (dom == "*" && dow == "*" ==> h == "every day at " + HumanizeTime(t))
      && (dom == "*" && dow == "1-5" && t == Time(9, 0) ==> h == "every weekday at 09:00")
      && (dom == "1" && dow == "*" ==> h == "first of every month at " + HumanizeTime(t))
      && (dom == "*" && AllDigits(dow) && Number(dow) <= 6 ==>
            h == "every " + DayLabel(Number(dow)) + " at " + HumanizeTime(t))
      && ((dow == "1-5" && t != Time(9, 0)) || dow == "0,6" ==>
            h == "cron `" + Join(TimedFields(t, dom, dow)) + "`")
  {
    var fs := TimedFields(t, dom, dow);
    FieldsSolid(t, dom, dow);
    WordsOfJoin(fs);
    NineOClock();
    DecimalIs(t.minute, 0);
    DecimalIs(t.hour, 9);
    DecimalIsNotSpecial(t.minute);
    DecimalIsNotSpecial(t.hour);
    NumberOfDecimal(t.minute);
    NumberOfDecimal(t.hour);
    hide Decimal, Join, Words, HumanizeTime, Number, DayLabel, Solid;
  }

  lemma FieldsSolid(t: Time, dom: string, dow: string)
    requires Solid(dom) && Solid(dow)
    ensures AllSolid(TimedFields(t, dom, dow))
  {
    DecimalIsSolid(t.minute);
    DecimalIsSolid(t.hour);
    hide Decimal;
  }

  lemma DecimalIsSolid(n: nat)
    ensures Solid(Decimal(n))
  {
  }

  /** The forms whose cron `_humanize_cron` describes in the words of the echo. */
  predicate Described(plan: Plan) {
    !plan.Weekends? && (plan.Weekdays? ==> plan.time == Time(9, 0))
  }

  lemma MinutesDescribed(n: nat)
    ensures HumanizeCron(Join(CronFields(EveryMinutes(n)))) == Join(Echo(EveryMinutes(n)))
  {
    FieldsAreSolid(EveryMinutes(n));
    hide Join, Words, Decimal;
    WordsOfJoin(CronFields(EveryMinutes(n)));
    JoinThree("every", Decimal(n), "minutes");
    assert ("*/" + Decimal(n))[2..] == Decimal(n);
    assert "every" + " " == "every " && " " + "minutes" == " minutes";
    assert "every " + Decimal(n) + " minutes" == "every" + " " + Decimal(n) + " " + "minutes";
  }

  lemma HoursDescribed(n: nat)
    ensures HumanizeCron(Join(CronFields(EveryHours(n)))) == Join(Echo(EveryHours(n)))
  {
    FieldsAreSolid(EveryHours(n));
    hide Join, Words, Decimal;
    WordsOfJoin(CronFields(EveryHours(n)));
    JoinThree("every", Decimal(n), "hours");
    assert ("*/" + Decimal(n))[2..] == Decimal(n);
    assert "every " + Decimal(n) + " hours" == "every" + " " + Decimal(n) + " " + "hours";
  }

  lemma HourlyDescribed()
    ensures HumanizeCron(Join(CronFields(Hourly))) == Join(Echo(Hourly))
  {
    FieldsAreSolid(Hourly);
    hide Join, Words;
    WordsOfJoin(CronFields(Hourly));
    HourlyEcho();
  }

  /**
   * Describing the emitted cron gives the echo again, for every plan except weekends and
   * weekdays at another time than nine, which only get the fallback.
   */
  lemma CronDescribesEcho(plan: Plan)
    requires ValidPlan(plan)
    ensures HumanizeCron(Rendered(plan).cron) == Rendered(plan).human <==> Described(plan)
  {
    hide HumanizeCron, Join, CronFields, Echo;
    match plan {
      case Daily(t) => DailyDescribed(t);
      case Monthly(t) => MonthlyDescribed(t);
      case Weekly(day, t) => WeeklyDescribed(day, t);
      case Weekdays(t) => WeekdaysDescribed(t);
      case Weekends(t) => WeekendsNotDescribed(t);
      case EveryMinutes(n) => MinutesDescribed(n);
      case EveryHours(n) => HoursDescribed(n);
      case Hourly => HourlyDescribed();
    }
  }

  lemma FallbackDiffers(t: Time, day: string, dow: string)
    ensures "cron `" + Join(TimedFields(t, "*", dow)) + "`" != Join(["every", day, "at", HumanizeTime(t)])
  {
    hide HumanizeTime, Decimal;
    JoinFour("every", day, "at", HumanizeTime(t));
    assert Join(["every", day, "at", HumanizeTime(t)])[0] == 'e';
    assert ("cron `" + Join(TimedFields(t, "*", dow)) + "`")[0] == 'c';
  }

  lemma DailyDescribed(t: Time)
    requires ValidTime(t)
    ensures HumanizeCron(Join(CronFields(Daily(t)))) == Join(Echo(Daily(t)))
  {
    hide HumanizeCron, Join, HumanizeTime, Decimal;
    HumanizeTimed(t, "*", "*");
    JoinFour("every", "day", "at", HumanizeTime(t));
    assert "every" + " " + "day" + " " + "at" + " " == "every day at ";
  }

  lemma MonthlyDescribed(t: Time)
    requires ValidTime(t)
    ensures HumanizeCron(Join(CronFields(Monthly(t)))) == Join(Echo(Monthly(t)))
  {
    hide HumanizeCron, Join, HumanizeTime, Decimal;
    HumanizeTimed(t, "1", "*");
    JoinSix("first", "of", "every", "month", "at", HumanizeTime(t));
    assert "first" + " " + "of" + " " + "every" + " " + "month" + " " + "at" + " "
        == "first of every month at ";
  }

  lemma WeeklyDescribed(day: nat, t: Time)
    requires ValidTime(t) && day <= 6
    ensures HumanizeCron(Join(CronFields(Weekly(day, t)))) == Join(Echo(Weekly(day, t)))
  {
    hide HumanizeCron, Join, HumanizeTime, Decimal, DayLabel, Number;
    DecimalIsSolid(day);
    NumberOfDecimal(day);
    HumanizeTimed(t, "*", Decimal(day));
    JoinFour("every", DayLabel(day), "at", HumanizeTime(t));
    assert "every" + " " + DayLabel(day) + " " + "at" + " " == "every " + DayLabel(day) + " at ";
  }

  lemma WeekdaysDescribed(t: Time)
    requires ValidTime(t)
    ensures HumanizeCron(Join(CronFields(Weekdays(t)))) == Join(Echo(Weekdays(t))) <==> t == Time(9, 0)
  {
    hide HumanizeCron, Join, HumanizeTime, Decimal, TimedFields, DayLabel, Number, AllDigits;
    HumanizeTimed(t, "*", "1-5");
    if t == Time(9, 0) {
      WeekdaysAtNine();
    } else {
      FallbackDiffers(t, "weekday", "1-5");
    }
  }

  lemma WeekdaysAtNine()
    ensures Join(Echo(Weekdays(Time(9, 0)))) == "every weekday at 09:00"
  {
    hide Join, HumanizeTime;
    NineOClock();
    JoinFour("every", "weekday", "at", "09:00");
    assert "every" + " " + "weekday" + " " + "at" + " " + "09:00" == "every weekday at 09:00";
  }

  lemma WeekendsNotDescribed(t: Time)
    requires ValidTime(t)
    ensures HumanizeCron(Join(CronFields(Weekends(t)))) != Join(Echo(Weekends(t)))
  {
    hide HumanizeCron, Join, HumanizeTime, Decimal;
    HumanizeTimed(t, "*", "0,6");
    FallbackDiffers(t, "weekend", "0,6");
  }

  // ---- Plural days ----

  /** The plural of a day's name is listed only where it is another of its short forms. */
  lemma PluralWord(day: string)
    requires DayNumber(day).Some?
    ensures DayNumber(day + "s") == if day == "tue" || day == "thur" then DayNumber(day) else None
  {
    var plural := day + "s";
    assert |day| > 3 ==> plural[3] == day[3];
    assert plural[0] == day[0] && plural[1] == day[1] && plural[2] == day[2] && plural[|day|] == 's';
  }

  lemma PluralIsName(day: string)
    requires DayNumber(day).Some?
    ensures
      var plural := day + "s";
      && LeadingDigits(plural) == 0 && !AllDigits(plural) && plural != "hour" && plural != "day"
      && plural != "weekday" && plural != "weekdays" && plural != "weekend" && plural != "weekends"
  {
    hide DayNumber;
    DayLetters(day);
    assert (day + "s")[0] == day[0] && (day + "s")[2] == day[2];
  }

  /**
   * "every <day>s ..." is read, and then as "every <day> ...", if and only if the plural is
   * itself in the table of names: for "tue" and "thur", and for no other name.
   */
  lemma PluralDayIffListed(day: string, rest: seq<string>)
    requires DayNumber(day).Some?
    ensures
      if day == "tue" || day == "thur"
      then Understood(["every", day + "s"] + rest) == Understood(["every", day] + rest)
      else !Understood(["every", day + "s"] + rest).Read?
  {
    hide ParseTime, LeadingDigits, Number, AllDigits, Join, DayNumber;
    PluralWord(day);
    PluralIsName(day);
    DayWordsAreNames(day);
    OnlyWeekly(day + "s", rest);
    OnlyWeekly(day, rest);
    if day == "tue" || day == "thur" {
      SameTails(day + "s", day, rest);
    }
  }

  lemma DayLetters(day: string)
    requires DayNumber(day).Some?
    ensures |day| >= 3 && 'f' <= day[0] <= 'w' && day[0] != 'h' && (day[0] == 'w' ==> day[2] == 'd')
  {
  }

  lemma DayWordsAreNames(day: string)
    requires DayNumber(day).Some?
    ensures LeadingDigits(day) == 0 && !AllDigits(day) && day != "hour" && day != "day"
    ensures day != "weekday" && day != "weekdays" && day != "weekend" && day != "weekends"
  {
    hide DayNumber;
    DayLetters(day);
  }

  /** A sentence "every <word> ..." with a word of its own is read as a day or not at all. */
  lemma OnlyWeekly(word: string, rest: seq<string>)
    requires LeadingDigits(word) == 0 && !AllDigits(word) && word != "hour" && word != "day"
    requires word != "weekday" && word != "weekdays" && word != "weekend" && word != "weekends"
    ensures Understood(["every", word] + rest) == ReadWeekly(["every", word] + rest)
  {
    hide ReadWeekly, LeadingDigits, Number, AllDigits;
    var ws := ["every", word] + rest;
    assert ws[0] == "every" && ws[1] == word;
  }

  lemma SameTails(a: string, b: string, rest: seq<string>)
    requires DayNumber(a) == DayNumber(b)
    ensures ReadWeekly(["every", a] + rest) == ReadWeekly(["every", b] + rest)
  {
    hide ParseTime, Join, DayNumber;
    var v, w := ["every", a] + rest, ["every", b] + rest;
    assert |w| > 3 ==> v[3..] == w[3..];
    assert |w| > 4 ==> v[4..] == w[4..];
    assert |w| > 2 ==> v[2] == w[2];
    assert |w| > 3 ==> v[3] == w[3];
  }
}
