/**
 * How the schedule parser of core/nl_cron.py reads times of day, days and intervals in words:
 * the 12-hour clock, noon and midnight, the parts of the day, the default of nine, and every
 * other way of saying a sentence form.
 */
module SpokenTimes {
  import opened Options
  import opened Text
  import opened NlCron
  import opened NlCronProperties

  datatype Mark = Plain24 | Am | Pm

  function MarkText(mark: Mark): string {
    match mark
    case Plain24 => ""
    case Am => "am"
    case Pm => "pm"
  }

  /** The hours a clock shows with a mark. */
  predicate Fits(hour: nat, mark: Mark) {
    match mark
    case Plain24 => hour <= 23
    case Am => hour <= 12
    case Pm => 1 <= hour <= 12
  }

  /** The hour of the day that they stand for. */
  function HourOfDay(hour: nat, mark: Mark): nat {
    match mark
    case Plain24 => hour
    case Am => hour % 12
    case Pm => hour % 12 + 12
  }

  /** An hour of one or two digits. */
  predicate ClockHour(s: string) { AllDigits(s) && |s| <= 2 }

  /** Nothing, or a colon and two digits. */
  predicate ClockMinutes(s: string) {
    s == "" || (|s| == 3 && s[0] == ':' && IsDigit(s[1]) && IsDigit(s[2]))
  }

  function MinutesIn(s: string): nat
    requires ClockMinutes(s)
  {
    if s == "" then 0 else Value(s[1]) * 10 + Value(s[2])
  }

  predicate AllSpace(s: string) { forall i :: 0 <= i < |s| ==> IsSpace(s[i]) }

  /**
   * A clock time - hour, minutes or none, and a mark or none, with any space before the mark -
   * is read as the time it stands for, and refused if and only if its hour does not go with its
   * mark or its minutes exceed 59.
   */
  lemma ClockTimeIsRead(hour: string, minutes: string, gap: string, mark: Mark)
    requires ClockHour(hour) && ClockMinutes(minutes) && AllSpace(gap)
    ensures
      ParseTime(hour + minutes + gap + MarkText(mark))
      == if Fits(Number(hour), mark) && MinutesIn(minutes) <= 59
         then Some(Time(HourOfDay(Number(hour), mark), MinutesIn(minutes))) else None
  {
    hide Number, LeadingDigits, LeftTrimmed, AllSpace, ParseTime, ReadHour;
    var rest := minutes + gap + MarkText(mark);
    var s := hour + minutes + gap + MarkText(mark);
    Regroup(hour, minutes, gap, MarkText(mark));
    RestStarts(minutes, gap, mark);
    LeadingDigitsOf(hour, rest);
    TailOfClock(minutes, gap, mark);
    FirstDigit(hour, rest);
    ParseUnfolds(s, hour, rest, MarkText(mark), MinutesIn(minutes));
    StandsAs(Number(hour), mark);
  }

  lemma Regroup(a: string, b: string, c: string, d: string)
    ensures a + b + c + d == a + (b + c + d)
  {
  }

  lemma FirstDigit(hour: string, rest: string)
    requires ClockHour(hour)
    ensures hour + rest != "" && IsDigit((hour + rest)[0])
    ensures (hour + rest)[..|hour|] == hour && (hour + rest)[|hour|..] == rest
  {
  }

  /** The parser on a text whose parts are known. */
  lemma ParseUnfolds(s: string, hour: string, rest: string, ampm: string, minute: nat)
    requires s != "" && IsDigit(s[0]) && ClockHour(hour)
    requires LeadingDigits(s) == |hour| && s[..|hour|] == hour && s[|hour|..] == rest
    requires ampm == "" || ampm == "am" || ampm == "pm"
    requires
      var colon := rest != "" && rest[0] == ':';
      && (colon ==> |rest| >= 3 && IsDigit(rest[1]) && IsDigit(rest[2]) && Number(rest[1..3]) == minute)
      && (!colon ==> minute == 0)
      && LeftTrimmed(if colon then rest[3..] else rest) == ampm
    ensures
      var read := ReadHour(Number(hour), ampm);
      ParseTime(s) == if read.None? || minute > 59 then None else Some(Time(read.value, minute))
  {
    hide Number, LeadingDigits, LeftTrimmed, ReadHour;
    NotANamedTime(s);
  }

  lemma StandsAs(hour: nat, mark: Mark)
    ensures ReadHour(hour, MarkText(mark)) == if Fits(hour, mark) then Some(HourOfDay(hour, mark)) else None
  {
  }

  lemma NotANamedTime(s: string)
    requires s != "" && IsDigit(s[0])
    ensures s != "noon" && s != "midnight"
  {
  }

  lemma RestStarts(minutes: string, gap: string, mark: Mark)
    requires ClockMinutes(minutes) && AllSpace(gap)
    ensures var rest := minutes + gap + MarkText(mark); rest == "" || !IsDigit(rest[0])
    ensures minutes == "" ==> var rest := gap + MarkText(mark); rest == "" || rest[0] != ':'
  {
  }

  lemma {:induction false} SkipSpace(gap: string, text: string)
    requires AllSpace(gap) && (text == "" || !IsSpace(text[0]))
    ensures LeftTrimmed(gap + text) == text
    decreases |gap|
  {
    if gap == "" {
      assert gap + text == text;
    } else {
      assert (gap + text)[0] == gap[0] && (gap + text)[1..] == gap[1..] + text;
      SkipSpace(gap[1..], text);
    }
  }

  lemma TwoDigits(s: string)
    requires |s| == 2 && IsDigit(s[0]) && IsDigit(s[1])
    ensures Number(s) == Value(s[0]) * 10 + Value(s[1])
  {
    assert s[..1][..0] == "" && Number(s[..1]) == Number("") * 10 + Value(s[0]);
  }

  /** What the parser finds after the hour. */
  lemma TailOfClock(minutes: string, gap: string, mark: Mark)
    requires ClockMinutes(minutes) && AllSpace(gap)
    ensures
      var rest := minutes + gap + MarkText(mark);
      var colon := rest != "" && rest[0] == ':';
      && (colon <==> minutes != "")
      && (colon ==> |rest| >= 3 && IsDigit(rest[1]) && IsDigit(rest[2]) && Number(rest[1..3]) == MinutesIn(minutes))
      && LeftTrimmed(if colon then rest[3..] else rest) == MarkText(mark)
  {
    hide Number;
    var rest := minutes + gap + MarkText(mark);
    RestStarts(minutes, gap, mark);
    SkipSpace(gap, MarkText(mark));
    if minutes == "" {
      assert rest == gap + MarkText(mark);
    } else {
      assert rest[3..] == gap + MarkText(mark);
      TwoDigits(rest[1..3]);
    }
  }

  /** The times with a name. */
  lemma NamedTimes()
    ensures ParseTime("noon") == Some(Time(12, 0)) && ParseTime("midnight") == Some(Time(0, 0))
  {
  }

  /** Nothing but a named time or a clock time is read. */
  lemma OnlyClockTimes(s: string) returns (hour: string, minutes: string, gap: string, mark: Mark)
    requires ParseTime(s).Some? && s != "noon" && s != "midnight"
    ensures ClockHour(hour) && ClockMinutes(minutes) && AllSpace(gap)
    ensures s == hour + minutes + gap + MarkText(mark)
  {
    hide Number, LeadingDigits, LeftTrimmed, ParseTime, ReadHour;
    var rest, tail;
    hour, rest, minutes, tail := ParsedParts(s);
    mark := if LeftTrimmed(tail) == "am" then Am else if LeftTrimmed(tail) == "pm" then Pm else Plain24;
    gap := TrimmedGap(tail);
    Regroup(hour, minutes, gap, MarkText(mark));
    Regroup("", minutes, gap, MarkText(mark));
    assert minutes + (gap + MarkText(mark)) == minutes + gap + MarkText(mark);
  }

  lemma ParsedParts(s: string) returns (hour: string, rest: string, minutes: string, tail: string)
    requires ParseTime(s).Some? && s != "noon" && s != "midnight"
    ensures ClockHour(hour) && s == hour + rest
    ensures ClockMinutes(minutes) && rest == minutes + tail
    ensures LeftTrimmed(tail) == "" || LeftTrimmed(tail) == "am" || LeftTrimmed(tail) == "pm"
  {
    hide Number, LeftTrimmed, ReadHour;
    var n := LeadingDigits(s);
    hour, rest := s[..n], s[n..];
    var colon := rest != "" && rest[0] == ':';
    minutes, tail := if colon then rest[..3] else "", if colon then rest[3..] else rest;
    assert rest == minutes + tail;
  }

  lemma {:induction false} TrimmedGap(s: string) returns (gap: string)
    ensures AllSpace(gap) && s == gap + LeftTrimmed(s)
    decreases |s|
  {
    if s != "" && IsSpace(s[0]) {
      var rest := TrimmedGap(s[1..]);
      gap := [s[0]] + rest;
      assert s == [s[0]] + s[1..];
    } else {
      gap := "";
    }
  }

  /** For instance "9am", "9:30 pm", "12am" and "12pm", at every hour and minute. */
  lemma TwelveHourClock(h: nat, m: nat, pm: bool, spaced: bool)
    requires 1 <= h <= 12 && m < 60
    ensures
      var gap, mark := if spaced then " " else "", if pm then "pm" else "am";
      var time := if pm then Time(h % 12 + 12, m) else Time(h % 12, m);
      && ParseTime(Decimal(h) + ":" + Padded(m) + gap + mark) == Some(time)
      && (m == 0 ==> ParseTime(Decimal(h) + gap + mark) == Some(time))
  {
    hide ParseTime, Number, Decimal;
    var gap, mark := if spaced then " " else "", if pm then Pm else Am;
    NumberOfDecimal(h);
    SmallDecimal(h);
    NumberOfPadded(m);
    TwoDigits(Padded(m));
    var minutes := ":" + Padded(m);
    assert minutes[1] == Padded(m)[0] && minutes[2] == Padded(m)[1];
    ClockTimeIsRead(Decimal(h), minutes, gap, mark);
    ClockTimeIsRead(Decimal(h), "", gap, mark);
    assert Decimal(h) + minutes + gap + MarkText(mark) == Decimal(h) + ":" + Padded(m) + gap + MarkText(mark);
    assert Decimal(h) + "" + gap + MarkText(mark) == Decimal(h) + gap + MarkText(mark);
  }

  // ---- Defaults and parts of the day ----

  lemma NineInTheMorning()
    ensures ParseTime("9am") == Some(Time(9, 0))
  {
    TwelveHourClock(9, 0, false, false);
    NineOClock();
  }

  /** Sentences that name no time mean nine o'clock. */
  lemma NineByDefault(day: string)
    requires DayNumber(day).Some?
    ensures Understood(["every", day]) == Read(Weekly(DayNumber(day).value, Time(9, 0)))
    ensures Understood(["every", "weekday"]) == Understood(["every", "weekdays"]) == Read(Weekdays(Time(9, 0)))
    ensures Understood(["every", "weekend"]) == Understood(["every", "weekends"]) == Read(Weekends(Time(9, 0)))
    ensures Understood(["daily"]) == Understood(["every", "day"]) == Read(Daily(Time(9, 0)))
    ensures Understood(["first", "of", "every", "month"]) == Understood(["first", "of", "the", "month"])
         == Understood(["1st", "of", "every", "month"]) == Understood(["1st", "of", "the", "month"])
         == Read(Monthly(Time(9, 0)))
  {
    hide ParseTime, DayNumber, Understood;
    GroupsByDefault();
    MonthsByDefault();
    DayWordsAreNames(day);
    assert ["every", day] == ["every", day] + [];
    OnlyWeekly(day, []);
  }

  lemma GroupsByDefault()
    ensures Understood(["every", "weekday"]) == Understood(["every", "weekdays"]) == Read(Weekdays(Time(9, 0)))
    ensures Understood(["every", "weekend"]) == Understood(["every", "weekends"]) == Read(Weekends(Time(9, 0)))
    ensures Understood(["daily"]) == Understood(["every", "day"]) == Read(Daily(Time(9, 0)))
  {
    hide ParseTime, DayNumber, Number, AllDigits, LeadingDigits;
    NineInTheMorning();
    OtherWords();
  }

  lemma MonthsByDefault()
    ensures Understood(["first", "of", "every", "month"]) == Understood(["first", "of", "the", "month"])
         == Understood(["1st", "of", "every", "month"]) == Understood(["1st", "of", "the", "month"])
         == Read(Monthly(Time(9, 0)))
  {
    hide ParseTime, DayNumber, Number, AllDigits, LeadingDigits;
    NineInTheMorning();
  }

  /** The words that start no interval and name no day. */
  lemma OtherWords()
    ensures LeadingDigits("weekday") == LeadingDigits("weekdays") == LeadingDigits("day") == 0
    ensures LeadingDigits("weekend") == LeadingDigits("weekends") == 0
    ensures DayNumber("weekday").None? && DayNumber("day").None?
  {
  }

  /** A part of the day after a day's name sets its time, unless a time is given as well. */
  lemma PartsOfTheDay(day: string)
    requires DayNumber(day).Some?
    ensures
      var n := DayNumber(day).value;
      && Understood(["every", day, "morning"]) == Read(Weekly(n, Time(9, 0)))
      && Understood(["every", day, "afternoon"]) == Read(Weekly(n, Time(14, 0)))
      && Understood(["every", day, "evening"]) == Read(Weekly(n, Time(18, 0)))
      && Understood(["every", day, "night"]) == Read(Weekly(n, Time(21, 0)))
  {
    hide ParseTime, DayNumber, Number, AllDigits, LeadingDigits;
    DayWordsAreNames(day);
    PartIsRead(day, "morning");
    PartIsRead(day, "afternoon");
    PartIsRead(day, "evening");
    PartIsRead(day, "night");
  }

  lemma PartIsRead(day: string, part: string)
    requires DayNumber(day).Some? && PartOfDay(part).Some?
    ensures Understood(["every", day, part]) == Read(Weekly(DayNumber(day).value, Time(PartOfDay(part).value, 0)))
  {
    hide ParseTime, DayNumber, PartOfDay;
    DayWordsAreNames(day);
    assert ["every", day, part] == ["every", day] + [part];
    OnlyWeekly(day, [part]);
  }

  /** A time at the end of a sentence is the time read from its words. */
  lemma GivenTime(day: string, words: seq<string>, t: Time)
    requires DayNumber(day).Some? && words != [] && ParseTime(Join(words)) == Some(t)
    ensures Understood(["every", day, "at"] + words) == Read(Weekly(DayNumber(day).value, t))
    ensures Understood(["every", "weekday", "at"] + words) == Read(Weekdays(t))
    ensures Understood(["every", "weekend", "at"] + words) == Read(Weekends(t))
    ensures Understood(["every", "day", "at"] + words) == Understood(["daily", "at"] + words) == Read(Daily(t))
    ensures Understood(["first", "of", "every", "month", "at"] + words) == Read(Monthly(t))
  {
    hide ParseTime, DayNumber, Join, Understood;
    DayAt(day, words, t);
    GroupsAt(words, t);
    DailyAt(words, t);
    MonthlyAt(words, t);
  }

  lemma DayAt(day: string, words: seq<string>, t: Time)
    requires DayNumber(day).Some? && words != [] && ParseTime(Join(words)) == Some(t)
    ensures Understood(["every", day, "at"] + words) == Read(Weekly(DayNumber(day).value, t))
  {
    hide ParseTime, DayNumber, PartOfDay, Join, Understood;
    DayWordsAreNames(day);
    AtIsNoPart();
    OnlyWeekly(day, ["at"] + words);
    var ws := ["every", day, "at"] + words;
    assert ws == ["every", day] + (["at"] + words) && ws[3..] == words;
  }

  /** Also after a part of the day, whose own time then does not count. */
  lemma PartAt(day: string, part: string, words: seq<string>, t: Time)
    requires DayNumber(day).Some? && PartOfDay(part).Some? && words != [] && ParseTime(Join(words)) == Some(t)
    ensures Understood(["every", day, part, "at"] + words) == Read(Weekly(DayNumber(day).value, t))
  {
    hide ParseTime, DayNumber, PartOfDay, Join, Understood;
    DayWordsAreNames(day);
    OnlyWeekly(day, [part, "at"] + words);
    var ws := ["every", day, part, "at"] + words;
    assert ws == ["every", day] + ([part, "at"] + words) && ws[4..] == words;
  }

  lemma GroupsAt(words: seq<string>, t: Time)
    requires words != [] && ParseTime(Join(words)) == Some(t)
    ensures Understood(["every", "weekday", "at"] + words) == Read(Weekdays(t))
    ensures Understood(["every", "weekend", "at"] + words) == Read(Weekends(t))
  {
    hide ParseTime, DayNumber, Join, Number, AllDigits, LeadingDigits;
    OtherWords();
    var a, b := ["every", "weekday", "at"] + words, ["every", "weekend", "at"] + words;
    assert a[3..] == words && b[3..] == words;
    NoIntervalIn(a);
    NoIntervalIn(b);
  }

  lemma DailyAt(words: seq<string>, t: Time)
    requires words != [] && ParseTime(Join(words)) == Some(t)
    ensures Understood(["every", "day", "at"] + words) == Understood(["daily", "at"] + words) == Read(Daily(t))
  {
    hide ParseTime, DayNumber, Join, Number, AllDigits, LeadingDigits;
    OtherWords();
    var a, b := ["every", "day", "at"] + words, ["daily", "at"] + words;
    assert a[3..] == words && b[2..] == words;
    NoIntervalIn(a);
  }

  lemma MonthlyAt(words: seq<string>, t: Time)
    requires words != [] && ParseTime(Join(words)) == Some(t)
    ensures Understood(["first", "of", "every", "month", "at"] + words) == Read(Monthly(t))
  {
    hide ParseTime, DayNumber, Join, Number, AllDigits, LeadingDigits;
    var a := ["first", "of", "every", "month", "at"] + words;
    assert a[5..] == words;
  }

  lemma NoIntervalIn(ws: seq<string>)
    requires |ws| >= 3 && (ws[1] == "weekday" || ws[1] == "weekend" || ws[1] == "day")
    ensures Interval(ws).None?
  {
    assert !IsDigit(ws[1][0]);
  }

  lemma AtIsNoPart()
    ensures PartOfDay("at").None? && "at" != "morning"
  {
  }

  // ---- Days and intervals ----

  /** Every name of a day is the start of the day's full name, three letters or more. */
  lemma DayNamesAreShort(word: string)
    requires DayNumber(word).Some?
    ensures DayNumber(word).value <= 6 && |word| >= 3
    ensures word <= Lower(DayLabel(DayNumber(word).value))
  {
    hide Lower;
    var n := DayNumber(word).value;
    DayLabelLowered(n);
  }

  /** All units of an interval, next to the number or apart from it. */
  lemma IntervalUnits(n: nat, unit: string)
    requires 1 <= n <= 59
    ensures unit == "min" || unit == "mins" || unit == "minute" || unit == "minutes" ==>
      Understood(["every", Decimal(n), unit]) == Understood(["every", Decimal(n) + unit]) == Read(EveryMinutes(n))
    ensures n <= 23 && (unit == "h" || unit == "hs" || unit == "hr" || unit == "hrs" || unit == "hour" || unit == "hours") ==>
      Understood(["every", Decimal(n), unit]) == Understood(["every", Decimal(n) + unit]) == Read(EveryHours(n))
  {
    hide Decimal, Number, LeadingDigits;
    NumberOfDecimal(n);
    SmallDecimal(n);
    if MinuteUnit(unit) || HourUnit(unit) {
      RunOn(n, unit);
    }
  }

  /** A number and a unit written together are told apart. */
  lemma RunOn(n: nat, unit: string)
    requires unit != "" && !IsDigit(unit[0])
    ensures
      var word := Decimal(n) + unit;
      LeadingDigits(word) == |Decimal(n)| && word[..|Decimal(n)|] == Decimal(n) && word[|Decimal(n)|..] == unit
  {
    LeadingDigitsOf(Decimal(n), unit);
  }

  /** Intervals out of range are refused, not read as anything else. */
  lemma IntervalsOutOfRange(n: nat)
    ensures n == 0 || 59 < n < 1000 ==> Understood(["every", Decimal(n), "minutes"]) == Refused
    ensures n == 0 || 23 < n < 100 ==> Understood(["every", Decimal(n), "hours"]) == Refused
  {
    hide Decimal, Number, LeadingDigits;
    NumberOfDecimal(n);
    if n < 1000 {
      DecimalSize(n);
    }
  }

  lemma DecimalSize(n: nat)
    requires n < 1000
    ensures |Decimal(n)| <= 3 && (n < 100 ==> |Decimal(n)| <= 2)
  {
    if n >= 100 {
      SmallDecimal(n / 10);
    } else {
      SmallDecimal(n);
    }
  }

  /** "at" before a sentence changes nothing; neither does "hourly" for "every hour". */
  lemma SaidOtherwise(ws: seq<string>)
    requires ws != [] && ws[0] != "at"
    ensures Understood(["at"] + ws) == Understood(ws)
    ensures Understood(["hourly"]) == Understood(["every", "hour"]) == Read(Hourly)
  {
    hide ReadMinutes, ReadHours, ReadWeekdays, ReadWeekly, ReadDaily, ReadMonthly;
    assert (["at"] + ws)[1..] == ws;
    HourlyIsNoInterval();
  }

  lemma HourlyIsNoInterval()
    ensures ReadMinutes(["hourly"]) == ReadHours(["hourly"]) == NotThis
    ensures ReadMinutes(["every", "hour"]) == ReadHours(["every", "hour"]) == NotThis
  {
  }

  /** Raw cron is passed through as it is, trimmed. */
  lemma RawCronIsKept(valid: Validator, text: string)
    requires |Words(Stripped(text))| == 5 && valid(Stripped(text))
    ensures Parse(valid, text).Some? && Parse(valid, text).value.cron == Stripped(text)
  {
    hide Words, HumanizeCron, Understood;
    StrippedIsTrim(text);
    TrimIsStripped(Stripped(text));
    EmptyHasNoWords();
  }

  lemma EmptyHasNoWords()
    ensures Words("") == []
  {
  }
}
