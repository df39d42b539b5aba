/** The plain-English schedule parser of core/nl_cron.py. */
module NlCron {
  import opened Options
  import opened Text

  datatype Time = Time(hour: nat, minute: nat)

  /** The sentence forms the parser knows, with what it reads from them. */
  datatype Plan =
    | EveryMinutes(n: nat)
    | EveryHours(n: nat)
    | Hourly
    | Weekdays(time: Time)
    | Weekends(time: Time)
    | Weekly(day: nat, time: Time)  // 0 is Sunday
    | Daily(time: Time)
    | Monthly(time: Time)           // on the first

  datatype ParseResult = ParseResult(cron: string, human: string)

  /** `croniter.is_valid`, whose judgement the parser relies on. */
  type Validator = string -> bool

  // ---- Times ----

  predicate ValidTime(t: Time) { t.hour < 24 && t.minute < 60 }

  /** The 12-hour and 24-hour readings of an hour; `None` where the hour does not fit. */
  function ReadHour(hour: nat, ampm: string): Option<nat> {
    if ampm == "am" then (if hour == 12 then Some(0) else if hour <= 12 then Some(hour) else None)
    else if ampm == "pm" then
      (if hour == 12 then Some(12) else if 1 <= hour <= 11 then Some(hour + 12) else None)
    else (if hour <= 23 then Some(hour) else None)
  }

  /** `_parse_time` on trimmed lower-case text: H, HH, H:MM, each with an optional am or pm. */
  function ParseTime(s: string): Option<Time> {
    if s == "noon" then Some(Time(12, 0))
    else if s == "midnight" then Some(Time(0, 0))
    else
      var n := LeadingDigits(s);
      if n == 0 || n > 2 then None
      else
        var rest := s[n..];
        var colon := rest != "" && rest[0] == ':';
        if colon && !(|rest| >= 3 && IsDigit(rest[1]) && IsDigit(rest[2])) then None
        else
          var minute := if colon then Number(rest[1..3]) else 0;
          var ampm := LeftTrimmed(if colon then rest[3..] else rest);
          if ampm != "" && ampm != "am" && ampm != "pm" then None
          else
            var hour := ReadHour(Number(s[..n]), ampm);
            if hour.None? || minute > 59 then None else Some(Time(hour.value, minute))
  }

  function HumanizeTime(t: Time): string {
    Padded(t.hour) + ":" + Padded(t.minute)
  }

  // ---- Rendering ----

  function DayLabel(day: nat): string {
    match day
    case 0 => "Sunday"
    case 1 => "Monday"
    case 2 => "Tuesday"
    case 3 => "Wednesday"
    case 4 => "Thursday"
    case 5 => "Friday"
    case _ => "Saturday"
  }

  function TimedFields(t: Time, dom: string, dow: string): seq<string> {
    [Decimal(t.minute), Decimal(t.hour), dom, "*", dow]
  }

  /** The five cron fields: minute, hour, day of month, month, day of week. */
  function CronFields(plan: Plan): seq<string> {
    match plan
    case EveryMinutes(n) => ["*/" + Decimal(n), "*", "*", "*", "*"]
    case EveryHours(n) => ["0", "*/" + Decimal(n), "*", "*", "*"]
    case Hourly => ["0", "*", "*", "*", "*"]
    case Weekdays(t) => TimedFields(t, "*", "1-5")
    case Weekends(t) => TimedFields(t, "*", "0,6")
    case Weekly(day, t) => TimedFields(t, "*", Decimal(day))
    case Daily(t) => TimedFields(t, "*", "*")
    case Monthly(t) => TimedFields(t, "1", "*")
  }

  /** The words of the echo. */
  function Echo(plan: Plan): seq<string> {
    match plan
    case EveryMinutes(n) => ["every", Decimal(n), "minutes"]
    case EveryHours(n) => ["every", Decimal(n), "hours"]
    case Hourly => ["every", "hour", "on", "the", "hour"]
    case Weekdays(t) => ["every", "weekday", "at", HumanizeTime(t)]
    case Weekends(t) => ["every", "weekend", "at", HumanizeTime(t)]
    case Weekly(day, t) => ["every", DayLabel(day), "at", HumanizeTime(t)]
    case Daily(t) => ["every", "day", "at", HumanizeTime(t)]
    case Monthly(t) => ["first", "of", "every", "month", "at", HumanizeTime(t)]
  }

  function Rendered(plan: Plan): ParseResult {
    ParseResult(Join(CronFields(plan)), Join(Echo(plan)))
  }

  // ---- Understanding ----

  predicate MinuteUnit(s: string) { s == "min" || s == "mins" || s == "minute" || s == "minutes" }

  predicate HourUnit(s: string) {
    s == "h" || s == "hs" || s == "hr" || s == "hrs" || s == "hour" || s == "hours"
  }

  /** "every N unit", the unit apart from the number or run on: the number and the unit. */
  function Interval(ws: seq<string>): Option<(string, string)> {
    if |ws| == 3 && ws[0] == "every" && AllDigits(ws[1]) then Some((ws[1], ws[2]))
    else if |ws| == 2 && ws[0] == "every" && LeadingDigits(ws[1]) > 0 then
      var n := LeadingDigits(ws[1]);
      Some((ws[1][..n], ws[1][n..]))
    else None
  }

  /** The optional "at ..." that ends a sentence after its first `k` words. */
  datatype Tail = NoTime | At(text: string) | Unrelated

  function TailAt(ws: seq<string>, k: nat): Tail {
    if |ws| == k then NoTime
    else if |ws| >= k + 2 && ws[k] == "at" then At(Join(ws[k + 1..]))
    else Unrelated
  }

  function DayNumber(word: string): Option<nat> {
    if word == "monday" || word == "mon" then Some(1)
    else if word == "tuesday" || word == "tue" || word == "tues" then Some(2)
    else if word == "wednesday" || word == "wed" then Some(3)
    else if word == "thursday" || word == "thu" || word == "thur" || word == "thurs" then Some(4)
    else if word == "friday" || word == "fri" then Some(5)
    else if word == "saturday" || word == "sat" then Some(6)
    else if word == "sunday" || word == "sun" then Some(0)
    else None
  }

  /** The time a part of the day stands for. */
  function PartOfDay(word: string): Option<nat> {
    if word == "morning" then Some(9)
    else if word == "afternoon" then Some(14)
    else if word == "evening" then Some(18)
    else if word == "night" then Some(21)
    else None
  }

  /** The time of a tail, 9am if it names none; `None` if it cannot be read. */
  function TailTime(tail: Tail): Option<Time>
    requires !tail.Unrelated?
  {
    if tail.At? then ParseTime(tail.text) else ParseTime("9am")
  }

  /** A sentence either is of a form, and then stands or falls by it, or is not. */
  datatype Reading = NotThis | Refused | Read(plan: Plan)

  function ReadMinutes(ws: seq<string>): Reading {
    var i := Interval(ws);
    if i.None? || |i.value.0| > 3 || !AllDigits(i.value.0) || !MinuteUnit(i.value.1) then NotThis
    else
      var n := Number(i.value.0);
      if 1 <= n <= 59 then Read(EveryMinutes(n)) else Refused
  }

  function ReadHours(ws: seq<string>): Reading {
    var i := Interval(ws);
    if i.None? || |i.value.0| > 2 || !AllDigits(i.value.0) || !HourUnit(i.value.1) then NotThis
    else
      var n := Number(i.value.0);
      if 1 <= n <= 23 then Read(EveryHours(n)) else Refused
  }

  function ReadHourly(ws: seq<string>): Reading {
    if ws == ["every", "hour"] || ws == ["hourly"] || ws == ["every", "hour", "on", "the", "hour"]
    then Read(Hourly) else NotThis
  }

  function ReadWeekdays(ws: seq<string>): Reading {
    if |ws| < 2 || ws[0] != "every" then NotThis
    else
      var weekday := ws[1] == "weekday" || ws[1] == "weekdays";
      var weekend := ws[1] == "weekend" || ws[1] == "weekends";
      var tail := TailAt(ws, 2);
      if !(weekday || weekend) || tail.Unrelated? then NotThis
      else
        match TailTime(tail)
        case None => Refused
        case Some(t) => Read(if weekday then Weekdays(t) else Weekends(t))
  }

  function ReadWeekly(ws: seq<string>): Reading {
    if |ws| < 2 || ws[0] != "every" || DayNumber(ws[1]).None? then NotThis
    else
      var part := if |ws| > 2 then PartOfDay(ws[2]) else None;
      var tail := TailAt(ws, if part.Some? then 3 else 2);
      match tail
      case Unrelated => NotThis
      case NoTime => Read(Weekly(DayNumber(ws[1]).value, Time(if part.Some? then part.value else 9, 0)))
      case At(text) =>
        match ParseTime(text)
        case None => Refused
        case Some(t) => Read(Weekly(DayNumber(ws[1]).value, t))
  }

  function ReadDaily(ws: seq<string>): Reading {
    if ws == [] then NotThis
    else
      var k := if ws[0] == "daily" then 1 else if |ws| >= 2 && ws[0] == "every" && ws[1] == "day" then 2 else 0;
      var tail := TailAt(ws, k);
      if k == 0 || tail.Unrelated? then NotThis
      else
        match TailTime(tail)
        case None => Refused
        case Some(t) => Read(Daily(t))
  }

  function ReadMonthly(ws: seq<string>): Reading {
    var head := |ws| >= 4 && (ws[0] == "first" || ws[0] == "1st") && ws[1] == "of"
                && (ws[2] == "every" || ws[2] == "the") && ws[3] == "month";
    if !head || TailAt(ws, 4).Unrelated? then NotThis
    else
      match TailTime(TailAt(ws, 4))
      case None => Refused
      case Some(t) => Read(Monthly(t))
  }

  function Else(r: Reading, next: Reading): Reading {
    if r.NotThis? then next else r
  }

  /** The forms in the order they are tried, on lower-case words. */
  function Understood(words: seq<string>): Reading {
    var ws := if |words| >= 2 && words[0] == "at" then words[1..] else words;
    Else(ReadMinutes(ws), Else(ReadHours(ws), Else(ReadHourly(ws), Else(ReadWeekdays(ws),
      Else(ReadWeekly(ws), Else(ReadDaily(ws), ReadMonthly(ws)))))))
  }

  // ---- Raw cron ----

  predicate LooksLikeCron(valid: Validator, s: string) {
    |Words(s)| == 5 && valid(Stripped(s))
  }

  /** The last two fields and the day of month, all unrestricted. */
  predicate AnyDay(parts: seq<string>)
    requires |parts| == 5
  {
    parts[2] == "*" && parts[3] == "*" && parts[4] == "*"
  }

  /** `_humanize_cron`: the first description that fits. */
  function HumanizeCron(cron: string): string {
    var parts := Words(cron);
    if |parts| != 5 then cron
    else
      var minute, hour, dom, month, dow := parts[0], parts[1], parts[2], parts[3], parts[4];
      var digits := AllDigits(minute) && AllDigits(hour);
      if minute == "0" && hour == "9" && dom == "*" && month == "*" && dow == "1-5" then
        "every weekday at 09:00"
      else if minute == "0" && hour == "9" && AnyDay(parts) then
        "every day at 09:00"
      else if "*/" <= minute && hour == "*" && AnyDay(parts) then
        "every " + minute[2..] + " minutes"
      else if minute == "0" && "*/" <= hour && AnyDay(parts) then
        "every " + hour[2..] + " hours"
      else if minute == "0" && hour == "*" && AnyDay(parts) then
        "every hour on the hour"
      else if digits && AnyDay(parts) then
        "every day at " + HumanizeTime(Time(Number(hour), Number(minute)))
      else if digits && dom == "*" && month == "*" && AllDigits(dow) then
        "every " + (if Number(dow) <= 6 then DayLabel(Number(dow)) else "weekday " + dow)
        + " at " + HumanizeTime(Time(Number(hour), Number(minute)))
      else if digits && dom == "1" && month == "*" && dow == "*" then
        "first of every month at " + HumanizeTime(Time(Number(hour), Number(minute)))
      else
        "cron `" + cron + "`"
  }

  /** `parse`: raw cron is passed through, anything else has to be understood. */
  function Parse(valid: Validator, text: string): Option<ParseResult> {
    var raw := Stripped(text);
    if raw == "" then None
    else if LooksLikeCron(valid, raw) then Some(ParseResult(raw, HumanizeCron(raw)))
    else
      match Understood(Words(Lower(raw)))
      case Read(plan) => Some(Rendered(plan))
      case _ => None
  }

  /** The text is taken as plain English, not as cron. */
  predicate PlainEnglish(valid: Validator, text: string) {
    !LooksLikeCron(valid, Stripped(text))
  }
}
