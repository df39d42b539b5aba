/** The conversational schedule wizard of handlers/schedule_wizard.py. */
module Wizard {
  import opened Options
  import opened Text
  import opened NlCron
  import opened Dispatch

  /** The keys of the wizard's data. */
  datatype Key = Kind | Target | Prompt | Cron | WhenHuman | Timezone | Name | DefaultName

  type Data = map<Key, string>

  const AGENT := "agent"
  const SKILL := "skill"
  const FREEFORM := "freeform"
  const DEFAULT_TIMEZONE := "Europe/London"
  const FALLBACK_NAME := "Scheduled task"

  // The steps, by index.
  const KIND: nat := 0
  const TARGET: nat := 1
  const PROMPT: nat := 2
  const WHEN: nat := 3
  const TIMEZONE: nat := 4
  const NAME: nat := 5
  const REVIEW: nat := 6

  type Title = s: string | s != "" witness "-"

  /** What the wizard consults: cron and time zone checks, and how a target reads as a title. */
  datatype World = World(validCron: Validator, validZone: string -> bool, titled: Title -> Title)

  datatype State = State(step: nat, data: Data, awaitingOverwrite: bool)

  /** The arguments of `create_schedule`. */
  datatype Request = Request(name: string, cron: string, prompt: string, timezone: string)

  /** How `create_schedule` ends, if it is called. */
  datatype Creation = Created | NameTaken | Rejected

  // ---- Reading replies ----

  predicate IsCancel(lower: string) {
    lower == "cancel" || lower == "/cancel" || lower == "quit" || lower == "/quit" || lower == "abort"
  }

  predicate IsSkip(text: string) {
    var v := Lower(Stripped(text));
    v == "" || v == "skip" || v == "-" || v == "none"
  }

  function ParseBool(s: string): Option<bool> {
    var v := Lower(Stripped(s));
    if v == "true" || v == "yes" || v == "y" || v == "on" || v == "1" then Some(true)
    else if v == "false" || v == "no" || v == "n" || v == "off" || v == "0" then Some(false)
    else None
  }

  function ParseKind(text: string): Option<string> {
    var choice := Lower(Stripped(text));
    if choice == "a" || choice == "agent" || choice == "agents" then Some(AGENT)
    else if choice == "s" || choice == "skill" || choice == "skills" then Some(SKILL)
    else if choice == "f" || choice == "free" || choice == "freeform" || choice == "free-form"
         || choice == "prompt" then Some(FREEFORM)
    else None
  }

  /** `s.lstrip(c)` */
  function WithoutLeading(s: string, c: char): (r: string)
    ensures |r| <= |s| && r == s[|s| - |r|..]
    decreases |s|
  {
    if s != "" && s[0] == c then WithoutLeading(s[1..], c) else s
  }

  function ParseTarget(text: string): string {
    var name := WithoutLeading(WithoutLeading(Stripped(text), '/'), '@');
    if "agent-" <= name then name[6..] else name
  }

  /** The prompt a schedule stores, with its dispatch token; `None` if a body is missing. */
  function Composed(kind: string, target: string, body: string): Option<string> {
    if kind == FREEFORM then (if body == "" then None else Some(body))
    else if kind == AGENT then
      (if body == "" then None else Some(Stripped(MENTION + target + " " + body)))
    else if IsSkip(body) then Some("/" + target)
    else Some(Stripped("/" + target + " " + body))
  }

  // ---- The invariant ----

  predicate KnownKind(kind: string) { kind == AGENT || kind == SKILL || kind == FREEFORM }

  /** The prompt stored is the one composed for the current kind and target. */
  ghost predicate PromptFits(d: Data)
    requires Kind in d && Prompt in d && (d[Kind] != FREEFORM ==> Target in d)
  {
    exists body :: Trim(body) &&
      Composed(d[Kind], if d[Kind] == FREEFORM then "" else d[Target], body) == Some(d[Prompt])
  }

  ghost predicate CronFits(w: World, d: Data)
    requires Cron in d && WhenHuman in d
  {
    exists text :: Parse(w.validCron, text) == Some(ParseResult(d[Cron], d[WhenHuman]))
  }

  predicate GoodTarget(t: string) { t != "" && !IsSpace(t[|t| - 1]) }

  ghost predicate Inv(w: World, s: State) {
    var d := s.data;
    && s.step <= REVIEW
    && (s.awaitingOverwrite ==> s.step == REVIEW)
    && (s.step > KIND ==> Kind in d && KnownKind(d[Kind]))
    && (s.step == TARGET ==> d[Kind] != FREEFORM)
    && (s.step > TARGET && d[Kind] != FREEFORM ==> Target in d && GoodTarget(d[Target]))
    && (s.step > PROMPT ==> Prompt in d && PromptFits(d))
    && (s.step > WHEN ==> Cron in d && WhenHuman in d && CronFits(w, d))
    && (s.step > TIMEZONE ==> Timezone in d && (d[Timezone] == DEFAULT_TIMEZONE || w.validZone(d[Timezone])))
    && (s.step > NAME ==> Name in d)
    && (DefaultName in d ==> d[DefaultName] != "")
  }

  const START := State(KIND, map[], false)

  // ---- One step ----

  function FirstWords(s: string): string {
    Join(if |Words(s)| <= 4 then Words(s) else Words(s)[..4])
  }

  function SuggestedName(w: World, d: Data): (name: string)
    ensures name != ""
  {
    if Target in d && d[Target] != "" then w.titled(d[Target])
    else
      var words := FirstWords(if Prompt in d then d[Prompt] else "");
      if words == "" then FALLBACK_NAME else words
  }

  /** Asking the name question stores a suggestion, unless there is one already. */
  function Asked(w: World, s: State): State {
    if s.step == NAME && DefaultName !in s.data
    then s.(data := s.data[DefaultName := SuggestedName(w, s.data)])
    else s
  }

  /** The values a question quotes: a fresh suggestion of a name, else what is stored. */
  function Quoted(w: World, s: State): seq<string>
    requires Inv(w, s)
  {
    var d := s.data;
    if s.step == PROMPT then (if d[Kind] == FREEFORM then [d[Kind]] else [d[Kind], d[Target]])
    else if s.step == NAME then [SuggestedName(w, d)]
    else if s.step == REVIEW then
      [d[Kind]] + (if Target in d && d[Target] != "" then [d[Target]] else [])
      + [d[Prompt], d[WhenHuman], d[Cron], d[Timezone], d[Name]]
    else []
  }

  /** What a step makes of a reply: the state it moves on to, or nothing if it asks again. */
  function Consumed(w: World, s: State, raw: string): Option<State>
    requires Inv(w, s) && s.step < REVIEW
  {
    var d := s.data;
    if s.step == KIND then
      match ParseKind(raw)
      case None => None
      case Some(kind) =>
        Some(s.(data := d[Kind := kind], step := if kind == FREEFORM then PROMPT else TARGET))
    else if s.step == TARGET then
      var name := ParseTarget(raw);
      if name == "" then None else Some(s.(data := d[Target := name], step := PROMPT))
    else if s.step == PROMPT then
      match Composed(d[Kind], if d[Kind] == FREEFORM then "" else d[Target], Stripped(raw))
      case None => None
      case Some(prompt) => Some(s.(data := d[Prompt := prompt], step := WHEN))
    else if s.step == WHEN then
      match Parse(w.validCron, raw)
      case None => None
      case Some(r) => Some(s.(data := d[Cron := r.cron][WhenHuman := r.human], step := TIMEZONE))
    else if s.step == TIMEZONE then
      if IsSkip(raw) then Some(s.(data := d[Timezone := DEFAULT_TIMEZONE], step := NAME))
      else if !w.validZone(Stripped(raw)) then None
      else Some(s.(data := d[Timezone := Stripped(raw)], step := NAME))
    else
      var name :=
        if !IsSkip(raw) then Stripped(raw)
        else if DefaultName in d && d[DefaultName] != "" then d[DefaultName]
        else FALLBACK_NAME;
      Some(s.(data := d[Name := name], step := REVIEW))
  }

  /** The step before, past the target step of a freeform schedule. */
  function Previous(s: State): nat
    requires s.step > 0
  {
    if s.step - 1 == TARGET && Kind in s.data && s.data[Kind] == FREEFORM then KIND else s.step - 1
  }

  /** After a reply: the state kept on the connection, if any, and the request made, if any. */
  datatype Outcome = Outcome(state: Option<State>, request: Option<Request>)

  function Replied(w: World, s: State, text: string, creation: Creation): Outcome
    requires Inv(w, s)
  {
    var raw := Stripped(text);
    var lower := Lower(raw);
    if IsCancel(lower) then Outcome(None, None)
    else if lower == "back" then
      if s.awaitingOverwrite then Outcome(Some(s.(awaitingOverwrite := false)), None)
      else if s.step == 0 then Outcome(Some(s), None)
      else Outcome(Some(Asked(w, State(Previous(s), s.data, false))), None)
    else if s.awaitingOverwrite then
      match ParseBool(raw)
      case None => Outcome(Some(s), None)
      case Some(false) => Outcome(None, None)
      case Some(true) =>
        Outcome(Some(Asked(w, State(NAME, s.data - {Name}, false))), None)
    else if s.step == REVIEW then
      if lower != "confirm" then Outcome(Some(s), None)
      else
        var request := Request(s.data[Name], s.data[Cron], s.data[Prompt], s.data[Timezone]);
        Outcome(if creation.NameTaken? then Some(s.(awaitingOverwrite := true)) else None, Some(request))
    else
      match Consumed(w, s, raw)
      case None => Outcome(Some(s), None)
      case Some(s') => Outcome(Some(Asked(w, s')), None)
  }

  /** The wizard of one connection. */
  class Session {
    const world: World
    var active: bool
    var stepIndex: nat
    var data: Data
    var awaitingOverwrite: bool

    function Now(): State
      reads this
    {
      State(stepIndex, data, awaitingOverwrite)
    }

    /** What the connection holds. */
    function Kept(): Option<State>
      reads this
    {
      if active then Some(Now()) else None
    }

    /** `start_wizard` */
    constructor (world: World)
      ensures this.world == world && Kept() == Some(START)
    {
      this.world := world;
      active, stepIndex, data, awaitingOverwrite := true, KIND, map[], false;
    }

    method Ask() returns (quoted: seq<string>)
      requires Inv(world, Now())
      modifies this`data
      ensures Now() == Asked(world, old(Now()))
      ensures quoted == Quoted(world, old(Now()))
    {
      quoted := [];
      if stepIndex == PROMPT {
        quoted := [data[Kind]];
        if data[Kind] != FREEFORM {
          quoted := quoted + [data[Target]];
        }
      } else if stepIndex == NAME {
        quoted := [SuggestedName(world, data)];
        if DefaultName !in data {
          data := data[DefaultName := SuggestedName(world, data)];
        }
      } else if stepIndex == REVIEW {
        quoted := [data[Kind]];
        if Target in data && data[Target] != "" {
          quoted := quoted + [data[Target]];
        }
        quoted := quoted + [data[Prompt], data[WhenHuman], data[Cron], data[Timezone], data[Name]];
      }
    }

    /** The `consume` of the current step; `ok` is false where it asks again. */
    method Consume(raw: string) returns (ok: bool)
      requires Inv(world, Now()) && stepIndex < REVIEW
      modifies this`data, this`stepIndex
      ensures ok == Consumed(world, old(Now()), raw).Some?
      ensures Now() == if ok then Consumed(world, old(Now()), raw).value else old(Now())
    {
      hide Composed, ParseKind, ParseTarget, IsSkip, Parse, Stripped, Inv;
      if stepIndex == KIND {
        var kind := ParseKind(raw);
        if kind.None? { return false; }
        data := data[Kind := kind.value];
        stepIndex := if kind.value == FREEFORM then PROMPT else TARGET;
      } else if stepIndex == TARGET {
        var name := ParseTarget(raw);
        if name == "" { return false; }
        data := data[Target := name];
        stepIndex := stepIndex + 1;
      } else if stepIndex == PROMPT {
        HasTarget(world, Now());
        var prompt :=
          Composed(data[Kind], if data[Kind] == FREEFORM then "" else data[Target], Stripped(raw));
        if prompt.None? { return false; }
        data := data[Prompt := prompt.value];
        stepIndex := stepIndex + 1;
      } else if stepIndex == WHEN {
        var r := Parse(world.validCron, raw);
        if r.None? { return false; }
        data := data[Cron := r.value.cron];
        data := data[WhenHuman := r.value.human];
        stepIndex := stepIndex + 1;
      } else if stepIndex == TIMEZONE {
        if IsSkip(raw) {
          data := data[Timezone := DEFAULT_TIMEZONE];
        } else {
          if !world.validZone(Stripped(raw)) { return false; }
          data := data[Timezone := Stripped(raw)];
        }
        stepIndex := stepIndex + 1;
      } else {
        if IsSkip(raw) {
          var name := if DefaultName in data && data[DefaultName] != "" then data[DefaultName] else FALLBACK_NAME;
          data := data[Name := name];
        } else {
          data := data[Name := Stripped(raw)];
        }
        stepIndex := stepIndex + 1;
      }
      return true;
    }

    /** `handle_wizard_input`, with `creation` telling how a confirmed schedule fares. */
    method HandleInput(text: string, creation: Creation) returns (request: Option<Request>)
      requires active && Inv(world, Now())
      modifies this
      ensures Outcome(Kept(), request) == Replied(world, old(Now()), text, creation)
      ensures Kept().Some? ==> Inv(world, Now())
    {
      hide Inv, Consumed, Asked, Quoted, Stripped, Lower, IsCancel, ParseBool;
      ghost var before := Now();
      StepInRange(world, before);
      RepliedKeepsInv(world, before, text, creation);
      request := None;
      var raw := Stripped(text);
      var lower := Lower(raw);
      if IsCancel(lower) {
        active := false;
        return;
      }
      if lower == "back" {
        if awaitingOverwrite {
          awaitingOverwrite := false;
          FlagKeepsInv(world, before, false);
          AskingElsewhere(world, Now());
          var quoted := Ask();
          return;
        }
        if stepIndex == 0 { return; }
        var previous := stepIndex - 1;
        if previous == TARGET && Kind in data && data[Kind] == FREEFORM {
          previous := KIND;
        }
        stepIndex := previous;
        BackKeepsInv(world, before);
        var quoted := Ask();
        return;
      }
      if awaitingOverwrite {
        var answer := ParseBool(raw);
        match answer {
          case None =>
          case Some(false) => active := false;
          case Some(true) =>
            awaitingOverwrite := false;
            stepIndex := NAME;
            data := data - {Name};
            RenameKeepsInv(world, before);
            var quoted := Ask();
        }
        return;
      }
      if stepIndex == REVIEW {
        if lower == "confirm" {
          HasAll(world, before);
          request := Some(Request(data[Name], data[Cron], data[Prompt], data[Timezone]));
          if creation.NameTaken? {
            awaitingOverwrite := true;
          } else {
            active := false;
          }
        }
        return;
      }
      var ok := Consume(raw);
      if ok {
        ConsumedKeepsInv(world, before, raw);
        var quoted := Ask();
      }
    }
  }

  // ---- The invariant is kept ----

  lemma HasTarget(w: World, s: State)
    requires Inv(w, s) && s.step == PROMPT
    ensures Kind in s.data && (s.data[Kind] != FREEFORM ==> Target in s.data)
  {
  }

  lemma HasAll(w: World, s: State)
    requires Inv(w, s) && s.step == REVIEW
    ensures Name in s.data && Cron in s.data && Prompt in s.data && Timezone in s.data
  {
  }

  lemma AskingElsewhere(w: World, s: State)
    requires s.step != NAME
    ensures Asked(w, s) == s
  {
  }

  lemma AskedKeepsInv(w: World, s: State)
    requires Inv(w, s)
    ensures Inv(w, Asked(w, s))
  {
    SameEntriesKeepInv(w, s, Asked(w, s).data, s.step);
  }

  /** The entries a step relies on. */
  predicate Needed(k: Key, step: nat) {
    match k
    case Kind => true
    case Target => true
    case Prompt => step > PROMPT
    case Cron => step > WHEN
    case WhenHuman => step > WHEN
    case Timezone => step > TIMEZONE
    case Name => step > NAME
    case DefaultName => false
  }

  /** The invariant of a step needs only the entries of the steps before it. */
  lemma SameEntriesKeepInv(w: World, s: State, d: Data, step: nat)
    requires Inv(w, s) && step <= s.step && !(step == TARGET && s.data[Kind] == FREEFORM)
    requires forall k :: k in s.data && Needed(k, step) ==> k in d && d[k] == s.data[k]
    requires DefaultName in d ==> d[DefaultName] != ""
    ensures Inv(w, State(step, d, false))
    ensures step == REVIEW ==> Inv(w, State(step, d, true))
  {
    if step > PROMPT {
      assert PromptFits(s.data);
      var body :| Trim(body) &&
        Composed(s.data[Kind], if s.data[Kind] == FREEFORM then "" else s.data[Target], body) == Some(s.data[Prompt]);
      assert PromptFits(d);
    }
  }

  lemma BackKeepsInv(w: World, s: State)
    requires Inv(w, s) && s.step > 0
    ensures Inv(w, State(Previous(s), s.data, false))
  {
    SameEntriesKeepInv(w, s, s.data, Previous(s));
  }

  lemma RenameKeepsInv(w: World, s: State)
    requires Inv(w, s) && s.step == REVIEW
    ensures Inv(w, State(NAME, s.data - {Name}, false))
  {
    SameEntriesKeepInv(w, s, s.data - {Name}, NAME);
  }

  lemma SameEnd(s: string, t: string)
    requires |t| <= |s| && t == s[|s| - |t|..]
    ensures t != "" ==> t[|t| - 1] == s[|s| - 1]
  {
  }

  lemma TargetsAreGood(text: string)
    ensures ParseTarget(text) != "" ==> GoodTarget(ParseTarget(text))
  {
    hide Stripped, WithoutLeading;
    var s := Stripped(text);
    var a := WithoutLeading(s, '/');
    var b := WithoutLeading(a, '@');
    StrippedIsTrim(text);
    SameEnd(s, a);
    SameEnd(a, b);
    SameEnd(b, ParseTarget(text));
  }

  lemma TargetStepKeepsInv(w: World, s: State, raw: string)
    requires Inv(w, s) && s.step == TARGET && ParseTarget(raw) != ""
    ensures Inv(w, State(PROMPT, s.data[Target := ParseTarget(raw)], false))
  {
    hide ParseTarget, IsSpace;
    TargetsAreGood(raw);
  }

  lemma PromptStepKeepsInv(w: World, s: State, body: string, prompt: string)
    requires Inv(w, s) && s.step == PROMPT && Trim(body)
    requires Kind in s.data && (s.data[Kind] != FREEFORM ==> Target in s.data)
    requires Composed(s.data[Kind], if s.data[Kind] == FREEFORM then "" else s.data[Target], body) == Some(prompt)
    ensures Inv(w, State(WHEN, s.data[Prompt := prompt], false))
  {
    hide Composed;
    assert PromptFits(s.data[Prompt := prompt]);
  }

  lemma WhenStepKeepsInv(w: World, s: State, text: string, r: ParseResult)
    requires Inv(w, s) && s.step == WHEN && Parse(w.validCron, text) == Some(r)
    ensures Inv(w, State(TIMEZONE, s.data[Cron := r.cron][WhenHuman := r.human], false))
  {
    hide Parse;
    var d := s.data[Cron := r.cron][WhenHuman := r.human];
    SameEntriesKeepInv(w, s, d, s.step);
    assert CronFits(w, d);
  }

  lemma ZoneStepKeepsInv(w: World, s: State, zone: string)
    requires Inv(w, s) && s.step == TIMEZONE && (zone == DEFAULT_TIMEZONE || w.validZone(zone))
    ensures Inv(w, State(NAME, s.data[Timezone := zone], false))
  {
    hide PromptFits, CronFits, GoodTarget, KnownKind;
    SameEntriesKeepInv(w, s, s.data[Timezone := zone], s.step);
  }

  lemma NameStepKeepsInv(w: World, s: State, name: string)
    requires Inv(w, s) && s.step == NAME
    ensures Inv(w, State(REVIEW, s.data[Name := name], false))
  {
    hide PromptFits, CronFits, GoodTarget, KnownKind;
    SameEntriesKeepInv(w, s, s.data[Name := name], s.step);
  }

  lemma ConsumedKeepsInv(w: World, s: State, raw: string)
    requires Inv(w, s) && s.step < REVIEW && Consumed(w, s, raw).Some?
    ensures Inv(w, Consumed(w, s, raw).value)
  {
    hide Composed, Parse, ParseTarget, IsSkip, Stripped, PromptFits, CronFits;
    assert !s.awaitingOverwrite;
    if s.step == KIND {
    } else if s.step == TARGET {
      TargetStepKeepsInv(w, s, raw);
    } else if s.step == PROMPT {
      HasTarget(w, s);
      StrippedIsTrim(raw);
      PromptStepKeepsInv(w, s, Stripped(raw), Consumed(w, s, raw).value.data[Prompt]);
    } else if s.step == WHEN {
      WhenStepKeepsInv(w, s, raw, Parse(w.validCron, raw).value);
    } else if s.step == TIMEZONE {
      ZoneStepKeepsInv(w, s, Consumed(w, s, raw).value.data[Timezone]);
    } else {
      NameStepKeepsInv(w, s, Consumed(w, s, raw).value.data[Name]);
    }
  }

  lemma StepInRange(w: World, s: State)
    requires Inv(w, s)
    ensures s.step <= REVIEW && (s.awaitingOverwrite ==> s.step == REVIEW)
  {
  }

  lemma FlagKeepsInv(w: World, s: State, flag: bool)
    requires Inv(w, s) && (flag ==> s.step == REVIEW)
    ensures Inv(w, s.(awaitingOverwrite := flag))
  {
  }

  lemma RepliedKeepsInv(w: World, s: State, text: string, creation: Creation)
    requires Inv(w, s)
    ensures
      var o := Replied(w, s, text, creation);
      o.state.Some? ==> Inv(w, o.state.value)
  {
    hide Inv, Consumed, Asked, Previous, Stripped, Lower, IsCancel, ParseBool;
    var raw := Stripped(text);
    StepInRange(w, s);
    FlagKeepsInv(w, s, false);
    if s.step > 0 {
      BackKeepsInv(w, s);
      AskedKeepsInv(w, State(Previous(s), s.data, false));
    }
    if s.step == REVIEW {
      FlagKeepsInv(w, s, true);
      RenameKeepsInv(w, s);
      AskedKeepsInv(w, State(NAME, s.data - {Name}, false));
    } else if Consumed(w, s, raw).Some? {
      ConsumedKeepsInv(w, s, raw);
      AskedKeepsInv(w, Consumed(w, s, raw).value);
    }
  }
}
