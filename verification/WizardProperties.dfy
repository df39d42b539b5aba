/** What the schedule wizard guarantees over whole conversations, up to the firing agent. */
module WizardProperties {
  import opened Options
  import opened Text
  import opened NlCron
  import NlCronProperties
  import opened Dispatch
  import opened Wizard
  import opened WizardReplies

  /** The schedules a conversation asks for; it ends when the wizard is closed. */
  function Requests(w: World, s: State, inputs: seq<Input>): seq<Request>
    requires Inv(w, s)
    decreases |inputs|
  {
    if inputs == [] then []
    else
      var o := Replied(w, s, inputs[0].text, inputs[0].creation);
      RepliedKeepsInv(w, s, inputs[0].text, inputs[0].creation);
      (if o.request.Some? then [o.request.value] else [])
      + (if o.state.Some? then Requests(w, o.state.value, inputs[1..]) else [])
  }

  /** The states a conversation goes through, as long as the wizard is open. */
  function States(w: World, s: State, inputs: seq<Input>): seq<State>
    requires Inv(w, s)
    decreases |inputs|
  {
    [s] +
    if inputs == [] then []
    else
      var o := Replied(w, s, inputs[0].text, inputs[0].creation);
      RepliedKeepsInv(w, s, inputs[0].text, inputs[0].creation);
      if o.state.Some? then States(w, o.state.value, inputs[1..]) else []
  }

  /**
   * The invariant of every reachable state: the step exists, the target step is never open
   * for a freeform schedule, past the prompt step the prompt fits the kind and target, an
   * overwrite question is open at review only, and every entry a later step reads is there.
   */
  lemma {:induction false} EveryStateIsSound(w: World, s: State, inputs: seq<Input>)
    requires Inv(w, s)
    ensures forall i :: 0 <= i < |States(w, s, inputs)| ==> Inv(w, States(w, s, inputs)[i])
    decreases |inputs|
  {
    hide Inv, Replied;
    if inputs != [] {
      var o := Replied(w, s, inputs[0].text, inputs[0].creation);
      RepliedKeepsInv(w, s, inputs[0].text, inputs[0].creation);
      if o.state.Some? {
        EveryStateIsSound(w, o.state.value, inputs[1..]);
      }
    }
  }

  lemma StartIsSound(w: World)
    ensures Inv(w, START)
  {
  }

  // ---- The wizard's data are what the replies say ----

  function Entry(d: Data, k: Key): Option<string> {
    if k in d then Some(d[k]) else None
  }

  /** The choices that are kept for good, whatever step is open. */
  predicate ChoicesKept(d: Data, rs: Replies, suggestion: Option<string>) {
    && KindAsked(rs) == Entry(d, Kind)
    && (Target in d <==> TARGET in rs) && (Target in d ==> d[Target] == TargetAsked(rs))
    && suggestion == Entry(d, DefaultName)
  }

  /** What the steps before `step` have stored. */
  predicate StepsKept(w: World, d: Data, step: nat, rs: Replies, suggestion: Option<string>) {
    && (step > PROMPT ==> PromptAsked(rs).Some? && Entry(d, Prompt) == PromptAsked(rs))
    && (step > WHEN ==> WhenAsked(w, rs).Some? && Entry(d, Cron) == Some(WhenAsked(w, rs).value.cron)
                        && Entry(d, WhenHuman) == Some(WhenAsked(w, rs).value.human))
    && (step > TIMEZONE ==> Entry(d, Timezone) == Some(ZoneAsked(rs)))
    && (step > NAME ==> Entry(d, Name) == Some(NameAsked(rs, suggestion)))
  }

  ghost predicate Coupled(w: World, s: State, d: Dialogue) {
    && Inv(w, s) && s.step == d.step && s.awaitingOverwrite == d.taken
    && ChoicesKept(s.data, d.replies, d.suggestion)
    && StepsKept(w, s.data, s.step, d.replies, d.suggestion)
    && (s.step >= NAME ==> d.suggestion.Some?)
  }

  lemma StartIsCoupled(w: World)
    ensures Coupled(w, START, BEGIN)
  {
  }

  /** Without a target the prompt is the body as it was typed. */
  lemma SameSuggestion(w: World, s: State, d: Dialogue)
    requires Inv(w, s) && s.step > PROMPT && ChoicesKept(s.data, d.replies, d.suggestion)
    requires Entry(s.data, Prompt) == PromptAsked(d.replies)
    ensures SuggestedName(w, s.data) == Suggestion(w, d.replies)
  {
    hide ParseKind, ParseTarget, IsSkip, Stripped, FirstWords;
  }

  /** Asking about a step keeps the two together. */
  lemma EnteringKeepsCoupled(w: World, s: State, d: Dialogue, step: nat)
    requires Inv(w, s) && s.step == step && !s.awaitingOverwrite
    requires ChoicesKept(s.data, d.replies, d.suggestion) && StepsKept(w, s.data, step, d.replies, d.suggestion)
    requires step > NAME ==> d.suggestion.Some?
    ensures Coupled(w, Asked(w, s), Entered(w, d, step))
  {
    hide KindAsked, TargetAsked, PromptAsked, WhenAsked, ZoneAsked, Inv;
    AskedKeepsInv(w, s);
    if step == NAME && d.suggestion.None? {
      SameSuggestion(w, s, d);
    }
  }

  /** Fewer steps behind, fewer entries to account for. */
  lemma EarlierIsKept(w: World, d: Data, late: nat, early: nat, rs: Replies, suggestion: Option<string>)
    requires StepsKept(w, d, late, rs, suggestion) && early <= late
    ensures StepsKept(w, d, early, rs, suggestion)
  {
  }

  lemma BackKeepsCoupled(w: World, s: State, d: Dialogue)
    requires Coupled(w, s, d) && s.step > 0
    ensures Before(d.replies, d.step) == Previous(s)
    ensures Coupled(w, Asked(w, State(Previous(s), s.data, false)), Entered(w, d, Before(d.replies, d.step)))
  {
    hide KindAsked, TargetAsked, StepsKept, Asked, Entered, Inv;
    BackKeepsInv(w, s);
    EarlierIsKept(w, s.data, s.step, Previous(s), d.replies, d.suggestion);
    EnteringKeepsCoupled(w, State(Previous(s), s.data, false), d, Previous(s));
  }

  lemma RenameKeepsCoupled(w: World, s: State, d: Dialogue)
    requires Coupled(w, s, d) && s.step == REVIEW
    ensures Coupled(w, Asked(w, State(NAME, s.data - {Name}, false)), Entered(w, d, NAME))
  {
    hide KindAsked, TargetAsked, PromptAsked, WhenAsked, ZoneAsked, NameAsked, Asked, Entered, Inv;
    RenameKeepsInv(w, s);
    EnteringKeepsCoupled(w, State(NAME, s.data - {Name}, false), d, NAME);
  }

  lemma FlagKeepsCoupled(w: World, s: State, d: Dialogue, flag: bool)
    requires Coupled(w, s, d) && (flag ==> s.step == REVIEW)
    ensures Coupled(w, s.(awaitingOverwrite := flag), d.(taken := flag))
  {
    hide ChoicesKept, StepsKept;
    FlagKeepsInv(w, s, flag);
  }

  // ---- One reply ----

  /** A reply to another step leaves what the replies say about this one. */
  lemma OtherReply(rs: Replies, step: nat, reply: string, other: nat)
    requires other != step
    ensures ReplyTo(rs[step := reply], other) == ReplyTo(rs, other)
  {
  }

  lemma KindIsHeard(w: World, s: State, d: Dialogue, reply: string, s': State)
    requires Coupled(w, s, d) && s.step == KIND && Consumed(w, s, reply) == Some(s')
    ensures
      var rs := d.replies[KIND := reply];
      && s'.step == After(rs, KIND) && ChoicesKept(s'.data, rs, d.suggestion)
      && StepsKept(w, s'.data, s'.step, rs, d.suggestion)
  {
    hide ParseKind, ParseTarget, PromptAsked, WhenAsked, ZoneAsked, NameAsked;
  }

  lemma TargetIsHeard(w: World, s: State, d: Dialogue, reply: string, s': State)
    requires Coupled(w, s, d) && s.step == TARGET && Consumed(w, s, reply) == Some(s')
    ensures
      var rs := d.replies[TARGET := reply];
      && s'.step == After(rs, TARGET) && ChoicesKept(s'.data, rs, d.suggestion)
      && StepsKept(w, s'.data, s'.step, rs, d.suggestion)
  {
    hide ParseKind, ParseTarget, PromptAsked, WhenAsked, ZoneAsked, NameAsked;
  }

  lemma PromptIsHeard(w: World, s: State, d: Dialogue, reply: string, s': State)
    requires Coupled(w, s, d) && s.step == PROMPT && Consumed(w, s, reply) == Some(s')
    ensures
      var rs := d.replies[PROMPT := reply];
      && s'.step == After(rs, PROMPT) && ChoicesKept(s'.data, rs, d.suggestion)
      && StepsKept(w, s'.data, s'.step, rs, d.suggestion)
  {
    hide ParseKind, ParseTarget, IsSkip, Stripped, WhenAsked, ZoneAsked, NameAsked;
  }

  lemma WhenIsHeard(w: World, s: State, d: Dialogue, reply: string, s': State)
    requires Coupled(w, s, d) && s.step == WHEN && Consumed(w, s, reply) == Some(s')
    ensures
      var rs := d.replies[WHEN := reply];
      && s'.step == After(rs, WHEN) && ChoicesKept(s'.data, rs, d.suggestion)
      && StepsKept(w, s'.data, s'.step, rs, d.suggestion)
  {
    hide ParseKind, ParseTarget, Composed, Parse, Stripped, ZoneAsked, NameAsked;
  }

  lemma ZoneIsHeard(w: World, s: State, d: Dialogue, reply: string, s': State)
    requires Coupled(w, s, d) && s.step == TIMEZONE && Consumed(w, s, reply) == Some(s')
    ensures
      var rs := d.replies[TIMEZONE := reply];
      && s'.step == After(rs, TIMEZONE) && ChoicesKept(s'.data, rs, d.suggestion)
      && StepsKept(w, s'.data, s'.step, rs, d.suggestion)
  {
    hide ParseKind, ParseTarget, Composed, Parse, Stripped, IsSkip, NameAsked;
  }

  lemma NameIsHeard(w: World, s: State, d: Dialogue, reply: string, s': State)
    requires Coupled(w, s, d) && s.step == NAME && Consumed(w, s, reply) == Some(s')
    ensures
      var rs := d.replies[NAME := reply];
      && s'.step == After(rs, NAME) && ChoicesKept(s'.data, rs, d.suggestion)
      && StepsKept(w, s'.data, s'.step, rs, d.suggestion)
  {
    hide ParseKind, ParseTarget, Composed, Parse, Stripped, IsSkip;
  }

  lemma AcceptedIffConsumed(w: World, s: State, d: Dialogue, reply: string)
    requires Coupled(w, s, d) && s.step < REVIEW
    ensures Consumed(w, s, reply).Some? <==> Acceptable(w, d.replies, d.step, reply)
  {
    hide ParseKind, ParseTarget, Parse, Stripped, IsSkip, StepsKept, PromptFits, CronFits;
  }

  /** A step takes a reply exactly when it is acceptable, and stores what it says. */
  lemma ReplyIsHeard(w: World, s: State, d: Dialogue, reply: string, s': State)
    requires Coupled(w, s, d) && s.step < REVIEW && Consumed(w, s, reply) == Some(s')
    ensures
      var rs := d.replies[d.step := reply];
      && s'.step == After(rs, d.step) && !s'.awaitingOverwrite
      && ChoicesKept(s'.data, rs, d.suggestion) && StepsKept(w, s'.data, s'.step, rs, d.suggestion)
  {
    hide ParseKind, ParseTarget, Composed, Parse, Stripped, IsSkip, ChoicesKept, StepsKept, PromptFits, CronFits, After;
    assert !s.awaitingOverwrite;
    if s.step == KIND {
      KindIsHeard(w, s, d, reply, s');
    } else if s.step == TARGET {
      TargetIsHeard(w, s, d, reply, s');
    } else if s.step == PROMPT {
      PromptIsHeard(w, s, d, reply, s');
    } else if s.step == WHEN {
      WhenIsHeard(w, s, d, reply, s');
    } else if s.step == TIMEZONE {
      ZoneIsHeard(w, s, d, reply, s');
    } else {
      NameIsHeard(w, s, d, reply, s');
    }
  }

  lemma ConsumingKeepsCoupled(w: World, s: State, d: Dialogue, reply: string)
    requires Coupled(w, s, d) && s.step < REVIEW && Consumed(w, s, reply).Some?
    ensures
      var rs := d.replies[d.step := reply];
      Coupled(w, Asked(w, Consumed(w, s, reply).value), Entered(w, d.(replies := rs), After(rs, d.step)))
  {
    hide Inv, ChoicesKept, StepsKept, Consumed, Asked, Entered, Acceptable;
    ReplyIsHeard(w, s, d, reply, Consumed(w, s, reply).value);
    ConsumedKeepsInv(w, s, reply);
    var rs := d.replies[d.step := reply];
    EnteringKeepsCoupled(w, Consumed(w, s, reply).value, d.(replies := rs), After(rs, d.step));
  }

  /** What the review confirms is what the replies describe. */
  lemma ReviewDescribes(w: World, s: State, d: Dialogue)
    requires Coupled(w, s, d) && s.step == REVIEW
    ensures
      var e := s.data;
      && Name in e && Cron in e && Prompt in e && Timezone in e
      && Describes(w, d, Request(e[Name], e[Cron], e[Prompt], e[Timezone]))
  {
    hide ChoicesKept, PromptAsked, WhenAsked, ZoneAsked, NameAsked;
    HasAll(w, s);
  }

  lemma TargetShown(d: Data, rs: Replies, suggestion: Option<string>)
    requires ChoicesKept(d, rs, suggestion)
    ensures TargetAsked(rs) == if Target in d then d[Target] else ""
  {
    hide ParseTarget;
  }

  /** The review shows what the replies say, the echo of the schedule included. */
  lemma ReviewShowsTheReplies(w: World, s: State, d: Dialogue)
    requires Coupled(w, s, d) && s.step == REVIEW
    ensures KindAsked(d.replies).Some? && PromptAsked(d.replies).Some? && WhenAsked(w, d.replies).Some?
    ensures
      var rs := d.replies;
      Quoted(w, s) == [KindAsked(rs).value] + (if TargetAsked(rs) != "" then [TargetAsked(rs)] else [])
        + [PromptAsked(rs).value, WhenAsked(w, rs).value.human, WhenAsked(w, rs).value.cron, ZoneAsked(rs),
           NameAsked(rs, d.suggestion)]
  {
    hide KindAsked, TargetAsked, PromptAsked, WhenAsked, ZoneAsked, NameAsked, PromptFits, CronFits, GoodTarget;
    TargetShown(s.data, d.replies, d.suggestion);
  }

  /** The prompt question names the kind, and the target unless the schedule is freeform. */
  lemma PromptQuestionNames(w: World, s: State, d: Dialogue)
    requires Coupled(w, s, d) && s.step == PROMPT
    ensures KindAsked(d.replies).Some?
    ensures
      var kind := KindAsked(d.replies).value;
      Quoted(w, s) == if kind == FREEFORM then [kind] else [kind, TargetAsked(d.replies)]
  {
    hide KindAsked, TargetAsked, GoodTarget;
  }

  lemma HeardInStep(w: World, s: State, d: Dialogue, input: Input)
    requires Coupled(w, s, d)
    ensures
      var o, t := Replied(w, s, input.text, input.creation), Answered(w, d, input);
      && (o.request.Some? <==> t.confirmed) && (o.state.Some? <==> t.dialogue.Some?)
      && (t.confirmed ==> s.step == REVIEW && Describes(w, d, o.request.value))
      && (o.state.Some? ==> Coupled(w, o.state.value, t.dialogue.value))
  {
    hide Inv, Coupled, ChoicesKept, StepsKept, Consumed, Asked, Entered, Acceptable, Previous, Before, After,
      Stripped, Lower, IsCancel, ParseBool, Describes;
    CoupledStep(w, s, d);
    FlagKeepsCoupled(w, s, d, false);
    if s.step > 0 {
      BackKeepsCoupled(w, s, d);
    }
    if s.step == REVIEW {
      FlagKeepsCoupled(w, s, d, true);
      RenameKeepsCoupled(w, s, d);
      ReviewDescribes(w, s, d);
    } else {
      AcceptedIffConsumed(w, s, d, Stripped(input.text));
      if Consumed(w, s, Stripped(input.text)).Some? {
        ConsumingKeepsCoupled(w, s, d, Stripped(input.text));
      }
    }
  }

  lemma CoupledStep(w: World, s: State, d: Dialogue)
    requires Coupled(w, s, d)
    ensures Inv(w, s) && s.step == d.step <= REVIEW && s.awaitingOverwrite == d.taken
    ensures d.taken ==> s.step == REVIEW
  {
  }

  // ---- What is asked for, and what fires ----

  /** What the stored prompt runs, for the kind, target and body that were typed. */
  ghost predicate Fires(rs: Replies, prompt: string) {
    var target, body := TargetAsked(rs), BodyAsked(rs);
    match KindAsked(rs)
    case None => false
    case Some(kind) =>
      if kind == FREEFORM then body != "" && prompt == body && FreeformFires(body)
      else if kind == AGENT then body != "" && AgentFires(prompt, target, body)
      else SkillFires(prompt, target, if IsSkip(body) then "" else body)
  }

  lemma AgentPromptFires(target: string, body: string)
    requires Trim(body) && body != "" && GoodTarget(target)
    ensures AgentFires(Stripped(MENTION + target + " " + body), target, body)
  {
    JoinedIsTrim(MENTION + target, body);
    AgentRoundTrip(target, body);
  }

  lemma SkillPromptFires(target: string, body: string)
    requires Trim(body) && GoodTarget(target)
    ensures
      if IsSkip(body) then SkillFires("/" + target, target, "")
      else SkillFires(Stripped("/" + target + " " + body), target, body)
  {
    hide SkillFires, IsSkip;
    if IsSkip(body) {
      SkillWithoutArgs(target);
    } else {
      SkipsEmpty(body);
      SkillWithArgs(target, body);
    }
  }

  lemma SkipsEmpty(body: string)
    ensures body == "" ==> IsSkip(body)
  {
  }

  lemma SkillWithoutArgs(target: string)
    requires GoodTarget(target)
    ensures SkillFires("/" + target, target, "")
  {
    SkillRoundTrip(target, "");
    assert "/" + target + "" == "/" + target;
  }

  lemma SkillWithArgs(target: string, args: string)
    requires GoodTarget(target) && Trim(args) && args != ""
    ensures SkillFires(Stripped("/" + target + " " + args), target, args)
  {
    hide SkillFires, Trim, Stripped;
    JoinedIsTrim("/" + target, args);
    SkillRoundTrip(target, args);
    assert SlashPrompt(target, args) == "/" + target + " " + args;
  }

  /** At review a prompt is stored that fires what was typed. */
  lemma PromptFires(w: World, s: State, d: Dialogue)
    requires Coupled(w, s, d) && s.step == REVIEW
    ensures PromptAsked(d.replies).Some? && Fires(d.replies, PromptAsked(d.replies).value)
  {
    hide Resolve, AgentFires, SkillFires, FreeformFires, IsSkip, Parse, Stripped, AgentName, Solid, ParseKind,
      ParseTarget, Trim;
    var target, body := TargetAsked(d.replies), BodyAsked(d.replies);
    StrippedIsTrim(ReplyTo(d.replies, PROMPT));
    if s.data[Kind] == AGENT {
      AgentPromptFires(target, body);
    } else if s.data[Kind] == SKILL {
      SkillPromptFires(target, body);
    } else {
      FreeformRoundTrip(body);
    }
  }

  predicate KnownZone(w: World, zone: string) { zone == DEFAULT_TIMEZONE || w.validZone(zone) }

  lemma ZoneIsKnown(w: World, s: State, d: Dialogue)
    requires Coupled(w, s, d) && s.step == REVIEW
    ensures KnownZone(w, ZoneAsked(d.replies))
  {
  }

  /** The request is what the replies describe, and it fires what they name. */
  ghost predicate Faithful(w: World, d: Dialogue, r: Request) {
    Describes(w, d, r) && Fires(d.replies, r.prompt) && KnownZone(w, r.timezone)
  }

  lemma {:induction false} ConversationIsFaithful(w: World, s: State, d: Dialogue, inputs: seq<Input>)
    requires Coupled(w, s, d)
    ensures |Requests(w, s, inputs)| == |Confirmed(w, d, inputs)|
    ensures forall i :: 0 <= i < |Requests(w, s, inputs)| ==>
      Faithful(w, Confirmed(w, d, inputs)[i], Requests(w, s, inputs)[i])
    decreases |inputs|
  {
    hide Inv, Coupled, Replied, Answered, Describes, Fires, KnownZone, ZoneAsked, PromptAsked;
    CoupledStep(w, s, d);
    if inputs != [] {
      HeardInStep(w, s, d, inputs[0]);
      var o, t := Replied(w, s, inputs[0].text, inputs[0].creation), Answered(w, d, inputs[0]);
      if t.confirmed {
        PromptFires(w, s, d);
        ZoneIsKnown(w, s, d);
        DescribedFields(w, d, o.request.value);
      }
      if o.state.Some? {
        ConversationIsFaithful(w, o.state.value, t.dialogue.value, inputs[1..]);
      }
    }
  }

  lemma DescribedFields(w: World, d: Dialogue, r: Request)
    requires Describes(w, d, r)
    ensures PromptAsked(d.replies) == Some(r.prompt) && ZoneAsked(d.replies) == r.timezone
  {
  }

  /**
   * Every conversation asks for exactly the schedules its replies confirm, in order. Each has
   * the prompt composed from the last kind, target and body accepted, the cron parsed from the
   * last accepted "when", the zone, and the name - or, if that was skipped, the one suggested
   * when it was first asked for. And what its prompt will run is determined by what was typed:
   * the chosen agent with that body if and only if the target is an agent name, else the agent
   * of its first word or none; the chosen skill if and only if the target holds no white space,
   * else that of its first word; and the general-purpose agent if and only if a freeform prompt
   * neither starts with a slash nor mentions an agent.
   */
  lemma {:induction false} EveryScheduleIsFaithful(w: World, inputs: seq<Input>)
    ensures Inv(w, START) && |Requests(w, START, inputs)| == |Confirmed(w, BEGIN, inputs)|
    ensures forall i :: 0 <= i < |Requests(w, START, inputs)| ==>
      Faithful(w, Confirmed(w, BEGIN, inputs)[i], Requests(w, START, inputs)[i])
  {
    StartIsSound(w);
    StartIsCoupled(w);
    ConversationIsFaithful(w, START, BEGIN, inputs);
  }

  // ---- The suggested name ----

  /**
   * Asked for a name, `skip` stores the name just shown if and only if none was suggested
   * before, or the one suggested first is the same.
   */
  lemma SkipTakesShownNameIff(w: World, s: State, reply: string)
    requires Inv(w, s) && s.step == NAME && IsSkip(reply)
    ensures Inv(w, Asked(w, s)) && Consumed(w, Asked(w, s), reply).Some?
    ensures Name in Consumed(w, Asked(w, s), reply).value.data
    ensures
      Quoted(w, s) == [Consumed(w, Asked(w, s), reply).value.data[Name]]
      <==> DefaultName !in s.data || s.data[DefaultName] == SuggestedName(w, s.data)
  {
    hide IsSkip, SuggestedName;
    AskedKeepsInv(w, s);
  }

  /** The states of a conversation that is still open, ending in `s`. */
  ghost predicate Leads(w: World, inputs: seq<Input>, s: State) {
    Inv(w, START) && Inv(w, s)
    && |States(w, START, inputs)| == |inputs| + 1 && States(w, START, inputs)[|inputs|] == s
  }

  lemma {:induction false} StatesAppend(w: World, s: State, inputs: seq<Input>, input: Input)
    requires Inv(w, s) && |States(w, s, inputs)| == |inputs| + 1
    ensures Inv(w, States(w, s, inputs)[|inputs|])
    ensures
      var last := States(w, s, inputs)[|inputs|];
      var o := Replied(w, last, input.text, input.creation);
      o.state.Some? ==> States(w, s, inputs + [input]) == States(w, s, inputs) + [o.state.value]
    decreases |inputs|
  {
    hide Inv, Replied;
    if inputs == [] {
      assert inputs + [input] == [input] && [input][1..] == [];
      if Replied(w, s, input.text, input.creation).state.Some? {
        RepliedKeepsInv(w, s, input.text, input.creation);
        assert States(w, Replied(w, s, input.text, input.creation).state.value, [])
            == [Replied(w, s, input.text, input.creation).state.value];
      }
    } else {
      assert (inputs + [input])[0] == inputs[0] && (inputs + [input])[1..] == inputs[1..] + [input];
      RepliedKeepsInv(w, s, inputs[0].text, inputs[0].creation);
      var s' := Replied(w, s, inputs[0].text, inputs[0].creation).state.value;
      StatesAppend(w, s', inputs[1..], input);
      assert [s] + States(w, s', inputs[1..]) == States(w, s, inputs);
    }
  }

  /** One more reply that a step takes. */
  lemma Goes(w: World, inputs: seq<Input>, s: State, text: string, s': State) returns (longer: seq<Input>)
    requires Leads(w, inputs, s) && s.step < REVIEW
    requires Stripped(text) == text && !IsCancel(Lower(text)) && Lower(text) != "back"
    requires Consumed(w, s, text).Some? && Asked(w, Consumed(w, s, text).value) == s'
    ensures longer == inputs + [Input(text, Created)] && Leads(w, longer, s')
  {
    hide Consumed, Asked, Stripped, Lower, IsCancel;
    longer := inputs + [Input(text, Created)];
    StatesAppend(w, START, inputs, Input(text, Created));
    RepliedKeepsInv(w, s, text, Created);
    StepInRange(w, s);
  }

  lemma GoesBack(w: World, inputs: seq<Input>, s: State) returns (longer: seq<Input>)
    requires Leads(w, inputs, s) && 0 < s.step <= NAME && Previous(s) == s.step - 1
    ensures longer == inputs + [Input("back", Created)] && Leads(w, longer, State(s.step - 1, s.data, false))
  {
    hide Stripped, Lower, Asked;
    longer := inputs + [Input("back", Created)];
    BackIsBack();
    StatesAppend(w, START, inputs, Input("back", Created));
    RepliedKeepsInv(w, s, "back", Created);
    StepInRange(w, s);
    AskingElsewhere(w, State(s.step - 1, s.data, false));
  }

  lemma BackIsBack()
    ensures Stripped("back") == "back" && Lower("back") == "back" && !IsCancel("back")
  {
  }

  /** A world that knows no raw cron and leaves titles alone. */
  const PLAIN_WORLD := World((s: string) => false, (s: string) => true, (t: Title) => t)

  const HOURLY := "every hour on the hour"

  predicate Ordinary(text: string) {
    Stripped(text) == text && !IsCancel(Lower(text)) && Lower(text) != "back"
  }

  lemma HourlyIsParsed()
    ensures Parse(PLAIN_WORLD.validCron, HOURLY).Some? && Ordinary(HOURLY)
  {
    hide Parse, Understood, Stripped, Trim, IsCancel;
    NlCronProperties.HourlyEcho();
    NlCronProperties.EchoIsParsed(PLAIN_WORLD.validCron, Hourly);
    HourlyIsTrim();
    TrimIsStripped(HOURLY);
    LongIsOrdinary(Lower(HOURLY));
  }

  lemma HourlyIsTrim()
    ensures Trim(HOURLY) && |Lower(HOURLY)| == |HOURLY| == 22
  {
  }

  lemma LongIsOrdinary(word: string)
    requires |word| > 7
    ensures !IsCancel(word) && word != "back"
  {
  }

  lemma PlainTargets(text: string)
    requires text == "foo" || text == "bar"
    ensures Ordinary(text) && ParseTarget(text) == text
  {
    hide Stripped, Lower, IsCancel;
    TrimIsStripped(text);
    PlainIsOrdinary(text);
    assert text[0] != '/' && text[0] != '@' && text[0] != 'a';
  }

  lemma PlainIsOrdinary(text: string)
    requires text == "foo" || text == "bar"
    ensures Lower(text) == text && !IsCancel(text)
  {
  }

  lemma PlainReplies()
    ensures Ordinary("agent") && ParseKind("agent") == Some(AGENT)
    ensures Ordinary("go") && Stripped("go") == "go"
    ensures Ordinary("skip") && IsSkip("skip")
  {
    assert Lower("agent") == "agent" && Lower("go") == "go" && Lower("skip") == "skip";
  }

  /** The data after an agent schedule for `target` has been described up to its name. */
  function Described(d: Data, target: string): Data
    requires Composed(AGENT, target, "go").Some? && Parse(PLAIN_WORLD.validCron, HOURLY).Some?
  {
    var r := Parse(PLAIN_WORLD.validCron, HOURLY).value;
    d[Target := target][Prompt := Composed(AGENT, target, "go").value][Cron := r.cron][WhenHuman := r.human]
    [Timezone := DEFAULT_TIMEZONE]
  }

  /** From the target step to the name question. */
  lemma DescribedUpToName(inputs: seq<Input>, d: Data, target: string) returns (longer: seq<Input>)
    requires target == "foo" || target == "bar"
    requires Leads(PLAIN_WORLD, inputs, State(TARGET, d, false)) && Kind in d && d[Kind] == AGENT
    ensures Composed(AGENT, target, "go").Some? && Parse(PLAIN_WORLD.validCron, HOURLY).Some?
    ensures longer == inputs
      + [Input(target, Created), Input("go", Created), Input(HOURLY, Created), Input("skip", Created)]
    ensures Leads(PLAIN_WORLD, longer, Asked(PLAIN_WORLD, State(NAME, Described(d, target), false)))
  {
    hide ParseTarget, ParseKind, Parse, Stripped, Lower, IsSkip, Leads, Inv, IsCancel;
    var w := PLAIN_WORLD;
    HourlyIsParsed();
    PlainTargets(target);
    PlainReplies();
    var d1 := d[Target := target];
    longer := Goes(w, inputs, State(TARGET, d, false), target, State(PROMPT, d1, false));
    var d2 := d1[Prompt := Composed(AGENT, target, "go").value];
    longer := Goes(w, longer, State(PROMPT, d1, false), "go", State(WHEN, d2, false));
    var r := Parse(w.validCron, HOURLY).value;
    var d3 := d2[Cron := r.cron][WhenHuman := r.human];
    longer := Goes(w, longer, State(WHEN, d2, false), HOURLY, State(TIMEZONE, d3, false));
    var s := State(NAME, d3[Timezone := DEFAULT_TIMEZONE], false);
    longer := Goes(w, longer, State(TIMEZONE, d3, false), "skip", Asked(w, s));
  }

  lemma FirstKind() returns (inputs: seq<Input>)
    ensures inputs == [Input("agent", Created)]
    ensures Leads(PLAIN_WORLD, inputs, State(TARGET, map[Kind := AGENT], false))
  {
    PlainReplies();
    StartIsSound(PLAIN_WORLD);
    hide ParseKind, Stripped, Lower, IsCancel;
    inputs := Goes(PLAIN_WORLD, [], START, "agent", State(TARGET, map[Kind := AGENT], false));
    assert [] + [Input("agent", Created)] == [Input("agent", Created)];
  }

  /**
   * The promise fails for an agent "foo" that is changed to "bar" once the name question has
   * been asked: the question then shows "bar", and `skip` stores "foo".
   */
  lemma SkipTakesTheFirstName() returns (inputs: seq<Input>, asked: State, done: State)
    ensures inputs == [
      Input("agent", Created), Input("foo", Created), Input("go", Created), Input(HOURLY, Created),
      Input("skip", Created), Input("back", Created), Input("back", Created), Input("back", Created),
      Input("back", Created), Input("bar", Created), Input("go", Created), Input(HOURLY, Created),
      Input("skip", Created)]
    ensures Leads(PLAIN_WORLD, inputs, asked) && asked.step == NAME && Quoted(PLAIN_WORLD, asked) == ["bar"]
    ensures Leads(PLAIN_WORLD, inputs + [Input("skip", Created)], done)
    ensures done.step == REVIEW && Name in done.data && done.data[Name] == "foo"
  {
    hide Parse, Composed, Stripped, Lower, IsSkip, IsCancel, Leads, Inv, Consumed;
    var w := PLAIN_WORLD;
    inputs := FirstKind();
    inputs := DescribedUpToName(inputs, map[Kind := AGENT], "foo");
    var d := Described(map[Kind := AGENT], "foo")[DefaultName := "foo"];
    assert Asked(w, State(NAME, Described(map[Kind := AGENT], "foo"), false)) == State(NAME, d, false);
    inputs := GoesBack(w, inputs, State(NAME, d, false));
    inputs := GoesBack(w, inputs, State(TIMEZONE, d, false));
    inputs := GoesBack(w, inputs, State(WHEN, d, false));
    inputs := GoesBack(w, inputs, State(PROMPT, d, false));
    inputs := DescribedUpToName(inputs, d, "bar");
    asked := State(NAME, Described(d, "bar"), false);
    assert Asked(w, asked) == asked;
    done := State(REVIEW, asked.data[Name := "foo"], false);
    LeadsToSound(w, inputs, asked);
    SkipTakesStored(asked);
    var longer := Goes(w, inputs, asked, "skip", done);
  }

  lemma LeadsToSound(w: World, inputs: seq<Input>, s: State)
    requires Leads(w, inputs, s)
    ensures Inv(w, s)
  {
  }

  lemma SkipTakesStored(s: State)
    requires Inv(PLAIN_WORLD, s) && s.step == NAME && DefaultName in s.data
    ensures Ordinary("skip")
    ensures Consumed(PLAIN_WORLD, s, "skip") == Some(State(REVIEW, s.data[Name := s.data[DefaultName]], false))
  {
    PlainReplies();
    hide IsSkip;
  }
}
