/**
 * What a conversation with the schedule wizard asks for, read off the user's replies alone:
 * the last reply accepted at each step, and what those replies say.
 */
module WizardReplies {
  import opened Options
  import opened Text
  import opened NlCron
  import opened Dispatch
  import opened Wizard

  /** A reply of the user, and how creating the schedule would end at that point. */
  datatype Input = Input(text: string, creation: Creation)

  /** The last reply accepted at each step. */
  type Replies = map<nat, string>

  /**
   * Where a conversation stands: the step it asks about, the replies so far, the name suggested
   * when the name question was first asked, and whether a name has just been found taken.
   */
  datatype Dialogue = Dialogue(step: nat, replies: Replies, suggestion: Option<string>, taken: bool)

  const BEGIN := Dialogue(KIND, map[], None, false)

  function ReplyTo(rs: Replies, step: nat): string {
    if step in rs then rs[step] else ""
  }

  // ---- What the replies say ----

  function KindAsked(rs: Replies): Option<string> {
    if KIND in rs then ParseKind(rs[KIND]) else None
  }

  function TargetAsked(rs: Replies): string {
    if TARGET in rs then ParseTarget(rs[TARGET]) else ""
  }

  function BodyAsked(rs: Replies): string { Stripped(ReplyTo(rs, PROMPT)) }

  function PromptAsked(rs: Replies): Option<string> {
    match KindAsked(rs)
    case None => None
    case Some(kind) => Composed(kind, TargetAsked(rs), BodyAsked(rs))
  }

  function WhenAsked(w: World, rs: Replies): Option<ParseResult> { Parse(w.validCron, ReplyTo(rs, WHEN)) }

  function ZoneAsked(rs: Replies): string {
    var reply := ReplyTo(rs, TIMEZONE);
    if IsSkip(reply) then DEFAULT_TIMEZONE else Stripped(reply)
  }

  /** The name to suggest: the target as a title, else the first words of the prompt. */
  function Suggestion(w: World, rs: Replies): string {
    var target, words := TargetAsked(rs), FirstWords(BodyAsked(rs));
    if target != "" then w.titled(target) else if words != "" then words else FALLBACK_NAME
  }

  function NameAsked(rs: Replies, suggestion: Option<string>): string {
    var reply := ReplyTo(rs, NAME);
    if !IsSkip(reply) then Stripped(reply)
    else if suggestion.Some? then suggestion.value
    else FALLBACK_NAME
  }

  /** The request is the one that the replies describe. */
  predicate Describes(w: World, d: Dialogue, r: Request) {
    && PromptAsked(d.replies) == Some(r.prompt)
    && WhenAsked(w, d.replies).Some? && WhenAsked(w, d.replies).value.cron == r.cron
    && ZoneAsked(d.replies) == r.timezone
    && NameAsked(d.replies, d.suggestion) == r.name
  }

  // ---- Which replies are accepted, and where they lead ----

  predicate Acceptable(w: World, rs: Replies, step: nat, reply: string) {
    if step == KIND then ParseKind(reply).Some?
    else if step == TARGET then ParseTarget(reply) != ""
    else if step == PROMPT then KindAsked(rs) == Some(SKILL) || Stripped(reply) != ""
    else if step == WHEN then Parse(w.validCron, reply).Some?
    else if step == TIMEZONE then IsSkip(reply) || w.validZone(Stripped(reply))
    else true
  }

  /** A freeform schedule has no target step. */
  function After(rs: Replies, step: nat): nat {
    if step == KIND && KindAsked(rs) == Some(FREEFORM) then PROMPT else step + 1
  }

  function Before(rs: Replies, step: nat): nat
    requires step > KIND
  {
    if step == PROMPT && KindAsked(rs) == Some(FREEFORM) then KIND else step - 1
  }

  /** A step is asked about; the name question makes its suggestion the first time. */
  function Entered(w: World, d: Dialogue, step: nat): Dialogue {
    var suggestion :=
      if step == NAME && d.suggestion.None? then Some(Suggestion(w, d.replies)) else d.suggestion;
    Dialogue(step, d.replies, suggestion, false)
  }

  /** After a reply: how the dialogue goes on, if it does, and whether a schedule is asked for. */
  datatype Turn = Turn(dialogue: Option<Dialogue>, confirmed: bool)

  function Answered(w: World, d: Dialogue, input: Input): Turn {
    var reply := Stripped(input.text);
    var word := Lower(reply);
    if IsCancel(word) then Turn(None, false)
    else if word == "back" then
      if d.taken then Turn(Some(d.(taken := false)), false)
      else if d.step == KIND then Turn(Some(d), false)
      else Turn(Some(Entered(w, d, Before(d.replies, d.step))), false)
    else if d.taken then
      match ParseBool(reply)
      case None => Turn(Some(d), false)
      case Some(false) => Turn(None, false)
      case Some(true) => Turn(Some(Entered(w, d, NAME)), false)
    else if d.step == REVIEW then
      if word != "confirm" then Turn(Some(d), false)
      else Turn(if input.creation.NameTaken? then Some(d.(taken := true)) else None, true)
    else if Acceptable(w, d.replies, d.step, reply) then
      var replies := d.replies[d.step := reply];
      Turn(Some(Entered(w, d.(replies := replies), After(replies, d.step))), false)
    else Turn(Some(d), false)
  }

  /** The dialogue at each point where a schedule is asked for. */
  function Confirmed(w: World, d: Dialogue, inputs: seq<Input>): seq<Dialogue>
    decreases |inputs|
  {
    if inputs == [] then []
    else
      var t := Answered(w, d, inputs[0]);
      (if t.confirmed then [d] else [])
      + (if t.dialogue.Some? then Confirmed(w, t.dialogue.value, inputs[1..]) else [])
  }
}
