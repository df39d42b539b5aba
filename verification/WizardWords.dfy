/** The words that the schedule wizard of handlers/schedule_wizard.py takes for an answer. */
module WizardWords {
  import opened Options
  import opened Text
  import opened Dispatch
  import opened Wizard

  const AGENT_WORDS := ["a", "agent", "agents"]
  const SKILL_WORDS := ["s", "skill", "skills"]
  const FREEFORM_WORDS := ["f", "free", "freeform", "free-form", "prompt"]
  const SKIP_WORDS := ["", "skip", "-", "none"]
  const YES_WORDS := ["true", "yes", "y", "on", "1"]
  const NO_WORDS := ["false", "no", "n", "off", "0"]
  const CANCEL_WORDS := ["cancel", "/cancel", "quit", "/quit", "abort"]

  /** The word an answer comes down to: spaces around it and capitals do not count. */
  function WordOf(text: string): string { Lower(Stripped(text)) }

  lemma KindWords(text: string)
    ensures ParseKind(text) == Some("agent") <==> WordOf(text) in AGENT_WORDS
    ensures ParseKind(text) == Some("skill") <==> WordOf(text) in SKILL_WORDS
    ensures ParseKind(text) == Some("freeform") <==> WordOf(text) in FREEFORM_WORDS
    ensures ParseKind(text) == None <==> WordOf(text) !in AGENT_WORDS + SKILL_WORDS + FREEFORM_WORDS
  {
    hide Lower, Stripped;
  }

  lemma AnswerWords(text: string)
    ensures IsSkip(text) <==> WordOf(text) in SKIP_WORDS
    ensures ParseBool(text) == Some(true) <==> WordOf(text) in YES_WORDS
    ensures ParseBool(text) == Some(false) <==> WordOf(text) in NO_WORDS
    ensures IsCancel(text) <==> text in CANCEL_WORDS
  {
    hide Lower, Stripped;
  }

  lemma MarkGoes(c: char, answer: string)
    requires answer != "" && answer[0] != c
    ensures WithoutLeading(answer, c) == answer && WithoutLeading([c] + answer, c) == answer
  {
    assert ([c] + answer)[1..] == answer;
  }

  lemma MarkStays(c: char, d: char, answer: string)
    requires c != d
    ensures WithoutLeading([d] + answer, c) == [d] + answer
  {
  }

  /** A trimmed text is still trimmed with a mark before it. */
  lemma MarkedIsTrim(c: char, answer: string)
    requires answer != "" && Trim(answer) && !IsSpace(c)
    ensures Stripped(answer) == answer && Stripped([c] + answer) == [c] + answer
  {
    assert ([c] + answer)[|answer|] == answer[|answer| - 1];
    TrimIsStripped(answer);
    TrimIsStripped([c] + answer);
  }

  /** One mark, or none, before an answer. */
  lemma MarkedAnswer(answer: string)
    requires answer != "" && Trim(answer) && answer[0] != '/' && answer[0] != '@'
    ensures
      var name := if "agent-" <= answer then answer[6..] else answer;
      ParseTarget(answer) == name && ParseTarget(['/'] + answer) == name && ParseTarget(['@'] + answer) == name
  {
    hide Stripped, WithoutLeading, Trim, IsSpace;
    SpaceIsNoMark();
    MarkedIsTrim('/', answer);
    MarkedIsTrim('@', answer);
    MarkGoes('/', answer);
    MarkGoes('@', answer);
    MarkStays('/', '@', answer);
  }

  lemma SpaceIsNoMark()
    ensures !IsSpace('/') && !IsSpace('@')
  {
  }

  /** A name may be given as it is, or with the marks it is written with elsewhere. */
  lemma TargetMarksAreDropped(name: string)
    requires name != "" && Trim(name) && name[0] != '/' && name[0] != '@' && !("agent-" <= name)
    ensures ParseTarget(name) == name && ParseTarget("/" + name) == name && ParseTarget("@" + name) == name
    ensures ParseTarget("agent-" + name) == name && ParseTarget(MENTION + name) == name
  {
    hide ParseTarget;
    MarkedAnswer(name);
    var long := "agent-" + name;
    assert long[|long| - 1] == name[|name| - 1];
    MarkedAnswer(long);
    assert long[6..] == name && ['@'] + long == MENTION + name;
  }

  /** The name suggested for a prompt is its first four words, or all if there are fewer. */
  lemma FourWordsAreSuggested(ws: seq<string>)
    requires AllSolid(ws)
    ensures FirstWords(Join(ws)) == Join(if |ws| <= 4 then ws else [ws[0], ws[1], ws[2], ws[3]])
  {
    hide Join, Words;
    WordsOfJoin(ws);
    if |ws| > 4 {
      assert ws[..4] == [ws[0], ws[1], ws[2], ws[3]];
    }
  }

  /** Skipping the zone takes London. */
  lemma LondonByDefault(w: World, s: State, reply: string)
    requires Inv(w, s) && s.step == TIMEZONE && IsSkip(reply)
    ensures Consumed(w, s, reply) == Some(State(NAME, s.data[Timezone := "Europe/London"], s.awaitingOverwrite))
  {
    hide IsSkip;
  }
}
