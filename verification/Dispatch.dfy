/**
 * How a stored prompt finds its agent or skill when it fires: `AGENT_MENTION_RE` of
 * handlers/agent_handler.py and the prompt resolution of core/scheduler.py.
 */
module Dispatch {
  import opened Options
  import opened Text

  predicate NameStart(c: char) { 'a' <= c <= 'z' || '0' <= c <= '9' }

  predicate NameChar(c: char) { NameStart(c) || c == '-' }

  /** How far `[a-z0-9-]*` reaches. */
  function NameSpan(s: string): (n: nat)
    ensures n <= |s|
    decreases |s|
  {
    if s == "" || !NameChar(s[0]) then 0 else 1 + NameSpan(s[1..])
  }

  /** How far `[a-z0-9][a-z0-9-]*` reaches; 0 if it does not match. */
  function KebabSpan(s: string): (n: nat)
    ensures n <= |s|
  {
    if s == "" || !NameStart(s[0]) then 0 else NameSpan(s)
  }

  /** How far an agent name, with or without a namespace, reaches; 0 if there is none. */
  function AgentSpan(s: string): (n: nat)
    ensures n <= |s|
  {
    var n := KebabSpan(s);
    if n == 0 then 0
    else if n < |s| && s[n] == ':' then n + (if KebabSpan(s[n + 1..]) > 0 then 1 + KebabSpan(s[n + 1..]) else 0)
    else n
  }

  predicate AgentName(s: string) { s != "" && AgentSpan(s) == |s| }

  const MENTION := "@agent-"

  /** The two groups of the mention pattern, on trimmed text. */
  function Mention(s: string): Option<(string, string)> {
    if !(MENTION <= s) then None
    else
      var rest := s[|MENTION|..];
      var n := AgentSpan(rest);
      if n == 0 || (n < |rest| && !IsSpace(rest[n])) then None
      else Some((rest[..n], LeftTrimmed(rest[n..])))
  }

  datatype Target =
    | ToAgent(name: string, args: string)
    | ToSkill(name: string, args: string)
    | Generic(prompt: string)

  /** The length of the first token. */
  function TokenSpan(s: string): (n: nat)
    ensures n <= |s|
    decreases |s|
  {
    if s == "" || IsSpace(s[0]) then 0 else 1 + TokenSpan(s[1..])
  }

  /** What a firing schedule runs, before the name is looked up. */
  function Resolve(prompt: string): Target {
    var p := Stripped(prompt);
    match Mention(p)
    case Some((name, args)) => ToAgent(name, Stripped(args))
    case None =>
      if p != "" && p[0] == '/' then
        var n := TokenSpan(p);
        ToSkill(p[1..n], LeftTrimmed(p[n..]))
      else Generic(prompt)
  }

  // ---- Names ----

  lemma {:induction false} NameSpanOf(s: string, rest: string)
    requires forall i :: 0 <= i < |s| ==> NameChar(s[i])
    requires rest == "" || !NameChar(rest[0])
    ensures NameSpan(s + rest) == |s|
    decreases |s|
  {
    if s == "" {
      assert s + rest == rest;
    } else {
      assert (s + rest)[0] == s[0] && (s + rest)[1..] == s[1..] + rest;
      NameSpanOf(s[1..], rest);
    }
  }

  lemma {:induction false} NameSpanChars(s: string)
    ensures forall i :: 0 <= i < NameSpan(s) ==> NameChar(s[i])
    ensures NameSpan(s) < |s| ==> !NameChar(s[NameSpan(s)])
    decreases |s|
  {
    if s != "" && NameChar(s[0]) {
      NameSpanChars(s[1..]);
    }
  }

  lemma KebabSpanOf(s: string, rest: string)
    requires s != "" && KebabSpan(s) == |s| && (rest == "" || !NameChar(rest[0]))
    ensures KebabSpan(s + rest) == |s|
  {
    NameSpanChars(s);
    NameSpanOf(s, rest);
    assert (s + rest)[0] == s[0];
  }

  lemma KebabSplits(s: string)
    requires KebabSpan(s) > 0
    ensures var n := KebabSpan(s); s == s[..n] + s[n..] && KebabSpan(s[..n]) == n
    ensures KebabSpan(s) < |s| ==> !NameChar(s[KebabSpan(s)])
  {
    hide NameChar, NameSpan;
    var plain := s[..KebabSpan(s)];
    NameSpanChars(s);
    NameSpanOf(plain, "");
    assert plain + "" == plain && plain[0] == s[0];
  }

  /** A name is read in full when white space or nothing follows. */
  lemma AgentSpanOf(s: string, rest: string)
    requires AgentName(s) && (rest == "" || IsSpace(rest[0]))
    ensures AgentSpan(s + rest) == |s|
  {
    hide KebabSpan;
    var n := KebabSpan(s);
    KebabSplits(s);
    if n == |s| {
      KebabSpanOf(s, rest);
    } else {
      NamespacedSpanOf(s[..n], s[n + 1..], rest);
      assert s == s[..n] + ":" + s[n + 1..];
    }
  }

  lemma NamespacedSpanOf(plain: string, local: string, rest: string)
    requires plain != "" && KebabSpan(plain) == |plain| && local != "" && KebabSpan(local) == |local|
    requires rest == "" || IsSpace(rest[0])
    ensures AgentSpan(plain + ":" + local + rest) == |plain| + 1 + |local|
  {
    hide KebabSpan;
    var s := plain + ":" + local + rest;
    KebabSpanOf(plain, ":" + local + rest);
    KebabSpanOf(local, rest);
    assert s == plain + (":" + local + rest);
    assert s[|plain|] == ':' && s[|plain| + 1..] == local + rest;
  }

  /** What the pattern captures is always an agent name. */
  lemma PrefixIsName(s: string)
    requires AgentSpan(s) > 0
    ensures AgentName(s[..AgentSpan(s)])
  {
    hide KebabSpan;
    var n, k := KebabSpan(s), AgentSpan(s);
    KebabSplits(s);
    if k > n {
      var after := s[n + 1..];
      var local := after[..KebabSpan(after)];
      KebabSplits(after);
      NamespacedSpanOf(s[..n], local, "");
      assert s[..k] == s[..n] + ":" + local + "";
    }
  }

  lemma {:induction false} TokenSpanOf(s: string, rest: string)
    requires (forall i :: 0 <= i < |s| ==> !IsSpace(s[i])) && (rest == "" || IsSpace(rest[0]))
    ensures TokenSpan(s + rest) == |s|
    decreases |s|
  {
    if s == "" {
      assert s + rest == rest;
    } else {
      assert (s + rest)[0] == s[0] && (s + rest)[1..] == s[1..] + rest;
      TokenSpanOf(s[1..], rest);
    }
  }

  lemma {:induction false} TokenSpanChars(s: string)
    ensures forall i :: 0 <= i < TokenSpan(s) ==> !IsSpace(s[i])
    ensures TokenSpan(s) < |s| ==> IsSpace(s[TokenSpan(s)])
    decreases |s|
  {
    hide IsSpace;
    if s != "" && !IsSpace(s[0]) {
      TokenSpanChars(s[1..]);
    }
  }

  // ---- What the mention pattern means ----

  /** `s` is a mention of `name`, followed by nothing or by white space and more. */
  predicate Mentions(s: string, name: string, rest: string) {
    AgentName(name) && s == MENTION + name + rest && (rest == "" || IsSpace(rest[0]))
  }

  /** The pattern matches exactly the mentions, and captures their name and what follows. */
  lemma MentionIff(s: string, name: string, rest: string)
    ensures Mentions(s, name, rest) ==> Mention(s) == Some((name, LeftTrimmed(rest)))
    ensures Mention(s).Some? ==> exists n, r :: Mentions(s, n, r)
  {
    hide Mention, Mentions;
    if Mentions(s, name, rest) {
      MentionsMatch(s, name, rest);
    }
    if Mention(s).Some? {
      var n, r := MatchMentions(s);
    }
  }

  lemma MentionsMatch(s: string, name: string, rest: string)
    requires Mentions(s, name, rest)
    ensures Mention(s) == Some((name, LeftTrimmed(rest)))
  {
    hide AgentSpan, LeftTrimmed, IsSpace;
    SpanOfName(name, rest);
    assert s[|MENTION|..] == name + rest;
    assert (name + rest)[..|name|] == name && (name + rest)[|name|..] == rest;
  }

  lemma SpanOfName(name: string, rest: string)
    requires AgentName(name) && (rest == "" || IsSpace(rest[0]))
    ensures AgentSpan(name + rest) == |name| > 0
  {
    AgentSpanOf(name, rest);
  }

  lemma MatchMentions(s: string) returns (name: string, rest: string)
    requires Mention(s).Some?
    ensures Mentions(s, name, rest)
  {
    hide AgentSpan, LeftTrimmed, IsSpace, AgentName;
    var tail := s[|MENTION|..];
    PrefixIsName(tail);
    name, rest := tail[..AgentSpan(tail)], tail[AgentSpan(tail)..];
    assert s == MENTION + name + rest;
  }

  lemma {:induction false} NamesAreSolid(s: string)
    requires AgentName(s)
    ensures Solid(s)
  {
    var n := KebabSpan(s);
    NameSpanChars(s);
    if n < |s| {
      NameSpanChars(s[n + 1..]);
      assert forall i :: n < i < |s| ==> s[i] == s[n + 1..][i - n - 1];
    }
  }

  // ---- Round trips ----

  /** The first word of a target, and what is left of it in front of a prompt body. */
  function FirstToken(target: string): string { target[..TokenSpan(target)] }

  function Leftover(target: string, body: string): string {
    Spaced(LeftTrimmed(target[TokenSpan(target)..]), body)
  }

  function Spaced(head: string, tail: string): string {
    if head == "" then tail else if tail == "" then head else head + " " + tail
  }

  /**
   * What the prompt of an agent schedule runs: the agent named by the target's first word,
   * told the rest of the target too; the general-purpose agent if that word is no agent name.
   */
  predicate AgentFires(prompt: string, target: string, body: string) {
    && Resolve(prompt) == (if AgentName(FirstToken(target)) then ToAgent(FirstToken(target), Leftover(target, body))
                           else Generic(prompt))
    && (Resolve(prompt) == ToAgent(target, body) <==> AgentName(target))
  }

  /** The same of a skill schedule; its first word is always taken for a skill's name. */
  predicate SkillFires(prompt: string, target: string, args: string) {
    && Resolve(prompt) == ToSkill(FirstToken(target), Leftover(target, args))
    && (Resolve(prompt) == ToSkill(target, args) <==> Solid(target))
  }

  /** And of a freeform one: the general-purpose agent unless it reads as a command or mention. */
  ghost predicate FreeformFires(prompt: string) {
    Resolve(prompt) == Generic(prompt)
    <==> !("/" <= prompt) && forall name, rest :: !Mentions(prompt, name, rest)
  }

  lemma JoinedIsTrim(head: string, body: string)
    requires head != "" && !IsSpace(head[0]) && body != "" && Trim(body)
    ensures Trim(head + " " + body) && Stripped(head + " " + body) == head + " " + body
  {
    var s := head + " " + body;
    assert s[0] == head[0] && s[|s| - 1] == body[|body| - 1];
    TrimIsStripped(s);
  }

  lemma TokenSplits(s: string)
    ensures FirstToken(s) + s[TokenSpan(s)..] == s
    ensures forall i :: 0 <= i < TokenSpan(s) ==> !IsSpace(s[i])
    ensures TokenSpan(s) < |s| ==> IsSpace(s[TokenSpan(s)])
  {
    TokenSpanChars(s);
    SplitAt(s, TokenSpan(s));
    hide TokenSpan, IsSpace;
  }

  lemma SplitAt(s: string, n: nat)
    requires n <= |s|
    ensures s[..n] + s[n..] == s
  {
  }

  lemma {:induction false} TrimmedTail(s: string, more: string)
    requires s != "" && !IsSpace(s[|s| - 1])
    ensures LeftTrimmed(s) != "" && LeftTrimmed(s)[|LeftTrimmed(s)| - 1] == s[|s| - 1]
    ensures LeftTrimmed(s + more) == LeftTrimmed(s) + more
    decreases |s|
  {
    assert (s + more)[0] == s[0] && (s + more)[1..] == s[1..] + more;
    if IsSpace(s[0]) {
      TrimmedTail(s[1..], more);
    }
  }

  /** What follows the first word of `target` in a prompt, trimmed. */
  lemma LeftoverIsRest(target: string, body: string)
    requires target == "" || !IsSpace(target[|target| - 1])
    requires Trim(body) && body != ""
    ensures
      var rest := target[TokenSpan(target)..] + (" " + body);
      LeftTrimmed(rest) == Leftover(target, body) && Trim(Leftover(target, body))
  {
    hide TokenSpan, LeftTrimmed, Trim, Spaced, IsSpace;
    RestIsSpaced(target[TokenSpan(target)..], body);
  }

  lemma RestIsSpaced(tail: string, body: string)
    requires tail == "" || !IsSpace(tail[|tail| - 1])
    requires Trim(body) && body != ""
    ensures LeftTrimmed(tail + (" " + body)) == Spaced(LeftTrimmed(tail), body)
    ensures Trim(Spaced(LeftTrimmed(tail), body))
  {
    hide Trim, IsSpace;
    TrimmedHead(body);
    if tail == "" {
      assert tail + (" " + body) == " " + body;
    } else {
      var head := LeftTrimmed(tail);
      TrimmedTail(tail, " " + body);
      assert head + (" " + body) == head + " " + body;
      JoinedIsTrim(head, body);
    }
  }

  lemma TrimmedHead(body: string)
    requires Trim(body) && body != ""
    ensures LeftTrimmed(" " + body) == body
  {
    assert (" " + body)[1..] == body;
  }

  /** A prompt "@agent-<target> <body>" fires as described, for every target and body. */
  lemma AgentRoundTrip(target: string, body: string)
    requires body != "" && Trim(body) && (target == "" || !IsSpace(target[|target| - 1]))
    ensures AgentFires(MENTION + target + " " + body, target, body)
  {
    hide Mention, AgentName, LeftTrimmed, Trim, Stripped, IsSpace, Leftover;
    var p := MENTION + target + " " + body;
    var token := FirstToken(target);
    MentionIsTrim(target, body);
    TokenSplits(target);
    LeftoverIsRest(target, body);
    if AgentName(token) {
      FirstWordIsReached(target, body);
      TrimIsStripped(Leftover(target, body));
    } else {
      OnlyFirstWordIsReached(target, body);
      assert p[0] == '@';
    }
    WholeTargetIff(target, body);
  }

  lemma MentionIsTrim(target: string, body: string)
    requires body != "" && Trim(body)
    ensures Stripped(MENTION + target + " " + body) == MENTION + target + " " + body
  {
    JoinedIsTrim(MENTION + target, body);
  }

  lemma FirstWordIsReached(target: string, body: string)
    requires AgentName(FirstToken(target)) && (target == "" || !IsSpace(target[|target| - 1]))
    requires Trim(body) && body != ""
    ensures Mention(MENTION + target + " " + body) == Some((FirstToken(target), Leftover(target, body)))
  {
    hide Mention, AgentName, LeftTrimmed, Trim, Leftover, TokenSpan, FirstToken;
    var tail := target[TokenSpan(target)..];
    FirstWordAndRest(target);
    LeftoverIsRest(target, body);
    Regrouped(MENTION, FirstToken(target), tail, " ", body);
    StartsWithSpace(tail, body);
    MentionIff(MENTION + target + " " + body, FirstToken(target), tail + (" " + body));
  }

  lemma FirstWordAndRest(target: string)
    ensures target == FirstToken(target) + target[TokenSpan(target)..]
    ensures var tail := target[TokenSpan(target)..]; tail == "" || IsSpace(tail[0])
  {
    TokenSplits(target);
  }

  lemma Regrouped(a: string, b: string, c: string, d: string, e: string)
    ensures a + (b + c) + d + e == a + b + (c + (d + e))
  {
  }

  lemma StartsWithSpace(tail: string, body: string)
    requires tail == "" || IsSpace(tail[0])
    ensures IsSpace((tail + (" " + body))[0])
  {
  }

  lemma OnlyFirstWordIsReached(target: string, body: string)
    requires !AgentName(FirstToken(target))
    ensures Mention(MENTION + target + " " + body) == None
  {
    hide Mention, AgentName;
    var p := MENTION + target + " " + body;
    if Mention(p).Some? {
      MentionIff(p, "", "");
      var name, rest :| Mentions(p, name, rest);
      NamesAreSolid(name);
      assert p == MENTION + (target + (" " + body)) && p == MENTION + (name + rest);
      SameTail(MENTION, target + (" " + body), name + rest);
      SameToken(target, " " + body, name, rest);
    }
  }

  lemma SameTail(head: string, a: string, b: string)
    requires head + a == head + b
    ensures a == b
  {
    assert (head + a)[|head|..] == a && (head + b)[|head|..] == b;
  }

  /** The first word of a text is determined by the text. */
  lemma SameToken(target: string, more: string, name: string, rest: string)
    requires target + more == name + rest && Solid(name)
    requires more != "" && IsSpace(more[0]) && (rest == "" || IsSpace(rest[0]))
    ensures name == FirstToken(target)
  {
    var n, k := |name|, TokenSpan(target);
    var s := target + more;
    TokenSplits(target);
    assert s[k] == (if k < |target| then target[k] else more[0]);
    assert forall i :: 0 <= i < n ==> s[i] == name[i];
    assert forall i :: 0 <= i < k ==> s[i] == target[i];
    assert rest != "" ==> s[n] == rest[0];
    assert n == k;
    assert s[..n] == name && s[..k] == target[..k];
  }

  lemma WholeTargetIff(target: string, body: string)
    ensures AgentName(target) <==> AgentName(FirstToken(target)) && FirstToken(target) == target
    ensures Solid(target) ==> FirstToken(target) == target
    ensures FirstToken(target) == target ==> Leftover(target, body) == body
  {
    hide AgentName;
    if AgentName(target) {
      NamesAreSolid(target);
    }
    if Solid(target) {
      TokenSpanOf(target, "");
      assert target + "" == target;
    }
  }

  /** The prompt of a slash command. */
  function SlashPrompt(target: string, args: string): string {
    "/" + target + (if args == "" then "" else " " + args)
  }

  /** A prompt "/<target> <args>", or "/<target>" alone, fires as described. */
  lemma SkillRoundTrip(target: string, args: string)
    requires target != "" && !IsSpace(target[|target| - 1]) && Trim(args)
    ensures SkillFires(SlashPrompt(target, args), target, args)
  {
    hide Resolve, Solid, Leftover, LeftTrimmed, TokenSpan;
    SlashIsResolved(target, args);
    SlashToken(target, args);
    SlashRest(target, args);
    WholeTargetIff(target, args);
    if FirstToken(target) == target {
      TokenIsSolid(target);
    }
  }

  lemma SlashIsResolved(target: string, args: string)
    requires target != "" && !IsSpace(target[|target| - 1]) && Trim(args)
    ensures
      var p := SlashPrompt(target, args);
      && p != "" && Resolve(p) == ToSkill(p[1..TokenSpan(p)], LeftTrimmed(p[TokenSpan(p)..]))
  {
    var p := SlashPrompt(target, args);
    assert p[0] == '/' && !IsSpace(p[|p| - 1]);
    TrimIsStripped(p);
    assert Mention(p) == None;
  }

  lemma SlashToken(target: string, args: string)
    ensures
      var p, k := SlashPrompt(target, args), TokenSpan(target);
      TokenSpan(p) == 1 + k && p[1..1 + k] == FirstToken(target)
      && p[1 + k..] == target[k..] + (if args == "" then "" else " " + args)
  {
    var p, k := SlashPrompt(target, args), TokenSpan(target);
    var tail := target[k..] + (if args == "" then "" else " " + args);
    TokenSplits(target);
    assert p == "/" + FirstToken(target) + tail;
    TokenSpanOf("/" + FirstToken(target), tail);
  }

  lemma SlashRest(target: string, args: string)
    requires target != "" && !IsSpace(target[|target| - 1]) && Trim(args)
    ensures LeftTrimmed(target[TokenSpan(target)..] + (if args == "" then "" else " " + args)) == Leftover(target, args)
  {
    if args == "" {
      assert target[TokenSpan(target)..] + "" == target[TokenSpan(target)..];
    } else {
      LeftoverIsRest(target, args);
    }
  }

  lemma TokenIsSolid(target: string)
    requires target != "" && FirstToken(target) == target
    ensures Solid(target)
  {
    TokenSplits(target);
  }

  /**
   * A trimmed freeform prompt runs on the general-purpose agent if and only if it neither
   * starts with a slash nor mentions an agent; otherwise the skill or agent it names takes it.
   */
  lemma FreeformRoundTrip(prompt: string)
    requires Trim(prompt) && prompt != ""
    ensures FreeformFires(prompt)
    ensures "/" <= prompt ==> Resolve(prompt).ToSkill? && Resolve(prompt).name == FirstToken(prompt[1..])
    ensures forall name, rest :: Mentions(prompt, name, rest) ==> Resolve(prompt) == ToAgent(name, Stripped(LeftTrimmed(rest)))
  {
    hide LeftTrimmed, Stripped, AgentName, AgentSpan;
    TrimIsStripped(prompt);
    forall name, rest
      ensures Mentions(prompt, name, rest) ==> Mention(prompt) == Some((name, LeftTrimmed(rest)))
      ensures Mention(prompt).Some? ==> exists n, r :: Mentions(prompt, n, r)
    {
      MentionIff(prompt, name, rest);
    }
  }

  // ---- Where the promise of dispatch fails ----

  /** An agent whose name has two words: another agent is told the second one. */
  lemma TwoWordAgentIsAnother()
    ensures Resolve(MENTION + "foo bar" + " " + "go") == ToAgent("foo", "bar go")
  {
    assert AgentName("foo") && FirstToken("foo bar") == "foo" by { TwoWords(); }
    AgentRoundTrip("foo bar", "go");
    assert Leftover("foo bar", "go") == "bar go" by { TwoWords(); }
  }

  lemma TwoWords()
    ensures AgentName("foo") && FirstToken("foo bar") == "foo" && Leftover("foo bar", "go") == "bar go"
  {
    NameSpanOf("foo", "");
    assert "foo" + "" == "foo";
    TokenSpanOf("foo", " bar");
    assert "foo" + " bar" == "foo bar" && "foo bar"[..3] == "foo" && "foo bar"[3..] == " bar";
    assert " bar"[1..] == "bar";
    assert "bar" + " " + "go" == "bar go";
  }

  /** An agent whose name has a capital: no agent runs, the general-purpose one does. */
  lemma CapitalAgentIsNone()
    ensures Resolve(MENTION + "Foo" + " " + "go") == Generic(MENTION + "Foo" + " " + "go")
  {
    TokenSpanOf("Foo", "");
    assert "Foo" + "" == "Foo" && "Foo"[..3] == "Foo";
    AgentRoundTrip("Foo", "go");
  }

  /** A freeform prompt that starts with a slash runs a skill. */
  lemma SlashedFreeformIsSkill()
    ensures Resolve("/deploy now") == ToSkill("deploy", "now")
  {
    hide Resolve, Leftover;
    assert Solid("deploy");
    SkillRoundTrip("deploy", "now");
    SlashPrompted();
  }

  lemma SlashPrompted()
    ensures SlashPrompt("deploy", "now") == "/deploy now"
  {
  }

  // ---- What an agent name is ----

  /** Small letters, digits and hyphens, not beginning with a hyphen. */
  predicate Kebab(s: string) {
    && s != "" && s[0] != '-'
    && forall i :: 0 <= i < |s| ==> 'a' <= s[i] <= 'z' || '0' <= s[i] <= '9' || s[i] == '-'
  }

  /** An agent name is one such word, or two with a colon between them. */
  lemma AgentNameIff(s: string)
    ensures AgentName(s) ==> Kebab(s) || exists i :: 0 <= i < |s| && s[i] == ':' && Kebab(s[..i]) && Kebab(s[i + 1..])
    ensures Kebab(s) ==> AgentName(s)
    ensures forall i :: 0 <= i < |s| && s[i] == ':' && Kebab(s[..i]) && Kebab(s[i + 1..]) ==> AgentName(s)
  {
    if AgentName(s) {
      NameIsKebab(s);
    }
    if Kebab(s) {
      KebabIsSpan(s);
    }
    forall i | 0 <= i < |s| && s[i] == ':' && Kebab(s[..i]) && Kebab(s[i + 1..])
      ensures AgentName(s)
    {
      KebabIsSpan(s[..i]);
      KebabIsSpan(s[i + 1..]);
      NamespacedSpanOf(s[..i], s[i + 1..], "");
      assert s == s[..i] + ":" + s[i + 1..] + "";
    }
  }

  lemma KebabIsSpan(s: string)
    requires Kebab(s)
    ensures KebabSpan(s) == |s|
  {
    NameSpanOf(s, "");
    assert s + "" == s;
  }

  lemma NameIsKebab(s: string)
    requires AgentName(s)
    ensures Kebab(s) || exists i :: 0 <= i < |s| && s[i] == ':' && Kebab(s[..i]) && Kebab(s[i + 1..])
  {
    var n := KebabSpan(s);
    SpanIsKebab(s);
    if n < |s| {
      SpanIsKebab(s[n + 1..]);
      assert s[n + 1..][..KebabSpan(s[n + 1..])] == s[n + 1..];
    } else {
      assert s[..n] == s;
    }
  }

  lemma SpanIsKebab(s: string)
    requires KebabSpan(s) > 0
    ensures Kebab(s[..KebabSpan(s)])
  {
    NameSpanChars(s);
  }
}
