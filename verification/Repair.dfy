/** `repair_tool_use_pairs` of core/agent.py, on the heap and on values. */
module Repair {
  import opened Options
  import opened Messages

  const INTERRUPTED := "{\"error\": \"Tool execution was interrupted.\"}"

  /** The calls of `m` that need a result `next` does not hold. */
  function Unanswered(ids: seq<string>, next: Option<Msg>): seq<string>
    decreases |ids|
  {
    if ids == [] then []
    else
      (if ids[0] != "" && !Covers(next, ids[0]) then [ids[0]] else []) + Unanswered(ids[1..], next)
  }

  predicate Covers(next: Option<Msg>, id: string) {
    next.Some? && next.value.role == User && id in Results(next.value)
  }

  function Missing(m: Msg, next: Option<Msg>): seq<string> {
    Unanswered(Uses(m), next)
  }

  function Synthetic(ids: seq<string>): seq<Block>
    decreases |ids|
  {
    if ids == [] then [] else [ToolResult(ids[0], INTERRUPTED, true)] + Synthetic(ids[1..])
  }

  /** The user message with error results put before what it held. */
  function Prepended(ids: seq<string>, m: Msg): Msg {
    m.(content :=
      match m.content
      case Blocks(bs) => Content.Blocks(Synthetic(ids) + bs)
      case Str(text) => Content.Blocks(Synthetic(ids) + [Text(text)])
      case Absent => Content.Blocks(Synthetic(ids)))
  }

  /** The rest of the history as the walk finds it after looking at `ms[0]`. */
  function Amended(ms: seq<Msg>): (rest: seq<Msg>)
    requires ms != []
    ensures |rest| == |ms| - 1
  {
    var missing := Missing(ms[0], Head(ms[1..]));
    if missing != [] && |ms| > 1 && ms[1].role == User
    then [Prepended(missing, ms[1])] + ms[2..]
    else ms[1..]
  }

  /** The message, if any, that has to be put between `ms[0]` and what follows. */
  function Inserted(ms: seq<Msg>): seq<Msg>
    requires ms != []
  {
    var missing := Missing(ms[0], Head(ms[1..]));
    if missing == [] || (|ms| > 1 && ms[1].role == User) then []
    else [Msg(User, Content.Blocks(Synthetic(missing)))]
  }

  /** The list the repair returns. */
  function Repaired(ms: seq<Msg>): seq<Msg>
    decreases |ms|
  {
    if ms == [] then [] else [ms[0]] + Inserted(ms) + Repaired(Amended(ms))
  }

  /** What the repair leaves in the list it was given, whose user messages it rewrites. */
  function Mutated(ms: seq<Msg>): (vs: seq<Msg>)
    ensures |vs| == |ms|
    decreases |ms|
  {
    if ms == [] then [] else [ms[0]] + Mutated(Amended(ms))
  }

  // ---- The method ----

  /** `next_msg["content"] = ...` */
  method PrependResults(m: Message, ids: seq<string>)
    modifies m
    ensures m.Value() == Prepended(ids, old(m.Value()))
  {
    match m.content {
      case Blocks(bs) => m.content := Content.Blocks(Synthetic(ids) + bs);
      case Str(text) => m.content := Content.Blocks(Synthetic(ids) + [Text(text)]);
      case Absent => m.content := Content.Blocks(Synthetic(ids));
    }
  }

  /** One round of the walk: answer the calls of `messages[i]`, here or in a new message. */
  method AnswerCalls(messages: seq<Message>, i: nat, ghost rest: seq<Msg>) returns (added: seq<Message>)
    requires Distinct(messages) && i < |messages| && HoldsFrom(messages, i, rest)
    modifies if i + 1 < |messages| then {messages[i + 1]} else {}
    ensures Holds(added, Inserted(rest)) && Distinct(added) && forall m :: m in added ==> fresh(m)
    ensures HoldsFrom(messages, i + 1, Amended(rest))
  {
    hide Missing, Unanswered, Synthetic, Prepended, Amended;
    AmendedAt(rest);
    added := [];
    var next := if i + 1 < |messages| then Some(messages[i + 1].Value()) else None;
    assert next == Head(rest[1..]);
    var missing := Missing(messages[i].Value(), next);
    if missing != [] {
      if next.Some? && next.value.role == User {
        PrependResults(messages[i + 1], missing);
      } else {
        var reply := new Message(User, Content.Blocks(Synthetic(missing)));
        added := [reply];
      }
    }
  }

  lemma AmendedAt(rest: seq<Msg>)
    requires rest != []
    ensures
      var missing := Missing(rest[0], Head(rest[1..]));
      forall j :: 0 <= j < |rest| - 1 ==>
        Amended(rest)[j] ==
        if j == 0 && missing != [] && rest[1].role == User then Prepended(missing, rest[1]) else rest[j + 1]
  {
  }

  method RepairToolUsePairs(messages: seq<Message>) returns (repaired: seq<Message>)
    requires Distinct(messages)
    modifies messages
    ensures Values(repaired) == Repaired(old(Values(messages)))
    ensures Values(messages) == Mutated(old(Values(messages)))
    ensures Distinct(repaired) && forall m :: m in repaired ==> m in messages || fresh(m)
  {
    hide Repaired, Mutated, Inserted, Amended;
    repaired := [];
    ghost var before := Values(messages);
    ghost var out, done, rest := [], [], before;
    for i := 0 to |messages|
      invariant Holds(repaired, out) && HoldsFrom(messages, i, rest)
      invariant |done| == i && forall j :: 0 <= j < i ==> messages[j].Value() == done[j]
      invariant out + Repaired(rest) == Repaired(before)
      invariant done + Mutated(rest) == Mutated(before)
      invariant Distinct(repaired) && forall m :: m in repaired ==> m in messages[..i] || fresh(m)
    {
      NotYetThere(messages, repaired, i);
      StillDistinct(repaired, [messages[i]]);
      repaired := repaired + [messages[i]];
      NotYetRepaired(messages, repaired, i);
      var added := AnswerCalls(messages, i, rest);
      StillDistinct(repaired, added);
      repaired := repaired + added;
      Advance(out, done, rest);
      out, done, rest := out + [rest[0]] + Inserted(rest), done + [rest[0]], Amended(rest);
    }
    Finish(out, done);
    assert rest == [];
  }

  lemma Finish(out: seq<Msg>, done: seq<Msg>)
    ensures out + Repaired([]) == out && done + Mutated([]) == done
  {
  }

  ghost predicate HoldsFrom(messages: seq<Message>, i: nat, rest: seq<Msg>)
    reads messages
  {
    i <= |messages| && |rest| == |messages| - i
    && forall j :: i <= j < |messages| ==> messages[j].Value() == rest[j - i]
  }

  lemma NotYetThere(messages: seq<Message>, repaired: seq<Message>, i: nat)
    requires Distinct(messages) && i < |messages|
    requires forall m :: m in repaired ==> m in messages[..i] || m !in messages
    ensures messages[i] !in repaired
  {
  }

  lemma NotYetRepaired(messages: seq<Message>, repaired: seq<Message>, i: nat)
    requires Distinct(messages) && i < |messages|
    requires forall m :: m in repaired ==> m in messages[..i + 1] || m !in messages
    ensures i + 1 < |messages| ==> messages[i + 1] !in repaired
  {
  }

  lemma Advance(out: seq<Msg>, done: seq<Msg>, rest: seq<Msg>)
    requires rest != []
    ensures out + [rest[0]] + Inserted(rest) + Repaired(Amended(rest)) == out + Repaired(rest)
    ensures done + [rest[0]] + Mutated(Amended(rest)) == done + Mutated(rest)
  {
    hide Inserted, Amended;
  }
}
