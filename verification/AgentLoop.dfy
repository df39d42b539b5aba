/** The tool-use loop `run` of core/agent.py. */
module AgentLoop {
  import opened Options
  import opened Messages
  import opened Repair
  import opened RepairProperties
  import opened Compression
  import opened Streaming

  /** How one tool call ends: with a result, an error result included, or with an exception. */
  datatype ToolOutcome = Returned(body: string, isError: bool) | Raised

  /** All that one turn gets from outside. */
  datatype Turn = Turn(
    cut: bool,                  // an exception or cancellation comes before the first request
    over: bool,                 // the token count has reached the compression threshold
    summary: Option<string>,    // the summary, if the summarizing call succeeds
    attempts: seq<Attempt>,     // what each permitted request brings
    tools: seq<ToolOutcome>,    // how the i-th call ends
    flushFails: bool)           // sending the buffered text raises
  {
    predicate Valid() { |attempts| >= MAX_RETRIES }

    function Tool(i: nat): ToolOutcome {
      if i < |tools| then tools[i] else Raised
    }
  }

  predicate AllValid(turns: seq<Turn>) {
    forall i :: 0 <= i < |turns| ==> turns[i].Valid()
  }

  function ToolResults(calls: seq<Call>, turn: Turn, i: nat): seq<Block>
    requires i <= |calls|
    decreases |calls| - i
  {
    if i == |calls| then []
    else
      var r := turn.Tool(i);
      (if r.Returned? then [ToolResult(calls[i].id, r.body, r.isError)] else [])
      + ToolResults(calls, turn, i + 1)
  }

  predicate AllReturn(calls: seq<Call>, turn: Turn) {
    forall i :: 0 <= i < |calls| ==> turn.Tool(i).Returned?
  }

  /** What one turn comes to. */
  datatype TurnEnd =
    | Failed                         // an exception leaves `run`
    | Replied(history: seq<Msg>)     // no calls: the loop is over
    | Called(history: seq<Msg>)      // calls and their results are in the history

  function TurnResult(json: Json, ms: seq<Msg>, turn: Turn): TurnEnd
    requires turn.Valid()
  {
    match Streamed(json, turn.attempts)
    case None => Failed
    case Some(b) =>
      var said := ms + [Msg(Assistant, Content.Blocks(b.content))];
      if b.calls == [] then (if turn.flushFails then Failed else Replied(said))
      else if !AllReturn(b.calls, turn) || turn.flushFails then Failed
      else Called(said + [Msg(User, Content.Blocks(ToolResults(b.calls, turn, 0)))])
  }

  function Repeat(n: nat, ms: seq<Msg>): seq<seq<Msg>> {
    seq(n, _ => ms)
  }

  /** The requests `run` sends, and the history it returns unless it raises. */
  datatype Outcome = Outcome(sent: seq<seq<Msg>>, final: Option<seq<Msg>>)

  function Looped(json: Json, ms: seq<Msg>, turns: seq<Turn>): Outcome
    requires AllValid(turns)
    decreases |turns|
  {
    if turns == [] then Outcome([], Some(ms))
    else if turns[0].cut then Outcome([], None)
    else
      var cs := Compressed(ms, KEEP_RECENT, turns[0].over, turns[0].summary);
      var sent := Repeat(LastTry(turns[0].attempts, 0) + 1, cs);
      match TurnResult(json, cs, turns[0])
      case Failed => Outcome(sent, None)
      case Replied(history) => Outcome(sent, Some(history))
      case Called(history) =>
        var rest := Looped(json, history, turns[1..]);
        Outcome(sent + rest.sent, rest.final)
  }

  /** `run` on a history, with `turns` as long as the permitted number of turns. */
  function RunOutcome(json: Json, ms: seq<Msg>, turns: seq<Turn>): Outcome
    requires AllValid(turns)
  {
    Looped(json, Repaired(ms), turns)
  }

  // ---- The methods ----

  /** `asyncio.gather` over the calls: the results in the order of the calls, or an exception. */
  method RunTools(calls: seq<Call>, turn: Turn) returns (ok: bool, results: seq<Block>)
    ensures ok == AllReturn(calls, turn)
    ensures ok ==> results == ToolResults(calls, turn, 0)
  {
    results := [];
    for i := 0 to |calls|
      invariant forall k :: 0 <= k < i ==> turn.Tool(k).Returned?
      invariant results + ToolResults(calls, turn, i) == ToolResults(calls, turn, 0)
    {
      match turn.Tool(i) {
        case Returned(body, isError) =>
          Regroup(results, [ToolResult(calls[i].id, body, isError)], ToolResults(calls, turn, i + 1));
          results := results + [ToolResult(calls[i].id, body, isError)];
        case Raised => return false, results;
      }
    }
    return true, results;
  }

  /** One turn after compression: stream, append, run the tools, append their results. */
  method TakeTurn(json: Json, messages: seq<Message>, turn: Turn)
    returns (end: TurnEnd, history: seq<Message>, tries: nat)
    requires turn.Valid()
    ensures end == TurnResult(json, Values(messages), turn)
    ensures !end.Failed? ==> Values(history) == end.history
    ensures Distinct(messages) ==> Distinct(history)
    ensures forall m :: m in history ==> m in messages || fresh(m)
    ensures tries == LastTry(turn.attempts, 0) + 1
  {
    hide LastTry, ToolResults, Values, Distinct, FedAll, Succeeds, AllReturn;
    history := messages;
    var buffers := new Assembler();
    var ok;
    ok, tries := buffers.Stream(json, turn.attempts);
    if !ok {
      return Failed, history, tries;
    }
    var said := new Message(Assistant, Content.Blocks(buffers.content));
    history := history + [said];
    Appended(messages, said);
    if buffers.calls == [] {
      end := if turn.flushFails then Failed else Replied(Values(history));
      return end, history, tries;
    }
    var returned, results := RunTools(buffers.calls, turn);
    if !returned || turn.flushFails {
      return Failed, history, tries;
    }
    var reply := new Message(User, Content.Blocks(results));
    Appended(history, reply);
    history := history + [reply];
    end := Called(Values(history));
  }

  lemma Appended(ms: seq<Message>, m: Message)
    requires m !in ms
    ensures Values(ms + [m]) == Values(ms) + [m.Value()] && (Distinct(ms) ==> Distinct(ms + [m]))
  {
    ValuesAppend(ms, m);
    if Distinct(ms) {
      StillDistinct(ms, [m]);
    }
  }

  method Run(json: Json, caller: seq<Message>, turns: seq<Turn>)
    returns (ok: bool, messages: seq<Message>, sent: seq<seq<Msg>>)
    requires Distinct(caller) && AllValid(turns)
    modifies caller
    ensures Outcome(sent, if ok then Some(Values(messages)) else None)
         == RunOutcome(json, old(Values(caller)), turns)
    ensures Values(caller) == Mutated(old(Values(caller)))
    ensures Distinct(messages) && forall m :: m in messages ==> m in caller || fresh(m)
  {
    hide Looped, TurnResult, Compressed, Repaired, Mutated, LastTry;
    messages := RepairToolUsePairs(caller);
    ghost var all := Looped(json, Values(messages), turns);
    ghost var left := turns;
    sent := [];
    var remaining := |turns|;
    assert [] + all.sent == all.sent;
    while remaining > 0
      invariant 0 <= remaining <= |turns| && left == turns[|turns| - remaining..]
      invariant sent + Looped(json, Values(messages), left).sent == all.sent
      invariant Looped(json, Values(messages), left).final == all.final
      invariant Distinct(messages) && forall m :: m in messages ==> m in caller || fresh(m)
      modifies {}
    {
      var turn := turns[|turns| - remaining];
      assert left[0] == turn;
      if turn.cut {
        LoopCut(json, sent, Values(messages), left);
        return false, messages, sent;
      }
      LoopStep(json, sent, Values(messages), left);
      remaining := remaining - 1;
      left := left[1..];
      messages := CompressIfNeeded(messages, KEEP_RECENT, turn.over, turn.summary);
      var end, history, tries := TakeTurn(json, messages, turn);
      sent := sent + Repeat(tries, Values(messages));
      match end {
        case Failed => return false, history, sent;
        case Replied(_) => return true, history, sent;
        case Called(_) => messages := history;
      }
    }
    LoopDone(json, sent, Values(messages));
    ok := true;
  }

  lemma LoopCut(json: Json, sent: seq<seq<Msg>>, ms: seq<Msg>, turns: seq<Turn>)
    requires AllValid(turns) && turns != [] && turns[0].cut
    ensures sent + Looped(json, ms, turns).sent == sent && Looped(json, ms, turns).final == None
  {
  }

  lemma LoopStep(json: Json, sent: seq<seq<Msg>>, ms: seq<Msg>, turns: seq<Turn>)
    requires AllValid(turns) && turns != [] && !turns[0].cut
    ensures
      var cs := Compressed(ms, KEEP_RECENT, turns[0].over, turns[0].summary);
      var now := sent + Repeat(LastTry(turns[0].attempts, 0) + 1, cs);
      var all := Looped(json, ms, turns);
      match TurnResult(json, cs, turns[0])
      case Failed => sent + all.sent == now && all.final == None
      case Replied(history) => sent + all.sent == now && all.final == Some(history)
      case Called(history) =>
        && sent + all.sent == now + Looped(json, history, turns[1..]).sent
        && all.final == Looped(json, history, turns[1..]).final
  {
    hide TurnResult, Compressed, LastTry;
  }

  lemma LoopDone(json: Json, sent: seq<seq<Msg>>, ms: seq<Msg>)
    ensures sent + Looped(json, ms, []).sent == sent && Looped(json, ms, []).final == Some(ms)
  {
  }

  // ---- Pairing through the loop ----

  lemma {:induction false} ResultsMatchCalls(bs: seq<Block>, calls: seq<Call>, turn: Turn, i: nat)
    requires i <= |calls| && AllReturn(calls, turn) && calls[i..] == CallsIn(bs)
    ensures ResultsIn(ToolResults(calls, turn, i)) == UsesIn(bs)
    decreases |bs|
  {
    if bs != [] {
      if bs[0].ToolUse? {
        assert calls[i] == calls[i..][0] && calls[i + 1..] == calls[i..][1..];
        ResultsMatchCalls(bs[1..], calls, turn, i + 1);
      } else {
        ResultsMatchCalls(bs[1..], calls, turn, i);
      }
    }
  }

  lemma {:induction false} OnlyResults(calls: seq<Call>, turn: Turn, i: nat)
    requires i <= |calls|
    ensures var rs := ToolResults(calls, turn, i);
      UsesIn(rs) == [] && forall k :: 0 <= k < |rs| ==> rs[k].ToolResult?
    decreases |calls| - i
  {
    if i < |calls| {
      OnlyResults(calls, turn, i + 1);
      var rs := ToolResults(calls, turn, i);
      if turn.Tool(i).Returned? {
        assert rs[1..] == ToolResults(calls, turn, i + 1);
      } else {
        assert rs == ToolResults(calls, turn, i + 1);
      }
    }
  }

  /** Without calls to run, the assembled content holds none. */
  lemma {:induction false} NoCallsNoUses(bs: seq<Block>)
    requires CallsIn(bs) == []
    ensures UsesIn(bs) == []
    decreases |bs|
  {
    if bs != [] {
      NoCallsNoUses(bs[1..]);
    }
  }

  /** After a turn with calls, the i-th result answers the i-th call. */
  lemma TurnAnswersInOrder(json: Json, ms: seq<Msg>, turn: Turn)
    requires turn.Valid() && TurnResult(json, ms, turn).Called?
    ensures
      var history := TurnResult(json, ms, turn).history;
      && |history| == |ms| + 2 && history[..|ms|] == ms
      && history[|ms|].role == Assistant && history[|ms| + 1].role == User
      && Uses(history[|ms|]) != []
      && Results(history[|ms| + 1]) == Uses(history[|ms|])
  {
    hide Streamed, ToolResults;
    var b := Streamed(json, turn.attempts).value;
    SaidHoldsNoResults(json, turn.attempts);
    assert b.calls[0..] == b.calls;
    ResultsMatchCalls(b.content, b.calls, turn, 0);
    SomeCallsSomeUses(b.content);
  }

  lemma {:induction false} SomeCallsSomeUses(bs: seq<Block>)
    requires CallsIn(bs) != []
    ensures UsesIn(bs) != []
    decreases |bs|
  {
    if !bs[0].ToolUse? {
      SomeCallsSomeUses(bs[1..]);
    }
  }

  lemma SaidHoldsNoResults(json: Json, attempts: seq<Attempt>)
    requires |attempts| >= MAX_RETRIES && Streamed(json, attempts).Some?
    ensures InStep(Streamed(json, attempts).value)
    ensures ResultsIn(Streamed(json, attempts).value.content) == []
  {
    FeedingStaysInStep(json, EMPTY, attempts[LastTry(attempts, 0)].events);
    NoResults(Streamed(json, attempts).value.content);
  }

  /** A turn that does not fail keeps a paired history paired. */
  lemma TurnKeepsPairing(json: Json, ms: seq<Msg>, turn: Turn)
    requires turn.Valid() && Paired(ms) && AllResultsFirst(ms) && !TurnResult(json, ms, turn).Failed?
    ensures Paired(TurnResult(json, ms, turn).history)
    ensures AllResultsFirst(TurnResult(json, ms, turn).history)
  {
    SaidHoldsNoResults(json, turn.attempts);
    var b := Streamed(json, turn.attempts).value;
    if b.calls == [] {
      NoCallsNoUses(b.content);
      SayingKeepsPairing(ms, b.content);
    } else {
      assert b.calls[0..] == b.calls;
      ResultsMatchCalls(b.content, b.calls, turn, 0);
      OnlyResults(b.calls, turn, 0);
      ExchangeKeepsPairing(ms, b.content, ToolResults(b.calls, turn, 0));
    }
  }

  lemma SayingKeepsPairing(ms: seq<Msg>, content: seq<Block>)
    requires Paired(ms) && AllResultsFirst(ms) && UsesIn(content) == [] && OnlySaid(content)
    ensures Paired(ms + [Msg(Assistant, Content.Blocks(content))])
    ensures AllResultsFirst(ms + [Msg(Assistant, Content.Blocks(content))])
  {
    NoResults(content);
    AppendPairing([], ms, Msg(Assistant, Content.Blocks(content)));
  }

  /** Text and calls only, as an assistant message holds. */
  ghost predicate OnlySaid(content: seq<Block>) {
    forall i :: 0 <= i < |content| ==> content[i].Text? || content[i].ToolUse?
  }

  lemma ExchangeKeepsPairing(ms: seq<Msg>, content: seq<Block>, results: seq<Block>)
    requires Paired(ms) && AllResultsFirst(ms) && OnlySaid(content)
    requires ResultsIn(results) == UsesIn(content) && UsesIn(results) == []
    requires forall k :: 0 <= k < |results| ==> results[k].ToolResult?
    ensures
      var history := ms + [Msg(Assistant, Content.Blocks(content))] + [Msg(User, Content.Blocks(results))];
      Paired(history) && AllResultsFirst(history)
  {
    var said, reply := Msg(Assistant, Content.Blocks(content)), Msg(User, Content.Blocks(results));
    NoResults(content);
    AppendPairing([], ms, said);
    AppendPairing([], ms + [said], reply);
    AppendExchange(ms, said, reply);
    assert ResultsFirst(said) && ResultsFirst(reply);
    AppendResultsFirst(ms, said);
    AppendResultsFirst(ms + [said], reply);
  }

  lemma AppendResultsFirst(ms: seq<Msg>, m: Msg)
    requires AllResultsFirst(ms) && ResultsFirst(m)
    ensures AllResultsFirst(ms + [m])
  {
    hide ResultsFirst;
  }

  ghost predicate AllPaired(sent: seq<seq<Msg>>) {
    forall i :: 0 <= i < |sent| ==> Paired(sent[i])
  }

  /**
   * Through any number of turns, compressions and retries, every request is two-way paired,
   * and so is the history in the end.
   */
  lemma {:induction false} LoopKeepsPairing(json: Json, ms: seq<Msg>, turns: seq<Turn>)
    requires Paired(ms) && AllResultsFirst(ms) && AllValid(turns)
    ensures AllPaired(Looped(json, ms, turns).sent)
    ensures Looped(json, ms, turns).final.Some? ==>
      Paired(Looped(json, ms, turns).final.value) && AllResultsFirst(Looped(json, ms, turns).final.value)
    decreases |turns|
  {
    hide Compressed, TurnResult, AllResultsFirst, Paired;
    if turns != [] {
      var turn := turns[0];
      var cs := Compressed(ms, KEEP_RECENT, turn.over, turn.summary);
      CompressionKeepsPairing(ms, KEEP_RECENT, turn.over, turn.summary);
      var end := TurnResult(json, cs, turn);
      if !end.Failed? {
        TurnKeepsPairing(json, cs, turn);
      }
      if end.Called? {
        LoopKeepsPairing(json, end.history, turns[1..]);
      }
    }
  }

  /**
   * Given a history whose results, first in their messages, all answer calls of the message
   * before - interrupted calls may be open - every list `run` sends and the list it returns
   * is paired in both directions.
   */
  lemma RunKeepsPairing(json: Json, ms: seq<Msg>, turns: seq<Turn>)
    requires NoOrphans([], ms) && AllResultsFirst(ms) && AllValid(turns)
    ensures AllPaired(RunOutcome(json, ms, turns).sent)
    ensures
      var final := RunOutcome(json, ms, turns).final;
      final.Some? ==> Paired(final.value) && AllResultsFirst(final.value)
  {
    RepairPairs(ms);
    LoopKeepsPairing(json, Repaired(ms), turns);
  }

  // ---- Answering alone, with nothing asked of the history ----

  lemma TurnKeepsAnswered(json: Json, ms: seq<Msg>, turn: Turn)
    requires turn.Valid() && Answered(ms) && !TurnResult(json, ms, turn).Failed?
    ensures Answered(TurnResult(json, ms, turn).history)
  {
    var b := Streamed(json, turn.attempts).value;
    SaidHoldsNoResults(json, turn.attempts);
    var said := Msg(Assistant, Content.Blocks(b.content));
    if b.calls == [] {
      NoCallsNoUses(b.content);
      AppendPairing([], ms, said);
    } else {
      assert b.calls[0..] == b.calls;
      ResultsMatchCalls(b.content, b.calls, turn, 0);
      OnlyResults(b.calls, turn, 0);
      AppendExchange(ms, said, Msg(User, Content.Blocks(ToolResults(b.calls, turn, 0))));
    }
  }

  lemma CompressionKeepsAnswered(ms: seq<Msg>, keepRecent: nat, over: bool, summary: Option<string>)
    requires Answered(ms)
    ensures Answered(Compressed(ms, keepRecent, over, summary))
  {
    if over && |ms| > 2 * keepRecent && summary.Some? {
      var split := Boundary(ms, |ms| - 2 * keepRecent);
      SuffixPairing([], ms, split);
      var cs := Summarized(summary.value, ms[split..]);
      assert cs[1..] == [cs[1]] + ms[split..] && cs[1..][1..] == ms[split..];
    }
  }

  lemma {:induction false} LoopKeepsAnswered(json: Json, ms: seq<Msg>, turns: seq<Turn>)
    requires Answered(ms) && AllValid(turns)
    ensures forall i :: 0 <= i < |Looped(json, ms, turns).sent| ==> Answered(Looped(json, ms, turns).sent[i])
    ensures Looped(json, ms, turns).final.Some? ==> Answered(Looped(json, ms, turns).final.value)
    decreases |turns|
  {
    hide Compressed, TurnResult, Answered;
    if turns != [] {
      var turn := turns[0];
      var cs := Compressed(ms, KEEP_RECENT, turn.over, turn.summary);
      CompressionKeepsAnswered(ms, KEEP_RECENT, turn.over, turn.summary);
      var end := TurnResult(json, cs, turn);
      if !end.Failed? {
        TurnKeepsAnswered(json, cs, turn);
      }
      if end.Called? {
        LoopKeepsAnswered(json, end.history, turns[1..]);
      }
    }
  }

  /** Whatever history it is given, `run` never sends or returns an unanswered call. */
  lemma RunAnswersAll(json: Json, ms: seq<Msg>, turns: seq<Turn>)
    requires AllValid(turns)
    ensures
      var o := RunOutcome(json, ms, turns);
      && (forall i :: 0 <= i < |o.sent| ==> Answered(o.sent[i]))
      && (o.final.Some? ==> Answered(o.final.value))
  {
    RepairAnswersAll(ms);
    LoopKeepsAnswered(json, Repaired(ms), turns);
  }
}
