/**
 * What the loop of core/agent.py and the exits of handlers/agent_handler.py put into a history:
 * turn by turn what was streamed and what the tools returned, and nothing else.
 */
module AgentTranscripts {
  import opened Options
  import opened Messages
  import opened Repair
  import opened RepairProperties
  import opened Compression
  import opened Streaming
  import opened AgentLoop
  import opened AgentHandler

  // ---- One turn ----

  /** The content that a turn streams, if a request succeeds. */
  function Said(json: Json, turn: Turn): seq<Block>
    requires turn.Valid() && Streamed(json, turn.attempts).Some?
  {
    Streamed(json, turn.attempts).value.content
  }

  predicate Returns(tools: seq<ToolOutcome>, k: nat) {
    k < |tools| && tools[k].Returned?
  }

  /** The turn comes to an end: it streams, and nothing raises. */
  predicate Ends(json: Json, turn: Turn)
    requires turn.Valid()
  {
    !turn.cut && Streamed(json, turn.attempts).Some? && !turn.flushFails
    && forall k :: 0 <= k < |CallsIn(Said(json, turn))| ==> Returns(turn.tools, k)
  }

  /** It calls no tool, so it is the last one. */
  predicate Replies(json: Json, turn: Turn)
    requires turn.Valid()
  {
    Ends(json, turn) && CallsIn(Said(json, turn)) == []
  }

  /** It calls tools, and all of them return. */
  predicate Works(json: Json, turn: Turn)
    requires turn.Valid()
  {
    Ends(json, turn) && CallsIn(Said(json, turn)) != []
  }

  /** The k-th result answers the k-th call with what the k-th tool returned. */
  predicate ResultsFor(calls: seq<Call>, tools: seq<ToolOutcome>, results: seq<Block>) {
    && |results| == |calls|
    && forall k :: 0 <= k < |calls| ==>
         Returns(tools, k) && results[k] == ToolResult(calls[k].id, tools[k].body, tools[k].isError)
  }

  /** What a turn adds: what it said, and if it called tools their results. */
  ghost predicate Adds(json: Json, turn: Turn, added: seq<Msg>)
    requires turn.Valid()
  {
    && Ends(json, turn) && added != []
    && added[0] == Msg(Assistant, Content.Blocks(Said(json, turn)))
    && if Replies(json, turn) then |added| == 1
       else
         && |added| == 2 && added[1].role == User && added[1].content.Blocks?
         && ResultsFor(CallsIn(Said(json, turn)), turn.tools, added[1].content.blocks)
  }

  lemma {:induction false} ToolResultAt(calls: seq<Call>, turn: Turn, i: nat, k: nat)
    requires i <= k < |calls| && AllReturn(calls, turn)
    ensures |ToolResults(calls, turn, i)| == |calls| - i
    ensures Returns(turn.tools, k)
    ensures ToolResults(calls, turn, i)[k - i] == ToolResult(calls[k].id, turn.tools[k].body, turn.tools[k].isError)
    decreases |calls| - i
  {
    assert turn.Tool(i).Returned? && turn.Tool(k).Returned?;
    if i + 1 < |calls| {
      ToolResultAt(calls, turn, i + 1, if i < k then k else k + 1);
    }
  }

  lemma ToolResultsAre(calls: seq<Call>, turn: Turn)
    requires AllReturn(calls, turn)
    ensures ResultsFor(calls, turn.tools, ToolResults(calls, turn, 0))
  {
    hide ToolResults;
    forall k | 0 <= k < |calls|
      ensures Returns(turn.tools, k) && |ToolResults(calls, turn, 0)| == |calls|
      ensures ToolResults(calls, turn, 0)[k] == ToolResult(calls[k].id, turn.tools[k].body, turn.tools[k].isError)
    {
      ToolResultAt(calls, turn, 0, k);
    }
    if calls == [] {
      NoToolResults(turn);
    } else {
      ToolResultAt(calls, turn, 0, 0);
    }
  }

  lemma NoToolResults(turn: Turn)
    ensures ToolResults([], turn, 0) == []
  {
  }

  /** The calls to run are those in the content. */
  lemma SaidCalls(json: Json, turn: Turn)
    requires turn.Valid() && Streamed(json, turn.attempts).Some?
    ensures Streamed(json, turn.attempts).value.calls == CallsIn(Said(json, turn))
  {
    SaidHoldsNoResults(json, turn.attempts);
  }

  /**
   * A turn that ends adds to the history exactly what it streamed and what its tools returned;
   * a turn that does not end fails.
   */
  lemma TurnAdds(json: Json, ms: seq<Msg>, turn: Turn) returns (added: seq<Msg>)
    requires turn.Valid() && !turn.cut
    ensures
      var end := TurnResult(json, ms, turn);
      && (end.Failed? <==> !Ends(json, turn))
      && (end.Replied? <==> Replies(json, turn))
      && (end.Called? <==> Works(json, turn))
      && (!end.Failed? ==> Adds(json, turn, added) && end.history == ms + added)
  {
    hide Streamed, ToolResults, CallsIn;
    added := [];
    if Streamed(json, turn.attempts).Some? {
      SaidCalls(json, turn);
      var calls := CallsIn(Said(json, turn));
      if AllReturn(calls, turn) {
        ToolResultsAre(calls, turn);
      }
      AllReturnMeans(calls, turn);
      var said := Msg(Assistant, Content.Blocks(Said(json, turn)));
      added := if calls == [] then [said] else [said, Msg(User, Content.Blocks(ToolResults(calls, turn, 0)))];
    }
  }

  lemma AllReturnMeans(calls: seq<Call>, turn: Turn)
    ensures AllReturn(calls, turn) <==> forall k :: 0 <= k < |calls| ==> Returns(turn.tools, k)
  {
    forall k: nat
      ensures turn.Tool(k).Returned? <==> Returns(turn.tools, k)
    {
    }
  }

  // ---- A run ----

  /** What the turns add, one after another. */
  ghost predicate AddsAll(json: Json, turns: seq<Turn>, added: seq<Msg>)
    requires AllValid(turns)
    decreases |turns|
  {
    if turns == [] then added == []
    else
      exists n :: 0 <= n <= |added| && Adds(json, turns[0], added[..n]) && AddsAll(json, turns[1..], added[n..])
  }

  /** All turns but the last call tools; the last may reply. */
  predicate Plays(json: Json, turns: seq<Turn>)
    requires AllValid(turns)
  {
    && (forall i :: 0 <= i < |turns| - 1 ==> Works(json, turns[i]))
    && (turns != [] ==> Ends(json, turns[|turns| - 1]))
  }

  /** The run goes through `played` and stops: with a reply, or because no turn is left. */
  predicate Completes(json: Json, played: seq<Turn>, left: seq<Turn>)
    requires AllValid(played)
  {
    Plays(json, played) && (left == [] || (played != [] && Replies(json, played[|played| - 1])))
  }

  predicate Uncompressed(turns: seq<Turn>) {
    forall i :: 0 <= i < |turns| ==> !turns[i].over
  }

  /** Each request holds what the one before held, and perhaps more. */
  predicate Growing(sent: seq<seq<Msg>>) {
    forall k :: 0 <= k < |sent| - 1 ==> sent[k] <= sent[k + 1]
  }

  lemma SplitTurns(played: seq<Turn>, left: seq<Turn>)
    requires AllValid(played) && AllValid(left) && played != []
    ensures AllValid(played + left) && AllValid(played[1..]) && played[0].Valid()
    ensures (played + left)[0] == played[0] && (played + left)[1..] == played[1..] + left
  {
  }

  lemma TailPlays(json: Json, played: seq<Turn>, left: seq<Turn>)
    requires AllValid(played) && |played| > 1 && Completes(json, played, left)
    ensures AllValid(played[1..]) && Completes(json, played[1..], left) && Works(json, played[0])
  {
    var rest := played[1..];
    assert rest[|rest| - 1] == played[|played| - 1];
    assert forall i :: 0 <= i < |rest| - 1 ==> rest[i] == played[i + 1];
  }

  /**
   * A run that completes without a compression returns the history it was given and then what
   * its turns added; its requests grow from that history, and each request of the last turn
   * holds all that came before the turn's reply.
   */
  lemma {:induction false} LoopAdds(json: Json, ms: seq<Msg>, played: seq<Turn>, left: seq<Turn>) returns (added: seq<Msg>)
    requires AllValid(played) && AllValid(left) && Completes(json, played, left) && Uncompressed(played)
    ensures AllValid(played + left) && AddsAll(json, played, added)
    ensures Looped(json, ms, played + left).final == Some(ms + added)
    ensures
      var sent := Looped(json, ms, played + left).sent;
      && (played == [] ==> sent == []) && Growing(sent)
      && (sent != [] ==> sent[0] == ms && sent[|sent| - 1] < ms + added)
    decreases |played|
  {
    hide TurnResult, Adds, Ends, Streamed, LastTry, AddsAll, Growing, Looped, Completes, Plays;
    if played == [] {
      added := NothingPlayed(json, ms, left);
    } else {
      SplitTurns(played, left);
      var turn := played[0];
      CompletingPlays(json, played, left);
      EndsUncut(json, played);
      var first := TurnAdds(json, ms, turn);
      FirstAdds(json, turn, first);
      if Replies(json, turn) || |played| == 1 {
        added := first;
        LastTurnAdds(json, ms, played, left, first);
      } else {
        TailPlays(json, played, left);
        var rest := LoopAdds(json, ms + first, played[1..], left);
        added := first + rest;
        AddsMore(json, played, first, rest);
        MoreTurnsAdd(json, ms, played, left, first, rest);
      }
    }
  }

  lemma CompletingPlays(json: Json, played: seq<Turn>, left: seq<Turn>)
    requires AllValid(played) && Completes(json, played, left)
    ensures Plays(json, played)
  {
  }

  lemma NothingPlayed(json: Json, ms: seq<Msg>, left: seq<Turn>) returns (added: seq<Msg>)
    requires AllValid(left) && Completes(json, [], left)
    ensures added == [] && AddsAll(json, [], added) && AllValid([] + left)
    ensures Looped(json, ms, [] + left) == Outcome([], Some(ms + added)) && Growing(Looped(json, ms, [] + left).sent)
  {
    added := [];
    assert ms + [] == ms && [] + left == left;
  }

  /** The run ends with its first turn. */
  lemma LastTurnAdds(json: Json, ms: seq<Msg>, played: seq<Turn>, left: seq<Turn>, added: seq<Msg>)
    requires AllValid(played) && AllValid(left) && played != [] && AllValid(played + left)
    requires Completes(json, played, left) && Uncompressed(played)
    requires Replies(json, played[0]) || |played| == 1
    requires Adds(json, played[0], added) && added != [] && !played[0].cut
    requires
      var end := TurnResult(json, ms, played[0]);
      && (end.Replied? <==> Replies(json, played[0])) && !end.Failed? && end.history == ms + added
    ensures AddsAll(json, played, added)
    ensures Looped(json, ms, played + left).final == Some(ms + added)
    ensures
      var sent := Looped(json, ms, played + left).sent;
      Growing(sent) && sent != [] && sent[0] == ms && sent[|sent| - 1] < ms + added
  {
    hide TurnResult, Adds, Ends, Streamed, LastTry, AddsAll;
    SplitTurns(played, left);
    if Replies(json, played[0]) {
      OnlyLastReplies(json, played);
    }
    AddsOne(json, played, added);
    var turns := played + left;
    assert turns[1..] == left;
    assert Looped(json, ms + added, []) == Outcome([], Some(ms + added));
    assert ms < ms + added;
  }

  /** The run goes on after its first turn. */
  lemma MoreTurnsAdd(json: Json, ms: seq<Msg>, played: seq<Turn>, left: seq<Turn>, first: seq<Msg>, rest: seq<Msg>)
    requires AllValid(played) && AllValid(left) && |played| > 1 && AllValid(played + left)
    requires Uncompressed(played) && !played[0].cut && AllValid(played[1..]) && Plays(json, played[1..])
    requires TurnResult(json, ms, played[0]) == Called(ms + first)
    requires AllValid(played[1..] + left) && Looped(json, ms + first, played[1..] + left).final == Some(ms + first + rest)
    requires
      var later := Looped(json, ms + first, played[1..] + left).sent;
      Growing(later) && (later != [] ==> later[0] == ms + first && later[|later| - 1] < ms + first + rest)
    ensures Looped(json, ms, played + left).final == Some(ms + (first + rest))
    ensures
      var sent := Looped(json, ms, played + left).sent;
      Growing(sent) && sent != [] && sent[0] == ms && sent[|sent| - 1] < ms + (first + rest)
  {
    hide TurnResult, Ends, Streamed, LastTry, Growing, Plays;
    SplitTurns(played, left);
    var now, later := Repeat(LastTry(played[0].attempts, 0) + 1, ms), Looped(json, ms + first, played[1..] + left).sent;
    assert ms + first + rest == ms + (first + rest);
    SentRest(json, ms + first, played[1..], left);
    SentGrow(now, later, ms, ms + first);
    assert (now + later)[|now + later| - 1] == later[|later| - 1];
  }

  lemma EndsUncut(json: Json, played: seq<Turn>)
    requires AllValid(played) && played != [] && Plays(json, played)
    ensures !played[0].cut && Ends(json, played[0])
  {
  }

  lemma FirstAdds(json: Json, turn: Turn, added: seq<Msg>)
    requires turn.Valid() && Adds(json, turn, added)
    ensures added != []
  {
  }

  lemma OnlyLastReplies(json: Json, played: seq<Turn>)
    requires AllValid(played) && played != [] && Plays(json, played) && Replies(json, played[0])
    ensures |played| == 1
  {
  }

  lemma AddsOne(json: Json, played: seq<Turn>, added: seq<Msg>)
    requires AllValid(played) && |played| == 1 && Adds(json, played[0], added)
    ensures AddsAll(json, played, added)
  {
    hide Adds;
    assert added[..|added|] == added && added[|added|..] == [];
    assert AddsAll(json, played[1..], added[|added|..]);
  }

  lemma AddsMore(json: Json, played: seq<Turn>, first: seq<Msg>, rest: seq<Msg>)
    requires AllValid(played) && played != [] && Adds(json, played[0], first)
    requires AllValid(played[1..]) && AddsAll(json, played[1..], rest)
    ensures AddsAll(json, played, first + rest)
  {
    hide Adds;
    var n := |first|;
    assert (first + rest)[..n] == first && (first + rest)[n..] == rest;
  }

  lemma SentGrow(now: seq<seq<Msg>>, later: seq<seq<Msg>>, ms: seq<Msg>, next: seq<Msg>)
    requires now != [] && ms <= next && (forall k :: 0 <= k < |now| ==> now[k] == ms)
    requires Growing(later) && (later != [] ==> later[0] == next)
    ensures Growing(now + later) && (now + later)[0] == ms
  {
  }

  /** At least one request is sent by every turn that is played. */
  lemma SentRest(json: Json, ms: seq<Msg>, played: seq<Turn>, left: seq<Turn>)
    requires AllValid(played) && AllValid(left) && played != [] && Plays(json, played)
    ensures AllValid(played + left) && Looped(json, ms, played + left).sent != []
  {
    hide Compressed, TurnResult, Ends, LastTry;
    SplitTurns(played, left);
    EndsUncut(json, played);
  }

  /** Compressions or not, a run that ends with a reply returns a history that ends with it. */
  lemma {:induction false} LoopEndsWithReply(json: Json, ms: seq<Msg>, played: seq<Turn>, left: seq<Turn>)
    requires AllValid(played) && AllValid(left) && played != [] && Plays(json, played)
    requires Replies(json, played[|played| - 1])
    ensures AllValid(played + left)
    ensures
      var final := Looped(json, ms, played + left).final;
      && final.Some? && final.value != []
      && final.value[|final.value| - 1] == Msg(Assistant, Content.Blocks(Said(json, played[|played| - 1])))
    decreases |played|
  {
    hide TurnResult, Compressed, Streamed, LastTry;
    SplitTurns(played, left);
    var turn := played[0];
    EndsUncut(json, played);
    var cs := Compressed(ms, KEEP_RECENT, turn.over, turn.summary);
    var added := TurnAdds(json, cs, turn);
    if Works(json, turn) {
      TailPlays(json, played, []);
      LoopEndsWithReply(json, cs + added, played[1..], left);
    } else {
      OnlyLastReplies(json, played);
    }
  }

  /**
   * Each turn sends the history compressed to its last four exchanges, as often as it tries;
   * what comes after it starts from what it added to that.
   */
  lemma TurnSendsCompressed(json: Json, ms: seq<Msg>, turn: Turn, left: seq<Turn>)
    requires turn.Valid() && AllValid(left) && !turn.cut
    ensures AllValid([turn] + left)
    ensures
      var sent, tries := Looped(json, ms, [turn] + left).sent, LastTry(turn.attempts, 0) + 1;
      && |sent| >= tries
      && forall k :: 0 <= k < tries ==> sent[k] == Compressed(ms, 4, turn.over, turn.summary)
  {
    hide Compressed, TurnResult, LastTry;
    var turns := [turn] + left;
    assert turns[0] == turn && turns[1..] == left;
  }

  /** A run fails when a turn that is reached does not come to an end. */
  lemma {:induction false} LoopFails(json: Json, ms: seq<Msg>, played: seq<Turn>, bad: Turn, left: seq<Turn>)
    requires AllValid(played) && bad.Valid() && AllValid(left) && !Ends(json, bad)
    requires forall i :: 0 <= i < |played| ==> Works(json, played[i])
    ensures AllValid(played + [bad] + left) && Looped(json, ms, played + [bad] + left).final == None
    decreases |played|
  {
    hide TurnResult, Compressed, Streamed, LastTry, Ends, Adds;
    var turns := played + [bad] + left;
    assert turns[0] == if played == [] then bad else played[0];
    var turn := turns[0];
    if !turn.cut {
      var added := TurnAdds(json, Compressed(ms, KEEP_RECENT, turn.over, turn.summary), turn);
      if played != [] {
        assert turns[1..] == played[1..] + [bad] + left;
        LoopFails(json, Compressed(ms, KEEP_RECENT, turn.over, turn.summary) + added, played[1..], bad, left);
      }
    } else if played != [] {
      WorksUncut(json, turn);
    }
  }

  lemma WorksUncut(json: Json, turn: Turn)
    requires turn.Valid() && Works(json, turn)
    ensures !turn.cut
  {
  }

  // ---- What the handler stores ----

  /** The history of a conversation after one more message of the user. */
  function Asked(ms: seq<Msg>, text: string): seq<Msg> { ms + [Msg(User, Str(text))] }

  lemma AskedIsAnswered(ms: seq<Msg>, text: string)
    requires Answered(ms)
    ensures Repaired(Asked(ms, text)) == Asked(ms, text)
  {
    AppendPairing([], ms, Msg(User, Str(text)));
    RepairKeepsAnswered(Asked(ms, text));
  }

  /**
   * An exchange whose run completes without a compression stores the old history, the user's
   * message, and what the turns added - also if saving it raises afterwards.
   */
  lemma ExchangeIsStored(
    json: Json, ms: seq<Msg>, text: string, played: seq<Turn>, left: seq<Turn>, fault: Fault)
    returns (added: seq<Msg>)
    requires AllValid(played) && AllValid(left) && Completes(json, played, left) && Uncompressed(played)
    requires Answered(ms) && !fault.BeforeRun?
    ensures AllValid(played + left) && AddsAll(json, played, added)
    ensures Conversation(json, ms, [Exchange(text, played + left, fault)])
         == ms + [Msg(User, Str(text))] + added
  {
    hide Looped, Completes, AddsAll, Repaired;
    var asked := Asked(ms, text);
    AskedIsAnswered(ms, text);
    added := LoopAdds(json, asked, played, left);
    LateIsSame(json, asked, played + left);
    OneExchange(json, ms, text, played + left, fault);
  }

  lemma LateIsSame(json: Json, ms: seq<Msg>, turns: seq<Turn>)
    requires AllValid(turns)
    ensures Stored(json, ms, turns, AfterRun) == Stored(json, ms, turns, NoFault)
  {
    LateRepairChangesNothing(json, ms, turns);
  }

  lemma OneExchange(json: Json, ms: seq<Msg>, text: string, turns: seq<Turn>, fault: Fault)
    requires AllValid(turns)
    ensures Conversation(json, ms, [Exchange(text, turns, fault)]) == Stored(json, Asked(ms, text), turns, fault)
  {
    var es := [Exchange(text, turns, fault)];
    assert es[0].Valid() && es[1..] == [];
  }

  /** Compressions or not, an exchange that ends with a reply stores a history that ends with it. */
  lemma ReplyIsStored(
    json: Json, ms: seq<Msg>, text: string, played: seq<Turn>, left: seq<Turn>, fault: Fault)
    requires AllValid(played) && AllValid(left) && played != [] && Plays(json, played)
    requires Replies(json, played[|played| - 1]) && !fault.BeforeRun?
    ensures AllValid(played + left)
    ensures
      var stored := Conversation(json, ms, [Exchange(text, played + left, fault)]);
      && stored != []
      && stored[|stored| - 1] == Msg(Assistant, Content.Blocks(Said(json, played[|played| - 1])))
  {
    hide Looped, Plays, Repaired, Replies, Streamed;
    LoopEndsWithReply(json, Repaired(Asked(ms, text)), played, left);
    LateIsSame(json, Asked(ms, text), played + left);
    OneExchange(json, ms, text, played + left, fault);
  }

  /**
   * An exchange that fails - before the run, or in a turn that does not come to an end - stores
   * the old history and the user's message: nothing of the run, and nothing lost.
   */
  lemma FailureKeepsHistory(
    json: Json, ms: seq<Msg>, text: string, played: seq<Turn>, bad: Turn, left: seq<Turn>, fault: Fault)
    requires AllValid(played) && bad.Valid() && AllValid(left) && Answered(ms)
    requires fault.BeforeRun? || (!Ends(json, bad) && forall i :: 0 <= i < |played| ==> Works(json, played[i]))
    ensures AllValid(played + [bad] + left)
    ensures Conversation(json, ms, [Exchange(text, played + [bad] + left, fault)]) == ms + [Msg(User, Str(text))]
  {
    hide Looped, Works, Repaired, Ends;
    var asked := Asked(ms, text);
    AskedIsAnswered(ms, text);
    if !fault.BeforeRun? {
      LoopFails(json, asked, played, bad, left);
    }
    OneExchange(json, ms, text, played + [bad] + left, fault);
  }
}
