/** The exits of handlers/agent_handler.py around `agent.run`. */
module AgentHandler {
  import opened Messages
  import opened Repair
  import opened RepairProperties
  import opened Streaming
  import opened AgentLoop

  /**
   * An exception of the handler's own, beside those of the run: before `run` has repaired the
   * history, or after it has returned, as when saving the conversation fails.
   */
  datatype Fault = NoFault | BeforeRun | AfterRun

  /** What the handler stores: the run's history, or the repaired old one if the run raised. */
  function Stored(json: Json, ms: seq<Msg>, turns: seq<Turn>, fault: Fault): seq<Msg>
    requires AllValid(turns)
  {
    if fault.BeforeRun? then Repaired(ms)
    else
      match RunOutcome(json, ms, turns).final
      case Some(history) => if fault.AfterRun? then Repaired(history) else history
      case None => Repaired(ms)
  }

  /**
   * Success, cancellation and error alike. After the run has started the handler's repair
   * finds its user messages already rewritten; after it has returned, it repairs the run's list.
   */
  method HandleTurn(json: Json, messages: seq<Message>, turns: seq<Turn>, fault: Fault)
    returns (stored: seq<Message>)
    requires Distinct(messages) && AllValid(turns)
    modifies messages
    ensures Values(stored) == Stored(json, old(Values(messages)), turns, fault)
    ensures Distinct(stored) && forall m :: m in stored ==> m in messages || fresh(m)
  {
    hide Repaired, Mutated, RunOutcome, Distinct, Values;
    ghost var ms := Values(messages);
    if !fault.BeforeRun? {
      var ok, history, sent := Run(json, messages, turns);
      if ok {
        stored := history;
        assert forall i :: 0 <= i < |history| ==> history[i] in history;
        if fault.AfterRun? {
          stored := RepairToolUsePairs(history);
        }
        return;
      }
      RepairAgain(ms);
    }
    stored := RepairToolUsePairs(messages);
  }

  /** A whole exchange: the user's message goes in, the turn runs or dies, the history is stored. */
  datatype Exchange = Exchange(text: string, turns: seq<Turn>, fault: Fault) {
    predicate Valid() { AllValid(turns) }
  }

  function Conversation(json: Json, ms: seq<Msg>, es: seq<Exchange>): seq<Msg>
    requires forall i :: 0 <= i < |es| ==> es[i].Valid()
    decreases |es|
  {
    if es == [] then ms
    else
      assert es[0].Valid();
      var asked := ms + [Msg(User, Str(es[0].text))];
      Conversation(json, Stored(json, asked, es[0].turns, es[0].fault), es[1..])
  }

  lemma {:induction false} StoredIsPaired(json: Json, ms: seq<Msg>, turns: seq<Turn>, fault: Fault)
    requires NoOrphans([], ms) && AllResultsFirst(ms) && AllValid(turns)
    ensures Paired(Stored(json, ms, turns, fault)) && AllResultsFirst(Stored(json, ms, turns, fault))
  {
    RepairPairs(ms);
    RunKeepsPairing(json, ms, turns);
    LateRepairChangesNothing(json, ms, turns);
  }

  /** An exception after the run has returned leaves its history as it is. */
  lemma LateRepairChangesNothing(json: Json, ms: seq<Msg>, turns: seq<Turn>)
    requires AllValid(turns)
    ensures Stored(json, ms, turns, AfterRun) == Stored(json, ms, turns, NoFault)
  {
    RunAnswersAll(json, ms, turns);
    if RunOutcome(json, ms, turns).final.Some? {
      RepairKeepsAnswered(RunOutcome(json, ms, turns).final.value);
    }
  }

  /**
   * Every exit stores a history without an unanswered call, whatever history the handler
   * started from.
   */
  lemma StoredIsAnswered(json: Json, ms: seq<Msg>, turns: seq<Turn>, fault: Fault)
    requires AllValid(turns)
    ensures Answered(Stored(json, ms, turns, fault))
  {
    RepairAnswersAll(ms);
    RunAnswersAll(json, ms, turns);
    LateRepairChangesNothing(json, ms, turns);
  }

  /**
   * However each exchange of a conversation ends, the stored history is always paired in both
   * directions, so the next request can be sent.
   */
  lemma {:induction false} ConversationStaysPaired(json: Json, ms: seq<Msg>, es: seq<Exchange>)
    requires Paired(ms) && AllResultsFirst(ms) && forall i :: 0 <= i < |es| ==> es[i].Valid()
    ensures Paired(Conversation(json, ms, es)) && AllResultsFirst(Conversation(json, ms, es))
    decreases |es|
  {
    hide Stored, AllResultsFirst;
    if es != [] {
      assert es[0].Valid();
      var asked := ms + [Msg(User, Str(es[0].text))];
      AskedIsJustified(ms, es[0].text);
      StoredIsPaired(json, asked, es[0].turns, es[0].fault);
      ConversationStaysPaired(json, Stored(json, asked, es[0].turns, es[0].fault), es[1..]);
    }
  }

  lemma AskedIsJustified(ms: seq<Msg>, text: string)
    requires NoOrphans([], ms) && AllResultsFirst(ms)
    ensures NoOrphans([], ms + [Msg(User, Str(text))]) && AllResultsFirst(ms + [Msg(User, Str(text))])
  {
    AppendPairing([], ms, Msg(User, Str(text)));
  }
}
