/**
 * Conversation histories as core/agent.py and core/context.py see them, and the pairing
 * of tool calls with tool results that the model API insists on.
 */
module Messages {
  import opened Options

  datatype ToolInput = EmptyInput | Parsed(raw: string)

  /** An entry of a content list; `Bare` is one that is not a dict. */
  datatype Block =
    | Text(text: string)
    | ToolUse(id: string, name: string, input: ToolInput)
    | ToolResult(useId: string, body: string, isError: bool)
    | OtherBlock(kind: string)
    | Bare(item: string)

  datatype Content = Str(text: string) | Blocks(blocks: seq<Block>) | Absent

  datatype Role = User | Assistant | OtherRole

  datatype Msg = Msg(role: Role, content: Content)

  /** A message dict: shared by every list that holds it, and overwritten in place. */
  class Message {
    const role: Role
    var content: Content

    function Value(): Msg
      reads this
    {
      Msg(role, content)
    }

    constructor (role: Role, content: Content)
      ensures Value() == Msg(role, content)
    {
      this.role := role;
      this.content := content;
    }
  }

  function Values(ms: seq<Message>): (vs: seq<Msg>)
    reads ms
    ensures |vs| == |ms| && forall i :: 0 <= i < |ms| ==> vs[i] == ms[i].Value()
  {
    seq(|ms|, i requires 0 <= i < |ms| reads ms => ms[i].Value())
  }

  /** The messages of `ms` hold the values `vs`. */
  ghost predicate Holds(ms: seq<Message>, vs: seq<Msg>)
    reads ms
  {
    |ms| == |vs| && forall i :: 0 <= i < |ms| ==> ms[i].Value() == vs[i]
  }

  ghost predicate Distinct(ms: seq<Message>) {
    forall i, j :: 0 <= i < j < |ms| ==> ms[i] != ms[j]
  }

  lemma ValuesAppend(ms: seq<Message>, m: Message)
    ensures Values(ms + [m]) == Values(ms) + [m.Value()]
  {
  }

  lemma StillDistinct(a: seq<Message>, b: seq<Message>)
    requires Distinct(a) && Distinct(b) && forall m :: m in b ==> m !in a
    ensures Distinct(a + b)
  {
    assert forall i :: 0 <= i < |b| ==> b[i] in b && b[i] !in a;
    assert forall i :: 0 <= i < |a| ==> a[i] in a;
  }

  // ---- Calls and results ----

  function BlocksOf(m: Msg): seq<Block> {
    if m.content.Blocks? then m.content.blocks else []
  }

  /** The ids of the `tool_use` blocks, in order. */
  function UsesIn(bs: seq<Block>): seq<string>
    decreases |bs|
  {
    if bs == [] then []
    else (if bs[0].ToolUse? then [bs[0].id] else []) + UsesIn(bs[1..])
  }

  /** The calls an assistant message makes; tool calls elsewhere mean nothing. */
  function Uses(m: Msg): seq<string> {
    if m.role == Assistant then UsesIn(BlocksOf(m)) else []
  }

  /** The ids of the `tool_result` blocks, in order. */
  function ResultsIn(bs: seq<Block>): seq<string>
    decreases |bs|
  {
    if bs == [] then []
    else (if bs[0].ToolResult? then [bs[0].useId] else []) + ResultsIn(bs[1..])
  }

  function Results(m: Msg): seq<string> {
    ResultsIn(BlocksOf(m))
  }

  /** `next` answers every call of `m`; a call without an id cannot be answered. */
  ghost predicate AnsweredBy(m: Msg, next: Option<Msg>) {
    forall id :: id in Uses(m) && id != "" ==>
      next.Some? && next.value.role == User && id in Results(next.value)
  }

  function Head(ms: seq<Msg>): Option<Msg> {
    if ms == [] then None else Some(ms[0])
  }

  /** Every tool call is answered in the very next message. */
  ghost predicate Answered(ms: seq<Msg>)
    decreases |ms|
  {
    ms == [] || (AnsweredBy(ms[0], Head(ms[1..])) && Answered(ms[1..]))
  }

  /** Results sit in user messages and answer calls of the message before, `calls`. */
  ghost predicate Justified(calls: seq<string>, m: Msg) {
    forall id :: id in Results(m) ==> m.role == User && id in calls
  }

  /** No result is an orphan, given the calls of the message before the first. */
  ghost predicate NoOrphans(calls: seq<string>, ms: seq<Msg>)
    decreases |ms|
  {
    ms == [] || (Justified(calls, ms[0]) && NoOrphans(Uses(ms[0]), ms[1..]))
  }

  /** The pairing the API checks, in both directions. */
  ghost predicate Paired(ms: seq<Msg>) {
    Answered(ms) && NoOrphans([], ms)
  }

  /** Within a message nothing but stray non-dict items comes before a result. */
  ghost predicate ResultsFirst(m: Msg) {
    var bs := BlocksOf(m);
    forall i, j :: 0 <= i < j < |bs| && bs[j].ToolResult? ==> bs[i].ToolResult? || bs[i].Bare?
  }

  ghost predicate AllResultsFirst(ms: seq<Msg>) {
    forall i :: 0 <= i < |ms| ==> ResultsFirst(ms[i])
  }

  // ---- Appending and cutting ----

  lemma Regroup<T>(a: seq<T>, b: seq<T>, c: seq<T>)
    ensures a + b + c == a + (b + c)
  {
  }

  lemma {:induction false} UsesConcat(a: seq<Block>, b: seq<Block>)
    ensures UsesIn(a + b) == UsesIn(a) + UsesIn(b)
    decreases |a|
  {
    if a == [] {
      assert a + b == b;
    } else {
      UsesConcat(a[1..], b);
      assert (a + b)[0] == a[0] && (a + b)[1..] == a[1..] + b;
      Regroup(if a[0].ToolUse? then [a[0].id] else [], UsesIn(a[1..]), UsesIn(b));
    }
  }

  lemma {:induction false} ResultsConcat(a: seq<Block>, b: seq<Block>)
    ensures ResultsIn(a + b) == ResultsIn(a) + ResultsIn(b)
    decreases |a|
  {
    if a == [] {
      assert a + b == b;
    } else {
      ResultsConcat(a[1..], b);
      assert (a + b)[0] == a[0] && (a + b)[1..] == a[1..] + b;
      Regroup(if a[0].ToolResult? then [a[0].useId] else [], ResultsIn(a[1..]), ResultsIn(b));
    }
  }

  lemma {:induction false} ResultsMember(bs: seq<Block>, i: nat)
    requires i < |bs| && bs[i].ToolResult?
    ensures bs[i].useId in ResultsIn(bs)
    decreases |bs|
  {
    if i > 0 {
      ResultsMember(bs[1..], i - 1);
    }
  }

  lemma {:induction false} NoResults(bs: seq<Block>)
    requires forall i :: 0 <= i < |bs| ==> !bs[i].ToolResult?
    ensures ResultsIn(bs) == []
    decreases |bs|
  {
    if bs != [] {
      NoResults(bs[1..]);
    }
  }

  function CallsBefore(calls: seq<string>, ms: seq<Msg>): seq<string> {
    if ms == [] then calls else Uses(ms[|ms| - 1])
  }

  /** A suffix keeps both properties, given the calls just before it. */
  lemma {:induction false} SuffixPairing(calls: seq<string>, ms: seq<Msg>, k: nat)
    requires k <= |ms|
    ensures Answered(ms) ==> Answered(ms[k..])
    ensures NoOrphans(calls, ms) ==> NoOrphans(CallsBefore(calls, ms[..k]), ms[k..])
    decreases |ms|
  {
    if k > 0 {
      SuffixPairing(Uses(ms[0]), ms[1..], k - 1);
      assert ms[1..][k - 1..] == ms[k..] && ms[1..][..k - 1] == ms[1..k];
    }
  }

  /** Appending one message asks only about it and the message it follows. */
  lemma {:induction false} AppendPairing(calls: seq<string>, ms: seq<Msg>, m: Msg)
    ensures NoOrphans(calls, ms + [m]) <==>
              NoOrphans(calls, ms) && Justified(CallsBefore(calls, ms), m)
    ensures Answered(ms) && AnsweredBy(m, None) ==> Answered(ms + [m])
    decreases |ms|
  {
    if ms == [] {
      assert ms + [m] == [m];
    } else {
      assert (ms + [m])[1..] == ms[1..] + [m];
      AppendPairing(Uses(ms[0]), ms[1..], m);
    }
  }

  /** A message of calls may follow if the message after it answers them. */
  lemma {:induction false} AppendExchange(ms: seq<Msg>, call: Msg, reply: Msg)
    requires Answered(ms) && AnsweredBy(call, Some(reply)) && Uses(reply) == []
    ensures Answered(ms + [call] + [reply])
    decreases |ms|
  {
    var all := ms + [call] + [reply];
    if ms == [] {
      assert all == [call, reply] && all[1..] == [reply] && all[1..][1..] == [];
    } else {
      assert all[1..] == ms[1..] + [call] + [reply];
      AppendExchange(ms[1..], call, reply);
    }
  }
}
