/** The streamed response of `run` in core/agent.py: assembly of blocks, and retries. */
module Streaming {
  import opened Options
  import opened Messages

  datatype Call = Call(id: string, name: string, input: ToolInput)

  datatype Opened = TextBlock | ToolBlock(id: string, name: string) | UnknownBlock

  datatype Delta = TextDelta(text: string) | JsonDelta(json: string) | UnknownDelta

  datatype Event =
    | BlockStart(index: int, block: Opened)
    | BlockDelta(index: int, delta: Delta)
    | BlockStop(index: int)
    | UnknownEvent

  /** Which texts `json.loads` accepts. */
  type Json = string -> bool

  datatype Buffers = Buffers(
    content: seq<Block>,
    calls: seq<Call>,
    texts: map<int, seq<string>>,
    inputs: map<int, seq<string>>,
    tools: map<int, (string, string)>,
    pending: seq<string>)

  const EMPTY := Buffers([], [], map[], map[], map[], [])

  function Join(parts: seq<string>): string
    decreases |parts|
  {
    if parts == [] then "" else parts[0] + Join(parts[1..])
  }

  function ParseInput(json: Json, raw: string): ToolInput {
    if raw == "" || !json(raw) then EmptyInput else Parsed(raw)
  }

  function Fed(json: Json, b: Buffers, e: Event): Buffers {
    match e
    case BlockStart(i, TextBlock) => b.(texts := b.texts[i := []])
    case BlockStart(i, ToolBlock(id, name)) =>
      b.(tools := b.tools[i := (id, name)], inputs := b.inputs[i := []])
    case BlockDelta(i, TextDelta(text)) =>
      b.(pending := b.pending + [text],
         texts := if i in b.texts then b.texts[i := b.texts[i] + [text]] else b.texts)
    case BlockDelta(i, JsonDelta(part)) =>
      b.(inputs := if i in b.inputs then b.inputs[i := b.inputs[i] + [part]] else b.inputs)
    case BlockStop(i) =>
      if i in b.texts then b.(content := b.content + [Text(Join(b.texts[i]))])
      else if i in b.tools then
        var input := ParseInput(json, Join(if i in b.inputs then b.inputs[i] else []));
        var (id, name) := b.tools[i];
        b.(calls := b.calls + [Call(id, name, input)], content := b.content + [ToolUse(id, name, input)])
      else b
    case _ => b
  }

  function FedAll(json: Json, b: Buffers, es: seq<Event>): Buffers
    decreases |es|
  {
    if es == [] then b else FedAll(json, Fed(json, b, es[0]), es[1..])
  }

  // ---- Attempts ----

  datatype Ending = Finished | Overloaded | Broken  // success, retryable error, any other error

  /** What one attempt brings: some events, then how it ends. */
  datatype Attempt = Attempt(events: seq<Event>, ending: Ending)

  const MAX_RETRIES: nat := 3

  /** The buffers and dictionaries of one turn, filled and cleared in place. */
  class Assembler {
    var content: seq<Block>
    var calls: seq<Call>
    var texts: map<int, seq<string>>
    var inputs: map<int, seq<string>>
    var tools: map<int, (string, string)>
    var pending: seq<string>

    function State(): Buffers
      reads this
    {
      Buffers(content, calls, texts, inputs, tools, pending)
    }

    constructor ()
      ensures State() == EMPTY
    {
      content, calls, texts, inputs, tools, pending := [], [], map[], map[], map[], [];
    }

    method Clear()
      modifies this
      ensures State() == EMPTY
    {
      content, calls, texts, inputs, tools, pending := [], [], map[], map[], map[], [];
    }

    method Feed(json: Json, e: Event)
      modifies this
      ensures State() == Fed(json, old(State()), e)
    {
      match e {
        case BlockStart(i, TextBlock) =>
          texts := texts[i := []];
        case BlockStart(i, ToolBlock(id, name)) =>
          tools := tools[i := (id, name)];
          inputs := inputs[i := []];
        case BlockDelta(i, TextDelta(text)) =>
          pending := pending + [text];
          if i in texts {
            texts := texts[i := texts[i] + [text]];
          }
        case BlockDelta(i, JsonDelta(part)) =>
          if i in inputs {
            inputs := inputs[i := inputs[i] + [part]];
          }
        case BlockStop(i) =>
          if i in texts {
            content := content + [Text(Join(texts[i]))];
          } else if i in tools {
            var input := ParseInput(json, Join(if i in inputs then inputs[i] else []));
            calls := calls + [Call(tools[i].0, tools[i].1, input)];
            content := content + [ToolUse(tools[i].0, tools[i].1, input)];
          }
        case _ =>
      }
    }

    /** The retry loop. `tries` counts the requests sent. */
    method Stream(json: Json, attempts: seq<Attempt>) returns (ok: bool, tries: nat)
      requires |attempts| >= MAX_RETRIES && State() == EMPTY
      modifies this
      ensures ok == Succeeds(attempts, 0) && tries == LastTry(attempts, 0) + 1
      ensures ok ==> State() == FedAll(json, EMPTY, attempts[LastTry(attempts, 0)].events)
    {
      ok, tries := false, 0;
      for attempt := 0 to MAX_RETRIES
        invariant State() == EMPTY && tries == attempt
        invariant attempt < MAX_RETRIES
        invariant LastTry(attempts, attempt) == LastTry(attempts, 0)
        invariant Succeeds(attempts, attempt) == Succeeds(attempts, 0)
      {
        tries := tries + 1;
        var events := attempts[attempt].events;
        for k := 0 to |events|
          invariant FedAll(json, State(), events[k..]) == FedAll(json, EMPTY, events)
        {
          Feed(json, events[k]);
        }
        assert events[|events|..] == [];
        match attempts[attempt].ending {
          case Finished => return true, tries;
          case Overloaded =>
            if attempt == MAX_RETRIES - 1 {
              return false, tries;
            }
            Clear();
          case Broken => return false, tries;
        }
      }
    }
  }

  /** The attempt the loop ends with, from attempt `k` on. */
  function LastTry(attempts: seq<Attempt>, k: nat): (last: nat)
    requires |attempts| >= MAX_RETRIES && k < MAX_RETRIES
    ensures last < MAX_RETRIES
    decreases MAX_RETRIES - k
  {
    if k + 1 < MAX_RETRIES && attempts[k].ending == Overloaded then LastTry(attempts, k + 1)
    else k
  }

  predicate Succeeds(attempts: seq<Attempt>, k: nat)
    requires |attempts| >= MAX_RETRIES && k < MAX_RETRIES
  {
    attempts[LastTry(attempts, k)].ending == Finished
  }

  /** What a turn assembles, or nothing if every permitted attempt failed. */
  function Streamed(json: Json, attempts: seq<Attempt>): Option<Buffers>
    requires |attempts| >= MAX_RETRIES
  {
    if Succeeds(attempts, 0) then Some(FedAll(json, EMPTY, attempts[LastTry(attempts, 0)].events)) else None
  }

  /**
   * The loop goes on after retryable errors only, and sends at most three requests: it ends at
   * the first attempt that ends in any other way, or at the third.
   */
  lemma EndsAtFirstSettled(attempts: seq<Attempt>)
    requires |attempts| >= MAX_RETRIES
    ensures
      var last := LastTry(attempts, 0);
      && last <= 2 && (forall i :: 0 <= i < last ==> attempts[i].ending == Overloaded)
      && (attempts[last].ending == Overloaded ==> last == 2)
      && (Succeeds(attempts, 0) <==> attempts[last].ending == Finished)
  {
    LastTryFrom(attempts, 0);
  }

  lemma {:induction false} LastTryFrom(attempts: seq<Attempt>, k: nat)
    requires |attempts| >= MAX_RETRIES && k < MAX_RETRIES
    ensures
      var last := LastTry(attempts, k);
      && k <= last <= 2 && (forall i :: k <= i < last ==> attempts[i].ending == Overloaded)
      && (attempts[last].ending == Overloaded ==> last == 2)
    decreases MAX_RETRIES - k
  {
    if k + 1 < MAX_RETRIES && attempts[k].ending == Overloaded {
      LastTryFrom(attempts, k + 1);
    }
  }

  /**
   * Retries are transparent: up to two retryable failures, whatever they streamed, followed
   * by a success leave what the successful attempt alone would have left.
   */
  lemma RetriesAreTransparent(json: Json, failed: seq<Attempt>, last: Attempt, more: seq<Attempt>)
    requires |failed| < MAX_RETRIES && forall a :: a in failed ==> a.ending == Overloaded
    requires last.ending == Finished && |failed + [last] + more| >= MAX_RETRIES
    ensures Streamed(json, failed + [last] + more) == Some(FedAll(json, EMPTY, last.events))
  {
    var all := failed + [last] + more;
    assert forall i :: 0 <= i < |failed| ==> all[i] == failed[i] && failed[i] in failed;
    SkipFailed(all, |failed|, 0);
  }

  lemma {:induction false} SkipFailed(attempts: seq<Attempt>, n: nat, k: nat)
    requires |attempts| >= MAX_RETRIES && k <= n < MAX_RETRIES
    requires forall i :: 0 <= i < n ==> attempts[i].ending == Overloaded
    requires attempts[n].ending == Finished
    ensures LastTry(attempts, k) == n
    decreases n - k
  {
    if k < n {
      SkipFailed(attempts, n, k + 1);
    }
  }

  // ---- Assembly ----

  /** The calls a content list makes. */
  function CallsIn(bs: seq<Block>): seq<Call>
    decreases |bs|
  {
    if bs == [] then []
    else (if bs[0].ToolUse? then [Call(bs[0].id, bs[0].name, bs[0].input)] else []) + CallsIn(bs[1..])
  }

  lemma {:induction false} CallsConcat(a: seq<Block>, b: seq<Block>)
    ensures CallsIn(a + b) == CallsIn(a) + CallsIn(b)
    decreases |a|
  {
    if a == [] {
      assert a + b == b;
    } else {
      CallsConcat(a[1..], b);
      assert (a + b)[0] == a[0] && (a + b)[1..] == a[1..] + b;
      Regroup(if a[0].ToolUse? then [Call(a[0].id, a[0].name, a[0].input)] else [], CallsIn(a[1..]), CallsIn(b));
    }
  }

  /** Only text and calls are ever assembled, and the calls to run are those in the content. */
  ghost predicate InStep(b: Buffers) {
    b.calls == CallsIn(b.content) &&
    forall i :: 0 <= i < |b.content| ==> b.content[i].Text? || b.content[i].ToolUse?
  }

  /** Whatever the stream brings, well-formed or not, calls and content stay in step. */
  lemma {:induction false} FeedingStaysInStep(json: Json, b: Buffers, es: seq<Event>)
    requires InStep(b)
    ensures InStep(FedAll(json, b, es))
    decreases |es|
  {
    if es != [] {
      var b' := Fed(json, b, es[0]);
      if b'.content != b.content {
        var added := b'.content[|b.content|];
        assert b'.content == b.content + [added];
        CallsConcat(b.content, [added]);
      }
      FeedingStaysInStep(json, b', es[1..]);
    }
  }

  /** A complete block of a well-formed stream: its start, its parts, its stop. */
  datatype Streamlet =
    | TextStream(parts: seq<string>)
    | ToolStream(id: string, name: string, parts: seq<string>)
    | OtherStream(parts: seq<string>)  // of a kind the loop does not collect

  function Part(s: Streamlet, part: string): Delta {
    match s
    case TextStream(_) => TextDelta(part)
    case ToolStream(_, _, _) => JsonDelta(part)
    case OtherStream(_) => UnknownDelta
  }

  function Opening(s: Streamlet): Opened {
    match s
    case TextStream(_) => TextBlock
    case ToolStream(id, name, _) => ToolBlock(id, name)
    case OtherStream(_) => UnknownBlock
  }

  function Parts(index: int, s: Streamlet, parts: seq<string>): seq<Event>
    decreases |parts|
  {
    if parts == [] then [] else [BlockDelta(index, Part(s, parts[0]))] + Parts(index, s, parts[1..])
  }

  function Encode(index: int, s: Streamlet): seq<Event> {
    [BlockStart(index, Opening(s))] + Parts(index, s, s.parts) + [BlockStop(index)]
  }

  /** The events of the blocks one after another, at indices from `index` on. */
  function EncodeAll(index: int, ss: seq<Streamlet>): seq<Event>
    decreases |ss|
  {
    if ss == [] then [] else Encode(index, ss[0]) + EncodeAll(index + 1, ss[1..])
  }

  /** The block collected, if its kind is. */
  function Decoded(json: Json, s: Streamlet): seq<Block> {
    match s
    case TextStream(parts) => [Text(Join(parts))]
    case ToolStream(id, name, parts) => [ToolUse(id, name, ParseInput(json, Join(parts)))]
    case OtherStream(_) => []
  }

  function DecodedAll(json: Json, ss: seq<Streamlet>): seq<Block>
    decreases |ss|
  {
    if ss == [] then [] else Decoded(json, ss[0]) + DecodedAll(json, ss[1..])
  }

  /** The text of a content list, run together. */
  function TextIn(bs: seq<Block>): string
    decreases |bs|
  {
    if bs == [] then "" else (if bs[0].Text? then bs[0].text else "") + TextIn(bs[1..])
  }

  lemma {:induction false} FeedConcat(json: Json, b: Buffers, a: seq<Event>, c: seq<Event>)
    ensures FedAll(json, b, a + c) == FedAll(json, FedAll(json, b, a), c)
    decreases |a|
  {
    if a == [] {
      assert a + c == c;
    } else {
      assert (a + c)[1..] == a[1..] + c;
      FeedConcat(json, Fed(json, b, a[0]), a[1..], c);
    }
  }

  /** The state in which block `index` is open and has received `parts`. */
  function Open(b: Buffers, index: int, s: Streamlet, parts: seq<string>): Buffers {
    match s
    case TextStream(_) => b.(texts := b.texts[index := parts], pending := b.pending + parts)
    case ToolStream(id, name, _) => b.(tools := b.tools[index := (id, name)], inputs := b.inputs[index := parts])
    case OtherStream(_) => b
  }

  lemma {:induction false} FeedParts(
    json: Json, b: Buffers, index: int, s: Streamlet, got: seq<string>, parts: seq<string>)
    ensures FedAll(json, Open(b, index, s, got), Parts(index, s, parts)) == Open(b, index, s, got + parts)
    decreases |parts|
  {
    if parts == [] {
      assert got + parts == got;
    } else {
      hide Fed, Open, Part;
      FeedPart(json, b, index, s, got, parts[0]);
      assert Parts(index, s, parts)[1..] == Parts(index, s, parts[1..]);
      assert got + [parts[0]] + parts[1..] == got + parts;
      FeedParts(json, b, index, s, got + [parts[0]], parts[1..]);
    }
  }

  lemma FeedPart(json: Json, b: Buffers, index: int, s: Streamlet, got: seq<string>, part: string)
    ensures Fed(json, Open(b, index, s, got), BlockDelta(index, Part(s, part))) == Open(b, index, s, got + [part])
  {
    Regroup(b.pending, got, [part]);
    assert b.texts[index := got][index := got + [part]] == b.texts[index := got + [part]];
    assert b.inputs[index := got][index := got + [part]] == b.inputs[index := got + [part]];
  }

  /** Indices from `index` on have not been used yet. */
  ghost predicate Unused(b: Buffers, index: int) {
    forall i :: i >= index ==> i !in b.texts && i !in b.tools && i !in b.inputs
  }

  lemma FeedBlock(json: Json, b: Buffers, index: int, s: Streamlet)
    requires Unused(b, index)
    ensures
      var b' := FedAll(json, b, Encode(index, s));
      && Unused(b', index + 1)
      && b'.content == b.content + Decoded(json, s)
      && b'.pending == b.pending + (if s.TextStream? then s.parts else [])
  {
    hide Join, ParseInput;
    var opening := BlockStart(index, Opening(s));
    var parts := Parts(index, s, s.parts);
    FeedConcat(json, b, [opening] + parts, [BlockStop(index)]);
    FeedConcat(json, b, [opening], parts);
    assert b.pending + [] == b.pending;
    assert FedAll(json, b, [opening]) == Open(b, index, s, []);
    FeedParts(json, b, index, s, [], s.parts);
    assert [] + s.parts == s.parts;
    var open := Open(b, index, s, s.parts);
    assert FedAll(json, open, [BlockStop(index)]) == Fed(json, open, BlockStop(index));
  }

  /** The text chunks of a stream, in order of arrival. */
  function Chunks(ss: seq<Streamlet>): seq<string>
    decreases |ss|
  {
    if ss == [] then [] else (if ss[0].TextStream? then ss[0].parts else []) + Chunks(ss[1..])
  }

  lemma {:induction false} FeedBlocks(json: Json, b: Buffers, index: int, ss: seq<Streamlet>)
    requires Unused(b, index)
    ensures FedAll(json, b, EncodeAll(index, ss)).content == b.content + DecodedAll(json, ss)
    ensures FedAll(json, b, EncodeAll(index, ss)).pending == b.pending + Chunks(ss)
    decreases |ss|
  {
    hide Fed, Encode, Decoded;
    if ss == [] {
      assert b.content + [] == b.content && b.pending + [] == b.pending;
    } else {
      var b1 := FedAll(json, b, Encode(index, ss[0]));
      FeedConcat(json, b, Encode(index, ss[0]), EncodeAll(index + 1, ss[1..]));
      FeedBlock(json, b, index, ss[0]);
      FeedBlocks(json, b1, index + 1, ss[1..]);
      Regroup(b.content, Decoded(json, ss[0]), DecodedAll(json, ss[1..]));
      Regroup(b.pending, if ss[0].TextStream? then ss[0].parts else [], Chunks(ss[1..]));
    }
  }

  lemma {:induction false} ChunksAreText(json: Json, ss: seq<Streamlet>)
    ensures Join(Chunks(ss)) == TextIn(DecodedAll(json, ss))
    decreases |ss|
  {
    if ss != [] {
      JoinConcat(if ss[0].TextStream? then ss[0].parts else [], Chunks(ss[1..]));
      ChunksAreText(json, ss[1..]);
      var rest := DecodedAll(json, ss[1..]);
      assert [] + rest == rest && Chunks([]) == [];
      assert Decoded(json, ss[0]) != [] ==> DecodedAll(json, ss)[1..] == rest;
    }
  }

  lemma {:induction false} JoinConcat(a: seq<string>, b: seq<string>)
    ensures Join(a + b) == Join(a) + Join(b)
    decreases |a|
  {
    if a == [] {
      assert a + b == b;
    } else {
      assert (a + b)[1..] == a[1..] + b;
      JoinConcat(a[1..], b);
    }
  }

  // ---- What is assembled ----

  /** The pieces of a text put together, the last one last. */
  function Concatenated(parts: seq<string>): string
    decreases |parts|
  {
    if parts == [] then "" else Concatenated(parts[..|parts| - 1]) + parts[|parts| - 1]
  }

  lemma {:induction false} JoinIsConcatenation(parts: seq<string>)
    ensures Join(parts) == Concatenated(parts)
    decreases |parts|
  {
    if parts != [] {
      var front, last := parts[..|parts| - 1], parts[|parts| - 1];
      JoinIsConcatenation(front);
      JoinConcat(front, [last]);
      assert parts == front + [last];
      assert Join([last]) == last + Join([]) == last;
    }
  }

  /** The input a call is run with: the parsed text, or nothing if there is none to parse. */
  predicate InputOf(json: Json, parts: seq<string>, input: ToolInput) {
    var raw := Concatenated(parts);
    if raw != "" && json(raw) then input == Parsed(raw) else input == EmptyInput
  }

  /** The blocks of the kinds that are collected, in order. */
  function Collected(ss: seq<Streamlet>): seq<Streamlet>
    decreases |ss|
  {
    if ss == [] then [] else (if ss[0].OtherStream? then [] else [ss[0]]) + Collected(ss[1..])
  }

  function ToolStreams(ss: seq<Streamlet>): seq<Streamlet>
    decreases |ss|
  {
    if ss == [] then [] else (if ss[0].ToolStream? then [ss[0]] else []) + ToolStreams(ss[1..])
  }

  predicate Shows(json: Json, s: Streamlet, b: Block) {
    match s
    case TextStream(parts) => b == Text(Concatenated(parts))
    case ToolStream(id, name, parts) => b.ToolUse? && b.id == id && b.name == name && InputOf(json, parts, b.input)
    case OtherStream(_) => false
  }

  predicate Runs(json: Json, s: Streamlet, c: Call) {
    s.ToolStream? && c.id == s.id && c.name == s.name && InputOf(json, s.parts, c.input)
  }

  predicate AllShown(json: Json, ss: seq<Streamlet>, bs: seq<Block>) {
    |ss| == |bs| && forall k :: 0 <= k < |ss| ==> Shows(json, ss[k], bs[k])
  }

  predicate AllRun(json: Json, ss: seq<Streamlet>, cs: seq<Call>) {
    |ss| == |cs| && forall k :: 0 <= k < |ss| ==> Runs(json, ss[k], cs[k])
  }

  lemma DecodedShows(json: Json, s: Streamlet)
    ensures AllShown(json, if s.OtherStream? then [] else [s], Decoded(json, s))
    ensures AllRun(json, if s.ToolStream? then [s] else [], CallsIn(Decoded(json, s)))
  {
    hide Join, Concatenated;
    if !s.OtherStream? {
      JoinIsConcatenation(s.parts);
    }
  }

  lemma {:induction false} AllDecodedShows(json: Json, ss: seq<Streamlet>)
    ensures AllShown(json, Collected(ss), DecodedAll(json, ss))
    ensures AllRun(json, ToolStreams(ss), CallsIn(DecodedAll(json, ss)))
    decreases |ss|
  {
    hide Shows, Runs, Decoded;
    if ss != [] {
      DecodedShows(json, ss[0]);
      AllDecodedShows(json, ss[1..]);
      CallsConcat(Decoded(json, ss[0]), DecodedAll(json, ss[1..]));
    }
  }

  /**
   * After any failed attempts a well-formed stream is assembled block for block, kinds that
   * are not collected left out: texts are the concatenation of their pieces, tools have their
   * id, name and parsed input, the calls to run are the tool blocks in order, and the buffered
   * text is the text of the blocks run together.
   */
  lemma WellFormedStream(json: Json, failed: seq<Attempt>, ss: seq<Streamlet>, more: seq<Attempt>)
    requires |failed| < MAX_RETRIES && forall a :: a in failed ==> a.ending == Overloaded
    requires |failed| + 1 + |more| >= MAX_RETRIES
    ensures
      var attempts := failed + [Attempt(EncodeAll(0, ss), Finished)] + more;
      && Streamed(json, attempts).Some?
      && var b := Streamed(json, attempts).value;
         && AllShown(json, Collected(ss), b.content)
         && AllRun(json, ToolStreams(ss), b.calls)
         && b.calls == CallsIn(b.content)
         && b.pending == Chunks(ss) && Concatenated(b.pending) == TextIn(b.content)
  {
    hide AllShown, AllRun, Concatenated, Join;
    RetriesAreTransparent(json, failed, Attempt(EncodeAll(0, ss), Finished), more);
    FeedBlocks(json, EMPTY, 0, ss);
    assert [] + Chunks(ss) == Chunks(ss) && [] + DecodedAll(json, ss) == DecodedAll(json, ss);
    ChunksAreText(json, ss);
    JoinIsConcatenation(Chunks(ss));
    AllDecodedShows(json, ss);
    FeedingStaysInStep(json, EMPTY, EncodeAll(0, ss));
  }
}
