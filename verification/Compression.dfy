/** `compress_if_needed` of core/context.py: old messages give way to a summary. */
module Compression {
  import opened Options
  import opened Messages

  const SUMMARY_PREFIX := "[Prior conversation summary]: "
  const ACKNOWLEDGEMENT := "Understood. I have the context from our prior conversation."
  const KEEP_RECENT: nat := 4

  /** The first dict of a content list decides. */
  predicate FirstDictIsResult(bs: seq<Block>)
    decreases |bs|
  {
    bs != [] && (if bs[0].Bare? then FirstDictIsResult(bs[1..]) else bs[0].ToolResult?)
  }

  predicate StartsWithToolResult(m: Msg) {
    m.role == User && m.content.Blocks? && FirstDictIsResult(m.content.blocks)
  }

  /** The first boundary at or after `split` that does not start with a tool result. */
  function Boundary(ms: seq<Msg>, split: nat): (k: nat)
    requires split <= |ms|
    ensures split <= k <= |ms|
    decreases |ms| - split
  {
    if split < |ms| && StartsWithToolResult(ms[split]) then Boundary(ms, split + 1) else split
  }

  function Summarized(summary: string, recent: seq<Msg>): seq<Msg> {
    [Msg(User, Str(SUMMARY_PREFIX + summary)), Msg(Assistant, Str(ACKNOWLEDGEMENT))] + recent
  }

  /** `over`: the token count has reached the threshold; `summary`: what the model made of the old part, if it answered. */
  function Compressed(ms: seq<Msg>, keepRecent: nat, over: bool, summary: Option<string>): seq<Msg> {
    if !over || |ms| <= 2 * keepRecent then ms
    else
      var split := Boundary(ms, |ms| - 2 * keepRecent);
      if split >= |ms| || summary.None? then ms else Summarized(summary.value, ms[split..])
  }

  /** The loop that moves the boundary past messages that start with a result. */
  method FindBoundary(messages: seq<Message>, start: nat) returns (split: nat)
    requires start <= |messages|
    ensures split == Boundary(Values(messages), start)
  {
    split := start;
    while split < |messages| && StartsWithToolResult(messages[split].Value())
      invariant start <= split <= |messages|
      invariant Boundary(Values(messages), split) == Boundary(Values(messages), start)
    {
      split := split + 1;
    }
  }

  method CompressIfNeeded(messages: seq<Message>, keepRecent: nat, over: bool, summary: Option<string>)
    returns (compressed: seq<Message>)
    ensures Values(compressed) == Compressed(Values(messages), keepRecent, over, summary)
    ensures Distinct(messages) ==> Distinct(compressed)
    ensures forall m :: m in compressed ==> m in messages || fresh(m)
  {
    hide Boundary, Distinct;
    if !over {
      return messages;
    }
    var keepCount := keepRecent * 2;
    if |messages| <= keepCount {
      return messages;
    }
    var split := FindBoundary(messages, |messages| - keepCount);
    if split >= |messages| || summary.None? {
      return messages;
    }
    var intro := new Message(User, Str(SUMMARY_PREFIX + summary.value));
    var ack := new Message(Assistant, Str(ACKNOWLEDGEMENT));
    compressed := [intro, ack] + messages[split..];
    KeptAfter(intro, ack, messages, split);
  }

  /** The new list, value by value, and its messages. */
  lemma KeptAfter(intro: Message, ack: Message, messages: seq<Message>, split: nat)
    requires split <= |messages| && intro != ack && intro !in messages && ack !in messages
    ensures
      var kept := [intro, ack] + messages[split..];
      && Values(kept) == [intro.Value(), ack.Value()] + Values(messages)[split..]
      && (Distinct(messages) ==> Distinct(kept))
      && forall m :: m in kept ==> m == intro || m == ack || m in messages
  {
  }

  // ---- What survives ----

  lemma {:induction false} FirstDictSpeaks(bs: seq<Block>)
    requires forall i, j :: 0 <= i < j < |bs| && bs[j].ToolResult? ==> bs[i].ToolResult? || bs[i].Bare?
    requires !FirstDictIsResult(bs)
    ensures ResultsIn(bs) == []
    decreases |bs|
  {
    if bs != [] {
      if bs[0].Bare? {
        FirstDictSpeaks(bs[1..]);
      } else {
        NoResults(bs);
      }
    }
  }

  /** Where results come first, the boundary test finds every message that holds one. */
  lemma BoundaryTestIsExact(calls: seq<string>, m: Msg)
    requires ResultsFirst(m) && Justified(calls, m)
    ensures StartsWithToolResult(m) <==> Results(m) != []
  {
    var bs := BlocksOf(m);
    if Results(m) != [] {
      assert Results(m)[0] in Results(m);
      if !FirstDictIsResult(bs) {
        FirstDictSpeaks(bs);
      }
    } else if FirstDictIsResult(bs) {
      FirstDictHolds(bs);
    }
  }

  lemma {:induction false} FirstDictHolds(bs: seq<Block>)
    requires FirstDictIsResult(bs)
    ensures ResultsIn(bs) != []
    decreases |bs|
  {
    if bs[0].Bare? {
      FirstDictHolds(bs[1..]);
    }
  }

  /** At a message of a paired history that holds results, the one after holds none. */
  lemma ResultsAreIsolated(ms: seq<Msg>, i: nat)
    requires NoOrphans([], ms) && i + 1 < |ms| && Results(ms[i]) != []
    ensures Results(ms[i + 1]) == []
  {
    JustifiedAt(ms, i);
    JustifiedAt(ms, i + 1);
    assert Results(ms[i])[0] in Results(ms[i]);
    var results := Results(ms[i + 1]);
    assert forall k :: 0 <= k < |results| ==> results[k] in results;
  }

  function CallsAt(ms: seq<Msg>, i: nat): seq<string>
    requires i < |ms|
  {
    if i == 0 then [] else Uses(ms[i - 1])
  }

  lemma JustifiedAt(ms: seq<Msg>, i: nat)
    requires NoOrphans([], ms) && i < |ms|
    ensures Justified(CallsAt(ms, i), ms[i])
  {
    SuffixPairing([], ms, i);
    assert ms[i..][0] == ms[i];
    assert i > 0 ==> ms[..i][|ms[..i]| - 1] == ms[i - 1];
  }

  lemma BoundaryTestAt(ms: seq<Msg>, i: nat)
    requires NoOrphans([], ms) && AllResultsFirst(ms) && i < |ms|
    ensures StartsWithToolResult(ms[i]) <==> Results(ms[i]) != []
  {
    JustifiedAt(ms, i);
    BoundaryTestIsExact(CallsAt(ms, i), ms[i]);
  }

  /** The boundary moves by at most one message, so never to the end of the history. */
  lemma BoundaryMovesAtMostOne(ms: seq<Msg>, split: nat)
    requires NoOrphans([], ms) && AllResultsFirst(ms) && split + 1 < |ms|
    ensures Boundary(ms, split) == if Results(ms[split]) != [] then split + 1 else split
    ensures Results(ms[Boundary(ms, split)]) == []
  {
    hide StartsWithToolResult, NoOrphans, AllResultsFirst, Results;
    BoundaryTestAt(ms, split);
    BoundaryTestAt(ms, split + 1);
    if Results(ms[split]) != [] {
      ResultsAreIsolated(ms, split);
    }
  }

  /** The part of the history a compression keeps. */
  ghost predicate KeepsRecent(ms: seq<Msg>, cs: seq<Msg>, kept: nat) {
    2 <= |cs| && kept <= |ms| && cs[2..] == ms[|ms| - kept..]
  }

  /**
   * On a history without orphans a compression that goes ahead never bails out at the
   * boundary search, and keeps the last 2 * keepRecent messages or all but the first of them.
   */
  lemma CompressionLosesAtMostOne(ms: seq<Msg>, keepRecent: nat, summary: string)
    requires NoOrphans([], ms) && AllResultsFirst(ms) && 1 <= keepRecent && 2 * keepRecent < |ms|
    ensures Boundary(ms, |ms| - 2 * keepRecent) < |ms|
    ensures
      var cs := Compressed(ms, keepRecent, true, Some(summary));
      KeepsRecent(ms, cs,
        if Results(ms[|ms| - 2 * keepRecent]) != [] then 2 * keepRecent - 1 else 2 * keepRecent)
  {
    BoundaryMovesAtMostOne(ms, |ms| - 2 * keepRecent);
  }

  /** Every compression keeps a paired history paired. */
  lemma CompressionKeepsPairing(ms: seq<Msg>, keepRecent: nat, over: bool, summary: Option<string>)
    requires Paired(ms) && AllResultsFirst(ms)
    ensures Paired(Compressed(ms, keepRecent, over, summary))
    ensures AllResultsFirst(Compressed(ms, keepRecent, over, summary))
  {
    if over && |ms| > 2 * keepRecent && summary.Some? {
      var split := Boundary(ms, |ms| - 2 * keepRecent);
      if split < |ms| {
        BoundaryStops(ms, |ms| - 2 * keepRecent);
        BoundaryTestAt(ms, split);
        SuffixPairing([], ms, split);
        SummaryPairing(summary.value, CallsBefore([], ms[..split]), ms[split..]);
      }
    }
  }

  lemma SummaryPairing(summary: string, calls: seq<string>, recent: seq<Msg>)
    requires recent != [] && Answered(recent) && NoOrphans(calls, recent) && Results(recent[0]) == []
    requires AllResultsFirst(recent)
    ensures Paired(Summarized(summary, recent)) && AllResultsFirst(Summarized(summary, recent))
  {
    var cs := Summarized(summary, recent);
    assert cs[1..] == [cs[1]] + recent && cs[1..][1..] == recent;
    assert forall i :: 2 <= i < |cs| ==> cs[i] == recent[i - 2];
  }

  lemma {:induction false} BoundaryStops(ms: seq<Msg>, split: nat)
    requires split <= |ms|
    ensures Boundary(ms, split) < |ms| ==> !StartsWithToolResult(ms[Boundary(ms, split)])
    decreases |ms| - split
  {
    if split < |ms| && StartsWithToolResult(ms[split]) {
      BoundaryStops(ms, split + 1);
    }
  }

  /** Where a compression cuts: the first place after the old part that no tool result opens. */
  ghost predicate CutsAt(ms: seq<Msg>, keepRecent: nat, split: nat) {
    && |ms| - 2 * keepRecent <= split < |ms| && !StartsWithToolResult(ms[split])
    && forall i: nat :: |ms| - 2 * keepRecent <= i < split ==> StartsWithToolResult(ms[i])
  }

  lemma {:induction false} BoundaryCuts(ms: seq<Msg>, start: nat)
    requires start <= |ms|
    ensures forall i :: start <= i < Boundary(ms, start) ==> StartsWithToolResult(ms[i])
    ensures Boundary(ms, start) < |ms| ==> !StartsWithToolResult(ms[Boundary(ms, start)])
    decreases |ms| - start
  {
    if start < |ms| && StartsWithToolResult(ms[start]) {
      BoundaryCuts(ms, start + 1);
    }
  }

  /** The history with everything before `split` given up for its summary. */
  function SummarizedAt(ms: seq<Msg>, split: nat, summary: string): seq<Msg>
    requires split <= |ms|
  {
    [Msg(User, Str("[Prior conversation summary]: " + summary)),
     Msg(Assistant, Str("Understood. I have the context from our prior conversation."))] + ms[split..]
  }

  /**
   * A compression goes ahead if and only if the threshold is reached, there is more than is to
   * be kept, a summary was made, and there is a place to cut. It then puts the summary and its
   * acknowledgement before everything from that place on; otherwise nothing changes.
   */
  lemma CompressedExactly(ms: seq<Msg>, keepRecent: nat, over: bool, summary: Option<string>, split: nat)
    ensures over && |ms| > 2 * keepRecent && summary.Some? && CutsAt(ms, keepRecent, split) ==>
      Compressed(ms, keepRecent, over, summary) == SummarizedAt(ms, split, summary.value)
    ensures !over || |ms| <= 2 * keepRecent || summary.None? || !(exists at :: CutsAt(ms, keepRecent, at)) ==>
      Compressed(ms, keepRecent, over, summary) == ms
  {
    if over && |ms| > 2 * keepRecent {
      BoundaryCuts(ms, |ms| - 2 * keepRecent);
      assert Boundary(ms, |ms| - 2 * keepRecent) < |ms| ==>
        CutsAt(ms, keepRecent, Boundary(ms, |ms| - 2 * keepRecent));
    }
  }

  /** The first entry that is a dict is a tool result. */
  ghost predicate OpensWithResult(bs: seq<Block>) {
    exists i :: 0 <= i < |bs| && bs[i].ToolResult? && forall j :: 0 <= j < i ==> bs[j].Bare?
  }

  lemma {:induction false} FirstDictIffOpens(bs: seq<Block>)
    ensures FirstDictIsResult(bs) <==> OpensWithResult(bs)
    decreases |bs|
  {
    if bs != [] && bs[0].Bare? {
      FirstDictIffOpens(bs[1..]);
      if OpensWithResult(bs[1..]) {
        var i :| 0 <= i < |bs[1..]| && bs[1..][i].ToolResult? && forall j :: 0 <= j < i ==> bs[1..][j].Bare?;
        assert bs[i + 1] == bs[1..][i] && forall j :: 0 < j < i + 1 ==> bs[j] == bs[1..][j - 1];
      }
      if OpensWithResult(bs) {
        var i :| 0 <= i < |bs| && bs[i].ToolResult? && forall j :: 0 <= j < i ==> bs[j].Bare?;
        assert bs[1..][i - 1] == bs[i] && forall j :: 0 <= j < i - 1 ==> bs[1..][j] == bs[j + 1];
      }
    } else if bs != [] && bs[0].ToolResult? {
      assert OpensWithResult(bs);
    }
  }

  /** What the boundary test says of any message at all. */
  lemma BoundaryTestIs(m: Msg)
    ensures StartsWithToolResult(m) <==> m.role == User && m.content.Blocks? && OpensWithResult(m.content.blocks)
  {
    if m.content.Blocks? {
      FirstDictIffOpens(m.content.blocks);
    }
  }
}
