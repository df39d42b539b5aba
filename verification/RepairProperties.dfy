/** What the repair of a history guarantees. */
module RepairProperties {
  import opened Options
  import opened Messages
  import opened Repair

  // ---- One message ----

  lemma {:induction false} UnansweredMember(ids: seq<string>, next: Option<Msg>, id: string)
    ensures id in Unanswered(ids, next) <==> id in ids && id != "" && !Covers(next, id)
    decreases |ids|
  {
    if ids != [] {
      UnansweredMember(ids[1..], next, id);
    }
  }

  /** Nothing is missing exactly when every call is answered. */
  lemma NothingMissing(m: Msg, next: Option<Msg>)
    ensures Missing(m, next) == [] <==> AnsweredBy(m, next)
  {
    var missing := Missing(m, next);
    forall id
      ensures id in missing <==> id in Uses(m) && id != "" && !Covers(next, id)
    {
      UnansweredMember(Uses(m), next, id);
    }
    assert missing != [] ==> missing[0] in missing;
  }

  lemma {:induction false} SyntheticResults(ids: seq<string>)
    ensures ResultsIn(Synthetic(ids)) == ids && UsesIn(Synthetic(ids)) == []
    ensures |Synthetic(ids)| == |ids|
    ensures forall i :: 0 <= i < |ids| ==>
      Synthetic(ids)[i] == ToolResult(ids[i], "{\"error\": \"Tool execution was interrupted.\"}", true)
    decreases |ids|
  {
    if ids != [] {
      SyntheticResults(ids[1..]);
    }
  }

  /** The content of a message as a list of blocks. */
  function AsBlocks(m: Msg): seq<Block> {
    match m.content
    case Blocks(bs) => bs
    case Str(text) => [Text(text)]
    case Absent => []
  }

  lemma PrependedBlocks(ids: seq<string>, m: Msg)
    ensures BlocksOf(Prepended(ids, m)) == Synthetic(ids) + AsBlocks(m)
  {
  }

  lemma PrependedResults(ids: seq<string>, m: Msg)
    ensures Results(Prepended(ids, m)) == ids + Results(m)
  {
    PrependedBlocks(ids, m);
    SyntheticResults(ids);
    ResultsConcat(Synthetic(ids), AsBlocks(m));
    assert ResultsIn(AsBlocks(m)) == Results(m);
  }

  lemma PrependedResultsFirst(ids: seq<string>, m: Msg)
    requires ResultsFirst(m)
    ensures ResultsFirst(Prepended(ids, m))
  {
    PrependedBlocks(ids, m);
    SyntheticResults(ids);
    var added, bs := Synthetic(ids), BlocksOf(Prepended(ids, m));
    forall i, j | 0 <= i < j < |bs| && bs[j].ToolResult?
      ensures bs[i].ToolResult? || bs[i].Bare?
    {
      if i < |added| {
        assert bs[i] == added[i];
      } else {
        assert bs[i] == AsBlocks(m)[i - |added|] && bs[j] == AsBlocks(m)[j - |added|];
        assert AsBlocks(m) == BlocksOf(m);
      }
    }
  }

  /** Whichever way the walk answers `ms[0]`, its calls are answered by what follows it. */
  lemma HeadIsAnswered(ms: seq<Msg>)
    requires ms != []
    ensures AnsweredBy(ms[0], Head(Inserted(ms) + Amended(ms)))
  {
    var missing := Missing(ms[0], Head(ms[1..]));
    var rest := Amended(ms);
    NothingMissing(ms[0], Head(ms[1..]));
    if missing == [] {
      assert Inserted(ms) + rest == ms[1..];
    } else {
      forall id | id in Uses(ms[0]) && id != ""
        ensures id in missing || Covers(Head(ms[1..]), id)
      {
        UnansweredMember(Uses(ms[0]), Head(ms[1..]), id);
      }
      if |ms| > 1 && ms[1].role == User {
        PrependedResults(missing, ms[1]);
        assert Inserted(ms) + rest == rest;
      } else {
        SyntheticResults(missing);
      }
    }
  }

  // ---- The whole list ----

  /**
   * The repair is complete: afterwards every call is answered in the next message, whatever
   * the history was.
   */
  lemma {:induction false} RepairAnswersAll(ms: seq<Msg>)
    ensures Answered(Repaired(ms))
    ensures Head(Repaired(ms)) == Head(ms)
    decreases |ms|
  {
    hide Inserted, Amended;
    if ms != [] {
      var rest, out := Repaired(Amended(ms)), Repaired(ms);
      RepairAnswersAll(Amended(ms));
      HeadIsAnswered(ms);
      InsertedShape(ms);
      if Inserted(ms) == [] {
        assert Inserted(ms) + Amended(ms) == Amended(ms);
        assert out[1..] == rest;
      } else {
        var reply := Inserted(ms)[0];
        assert out[1..] == [reply] + rest && out[1..][1..] == rest;
        assert Head(Inserted(ms) + Amended(ms)) == Some(reply);
      }
    }
  }

  lemma InsertedShape(ms: seq<Msg>)
    requires ms != []
    ensures Inserted(ms) == [] || (Inserted(ms) == [Inserted(ms)[0]] && Uses(Inserted(ms)[0]) == [])
  {
  }

  /** A history with nothing unanswered is returned, and left, as it is. */
  lemma {:induction false} RepairKeepsAnswered(ms: seq<Msg>)
    requires Answered(ms)
    ensures Repaired(ms) == ms && Mutated(ms) == ms
    decreases |ms|
  {
    if ms != [] {
      NothingMissing(ms[0], Head(ms[1..]));
      assert Amended(ms) == ms[1..] && Inserted(ms) == [];
      RepairKeepsAnswered(ms[1..]);
    }
  }

  lemma RepairIsIdempotent(ms: seq<Msg>)
    ensures Repaired(Repaired(ms)) == Repaired(ms)
  {
    RepairAnswersAll(ms);
    RepairKeepsAnswered(Repaired(ms));
  }

  /**
   * Repairing the caller's own list again, after a first repair has rewritten the user
   * messages it shares, gives what the first repair gave.
   */
  lemma {:induction false} RepairAgain(ms: seq<Msg>)
    ensures Repaired(Mutated(ms)) == Repaired(ms)
    ensures Head(Mutated(ms)) == Head(ms)
    decreases |ms|
  {
    if ms != [] {
      var rest := Amended(ms);
      RepairAgain(rest);
      var left := Mutated(ms);
      assert left[1..] == Mutated(rest);
      var missing := Missing(ms[0], Head(ms[1..]));
      if missing != [] && |ms| > 1 && ms[1].role == User {
        HeadIsAnswered(ms);
        assert Inserted(ms) + rest == rest;
        NothingMissing(ms[0], Head(rest));
        assert Head(left[1..]) == Head(rest);
        assert Amended(left) == left[1..] && Inserted(left) == [];
      } else {
        assert rest == ms[1..] && Head(left[1..]) == Head(ms[1..]);
        assert Amended(left) == left[1..] && Inserted(left) == Inserted(ms);
      }
    }
  }

  // ---- Nothing is lost ----

  /** `r` is `m`, or `m` with error results put before its old content. */
  ghost predicate Carries(m: Msg, r: Msg) {
    r == m ||
    (m.role == User == r.role && r.content.Blocks? &&
     exists ids ::
       && |Synthetic(ids)| <= |r.content.blocks|
       && r.content.blocks[..|Synthetic(ids)|] == Synthetic(ids)
       && r.content.blocks[|Synthetic(ids)|..] == AsBlocks(m))
  }

  /** A message the repair made up: error results and nothing else. */
  ghost predicate MadeUp(r: Msg) {
    exists ids :: ids != [] && r == Msg(User, Content.Blocks(Synthetic(ids)))
  }

  /** `rs` is `ms`, in order and each message carried over, with made-up messages between. */
  ghost predicate Preserves(ms: seq<Msg>, rs: seq<Msg>)
    decreases |rs|
  {
    if rs == [] then ms == []
    else
      || (ms != [] && Carries(ms[0], rs[0]) && Preserves(ms[1..], rs[1..]))
      || (MadeUp(rs[0]) && Preserves(ms, rs[1..]))
  }

  lemma PrependedCarries(ids: seq<string>, m: Msg)
    requires m.role == User
    ensures Carries(m, Prepended(ids, m))
  {
    var r := Prepended(ids, m).content.blocks;
    PrependedBlocks(ids, m);
    assert r[..|Synthetic(ids)|] == Synthetic(ids) && r[|Synthetic(ids)|..] == AsBlocks(m);
  }

  lemma {:induction false} PreservesFrom(ms: seq<Msg>, rest: seq<Msg>, rs: seq<Msg>)
    requires |ms| == |rest| && Preserves(rest, rs)
    requires ms != [] ==> Carries(ms[0], rest[0]) && ms[1..] == rest[1..]
    requires rs != [] ==> Head(rs) == Head(rest)
    requires ms != [] && ms[0] != rest[0] ==> Preserves(rest[1..], rs[1..])
    ensures Preserves(ms, rs)
  {
    if ms != [] && ms[0] == rest[0] {
      assert ms == rest;
    }
  }

  /** The first round's answers are carried, if the rest is. */
  lemma RestPreserves(ms: seq<Msg>, tail: seq<Msg>)
    requires ms != [] && Preserves(Amended(ms), tail)
    requires tail != [] ==> Head(tail) == Head(Amended(ms))
    requires Amended(ms) != [] && tail != [] ==> Preserves(Amended(ms)[1..], tail[1..])
    requires Amended(ms) != [] ==> tail != []
    ensures Preserves(ms[1..], tail)
  {
    hide Missing, Prepended, Carries, MadeUp, Preserves, Synthetic;
    var rest, missing := Amended(ms), Missing(ms[0], Head(ms[1..]));
    if missing != [] && |ms| > 1 && ms[1].role == User {
      PrependedCarries(missing, ms[1]);
      assert rest[0] == Prepended(missing, ms[1]) && ms[1..][1..] == rest[1..];
      PreservesFrom(ms[1..], rest, tail);
    } else {
      assert rest == ms[1..];
    }
  }

  lemma InsertedPreserves(ms: seq<Msg>, tail: seq<Msg>)
    requires ms != [] && Preserves(ms[1..], tail)
    ensures
      var out := [ms[0]] + Inserted(ms) + tail;
      Preserves(ms, out) && Preserves(ms[1..], out[1..])
  {
    hide Missing, Synthetic;
    var out := [ms[0]] + Inserted(ms) + tail;
    if Inserted(ms) == [] {
      assert out[1..] == tail;
    } else {
      assert MadeUp(Inserted(ms)[0]);
      assert out[1..][0] == Inserted(ms)[0] && out[1..][1..] == tail;
    }
  }

  /** The repair is conservative: all messages survive, in order, with their old content. */
  lemma {:induction false} RepairPreserves(ms: seq<Msg>)
    ensures Preserves(ms, Repaired(ms))
    ensures ms != [] ==> Preserves(ms[1..], Repaired(ms)[1..])
    ensures Head(Repaired(ms)) == Head(ms)
    decreases |ms|
  {
    hide Preserves, Inserted, Amended;
    if ms == [] {
      NothingPreserved();
    } else {
      RepairPreserves(Amended(ms));
      RestPreserves(ms, Repaired(Amended(ms)));
      InsertedPreserves(ms, Repaired(Amended(ms)));
    }
  }

  lemma NothingPreserved()
    ensures Preserves([], [])
  {
  }

  // ---- No new orphans ----

  lemma MissingAreCalls(m: Msg, next: Option<Msg>)
    ensures forall id :: id in Missing(m, next) ==> id in Uses(m)
  {
    forall id
      ensures id in Missing(m, next) ==> id in Uses(m)
    {
      UnansweredMember(Uses(m), next, id);
    }
  }

  /** After the head the walk goes on with a history in which still nothing is orphaned. */
  lemma AmendedIsJustified(calls: seq<string>, ms: seq<Msg>)
    requires ms != [] && NoOrphans(calls, ms)
    ensures Inserted(ms) == [] ==> NoOrphans(Uses(ms[0]), Amended(ms))
    ensures Inserted(ms) != [] ==>
      && Inserted(ms) == [Inserted(ms)[0]] && Justified(Uses(ms[0]), Inserted(ms)[0])
      && NoOrphans(Uses(Inserted(ms)[0]), Amended(ms))
  {
    var missing := Missing(ms[0], Head(ms[1..]));
    MissingAreCalls(ms[0], Head(ms[1..]));
    SyntheticResults(missing);
    if missing != [] && |ms| > 1 && ms[1].role == User {
      PrependedResults(missing, ms[1]);
      assert Amended(ms)[1..] == ms[1..][1..];
      assert Uses(ms[1]) == Uses(Amended(ms)[0]) == [];
    }
  }

  /** The repair adds no orphan. */
  lemma {:induction false} RepairKeepsJustified(calls: seq<string>, ms: seq<Msg>)
    requires NoOrphans(calls, ms)
    ensures NoOrphans(calls, Repaired(ms))
    decreases |ms|
  {
    hide Inserted, Amended, Justified, Uses;
    if ms != [] {
      AmendedIsJustified(calls, ms);
      var out, rest := Repaired(ms), Repaired(Amended(ms));
      if Inserted(ms) == [] {
        RepairKeepsJustified(Uses(ms[0]), Amended(ms));
        assert out[1..] == rest;
      } else {
        var reply := Inserted(ms)[0];
        RepairKeepsJustified(Uses(reply), Amended(ms));
        assert out[1..] == [reply] + rest && out[1..][1..] == rest;
      }
    }
  }

  /** The repair keeps results first in every message. */
  lemma {:induction false} RepairKeepsResultsFirst(ms: seq<Msg>)
    requires AllResultsFirst(ms)
    ensures AllResultsFirst(Repaired(ms))
    decreases |ms|
  {
    hide Inserted, Amended;
    if ms != [] {
      AmendedResultsFirst(ms);
      RepairKeepsResultsFirst(Amended(ms));
    }
  }

  lemma AmendedResultsFirst(ms: seq<Msg>)
    requires ms != [] && AllResultsFirst(ms)
    ensures AllResultsFirst(Amended(ms)) && AllResultsFirst(Inserted(ms))
  {
    hide ResultsFirst;
    var missing := Missing(ms[0], Head(ms[1..]));
    SyntheticResultsFirst(missing);
    if |ms| > 1 {
      PrependedResultsFirst(missing, ms[1]);
    }
  }

  lemma SyntheticResultsFirst(ids: seq<string>)
    ensures ResultsFirst(Msg(User, Content.Blocks(Synthetic(ids))))
  {
    SyntheticResults(ids);
  }

  /** From a history without orphans the repair makes a fully paired one. */
  lemma {:induction false} RepairPairs(ms: seq<Msg>)
    requires NoOrphans([], ms) && AllResultsFirst(ms)
    ensures Paired(Repaired(ms)) && AllResultsFirst(Repaired(ms))
  {
    RepairAnswersAll(ms);
    RepairKeepsJustified([], ms);
    RepairKeepsResultsFirst(ms);
  }

  // ---- Exactly what is put in ----

  /** `part` picks the elements of `all` at the positions `at`, in order. */
  predicate Picks(part: seq<string>, all: seq<string>, at: seq<nat>) {
    && |part| == |at|
    && (forall k :: 0 <= k < |at| ==> at[k] < |all| && part[k] == all[at[k]])
    && (forall j, k :: 0 <= j < k < |at| ==> at[j] < at[k])
  }

  /** The calls at the positions `at`, and no others, still need a result. */
  predicate AreOpen(ids: seq<string>, next: Option<Msg>, at: seq<nat>) {
    forall k: nat :: k < |ids| ==> (k in at <==> ids[k] != "" && !Covers(next, ids[k]))
  }

  /**
   * What is missing is every open call, once for each time it is made, in call order, and
   * nothing else.
   */
  lemma {:induction false} MissingIsExact(ids: seq<string>, next: Option<Msg>) returns (at: seq<nat>)
    ensures Picks(Unanswered(ids, next), ids, at) && AreOpen(ids, next, at)
    decreases |ids|
  {
    if ids == [] {
      at := [];
    } else {
      var front, last := ids[..|ids| - 1], ids[|ids| - 1];
      at := MissingIsExact(front, next);
      UnansweredAppend(front, last, next);
      assert ids == front + [last];
      if last != "" && !Covers(next, last) {
        PicksOneMore(Unanswered(front, next), front, last, next, at);
        at := at + [|front|];
      } else {
        PicksNoMore(Unanswered(front, next), front, last, next, at);
      }
    }
  }

  lemma {:induction false} UnansweredAppend(ids: seq<string>, last: string, next: Option<Msg>)
    ensures Unanswered(ids + [last], next)
         == Unanswered(ids, next) + (if last != "" && !Covers(next, last) then [last] else [])
    decreases |ids|
  {
    hide Covers;
    if ids == [] {
      assert ids + [last] == [last];
      assert Unanswered([last][1..], next) == [];
    } else {
      assert (ids + [last])[0] == ids[0] && (ids + [last])[1..] == ids[1..] + [last];
      UnansweredAppend(ids[1..], last, next);
    }
  }

  lemma PicksOneMore(part: seq<string>, all: seq<string>, last: string, next: Option<Msg>, at: seq<nat>)
    requires Picks(part, all, at) && AreOpen(all, next, at) && last != "" && !Covers(next, last)
    ensures Picks(part + [last], all + [last], at + [|all|]) && AreOpen(all + [last], next, at + [|all|])
  {
    hide Covers;
    forall k: nat | k < |all + [last]|
      ensures k in at + [|all|] <==> (all + [last])[k] != "" && !Covers(next, (all + [last])[k])
    {
      if k < |all| {
        assert (all + [last])[k] == all[k] && (k in at + [|all|] <==> k in at);
      }
    }
  }

  lemma PicksNoMore(part: seq<string>, all: seq<string>, last: string, next: Option<Msg>, at: seq<nat>)
    requires Picks(part, all, at) && AreOpen(all, next, at) && !(last != "" && !Covers(next, last))
    ensures Picks(part + [], all + [last], at) && AreOpen(all + [last], next, at)
  {
    hide Covers;
    assert part + [] == part;
    forall k: nat | k < |all + [last]|
      ensures k in at <==> (all + [last])[k] != "" && !Covers(next, (all + [last])[k])
    {
      if k < |all| {
        assert (all + [last])[k] == all[k];
      } else {
        assert forall j :: 0 <= j < |at| ==> at[j] < |all|;
      }
    }
  }

  predicate NoneTwice(ids: seq<string>) {
    forall i, j :: 0 <= i < j < |ids| ==> ids[i] != ids[j]
  }

  /**
   * Where no call is made twice and no result given twice, the results put in do not change
   * that, in a message that was there as in one made up.
   */
  lemma RepairAddsNoDuplicate(m: Msg, next: Msg)
    requires NoneTwice(Uses(m)) && NoneTwice(Results(next)) && next.role == User
    ensures NoneTwice(Results(Prepended(Missing(m, Some(next)), next)))
    ensures NoneTwice(Missing(m, None)) && NoneTwice(ResultsIn(Synthetic(Missing(m, None))))
  {
    hide Unanswered;
    var missing := Missing(m, Some(next));
    var at := MissingIsExact(Uses(m), Some(next));
    PickedOnce(missing, Uses(m), at);
    PrependedResults(missing, next);
    forall id | id in missing
      ensures id !in Results(next)
    {
      UnansweredMember(Uses(m), Some(next), id);
    }
    JoinedOnce(missing, Results(next));
    var alone := MissingIsExact(Uses(m), None);
    PickedOnce(Missing(m, None), Uses(m), alone);
    SyntheticResults(Missing(m, None));
  }

  lemma PickedOnce(part: seq<string>, all: seq<string>, at: seq<nat>)
    requires Picks(part, all, at) && NoneTwice(all)
    ensures NoneTwice(part)
  {
  }

  lemma JoinedOnce(a: seq<string>, b: seq<string>)
    requires NoneTwice(a) && NoneTwice(b) && forall id :: id in a ==> id !in b
    ensures NoneTwice(a + b)
  {
    assert forall i :: 0 <= i < |a| ==> a[i] in a;
  }

  // ---- The whole repair, message by message ----

  /** The open calls of message `i`, seen against the message after it. */
  function OpenAt(ms: seq<Msg>, i: nat): seq<string>
    requires i < |ms|
  {
    Missing(ms[i], if i + 1 < |ms| then Some(ms[i + 1]) else None)
  }

  /**
   * What the repair makes of message `i`: if it is the user's, error results for the open calls
   * of the message before it come first; if its own calls are open and no user message follows,
   * a message of error results for them comes after it.
   */
  function Mended(ms: seq<Msg>, i: nat): seq<Msg>
    requires i < |ms|
  {
    var before := if i == 0 then [] else OpenAt(ms, i - 1);
    var carried := if before != [] && ms[i].role == User then Prepended(before, ms[i]) else ms[i];
    var answered := OpenAt(ms, i) == [] || (i + 1 < |ms| && ms[i + 1].role == User);
    [carried] + (if answered then [] else [Msg(User, Content.Blocks(Synthetic(OpenAt(ms, i))))])
  }

  function MendedFrom(ms: seq<Msg>, i: nat): seq<Msg>
    requires i <= |ms|
    decreases |ms| - i
  {
    if i == |ms| then [] else Mended(ms, i) + MendedFrom(ms, i + 1)
  }

  /** What the walk has before it when it comes to message `i`. */
  function WalkAt(ms: seq<Msg>, i: nat): seq<Msg>
    requires i < |ms|
  {
    [Mended(ms, i)[0]] + ms[i + 1..]
  }

  /** The walk's rewriting of messages it has not yet looked at never changes what it does. */
  lemma WalkMends(ms: seq<Msg>, i: nat)
    requires i < |ms|
    ensures [WalkAt(ms, i)[0]] + Inserted(WalkAt(ms, i)) == Mended(ms, i)
    ensures Amended(WalkAt(ms, i)) == if i + 1 < |ms| then WalkAt(ms, i + 1) else []
  {
    hide Unanswered, Synthetic;
    var walk := WalkAt(ms, i);
    assert walk[1..] == ms[i + 1..];
    assert Uses(walk[0]) == Uses(ms[i]);
    if i + 1 < |ms| {
      assert ms[i + 1..][0] == ms[i + 1] && walk[2..] == ms[i + 2..];
    }
  }

  lemma {:induction false} RepairIsMendingFrom(ms: seq<Msg>, i: nat)
    requires i < |ms|
    ensures Repaired(WalkAt(ms, i)) == MendedFrom(ms, i)
    decreases |ms| - i
  {
    hide Mended, Inserted, Amended, WalkAt;
    WalkStarts(ms, i);
    WalkMends(ms, i);
    if i + 1 < |ms| {
      RepairIsMendingFrom(ms, i + 1);
    }
  }

  lemma WalkStarts(ms: seq<Msg>, i: nat)
    requires i < |ms|
    ensures WalkAt(ms, i) != []
  {
  }

  /**
   * The repair in place, which looks at messages it may have rewritten, gives what mending each
   * message of the original history on its own gives.
   */
  lemma RepairIsMending(ms: seq<Msg>)
    ensures Repaired(ms) == MendedFrom(ms, 0)
  {
    hide Repaired;
    if ms == [] {
      NothingToRepair();
    } else {
      assert WalkAt(ms, 0) == ms;
      RepairIsMendingFrom(ms, 0);
    }
  }

  lemma NothingToRepair()
    ensures Repaired([]) == []
  {
  }
}
