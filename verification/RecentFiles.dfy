/** The bounded list of recently touched files that handlers/agent_handler.py keeps. */
module RecentFiles {

  const LIMIT: nat := 50

  function Without(files: seq<string>, f: string): seq<string>
    decreases |files|
  {
    if files == [] then [] else if files[0] == f then files[1..] else [files[0]] + Without(files[1..], f)
  }

  function LastOf(files: seq<string>, n: nat): (r: seq<string>)
    ensures |r| <= n
  {
    if |files| > n then files[|files| - n..] else files
  }

  /** A touched file moves to the end; the list keeps its last fifty entries. */
  function Touched(files: seq<string>, f: string): seq<string> {
    LastOf(Without(files, f) + [f], LIMIT)
  }

  class Recent {
    var activeFiles: seq<string>

    constructor ()
      ensures activeFiles == []
    {
      activeFiles := [];
    }

    method Touch(f: string)
      modifies this
      ensures activeFiles == Touched(old(activeFiles), f)
    {
      var files := activeFiles;
      if f in files {
        files := Without(files, f);
      } else {
        NothingToRemove(files, f);
      }
      files := files + [f];
      if |files| > LIMIT {
        files := files[|files| - LIMIT..];
      }
      activeFiles := files;
    }
  }

  lemma {:induction false} NothingToRemove(files: seq<string>, f: string)
    requires f !in files
    ensures Without(files, f) == files
    decreases |files|
  {
    if files != [] {
      NothingToRemove(files[1..], f);
    }
  }

  function TouchedAll(files: seq<string>, touches: seq<string>): seq<string>
    decreases |touches|
  {
    if touches == [] then files else TouchedAll(Touched(files, touches[0]), touches[1..])
  }

  /**
   * The unbounded order, read off the whole history: each file once, at its last touch.
   */
  function ByLastTouch(touches: seq<string>): seq<string>
    decreases |touches|
  {
    if touches == [] then []
    else (if touches[0] in touches[1..] then [] else [touches[0]]) + ByLastTouch(touches[1..])
  }

  predicate NoDuplicates(files: seq<string>) {
    forall i, j :: 0 <= i < j < |files| ==> files[i] != files[j]
  }

  lemma {:induction false} ByLastTouchSpec(touches: seq<string>)
    ensures NoDuplicates(ByLastTouch(touches))
    ensures forall f :: f in ByLastTouch(touches) <==> f in touches
    decreases |touches|
  {
    if touches != [] {
      ByLastTouchSpec(touches[1..]);
    }
  }

  /** One more touch moves its file to the end of the history's order. */
  lemma {:induction false} ByLastTouchAppend(touches: seq<string>, f: string)
    ensures ByLastTouch(touches + [f]) == Without(ByLastTouch(touches), f) + [f]
    decreases |touches|
  {
    if touches == [] {
      assert touches + [f] == [f];
    } else {
      var rest := touches[1..];
      assert (touches + [f])[0] == touches[0] && (touches + [f])[1..] == rest + [f];
      ByLastTouchAppend(rest, f);
      ByLastTouchSpec(rest);
      MoveToEnd(touches[0], ByLastTouch(rest), f, touches[0] in rest);
    }
  }

  /** Putting `x` before an order without it, or not, and then moving `f` to the end. */
  lemma MoveToEnd(x: string, order: seq<string>, f: string, known: bool)
    requires known <==> x in order
    ensures
      (if known || x == f then [] else [x]) + (Without(order, f) + [f])
      == Without((if known then [] else [x]) + order, f) + [f]
  {
    if known {
      assert [] + order == order;
    } else {
      assert ([x] + order)[1..] == order;
      if x == f {
        NothingToRemove(order, f);
      } else {
        assert Without([x] + order, f) == [x] + Without(order, f);
        assert [x] + (Without(order, f) + [f]) == [x] + Without(order, f) + [f];
      }
    }
  }

  lemma {:induction false} WithoutShape(files: seq<string>, f: string)
    ensures |files| - 1 <= |Without(files, f)| <= |files|
    ensures f !in files ==> Without(files, f) == files
    decreases |files|
  {
    if files != [] && files[0] != f {
      WithoutShape(files[1..], f);
    }
  }

  lemma {:induction false} WithoutConcat(a: seq<string>, b: seq<string>, f: string)
    ensures Without(a + b, f) == if f in a then Without(a, f) + b else a + Without(b, f)
    decreases |a|
  {
    if a == [] {
      assert a + b == b;
    } else {
      assert (a + b)[0] == a[0] && (a + b)[1..] == a[1..] + b;
      WithoutConcat(a[1..], b, f);
      if a[0] != f {
        assert f in a <==> f in a[1..];
        HeadFirst(a, Without(a[1..], f), b);
        HeadFirst(a, a[1..], Without(b, f));
      }
    }
  }

  lemma HeadFirst(a: seq<string>, b: seq<string>, c: seq<string>)
    requires a != []
    ensures [a[0]] + (b + c) == [a[0]] + b + c && [a[0]] + a[1..] == a
  {
  }

  /** Cutting before a touch never changes what is left after it. */
  lemma CutTouch(files: seq<string>, f: string)
    requires NoDuplicates(files)
    ensures Touched(LastOf(files, LIMIT), f) == LastOf(Without(files, f) + [f], LIMIT)
  {
    if |files| > LIMIT {
      var a, b := files[..|files| - LIMIT], files[|files| - LIMIT..];
      assert files == a + b;
      WithoutConcat(a, b, f);
      if f in a {
        assert f !in b;
        NothingToRemove(b, f);
        LastOfLonger(Without(a, f), b, f);
      } else {
        CutKeepsTail(a, b, f);
      }
    }
  }

  lemma LastOfLonger(head: seq<string>, b: seq<string>, f: string)
    requires |b| == LIMIT
    ensures LastOf(b + [f], LIMIT) == LastOf(head + b + [f], LIMIT)
  {
    var all := head + b + [f];
    assert all[|all| - LIMIT..] == b[1..] + [f];
  }

  lemma CutKeepsTail(a: seq<string>, b: seq<string>, f: string)
    requires |b| == LIMIT && a != []
    ensures LastOf(Without(b, f) + [f], LIMIT) == LastOf(a + Without(b, f) + [f], LIMIT)
  {
    var rest := Without(b, f) + [f];
    WithoutShape(b, f);
    var all := a + Without(b, f) + [f];
    assert all == a + rest;
  }

  /**
   * After any touches the bounded list is the last fifty of the unbounded order, so cutting it
   * at every step loses nothing that a later step would show.
   */
  lemma {:induction false} BoundedIsSuffix(before: seq<string>, touches: seq<string>)
    ensures TouchedAll(LastOf(ByLastTouch(before), LIMIT), touches)
         == LastOf(ByLastTouch(before + touches), LIMIT)
    decreases |touches|
  {
    if touches == [] {
      assert before + touches == before;
    } else {
      ByLastTouchSpec(before);
      ByLastTouchAppend(before, touches[0]);
      CutTouch(ByLastTouch(before), touches[0]);
      assert before + touches == before + [touches[0]] + touches[1..];
      BoundedIsSuffix(before + [touches[0]], touches[1..]);
    }
  }

  lemma RecentFilesAreExact(touches: seq<string>)
    ensures TouchedAll([], touches) == LastOf(ByLastTouch(touches), LIMIT)
    ensures NoDuplicates(TouchedAll([], touches))
  {
    BoundedIsSuffix([], touches);
    assert [] + touches == touches;
    ByLastTouchSpec(touches);
  }

  /** `i` is the last time `f` was touched. */
  predicate LastAt(touches: seq<string>, f: string, i: nat) {
    i < |touches| && touches[i] == f && f !in touches[i + 1..]
  }

  /** Of two files the one touched last later comes later. */
  lemma {:induction false} OrderedByLastTouch(touches: seq<string>, i: nat, j: nat) returns (a: nat, b: nat)
    requires i < j < |ByLastTouch(touches)|
    ensures LastAt(touches, ByLastTouch(touches)[i], a) && LastAt(touches, ByLastTouch(touches)[j], b) && a < b
    decreases |touches|
  {
    hide LastAt;
    var rest, order := touches[1..], ByLastTouch(touches[1..]);
    if touches[0] in rest {
      assert ByLastTouch(touches) == order;
      a, b := OrderedByLastTouch(rest, i, j);
      LastLater(touches, order[i], a);
      LastLater(touches, order[j], b);
      a, b := a + 1, b + 1;
    } else {
      assert ByLastTouch(touches)[1..] == order && ByLastTouch(touches)[j] == order[j - 1];
      if i == 0 {
        assert order[j - 1] in order;
        ByLastTouchSpec(rest);
        b := LastOfTouched(rest, order[j - 1]);
        LastLater(touches, order[j - 1], b);
        FirstIsLast(touches);
        a, b := 0, b + 1;
      } else {
        assert ByLastTouch(touches)[i] == order[i - 1];
        a, b := OrderedByLastTouch(rest, i - 1, j - 1);
        LastLater(touches, order[i - 1], a);
        LastLater(touches, order[j - 1], b);
        a, b := a + 1, b + 1;
      }
    }
  }

  lemma FirstIsLast(touches: seq<string>)
    requires touches != [] && touches[0] !in touches[1..]
    ensures LastAt(touches, touches[0], 0)
  {
  }

  lemma LastLater(touches: seq<string>, f: string, i: nat)
    requires touches != [] && LastAt(touches[1..], f, i)
    ensures LastAt(touches, f, i + 1)
  {
    assert touches[1..][i + 1..] == touches[i + 2..];
  }

  lemma {:induction false} LastOfTouched(touches: seq<string>, f: string) returns (i: nat)
    requires f in touches
    ensures LastAt(touches, f, i)
    decreases |touches|
  {
    if f in touches[1..] {
      i := LastOfTouched(touches[1..], f);
      LastLater(touches, f, i);
      i := i + 1;
    } else {
      i := 0;
    }
  }

  /** The list is never longer than fifty, and holds all touched files while they are no more. */
  lemma FiftyAreKept(touches: seq<string>)
    ensures |TouchedAll([], touches)| == if |ByLastTouch(touches)| <= 50 then |ByLastTouch(touches)| else 50
  {
    RecentFilesAreExact(touches);
  }
}
