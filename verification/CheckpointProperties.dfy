/** Exact undo: what reverting guarantees over whole runs of a session. */
module CheckpointProperties {
  import opened Options
  import opened Checkpoints

  // ---- Text mode ----

  lemma {:induction false} AsReadHasNoReturn(text: string)
    ensures '\r' !in AsRead(text)
    decreases |text|
  {
    if text != "" {
      AsReadHasNoReturn(if text[0] == '\r' && |text| > 1 && text[1] == '\n' then text[2..] else text[1..]);
    }
  }

  /** Reading changes exactly the texts that hold a carriage return. */
  lemma {:induction false} AsReadKeepsIff(text: string)
    ensures AsRead(text) == text <==> '\r' !in text
    decreases |text|
  {
    if text != "" && text[0] != '\r' {
      AsReadKeepsIff(text[1..]);
      assert text == [text[0]] + text[1..];
      assert AsRead(text)[1..] == AsRead(text[1..]);
    } else if text != "" {
      AsReadHasNoReturn(text);
      assert text[0] in text;
    }
  }

  lemma AsReadTwice(text: string)
    ensures AsRead(AsRead(text)) == AsRead(text)
  {
    AsReadHasNoReturn(text);
    AsReadKeepsIff(AsRead(text));
  }

  // ---- Reading through the log ----

  /** The first entry for `path` at or after `turn`. */
  function FirstFor(log: seq<Entry>, path: Path, turn: int): Option<Entry>
    decreases |log|
  {
    if log == [] then None
    else if log[0].path == path && log[0].turn >= turn then Some(log[0])
    else FirstFor(log[1..], path, turn)
  }

  /** What a revert to `turn` makes of `path`. */
  function UndoneRead(log: seq<Entry>, files: Files, path: Path, turn: int): Option<string> {
    match FirstFor(log, path, turn)
    case Some(e) => e.content
    case None => Read(files, path)
  }

  ghost predicate SameFiles(a: Files, b: Files) {
    forall path :: Read(a, path) == Read(b, path)
  }

  lemma SameFilesAreEqual(a: Files, b: Files)
    requires SameFiles(a, b)
    ensures a == b
  {
    forall path
      ensures path in a <==> path in b
      ensures path in a ==> a[path] == b[path]
    {
      assert Read(a, path) == Read(b, path);
    }
  }

  lemma {:induction false} RestoringReads(log: seq<Entry>, files: Files, turn: int, seen: set<Path>, path: Path)
    ensures Read(RestoredAll(files, Firsts(log, turn, seen)), path)
         == if path in seen then Read(files, path) else UndoneRead(log, files, path, turn)
    decreases |log|
  {
    if log != [] {
      var e := log[0];
      if e.turn >= turn && e.path !in seen {
        var es := Firsts(log, turn, seen);
        assert es[0] == e && es[1..] == Firsts(log[1..], turn, seen + {e.path});
        RestoringReads(log[1..], Restored(files, e), turn, seen + {e.path}, path);
      } else {
        RestoringReads(log[1..], files, turn, seen, path);
      }
    }
  }

  /** Turn numbers never fall along the log, and lie in [low, high]. */
  predicate Sorted(log: seq<Entry>, low: int, high: int)
    decreases |log|
  {
    log == [] || (low <= log[0].turn <= high && Sorted(log[1..], log[0].turn, high))
  }

  lemma {:induction false} FirstForAppend(log: seq<Entry>, e: Entry, path: Path, turn: int)
    ensures FirstFor(log + [e], path, turn)
         == if FirstFor(log, path, turn).Some? then FirstFor(log, path, turn) else FirstFor([e], path, turn)
    decreases |log|
  {
    if log == [] {
      assert log + [e] == [e];
    } else {
      assert (log + [e])[1..] == log[1..] + [e];
      FirstForAppend(log[1..], e, path, turn);
    }
  }

  lemma {:induction false} SortedAppend(log: seq<Entry>, e: Entry, low: int, high: int)
    requires Sorted(log, low, high) && low <= high <= e.turn
    ensures Sorted(log + [e], low, e.turn)
    decreases |log|
  {
    if log == [] {
      assert log + [e] == [e];
    } else {
      assert (log + [e])[1..] == log[1..] + [e];
      SortedAppend(log[1..], e, log[0].turn, high);
    }
  }

  lemma {:induction false} SortedWiden(log: seq<Entry>, low: int, high: int, low': int, high': int)
    requires Sorted(log, low, high) && low' <= low && high <= high'
    ensures Sorted(log, low', high')
    decreases |log|
  {
    if log != [] {
      SortedWiden(log[1..], log[0].turn, high, log[0].turn, high');
    }
  }

  lemma {:induction false} NothingBefore(log: seq<Entry>, low: int, high: int, turn: int)
    requires Sorted(log, low, high) && turn <= low
    ensures Before(log, turn) == []
    decreases |log|
  {
    if log != [] {
      NothingBefore(log[1..], log[0].turn, high, turn);
    }
  }

  lemma {:induction false} NothingSince(log: seq<Entry>, low: int, high: int, path: Path, turn: int)
    requires Sorted(log, low, high) && high < turn
    ensures FirstFor(log, path, turn) == None && Before(log, turn) == log && Firsts(log, turn, {}) == []
    decreases |log|
  {
    if log != [] {
      NothingSince(log[1..], log[0].turn, high, path, turn);
    }
  }

  /** Cutting a log at `cut` splits each path's first entry from its later ones. */
  lemma {:induction false} FirstForBefore(log: seq<Entry>, low: int, high: int, path: Path, turn: int, cut: int)
    requires Sorted(log, low, high) && turn <= cut
    ensures
      match FirstFor(log, path, turn)
      case None => FirstFor(Before(log, cut), path, turn) == None && FirstFor(log, path, cut) == None
      case Some(e) =>
        if e.turn < cut then FirstFor(Before(log, cut), path, turn) == Some(e)
        else FirstFor(Before(log, cut), path, turn) == None && FirstFor(log, path, cut) == Some(e)
    decreases |log|
  {
    if log != [] {
      FirstForBefore(log[1..], log[0].turn, high, path, turn, cut);
      if log[0].turn >= cut {
        NothingBefore(log, log[0].turn, high, cut);
      } else {
        var rest := Before(log[1..], cut);
        assert ([log[0]] + rest)[1..] == rest;
      }
    }
  }

  lemma {:induction false} SortedBefore(log: seq<Entry>, low: int, high: int, cut: int)
    requires Sorted(log, low, high)
    ensures Sorted(Before(log, cut), low, high)
    decreases |log|
  {
    if log != [] {
      SortedBefore(log[1..], log[0].turn, high, cut);
      var rest := Before(log[1..], cut);
      if log[0].turn < cut {
        assert ([log[0]] + rest)[1..] == rest;
      } else {
        SortedWiden(rest, log[0].turn, high, low, high);
        assert [] + rest == rest;
      }
    }
  }

  lemma {:induction false} BeforeBefore(log: seq<Entry>, a: int, b: int)
    requires b <= a
    ensures Before(Before(log, a), b) == Before(log, b)
    decreases |log|
  {
    if log != [] {
      BeforeBefore(log[1..], a, b);
      var rest := Before(log[1..], a);
      assert ([log[0]] + rest)[1..] == rest && [] + rest == rest;
    }
  }

  lemma {:induction false} BeforeShrinks(log: seq<Entry>, cut: int)
    ensures |Before(log, cut)| <= |log|
    ensures (exists i :: 0 <= i < |log| && log[i].turn >= cut) ==> |Before(log, cut)| < |log|
    decreases |log|
  {
    if log != [] {
      BeforeShrinks(log[1..], cut);
      if log[0].turn < cut && exists i :: 0 <= i < |log| && log[i].turn >= cut {
        var i :| 0 <= i < |log| && log[i].turn >= cut;
        assert log[1..][i - 1].turn >= cut;
      }
    }
  }

  lemma {:induction false} LastTurnIsThere(log: seq<Entry>, low: int, high: int)
    requires Sorted(log, low, high) && log != []
    ensures low <= LastTurn(log) <= high
    ensures exists i :: 0 <= i < |log| && log[i].turn == LastTurn(log)
    decreases |log|
  {
    if |log| > 1 {
      LastTurnIsThere(log[1..], log[0].turn, high);
      var i :| 0 <= i < |log[1..]| && log[1..][i].turn == LastTurn(log[1..]);
      assert log[i + 1].turn == LastTurn(log[1..]);
    }
    assert log[0].turn == LastTurn(log) || |log| > 1;
  }

  // ---- Runs ----

  datatype Op =
    | Write(path: Path, content: string)
    | Edit(path: Path, old_: string, new_: string, all: bool)
    | NextTurn
    | RevertTo(turn: int)
    | RevertLast

  function Step(s: State, op: Op): State {
    match op
    case Write(path, content) => Written(s, path, content)
    case Edit(path, old_, new_, all) => Edited(s, path, old_, new_, all)
    case NextTurn => s.(turn := s.turn + 1)
    case RevertTo(turn) => Reverted(s, turn)
    case RevertLast => RevertedLast(s)
  }

  /** The turn whose start an operation goes back to, if it goes back. */
  function Target(s: State, op: Op): Option<nat> {
    match op
    case RevertTo(turn) => if turn > s.turn then None else Some(if turn < 0 then 0 else turn)
    case RevertLast =>
      if s.log == [] then None
      else
        var turn := LastTurn(s.log);
        if turn > s.turn then None else Some(if turn < 0 then 0 else turn)
    case _ => None
  }

  /** The files as a turn began, and the paths that the file tools have opened since. */
  datatype Start = Start(files: Files, touched: set<Path>)

  /** What going back to a start makes of `path`: opened files come back as they read. */
  function Reads(start: Start, path: Path): Option<string> {
    if path in start.touched then ReadText(start.files, path) else Read(start.files, path)
  }

  function Back(start: Start): Files {
    map path | path in start.files :: if path in start.touched then AsRead(start.files[path]) else start.files[path]
  }

  /** The paths that an operation opens for writing, and so logs. */
  function Opens(s: State, op: Op): set<Path> {
    match op
    case Write(path, _) => if path == "" then {} else {path}
    case Edit(path, old_, _, _) => if path == "" || old_ == "" || path !in s.files then {} else {path}
    case _ => {}
  }

  function Touched(starts: seq<Start>, paths: set<Path>): seq<Start> {
    seq(|starts|, i requires 0 <= i < |starts| => starts[i].(touched := starts[i].touched + paths))
  }

  function Restarted(starts: seq<Start>, k: nat, files: Files): seq<Start> {
    seq(|starts|, i requires 0 <= i < |starts| => if i < k then starts[i] else Start(files, {}))
  }

  /** A session with the starts of its turns so far. */
  datatype Run = Run(state: State, starts: seq<Start>)

  /**
   * One operation on the record. A revert to the start of turn k makes the files it leaves the
   * start of turn k and of the turns after it: they have been undone, and the counter stays.
   */
  function Recorded(r: Run, op: Op): Run {
    var s' := Step(r.state, op);
    if op.NextTurn? then Run(s', r.starts + [Start(r.state.files, {})])
    else
      match Target(r.state, op)
      case None => Run(s', Touched(r.starts, Opens(r.state, op)))
      case Some(k) => Run(s', Restarted(r.starts, k, s'.files))
  }

  const START_TURN: nat := 0

  function Fresh(files: Files): Run {
    Run(State([], START_TURN, files), [Start(files, {})])
  }

  function After(r: Run, ops: seq<Op>): Run
    decreases |ops|
  {
    if ops == [] then r else After(Recorded(r, ops[0]), ops[1..])
  }

  ghost predicate Inv(r: Run) {
    && |r.starts| == r.state.turn + 1
    && Sorted(r.state.log, 0, r.state.turn)
    && (forall turn, path :: 0 <= turn < |r.starts| ==>
          UndoneRead(r.state.log, r.state.files, path, turn) == Reads(r.starts[turn], path))
    && (forall turn, path :: 0 <= turn < |r.starts| && FirstFor(r.state.log, path, turn).Some? ==>
          path in r.starts[turn].touched)
  }

  lemma BackReads(start: Start, path: Path)
    ensures Read(Back(start), path) == Reads(start, path)
  {
  }

  /** Opening a file changes what going back makes of it as reading does. */
  lemma OpeningReads(start: Start, path: Path, other: Path)
    ensures
      var start' := start.(touched := start.touched + {path});
      && (other != path ==> Reads(start', other) == Reads(start, other))
      && (Reads(start, path).None? ==> Reads(start', path) == None)
      && (Reads(start, path).Some? ==> Reads(start', path) == Some(AsRead(Reads(start, path).value)))
      && (path in start.touched ==> Reads(start', path) == Reads(start, path))
  {
    if path in start.files {
      AsReadTwice(start.files[path]);
    }
  }

  lemma SnapshotKeepsInv(r: Run, path: Path)
    requires Inv(r)
    ensures Inv(Run(Snapshot(r.state, path), Touched(r.starts, {path})))
    ensures forall turn :: turn <= r.state.turn ==> FirstFor(Snapshot(r.state, path).log, path, turn).Some?
  {
    var s, starts := r.state, Touched(r.starts, {path});
    if HasEntry(s.log, path, s.turn) {
      forall turn | turn <= s.turn
        ensures FirstFor(s.log, path, turn).Some?
      {
        EntryIsFound(s.log, path, s.turn, turn);
      }
      forall turn, p | 0 <= turn < |starts|
        ensures Reads(starts[turn], p) == Reads(r.starts[turn], p)
      {
        OpeningReads(r.starts[turn], path, p);
      }
    } else {
      NewEntryKeepsInv(r, path);
    }
  }

  lemma NewEntryKeepsInv(r: Run, path: Path)
    requires Inv(r)
    ensures
      var s := r.state;
      var log := s.log + [Entry(path, s.turn, ReadText(s.files, path))];
      && Inv(Run(s.(log := log), Touched(r.starts, {path})))
      && forall turn :: turn <= s.turn ==> FirstFor(log, path, turn).Some?
  {
    hide Reads;
    var s, starts := r.state, Touched(r.starts, {path});
    var e := Entry(path, s.turn, ReadText(s.files, path));
    var log := s.log + [e];
    SortedAppend(s.log, e, 0, s.turn);
    forall turn | turn <= s.turn
      ensures FirstFor(log, path, turn).Some?
    {
      FirstForAppend(s.log, e, path, turn);
    }
    forall turn, p | 0 <= turn < |starts|
      ensures UndoneRead(log, s.files, p, turn) == Reads(starts[turn], p)
      ensures FirstFor(log, p, turn).Some? ==> p in starts[turn].touched
    {
      FirstForAppend(s.log, e, p, turn);
      OpeningReads(r.starts[turn], path, p);
      assert UndoneRead(s.log, s.files, p, turn) == Reads(r.starts[turn], p);
    }
  }

  lemma {:induction false} EntryIsFound(log: seq<Entry>, path: Path, at: int, turn: int)
    requires HasEntry(log, path, at) && turn <= at
    ensures FirstFor(log, path, turn).Some?
    decreases |log|
  {
    var i :| 0 <= i < |log| && log[i].path == path && log[i].turn == at;
    if i > 0 {
      assert log[1..][i - 1] == log[i];
      EntryIsFound(log[1..], path, at, turn);
    }
  }

  /** A change to a file with an entry at the current turn is invisible through the log. */
  lemma WriteKeepsInv(r: Run, path: Path, content: string)
    requires Inv(r)
    requires forall turn :: turn <= r.state.turn ==> FirstFor(r.state.log, path, turn).Some?
    ensures Inv(r.(state := r.state.(files := r.state.files[path := content])))
  {
  }

  lemma RevertKeepsInv(r: Run, cut: int)
    requires Inv(r) && cut <= r.state.turn
    ensures
      var k := if cut < 0 then 0 else cut;
      && Reverted(r.state, cut).files == Back(r.starts[k])
      && Inv(Run(Reverted(r.state, cut), Restarted(r.starts, k, Reverted(r.state, cut).files)))
  {
    hide Reads, Back;
    var s, k := r.state, if cut < 0 then 0 else cut;
    var s' := Reverted(s, cut);
    var starts := Restarted(r.starts, k, s'.files);
    NegativeCut(s.log, s.turn, cut);
    forall path
      ensures Read(s'.files, path) == UndoneRead(s.log, s.files, path, k)
      ensures Read(s'.files, path) == Read(Back(r.starts[k]), path)
    {
      RestoringReads(s.log, s.files, cut, {}, path);
      NegativeFirst(s.log, s.turn, path, cut);
      BackReads(r.starts[k], path);
    }
    SameFilesAreEqual(s'.files, Back(r.starts[k]));
    SortedBefore(s.log, 0, s.turn, cut);
    forall turn, path | 0 <= turn < |starts|
      ensures UndoneRead(s'.log, s'.files, path, turn) == Reads(starts[turn], path)
      ensures FirstFor(s'.log, path, turn).Some? ==> path in starts[turn].touched
    {
      if turn < k {
        FirstForBefore(s.log, 0, s.turn, path, turn, k);
        assert UndoneRead(s.log, s.files, path, turn) == Reads(r.starts[turn], path);
      } else {
        NothingLeftSince(s.log, 0, s.turn, path, k, turn);
        NothingOpened(s'.files, path);
      }
    }
  }

  lemma NothingOpened(files: Files, path: Path)
    ensures Reads(Start(files, {}), path) == Read(files, path)
  {
  }

  /** A negative turn reverts like turn zero. */
  lemma NegativeCut(log: seq<Entry>, high: int, cut: int)
    requires Sorted(log, 0, high)
    ensures Before(log, cut) == Before(log, if cut < 0 then 0 else cut)
  {
    if cut < 0 {
      NothingBefore(log, 0, high, cut);
      NothingBefore(log, 0, high, 0);
    }
  }

  lemma NegativeFirst(log: seq<Entry>, high: int, path: Path, cut: int)
    requires Sorted(log, 0, high)
    ensures FirstFor(log, path, cut) == FirstFor(log, path, if cut < 0 then 0 else cut)
  {
    if cut < 0 {
      FirstForBefore(log, 0, high, path, cut, 0);
      NothingBefore(log, 0, high, 0);
    }
  }

  lemma {:induction false} NothingLeftSince(log: seq<Entry>, low: int, high: int, path: Path, cut: int, turn: int)
    requires Sorted(log, low, high) && cut <= turn
    ensures FirstFor(Before(log, cut), path, turn) == None
    decreases |log|
  {
    if log != [] {
      NothingLeftSince(log[1..], log[0].turn, high, path, cut, turn);
      var rest := Before(log[1..], cut);
      assert ([log[0]] + rest)[1..] == rest && [] + rest == rest;
    }
  }

  lemma RevertBeyond(r: Run, cut: int)
    requires Inv(r) && cut > r.state.turn
    ensures Reverted(r.state, cut) == r.state
  {
    NothingSince(r.state.log, 0, r.state.turn, "", cut);
  }

  lemma NextTurnKeepsInv(r: Run)
    requires Inv(r)
    ensures Inv(Recorded(r, NextTurn))
  {
    hide Reads;
    var s := r.state;
    var next := s.turn + 1;
    SortedWiden(s.log, 0, s.turn, 0, next);
    forall path
      ensures FirstFor(s.log, path, next) == None
      ensures Reads(Start(s.files, {}), path) == Read(s.files, path)
    {
      NothingSince(s.log, 0, s.turn, path, next);
      NothingOpened(s.files, path);
    }
  }

  lemma StepKeepsInv(r: Run, op: Op)
    requires Inv(r)
    ensures Inv(Recorded(r, op))
  {
    hide Reverted, RevertedLast, Inv, Snapshot;
    match op {
      case Write(path, content) => WritingKeepsInv(r, path, content);
      case Edit(path, old_, new_, all) => EditingKeepsInv(r, path, old_, new_, all);
      case NextTurn => NextTurnKeepsInv(r);
      case RevertTo(turn) => RevertToKeepsInv(r, turn);
      case RevertLast => RevertLastKeepsInv(r);
    }
  }

  lemma NothingToOpen(r: Run)
    ensures Touched(r.starts, {}) == r.starts
  {
    assert forall i :: 0 <= i < |r.starts| ==> r.starts[i].touched + {} == r.starts[i].touched;
  }

  lemma WritingKeepsInv(r: Run, path: Path, content: string)
    requires Inv(r)
    ensures Inv(Recorded(r, Write(path, content)))
  {
    hide Inv, Snapshot;
    NothingToOpen(r);
    SnapshotKeepsInv(r, path);
    SnapshotKeepsTurn(r.state, path);
    WriteKeepsInv(Run(Snapshot(r.state, path), Touched(r.starts, {path})), path, content);
  }

  lemma EditingKeepsInv(r: Run, path: Path, old_: string, new_: string, all: bool)
    requires Inv(r)
    ensures Inv(Recorded(r, Edit(path, old_, new_, all)))
  {
    hide Inv, Snapshot;
    var s := r.state;
    NothingToOpen(r);
    SnapshotKeepsInv(r, path);
    SnapshotKeepsTurn(s, path);
    if path in s.files && old_ != "" {
      WriteKeepsInv(Run(Snapshot(s, path), Touched(r.starts, {path})), path, Replaced(AsRead(s.files[path]), old_, new_, all));
    }
  }

  lemma SnapshotKeepsTurn(s: State, path: Path)
    ensures Snapshot(s, path).turn == s.turn && Snapshot(s, path).files == s.files
  {
  }

  lemma RevertToKeepsInv(r: Run, turn: int)
    requires Inv(r)
    ensures Inv(Recorded(r, RevertTo(turn)))
  {
    if turn <= r.state.turn {
      RevertKeepsInv(r, turn);
    } else {
      RevertBeyond(r, turn);
      NothingToOpen(r);
    }
  }

  lemma RevertLastKeepsInv(r: Run)
    requires Inv(r)
    ensures Inv(Recorded(r, RevertLast))
  {
    if r.state.log != [] {
      LastTurnIsThere(r.state.log, 0, r.state.turn);
      RevertKeepsInv(r, LastTurn(r.state.log));
    } else {
      NothingToOpen(r);
    }
  }

  lemma {:induction false} RunKeepsInv(r: Run, ops: seq<Op>)
    requires Inv(r)
    ensures Inv(After(r, ops))
    decreases |ops|
  {
    hide Inv, Recorded;
    if ops != [] {
      StepKeepsInv(r, ops[0]);
      RunKeepsInv(Recorded(r, ops[0]), ops[1..]);
    }
  }

  lemma FreshIsSound(files: Files)
    ensures Inv(Fresh(files))
  {
  }

  // ---- The theorems ----

  /** No file opened since the start held a carriage return then. */
  ghost predicate Unix(start: Start) {
    forall path :: path in start.touched && path in start.files ==> '\r' !in start.files[path]
  }

  /** Going back to a start is exact if and only if reading keeps the files opened since. */
  lemma BackIsExactIff(start: Start)
    ensures Back(start) == start.files <==> Unix(start)
  {
    forall path | path in start.files
      ensures AsRead(start.files[path]) == start.files[path] <==> '\r' !in start.files[path]
    {
      AsReadKeepsIff(start.files[path]);
    }
    if Back(start) == start.files {
      assert forall path :: path in start.files ==> Back(start)[path] == start.files[path];
    }
  }

  /**
   * Undo. After any writes, edits, turns and earlier reverts, reverting to a turn not later
   * than the current one restores the files that turn started with, files that did not exist
   * then included, except that files opened since come back as they read; that is exact if
   * and only if none of those held a carriage return. A later turn number changes nothing.
   */
  lemma UndoIsExact(files: Files, ops: seq<Op>, turn: int)
    ensures
      var r := After(Fresh(files), ops);
      && |r.starts| == r.state.turn + 1
      && (turn <= r.state.turn ==>
            var start := r.starts[if turn < 0 then 0 else turn];
            && Reverted(r.state, turn).files == Back(start)
            && (Reverted(r.state, turn).files == start.files <==> Unix(start)))
      && (turn > r.state.turn ==> Reverted(r.state, turn) == r.state)
  {
    hide Unix, Back;
    FreshIsSound(files);
    RunKeepsInv(Fresh(files), ops);
    var r := After(Fresh(files), ops);
    if turn <= r.state.turn {
      RevertKeepsInv(r, turn);
      BackIsExactIff(r.starts[if turn < 0 then 0 else turn]);
    } else {
      RevertBeyond(r, turn);
    }
  }

  /** No operation of the run goes back past the start of turn `k`. */
  predicate StaysSince(s: State, ops: seq<Op>, k: nat)
    decreases |ops|
  {
    ops == [] ||
    ((Target(s, ops[0]).Some? ==> Target(s, ops[0]).value >= k) && StaysSince(Step(s, ops[0]), ops[1..], k))
  }

  /** The paths that a run of operations opens. */
  function AllOpened(s: State, ops: seq<Op>): set<Path>
    decreases |ops|
  {
    if ops == [] then {} else Opens(s, ops[0]) + AllOpened(Step(s, ops[0]), ops[1..])
  }

  lemma BackTwice(start: Start, more: set<Path>)
    ensures Back(Start(Back(start), more)) == Back(start.(touched := start.touched + more))
  {
    forall path | path in start.files
      ensures AsRead(AsRead(start.files[path])) == AsRead(start.files[path])
    {
      AsReadTwice(start.files[path]);
    }
  }

  lemma StepKeepsBack(r: Run, op: Op, k: nat, more: set<Path>)
    requires Inv(r) && k < |r.starts| && (Target(r.state, op).Some? ==> Target(r.state, op).value >= k)
    ensures
      var start, start' := r.starts[k], Recorded(r, op).starts[k];
      Back(start'.(touched := start'.touched + more))
      == Back(start.(touched := start.touched + (Opens(r.state, op) + more)))
  {
    hide Back, Reverted, Sorted, UndoneRead, FirstFor;
    var start := r.starts[k];
    match Target(r.state, op) {
      case None =>
        assert {} + more == more;
        assert start.touched + Opens(r.state, op) + more == start.touched + (Opens(r.state, op) + more);
      case Some(target) =>
        assert {} + more == more;
        if target == k {
          TargetIsBack(r, op);
          BackTwice(start, more);
        }
    }
  }

  lemma TargetIsBack(r: Run, op: Op)
    requires Inv(r) && Target(r.state, op).Some?
    ensures Target(r.state, op).value < |r.starts|
    ensures Step(r.state, op).files == Back(r.starts[Target(r.state, op).value])
  {
    match op {
      case RevertTo(turn) => RevertKeepsInv(r, turn);
      case RevertLast => RevertKeepsInv(r, LastTurn(r.state.log));
    }
  }

  lemma {:induction false} BackIsKept(r: Run, ops: seq<Op>, k: nat)
    requires Inv(r) && k < |r.starts| && StaysSince(r.state, ops, k)
    ensures Inv(After(r, ops)) && k < |After(r, ops).starts|
    ensures Back(After(r, ops).starts[k])
         == Back(r.starts[k].(touched := r.starts[k].touched + AllOpened(r.state, ops)))
    decreases |ops|
  {
    hide Back, Step, Inv, Opens, Target;
    if ops == [] {
      assert r.starts[k].touched + {} == r.starts[k].touched;
    } else {
      StepKeepsInv(r, ops[0]);
      StartsGrow(r, ops[0]);
      StepKeepsBack(r, ops[0], k, AllOpened(Step(r.state, ops[0]), ops[1..]));
      BackIsKept(Recorded(r, ops[0]), ops[1..], k);
    }
  }

  lemma StartsGrow(r: Run, op: Op)
    ensures |Recorded(r, op).starts| >= |r.starts| && Recorded(r, op).state == Step(r.state, op)
  {
  }

  /**
   * The same without the record: begin a turn anywhere in a session, do anything that does not
   * go back past it, and reverting to it brings back the files it began with, those opened
   * meanwhile as they read. It is exact if and only if none of those held a carriage return.
   */
  lemma TurnCanBeUndone(files: Files, before: seq<Op>, during: seq<Op>)
    requires
      var s := After(Fresh(files), before).state;
      StaysSince(Step(s, NextTurn), during, s.turn + 1)
    ensures
      var r := After(Fresh(files), before);
      var begun := Step(r.state, NextTurn);
      var start := Start(r.state.files, AllOpened(begun, during));
      var undone := Reverted(After(Run(begun, r.starts), during).state, begun.turn);
      && undone.files == Back(start)
      && (undone.files == r.state.files <==> Unix(start))
  {
    hide Inv, Back, Unix, Reverted;
    FreshIsSound(files);
    RunKeepsInv(Fresh(files), before);
    var r := After(Fresh(files), before);
    StepKeepsInv(r, NextTurn);
    var r1 := Recorded(r, NextTurn);
    TurnsAreStarts(r);
    BackIsKept(r1, during, r.state.turn + 1);
    assert {} + AllOpened(r1.state, during) == AllOpened(r1.state, during);
    BackIsExactIff(Start(r.state.files, AllOpened(r1.state, during)));
    StatesAgree(r1, Run(r1.state, r.starts), during);
    RevertIsBack(After(r1, during), r.state.turn + 1);
  }

  lemma TurnsAreStarts(r: Run)
    requires Inv(r)
    ensures |r.starts| == r.state.turn + 1
  {
  }

  lemma RevertIsBack(r: Run, k: nat)
    requires Inv(r) && k < |r.starts|
    ensures Reverted(r.state, k).files == Back(r.starts[k])
  {
    RevertKeepsInv(r, k);
  }

  /** The record of starts is only a record. */
  lemma {:induction false} StatesAgree(a: Run, b: Run, ops: seq<Op>)
    requires a.state == b.state
    ensures After(a, ops).state == After(b, ops).state
    decreases |ops|
  {
    hide Step;
    if ops != [] {
      StatesAgree(Recorded(a, ops[0]), Recorded(b, ops[0]), ops[1..]);
    }
  }

  /**
   * A carriage return is lost: the Write tool makes a file with a Windows line end, a later
   * turn overwrites it, and reverting that turn brings it back with a different content.
   */
  lemma CarriageReturnIsLost()
    ensures
      var ops := [Write("f", "a\r\nb"), NextTurn, Write("f", "c")];
      var s := After(Fresh(map[]), ops).state;
      && After(Fresh(map[]), ops[..2]).state.files == map["f" := "a\r\nb"]
      && Reverted(s, 1).files == map["f" := "a\nb"]
  {
    var s1 := State([Entry("f", 0, None)], 0, map["f" := "a\r\nb"]);
    var s2 := s1.(turn := 1);
    var s3 := State([Entry("f", 0, None), Entry("f", 1, Some("a\nb"))], 1, map["f" := "c"]);
    var ops := [Write("f", "a\r\nb"), NextTurn, Write("f", "c")];
    WindowsText();
    assert Step(Fresh(map[]).state, ops[0]) == s1;
    assert Step(s1, ops[1]) == s2;
    assert Step(s2, ops[2]) == s3;
    ThreeSteps(Fresh(map[]), ops[0], ops[1], ops[2]);
    assert ops[..2] == [ops[0], ops[1]];
    assert Reverted(s3, 1).files == map["f" := "a\nb"] by {
      assert s3.log[1..] == [Entry("f", 1, Some("a\nb"))];
      assert Firsts(s3.log, 1, {}) == [Entry("f", 1, Some("a\nb"))] + Firsts([], 1, {"f"});
    }
  }

  lemma WindowsText()
    ensures AsRead("a\r\nb") == "a\nb"
  {
    assert "a\r\nb"[1..] == "\r\nb" && "\r\nb"[2..] == "b";
    assert AsRead("b") == "b" by { assert "b"[1..] == ""; }
  }

  lemma ThreeSteps(r: Run, a: Op, b: Op, c: Op)
    ensures After(r, [a, b]).state == Step(Step(r.state, a), b)
    ensures After(r, [a, b, c]).state == Step(Step(Step(r.state, a), b), c)
  {
    hide Step;
    assert [a, b, c][1..] == [b, c] && [b, c][1..] == [c] && [c][1..] == [];
    assert [a, b][1..] == [b] && [b][1..] == [];
    var r1 := Recorded(r, a);
    var r2 := Recorded(r1, b);
    assert After(r1, [b]) == After(r2, []) && After(r1, [b, c]) == After(r2, [c]);
    assert After(r2, [c]) == After(Recorded(r2, c), []);
  }

  /** Reverting in two steps is reverting to the earlier turn at once: same files, same log. */
  lemma RevertsCompose(files: Files, ops: seq<Op>, a: int, b: int)
    requires b <= a
    ensures
      var s := After(Fresh(files), ops).state;
      Reverted(Reverted(s, a), b) == Reverted(s, b)
  {
    RunKeepsInv(Fresh(files), ops);
    var s := After(Fresh(files), ops).state;
    var s1 := Reverted(s, a);
    BeforeBefore(s.log, a, b);
    forall path
      ensures Read(Reverted(s1, b).files, path) == Read(Reverted(s, b).files, path)
    {
      RestoringReads(s1.log, s1.files, b, {}, path);
      RestoringReads(s.log, s.files, a, {}, path);
      RestoringReads(s.log, s.files, b, {}, path);
      FirstForBefore(s.log, 0, s.turn, path, b, a);
    }
    SameFilesAreEqual(Reverted(s1, b).files, Reverted(s, b).files);
  }

  /** `revert_last` on a non-empty log always removes something from it. */
  lemma RevertLastShrinks(files: Files, ops: seq<Op>)
    ensures
      var s := After(Fresh(files), ops).state;
      s.log != [] ==> |RevertedLast(s).log| < |s.log|
  {
    RunKeepsInv(Fresh(files), ops);
    var s := After(Fresh(files), ops).state;
    if s.log != [] {
      ShrinksByLast(s);
    }
  }

  lemma ShrinksByLast(s: State)
    requires s.log != [] && Sorted(s.log, 0, s.turn)
    ensures |RevertedLast(s).log| < |s.log|
  {
    LastTurnIsThere(s.log, 0, s.turn);
    BeforeShrinks(s.log, LastTurn(s.log));
  }

  /** `n` calls of `revert_last`. */
  function Drained(s: State, n: nat): State
    decreases n
  {
    if n == 0 then s else Drained(RevertedLast(s), n - 1)
  }

  lemma {:induction false} DrainingRestores(r: Run, n: nat)
    requires Inv(r) && n >= |r.state.log|
    ensures Drained(r.state, n).log == [] && Drained(r.state, n).files == Back(r.starts[0])
    decreases n
  {
    hide Back, Reads;
    if r.state.log == [] {
      forall path
        ensures Read(r.state.files, path) == Read(Back(r.starts[0]), path)
      {
        assert UndoneRead(r.state.log, r.state.files, path, 0) == Reads(r.starts[0], path);
        BackReads(r.starts[0], path);
      }
      SameFilesAreEqual(r.state.files, Back(r.starts[0]));
      DrainingEmpty(r.state, n);
    } else {
      ShrinksByLast(r.state);
      StepKeepsInv(r, RevertLast);
      StepKeepsBack(r, RevertLast, 0, {});
      assert forall start: Start :: start.(touched := start.touched + {}) == start;
      DrainingRestores(Recorded(r, RevertLast), n - 1);
    }
  }

  lemma {:induction false} DrainingEmpty(s: State, n: nat)
    requires s.log == []
    ensures Drained(s, n) == s
    decreases n
  {
    if n > 0 {
      DrainingEmpty(s, n - 1);
    }
  }

  lemma {:induction false} AlwaysStays(s: State, ops: seq<Op>)
    ensures StaysSince(s, ops, 0)
    decreases |ops|
  {
    hide Step, Target;
    if ops != [] {
      AlwaysStays(Step(s, ops[0]), ops[1..]);
    }
  }

  /** Going back to the first start after a session. */
  lemma FirstStart(files: Files, ops: seq<Op>)
    ensures
      var r := After(Fresh(files), ops);
      && Inv(r) && r.starts != []
      && Back(r.starts[0]) == Back(Start(files, AllOpened(Fresh(files).state, ops)))
  {
    FreshIsSound(files);
    AlwaysStays(Fresh(files).state, ops);
    BackIsKept(Fresh(files), ops, 0);
    assert {} + AllOpened(Fresh(files).state, ops) == AllOpened(Fresh(files).state, ops);
  }

  /**
   * Calling `revert_last` until the log is empty restores the session's original files, those
   * opened in the session as they read; exactly, if and only if none of those held a carriage
   * return.
   */
  lemma DrainRestoresOriginals(files: Files, ops: seq<Op>)
    ensures
      var s := After(Fresh(files), ops).state;
      var start := Start(files, AllOpened(Fresh(files).state, ops));
      var drained := Drained(s, |s.log|);
      && drained.log == [] && drained.files == Back(start)
      && (drained.files == files <==> Unix(start))
  {
    hide Inv, Back, Unix, Drained;
    FirstStart(files, ops);
    var r := After(Fresh(files), ops);
    DrainingRestores(r, |r.state.log|);
    BackIsExactIff(Start(files, AllOpened(Fresh(files).state, ops)));
  }

  // ---- Reverting one file ----

  /** The most recent entry for `path`, not later than `limit` if there is one. */
  function Latest(log: seq<Entry>, path: Path, limit: Option<int>): Option<Entry>
    decreases |log|
  {
    if log == [] then None
    else if Matches(log[|log| - 1], path, limit) then Some(log[|log| - 1])
    else Latest(log[..|log| - 1], path, limit)
  }

  lemma {:induction false} CandidateIsFirst(log: seq<Entry>, low: int, high: int, path: Path, limit: Option<int>)
    requires Sorted(log, low, high)
    ensures
      var first := FirstFor(log, path, low);
      Candidate(log, path, limit)
      == if first.Some? && (limit.None? || first.value.turn <= limit.value) then first else None
    decreases |log|
  {
    if log != [] && log[0].path != path {
      CandidateIsFirst(log[1..], log[0].turn, high, path, limit);
      FirstForBefore(log[1..], log[0].turn, high, path, low, log[0].turn);
      NothingBefore(log[1..], log[0].turn, high, log[0].turn);
    } else if log != [] && limit.Some? && log[0].turn > limit.value {
      NoCandidate(log[1..], log[0].turn, high, path, limit.value);
    }
  }

  lemma {:induction false} NoCandidate(log: seq<Entry>, low: int, high: int, path: Path, limit: int)
    requires Sorted(log, low, high) && limit < low
    ensures Candidate(log, path, Some(limit)) == None
    decreases |log|
  {
    if log != [] {
      NoCandidate(log[1..], log[0].turn, high, path, limit);
    }
  }

  lemma {:induction false} FirstHasPath(log: seq<Entry>, path: Path, turn: int)
    ensures FirstFor(log, path, turn).Some? ==> FirstFor(log, path, turn).value.path == path
    decreases |log|
  {
    if log != [] {
      FirstHasPath(log[1..], path, turn);
    }
  }

  /** A path is logged at most once a turn. */
  predicate OncePerTurn(log: seq<Entry>)
    decreases |log|
  {
    log == [] ||
    (var front, e := log[..|log| - 1], log[|log| - 1];
     OncePerTurn(front) && !HasEntry(front, e.path, e.turn))
  }

  lemma OnceAppend(log: seq<Entry>, e: Entry)
    ensures OncePerTurn(log + [e]) <==> OncePerTurn(log) && !HasEntry(log, e.path, e.turn)
  {
    assert (log + [e])[..|log|] == log;
  }

  lemma {:induction false} BeforeAppend(log: seq<Entry>, e: Entry, cut: int)
    ensures Before(log + [e], cut) == Before(log, cut) + (if e.turn < cut then [e] else [])
    decreases |log|
  {
    if log == [] {
      assert log + [e] == [e];
    } else {
      assert (log + [e])[1..] == log[1..] + [e];
      BeforeAppend(log[1..], e, cut);
    }
  }

  lemma {:induction false} BeforeIsPart(log: seq<Entry>, cut: int, e: Entry)
    requires e in Before(log, cut)
    ensures e in log
    decreases |log|
  {
    if e != log[0] {
      BeforeIsPart(log[1..], cut, e);
    }
  }

  lemma NoNewEntry(log: seq<Entry>, cut: int, path: Path, turn: int)
    requires !HasEntry(log, path, turn)
    ensures !HasEntry(Before(log, cut), path, turn)
  {
    forall e | e in Before(log, cut)
      ensures !(e.path == path && e.turn == turn)
    {
      BeforeIsPart(log, cut, e);
    }
  }

  lemma {:induction false} BeforeOnce(log: seq<Entry>, cut: int)
    requires OncePerTurn(log)
    ensures OncePerTurn(Before(log, cut))
    decreases |log|
  {
    hide HasEntry;
    if log != [] {
      var front, e := log[..|log| - 1], log[|log| - 1];
      assert log == front + [e];
      BeforeAppend(front, e, cut);
      BeforeOnce(front, cut);
      NoNewEntry(front, cut, e.path, e.turn);
      OnceAppend(Before(front, cut), e);
      assert Before(front, cut) + [] == Before(front, cut);
    }
  }

  lemma SnapshotOnce(s: State, path: Path)
    requires OncePerTurn(s.log)
    ensures OncePerTurn(Snapshot(s, path).log)
  {
    hide HasEntry;
    OnceAppend(s.log, Entry(path, s.turn, ReadText(s.files, path)));
  }

  lemma StepOnce(s: State, op: Op)
    requires OncePerTurn(s.log)
    ensures OncePerTurn(Step(s, op).log)
  {
    hide Snapshot, OncePerTurn, Firsts, RestoredAll, Before;
    match op {
      case Write(path, _) => SnapshotOnce(s, path);
      case Edit(path, _, _, _) => SnapshotOnce(s, path);
      case NextTurn =>
      case RevertTo(turn) => BeforeOnce(s.log, turn);
      case RevertLast => if s.log != [] { BeforeOnce(s.log, LastTurn(s.log)); }
    }
  }

  lemma {:induction false} RunOnce(r: Run, ops: seq<Op>)
    requires OncePerTurn(r.state.log)
    ensures OncePerTurn(After(r, ops).state.log)
    decreases |ops|
  {
    hide OncePerTurn, Step;
    if ops != [] {
      StepOnce(r.state, ops[0]);
      RunOnce(Recorded(r, ops[0]), ops[1..]);
    }
  }

  lemma {:induction false} SortedFront(log: seq<Entry>, e: Entry, low: int, high: int)
    requires Sorted(log + [e], low, high)
    ensures Sorted(log, low, e.turn) && low <= e.turn <= high
    decreases |log|
  {
    if log == [] {
      assert log + [e] == [e];
    } else {
      assert (log + [e])[1..] == log[1..] + [e];
      SortedFront(log[1..], e, log[0].turn, high);
    }
  }

  /** The first entry since a turn beyond which nothing is logged is of that turn. */
  lemma {:induction false} FirstAtTop(log: seq<Entry>, low: int, top: int, path: Path)
    requires Sorted(log, low, top) && FirstFor(log, path, top).Some?
    ensures HasEntry(log, path, top)
    decreases |log|
  {
    if !(log[0].path == path && log[0].turn >= top) {
      FirstAtTop(log[1..], log[0].turn, top, path);
      var i :| 0 <= i < |log[1..]| && log[1..][i].path == path && log[1..][i].turn == top;
      assert log[i + 1] == log[1..][i];
    }
  }

  /** The most recent entry is the first since its own turn. */
  lemma {:induction false} LatestIsFirst(log: seq<Entry>, low: int, high: int, path: Path, limit: Option<int>)
    requires Sorted(log, low, high) && OncePerTurn(log) && Latest(log, path, limit).Some?
    ensures
      var e := Latest(log, path, limit).value;
      low <= e.turn <= high && e.path == path && FirstFor(log, path, e.turn) == Some(e)
    decreases |log|
  {
    hide HasEntry;
    var front, last := log[..|log| - 1], log[|log| - 1];
    assert log == front + [last];
    SortedFront(front, last, low, high);
    var e := Latest(log, path, limit).value;
    FirstForAppend(front, last, path, e.turn);
    if Matches(last, path, limit) {
      if FirstFor(front, path, last.turn).Some? {
        FirstAtTop(front, low, last.turn, path);
      }
    } else {
      LatestIsFirst(front, low, last.turn, path, limit);
    }
  }

  lemma {:induction false} LatestExistsIff(log: seq<Entry>, path: Path, limit: Option<int>)
    ensures Latest(log, path, limit).Some? <==> exists e :: e in log && Matches(e, path, limit)
    decreases |log|
  {
    if log != [] {
      var front, last := log[..|log| - 1], log[|log| - 1];
      assert log == front + [last];
      LatestExistsIff(front, path, limit);
    }
  }

  lemma {:induction false} CandidateExistsIff(log: seq<Entry>, path: Path, limit: Option<int>)
    ensures Candidate(log, path, limit).Some? <==> exists e :: e in log && Matches(e, path, limit)
    decreases |log|
  {
    if log != [] {
      assert log == [log[0]] + log[1..];
      CandidateExistsIff(log[1..], path, limit);
    }
  }

  /**
   * Reverting a single file brings back what it read at the start of the session, whichever
   * turn is named, provided it has been logged no later than that turn; otherwise it does
   * nothing.
   */
  lemma FileRevertGoesToTheStart(files: Files, ops: seq<Op>, path: Path, limit: Option<int>)
    ensures
      var s := After(Fresh(files), ops).state;
      var first := FirstFor(s.log, path, 0);
      var candidate := Candidate(s.log, path, limit);
      && (candidate.Some? <==> first.Some? && (limit.None? || first.value.turn <= limit.value))
      && (candidate.Some? ==>
            candidate.value.path == path && candidate.value.content == ReadText(files, path))
  {
    hide Back, Step;
    FirstStart(files, ops);
    var r := After(Fresh(files), ops);
    CandidateIsFirst(r.state.log, 0, r.state.turn, path, limit);
    FirstHasPath(r.state.log, path, 0);
    if FirstFor(r.state.log, path, 0).Some? {
      assert UndoneRead(r.state.log, r.state.files, path, 0) == Reads(r.starts[0], path);
      BackReads(r.starts[0], path);
      var start := Start(files, AllOpened(Fresh(files).state, ops));
      BackReads(start, path);
      LoggedReads(r.starts[0], start, path);
    }
  }

  /** What a start reads for an opened path tells what any equivalent start reads for it. */
  lemma LoggedReads(a: Start, b: Start, path: Path)
    requires path in a.touched && Reads(a, path) == Reads(b, path)
    ensures Reads(a, path) == ReadText(b.files, path)
  {
    if path in a.files {
      AsReadTwice(a.files[path]);
    }
  }

  /**
   * `revert_file` does what its documentation says - go to the most recent checkpoint, of
   * those not after the named turn if there is one - if and only if the file read the same
   * when the session began as when the turn of that checkpoint began.
   */
  lemma FileRevertIsLatestIff(files: Files, ops: seq<Op>, path: Path, limit: Option<int>)
    ensures
      var r := After(Fresh(files), ops);
      var s := r.state;
      var done, latest := Candidate(s.log, path, limit), Latest(s.log, path, limit);
      && (done.Some? <==> latest.Some?)
      && (latest.Some? ==>
            && 0 <= latest.value.turn < |r.starts|
            && (Restored(s.files, done.value) == Restored(s.files, latest.value) <==>
                  ReadText(files, path) == ReadText(r.starts[latest.value.turn].files, path)))
  {
    hide Inv, OncePerTurn, Latest, Candidate;
    FirstStart(files, ops);
    RunOnceFromFresh(files, ops);
    FileRevertGoesToTheStart(files, ops, path, limit);
    var r := After(Fresh(files), ops);
    var done, latest := Candidate(r.state.log, path, limit), Latest(r.state.log, path, limit);
    LatestExistsIff(r.state.log, path, limit);
    CandidateExistsIff(r.state.log, path, limit);
    if latest.Some? {
      LatestReads(r, path, limit);
      SameIffContent(r.state.files, done.value, latest.value);
    }
  }

  lemma RunOnceFromFresh(files: Files, ops: seq<Op>)
    ensures OncePerTurn(After(Fresh(files), ops).state.log)
  {
    RunOnce(Fresh(files), ops);
  }

  lemma LatestReads(r: Run, path: Path, limit: Option<int>)
    requires Inv(r) && OncePerTurn(r.state.log) && Latest(r.state.log, path, limit).Some?
    ensures
      var e := Latest(r.state.log, path, limit).value;
      && e.path == path && 0 <= e.turn < |r.starts|
      && e.content == ReadText(r.starts[e.turn].files, path)
  {
    hide OncePerTurn, Latest;
    LatestIsFirst(r.state.log, 0, r.state.turn, path, limit);
    var e := Latest(r.state.log, path, limit).value;
    assert UndoneRead(r.state.log, r.state.files, path, e.turn) == Reads(r.starts[e.turn], path);
  }

  lemma SameIffContent(files: Files, a: Entry, b: Entry)
    requires a.path == b.path
    ensures Restored(files, a) == Restored(files, b) <==> a.content == b.content
  {
    assert Read(Restored(files, a), a.path) == a.content;
    assert Read(Restored(files, b), b.path) == b.content;
  }

  /** It can go further back: with a checkpoint of "b" in the second turn it returns to "a". */
  lemma FileRevertMissesTheLatest()
    ensures
      var ops := [Write("f", "b"), NextTurn, Write("f", "c")];
      var s := After(Fresh(map["f" := "a"]), ops).state;
      && Latest(s.log, "f", None) == Some(Entry("f", 1, Some("b")))
      && Candidate(s.log, "f", None) == Some(Entry("f", 0, Some("a")))
      && Restored(s.files, Candidate(s.log, "f", None).value) == map["f" := "a"]
  {
    var s1 := State([Entry("f", 0, Some("a"))], 0, map["f" := "b"]);
    var s2 := s1.(turn := 1);
    var s3 := State([Entry("f", 0, Some("a")), Entry("f", 1, Some("b"))], 1, map["f" := "c"]);
    var ops := [Write("f", "b"), NextTurn, Write("f", "c")];
    AsReadKeepsIff("a");
    AsReadKeepsIff("b");
    assert Step(Fresh(map["f" := "a"]).state, ops[0]) == s1;
    assert Step(s1, ops[1]) == s2;
    assert Step(s2, ops[2]) == s3;
    ThreeSteps(Fresh(map["f" := "a"]), ops[0], ops[1], ops[2]);
  }

  // ---- What the tools and the log hold ----

  /** Text mode turns each line end into one "\n", and leaves the text between them alone. */
  lemma {:induction false} LineEndsAreTranslated(before: string, after: string)
    requires '\r' !in before
    ensures AsRead(before + "\r\n" + after) == before + "\n" + AsRead(after)
    ensures after == "" || after[0] != '\n' ==> AsRead(before + "\r" + after) == before + "\n" + AsRead(after)
    decreases |before|
  {
    if before == "" {
      assert (before + "\r\n" + after)[2..] == after && (before + "\r" + after)[1..] == after;
      assert "" + "\n" + AsRead(after) == "\n" + AsRead(after);
    } else {
      assert before[0] in before;
      assert forall c :: c in before[1..] ==> c in before;
      LineEndsAreTranslated(before[1..], after);
      assert (before + "\r\n" + after)[1..] == before[1..] + "\r\n" + after;
      assert (before + "\r" + after)[1..] == before[1..] + "\r" + after;
      assert [before[0]] + (before[1..] + "\n" + AsRead(after)) == before + "\n" + AsRead(after);
    }
  }

  /** A file written holds exactly what was written; no other file changes. */
  lemma WrittenReadsBack(s: State, path: Path, content: string, other: Path)
    requires path != ""
    ensures Read(Written(s, path, content).files, path) == Some(content)
    ensures other != path ==> Read(Written(s, path, content).files, other) == Read(s.files, other)
    ensures Written(s, path, content).turn == s.turn && s.log <= Written(s, path, content).log
  {
  }

  predicate Here(text: string, old_: string, at: nat) {
    at + |old_| <= |text| && text[at..at + |old_|] == old_
  }

  /** `old_` is found at `at` in `text`, and nowhere before. */
  predicate FirstFound(text: string, old_: string, at: nat) {
    Here(text, old_, at) && forall i :: 0 <= i < at ==> !Here(text, old_, i)
  }

  lemma HereLater(text: string, old_: string, at: nat)
    requires text != ""
    ensures Here(text[1..], old_, at) <==> Here(text, old_, at + 1)
  {
    if at + 1 + |old_| <= |text| {
      assert text[1..][at..at + |old_|] == text[at + 1..at + 1 + |old_|];
    }
  }

  lemma HereFirst(text: string, old_: string)
    ensures Here(text, old_, 0) <==> |old_| <= |text| && text[..|old_|] == old_
  {
  }

  lemma FoundLater(text: string, old_: string, at: nat)
    requires text != "" && at > 0 && FirstFound(text, old_, at)
    ensures FirstFound(text[1..], old_, at - 1)
  {
    hide Here;
    HereLater(text, old_, at - 1);
    forall i: nat | i < at - 1
      ensures !Here(text[1..], old_, i)
    {
      HereLater(text, old_, i);
    }
  }

  /** Occurring is being found somewhere, so also somewhere first. */
  lemma {:induction false} FoundIffOccurs(text: string, old_: string) returns (at: nat)
    requires old_ != ""
    ensures Occurs(old_, text) ==> FirstFound(text, old_, at)
    decreases |text|
  {
    hide Here;
    at := 0;
    HereFirst(text, old_);
    if text != "" && Occurs(old_, text) && !Here(text, old_, 0) {
      var rest := FoundIffOccurs(text[1..], old_);
      at := rest + 1;
      HereLater(text, old_, rest);
      forall i: nat | i < at
        ensures !Here(text, old_, i)
      {
        if i > 0 {
          HereLater(text, old_, i - 1);
        }
      }
    }
  }

  lemma {:induction false} FoundOccurs(text: string, old_: string, at: nat)
    requires old_ != "" && Here(text, old_, at)
    ensures Occurs(old_, text)
    decreases at
  {
    hide Here;
    HereFirst(text, old_);
    HereFits(text, old_, at);
    if at > 0 {
      HereLater(text, old_, at - 1);
      FoundOccurs(text[1..], old_, at - 1);
    }
  }

  lemma HereFits(text: string, old_: string, at: nat)
    requires Here(text, old_, at)
    ensures at + |old_| <= |text|
  {
  }

  lemma {:induction false} ReplacedNowhere(text: string, old_: string, new_: string, all: bool)
    requires old_ != "" && !Occurs(old_, text)
    ensures Replaced(text, old_, new_, all) == text
    decreases |text|
  {
    if |text| >= |old_| {
      ReplacedNowhere(text[1..], old_, new_, all);
      assert [text[0]] + text[1..] == text;
    }
  }

  lemma {:induction false} ReplacedFirst(text: string, old_: string, new_: string, all: bool, at: nat)
    requires old_ != "" && FirstFound(text, old_, at)
    ensures at + |old_| <= |text|
    ensures
      var rest := text[at + |old_|..];
      Replaced(text, old_, new_, all) == text[..at] + new_ + if all then Replaced(rest, old_, new_, all) else rest
    decreases at
  {
    hide Here;
    HereFirst(text, old_);
    HereFits(text, old_, at);
    if at == 0 {
      assert text[..0] + new_ == new_;
    } else {
      FoundLater(text, old_, at);
      ReplacedFirst(text[1..], old_, new_, all, at - 1);
      assert !Here(text, old_, 0);
      var rest := text[at + |old_|..];
      assert text[1..][at - 1 + |old_|..] == rest;
      PutBack(text, at, new_, if all then Replaced(rest, old_, new_, all) else rest);
    }
  }

  lemma PutBack(text: string, at: nat, new_: string, tail: string)
    requires 0 < at <= |text|
    ensures [text[0]] + (text[1..][..at - 1] + new_ + tail) == text[..at] + new_ + tail
  {
    assert [text[0]] + text[1..][..at - 1] == text[..at];
  }

  /**
   * Replacing takes the first place where the text is found, or all of them from left to right,
   * and leaves a text without it alone.
   */
  lemma ReplacedExactly(text: string, old_: string, new_: string, at: nat)
    requires old_ != ""
    ensures FirstFound(text, old_, at) ==>
      && at + |old_| <= |text|
      && Replaced(text, old_, new_, false) == text[..at] + new_ + text[at + |old_|..]
      && Replaced(text, old_, new_, true) == text[..at] + new_ + Replaced(text[at + |old_|..], old_, new_, true)
    ensures FirstFound(text, old_, at) ==> Occurs(old_, text)
    ensures !Occurs(old_, text) ==> Replaced(text, old_, new_, false) == Replaced(text, old_, new_, true) == text
  {
    hide Here, Replaced, Occurs;
    if FirstFound(text, old_, at) {
      ReplacedFirst(text, old_, new_, false, at);
      ReplacedFirst(text, old_, new_, true, at);
      FoundOccurs(text, old_, at);
    }
    if !Occurs(old_, text) {
      ReplacedNowhere(text, old_, new_, false);
      ReplacedNowhere(text, old_, new_, true);
    }
  }

  /**
   * An edit changes the file to what it read with the text replaced if the text is in it, and
   * no file otherwise; and no other file ever.
   */
  lemma EditedReadsBack(s: State, path: Path, old_: string, new_: string, all: bool, other: Path)
    requires path != "" && old_ != "" && path in s.files
    ensures
      var text := AsRead(s.files[path]);
      Edited(s, path, old_, new_, all).files ==
        if Occurs(old_, text) then s.files[path := Replaced(text, old_, new_, all)] else s.files
    ensures other != path ==> Read(Edited(s, path, old_, new_, all).files, other) == Read(s.files, other)
  {
  }

  /** The paths a revert reports: each path logged at or after the turn, once. */
  lemma {:induction false} RevertedPathsAre(log: seq<Entry>, turn: int, seen: set<Path>, path: Path)
    ensures path in Paths(Firsts(log, turn, seen))
       <==> path !in seen && exists e :: e in log && e.path == path && e.turn >= turn
    ensures forall i, j :: 0 <= i < j < |Firsts(log, turn, seen)| ==>
      Firsts(log, turn, seen)[i].path != Firsts(log, turn, seen)[j].path
    ensures forall e :: e in Firsts(log, turn, seen) ==> e.path !in seen
    decreases |log|
  {
    PathsHold(Firsts(log, turn, seen), path);
    if log != [] {
      var e := log[0];
      var took := e.turn >= turn && e.path !in seen;
      RevertedPathsAre(log[1..], turn, if took then seen + {e.path} else seen, path);
      PathsHold(Firsts(log[1..], turn, if took then seen + {e.path} else seen), path);
      assert log == [e] + log[1..];
    }
  }

  lemma {:induction false} PathsHold(es: seq<Entry>, path: Path)
    ensures |Paths(es)| == |es| && forall i :: 0 <= i < |es| ==> Paths(es)[i] == es[i].path
    ensures path in Paths(es) <==> exists e :: e in es && e.path == path
    decreases |es|
  {
    if es != [] {
      var front, last := es[..|es| - 1], es[|es| - 1];
      PathsHold(front, path);
      assert es == front + [last];
    }
  }

  /** The last turn of a log is in it, and no entry is of a later one. */
  lemma {:induction false} LastTurnIsLatest(log: seq<Entry>)
    requires log != []
    ensures (exists e :: e in log && e.turn == LastTurn(log)) && forall e :: e in log ==> e.turn <= LastTurn(log)
    decreases |log|
  {
    assert log[0] in log;
    if |log| > 1 {
      LastTurnIsLatest(log[1..]);
      assert log == [log[0]] + log[1..];
    }
  }
}
