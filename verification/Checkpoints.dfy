/** The undo log of core/checkpoints.py and the file tools that write through it. */
module Checkpoints {
  import opened Options

  type Path = string
  type Files = map<Path, string>  // a path not in the map does not exist

  /** A file as it read before its first change in a turn; `None` if it did not exist. */
  datatype Entry = Entry(path: Path, turn: int, content: Option<string>)

  /** What one session sees: its log, its turn counter, and the files. */
  datatype State = State(log: seq<Entry>, turn: nat, files: Files)

  function Read(files: Files, path: Path): Option<string> {
    if path in files then Some(files[path]) else None
  }

  // ---- Text mode ----

  /**
   * What `read_text` makes of a file's text: every line end, "\r\n" or "\r" alone, becomes
   * "\n". `write_text` writes what it is given.
   */
  function AsRead(text: string): string
    decreases |text|
  {
    if text == "" then ""
    else if text[0] != '\r' then [text[0]] + AsRead(text[1..])
    else "\n" + AsRead(if |text| > 1 && text[1] == '\n' then text[2..] else text[1..])
  }

  function ReadText(files: Files, path: Path): Option<string> {
    if path in files then Some(AsRead(files[path])) else None
  }

  // ---- Snapshots ----

  predicate HasEntry(log: seq<Entry>, path: Path, turn: int) {
    exists i :: 0 <= i < |log| && log[i].path == path && log[i].turn == turn
  }

  function Snapshot(s: State, path: Path): State {
    if HasEntry(s.log, path, s.turn) then s
    else s.(log := s.log + [Entry(path, s.turn, ReadText(s.files, path))])
  }

  // ---- Reverts ----

  /** The first entry of each path, among those at or after `turn` and outside `seen`. */
  function Firsts(log: seq<Entry>, turn: int, seen: set<Path>): seq<Entry>
    decreases |log|
  {
    if log == [] then []
    else if log[0].turn >= turn && log[0].path !in seen then
      [log[0]] + Firsts(log[1..], turn, seen + {log[0].path})
    else Firsts(log[1..], turn, seen)
  }

  /** Put one file back, deleting it if it did not exist. */
  function Restored(files: Files, e: Entry): Files {
    match e.content
    case None => files - {e.path}
    case Some(content) => files[e.path := content]
  }

  function RestoredAll(files: Files, es: seq<Entry>): Files
    decreases |es|
  {
    if es == [] then files else RestoredAll(Restored(files, es[0]), es[1..])
  }

  /** The entries before `turn`. */
  function Before(log: seq<Entry>, turn: int): seq<Entry>
    decreases |log|
  {
    if log == [] then [] else (if log[0].turn < turn then [log[0]] else []) + Before(log[1..], turn)
  }

  function Reverted(s: State, turn: int): State {
    s.(files := RestoredAll(s.files, Firsts(s.log, turn, {})), log := Before(s.log, turn))
  }

  /** The latest turn in a non-empty log. */
  function LastTurn(log: seq<Entry>): int
    requires log != []
    decreases |log|
  {
    if |log| == 1 then log[0].turn
    else
      var rest := LastTurn(log[1..]);
      if log[0].turn > rest then log[0].turn else rest
  }

  function RevertedLast(s: State): State {
    if s.log == [] then s else Reverted(s, LastTurn(s.log))
  }

  predicate Matches(e: Entry, path: Path, limit: Option<int>) {
    e.path == path && (limit.None? || e.turn <= limit.value)
  }

  /** The entry `revert_file` applies: the earliest one, not later than `limit` if there is one. */
  function Candidate(log: seq<Entry>, path: Path, limit: Option<int>): Option<Entry>
    decreases |log|
  {
    if log == [] then None
    else if Matches(log[0], path, limit) then Some(log[0])
    else Candidate(log[1..], path, limit)
  }

  // ---- The file tools ----

  /** `text.replace(old, new)`, or with a count of one unless `all`. */
  function Replaced(text: string, old_: string, new_: string, all: bool): string
    requires old_ != ""
    decreases |text|
  {
    if |text| < |old_| then text
    else if text[..|old_|] == old_ then
      new_ + (if all then Replaced(text[|old_|..], old_, new_, all) else text[|old_|..])
    else [text[0]] + Replaced(text[1..], old_, new_, all)
  }

  /** `part in text` */
  predicate Occurs(part: string, text: string)
    decreases |text|
  {
    |part| <= |text| && (text[..|part|] == part || (text != "" && Occurs(part, text[1..])))
  }

  function Written(s: State, path: Path, content: string): State {
    if path == "" then s
    else var s' := Snapshot(s, path); s'.(files := s'.files[path := content])
  }

  function Edited(s: State, path: Path, old_: string, new_: string, all: bool): State {
    if path == "" || old_ == "" || path !in s.files then s
    else
      var s' := Snapshot(s, path);
      var text := AsRead(s'.files[path]);
      if !Occurs(old_, text) then s'
      else s'.(files := s'.files[path := Replaced(text, old_, new_, all)])
  }

  /** All sessions' logs and counters, and the file system they share. */
  class Workspace {
    var checkpoints: map<string, seq<Entry>>
    var turnCounters: map<string, nat>
    var files: Files

    function Log(session: string): seq<Entry>
      reads this
    {
      if session in checkpoints then checkpoints[session] else []
    }

    function Turn(session: string): nat
      reads this
    {
      if session in turnCounters then turnCounters[session] else 0
    }

    function Session(session: string): State
      reads this
    {
      State(Log(session), Turn(session), files)
    }

    /** The logs and counters of all sessions but one are as they were. */
    twostate predicate OthersKept(session: string)
      reads this
    {
      forall other :: other != session ==>
        Log(other) == old(Log(other)) && Turn(other) == old(Turn(other))
    }

    constructor (files: Files)
      ensures forall session :: Session(session) == State([], 0, files)
    {
      checkpoints, turnCounters := map[], map[];
      this.files := files;
    }

    method IncrementTurn(session: string) returns (current: nat)
      modifies this
      ensures current == old(Turn(session)) + 1
      ensures Session(session) == old(Session(session)).(turn := current)
      ensures OthersKept(session)
    {
      current := Turn(session) + 1;
      turnCounters := turnCounters[session := current];
    }

    method SnapshotFile(session: string, path: Path)
      modifies this
      ensures Session(session) == Snapshot(old(Session(session)), path)
      ensures OthersKept(session)
    {
      var turn := Turn(session);
      var entries := Log(session);
      for i := 0 to |entries|
        invariant forall k :: 0 <= k < i ==> !(entries[k].path == path && entries[k].turn == turn)
      {
        if entries[i].path == path && entries[i].turn == turn {
          return;
        }
      }
      checkpoints := checkpoints[session := entries + [Entry(path, turn, ReadText(files, path))]];
    }

    method ApplyRevert(e: Entry)
      modifies this`files
      ensures files == Restored(old(files), e)
    {
      match e.content {
        case None => files := files - {e.path};
        case Some(content) => files := files[e.path := content];
      }
    }

    /** Returns the reverted paths, in the order of their first change. */
    method RevertToTurn(session: string, turn: int) returns (reverted: seq<Path>)
      modifies this
      ensures Session(session) == Reverted(old(Session(session)), turn)
      ensures OthersKept(session)
      ensures reverted == Paths(Firsts(old(Log(session)), turn, {}))
    {
      var entries := Log(session);
      var toRevert := FilesToRevert(entries, turn);
      reverted := ApplyReverts(toRevert);
      checkpoints := checkpoints[session := Before(entries, turn)];
    }

    method ApplyReverts(toRevert: seq<Entry>) returns (reverted: seq<Path>)
      modifies this`files
      ensures files == RestoredAll(old(files), toRevert)
      ensures reverted == Paths(toRevert)
    {
      reverted := [];
      for i := 0 to |toRevert|
        invariant RestoredAll(files, toRevert[i..]) == RestoredAll(old(files), toRevert)
        invariant reverted == Paths(toRevert[..i])
      {
        ApplyRevert(toRevert[i]);
        assert toRevert[..i + 1][..i] == toRevert[..i];
        reverted := reverted + [toRevert[i].path];
      }
      assert toRevert[..|toRevert|] == toRevert && toRevert[|toRevert|..] == [];
    }

    method RevertLast(session: string) returns (reverted: seq<Path>)
      modifies this
      ensures Session(session) == RevertedLast(old(Session(session)))
      ensures OthersKept(session)
    {
      var entries := Log(session);
      if entries == [] {
        return [];
      }
      reverted := RevertToTurn(session, LastTurn(entries));
    }

    /** One file back to its state before the session first changed it; the log is kept. */
    method RevertFile(session: string, path: Path, limit: Option<int>) returns (done: bool)
      modifies this`files
      ensures done == Candidate(Log(session), path, limit).Some?
      ensures files ==
        if done then Restored(old(files), Candidate(Log(session), path, limit).value) else old(files)
    {
      var entries := Log(session);
      for i := 0 to |entries|
        invariant Candidate(entries[i..], path, limit) == Candidate(entries, path, limit)
        invariant files == old(files)
      {
        if Matches(entries[i], path, limit) {
          ApplyRevert(entries[i]);
          return true;
        }
      }
      return false;
    }

    /** The Write tool; `ok` is false where it reports an error. */
    method HandleWrite(session: string, path: Path, content: string) returns (ok: bool)
      modifies this
      ensures ok == (path != "")
      ensures Session(session) == Written(old(Session(session)), path, content)
      ensures OthersKept(session)
    {
      if path == "" {
        return false;
      }
      SnapshotFile(session, path);
      files := files[path := content];
      return true;
    }

    /** The Edit tool. */
    method HandleEdit(session: string, path: Path, old_: string, new_: string, all: bool) returns (ok: bool)
      modifies this
      ensures ok == (path != "" && old_ != "" && path in old(files) && Occurs(old_, AsRead(old(files)[path])))
      ensures Session(session) == Edited(old(Session(session)), path, old_, new_, all)
      ensures OthersKept(session)
    {
      if path == "" || old_ == "" || path !in files {
        return false;
      }
      SnapshotFile(session, path);
      var text := AsRead(files[path]);
      if !Occurs(old_, text) {
        return false;
      }
      files := files[path := Replaced(text, old_, new_, all)];
      return true;
    }
  }

  /** The insertion-ordered dictionary of the entries to apply. */
  method FilesToRevert(entries: seq<Entry>, turn: int) returns (toRevert: seq<Entry>)
    ensures toRevert == Firsts(entries, turn, {})
  {
    toRevert := [];
    var seen: set<Path> := {};
    for i := 0 to |entries|
      invariant toRevert + Firsts(entries[i..], turn, seen) == Firsts(entries, turn, {})
    {
      if entries[i].turn >= turn && entries[i].path !in seen {
        toRevert := toRevert + [entries[i]];
        seen := seen + {entries[i].path};
      }
    }
    assert toRevert + [] == toRevert && entries[|entries|..] == [];
  }

  function Paths(es: seq<Entry>): seq<Path>
    decreases |es|
  {
    if es == [] then [] else Paths(es[..|es| - 1]) + [es[|es| - 1].path]
  }
}
