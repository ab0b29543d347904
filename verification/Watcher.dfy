/** client/FileSystemWatcher.cpp: polling the watched folder against a record of it, where a change
    counts as noticed only when the event queue took the event. */
module Watcher {
  import opened Base
  import opened Table
  import opened Client
  import opened System

  /** What a log of accepted events turns a record into. */
  function Replay(paths: Catalogue, log: seq<Event>): Catalogue {
    if log == [] then paths else Noted(Replay(paths, log[..|log| - 1]), log[|log| - 1])
  }

  function PathsOf(es: seq<Event>): (s: set<Path>)
    ensures forall e :: e in es ==> e.path in s
    ensures forall p :: p in s ==> exists e :: e in es && e.path == p
  {
    set e | e in es :: e.path
  }

  function Seen(log: seq<Event>, refused: seq<Event>): set<Path> { PathsOf(log) + PathsOf(refused) }

  ghost predicate NoRepeats(es: seq<Event>) {
    forall i, j :: 0 <= i < j < |es| ==> es[i].path != es[j].path
  }

  /** An enumeration of a finite set, such as the keys of a map or a directory listing. */
  ghost predicate Enumerates(order: seq<Path>, s: set<Path>) {
    (forall p :: p in s <==> p in order) && (forall i, j :: 0 <= i < j < |order| ==> order[i] != order[j])
  }

  lemma LastNoted(paths: Catalogue, log: seq<Event>, e: Event)
    ensures Replay(paths, log + [e]) == Noted(Replay(paths, log), e)
  {
    assert (log + [e])[..|log|] == log;
  }

  lemma {:induction false} FirstNoted(paths: Catalogue, e: Event, log: seq<Event>)
    ensures Replay(paths, [e] + log) == Replay(Noted(paths, e), log)
    decreases |log|
  {
    hide Noted;
    if log == [] {
      assert [e] + log == [] + [e];
      LastNoted(paths, [], e);
    } else {
      var init, last := log[..|log| - 1], log[|log| - 1];
      assert [e] + log == ([e] + init) + [last] && log == init + [last];
      LastNoted(paths, [e] + init, last);
      FirstNoted(paths, e, init);
    }
  }

  /** An accepted event settles the difference it reports and touches no other path. */
  lemma NotedSettles(sha: Digest, paths: Catalogue, folder: Tree, p: Path)
    requires Difference(sha, paths, folder, p).Some?
    ensures var e := Difference(sha, paths, folder, p).value;
            && e.path == p && Difference(sha, Noted(paths, e), folder, p) == None
            && forall q :: q != p ==> Get(Noted(paths, e), q) == Get(paths, q)
  {
  }

  lemma SameDifference(sha: Digest, a: Catalogue, b: Catalogue, folder: Tree, p: Path)
    requires Get(a, p) == Get(b, p)
    ensures Difference(sha, a, folder, p) == Difference(sha, b, folder, p)
  {
  }

  /** The state of a poll after some calls of the action: the record it started from and what it is
      now, and the reports the queue took and refused. */
  ghost predicate InProgress(sha: Digest, at: Catalogue, paths: Catalogue, folder: Tree, log: seq<Event>, refused: seq<Event>) {
    && paths == Replay(at, log)
    && NoRepeats(log) && NoRepeats(refused) && PathsOf(log) !! PathsOf(refused)
    && (forall e :: e in log ==> Difference(sha, at, folder, e.path) == Some(e))
    && (forall e :: e in refused ==> Difference(sha, at, folder, e.path) == Some(e))
    && (forall i :: 0 <= i < |log| ==> Difference(sha, Replay(at, log[..i]), folder, log[i].path) == Some(log[i]))
    && (forall p :: p in PathsOf(log) ==> Difference(sha, paths, folder, p) == None)
    && (forall p :: p !in PathsOf(log) ==> Get(paths, p) == Get(at, p))
  }

  lemma Taken(sha: Digest, at: Catalogue, paths: Catalogue, folder: Tree, log: seq<Event>, refused: seq<Event>, e: Event)
    requires InProgress(sha, at, paths, folder, log, refused) && e.path !in Seen(log, refused)
    requires Difference(sha, paths, folder, e.path) == Some(e)
    ensures InProgress(sha, at, Noted(paths, e), folder, log + [e], refused)
  {
    hide Difference, Replay, Noted, NoRepeats;
    var after, log' := Noted(paths, e), log + [e];
    SameDifference(sha, paths, at, folder, e.path);
    NotedSettles(sha, paths, folder, e.path);
    LastNoted(at, log, e);
    AddedLast(log, e);
    AddedPath(log, e);
    forall p | p in PathsOf(log) ensures Difference(sha, after, folder, p) == None {
      SameDifference(sha, after, paths, folder, p);
    }
    forall i | 0 <= i < |log'| ensures Difference(sha, Replay(at, log'[..i]), folder, log'[i].path) == Some(log'[i]) {
      assert log'[..i] == log[..i];
      assert log[..|log|] == log;
    }
  }

  lemma Refused(sha: Digest, at: Catalogue, paths: Catalogue, folder: Tree, log: seq<Event>, refused: seq<Event>, e: Event)
    requires InProgress(sha, at, paths, folder, log, refused) && e.path !in Seen(log, refused)
    requires Difference(sha, paths, folder, e.path) == Some(e)
    ensures InProgress(sha, at, paths, folder, log, refused + [e])
  {
    hide Difference, Replay;
    SameDifference(sha, paths, at, folder, e.path);
    AddedLast(refused, e);
    AddedPath(refused, e);
  }

  lemma Untouched(sha: Digest, at: Catalogue, paths: Catalogue, folder: Tree, log: seq<Event>, refused: seq<Event>, p: Path)
    requires InProgress(sha, at, paths, folder, log, refused) && p !in Seen(log, refused)
    ensures Get(paths, p) == Get(at, p) && Difference(sha, paths, folder, p) == Difference(sha, at, folder, p)
  {
    SameDifference(sha, paths, at, folder, p);
  }

  class FileSystemWatcher {
    var paths: Catalogue
    const sha: Digest

    constructor (sha: Digest)
      ensures paths == map[] && this.sha == sha
    {
      this.sha := sha;
      paths := map[];
    }

    /** One call of the action on the difference at `p`: the callback tries to push the event. */
    method Report(ghost at: Catalogue, ghost folder: Tree, log: seq<Event>, refused: seq<Event>, e: Event, taken: bool)
      returns (log': seq<Event>, refused': seq<Event>)
      requires InProgress(sha, at, paths, folder, log, refused)
      requires e.path !in Seen(log, refused)
      requires Difference(sha, paths, folder, e.path) == Some(e)
      modifies this`paths
      ensures InProgress(sha, at, paths, folder, log', refused')
      ensures log' == (if taken then log + [e] else log) && refused' == (if taken then refused else refused + [e])
      ensures Seen(log', refused') == Seen(log, refused) + {e.path}
    {
      hide InProgress, Difference;
      AddedPath(log, e);
      AddedPath(refused, e);
      if taken {
        Taken(sha, at, paths, folder, log, refused, e);
        paths := if e.status == Deletion then paths - {e.path} else paths[e.path := e.entry];
        return log + [e], refused;
      }
      Refused(sha, at, paths, folder, log, refused, e);
      return log, refused + [e];
    }

    /** The first half of a round of start(): elements of the record that are gone. */
    method PollGone(folder: Tree, keys: seq<Path>, accepts: nat -> bool) returns (log: seq<Event>, refused: seq<Event>)
      requires Enumerates(keys, paths.Keys)
      modifies this`paths
      ensures InProgress(sha, old(paths), paths, folder, log, refused)
      ensures Seen(log, refused) == set k | k in old(paths) && k !in folder
    {
      hide EntryOf, Replay;
      ghost var at := paths;
      log, refused := [], [];
      assert InProgress(sha, at, paths, folder, log, refused) by { Nothing(at); }
      for i := 0 to |keys|
        invariant InProgress(sha, at, paths, folder, log, refused)
        invariant Seen(log, refused) == set k | k in keys[..i] && k !in folder
      {
        var p := keys[i];
        assert keys[..i + 1] == keys[..i] + [p];
        assert p !in keys[..i] && p !in Seen(log, refused);
        if p !in folder {
          assert Get(paths, p) == Get(at, p);
          log, refused := Report(at, folder, log, refused, Event(p, paths[p], Deletion), accepts(|log| + |refused|));
        }
      }
      assert keys[..|keys|] == keys;
    }

    /** The second half: the directory listing. Elements of other types are passed over, and so are
        files that cannot be opened now. */
    method PollListed(ghost at: Catalogue, folder: Tree, files: seq<Path>, opens: set<Path>, accepts: nat -> bool,
                      log0: seq<Event>, refused0: seq<Event>) returns (log: seq<Event>, refused: seq<Event>)
      requires InProgress(sha, at, paths, folder, log0, refused0) && Enumerates(files, folder.Keys)
      requires Seen(log0, refused0) !! folder.Keys
      modifies this`paths
      ensures InProgress(sha, at, paths, folder, log, refused)
      ensures Seen(log, refused) == Seen(log0, refused0) + Reported(sha, at, folder, opens, files)
    {
      hide EntryOf, Difference, InProgress, Seen, Reported;
      log, refused := log0, refused0;
      assert files[..0] == [];
      NoneReported(sha, at, folder, opens);
      for j := 0 to |files|
        invariant InProgress(sha, at, paths, folder, log, refused)
        invariant Seen(log, refused) == Seen(log0, refused0) + Reported(sha, at, folder, opens, files[..j])
      {
        var p := files[j];
        assert files[..j + 1] == files[..j] + [p];
        OneMoreReported(sha, at, folder, opens, files[..j], p);
        Untouched(sha, at, paths, folder, log, refused, p);
        if folder[p].Special? || (folder[p].File? && p !in opens) {
          continue;
        }
        ListedDifference(sha, paths, folder, p);
        var current := EntryOf(sha, folder[p]);
        if p !in paths {
          log, refused := Report(at, folder, log, refused, Event(p, current, Creation), accepts(|log| + |refused|));
        } else if paths[p] != current {
          log, refused := Report(at, folder, log, refused, Event(p, current, Modification), accepts(|log| + |refused|));
        }
      }
      assert files[..|files|] == files;
    }

    /** One round of the loop in start(). `keys` and `files` are the orders in which map and directory
        are visited, `opens` the files that can be opened, `accepts` the answers of the action, call
        by call. Every difference was reported once, but for files that could not be opened. */
    method Poll(folder: Tree, keys: seq<Path>, files: seq<Path>, opens: set<Path>, accepts: nat -> bool)
      returns (log: seq<Event>, refused: seq<Event>)
      requires Enumerates(keys, paths.Keys) && Enumerates(files, folder.Keys)
      modifies this`paths
      ensures InProgress(sha, old(paths), paths, folder, log, refused)
      ensures forall p :: p in Seen(log, refused) <==>
                Difference(sha, old(paths), folder, p).Some? && (p in folder && folder[p].File? ==> p in opens)
    {
      ghost var at := paths;
      log, refused := PollGone(folder, keys, accepts);
      log, refused := PollListed(at, folder, files, opens, accepts, log, refused);
      hide EntryOf, InProgress;
    }

    /** At start the record is read from the client database, and the queue gets one event for every
        recorded element that still exists, so that the server is asked about it; `taken` are the
        answers of the blocking push, which refuses only when the program stops. */
    method RecoverFromDB(db: Catalogue, rows: seq<Path>, folder: Tree, taken: nat -> bool) returns (log: seq<Event>)
      requires Enumerates(rows, db.Keys) && paths == map[]
      modifies this`paths
      ensures paths == Loaded(db)
      ensures Requeued(db, folder, rows, log)
      ensures (forall i: nat :: taken(i)) ==> forall p :: p in db && p in folder ==> p in PathsOf(log)
    {
      LoadPaths(db, rows);
      log := Requeue(db, rows, folder, taken);
    }

    method LoadPaths(db: Catalogue, rows: seq<Path>)
      requires Enumerates(rows, db.Keys) && paths == map[]
      modifies this`paths
      ensures paths == Loaded(db)
    {
      hide ReadBack;
      for i := 0 to |rows|
        invariant paths == map p | p in rows[..i] :: ReadBack(db[p])
      {
        paths := paths[rows[i] := ReadBack(db[rows[i]])];
        assert rows[..i + 1] == rows[..i] + [rows[i]];
      }
      assert rows[..|rows|] == rows;
    }

    method Requeue(db: Catalogue, rows: seq<Path>, folder: Tree, taken: nat -> bool) returns (log: seq<Event>)
      requires Enumerates(rows, db.Keys) && paths == Loaded(db)
      ensures Requeued(db, folder, rows, log)
      ensures (forall i: nat :: taken(i)) ==> forall p :: p in db && p in folder ==> p in PathsOf(log)
    {
      hide ReadBack, Requeued, PathsOf;
      log := [];
      NothingYet(db, folder);
      for i := 0 to |rows|
        invariant Requeued(db, folder, rows[..i], log)
        invariant forall j :: 0 <= j < i && rows[j] in folder ==> rows[j] in PathsOf(log)
      {
        var p := rows[i];
        assert rows[..i + 1] == rows[..i] + [p];
        if p in folder && !taken(i) {
          StoppedEarly(db, folder, rows, i, log);
          return;
        }
        OneMoreRow(db, folder, rows[..i], p, log);
        if p in folder {
          log := log + [Event(p, paths[p], Modification)];
        }
      }
      assert rows[..|rows|] == rows;
    }
  }

  /** One event for each recorded element of `rows` that still exists, and no other event. */
  ghost predicate Requeued(db: Catalogue, folder: Tree, rows: seq<Path>, log: seq<Event>) {
    && NoRepeats(log)
    && forall e :: e in log ==>
         e.path in rows && e.path in db && e.path in folder && e == Event(e.path, ReadBack(db[e.path]), Modification)
  }

  lemma NothingYet(db: Catalogue, folder: Tree)
    ensures Requeued(db, folder, [], [])
  {
  }

  lemma StoppedEarly(db: Catalogue, folder: Tree, rows: seq<Path>, i: nat, log: seq<Event>)
    requires i <= |rows| && Requeued(db, folder, rows[..i], log)
    ensures Requeued(db, folder, rows, log)
  {
  }

  lemma OneMoreRow(db: Catalogue, folder: Tree, rows: seq<Path>, p: Path, log: seq<Event>)
    requires Requeued(db, folder, rows, log) && p in db && p !in rows
    ensures var e := Event(p, ReadBack(db[p]), Modification);
            && PathsOf(log + [e]) == PathsOf(log) + {p}
            && Requeued(db, folder, rows + [p], if p in folder then log + [e] else log)
  {
    hide ReadBack, NoRepeats;
    var e := Event(p, ReadBack(db[p]), Modification);
    AddedPath(log, e);
    AddedLast(log, e);
  }

  lemma Nothing(at: Catalogue)
    ensures Replay(at, []) == at
  {
  }

  /** The differences a listing brings up. */
  function Reported(sha: Digest, at: Catalogue, folder: Tree, opens: set<Path>, files: seq<Path>): set<Path> {
    set p | p in files && p in folder && Difference(sha, at, folder, p).Some? && (folder[p].File? ==> p in opens)
  }

  lemma NoneReported(sha: Digest, at: Catalogue, folder: Tree, opens: set<Path>)
    ensures Reported(sha, at, folder, opens, []) == {}
  {
  }

  lemma OneMoreReported(sha: Digest, at: Catalogue, folder: Tree, opens: set<Path>, files: seq<Path>, p: Path)
    requires p in folder && p !in files
    ensures var ps := Reported(sha, at, folder, opens, files);
            && p !in ps
            && Reported(sha, at, folder, opens, files + [p]) ==
               ps + (if Difference(sha, at, folder, p).Some? && (folder[p].File? ==> p in opens) then {p} else {})
    ensures folder[p].Special? ==> Difference(sha, at, folder, p) == None
  {
  }

  lemma ListedDifference(sha: Digest, paths: Catalogue, folder: Tree, p: Path)
    requires p in folder && !folder[p].Special?
    ensures Difference(sha, paths, folder, p) ==
            if p !in paths then Some(Event(p, EntryOf(sha, folder[p]), Creation))
            else if paths[p] != EntryOf(sha, folder[p]) then Some(Event(p, EntryOf(sha, folder[p]), Modification))
            else None
  {
  }

  lemma AddedPath(log: seq<Event>, e: Event)
    ensures PathsOf(log + [e]) == PathsOf(log) + {e.path}
  {
  }

  lemma AddedLast(es: seq<Event>, e: Event)
    requires NoRepeats(es) && e.path !in PathsOf(es)
    ensures NoRepeats(es + [e])
  {
    forall i | 0 <= i < |es| ensures es[i].path != e.path {
      assert es[i] in es;
    }
  }

  // ------------------------------------------------------- what a poll means

  lemma {:induction false} PathsAreAsMany(log: seq<Event>)
    requires NoRepeats(log)
    ensures |PathsOf(log)| == |log|
  {
    if log != [] {
      var init, e := log[..|log| - 1], log[|log| - 1];
      assert log == init + [e];
      AddedPath(init, e);
      assert e.path !in PathsOf(init);
      PathsAreAsMany(init);
    }
  }

  /** The accepted reports are exactly the differences that have disappeared, each reported once. */
  lemma PollIsExact(sha: Digest, at: Catalogue, paths: Catalogue, folder: Tree, log: seq<Event>, refused: seq<Event>)
    requires InProgress(sha, at, paths, folder, log, refused)
    ensures Differing(sha, paths, folder) == Differing(sha, at, folder) - PathsOf(log)
    ensures |Differing(sha, paths, folder)| == |Differing(sha, at, folder)| - |log|
  {
    hide EntryOf, Replay, NoRepeats;
    forall p ensures p in Differing(sha, paths, folder) <==> p in Differing(sha, at, folder) && p !in PathsOf(log) {
      if p !in PathsOf(log) {
        SameDifference(sha, paths, at, folder, p);
      }
    }
    assert PathsOf(log) <= Differing(sha, at, folder);
    PathsAreAsMany(log);
  }

  function Notices(log: seq<Event>): seq<Label> {
    if log == [] then [] else [Notice(log[0].path)] + Notices(log[1..])
  }

  /** A log that can be played from where it starts. */
  ghost predicate Playable(sha: Digest, paths: Catalogue, folder: Tree, log: seq<Event>)
    decreases |log|
  {
    log == [] || (Difference(sha, paths, folder, log[0].path) == Some(log[0])
                  && Playable(sha, Noted(paths, log[0]), folder, log[1..]))
  }

  lemma {:induction false} ProgressIsPlayable(sha: Digest, at: Catalogue, folder: Tree, log: seq<Event>, n: nat)
    requires n <= |log|
    requires forall i :: 0 <= i < |log| ==> Difference(sha, Replay(at, log[..i]), folder, log[i].path) == Some(log[i])
    ensures Playable(sha, Replay(at, log[..n]), folder, log[n..])
    decreases |log| - n
  {
    hide Difference, Noted;
    if n < |log| {
      ProgressIsPlayable(sha, at, folder, log, n + 1);
      assert log[..n + 1] == log[..n] + [log[n]];
      LastNoted(at, log[..n], log[n]);
    }
  }

  lemma NoticeStep(g: Config, s: Sys, e: Event)
    requires Difference(g.session.sha, s.paths, s.folder, e.path) == Some(e) && s.requeue == [] && |s.queue| < g.queueSize
    ensures Enabled(g, s, Notice(e.path))
    ensures var t := Apply(g, s, Notice(e.path));
            && t.paths == Noted(s.paths, e) && t.queue == s.queue + [e] && t.requeue == []
            && t.folder == s.folder && t.client == s.client && t.server == s.server
  {
    hide Difference, Noted;
  }

  lemma StartRun(g: Config, s: Sys)
    ensures Runs(g, s, Notices([]), s)
  {
  }

  lemma OneMoreStep(g: Config, s: Sys, log: seq<Event>, t: Sys)
    requires log != [] && Enabled(g, s, Notice(log[0].path))
    requires Runs(g, Apply(g, s, Notice(log[0].path)), Notices(log[1..]), t)
    ensures Runs(g, s, Notices(log), t)
  {
    hide Apply, Enabled;
    assert Notices(log)[1..] == Notices(log[1..]);
  }

  /** In the system a poll is a run of Notice steps, one for each accepted event. */
  lemma {:induction false} PollIsNotices(g: Config, s: Sys, log: seq<Event>) returns (t: Sys)
    requires Playable(g.session.sha, s.paths, s.folder, log) && s.requeue == [] && |s.queue| + |log| <= g.queueSize
    ensures Runs(g, s, Notices(log), t) && t.paths == Replay(s.paths, log)
    ensures t.queue == s.queue + log && t.folder == s.folder && t.client == s.client && t.server == s.server
    decreases |log|
  {
    hide Difference, Noted, Apply, Enabled, Runs, Notices, Replay;
    if log == [] {
      Nothing(s.paths);
      t := s;
      StartRun(g, s);
    } else {
      var e := log[0];
      NoticeStep(g, s, e);
      t := PollIsNotices(g, Apply(g, s, Notice(e.path)), log[1..]);
      OneMoreStep(g, s, log, t);
      assert s.queue + [e] + log[1..] == s.queue + log;
      assert [e] + log[1..] == log;
      FirstNoted(s.paths, e, log[1..]);
    }
  }
}
