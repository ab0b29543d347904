/** Where sending a window again does harm: exactly where its paths get in each other's way. */
module ReplayLimits {
  import opened Base
  import opened Table
  import opened Validator
  import opened Server
  import opened Coherence
  import opened Guarantees
  import opened Replay

  /** Harmless for every store, every window over these paths and all interrupted attempts to send it. */
  ghost predicate Harmless(c: Session, u: Paths) {
    forall s, attempts, last :: Resent(c, u, s, attempts, last) ==>
      SameCells(c, s, attempts, last) && SameEnding(c, s, attempts, last)
  }

  // ----------------------------------------------------- windows step by step

  const EMPTY := Store(map[], [], map[], true)

  lemma EmptyIsCoherent(c: Session)
    ensures Coherent(c, EMPTY)
  {
  }

  /** STOR of an empty file. */
  function Stores(c: Session, p: Path, t: Time, now: Time): Request { Request(Stor(p, 0, t, c.sha([]), []), now) }

  function Deletes(c: Session, p: Path, now: Time): Request { Request(Dele(p, c.sha([])), now) }

  function Makes(p: Path, t: Time, now: Time): Request { Request(Mkd(p, t), now) }

  function Removes(p: Path, now: Time): Request { Request(Rmd(p), now) }

  lemma RunHead(c: Session, s: Store, r: Request, rest: seq<Request>)
    requires s.recovered && Valid(r.command)
    ensures var o := Dispatch(c, s, r.command, r.command.path, r.now);
            && o.store.recovered
            && Run(c, s, [r] + rest) == (if o.alive then Run(c, o.store, rest) else o.store)
            && (Finishes(c, s, [r] + rest) <==> o.alive && Finishes(c, o.store, rest))
  {
    hide Dispatch, Valid;
    HandleIsDispatch(c, s, r.command, r.now);
    assert ([r] + rest)[1..] == rest;
  }

  lemma RunNothing(c: Session, s: Store)
    ensures Run(c, s, []) == s && Finishes(c, s, [])
  {
  }

  /** Recovering early or with the first command is the same. */
  lemma RunFromLive(c: Session, s: Store, rs: seq<Request>)
    requires rs != []
    ensures Run(c, s, rs) == Run(c, Live(c, s), rs) && (Finishes(c, s, rs) <==> Finishes(c, Live(c, s), rs))
  {
    hide Dispatch, Recover;
  }

  ghost predicate AllFolders(d: Tree) { forall p :: p in d ==> d[p].Folder? }

  lemma NothingBlocked(d: Tree, p: Path)
    requires AllFolders(d)
    ensures !Blocked(d, p)
  {
  }

  /** Storing a file where there are only directories. */
  lemma StoreAmongFolders(c: Session, s: Store, p: Path, t: Time, now: Time)
    requires Coherent(c, s) && AllFolders(s.disk) && p !in s.disk
    ensures var o := Dispatch(c, s, Stor(p, 0, t, c.sha([]), []), p, now);
            && o.alive && Coherent(c, o.store) && o.store.elements == s.elements[p := Entry(Regular, 0, t, c.sha([]))]
            && p in o.store.disk && o.store.disk[p] == File([], t)
            && (forall q :: q in o.store.disk && q != p ==> o.store.disk[q].Folder?)
            && (forall a :: Ancestor(a, p) ==> a in o.store.disk)
  {
    hide Coherent, EnsureParents, Insert, Update, Blocked, Ancestor;
    NothingBlocked(s.disk, p);
    CoherentIsClosed(c, s);
    ParentsCreated(s.disk, p, now);
    StoreFileKeeps(c, s, p, 0, t, c.sha([]), [], now);
  }

  lemma CoherentIsClosed(c: Session, s: Store)
    requires Coherent(c, s)
    ensures Closed(s.disk)
  {
  }

  /** Making a directory among directories. */
  lemma MakeAmongFolders(c: Session, s: Store, p: Path, t: Time, now: Time)
    requires Coherent(c, s) && AllFolders(s.disk) && p !in s.elements
    ensures var o := Dispatch(c, s, Mkd(p, t), p, now);
            && o.alive && Coherent(c, o.store) && o.store.elements == s.elements[p := Entry(Directory, 0, t, ZERO_HASH)]
            && p in o.store.disk && AllFolders(o.store.disk)
            && (forall a :: Ancestor(a, p) && p !in s.disk ==> a in o.store.disk)
  {
    hide Coherent, EnsureParents, Insert, Update, Blocked, Ancestor;
    NothingBlocked(s.disk, p);
    CoherentIsClosed(c, s);
    if p !in s.disk {
      ParentsCreated(s.disk, p, now);
    }
    MakeDirKeeps(c, s, p, t, now);
  }

  /** Deleting a file that has just been stored. */
  lemma DeleteStored(c: Session, s: Store, p: Path, t: Time, now: Time)
    requires Coherent(c, s) && p in s.elements && s.elements[p] == Entry(Regular, 0, t, c.sha([]))
    ensures var o := Dispatch(c, s, Dele(p, c.sha([])), p, now);
            && o.alive && Coherent(c, o.store) && o.store.elements == s.elements - {p} && o.store.disk == s.disk - {p}
  {
    hide View, Unique, Remove;
    RemoveFileKeeps(c, s, p, c.sha([]));
    assert p in s.disk && s.disk[p].File?;
  }

  /** Removing a directory: it and what is below it go, in the map as on disk. */
  lemma RemoveMade(c: Session, s: Store, d: Path, now: Time)
    requires Coherent(c, s) && DirAt(s.elements, d)
    ensures var o := Dispatch(c, s, Rmd(d), d, now);
            && o.alive && Coherent(c, o.store)
            && o.store.disk == s.disk - Doomed(s.disk, d) && o.store.elements == s.elements - Doomed(s.disk, d)
  {
    hide View, Unique, RemoveSet, Doomed;
    RemoveDirKeeps(c, s, d);
    DirIsOnDisk(c, s, d);
  }

  /** A file stored and deleted on an empty store leaves at most directories above it. */
  lemma StoreThenDelete(c: Session, f: Path, t: Time, now: Time, rest: seq<Request>) returns (s: Store)
    requires ValidatePath(f) == Some(f) && ValidTime(t)
    ensures var w := [Stores(c, f, t, now), Deletes(c, f, now)] + rest;
            Run(c, EMPTY, w) == Run(c, s, rest) && (Finishes(c, EMPTY, w) <==> Finishes(c, s, rest))
    ensures s.recovered && Coherent(c, s) && AllFolders(s.disk) && f !in s.disk && s.elements == map[]
  {
    hide Run, Finishes, Coherent, ValidTime, ValidatePath, Dispatch;
    EmptyIsCoherent(c);
    StoreAmongFolders(c, EMPTY, f, t, now);
    var first := Dispatch(c, EMPTY, Stor(f, 0, t, c.sha([]), []), f, now).store;
    DeleteStored(c, first, f, t, now);
    s := Dispatch(c, first, Dele(f, c.sha([])), f, now).store;
    RunHead(c, EMPTY, Stores(c, f, t, now), [Deletes(c, f, now)] + rest);
    RunHead(c, first, Deletes(c, f, now), rest);
    assert [Stores(c, f, t, now), Deletes(c, f, now)] + rest == [Stores(c, f, t, now)] + ([Deletes(c, f, now)] + rest);
  }

  /** Where there is a directory now, STOR raises an exception. */
  lemma StoreOnFolder(c: Session, s: Store, f: Path, t: Time, now: Time, rest: seq<Request>)
    requires ValidatePath(f) == Some(f) && ValidTime(t) && FolderAt(s.disk, f)
    ensures var w := [Stores(c, f, t, now)] + rest; !Finishes(c, s, w) && Run(c, s, w) == Live(c, s)
  {
    hide ValidTime, ValidatePath, Recover, Run, Finishes;
    var w := [Stores(c, f, t, now)] + rest;
    RunFromLive(c, s, w);
    LiveIsRecovered(c, s);
    RunHead(c, Live(c, s), Stores(c, f, t, now), rest);
  }

  lemma LiveIsRecovered(c: Session, s: Store)
    ensures Live(c, s).recovered && Live(c, s).disk == s.disk
  {
  }

  // --------------------------------------------- a file above something else

  lemma ThreeOver(x: Request, y: Request, z: Request, u: Paths)
    requires Over(x.command, u) && Over(y.command, u) && Over(z.command, u)
    ensures OverAll(Commands([x, y] + [z]), u)
  {
    hide Over;
    forall k | k in Commands([x, y] + [z]) ensures Over(k, u) {
      var i :| 0 <= i < 3 && Commands([x, y] + [z])[i] == k;
    }
  }

  lemma StoreAgain(c: Session, s: Store, p: Path, t: Time, now: Time)
    requires Coherent(c, s) && p in s.disk && s.disk[p].File?
    ensures var o := Dispatch(c, s, Stor(p, 0, t, c.sha([]), []), p, now);
            && o.alive && p in o.store.disk && o.store.disk[p] == File([], t)
            && Coherent(c, o.store) && o.store.elements == s.elements[p := Entry(Regular, 0, t, c.sha([]))]
  {
    hide View, Unique, Insert, Update, EnsureParents, Blocked, Closed, Matches;
    FolderUnblocked(s.disk, p);
    StoreFileKeeps(c, s, p, 0, t, c.sha([]), [], now);
  }

  /** A file stored and removed where then a file is stored below it. */
  function FileThenFile(c: Session, f: Path, x: Path, t: Time, now: Time): seq<Request> {
    [Stores(c, f, t, now), Deletes(c, f, now)] + [Stores(c, x, t, now)]
  }

  lemma AfterFileThenFile(c: Session, f: Path, x: Path, t: Time, now: Time, rest: seq<Request>) returns (v: Store)
    requires ValidatePath(f) == Some(f) && ValidatePath(x) == Some(x) && ValidTime(t) && Ancestor(f, x)
    ensures var w := FileThenFile(c, f, x, t, now) + rest;
            Run(c, EMPTY, w) == Run(c, v, rest) && (Finishes(c, EMPTY, w) <==> Finishes(c, v, rest))
    ensures v.recovered && Coherent(c, v) && FolderAt(v.disk, f) && x in v.disk && v.disk[x] == File([], t)
  {
    hide Run, Finishes, Coherent, ValidTime, ValidatePath, Dispatch;
    var s := StoreThenDelete(c, f, t, now, [Stores(c, x, t, now)] + rest);
    CoherentIsClosed(c, s);
    RunHead(c, s, Stores(c, x, t, now), rest);
    StoreAmongFolders(c, s, x, t, now);
    v := Dispatch(c, s, Stor(x, 0, t, c.sha([]), []), x, now).store;
    assert FileThenFile(c, f, x, t, now) + rest
           == [Stores(c, f, t, now), Deletes(c, f, now)] + ([Stores(c, x, t, now)] + rest);
  }

  lemma RestartKeeps(c: Session, v: Store)
    requires v.recovered && Coherent(c, v)
    ensures var l := Live(c, Restart(v));
            && l.recovered && Coherent(c, l) && l.disk == v.disk && l.elements.Keys == v.elements.Keys
            && forall p :: DirAt(l.elements, p) <==> DirAt(v.elements, p)
  {
    hide Coherent, Recover;
    ReloadKeepsElements(c, v);
  }

  /** The fourth command, STOR at another time, is never reached again. */
  lemma FileAboveFile(c: Session, u: Paths, f: Path, x: Path, t: Time, t': Time, now: Time)
    requires ValidatePath(f) == Some(f) && ValidatePath(x) == Some(x) && ValidTime(t) && ValidTime(t')
    requires f in u.files && x in u.files && Ancestor(f, x)
    ensures var w := FileThenFile(c, f, x, t, now);
            var last := w + [Stores(c, x, t', now)];
            && Resent(c, u, EMPTY, [w], last) && !SameEnding(c, EMPTY, [w], last)
            && (t != t' ==> !SameCells(c, EMPTY, [w], last))
  {
    hide Run, Finishes, Coherent, ValidTime, ValidatePath, Recover, Over;
    EmptyIsCoherent(c);
    var w := FileThenFile(c, f, x, t, now);
    var last := w + [Stores(c, x, t', now)];
    var v := AfterFileThenFile(c, f, x, t, now, [Stores(c, x, t', now)]);
    RunHead(c, v, Stores(c, x, t', now), []);
    StoreAgain(c, v, x, t', now);
    var v' := Dispatch(c, v, Stor(x, 0, t', c.sha([]), []), x, now).store;
    RunNothing(c, v');
    assert [Stores(c, x, t', now)] + [] == [Stores(c, x, t', now)];
    var a := AfterFileThenFile(c, f, x, t, now, []);
    RunNothing(c, a);
    assert w + [] == w;
    var next := Restart(a);
    assert Interrupted(c, EMPTY, [w]) == next;
    RestartKeeps(c, a);
    assert last == [Stores(c, f, t, now)] + last[1..];
    StoreOnFolder(c, next, f, t, now, last[1..]);
    FileThenFileIsOver(c, u, f, x, t, t', now);
    assert CellAt(Live(c, v'), x).file == Some(File([], t'));
    assert CellAt(Live(c, Run(c, next, last)), x).file == Some(File([], t));
  }

  lemma FileThenFileIsOver(c: Session, u: Paths, f: Path, x: Path, t: Time, t': Time, now: Time)
    requires ValidatePath(f) == Some(f) && ValidatePath(x) == Some(x) && ValidTime(t) && ValidTime(t')
    requires f in u.files && x in u.files
    ensures var w := FileThenFile(c, f, x, t, now);
            var last := w + [Stores(c, x, t', now)];
            OverAll(Commands(last), u) && Commands(w) <= Commands(last)
  {
    hide ValidatePath, ValidTime;
    var last := FileThenFile(c, f, x, t, now) + [Stores(c, x, t', now)];
    forall k | k in Commands(last) ensures Over(k, u) {
      var i :| 0 <= i < 4 && Commands(last)[i] == k;
    }
  }

  /** A file stored and removed where then a directory is made, there or below. */
  lemma FileAboveMade(c: Session, u: Paths, f: Path, m: Path, t: Time, now: Time)
    requires ValidatePath(f) == Some(f) && ValidatePath(m) == Some(m) && ValidTime(t)
    requires f in u.files && m in u.made && Within(f, m)
    ensures var w := [Stores(c, f, t, now), Deletes(c, f, now)] + [Makes(m, t, now)];
            Resent(c, u, EMPTY, [w], w) && !SameEnding(c, EMPTY, [w], w)
  {
    hide Run, Finishes, Coherent, ValidTime, ValidatePath, Recover;
    EmptyIsCoherent(c);
    ThreeOver(Stores(c, f, t, now), Deletes(c, f, now), Makes(m, t, now), u);
    var w := [Stores(c, f, t, now), Deletes(c, f, now)] + [Makes(m, t, now)];
    var s := StoreThenDelete(c, f, t, now, [Makes(m, t, now)]);
    CoherentIsClosed(c, s);
    MakeAmongFolders(c, s, m, t, now);
    RunHead(c, s, Makes(m, t, now), []);
    var v := Dispatch(c, s, Mkd(m, t), m, now).store;
    RunNothing(c, v);
    assert [Makes(m, t, now)] + [] == [Makes(m, t, now)];
    assert FolderAt(v.disk, f);
    var next := Restart(v);
    assert Interrupted(c, EMPTY, [w]) == next;
    RestartKeeps(c, v);
    assert w == [Stores(c, f, t, now)] + w[1..];
    StoreOnFolder(c, next, f, t, now, w[1..]);
  }

  // ------------------------------------- a removed directory above something

  function Writes(c: Session, file: bool, y: Path, t: Time, now: Time): Request {
    if file then Stores(c, y, t, now) else Makes(y, t, now)
  }

  /** What is written goes away with the directory if that is catalogued, and stays if it is not. */
  lemma WriteThenRemove(c: Session, s: Store, file: bool, y: Path, d: Path, t: Time, now: Time) returns (v: Store)
    requires ValidatePath(d) == Some(d) && ValidatePath(y) == Some(y) && ValidTime(t) && Ancestor(d, y)
    requires s.recovered && Coherent(c, s) && AllFolders(s.disk) && y !in s.disk
    requires d in s.elements ==> DirAt(s.elements, d)
    ensures Run(c, s, [Writes(c, file, y, t, now), Removes(d, now)]) == v
    ensures v.recovered && Coherent(c, v)
    ensures DirAt(s.elements, d) ==> AllFolders(v.disk) && d !in v.elements && y !in v.elements && y !in v.disk
    ensures d !in s.elements ==> y in v.elements
  {
    hide Run, Finishes, Coherent, ValidTime, ValidatePath, Dispatch;
    var k := Writes(c, file, y, t, now);
    CoherentIsCatalogued(c, s);
    if file {
      StoreAmongFolders(c, s, y, t, now);
    } else {
      MakeAmongFolders(c, s, y, t, now);
    }
    var w := Dispatch(c, s, k.command, y, now).store;
    RunHead(c, s, k, [Removes(d, now)]);
    RunHead(c, w, Removes(d, now), []);
    v := Dispatch(c, w, Rmd(d), d, now).store;
    RunNothing(c, v);
    assert [Removes(d, now)] + [] == [Removes(d, now)] && [k] + [Removes(d, now)] == [k, Removes(d, now)];
    if d in s.elements {
      RemoveMade(c, w, d, now);
    } else {
      RemoveUnknown(c, w, d, now);
    }
  }

  lemma CoherentIsCatalogued(c: Session, s: Store)
    requires Coherent(c, s)
    ensures forall p :: p in s.elements ==> p in s.disk
  {
  }

  lemma RemoveUnknown(c: Session, s: Store, d: Path, now: Time)
    requires d !in s.elements
    ensures Dispatch(c, s, Rmd(d), d, now) == Reply(s, Ok(NotThere))
  {
  }

  lemma RemovedAboveWritten(c: Session, u: Paths, d: Path, file: bool, y: Path, t: Time, now: Time) returns (s: Store)
    requires ValidatePath(d) == Some(d) && ValidatePath(y) == Some(y) && ValidTime(t)
    requires d in u.removed && y in (if file then u.files else u.made) && Ancestor(d, y)
    ensures var w := [Writes(c, file, y, t, now), Removes(d, now)];
            Resent(c, u, s, [w], w) && !SameCells(c, s, [w], w)
  {
    hide Run, Finishes, Coherent, ValidTime, ValidatePath, Recover, Dispatch;
    EmptyIsCoherent(c);
    var w := [Writes(c, file, y, t, now), Removes(d, now)];
    MakeAmongFolders(c, EMPTY, d, t, now);
    RunHead(c, EMPTY, Makes(d, t, now), []);
    s := Dispatch(c, EMPTY, Mkd(d, t), d, now).store;
    NotBelowMade(c, d, y, t, now);
    var v := WriteThenRemove(c, s, file, y, d, t, now);
    var next := Restart(v);
    assert Interrupted(c, s, [w]) == next;
    RestartKeeps(c, v);
    RunFromLive(c, next, w);
    var v' := WriteThenRemove(c, Live(c, next), file, y, d, t, now);
    assert CellAt(Live(c, v), y).catalogued != CellAt(Live(c, v'), y).catalogued;
    forall k | k in Commands(w) ensures Over(k, u) {
      var i :| 0 <= i < 2 && Commands(w)[i] == k;
    }
  }

  lemma NotBelowMade(c: Session, d: Path, y: Path, t: Time, now: Time)
    requires Ancestor(d, y)
    ensures y !in Dispatch(c, EMPTY, Mkd(d, t), d, now).store.disk
  {
    assert forall q :: q in Dispatch(c, EMPTY, Mkd(d, t), d, now).store.disk ==> q == d || |q| < |d|;
  }

  // --------------------------------------------- a directory removed and made

  /** A directory that is there only because something is in it: the first RMD does not know it, MKD
      catalogues it, and the second RMD removes what is in it. */
  lemma RemovedAndMade(c: Session, u: Paths, d: Path, t: Time, now: Time) returns (s: Store)
    requires ValidatePath(d) == Some(d) && ValidTime(t) && d in u.removed && d in u.made
    ensures var w := [Removes(d, now), Makes(d, t, now)];
            Resent(c, u, s, [w], w) && !SameCells(c, s, [w], w)
  {
    hide Run, Finishes, Coherent, ValidTime, ValidatePath, Recover, Dispatch;
    EmptyIsCoherent(c);
    FixedPoints(d);
    var y, w := d + "/x", [Removes(d, now), Makes(d, t, now)];
    assert Ancestor(d, y);
    StoreAmongFolders(c, EMPTY, y, t, now);
    s := Dispatch(c, EMPTY, Stor(y, 0, t, c.sha([]), []), y, now).store;
    StoreIsRecovered(c, y, t, now);
    assert d !in s.elements && FolderAt(s.disk, d);
    RemoveUnknown(c, s, d, now);
    var v := RemoveThenMake(c, s, d, t, now);
    var next := Restart(v);
    assert Interrupted(c, s, [w]) == next;
    RestartKeeps(c, v);
    DirIsOnDisk(c, v, d);
    RunFromLive(c, next, w);
    var v' := RemoveThenMake(c, Live(c, next), d, t, now);
    assert CellAt(Live(c, v), y).catalogued != CellAt(Live(c, v'), y).catalogued;
    forall k | k in Commands(w) ensures Over(k, u) {
      var i :| 0 <= i < 2 && Commands(w)[i] == k;
    }
  }

  lemma StoreIsRecovered(c: Session, y: Path, t: Time, now: Time)
    ensures Dispatch(c, EMPTY, Stor(y, 0, t, c.sha([]), []), y, now).store.recovered
  {
    hide StoreFile;
  }

  lemma RemoveThenMake(c: Session, s: Store, d: Path, t: Time, now: Time) returns (v: Store)
    requires ValidatePath(d) == Some(d) && ValidTime(t) && s.recovered && Coherent(c, s)
    requires FolderAt(s.disk, d) && (d in s.elements ==> DirAt(s.elements, d))
    ensures Run(c, s, [Removes(d, now), Makes(d, t, now)]) == v && v.recovered && Coherent(c, v)
    ensures DirAt(v.elements, d)
    ensures d !in s.elements ==> v.elements == s.elements[d := Entry(Directory, 0, t, ZERO_HASH)]
    ensures d in s.elements ==> forall q :: Ancestor(d, q) ==> q !in v.elements && q !in v.disk
  {
    hide Run, Finishes, Coherent, ValidTime, ValidatePath, Dispatch, Blocked;
    FolderUnblocked(s.disk, d) by { CoherentIsClosed(c, s); }
    CoherentIsCatalogued(c, s);
    if d in s.elements {
      RemoveMade(c, s, d, now);
    } else {
      RemoveUnknown(c, s, d, now);
    }
    var w := Dispatch(c, s, Rmd(d), d, now).store;
    RemoveLeavesUnblocked(s.disk, d);
    MakeDirectory(c, w, d, t, now);
    v := Dispatch(c, w, Mkd(d, t), d, now).store;
    RunHead(c, s, Removes(d, now), [Makes(d, t, now)]);
    RunHead(c, w, Makes(d, t, now), []);
    RunNothing(c, v);
    assert [Makes(d, t, now)] + [] == [Makes(d, t, now)];
    assert [Removes(d, now)] + [Makes(d, t, now)] == [Removes(d, now), Makes(d, t, now)];
  }

  lemma RemoveLeavesUnblocked(d: Tree, p: Path)
    requires !Blocked(d, p)
    ensures !Blocked(d - Doomed(d, p), p)
  {
  }

  lemma MakeDirectory(c: Session, s: Store, d: Path, t: Time, now: Time)
    requires Coherent(c, s) && !Blocked(s.disk, d) && d !in s.elements && (d in s.disk ==> s.disk[d].Folder?)
    ensures var o := Dispatch(c, s, Mkd(d, t), d, now);
            && o.alive && Coherent(c, o.store) && o.store.elements == s.elements[d := Entry(Directory, 0, t, ZERO_HASH)]
            && forall q :: Ancestor(d, q) && q !in s.disk ==> q !in o.store.disk
  {
    hide Coherent, EnsureParents, Insert, Update, Blocked;
    CoherentIsClosed(c, s);
    ParentsCreated(s.disk, d, now);
    MakeDirKeeps(c, s, d, t, now);
  }

  lemma FileIsOnDisk(c: Session, s: Store, p: Path)
    requires Coherent(c, s) && p in s.elements && s.elements[p].kind == Regular
    ensures p in s.disk && s.disk[p].File?
  {
    hide View, Unique, Closed;
  }

  /** With a recursive remove in it, a window on an empty store can lose a file when it is sent a second time:
      the first time the directory is not catalogued when RMD is carried out, the second time it is. */
  lemma RemoveDirIsNotReplayable(c: Session, d: Path, y: Path, t: Time, now: Time)
    requires ValidatePath(d) == Some(d) && ValidatePath(y) == Some(y) && ValidTime(t) && Ancestor(d, y)
    ensures var w := [Stores(c, y, t, now), Removes(d, now), Makes(d, t, now)];
            && (forall r :: r in w ==> Valid(r.command)) && Coherent(c, EMPTY)
            && y in Run(c, EMPTY, w).disk && y !in Run(c, Interrupted(c, EMPTY, [w]), w).disk
  {
    hide Run, Finishes, Coherent, ValidTime, ValidatePath, Recover, Dispatch, Blocked;
    EmptyIsCoherent(c);
    var w := [Stores(c, y, t, now), Removes(d, now), Makes(d, t, now)];
    var rest := [Removes(d, now), Makes(d, t, now)];
    assert [Stores(c, y, t, now)] + rest == w;
    RunHead(c, EMPTY, Stores(c, y, t, now), rest);
    StoreAmongFolders(c, EMPTY, y, t, now);
    var v := RemoveThenMake(c, Dispatch(c, EMPTY, Stor(y, 0, t, c.sha([]), []), y, now).store, d, t, now);
    CoherentIsCatalogued(c, v);
    DirIsOnDisk(c, v, d);
    assert Interrupted(c, EMPTY, [w]) == Restart(v);
    RestartKeeps(c, v);
    var l := Live(c, Restart(v));
    RunFromLive(c, Restart(v), w);
    RunHead(c, l, Stores(c, y, t, now), rest);
    FileIsOnDisk(c, v, y);
    StoreAgain(c, l, y, t, now);
    var s := Dispatch(c, l, Stor(y, 0, t, c.sha([]), []), y, now).store;
    DirIsOnDisk(c, s, d);
    var v' := RemoveThenMake(c, s, d, t, now);
  }

  // ------------------------------------------------------------------- exactly

  /** A window over these paths can be sent again without harm, whatever the server holds, if and only if no
      file is stored at or above a directory that is made or above another file, and no directory is
      removed above anything stored or made, or where one is made. */
  lemma ReplayIff(c: Session, u: Paths, t: Time)
    requires ValidTime(t) && forall p :: p in u.files + u.made + u.removed ==> ValidatePath(p) == Some(p)
    ensures Harmless(c, u) <==> Separated(u)
  {
    hide Resent, SameCells, SameEnding, Separated, ValidTime, ValidatePath;
    if Separated(u) {
      forall s, attempts, last | Resent(c, u, s, attempts, last)
        ensures SameCells(c, s, attempts, last) && SameEnding(c, s, attempts, last)
      {
        ReplayIsHarmless(c, u, s, attempts, last);
      }
    } else {
      ReplayHarms(c, u, t);
    }
  }

  lemma ReplayHarms(c: Session, u: Paths, t: Time)
    requires ValidTime(t) && !Separated(u) && forall p :: p in u.files + u.made + u.removed ==> ValidatePath(p) == Some(p)
    ensures !Harmless(c, u)
  {
    hide Resent, SameCells, SameEnding, ValidTime, ValidatePath, Ancestor;
    if f, x :| f in u.files && x in u.files && Ancestor(f, x) {
      FileAboveFile(c, u, f, x, t, t, t);
    } else if f, m :| f in u.files && m in u.made && Within(f, m) {
      FileAboveMade(c, u, f, m, t, t);
    } else if d, x :| d in u.removed && x in u.files && Ancestor(d, x) {
      var s := RemovedAboveWritten(c, u, d, true, x, t, t);
    } else if d, m :| d in u.removed && m in u.made && Ancestor(d, m) {
      var s := RemovedAboveWritten(c, u, d, false, m, t, t);
    } else {
      var d :| d in u.removed && d in u.made;
      var s := RemovedAndMade(c, u, d, t, t);
    }
  }

  ghost predicate HarmlessForFiles(c: Session, files: set<Path>) {
    forall s, attempts, last :: Resent(c, Paths(files, {}, {}), s, attempts, last) ==> SameCells(c, s, attempts, last)
  }

  /** For windows of PROB, STOR and DELE alone: contents, times and catalogue come out the same if and only if
      no path of the window goes through another. */
  lemma FilesReplayIff(c: Session, files: set<Path>, t: Time, t': Time)
    requires ValidTime(t) && ValidTime(t') && t != t' && forall p :: p in files ==> ValidatePath(p) == Some(p)
    ensures HarmlessForFiles(c, files) <==> forall f, x :: f in files && x in files ==> !Ancestor(f, x)
  {
    hide Resent, SameCells, SameEnding, ValidTime, ValidatePath, Ancestor;
    var u := Paths(files, {}, {});
    if f, x :| f in files && x in files && Ancestor(f, x) {
      FileAboveFile(c, u, f, x, t, t', t);
    } else {
      assert Separated(u);
      forall s, attempts, last | Resent(c, u, s, attempts, last) ensures SameCells(c, s, attempts, last) {
        ReplayIsHarmless(c, u, s, attempts, last);
      }
    }
  }
}
