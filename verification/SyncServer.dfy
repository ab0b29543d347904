/** What one command does to the server while it moves from an old agreed state to a stable
    snapshot of the watched folder: it can only bring the server closer to the snapshot. */
module SyncServer {
  import opened Base
  import opened Table
  import opened Validator
  import opened Server
  import opened Coherence
  import opened Guarantees
  import opened Client

  /** The entries of a folder, as the watcher sees them. */
  function Entries(sha: Digest, folder: Tree): Catalogue {
    map p | p in folder && !folder[p].Special? :: EntryOf(sha, folder[p])
  }

  /** One synchronisation: the state `was` everybody agreed on, the snapshot to be reached, and the
      file contents involved. `exact` says that no connection has been made again on the way, so that
      even recorded directory times are those of the snapshot. */
  datatype Goal = Goal(c: Session, was: Catalogue, folder: Tree, contents: iset<Bytes>, exact: bool) {
    function New(): Catalogue { Entries(c.sha, folder) }

    /** A real folder, in which no path that everybody knows changes its type. Elements of other types may
        be there; they are passed over. */
    ghost predicate Sound() {
      && Closed(folder)
      && (forall p :: p in folder && folder[p].File? ==> folder[p].data in contents)
      && (forall p :: p in was ==> was[p].kind != Unsupported)
      && (forall p :: p in was && p in folder ==> !folder[p].Special? && was[p].kind == New()[p].kind)
      && InjectiveOn(c.sha, contents)
    }

    ghost predicate Near(a: Option<Entry>, b: Option<Entry>) {
      a == b || (!exact && a.Some? && b.Some? && SameElement(a.value, b.value))
    }

    /** Each path is where it was or where it should be. */
    ghost predicate Halfway(m: Catalogue) {
      forall p :: Near(Get(m, p), Get(was, p)) || Near(Get(m, p), Get(New(), p))
    }

    /** Directories made ahead of their MKD are directories of the snapshot. */
    ghost predicate Ahead(m: Catalogue, d: Tree) {
      forall q :: q in d && q !in m ==> d[q].Folder? && q in folder && folder[q].Folder?
    }

    ghost predicate Known(d: Tree) {
      forall q :: q in d && d[q].File? ==> d[q].data in contents
    }

    ghost predicate Between(l: Store) {
      Coherent(c, l) && Halfway(l.elements) && Ahead(l.elements, l.disk) && Known(l.disk)
    }

    /** The event is the difference between old state and snapshot at its path. */
    predicate Due(e: Event) {
      if e.status == Deletion then Get(was, e.path) == Some(e.entry) && e.path !in folder
      else Get(New(), e.path) == Some(e.entry) && (e.status == StoreSent ==> e.entry.kind == Regular)
    }

    /** An event that repeats the old state of an element: at program start the watcher pushes one for
        every element of its database that still exists, changed or not. */
    predicate Echo(e: Event) {
      && e.status == Modification && Get(was, e.path) == Some(e.entry) && e.path in folder
      && (e.entry.kind == Directory ==> e.entry.size == 0 && e.entry.hash == ZERO_HASH)
    }

    /** The effect of carrying out a due command. */
    ghost predicate Closer(l: Store, p: Path, out: Outcome) {
      && out.alive && Between(out.store) && |out.replies| == 1
      && !out.replies[0].Err?
      && (out.replies[0].Send? ==> out.store == l)
      && (out.replies[0].Ok? ==> Get(out.store.elements, p) == Get(New(), p))
      && (forall q :: q != p ==> Get(out.store.elements, q) == Get(l.elements, q)
                                 || (q !in out.store.elements && q !in folder))
    }
  }

  /** What may be found at one path on the way. */
  lemma AtPath(x: Goal, l: Store, p: Path)
    requires x.Sound() && x.Between(l)
    ensures p in l.elements ==>
              && p in l.disk && SameElement(l.elements[p], EntryOf(x.c.sha, l.disk[p])) && !l.disk[p].Special?
              && (p in x.folder ==> !x.folder[p].Special? && l.elements[p].kind == x.New()[p].kind)
              && (p !in x.folder ==> p in x.was && SameElement(l.elements[p], x.was[p]))
    ensures p !in l.elements && p in l.disk ==> l.disk[p].Folder? && p in x.folder && x.folder[p].Folder?
    ensures p in l.disk && l.disk[p].File? ==> l.disk[p].data in x.contents
  {
    hide View, Unique, Closed;
    assert x.Near(Get(l.elements, p), Get(x.was, p)) || x.Near(Get(l.elements, p), Get(x.New(), p));
  }

  lemma AncestorsAreFolders(x: Goal, l: Store, p: Path)
    requires x.Sound() && x.Between(l) && p in x.folder
    ensures !Blocked(l.disk, p)
  {
    hide Goal.Between;
    forall a | Ancestor(a, p) && a in l.disk ensures l.disk[a].Folder? {
      assert a in x.folder && x.folder[a].Folder?;
      AtPath(x, l, a);
    }
  }

  /** The map moved to the snapshot at `p` and nowhere else, except that elements the snapshot lacks may have gone. */
  lemma Approach(x: Goal, m: Catalogue, r: Catalogue, p: Path)
    requires x.Halfway(m) && Get(r, p) == Get(x.New(), p)
    requires forall q :: q != p ==> Get(r, q) == Get(m, q) || (q !in r && q !in x.folder)
    ensures x.Halfway(r)
  {
    forall q ensures x.Near(Get(r, q), Get(x.was, q)) || x.Near(Get(r, q), Get(x.New(), q)) {
      assert x.Near(Get(m, q), Get(x.was, q)) || x.Near(Get(m, q), Get(x.New(), q));
    }
  }

  /** What a due event says about the snapshot. */
  lemma DueMeans(x: Goal, e: Event)
    requires x.Sound() && x.Due(e)
    ensures Get(x.New(), e.path) == if e.status == Deletion then None else Some(e.entry)
    ensures if e.status == Deletion then e.path !in x.folder && e.path in x.was && x.was[e.path] == e.entry
            else e.path in x.folder && !x.folder[e.path].Special? && e.entry == EntryOf(x.c.sha, x.folder[e.path])
    ensures e.entry.kind == Regular && e.status != Deletion ==>
              && x.folder[e.path].File? && Content(x.folder, e.path) == x.folder[e.path].data
              && Content(x.folder, e.path) in x.contents
              && |Content(x.folder, e.path)| == e.entry.size && x.c.sha(Content(x.folder, e.path)) == e.entry.hash
    ensures e.entry.kind != Regular && e.status != Deletion ==>
              x.folder[e.path].Folder? && e.entry == Entry(Directory, 0, e.entry.time, ZERO_HASH)
  {
  }

  /** An element of the snapshot was written; on the way to it directories may have been made or aged. */
  lemma PutCloser(x: Goal, l: Store, e: Event, r: Store, code: OkCode)
    requires x.Between(l) && Coherent(x.c, r) && Get(x.New(), e.path) == Some(e.entry)
    requires r.elements == l.elements[e.path := e.entry]
    requires e.path in r.disk && (r.disk[e.path].File? ==> r.disk[e.path].data in x.contents)
    requires forall q :: q in r.disk && q != e.path ==>
               if q in l.disk then r.disk[q] == l.disk[q] || (l.disk[q].Folder? && r.disk[q].Folder?)
               else r.disk[q].Folder? && q in x.folder && x.folder[q].Folder?
    ensures x.Closer(l, e.path, Reply(r, Ok(code)))
  {
    hide Coherent, Goal.Halfway;
    Approach(x, l.elements, r.elements, e.path);
  }

  /** Elements the snapshot does not have were removed. */
  lemma CutCloser(x: Goal, l: Store, e: Event, r: Store, gone: set<Path>, code: OkCode)
    requires x.Between(l) && Coherent(x.c, r) && Get(x.New(), e.path) == None
    requires r.elements == l.elements - gone && r.disk == l.disk - gone
    requires e.path !in r.elements && forall q :: q in gone ==> q !in x.folder
    ensures x.Closer(l, e.path, Reply(r, Ok(code)))
  {
    hide Coherent, Goal.Halfway;
    Approach(x, l.elements, r.elements, e.path);
  }

  lemma ProbeCloser(x: Goal, l: Store, e: Event)
    requires x.Sound() && x.Between(l) && x.Due(e) && e.entry.kind == Regular && e.status != Deletion
    ensures x.Closer(l, e.path, Probe(x.c, l, e.path, e.entry.time, e.entry.hash))
  {
    hide Coherent, Goal.Sound, Goal.Between, Goal.New, Goal.Closer, Goal.Due, Ancestor, Content;
    var p := e.path;
    var out := Probe(x.c, l, p, e.entry.time, e.entry.hash);
    DueMeans(x, e);
    AtPath(x, l, p);
    BetweenIsCoherent(x, l);
    ProbeKeeps(x.c, l, p, e.entry.time, e.entry.hash);
    if p in l.elements && l.elements[p].hash == e.entry.hash {
      SameContent(x, l.disk[p].data, x.folder[p].data);
      PutCloser(x, l, e, out.store, Found);
    } else {
      SendCloser(x, l, e);
    }
  }

  lemma SendCloser(x: Goal, l: Store, e: Event)
    requires x.Between(l)
    ensures x.Closer(l, e.path, Reply(l, Send(e.path, e.entry.hash)))
  {
  }

  lemma SameContent(x: Goal, a: Bytes, b: Bytes)
    requires x.Sound() && a in x.contents && b in x.contents && x.c.sha(a) == x.c.sha(b)
    ensures a == b
  {
  }

  lemma StoreFileCloser(x: Goal, l: Store, e: Event, now: Time)
    requires x.Sound() && x.Between(l) && x.Due(e) && e.entry.kind == Regular && e.status != Deletion
    ensures x.Closer(l, e.path, StoreFile(x.c, l, e.path, e.entry.size, e.entry.time, e.entry.hash, Content(x.folder, e.path), now))
  {
    hide Coherent, Goal.Sound, Goal.Between, Goal.New, Goal.Closer, Goal.Due, EnsureParents, Blocked, Insert, Update, Content;
    var p, data := e.path, Content(x.folder, e.path);
    var r := StoreFile(x.c, l, p, e.entry.size, e.entry.time, e.entry.hash, data, now).store;
    DueMeans(x, e);
    AtPath(x, l, p);
    BetweenIsCoherent(x, l);
    StoreFileKeeps(x.c, l, p, e.entry.size, e.entry.time, e.entry.hash, data, now);
    AncestorsAreFolders(x, l, p);
    ParentsOfSnapshot(x, l, p, now);
    PutCloser(x, l, e, r, Created);
  }

  lemma BetweenIsCoherent(x: Goal, l: Store)
    requires x.Between(l)
    ensures Coherent(x.c, l)
  {
  }

  /** Directories made on the way to an element of the snapshot belong to the snapshot. */
  lemma ParentsOfSnapshot(x: Goal, l: Store, p: Path, now: Time)
    requires x.Sound() && Coherent(x.c, l) && !Blocked(l.disk, p) && p in x.folder
    ensures forall q :: q in EnsureParents(l.disk, p, now) ==>
              var n := EnsureParents(l.disk, p, now)[q];
              if q in l.disk then n == l.disk[q] || (l.disk[q].Folder? && n.Folder?)
              else n.Folder? && q in x.folder && x.folder[q].Folder?
  {
    hide EnsureParents, Blocked, Touched, Matches, View, Unique;
    ParentsCreated(l.disk, p, now);
  }

  lemma RemoveFileCloser(x: Goal, l: Store, e: Event)
    requires x.Sound() && x.Between(l) && x.Due(e) && e.entry.kind == Regular && e.status == Deletion
    ensures x.Closer(l, e.path, RemoveFile(x.c, l, e.path, e.entry.hash))
  {
    hide Coherent, Goal.Sound, Goal.Between, Goal.New, Goal.Closer, Goal.Due, Remove;
    var p := e.path;
    var r := RemoveFile(x.c, l, p, e.entry.hash).store;
    DueMeans(x, e);
    AtPath(x, l, p);
    BetweenIsCoherent(x, l);
    RemoveFileKeeps(x.c, l, p, e.entry.hash);
    CutCloser(x, l, e, r, if p in l.elements then {p} else {}, if p in l.elements then Removed else NotThere);
  }

  /** The directory is on disk: made ahead, or catalogued with another time. */
  lemma MakeDirAgain(x: Goal, l: Store, e: Event, now: Time)
    requires x.Sound() && x.Between(l) && x.Due(e) && e.entry.kind == Directory && e.status != Deletion
    requires e.path in l.disk
    ensures x.Closer(l, e.path, MakeDir(x.c, l, e.path, e.entry.time, now))
  {
    hide Coherent, Goal.Sound, Goal.Between, Goal.New, Goal.Closer, Goal.Due, EnsureParents, Blocked, Insert, Update;
    var p := e.path;
    DueMeans(x, e);
    AtPath(x, l, p);
    BetweenIsCoherent(x, l);
    MakeDirKeeps(x.c, l, p, e.entry.time, now);
    PutCloser(x, l, e, MakeDir(x.c, l, p, e.entry.time, now).store, Created);
  }

  lemma MakeDirCloser(x: Goal, l: Store, e: Event, now: Time)
    requires x.Sound() && x.Between(l) && x.Due(e) && e.entry.kind == Directory && e.status != Deletion
    ensures x.Closer(l, e.path, MakeDir(x.c, l, e.path, e.entry.time, now))
  {
    hide Coherent, Goal.Sound, Goal.Between, Goal.New, Goal.Closer, Goal.Due, EnsureParents, Blocked, Insert, Update;
    var p := e.path;
    if p in l.disk {
      MakeDirAgain(x, l, e, now);
    } else {
      DueMeans(x, e);
      AtPath(x, l, p);
      BetweenIsCoherent(x, l);
      MakeDirKeeps(x.c, l, p, e.entry.time, now);
      AncestorsAreFolders(x, l, p);
      ParentsOfSnapshot(x, l, p, now);
      PutCloser(x, l, e, MakeDir(x.c, l, p, e.entry.time, now).store, Created);
    }
  }

  lemma RemoveDirCloser(x: Goal, l: Store, e: Event)
    requires x.Sound() && x.Between(l) && x.Due(e) && e.entry.kind == Directory && e.status == Deletion
    ensures x.Closer(l, e.path, RemoveDir(x.c, l, e.path))
  {
    hide Coherent, Goal.Between, Goal.New, Goal.Closer, Goal.Due, RemoveSet, Remove;
    var p := e.path;
    var r := RemoveDir(x.c, l, p).store;
    DueMeans(x, e);
    AtPath(x, l, p);
    BetweenIsCoherent(x, l);
    RemoveDirKeeps(x.c, l, p);
    forall q | q in Doomed(l.disk, p) ensures q !in x.folder {}
    CutCloser(x, l, e, r, if p in l.elements then Doomed(l.disk, p) else {}, if p in l.elements then Removed else NotThere);
  }

  lemma DispatchCloser(x: Goal, l: Store, e: Event, now: Time)
    requires x.Sound() && x.Between(l) && x.Due(e)
    ensures Compose(e, Content(x.folder, e.path)).Some?
    ensures x.Closer(l, e.path, Dispatch(x.c, l, Compose(e, Content(x.folder, e.path)).value, e.path, now))
  {
    hide Probe, StoreFile, RemoveFile, MakeDir, RemoveDir, Goal.Between, Goal.Closer;
    if e.entry.kind == Regular {
      match e.status
      case Deletion => RemoveFileCloser(x, l, e);
      case StoreSent => StoreFileCloser(x, l, e, now);
      case _ => ProbeCloser(x, l, e);
    } else {
      match e.status
      case Deletion => RemoveDirCloser(x, l, e);
      case _ => MakeDirCloser(x, l, e, now);
    }
  }

  // ------------------------------------------------------------------ echoes

  /** The server still holds the element as it was, but perhaps for the time. */
  predicate Holds(m: Catalogue, e: Event) {
    e.path in m && m[e.path].(time := e.entry.time) == e.entry
  }

  lemma EchoMeans(x: Goal, e: Event)
    requires x.Sound() && x.Echo(e)
    ensures e.path in x.was && e.entry == x.was[e.path] && e.entry.kind != Unsupported
    ensures Compose(e, Content(x.folder, e.path)).Some?
  {
  }

  lemma EchoedProbe(x: Goal, l: Store, e: Event)
    requires x.Sound() && x.Between(l) && x.Echo(e) && e.entry.kind == Regular && Holds(l.elements, e)
    ensures var out := Probe(x.c, l, e.path, e.entry.time, e.entry.hash);
            && out.alive && x.Between(out.store) && out.replies == [Ok(Found)]
            && out.store.elements == l.elements[e.path := e.entry]
  {
    hide Goal.Between, Goal.New, Goal.Sound, Goal.Echo, Coherent;
    var r := Probe(x.c, l, e.path, e.entry.time, e.entry.hash).store;
    AtPath(x, l, e.path);
    BetweenIsCoherent(x, l);
    ProbeKeeps(x.c, l, e.path, e.entry.time, e.entry.hash);
    EchoBetween(x, l, r, e);
  }

  lemma EchoedMake(x: Goal, l: Store, e: Event, now: Time)
    requires x.Sound() && x.Between(l) && x.Echo(e) && e.entry.kind == Directory && Holds(l.elements, e)
    ensures var out := MakeDir(x.c, l, e.path, e.entry.time, now);
            && out.alive && x.Between(out.store) && out.replies == [Ok(Created)]
            && out.store.elements == l.elements[e.path := e.entry]
  {
    hide Goal.Between, Goal.New, Goal.Sound, Coherent, EnsureParents, Blocked, Insert, Update;
    var r := MakeDir(x.c, l, e.path, e.entry.time, now).store;
    AtPath(x, l, e.path);
    BetweenIsCoherent(x, l);
    MakeDirKeeps(x.c, l, e.path, e.entry.time, now);
    EchoBetween(x, l, r, e);
  }

  /** An echo is answered OK and leaves its path as it was. */
  lemma EchoIsHarmless(x: Goal, l: Store, e: Event, now: Time)
    requires x.Sound() && x.Between(l) && x.Echo(e) && Holds(l.elements, e)
    requires Compose(e, Content(x.folder, e.path)).Some?
    ensures var out := Dispatch(x.c, l, Compose(e, Content(x.folder, e.path)).value, e.path, now);
            && out.alive && x.Between(out.store) && |out.replies| == 1 && out.replies[0].Ok?
            && out.store.elements == l.elements[e.path := e.entry]
  {
    hide Goal.Between, Goal.New, Goal.Sound, Probe, MakeDir;
    EchoMeans(x, e);
    if e.entry.kind == Regular {
      EchoedProbe(x, l, e);
    } else {
      EchoedMake(x, l, e, now);
    }
  }

  lemma EchoBetween(x: Goal, l: Store, r: Store, e: Event)
    requires x.Between(l) && Coherent(x.c, r) && x.Echo(e) && r.elements == l.elements[e.path := e.entry]
    requires forall q :: q in r.disk ==> q in l.disk && (r.disk[q].File? ==> l.disk[q].File? && l.disk[q].data == r.disk[q].data)
    requires forall q :: q in r.disk && r.disk[q].Folder? <==> q in l.disk && l.disk[q].Folder?
    ensures x.Between(r)
  {
    hide Coherent;
    forall q ensures x.Near(Get(r.elements, q), Get(x.was, q)) || x.Near(Get(r.elements, q), Get(x.New(), q)) {
      assert x.Near(Get(l.elements, q), Get(x.was, q)) || x.Near(Get(l.elements, q), Get(x.New(), q));
    }
    assert forall q :: q in r.disk && q !in r.elements ==> q !in l.elements && q in l.disk;
  }

  /** A due PROB or MKD changes at most the time of what the server holds. */
  lemma DueKeepsHolding(x: Goal, l: Store, e: Event, f: Event, now: Time)
    requires x.Sound() && x.Between(l) && x.Due(f) && x.Echo(e) && e.path == f.path && Holds(l.elements, e)
    requires f.status != StoreSent && Compose(f, Content(x.folder, f.path)).Some?
    ensures Holds(Dispatch(x.c, l, Compose(f, Content(x.folder, f.path)).value, f.path, now).store.elements, e)
  {
    hide Goal.Between, Goal.New, Goal.Near, Goal.Due, Coherent, EnsureParents, Blocked, Insert, Update, Remove;
    DueMeans(x, f);
  }
}
