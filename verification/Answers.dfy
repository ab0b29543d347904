/** What an answer of the server says about what is there, and what a command leaves behind. */
module Answers {
  import opened Base
  import opened Table
  import opened Validator
  import opened Server
  import opened Coherence
  import opened Guarantees
  import opened Replay

  /** A catalogued file with this hash. */
  predicate FileWith(c: Session, s: Store, p: Path, hash: Hash) {
    p in s.elements && p in s.disk && s.disk[p].File? && c.sha(s.disk[p].data) == hash
  }

  /** A file cannot be put there: the way is barred by something that is no directory, or a directory is there. */
  predicate Obstructed(d: Tree, p: Path) { Blocked(d, p) || FolderAt(d, p) }

  /** Disk, map and row say the same about an element, time included. */
  ghost predicate Exact(c: Session, s: Store, p: Path) {
    && p in s.disk && p in s.elements && p in View(s.rows, c.owner)
    && s.elements[p] == View(s.rows, c.owner)[p] == EntryOf(c.sha, s.disk[p])
  }

  /** Nowhere. */
  ghost predicate Nowhere(c: Session, s: Store, p: Path) {
    p !in s.disk && p !in s.elements && p !in View(s.rows, c.owner)
  }

  /** PROB: found if and only if the very content is there; refused if and only if a directory is. The time
      asked for is then that of disk and map; the table is never touched. */
  lemma ProbeTells(c: Session, s: Store, p: Path, time: Time, hash: Hash)
    requires Coherent(c, s)
    ensures var out := Probe(c, s, p, time, hash);
            var r, t := out.replies[0], out.store;
            && (r == Ok(Found) <==> FileWith(c, s, p, hash))
            && (r == Err(NotAFile) <==> p in s.elements && FolderAt(s.disk, p))
            && (r == Send(p, hash) <==> p !in s.elements || (Solid(s.disk, p) && !FileWith(c, s, p, hash)))
            && t.rows == s.rows
            && (if r == Ok(Found) then t.disk[p] == File(s.disk[p].data, time) && t.elements[p] == EntryOf(c.sha, t.disk[p])
                else t == s)
  {
    hide View, Unique, Closed;
    assert p in s.elements ==> SameElement(s.elements[p], EntryOf(c.sha, s.disk[p]));
  }

  /** STOR: created if and only if the data is what was announced and may be put there; then it is there, with
      the time of the client, on disk, in the map and in the table. */
  lemma StoreTells(c: Session, s: Store, p: Path, size: nat, time: Time, hash: Hash, data: Bytes, now: Time)
    requires Coherent(c, s)
    ensures var out := StoreFile(c, s, p, size, time, hash, data, now);
            var r, t, good := out.replies[0], out.store, |data| == size && c.sha(data) == hash;
            && (r == Ok(Created) <==> good && !Obstructed(s.disk, p))
            && (r == Err(StoreFailed) <==> !good)
            && (r == Err(Exception) <==> good && Obstructed(s.disk, p))
            && (r == Ok(Created) ==> Exact(c, t, p) && t.disk[p] == File(data, time))
  {
    hide View, Unique, Insert, Update, EnsureParents, Blocked, Matches;
    var t := StoreFile(c, s, p, size, time, hash, data, now).store;
    CataloguedRows(c, s, t.disk, p, Entry(Regular, size, time, hash));
  }

  /** DELE: removed if and only if the very content was there, and then it is nowhere; not there if and only if
      nothing is catalogued; otherwise refused. */
  lemma DeleteTells(c: Session, s: Store, p: Path, hash: Hash)
    requires Coherent(c, s)
    ensures var out := RemoveFile(c, s, p, hash);
            var r, t := out.replies[0], out.store;
            && (r == Ok(Removed) <==> FileWith(c, s, p, hash))
            && (r == Ok(NotThere) <==> p !in s.elements)
            && (r == Err(RemoveFailed) <==> p in s.elements && !FileWith(c, s, p, hash))
            && (if r == Ok(Removed) then Nowhere(c, t, p) else t == s)
  {
    hide View, Unique, Closed, Remove;
    assert p in s.elements ==> SameElement(s.elements[p], EntryOf(c.sha, s.disk[p]));
    RemoveEffect(s.rows, c.owner, p, c.owner);
  }

  /** The time asked for is already on record: MKD then looks no further. */
  predicate OnRecord(s: Store, p: Path, time: Time) { p in s.elements && s.elements[p].time == time }

  /** MKD: refused if and only if something else is there, an exception if and only if the way is barred, and
      created otherwise; then the directory is there, with the time of the client, on disk, in the map and in
      the table. The exception to all this is an element that has this time already, be it a file. */
  lemma MakeTells(c: Session, s: Store, p: Path, time: Time, now: Time)
    requires Coherent(c, s)
    ensures var out := MakeDir(c, s, p, time, now);
            var r, t := out.replies[0], out.store;
            && (r == Err(NotADir) <==> Solid(s.disk, p) && !OnRecord(s, p, time))
            && (r == Err(Exception) <==> p !in s.disk && Blocked(s.disk, p))
            && (r == Ok(Created) <==> OnRecord(s, p, time) || FolderAt(s.disk, p) || (p !in s.disk && !Blocked(s.disk, p)))
            && (OnRecord(s, p, time) ==> t == s)
            && (r == Ok(Created) && !OnRecord(s, p, time) ==> Exact(c, t, p) && t.disk[p] == Folder(time))
            && (r == Ok(Created) ==> (FolderAt(t.disk, p) && DirAt(t.elements, p) <==> !(OnRecord(s, p, time) && Solid(s.disk, p))))
  {
    hide View, Unique, Insert, Update, EnsureParents, Blocked;
    var t := MakeDir(c, s, p, time, now).store;
    assert p in s.elements ==> p in s.disk && SameElement(s.elements[p], EntryOf(c.sha, s.disk[p]));
    CataloguedRows(c, s, t.disk, p, Entry(Directory, 0, time, ZERO_HASH));
  }

  /** RMD: removed if and only if a catalogued directory was there, not there if and only if nothing was
      catalogued, refused if and only if a file is there. */
  lemma RemoveTells(c: Session, s: Store, p: Path)
    requires Coherent(c, s)
    ensures var out := RemoveDir(c, s, p);
            var r, t := out.replies[0], out.store;
            && (r == Ok(Removed) <==> p in s.elements && FolderAt(s.disk, p))
            && (r == Ok(NotThere) <==> p !in s.elements)
            && (r == Err(NotADir) <==> p in s.elements && Solid(s.disk, p))
            && (if r == Ok(Removed) then Nowhere(c, t, p) else t == s)
  {
    hide View, Unique, Closed, RemoveSet;
    assert p in s.elements ==> SameElement(s.elements[p], EntryOf(c.sha, s.disk[p]));
    RemoveSetEffect(s.rows, c.owner, Doomed(s.disk, p), c.owner);
  }

  /** An element that somebody has removed on the server since it was catalogued: deleting it forgets it, making it
      again makes it, and only PROB stumbles over it, when it was asked to change the time. */
  lemma VanishedElement(c: Session, s: Store, k: Command, now: Time)
    requires k.path in s.elements && k.path in View(s.rows, c.owner) && k.path !in s.disk
    ensures var out, p := Dispatch(c, s, k, k.path, now), k.path;
            var r, t, el := out.replies[0], out.store, s.elements[k.path];
            match k
            case Prob(_, time, hash) =>
              t == s && r == (if el.kind != Regular then Err(NotAFile) else if el.hash != hash then Send(p, hash)
                              else if el.time == time then Ok(Found) else Err(Exception))
            case Dele(_, _) => r == Ok(NotThere) && Nowhere(c, t, p)
            case Rmd(_) => r == Ok(NotThere) && Nowhere(c, t, p)
            case Stor(_, size, time, hash, data) =>
              |data| == size && c.sha(data) == hash && !Blocked(s.disk, p) ==>
                r == Ok(Created) && Exact(c, t, p) && t.disk[p] == File(data, time)
            case Mkd(_, time) => !Blocked(s.disk, p) ==> r == Ok(Created) && Exact(c, t, p) && t.disk[p] == Folder(time)
  {
    hide View, Insert, Update, Remove, EnsureParents, Blocked, Ancestor;
    RemoveEffect(s.rows, c.owner, k.path, c.owner);
    match k
    case Stor(p, size, time, hash, _) => UpdateEffect(s.rows, c.owner, p, Entry(Regular, size, time, hash), c.owner);
    case Mkd(p, time) => UpdateEffect(s.rows, c.owner, p, Entry(Directory, 0, time, ZERO_HASH), c.owner);
    case _ =>
  }

  /** Paths a command may touch besides its own: what a recursive removal takes with it. */
  predicate Taken(k: Command, q: Path) { q == k.path || (k.Rmd? && Ancestor(k.path, q)) }

  lemma RowsElsewhere(c: Session, s: Store, k: Command, now: Time, q: Path)
    requires Coherent(c, s) && !Taken(k, q)
    ensures var t := Dispatch(c, s, k, k.path, now).store;
            Get(View(t.rows, c.owner), q) == Get(View(s.rows, c.owner), q)
  {
    hide View, Unique, EnsureParents, Blocked, Insert, Update, Remove, RemoveSet, Matches, Closed;
    var p := k.path;
    RemoveEffect(s.rows, c.owner, p, c.owner);
    RemoveSetEffect(s.rows, c.owner, Doomed(s.disk, p), c.owner);
    match k
    case Stor(_, size, time, hash, _) => CataloguedRows(c, s, s.disk, p, Entry(Regular, size, time, hash));
    case Mkd(_, time) => CataloguedRows(c, s, s.disk, p, Entry(Directory, 0, time, ZERO_HASH));
    case _ =>
  }

  /** No command changes anything elsewhere: but for directories on the way to what STOR and MKD make, which
      appear where they were missing, and one of which may get a new time on disk. */
  lemma NothingElse(c: Session, s: Store, k: Command, now: Time, q: Path)
    requires Coherent(c, s) && !Taken(k, q)
    ensures var t := Dispatch(c, s, k, k.path, now).store;
            && Get(t.elements, q) == Get(s.elements, q)
            && Get(View(t.rows, c.owner), q) == Get(View(s.rows, c.owner), q)
            && (Get(t.disk, q) == Get(s.disk, q)
                || ((k.Stor? || k.Mkd?) && Ancestor(q, k.path) && Get(t.disk, q) == Some(Folder(now)) && !Solid(s.disk, q)))
  {
    RowsElsewhere(c, s, k, now, q);
    hide View, Unique, EnsureParents, Insert, Update, Remove, RemoveSet, Matches, Closed, Ancestor, Touched, Blocked;
    if (k.Stor? || k.Mkd?) && !Blocked(s.disk, k.path) {
      ParentsCreated(s.disk, k.path, now) by { hide *; CoherentIsClosed(c, s); }
    }
  }

  lemma CoherentIsClosed(c: Session, s: Store)
    requires Coherent(c, s)
    ensures Closed(s.disk)
  {
  }

  /** A command is dropped without an answer if and only if its path is malformed, or it has a time and that is. */
  lemma SilentIff(c: Session, s: Store, k: Command, now: Time)
    ensures Handle(c, s, k, now).replies == [] <==>
            ValidatePath(k.path) == None
            || (k.Prob? && !ValidTime(k.time)) || (k.Stor? && !ValidTime(k.time)) || (k.Mkd? && !ValidTime(k.time))
  {
    hide Recover, ValidatePath, ValidTime, Probe, StoreFile, RemoveFile, MakeDir, RemoveDir;
  }

  /** Backslashes and a trailing slash in a path make no difference. */
  lemma SpellingIsIrrelevant(c: Session, s: Store, k: Command, now: Time, q: Path)
    requires ValidatePath(k.path) == Some(q) && ValidatePath(q) == Some(q)
    ensures Handle(c, s, k, now) == Handle(c, s, k.(path := q), now)
  {
    hide Recover, ValidatePath, ValidTime, Probe, StoreFile, RemoveFile, MakeDir, RemoveDir;
  }
}
