/** server/ProtocolManager.cpp as state transformers: what each command does to the
    user's folder on disk, to the table and to the map `_elements`, and what is answered. */
module Server {
  import opened Base
  import opened Table
  import opened Validator

  /** The three stores of one session, and whether recoverFromDB has run in it. */
  datatype Store = Store(disk: Tree, rows: Rows, elements: Catalogue, recovered: bool)

  /** `replies` is what reaches the socket. When `alive` is false an exception has left
      receive(), which closes the connection. */
  datatype Outcome = Outcome(store: Store, replies: seq<Response>, alive: bool)

  /** A session: whose folder it serves, and the digest. */
  datatype Session = Session(owner: Owner, sha: Digest)

  /** A command and the clock of the server while it runs. */
  datatype Request = Request(command: Command, now: Time)

  function Reply(s: Store, r: Response): Outcome { Outcome(s, [r], true) }

  /** The std::exception handler of receive(): answer ERR(exception) and rethrow. */
  function Throw(s: Store): Outcome { Outcome(s, [Err(Exception)], false) }

  // --------------------------------------------------------- recoverFromDB

  /** Paths of rows whose element on disk is not what the row says. */
  function ChangedIn(c: Session, disk: Tree, rows: Rows): set<Path> {
    set r | r in rows && r.path in disk && ReadBack(r.entry) != EntryOf(c.sha, disk[r.path]) :: r.path
  }

  function GoneIn(disk: Tree, rows: Rows): set<Path> {
    set r | r in rows && r.path !in disk :: r.path
  }

  function Changed(c: Session, s: Store): set<Path> { ChangedIn(c, s.disk, Select(s.rows, c.owner)) }

  function Gone(c: Session, s: Store): set<Path> { GoneIn(s.disk, Select(s.rows, c.owner)) }

  function OnDisk(c: Session, disk: Tree, ps: set<Path>): Catalogue {
    map p | p in ps && p in disk :: EntryOf(c.sha, disk[p])
  }

  function Recover(c: Session, s: Store): (r: Store)
    ensures r.recovered && r.disk == s.disk
  {
    var rows := RemoveSet(UpdateWith(s.rows, c.owner, OnDisk(c, s.disk, Changed(c, s))), c.owner, Gone(c, s));
    Store(s.disk, rows, OnDisk(c, s.disk, View(s.rows, c.owner).Keys) + s.elements, true)
  }

  /** Every handler starts by recovering, once a session. */
  function Live(c: Session, s: Store): Store {
    if s.recovered then s else Recover(c, s)
  }

  // ------------------------------------------------------ directory creation

  /** Something on the way to `p` is not a directory, so create_directories and rename throw. */
  predicate Blocked(disk: Tree, p: Path) {
    exists a :: a in AncestorsOf(p) && a in disk && !disk[a].Folder?
  }

  function MissingParents(disk: Tree, p: Path): set<Path> {
    set a | a in AncestorsOf(p) && a !in disk
  }

  /** The directory in which create_directories puts the first missing one: its time moves. */
  predicate Touched(disk: Tree, p: Path, q: Path) {
    && q in disk && Ancestor(q, p) && MissingParents(disk, p) != {}
    && forall a :: a in AncestorsOf(p) && |a| > |q| ==> a !in disk
  }

  /** create_directories(parent of p), when the parent is missing. The parent's own time is
      saved and restored around what follows; that of the directory above is not. */
  function EnsureParents(disk: Tree, p: Path, now: Time): Tree {
    var missing := MissingParents(disk, p);
    map q | q in disk.Keys + missing ::
      if q in missing then Folder(now)
      else if Touched(disk, p, q) then WithTime(disk[q], now)
      else disk[q]
  }

  // ---------------------------------------------------------------- handlers

  /** Row and map entry of one element, inserted or overwritten together. */
  function Catalogued(c: Session, s: Store, disk: Tree, p: Path, e: Entry): Store {
    s.(disk := disk,
       rows := if p in s.elements then Update(s.rows, c.owner, p, e) else Insert(s.rows, c.owner, p, e),
       elements := s.elements[p := e])
  }

  function Forget(c: Session, s: Store, p: Path): Store {
    s.(rows := Remove(s.rows, c.owner, p), elements := s.elements - {p})
  }

  function Probe(c: Session, s: Store, p: Path, time: Time, hash: Hash): (out: Outcome)
    ensures out.store.recovered == s.recovered
    ensures |out.replies| == 1 && (out.alive <==> out.replies != [Err(Exception)])
    ensures out.replies[0].Err? ==> out.store == s
  {
    if p !in s.elements then Reply(s, Send(p, hash))
    else
      var el := s.elements[p];
      if el.kind != Regular then Reply(s, Err(NotAFile))
      else if el.hash != hash then Reply(s, Send(p, hash))
      else if el.time == time then Reply(s, Ok(Found))
      else if p !in s.disk then Throw(s)
      else Reply(s.(disk := s.disk[p := WithTime(s.disk[p], time)], elements := s.elements[p := el.(time := time)]),
                 Ok(Found))
  }

  /** After the DATA run: `data` is the content of the temporary file. */
  function StoreFile(c: Session, s: Store, p: Path, size: nat, time: Time, hash: Hash, data: Bytes, now: Time): (out: Outcome)
    ensures out.store.recovered == s.recovered
    ensures |out.replies| == 1 && (out.alive <==> out.replies != [Err(Exception)])
    ensures out.replies[0].Err? ==> out.store == s
  {
    if |data| != size || c.sha(data) != hash then Reply(s, Err(StoreFailed))
    else if Blocked(s.disk, p) || (p in s.disk && s.disk[p].Folder?) then Throw(s)
    else
      var disk := EnsureParents(s.disk, p, now)[p := File(data, time)];
      Reply(Catalogued(c, s, disk, p, Entry(Regular, size, time, hash)), Ok(Created))
  }

  function RemoveFile(c: Session, s: Store, p: Path, hash: Hash): (out: Outcome)
    ensures out.store.recovered == s.recovered
    ensures |out.replies| == 1 && (out.alive <==> out.replies != [Err(Exception)])
    ensures out.replies[0].Err? ==> out.store == s
  {
    if p !in s.elements then Reply(s, Ok(NotThere))
    else if p !in s.disk then Reply(Forget(c, s, p), Ok(NotThere))
    else if s.elements[p].kind != Regular || s.elements[p].hash != hash then Reply(s, Err(RemoveFailed))
    else if s.disk[p].Folder? && (exists q :: q in s.disk && Ancestor(p, q)) then Throw(s)
    else Reply(Forget(c, s, p).(disk := s.disk - {p}), Ok(Removed))
  }

  function MakeDir(c: Session, s: Store, p: Path, time: Time, now: Time): (out: Outcome)
    ensures out.store.recovered == s.recovered
    ensures |out.replies| == 1 && (out.alive <==> out.replies != [Err(Exception)])
    ensures out.replies[0].Err? ==> out.store == s
  {
    if p in s.elements && p in s.disk && s.elements[p].time == time then Reply(s, Ok(Created))
    else if p !in s.disk && Blocked(s.disk, p) then Throw(s)
    else if p in s.disk && !s.disk[p].Folder? then Reply(s, Err(NotADir))
    else
      var disk := (if p in s.disk then s.disk else EnsureParents(s.disk, p, now))[p := Folder(time)];
      Reply(Catalogued(c, s, disk, p, Entry(Directory, 0, time, ZERO_HASH)), Ok(Created))
  }

  /** What the recursive iterator finds below `p`, and `p`. */
  function Doomed(disk: Tree, p: Path): set<Path> {
    {p} + set q | q in disk && Ancestor(p, q)
  }

  function RemoveDir(c: Session, s: Store, p: Path): (out: Outcome)
    ensures out.store.recovered == s.recovered
    ensures |out.replies| == 1 && (out.alive <==> out.replies != [Err(Exception)])
    ensures out.replies[0].Err? ==> out.store == s
  {
    if p !in s.elements then Reply(s, Ok(NotThere))
    else if p !in s.disk then Reply(Forget(c, s, p), Ok(NotThere))
    else if s.elements[p].kind != Directory then Reply(s, Err(NotADir))
    else if !s.disk[p].Folder? then Throw(s)
    else
      var d := Doomed(s.disk, p);
      Reply(s.(disk := s.disk - d, rows := RemoveSet(s.rows, c.owner, d), elements := s.elements - d), Ok(Removed))
  }

  // ---------------------------------------------------------------- dispatch

  predicate TimeAccepted(k: Command) {
    match k
    case Prob(_, time, _) => ValidTime(time)
    case Stor(_, _, time, _, _) => ValidTime(time)
    case Mkd(_, time) => ValidTime(time)
    case _ => true
  }

  function Dispatch(c: Session, s: Store, k: Command, p: Path, now: Time): (out: Outcome)
    ensures out.store.recovered == s.recovered
    ensures |out.replies| == 1 && (out.alive <==> out.replies != [Err(Exception)])
    ensures out.replies[0].Err? ==> out.store == s
  {
    match k
    case Prob(_, time, hash) => Probe(c, s, p, time, hash)
    case Stor(_, size, time, hash, data) => StoreFile(c, s, p, size, time, hash, data, now)
    case Dele(_, hash) => RemoveFile(c, s, p, hash)
    case Mkd(_, time) => MakeDir(c, s, p, time, now)
    case Rmd(_) => RemoveDir(c, s, p)
  }

  /** receive(): a command that fails validation is dropped without any answer. */
  function Handle(c: Session, s: Store, k: Command, now: Time): Outcome {
    var l := Live(c, s);
    match ValidatePath(k.path)
    case None => Outcome(l, [], true)
    case Some(p) => if TimeAccepted(k) then Dispatch(c, l, k, p, now) else Outcome(l, [], true)
  }

  /** Accepted as it stands: the Validator neither refuses nor rewrites it. */
  predicate Valid(k: Command) {
    ValidatePath(k.path) == Some(k.path) && TimeAccepted(k)
  }

  /** A new session starts with an empty map, which its first command fills from the table. */
  function Restart(s: Store): Store { s.(elements := map[], recovered := false) }

  /** A session serves its requests in order and stops at an exception. */
  function Run(c: Session, s: Store, rs: seq<Request>): Store
    decreases |rs|
  {
    if rs == [] then s
    else
      var out := Handle(c, s, rs[0].command, rs[0].now);
      if out.alive then Run(c, out.store, rs[1..]) else out.store
  }
}
