/** client/ProtocolManager.cpp and client/Database.cpp as state transformers: what is sent for an
    event, and what an answer does to the window of unanswered messages and to the client database. */
module Client {
  import opened Base
  import opened Server
  import opened Table

  /** FileSystemStatus: created, modified, deleted, storeSent. */
  datatype Status = Creation | Modification | Deletion | StoreSent

  datatype Event = Event(path: Path, entry: Entry, status: Status)

  /** The messages waiting for an answer, oldest first, and the client database. The path column
      of that table is UNIQUE, so INSERT OR REPLACE makes it a map. */
  datatype Client = Client(window: seq<Event>, db: Catalogue)

  /** The client database as the watcher reads it: sizes through sqlite3_column_int. */
  function Loaded(db: Catalogue): Catalogue { map p | p in db :: ReadBack(db[p]) }

  function DbInsert(db: Catalogue, p: Path, e: Entry): Catalogue { db[p := Stored(e)] }

  /** UPDATE touches nothing when the path has no row. */
  function DbUpdate(db: Catalogue, p: Path, e: Entry): Catalogue {
    if p in db then db[p := Stored(e)] else db
  }

  function DbRemove(db: Catalogue, p: Path): Catalogue { db - {p} }

  /** _composeMessage; None is the exception for an unsupported status. `data` follows a STOR. */
  function Compose(e: Event, data: Bytes): Option<Command> {
    if e.entry.kind == Regular then
      match e.status
      case Creation => Some(Prob(e.path, e.entry.time, e.entry.hash))
      case Modification => Some(Prob(e.path, e.entry.time, e.entry.hash))
      case Deletion => Some(Dele(e.path, e.entry.hash))
      case StoreSent => Some(Stor(e.path, e.entry.size, e.entry.time, e.entry.hash, data))
    else
      match e.status
      case Creation => Some(Mkd(e.path, e.entry.time))
      case Modification => Some(Mkd(e.path, e.entry.time))
      case Deletion => Some(Rmd(e.path))
      case StoreSent => None
  }

  /** The file has gone or changed since the event was made. */
  predicate Stale(sha: Digest, folder: Tree, e: Event) {
    e.path !in folder || EntryOf(sha, folder[e.path]).hash != e.entry.hash
  }

  function Content(folder: Tree, p: Path): Bytes {
    if p in folder && folder[p].File? then folder[p].data else []
  }

  // ---------------------------------------------------------------- receive

  /** How receive() ends: with the head answered; with the head popped and a STOR to be sent,
      pushed and followed by its data; or with an exception that stops the program. */
  datatype Reaction = Answered(client: Client) | Transfer(client: Client, store: Event) | Fatal

  /** The database after OK for event `e`. */
  function Record(db: Catalogue, e: Event): Catalogue {
    match e.status
    case Creation => DbInsert(db, e.path, e.entry)
    case StoreSent => DbInsert(db, e.path, e.entry)
    case Modification => DbUpdate(db, e.path, e.entry)
    case Deletion => DbRemove(db, e.path)
  }

  predicate Skippable(e: ErrCode) {
    e in {NotAFile, StoreFailed, RemoveFailed, NotADir, Unexpected}
  }

  function React(sha: Digest, folder: Tree, c: Client, r: Response): Reaction
    requires c.window != []
  {
    var e := c.window[0];
    var popped := c.(window := c.window[1..]);
    match r
    case Send(path, hash) =>
      if !(e.entry.kind == Regular && (e.status == Creation || e.status == Modification)) then Fatal
      else if e.path != path || e.entry.hash != hash then Fatal
      else if Stale(sha, folder, e) then Answered(popped)
      else Transfer(popped, Event(e.path, e.entry, StoreSent))
    case Ok(code) =>
      if code in {Found, Created, NotThere, Removed} then Answered(popped.(db := Record(c.db, e))) else Fatal
    case Err(error) =>
      if Skippable(error) then Answered(popped) else Fatal
  }

  // ------------------------------------------------------- recoverFromError

  /** An entry recoverFromError steps over, without taking it out of the window. */
  predicate Skipped(sha: Digest, folder: Tree, e: Event) {
    e.status == StoreSent && Stale(sha, folder, e)
  }

  function Resend(sha: Digest, folder: Tree, window: seq<Event>): (ks: seq<Command>)
    ensures |ks| <= |window|
  {
    if window == [] then []
    else
      var k := Compose(window[0], Content(folder, window[0].path));
      (if Skipped(sha, folder, window[0]) || k.None? then [] else [k.value]) + Resend(sha, folder, window[1..])
  }
}
