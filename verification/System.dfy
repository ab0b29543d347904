/** The whole backup system: watcher, event queue, client window, the two directions of the
    connection and the server, with connections that may break anywhere and be made again. */
module System {
  import opened Base
  import opened Table
  import opened Validator
  import opened Server
  import opened Guarantees
  import opened Client

  datatype Config = Config(session: Session, queueSize: nat, windowSize: nat)

  /** One watched element and what happened to it; a STOR event stands for the same change as the
      PROB event it replaces. */
  datatype Token = Token(path: Path, entry: Entry, deletion: bool)

  datatype Sys = Sys(
    folder: Tree, paths: Catalogue,               // the watched folder and the watcher's record of it
    requeue: seq<Event>,                          // what recoverFromDB has still to push before watching begins
    queue: seq<Event>, client: Client,
    up: bool, halted: bool,                       // the client's connection; the client has stopped
    toServer: seq<Command>, toClient: seq<Response>,
    server: Store, serving: bool,                 // the server side of the connection
    accepted: multiset<Token>, resolved: multiset<Token>)   // history: pushed by the watcher, done with

  function TokenOf(e: Event): Token { Token(e.path, e.entry, e.status == Deletion) }

  function Tokens(es: seq<Event>): multiset<Token> {
    if es == [] then multiset{} else multiset{TokenOf(es[0])} + Tokens(es[1..])
  }

  // ------------------------------------------------------------------ watcher

  /** What FileSystemWatcher::start reports about one path, if anything. */
  function Difference(sha: Digest, paths: Catalogue, folder: Tree, p: Path): Option<Event> {
    if p !in folder then
      if p in paths then Some(Event(p, paths[p], Deletion)) else None
    else if folder[p].Special? then None
    else
      var now := EntryOf(sha, folder[p]);
      if p !in paths then Some(Event(p, now, Creation))
      else if paths[p] != now then Some(Event(p, now, Modification))
      else None
  }

  /** The differences between folder and record. */
  function Differing(sha: Digest, paths: Catalogue, folder: Tree): set<Path> {
    set p | p in folder.Keys + paths.Keys && Difference(sha, paths, folder, p).Some?
  }

  /** The watcher's record after the queue took the event. */
  function Noted(paths: Catalogue, e: Event): Catalogue {
    if e.status == Deletion then paths - {e.path} else paths[e.path := e.entry]
  }

  // -------------------------------------------------------------------- steps

  datatype Label =
    | Requeue                  // the watcher pushes the next element read from the database at start
    | Notice(p: Path)          // the watcher reports a difference and the queue has room
    | SendNext                 // communicate: send(front) then pop
    | SendFails                // ... the write fails, the event stays in the queue
    | Serve(now: Time)         // the server carries out one command
    | Receive                  // the client processes one answer
    | StorHeaderFails          // ... writing the STOR message fails between pop and push
    | StorDataFails            // ... writing the file fails after the push
    | Disconnect               // the connection breaks or is closed for idleness
    | Reconnect(n: nat)        // a new connection; n messages are sent again before it breaks, or all
    | Change(folder: Tree)     // the user changes the watched folder

  predicate MaySend(g: Config, s: Sys) {
    s.up && !s.halted && s.queue != [] && |s.client.window| < g.windowSize
  }

  predicate MayReceive(s: Sys) {
    s.up && !s.halted && s.toClient != [] && s.client.window != []
  }

  function Reacts(g: Config, s: Sys): Reaction
    requires MayReceive(s)
  {
    React(g.session.sha, s.folder, s.client, s.toClient[0])
  }

  predicate Enabled(g: Config, s: Sys, l: Label) {
    match l
    case Requeue => s.requeue != [] && |s.queue| < g.queueSize
    case Notice(p) => s.requeue == [] && |s.queue| < g.queueSize && Difference(g.session.sha, s.paths, s.folder, p).Some?
    case SendNext => MaySend(g, s)
    case SendFails => MaySend(g, s)
    case Serve(_) => s.serving && s.toServer != []
    case Receive => MayReceive(s)
    case StorHeaderFails => MayReceive(s) && Reacts(g, s).Transfer?
    case StorDataFails => MayReceive(s) && Reacts(g, s).Transfer?
    case Disconnect => s.up
    case Reconnect(n) =>
      && !s.up && !s.halted && (s.client.window != [] || s.queue != [])
      && n <= |Resend(g.session.sha, s.folder, s.client.window)|
    case Change(_) => true
  }

  /** An element that no longer exists is passed over. */
  function AfterRequeue(s: Sys): Sys
    requires s.requeue != []
  {
    var e, t := s.requeue[0], s.(requeue := s.requeue[1..]);
    if e.path in s.folder then t.(queue := s.queue + [e], accepted := s.accepted + multiset{TokenOf(e)}) else t
  }

  function AfterNotice(g: Config, s: Sys, p: Path): Sys
    requires Enabled(g, s, Notice(p))
  {
    var e := Difference(g.session.sha, s.paths, s.folder, p).value;
    s.(paths := Noted(s.paths, e), queue := s.queue + [e], accepted := s.accepted + multiset{TokenOf(e)})
  }

  /** send() drops an event about an unsupported element; otherwise it is sent and enters the window. */
  function AfterSend(g: Config, s: Sys): Sys
    requires MaySend(g, s)
  {
    var e := s.queue[0];
    var k := Compose(e, []);
    if e.entry.kind == Unsupported then s.(queue := s.queue[1..], resolved := s.resolved + multiset{TokenOf(e)})
    else if k.None? then s.(halted := true, up := false)
    else s.(queue := s.queue[1..], client := s.client.(window := s.client.window + [e]), toServer := s.toServer + [k.value])
  }

  function AfterServe(g: Config, s: Sys, now: Time): Sys
    requires s.toServer != []
  {
    var out := Handle(g.session, s.server, s.toServer[0], now);
    s.(toServer := s.toServer[1..], toClient := s.toClient + out.replies, server := out.store, serving := out.alive)
  }

  function AfterReceive(g: Config, s: Sys): Sys
    requires MayReceive(s)
  {
    var t := s.(toClient := s.toClient[1..]);   // an exception ends the program instead
    match Reacts(g, s)
    case Answered(c) => t.(client := c, resolved := s.resolved + multiset{TokenOf(s.client.window[0])})
    case Transfer(c, e) =>
      t.(client := c.(window := c.window + [e]),
         toServer := s.toServer + [Stor(e.path, e.entry.size, e.entry.time, e.entry.hash, Content(s.folder, e.path))])
    case Fatal => s.(halted := true, up := false)
  }

  function AfterReconnect(g: Config, s: Sys, n: nat): Sys
    requires Enabled(g, s, Reconnect(n))
  {
    var ks := Resend(g.session.sha, s.folder, s.client.window);
    s.(up := n == |ks|, toServer := ks[..n], toClient := [], server := Restart(s.server), serving := true)
  }

  function Apply(g: Config, s: Sys, l: Label): Sys
    requires Enabled(g, s, l)
  {
    match l
    case Requeue => AfterRequeue(s)
    case Notice(p) => AfterNotice(g, s, p)
    case SendNext => AfterSend(g, s)
    case SendFails => s.(up := false)
    case Serve(now) => AfterServe(g, s, now)
    case Receive => AfterReceive(g, s)
    case StorHeaderFails => s.(client := Reacts(g, s).client, toClient := s.toClient[1..], up := false)
    case StorDataFails =>
      var r := Reacts(g, s);
      s.(client := r.client.(window := r.client.window + [r.store]), toClient := s.toClient[1..], up := false)
    case Disconnect => s.(up := false)
    case Reconnect(n) => AfterReconnect(g, s, n)
    case Change(f) => s.(folder := f)
  }

  /** A run of the system: one label after the other, each enabled where it happens. */
  ghost predicate Runs(g: Config, s: Sys, ls: seq<Label>, t: Sys)
    decreases |ls|
  {
    if ls == [] then t == s
    else Enabled(g, s, ls[0]) && Runs(g, Apply(g, s, ls[0]), ls[1..], t)
  }
}
