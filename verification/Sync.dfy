/** One round of synchronisation: from a state everybody agreed on, through any interleaving of
    watcher, client, server and network steps, to agreement on the new snapshot of the folder. */
module Sync {
  import opened Base
  import opened Table
  import opened Validator
  import opened Server
  import opened Coherence
  import opened Guarantees
  import opened Client
  import opened System
  import opened Alignment
  import opened Progress
  import opened SyncServer
  import opened Ledger

  /** Events on their way, oldest first. */
  function Underway(s: Sys): seq<Event> { s.client.window + s.queue + s.requeue }

  /** What an answer under way says about the server. */
  ghost predicate Truthful(x: Goal, m: Catalogue, e: Event, r: Response) {
    && !r.Err? && (r.Send? ==> !x.Echo(e))
    && (r.Ok? && !x.Echo(e) ==> Get(m, e.path) == Get(x.New(), e.path))
  }

  function Elements(s: Sys, c: Session): Catalogue { Live(c, s.server).elements }

  ghost predicate Bookkeeping(x: Goal, s: Sys) {
    Books(x, Underway(s), s.paths, s.client.db, Elements(s, x.c)) && forall e :: e in s.requeue ==> x.Echo(e)
  }

  ghost predicate Wires(x: Goal, s: Sys) {
    && |s.toClient| <= |s.client.window|
    && (forall i :: 0 <= i < |s.toClient| ==> Truthful(x, Elements(s, x.c), s.client.window[i], s.toClient[i]))
    && (forall k :: k in s.toServer && k.Stor? ==> k.data == Content(x.folder, k.path))
  }

  ghost predicate InSync(g: Config, x: Goal, s: Sys) {
    && g.session == x.c && s.folder == x.folder && x.Sound()
    && Aligned(g, s) && s.serving && Fresh(s.server)
    && x.Between(Live(x.c, s.server))
    && Bookkeeping(x, s) && Wires(x, s)
  }

  /** The steps of a synchronisation: everything but a change of the folder and the one failed
      write that loses an event; with `exact`, also no second connection. */
  predicate Allowed(x: Goal, s: Sys, l: Label) {
    !l.Change? && !l.StorHeaderFails? && (l.Reconnect? ==> !x.exact || !s.server.recovered)
  }

  // ------------------------------------------------------------------ watcher

  lemma RequeueInSync(g: Config, x: Goal, s: Sys)
    requires InSync(g, x, s) && s.requeue != []
    ensures InSync(g, x, AfterRequeue(s))
  {
    hide Aligned, Goal.Between, Goal.Sound, Books, Truthful;
    RequeueAligned(g, s);
    assert s.requeue[0] in s.requeue && s.requeue == [s.requeue[0]] + s.requeue[1..];
    assert Underway(AfterRequeue(s)) == Underway(s);
  }

  lemma NoticeInSync(g: Config, x: Goal, s: Sys, p: Path)
    requires InSync(g, x, s) && Enabled(g, s, Notice(p))
    ensures InSync(g, x, AfterNotice(g, s, p))
  {
    hide Aligned, Goal.Between, Goal.Sound, Books, Truthful, Difference, Noted;
    NoticeAligned(g, s, p);
    BooksNotice(x, Underway(s), s.paths, s.client.db, Elements(s, x.c), p);
    var e := Difference(x.c.sha, s.paths, s.folder, p).value;
    assert Underway(AfterNotice(g, s, p)) == Underway(s) + [e];
  }

  // --------------------------------------------------------------------- send

  lemma SendInSync(g: Config, x: Goal, s: Sys)
    requires InSync(g, x, s) && MaySend(g, s)
    ensures InSync(g, x, AfterSend(g, s))
  {
    hide Goal.Between, Goal.Sound, Truthful, Aligned, Ordered, AtRest, Tracked, Compose;
    SendAligned(g, s);
    var t, e := AfterSend(g, s), s.queue[0];
    assert e in Underway(s);
    TrackedIsSupported(x, s.paths, s.client.db, Elements(s, x.c), e);
    QueuedIsNoStor(g, s, e);
    assert s.queue == [e] + s.queue[1..];
    assert Underway(t) == Underway(s);
  }

  lemma QueuedIsNoStor(g: Config, s: Sys, e: Event)
    requires Aligned(g, s) && e in s.queue
    ensures var k := Compose(e, []); e.entry.kind != Unsupported ==> k.Some? && !k.value.Stor?
  {
    hide Valid, Paired, GoodNames;
    assert e in s.queue + s.requeue;
  }

  // -------------------------------------------------------------------- serve

  /** What is on the wire for an entry of the window is exactly its command. */
  lemma CarriedCommand(x: Goal, k: Command, e: Event)
    requires Carries(k, e) && (k.Stor? ==> k.data == Content(x.folder, k.path))
    ensures Compose(e, Content(x.folder, e.path)) == Some(k) && k.path == e.path
  {
  }

  /** The next command of the server is carried out on the live stores. */
  lemma NextCommand(g: Config, x: Goal, s: Sys, now: Time)
    requires InSync(g, x, s) && s.toServer != []
    ensures |s.toClient| < |s.client.window|
    ensures var k, e := s.toServer[0], s.client.window[|s.toClient|];
            && e == Underway(s)[|s.toClient|] && e in Underway(s)
            && Compose(e, Content(x.folder, e.path)) == Some(k)
            && Handle(x.c, s.server, k, now) == Dispatch(x.c, Live(x.c, s.server), k, e.path, now)
            && Handle(x.c, s.server, k, now).store.recovered
  {
    hide Goal.Between, Goal.Sound, Truthful, GoodNames, Books, Dispatch, Recover, ValidTime, ValidatePath;
    var k, e := s.toServer[0], s.client.window[|s.toClient|];
    assert e in s.client.window && Underway(s)[|s.toClient|] == e;
    assert Carries(k, e);
    CarriedCommand(x, k, e);
    CarriedIsValid(k, e);
    HandleIsDispatch(x.c, s.server, k, now);
  }

  /** The command of a change brings the server closer to the snapshot. */
  lemma ServeChange(g: Config, x: Goal, s: Sys, now: Time)
    requires InSync(g, x, s) && s.toServer != [] && |s.toClient| < |s.client.window|
    requires !x.Echo(s.client.window[|s.toClient|])
    ensures var e, out := s.client.window[|s.toClient|], Handle(x.c, s.server, s.toServer[0], now);
            && x.Closer(Live(x.c, s.server), e.path, out)
            && Books(x, Underway(s), s.paths, s.client.db, out.store.elements)
  {
    hide Goal.Between, Goal.Sound, Goal.New, Goal.Due, Goal.Echo, Truthful, Aligned, AtRest, Dispatch, Live, Handle, Compose, Holds;
    NextCommand(g, x, s, now);
    var j, e, out := |s.toClient|, s.client.window[|s.toClient|], Handle(x.c, s.server, s.toServer[0], now);
    var l := Live(x.c, s.server);
    assert Tracked(x, s.paths, s.client.db, l.elements, e);
    DispatchCloser(x, l, e, now);
    forall f | f in Underway(s) && x.Echo(f) && f.path == e.path ensures Holds(out.store.elements, f) {
      var i :| 0 <= i < |Underway(s)| && Underway(s)[i] == f;
      EchoIsEarlier(x, Underway(s), i, j);
      DueKeepsHolding(x, l, f, e, now);
    }
    BooksServe(x, Underway(s), s.paths, s.client.db, l.elements, out.store.elements, e);
  }

  lemma ServeEcho(g: Config, x: Goal, s: Sys, now: Time)
    requires InSync(g, x, s) && s.toServer != [] && |s.toClient| < |s.client.window|
    requires x.Echo(s.client.window[|s.toClient|])
    ensures var e, out := s.client.window[|s.toClient|], Handle(x.c, s.server, s.toServer[0], now);
            && out.alive && x.Between(out.store) && |out.replies| == 1 && out.replies[0].Ok?
            && out.store.elements == Live(x.c, s.server).elements[e.path := e.entry]
            && Books(x, Underway(s), s.paths, s.client.db, out.store.elements)
  {
    hide Goal.Between, Goal.Sound, Goal.New, Goal.Due, Goal.Echo, Truthful, Aligned, AtRest, Dispatch, Live, Handle, Compose;
    hide Holds, Ordered;
    NextCommand(g, x, s, now);
    var e, l := s.client.window[|s.toClient|], Live(x.c, s.server);
    assert Tracked(x, s.paths, s.client.db, l.elements, e);
    EchoIsHarmless(x, l, e, now);
    BooksEcho(x, Underway(s), s.paths, s.client.db, l.elements, e);
  }

  /** Earlier answers stay true. */
  lemma EarlierStayTrue(x: Goal, s: Sys, r: Catalogue)
    requires Bookkeeping(x, s) && Wires(x, s) && |s.toClient| < |s.client.window|
    requires var e := s.client.window[|s.toClient|];
             forall q :: q != e.path && Get(Elements(s, x.c), q) == Get(x.New(), q) ==> Get(r, q) == Get(x.New(), q)
    ensures forall i :: 0 <= i < |s.toClient| ==> Truthful(x, r, s.client.window[i], s.toClient[i])
  {
    hide Goal.New, Goal.Echo, Elements, Tracked, AtRest;
    forall i | 0 <= i < |s.toClient| ensures Truthful(x, r, s.client.window[i], s.toClient[i]) {
      assert Truthful(x, Elements(s, x.c), s.client.window[i], s.toClient[i]);
      assert Underway(s)[i] == s.client.window[i] && Underway(s)[|s.toClient|] == s.client.window[|s.toClient|];
      if s.client.window[i].path == s.client.window[|s.toClient|].path {
        OrderedAt(x, Underway(s), i, |s.toClient|);
      }
    }
  }

  lemma ServeInSync(g: Config, x: Goal, s: Sys, now: Time)
    requires InSync(g, x, s) && s.toServer != []
    ensures InSync(g, x, AfterServe(g, s, now))
  {
    hide Goal.Between, Goal.Sound, Goal.New, Goal.Near, Goal.Echo, Aligned, Handle, Recover, Books;
    NextCommand(g, x, s, now);
    ServeAligned(g, s, now);
    var t, e, m := AfterServe(g, s, now), s.client.window[|s.toClient|], Elements(s, x.c);
    assert Underway(t) == Underway(s);
    if x.Echo(e) {
      ServeEcho(g, x, s, now);
    } else {
      ServeChange(g, x, s, now);
      Carried(x, m, Elements(t, x.c), e.path);
    }
    EarlierStayTrue(x, s, Elements(t, x.c));
  }

  // ------------------------------------------------------------------ receive

  /** In a synchronisation an answer finds the event at the head as it was when it was sent. */
  lemma HeadOfWindow(g: Config, x: Goal, s: Sys)
    requires InSync(g, x, s) && MayReceive(s)
    ensures var e, r := s.client.window[0], s.toClient[0];
            var popped := Client(s.client.window[1..], s.client.db);
            && e == Underway(s)[0] && e in Underway(s) && Truthful(x, Elements(s, x.c), e, r)
            && Reacts(g, s) == (if r.Send? then Transfer(popped, Event(e.path, e.entry, StoreSent))
                                else Answered(popped.(db := Record(s.client.db, e))))
            && (r.Send? ==> !x.Echo(e) && e.entry.kind == Regular && e.status != Deletion)
  {
    hide Goal.Between, Goal.New, GoodNames, Ordered, AtRest, Valid, Closed, Record, Goal.Echo, Holds;
    var e := s.client.window[0];
    assert e in s.client.window && e == Underway(s)[0];
    assert Truthful(x, Elements(s, x.c), e, s.toClient[0]);
    assert Tracked(x, s.paths, s.client.db, Elements(s, x.c), e);
    if !x.Echo(e) {
      DueMeans(x, e);
    }
    MismatchIsUnreachable(g, s);
  }

  lemma ShiftedAnswers(x: Goal, s: Sys, t: Sys)
    requires Wires(x, s) && s.toClient != [] && t.server == s.server
    requires t.toClient == s.toClient[1..] && |t.client.window| >= |s.client.window| - 1 >= 0
    requires t.client.window[..|s.client.window| - 1] == s.client.window[1..]
    ensures |t.toClient| <= |t.client.window|
    ensures forall i :: 0 <= i < |t.toClient| ==> Truthful(x, Elements(t, x.c), t.client.window[i], t.toClient[i])
  {
    hide Truthful;
    forall i | 0 <= i < |t.toClient| ensures Truthful(x, Elements(t, x.c), t.client.window[i], t.toClient[i]) {
      assert t.toClient[i] == s.toClient[i + 1];
      assert t.client.window[i] == t.client.window[..|s.client.window| - 1][i] == s.client.window[i + 1];
    }
  }

  lemma AnsweredInSync(g: Config, x: Goal, s: Sys)
    requires InSync(g, x, s) && MayReceive(s) && !s.toClient[0].Send?
    ensures InSync(g, x, AfterReceive(g, s))
  {
    hide Goal.Between, Goal.Sound, Goal.New, Goal.Echo, Books, Aligned, React, Record;
    ReceiveAligned(g, s);
    HeadOfWindow(g, x, s);
    var t := AfterReceive(g, s);
    BooksAnswered(x, Underway(s), s.paths, s.client.db, Elements(s, x.c));
    assert Underway(t) == Underway(s)[1..];
    ShiftedAnswers(x, s, t);
  }

  lemma TurnedBookkeeping(x: Goal, s: Sys, t: Sys)
    requires Bookkeeping(x, s) && s.client.window != []
    requires var e := s.client.window[0]; !x.Echo(e) && e.entry.kind == Regular && e.status != Deletion
    requires var e := s.client.window[0];
             t.client == Client(s.client.window[1..] + [Event(e.path, e.entry, StoreSent)], s.client.db)
    requires t.queue == s.queue && t.requeue == s.requeue && t.paths == s.paths && t.server == s.server
    ensures Bookkeeping(x, t)
  {
    hide Goal.Echo, Books;
    var e, n := s.client.window[0], |s.client.window| - 1;
    var u := Event(e.path, e.entry, StoreSent);
    assert Underway(s)[0] == e && Underway(s)[1..n + 1] == s.client.window[1..] && Underway(s)[n + 1..] == s.queue + s.requeue;
    assert Underway(t) == Underway(s)[1..n + 1] + [u] + Underway(s)[n + 1..];
    BooksTurned(x, Underway(s), Underway(t), n, s.paths, s.client.db, Elements(s, x.c));
  }

  lemma TransferInSync(g: Config, x: Goal, s: Sys)
    requires Enabled(g, s, StorDataFails)
    requires InSync(g, x, s) && s.toClient[0].Send?
    ensures InSync(g, x, AfterReceive(g, s))
    ensures InSync(g, x, Apply(g, s, StorDataFails))
  {
    hide Goal.Between, Goal.Sound, Goal.Echo, Aligned, Compose, React, Bookkeeping, Truthful;
    ReceiveAligned(g, s);
    HeadOfWindow(g, x, s);
    StepAligned(g, s, StorDataFails);
    TurnedBookkeeping(x, s, AfterReceive(g, s));
    TurnedBookkeeping(x, s, Apply(g, s, StorDataFails));
    ShiftedAnswers(x, s, AfterReceive(g, s));
    ShiftedAnswers(x, s, Apply(g, s, StorDataFails));
  }

  // ---------------------------------------------------------------- reconnect

  lemma {:induction false} ResendContents(sha: Digest, folder: Tree, window: seq<Event>)
    ensures forall k :: k in Resend(sha, folder, window) && k.Stor? ==> k.data == Content(folder, k.path)
  {
    if window != [] {
      ResendContents(sha, folder, window[1..]);
    }
  }

  /** With a stable folder no STOR goes stale. */
  lemma StableIsNotStale(g: Config, x: Goal, s: Sys)
    requires InSync(g, x, s)
    ensures NoStaleStore(g, s)
  {
    hide Goal.Between, Goal.New, Aligned, Wires, AtRest, Ordered, Closed, Goal.Due;
    forall e | e in s.client.window ensures !Skipped(g.session.sha, s.folder, e) {
      assert e in Underway(s) && Tracked(x, s.paths, s.client.db, Elements(s, x.c), e);
      if !x.Echo(e) {
        DueMeans(x, e);
      }
    }
  }

  /** The new session loads from table and disk what the last one had, up to directory times. */
  lemma ReloadBetween(x: Goal, st: Store)
    requires x.Between(Live(x.c, st)) && Fresh(st) && (!x.exact || !st.recovered)
    ensures x.Between(Live(x.c, Restart(st)))
    ensures var m, r := Live(x.c, st).elements, Live(x.c, Restart(st)).elements;
            forall q :: Get(m, q) == Get(r, q) || (!x.exact && q in m && q in r && SameElement(r[q], m[q]))
  {
    hide Coherent, Recover, Goal.New, SameElement, Goal.Halfway;
    if st.recovered {
      ReloadKeepsElements(x.c, st);
      ReloadHalfway(x, st.elements, Live(x.c, Restart(st)).elements);
    } else {
      assert Restart(st) == st;
    }
  }

  lemma ReloadHalfway(x: Goal, m: Catalogue, r: Catalogue)
    requires x.Halfway(m) && !x.exact && r.Keys == m.Keys && forall q :: q in m ==> SameElement(r[q], m[q])
    ensures x.Halfway(r)
  {
    hide Goal.New;
    forall q ensures x.Near(Get(r, q), Get(x.was, q)) || x.Near(Get(r, q), Get(x.New(), q)) {
      assert x.Near(Get(m, q), Get(x.was, q)) || x.Near(Get(m, q), Get(x.New(), q));
    }
  }

  lemma ReconnectInSync(g: Config, x: Goal, s: Sys, n: nat)
    requires InSync(g, x, s) && Enabled(g, s, Reconnect(n)) && (!x.exact || !s.server.recovered)
    ensures InSync(g, x, AfterReconnect(g, s, n))
  {
    hide Goal.Between, Goal.Sound, Goal.New, Goal.Echo, Aligned, Live, Books;
    StableIsNotStale(g, x, s);
    ReconnectAligned(g, s, n);
    ResendContents(g.session.sha, s.folder, s.client.window);
    ReloadBetween(x, s.server);
    BooksReloaded(x, Underway(s), s.paths, s.client.db, Elements(s, x.c), Elements(AfterReconnect(g, s, n), x.c));
    assert Underway(AfterReconnect(g, s, n)) == Underway(s);
  }

  // ------------------------------------------------------------- the theorems

  lemma BrokenInSync(g: Config, x: Goal, s: Sys, l: Label)
    requires InSync(g, x, s) && Enabled(g, s, l) && (l.SendFails? || l.Disconnect?)
    ensures InSync(g, x, Apply(g, s, l))
  {
    hide Goal.Between, Goal.Sound, Aligned, Books, Truthful;
    StepAligned(g, s, l);
    assert Underway(Apply(g, s, l)) == Underway(s);
  }

  lemma StepInSync(g: Config, x: Goal, s: Sys, l: Label)
    requires InSync(g, x, s) && Enabled(g, s, l) && Allowed(x, s, l)
    ensures InSync(g, x, Apply(g, s, l))
  {
    hide InSync, AfterRequeue, AfterNotice, AfterSend, AfterServe, AfterReceive, AfterReconnect;
    match l
    case Requeue => RequeueInSync(g, x, s);
    case Notice(p) => NoticeInSync(g, x, s, p);
    case SendNext => SendInSync(g, x, s);
    case Serve(now) => ServeInSync(g, x, s, now);
    case Receive =>
      if s.toClient[0].Send? {
        HeadOfWindow(g, x, s);
        TransferInSync(g, x, s);
      } else {
        AnsweredInSync(g, x, s);
      }
    case StorDataFails =>
      HeadOfWindowSends(g, x, s);
      TransferInSync(g, x, s);
    case Reconnect(n) => ReconnectInSync(g, x, s, n);
    case _ => BrokenInSync(g, x, s, l);
  }

  lemma HeadOfWindowSends(g: Config, x: Goal, s: Sys)
    requires InSync(g, x, s) && MayReceive(s) && Reacts(g, s).Transfer?
    ensures s.toClient[0].Send?
  {
    hide InSync, React;
    HeadOfWindow(g, x, s);
  }

  /** Watcher, client database and server agree on `was`; nothing is under way, but at program start the
      watcher may have echoes to push. The map of the server may differ in times of directories where that
      is allowed. */
  ghost predicate Agreed(g: Config, x: Goal, s: Sys) {
    && g.session == x.c && s.folder == x.folder && GoodNames(s.folder, s.paths)
    && s.paths == x.was && s.client == Client([], x.was)
    && Ordered(x, s.requeue) && (forall e :: e in s.requeue ==> x.Echo(e))
    && s.queue == [] && s.toServer == [] && s.toClient == [] && !s.halted && s.serving && Fresh(s.server)
    && Coherent(x.c, Live(x.c, s.server))
    && (forall p :: x.Near(Get(Elements(s, x.c), p), Get(x.was, p))) && s.server.disk.Keys == x.was.Keys
    && x.Known(s.server.disk)
  }

  /** Everybody agrees on the snapshot: watcher, client database and catalogue hold its entries, and
      the disk of the server its files, with content and time, its directories, and nothing else. */
  ghost predicate Synced(x: Goal, s: Sys) {
    && s.paths == x.New() && s.client.db == x.New()
    && (forall p :: x.Near(Get(Elements(s, x.c), p), Get(x.New(), p)))
    && s.server.disk.Keys == x.New().Keys
    && (forall p :: p in x.New() ==>
          if x.folder[p].File? then s.server.disk[p] == x.folder[p] else s.server.disk[p].Folder?)
  }

  lemma AgreedInSync(g: Config, x: Goal, s: Sys)
    requires x.Sound() && Agreed(g, x, s)
    ensures InSync(g, x, s)
  {
    hide Goal.Sound, Coherent, Recover, GoodNames, Goal.New, Goal.Known, SameElement;
    var m := Elements(s, x.c);
    forall q | q in s.server.disk ensures q in m {
      assert x.Near(Get(m, q), Get(x.was, q));
    }
    assert Underway(s) == s.requeue;
    forall e | e in s.requeue ensures Holds(m, e) {
      EchoIsHeld(x, m, e);
    }
    EchoesAreGood(g, x, s);
  }

  lemma EchoIsHeld(x: Goal, m: Catalogue, e: Event)
    requires x.Echo(e) && x.Near(Get(m, e.path), Get(x.was, e.path))
    ensures Holds(m, e)
  {
  }

  lemma EchoesAreGood(g: Config, x: Goal, s: Sys)
    requires x.Sound() && GoodNames(s.folder, s.paths) && s.paths == x.was && forall e :: e in s.requeue ==> x.Echo(e)
    ensures forall e :: e in s.requeue ==> Good(e) && e.status != StoreSent
  {
    hide ValidatePath, ValidTime;
    forall e | e in s.requeue ensures Good(e) {
      EchoMeans(x, e);
    }
  }

  /** Nothing under way and nothing left to notice. */
  predicate Quiet(g: Config, s: Sys) {
    Underway(s) == [] && Differences(g, s) == {}
  }

  lemma NoDifference(g: Config, s: Sys, p: Path)
    requires Differences(g, s) == {}
    ensures Difference(g.session.sha, s.paths, s.folder, p) == None
  {
    assert p !in Differences(g, s);
  }

  lemma QuietAt(g: Config, x: Goal, s: Sys, p: Path)
    requires InSync(g, x, s) && Quiet(g, s)
    ensures Get(s.paths, p) == Get(s.client.db, p) == Get(x.New(), p)
    ensures x.Near(Get(Elements(s, x.c), p), Get(x.New(), p))
  {
    hide Aligned, Recover, Coherent, Closed, Differences, Wires;
    NoDifference(g, s, p);
    assert !Awaited(x, Underway(s), p);
    assert AtRest(x, s.paths, s.client.db, Elements(s, x.c), p);
    assert x.Near(Get(Elements(s, x.c), p), Get(x.was, p)) || x.Near(Get(Elements(s, x.c), p), Get(x.New(), p));
  }

  lemma QuietDisk(g: Config, x: Goal, s: Sys, p: Path)
    requires InSync(g, x, s) && Quiet(g, s)
    ensures p in s.server.disk <==> p in x.New()
    ensures p in x.New() ==> if x.folder[p].File? then s.server.disk[p] == x.folder[p] else s.server.disk[p].Folder?
  {
    hide Aligned, Recover, Closed, Wires, Bookkeeping, View, Unique, Quiet;
    QuietAt(g, x, s, p);
    AtPath(x, Live(x.c, s.server), p);
    if p in x.folder && x.folder[p].File? {
      SameContent(x, s.server.disk[p].data, x.folder[p].data);
    }
  }

  lemma QuietIsSynced(g: Config, x: Goal, s: Sys)
    requires InSync(g, x, s) && Quiet(g, s)
    ensures Synced(x, s)
  {
    hide InSync, Quiet, Elements, EntryOf, Goal.Near;
    forall p
      ensures Get(s.paths, p) == Get(s.client.db, p) == Get(x.New(), p)
      ensures x.Near(Get(Elements(s, x.c), p), Get(x.New(), p))
      ensures p in s.server.disk <==> p in x.New()
      ensures p in x.New() ==> if x.folder[p].File? then s.server.disk[p] == x.folder[p] else s.server.disk[p].Folder?
    {
      QuietAt(g, x, s, p);
      QuietDisk(g, x, s, p);
    }
    SameGets(s.paths, x.New());
    SameGets(s.client.db, x.New());
  }

  lemma SameGets(a: Catalogue, b: Catalogue)
    requires forall p :: Get(a, p) == Get(b, p)
    ensures a == b
  {
    forall p ensures p in a <==> p in b {
      assert Get(a, p) == Get(b, p);
    }
    forall p | p in a ensures a[p] == b[p] {
      assert Get(a, p) == Get(b, p);
    }
  }

  ghost predicate RunsAllowed(g: Config, x: Goal, s: Sys, ls: seq<Label>, t: Sys)
    decreases |ls|
  {
    if ls == [] then t == s
    else Enabled(g, s, ls[0]) && Allowed(x, s, ls[0]) && RunsAllowed(g, x, Apply(g, s, ls[0]), ls[1..], t)
  }

  lemma {:induction false} RunInSync(g: Config, x: Goal, s: Sys, ls: seq<Label>, t: Sys)
    requires InSync(g, x, s) && RunsAllowed(g, x, s, ls, t)
    ensures InSync(g, x, t)
    decreases |ls|
  {
    hide InSync, Apply, Enabled;
    if ls != [] {
      StepInSync(g, x, s, ls[0]);
      RunInSync(g, x, Apply(g, s, ls[0]), ls[1..], t);
    }
  }

  /** One round of synchronisation. Start in agreement and let the folder be any snapshot. Under
      every interleaving of watcher, client and server, with any number of lost connections and
      repeated sendings, no error is ever answered, and whenever nothing is under way and nothing is
      left to notice, everybody agrees on the snapshot. */
  lemma Synchronises(g: Config, x: Goal, s: Sys, ls: seq<Label>, t: Sys)
    requires x.Sound() && Agreed(g, x, s) && RunsAllowed(g, x, s, ls, t)
    ensures !t.halted && t.serving && forall r :: r in t.toClient ==> !r.Err?
    ensures Quiet(g, t) ==> Synced(x, t)
  {
    hide Agreed, Goal.Sound, RunsAllowed, Synced, Quiet, Goal.Between, Bookkeeping, GoodNames, Paired, GoodEvents;
    AgreedInSync(g, x, s);
    RunInSync(g, x, s, ls, t);
    if Quiet(g, t) {
      QuietIsSynced(g, x, t);
    }
    forall r | r in t.toClient ensures !r.Err? {
      var i :| 0 <= i < |t.toClient| && t.toClient[i] == r;
      assert Truthful(x, Elements(t, x.c), t.client.window[i], t.toClient[i]);
    }
  }

  // ------------------------------------------------------ round after round

  /** Where one round has ended the next can begin: the user changes the folder again. */
  lemma NextRound(g: Config, x: Goal, s: Sys, y: Goal)
    requires InSync(g, x, s) && Quiet(g, s)
    requires Follows(x, y)
    requires GoodNames(y.folder, s.paths)
    ensures Agreed(g, y, Apply(g, s, Change(y.folder)))
  {
    hide Goal.Sound, Goal.New, Coherent, Bookkeeping, GoodNames, Differences, Synced, Recover, SameElement;
    QuietIsSynced(g, x, s);
    SyncedKeys(x, s);
  }

  lemma SyncedKeys(x: Goal, s: Sys)
    requires Synced(x, s) && x.Sound()
    ensures s.paths == x.New() && s.client.db == x.New() && s.server.disk.Keys == x.New().Keys
    ensures forall p :: x.Near(Get(Elements(s, x.c), p), Get(x.New(), p))
  {
    hide Goal.Near, Elements, Closed, EntryOf;
  }

  /** One round: the snapshot, the steps after the folder became it, and the state at the end. */
  datatype Round = Round(goal: Goal, steps: seq<Label>, end: Sys)

  ghost predicate Follows(x: Goal, y: Goal) {
    y.c == x.c && y.was == x.New() && y.contents == x.contents && (y.exact <==> x.exact)
  }

  /** The folder changes only when everything is quiet; each round starts where the last one ended. */
  ghost predicate Rounds(g: Config, s: Sys, rs: seq<Round>)
    decreases |rs|
  {
    rs == [] ||
    (var r := rs[0];
     && r.goal.Sound() && GoodNames(r.goal.folder, s.paths)
     && RunsAllowed(g, r.goal, Apply(g, s, Change(r.goal.folder)), r.steps, r.end) && Quiet(g, r.end)
     && (|rs| > 1 ==> Follows(r.goal, rs[1].goal))
     && Rounds(g, r.end, rs[1..]))
  }

  /** Over any number of rounds everybody agrees on each snapshot in turn. */
  lemma {:induction false} RoundsSynchronise(g: Config, s: Sys, rs: seq<Round>)
    requires rs != [] && Rounds(g, s, rs) && Agreed(g, rs[0].goal, Apply(g, s, Change(rs[0].goal.folder)))
    ensures forall i :: 0 <= i < |rs| ==> Synced(rs[i].goal, rs[i].end)
    decreases |rs|
  {
    hide Agreed, GoodNames, RunsAllowed, InSync, Quiet, Synced, Apply, Goal.Sound;
    var r := rs[0];
    var u := Apply(g, s, Change(r.goal.folder));
    AgreedInSync(g, r.goal, u);
    RunInSync(g, r.goal, u, r.steps, r.end);
    QuietIsSynced(g, r.goal, r.end);
    if |rs| > 1 {
      NextRound(g, r.goal, r.end, rs[1].goal);
      assert rs[1..][0] == rs[1];
      RoundsSynchronise(g, r.end, rs[1..]);
      assert forall i :: 0 < i < |rs| ==> rs[i] == rs[1..][i - 1];
    }
  }

  // ----------------------------------------------------------------- draining

  ghost predicate Drains(g: Config, s: Sys, ls: seq<Label>, t: Sys)
    decreases |ls|
  {
    if ls == [] then t == s
    else Draining(ls[0]) && Enabled(g, s, ls[0]) && Drains(g, Apply(g, s, ls[0]), ls[1..], t)
  }

  lemma DrainStep(g: Config, x: Goal, s: Sys, l: Label)
    requires InSync(g, x, s) && Enabled(g, s, l) && Draining(l)
    ensures var t := Apply(g, s, l);
            InSync(g, x, t) && Measure(g, t) < Measure(g, s) && (s.up ==> t.up)
  {
    hide Measure, InSync, Difference, Handle, React, Compose, Aligned;
    StepInSync(g, x, s, l);
    InSyncIsAligned(g, x, s);
    InSyncIsAligned(g, x, Apply(g, s, l));
    DrainingDecreases(g, s, l);
  }

  lemma InSyncIsAligned(g: Config, x: Goal, s: Sys)
    requires InSync(g, x, s)
    ensures Aligned(g, s) && s.serving && !s.halted
  {
    hide Goal.Between, Bookkeeping, GoodNames, Paired, GoodEvents;
    assert s.toClient != [] ==> Truthful(x, Elements(s, x.c), s.client.window[0], s.toClient[0]);
  }

  /** As long as something is under way or left to notice, some draining step can be taken. */
  lemma SomethingMoves(g: Config, x: Goal, s: Sys, now: Time) returns (l: Label)
    requires InSync(g, x, s) && s.up && g.windowSize > 0 && g.queueSize > 0
    requires !Quiet(g, s)
    ensures Draining(l) && Enabled(g, s, l)
  {
    hide InSync, Aligned, Difference;
    InSyncIsAligned(g, x, s);
    if !Pending(s) && s.requeue != [] {
      l := Requeue;
    } else if Pending(s) {
      NeverStuck(g, s, now);
      l := if MaySend(g, s) then SendNext else if s.toServer != [] then Serve(now) else Receive;
    } else {
      var p :| p in Differences(g, s);
      l := Notice(p);
    }
  }

  /** Without failures draining is bounded by the measure, and where it can go no further everybody
      agrees on the snapshot. */
  lemma {:induction false} DrainingSynchronises(g: Config, x: Goal, s: Sys, ls: seq<Label>, t: Sys)
    requires InSync(g, x, s) && s.up && g.windowSize > 0 && g.queueSize > 0 && Drains(g, s, ls, t)
    ensures |ls| + Measure(g, t) <= Measure(g, s)
    ensures (forall l :: Draining(l) ==> !Enabled(g, t, l)) ==> Synced(x, t)
    decreases |ls|
  {
    hide InSync, Apply, Enabled, Measure, Quiet, Synced;
    if ls == [] {
      if !Quiet(g, s) {
        var l := SomethingMoves(g, x, s, "");
        assert Enabled(g, s, l);
      } else {
        QuietIsSynced(g, x, s);
      }
    } else {
      DrainStep(g, x, s, ls[0]);
      DrainingSynchronises(g, x, Apply(g, s, ls[0]), ls[1..], t);
    }
  }

  /** And such a run exists from every state of a synchronisation whose connection is up. */
  lemma {:induction false} CanSynchronise(g: Config, x: Goal, s: Sys, now: Time) returns (ls: seq<Label>, t: Sys)
    requires InSync(g, x, s) && s.up && g.windowSize > 0 && g.queueSize > 0
    ensures Drains(g, s, ls, t) && Synced(x, t)
    decreases Measure(g, s)
  {
    hide InSync, Apply, Enabled, Measure, Quiet, Synced;
    if Quiet(g, s) {
      QuietIsSynced(g, x, s);
      ls, t := [], s;
    } else {
      var l := SomethingMoves(g, x, s, now);
      DrainStep(g, x, s, l);
      ls, t := CanSynchronise(g, x, Apply(g, s, l), now);
      assert ([l] + ls)[1..] == ls;
      ls := [l] + ls;
    }
  }

  // ------------------------------------------------------------ first backup

  /** A client that has never run and a server that has never heard of it, just connected. */
  function Start(folder: Tree): Sys {
    Sys(folder, map[], [], [], Client([], map[]), true, false, [], [], Store(map[], [], map[], false), true, multiset{}, multiset{})
  }

  lemma StartIsAgreed(g: Config, folder: Tree)
    requires Closed(folder) && GoodNames(folder, map[])
    requires InjectiveOn(g.session.sha, ContentsOf(folder))
    ensures var x := Goal(g.session, map[], folder, ContentsOf(folder), true);
            x.Sound() && Agreed(g, x, Start(folder))
  {
    hide ValidatePath, ValidTime;
    var s := Start(folder).server;
    assert Changed(g.session, s) == {} && Gone(g.session, s) == {};
    assert Live(g.session, s) == Store(map[], [], map[], true);
  }

  /** The first backup of any folder whose files and directories have acceptable names, and contents that the
      digest tells apart: a run exists after which client and server hold just these. By
      DrainingSynchronises every run without failures ends like this. */
  lemma FirstBackup(g: Config, folder: Tree, now: Time) returns (ls: seq<Label>, t: Sys)
    requires Closed(folder) && GoodNames(folder, map[])
    requires InjectiveOn(g.session.sha, ContentsOf(folder))
    requires g.windowSize > 0 && g.queueSize > 0
    ensures Drains(g, Start(folder), ls, t)
    ensures t.client.db == Elements(t, g.session) == Entries(g.session.sha, folder)
    ensures t.server.disk.Keys == Entries(g.session.sha, folder).Keys
    ensures forall p :: p in Entries(g.session.sha, folder) ==>
              if folder[p].File? then t.server.disk[p] == folder[p] else t.server.disk[p].Folder?
  {
    hide Closed, GoodNames, InjectiveOn, Agreed, InSync, Drains, Elements, Goal.Sound;
    var x := Goal(g.session, map[], folder, ContentsOf(folder), true);
    StartIsAgreed(g, folder);
    AgreedInSync(g, x, Start(folder));
    ls, t := CanSynchronise(g, x, Start(folder), now);
    SameGets(Elements(t, g.session), x.New());
  }
}
