/** What single steps of the system mean: what the watcher reports, what enters the queue, what outlives a
    connection, and that a lost connection never has the last word. */
module Steps {
  import opened Base
  import opened Table
  import opened Server
  import opened Coherence
  import opened Client
  import opened System
  import opened Progress
  import opened SyncServer
  import opened Sync

  // ------------------------------------------------------------------ watcher

  /** A deletion is reported if and only if a recorded element has gone, a creation if and only if a file or
      directory is not recorded, a modification if and only if its entry is not the recorded one. An element that
      has become something else is passed over, and its record stays. */
  lemma DifferenceTells(sha: Digest, paths: Catalogue, folder: Tree, p: Path, e: Event)
    ensures Difference(sha, paths, folder, p) == Some(e) <==>
            && e.path == p
            && (e.status == Deletion ==> p !in folder && p in paths && e.entry == paths[p])
            && (e.status == Creation ==> p in folder && p !in paths)
            && (e.status == Modification ==> p in folder && p in paths && e.entry != paths[p])
            && (e.status != Deletion ==> p in folder && !folder[p].Special? && e.entry == EntryOf(sha, folder[p]))
            && e.status != StoreSent
  {
  }

  /** A recorded file that has not changed is reported again after a start of the program if and only if it has 2 GiB
      or more, since its size does not survive the database. */
  lemma ReportedAtStartIff(sha: Digest, db: Catalogue, folder: Tree, p: Path)
    requires p in folder && folder[p].File? && |folder[p].data| < 0x8000_0000_0000_0000
    requires p in db && db[p] == EntryOf(sha, folder[p])
    ensures Difference(sha, Loaded(db), folder, p) == None <==> |folder[p].data| < 0x8000_0000
    ensures Difference(sha, Loaded(db), folder, p).Some? ==>
              Difference(sha, Loaded(db), folder, p) == Some(Event(p, db[p], Modification))
  {
    SizeRoundTrip(|folder[p].data|);
  }

  /** The watcher's own events are never of the kind that exists in the window only, nor, at start, deletions. */
  ghost predicate NoneDeleted(s: Sys) { forall e :: e in s.requeue ==> e.status == Modification }

  /** What enters the queue is true at that moment: a deletion is about an element that is not there, anything else
      about one that is; and it is accounted for. Nothing enters the queue but at its end. */
  lemma EnteringIsTrue(g: Config, s: Sys, l: Label)
    requires Enabled(g, s, l) && NoneDeleted(s)
    ensures var t := Apply(g, s, l);
            && NoneDeleted(t)
            && ((t.accepted == s.accepted && (t.queue == s.queue || (l.SendNext? && [s.queue[0]] + t.queue == s.queue)))
                || exists e :: t.queue == s.queue + [e] && t.accepted == s.accepted + multiset{TokenOf(e)}
                               && (e.status == Deletion <==> e.path !in s.folder))
  {
    hide Difference, Handle, React, Resend, Compose;
    var t := Apply(g, s, l);
    match l
    case Requeue =>
      assert s.requeue == [s.requeue[0]] + s.requeue[1..];
      assert s.requeue[0].path in s.folder ==> t.queue == s.queue + [s.requeue[0]];
    case Notice(p) =>
      var e := Difference(g.session.sha, s.paths, s.folder, p).value;
      DifferenceTells(g.session.sha, s.paths, s.folder, p, e);
      assert t.queue == s.queue + [e];
    case SendNext => assert s.queue == [s.queue[0]] + s.queue[1..];
    case _ =>
  }

  // --------------------------------------------------------------- connection

  /** The server goes on with what it has received when the client has gone, and what it does is the same. */
  lemma ServerOutlivesConnection(g: Config, s: Sys, now: Time)
    requires s.up
    ensures var d := Apply(g, s, Disconnect);
            && (Enabled(g, s, Serve(now)) <==> Enabled(g, d, Serve(now)))
            && (Enabled(g, s, Serve(now)) ==> Apply(g, d, Serve(now)).server == Apply(g, s, Serve(now)).server)
  {
    hide Handle;
  }

  /** An exception of the server is told to the client, which then stops; its window and database stay as they are. */
  lemma ExceptionStopsClient(g: Config, s: Sys, now: Time)
    requires s.up && !s.halted && s.client.window != [] && s.toClient == [] && Enabled(g, s, Serve(now))
    requires Handle(g.session, s.server, s.toServer[0], now).replies == [Err(Exception)]
    ensures var t := Apply(g, s, Serve(now));
            && Enabled(g, t, Receive) && !Handle(g.session, s.server, s.toServer[0], now).alive && !t.serving
            && var u := Apply(g, t, Receive); u.halted && !u.up && u.client == s.client && u.server == t.server
  {
    hide Recover, Probe, StoreFile, RemoveFile, MakeDir, RemoveDir;
  }

  /** Changes made to the server's folder while it is connected escape it; after a new connection it knows them:
      the first command of the new session finds all three stores in agreement about the folder as it is. */
  lemma ReconnectSeesOfflineChanges(g: Config, s: Sys, n: nat, disk: Tree)
    requires Enabled(g, s, Reconnect(n)) && Coherent(g.session, s.server) && RowsAgree(g.session, s.server)
    requires Closed(disk) && forall p :: p in disk ==> !disk[p].Special?
    requires InjectiveOn(g.session.sha, ContentsOf(s.server.disk) + ContentsOf(disk))
    ensures var changed := s.(server := s.server.(disk := disk));
            && Enabled(g, changed, Reconnect(n))
            && var t := Live(g.session, Apply(g, changed, Reconnect(n)).server);
               && Coherent(g.session, t) && t.disk == disk && t.recovered
               && View(t.rows, g.session.owner) == t.elements == OnDisk(g.session, disk, s.server.elements.Keys)
  {
    hide Coherent, RowsAgree, Recover, View, OnDisk, Resend;
    RecoveryIsComplete(g.session, s.server, disk);
  }

  /** A client that is not connected can always connect as long as anything is to be sent or waits for an answer. */
  lemma DownIsNotStuck(g: Config, s: Sys)
    requires !s.up && !s.halted
    ensures var l := Reconnect(|Resend(g.session.sha, s.folder, s.client.window)|);
            && (Enabled(g, s, l) <==> s.queue != [] || s.client.window != [])
            && (Enabled(g, s, l) ==> Apply(g, s, l).up)
  {
  }

  lemma {:induction false} DrainsAreAllowed(g: Config, x: Goal, s: Sys, ls: seq<Label>, t: Sys)
    requires Drains(g, s, ls, t)
    ensures RunsAllowed(g, x, s, ls, t)
    decreases |ls|
  {
    hide Enabled, Apply;
    if ls != [] {
      DrainsAreAllowed(g, x, Apply(g, s, ls[0]), ls[1..], t);
    }
  }

  /** From every state of a synchronisation, connected or not, a run to agreement exists. */
  lemma {:induction false} CanAlwaysSynchronise(g: Config, x: Goal, s: Sys, now: Time) returns (ls: seq<Label>, t: Sys)
    requires InSync(g, x, s) && g.windowSize > 0 && g.queueSize > 0
    requires s.up || !x.exact || !s.server.recovered
    ensures RunsAllowed(g, x, s, ls, t) && Synced(x, t)
    decreases |s.requeue|, if s.up then 0 else if s.queue != [] || s.client.window != [] then 1 else 2
  {
    hide InSync, Apply, Enabled, Synced, Quiet;
    if s.up {
      ls, t := CanSynchronise(g, x, s, now);
      DrainsAreAllowed(g, x, s, ls, t);
    } else if Quiet(g, s) {
      QuietIsSynced(g, x, s);
      ls, t := [], s;
    } else {
      InSyncIsAligned(g, x, s);
      var l := StepWhileDown(g, s);
      StepInSync(g, x, s, l);
      ls, t := CanAlwaysSynchronise(g, x, Apply(g, s, l), now);
      assert ([l] + ls)[1..] == ls;
      ls := [l] + ls;
    }
  }

  lemma StepWhileDown(g: Config, s: Sys) returns (l: Label)
    requires !s.up && !s.halted && !Quiet(g, s) && g.queueSize > 0
    ensures Enabled(g, s, l) && (l.Reconnect? || l.Requeue? || l.Notice?)
    ensures Apply(g, s, l).up || Apply(g, s, l).server == s.server
    ensures var t := Apply(g, s, l);
            if s.queue != [] || s.client.window != [] then t.up && t.requeue == s.requeue
            else |t.requeue| < |s.requeue| || (t.requeue == s.requeue && !t.up && t.queue != [])
  {
    hide Difference, Resend;
    DownIsNotStuck(g, s);
    if s.queue != [] || s.client.window != [] {
      l := Reconnect(|Resend(g.session.sha, s.folder, s.client.window)|);
    } else if s.requeue != [] {
      l := Requeue;
    } else {
      var p :| p in Differences(g, s);
      l := Notice(p);
    }
  }
}
