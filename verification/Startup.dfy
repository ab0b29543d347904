/** The client program started again: the watcher reads its record from the client database and has the
    server asked about everything that still exists (client/main.cpp, client/FileSystemWatcher.cpp). */
module Startup {
  import opened Base
  import opened Table
  import opened Server
  import opened Coherence
  import opened Guarantees
  import opened Client
  import opened System
  import opened Alignment
  import opened SyncServer
  import opened Ledger
  import opened Sync
  import opened Watcher

  /** A new run of the client on a folder, with the events that recoverFromDB has to push, connected anew. */
  function Restarted(folder: Tree, db: Catalogue, requeue: seq<Event>, server: Store): Sys {
    Sys(folder, Loaded(db), requeue, [], Client([], db), true, false, [], [], Restart(server), true, multiset{}, multiset{})
  }

  lemma SmallIsLoaded(db: Catalogue)
    requires forall p :: p in db ==> db[p].size < 0x8000_0000
    ensures Loaded(db) == db
  {
    forall p | p in db ensures ReadBack(db[p]) == db[p] {
      SizeRoundTrip(db[p].size);
    }
  }

  /** What recoverFromDB pushes repeats what the snapshot of the last run was. */
  lemma RequeuedAreEchoes(y: Goal, db: Catalogue, rows: seq<Path>, log: seq<Event>)
    requires y.was == db == Loaded(db) && Requeued(db, y.folder, rows, log)
    requires forall p :: p in db && db[p].kind == Directory ==> db[p].size == 0 && db[p].hash == ZERO_HASH
    ensures Ordered(y, log) && forall e :: e in log ==> y.Echo(e)
  {
    forall e | e in log ensures y.Echo(e) {
      assert Loaded(db)[e.path] == db[e.path];
    }
  }

  /** Loading the map anew keeps it near the snapshot. */
  lemma ReloadIsNear(x: Goal, st: Store, n: Catalogue)
    requires !x.exact && Coherent(x.c, Live(x.c, st)) && forall p :: x.Near(Get(Live(x.c, st).elements, p), Get(n, p))
    ensures var r := Live(x.c, Restart(Live(x.c, st)));
            && Coherent(x.c, r) && r.disk == st.disk && forall p :: x.Near(Get(r.elements, p), Get(n, p))
  {
    hide Coherent, Recover;
    ReloadKeepsElements(x.c, Live(x.c, st));
    var m, r := Live(x.c, st).elements, Live(x.c, Restart(Live(x.c, st)));
    forall p ensures x.Near(Get(r.elements, p), Get(n, p)) {
      assert x.Near(Get(m, p), Get(n, p));
    }
  }

  lemma RestartOfLive(c: Session, st: Store)
    requires Fresh(st)
    ensures Live(c, Restart(st)) == if st.recovered then Live(c, Restart(Live(c, st))) else Live(c, st)
  {
    hide Recover;
  }

  lemma NewEntries(x: Goal)
    ensures forall p :: p in x.New() && x.New()[p].kind == Directory ==> x.New()[p].size == 0 && x.New()[p].hash == ZERO_HASH
  {
  }

  /** Where a round has ended the program may be stopped and started again, on a folder that has changed in
      between in any way that the next round allows. */
  lemma RestartIsAgreed(g: Config, x: Goal, s: Sys, y: Goal, rows: seq<Path>, log: seq<Event>)
    requires InSync(g, x, s) && Quiet(g, s) && Follows(x, y) && !x.exact && GoodNames(y.folder, s.paths)
    requires forall p :: p in s.client.db ==> s.client.db[p].size < 0x8000_0000
    requires Requeued(s.client.db, y.folder, rows, log)
    ensures Agreed(g, y, Restarted(y.folder, s.client.db, log, s.server))
  {
    hide Goal.Sound, Goal.New, Goal.Near, Coherent, Bookkeeping, GoodNames, Quiet, Synced, Recover;
    hide Loaded, Requeued, Ordered, Goal.Echo, InSync;
    NextRound(g, x, s, y);
    var u := Apply(g, s, Change(y.folder));
    SmallIsLoaded(s.client.db);
    NewEntries(x);
    RequeuedAreEchoes(y, s.client.db, rows, log);
    RestartOfLive(y.c, s.server);
    ReloadIsNear(y, s.server, y.was);
  }

  /** So every run of the restarted program ends in agreement on the new snapshot, elements that changed
      while it was not running included, although each of them is asked about twice. */
  lemma RestartSynchronises(g: Config, x: Goal, s: Sys, y: Goal, rows: seq<Path>, log: seq<Event>, ls: seq<Label>, t: Sys)
    requires InSync(g, x, s) && Quiet(g, s) && Follows(x, y) && !x.exact && GoodNames(y.folder, s.paths) && y.Sound()
    requires forall p :: p in s.client.db ==> s.client.db[p].size < 0x8000_0000
    requires Requeued(s.client.db, y.folder, rows, log)
    requires RunsAllowed(g, y, Restarted(y.folder, s.client.db, log, s.server), ls, t)
    ensures !t.halted && t.serving && forall r :: r in t.toClient ==> !r.Err?
    ensures Quiet(g, t) ==> Synced(y, t)
  {
    hide InSync, Quiet, Agreed, Goal.Sound, RunsAllowed, Synced, GoodNames, Requeued, Follows;
    RestartIsAgreed(g, x, s, y, rows, log);
    Synchronises(g, y, Restarted(y.folder, s.client.db, log, s.server), ls, t);
  }
}
