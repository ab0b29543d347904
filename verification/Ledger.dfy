/** What is known, path by path, while a synchronisation is under way: which events are on their way,
    and where watcher, client database and server stand. */
module Ledger {
  import opened Base
  import opened Table
  import opened Server
  import opened Coherence
  import opened Client
  import opened System
  import opened SyncServer

  /** At most two events under way are about one path: an echo and, behind it, the change. No STOR is
      under way before the echo has been answered. */
  ghost predicate Ordered(x: Goal, es: seq<Event>) {
    forall i, j :: 0 <= i < j < |es| && es[i].path == es[j].path ==>
      x.Echo(es[i]) && !x.Echo(es[j]) && es[j].status != StoreSent
  }

  /** The change at this path has been noticed and is under way. */
  ghost predicate Awaited(x: Goal, es: seq<Event>, p: Path) { exists e :: e in es && !x.Echo(e) && e.path == p }

  /** Noticed but not yet recorded: the database still has the old entry. */
  ghost predicate OnItsWay(x: Goal, paths: Catalogue, db: Catalogue, e: Event) {
    && x.Due(e)
    && Get(paths, e.path) == Get(x.New(), e.path)
    && Get(db, e.path) == Get(x.was, e.path)
    && (e.status == Modification ==> e.path in x.was)
  }

  ghost predicate Tracked(x: Goal, paths: Catalogue, db: Catalogue, m: Catalogue, e: Event) {
    if x.Echo(e) then Get(db, e.path) == Get(x.was, e.path) && Holds(m, e) else OnItsWay(x, paths, db, e)
  }

  /** Not yet noticed, or completely dealt with. */
  ghost predicate AtRest(x: Goal, paths: Catalogue, db: Catalogue, m: Catalogue, p: Path) {
    || (Get(paths, p) == Get(x.was, p) && Get(db, p) == Get(x.was, p))
    || (Get(paths, p) == Get(x.New(), p) && Get(db, p) == Get(x.New(), p) && x.Near(Get(m, p), Get(x.New(), p)))
  }

  ghost predicate Books(x: Goal, es: seq<Event>, paths: Catalogue, db: Catalogue, m: Catalogue) {
    && Ordered(x, es)
    && (forall e :: e in es ==> Tracked(x, paths, db, m, e))
    && (forall p :: !Awaited(x, es, p) ==> AtRest(x, paths, db, m, p))
  }

  lemma OrderedAt(x: Goal, es: seq<Event>, i: nat, j: nat)
    requires Ordered(x, es) && i < j < |es| && es[i].path == es[j].path
    ensures x.Echo(es[i]) && !x.Echo(es[j]) && es[j].status != StoreSent
  {
  }

  lemma EchoIsEarlier(x: Goal, es: seq<Event>, i: nat, j: nat)
    requires Ordered(x, es) && i < |es| && j < |es| && es[i].path == es[j].path && x.Echo(es[i]) && !x.Echo(es[j])
    ensures i < j && es[j].status != StoreSent
  {
    hide Goal.Echo;
  }

  lemma TrackedIsSupported(x: Goal, paths: Catalogue, db: Catalogue, m: Catalogue, e: Event)
    requires x.Sound() && Tracked(x, paths, db, m, e)
    ensures e.entry.kind != Unsupported
  {
    if x.Echo(e) {
      EchoMeans(x, e);
    } else {
      DueMeans(x, e);
    }
  }

  // ------------------------------------------------------------------ watcher

  /** The watcher reports only what has not been reported, and reports it correctly. */
  lemma NoticedIsDue(x: Goal, es: seq<Event>, paths: Catalogue, db: Catalogue, m: Catalogue, p: Path)
    requires x.Sound() && Books(x, es, paths, db, m) && Difference(x.c.sha, paths, x.folder, p).Some?
    ensures var e := Difference(x.c.sha, paths, x.folder, p).value;
            && e.path == p && !Awaited(x, es, p) && !x.Echo(e) && e.status != StoreSent
            && OnItsWay(x, Noted(paths, e), db, e)
            && forall q :: q != p ==> Get(Noted(paths, e), q) == Get(paths, q)
  {
    hide Goal.Near, Closed, EntryOf, Ordered;
    assert Get(paths, p) != Get(x.New(), p);
    assert AtRest(x, paths, db, m, p);
  }

  lemma BooksNotice(x: Goal, es: seq<Event>, paths: Catalogue, db: Catalogue, m: Catalogue, p: Path)
    requires x.Sound() && Books(x, es, paths, db, m) && Difference(x.c.sha, paths, x.folder, p).Some?
    ensures var e := Difference(x.c.sha, paths, x.folder, p).value; Books(x, es + [e], Noted(paths, e), db, m)
  {
    hide Goal.Sound, Difference, Goal.Near, Goal.New, Goal.Due, Goal.Echo, Noted, Holds;
    NoticedIsDue(x, es, paths, db, m, p);
    var e := Difference(x.c.sha, paths, x.folder, p).value;
    var fs := es + [e];
    OrderedAppend(x, es, e);
    AwaitedAppend(x, es, e);
    hide Ordered, Awaited;
    forall f | f in fs ensures Tracked(x, Noted(paths, e), db, m, f) {
      if f in es {
        assert Tracked(x, paths, db, m, f);
        AwaitedBy(x, es, f);
      }
    }
    forall q | !Awaited(x, fs, q) ensures AtRest(x, Noted(paths, e), db, m, q) {
      assert AtRest(x, paths, db, m, q);
    }
  }

  lemma AwaitedBy(x: Goal, es: seq<Event>, f: Event)
    requires f in es
    ensures !x.Echo(f) ==> Awaited(x, es, f.path)
  {
  }

  lemma AwaitedAppend(x: Goal, es: seq<Event>, e: Event)
    requires !x.Echo(e)
    ensures forall q :: Awaited(x, es + [e], q) <==> Awaited(x, es, q) || q == e.path
  {
    hide Goal.Echo;
    forall q ensures Awaited(x, es + [e], q) <==> Awaited(x, es, q) || q == e.path {
      assert forall f :: f in es + [e] <==> f in es || f == e;
    }
  }

  lemma OrderedAppend(x: Goal, es: seq<Event>, e: Event)
    requires Ordered(x, es) && !Awaited(x, es, e.path) && !x.Echo(e) && e.status != StoreSent
    ensures Ordered(x, es + [e])
  {
    hide Goal.Echo;
    var fs := es + [e];
    forall i, j | 0 <= i < j < |fs| && fs[i].path == fs[j].path
      ensures x.Echo(fs[i]) && !x.Echo(fs[j]) && fs[j].status != StoreSent
    {
      assert fs[i] in es;
    }
  }

  // -------------------------------------------------------------------- serve

  /** What held of other paths holds still. */
  lemma Carried(x: Goal, m: Catalogue, r: Catalogue, p: Path)
    requires forall q :: q != p ==> Get(r, q) == Get(m, q) || (q !in r && q !in x.folder)
    ensures forall q :: q != p && x.Near(Get(m, q), Get(x.New(), q)) ==> x.Near(Get(r, q), Get(x.New(), q))
    ensures forall q :: q != p && Get(m, q) == Get(x.New(), q) ==> Get(r, q) == Get(x.New(), q)
  {
  }

  /** The command of a change was carried out. */
  lemma BooksServe(x: Goal, es: seq<Event>, paths: Catalogue, db: Catalogue, m: Catalogue, r: Catalogue, e: Event)
    requires Books(x, es, paths, db, m) && e in es && !x.Echo(e)
    requires forall q :: q != e.path ==> Get(r, q) == Get(m, q) || (q !in r && q !in x.folder)
    requires forall f :: f in es && x.Echo(f) && f.path == e.path ==> Holds(r, f)
    ensures Books(x, es, paths, db, r)
  {
    hide Goal.New, Goal.Due, Ordered;
    Carried(x, m, r, e.path);
    assert Awaited(x, es, e.path);
    forall f | f in es && x.Echo(f) ensures Holds(r, f) {
      assert Get(r, f.path) == Get(m, f.path) || f.path == e.path;
    }
    forall p | !Awaited(x, es, p) ensures AtRest(x, paths, db, r, p) {
      assert p != e.path && AtRest(x, paths, db, m, p);
    }
  }

  /** The command of an echo was carried out. */
  lemma BooksEcho(x: Goal, es: seq<Event>, paths: Catalogue, db: Catalogue, m: Catalogue, e: Event)
    requires Books(x, es, paths, db, m) && e in es && x.Echo(e)
    ensures Books(x, es, paths, db, m[e.path := e.entry])
  {
    hide Goal.New, Goal.Due, Goal.Near, Ordered;
    var r := m[e.path := e.entry];
    forall f | f in es && x.Echo(f) ensures Holds(r, f) {
      assert f.path == e.path ==> f.entry == e.entry;
    }
    forall p | !Awaited(x, es, p) ensures AtRest(x, paths, db, r, p) {
      assert AtRest(x, paths, db, m, p);
      assert p != e.path ==> Get(r, p) == Get(m, p);
    }
  }

  // ------------------------------------------------------------------ receive

  /** After OK the database holds the snapshot's entry, and nothing else changed in it. */
  lemma RecordIsNew(x: Goal, paths: Catalogue, db: Catalogue, e: Event)
    requires x.Sound() && OnItsWay(x, paths, db, e)
    ensures Get(Record(db, e), e.path) == Get(x.New(), e.path)
    ensures forall q :: q != e.path ==> Get(Record(db, e), q) == Get(db, q)
  {
    DueMeans(x, e);
    hide Goal.Sound, Goal.New, Goal.Due;
  }

  /** The answer to an echo changes nothing. */
  lemma RecordOfEcho(x: Goal, db: Catalogue, e: Event)
    requires x.Sound() && x.Echo(e) && Get(db, e.path) == Get(x.was, e.path)
    ensures Record(db, e) == db
  {
    EchoMeans(x, e);
  }

  lemma TailIsOrdered(x: Goal, es: seq<Event>)
    requires Ordered(x, es) && es != []
    ensures Ordered(x, es[1..])
  {
    hide Goal.Echo;
    forall i, j | 0 <= i < j < |es[1..]| && es[1..][i].path == es[1..][j].path
      ensures x.Echo(es[1..][i]) && !x.Echo(es[1..][j]) && es[1..][j].status != StoreSent
    {
      OrderedAt(x, es, i + 1, j + 1);
    }
  }

  /** No other event about the path of a change at the head. */
  lemma HeadIsAlone(x: Goal, es: seq<Event>)
    requires Ordered(x, es) && es != [] && !x.Echo(es[0])
    ensures forall f :: f in es[1..] ==> f.path != es[0].path
  {
    forall f | f in es[1..] ensures f.path != es[0].path {
      var i :| 0 <= i < |es[1..]| && es[1..][i] == f;
      assert es[i + 1] == f;
    }
  }

  lemma HeadAndTail(x: Goal, es: seq<Event>)
    requires es != []
    ensures es[0] in es && forall f :: f in es <==> f == es[0] || f in es[1..]
    ensures forall q :: Awaited(x, es, q) <==> Awaited(x, es[1..], q) || (!x.Echo(es[0]) && es[0].path == q)
  {
    hide Goal.Echo;
    assert es == [es[0]] + es[1..];
    assert forall f :: f in es <==> f == es[0] || f in es[1..];
  }

  lemma EchoAnswered(x: Goal, es: seq<Event>, paths: Catalogue, db: Catalogue, m: Catalogue)
    requires x.Sound() && Books(x, es, paths, db, m) && es != [] && x.Echo(es[0])
    ensures Books(x, es[1..], paths, Record(db, es[0]), m)
  {
    hide Goal.Sound, Goal.New, Goal.Due, Goal.Echo, Holds, Record, Ordered, Awaited, AtRest;
    TailIsOrdered(x, es);
    HeadAndTail(x, es);
    assert Tracked(x, paths, db, m, es[0]);
    RecordOfEcho(x, db, es[0]);
  }

  lemma ChangeAnswered(x: Goal, es: seq<Event>, paths: Catalogue, db: Catalogue, m: Catalogue)
    requires x.Sound() && Books(x, es, paths, db, m) && es != [] && !x.Echo(es[0])
    requires Get(m, es[0].path) == Get(x.New(), es[0].path)
    ensures Books(x, es[1..], paths, Record(db, es[0]), m)
  {
    hide Goal.Sound, Goal.New, Goal.Due, Goal.Echo, Holds, Record, Ordered, Awaited;
    var e, after := es[0], Record(db, es[0]);
    TailIsOrdered(x, es);
    HeadAndTail(x, es);
    HeadIsAlone(x, es);
    assert Tracked(x, paths, db, m, e);
    RecordIsNew(x, paths, db, e);
    forall f | f in es[1..] ensures Tracked(x, paths, after, m, f) {
      assert Tracked(x, paths, db, m, f) && f.path != e.path;
    }
    forall q | !Awaited(x, es[1..], q) ensures AtRest(x, paths, after, m, q) {
      assert q != e.path ==> AtRest(x, paths, db, m, q);
    }
  }

  lemma BooksAnswered(x: Goal, es: seq<Event>, paths: Catalogue, db: Catalogue, m: Catalogue)
    requires x.Sound() && Books(x, es, paths, db, m) && es != []
    requires !x.Echo(es[0]) ==> Get(m, es[0].path) == Get(x.New(), es[0].path)
    ensures Books(x, es[1..], paths, Record(db, es[0]), m)
  {
    hide Books, Goal.Sound, Goal.New, Goal.Echo, Record;
    if x.Echo(es[0]) {
      EchoAnswered(x, es, paths, db, m);
    } else {
      ChangeAnswered(x, es, paths, db, m);
    }
  }

  /** The PROB at the head becomes a STOR further back. */
  lemma BooksTurned(x: Goal, es: seq<Event>, fs: seq<Event>, n: nat, paths: Catalogue, db: Catalogue, m: Catalogue)
    requires Books(x, es, paths, db, m) && n < |es| && !x.Echo(es[0])
    requires es[0].entry.kind == Regular && es[0].status != Deletion
    requires fs == es[1..n + 1] + [Event(es[0].path, es[0].entry, StoreSent)] + es[n + 1..]
    ensures Books(x, fs, paths, db, m)
  {
    hide Goal.New, Goal.Echo, AtRest, Holds, Ordered, Awaited;
    var e, u := es[0], Event(es[0].path, es[0].entry, StoreSent);
    StoreIsNoEcho(x, u);
    TurnedIsOrdered(x, es, fs, n);
    TurnedIsAwaited(x, es, fs, n);
    assert e in es && Tracked(x, paths, db, m, e);
    forall f | f in fs ensures Tracked(x, paths, db, m, f) {
      assert f == u || f in es;
    }
  }

  lemma StoreIsNoEcho(x: Goal, e: Event)
    requires e.status == StoreSent
    ensures !x.Echo(e)
  {
  }

  lemma TurnedIsOrdered(x: Goal, es: seq<Event>, fs: seq<Event>, n: nat)
    requires Ordered(x, es) && n < |es| && !x.Echo(es[0])
    requires fs == es[1..n + 1] + [Event(es[0].path, es[0].entry, StoreSent)] + es[n + 1..]
    ensures Ordered(x, fs)
  {
    hide Goal.Echo;
    HeadIsAlone(x, es);
    assert forall i :: 0 <= i < |fs| && i != n ==> fs[i] == es[1..][if i < n then i else i - 1];
    forall i, j | 0 <= i < j < |fs| && fs[i].path == fs[j].path
      ensures x.Echo(fs[i]) && !x.Echo(fs[j]) && fs[j].status != StoreSent
    {
      assert i != n ==> fs[i] in es[1..];
      assert j != n ==> fs[j] in es[1..];
      OrderedAt(x, es, if i < n then i + 1 else i, if j < n then j + 1 else j);
    }
  }

  lemma TurnedIsAwaited(x: Goal, es: seq<Event>, fs: seq<Event>, n: nat)
    requires n < |es| && !x.Echo(es[0])
    requires fs == es[1..n + 1] + [Event(es[0].path, es[0].entry, StoreSent)] + es[n + 1..]
    ensures forall q :: Awaited(x, fs, q) <==> Awaited(x, es, q)
    ensures forall f :: f in fs ==> f == Event(es[0].path, es[0].entry, StoreSent) || f in es
  {
    var e, u := es[0], Event(es[0].path, es[0].entry, StoreSent);
    StoreIsNoEcho(x, u);
    hide Goal.Echo;
    assert es == [e] + es[1..n + 1] + es[n + 1..];
    assert forall f :: f in fs <==> f == u || f in es[1..n + 1] || f in es[n + 1..];
    assert forall f :: f in es <==> f == e || f in es[1..n + 1] || f in es[n + 1..];
    forall q ensures Awaited(x, fs, q) <==> Awaited(x, es, q) {
      assert u in fs && e in es;
    }
  }

  // ---------------------------------------------------------------- reconnect

  /** The server's map was loaded anew, up to times of directories where that is allowed. */
  lemma BooksReloaded(x: Goal, es: seq<Event>, paths: Catalogue, db: Catalogue, m: Catalogue, r: Catalogue)
    requires Books(x, es, paths, db, m)
    requires forall q :: Get(m, q) == Get(r, q) || (!x.exact && q in m && q in r && SameElement(r[q], m[q]))
    ensures Books(x, es, paths, db, r)
  {
    hide Goal.New, Goal.Due, Ordered;
    forall e | e in es && x.Echo(e) ensures Holds(r, e) {
      assert Get(m, e.path) == Get(r, e.path) || SameElement(r[e.path], m[e.path]);
    }
    forall p | !Awaited(x, es, p) ensures AtRest(x, paths, db, r, p) {
      assert AtRest(x, paths, db, m, p);
      assert Get(m, p) == Get(r, p) || (!x.exact && p in m && p in r && SameElement(r[p], m[p]));
    }
  }
}
