/** What the client database records, and what a STOR carries: over all steps and runs of the system. */
module Records {
  import opened Base
  import opened Table
  import opened Server
  import opened Client
  import opened System

  // ------------------------------------------------------------- the database

  lemma ReactionRecords(sha: Digest, folder: Tree, c: Client, r: Response)
    requires c.window != []
    ensures match React(sha, folder, c, r)
            case Answered(d) => d.db == if r.Ok? then Record(c.db, c.window[0]) else c.db
            case Transfer(d, _) => d.db == c.db && !r.Ok?
            case Fatal => true
    ensures r.Ok? && React(sha, folder, c, r).Answered? ==> r.code in {Found, Created, NotThere, Removed}
  {
    hide Record, Stale;
  }

  lemma StepRecords(g: Config, s: Sys, l: Label)
    requires Enabled(g, s, l)
    ensures Apply(g, s, l).client.db ==
            if l.Receive? && s.toClient[0].Ok? && Reacts(g, s).Answered? then Record(s.client.db, s.client.window[0])
            else s.client.db
  {
    hide AfterReceive, AfterSend, AfterServe, AfterReconnect, AfterRequeue, AfterNotice, Difference, Resend, Record, React;
    match l
    case SendNext => SendRecords(g, s);
    case Serve(now) => WireRecords(g, s, now);
    case Requeue => PushRecords(s);
    case Notice(p) => NoticeRecords(g, s, p);
    case Receive =>
      ReceiveRecords(g, s);
    case StorHeaderFails => ReactionRecords(g.session.sha, s.folder, s.client, s.toClient[0]);
    case StorDataFails => ReactionRecords(g.session.sha, s.folder, s.client, s.toClient[0]);
    case Reconnect(n) => ReconnectRecords(g, s, n);
    case _ =>
  }

  lemma ReceiveRecords(g: Config, s: Sys)
    requires MayReceive(s)
    ensures AfterReceive(g, s).client.db ==
            if s.toClient[0].Ok? && Reacts(g, s).Answered? then Record(s.client.db, s.client.window[0]) else s.client.db
  {
    hide Record, React;
    ReactionRecords(g.session.sha, s.folder, s.client, s.toClient[0]);
  }

  lemma SendRecords(g: Config, s: Sys)
    requires MaySend(g, s)
    ensures AfterSend(g, s).client.db == s.client.db
  {
  }

  lemma WireRecords(g: Config, s: Sys, now: Time)
    requires s.toServer != []
    ensures AfterServe(g, s, now).client == s.client
  {
    hide Handle;
  }

  lemma PushRecords(s: Sys)
    requires s.requeue != []
    ensures AfterRequeue(s).client == s.client
  {
  }

  lemma NoticeRecords(g: Config, s: Sys, p: Path)
    requires Enabled(g, s, Notice(p))
    ensures AfterNotice(g, s, p).client == s.client
  {
    hide Difference, Noted;
  }

  lemma ReconnectRecords(g: Config, s: Sys, n: nat)
    requires Enabled(g, s, Reconnect(n))
    ensures AfterReconnect(g, s, n).client == s.client
  {
    hide Resend;
  }

  /** The database changes in one case only: the client processes an OK. */
  lemma OnlyOkRecords(g: Config, s: Sys, l: Label)
    requires Enabled(g, s, l) && Apply(g, s, l).client.db != s.client.db
    ensures l.Receive? && s.toClient[0].Ok? && s.toClient[0].code in {Found, Created, NotThere, Removed}
    ensures Apply(g, s, l).client.db == Record(s.client.db, s.client.window[0])
  {
    hide Apply, Record, React;
    StepRecords(g, s, l);
    ReactionRecords(g.session.sha, s.folder, s.client, s.toClient[0]);
  }

  /** The events at the head of the window when the client processed an OK, in order. */
  function Acknowledged(g: Config, s: Sys, ls: seq<Label>): seq<Event>
    decreases |ls|
  {
    if ls == [] || !Enabled(g, s, ls[0]) then []
    else
      (if ls[0].Receive? && s.toClient[0].Ok? && Reacts(g, s).Answered? then [s.client.window[0]] else [])
      + Acknowledged(g, Apply(g, s, ls[0]), ls[1..])
  }

  function RecordAll(db: Catalogue, es: seq<Event>): Catalogue
    decreases |es|
  {
    if es == [] then db else RecordAll(Record(db, es[0]), es[1..])
  }

  /** Over every run the database is the old one with the acknowledged events recorded in it, in order; errors,
      lost connections and repeated sending leave no trace. */
  lemma {:induction false} DatabaseIsAcknowledged(g: Config, s: Sys, ls: seq<Label>, t: Sys)
    requires Runs(g, s, ls, t)
    ensures t.client.db == RecordAll(s.client.db, Acknowledged(g, s, ls))
    decreases |ls|
  {
    hide Apply, Enabled, Record, Reacts;
    if ls != [] {
      StepRecords(g, s, ls[0]);
      DatabaseIsAcknowledged(g, Apply(g, s, ls[0]), ls[1..], t);
      var rest := Acknowledged(g, Apply(g, s, ls[0]), ls[1..]);
      assert forall e :: ([e] + rest)[1..] == rest;
      assert [] + rest == rest;
    }
  }

  /** Recording is INSERT OR REPLACE, UPDATE of what is there, or DELETE, at one path. */
  lemma RecordMeans(db: Catalogue, e: Event, p: Path)
    ensures Get(Record(db, e), p) ==
            if p != e.path || (e.status == Modification && p !in db) then Get(db, p)
            else if e.status == Deletion then None
            else Some(e.entry.(kind := if e.entry.kind == Regular then Regular else Directory))
  {
  }

  /** So what the database says about a path was in it before, or is the last acknowledged word about it. */
  lemma {:induction false} RecordedWasAcknowledged(db: Catalogue, es: seq<Event>, p: Path)
    requires Get(RecordAll(db, es), p) != Get(db, p)
    ensures exists e :: (e in es && e.path == p
              && Get(RecordAll(db, es), p) == (if e.status == Deletion then None else Some(Stored(e.entry))))
    decreases |es|
  {
    hide Record, Stored;
    assert es == [es[0]] + es[1..];
    var after := Record(db, es[0]);
    if Get(RecordAll(after, es[1..]), p) != Get(after, p) {
      RecordedWasAcknowledged(after, es[1..], p);
      var e :| e in es[1..] && e.path == p
               && Get(RecordAll(after, es[1..]), p) == (if e.status == Deletion then None else Some(Stored(e.entry)));
      assert e in es;
    } else {
      RecordedOnce(db, es[0], p);
      assert es[0] in es;
    }
  }

  lemma RecordedOnce(db: Catalogue, e: Event, p: Path)
    requires Get(Record(db, e), p) != Get(db, p)
    ensures e.path == p && Get(Record(db, e), p) == (if e.status == Deletion then None else Some(Stored(e.entry)))
  {
  }

  // ---------------------------------------------------------------- receive()

  /** An error report about one message is skipped: the event is done with and nothing is recorded. Only a
      report that concerns the session as a whole stops the program. */
  lemma ErrorsAreSkipped(sha: Digest, folder: Tree, c: Client, e: ErrCode)
    requires c.window != []
    ensures var r := React(sha, folder, c, Err(e));
            if e in {Exception, AuthFailed, RetrieveFailed} then r == Fatal
            else r == Answered(Client(c.window[1..], c.db))
  {
  }

  /** SEND for a new or modified file is followed by its STOR if and only if the file still has the content that
      was asked about; otherwise the event is dropped, since the watcher will report the change. */
  lemma SendIsFollowedIff(sha: Digest, folder: Tree, c: Client, e: Event)
    requires c.window != [] && c.window[0] == e && e.entry.kind == Regular && (e.status == Creation || e.status == Modification)
    ensures var r, rest := React(sha, folder, c, Send(e.path, e.entry.hash)), Client(c.window[1..], c.db);
            if e.path in folder && EntryOf(sha, folder[e.path]).hash == e.entry.hash
            then r == Transfer(rest, Event(e.path, e.entry, StoreSent)) else r == Answered(rest)
  {
  }

  // ---------------------------------------------------------------- resending

  /** The window is sent again entry by entry. */
  lemma {:induction false} ResendSplits(sha: Digest, folder: Tree, a: seq<Event>, b: seq<Event>)
    ensures Resend(sha, folder, a + b) == Resend(sha, folder, a) + Resend(sha, folder, b)
    decreases |a|
  {
    hide Compose, Skipped, Content;
    if a == [] {
      assert a + b == b;
    } else {
      assert (a + b)[1..] == a[1..] + b;
      ResendSplits(sha, folder, a[1..], b);
    }
  }

  /** An entry is stepped over if and only if it is a STOR whose file has gone or changed. */
  lemma ResendOfOne(sha: Digest, folder: Tree, e: Event)
    requires Compose(e, Content(folder, e.path)).Some?
    ensures Resend(sha, folder, [e]) ==
            if e.status == StoreSent && !(e.path in folder && EntryOf(sha, folder[e.path]).hash == e.entry.hash) then []
            else [Compose(e, Content(folder, e.path)).value]
  {
    assert [e][1..] == [] && Resend(sha, folder, []) == [];
  }

  // ----------------------------------------------------- what a STOR carries

  /** The content is that of the hash. (ZERO_HASH is what a directory has in place of a hash.) */
  predicate Honest(sha: Digest, k: Command) { k.Stor? && k.hash != ZERO_HASH ==> sha(k.data) == k.hash }

  ghost predicate AllHonest(sha: Digest, ks: seq<Command>) { forall k :: k in ks ==> Honest(sha, k) }

  /** STOR events come into being in the window only. */
  ghost predicate NoneQueued(s: Sys) { forall e :: e in s.queue + s.requeue ==> e.status != StoreSent }

  lemma {:induction false} ResendIsHonest(sha: Digest, folder: Tree, window: seq<Event>)
    ensures AllHonest(sha, Resend(sha, folder, window))
  {
    if window != [] {
      ResendIsHonest(sha, folder, window[1..]);
    }
  }

  lemma StepIsHonest(g: Config, s: Sys, l: Label)
    requires Enabled(g, s, l) && NoneQueued(s) && AllHonest(g.session.sha, s.toServer)
    ensures NoneQueued(Apply(g, s, l)) && AllHonest(g.session.sha, Apply(g, s, l).toServer)
  {
    hide Handle, Resend, Honest;
    var t := Apply(g, s, l);
    match l
    case Requeue =>
      assert s.requeue == [s.requeue[0]] + s.requeue[1..];
    case Notice(p) =>
      assert forall e :: e in t.queue + t.requeue ==> e in s.queue + s.requeue || e == t.queue[|s.queue|];
    case SendNext =>
      assert s.queue[0] in s.queue + s.requeue;
      QueuedIsHonest(g.session.sha, s.queue[0]);
      assert forall e :: e in t.queue + t.requeue ==> e in s.queue + s.requeue;
    case Receive => ReceiveIsHonest(g, s);
    case Reconnect(n) =>
      ResendIsHonest(g.session.sha, s.folder, s.client.window);
    case _ =>
  }

  lemma QueuedIsHonest(sha: Digest, e: Event)
    requires e.status != StoreSent
    ensures Compose(e, []).Some? ==> Honest(sha, Compose(e, []).value)
  {
  }

  lemma ReceiveIsHonest(g: Config, s: Sys)
    requires MayReceive(s) && AllHonest(g.session.sha, s.toServer)
    ensures AllHonest(g.session.sha, AfterReceive(g, s).toServer)
    ensures AfterReceive(g, s).queue == s.queue && AfterReceive(g, s).requeue == s.requeue
  {
  }

  /** Over every run, the folder changing at any moment, no STOR is ever under way with another content than
      that of its hash. */
  lemma {:induction false} AlwaysHonest(g: Config, s: Sys, ls: seq<Label>, t: Sys)
    requires Runs(g, s, ls, t) && NoneQueued(s) && AllHonest(g.session.sha, s.toServer)
    ensures NoneQueued(t) && AllHonest(g.session.sha, t.toServer)
    decreases |ls|
  {
    hide Apply, Enabled, NoneQueued, AllHonest;
    if ls != [] {
      StepIsHonest(g, s, ls[0]);
      AlwaysHonest(g, Apply(g, s, ls[0]), ls[1..], t);
    }
  }
}
