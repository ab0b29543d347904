/** Answers carry no sequence numbers: the client pairs each with the head of its window. This
    file shows when that pairing is right, and that no accepted event is ever forgotten. */
module Alignment {
  import opened Base
  import opened Table
  import opened Validator
  import opened Server
  import opened Guarantees
  import opened Client
  import opened System

  /** The command an event stands for, whatever file content goes with it. */
  function CommandFor(e: Event): Option<Command> { Compose(e, []) }

  /** An event that can be sent and whose command the server accepts as it stands. */
  predicate Good(e: Event) {
    e.entry.kind != Unsupported && CommandFor(e).Some? && Valid(CommandFor(e).value)
  }

  /** The same command, up to the file content. */
  predicate Carries(k: Command, e: Event) {
    CommandFor(e).Some? && (if k.Stor? then k.(data := []) else k) == CommandFor(e).value
  }

  ghost predicate GoodEvents(s: Sys) {
    && (forall e :: e in s.client.window ==> Good(e))
    && (forall e :: e in s.queue + s.requeue ==> (e.entry.kind != Unsupported ==> Good(e)) && e.status != StoreSent)
  }

  /** Names and times of the files and directories of the watched folder, and those the watcher remembers, pass the Validator. */
  ghost predicate GoodNames(folder: Tree, paths: Catalogue) {
    && (forall p :: p in folder && !folder[p].Special? ==> ValidatePath(p) == Some(p) && ValidTime(folder[p].time))
    && (forall p :: p in paths ==> ValidatePath(p) == Some(p) && ValidTime(paths[p].time))
  }

  /** The answers under way, followed by the commands not yet carried out, are the window, entry
      for entry; of a broken connection only a front part of the window is left. */
  ghost predicate Paired(s: Sys) {
    && |s.toClient| + |s.toServer| <= |s.client.window|
    && (s.up ==> |s.toClient| + |s.toServer| == |s.client.window|)
    && (forall i :: 0 <= i < |s.toClient| ==>
          CommandFor(s.client.window[i]).Some? && Fits(s.toClient[i], CommandFor(s.client.window[i]).value))
    && (forall i :: 0 <= i < |s.toServer| ==> Carries(s.toServer[i], s.client.window[|s.toClient| + i]))
  }

  ghost predicate Aligned(g: Config, s: Sys) {
    && Paired(s) && GoodEvents(s) && GoodNames(s.folder, s.paths)
    && |s.client.window| <= g.windowSize
    && (s.halted ==> s.toClient != [] && s.toClient[0] == Err(Exception) && !s.up)
  }

  // ----------------------------------------------------------- single steps

  lemma RequeueAligned(g: Config, s: Sys)
    requires Aligned(g, s) && s.requeue != []
    ensures Aligned(g, AfterRequeue(s))
  {
    hide GoodNames, Paired, Good;
    var t := AfterRequeue(s);
    forall e | e in t.queue + t.requeue ensures e in s.queue + s.requeue {
      assert s.requeue == [s.requeue[0]] + s.requeue[1..];
    }
    PairedSame(s, t);
  }

  lemma PairedSame(s: Sys, t: Sys)
    requires Paired(s) && t.client == s.client && t.up == s.up && t.toServer == s.toServer && t.toClient == s.toClient
    ensures Paired(t)
  {
  }

  lemma NoticeAligned(g: Config, s: Sys, p: Path)
    requires Aligned(g, s) && Enabled(g, s, Notice(p))
    ensures Aligned(g, AfterNotice(g, s, p))
  {
    hide ValidatePath, ValidTime, Fits, Carries;
    var e := Difference(g.session.sha, s.paths, s.folder, p).value;
    if e.entry.kind != Unsupported {
      DifferenceIsGood(g, s, p);
    }
  }

  lemma DifferenceIsGood(g: Config, s: Sys, p: Path)
    requires GoodNames(s.folder, s.paths) && Enabled(g, s, Notice(p))
    ensures var e := Difference(g.session.sha, s.paths, s.folder, p).value; e.entry.kind != Unsupported ==> Good(e)
  {
    hide ValidatePath, ValidTime;
  }

  lemma SendAligned(g: Config, s: Sys)
    requires Aligned(g, s) && MaySend(g, s)
    ensures Aligned(g, AfterSend(g, s))
  {
    hide Valid, GoodNames, Fits;
    var t := AfterSend(g, s);
    assert s.queue[0] in s.queue + s.requeue;
    forall e | e in t.queue + t.requeue ensures e in s.queue + s.requeue {}
  }

  lemma ServeAligned(g: Config, s: Sys, now: Time)
    requires Aligned(g, s) && s.toServer != []
    ensures Aligned(g, AfterServe(g, s, now))
  {
    hide GoodNames, Handle, Fits, ValidatePath, ValidTime;
    var k, e := s.toServer[0], s.client.window[|s.toClient|];
    assert e in s.client.window;
    CarriedIsValid(k, e);
    AnswersFit(g.session, s.server, k, now);
    var r := Handle(g.session, s.server, k, now).replies[0];
    FitsIgnoresData(r, k, CommandFor(e).value);
  }

  lemma CarriedIsValid(k: Command, e: Event)
    requires Carries(k, e) && Good(e)
    ensures Valid(k)
  {
    hide ValidatePath, ValidTime;
  }

  lemma FitsIgnoresData(r: Response, k: Command, k': Command)
    requires (if k.Stor? then k.(data := []) else k) == k'
    ensures Fits(r, k) <==> Fits(r, k')
  {
  }

  /** In an aligned state receive() never meets an answer it does not expect: neither the path and
      hash check nor any "unexpected code" fires. Only a server exception stops the client. */
  lemma MismatchIsUnreachable(g: Config, s: Sys)
    requires Aligned(g, s) && MayReceive(s)
    ensures Reacts(g, s).Fatal? <==> s.toClient[0] == Err(Exception)
  {
    hide GoodNames, Valid;
    assert s.client.window[0] in s.client.window;
  }

  lemma ReceiveAligned(g: Config, s: Sys)
    requires Aligned(g, s) && MayReceive(s)
    ensures Aligned(g, AfterReceive(g, s))
  {
    hide GoodNames, Fits, Carries, Good, CommandFor, Stale, EntryOf;
    MismatchIsUnreachable(g, s);
    var w := s.client.window;
    assert w[0] in w;
    var t := AfterReceive(g, s);
    if Reacts(g, s).Transfer? {
      StoreCarries(s, w[0]);
    }
    if !Reacts(g, s).Fatal? {
      forall i | 0 <= i < |t.toClient| ensures t.toClient[i] == s.toClient[i + 1] && t.client.window[i] == w[i + 1] {}
    }
  }

  lemma StoreCarries(s: Sys, e: Event)
    requires Good(e) && e.entry.kind == Regular && (e.status == Creation || e.status == Modification)
    ensures var st := Event(e.path, e.entry, StoreSent);
            Good(st) && forall d: Bytes :: Carries(Stor(e.path, e.entry.size, e.entry.time, e.entry.hash, d), st)
  {
    hide ValidatePath, ValidTime;
  }

  // -------------------------------------------------------------- reconnect

  ghost predicate NoStaleStore(g: Config, s: Sys) {
    forall e :: e in s.client.window ==> !Skipped(g.session.sha, s.folder, e)
  }

  /** What recoverFromError sends: one command per entry, unless it steps over one. */
  lemma {:induction false} ResendCarries(sha: Digest, folder: Tree, window: seq<Event>)
    requires forall e :: e in window ==> Good(e)
    ensures var ks := Resend(sha, folder, window);
            && (|ks| == |window| <==> forall e :: e in window ==> !Skipped(sha, folder, e))
            && (|ks| == |window| ==> forall i :: 0 <= i < |ks| ==> Carries(ks[i], window[i]))
  {
    hide Valid, Stale;
    if window != [] {
      assert window[0] in window;
      ResendCarries(sha, folder, window[1..]);
      forall e ensures e in window <==> e == window[0] || e in window[1..] {}
    }
  }

  /** A completed reconnection is aligned exactly if no unanswered STOR has become stale:
      recoverFromError steps over such an entry but leaves it in the window. */
  lemma ReconnectAlignedIff(g: Config, s: Sys, n: nat)
    requires Aligned(g, s) && Enabled(g, s, Reconnect(n)) && n == |Resend(g.session.sha, s.folder, s.client.window)|
    ensures Aligned(g, AfterReconnect(g, s, n)) <==> NoStaleStore(g, s)
  {
    hide GoodNames, Good, Carries, Skipped;
    ResendCarries(g.session.sha, s.folder, s.client.window);
  }

  lemma ReconnectAligned(g: Config, s: Sys, n: nat)
    requires Aligned(g, s) && Enabled(g, s, Reconnect(n)) && NoStaleStore(g, s)
    ensures Aligned(g, AfterReconnect(g, s, n))
  {
    hide GoodNames, Good, Carries, Skipped;
    ResendCarries(g.session.sha, s.folder, s.client.window);
  }

  /** What goes wrong otherwise: the answer to the deletion behind a stale STOR is taken for the
      answer to that STOR, and the client database records a file that the server, untouched by
      all this, never received. */
  lemma StaleStoreIsRecordedAsStored(g: Config, s: Sys, t: Sys, e: Event, d: Event, now: Time)
    requires Aligned(g, s) && Enabled(g, s, Reconnect(1)) && t == AfterReconnect(g, s, 1)
    requires s.client.window == [e, d] && Skipped(g.session.sha, s.folder, e)
    requires d.status == Deletion && d.entry.kind == Regular && d.path !in Live(g.session, t.server).elements
    ensures t.up && t.toServer == [Dele(d.path, d.entry.hash)]
    ensures var u := AfterServe(g, t, now);
            && u.server == Live(g.session, t.server) && u.toClient == [Ok(NotThere)]
            && React(g.session.sha, u.folder, u.client, Ok(NotThere))
               == Answered(Client([d], s.client.db[e.path := Stored(e.entry)]))
  {
    hide ValidTime, ValidatePath, Recover, GoodNames, Paired, Stale;
    assert d in s.client.window && Good(d);
    var w := s.client.window;
    assert w[1..] == [d] && [d][1..] == [];
    assert Resend(g.session.sha, s.folder, [d]) == [Dele(d.path, d.entry.hash)];
    DeletionOfUnknown(g.session, t.server, d, now);
  }

  lemma DeletionOfUnknown(c: Session, s: Store, d: Event, now: Time)
    requires Good(d) && d.status == Deletion && d.entry.kind == Regular && d.path !in Live(c, s).elements
    ensures Handle(c, s, Dele(d.path, d.entry.hash), now) == Reply(Live(c, s), Ok(NotThere))
  {
    hide Recover, ValidatePath;
  }

  // ------------------------------------------------------------- whole runs

  /** The conditions the pairing needs: names keep passing the Validator, and no connection is
      made again while a STOR in the window is stale. */
  ghost predicate Clean(g: Config, s: Sys, l: Label) {
    && (l.Change? ==> GoodNames(l.folder, s.paths))
    && (l.Reconnect? ==> NoStaleStore(g, s))
  }

  ghost predicate RunsCleanly(g: Config, s: Sys, ls: seq<Label>, t: Sys)
    decreases |ls|
  {
    if ls == [] then t == s
    else Enabled(g, s, ls[0]) && Clean(g, s, ls[0]) && RunsCleanly(g, Apply(g, s, ls[0]), ls[1..], t)
  }

  lemma StepAligned(g: Config, s: Sys, l: Label)
    requires Aligned(g, s) && Enabled(g, s, l) && Clean(g, s, l)
    ensures Aligned(g, Apply(g, s, l))
  {
    hide Aligned, AfterRequeue, AfterNotice, AfterSend, AfterServe, AfterReceive, AfterReconnect;
    match l
    case Requeue => RequeueAligned(g, s);
    case Notice(p) => NoticeAligned(g, s, p);
    case SendNext => SendAligned(g, s);
    case Serve(now) => ServeAligned(g, s, now);
    case Receive => ReceiveAligned(g, s);
    case Reconnect(n) => ReconnectAligned(g, s, n);
    case _ => OtherAligned(g, s, l);
  }

  lemma OtherAligned(g: Config, s: Sys, l: Label)
    requires Aligned(g, s) && Enabled(g, s, l) && Clean(g, s, l)
    requires l.SendFails? || l.Disconnect? || l.Change? || l.StorHeaderFails? || l.StorDataFails?
    ensures Aligned(g, Apply(g, s, l))
  {
    hide ValidTime, ValidatePath, Fits, Carries, Good, CommandFor, GoodNames, Stale, EntryOf;
    if l.StorHeaderFails? || l.StorDataFails? {
      var w, t := s.client.window, Apply(g, s, l);
      assert w[0] in w;
      GoodTransfer(g, s);
      forall i | 0 <= i < |t.toClient| ensures t.toClient[i] == s.toClient[i + 1] && t.client.window[i] == w[i + 1] {}
    }
  }

  lemma GoodTransfer(g: Config, s: Sys)
    requires GoodEvents(s) && MayReceive(s) && Reacts(g, s).Transfer?
    ensures Good(Reacts(g, s).store)
  {
    hide ValidTime, ValidatePath;
    assert s.client.window[0] in s.client.window;
  }

  /** Over every run of watcher, client, server and network steps, with any number of broken
      connections, failed writes and changes of the folder, answers and commands under way stay
      paired with the window, and the client is stopped by nothing but a server exception. */
  lemma {:induction false} AlwaysAligned(g: Config, s: Sys, ls: seq<Label>, t: Sys)
    requires Aligned(g, s) && RunsCleanly(g, s, ls, t)
    ensures Aligned(g, t)
    decreases |ls|
  {
    hide Aligned, Apply;
    if ls != [] {
      StepAligned(g, s, ls[0]);
      AlwaysAligned(g, Apply(g, s, ls[0]), ls[1..], t);
    }
  }

  // -------------------------------------------------------- nothing is lost

  /** Every event the queue accepted is still queued, in the window, or done with. */
  ghost predicate NothingLost(s: Sys) {
    s.accepted == Tokens(s.queue) + Tokens(s.client.window) + s.resolved
  }

  lemma {:induction false} TokensAppend(es: seq<Event>, e: Event)
    ensures Tokens(es + [e]) == Tokens(es) + multiset{TokenOf(e)}
  {
    if es == [] {
      assert es + [e] == [e];
    } else {
      assert (es + [e])[1..] == es[1..] + [e];
      TokensAppend(es[1..], e);
    }
  }

  lemma TokensHead(es: seq<Event>)
    requires es != []
    ensures Tokens(es) == multiset{TokenOf(es[0])} + Tokens(es[1..])
  {
  }

  /** One token moves from the queue to the window or to what is done with, or enters. */
  lemma Move(q: multiset<Token>, w: multiset<Token>, r: multiset<Token>, t: Token)
    ensures multiset{t} + q + w + r == q + (w + multiset{t}) + r == q + w + (r + multiset{t})
    ensures q + (multiset{t} + w) + r == q + (w + multiset{t}) + r
    ensures q + w + r + multiset{t} == q + multiset{t} + w + r
  {
  }

  lemma AccountNotice(g: Config, s: Sys, p: Path)
    requires NothingLost(s) && Enabled(g, s, Notice(p))
    ensures NothingLost(AfterNotice(g, s, p))
  {
    hide Difference, Tokens;
    var e := Difference(g.session.sha, s.paths, s.folder, p).value;
    TokensAppend(s.queue, e);
    Move(Tokens(s.queue), Tokens(s.client.window), s.resolved, TokenOf(e));
  }

  lemma AccountRequeue(s: Sys)
    requires NothingLost(s) && s.requeue != []
    ensures NothingLost(AfterRequeue(s))
  {
    hide Tokens;
    TokensAppend(s.queue, s.requeue[0]);
    Move(Tokens(s.queue), Tokens(s.client.window), s.resolved, TokenOf(s.requeue[0]));
  }

  lemma AccountSend(g: Config, s: Sys)
    requires NothingLost(s) && MaySend(g, s)
    ensures NothingLost(AfterSend(g, s))
  {
    hide Compose, Tokens;
    TokensHead(s.queue);
    TokensAppend(s.client.window, s.queue[0]);
    Move(Tokens(s.queue[1..]), Tokens(s.client.window), s.resolved, TokenOf(s.queue[0]));
  }

  lemma AccountReceive(g: Config, s: Sys)
    requires NothingLost(s) && MayReceive(s)
    ensures NothingLost(AfterReceive(g, s))
    ensures Reacts(g, s).Transfer? ==> NothingLost(Apply(g, s, StorDataFails))
  {
    hide React, Tokens;
    TransferToken(g, s);
    TokensHead(s.client.window);
    Move(Tokens(s.queue), Tokens(s.client.window[1..]), s.resolved, TokenOf(s.client.window[0]));
  }

  /** The account stays balanced in every step except one: when writing the STOR message fails, the
      event has left the window and has not come back. */
  lemma AccountIff(g: Config, s: Sys, l: Label)
    requires NothingLost(s) && Enabled(g, s, l)
    ensures NothingLost(Apply(g, s, l)) <==> !l.StorHeaderFails?
  {
    hide AfterRequeue, AfterNotice, AfterSend, AfterReceive, MaySend, MayReceive, Difference, Handle, React, Resend, Tokens;
    match l
    case Requeue => AccountRequeue(s);
    case Notice(p) => AccountNotice(g, s, p);
    case SendNext => AccountSend(g, s);
    case Receive => AccountReceive(g, s);
    case StorHeaderFails => HeaderFailureLoses(g, s);
    case StorDataFails => AccountReceive(g, s);
    case _ =>
  }

  lemma HeaderFailureLoses(g: Config, s: Sys)
    requires NothingLost(s) && Enabled(g, s, StorHeaderFails)
    ensures var t, k := Apply(g, s, StorHeaderFails), TokenOf(s.client.window[0]);
            && t.accepted == Tokens(t.queue) + Tokens(t.client.window) + t.resolved + multiset{k}
            && !NothingLost(t)
  {
    hide React, Tokens;
    TransferToken(g, s);
    TokensHead(s.client.window);
    var t, k := Apply(g, s, StorHeaderFails), TokenOf(s.client.window[0]);
    Move(Tokens(s.queue), Tokens(s.client.window[1..]), s.resolved, k);
    var kept := Tokens(t.queue) + Tokens(t.client.window) + t.resolved;
    assert (kept + multiset{k})[k] == kept[k] + 1;
  }

  lemma TransferToken(g: Config, s: Sys)
    requires MayReceive(s)
    ensures match Reacts(g, s)
            case Answered(c) => c.window == s.client.window[1..]
            case Transfer(c, e) => c.window == s.client.window[1..] && TokenOf(e) == TokenOf(s.client.window[0])
                                   && Tokens(c.window + [e]) == Tokens(c.window) + multiset{TokenOf(e)}
            case Fatal => true
  {
    match Reacts(g, s)
    case Transfer(c, e) => TokensAppend(c.window, e);
    case _ =>
  }

  /** Nothing is lost over any run in which that one write does not fail. */
  lemma {:induction false} NothingEverLost(g: Config, s: Sys, ls: seq<Label>, t: Sys)
    requires NothingLost(s) && Runs(g, s, ls, t) && StorHeaderFails !in ls
    ensures NothingLost(t)
    decreases |ls|
  {
    hide NothingLost, Apply, Enabled;
    if ls != [] {
      AccountIff(g, s, ls[0]);
      NothingEverLost(g, Apply(g, s, ls[0]), ls[1..], t);
    }
  }
}
