/** What can go wrong while the folder does not rest: a modification followed too soon by a deletion leaves
    the old file on the server, and a deletion while a file is being sent can put a file on record that the
    server does not have. */
module Unrest {
  import opened Base
  import opened Table
  import opened Validator
  import opened Server
  import opened Guarantees
  import opened Client
  import opened System
  import opened Progress
  import opened Sync

  lemma NoStep(g: Config, t: Sys)
    ensures Runs(g, t, [], t)
  {
  }

  lemma NothingDiffers(g: Config, t: Sys)
    requires t.folder == map[] && t.paths == map[]
    ensures Differences(g, t) == {}
  {
  }

  lemma OneStep(g: Config, s: Sys, l: Label, ls: seq<Label>, t: Sys)
    requires Enabled(g, s, l) && Runs(g, Apply(g, s, l), ls, t)
    ensures Runs(g, s, [l] + ls, t)
  {
    hide Apply, Enabled;
    assert ([l] + ls)[1..] == ls;
  }

  /** A file in agreement, `e` being its entry, has just been modified. */
  function Modified(p: Path, e: Entry, b: Bytes, time: Time, st: Store): Sys {
    Sys(map[p := File(b, time)], map[p := e], [], [], Client([], map[p := e]), true, false, [], [], st, true, multiset{}, multiset{})
  }

  /** The two answers: SEND to the PROB for the new content, ERR to the DELE that carries its hash. */
  lemma AnswersToModifyDelete(c: Session, st: Store, p: Path, e: Entry, n: Entry, now: Time)
    requires st.recovered && p in st.disk && p in st.elements && st.elements[p] == e && e.kind == Regular
    requires ValidatePath(p) == Some(p) && ValidTime(n.time) && n.hash != e.hash
    ensures Handle(c, st, Prob(p, n.time, n.hash), now) == Reply(st, Send(p, n.hash))
    ensures Handle(c, st, Dele(p, n.hash), now) == Reply(st, Err(RemoveFailed))
  {
    hide ValidatePath, ValidTime;
  }

  /** Modification and deletion have been sent, and nothing has been carried out. */
  function BothSent(p: Path, e: Entry, n: Entry, st: Store): Sys {
    var m, d := Event(p, n, Modification), Event(p, n, Deletion);
    Sys(map[], map[], [], [], Client([m, d], map[p := e]), true, false, [Prob(p, n.time, n.hash), Dele(p, n.hash)], [], st, true,
        multiset{} + multiset{TokenOf(m)} + multiset{TokenOf(d)}, multiset{})
  }

  /** The modification has been sent, and the file has gone. */
  function OneSent(p: Path, e: Entry, n: Entry, st: Store): Sys {
    var m := Event(p, n, Modification);
    Sys(map[], map[p := n], [], [], Client([m], map[p := e]), true, false, [Prob(p, n.time, n.hash)], [], st, true,
        multiset{} + multiset{TokenOf(m)}, multiset{})
  }

  lemma NoticeModification(g: Config, p: Path, e: Entry, b: Bytes, time: Time, st: Store)
    requires g.queueSize > 1 && g.session.sha(b) != e.hash
    ensures var n, s := EntryOf(g.session.sha, File(b, time)), Modified(p, e, b, time, st);
            var m := Event(p, n, Modification);
            && Enabled(g, s, Notice(p))
            && Apply(g, s, Notice(p)) == s.(paths := map[p := n], queue := [m], accepted := multiset{} + multiset{TokenOf(m)})
  {
    hide AfterServe, AfterReceive, AfterReconnect, AfterRequeue, AfterSend, Reacts, MaySend, MayReceive, Resend;
  }

  lemma SendModification(g: Config, p: Path, e: Entry, b: Bytes, time: Time, st: Store, rest: seq<Label>, t: Sys)
    returns (ls: seq<Label>)
    requires g.queueSize > 1 && g.windowSize > 1 && g.session.sha(b) != e.hash && StorHeaderFails !in rest
    requires Runs(g, OneSent(p, e, EntryOf(g.session.sha, File(b, time)), st), rest, t)
    ensures Runs(g, Modified(p, e, b, time, st), ls, t) && StorHeaderFails !in ls
  {
    hide Runs, AfterServe, AfterReceive, AfterReconnect, AfterRequeue, Reacts, React, Resend, Handle, MayReceive;
    var n := EntryOf(g.session.sha, File(b, time));
    var m := Event(p, n, Modification);
    var s0 := Modified(p, e, b, time, st);
    var s1 := s0.(paths := map[p := n], queue := [m], accepted := multiset{} + multiset{TokenOf(m)});
    NoticeModification(g, p, e, b, time, st);
    hide Difference;
    var s2 := s1.(queue := [], client := Client([m], map[p := e]), toServer := [Prob(p, n.time, n.hash)]);
    assert Apply(g, s1, SendNext) == s2;
    OneStep(g, s2, Change(map[]), rest, t);
    OneStep(g, s1, SendNext, [Change(map[])] + rest, t);
    OneStep(g, s0, Notice(p), [SendNext] + ([Change(map[])] + rest), t);
    ls := [Notice(p)] + ([SendNext] + ([Change(map[])] + rest));
  }

  lemma SendDeletion(g: Config, p: Path, e: Entry, n: Entry, st: Store, rest: seq<Label>, t: Sys) returns (ls: seq<Label>)
    requires g.queueSize > 1 && g.windowSize > 1 && n.kind == Regular && StorHeaderFails !in rest
    requires Runs(g, BothSent(p, e, n, st), rest, t)
    ensures Runs(g, OneSent(p, e, n, st), ls, t) && StorHeaderFails !in ls
  {
    hide Runs, AfterServe, AfterReceive, AfterReconnect, Reacts, Resend;
    var d := Event(p, n, Deletion);
    var s3 := OneSent(p, e, n, st);
    var s4 := s3.(paths := map[], queue := [d], accepted := s3.accepted + multiset{TokenOf(d)});
    assert Apply(g, s3, Notice(p)) == s4;
    assert Apply(g, s4, SendNext) == BothSent(p, e, n, st);
    OneStep(g, s4, SendNext, rest, t);
    OneStep(g, s3, Notice(p), [SendNext] + rest, t);
    ls := [Notice(p)] + ([SendNext] + rest);
  }

  /** The first answer finds the file gone, the second is skipped. */
  lemma ReceiveFirst(g: Config, p: Path, e: Entry, n: Entry, st: Store)
    requires n.kind == Regular
    ensures var s := BothSent(p, e, n, st).(toServer := [], toClient := [Send(p, n.hash), Err(RemoveFailed)]);
            && Enabled(g, s, Receive)
            && var r := Apply(g, s, Receive);
               r == s.(client := Client([Event(p, n, Deletion)], map[p := e]), toClient := [Err(RemoveFailed)], resolved := r.resolved)
  {
    hide Record;
  }

  lemma ReceiveBoth(g: Config, p: Path, e: Entry, n: Entry, st: Store)
    requires n.kind == Regular
    ensures var s := BothSent(p, e, n, st).(toServer := [], toClient := [Send(p, n.hash), Err(RemoveFailed)]);
            && Enabled(g, s, Receive) && Enabled(g, Apply(g, s, Receive), Receive)
            && var t := Apply(g, Apply(g, s, Receive), Receive);
            && t.client == Client([], map[p := e]) && t.toClient == [] && t.toServer == [] && t.queue == [] && t.requeue == []
            && t.folder == map[] && t.paths == map[] && t.server == st
  {
    var s := BothSent(p, e, n, st).(toServer := [], toClient := [Send(p, n.hash), Err(RemoveFailed)]);
    ReceiveFirst(g, p, e, n, st);
    hide AfterServe, AfterReconnect, AfterRequeue, AfterSend, AfterNotice, MaySend, Resend, Difference, Record, Stale;
    var r := Apply(g, s, Receive);
    assert r.client.window == [Event(p, n, Deletion)] && r.toClient == [Err(RemoveFailed)];
  }

  lemma ServeBoth(g: Config, p: Path, e: Entry, n: Entry, st: Store, now: Time)
    requires st.recovered && p in st.disk && p in st.elements && st.elements[p] == e && e.kind == Regular
    requires ValidatePath(p) == Some(p) && ValidTime(n.time) && n.hash != e.hash
    ensures var s := BothSent(p, e, n, st);
            && Enabled(g, s, Serve(now)) && Enabled(g, Apply(g, s, Serve(now)), Serve(now))
            && Apply(g, Apply(g, s, Serve(now)), Serve(now))
               == s.(toServer := [], toClient := [Send(p, n.hash), Err(RemoveFailed)])
  {
    hide ValidatePath, ValidTime, Handle, AfterNotice, AfterSend, AfterReceive, AfterReconnect, AfterRequeue, Resend, Difference, React;
    AnswersToModifyDelete(g.session, st, p, e, n, now);
    var s5 := BothSent(p, e, n, st);
    assert Apply(g, s5, Serve(now)) == s5.(toServer := [Dele(p, n.hash)], toClient := [Send(p, n.hash)]);
  }

  lemma AnswerBoth(g: Config, p: Path, e: Entry, n: Entry, st: Store, now: Time) returns (ls: seq<Label>, t: Sys)
    requires st.recovered && p in st.disk && p in st.elements && st.elements[p] == e && e.kind == n.kind == Regular
    requires ValidatePath(p) == Some(p) && ValidTime(n.time) && n.hash != e.hash
    ensures Runs(g, BothSent(p, e, n, st), ls, t) && StorHeaderFails !in ls
    ensures Quiet(g, t) && t.folder == map[] && t.paths == map[] && t.server == st && t.client.db == map[p := e]
  {
    hide ValidatePath, ValidTime, Apply, Enabled, Runs, Differing, BothSent;
    ServeBoth(g, p, e, n, st, now);
    ReceiveBoth(g, p, e, n, st);
    var s5 := BothSent(p, e, n, st);
    var s6 := Apply(g, s5, Serve(now));
    var s7 := Apply(g, s6, Serve(now));
    var s8 := Apply(g, s7, Receive);
    t := Apply(g, s8, Receive);
    NothingDiffers(g, t);
    NoStep(g, t);
    OneStep(g, s8, Receive, [], t);
    OneStep(g, s7, Receive, [Receive] + [], t);
    ls := [Receive] + ([Receive] + []);
    OneStep(g, s6, Serve(now), ls, t);
    OneStep(g, s5, Serve(now), [Serve(now)] + ls, t);
    ls := [Serve(now)] + ([Serve(now)] + ls);
  }

  /** A file modified and then deleted before its new content was asked for: the deletion carries the
      hash of the content the server never got and is refused. Everything comes to rest, the watcher has
      forgotten the file, and the server keeps the old one. Only the client database still knows of it, so
      that the deletion is reported again when the client is next started. */
  lemma ModifyThenDeleteLeavesFile(g: Config, p: Path, e: Entry, b: Bytes, time: Time, st: Store, now: Time)
    returns (ls: seq<Label>, t: Sys)
    requires g.queueSize > 1 && g.windowSize > 1
    requires st.recovered && p in st.disk && p in st.elements && st.elements[p] == e && e.kind == Regular
    requires ValidatePath(p) == Some(p) && ValidTime(time) && g.session.sha(b) != e.hash
    ensures Runs(g, Modified(p, e, b, time, st), ls, t) && StorHeaderFails !in ls
    ensures Quiet(g, t) && p !in t.folder && p !in t.paths && p in t.server.disk && t.server == st
    ensures t.client.db == map[p := e]
  {
    hide ValidatePath, ValidTime, Runs, Quiet, BothSent, OneSent, Modified;
    var n := EntryOf(g.session.sha, File(b, time));
    ls, t := AnswerBoth(g, p, e, n, st, now);
    ls := SendDeletion(g, p, e, n, st, ls, t);
    ls := SendModification(g, p, e, b, time, st, ls, t);
  }

  // ------------------------------------------------------- a stale STOR, reached

  const UNKNOWN := Store(map[], [], map[], true)

  lemma NothingToRecover(c: Session)
    ensures Live(c, Restart(UNKNOWN)) == UNKNOWN && Restart(UNKNOWN) == Store(map[], [], map[], false)
  {
    assert Changed(c, Restart(UNKNOWN)) == {} && Gone(c, Restart(UNKNOWN)) == {};
  }

  lemma AnswersAboutUnknown(c: Session, p: Path, n: Entry, now: Time)
    requires ValidatePath(p) == Some(p) && ValidTime(n.time)
    ensures Handle(c, Restart(UNKNOWN), Prob(p, n.time, n.hash), now) == Reply(UNKNOWN, Send(p, n.hash))
    ensures Handle(c, Restart(UNKNOWN), Dele(p, n.hash), now) == Reply(UNKNOWN, Ok(NotThere))
  {
    hide ValidatePath, ValidTime, Recover;
    NothingToRecover(c);
  }

  /** A new file has been asked for, and its STOR is on the way. */
  function Uploading(p: Path, n: Entry, b: Bytes, time: Time): Sys {
    Sys(map[p := File(b, time)], map[p := n], [], [], Client([Event(p, n, StoreSent)], map[]), true, false,
        [Stor(p, n.size, n.time, n.hash, b)], [], UNKNOWN, true,
        multiset{} + multiset{TokenOf(Event(p, n, Creation))}, multiset{})
  }

  /** The file is gone, and its deletion is on the way behind the STOR. */
  function Behind(p: Path, n: Entry, b: Bytes): Sys {
    var st, d := Event(p, n, StoreSent), Event(p, n, Deletion);
    Sys(map[], map[], [], [], Client([st, d], map[]), true, false,
        [Stor(p, n.size, n.time, n.hash, b), Dele(p, n.hash)], [], UNKNOWN, true,
        multiset{} + multiset{TokenOf(Event(p, n, Creation))} + multiset{TokenOf(d)}, multiset{})
  }

  lemma StartUpload(g: Config, p: Path, b: Bytes, time: Time, now: Time, rest: seq<Label>, t: Sys) returns (ls: seq<Label>)
    requires g.queueSize > 1 && g.windowSize > 1 && ValidatePath(p) == Some(p) && ValidTime(time)
    requires Runs(g, Uploading(p, EntryOf(g.session.sha, File(b, time)), b, time), rest, t)
    ensures Runs(g, Start(map[p := File(b, time)]), ls, t)
  {
    hide Runs, AfterReconnect, Resend, Handle, ValidatePath, ValidTime;
    var n := EntryOf(g.session.sha, File(b, time));
    var e := Event(p, n, Creation);
    AnswersAboutUnknown(g.session, p, n, now);
    NothingToRecover(g.session);
    var s0 := Start(map[p := File(b, time)]);
    var s1 := s0.(paths := map[p := n], queue := [e], accepted := multiset{} + multiset{TokenOf(e)});
    assert Apply(g, s0, Notice(p)) == s1;
    var s2 := s1.(queue := [], client := Client([e], map[]), toServer := [Prob(p, n.time, n.hash)]);
    assert Apply(g, s1, SendNext) == s2;
    var s3 := s2.(toServer := [], toClient := [Send(p, n.hash)], server := UNKNOWN);
    assert Apply(g, s2, Serve(now)) == s3;
    FirstAnswer(g, p, b, time, s3);
    OneStep(g, s3, Receive, rest, t);
    OneStep(g, s2, Serve(now), [Receive] + rest, t);
    OneStep(g, s1, SendNext, [Serve(now)] + ([Receive] + rest), t);
    OneStep(g, s0, Notice(p), [SendNext] + ([Serve(now)] + ([Receive] + rest)), t);
    ls := [Notice(p)] + ([SendNext] + ([Serve(now)] + ([Receive] + rest)));
  }

  lemma FirstAnswer(g: Config, p: Path, b: Bytes, time: Time, s: Sys)
    requires var n := EntryOf(g.session.sha, File(b, time));
             s == Uploading(p, n, b, time).(client := Client([Event(p, n, Creation)], map[]), toServer := [],
                                            toClient := [Send(p, n.hash)])
    ensures Enabled(g, s, Receive)
    ensures Apply(g, s, Receive) == Uploading(p, EntryOf(g.session.sha, File(b, time)), b, time)
  {
    hide AfterReconnect, Resend, AfterServe, AfterSend, AfterNotice;
    var n := EntryOf(g.session.sha, File(b, time));
    assert [Event(p, n, Creation)][1..] == [] && [Send(p, n.hash)][1..] == [];
  }

  lemma DeleteBehind(g: Config, p: Path, n: Entry, b: Bytes, time: Time, rest: seq<Label>, t: Sys) returns (ls: seq<Label>)
    requires g.queueSize > 1 && g.windowSize > 1 && n.kind == Regular
    requires Runs(g, Behind(p, n, b), rest, t)
    ensures Runs(g, Uploading(p, n, b, time), ls, t)
  {
    hide Runs, AfterServe, AfterReceive, AfterReconnect, Reacts, Resend;
    var d := Event(p, n, Deletion);
    var s4 := Uploading(p, n, b, time);
    var s5 := s4.(folder := map[]);
    var s6 := s5.(paths := map[], queue := [d], accepted := s5.accepted + multiset{TokenOf(d)});
    assert Apply(g, s5, Notice(p)) == s6;
    assert Apply(g, s6, SendNext) == Behind(p, n, b);
    OneStep(g, s6, SendNext, rest, t);
    OneStep(g, s5, Notice(p), [SendNext] + rest, t);
    OneStep(g, s4, Change(map[]), [Notice(p)] + ([SendNext] + rest), t);
    ls := [Change(map[])] + ([Notice(p)] + ([SendNext] + rest));
  }

  /** Connected anew: only the DELE has been sent again, but both events are in the window. */
  function Misaligned(p: Path, n: Entry, b: Bytes): Sys {
    Behind(p, n, b).(toServer := [Dele(p, n.hash)], server := Restart(UNKNOWN))
  }

  lemma ConnectAnew(g: Config, p: Path, n: Entry, b: Bytes, rest: seq<Label>, t: Sys) returns (ls: seq<Label>)
    requires n.kind == Regular && Runs(g, Misaligned(p, n, b), rest, t)
    ensures Runs(g, Behind(p, n, b), ls, t)
  {
    hide Runs, AfterServe, AfterReceive, AfterSend, AfterNotice, Reacts, Difference;
    var st, d := Event(p, n, StoreSent), Event(p, n, Deletion);
    var s7 := Behind(p, n, b);
    var s8 := s7.(up := false);
    OnlyDeletion(g.session.sha, st, d);
    assert Enabled(g, s8, Reconnect(1)) && Apply(g, s8, Reconnect(1)) == Misaligned(p, n, b);
    OneStep(g, s8, Reconnect(1), rest, t);
    OneStep(g, s7, Disconnect, [Reconnect(1)] + rest, t);
    ls := [Disconnect] + ([Reconnect(1)] + rest);
  }

  lemma OnlyDeletion(sha: Digest, st: Event, d: Event)
    requires st.status == StoreSent && d.status == Deletion && d.entry.kind == Regular
    ensures Resend(sha, map[], [st, d]) == [Dele(d.path, d.entry.hash)]
    ensures [Dele(d.path, d.entry.hash)][..1] == [Dele(d.path, d.entry.hash)]
  {
    assert [st, d][1..] == [d] && [d][1..] == [];
    assert Resend(sha, map[], [d]) == [Dele(d.path, d.entry.hash)];
  }

  lemma TakenForTheStor(g: Config, p: Path, n: Entry, b: Bytes, now: Time) returns (ls: seq<Label>, t: Sys)
    requires ValidatePath(p) == Some(p) && ValidTime(n.time) && n.kind == Regular
    ensures Runs(g, Misaligned(p, n, b), ls, t)
    ensures t == Misaligned(p, n, b).(toServer := [], server := UNKNOWN, client := Client([Event(p, n, Deletion)], map[p := n]),
                                      resolved := multiset{} + multiset{TokenOf(Event(p, n, StoreSent))})
  {
    hide Runs, AfterReconnect, AfterSend, AfterNotice, Handle, Resend, Difference, ValidatePath, ValidTime;
    AnswersAboutUnknown(g.session, p, n, now);
    var st, d := Event(p, n, StoreSent), Event(p, n, Deletion);
    var s9 := Misaligned(p, n, b);
    var s10 := s9.(toServer := [], toClient := [Ok(NotThere)], server := UNKNOWN);
    assert Apply(g, s9, Serve(now)) == s10;
    assert [st, d][1..] == [d] && [Ok(NotThere)][1..] == [];
    t := s10.(toClient := [], client := Client([d], map[p := n]), resolved := multiset{} + multiset{TokenOf(st)});
    assert Apply(g, s10, Receive) == t;
    NoStep(g, t);
    OneStep(g, s10, Receive, [], t);
    OneStep(g, s9, Serve(now), [Receive] + [], t);
    ls := [Serve(now)] + ([Receive] + []);
  }

  /** A file created, asked for and deleted while its STOR is on the way, and the connection lost: after the
      reconnection the client takes the answer to the deletion for that to the STOR and records the file as
      stored, which neither the folder nor the server has; and the deletion waits for ever for an answer. */
  lemma StaleStoreIsReached(g: Config, p: Path, b: Bytes, time: Time, now: Time) returns (ls: seq<Label>, t: Sys)
    requires g.queueSize > 1 && g.windowSize > 1 && ValidatePath(p) == Some(p) && ValidTime(time)
    ensures Runs(g, Start(map[p := File(b, time)]), ls, t)
    ensures p in t.client.db && p !in t.folder && p !in t.server.disk && p !in t.server.elements
    ensures t.up && !t.halted && t.client.window != [] && forall l :: Draining(l) ==> !Enabled(g, t, l)
  {
    hide Runs, Uploading, Behind, Misaligned, ValidatePath, ValidTime, Handle, React;
    var n := EntryOf(g.session.sha, File(b, time));
    ls, t := TakenForTheStor(g, p, n, b, now);
    ls := ConnectAnew(g, p, n, b, ls, t);
    ls := DeleteBehind(g, p, n, b, time, ls, t);
    ls := StartUpload(g, p, b, time, now, ls, t);
    MisalignedMeans(p, n, b);
  }

  lemma MisalignedMeans(p: Path, n: Entry, b: Bytes)
    ensures var s := Misaligned(p, n, b);
            s.folder == map[] && s.paths == map[] && s.queue == [] && s.requeue == [] && s.toClient == [] && s.up && !s.halted
  {
  }
}
