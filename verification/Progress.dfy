/** Draining cannot get stuck and cannot go on for ever. */
module Progress {
  import opened Base
  import opened Validator
  import opened Server
  import opened Guarantees
  import opened Client
  import opened System
  import opened Alignment

  /** The differences the watcher would still report. */
  function Differences(g: Config, s: Sys): set<Path> { Differing(g.session.sha, s.paths, s.folder) }

  /** What a command or an answer may still cause: a PROB can lead to SEND, STOR and OK. */
  function CommandWeight(k: Command): nat { if k.Prob? then 5 else 2 }

  function AnswerWeight(r: Response): nat { if r.Send? then 3 else 1 }

  function CommandWeights(ks: seq<Command>): nat {
    if ks == [] then 0 else CommandWeight(ks[0]) + CommandWeights(ks[1..])
  }

  function AnswerWeights(rs: seq<Response>): nat {
    if rs == [] then 0 else AnswerWeight(rs[0]) + AnswerWeights(rs[1..])
  }

  function Measure(g: Config, s: Sys): nat {
    7 * |Differences(g, s)| + 7 * |s.requeue| + 6 * |s.queue| + CommandWeights(s.toServer) + AnswerWeights(s.toClient)
  }

  /** The steps of a connection on which nothing fails, while the folder does not change. */
  predicate Draining(l: Label) { l.Requeue? || l.Notice? || l.SendNext? || l.Serve? || l.Receive? }

  /** Anything on its way between queue and database. */
  predicate Pending(s: Sys) {
    s.queue != [] || s.client.window != [] || s.toServer != [] || s.toClient != []
  }

  /** Even with a full window something can move. The one configuration that blocks is a window of
      size 0, with which nothing is ever sent. */
  lemma NeverStuck(g: Config, s: Sys, now: Time)
    requires Aligned(g, s) && s.up && !s.halted && s.serving && Pending(s)
    ensures Enabled(g, s, SendNext) || Enabled(g, s, Serve(now)) || Enabled(g, s, Receive)
            <==> g.windowSize > 0 || s.toServer != [] || s.toClient != []
  {
    hide GoodNames, GoodEvents;
  }

  lemma {:induction false} CommandAppend(ks: seq<Command>, k: Command)
    ensures CommandWeights(ks + [k]) == CommandWeights(ks) + CommandWeight(k)
  {
    if ks == [] {
      assert ks + [k] == [k];
    } else {
      assert (ks + [k])[1..] == ks[1..] + [k];
      CommandAppend(ks[1..], k);
    }
  }

  lemma {:induction false} AnswerAppend(rs: seq<Response>, r: Response)
    ensures AnswerWeights(rs + [r]) == AnswerWeights(rs) + AnswerWeight(r)
  {
    if rs == [] {
      assert rs + [r] == [r];
    } else {
      assert (rs + [r])[1..] == rs[1..] + [r];
      AnswerAppend(rs[1..], r);
    }
  }

  /** One report settles one difference and makes no other. */
  lemma NoticeSettlesOne(g: Config, s: Sys, p: Path)
    requires Enabled(g, s, Notice(p))
    ensures Differences(g, AfterNotice(g, s, p)) == Differences(g, s) - {p} && p in Differences(g, s)
  {
    hide EntryOf;
    var t := AfterNotice(g, s, p);
    forall q ensures q in Differences(g, t) <==> q in Differences(g, s) && q != p {}
  }

  lemma {:induction false} WireOnly(g: Config, s: Sys, t: Sys)
    requires t.folder == s.folder && t.paths == s.paths
    ensures Differences(g, t) == Differences(g, s)
  {
  }

  lemma RequeueDecreases(g: Config, s: Sys)
    requires s.requeue != []
    ensures Measure(g, AfterRequeue(s)) < Measure(g, s)
  {
    hide Differences;
    WireOnly(g, s, AfterRequeue(s));
  }

  lemma NoticeDecreases(g: Config, s: Sys, p: Path)
    requires Enabled(g, s, Notice(p))
    ensures Measure(g, AfterNotice(g, s, p)) < Measure(g, s)
  {
    hide Differences, Difference;
    NoticeSettlesOne(g, s, p);
  }

  lemma SendDecreases(g: Config, s: Sys)
    requires Aligned(g, s) && MaySend(g, s)
    ensures Measure(g, AfterSend(g, s)) < Measure(g, s)
  {
    hide Differences, GoodNames, Paired, Valid;
    WireOnly(g, s, AfterSend(g, s));
    var k := Compose(s.queue[0], []);
    assert s.queue[0] in s.queue;
    if k.Some? {
      CommandAppend(s.toServer, k.value);
    }
  }

  lemma ServeDecreases(g: Config, s: Sys, now: Time)
    requires Aligned(g, s) && s.toServer != []
    ensures Measure(g, AfterServe(g, s, now)) < Measure(g, s)
  {
    hide Differences, GoodNames, Handle, Fits;
    WireOnly(g, s, AfterServe(g, s, now));
    var k, e := s.toServer[0], s.client.window[|s.toClient|];
    assert e in s.client.window;
    CarriedIsValid(k, e);
    AnswersFit(g.session, s.server, k, now);
    var r := Handle(g.session, s.server, k, now).replies[0];
    FitsWeight(r, k);
    AnswerAppend(s.toClient, r);
    assert Handle(g.session, s.server, k, now).replies == [r];
  }

  lemma FitsWeight(r: Response, k: Command)
    requires Fits(r, k)
    ensures AnswerWeight(r) < CommandWeight(k)
  {
  }

  lemma ReceiveDecreases(g: Config, s: Sys)
    requires MayReceive(s) && !Reacts(g, s).Fatal?
    ensures Measure(g, AfterReceive(g, s)) < Measure(g, s)
  {
    hide Differences, Stale;
    WireOnly(g, s, AfterReceive(g, s));
    if Reacts(g, s).Transfer? {
      var e := Reacts(g, s).store;
      CommandAppend(s.toServer, Stor(e.path, e.entry.size, e.entry.time, e.entry.hash, Content(s.folder, e.path)));
    }
  }

  lemma DrainingDecreases(g: Config, s: Sys, l: Label)
    requires Aligned(g, s) && Enabled(g, s, l) && Draining(l)
    ensures Measure(g, Apply(g, s, l)) < Measure(g, s) || Apply(g, s, l).halted
  {
    hide Measure, Aligned, AfterRequeue, AfterNotice, AfterSend, AfterServe, React;
    match l
    case Requeue => RequeueDecreases(g, s);
    case Notice(p) => NoticeDecreases(g, s, p);
    case SendNext => SendDecreases(g, s);
    case Serve(now) => ServeDecreases(g, s, now);
    case Receive =>
      if !Reacts(g, s).Fatal? {
        ReceiveDecreases(g, s);
      }
  }
}
