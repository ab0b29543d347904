/** The server reading its socket message by message: STOR is carried out only after its run of
    DATA messages has been read. */
module Wire {
  import opened Base
  import opened Validator
  import opened Server
  import opened Guarantees
  import opened Transfer

  /** What one receive() does and what it leaves unread. */
  datatype Served = Served(outcome: Outcome, rest: seq<Message>)

  function Serve(c: Session, s: Store, inbox: seq<Message>, now: Time): (r: Served)
    requires inbox != []
    ensures |r.rest| < |inbox|
  {
    var m := inbox[0];
    if !m.Order? then Served(Reply(s, Err(Unexpected)), inbox[1..])
    else if !m.command.Stor? || !Accepted(m.command) then Served(Handle(c, s, m.command, now), inbox[1..])
    else
      RestIsShorter(inbox[1..]);
      match TakeRun(inbox[1..])
      case Whole(data, rest) => Served(Handle(c, s, m.command.(data := data), now), rest)
      case Interrupted(rest) => Served(Reply(Live(c, s), Err(Unexpected)), rest)
      case Cut => Served(Outcome(Live(c, s), [], false), [])
  }

  lemma {:induction false} RestIsShorter(inbox: seq<Message>)
    ensures match TakeRun(inbox) case Whole(_, rest) => |rest| < |inbox| case Interrupted(rest) => |rest| < |inbox| case Cut => true
  {
    if inbox != [] && inbox[0].Data? && !inbox[0].last {
      RestIsShorter(inbox[1..]);
    }
  }

  /** A session on a stream of messages. The clock is read as messages come in. */
  function ServeAll(c: Session, s: Store, inbox: seq<Message>, clock: nat -> Time): (Store, seq<Response>)
    decreases |inbox|
  {
    if inbox == [] then (s, [])
    else
      var one := Serve(c, s, inbox, clock(|inbox|));
      if !one.outcome.alive then (one.outcome.store, one.outcome.replies)
      else
        var (t, replies) := ServeAll(c, one.outcome.store, one.rest, clock);
        (t, one.outcome.replies + replies)
  }

  /** The messages the client writes for a command. */
  function Written(k: Command, n: nat): seq<Message>
    requires n > 0
  {
    if k.Stor? then [Order(k.(data := []))] + Blocks(k.data, n) else [Order(k)]
  }

  function WrittenAll(ks: seq<Command>, n: nat): seq<Message>
    requires n > 0
  {
    if ks == [] then [] else Written(ks[0], n) + WrittenAll(ks[1..], n)
  }

  /** The same session command by command: final stores and the answers, up to an exception. */
  function HandleAll(c: Session, s: Store, ks: seq<Command>, n: nat, clock: nat -> Time): (Store, seq<Response>)
    requires n > 0
    decreases |ks|
  {
    if ks == [] then (s, [])
    else
      var out := Handle(c, s, ks[0], clock(|WrittenAll(ks, n)|));
      if !out.alive then (out.store, out.replies)
      else
        var (t, replies) := HandleAll(c, out.store, ks[1..], n, clock);
        (t, out.replies + replies)
  }

  lemma ServeOne(c: Session, s: Store, k: Command, n: nat, rest: seq<Message>, now: Time)
    requires n > 0 && Accepted(k)
    ensures Written(k, n) + rest != []
    ensures Serve(c, s, Written(k, n) + rest, now) == Served(Handle(c, s, k, now), rest)
  {
    hide Handle, Live, ValidatePath, ValidTime, Blocks, TakeRun;
    var inbox := Written(k, n) + rest;
    if k.Stor? {
      RoundTrip(k.data, n, rest);
      assert inbox[1..] == Blocks(k.data, n) + rest;
      assert k.(data := []).(data := k.data) == k;
    } else {
      assert inbox[1..] == rest;
    }
  }

  /** Reading the stream amounts to carrying out the commands, whatever the chunk size. */
  lemma {:induction false} StreamIsCommands(c: Session, s: Store, ks: seq<Command>, n: nat, clock: nat -> Time)
    requires n > 0 && forall k :: k in ks ==> Accepted(k)
    ensures ServeAll(c, s, WrittenAll(ks, n), clock) == HandleAll(c, s, ks, n, clock)
    decreases |ks|
  {
    hide Handle, Accepted, Written, Serve;
    if ks != [] {
      var inbox, now := WrittenAll(ks, n), clock(|WrittenAll(ks, n)|);
      ServeOne(c, s, ks[0], n, WrittenAll(ks[1..], n), now);
      var out := Handle(c, s, ks[0], now);
      StreamIsCommands(c, out.store, ks[1..], n, clock);
    }
  }

  /** Valid commands are answered one for one and in order, each with an answer that fits it, whatever
      lies on the wire between them; only an exception ends the session early, and is itself the answer
      to the command that caused it. */
  lemma {:induction false} OneAnswerEach(c: Session, s: Store, ks: seq<Command>, n: nat, clock: nat -> Time)
    requires n > 0 && forall k :: k in ks ==> Valid(k)
    ensures var replies := ServeAll(c, s, WrittenAll(ks, n), clock).1;
            && |replies| <= |ks|
            && (forall i :: 0 <= i < |replies| ==> Fits(replies[i], ks[i]))
            && (|replies| < |ks| ==> replies != [] && replies[|replies| - 1] == Err(Exception))
    decreases |ks|
  {
    hide Handle, Valid, Accepted, Fits, ServeAll, WrittenAll;
    AllAccepted(ks);
    StreamIsCommands(c, s, ks, n, clock);
    if ks != [] {
      var now := clock(|WrittenAll(ks, n)|);
      AnswersFit(c, s, ks[0], now);
      ErrorChangesNothing(c, s, ks[0], now);
      var out := Handle(c, s, ks[0], now);
      assert out.replies == [out.replies[0]];
      OneAnswerEach(c, out.store, ks[1..], n, clock);
      StreamIsCommands(c, out.store, ks[1..], n, clock);
    }
  }

  lemma AllAccepted(ks: seq<Command>)
    requires forall k :: k in ks ==> Valid(k)
    ensures forall k :: k in ks ==> Accepted(k)
  {
  }

  function Refusals(n: nat): seq<Response> { seq(n, _ => Err(Unexpected)) }

  /** A refused STOR is not answered itself, but every DATA message of its run is, with ERR. */
  lemma RefusedStorIsAnsweredByItsData(c: Session, s: Store, k: Command, n: nat, clock: nat -> Time)
    requires n > 0 && k.Stor? && !Accepted(k)
    ensures ServeAll(c, s, Written(k, n), clock) ==
            (Live(c, s), Refusals(|k.data| / n + 1))
  {
    hide ValidatePath, ValidTime, Blocks, Live;
    BlocksShape(k.data, n);
    var inbox, blocks := Written(k, n), Blocks(k.data, n);
    assert inbox[1..] == blocks;
    assert Handle(c, s, k.(data := []), clock(|inbox|)) == Outcome(Live(c, s), [], true) by { hide *; Refused(c, s, k, clock(|inbox|)); }
    assert [] + Refusals(|blocks|) == Refusals(|blocks|);
    StrayData(c, Live(c, s), blocks, clock);
  }

  lemma Refused(c: Session, s: Store, k: Command, now: Time)
    requires k.Stor? && !Accepted(k)
    ensures Handle(c, s, k.(data := []), now) == Outcome(Live(c, s), [], true)
  {
    hide ValidTime, Recover;
  }

  lemma {:induction false} StrayData(c: Session, s: Store, blocks: seq<Message>, clock: nat -> Time)
    requires forall i :: 0 <= i < |blocks| ==> blocks[i].Data?
    ensures ServeAll(c, s, blocks, clock) == (s, Refusals(|blocks|))
    decreases |blocks|
  {
    hide Handle, Accepted, Live, TakeRun;
    if blocks != [] {
      assert blocks[0].Data?;
      assert Serve(c, s, blocks, clock(|blocks|)) == Served(Reply(s, Err(Unexpected)), blocks[1..]);
      StrayData(c, s, blocks[1..], clock);
      assert [Err(Unexpected)] + Refusals(|blocks| - 1) == Refusals(|blocks|);
    }
  }

  /** A STOR whose run is interrupted by another message is answered with ERR(unexpected), that message is not
      looked at, and nothing is stored; if the connection ends first there is no answer at all. */
  lemma InterruptedStor(c: Session, s: Store, k: Command, n: nat, i: nat, rest: seq<Message>, now: Time)
    requires n > 0 && k.Stor? && Accepted(k) && i < |Blocks(k.data, n)| && (rest != [] ==> !rest[0].Data?)
    ensures var inbox := [Order(k.(data := []))] + Blocks(k.data, n)[..i] + rest;
            Serve(c, s, inbox, now) ==
              if rest == [] then Served(Outcome(Live(c, s), [], false), [])
              else Served(Outcome(Live(c, s), [Err(Unexpected)], true), rest[1..])
  {
    hide Handle, ValidatePath, ValidTime, Blocks, TakeRun, Live;
    var inbox := [Order(k.(data := []))] + Blocks(k.data, n)[..i] + rest;
    assert inbox[1..] == Blocks(k.data, n)[..i] + rest;
    BrokenRun(k.data, n, i, rest);
  }

  /** A message that is no command is answered with ERR(unexpected) and changes nothing. */
  lemma StrayMessage(c: Session, s: Store, m: Message, rest: seq<Message>, now: Time)
    requires !m.Order?
    ensures Serve(c, s, [m] + rest, now) == Served(Outcome(s, [Err(Unexpected)], true), rest)
  {
    assert ([m] + rest)[1..] == rest;
  }
}
