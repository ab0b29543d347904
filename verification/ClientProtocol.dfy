/** client/ProtocolManager.cpp as the program runs it: an object that owns no state but the client
    database, works on the shared ring of unanswered messages, and writes to a socket that may fail
    at any write. Its methods do what the state transformers of the whole system say. */
module ClientProtocol {
  import opened Base
  import opened Server
  import opened Client
  import opened Ring
  import opened Transfer
  import opened Wire

  /** A connection that breaks after `budget` more messages. */
  class Socket {
    var written: seq<Message>
    var budget: nat

    constructor (budget: nat)
      ensures written == [] && this.budget == budget
    {
      written, this.budget := [], budget;
    }

    /** What a sequence of writes leaves behind: as much of `ms` as gets through. */
    twostate predicate Wrote(ms: seq<Message>, ok: bool)
      reads this
    {
      && ok == (|ms| <= old(budget))
      && written == old(written) + (if ok then ms else ms[..old(budget)])
      && budget == old(budget) - (if ok then |ms| else old(budget))
    }

    /** sendString of one message. */
    method Write(m: Message) returns (ok: bool)
      modifies this
      ensures Wrote([m], ok)
    {
      if budget == 0 {
        return false;
      }
      written, budget := written + [m], budget - 1;
      return true;
    }

    /** The run of DATA messages, one write each. */
    method WriteAll(ms: seq<Message>) returns (ok: bool)
      modifies this
      ensures Wrote(ms, ok)
    {
      for i := 0 to |ms|
        invariant i <= old(budget) && budget == old(budget) - i
        invariant written == old(written) + ms[..i]
      {
        var done := Write(ms[i]);
        if !done {
          return false;
        }
        assert ms[..i + 1] == ms[..i] + [ms[i]];
      }
      assert ms[..|ms|] == ms;
      return true;
    }
  }

  /** How a call ends: normally, with a SocketException, or with an exception that stops the program. */
  datatype Ending = Done | Broken | Stopped

  class ProtocolManager {
    const window: CircularVector<Event>
    const socket: Socket
    const sha: Digest
    const chunk: nat
    var db: Catalogue

    ghost predicate Valid()
      reads this, window, window.v
    {
      window.Valid() && chunk > 0
    }

    ghost function Model(): Client
      reads this, window, window.v
      requires Valid()
    {
      Client(window.Contents(), db)
    }

    constructor (window: CircularVector<Event>, socket: Socket, sha: Digest, chunk: nat, db: Catalogue)
      requires window.Valid() && chunk > 0
      ensures Valid() && this.window == window && this.socket == socket && this.sha == sha && this.chunk == chunk
      ensures this.db == db
    {
      this.window, this.socket, this.sha, this.chunk, this.db := window, socket, sha, chunk, db;
    }

    /** send(): false when the window is full. An event is remembered only after it has been written. */
    method Send(e: Event) returns (sent: bool, ending: Ending)
      requires Valid()
      modifies window`end, window.v, socket
      ensures Valid() && db == old(db)
      ensures sent == (ending == Done && !old(window.Model()).Full())
      ensures var k := Compose(e, []);
              if old(window.Model()).Full() || e.entry.kind == Unsupported then
                ending == Done && window.Contents() == old(window.Contents())
                && socket.written == old(socket.written) && socket.budget == old(socket.budget)
              else if k.None? then ending == Stopped && window.Contents() == old(window.Contents())
              else socket.Wrote([Order(k.value)], ending == Done) && ending != Stopped
                   && window.Contents() == old(window.Contents()) + (if ending == Done then [e] else [])
    {
      hide Compose;
      var full := window.IsFull();
      if full {
        return false, Done;
      }
      if e.entry.kind == Unsupported {
        return true, Done;
      }
      var k := Compose(e, []);
      if k.None? {
        return false, Stopped;
      }
      var ok := socket.Write(Order(k.value));
      if !ok {
        return false, Broken;
      }
      window.Push(e);
      return true, Done;
    }

    /** The SEND branch after the head was popped: STOR, push, and the file. The event is out of the
        window while the STOR message is being written. */
    method SendStore(e: Event, folder: Tree) returns (ending: Ending)
      requires Valid() && !window.Model().Full() && e.entry.kind == Regular
      modifies window`end, window.v, socket
      ensures Valid() && db == old(db)
      ensures var st := Event(e.path, e.entry, StoreSent);
              var k := Stor(e.path, e.entry.size, e.entry.time, e.entry.hash, Content(folder, e.path));
              && socket.Wrote(Written(k, chunk), ending == Done) && ending != Stopped
              && window.Contents() == old(window.Contents()) + (if old(socket.budget) > 0 then [st] else [])
    {
      hide Content, Written, Blocks;
      var data := Content(folder, e.path);
      var head := Order(Stor(e.path, e.entry.size, e.entry.time, e.entry.hash, []));
      WrittenStor(Stor(e.path, e.entry.size, e.entry.time, e.entry.hash, data), chunk);
      var ok := socket.Write(head);
      if !ok {
        return Broken;
      }
      window.Push(Event(e.path, e.entry, StoreSent));
      var blocks := SendFile(data, chunk);
      ok := socket.WriteAll(blocks);
      Joined(old(socket.written), old(socket.budget), head, blocks);
      return if ok then Done else Broken;
    }

    /** receive(), after an answer has been read and parsed. */
    method Receive(r: Response, folder: Tree) returns (ending: Ending)
      requires Valid() && window.Contents() != []
      modifies this`db, window`start, window`end, window.v, socket
      ensures Valid()
      ensures match React(sha, folder, old(Model()), r)
              case Answered(c) => ending == Done && Model() == c && socket.written == old(socket.written)
              case Fatal => ending == Stopped && Model() == old(Model()) && socket.written == old(socket.written)
              case Transfer(c, st) =>
                && socket.Wrote(Written(Stor(st.path, st.entry.size, st.entry.time, st.entry.hash, Content(folder, st.path)), chunk),
                                ending == Done)
                && ending != Stopped
                && Model() == if old(socket.budget) > 0 then c.(window := c.window + [st]) else c
    {
      hide Stale, Content, Written;
      var e := window.Front();
      match r
      case Send(path, hash) =>
        if !(e.entry.kind == Regular && (e.status == Creation || e.status == Modification)) {
          return Stopped;
        }
        if e.path != path || e.entry.hash != hash {
          return Stopped;
        }
        PopMakesRoom(window.Model());
        window.Pop();
        if Stale(sha, folder, e) {
          return Done;
        }
        ending := SendStore(e, folder);
      case Ok(code) =>
        if code !in {Found, Created, NotThere, Removed} {
          return Stopped;
        }
        if e.status == Creation || e.status == Modification || e.status == StoreSent {
          if e.status == Creation || e.status == StoreSent {
            db := DbInsert(db, e.path, e.entry);
          } else {
            db := DbUpdate(db, e.path, e.entry);
          }
        } else if e.status == Deletion {
          db := DbRemove(db, e.path);
        }
        window.Pop();
        return Done;
      case Err(error) =>
        if !Skippable(error) {
          return Stopped;
        }
        window.Pop();
        return Done;
    }

    /** What is sent again for one entry of the window. */
    ghost function Again(e: Event, folder: Tree): seq<Message>
      requires chunk > 0
    {
      var k := Compose(e, Content(folder, e.path));
      if Skipped(sha, folder, e) || k.None? then [] else Written(k.value, chunk)
    }

    method ResendOne(e: Event, folder: Tree) returns (ending: Ending)
      requires chunk > 0
      modifies socket
      ensures var k := Compose(e, Content(folder, e.path));
              if !Skipped(sha, folder, e) && k.None? then ending == Stopped
              else ending != Stopped && socket.Wrote(Again(e, folder), ending == Done)
    {
      hide Compose, Skipped, Content, Written;
      if Skipped(sha, folder, e) {
        return Done;
      }
      var k := Compose(e, Content(folder, e.path));
      if k.None? {
        return Stopped;
      }
      var ok := socket.WriteAll(Written(k.value, chunk));
      return if ok then Done else Broken;
    }

    /** recoverFromError: the indices from head to tail, around the end of the ring. */
    method RecoverFromError(folder: Tree) returns (ending: Ending)
      requires Valid()
      modifies socket
      ensures (forall e :: e in window.Contents() ==> Compose(e, []).Some?) ==>
                ending != Stopped && socket.Wrote(WrittenAll(Resend(sha, folder, window.Contents()), chunk), ending == Done)
    {
      hide Compose, Skipped, Content, Written, WrittenAll, Resend, Ring.Contents, Ring.Valid;
      ghost var all := window.Contents();
      ghost var sent: seq<Message> := [];
      ghost var n := 0;
      var i := window.start;
      Walk(window.Model(), 0);
      assert all[0..] == all;
      while i != window.end
        invariant n <= |all| && i == (window.start + n) % window.capacity
        invariant socket.Wrote(sent, true)
        invariant sent + WrittenAll(Resend(sha, folder, all[n..]), chunk) == WrittenAll(Resend(sha, folder, all), chunk)
        decreases |all| - n
      {
        Walk(window.Model(), n);
        var e := window.v[i];
        assert e == all[n] && e in all;
        ComposeIgnoresData(e, Content(folder, e.path));
        ghost var w, tail := Again(e, folder), WrittenAll(Resend(sha, folder, all[n + 1..]), chunk);
        ending := ResendOne(e, folder);
        if ending == Stopped {
          return;
        }
        ResendStep(sha, folder, all, n, chunk);
        Appended(old(socket.written), old(socket.budget), sent, w, tail);
        if ending == Broken {
          return;
        }
        sent := sent + w;
        Walk(window.Model(), n + 1);
        i := (i + 1) % window.capacity;
        n := n + 1;
      }
      Walk(window.Model(), n);
      assert all[n..] == [];
      ResendNone(sha, folder, chunk);
      return Done;
    }
  }

  /** The writing half of the loop in communicate (client/main.cpp): send the front of the event
      queue, then pop it. The event is in queue or window, or both, at every moment in between. */
  method SendFront(pm: ProtocolManager, queue: TsCircularVector<Event>) returns (ending: Ending)
    requires pm.Valid() && queue.Valid() && queue.v != pm.window.v && !queue.Model().Empty()
    modifies queue`start, pm.window`end, pm.window.v, pm.socket
    ensures pm.Valid() && queue.Valid() && pm.db == old(pm.db)
    ensures var e, full := old(queue.Model()).Contents()[0], old(pm.window.Model()).Full();
            && (queue.Model().Contents() == if full || ending != Done then old(queue.Model()).Contents()
                                            else old(queue.Model()).Contents()[1..])
            && (pm.window.Contents() == if full || ending != Done || e.entry.kind == Unsupported then old(pm.window.Contents())
                                        else old(pm.window.Contents()) + [e])
  {
    hide Compose;
    var e := queue.Front();
    var sent;
    sent, ending := pm.Send(e);
    if sent {
      queue.Pop();
    }
  }

  lemma WrittenStor(k: Command, n: nat)
    requires n > 0 && k.Stor?
    ensures Written(k, n) == [Order(k.(data := []))] + Blocks(k.data, n)
  {
  }

  /** Two writings, the first complete, make one. */
  lemma Joined(before: seq<Message>, budget: nat, head: Message, run: seq<Message>)
    requires budget > 0
    ensures var ok, all := |run| <= budget - 1, [head] + run;
            && ok == (|all| <= budget)
            && before + [head] + (if ok then run else run[..budget - 1]) == before + (if ok then all else all[..budget])
  {
  }

  /** Writing on after `sent`: either `w` follows it, or the writing breaks off inside the whole. */
  lemma Appended(before: seq<Message>, budget: nat, sent: seq<Message>, w: seq<Message>, tail: seq<Message>)
    requires |sent| <= budget
    ensures before + sent + w == before + (sent + w) && sent + (w + tail) == sent + w + tail
    ensures budget < |sent| + |w| ==> before + sent + w[..budget - |sent|] == before + (sent + w + tail)[..budget]
  {
  }

  lemma ComposeIgnoresData(e: Event, data: Bytes)
    ensures Compose(e, data).Some? <==> Compose(e, []).Some?
  {
  }

  lemma ResendNone(sha: Digest, folder: Tree, chunk: nat)
    requires chunk > 0
    ensures WrittenAll(Resend(sha, folder, []), chunk) == []
  {
  }

  lemma ResendStep(sha: Digest, folder: Tree, all: seq<Event>, n: nat, chunk: nat)
    requires n < |all| && chunk > 0
    requires Skipped(sha, folder, all[n]) || Compose(all[n], Content(folder, all[n].path)).Some?
    ensures WrittenAll(Resend(sha, folder, all[n..]), chunk) ==
            (if Skipped(sha, folder, all[n]) then [] else Written(Compose(all[n], Content(folder, all[n].path)).value, chunk))
            + WrittenAll(Resend(sha, folder, all[n + 1..]), chunk)
  {
    hide Compose, Skipped, Content, Written;
    assert all[n..][0] == all[n] && all[n..][1..] == all[n + 1..];
    var rest := Resend(sha, folder, all[n + 1..]);
    if !Skipped(sha, folder, all[n]) {
      var k := Compose(all[n], Content(folder, all[n].path)).value;
      assert ([k] + rest)[1..] == rest;
    } else {
      assert [] + rest == rest;
    }
  }

  lemma PopMakesRoom<T>(r: Ring<T>)
    requires r.Valid() && !r.Empty()
    ensures !r.Pop().Full()
  {
    IsBoundedSequence(r);
    PopRemoves(r);
    IsBoundedSequence(r.Pop());
  }
}
