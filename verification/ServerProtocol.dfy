/** server/ProtocolManager.cpp as the program runs it: an object whose methods update disk, table
    and map step by step. Each is shown to do what the corresponding state transformer says. */
module ServerProtocol {
  import opened Base
  import opened Table
  import opened Validator
  import opened Server
  import opened Coherence
  import opened Transfer
  import opened Wire
  import opened Guarantees

  class ProtocolManager {
    const session: Session
    var disk: Tree
    var rows: Rows
    var elements: Catalogue
    var recovered: bool
    var sent: seq<Response>

    ghost function Model(): Store
      reads this
    {
      Store(disk, rows, elements, recovered)
    }

    constructor (session: Session, disk: Tree, rows: Rows)
      ensures Model() == Store(disk, rows, map[], false) && sent == [] && this.session == session
    {
      this.session := session;
      this.disk, this.rows := disk, rows;
      elements, recovered, sent := map[], false, [];
    }

    method Respond(r: Response)
      modifies this`sent
      ensures sent == old(sent) + [r]
    {
      sent := sent + [r];
    }

    /** The map is filled only by recoverFromDB and after it; the disk holds a real folder. */
    ghost predicate Valid()
      reads this
    {
      Fresh(Model()) && Closed(disk)
    }

    /** The state and what was sent since `from` are those of the outcome. */
    ghost predicate Did(out: Outcome, from: seq<Response>)
      reads this
    {
      Valid() && Model() == out.store && sent == from + out.replies
    }

    // ------------------------------------------------------ recoverFromDB

    /** Every entry of the map is what is on disk. */
    ghost predicate Current(m: Catalogue)
      reads this
    {
      forall p :: p in m ==> p in disk && m[p] == EntryOf(session.sha, disk[p])
    }

    /** forAll with the lambda of recoverFromDB: rows whose element is as described go into the map;
        the others are put aside, to be updated or deleted once the scan is over. */
    method Scan() returns (toUpdate: seq<Path>, toDelete: seq<Path>)
      requires elements == map[]
      modifies this`elements
      ensures Elems(toUpdate) == Changed(session, old(Model())) && Elems(toDelete) == Gone(session, old(Model()))
      ensures Current(elements) && elements.Keys + Elems(toUpdate) == FoundIn(disk, Select(rows, session.owner))
    {
      hide ChangedIn, GoneIn, FoundIn, EntryOf, ReadBack, View, Select;
      var selected := Select(rows, session.owner);
      toUpdate, toDelete := [], [];
      assert selected[..0] == [];
      ScanNothing(session, disk);
      for i := 0 to |selected|
        invariant Elems(toUpdate) == ChangedIn(session, disk, selected[..i])
        invariant Elems(toDelete) == GoneIn(disk, selected[..i])
        invariant Current(elements) && elements.Keys + Elems(toUpdate) == FoundIn(disk, selected[..i])
      {
        var r := selected[i];
        assert selected[..i + 1] == selected[..i] + [r];
        ScanOneMore(session, disk, selected[..i], r);
        if r.path !in disk {
          ElemsAppend(toDelete, r.path);
          toDelete := toDelete + [r.path];
        } else if ReadBack(r.entry) != EntryOf(session.sha, disk[r.path]) {
          ElemsAppend(toUpdate, r.path);
          toUpdate := toUpdate + [r.path];
        } else if r.path !in elements {
          elements := elements[r.path := ReadBack(r.entry)];
        }
      }
      assert selected[..|selected|] == selected;
    }

    /** An UPDATE for every element that changed while no session was open; it enters the map too. */
    method UpdateAll(toUpdate: seq<Path>)
      requires Current(elements) && Elems(toUpdate) <= disk.Keys
      modifies this`rows, this`elements
      ensures Current(elements) && elements.Keys == old(elements.Keys) + Elems(toUpdate)
      ensures rows == UpdateWith(old(rows), session.owner, OnDisk(session, disk, Elems(toUpdate)))
    {
      hide EntryOf, UpdateWith, Update, OnDisk, Elems;
      UpdateNone(rows, session.owner);
      ElemsNone(toUpdate);
      OnDiskSteps(session, disk, {}, "");
      for i := 0 to |toUpdate|
        invariant Current(elements) && elements.Keys == old(elements.Keys) + Elems(toUpdate[..i])
        invariant rows == UpdateWith(old(rows), session.owner, OnDisk(session, disk, Elems(toUpdate[..i])))
      {
        var p := toUpdate[i];
        assert toUpdate[..i + 1] == toUpdate[..i] + [p];
        ElemsHas(toUpdate, i);
        ElemsAppend(toUpdate[..i], p);
        OnDiskSteps(session, disk, Elems(toUpdate[..i]), p);
        var e := EntryOf(session.sha, disk[p]);
        UpdateOneMore(old(rows), session.owner, OnDisk(session, disk, Elems(toUpdate[..i])), p, e);
        rows := Update(rows, session.owner, p, e);
        if p !in elements {
          elements := elements[p := e];
        }
      }
      assert toUpdate[..|toUpdate|] == toUpdate;
    }

    method DeleteAll(toDelete: seq<Path>)
      modifies this`rows
      ensures rows == RemoveSet(old(rows), session.owner, Elems(toDelete))
    {
      hide RemoveSet, Remove, Elems;
      RemoveNone(rows, session.owner);
      ElemsNone(toDelete);
      for i := 0 to |toDelete|
        invariant rows == RemoveSet(old(rows), session.owner, Elems(toDelete[..i]))
      {
        assert toDelete[..i + 1] == toDelete[..i] + [toDelete[i]];
        ElemsAppend(toDelete[..i], toDelete[i]);
        RemoveOneMore(old(rows), session.owner, Elems(toDelete[..i]), toDelete[i]);
        rows := Remove(rows, session.owner, toDelete[i]);
      }
      assert toDelete[..|toDelete|] == toDelete;
    }

    method RecoverFromDB()
      requires Fresh(Model()) && !recovered
      modifies this`rows, this`elements, this`recovered
      ensures Model() == Recover(session, old(Model()))
    {
      hide FoundIn, View, Select, UpdateWith, RemoveSet, EntryOf, OnDisk, Elems, ChangedIn, GoneIn;
      ScanAll(session, disk, rows);
      var toUpdate, toDelete := Scan();
      UpdateAll(toUpdate);
      DeleteAll(toDelete);
      recovered := true;
      CurrentIsOnDisk(session, disk, elements, View(old(rows), session.owner).Keys);
    }

    // ------------------------------------------------- file-system helpers

    /** What making, replacing or removing an entry does to the time of the directory it is in, and
        how the handlers put the saved time back. */
    method SetTime(p: Path, t: Time)
      requires p in disk
      modifies this`disk
      ensures disk == old(disk)[p := WithTime(old(disk)[p], t)]
    {
      disk := disk[p := WithTime(disk[p], t)];
    }

    // ------------------------------------------------------------ handlers

    method ProbeFile(p: Path, time: Time, hash: Hash) returns (alive: bool)
      requires Valid() && recovered
      modifies this`disk, this`elements, this`sent
      ensures var out := Probe(session, old(Model()), p, time, hash); Did(out, old(sent)) && alive == out.alive
    {
      DispatchClosed(session, Model(), Prob(p, time, hash), p, time);
      if p !in elements {
        Respond(Send(p, hash));
        return true;
      }
      var el := elements[p];
      if el.kind != Regular {
        Respond(Err(NotAFile));
        return true;
      }
      if el.hash != hash {
        Respond(Send(p, hash));
        return true;
      }
      if el.time != time {
        if p !in disk {
          Respond(Err(Exception));
          return false;
        }
        SetTime(p, time);
        elements := elements[p := el.(time := time)];
      }
      Respond(Ok(Found));
      return true;
    }

    /** Insert or overwrite row and map entry. */
    method Record(p: Path, e: Entry)
      modifies this`rows, this`elements
      ensures Model() == Catalogued(session, old(Model()), disk, p, e)
    {
      if p !in elements {
        rows := Insert(rows, session.owner, p, e);
      } else {
        rows := Update(rows, session.owner, p, e);
      }
      elements := elements[p := e];
    }

    /** Delete row and map entry. */
    method Drop(p: Path)
      modifies this`rows, this`elements
      ensures Model() == Forget(session, old(Model()), p)
    {
      rows := Remove(rows, session.owner, p);
      elements := elements - {p};
    }

    /** rename over `p`, once the parent exists: the parent's time is saved before and set after. */
    method MoveInto(p: Path, n: Node, now: Time)
      requires Closed(disk) && MissingParents(disk, p) == {}
      modifies this`disk
      ensures disk == old(disk)[p := n]
    {
      ParentMissing(disk, p);
      var parent := Parent(p);
      if parent == "" {
        disk := disk[p := n];
      } else {
        var saved := disk[parent].time;
        disk := disk[p := n];
        SetTime(parent, now);
        SetTime(parent, saved);
      }
    }

    /** After the DATA run has been written to the temporary file. */
    method StoreOne(p: Path, size: nat, time: Time, hash: Hash, data: Bytes, now: Time) returns (alive: bool)
      requires Valid() && recovered
      modifies this`disk, this`rows, this`elements, this`sent
      ensures var out := StoreFile(session, old(Model()), p, size, time, hash, data, now);
              Did(out, old(sent)) && alive == out.alive
    {
      hide Insert, Update, EnsureParents, Blocked;
      DispatchClosed(session, Model(), Stor(p, size, time, hash, data), p, now);
      if |data| != size || session.sha(data) != hash {
        Respond(Err(StoreFailed));
        return true;
      }
      if Blocked(disk, p) || (p in disk && disk[p].Folder?) {
        Respond(Err(Exception));
        return false;
      }
      ParentsCreated(disk, p, now);
      disk := EnsureParents(disk, p, now);
      MoveInto(p, File(data, time), now);
      Record(p, Entry(Regular, size, time, hash));
      Respond(Ok(Created));
      return true;
    }

    method RemoveOne(p: Path, hash: Hash, now: Time) returns (alive: bool)
      requires Valid() && recovered
      modifies this`disk, this`rows, this`elements, this`sent
      ensures var out := RemoveFile(session, old(Model()), p, hash); Did(out, old(sent)) && alive == out.alive
    {
      hide Remove;
      DispatchClosed(session, Model(), Dele(p, hash), p, now);
      if p !in elements {
        Respond(Ok(NotThere));
        return true;
      }
      if p !in disk {
        Drop(p);
        Respond(Ok(NotThere));
        return true;
      }
      if elements[p].kind != Regular || elements[p].hash != hash {
        Respond(Err(RemoveFailed));
        return true;
      }
      if disk[p].Folder? && exists q :: q in disk && Ancestor(p, q) {
        Respond(Err(Exception));
        return false;
      }
      CutOut({p}, p, now);
      Drop(p);
      Respond(Ok(Removed));
      return true;
    }

    /** remove or remove_all, between saving and restoring the time of the parent of `p`. */
    method CutOut(gone: set<Path>, p: Path, now: Time)
      requires Closed(disk) && p in disk && forall q :: q in gone ==> !Ancestor(q, p)
      modifies this`disk
      ensures disk == old(disk) - gone
    {
      ParentMissing(disk, p);
      var parent := Parent(p);
      if parent == "" {
        disk := disk - gone;
      } else {
        var saved := disk[parent].time;
        disk := disk - gone;
        SetTime(parent, now);
        SetTime(parent, saved);
      }
    }

    /** create_directories(p). */
    method MakePath(p: Path, now: Time)
      requires Closed(disk) && !Blocked(disk, p) && p !in disk
      modifies this`disk
      ensures disk == EnsureParents(old(disk), p, now)[p := Folder(now)]
    {
      hide EnsureParents, Blocked;
      ParentsCreated(disk, p, now);
      disk := EnsureParents(disk, p, now);
      MoveInto(p, Folder(now), now);
    }

    method MakeDirectory(p: Path, time: Time, now: Time) returns (alive: bool)
      requires Valid() && recovered
      modifies this`disk, this`rows, this`elements, this`sent
      ensures var out := MakeDir(session, old(Model()), p, time, now); Did(out, old(sent)) && alive == out.alive
    {
      hide Insert, Update, EnsureParents, Blocked;
      DispatchClosed(session, Model(), Mkd(p, time), p, now);
      if p in elements && p in disk && elements[p].time == time {
        Respond(Ok(Created));
        return true;
      }
      if p !in disk {
        if Blocked(disk, p) {
          Respond(Err(Exception));
          return false;
        }
        MakePath(p, now);
      }
      if !disk[p].Folder? {
        Respond(Err(NotADir));
        return true;
      }
      hide Closed, Ancestor, Touched, MissingParents;
      SetTime(p, time);
      Record(p, Entry(Directory, 0, time, ZERO_HASH));
      Respond(Ok(Created));
      return true;
    }

    /** `below` is the order in which the recursive iterator lists what is under `p`. */
    method RemoveDirectory(p: Path, below: seq<Path>, now: Time) returns (alive: bool)
      requires Valid() && recovered
      requires Elems(below) == set q | q in disk && Ancestor(p, q)
      modifies this`disk, this`rows, this`elements, this`sent
      ensures var out := RemoveDir(session, old(Model()), p); Did(out, old(sent)) && alive == out.alive
    {
      hide Remove, RemoveSet;
      DispatchClosed(session, Model(), Rmd(p), p, now);
      if p !in elements {
        Respond(Ok(NotThere));
        return true;
      }
      if p !in disk {
        Drop(p);
        Respond(Ok(NotThere));
        return true;
      }
      if elements[p].kind != Directory {
        Respond(Err(NotADir));
        return true;
      }
      if !disk[p].Folder? {
        Respond(Err(Exception));
        return false;
      }
      ElemsAppend(below, p);
      assert Elems(below + [p]) == Doomed(disk, p);
      CutOut(Doomed(disk, p), p, now);
      DropAll(below + [p]);
      Respond(Ok(Removed));
      return true;
    }

    // ------------------------------------------------------------- receive

    /** Validation and dispatch of a command whose message, and DATA run if any, has been read. */
    method Carry(k: Command, below: seq<Path>, now: Time) returns (alive: bool)
      requires Valid()
      requires Elems(below) == set q | q in disk && ValidatePath(k.path).Some? && Ancestor(ValidatePath(k.path).value, q)
      modifies this`disk, this`rows, this`elements, this`recovered, this`sent
      ensures var out := Handle(session, old(Model()), k, now); Did(out, old(sent)) && alive == out.alive
    {
      hide Recover, ValidatePath, ValidTime, Probe, StoreFile, RemoveFile, MakeDir, RemoveDir;
      if !recovered {
        RecoverFromDB();
      }
      var path := ValidatePath(k.path);
      if path == None || !TimeAccepted(k) {
        return true;
      }
      match k
      case Prob(_, time, hash) => alive := ProbeFile(path.value, time, hash);
      case Stor(_, size, time, hash, data) => alive := StoreOne(path.value, size, time, hash, data, now);
      case Dele(_, hash) => alive := RemoveOne(path.value, hash, now);
      case Mkd(_, time) => alive := MakeDirectory(path.value, time, now);
      case Rmd(_) => alive := RemoveDirectory(path.value, below, now);
    }

    /** receive(): one message from the socket, and for a STOR the run of DATA messages after it. */
    method Receive(inbox: seq<Message>, below: seq<Path>, now: Time) returns (alive: bool, rest: seq<Message>)
      requires Valid() && inbox != []
      requires inbox[0].Order? ==>
                 var path := ValidatePath(inbox[0].command.path);
                 Elems(below) == set q | q in disk && path.Some? && Ancestor(path.value, q)
      modifies this`disk, this`rows, this`elements, this`recovered, this`sent
      ensures var one := Serve(session, old(Model()), inbox, now);
              Did(one.outcome, old(sent)) && alive == one.outcome.alive && rest == one.rest
    {
      hide Handle, Recover, ValidatePath, ValidTime, TakeRun;
      var m := inbox[0];
      if !m.Order? {
        Respond(Err(Unexpected));
        return true, inbox[1..];
      }
      if !m.command.Stor? || !Accepted(m.command) {
        alive := Carry(m.command, below, now);
        return alive, inbox[1..];
      }
      var run := ReceiveRun(inbox[1..]);
      match run
      case Whole(data, after) =>
        alive := Carry(m.command.(data := data), below, now);
        return alive, after;
      case Interrupted(after) =>
        if !recovered {
          RecoverFromDB();
        }
        Respond(Err(Unexpected));
        return true, after;
      case Cut =>
        if !recovered {
          RecoverFromDB();
        }
        return false, [];
    }

    /** Delete rows and map entries one element after the other. */
    method DropAll(ps: seq<Path>)
      modifies this`rows, this`elements
      ensures rows == RemoveSet(old(rows), session.owner, Elems(ps))
      ensures elements == old(elements) - Elems(ps)
    {
      hide RemoveSet, Remove;
      RemoveNone(rows, session.owner);
      ElemsNone(ps);
      for i := 0 to |ps|
        invariant rows == RemoveSet(old(rows), session.owner, Elems(ps[..i]))
        invariant elements == old(elements) - Elems(ps[..i])
      {
        assert ps[..i + 1] == ps[..i] + [ps[i]];
        ElemsAppend(ps[..i], ps[i]);
        RemoveOneMore(old(rows), session.owner, Elems(ps[..i]), ps[i]);
        Drop(ps[i]);
      }
      assert ps[..|ps|] == ps;
    }
  }

  /** The set of what a vector holds. */
  function Elems(ps: seq<Path>): set<Path> { set p | p in ps }

  lemma ElemsAppend(ps: seq<Path>, p: Path)
    ensures Elems(ps + [p]) == Elems(ps) + {p}
  {
  }

  lemma ElemsNone(ps: seq<Path>)
    ensures ps[..0] == [] && Elems(ps[..0]) == {}
  {
  }

  lemma ElemsHas(ps: seq<Path>, i: nat)
    requires i < |ps|
    ensures ps[i] in Elems(ps)
  {
  }

  lemma OnDiskSteps(c: Session, disk: Tree, ps: set<Path>, p: Path)
    ensures OnDisk(c, disk, {}) == map[]
    ensures p in disk ==> OnDisk(c, disk, ps + {p}) == OnDisk(c, disk, ps)[p := EntryOf(c.sha, disk[p])]
  {
  }

  lemma CurrentIsOnDisk(c: Session, disk: Tree, m: Catalogue, ps: set<Path>)
    requires m.Keys == ps * disk.Keys && forall p :: p in m ==> p in disk && m[p] == EntryOf(c.sha, disk[p])
    ensures m == OnDisk(c, disk, ps) + map[]
  {
  }

  /** Paths of rows that exist on disk. */
  function FoundIn(disk: Tree, rows: Rows): set<Path> {
    set r | r in rows && r.path in disk :: r.path
  }

  lemma ScanNothing(c: Session, disk: Tree)
    ensures ChangedIn(c, disk, []) == {} && GoneIn(disk, []) == {} && FoundIn(disk, []) == {}
  {
  }

  lemma ScanOneMore(c: Session, disk: Tree, rows: Rows, r: Row)
    ensures ChangedIn(c, disk, rows + [r]) == ChangedIn(c, disk, rows) +
              (if r.path in disk && ReadBack(r.entry) != EntryOf(c.sha, disk[r.path]) then {r.path} else {})
    ensures GoneIn(disk, rows + [r]) == GoneIn(disk, rows) + (if r.path !in disk then {r.path} else {})
    ensures FoundIn(disk, rows + [r]) == FoundIn(disk, rows) + (if r.path in disk then {r.path} else {})
  {
  }

  lemma ScanAll(c: Session, disk: Tree, rows: Rows)
    ensures FoundIn(disk, Select(rows, c.owner)) == View(rows, c.owner).Keys * disk.Keys
    ensures ChangedIn(c, disk, Select(rows, c.owner)) <= disk.Keys
  {
    SelectIsView(rows, c.owner);
    var v := View(rows, c.owner);
    forall p | p in disk ensures p in FoundIn(disk, Select(rows, c.owner)) <==> p in v {
      if p in v {
        assert Row(c.owner, p, v[p]) in Select(rows, c.owner);
      }
    }
  }
}
