/** Getting the backup back: _retrieveUserData of the server and retrieveFiles of the client. */
module Retrieve {
  import opened Base
  import opened Table
  import opened Validator
  import opened Server
  import opened Coherence
  import opened Client
  import opened Transfer
  import opened Wire
  import opened Guarantees
  import opened Locate
  import opened Mac

  /** The folders of all users on all machines, and the table. */
  datatype Backup = Backup(disks: map<Owner, Tree>, rows: Rows)

  function DiskOf(disks: map<Owner, Tree>, o: Owner): Tree { if o in disks then disks[o] else map[] }

  /** The folder of one owner, on the server below the base path, on the client below the destination. */
  function Root(o: Owner): Path { "/" + FolderName(o.user, o.mac) }

  // ------------------------------------------------------------------ server

  /** The element is still there and, if it is a file, still has the hash of the row. */
  predicate Unchanged(sha: Digest, disks: map<Owner, Tree>, r: Row) {
    var disk := DiskOf(disks, r.owner);
    r.path in disk && (r.entry.kind == Regular ==> EntryOf(sha, disk[r.path]).hash == r.entry.hash)
  }

  /** What is sent for a row: MKD, or STOR with the DATA run read from disk. Size, time and hash are
      those of the row, as it is read back. */
  function Item(disks: map<Owner, Tree>, r: Row): Command {
    var e, p := ReadBack(r.entry), Root(r.owner) + r.path;
    if e.kind == Directory then Mkd(p, e.time)
    else Stor(p, e.size, e.time, e.hash, Content(DiskOf(disks, r.owner), r.path))
  }

  function Items(sha: Digest, disks: map<Owner, Tree>, rows: Rows): seq<Command> {
    if rows == [] then []
    else (if Unchanged(sha, disks, rows[0]) then [Item(disks, rows[0])] else []) + Items(sha, disks, rows[1..])
  }

  /** The table after the rows in `gone` have been removed one by one. */
  function Without(rows: Rows, gone: Rows): Rows
    decreases |gone|
  {
    if gone == [] then rows else Remove(Without(rows, gone[..|gone| - 1]), gone[|gone| - 1].owner, gone[|gone| - 1].path)
  }

  function Outdated(sha: Digest, disks: map<Owner, Tree>, rows: Rows): Rows {
    if rows == [] then []
    else (if Unchanged(sha, disks, rows[0]) then [] else [rows[0]]) + Outdated(sha, disks, rows[1..])
  }

  function SelectAll(rows: Rows, owners: seq<Owner>): Rows {
    if owners == [] then [] else Select(rows, owners[0]) + SelectAll(rows, owners[1..])
  }

  /** SELECT DISTINCT mac: each machine of the user once. */
  function MacsOf(rows: Rows, user: string): seq<string> {
    if rows == [] then []
    else
      var macs, r := MacsOf(rows[..|rows| - 1], user), rows[|rows| - 1];
      if r.owner.user == user && r.owner.mac !in macs then macs + [r.owner.mac] else macs
  }

  lemma {:induction false} MacsAreDistinct(rows: Rows, user: string)
    ensures var macs := MacsOf(rows, user);
            && (forall i, j :: 0 <= i < j < |macs| ==> macs[i] != macs[j])
            && (forall m :: m in macs <==> View(rows, Owner(user, m)) != map[])
  {
    if rows != [] {
      var init, r := rows[..|rows| - 1], rows[|rows| - 1];
      assert rows == init + [r];
      MacsAreDistinct(init, user);
      forall m
        ensures View(rows, Owner(user, m)) != map[] <==> View(init, Owner(user, m)) != map[] || r.owner == Owner(user, m)
      {
        ViewAppend(init, r, Owner(user, m));
        assert r.owner == Owner(user, m) ==> r.path in View(rows, Owner(user, m));
      }
    }
  }

  lemma {:induction false} ViewAppend(rows: Rows, r: Row, o: Owner)
    ensures View(rows + [r], o) == if r.owner == o then View(rows, o)[r.path := r.entry] else View(rows, o)
  {
    if rows == [] {
      assert rows + [r] == [r];
    } else {
      assert (rows + [r])[1..] == rows[1..] + [r];
      ViewAppend(rows[1..], r, o);
    }
  }

  /** Whose elements a RETR asks for, or how it is refused: with ERR(retrieve) when it names no machine,
      without an answer when the address is malformed. */
  datatype Demand = Owners(owners: seq<Owner>) | NoMachine | Malformed

  function Asked(rows: Rows, user: string, mac: string, all: bool): Demand {
    if all then
      var macs := MacsOf(rows, user);
      Owners(seq(|macs|, i requires 0 <= i < |macs| => Owner(user, macs[i])))
    else if mac == "" then NoMachine
    else
      match ValidateMac(mac)
      case None => Malformed
      case Some(m) => Owners([Owner(user, m)])
  }

  class RetrieveServer {
    const sha: Digest
    const chunk: nat
    const disks: map<Owner, Tree>
    var rows: Rows
    var sent: seq<Message>

    constructor (sha: Digest, chunk: nat, disks: map<Owner, Tree>, rows: Rows)
      ensures this.sha == sha && this.chunk == chunk && this.disks == disks && this.rows == rows && sent == []
    {
      this.sha, this.chunk, this.disks, this.rows, sent := sha, chunk, disks, rows, [];
    }

    /** _retrieveUserData with _sendFile. */
    method RetrieveUserData(user: string, mac: string, all: bool)
      requires chunk > 0
      modifies this
      ensures match Asked(old(rows), user, mac, all)
              case NoMachine => rows == old(rows) && sent == old(sent) + [Answer(Err(RetrieveFailed))]
              case Malformed => rows == old(rows) && sent == old(sent)
              case Owners(owners) =>
                var toSend := SelectAll(old(rows), owners);
                && sent == old(sent) + (WrittenAll(Items(sha, disks, toSend), chunk) + [Answer(Ok(Retrieved))])
                && rows == Without(old(rows), Outdated(sha, disks, toSend))
    {
      hide MacsOf, ValidateMac, Items, Outdated, Without, WrittenAll, SelectAll;
      var asked := Asked(rows, user, mac, all);
      match asked
      case NoMachine => sent := sent + [Answer(Err(RetrieveFailed))];
      case Malformed =>
      case Owners(owners) =>
        var toSend := Collect(owners);
        SendRows(toSend);
        sent := sent + [Answer(Ok(Retrieved))];
    }

    /** The loop over the machines: forAll for each collects its elements. */
    method Collect(owners: seq<Owner>) returns (toSend: Rows)
      ensures toSend == SelectAll(rows, owners)
    {
      hide Select;
      toSend := [];
      assert owners[0..] == owners;
      for i := 0 to |owners|
        invariant toSend + SelectAll(rows, owners[i..]) == SelectAll(rows, owners)
      {
        assert owners[i..][0] == owners[i] && owners[i..][1..] == owners[i + 1..];
        assert toSend + (Select(rows, owners[i]) + SelectAll(rows, owners[i + 1..]))
               == toSend + Select(rows, owners[i]) + SelectAll(rows, owners[i + 1..]);
        toSend := toSend + Select(rows, owners[i]);
      }
      assert owners[|owners|..] == [];
    }

    /** The loop over the collected elements: rows whose element is gone or changed leave the table. */
    method SendRows(toSend: Rows)
      requires chunk > 0
      modifies this
      ensures sent == old(sent) + WrittenAll(Items(sha, disks, toSend), chunk)
      ensures rows == Without(old(rows), Outdated(sha, disks, toSend))
    {
      hide Item, Items, Written, WrittenAll, Unchanged, Remove, Outdated, Without;
      NoRows(sha, disks, rows, chunk);
      ghost var out: seq<Message>, gone: Rows := [], [];
      assert toSend[0..] == toSend;
      for i := 0 to |toSend|
        invariant sent == old(sent) + out
        invariant out + WrittenAll(Items(sha, disks, toSend[i..]), chunk) == WrittenAll(Items(sha, disks, toSend), chunk)
        invariant rows == Without(old(rows), gone)
        invariant gone + Outdated(sha, disks, toSend[i..]) == Outdated(sha, disks, toSend)
      {
        var r := toSend[i];
        RowByRow(sha, disks, toSend, i, chunk);
        ghost var more, later := WrittenAll(Items(sha, disks, toSend[i + 1..]), chunk), Outdated(sha, disks, toSend[i + 1..]);
        if Unchanged(sha, disks, r) {
          assert [] + later == later;
          assert out + (Written(Item(disks, r), chunk) + more) == out + Written(Item(disks, r), chunk) + more;
          sent := sent + Written(Item(disks, r), chunk);
          out := out + Written(Item(disks, r), chunk);
        } else {
          assert gone + ([r] + later) == gone + [r] + later;
          assert [] + more == more;
          OneMoreGone(old(rows), gone, r);
          rows := Remove(rows, r.owner, r.path);
          gone := gone + [r];
        }
      }
      assert toSend[|toSend|..] == [] && out + [] == out && gone + [] == gone;
    }
  }

  lemma NoRows(sha: Digest, disks: map<Owner, Tree>, rows: Rows, n: nat)
    requires n > 0
    ensures WrittenAll(Items(sha, disks, []), n) == [] && Outdated(sha, disks, []) == [] && Without(rows, []) == rows
  {
  }

  lemma OneMoreGone(rows: Rows, gone: Rows, r: Row)
    ensures Without(rows, gone + [r]) == Remove(Without(rows, gone), r.owner, r.path)
  {
    assert (gone + [r])[..|gone|] == gone;
  }

  lemma RowByRow(sha: Digest, disks: map<Owner, Tree>, rows: Rows, i: nat, n: nat)
    requires i < |rows| && n > 0
    ensures var r, rest := rows[i], rows[i + 1..];
            && WrittenAll(Items(sha, disks, rows[i..]), n) ==
               (if Unchanged(sha, disks, r) then Written(Item(disks, r), n) else []) + WrittenAll(Items(sha, disks, rest), n)
            && Outdated(sha, disks, rows[i..]) == (if Unchanged(sha, disks, r) then [] else [r]) + Outdated(sha, disks, rest)
  {
    hide Item, Written, Unchanged;
    assert rows[i..][0] == rows[i] && rows[i..][1..] == rows[i + 1..];
    var rest := Items(sha, disks, rows[i + 1..]);
    assert ([Item(disks, rows[i])] + rest)[1..] == rest;
    assert [] + rest == rest;
  }

  // ------------------------------------------------------------------ client

  /** _storeFile and _makeDir of the client, below the destination folder; None is an exception. After
      moving a file right below the destination the program resets the time of an empty path. */
  function Accept(sha: Digest, dest: Tree, k: Command, now: Time): Option<Tree> {
    match ValidatePath(k.path)
    case None => None
    case Some(p) =>
      if !TimeAccepted(k) then None
      else
        match k
        case Stor(_, size, time, hash, data) =>
          if |data| != size || sha(data) != hash then None
          else if Blocked(dest, p) || (p in dest && dest[p].Folder?) || Parent(p) == "" then None
          else Some(EnsureParents(dest, p, now)[p := File(data, time)])
        case Mkd(_, time) =>
          if p !in dest && Blocked(dest, p) then None
          else if p in dest && !dest[p].Folder? then None
          else Some((if p in dest then dest else EnsureParents(dest, p, now))[p := Folder(time)])
        case _ => None
  }

  function AcceptAll(sha: Digest, dest: Tree, ks: seq<Command>, now: Time): Option<Tree>
    decreases |ks|
  {
    if ks == [] then Some(dest)
    else
      match Accept(sha, dest, ks[0], now)
      case None => None
      case Some(d) => AcceptAll(sha, d, ks[1..], now)
  }

  /** retrieveFiles on the messages to come; None is an exception. */
  function Retrieving(sha: Digest, dest: Tree, inbox: seq<Message>, now: Time): Option<Tree>
    decreases |inbox|
  {
    if inbox == [] then None
    else
      match inbox[0]
      case Answer(r) => if r == Ok(Retrieved) then Some(dest) else None
      case Order(k) =>
        if k.Mkd? then
          match Accept(sha, dest, k, now)
          case None => None
          case Some(d) => Retrieving(sha, d, inbox[1..], now)
        else if k.Stor? then
          RestIsShorter(inbox[1..]);
          match TakeRun(inbox[1..])
          case Whole(data, rest) =>
            (match Accept(sha, dest, k.(data := data), now)
             case None => None
             case Some(d) => Retrieving(sha, d, rest, now))
          case _ => None
        else None
      case _ => None
  }

  class RetrieveClient {
    const sha: Digest
    var dest: Tree

    constructor (sha: Digest)
      ensures this.sha == sha && dest == map[]
    {
      this.sha, dest := sha, map[];
    }

    /** The loop of retrieveFiles: true when it ends on OK(retrieved), false on an exception. */
    method RetrieveFiles(inbox: seq<Message>, now: Time) returns (done: bool)
      modifies this`dest
      ensures done <==> Retrieving(sha, old(dest), inbox, now).Some?
      ensures done ==> Some(dest) == Retrieving(sha, old(dest), inbox, now)
    {
      hide Accept, TakeRun;
      var rest := inbox;
      while rest != []
        invariant Retrieving(sha, old(dest), inbox, now) == Retrieving(sha, dest, rest, now)
        decreases |rest|
      {
        var m := rest[0];
        rest := rest[1..];
        RestIsShorter(rest);
        if m.Answer? {
          return m.response == Ok(Retrieved);
        }
        if !m.Order? || !(m.command.Mkd? || m.command.Stor?) {
          return false;
        }
        var k := m.command;
        if k.Stor? {
          var run := ReceiveRun(rest);
          if !run.Whole? {
            return false;
          }
          k, rest := k.(data := run.data), run.rest;
        }
        var d := Accept(sha, dest, k, now);
        if d.None? {
          return false;
        }
        dest := d.value;
      }
      return false;
    }
  }

  /** Items are taken in one by one, whatever comes after them. */
  lemma {:induction false} ItemsFirst(sha: Digest, dest: Tree, ks: seq<Command>, n: nat, rest: seq<Message>, now: Time)
    requires n > 0 && forall k :: k in ks ==> k.Mkd? || k.Stor?
    ensures Retrieving(sha, dest, WrittenAll(ks, n) + rest, now) ==
            match AcceptAll(sha, dest, ks, now) case None => None case Some(d) => Retrieving(sha, d, rest, now)
    decreases |ks|
  {
    hide Accept, Written, Retrieving;
    if ks == [] {
      assert WrittenAll(ks, n) + rest == rest;
    } else {
      var more := WrittenAll(ks[1..], n) + rest;
      assert WrittenAll(ks, n) + rest == Written(ks[0], n) + more;
      RetrieveOne(sha, dest, ks[0], n, more, now);
      if Accept(sha, dest, ks[0], now).Some? {
        ItemsFirst(sha, Accept(sha, dest, ks[0], now).value, ks[1..], n, rest, now);
      }
    }
  }

  /** What the server writes is understood item by item. */
  lemma StreamIsItems(sha: Digest, dest: Tree, ks: seq<Command>, n: nat, now: Time)
    requires n > 0 && forall k :: k in ks ==> k.Mkd? || k.Stor?
    ensures Retrieving(sha, dest, WrittenAll(ks, n) + [Answer(Ok(Retrieved))], now) == AcceptAll(sha, dest, ks, now)
  {
    hide Accept, AcceptAll, WrittenAll;
    ItemsFirst(sha, dest, ks, n, [Answer(Ok(Retrieved))], now);
  }

  lemma RetrieveOne(sha: Digest, dest: Tree, k: Command, n: nat, more: seq<Message>, now: Time)
    requires n > 0 && (k.Mkd? || k.Stor?)
    ensures Retrieving(sha, dest, Written(k, n) + more, now) ==
            match Accept(sha, dest, k, now) case None => None case Some(d) => Retrieving(sha, d, more, now)
  {
    hide Accept, TakeRun, Blocks;
    var inbox := Written(k, n) + more;
    if k.Stor? {
      RoundTrip(k.data, n, more);
      assert inbox[1..] == Blocks(k.data, n) + more;
      assert k.(data := []).(data := k.data) == k;
    } else {
      assert inbox[1..] == more;
    }
  }

  // ------------------------------------------------- reproducing the backup

  /** Items that do not get in each other's way: no file twice, none where a directory is, none above
      another element. */
  predicate Apart(a: Command, b: Command) {
    (a.Stor? || b.Stor? ==> a.path != b.path) && (a.Stor? ==> !Ancestor(a.path, b.path)) && (b.Stor? ==> !Ancestor(b.path, a.path))
  }

  ghost predicate Sound(sha: Digest, k: Command) {
    && (k.Mkd? || (k.Stor? && |k.data| == k.size && sha(k.data) == k.hash && Parent(k.path) != ""))
    && Valid(k)
  }

  ghost predicate Plan(sha: Digest, ks: seq<Command>) {
    && (forall k :: k in ks ==> Sound(sha, k))
    && (forall i, j :: 0 <= i < j < |ks| ==> Apart(ks[i], ks[j]))
  }

  /** The destination after some of the items: their files and directories, and only directories that belong to them. */
  ghost predicate Holds(dest: Tree, ks: seq<Command>) {
    && Closed(dest)
    && (forall k :: k in ks && k.Stor? ==> k.path in dest && dest[k.path] == File(k.data, k.time))
    && (forall k :: k in ks && k.Mkd? ==> k.path in dest && dest[k.path].Folder?)
    && (forall q :: q in dest && !dest[q].Folder? ==> exists k :: k in ks && k.Stor? && k.path == q)
    && (forall q :: q in dest && dest[q].Folder? ==> exists k :: k in ks && (Ancestor(q, k.path) || (k.Mkd? && k.path == q)))
  }

  /** A new element at its place, directories made on the way. */
  lemma HoldsMore(dest: Tree, done: seq<Command>, k: Command, now: Time)
    requires Holds(dest, done) && !Blocked(dest, k.path) && forall d :: d in done ==> Apart(d, k)
    requires k.Stor? ==> k.path !in dest
    requires k.Mkd? && k.path in dest ==> dest[k.path].Folder?
    requires k.Stor? || k.Mkd?
    ensures var e := EnsureParents(dest, k.path, now);
            Holds(e[k.path := if k.Stor? then File(k.data, k.time) else Folder(k.time)], done + [k])
  {
    hide EnsureParents, Blocked, Touched;
    ParentsCreated(dest, k.path, now);
    var e := EnsureParents(dest, k.path, now);
    var n := if k.Stor? then File(k.data, k.time) else Folder(k.time);
    if k.Stor? {
      forall q | q in e ensures !Ancestor(k.path, q) {}
    }
    ClosedPut(e, k.path, n);
    assert k in done + [k];
    assert forall d :: d in done ==> d in done + [k];
    forall q | q in e && !e[q].Folder? ensures q in dest && e[q] == dest[q] {}
    forall q | q in e && e[q].Folder? ensures (q in dest && dest[q].Folder?) || Ancestor(q, k.path) {}
  }

  lemma AcceptItem(sha: Digest, dest: Tree, done: seq<Command>, k: Command, now: Time)
    requires Holds(dest, done) && Sound(sha, k) && forall d :: d in done ==> Apart(d, k)
    ensures Accept(sha, dest, k, now).Some? && Holds(Accept(sha, dest, k, now).value, done + [k])
  {
    hide EnsureParents, Blocked, Parent, ValidTime, ValidatePath, Holds, Apart;
    NotBlocked(dest, done, k);
    HoldsMore(dest, done, k, now);
    if k.path in dest {
      PresentParents(dest, done, k.path, now);
    }
  }

  lemma PresentParents(dest: Tree, done: seq<Command>, p: Path, now: Time)
    requires Holds(dest, done) && p in dest
    ensures EnsureParents(dest, p, now) == dest
  {
    assert MissingParents(dest, p) == {};
  }

  lemma NotBlocked(dest: Tree, done: seq<Command>, k: Command)
    requires Holds(dest, done) && forall d :: d in done ==> Apart(d, k)
    ensures !Blocked(dest, k.path)
    ensures k.Stor? ==> k.path !in dest
    ensures k.Mkd? && k.path in dest ==> dest[k.path].Folder?
  {
  }

  lemma {:induction false} AcceptPlan(sha: Digest, dest: Tree, done: seq<Command>, ks: seq<Command>, now: Time)
    requires Plan(sha, done + ks) && Holds(dest, done)
    ensures AcceptAll(sha, dest, ks, now).Some? && Holds(AcceptAll(sha, dest, ks, now).value, done + ks)
    decreases |ks|
  {
    hide Accept, Holds, Sound, Apart;
    if ks == [] {
      assert done + ks == done;
    } else {
      var all := done + ks;
      assert all[|done|] == ks[0] && ks[0] in all;
      forall d | d in done ensures Apart(d, ks[0]) {
        var i :| 0 <= i < |done| && done[i] == d;
        assert all[i] == d;
      }
      AcceptItem(sha, dest, done, ks[0], now);
      assert done + [ks[0]] + ks[1..] == all;
      AcceptPlan(sha, Accept(sha, dest, ks[0], now).value, done + [ks[0]], ks[1..], now);
    }
  }

  /** Into an empty destination such a list is accepted to the end, and leaves exactly its files, its directories
      and the directories above them. */
  lemma PlanIsReproduced(sha: Digest, ks: seq<Command>, n: nat, now: Time)
    requires n > 0 && Plan(sha, ks)
    ensures var r := Retrieving(sha, map[], WrittenAll(ks, n) + [Answer(Ok(Retrieved))], now);
            && r.Some? && r == AcceptAll(sha, map[], ks, now)
            && (forall k :: k in ks && k.Stor? ==> k.path in r.value && r.value[k.path] == File(k.data, k.time))
            && (forall k :: k in ks && k.Mkd? ==> k.path in r.value && r.value[k.path].Folder?)
            && (forall q :: q in r.value && !r.value[q].Folder? ==> exists k :: k in ks && k.Stor? && k.path == q)
            && (forall q :: q in r.value && r.value[q].Folder? ==>
                  exists k :: k in ks && (Ancestor(q, k.path) || (k.Mkd? && k.path == q)))
  {
    hide Accept, Apart, WrittenAll, Retrieving;
    assert [] + ks == ks;
    assert Holds(map[], []);
    AcceptPlan(sha, map[], [], ks, now);
    assert forall k :: k in ks ==> Sound(sha, k);
    hide Sound, Holds;
    StreamIsItems(sha, map[], ks, n, now);
  }

  // ----------------------------------------------- from stores to folders

  /** A row under a name and with a time that the Validator accepts and the program can work with. */
  ghost predicate Named(r: Row) {
    && ValidatePath(r.path) == Some(r.path) && r.path[0] == '/' && ValidTime(r.entry.time)
    && r.entry.kind != Unsupported && OneLine(r.path)
  }

  /** A file that still has the hash of its row is a file, of the size the row gives when it is read back.
      Nothing is said about elements that have gone or changed. */
  ghost predicate Healthy(sha: Digest, disks: map<Owner, Tree>, r: Row) {
    var disk := DiskOf(disks, r.owner);
    && Named(r)
    && (r.entry.kind == Regular && Unchanged(sha, disks, r) ==>
          disk[r.path].File? && ReadSize(r.entry.size) == |disk[r.path].data|)
  }

  /** The owner's name fits into the regular expression that finds relative paths. */
  ghost predicate HealthyOwner(b: Backup, o: Owner) {
    && ValidUsername(o.user) && '+' !in o.user && ValidateMac(o.mac) == Some(o.mac)
    && Unique(b.rows, o) && Closed(DiskOf(b.disks, o))
  }

  lemma RootChars(o: Owner)
    requires ValidUsername(o.user) && ValidateMac(o.mac) == Some(o.mac)
    ensures |Root(o)| > 1 && Root(o)[0] == '/'
    ensures forall i :: 0 < i < |Root(o)| ==> Root(o)[i] != '/' && Root(o)[i] != '\\' && !Forbidden(Root(o)[i])
  {
    hide ValidateMac;
    CanonicalChars(o.mac);
    var name, u := FolderName(o.user, o.mac), |o.user|;
    forall i | 0 <= i < |name| ensures name[i] != '/' && name[i] != '\\' && !Forbidden(name[i]) {
      if i < u {
        assert name[i] == o.user[i];
      } else if i > u {
        assert name[i] == Dashed(o.mac)[i - u - 1];
      }
    }
    assert forall i :: 0 < i < |Root(o)| ==> Root(o)[i] == name[i - 1];
  }

  lemma RootedIsValid(o: Owner, p: Path)
    requires ValidUsername(o.user) && ValidateMac(o.mac) == Some(o.mac)
    requires ValidatePath(p) == Some(p) && p[0] == '/'
    ensures ValidatePath(Root(o) + p) == Some(Root(o) + p) && Parent(Root(o) + p) != ""
  {
    hide ValidatePath, ValidateMac, ValidUsername, Root;
    RootChars(o);
    FixedPoints(p);
    FixedPoints(Root(o) + p);
    var q, n := Root(o) + p, |Root(o)|;
    assert forall i :: n <= i < |q| ==> q[i] == p[i - n];
    assert q[n] == '/' && LastSlash(q) >= n;
  }

  /** Elements of different owners never meet on the client. */
  lemma RootsSeparate(o1: Owner, p1: Path, o2: Owner, p2: Path)
    requires ValidUsername(o1.user) && ValidateMac(o1.mac) == Some(o1.mac)
    requires ValidUsername(o2.user) && ValidateMac(o2.mac) == Some(o2.mac)
    requires p1 != "" && p1[0] == '/' && p2 != "" && p2[0] == '/'
    ensures Root(o1) + p1 == Root(o2) + p2 ==> o1 == o2 && p1 == p2
    ensures Ancestor(Root(o1) + p1, Root(o2) + p2) ==> o1 == o2 && Ancestor(p1, p2)
  {
    hide ValidateMac, ValidUsername, Root;
    RootChars(o1);
    RootChars(o2);
    var x, y, m, n := Root(o1) + p1, Root(o2) + p2, |Root(o1)|, |Root(o2)|;
    assert x[m] == '/' && y[n] == '/';
    if x == y || Ancestor(x, y) {
      assert forall i :: 0 <= i < |x| ==> x[i] == y[..|x|][i] == y[i];
      assert m == n;
      assert Root(o1) == x[..m] == y[..m] == Root(o2);
      SameRoot(o1, o2);
      assert p1 == x[m..] && p2 == y[m..];
      if Ancestor(x, y) {
        assert p2[..|p1|] == y[m..][..|p1|] == y[..|x|][m..] == p1;
      }
    }
  }

  lemma SameRoot(o1: Owner, o2: Owner)
    requires ValidateMac(o1.mac) == Some(o1.mac) && ValidateMac(o2.mac) == Some(o2.mac) && Root(o1) == Root(o2)
    ensures o1 == o2
  {
    hide ValidateMac;
    assert Root(o1)[1..] == FolderName(o1.user, o1.mac) && Root(o2)[1..] == FolderName(o2.user, o2.mac);
    FoldersAreDistinct(o1.user, o1.mac, o2.user, o2.mac);
  }

  lemma ItemIsSound(sha: Digest, b: Backup, r: Row)
    requires HealthyOwner(b, r.owner) && Healthy(sha, b.disks, r) && Unchanged(sha, b.disks, r)
    ensures Sound(sha, Item(b.disks, r))
  {
    hide ValidatePath, ValidTime, ValidateMac, ValidUsername, Root, Unique, Closed, Parent;
    RootedIsValid(r.owner, r.path);
  }

  lemma ItemsAreApart(sha: Digest, b: Backup, r: Row, t: Row)
    requires HealthyOwner(b, r.owner) && Healthy(sha, b.disks, r) && Unchanged(sha, b.disks, r)
    requires HealthyOwner(b, t.owner) && Healthy(sha, b.disks, t) && Unchanged(sha, b.disks, t)
    requires r.owner != t.owner || r.path != t.path
    ensures Apart(Item(b.disks, r), Item(b.disks, t))
  {
    hide ValidatePath, ValidTime, ValidateMac, ValidUsername, Root, Unique, Ancestor;
    PathNotEmpty(r.path);
    PathNotEmpty(t.path);
    RootsSeparate(r.owner, r.path, t.owner, t.path);
    RootsSeparate(t.owner, t.path, r.owner, r.path);
  }

  lemma PathNotEmpty(p: Path)
    requires ValidatePath(p) == Some(p)
    ensures p != ""
  {
    FixedPoints(p);
  }

  /** No two rows for the same element. */
  ghost predicate Keyed(rows: Rows) {
    forall i, j :: 0 <= i < j < |rows| ==> rows[i].owner != rows[j].owner || rows[i].path != rows[j].path
  }

  lemma {:induction false} SelectIsKeyed(rows: Rows, o: Owner)
    requires Unique(rows, o)
    ensures Keyed(Select(rows, o))
  {
    if rows != [] {
      SelectIsKeyed(rows[1..], o);
      SelectIsView(rows[1..], o);
      var rest := Select(rows[1..], o);
      assert forall i :: 0 <= i < |rest| ==> rest[i] in rest;
    }
  }

  lemma {:induction false} SelectAllIsKeyed(rows: Rows, owners: seq<Owner>)
    requires forall i, j :: 0 <= i < j < |owners| ==> owners[i] != owners[j]
    requires forall o :: o in owners ==> Unique(rows, o)
    ensures Keyed(SelectAll(rows, owners))
    ensures forall r :: r in SelectAll(rows, owners) <==> r.owner in owners && r in Select(rows, r.owner)
  {
    hide Select, Unique, View;
    if owners != [] {
      assert forall o :: o in owners <==> o == owners[0] || o in owners[1..];
      SelectAllIsKeyed(rows, owners[1..]);
      SelectIsKeyed(rows, owners[0]);
      SelectIsView(rows, owners[0]);
      var a, rest := Select(rows, owners[0]), SelectAll(rows, owners[1..]);
      assert forall i :: 0 <= i < |a| ==> a[i] in a;
      assert forall i :: 0 <= i < |rest| ==> rest[i] in rest;
    }
  }

  /** Items and the rows they come from. */
  lemma {:induction false} ItemsOfRows(sha: Digest, disks: map<Owner, Tree>, rows: Rows)
    ensures forall k :: k in Items(sha, disks, rows) <==> exists r :: r in rows && Unchanged(sha, disks, r) && k == Item(disks, r)
  {
    hide Unchanged, Item;
    if rows != [] {
      ItemsOfRows(sha, disks, rows[1..]);
      assert forall r :: r in rows <==> r == rows[0] || r in rows[1..];
    }
  }

  lemma {:induction false} ItemsArePlan(sha: Digest, b: Backup, rows: Rows)
    requires Keyed(rows) && forall r :: r in rows ==> HealthyOwner(b, r.owner) && Healthy(sha, b.disks, r)
    ensures Plan(sha, Items(sha, b.disks, rows))
  {
    hide Unchanged, Item, HealthyOwner, Healthy, Sound, Apart;
    if rows != [] {
      ItemsArePlan(sha, b, rows[1..]);
      ItemsOfRows(sha, b.disks, rows[1..]);
      assert rows[0] in rows;
      var rest := Items(sha, b.disks, rows[1..]);
      if Unchanged(sha, b.disks, rows[0]) {
        var k := Item(b.disks, rows[0]);
        ItemIsSound(sha, b, rows[0]);
        forall j | 0 <= j < |rest| ensures Apart(k, rest[j]) {
          assert rest[j] in rest;
          var r :| r in rows[1..] && Unchanged(sha, b.disks, r) && rest[j] == Item(b.disks, r);
          var i :| 0 <= i < |rows[1..]| && rows[1..][i] == r;
          assert rows[0].owner != rows[i + 1].owner || rows[0].path != rows[i + 1].path;
          ItemsAreApart(sha, b, rows[0], r);
        }
      }
    }
  }

  /** What an item says about its row. */
  ghost predicate IsItem(disks: map<Owner, Tree>, r: Row, k: Command) {
    && (k.Stor? <==> r.entry.kind == Regular) && (k.Mkd? <==> r.entry.kind == Directory)
    && k.path == Root(r.owner) + r.path && (k.Mkd? ==> k.time == r.entry.time)
    && (k.Stor? ==>
          && k.path == Root(r.owner) + r.path
          && r.path in DiskOf(disks, r.owner) && DiskOf(disks, r.owner)[r.path].File?
          && k.data == DiskOf(disks, r.owner)[r.path].data && k.time == r.entry.time)
  }

  lemma ItemOfRow(sha: Digest, disks: map<Owner, Tree>, r: Row)
    requires Healthy(sha, disks, r) && Unchanged(sha, disks, r)
    ensures IsItem(disks, r, Item(disks, r))
  {
    hide Root, ValidatePath, ValidTime;
  }

  lemma HealthyIsUnique(b: Backup, owners: seq<Owner>)
    requires forall o :: o in owners ==> HealthyOwner(b, o)
    ensures forall o :: o in owners ==> Unique(b.rows, o)
  {
  }

  /** Every file of the rows that the server still has as recorded is there, with the server's content and the
      recorded time, in its owner's own folder, and so is every directory; and there is no other file, and no
      other directory but those above these elements. */
  ghost predicate Reproduced(sha: Digest, disks: map<Owner, Tree>, rows: Rows, dest: Tree) {
    && (forall r :: r in rows && r.entry.kind == Regular && Unchanged(sha, disks, r) ==>
          var q, copy := Root(r.owner) + r.path, DiskOf(disks, r.owner)[r.path];
          q in dest && copy.File? && dest[q] == File(copy.data, r.entry.time))
    && (forall q :: q in dest && !dest[q].Folder? ==>
          exists r :: r in rows && r.entry.kind == Regular && Unchanged(sha, disks, r) && q == Root(r.owner) + r.path)
    && (forall r :: r in rows && r.entry.kind == Directory && Unchanged(sha, disks, r) ==>
          var q := Root(r.owner) + r.path; q in dest && dest[q].Folder?)
    && (forall q :: q in dest && dest[q].Folder? ==>
          exists r :: r in rows && Unchanged(sha, disks, r) && IsOrHolds(q, r))
  }

  /** The directory is the one of the row, or is on the way to the element of the row. */
  predicate IsOrHolds(q: Path, r: Row) {
    Ancestor(q, Root(r.owner) + r.path) || (r.entry.kind == Directory && q == Root(r.owner) + r.path)
  }

  lemma FilesOfItems(sha: Digest, disks: map<Owner, Tree>, rows: Rows, dest: Tree)
    requires forall r :: r in rows ==> Healthy(sha, disks, r)
    requires forall k :: k in Items(sha, disks, rows) && k.Stor? ==> k.path in dest && dest[k.path] == File(k.data, k.time)
    requires forall q :: q in dest && !dest[q].Folder? ==> exists k :: k in Items(sha, disks, rows) && k.Stor? && k.path == q
    requires forall k :: k in Items(sha, disks, rows) && k.Mkd? ==> k.path in dest && dest[k.path].Folder?
    requires forall q :: q in dest && dest[q].Folder? ==>
               exists k :: k in Items(sha, disks, rows) && (Ancestor(q, k.path) || (k.Mkd? && k.path == q))
    ensures Reproduced(sha, disks, rows, dest)
  {
    hide Items, Item, Healthy, Unchanged, Root, Ancestor;
    ItemsOfRows(sha, disks, rows);
    forall r | r in rows && Unchanged(sha, disks, r)
      ensures var k := Item(disks, r); k in Items(sha, disks, rows) && IsItem(disks, r, k)
    {
      ItemOfRow(sha, disks, r);
    }
    forall q | q in dest && !dest[q].Folder?
      ensures exists r :: r in rows && r.entry.kind == Regular && Unchanged(sha, disks, r) && q == Root(r.owner) + r.path
    {
      var k :| k in Items(sha, disks, rows) && k.Stor? && k.path == q;
      var r :| r in rows && Unchanged(sha, disks, r) && k == Item(disks, r);
      assert IsItem(disks, r, k);
    }
    forall q | q in dest && dest[q].Folder? ensures exists r :: r in rows && Unchanged(sha, disks, r) && IsOrHolds(q, r) {
      var k :| k in Items(sha, disks, rows) && (Ancestor(q, k.path) || (k.Mkd? && k.path == q));
      var r :| r in rows && Unchanged(sha, disks, r) && k == Item(disks, r);
      assert IsItem(disks, r, k) && IsOrHolds(q, r);
    }
  }

  /** Retrieving into an empty folder ends well and reproduces the backup of every owner asked for. */
  lemma RetrieveReproduces(sha: Digest, b: Backup, owners: seq<Owner>, n: nat, now: Time)
    requires n > 0 && forall i, j :: 0 <= i < j < |owners| ==> owners[i] != owners[j]
    requires forall o :: o in owners ==> HealthyOwner(b, o)
    requires forall r :: r in SelectAll(b.rows, owners) ==> Healthy(sha, b.disks, r)
    ensures var rows := SelectAll(b.rows, owners);
            var r := Retrieving(sha, map[], WrittenAll(Items(sha, b.disks, rows), n) + [Answer(Ok(Retrieved))], now);
            r.Some? && Reproduced(sha, b.disks, rows, r.value)
  {
    hide Retrieving, HealthyOwner, Healthy, Root, Select, SelectAll, WrittenAll, Items, Plan, Unique, Reproduced;
    var rows := SelectAll(b.rows, owners);
    HealthyIsUnique(b, owners);
    SelectAllIsKeyed(b.rows, owners);
    ItemsArePlan(sha, b, rows);
    var ks := Items(sha, b.disks, rows);
    PlanIsReproduced(sha, ks, n, now);
    var dest := Retrieving(sha, map[], WrittenAll(ks, n) + [Answer(Ok(Retrieved))], now).value;
    FilesOfItems(sha, b.disks, rows, dest);
  }

  /** A file of 2 GiB or more stops the client: the size read back from the table is not that of the file. */
  lemma LargeFileStopsRetrieve(sha: Digest, b: Backup, r: Row, dest: Tree, now: Time)
    requires r.entry.kind == Regular && Unchanged(sha, b.disks, r)
    requires DiskOf(b.disks, r.owner)[r.path].File?
    requires r.entry.size == |DiskOf(b.disks, r.owner)[r.path].data| < 0x8000_0000_0000_0000
    requires r.entry.size >= 0x8000_0000
    ensures Accept(sha, dest, Item(b.disks, r), now) == None
  {
    hide EnsureParents, Blocked;
    SizeRoundTrip(r.entry.size);
  }

  /** An unchanged file has the size of its row, as it is after any session. */
  ghost predicate TrueSize(sha: Digest, disks: map<Owner, Tree>, r: Row) {
    r.entry.kind == Regular && Unchanged(sha, disks, r) ==>
      var copy := DiskOf(disks, r.owner)[r.path];
      copy.File? && r.entry.size == |copy.data| < 0x8000_0000_0000_0000
  }

  /** Rows whose file will be sent fit into the 32 bits in which the table is read. */
  ghost predicate SmallFiles(sha: Digest, disks: map<Owner, Tree>, rows: Rows) {
    forall r :: r in rows && r.entry.kind == Regular && Unchanged(sha, disks, r) ==> r.entry.size < 0x8000_0000
  }

  /** What a session of the owner leaves: true sizes, and every file unchanged. */
  lemma CoherentIsHealthy(c: Session, s: Store, disks: map<Owner, Tree>, r: Row)
    requires Coherent(c, s) && RowsAgree(c, s) && DiskOf(disks, c.owner) == s.disk && r in Select(s.rows, c.owner)
    requires ValidatePath(r.path) == Some(r.path) && r.path[0] == '/' && ValidTime(r.entry.time) && OneLine(r.path)
    requires r.entry.size < 0x8000_0000_0000_0000
    ensures Unique(s.rows, c.owner) && Closed(DiskOf(disks, r.owner))
    ensures Named(r) && TrueSize(c.sha, disks, r) && Unchanged(c.sha, disks, r)
    ensures r.entry.size < 0x8000_0000 ==> Healthy(c.sha, disks, r)
  {
    hide ValidatePath, ValidTime, View, Select, Unique, Closed;
    SelectIsView(s.rows, c.owner);
    assert r.entry.(time := s.elements[r.path].time) == s.elements[r.path];
    SizeRoundTrip(r.entry.size);
  }

  lemma {:induction false} RefusedItemStops(sha: Digest, dest: Tree, ks: seq<Command>, k: Command, now: Time)
    requires k in ks && forall d :: Accept(sha, d, k, now) == None
    ensures AcceptAll(sha, dest, ks, now) == None
    decreases |ks|
  {
    hide Accept;
    if ks[0] != k && Accept(sha, dest, ks[0], now).Some? {
      RefusedItemStops(sha, Accept(sha, dest, ks[0], now).value, ks[1..], k, now);
    }
  }

  lemma LargeFilesStop(sha: Digest, b: Backup, rows: Rows, n: nat, now: Time, row: Row)
    requires n > 0 && (forall r :: r in rows ==> TrueSize(sha, b.disks, r))
    requires row in rows && row.entry.kind == Regular && Unchanged(sha, b.disks, row) && row.entry.size >= 0x8000_0000
    ensures Retrieving(sha, map[], WrittenAll(Items(sha, b.disks, rows), n) + [Answer(Ok(Retrieved))], now) == None
  {
    hide Accept, AcceptAll, Retrieving, WrittenAll, Items, Unchanged;
    var ks, k := Items(sha, b.disks, rows), Item(b.disks, row);
    ItemsOfRows(sha, b.disks, rows);
    assert k in ks;
    assert forall r :: Item(b.disks, r).Mkd? || Item(b.disks, r).Stor?;
    hide Item, TrueSize;
    StreamIsItems(sha, map[], ks, n, now);
    forall d ensures Accept(sha, d, k, now) == None {
      LargeUnchangedFile(sha, b, row, d, now);
    }
    RefusedItemStops(sha, map[], ks, k, now);
  }

  lemma LargeUnchangedFile(sha: Digest, b: Backup, r: Row, dest: Tree, now: Time)
    requires r.entry.kind == Regular && Unchanged(sha, b.disks, r) && TrueSize(sha, b.disks, r) && r.entry.size >= 0x8000_0000
    ensures Accept(sha, dest, Item(b.disks, r), now) == None
  {
    hide Accept, Item;
    LargeFileStopsRetrieve(sha, b, r, dest, now);
  }

  lemma SmallIsHealthy(sha: Digest, disks: map<Owner, Tree>, rows: Rows)
    requires SmallFiles(sha, disks, rows) && forall r :: r in rows ==> Named(r) && TrueSize(sha, disks, r)
    ensures forall r :: r in rows ==> Healthy(sha, disks, r)
  {
    hide Named, Unchanged;
    forall r | r in rows ensures Healthy(sha, disks, r) {
      if r.entry.kind == Regular && Unchanged(sha, disks, r) {
        SizeRoundTrip(r.entry.size);
      }
    }
  }

  /** Retrieving ends well if and only if every file that is sent is smaller than 2 GiB; and then it
      reproduces the backup. */
  lemma RetrieveSucceedsIff(sha: Digest, b: Backup, owners: seq<Owner>, n: nat, now: Time)
    requires n > 0 && forall i, j :: 0 <= i < j < |owners| ==> owners[i] != owners[j]
    requires forall o :: o in owners ==> HealthyOwner(b, o)
    requires forall r :: r in SelectAll(b.rows, owners) ==> Named(r) && TrueSize(sha, b.disks, r)
    ensures var rows := SelectAll(b.rows, owners);
            var r := Retrieving(sha, map[], WrittenAll(Items(sha, b.disks, rows), n) + [Answer(Ok(Retrieved))], now);
            && (r.Some? <==> SmallFiles(sha, b.disks, rows))
            && (r.Some? ==> Reproduced(sha, b.disks, rows, r.value))
  {
    hide Retrieving, HealthyOwner, Healthy, Named, TrueSize, SelectAll, WrittenAll, Items, Reproduced, Unchanged;
    var rows := SelectAll(b.rows, owners);
    if SmallFiles(sha, b.disks, rows) {
      SmallIsHealthy(sha, b.disks, rows);
      RetrieveReproduces(sha, b, owners, n, now);
    } else {
      var row :| row in rows && row.entry.kind == Regular && Unchanged(sha, b.disks, row) && row.entry.size >= 0x8000_0000;
      LargeFilesStop(sha, b, rows, n, now, row);
    }
  }

  // ------------------------------------------------------- what is dropped

  lemma {:induction false} OutdatedRows(sha: Digest, disks: map<Owner, Tree>, rows: Rows)
    ensures forall r :: r in Outdated(sha, disks, rows) <==> r in rows && !Unchanged(sha, disks, r)
  {
    hide Unchanged;
    if rows != [] {
      OutdatedRows(sha, disks, rows[1..]);
      assert forall r :: r in rows <==> r == rows[0] || r in rows[1..];
    }
  }

  lemma {:induction false} WithoutEffect(rows: Rows, gone: Rows, o: Owner)
    ensures View(Without(rows, gone), o) == View(rows, o) - set r | r in gone && r.owner == o :: r.path
    decreases |gone|
  {
    if gone != [] {
      var init, r := gone[..|gone| - 1], gone[|gone| - 1];
      assert gone == init + [r];
      WithoutEffect(rows, init, o);
      RemoveEffect(Without(rows, init), r.owner, r.path, o);
    }
  }

  /** Afterwards the table lists, for the owners asked for, exactly the elements that were sent. */
  lemma DroppedAreOutdated(sha: Digest, b: Backup, owners: seq<Owner>, o: Owner)
    requires forall i, j :: 0 <= i < j < |owners| ==> owners[i] != owners[j]
    requires forall x :: x in owners ==> Unique(b.rows, x)
    ensures var left := View(Without(b.rows, Outdated(sha, b.disks, SelectAll(b.rows, owners))), o);
            && (o !in owners ==> left == View(b.rows, o))
            && (o in owners ==>
                  left == map p | p in View(b.rows, o) && Unchanged(sha, b.disks, Row(o, p, View(b.rows, o)[p])) :: View(b.rows, o)[p])
  {
    hide Unchanged, View, Select, Unique;
    var toSend := SelectAll(b.rows, owners);
    var gone := Outdated(sha, b.disks, toSend);
    SelectAllIsKeyed(b.rows, owners);
    OutdatedRows(sha, b.disks, toSend);
    WithoutEffect(b.rows, gone, o);
    SelectIsView(b.rows, o);
    var v := View(b.rows, o);
    if o in owners {
      forall p | p in v
        ensures (exists r :: r in gone && r.owner == o && r.path == p) <==> !Unchanged(sha, b.disks, Row(o, p, v[p]))
      {
        assert Row(o, p, v[p]) in toSend;
      }
    }
  }
}
