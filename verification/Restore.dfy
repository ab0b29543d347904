/** A retrieval from end to end: whose elements are asked for, what arrives, and with which times. */
module Restore {
  import opened Base
  import opened Table
  import opened Validator
  import opened Server
  import opened Coherence
  import opened Guarantees
  import opened Transfer
  import opened Wire
  import opened Mac
  import opened Locate
  import opened Retrieve
  import opened RowTimes

  // --------------------------------------------------------- who is asked for

  /** The text is six groups of at most two hexadecimal digits. */
  predicate IsAddress(mac: string) { |Split(Lower(mac))| == 6 && Groups(Split(Lower(mac))) }

  /** Another spelling of the same six bytes, `mac` being the canonical one. */
  predicate SameMachine(text: string, mac: string) {
    IsAddress(text) && ValidateMac(mac) == Some(mac) && IsAddress(mac)
    && Values(Split(Lower(text))) == Values(Split(Lower(mac)))
  }

  /** The user on all machines, or on the one that is named. */
  predicate Wanted(user: string, mac: string, all: bool, o: Owner) {
    o.user == user && (all || SameMachine(mac, o.mac))
  }

  /** A request that names no machine, or something that is no address, is refused. A request for all means
      every machine from which the user has something in the table, each once; one for a machine means that
      machine, however its address is spelled. */
  lemma AskedMeans(rows: Rows, user: string, mac: string, all: bool)
    ensures var a := Asked(rows, user, mac, all);
            && (a.NoMachine? <==> !all && mac == "")
            && (a.Malformed? <==> !all && mac != "" && !IsAddress(mac))
            && (a.Owners? ==>
                  && (forall i, j :: 0 <= i < j < |a.owners| ==> a.owners[i] != a.owners[j])
                  && (forall o :: o in a.owners <==> Wanted(user, mac, all, o) && (all ==> View(rows, o) != map[])))
  {
    hide ValidateMac, MacsOf, View;
    var a := Asked(rows, user, mac, all);
    CanonicalForm(mac);
    if all {
      AllMachines(rows, user);
    } else if mac != "" && IsAddress(mac) {
      forall o: Owner | o.user == user ensures o in a.owners <==> SameMachine(mac, o.mac) {
        OneMachine(mac, o.mac);
      }
    }
  }

  lemma AllMachines(rows: Rows, user: string)
    ensures var a := Asked(rows, user, "", true);
            && (forall i, j :: 0 <= i < j < |a.owners| ==> a.owners[i] != a.owners[j])
            && (forall o :: o in a.owners <==> o.user == user && View(rows, o) != map[])
  {
    hide View, MacsOf;
    MacsAreDistinct(rows, user);
    var macs, os := MacsOf(rows, user), Asked(rows, user, "", true).owners;
    assert forall i :: 0 <= i < |os| ==> os[i].user == user && os[i].mac == macs[i] && macs[i] in macs;
    forall o: Owner | o.user == user && View(rows, o) != map[] ensures o in os {
      assert o == Owner(user, o.mac) && o.mac in macs;
      var i :| 0 <= i < |macs| && macs[i] == o.mac;
      assert os[i] == o;
    }
  }

  lemma OneMachine(text: string, mac: string)
    requires IsAddress(text)
    ensures ValidateMac(text) == Some(mac) <==> SameMachine(text, mac)
  {
    hide ValidateMac, Values;
    CanonicalForm(text);
    CanonicalForm(mac);
    SameBytesSameForm(text, text);
    if ValidateMac(mac).Some? {
      SameBytesSameForm(text, mac);
    }
  }

  // ------------------------------------------------------------ what is meant

  lemma {:induction false} SelectIsFilter(rows: Rows, o: Owner)
    ensures forall r :: r in Select(rows, o) <==> r in rows && r.owner == o
  {
    if rows != [] {
      SelectIsFilter(rows[1..], o);
    }
  }

  /** The rows a request means. */
  function WantedRows(rows: Rows, user: string, mac: string, all: bool): (rs: Rows)
    ensures forall r :: r in rs <==> r in rows && Wanted(user, mac, all, r.owner)
  {
    if rows == [] then []
    else (if Wanted(user, mac, all, rows[0].owner) then [rows[0]] else []) + WantedRows(rows[1..], user, mac, all)
  }

  lemma RowIsInView(rows: Rows, r: Row)
    requires r in rows
    ensures View(rows, r.owner) != map[]
  {
    SelectIsFilter(rows, r.owner);
    SelectIsView(rows, r.owner);
    assert r in Select(rows, r.owner);
  }

  /** What the server collects is what is meant. */
  lemma CollectedAreWanted(rows: Rows, user: string, mac: string, all: bool)
    requires Asked(rows, user, mac, all).Owners?
    ensures var owners := Asked(rows, user, mac, all).owners;
            forall r :: r in SelectAll(rows, owners) <==> r in WantedRows(rows, user, mac, all)
  {
    hide Wanted, Asked, View, WantedRows;
    AskedMeans(rows, user, mac, all);
    var owners := Asked(rows, user, mac, all).owners;
    SelectAllMembers(rows, owners);
    forall r | r in rows ensures View(rows, r.owner) != map[] {
      RowIsInView(rows, r);
    }
  }

  lemma {:induction false} SelectAllMembers(rows: Rows, owners: seq<Owner>)
    ensures forall r :: r in SelectAll(rows, owners) <==> r in rows && r.owner in owners
    decreases |owners|
  {
    if owners != [] {
      hide Select;
      SelectIsFilter(rows, owners[0]);
      SelectAllMembers(rows, owners[1..]);
      assert forall o :: o in owners <==> o == owners[0] || o in owners[1..];
    }
  }

  lemma SameMembers(sha: Digest, disks: map<Owner, Tree>, a: Rows, b: Rows, dest: Tree)
    requires forall r :: r in a <==> r in b
    ensures SmallFiles(sha, disks, a) <==> SmallFiles(sha, disks, b)
    ensures Reproduced(sha, disks, a, dest) ==> Reproduced(sha, disks, b, dest)
  {
    hide Unchanged, Root, IsOrHolds;
  }

  /** The program's own way to the folder: the request goes to the server, and what it writes to the client. The
      retrieval ends on OK(retrieved) if and only if the request makes sense and every file that is sent is
      smaller than 2 GiB; and then the destination reproduces what was asked for, from every machine meant. */
  method RetrieveFor(sha: Digest, chunk: nat, b: Backup, user: string, mac: string, all: bool, now: Time)
    returns (done: bool, dest: Tree)
    requires chunk > 0
    requires forall o :: Wanted(user, mac, all, o) && (all ==> View(b.rows, o) != map[]) ==> HealthyOwner(b, o)
    requires forall r :: r in WantedRows(b.rows, user, mac, all) ==> Named(r) && TrueSize(sha, b.disks, r)
    ensures done <==> (all || IsAddress(mac)) && SmallFiles(sha, b.disks, WantedRows(b.rows, user, mac, all))
    ensures done ==> Reproduced(sha, b.disks, WantedRows(b.rows, user, mac, all), dest)
  {
    hide Wanted, IsAddress, Asked, View, WantedRows, HealthyOwner, Named, TrueSize, SmallFiles, Reproduced, Retrieving;
    hide Items, WrittenAll, SelectAll, Outdated, Without;
    AskedMeans(b.rows, user, mac, all);
    NoAddress();
    var server := new RetrieveServer(sha, chunk, b.disks, b.rows);
    server.RetrieveUserData(user, mac, all);
    var client := new RetrieveClient(sha);
    done := client.RetrieveFiles(server.sent, now);
    dest := client.dest;
    ghost var asked := Asked(b.rows, user, mac, all);
    RefusalEndsIt(sha, now);
    if asked.Owners? {
      ghost var rows := SelectAll(b.rows, asked.owners);
      CollectedAreWanted(b.rows, user, mac, all);
      RetrieveSucceedsIff(sha, b, asked.owners, chunk, now);
      SameMembers(sha, b.disks, rows, WantedRows(b.rows, user, mac, all), dest);
      assert server.sent == WrittenAll(Items(sha, b.disks, rows), chunk) + [Answer(Ok(Retrieved))];
    }
  }

  lemma NoAddress()
    ensures !IsAddress("")
  {
    assert Lower("") == "";
  }

  lemma RefusalEndsIt(sha: Digest, now: Time)
    ensures Retrieving(sha, map[], [], now) == None
    ensures Retrieving(sha, map[], [] + [Answer(Err(RetrieveFailed))], now) == None
  {
    assert [] + [Answer(Err(RetrieveFailed))] == [Answer(Err(RetrieveFailed))];
  }

  // --------------------------------------------------------- from session to restoration

  /** A file whose row is up to date comes back just as the server has it, time included. */
  lemma RestoredExactly(c: Session, s: Store, late: set<Path>, disks: map<Owner, Tree>, rows: Rows, dest: Tree, r: Row)
    requires Coherent(c, s) && UpToDate(c, s, late) && DiskOf(disks, c.owner) == s.disk
    requires r in Select(s.rows, c.owner) && r.entry.kind == Regular && r.path !in late
    requires r in rows && Unchanged(c.sha, disks, r) && Reproduced(c.sha, disks, rows, dest)
    ensures var q := Root(c.owner) + r.path; q in dest && r.path in s.disk && dest[q] == s.disk[r.path]
  {
    hide View, Select, Unique, Closed, Root, IsOrHolds;
    SelectIsView(s.rows, c.owner);
    assert View(s.rows, c.owner)[r.path] == s.elements[r.path];
  }

  /** What a session has stored comes back. After any commands of an owner, and a retrieval that ends well, each
      catalogued file is there with the content the server has, and with its time too, unless a PROB has
      changed that time since the file was stored: then with the time it was stored with. */
  lemma SessionComesBack(c: Session, s: Store, rs: seq<Request>, late: set<Path>, disks: map<Owner, Tree>,
                         rows: Rows, dest: Tree, p: Path)
    requires Ready(c, s) && UpToDate(c, Live(c, s), late) && RowsAgree(c, Live(c, s))
    requires var t := Live(c, Run(c, s, rs));
             && DiskOf(disks, c.owner) == t.disk
             && p in View(t.rows, c.owner) && View(t.rows, c.owner)[p].kind == Regular
             && Row(c.owner, p, View(t.rows, c.owner)[p]) in rows
    requires Reproduced(c.sha, disks, rows, dest)
    ensures var t, q := Live(c, Run(c, s, rs)), Root(c.owner) + p;
            && q in dest && dest[q].File? && p in t.disk && t.disk[p].File? && dest[q].data == t.disk[p].data
            && dest[q].time == View(t.rows, c.owner)[p].time
            && (p !in LateIn(c, s, late, rs) ==> dest[q] == t.disk[p])
  {
    hide View, Coherent, Run, Live, UpToDate, RowsAgree, LateIn, Root, Reproduced;
    RunKeeps(c, s, rs);
    RunUpToDate(c, s, rs, late);
    var t := Live(c, Run(c, s, rs));
    var r := Row(c.owner, p, View(t.rows, c.owner)[p]);
    SelectIsView(t.rows, c.owner);
    FileRow(c, t, disks, p);
    FileOfRow(c.sha, disks, rows, dest, r);
    if p !in LateIn(c, s, late, rs) {
      RestoredExactly(c, t, LateIn(c, s, late, rs), disks, rows, dest, r);
    }
  }

  lemma FileRow(c: Session, t: Store, disks: map<Owner, Tree>, p: Path)
    requires Coherent(c, t) && RowsAgree(c, t) && DiskOf(disks, c.owner) == t.disk
    requires p in View(t.rows, c.owner) && View(t.rows, c.owner)[p].kind == Regular
    ensures p in t.disk && t.disk[p].File? && Unchanged(c.sha, disks, Row(c.owner, p, View(t.rows, c.owner)[p]))
  {
    hide View, Unique, Closed;
    var e := View(t.rows, c.owner)[p];
    assert e.(time := t.elements[p].time) == t.elements[p];
  }

  lemma FileOfRow(sha: Digest, disks: map<Owner, Tree>, rows: Rows, dest: Tree, r: Row)
    requires r in rows && r.entry.kind == Regular && Unchanged(sha, disks, r) && Reproduced(sha, disks, rows, dest)
    ensures var q := Root(r.owner) + r.path;
            && q in dest && r.path in DiskOf(disks, r.owner) && DiskOf(disks, r.owner)[r.path].File?
            && dest[q] == File(DiskOf(disks, r.owner)[r.path].data, r.entry.time)
  {
    hide Root, IsOrHolds;
  }

  // ----------------------------------------------------------- one item at a time

  /** What the client accepts while retrieving, and what that does: nothing whose content is not what was
      announced, nothing where something else is, and no file right below the destination. Elsewhere only
      missing directories on the way appear, and one of those that are there may get a new time. */
  lemma AcceptMeans(sha: Digest, dest: Tree, k: Command, now: Time, p: Path)
    requires Closed(dest) && ValidatePath(k.path) == Some(p) && (k.Stor? || k.Mkd?)
    ensures var a := Accept(sha, dest, k, now);
            && (a.Some? <==>
                  && ValidTime(k.time) && !Blocked(dest, p)
                  && (k.Stor? ==> |k.data| == k.size && sha(k.data) == k.hash && Parent(p) != ""
                                  && !(p in dest && dest[p].Folder?))
                  && (k.Mkd? ==> !(p in dest && !dest[p].Folder?)))
            && (a.Some? ==>
                  && Closed(a.value) && p in a.value
                  && a.value[p] == (if k.Stor? then File(k.data, k.time) else Folder(k.time))
                  && forall q :: q != p ==>
                       Get(a.value, q) == Get(dest, q)
                       || (Ancestor(q, p) && Get(a.value, q) == Some(Folder(now)) && !(q in dest && !dest[q].Folder?)))
  {
    hide EnsureParents, ValidatePath, ValidTime, Parent, Ancestor, Blocked;
    if p in dest {
      PresentIsFree(dest, p);
    }
    if Accept(sha, dest, k, now).Some? {
      ParentsCreated(dest, p, now);
      if k.Mkd? && p in dest {
        ClosedPut(dest, p, Folder(k.time));
      } else {
        NothingBelow(dest, p, now);
        ClosedPut(EnsureParents(dest, p, now), p, if k.Stor? then File(k.data, k.time) else Folder(k.time));
      }
    }
  }

  lemma PresentIsFree(dest: Tree, p: Path)
    requires Closed(dest) && p in dest
    ensures !Blocked(dest, p) && forall a :: Ancestor(a, p) ==> a in dest && dest[a].Folder?
  {
  }

  lemma NothingBelow(dest: Tree, p: Path, now: Time)
    requires Closed(dest) && !Blocked(dest, p) && (p !in dest || !dest[p].Folder?)
    ensures forall q :: q in EnsureParents(dest, p, now) ==> !Ancestor(p, q)
  {
    hide EnsureParents, Blocked, Touched;
    ParentsCreated(dest, p, now);
  }

  /** A file is not sent, and leaves the table, if and only if it has gone or has another hash; a directory only if
      nothing of its name is left, be it a file by now. */
  lemma OmittedIff(sha: Digest, disks: map<Owner, Tree>, r: Row)
    ensures var d, p, missing := DiskOf(disks, r.owner), r.path, r.path !in DiskOf(disks, r.owner);
            var other := p in d && r.entry.kind == Regular
                         && (if d[p].File? then sha(d[p].data) != r.entry.hash else r.entry.hash != ZERO_HASH);
            && (Items(sha, disks, [r]) == [] <==> missing || other)
            && (Outdated(sha, disks, [r]) == [r] <==> missing || other)
  {
    assert [r][1..] == [];
  }

  // ------------------------------------------------------------ how it can end

  /** The server's word that all has been sent, or the beginning of another item. */
  predicate Expected(m: Message) { m == Answer(Ok(Retrieved)) || (m.Order? && (m.command.Mkd? || m.command.Stor?)) }

  /** After any number of items only the server's word ends a retrieval well: not the end of the connection, not
      an error, another OK or a message out of place, and not a file that breaks off. */
  lemma OnlyItsWordEndsIt(sha: Digest, dest: Tree, ks: seq<Command>, n: nat, rest: seq<Message>, now: Time)
    requires n > 0 && (forall k :: k in ks ==> k.Mkd? || k.Stor?) && (rest != [] ==> !Expected(rest[0]))
    ensures Retrieving(sha, dest, WrittenAll(ks, n) + rest, now) == None
  {
    hide AcceptAll, WrittenAll, Accept;
    ItemsFirst(sha, dest, ks, n, rest, now);
  }

  lemma BrokenFileEndsIt(sha: Digest, dest: Tree, ks: seq<Command>, k: Command, n: nat, i: nat, rest: seq<Message>, now: Time)
    requires n > 0 && (forall k :: k in ks ==> k.Mkd? || k.Stor?) && k.Stor? && i < |Blocks(k.data, n)|
    requires rest != [] ==> !rest[0].Data?
    ensures Retrieving(sha, dest, WrittenAll(ks, n) + ([Order(k)] + Blocks(k.data, n)[..i] + rest), now) == None
  {
    hide AcceptAll, WrittenAll, Accept, TakeRun, Blocks;
    var inbox := [Order(k)] + Blocks(k.data, n)[..i] + rest;
    ItemsFirst(sha, dest, ks, n, inbox, now);
    assert inbox[1..] == Blocks(k.data, n)[..i] + rest;
    BrokenRun(k.data, n, i, rest);
  }
}
