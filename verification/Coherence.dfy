/** The three stores of the server stay in agreement, and recoverFromDB restores the agreement. */
module Coherence {
  import opened Base
  import opened Table
  import opened Validator
  import opened Server

  /** Equal but for the time, and equal outright for a file. */
  ghost predicate SameElement(a: Entry, b: Entry) {
    a.kind == b.kind && a.size == b.size && a.hash == b.hash && (a.kind == Regular ==> a.time == b.time)
  }

  /** What every handler keeps: one row per map entry, and each on disk with that entry's values.
      Only the time of a directory may differ: create_directories moves it behind the map's back. */
  ghost predicate Coherent(c: Session, s: Store) {
    && Closed(s.disk)
    && Unique(s.rows, c.owner)
    && View(s.rows, c.owner).Keys == s.elements.Keys
    && Matches(c, s.elements, s.disk)
  }

  ghost predicate Matches(c: Session, m: Catalogue, d: Tree) {
    forall p :: p in m ==> p in d && m[p].kind != Unsupported && SameElement(m[p], EntryOf(c.sha, d[p]))
  }

  /** Rows and map agree except that a row's time may lag behind. */
  ghost predicate RowsAgree(c: Session, s: Store) {
    forall p :: p in View(s.rows, c.owner) && p in s.elements ==>
      View(s.rows, c.owner)[p].(time := s.elements[p].time) == s.elements[p]
  }

  /** Directory times agree too. */
  ghost predicate TimesExact(c: Session, s: Store) {
    forall p :: p in s.elements && p in s.disk ==> s.elements[p].time == s.disk[p].time
  }

  /** Before the first command of a session the map is empty. */
  ghost predicate Fresh(s: Store) { s.recovered || s.elements == map[] }

  // ---------------------------------------------------------- recoverFromDB

  /** The read-back of a row tells the truth about the element now on disk. */
  ghost predicate ReadFaithful(c: Session, s: Store) {
    forall p :: p in View(s.rows, c.owner) && p in s.disk
      && ReadBack(View(s.rows, c.owner)[p]) == EntryOf(c.sha, s.disk[p])
      ==> View(s.rows, c.owner)[p] == EntryOf(c.sha, s.disk[p])
  }

  ghost predicate NoSpecial(c: Session, s: Store) {
    forall p :: p in View(s.rows, c.owner) && p in s.disk ==> !s.disk[p].Special?
  }

  lemma SelectedPaths(c: Session, s: Store)
    requires Unique(s.rows, c.owner)
    ensures forall p :: p in Gone(c, s) <==> p in View(s.rows, c.owner) && p !in s.disk
    ensures forall p :: p in Changed(c, s) <==>
              p in View(s.rows, c.owner) && p in s.disk
              && ReadBack(View(s.rows, c.owner)[p]) != EntryOf(c.sha, s.disk[p])
  {
    SelectIsView(s.rows, c.owner);
  }

  /** What the table holds after recovery. */
  lemma RecoveredView(c: Session, s: Store)
    requires Unique(s.rows, c.owner)
    ensures Unique(Recover(c, s).rows, c.owner)
    ensures View(Recover(c, s).rows, c.owner) ==
            map p | p in View(s.rows, c.owner) && p in s.disk ::
              if ReadBack(View(s.rows, c.owner)[p]) == EntryOf(c.sha, s.disk[p])
              then View(s.rows, c.owner)[p] else Stored(EntryOf(c.sha, s.disk[p]))
  {
    SelectedPaths(c, s);
    var m := OnDisk(c, s.disk, Changed(c, s));
    UpdateWithEffect(s.rows, c.owner, m, c.owner);
    RemoveSetEffect(UpdateWith(s.rows, c.owner, m), c.owner, Gone(c, s), c.owner);
  }

  /** Whatever happened to the disk while no session was open, recovery loads exactly the catalogued
      elements that still exist, as they are now; the three stores agree again, unless some catalogued
      path now holds an element that is neither a file nor a directory. */
  lemma RecoveryRestores(c: Session, s: Store)
    requires Closed(s.disk) && Unique(s.rows, c.owner) && s.elements == map[]
    ensures var r := Recover(c, s);
            && r.disk == s.disk
            && r.elements == OnDisk(c, s.disk, View(s.rows, c.owner).Keys)
            && (Coherent(c, r) <==> NoSpecial(c, s))
  {
    hide View, Unique, UpdateWith, RemoveSet, Changed, Gone, Ancestor;
    RecoveredView(c, s);
    if !NoSpecial(c, s) {
      var p :| p in View(s.rows, c.owner) && p in s.disk && s.disk[p].Special?;
      assert Recover(c, s).elements[p].kind == Unsupported;
    }
  }

  /** Rows are repaired as well, times included, unless a size that wrapped on the way back hid a change. */
  lemma RecoveryRepairsRows(c: Session, s: Store)
    requires Unique(s.rows, c.owner) && s.elements == map[] && NoSpecial(c, s)
    ensures var r := Recover(c, s); View(r.rows, c.owner) == r.elements <==> ReadFaithful(c, s)
  {
    RecoveredView(c, s);
    var r, v := Recover(c, s), View(s.rows, c.owner);
    forall p | p in v && p in s.disk
      ensures View(r.rows, c.owner)[p] == r.elements[p] <==>
              (ReadBack(v[p]) == EntryOf(c.sha, s.disk[p]) ==> v[p] == EntryOf(c.sha, s.disk[p]))
    {
      assert Stored(EntryOf(c.sha, s.disk[p])) == EntryOf(c.sha, s.disk[p]);
    }
  }

  /** Rows whose sizes are below 2^31 can always be trusted. */
  lemma SmallSizesAreFaithful(c: Session, s: Store)
    requires forall p :: p in View(s.rows, c.owner) ==> View(s.rows, c.owner)[p].size < 0x8000_0000
    ensures ReadFaithful(c, s)
  {
    forall p | p in View(s.rows, c.owner) ensures ReadBack(View(s.rows, c.owner)[p]) == View(s.rows, c.owner)[p] {
      SizeRoundTrip(View(s.rows, c.owner)[p].size);
    }
  }

  /** After any change of the folder while no session was open, to files and directories of any size, recovery
      restores the agreement of all three stores, times in rows included, for what a session had left. A
      size that wraps on the way back from the table hides nothing, because the hash is compared as well. */
  lemma RecoveryIsComplete(c: Session, s: Store, disk: Tree)
    requires Coherent(c, s) && RowsAgree(c, s)
    requires Closed(disk) && forall p :: p in disk ==> !disk[p].Special?
    requires InjectiveOn(c.sha, ContentsOf(s.disk) + ContentsOf(disk))
    ensures var r := Recover(c, Store(disk, s.rows, map[], false));
            Coherent(c, r) && View(r.rows, c.owner) == r.elements == OnDisk(c, disk, s.elements.Keys)
  {
    hide View, Unique, Recover, Closed;
    var t := Store(disk, s.rows, map[], false);
    RecoveryRestores(c, t);
    RecoveryRepairsRows(c, t);
    forall p | p in View(s.rows, c.owner) && p in disk && ReadBack(View(s.rows, c.owner)[p]) == EntryOf(c.sha, disk[p])
      ensures View(s.rows, c.owner)[p] == EntryOf(c.sha, disk[p])
    {
      RowIsTrue(c, s, disk, p);
    }
  }

  lemma RowIsTrue(c: Session, s: Store, disk: Tree, p: Path)
    requires Coherent(c, s) && RowsAgree(c, s) && p in disk && p in View(s.rows, c.owner)
    requires InjectiveOn(c.sha, ContentsOf(s.disk) + ContentsOf(disk))
    requires ReadBack(View(s.rows, c.owner)[p]) == EntryOf(c.sha, disk[p])
    ensures View(s.rows, c.owner)[p] == EntryOf(c.sha, disk[p])
  {
    hide View, Unique, Closed;
    var e := View(s.rows, c.owner)[p];
    assert e.(time := s.elements[p].time) == s.elements[p];
    if e.kind == Regular {
      assert s.disk[p].data in ContentsOf(s.disk) && disk[p].data in ContentsOf(disk);
    }
  }

  /** In an agreeing store a new session loads the same map, up to directory times read from disk. */
  lemma ReloadKeepsElements(c: Session, s: Store)
    requires Coherent(c, s)
    ensures var r := Recover(c, s.(elements := map[], recovered := false));
            && Coherent(c, r) && r.disk == s.disk && r.elements.Keys == s.elements.Keys
            && forall p :: p in s.elements ==> SameElement(r.elements[p], s.elements[p])
  {
    hide Recover;
    RecoveryRestores(c, s.(elements := map[], recovered := false));
  }

  // ------------------------------------------------------ directory creation

  lemma ParentsCreated(d: Tree, p: Path, now: Time)
    requires Closed(d) && !Blocked(d, p)
    ensures var e := EnsureParents(d, p, now);
            && Closed(e)
            && e.Keys == d.Keys + MissingParents(d, p)
            && (forall a :: Ancestor(a, p) ==> a in e && e[a].Folder?)
            && (forall q :: q in d && !Touched(d, p, q) ==> e[q] == d[q])
            && (forall q :: q in d && Touched(d, p, q) ==> d[q].Folder? && e[q] == Folder(now))
            && (forall q :: q in e && q !in d ==> Ancestor(q, p) && e[q] == Folder(now))
  {
    var e := EnsureParents(d, p, now);
    forall q, a | q in e && Ancestor(a, q) ensures a in e && e[a].Folder? {
      if q !in d {
        AncestorTransitive(a, q, p);
      }
    }
  }

  /** The directory whose time moves is the one in which the first missing parent is made. */
  lemma TouchedIsWhereItIsMade(d: Tree, p: Path, q: Path)
    requires Closed(d) && q in d && q != ""
    ensures Touched(d, p, q) <==> exists a :: a in MissingParents(d, p) && Parent(a) == q
  {
    if Touched(d, p, q) {
      var m :| m in MissingParents(d, p);
      var a := MadeIn(d, p, q, m);
      assert a in MissingParents(d, p) && Parent(a) == q;
    }
    forall a | a in MissingParents(d, p) && Parent(a) == q ensures Touched(d, p, q) {
      assert Ancestor(q, a);
      AncestorTransitive(q, a, p);
      forall b | b in AncestorsOf(p) && |b| > |q| ensures b !in d {
        if |b| <= |a| {
          AncestorsAreChained(b, a, p);
          if b != a {
            ParentIsNearest(b, a);
          }
        } else {
          AncestorsAreChained(a, b, p);
        }
      }
    }
  }

  lemma {:induction false} MadeIn(d: Tree, p: Path, q: Path, m: Path) returns (a: Path)
    requires Closed(d) && Touched(d, p, q) && m in MissingParents(d, p)
    ensures a in MissingParents(d, p) && Parent(a) == q
    decreases |m|
  {
    if |m| <= |q| {
      AncestorsAreChained(m, q, p);
    }
    AncestorsAreChained(q, m, p);
    ParentIsNearest(q, m);
    if Parent(m) == q {
      return m;
    }
    AncestorTransitive(Parent(m), m, p);
    a := MadeIn(d, p, q, Parent(m));
  }

  /** Putting an element under existing directories keeps a folder a folder, if it may sit there. */
  lemma ClosedPut(d: Tree, p: Path, n: Node)
    requires Closed(d)
    requires forall a :: Ancestor(a, p) ==> a in d && d[a].Folder?
    requires n.Folder? || forall q :: q in d ==> !Ancestor(p, q)
    ensures Closed(d[p := n])
  {
  }

  lemma ClosedCut(d: Tree, p: Path)
    requires Closed(d)
    ensures Closed(d - Doomed(d, p))
  {
    var e := d - Doomed(d, p);
    forall q, a | q in e && Ancestor(a, q) ensures a in e && e[a].Folder? {
      if a in Doomed(d, p) && a != p {
        AncestorTransitive(p, a, q);
      }
    }
  }

  // ------------------------------------------------------- handlers keep it

  /** Writing row and map entry together, after the disk changed at `p` and in directory times only. */
  lemma CataloguedKeeps(c: Session, s: Store, disk: Tree, p: Path, e: Entry)
    requires Coherent(c, s) && Closed(disk)
    requires p in disk && e == EntryOf(c.sha, disk[p]) && e.kind != Unsupported
    requires forall q :: q in s.elements && q != p ==> q in disk && SameElement(EntryOf(c.sha, s.disk[q]), EntryOf(c.sha, disk[q]))
    ensures var r := Catalogued(c, s, disk, p, e); Coherent(c, r) && (RowsAgree(c, s) ==> RowsAgree(c, r))
  {
    hide View, Unique, Update, Insert, Closed, SameElement, RowsAgree;
    hide Matches;
    CataloguedRows(c, s, disk, p, e);
    MatchesPut(c, s.elements, s.disk, disk, p, e);
    if RowsAgree(c, s) {
      CataloguedAgrees(c, s, disk, p, e);
    }
  }

  lemma MatchesPut(c: Session, m: Catalogue, before: Tree, after: Tree, p: Path, e: Entry)
    requires Matches(c, m, before)
    requires p in after && e == EntryOf(c.sha, after[p]) && e.kind != Unsupported
    requires forall q :: q in m && q != p ==> q in after && SameElement(EntryOf(c.sha, before[q]), EntryOf(c.sha, after[q]))
    ensures Matches(c, m[p := e], after)
  {
  }

  lemma CataloguedRows(c: Session, s: Store, disk: Tree, p: Path, e: Entry)
    requires Unique(s.rows, c.owner) && View(s.rows, c.owner).Keys == s.elements.Keys
    ensures var r := Catalogued(c, s, disk, p, e);
            Unique(r.rows, c.owner) && View(r.rows, c.owner) == View(s.rows, c.owner)[p := Stored(e)]
  {
    UpdateEffect(s.rows, c.owner, p, e, c.owner);
    InsertEffect(s.rows, c.owner, p, e, c.owner);
  }

  lemma CataloguedAgrees(c: Session, s: Store, disk: Tree, p: Path, e: Entry)
    requires Unique(s.rows, c.owner) && View(s.rows, c.owner).Keys == s.elements.Keys && RowsAgree(c, s) && Stored(e) == e
    ensures RowsAgree(c, Catalogued(c, s, disk, p, e))
  {
    hide View, Unique, Update, Insert;
    CataloguedRows(c, s, disk, p, e);
  }

  lemma ProbeKeeps(c: Session, s: Store, p: Path, time: Time, hash: Hash)
    requires Coherent(c, s)
    ensures var r := Probe(c, s, p, time, hash).store; Coherent(c, r) && (RowsAgree(c, s) ==> RowsAgree(c, r))
  {
    var r := Probe(c, s, p, time, hash).store;
    if r != s {
      assert s.disk[p].File?;
      forall q, a | q in r.disk && Ancestor(a, q) ensures a in r.disk && r.disk[a].Folder? {
        assert q in s.disk;
      }
    }
  }

  lemma StoreFileKeeps(c: Session, s: Store, p: Path, size: nat, time: Time, hash: Hash, data: Bytes, now: Time)
    requires Coherent(c, s)
    ensures var r := StoreFile(c, s, p, size, time, hash, data, now).store;
            Coherent(c, r) && (RowsAgree(c, s) ==> RowsAgree(c, r))
  {
    var r := StoreFile(c, s, p, size, time, hash, data, now).store;
    if r != s {
      ParentsCreated(s.disk, p, now);
      var e := EnsureParents(s.disk, p, now);
      forall q | q in e ensures !Ancestor(p, q) {
        if Ancestor(p, q) && q !in s.disk {
          assert false;
        }
      }
      ClosedPut(e, p, File(data, time));
      CataloguedKeeps(c, s, r.disk, p, Entry(Regular, size, time, hash));
    }
  }

  lemma RemoveFileKeeps(c: Session, s: Store, p: Path, hash: Hash)
    requires Coherent(c, s)
    ensures var r := RemoveFile(c, s, p, hash).store; Coherent(c, r) && (RowsAgree(c, s) ==> RowsAgree(c, r))
  {
    RemoveEffect(s.rows, c.owner, p, c.owner);
    var out := RemoveFile(c, s, p, hash);
    if out.replies == [Ok(Removed)] {
      assert s.disk[p].File?;
      forall q, a | q in out.store.disk && Ancestor(a, q) ensures a in out.store.disk && out.store.disk[a].Folder? {
        assert q in s.disk;
      }
    }
  }

  lemma MakeDirKeeps(c: Session, s: Store, p: Path, time: Time, now: Time)
    requires Coherent(c, s)
    ensures var r := MakeDir(c, s, p, time, now).store; Coherent(c, r) && (RowsAgree(c, s) ==> RowsAgree(c, r))
  {
    var r := MakeDir(c, s, p, time, now).store;
    if r != s {
      var d := s.disk;
      if p !in s.disk {
        ParentsCreated(s.disk, p, now);
        d := EnsureParents(s.disk, p, now);
      }
      ClosedPut(d, p, Folder(time));
      CataloguedKeeps(c, s, r.disk, p, Entry(Directory, 0, time, ZERO_HASH));
    }
  }

  lemma RemoveDirKeeps(c: Session, s: Store, p: Path)
    requires Coherent(c, s)
    ensures var r := RemoveDir(c, s, p).store; Coherent(c, r) && (RowsAgree(c, s) ==> RowsAgree(c, r))
  {
    RemoveSetEffect(s.rows, c.owner, Doomed(s.disk, p), c.owner);
    ClosedCut(s.disk, p);
  }

  // ------------------------------------------------ a folder stays a folder

  lemma {:induction false} ParentMissing(d: Tree, p: Path)
    requires Closed(d)
    ensures Parent(p) != "" ==> Ancestor(Parent(p), p)
    ensures MissingParents(d, p) == {} <==> Parent(p) == "" || Parent(p) in d
    ensures p in d && Parent(p) != "" ==> Parent(p) in d && d[Parent(p)].Folder?
  {
    if MissingParents(d, p) != {} {
      var a :| a in MissingParents(d, p);
      ParentIsNearest(a, p);
    } else {
      assert Parent(p) !in MissingParents(d, p);
    }
  }

  /** Independently of the catalogue, every command leaves a real folder behind. */
  lemma DispatchClosed(c: Session, s: Store, k: Command, p: Path, now: Time)
    requires Closed(s.disk)
    ensures Closed(Dispatch(c, s, k, p, now).store.disk)
  {
    hide EnsureParents, Blocked, Insert, Update, Remove, RemoveSet, EntryOf;
    var out := Dispatch(c, s, k, p, now);
    match k
    case Rmd(_) => ClosedCut(s.disk, p);
    case Stor(_, _, time, _, data) =>
      if out.replies[0].Ok? {
        ParentsCreated(s.disk, p, now);
        ClosedPut(EnsureParents(s.disk, p, now), p, File(data, time));
      }
    case Mkd(_, time) =>
      if p in s.disk {
        ClosedPut(s.disk, p, Folder(time));
      } else if out.replies[0].Ok? {
        ParentsCreated(s.disk, p, now);
        ClosedPut(EnsureParents(s.disk, p, now), p, Folder(time));
      }
    case _ =>
      forall q | q in out.store.disk ensures q in s.disk {}
  }
}
