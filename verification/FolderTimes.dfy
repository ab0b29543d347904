/** Which times the directories of a retrieved backup have: making a missing directory inside another one
    changes the time that one was given before. */
module FolderTimes {
  import opened Base
  import opened Table
  import opened Validator
  import opened Server
  import opened Coherence
  import opened Transfer
  import opened Wire
  import opened Mac
  import opened Retrieve

  /** The path was there after the first `n` items: as one of them, or on the way to one of them. */
  ghost predicate Made(ks: seq<Command>, n: nat, a: Path)
    requires n <= |ks|
  {
    exists m :: 0 <= m < n && Covers(a, ks[m].path)
  }

  predicate Covers(a: Path, p: Path) { a == p || Ancestor(a, p) }

  predicate Between(q: Path, a: Path, p: Path) { Ancestor(q, a) && Ancestor(a, p) }

  /** Item `j` is the first below its directory inside `q`, and comes before that directory. */
  ghost predicate Ages(ks: seq<Command>, j: nat, q: Path)
    requires j < |ks|
  {
    && (exists a :: Between(q, a, ks[j].path))
    && (forall a :: Between(q, a, ks[j].path) ==> !Made(ks, j, a))
  }

  ghost predicate Aged(ks: seq<Command>, i: nat, n: nat, q: Path)
    requires n <= |ks|
  {
    exists j :: i < j < n && Ages(ks, j, q)
  }

  ghost predicate LastAt(ks: seq<Command>, i: nat, n: nat)
    requires i < n <= |ks|
  {
    forall m :: i < m < n ==> ks[m].path != ks[i].path
  }

  ghost predicate KeysAre(dest: Tree, ks: seq<Command>, n: nat)
    requires n <= |ks|
  {
    Closed(dest) && forall a :: a in dest <==> Made(ks, n, a)
  }

  /** Each directory has the time of its item, or the current time if a later item has aged it. */
  ghost predicate Timed(dest: Tree, ks: seq<Command>, n: nat, now: Time)
    requires n <= |ks|
  {
    forall i :: 0 <= i < n && ks[i].Mkd? && LastAt(ks, i, n) ==>
      ks[i].path in dest && dest[ks[i].path].time == if Aged(ks, i, n, ks[i].path) then now else ks[i].time
  }

  lemma BetweenIsAncestor(q: Path, a: Path, p: Path)
    requires Between(q, a, p)
    ensures Ancestor(q, p)
  {
    AncestorTransitive(q, a, p);
  }

  lemma TouchedIsAged(dest: Tree, ks: seq<Command>, j: nat, q: Path)
    requires j < |ks| && KeysAre(dest, ks, j) && q in dest
    ensures Touched(dest, ks[j].path, q) <==> Ages(ks, j, q)
  {
    hide Ancestor, Made;
    var p := ks[j].path;
    if Touched(dest, p, q) {
      var a :| a in MissingParents(dest, p);
      MissingIsBetween(dest, q, a, p);
      forall b | Between(q, b, p) ensures !Made(ks, j, b) {
        LongerBetween(q, b, p);
      }
    }
    if Ages(ks, j, q) {
      var a :| Between(q, a, p);
      BetweenIsAncestor(q, a, p);
      assert a in MissingParents(dest, p);
      forall b | b in AncestorsOf(p) && |b| > |q| ensures b !in dest {
        LongIsBetween(q, b, p);
      }
    }
  }

  lemma MissingIsBetween(dest: Tree, q: Path, a: Path, p: Path)
    requires Closed(dest) && q in dest && Ancestor(q, p) && Ancestor(a, p) && a !in dest
    ensures Between(q, a, p)
  {
    if |a| <= |q| {
      AncestorsAreChained(a, q, p);
    } else {
      AncestorsAreChained(q, a, p);
    }
  }

  lemma LongerBetween(q: Path, a: Path, p: Path)
    requires Between(q, a, p)
    ensures a in AncestorsOf(p) && |a| > |q|
  {
  }

  lemma LongIsBetween(q: Path, a: Path, p: Path)
    requires Ancestor(q, p) && Ancestor(a, p) && |a| > |q|
    ensures Between(q, a, p)
  {
    AncestorsAreChained(q, a, p);
  }

  lemma KeysStep(dest: Tree, ks: seq<Command>, n: nat, d: Tree)
    requires n < |ks| && KeysAre(dest, ks, n) && Closed(d)
    requires d.Keys == dest.Keys + MissingParents(dest, ks[n].path) + {ks[n].path}
    ensures KeysAre(d, ks, n + 1)
  {
    hide Ancestor;
    forall a ensures Made(ks, n + 1, a) <==> Made(ks, n, a) || Covers(a, ks[n].path) {
      if Made(ks, n + 1, a) {
        var m :| 0 <= m < n + 1 && Covers(a, ks[m].path);
        assert m < n || m == n;
      }
      if Covers(a, ks[n].path) {
        assert 0 <= n < n + 1;
      }
    }
  }

  lemma TimedStep(dest: Tree, ks: seq<Command>, n: nat, d: Tree, now: Time)
    requires n < |ks| && Timed(dest, ks, n, now) && (forall i :: 0 <= i < n ==> ks[i].path in dest)
    requires ks[n].path in d && (ks[n].Mkd? ==> d[ks[n].path].time == ks[n].time)
    requires forall q :: q in dest && q != ks[n].path ==> q in d && d[q].time == if Ages(ks, n, q) then now else dest[q].time
    ensures Timed(d, ks, n + 1, now)
  {
    hide Ages;
    forall i | 0 <= i < n + 1 && ks[i].Mkd? && LastAt(ks, i, n + 1)
      ensures ks[i].path in d && d[ks[i].path].time == if Aged(ks, i, n + 1, ks[i].path) then now else ks[i].time
    {
      AgedStep(ks, i, n, ks[i].path);
      if i < n {
        assert LastAt(ks, i, n) && ks[n].path != ks[i].path;
      }
    }
  }

  lemma AgedStep(ks: seq<Command>, i: nat, n: nat, q: Path)
    requires i <= n < |ks|
    ensures Aged(ks, i, n + 1, q) <==> Aged(ks, i, n, q) || (i < n && Ages(ks, n, q))
  {
    hide Ages;
    if Aged(ks, i, n + 1, q) {
      var j :| i < j < n + 1 && Ages(ks, j, q);
      assert j < n || j == n;
    }
  }

  /** What accepting an item comes to: the missing directories, and the element itself. */
  lemma AcceptIs(sha: Digest, dest: Tree, k: Command, now: Time)
    requires Closed(dest) && Valid(k) && (k.Stor? || k.Mkd?) && Accept(sha, dest, k, now).Some?
    ensures !Blocked(dest, k.path)
    ensures Accept(sha, dest, k, now).value
            == EnsureParents(dest, k.path, now)[k.path := if k.Stor? then File(k.data, k.time) else Folder(k.time)]
  {
    hide EnsureParents, ValidatePath, ValidTime, Parent, Blocked;
    if k.path in dest {
      PresentIsReached(dest, k.path, now);
    }
  }

  lemma PresentIsReached(dest: Tree, p: Path, now: Time)
    requires Closed(dest) && p in dest
    ensures !Blocked(dest, p) && EnsureParents(dest, p, now) == dest
  {
    assert MissingParents(dest, p) == {};
  }

  lemma ItemsArePresent(dest: Tree, ks: seq<Command>, n: nat)
    requires n <= |ks| && KeysAre(dest, ks, n)
    ensures Closed(dest) && forall i :: 0 <= i < n ==> ks[i].path in dest
  {
    hide Ancestor, Closed;
    forall i | 0 <= i < n ensures ks[i].path in dest {
      assert Covers(ks[i].path, ks[i].path);
    }
  }

  /** One item accepted. */
  lemma AcceptTimed(sha: Digest, dest: Tree, ks: seq<Command>, n: nat, now: Time)
    requires n < |ks| && KeysAre(dest, ks, n) && Timed(dest, ks, n, now) && Valid(ks[n]) && (ks[n].Stor? || ks[n].Mkd?)
    requires Accept(sha, dest, ks[n], now).Some? && Closed(Accept(sha, dest, ks[n], now).value)
    ensures var d := Accept(sha, dest, ks[n], now).value; KeysAre(d, ks, n + 1) && Timed(d, ks, n + 1, now)
  {
    hide Accept, Valid, EnsureParents, Blocked, MissingParents, Ages, Timed, KeysAre;
    var p, d := ks[n].path, Accept(sha, dest, ks[n], now).value;
    ItemsArePresent(dest, ks, n);
    AcceptIs(sha, dest, ks[n], now);
    AgedOnTheWay(dest, ks, n, now);
    KeysStep(dest, ks, n, d);
    TimedStep(dest, ks, n, d, now);
  }

  /** Making the missing directories ages exactly what it is said to age. */
  lemma AgedOnTheWay(dest: Tree, ks: seq<Command>, n: nat, now: Time)
    requires n < |ks| && KeysAre(dest, ks, n) && !Blocked(dest, ks[n].path)
    ensures var e := EnsureParents(dest, ks[n].path, now);
            && e.Keys == dest.Keys + MissingParents(dest, ks[n].path)
            && forall q :: q in dest ==> e[q].time == if Ages(ks, n, q) then now else dest[q].time
  {
    hide EnsureParents, Touched, Ages, Blocked, Made;
    ParentsCreated(dest, ks[n].path, now);
    forall q | q in dest ensures Touched(dest, ks[n].path, q) <==> Ages(ks, n, q) {
      TouchedIsAged(dest, ks, n, q);
    }
  }

  lemma {:induction false} PlanIsTimed(sha: Digest, dest: Tree, ks: seq<Command>, n: nat, now: Time)
    requires n <= |ks| && Plan(sha, ks) && Holds(dest, ks[..n]) && KeysAre(dest, ks, n) && Timed(dest, ks, n, now)
    ensures var a := AcceptAll(sha, dest, ks[n..], now); a.Some? && Timed(a.value, ks, |ks|, now)
    decreases |ks| - n
  {
    hide Accept, Timed, KeysAre, Holds, Plan, Sound, Apart;
    if n < |ks| {
      NextOfPlan(sha, ks, n);
      AcceptItem(sha, dest, ks[..n], ks[n], now);
      var d := Accept(sha, dest, ks[n], now).value;
      assert ks[..n] + [ks[n]] == ks[..n + 1];
      HoldsIsClosed(d, ks[..n + 1]);
      AcceptTimed(sha, dest, ks, n, now);
      assert ks[n..][0] == ks[n] && ks[n..][1..] == ks[n + 1..];
      PlanIsTimed(sha, d, ks, n + 1, now);
    } else {
      assert ks[n..] == [];
    }
  }

  lemma NextOfPlan(sha: Digest, ks: seq<Command>, n: nat)
    requires Plan(sha, ks) && n < |ks|
    ensures Sound(sha, ks[n]) && Valid(ks[n]) && (ks[n].Stor? || ks[n].Mkd?)
    ensures forall d :: d in ks[..n] ==> Apart(d, ks[n])
  {
    hide Apart, Valid, Parent;
    assert ks[n] in ks && Sound(sha, ks[n]);
    forall d | d in ks[..n] ensures Apart(d, ks[n]) {
      var i :| 0 <= i < n && ks[..n][i] == d;
    }
  }

  lemma HoldsIsClosed(dest: Tree, ks: seq<Command>)
    requires Holds(dest, ks)
    ensures Closed(dest)
  {
  }

  /** A directory that is sent has the time of its row afterwards, unless an item after it was the first below
      one of its subdirectories that had not been sent yet: then it has the time of the retrieval. */
  lemma RetrievedFolderTimes(sha: Digest, b: Backup, owners: seq<Owner>, n: nat, now: Time, i: nat)
    requires n > 0 && forall i, j :: 0 <= i < j < |owners| ==> owners[i] != owners[j]
    requires forall o :: o in owners ==> HealthyOwner(b, o)
    requires forall r :: r in SelectAll(b.rows, owners) ==> Healthy(sha, b.disks, r)
    requires i < |Items(sha, b.disks, SelectAll(b.rows, owners))|
    requires Items(sha, b.disks, SelectAll(b.rows, owners))[i].Mkd?
    ensures var ks := Items(sha, b.disks, SelectAll(b.rows, owners));
            var r := Retrieving(sha, map[], WrittenAll(ks, n) + [Answer(Ok(Retrieved))], now);
            && r.Some? && ks[i].path in r.value
            && r.value[ks[i].path].time == if Aged(ks, i, |ks|, ks[i].path) then now else ks[i].time
  {
    hide Retrieving, HealthyOwner, Healthy, Root, Select, SelectAll, WrittenAll, Items, Plan, Unique, Aged, AcceptAll;
    var rows := SelectAll(b.rows, owners);
    HealthyIsUnique(b, owners);
    SelectAllIsKeyed(b.rows, owners);
    ItemsArePlan(sha, b, rows);
    ItemsAreDistinct(sha, b, rows);
    var ks := Items(sha, b.disks, rows);
    PlanIsReproduced(sha, ks, n, now);
    assert ks[..0] == [] && ks[0..] == ks;
    NothingYet(ks, now);
    PlanIsTimed(sha, map[], ks, 0, now);
  }

  lemma NothingYet(ks: seq<Command>, now: Time)
    ensures Holds(map[], []) && KeysAre(map[], ks, 0) && Timed(map[], ks, 0, now)
  {
  }

  ghost predicate DistinctPaths(ks: seq<Command>) {
    forall i, j :: 0 <= i < j < |ks| ==> ks[i].path != ks[j].path
  }

  lemma {:induction false} ItemsAreDistinct(sha: Digest, b: Backup, rows: Rows)
    requires Keyed(rows) && forall r :: r in rows ==> HealthyOwner(b, r.owner) && Healthy(sha, b.disks, r)
    ensures DistinctPaths(Items(sha, b.disks, rows))
  {
    hide Unchanged, Item, HealthyOwner, Healthy, DistinctPaths;
    if rows == [] {
      NoneToCompare();
    } else {
      ItemsAreDistinct(sha, b, rows[1..]);
      ItemsOfRows(sha, b.disks, rows[1..]);
      assert rows[0] in rows;
      var rest := Items(sha, b.disks, rows[1..]);
      if Unchanged(sha, b.disks, rows[0]) {
        var k := Item(b.disks, rows[0]);
        forall j | 0 <= j < |rest| ensures k.path != rest[j].path {
          assert rest[j] in rest;
          var r :| r in rows[1..] && Unchanged(sha, b.disks, r) && rest[j] == Item(b.disks, r);
          var i :| 0 <= i < |rows[1..]| && rows[1..][i] == r;
          assert rows[0].owner != rows[i + 1].owner || rows[0].path != rows[i + 1].path;
          ItemPathsDiffer(sha, b, rows[0], r);
        }
        OneMoreDistinct(k, rest);
      } else {
        assert [] + rest == rest;
      }
    }
  }

  lemma NoneToCompare()
    ensures DistinctPaths([])
  {
  }

  lemma OneMoreDistinct(k: Command, ks: seq<Command>)
    requires DistinctPaths(ks) && forall j :: 0 <= j < |ks| ==> k.path != ks[j].path
    ensures DistinctPaths([k] + ks)
  {
  }

  lemma ItemPathsDiffer(sha: Digest, b: Backup, r: Row, t: Row)
    requires HealthyOwner(b, r.owner) && Healthy(sha, b.disks, r) && HealthyOwner(b, t.owner) && Healthy(sha, b.disks, t)
    requires r.owner != t.owner || r.path != t.path
    ensures Item(b.disks, r).path != Item(b.disks, t).path
  {
    hide ValidatePath, ValidTime, ValidateMac, ValidUsername, Root, Unique, Ancestor, Closed;
    PathNotEmpty(r.path);
    PathNotEmpty(t.path);
    RootsSeparate(r.owner, r.path, t.owner, t.path);
  }
}
