/** After a broken connection the client sends its whole window again, although the server may already
    have carried out any part of it. For commands on paths that stay out of each other's way this is harmless. */
module Replay {
  import opened Base
  import opened Table
  import opened Validator
  import opened Server
  import opened Coherence
  import opened Guarantees

  /** What the server holds at a path: whether it is catalogued, and what is on disk, unless that is a
      directory or nothing. */
  datatype Cell = Cell(catalogued: bool, file: Option<Node>)

  const GONE := Cell(false, None)

  function CellAt(s: Store, p: Path): Cell {
    Cell(p in s.elements, if p in s.disk && !s.disk[p].Folder? then Some(s.disk[p]) else None)
  }

  predicate Hits(c: Session, x: Cell, hash: Hash) {
    x.catalogued && x.file.Some? && x.file.value.File? && c.sha(x.file.value.data) == hash
  }

  predicate Overwrites(c: Session, k: Command) { k.Stor? && |k.data| == k.size && c.sha(k.data) == k.hash }

  /** The effect of a command on its own path. RMD has an effect of its own, below. */
  function Effect(c: Session, x: Cell, k: Command): Cell {
    match k
    case Prob(_, time, hash) => if Hits(c, x, hash) then Cell(true, Some(WithTime(x.file.value, time))) else x
    case Stor(_, _, time, _, data) => if Overwrites(c, k) then Cell(true, Some(File(data, time))) else x
    case Dele(_, hash) => if Hits(c, x, hash) then GONE else x
    case Mkd(_, _) => if x.file.Some? then x else Cell(true, None)
    case Rmd(_) => x
  }

  function Effects(c: Session, x: Cell, ks: seq<Command>, p: Path): Cell
    decreases |ks|
  {
    if ks == [] then x
    else Effects(c, if ks[0].path == p then Effect(c, x, ks[0]) else x, ks[1..], p)
  }

  // ------------------------------------------------------- the algebra of it

  /** No command of the list makes a directory where another stores a file. */
  ghost predicate Pure(ks: seq<Command>, p: Path) {
    forall a, b :: a in ks && b in ks && a.path == p && b.path == p ==> (a.Mkd? <==> b.Mkd?)
  }

  /** Two commands on one path either commute or the second hides the first. */
  lemma SwapOrHide(c: Session, x: Cell, a: Command, b: Command)
    requires (a.Mkd? <==> b.Mkd?) && !Overwrites(c, a)
    ensures var ab := Effect(c, Effect(c, x, a), b);
            ab == Effect(c, Effect(c, x, b), a) || ab == Effect(c, x, b)
  {
  }

  lemma Idempotent(c: Session, x: Cell, a: Command)
    ensures Effect(c, Effect(c, x, a), a) == Effect(c, x, a)
  {
  }

  /** A successful STOR forgets what was there before it. */
  lemma {:induction false} OverwriteForgets(c: Session, x: Cell, y: Cell, ks: seq<Command>, p: Path, a: Command)
    requires a in ks && a.path == p && Overwrites(c, a)
    ensures Effects(c, x, ks, p) == Effects(c, y, ks, p)
    decreases |ks|
  {
    if ks[0] != a {
      OverwriteForgets(c, if ks[0].path == p then Effect(c, x, ks[0]) else x,
                       if ks[0].path == p then Effect(c, y, ks[0]) else y, ks[1..], p, a);
    }
  }

  /** Doing one of the commands beforehand makes no difference to doing them all. */
  lemma {:induction false} OneEarly(c: Session, x: Cell, ks: seq<Command>, p: Path, a: Command)
    requires a in ks && a.path == p && Pure(ks, p)
    ensures Effects(c, Effect(c, x, a), ks, p) == Effects(c, x, ks, p)
    decreases |ks|
  {
    hide Effect;
    if Overwrites(c, a) {
      OverwriteForgets(c, Effect(c, x, a), x, ks, p, a);
    } else if ks[0] == a {
      Idempotent(c, x, a);
    } else if ks[0].path == p {
      SwapOrHide(c, x, a, ks[0]);
      OneEarly(c, Effect(c, x, ks[0]), ks[1..], p, a);
    } else {
      OneEarly(c, x, ks[1..], p, a);
    }
  }

  lemma {:induction false} PrefixEarly(c: Session, x: Cell, pre: seq<Command>, ks: seq<Command>, p: Path)
    requires (forall k :: k in pre ==> k in ks) && Pure(ks, p)
    ensures Effects(c, Effects(c, x, pre, p), ks, p) == Effects(c, x, ks, p)
    decreases |pre|
  {
    hide Effect, Pure;
    if pre != [] {
      var y := if pre[0].path == p then Effect(c, x, pre[0]) else x;
      PrefixEarly(c, y, pre[1..], ks, p);
      if pre[0].path == p {
        OneEarly(c, x, ks, p, pre[0]);
      }
    }
  }

  // ------------------------------------------------------- recursive removal

  predicate Within(d: Path, q: Path) { q == d || Ancestor(d, q) }

  /** Some RMD of the list takes `q` with it; `dirs` are the directories catalogued at the start. */
  ghost predicate Cleared(dirs: set<Path>, ks: seq<Command>, q: Path) {
    exists d :: d in dirs && Rmd(d) in ks && Within(d, q)
  }

  /** What a list of commands makes of one path. An RMD that takes the path away does so however early or
      late in the list it stands: nothing the list does there can come before it. */
  ghost function Final(c: Session, dirs: set<Path>, x: Cell, ks: seq<Command>, q: Path): Cell {
    Effects(c, if Cleared(dirs, ks, q) then GONE else x, ks, q)
  }

  ghost function Uncleared(dirs: set<Path>, ks: seq<Command>): set<Path> {
    set e | e in dirs && !Cleared(dirs, ks, e)
  }

  lemma WithinTransitive(d: Path, e: Path, q: Path)
    requires Within(d, e) && Within(e, q)
    ensures Within(d, q)
  {
    if d != e && e != q {
      AncestorTransitive(d, e, q);
    }
  }

  /** Having done some of the commands beforehand makes no difference. */
  lemma FinalAgain(c: Session, dirs: set<Path>, x: Cell, pre: seq<Command>, ks: seq<Command>, q: Path)
    requires (forall k :: k in pre ==> k in ks) && Pure(ks, q)
    ensures Final(c, Uncleared(dirs, pre), Final(c, dirs, x, pre, q), ks, q) == Final(c, dirs, x, ks, q)
  {
    hide Pure, Within, Effects;
    var y, left := if Cleared(dirs, pre, q) then GONE else x, Uncleared(dirs, pre);
    PrefixEarly(c, y, pre, ks, q);
    PrefixEarly(c, GONE, pre, ks, q);
    if Cleared(dirs, ks, q) && !Cleared(dirs, pre, q) {
      var d :| d in dirs && Rmd(d) in ks && Within(d, q);
      if Cleared(dirs, pre, d) {
        var e :| e in dirs && Rmd(e) in pre && Within(e, d);
        WithinTransitive(e, d, q);
      }
      assert Cleared(left, ks, q);
    }
  }

  // ---------------------------------------------- paths and the state they are in

  /** The paths of a window, by what is done there: PROB, STOR and DELE; MKD; RMD. */
  datatype Paths = Paths(files: set<Path>, made: set<Path>, removed: set<Path>)

  ghost predicate Over(k: Command, u: Paths) {
    Valid(k) && (match k case Mkd(p, _) => p in u.made case Rmd(p) => p in u.removed case _ => k.path in u.files)
  }

  /** Nothing is stored or made where, or below where, a file is stored or a directory removed; only files
      may be stored where a directory is removed. */
  ghost predicate Separated(u: Paths) {
    && (forall f, x :: f in u.files && x in u.files + u.made ==> !Ancestor(f, x))
    && (forall d, x :: d in u.removed && x in u.files + u.made ==> !Ancestor(d, x))
    && u.files !! u.made && u.removed !! u.made
  }

  /** Where STOR and MKD raise an exception, and what RMD removes. */
  datatype Ground = Ground(obstructed: set<Path>, shut: set<Path>, dirs: set<Path>)

  predicate FolderAt(d: Tree, p: Path) { p in d && d[p].Folder? }

  predicate Solid(d: Tree, p: Path) { p in d && !d[p].Folder? }

  predicate DirAt(m: Catalogue, p: Path) { p in m && m[p].kind == Directory }

  ghost function GroundOf(s: Store, u: Paths): Ground {
    Ground(set f | f in u.files && (Blocked(s.disk, f) || FolderAt(s.disk, f)),
           set m | m in u.made && Blocked(s.disk, m),
           set d | d in u.removed && DirAt(s.elements, d))
  }

  function Next(g: Ground, k: Command): Ground {
    if k.Rmd? && k.path in g.dirs
    then Ground(g.obstructed - {k.path}, g.shut, set e | e in g.dirs && !Within(k.path, e))
    else g
  }

  function NextAll(g: Ground, ks: seq<Command>): Ground
    decreases |ks|
  {
    if ks == [] then g else NextAll(Next(g, ks[0]), ks[1..])
  }

  predicate Throws(c: Session, g: Ground, k: Command) {
    (Overwrites(c, k) && k.path in g.obstructed) || (k.Mkd? && k.path in g.shut)
  }

  /** The commands before the first exception. */
  function Kept(c: Session, g: Ground, ks: seq<Command>): seq<Command>
    decreases |ks|
  {
    if ks == [] || Throws(c, g, ks[0]) then [] else [ks[0]] + Kept(c, Next(g, ks[0]), ks[1..])
  }

  /** What a store and separated paths have to do with each other. */
  ghost predicate Grounded(g: Ground, u: Paths) {
    && g.obstructed <= u.files && g.shut <= u.made && g.dirs <= u.removed
    && forall p :: p in u.files && p in g.dirs ==> p in g.obstructed
  }

  // ------------------------------------------------- the server does just that

  function After(c: Session, g: Ground, x: Cell, k: Command, q: Path): Cell {
    if k.Rmd? then (if k.path in g.dirs && Within(k.path, q) then GONE else x)
    else if k.path == q then Effect(c, x, k) else x
  }

  lemma SameBlocked(d: Tree, e: Tree, p: Path)
    requires forall a :: Ancestor(a, p) ==> (Solid(d, a) <==> Solid(e, a))
    ensures Blocked(d, p) <==> Blocked(e, p)
  {
    hide Ancestor;
    if Blocked(d, p) {
      var a :| a in AncestorsOf(p) && Solid(d, a);
      assert Solid(e, a);
    }
    if Blocked(e, p) {
      var a :| a in AncestorsOf(p) && Solid(e, a);
      assert Solid(d, a);
    }
  }

  lemma SameGround(s: Store, r: Store, u: Paths)
    requires forall x, a :: x in u.files + u.made && Ancestor(a, x) ==> (Solid(s.disk, a) <==> Solid(r.disk, a))
    requires forall f :: f in u.files ==> (FolderAt(s.disk, f) <==> FolderAt(r.disk, f))
    requires forall d :: d in u.removed ==> (DirAt(s.elements, d) <==> DirAt(r.elements, d))
    ensures GroundOf(s, u) == GroundOf(r, u)
  {
    hide Solid, FolderAt, DirAt, Blocked, Ancestor;
    forall x | x in u.files + u.made ensures Blocked(s.disk, x) <==> Blocked(r.disk, x) {
      SameBlocked(s.disk, r.disk, x);
    }
  }

  /** The command is carried out as the cells say, or raises an exception as the ground says. */
  ghost predicate Fair(c: Session, s: Store, k: Command, u: Paths, out: Outcome) {
    && (out.alive <==> !Throws(c, GroundOf(s, u), k))
    && (!out.alive ==> out.store == s)
    && (out.alive ==> GroundOf(out.store, u) == Next(GroundOf(s, u), k))
    && (out.alive ==> forall q :: CellAt(out.store, q) == After(c, GroundOf(s, u), CellAt(s, q), k, q))
  }

  lemma ProbeIsFair(c: Session, s: Store, k: Command, now: Time, u: Paths)
    requires Coherent(c, s) && Separated(u) && Over(k, u) && k.Prob?
    ensures Fair(c, s, k, u, Dispatch(c, s, k, k.path, now))
  {
    hide View, Unique, Closed, Ancestor, Separated, Valid, GroundOf;
    SameGround(s, Dispatch(c, s, k, k.path, now).store, u);
  }

  lemma DeleteIsFair(c: Session, s: Store, k: Command, now: Time, u: Paths)
    requires Coherent(c, s) && Separated(u) && Over(k, u) && k.Dele?
    ensures Fair(c, s, k, u, Dispatch(c, s, k, k.path, now))
  {
    hide View, Unique, Closed, Ancestor, Valid, GroundOf, Remove;
    SameGround(s, Dispatch(c, s, k, k.path, now).store, u);
  }

  lemma RemoveIsFair(c: Session, s: Store, k: Command, now: Time, u: Paths)
    requires Coherent(c, s) && Separated(u) && Over(k, u) && k.Rmd?
    ensures Fair(c, s, k, u, Dispatch(c, s, k, k.path, now))
  {
    hide View, Unique, Closed, Valid, RemoveSet, Blocked, Ancestor;
    var r := Dispatch(c, s, k, k.path, now).store;
    if DirAt(s.elements, k.path) {
      forall x | x in u.files + u.made ensures Blocked(s.disk, x) <==> Blocked(r.disk, x) {
        forall a | Ancestor(a, x) ensures Solid(s.disk, a) <==> Solid(r.disk, a) {
          if Within(k.path, a) {
            WithinAncestor(k.path, a, x);
          }
        }
        SameBlocked(s.disk, r.disk, x);
      }
      FolderUnblocked(s.disk, k.path);
    }
  }

  lemma WithinAncestor(d: Path, a: Path, x: Path)
    requires Within(d, a) && Ancestor(a, x)
    ensures Ancestor(d, x)
  {
    if d != a {
      AncestorTransitive(d, a, x);
    }
  }

  lemma FolderUnblocked(d: Tree, p: Path)
    requires Closed(d) && p in d
    ensures !Blocked(d, p)
  {
  }

  lemma DirIsOnDisk(c: Session, s: Store, p: Path)
    requires Coherent(c, s)
    ensures DirAt(s.elements, p) ==> FolderAt(s.disk, p)
  {
    hide View, Unique, Closed;
  }

  lemma StoreIsFair(c: Session, s: Store, k: Command, now: Time, u: Paths)
    requires Coherent(c, s) && Separated(u) && Over(k, u) && k.Stor?
    ensures Fair(c, s, k, u, Dispatch(c, s, k, k.path, now))
  {
    hide View, Unique, Closed, Insert, Update, EnsureParents, Touched, MissingParents, Ancestor, Valid, SameElement, Blocked;
    var g, r := GroundOf(s, u), Dispatch(c, s, k, k.path, now).store;
    if Overwrites(c, k) && k.path !in g.obstructed {
      DirIsOnDisk(c, s, k.path);
      ParentsCreated(s.disk, k.path, now);
      SameGround(s, r, u);
    }
  }

  lemma MakeIsFair(c: Session, s: Store, k: Command, now: Time, u: Paths)
    requires Coherent(c, s) && Separated(u) && Over(k, u) && k.Mkd?
    ensures Fair(c, s, k, u, Dispatch(c, s, k, k.path, now))
  {
    hide View, Unique, Closed, Insert, Update, EnsureParents, Touched, MissingParents, Ancestor, Valid, SameElement, Blocked;
    var g, r := GroundOf(s, u), Dispatch(c, s, k, k.path, now).store;
    if k.path in s.disk {
      FolderUnblocked(s.disk, k.path);
    } else if k.path !in g.shut {
      ParentsCreated(s.disk, k.path, now);
    }
    if k.path !in g.shut {
      SameGround(s, r, u);
    }
  }

  lemma DispatchIsFair(c: Session, s: Store, k: Command, now: Time, u: Paths)
    requires Coherent(c, s) && Separated(u) && Over(k, u)
    ensures Fair(c, s, k, u, Dispatch(c, s, k, k.path, now))
  {
    hide Fair, Dispatch, Coherent, Separated, Over;
    match k
    case Prob(_, _, _) => ProbeIsFair(c, s, k, now, u);
    case Stor(_, _, _, _, _) => StoreIsFair(c, s, k, now, u);
    case Dele(_, _) => DeleteIsFair(c, s, k, now, u);
    case Mkd(_, _) => MakeIsFair(c, s, k, now, u);
    case Rmd(_) => RemoveIsFair(c, s, k, now, u);
  }

  lemma StoreIsGrounded(c: Session, s: Store, u: Paths)
    requires Coherent(c, s)
    ensures Grounded(GroundOf(s, u), u)
  {
    hide View, Unique, Closed, Blocked;
  }

  // --------------------------------------------------------- a whole session

  function Commands(rs: seq<Request>): (ks: seq<Command>)
    ensures |ks| == |rs| && forall i :: 0 <= i < |rs| ==> ks[i] == rs[i].command
  {
    seq(|rs|, i requires 0 <= i < |rs| => rs[i].command)
  }

  /** No exception ends the session before its last request. */
  predicate Finishes(c: Session, s: Store, rs: seq<Request>)
    decreases |rs|
  {
    rs == [] || (var out := Handle(c, s, rs[0].command, rs[0].now); out.alive && Finishes(c, out.store, rs[1..]))
  }

  ghost predicate OverAll(ks: seq<Command>, u: Paths) { forall k :: k in ks ==> Over(k, u) }

  lemma ClearedStep(dirs: set<Path>, k: Command, ks: seq<Command>, q: Path)
    ensures Cleared(dirs, [k] + ks, q) <==> Cleared(dirs, ks, q) || (k.Rmd? && k.path in dirs && Within(k.path, q))
  {
    hide Within;
    assert forall d :: Rmd(d) in [k] + ks <==> Rmd(d) in ks || Rmd(d) == k;
  }

  /** After an RMD, what is left to remove is the same elsewhere. */
  lemma ClearedElsewhere(g: Ground, k: Command, ks: seq<Command>, q: Path)
    requires k.Rmd? && k.path in g.dirs && !Within(k.path, q)
    ensures Cleared(Next(g, k).dirs, ks, q) <==> Cleared(g.dirs, ks, q)
  {
    hide Within;
    if Cleared(g.dirs, ks, q) {
      var e :| e in g.dirs && Rmd(e) in ks && Within(e, q);
      if Within(k.path, e) {
        WithinTransitive(k.path, e, q);
      }
      assert e in Next(g, k).dirs;
    }
  }

  lemma FinalStep(c: Session, g: Ground, x: Cell, k: Command, ks: seq<Command>, q: Path, u: Paths)
    requires Separated(u) && Grounded(g, u) && Over(k, u) && !Throws(c, g, k)
    ensures Final(c, Next(g, k).dirs, After(c, g, x, k, q), ks, q) == Final(c, g.dirs, x, [k] + ks, q)
  {
    hide Valid, Within, Cleared;
    ClearedStep(g.dirs, k, ks, q);
    assert ([k] + ks)[1..] == ks;
    if k.Rmd? {
      if k.path in g.dirs && !Within(k.path, q) {
        ClearedElsewhere(g, k, ks, q);
      }
    } else if k.path == q && Cleared(g.dirs, ks, q) {
      ClearedIsObstructed(g, k, ks, u);
    }
  }

  /** Where something is still to be removed, only a file command can stand, and it does nothing. */
  lemma ClearedIsObstructed(g: Ground, k: Command, ks: seq<Command>, u: Paths)
    requires Separated(u) && Grounded(g, u) && Over(k, u) && !k.Rmd? && Cleared(g.dirs, ks, k.path)
    ensures !k.Mkd? && k.path in g.obstructed
  {
    hide Valid;
    var d :| d in g.dirs && Rmd(d) in ks && Within(d, k.path);
    assert k.path in u.files + u.made && d in u.removed;
  }

  lemma NextIsGrounded(g: Ground, k: Command, u: Paths)
    requires Grounded(g, u)
    ensures Grounded(Next(g, k), u)
  {
  }

  lemma {:induction false} KeptIsOver(c: Session, g: Ground, ks: seq<Command>, u: Paths)
    requires OverAll(ks, u)
    ensures Kept(c, g, ks) <= ks
    decreases |ks|
  {
    hide Over, Throws, Next;
    if ks != [] && !Throws(c, g, ks[0]) {
      assert ks[0] in ks;
      KeptIsOver(c, Next(g, ks[0]), ks[1..], u);
    }
  }

  /** A session acts on every path as the list of the commands it carries out says. */
  lemma {:induction false} RunCells(c: Session, s: Store, rs: seq<Request>, u: Paths)
    requires Ready(c, s) && Separated(u) && OverAll(Commands(rs), u)
    ensures var r, g := Run(c, s, rs), GroundOf(Live(c, s), u);
            var ks := Kept(c, g, Commands(rs));
            && Ready(c, r) && GroundOf(Live(c, r), u) == NextAll(g, ks)
            && (Finishes(c, s, rs) <==> ks == Commands(rs))
            && forall q :: CellAt(Live(c, r), q) == Final(c, g.dirs, CellAt(Live(c, s), q), ks, q)
    decreases |rs|
  {
    hide Coherent, Recover, Dispatch, GroundOf, Separated, Over, CellAt, After, Final, Throws, Next, Grounded;
    var g := GroundOf(Live(c, s), u);
    if rs == [] {
      forall q { FinalOfNone(c, g.dirs, CellAt(Live(c, s), q), q); }
    } else {
      var k, now := rs[0].command, rs[0].now;
      assert k in Commands(rs) && Commands(rs)[0] == k && Commands(rs)[1..] == Commands(rs[1..]);
      OverIsValid(k, u);
      HandleIsDispatch(c, s, k, now);
      HandleKeeps(c, s, k, now);
      DispatchIsFair(c, Live(c, s), k, now, u);
      StoreIsGrounded(c, Live(c, s), u);
      if Throws(c, g, k) {
        forall q { FinalOfNone(c, g.dirs, CellAt(Live(c, s), q), q); }
      } else {
        var t := Handle(c, s, k, now).store;
        RunCells(c, t, rs[1..], u);
        var ks := Kept(c, Next(g, k), Commands(rs[1..]));
        assert Kept(c, g, Commands(rs)) == [k] + ks;
        assert ([k] + ks)[1..] == ks;
        forall q ensures CellAt(Live(c, Run(c, s, rs)), q) == Final(c, g.dirs, CellAt(Live(c, s), q), [k] + ks, q) {
          FinalStep(c, g, CellAt(Live(c, s), q), k, ks, q, u);
        }
      }
    }
  }

  lemma FinalOfNone(c: Session, dirs: set<Path>, x: Cell, q: Path)
    ensures Final(c, dirs, x, [], q) == x
  {
  }

  lemma OverIsValid(k: Command, u: Paths)
    requires Over(k, u)
    ensures Valid(k)
  {
  }

  // ----------------------------------------------------------- and once more

  lemma {:induction false} NextAllMeans(g: Ground, ks: seq<Command>, u: Paths)
    requires Separated(u) && Grounded(g, u)
    ensures var h := NextAll(g, ks);
            && Grounded(h, u) && h.shut == g.shut && h.dirs == Uncleared(g.dirs, ks)
            && forall f :: f in h.obstructed <==> f in g.obstructed && !(f in g.dirs && Rmd(f) in ks)
    decreases |ks|
  {
    hide Within, Cleared;
    if ks == [] {
      assert forall e :: !Cleared(g.dirs, ks, e) by { NothingCleared(g.dirs); }
    } else {
      var k, rest := ks[0], ks[1..];
      assert [k] + rest == ks;
      assert forall f :: Rmd(f) in ks <==> Rmd(f) == k || Rmd(f) in rest;
      NextIsGrounded(g, k, u);
      NextAllMeans(Next(g, k), rest, u);
      forall e ensures e in Uncleared(Next(g, k).dirs, rest) <==> e in Uncleared(g.dirs, ks) {
        ClearedStep(g.dirs, k, rest, e);
        if k.Rmd? && k.path in g.dirs && !Within(k.path, e) {
          ClearedElsewhere(g, k, rest, e);
        }
      }
      if k.Rmd? && k.path in g.dirs {
        forall f | f in g.obstructed ensures Within(k.path, f) <==> f == k.path {
          NotAbove(g, k.path, f, u);
        }
      }
    }
  }

  lemma NothingCleared(dirs: set<Path>)
    ensures forall e :: !Cleared(dirs, [], e)
  {
  }

  lemma NotAbove(g: Ground, d: Path, f: Path, u: Paths)
    requires Separated(u) && Grounded(g, u) && d in g.dirs && f in g.obstructed
    ensures Within(d, f) <==> f == d
  {
    assert d in u.removed && f in u.files + u.made;
  }

  lemma {:induction false} NextAllSnoc(g: Ground, ks: seq<Command>, k: Command)
    ensures NextAll(g, ks + [k]) == Next(NextAll(g, ks), k)
    decreases |ks|
  {
    hide Next;
    if ks == [] {
      assert [] + [k] == [k];
    } else {
      assert (ks + [k])[1..] == ks[1..] + [k];
      NextAllSnoc(Next(g, ks[0]), ks[1..], k);
    }
  }

  /** At each command the second time is as the first: what was carried out before has taken nothing out
      of the way that the list would not have taken by itself. */
  lemma SameThrow(c: Session, g: Ground, pre: seq<Command>, done: seq<Command>, k: Command, u: Paths)
    requires Separated(u) && Grounded(g, u)
    requires Throws(c, NextAll(g, done), k) ==> forall x :: x in pre ==> x in done
    ensures Throws(c, NextAll(NextAll(g, pre), done), k) <==> Throws(c, NextAll(g, done), k)
  {
    hide Separated, NextAll, Cleared;
    NextAllMeans(g, pre, u);
    NextAllMeans(g, done, u);
    NextAllMeans(NextAll(g, pre), done, u);
    var f := k.path;
    if f in g.dirs && f in g.obstructed && Cleared(g.dirs, pre, f) {
      ClearedIsRemoved(g, pre, f, u);
    }
  }

  lemma ClearedIsRemoved(g: Ground, pre: seq<Command>, f: Path, u: Paths)
    requires Separated(u) && Grounded(g, u) && f in g.obstructed && Cleared(g.dirs, pre, f)
    ensures f in g.dirs && Rmd(f) in pre
  {
    hide Separated, Grounded;
    var d :| d in g.dirs && Rmd(d) in pre && Within(d, f);
    NotAbove(g, d, f, u);
  }

  lemma {:induction false} KeptFrom(c: Session, g: Ground, pre: seq<Command>, done: seq<Command>, rest: seq<Command>, u: Paths)
    requires Separated(u) && Grounded(g, u) && pre <= done + Kept(c, NextAll(g, done), rest)
    ensures Kept(c, NextAll(NextAll(g, pre), done), rest) == Kept(c, NextAll(g, done), rest)
    decreases |rest|
  {
    hide Separated, Grounded, NextAll, Throws, Next;
    if rest != [] {
      var k := rest[0];
      if Throws(c, NextAll(g, done), k) {
        assert done + [] == done;
        forall x | x in pre ensures x in done {
          var i :| 0 <= i < |pre| && pre[i] == x;
          assert done[i] == x;
        }
      }
      SameThrow(c, g, pre, done, k, u);
      if !Throws(c, NextAll(g, done), k) {
        NextAllSnoc(g, done, k);
        NextAllSnoc(NextAll(g, pre), done, k);
        var later := Kept(c, NextAll(g, done + [k]), rest[1..]);
        assert done + ([k] + later) == done + [k] + later;
        KeptFrom(c, g, pre, done + [k], rest[1..], u);
      }
    }
  }

  /** After part of a list has been carried out, the whole list gets just as far. */
  lemma KeptAgain(c: Session, g: Ground, part: seq<Command>, ks: seq<Command>, u: Paths)
    requires Separated(u) && Grounded(g, u) && part <= ks
    ensures Kept(c, NextAll(g, Kept(c, g, part)), ks) == Kept(c, g, ks) && Kept(c, g, part) <= Kept(c, g, ks)
  {
    hide Separated, Grounded;
    KeptOfPart(c, g, part, ks);
    assert [] + Kept(c, g, ks) == Kept(c, g, ks);
    KeptFrom(c, g, Kept(c, g, part), [], ks, u);
  }

  lemma {:induction false} KeptOfPart(c: Session, g: Ground, part: seq<Command>, ks: seq<Command>)
    requires part <= ks
    ensures Kept(c, g, part) <= Kept(c, g, ks)
    decreases |part|
  {
    hide Throws, Next;
    if part != [] && !Throws(c, g, part[0]) {
      KeptOfPart(c, Next(g, part[0]), part[1..], ks[1..]);
    }
  }

  lemma LiveCells(c: Session, s: Store, u: Paths)
    requires Ready(c, s)
    ensures Ready(c, Restart(Live(c, s))) && Live(c, s).disk == s.disk
    ensures GroundOf(Live(c, Restart(Live(c, s))), u) == GroundOf(Live(c, s), u)
    ensures forall q :: CellAt(Live(c, Restart(Live(c, s))), q) == CellAt(Live(c, s), q)
  {
    hide Coherent, Recover, Blocked;
    ReloadKeepsElements(c, Live(c, s));
  }

  /** Interrupted sendings: in each the server got as far as the given requests before the connection broke. */
  function Interrupted(c: Session, s: Store, attempts: seq<seq<Request>>): Store
    decreases |attempts|
  {
    if attempts == [] then s
    else Interrupted(c, Restart(Live(c, Run(c, s, attempts[0]))), attempts[1..])
  }

  ghost predicate SameCells(c: Session, s: Store, attempts: seq<seq<Request>>, last: seq<Request>) {
    var twice, once := Run(c, Interrupted(c, s, attempts), last), Run(c, s, last);
    forall q :: CellAt(Live(c, twice), q) == CellAt(Live(c, once), q)
  }

  ghost predicate SameEnding(c: Session, s: Store, attempts: seq<seq<Request>>, last: seq<Request>) {
    Finishes(c, Interrupted(c, s, attempts), last) <==> Finishes(c, s, last)
  }

  /** A store, a window over the given paths, and attempts to send it that broke off somewhere. */
  ghost predicate Resent(c: Session, u: Paths, s: Store, attempts: seq<seq<Request>>, last: seq<Request>) {
    && Ready(c, s) && OverAll(Commands(last), u)
    && forall a :: a in attempts ==> Commands(a) <= Commands(last)
  }

  lemma OverIsPure(ks: seq<Command>, u: Paths, p: Path)
    requires OverAll(ks, u) && Separated(u)
    ensures Pure(ks, p)
  {
    hide Valid;
  }

  /** One interrupted attempt leaves a state from which the whole window has the same result. */
  lemma OneAttempt(c: Session, u: Paths, s: Store, a: seq<Request>, last: seq<Request>)
    requires Separated(u) && Ready(c, s) && OverAll(Commands(last), u) && Commands(a) <= Commands(last)
    ensures var next := Restart(Live(c, Run(c, s, a)));
            && Ready(c, next) && (Finishes(c, next, last) <==> Finishes(c, s, last))
            && forall q :: CellAt(Live(c, Run(c, next, last)), q) == CellAt(Live(c, Run(c, s, last)), q)
  {
    hide Separated, Coherent, Recover, Run, Finishes, CellAt, GroundOf, Over, Final, Kept, Grounded;
    var ks, part := Commands(last), Commands(a);
    forall k | k in part ensures Over(k, u) {
      var i :| 0 <= i < |part| && part[i] == k;
      assert ks[i] == k;
    }
    RunCells(c, s, a, u);
    RunCells(c, s, last, u);
    var r := Run(c, s, a);
    LiveCells(c, r, u);
    var next := Restart(Live(c, r));
    RunCells(c, next, last, u);
    var g := GroundOf(Live(c, s), u);
    StoreIsGrounded(c, Live(c, s), u);
    KeptAgain(c, g, part, ks, u);
    var pre, kept := Kept(c, g, part), Kept(c, g, ks);
    KeptIsOver(c, g, ks, u);
    NextAllMeans(g, pre, u);
    assert forall k :: k in kept ==> k in ks;
    forall q ensures CellAt(Live(c, Run(c, next, last)), q) == CellAt(Live(c, Run(c, s, last)), q) {
      OverIsPure(kept, u, q);
      FinalAgain(c, g.dirs, CellAt(Live(c, s), q), pre, kept, q);
    }
  }

  /** However often the window was sent again and wherever each attempt broke off: over separated paths, once
      it has been sent completely every path has the content, time and catalogue entry that one undisturbed
      sending would have left, and an exception is raised exactly if it would have been then. */
  lemma {:induction false} ReplayIsHarmless(c: Session, u: Paths, s: Store, attempts: seq<seq<Request>>, last: seq<Request>)
    requires Separated(u) && Resent(c, u, s, attempts, last)
    ensures SameCells(c, s, attempts, last) && SameEnding(c, s, attempts, last)
    decreases |attempts|
  {
    hide Separated, Coherent, Recover, Run, Finishes, CellAt, Live, OverAll;
    if attempts != [] {
      OneAttempt(c, u, s, attempts[0], last);
      var next := Restart(Live(c, Run(c, s, attempts[0])));
      ReplayIsHarmless(c, u, next, attempts[1..], last);
    }
  }
}
