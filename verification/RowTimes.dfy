/** The times in the table: STOR and MKD write them, PROB changes those on disk and in the map behind the
    table's back. */
module RowTimes {
  import opened Base
  import opened Table
  import opened Validator
  import opened Server
  import opened Coherence
  import opened Guarantees
  import opened Replay
  import opened Answers

  /** Rows and map are equal, except at some paths. */
  ghost predicate UpToDate(c: Session, s: Store, late: set<Path>) {
    forall p :: p in View(s.rows, c.owner) && p in s.elements && p !in late ==> View(s.rows, c.owner)[p] == s.elements[p]
  }

  /** The paths at which PROB has changed the time since the row was last written. */
  function LateAfter(late: set<Path>, s: Store, k: Command, r: Response): set<Path> {
    if k.Prob? && r == Ok(Found) && !OnRecord(s, k.path, k.time) then late + {k.path}
    else if (k.Stor? || (k.Mkd? && !OnRecord(s, k.path, k.time))) && r == Ok(Created) then late - {k.path}
    else late
  }

  function LateIn(c: Session, s: Store, late: set<Path>, rs: seq<Request>): set<Path>
    decreases |rs|
  {
    if rs == [] then late
    else
      var out := Handle(c, s, rs[0].command, rs[0].now);
      if out.replies == [] || !out.alive then (if out.alive then LateIn(c, out.store, late, rs[1..]) else late)
      else
        var k := rs[0].command.(path := ValidatePath(rs[0].command.path).value);
        LateIn(c, out.store, LateAfter(late, Live(c, s), k, out.replies[0]), rs[1..])
  }

  /** The row at the path of a command. */
  lemma OwnRow(c: Session, s: Store, k: Command, now: Time, late: set<Path>)
    requires Coherent(c, s) && UpToDate(c, s, late)
    ensures var out := Dispatch(c, s, k, k.path, now);
            var t, p := out.store, k.path;
            p in View(t.rows, c.owner) && p in t.elements && p !in LateAfter(late, s, k, out.replies[0]) ==>
              View(t.rows, c.owner)[p] == t.elements[p]
  {
    hide View, Unique, Probe, StoreFile, RemoveFile, MakeDir, RemoveDir, Matches, Closed, Blocked, Obstructed, Ancestor;
    match k
    case Prob(p, time, hash) =>
      ProbeTells(c, s, p, time, hash);
      SameTime(c, s, p, time, hash);
    case Stor(p, size, time, hash, data) => StoreTells(c, s, p, size, time, hash, data, now);
    case Dele(p, hash) => DeleteTells(c, s, p, hash);
    case Mkd(p, time) => MakeTells(c, s, p, time, now);
    case Rmd(p) => RemoveTells(c, s, p);
  }

  lemma SameTime(c: Session, s: Store, p: Path, time: Time, hash: Hash)
    ensures OnRecord(s, p, time) ==> Probe(c, s, p, time, hash).store == s
  {
  }

  /** A command makes no row late but as said, and a row it writes is not. */
  lemma DispatchUpToDate(c: Session, s: Store, k: Command, now: Time, late: set<Path>)
    requires Coherent(c, s) && UpToDate(c, s, late)
    ensures var out := Dispatch(c, s, k, k.path, now); UpToDate(c, out.store, LateAfter(late, s, k, out.replies[0]))
  {
    hide View, Dispatch, Coherent;
    var out := Dispatch(c, s, k, k.path, now);
    var t, later := out.store, LateAfter(late, s, k, out.replies[0]);
    forall p | p in View(t.rows, c.owner) && p in t.elements && p !in later
      ensures View(t.rows, c.owner)[p] == t.elements[p]
    {
      if p == k.path {
        OwnRow(c, s, k, now, late);
      } else if Taken(k, p) {
        TakenRow(c, s, k, now, p, late);
      } else {
        NothingElse(c, s, k, now, p);
        assert Get(View(t.rows, c.owner), p) == Some(View(t.rows, c.owner)[p]);
      }
    }
  }

  /** Below a directory to be removed rows go, or stay as they are. */
  lemma TakenRow(c: Session, s: Store, k: Command, now: Time, q: Path, late: set<Path>)
    requires Coherent(c, s) && UpToDate(c, s, late) && k.Rmd? && Ancestor(k.path, q) && q !in late
    ensures var t := Dispatch(c, s, k, k.path, now).store;
            q in View(t.rows, c.owner) && q in t.elements ==> View(t.rows, c.owner)[q] == t.elements[q]
  {
    hide View, Unique, Closed, RemoveSet, Remove;
    RemoveSetEffect(s.rows, c.owner, Doomed(s.disk, k.path), c.owner);
    RemoveEffect(s.rows, c.owner, k.path, c.owner);
  }

  lemma AcceptedIsDispatch(c: Session, s: Store, k: Command, now: Time)
    requires Handle(c, s, k, now).replies != []
    ensures ValidatePath(k.path).Some?
    ensures Handle(c, s, k, now) == Dispatch(c, Live(c, s), k.(path := ValidatePath(k.path).value), ValidatePath(k.path).value, now)
  {
    hide Recover, ValidatePath, ValidTime, Probe, StoreFile, RemoveFile, MakeDir, RemoveDir;
  }

  lemma SilentKeeps(c: Session, s: Store, k: Command, now: Time)
    requires Handle(c, s, k, now).replies == [] || !Handle(c, s, k, now).alive
    ensures Handle(c, s, k, now).store == Live(c, s)
  {
    hide Recover, ValidatePath, ValidTime, Probe, StoreFile, RemoveFile, MakeDir, RemoveDir;
  }

  lemma LiveIsLive(c: Session, s: Store)
    ensures Live(c, Live(c, s)) == Live(c, s)
  {
    hide Recover;
  }

  /** Over a whole session a row's time lags only where a PROB has changed the time since. */
  lemma {:induction false} RunUpToDate(c: Session, s: Store, rs: seq<Request>, late: set<Path>)
    requires Ready(c, s) && UpToDate(c, Live(c, s), late)
    ensures UpToDate(c, Live(c, Run(c, s, rs)), LateIn(c, s, late, rs))
    decreases |rs|
  {
    hide Coherent, UpToDate, Handle, Live, LateAfter, ValidatePath;
    if rs != [] {
      var k, now := rs[0].command, rs[0].now;
      var out := Handle(c, s, k, now);
      HandleKeeps(c, s, k, now);
      LiveIsLive(c, s);
      assert Live(c, out.store) == out.store by { RecoveredIsLive(c, out.store); }
      if out.replies == [] || !out.alive {
        SilentKeeps(c, s, k, now);
        if out.alive {
          RunUpToDate(c, out.store, rs[1..], late);
        }
      } else {
        AcceptedIsDispatch(c, s, k, now);
        var k' := k.(path := ValidatePath(k.path).value);
        assert Coherent(c, Live(c, s));
        DispatchUpToDate(c, Live(c, s), k', now, late);
        RunUpToDate(c, out.store, rs[1..], LateAfter(late, Live(c, s), k', out.replies[0]));
      }
    }
  }

  lemma RecoveredIsLive(c: Session, s: Store)
    requires s.recovered
    ensures Live(c, s) == s
  {
  }

  /** A session begins with all rows up to date, whatever has happened to the folder in between. */
  lemma BeginsUpToDate(c: Session, s: Store, disk: Tree)
    requires Coherent(c, s) && RowsAgree(c, s)
    requires Closed(disk) && forall p :: p in disk ==> !disk[p].Special?
    requires InjectiveOn(c.sha, ContentsOf(s.disk) + ContentsOf(disk))
    ensures var t := Store(disk, s.rows, map[], false); Ready(c, t) && UpToDate(c, Live(c, t), {}) && RowsAgree(c, Live(c, t))
  {
    hide Coherent, View, Recover;
    RecoveryIsComplete(c, s, disk);
  }
}
