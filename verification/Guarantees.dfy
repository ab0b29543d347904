/** What the server promises for every command and over every run of a session. */
module Guarantees {
  import opened Base
  import opened Table
  import opened Validator
  import opened Server
  import opened Coherence

  /** In agreement now, or as soon as the pending recovery has run. */
  ghost predicate Ready(c: Session, s: Store) { Coherent(c, Live(c, s)) }

  lemma HandleKeeps(c: Session, s: Store, k: Command, now: Time)
    requires Ready(c, s)
    ensures var r := Handle(c, s, k, now).store;
            && Coherent(c, r) && r.recovered
            && (RowsAgree(c, Live(c, s)) ==> RowsAgree(c, r))
  {
    hide Probe, StoreFile, RemoveFile, MakeDir, RemoveDir, Coherent, RowsAgree, Recover;
    var l := Live(c, s);
    match ValidatePath(k.path)
    case None =>
    case Some(p) =>
      match k
      case Prob(_, time, hash) => ProbeKeeps(c, l, p, time, hash);
      case Stor(_, size, time, hash, data) => StoreFileKeeps(c, l, p, size, time, hash, data, now);
      case Dele(_, hash) => RemoveFileKeeps(c, l, p, hash);
      case Mkd(_, time) => MakeDirKeeps(c, l, p, time, now);
      case Rmd(_) => RemoveDirKeeps(c, l, p);
  }

  /** Whatever commands arrive, valid or not, the three stores end in agreement. */
  lemma {:induction false} RunKeeps(c: Session, s: Store, rs: seq<Request>)
    requires Ready(c, s)
    ensures Ready(c, Run(c, s, rs))
    ensures RowsAgree(c, Live(c, s)) ==> RowsAgree(c, Live(c, Run(c, s, rs)))
    decreases |rs|
  {
    if rs != [] {
      HandleKeeps(c, s, rs[0].command, rs[0].now);
      RunKeeps(c, Handle(c, s, rs[0].command, rs[0].now).store, rs[1..]);
    }
  }

  // ------------------------------------------------------ answers and errors

  lemma HandleIsDispatch(c: Session, s: Store, k: Command, now: Time)
    requires Valid(k)
    ensures Handle(c, s, k, now) == Dispatch(c, Live(c, s), k, k.path, now)
  {
  }

  predicate Accepted(k: Command) { ValidatePath(k.path).Some? && TimeAccepted(k) }

  /** An accepted command gets one answer, a refused one none; and an answer that reports an
      error, ERR(exception) included, means that nothing changed beyond the recovery. */
  lemma ErrorChangesNothing(c: Session, s: Store, k: Command, now: Time)
    ensures var out := Handle(c, s, k, now);
            && |out.replies| == (if Accepted(k) then 1 else 0)
            && (out.alive <==> out.replies != [Err(Exception)])
            && (out.replies == [] || out.replies[0].Err? ==> out.store == Live(c, s))
  {
    hide Probe, StoreFile, RemoveFile, MakeDir, RemoveDir, Recover;
  }

  /** The answers a command can get: what the client's receive() relies on. */
  predicate Fits(r: Response, k: Command) {
    match r
    case Send(p, h) => k.Prob? && p == k.path && h == k.hash
    case Ok(Found) => k.Prob?
    case Ok(Created) => k.Stor? || k.Mkd?
    case Ok(NotThere) => k.Dele? || k.Rmd?
    case Ok(Removed) => k.Dele? || k.Rmd?
    case Ok(_) => false
    case Err(e) => e == Exception || e == (match k
                     case Prob(_, _, _) => NotAFile
                     case Stor(_, _, _, _, _) => StoreFailed
                     case Dele(_, _) => RemoveFailed
                     case _ => NotADir)
  }

  lemma AnswersFit(c: Session, s: Store, k: Command, now: Time)
    requires Valid(k)
    ensures var out := Handle(c, s, k, now); |out.replies| == 1 && Fits(out.replies[0], k)
  {
    hide Recover, Fits, Dispatch, ValidatePath, ValidTime;
    DispatchFits(c, Live(c, s), k, now);
  }

  lemma DispatchFits(c: Session, s: Store, k: Command, now: Time)
    ensures Fits(Dispatch(c, s, k, k.path, now).replies[0], k)
  {
    hide EnsureParents, Blocked, Catalogued, Forget, RemoveSet, Doomed, Ancestor;
  }

  /** No other user, and no other machine of the user, is affected. */
  lemma OthersUntouched(c: Session, s: Store, k: Command, now: Time, o: Owner)
    requires o != c.owner
    ensures View(Handle(c, s, k, now).store.rows, o) == View(s.rows, o)
  {
    hide Recover, Dispatch;
    RecoveryLeavesOthers(c, s, o);
    forall p { DispatchLeavesOthers(c, Live(c, s), k, p, now, o); }
  }

  lemma RecoveryLeavesOthers(c: Session, s: Store, o: Owner)
    requires o != c.owner
    ensures View(Recover(c, s).rows, o) == View(s.rows, o)
  {
    var m := OnDisk(c, s.disk, Changed(c, s));
    UpdateWithEffect(s.rows, c.owner, m, o);
    RemoveSetEffect(UpdateWith(s.rows, c.owner, m), c.owner, Gone(c, s), o);
  }

  lemma DispatchLeavesOthers(c: Session, s: Store, k: Command, p: Path, now: Time, o: Owner)
    requires o != c.owner
    ensures View(Dispatch(c, s, k, p, now).store.rows, o) == View(s.rows, o)
  {
    hide View, EnsureParents, Blocked;
    RemoveEffect(s.rows, c.owner, p, o);
    RemoveSetEffect(s.rows, c.owner, Doomed(s.disk, p), o);
    forall e
      ensures View(Update(s.rows, c.owner, p, e), o) == View(s.rows, o)
      ensures View(Insert(s.rows, c.owner, p, e), o) == View(s.rows, o)
    {
      UpdateEffect(s.rows, c.owner, p, e, o);
      InsertEffect(s.rows, c.owner, p, e, o);
    }
  }

  // -------------------------------------------------------- recursive remove

  lemma BelowIsPrefix(p: Path, q: Path)
    requires p != ""
    ensures Ancestor(p, q) <==> p + "/" <= q
  {
    if Ancestor(p, q) {
      assert q[..|p| + 1] == p + "/";
    }
  }

  /** OK(removed) for RMD d: nothing named d or beginning with d/ is left in any store, and
      everything else, "d2" or "d.txt" beside "d" included, is untouched. */
  lemma RecursiveRemoveIsExact(c: Session, s: Store, d: Path, now: Time)
    requires Ready(c, s) && ValidatePath(d) == Some(d)
    requires Handle(c, s, Rmd(d), now).replies == [Ok(Removed)]
    ensures var l, r := Live(c, s), Handle(c, s, Rmd(d), now).store;
            && (forall q :: q == d || d + "/" <= q ==>
                  q !in r.disk && q !in r.elements && q !in View(r.rows, c.owner))
            && (forall q :: !(q == d || d + "/" <= q) ==>
                  Get(r.disk, q) == Get(l.disk, q) && Get(r.elements, q) == Get(l.elements, q)
                  && Get(View(r.rows, c.owner), q) == Get(View(l.rows, c.owner), q))
  {
    hide Recover, Coherent, RemoveDir, View;
    RemoveDirIsExact(c, Live(c, s), d);
  }

  lemma RemoveDirIsExact(c: Session, s: Store, d: Path)
    requires Coherent(c, s) && d != "" && RemoveDir(c, s, d).replies == [Ok(Removed)]
    ensures var r := RemoveDir(c, s, d).store;
            && (forall q :: q == d || d + "/" <= q ==>
                  q !in r.disk && q !in r.elements && q !in View(r.rows, c.owner))
            && (forall q :: !(q == d || d + "/" <= q) ==>
                  Get(r.disk, q) == Get(s.disk, q) && Get(r.elements, q) == Get(s.elements, q)
                  && Get(View(r.rows, c.owner), q) == Get(View(s.rows, c.owner), q))
  {
    hide View, RemoveSet, Unique, SameElement, Ancestor;
    RemoveSetEffect(s.rows, c.owner, Doomed(s.disk, d), c.owner);
    forall q { BelowIsPrefix(d, q); }
  }

  // ------------------------------------------------------------- exact times

  /** The only recorded time a command can falsify: that of the directory in which STOR or MKD
      makes the first missing parent of `p`. */
  ghost predicate AgesAncestor(s: Store, p: Path, now: Time) {
    exists q :: q in s.elements && Touched(s.disk, p, q) && s.elements[q].time != now
  }

  lemma ParentTimes(c: Session, s: Store, p: Path, now: Time)
    requires Coherent(c, s) && TimesExact(c, s) && !Blocked(s.disk, p)
    ensures var e := EnsureParents(s.disk, p, now);
            (forall q :: q in s.elements ==> q in e)
            && ((forall q :: q in s.elements && q != p ==> e[q].time == s.elements[q].time) <==> !AgesAncestor(s, p, now))
  {
    hide View, Unique, EnsureParents, Blocked;
    ParentsCreated(s.disk, p, now);
    var e := EnsureParents(s.disk, p, now);
    if AgesAncestor(s, p, now) {
      var q :| q in s.elements && Touched(s.disk, p, q) && s.elements[q].time != now;
      assert q != p && e[q] == Folder(now);
    }
  }

  lemma PresentPathAgesNothing(s: Store, p: Path, now: Time)
    requires Closed(s.disk) && p in s.disk
    ensures MissingParents(s.disk, p) == {} && !AgesAncestor(s, p, now)
  {
  }

  lemma PutTimes(c: Session, s: Store, r: Store, e: Tree, p: Path)
    requires p in r.elements && p in r.disk && r.elements[p].time == r.disk[p].time
    requires r.elements == s.elements[p := r.elements[p]] && r.disk == e[p := r.disk[p]]
    requires forall q :: q in s.elements ==> q in e
    ensures TimesExact(c, r) <==> forall q :: q in s.elements && q != p ==> e[q].time == s.elements[q].time
  {
    forall q | q in s.elements && q != p
      ensures q in r.elements && q in r.disk && r.elements[q].time == s.elements[q].time && r.disk[q].time == e[q].time
    {
    }
  }

  lemma StoreFileTimes(c: Session, s: Store, p: Path, size: nat, time: Time, hash: Hash, data: Bytes, now: Time)
    requires Coherent(c, s) && TimesExact(c, s)
    requires var out := StoreFile(c, s, p, size, time, hash, data, now); out.replies[0].Ok?
    ensures TimesExact(c, StoreFile(c, s, p, size, time, hash, data, now).store) <==> !AgesAncestor(s, p, now)
  {
    hide View, Unique, EnsureParents, Blocked, SameElement, Insert, Update, AgesAncestor, TimesExact, Coherent;
    ParentTimes(c, s, p, now);
    PutTimes(c, s, StoreFile(c, s, p, size, time, hash, data, now).store, EnsureParents(s.disk, p, now), p);
  }

  lemma MakeDirTimes(c: Session, s: Store, p: Path, time: Time, now: Time)
    requires Coherent(c, s) && TimesExact(c, s)
    requires var out := MakeDir(c, s, p, time, now); out.replies[0].Ok?
    ensures TimesExact(c, MakeDir(c, s, p, time, now).store) <==> !AgesAncestor(s, p, now)
  {
    hide View, Unique, EnsureParents, Blocked, SameElement, Insert, Update, AgesAncestor, Ancestor;
    var r := MakeDir(c, s, p, time, now).store;
    if p in s.disk {
      PresentPathAgesNothing(s, p, now);
      if r != s {
        PutTimes(c, s, r, s.disk, p);
      }
    } else {
      ParentTimes(c, s, p, now);
      PutTimes(c, s, r, EnsureParents(s.disk, p, now), p);
    }
  }

  /** Recorded directory times stay exact through STOR and MKD exactly when no catalogued
      directory is aged in this way; PROB, DELE and RMD always keep them. */
  lemma TimesStayExact(c: Session, s: Store, k: Command, now: Time)
    requires Coherent(c, s) && TimesExact(c, s)
    requires Dispatch(c, s, k, k.path, now).replies[0].Ok?
    ensures TimesExact(c, Dispatch(c, s, k, k.path, now).store) <==>
            ((k.Stor? || k.Mkd?) ==> !AgesAncestor(s, k.path, now))
  {
    hide StoreFile, MakeDir, AgesAncestor, View, Unique, Remove, RemoveSet, SameElement, Ancestor;
    match k
    case Stor(p, size, time, hash, data) => StoreFileTimes(c, s, p, size, time, hash, data, now);
    case Mkd(p, time) => MakeDirTimes(c, s, p, time, now);
    case _ =>
  }
}
