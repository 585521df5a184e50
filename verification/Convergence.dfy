/**
  A pass that nothing interferes with leaves the folder and the server equal, and leaves the next
  pass nothing to do.

  The proof follows the run: after any prefix of the plan, every path of either side is what `Local`
  and `Remote` below say in terms of the actions done so far.
 */
module Convergence {
  import opened Results
  import opened Paths
  import opened ConflictNames
  import opened Planning
  import opened Engine
  import opened NoLoss

  /** A path is a directory everywhere it is known, or a file everywhere. */
  ghost predicate KindsAgree(m: Merge) {
    && (forall p :: p in m.local && p in m.remote ==> m.local[p].Directory? == m.remote[p].Directory?)
    && (forall p :: p in m.local && p in m.base ==> m.local[p].Directory? == m.base[p].Directory?)
    && (forall p :: p in m.remote && p in m.base ==> m.remote[p].Directory? == m.base[p].Directory?)
  }

  /** What the run is about: snapshots of two trees, with kinds that agree and names conflict copies can take. */
  ghost predicate Usual(m: Merge) {
    && IsStamp(m.stamp)
    && Closed(m.local) && Closed(m.remote)
    && KindsAgree(m)
    && FreshCopies(m)
    && (forall p :: p in m.Paths() ==> ValidPath(p))
  }

  /** Something at or inside `p` came down from the server. */
  ghost predicate BroughtDown(done: set<Action>, p: string) {
    exists q :: AtOrInside(q, p) && (CreateLocalDirectory(q) in done || Download(q) in done)
  }

  /** Something at or inside `p` went up to the server. */
  ghost predicate SentUp(done: set<Action>, p: string) {
    exists q :: AtOrInside(q, p) && (CreateRemoteDirectory(q) in done || Upload(q) in done)
  }

  ghost predicate Conflicts(done: set<Action>, p: string) {
    exists c :: KeepBoth(p, c) in done
  }

  /** A local folder the server dropped holds something the plan sends up, so it stays. */
  ghost predicate StaysLocally(m: Merge, p: string)
    requires IsStamp(m.stamp)
  {
    exists q :: AtOrInside(q, p) &&
      (m.ActionFor(q) == Some(CreateRemoteDirectory(q)) || m.ActionFor(q) == Some(Upload(q)))
  }

  ghost function Local(m: Merge, done: set<Action>, p: string): Option<Entry>
    requires IsStamp(m.stamp)
  {
    if p in m.local then
      if DeleteLocal(p) in done then None
      else if RemoveLocalDirectory(p) in done && !StaysLocally(m, p) then None
      else if Download(p) in done || Conflicts(done, p) then Get(m.remote, p)
      else Some(m.local[p])
    else if BroughtDown(done, p) then Get(m.remote, p)
    else None
  }

  ghost function Remote(m: Merge, done: set<Action>, p: string): Option<Entry>
    requires IsStamp(m.stamp)
  {
    if p in m.remote then
      if DeleteRemote(p) in done || RemoveRemoteDirectory(p) in done then None
      else if Upload(p) in done then Get(m.local, p)
      else Some(m.remote[p])
    else if SentUp(done, p) then Get(m.local, p)
    else None
  }

  /** `c` is the conflict copy of some path already set aside. */
  ghost predicate IsCopy(done: set<Action>, c: string) {
    exists p :: KeepBoth(p, c) in done
  }

  ghost predicate At(m: Merge, done: set<Action>, w: World, p: string)
    requires IsStamp(m.stamp)
  {
    && (!IsCopy(done, p) ==> Get(w.local, p) == Local(m, done, p) && Get(w.remote, p) == Remote(m, done, p))
    && (forall q :: KeepBoth(q, p) in done ==> Get(w.local, p) == Get(m.local, q) == Get(w.remote, p))
  }

  ghost predicate Planned(m: Merge, a: Action)
    requires IsStamp(m.stamp)
  {
    m.ActionFor(a.path) == Some(a)
  }

  /** The actions done so far are planned ones, and everything that comes before one of them. */
  ghost predicate Ready(m: Merge, done: set<Action>, next: Action)
    requires IsStamp(m.stamp)
  {
    && Planned(m, next)
    && (forall a :: a in done ==> Planned(m, a) && Before(a, next))
    && (forall a :: Planned(m, a) && Before(a, next) ==> a in done)
  }

  function Seen(m: Merge): Listing { Listing(m.local, m.remote) }

  // ---------- what being planned says about a path ----------

  ghost predicate Meant(m: Merge, a: Action)
    requires IsStamp(m.stamp)
  {
    var left, right := Get(m.local, a.path), Get(m.remote, a.path);
    match a
    case CreateLocalDirectory(_) => left == None && right == Some(Directory)
    case CreateRemoteDirectory(_) => left == Some(Directory) && right == None
    case Download(_) => right.Some? && right.value.File? && left != Some(Directory)
    case Upload(_) => left.Some? && left.value.File? && right != Some(Directory)
    case DeleteLocal(_) => left.Some? && left.value.File? && right == None
    case DeleteRemote(_) => right.Some? && right.value.File? && left == None
    case RemoveLocalDirectory(_) => left == Some(Directory) && right == None
    case RemoveRemoteDirectory(_) => left == None && right == Some(Directory)
    case Forget(_) => left == None && right == None
    case KeepBoth(p, c) =>
      && left.Some? && left.value.File? && right.Some? && right.value.File?
      && c !in m.local && c !in m.remote && Above(p) == Above(c) && !Inside(p, c)
    case SetAside(_, _) => false
  }

  lemma PlannedIsMeant(m: Merge, a: Action)
    requires Usual(m) && Planned(m, a)
    ensures Meant(m, a) && a.path in m.Paths()
  {
    hide HoldsOnlyWhatWasSynced, ConflictName, WithFileName;
    ActionKeepsItsPath(m, a.path);
    if a.KeepBoth? {
      ConflictCopyExists(a.path, m.stamp);
      FreshCopy(m, a.path, a.localCopy);
      assert Above(a.path) == Above(a.localCopy);
      assert !Inside(a.path, a.localCopy);
    }
  }

  /** What holds throughout the run, of every action done so far. */
  ghost predicate AllMeant(m: Merge, done: set<Action>)
    requires IsStamp(m.stamp)
  {
    && (forall a :: a in done ==> Planned(m, a) && Meant(m, a))
    && (forall a, b :: a in done && b in done && a.path == b.path ==> a == b)
    && (forall p, q, c :: KeepBoth(p, c) in done && KeepBoth(q, c) in done ==> p == q)
  }

  lemma DoneIsMeant(m: Merge, done: set<Action>)
    requires Usual(m) && forall a :: a in done ==> Planned(m, a)
    ensures AllMeant(m, done)
  {
    hide Merge.ActionFor, Meant;
    forall a | a in done ensures Meant(m, a) { PlannedIsMeant(m, a); }
    forall p, q, c | KeepBoth(p, c) in done && KeepBoth(q, c) in done ensures p == q {
      assert CopiedTo(m, p, c) && CopiedTo(m, q, c);
    }
  }

  /** One more action done: how each of the questions asked of `done` changes. */
  lemma OneMore(done: set<Action>, a: Action, p: string)
    ensures BroughtDown(done + {a}, p) <==> BroughtDown(done, p) || ((a.CreateLocalDirectory? || a.Download?) && AtOrInside(a.path, p))
    ensures SentUp(done + {a}, p) <==> SentUp(done, p) || ((a.CreateRemoteDirectory? || a.Upload?) && AtOrInside(a.path, p))
    ensures Conflicts(done + {a}, p) <==> Conflicts(done, p) || (a.KeepBoth? && a.path == p)
    ensures IsCopy(done + {a}, p) <==> IsCopy(done, p) || (a.KeepBoth? && a.localCopy == p)
  {
    var more := done + {a};
    if a.CreateLocalDirectory? || a.Download? {
      assert CreateLocalDirectory(a.path) in more || Download(a.path) in more;
    }
    if a.CreateRemoteDirectory? || a.Upload? {
      assert CreateRemoteDirectory(a.path) in more || Upload(a.path) in more;
    }
    if a.KeepBoth? { assert KeepBoth(a.path, a.localCopy) in more; }
    forall q | AtOrInside(q, p) && (CreateLocalDirectory(q) in done || Download(q) in done)
      ensures CreateLocalDirectory(q) in more || Download(q) in more {}
    forall q | AtOrInside(q, p) && (CreateRemoteDirectory(q) in done || Upload(q) in done)
      ensures CreateRemoteDirectory(q) in more || Upload(q) in more {}
    forall c | KeepBoth(p, c) in done ensures KeepBoth(p, c) in more {}
    forall q | KeepBoth(q, p) in done ensures KeepBoth(q, p) in more {}
  }

  /** What came down lies in the server's tree, what went up in the folder's. */
  lemma BroughtFromItsSide(m: Merge, done: set<Action>, p: string)
    requires Usual(m) && AllMeant(m, done)
    ensures BroughtDown(done, p) ==> p in m.remote
    ensures SentUp(done, p) ==> p in m.local
    ensures IsCopy(done, p) ==> p !in m.local && p !in m.remote
  {
    hide Merge.ActionFor, FreshCopies;
  }

  ghost predicate Tracks(m: Merge, done: set<Action>, w: World)
    requires IsStamp(m.stamp)
  {
    AllMeant(m, done) && forall p :: At(m, done, w, p)
  }

  /** A directory of the server's tree is never met as a file in the folder, nor the other way around. */
  lemma DirectoriesInTheWay(m: Merge, done: set<Action>, w: World, d: string)
    requires Usual(m) && Tracks(m, done, w)
    ensures d in w.local && Get(m.remote, d) == Some(Directory) ==> w.local[d].Directory?
    ensures d in w.remote && Get(m.local, d) == Some(Directory) ==> w.remote[d].Directory?
  {
    hide Merge.ActionFor, FreshCopies, StaysLocally;
    assert At(m, done, w, d);
    BroughtFromItsSide(m, done, d);
  }

  // ---------- what one more action changes, path by path ----------

  function Filled(was: Option<Entry>): Option<Entry> { if was == None then Some(Directory) else was }

  ghost function LocalEffect(m: Merge, a: Action, p: string, was: Option<Entry>): Option<Entry>
    requires IsStamp(m.stamp)
  {
    match a
    case CreateLocalDirectory(q) => if AtOrInside(q, p) then Filled(was) else was
    case Download(q) => if p == q then Get(m.remote, q) else if Inside(q, p) then Filled(was) else was
    case KeepBoth(q, _) => if p == q then Get(m.remote, q) else if Inside(q, p) then Filled(was) else was
    case DeleteLocal(q) => if p == q then None else was
    case RemoveLocalDirectory(q) => if p == q && !StaysLocally(m, q) then None else was
    case _ => was
  }

  ghost function RemoteEffect(m: Merge, a: Action, p: string, was: Option<Entry>): Option<Entry> {
    match a
    case CreateRemoteDirectory(q) => if AtOrInside(q, p) then Filled(was) else was
    case Upload(q) => if p == q then Get(m.local, q) else if Inside(q, p) then Filled(was) else was
    case KeepBoth(q, _) => if Inside(q, p) then Filled(was) else was
    case DeleteRemote(q) => if p == q then None else was
    case RemoveRemoteDirectory(q) => if p == q then None else was
    case _ => was
  }

  ghost predicate Fresh(m: Merge, done: set<Action>, a: Action)
    requires IsStamp(m.stamp)
  {
    Usual(m) && AllMeant(m, done + {a}) && a !in done
  }

  lemma LocalFollows(m: Merge, done: set<Action>, a: Action, p: string)
    requires IsStamp(m.stamp) && Fresh(m, done, a)
    ensures Local(m, done + {a}, p) == LocalEffect(m, a, p, Local(m, done, p))
  {
    hide Merge.ActionFor, FreshCopies, StaysLocally, SentUp, IsCopy, BroughtDown, Conflicts;
    OneMore(done, a, p);
    BroughtFromItsSide(m, done + {a}, p);
    assert forall b :: b in done ==> b in done + {a};
    assert a in done + {a};
  }

  lemma RemoteFollows(m: Merge, done: set<Action>, a: Action, p: string)
    requires IsStamp(m.stamp) && Fresh(m, done, a)
    ensures Remote(m, done + {a}, p) == RemoteEffect(m, a, p, Remote(m, done, p))
  {
    hide Merge.ActionFor, FreshCopies, StaysLocally, SentUp, IsCopy, BroughtDown, Conflicts;
    OneMore(done, a, p);
    BroughtFromItsSide(m, done + {a}, p);
    assert forall b :: b in done ==> b in done + {a};
    assert a in done + {a};
  }

  // ---------- what one more action does to the world ----------

  ghost predicate Next(m: Merge, done: set<Action>, w: World, a: Action) {
    Usual(m) && Tracks(m, done, w) && Ready(m, done, a) && Meant(m, a)
  }

  /** No other action has this path for its subject, so both sides still hold there what they started with. */
  lemma StillThere(m: Merge, done: set<Action>, w: World, a: Action)
    requires Next(m, done, w, a)
    ensures a !in done
    ensures a.path in m.local ==> Get(w.local, a.path) == Some(m.local[a.path])
    ensures a.path in m.remote ==> Get(w.remote, a.path) == Some(m.remote[a.path])
    ensures a.path !in m.local && a.path in m.remote && m.remote[a.path].File? ==> a.path !in w.local
    ensures a.path !in m.remote && a.path in m.local && m.local[a.path].File? ==> a.path !in w.remote
  {
    hide Merge.ActionFor, FreshCopies, StaysLocally, Before, Local, Remote;
    if a in done { BeforeIsStrict(a, a); }
    assert forall b :: b in done ==> Planned(m, b) && b != a;
    assert At(m, done, w, a.path);
    forall b | b in done ensures b.path != a.path { }
    LocallyAsItWas(m, done, a.path);
    RemotelyAsItWas(m, done, a.path);
  }

  lemma LocallyAsItWas(m: Merge, done: set<Action>, p: string)
    requires Usual(m) && AllMeant(m, done) && forall b :: b in done ==> b.path != p
    ensures p in m.local ==> Local(m, done, p) == Some(m.local[p])
    ensures p !in m.local && p in m.remote && m.remote[p].File? ==> Local(m, done, p) == None
  {
    hide Merge.ActionFor, FreshCopies, StaysLocally, AllMeant;
    if p !in m.local && p in m.remote && m.remote[p].File? && BroughtDown(done, p) {
      var q :| AtOrInside(q, p) && (CreateLocalDirectory(q) in done || Download(q) in done);
      assert AtOrInside(q, q);
      BroughtFromItsSide(m, done, q);
    }
  }

  lemma RemotelyAsItWas(m: Merge, done: set<Action>, p: string)
    requires Usual(m) && AllMeant(m, done) && forall b :: b in done ==> b.path != p
    ensures p in m.remote ==> Remote(m, done, p) == Some(m.remote[p])
    ensures p !in m.remote && p in m.local && m.local[p].File? ==> Remote(m, done, p) == None
  {
    hide Merge.ActionFor, FreshCopies, StaysLocally, AllMeant;
    if p !in m.remote && p in m.local && m.local[p].File? && SentUp(done, p) {
      var q :| AtOrInside(q, p) && (CreateRemoteDirectory(q) in done || Upload(q) in done);
      assert AtOrInside(q, q);
      BroughtFromItsSide(m, done, q);
    }
  }

  lemma DirectoriesAbove(m: Merge, done: set<Action>, w: World, q: string)
    requires Usual(m) && Tracks(m, done, w)
    ensures q in m.remote ==> forall d :: Inside(q, d) && d in w.local ==> w.local[d].Directory?
    ensures q in m.local ==> forall d :: Inside(q, d) && d in w.remote ==> w.remote[d].Directory?
  {
    hide Tracks, Merge.ActionFor, FreshCopies;
    forall d ensures q in m.remote && Inside(q, d) && d in w.local ==> w.local[d].Directory? {
      DirectoriesInTheWay(m, done, w, d);
    }
    forall d ensures q in m.local && Inside(q, d) && d in w.remote ==> w.remote[d].Directory? {
      DirectoriesInTheWay(m, done, w, d);
    }
  }

  /** Directories are created parents first, so nothing inside this one can have created it already. */
  lemma NotYetSent(m: Merge, done: set<Action>, w: World, q: string)
    requires Next(m, done, w, CreateRemoteDirectory(q))
    ensures q !in w.remote
  {
    hide Merge.ActionFor, FreshCopies, StaysLocally;
    assert At(m, done, w, q);
    BroughtFromItsSide(m, done, q);
    if SentUp(done, q) {
      var r :| AtOrInside(r, q) && (CreateRemoteDirectory(r) in done || Upload(r) in done);
      var a := if CreateRemoteDirectory(r) in done then CreateRemoteDirectory(r) else Upload(r);
      assert Before(a, CreateRemoteDirectory(q));
      BeforeIsStrict(a, CreateRemoteDirectory(q));
      InsideComesLater(r, q);
      LessAsymmetric(q, r);
    }
  }

  /** A copy's name is free on both sides until the conflict it is for is handled. */
  lemma CopyIsFree(m: Merge, done: set<Action>, w: World, q: string, c: string)
    requires Next(m, done, w, KeepBoth(q, c))
    ensures c !in w.local && c !in w.remote && !IsCopy(done, c)
  {
    StillThere(m, done, w, KeepBoth(q, c));
    FreshCopy(m, q, c);
    hide Merge.ActionFor, StaysLocally, FreshCopies;
    assert forall r :: KeepBoth(r, c) in done ==> Planned(m, KeepBoth(r, c)) && CopiedTo(m, r, c);
    assert At(m, done, w, c);
    BroughtFromItsSide(m, done, c);
  }

  /** By the time something is removed from the server, nothing is left inside it. */
  lemma NothingInside(m: Merge, done: set<Action>, w: World, a: Action, p: string)
    requires Next(m, done, w, a) && (a.DeleteRemote? || a.RemoveRemoteDirectory?)
    requires Inside(p, a.path)
    ensures p !in w.remote
  {
    hide Merge.ActionFor, FreshCopies, StaysLocally;
    assert At(m, done, w, p);
    BroughtFromItsSide(m, done, p);
    assert forall q :: KeepBoth(q, p) in done ==> a.path in Above(q) && Meant(m, KeepBoth(q, p));
    if p in m.remote {
      InsideARemovalIsRemoved(m, a.path, p);
      InsideComesLater(p, a.path);
      assert Before(RemovalOf(m, p), a);
      assert RemovalOf(m, p) in done;
    }
  }

  ghost predicate Effects(m: Merge, a: Action, w: World, after: World, p: string)
    requires IsStamp(m.stamp)
  {
    && Get(after.local, p) == LocalEffect(m, a, p, Get(w.local, p))
    && Get(after.remote, p) == RemoteEffect(m, a, p, Get(w.remote, p))
  }

  lemma CreateLocalWorks(m: Merge, done: set<Action>, w: World, q: string, p: string)
    requires Next(m, done, w, CreateLocalDirectory(q))
    ensures Effects(m, CreateLocalDirectory(q), w, Apply(w, CreateLocalDirectory(q), Seen(m)), p)
  {
    DirectoriesAbove(m, done, w, q);
    DirectoriesInTheWay(m, done, w, q);
    CreatesLocally(w, q, Seen(m));
  }

  lemma CreateRemoteWorks(m: Merge, done: set<Action>, w: World, q: string, p: string)
    requires Next(m, done, w, CreateRemoteDirectory(q))
    ensures Effects(m, CreateRemoteDirectory(q), w, Apply(w, CreateRemoteDirectory(q), Seen(m)), p)
  {
    NotYetSent(m, done, w, q);
    DirectoriesAbove(m, done, w, q);
    CreatesRemotely(w, q, Seen(m));
  }

  lemma DownloadWorks(m: Merge, done: set<Action>, w: World, q: string, p: string)
    requires Next(m, done, w, Download(q))
    ensures Effects(m, Download(q), w, Apply(w, Download(q), Seen(m)), p)
  {
    StillThere(m, done, w, Download(q));
    DirectoriesAbove(m, done, w, q);
    Downloads(w, q, Seen(m));
  }

  lemma UploadWorks(m: Merge, done: set<Action>, w: World, q: string, p: string)
    requires Next(m, done, w, Upload(q))
    ensures Effects(m, Upload(q), w, Apply(w, Upload(q), Seen(m)), p)
  {
    StillThere(m, done, w, Upload(q));
    DirectoriesAbove(m, done, w, q);
    Uploads(w, q, Seen(m));
  }

  lemma DeleteLocalWorks(m: Merge, done: set<Action>, w: World, q: string, p: string)
    requires Next(m, done, w, DeleteLocal(q))
    ensures Effects(m, DeleteLocal(q), w, Apply(w, DeleteLocal(q), Seen(m)), p)
  {
    StillThere(m, done, w, DeleteLocal(q));
    DeletesLocally(w, q, Seen(m));
  }

  lemma RemoteRemovalWorks(m: Merge, done: set<Action>, w: World, a: Action, p: string)
    requires Next(m, done, w, a) && (a.DeleteRemote? || a.RemoveRemoteDirectory?)
    ensures Effects(m, a, w, Apply(w, a, Seen(m)), p)
  {
    StillThere(m, done, w, a);
    DeletesRemotely(w, a, Seen(m));
    if Inside(p, a.path) { NothingInside(m, done, w, a, p); }
  }

  lemma KeepBothWorks(m: Merge, done: set<Action>, w: World, q: string, c: string, p: string)
    requires Next(m, done, w, KeepBoth(q, c))
    ensures p != c ==> Effects(m, KeepBoth(q, c), w, Apply(w, KeepBoth(q, c), Seen(m)), p)
    ensures p == c ==>
              var after := Apply(w, KeepBoth(q, c), Seen(m));
              Get(after.local, c) == Get(m.local, q) == Get(after.remote, c)
  {
    StillThere(m, done, w, KeepBoth(q, c));
    CopyIsFree(m, done, w, q, c);
    DirectoriesAbove(m, done, w, q);
    KeepsBothAt(w, q, c, Seen(m), p);
  }

  /** Copies already made are left alone. */
  lemma CopiesStay(m: Merge, done: set<Action>, a: Action, p: string, entry: Entry)
    requires IsStamp(m.stamp) && Fresh(m, done, a) && IsCopy(done, p)
    ensures LocalEffect(m, a, p, Some(entry)) == Some(entry) == RemoteEffect(m, a, p, Some(entry))
    ensures a.KeepBoth? ==> a.localCopy != p
  {
    hide Merge.ActionFor, FreshCopies, StaysLocally;
    BroughtFromItsSide(m, done + {a}, p);
    var q :| KeepBoth(q, p) in done;
    assert KeepBoth(q, p) in done + {a} && a in done + {a};
    assert Meant(m, a) && Meant(m, KeepBoth(q, p));
    assert a.KeepBoth? ==> a == KeepBoth(a.path, a.localCopy);
  }

  lemma FollowsAt(m: Merge, done: set<Action>, w: World, a: Action, after: World, p: string)
    requires IsStamp(m.stamp) && Fresh(m, done, a) && At(m, done, w, p)
    requires a.KeepBoth? ==> p != a.localCopy
    requires Effects(m, a, w, after, p)
    ensures At(m, done + {a}, after, p)
  {
    OneMore(done, a, p);
    LocalFollows(m, done, a, p);
    RemoteFollows(m, done, a, p);
    hide Local, Remote, LocalEffect, RemoteEffect, Merge.ActionFor, FreshCopies, AllMeant, Usual;
    if IsCopy(done, p) {
      var q :| KeepBoth(q, p) in done;
      CopyIsAFile(m, done, a, q, p);
      CopiesStay(m, done, a, p, m.local[q]);
    }
  }

  lemma CopyIsAFile(m: Merge, done: set<Action>, a: Action, q: string, c: string)
    requires IsStamp(m.stamp) && Fresh(m, done, a) && KeepBoth(q, c) in done
    ensures q in m.local
    ensures forall r :: KeepBoth(r, c) in done + {a} ==> r == q
  {
    hide Merge.ActionFor, FreshCopies;
    assert KeepBoth(q, c) in done + {a};
    assert Meant(m, KeepBoth(q, c));
  }

  // ---------- removing a folder locally ----------

  lemma RemoveLocalWorks(m: Merge, done: set<Action>, w: World, q: string, p: string)
    requires Next(m, done, w, RemoveLocalDirectory(q))
    ensures Effects(m, RemoveLocalDirectory(q), w, Apply(w, RemoveLocalDirectory(q), Seen(m)), p)
  {
    StillThere(m, done, w, RemoveLocalDirectory(q));
    RemovesLocally(w, q, Seen(m));
    if StaysLocally(m, q) {
      SomethingStays(m, done, w, q);
    } else {
      NothingStays(m, done, w, q);
    }
  }

  lemma SomethingStays(m: Merge, done: set<Action>, w: World, q: string)
    requires Next(m, done, w, RemoveLocalDirectory(q)) && StaysLocally(m, q)
    ensures exists p :: p in w.local && Inside(p, q)
  {
    var r :| AtOrInside(r, q) &&
      (m.ActionFor(r) == Some(CreateRemoteDirectory(r)) || m.ActionFor(r) == Some(Upload(r)));
    var a := if m.ActionFor(r) == Some(CreateRemoteDirectory(r)) then CreateRemoteDirectory(r) else Upload(r);
    PlannedIsMeant(m, a);
    hide Merge.ActionFor, FreshCopies, StaysLocally;
    assert forall b :: b in done && b.path == r ==> Planned(m, b) && b == a;
    assert At(m, done, w, r);
    BroughtFromItsSide(m, done, r);
    assert r in w.local && Inside(r, q);
  }

  /** Everything a removed folder holds was to be deleted, and has been by the time its turn comes. */
  lemma NothingStays(m: Merge, done: set<Action>, w: World, q: string)
    requires Next(m, done, w, RemoveLocalDirectory(q)) && !StaysLocally(m, q)
    ensures !exists p :: p in w.local && Inside(p, q)
  {
    forall p | Inside(p, q) ensures p !in w.local {
      GoneInside(m, done, w, q, p);
    }
  }

  lemma GoneInside(m: Merge, done: set<Action>, w: World, q: string, p: string)
    requires Next(m, done, w, RemoveLocalDirectory(q)) && !StaysLocally(m, q) && Inside(p, q)
    ensures p !in w.local
  {
    if p in m.local {
      RemovedInside(m, q, p);
      InsideComesLater(p, q);
      var a := if m.local[p].Directory? then RemoveLocalDirectory(p) else DeleteLocal(p);
      assert Planned(m, a) && Before(a, RemoveLocalDirectory(q));
    }
    hide Merge.ActionFor, FreshCopies, StaysLocally;
    assert At(m, done, w, p);
    BroughtFromItsSide(m, done, p);
    assert forall r :: KeepBoth(r, p) in done ==> q in Above(r) && Meant(m, KeepBoth(r, p));
  }

  lemma RemovedInside(m: Merge, q: string, p: string)
    requires Usual(m) && !StaysLocally(m, q) && Inside(p, q) && p in m.local && q !in m.remote
    ensures m.ActionFor(p) == Some(if m.local[p].Directory? then RemoveLocalDirectory(p) else DeleteLocal(p))
    ensures !StaysLocally(m, p)
  {
    hide HoldsOnlyWhatWasSynced, ConflictCopy;
    assert p !in m.remote;
    assert AtOrInside(p, q);
    forall r | AtOrInside(r, p)
      ensures m.ActionFor(r) != Some(CreateRemoteDirectory(r)) && m.ActionFor(r) != Some(Upload(r))
    {
      if r != p { InsideTransitive(r, p, q); }
      assert AtOrInside(r, q);
    }
  }

  // ---------- the whole run ----------

  ghost function Everything(m: Merge): set<Action>
    requires IsStamp(m.stamp)
  {
    set a | a in PlanOf(m).actions
  }

  lemma EverythingPlanned(m: Merge, a: Action)
    requires IsStamp(m.stamp)
    ensures a in Everything(m) <==> Planned(m, a)
  {
    PlanHolds(m, a);
  }

  /** A path that exists once the pass is over. */
  ghost predicate EndsUp(m: Merge, p: string)
    requires IsStamp(m.stamp)
  {
    IsCopy(Everything(m), p) || Local(m, Everything(m), p).Some?
  }

  /** Whatever is recorded either ends up existing or still has its own removal from the state ahead. */
  ghost predicate Records(m: Merge, done: set<Action>, base: Snapshot)
    requires IsStamp(m.stamp)
  {
    forall p :: p in base && !EndsUp(m, p) ==> p in m.base && forall a :: a in done ==> a.path != p
  }

  lemma LocalEndsUp(m: Merge, p: string)
    requires Usual(m) && p in m.local
    requires !Planned(m, DeleteLocal(p))
    requires Planned(m, RemoveLocalDirectory(p)) ==> StaysLocally(m, p)
    ensures EndsUp(m, p)
  {
    EverythingPlanned(m, DeleteLocal(p));
    EverythingPlanned(m, RemoveLocalDirectory(p));
    hide Merge.ActionFor, FreshCopies, Everything, StaysLocally;
    if Download(p) in Everything(m) {
      EverythingPlanned(m, Download(p));
      PlannedIsMeant(m, Download(p));
    } else if Conflicts(Everything(m), p) {
      var c :| KeepBoth(p, c) in Everything(m);
      EverythingPlanned(m, KeepBoth(p, c));
      PlannedIsMeant(m, KeepBoth(p, c));
    }
  }

  lemma BroughtEndsUp(m: Merge, p: string, a: Action)
    requires Usual(m) && Planned(m, a) && a.path == p
    requires a.CreateLocalDirectory? || (a.Download? && p !in m.local)
    ensures EndsUp(m, p)
  {
    PlannedIsMeant(m, a);
    EverythingPlanned(m, a);
    hide Merge.ActionFor, FreshCopies, Everything;
    assert AtOrInside(p, p);
  }

  lemma SubjectEndsUp(m: Merge, a: Action)
    requires Usual(m) && Planned(m, a)
    ensures a.CreateLocalDirectory? || a.CreateRemoteDirectory? || a.Download? || a.Upload? || a.KeepBoth? ==> EndsUp(m, a.path)
    ensures a.RemoveLocalDirectory? && StaysLocally(m, a.path) ==> EndsUp(m, a.path)
  {
    PlannedIsMeant(m, a);
    hide Merge.ActionFor, FreshCopies, EndsUp, StaysLocally;
    if a.CreateLocalDirectory? || (a.Download? && a.path !in m.local) {
      BroughtEndsUp(m, a.path, a);
    } else if a.path in m.local && !a.DeleteLocal? && !(a.RemoveLocalDirectory? && !StaysLocally(m, a.path)) {
      LocalEndsUp(m, a.path);
    }
  }

  lemma AboveEndsUp(m: Merge, q: string, d: string)
    requires Usual(m) && Planned(m, Upload(q)) && Inside(q, d)
    ensures EndsUp(m, d)
  {
    PlannedIsMeant(m, Upload(q));
    assert AtOrInside(q, d);
    assert StaysLocally(m, d);
    if Planned(m, DeleteLocal(d)) { PlannedIsMeant(m, DeleteLocal(d)); }
    LocalEndsUp(m, d);
  }

  lemma CopyEndsUp(m: Merge, a: Action)
    requires Usual(m) && Planned(m, a) && a.KeepBoth?
    ensures EndsUp(m, a.localCopy)
  {
    EverythingPlanned(m, a);
    assert a == KeepBoth(a.path, a.localCopy);
  }

  lemma WhatIsRecordedEndsUp(m: Merge, a: Action)
    requires Usual(m) && Planned(m, a)
    ensures a.CreateLocalDirectory? || a.CreateRemoteDirectory? || a.Download? || a.Upload? || a.KeepBoth? ==> EndsUp(m, a.path)
    ensures a.Upload? ==> forall d :: Inside(a.path, d) ==> EndsUp(m, d)
    ensures a.KeepBoth? ==> EndsUp(m, a.localCopy)
    ensures a.RemoveLocalDirectory? && StaysLocally(m, a.path) ==> EndsUp(m, a.path)
  {
    hide Merge.ActionFor, FreshCopies, EndsUp, StaysLocally, Inside;
    SubjectEndsUp(m, a);
    if a.KeepBoth? { CopyEndsUp(m, a); }
    if a.Upload? {
      forall d | Inside(a.path, d) ensures EndsUp(m, d) { AboveEndsUp(m, a.path, d); }
    }
  }

  lemma StepTracks(m: Merge, done: set<Action>, w: World, a: Action)
    requires Next(m, done, w, a)
    ensures Tracks(m, done + {a}, Apply(w, a, Seen(m)))
  {
    StillThere(m, done, w, a);
    DoneIsMeant(m, done + {a});
    assert Fresh(m, done, a);
    hide Merge.ActionFor, FreshCopies, Apply, At, Effects, AllMeant, StaysLocally;
    var after := Apply(w, a, Seen(m));
    forall p ensures At(m, done + {a}, after, p) {
      StepTracksAt(m, done, w, a, p);
    }
  }

  lemma StepTracksAt(m: Merge, done: set<Action>, w: World, a: Action, p: string)
    requires Next(m, done, w, a) && Fresh(m, done, a)
    ensures At(m, done + {a}, Apply(w, a, Seen(m)), p)
  {
    assert IsStamp(m.stamp);
    hide Merge.ActionFor, FreshCopies, Apply, Effects, AllMeant, StaysLocally, Ready, Usual, IsStamp;
    var after := Apply(w, a, Seen(m));
    assert At(m, done, w, p);
    if a.KeepBoth? && p == a.localCopy {
      assert a == KeepBoth(a.path, p);
      KeepBothWorks(m, done, w, a.path, p, p);
      CopyAppears(m, done, a, w, after);
    } else {
      assert Effects(m, a, w, after, p) by {
        match a {
          case CreateLocalDirectory(q) => CreateLocalWorks(m, done, w, q, p);
          case CreateRemoteDirectory(q) => CreateRemoteWorks(m, done, w, q, p);
          case Download(q) => DownloadWorks(m, done, w, q, p);
          case Upload(q) => UploadWorks(m, done, w, q, p);
          case DeleteLocal(q) => DeleteLocalWorks(m, done, w, q, p);
          case DeleteRemote(q) => RemoteRemovalWorks(m, done, w, a, p);
          case RemoveRemoteDirectory(q) => RemoteRemovalWorks(m, done, w, a, p);
          case RemoveLocalDirectory(q) => RemoveLocalWorks(m, done, w, q, p);
          case KeepBoth(q, c) => KeepBothWorks(m, done, w, q, c, p);
          case Forget(q) => ForgetWorks(m, w, q, p);
          case SetAside(_, _) =>
        }
      }
      FollowsAt(m, done, w, a, after, p);
    }
  }

  lemma ForgetWorks(m: Merge, w: World, q: string, p: string)
    requires IsStamp(m.stamp)
    ensures Effects(m, Forget(q), w, Apply(w, Forget(q), Seen(m)), p)
  {
    Forgets(w, q, Seen(m));
  }

  lemma CopyAppears(m: Merge, done: set<Action>, a: Action, w: World, after: World)
    requires Next(m, done, w, a) && Fresh(m, done, a) && a.KeepBoth?
    requires Get(after.local, a.localCopy) == Get(m.local, a.path) == Get(after.remote, a.localCopy)
    ensures At(m, done + {a}, after, a.localCopy)
  {
    OneMore(done, a, a.localCopy);
    hide Merge.ActionFor, FreshCopies, Ready, Tracks, StaysLocally;
    assert a == KeepBoth(a.path, a.localCopy) && a in done + {a};
  }

  lemma StepRecords(m: Merge, done: set<Action>, w: World, a: Action)
    requires Next(m, done, w, a) && Records(m, done, w.base)
    ensures Records(m, done + {a}, Apply(w, a, Seen(m)).base)
  {
    hide Merge.ActionFor, FreshCopies, Apply, EndsUp, Tracks, Meant, Usual, StaysLocally;
    WhatIsRecordedEndsUp(m, a);
    BaseAfter(m, done, w, a);
  }

  /** What an action may leave recorded: what was, less the subject, and what it records. */
  lemma BaseAfter(m: Merge, done: set<Action>, w: World, a: Action)
    requires Next(m, done, w, a)
    ensures forall p :: p in Apply(w, a, Seen(m)).base ==>
              || (p in w.base && p != a.path)
              || (p == a.path && (a.CreateLocalDirectory? || a.CreateRemoteDirectory? || a.Download? || a.Upload? || a.KeepBoth?))
              || (a.Upload? && Inside(a.path, p))
              || (a.KeepBoth? && p == a.localCopy)
              || (p == a.path && a.RemoveLocalDirectory? && StaysLocally(m, a.path))
  {
    StillThere(m, done, w, a);
    DirectoriesAbove(m, done, w, a.path);
    match a {
      case CreateLocalDirectory(q) =>
        DirectoriesInTheWay(m, done, w, q);
        CreatesLocally(w, q, Seen(m));
      case CreateRemoteDirectory(q) =>
        NotYetSent(m, done, w, q);
        CreatesRemotely(w, q, Seen(m));
      case Download(q) => Downloads(w, q, Seen(m));
      case Upload(q) => Uploads(w, q, Seen(m));
      case DeleteLocal(q) => DeletesLocally(w, q, Seen(m));
      case DeleteRemote(q) => DeletesRemotely(w, a, Seen(m));
      case RemoveRemoteDirectory(q) => DeletesRemotely(w, a, Seen(m));
      case RemoveLocalDirectory(q) =>
        RemovesLocally(w, q, Seen(m));
        if !StaysLocally(m, q) { NothingStays(m, done, w, q); }
      case KeepBoth(q, c) =>
        CopyIsFree(m, done, w, q, c);
        KeepsBoth(w, q, c, Seen(m));
      case Forget(q) => Forgets(w, q, Seen(m));
      case SetAside(_, _) =>
    }
  }

  ghost function Done(m: Merge, i: nat): set<Action>
    requires IsStamp(m.stamp) && i <= |PlanOf(m).actions|
  {
    set a | a in PlanOf(m).actions[..i]
  }

  lemma ReadyInOrder(m: Merge, i: nat)
    requires Usual(m) && i < |PlanOf(m).actions|
    ensures Ready(m, Done(m, i), PlanOf(m).actions[i])
    ensures Done(m, i + 1) == Done(m, i) + {PlanOf(m).actions[i]}
  {
    hide PlanOf, Merge.ActionFor;
    var actions := PlanOf(m).actions;
    PlanInOrder(m);
    PlanHolds(m, actions[i]);
    forall a | a in Done(m, i) ensures Planned(m, a) && Before(a, actions[i]) {
      PlanHolds(m, a);
    }
    forall a | Planned(m, a) && Before(a, actions[i]) ensures a in Done(m, i) {
      PlannedEarlier(m, a, i);
    }
    assert actions[..i + 1] == actions[..i] + [actions[i]];
  }

  lemma {:induction false} RunTracks(m: Merge, i: nat)
    requires Usual(m) && i <= |PlanOf(m).actions|
    ensures var w := ApplyAll(World(m.local, m.remote, m.base), PlanOf(m).actions[..i], Seen(m));
            Tracks(m, Done(m, i), w) && Records(m, Done(m, i), w.base)
  {
    hide PlanOf, Merge.ActionFor, FreshCopies, Apply, EndsUp, StaysLocally, Meant;
    var start := World(m.local, m.remote, m.base);
    var actions := PlanOf(m).actions;
    if i == 0 {
      forall p ensures At(m, {}, start, p) {}
      assert Done(m, 0) == {};
    } else {
      RunTracks(m, i - 1);
      var a := actions[i - 1];
      var w := ApplyAll(start, actions[..i - 1], Seen(m));
      assert actions[..i][..i - 1] == actions[..i - 1];
      ReadyInOrder(m, i - 1);
      PlannedIsMeant(m, a);
      StepTracks(m, Done(m, i - 1), w, a);
      StepRecords(m, Done(m, i - 1), w, a);
    }
  }

  // ---------- where the run ends ----------

  lemma EverythingMeant(m: Merge)
    requires Usual(m)
    ensures AllMeant(m, Everything(m))
  {
    hide Merge.ActionFor;
    forall a | a in Everything(m) ensures Planned(m, a) { EverythingPlanned(m, a); }
    DoneIsMeant(m, Everything(m));
  }

  /** Something in a folder only one side has is kept exactly when it is not what the base recorded. */
  lemma KeptOnOneSide(m: Merge, q: string)
    requires Usual(m)
    ensures q in m.local && q !in m.remote ==>
              ((Planned(m, CreateRemoteDirectory(q)) || Planned(m, Upload(q))) <==> Get(m.base, q) != Some(m.local[q]))
    ensures q in m.remote && q !in m.local ==>
              ((Planned(m, CreateLocalDirectory(q)) || Planned(m, Download(q))) <==> Get(m.base, q) != Some(m.remote[q]))
  {
    hide HoldsOnlyWhatWasSynced, ConflictCopy;
  }

  ghost predicate NothingNew(m: Merge, p: string) {
    forall q :: q in m.remote && AtOrInside(q, p) ==> Get(m.base, q) == Some(m.remote[q])
  }

  lemma RemovalMeansNothingNew(m: Merge, p: string)
    requires Usual(m) && p in m.remote && p !in m.local && m.remote[p].Directory?
    ensures Planned(m, RemoveRemoteDirectory(p)) <==> NothingNew(m, p)
    ensures !Planned(m, DeleteRemote(p))
  {
    ScanSeesTheWholeDirectory(m.remote, m.base, p);
    hide HoldsOnlyWhatWasSynced, FreshCopies, ConflictCopy;
    assert AtOrInside(p, p);
    assert forall q :: Inside(q, p) ==> AtOrInside(q, p);
  }

  lemma BroughtMeansNew(m: Merge, q: string)
    requires Usual(m) && q !in m.local
    ensures CreateLocalDirectory(q) in Everything(m) || Download(q) in Everything(m) <==>
            q in m.remote && Get(m.base, q) != Some(m.remote[q])
  {
    EverythingPlanned(m, CreateLocalDirectory(q));
    EverythingPlanned(m, Download(q));
    if Planned(m, CreateLocalDirectory(q)) { PlannedIsMeant(m, CreateLocalDirectory(q)); }
    if Planned(m, Download(q)) { PlannedIsMeant(m, Download(q)); }
    hide Merge.ActionFor, FreshCopies, Everything;
    KeptOnOneSide(m, q);
  }

  /** A folder only the server has comes down exactly when something in it was not there at the last pass. */
  lemma DownloadedFolder(m: Merge, p: string)
    requires Usual(m) && p in m.remote && p !in m.local && m.remote[p].Directory?
    ensures BroughtDown(Everything(m), p) <==> !Planned(m, RemoveRemoteDirectory(p))
    ensures !Planned(m, DeleteRemote(p))
  {
    RemovalMeansNothingNew(m, p);
    forall q | AtOrInside(q, p)
      ensures CreateLocalDirectory(q) in Everything(m) || Download(q) in Everything(m) <==>
              q in m.remote && Get(m.base, q) != Some(m.remote[q])
    {
      assert q !in m.local;
      BroughtMeansNew(m, q);
    }
  }

  lemma SentFolder(m: Merge, p: string)
    requires Usual(m) && p !in m.remote
    ensures SentUp(Everything(m), p) <==> StaysLocally(m, p)
  {
    var all := Everything(m);
    forall q ensures (CreateRemoteDirectory(q) in all || Upload(q) in all) <==>
      (m.ActionFor(q) == Some(CreateRemoteDirectory(q)) || m.ActionFor(q) == Some(Upload(q)))
    {
      EverythingPlanned(m, CreateRemoteDirectory(q));
      EverythingPlanned(m, Upload(q));
    }
  }

  /** Once everything is done, each path is the same on both sides. */
  lemma SidesMeet(m: Merge, p: string)
    requires Usual(m) && !IsCopy(Everything(m), p)
    ensures Local(m, Everything(m), p) == Remote(m, Everything(m), p)
  {
    if p in m.local && p in m.remote {
      SharedPathsMeet(m, p);
    } else if p in m.local {
      LocalOnlyMeets(m, p);
    } else if p in m.remote {
      RemoteOnlyMeets(m, p);
    } else {
      EverythingMeant(m);
      BroughtFromItsSide(m, Everything(m), p);
    }
  }

  /** At most one action, planned or not, is in `Everything` for a path. */
  lemma OnlyItsAction(m: Merge, p: string, a: Action)
    requires Usual(m) && a.path == p
    ensures a in Everything(m) <==> m.ActionFor(p) == Some(a)
  {
    EverythingPlanned(m, a);
  }

  lemma SharedAction(m: Merge, p: string)
    requires IsStamp(m.stamp) && ValidPath(p) && p in m.local && p in m.remote
    requires m.local[p].Directory? == m.remote[p].Directory?
    ensures match m.ActionFor(p)
            case None => m.local[p] == m.remote[p]
            case Some(a) => a.path == p && (a.Download? || a.Upload? || a.KeepBoth?)
  {
    hide HoldsOnlyWhatWasSynced, ConflictCopy, ValidPath, IsStamp, Beside, ConflictName, FileName;
    ConflictCopyExists(p, m.stamp);
  }

  lemma LocalFileAsks(m: Merge, p: string)
    requires IsStamp(m.stamp) && p in m.local && p !in m.remote && m.local[p].File?
    ensures m.ActionFor(p) == Some(if Get(m.base, p) == Some(m.local[p]) then DeleteLocal(p) else Upload(p))
  {
    hide HoldsOnlyWhatWasSynced, ConflictCopy, IsStamp;
  }

  lemma LocalFolderAsks(m: Merge, p: string)
    requires IsStamp(m.stamp) && p in m.local && p !in m.remote && m.local[p].Directory?
    ensures m.ActionFor(p) == Some(if p in m.base then RemoveLocalDirectory(p) else CreateRemoteDirectory(p))
  {
    hide HoldsOnlyWhatWasSynced, ConflictCopy, IsStamp;
  }

  lemma RemoteFileAsks(m: Merge, p: string)
    requires IsStamp(m.stamp) && p in m.remote && p !in m.local && m.remote[p].File?
    ensures m.ActionFor(p) == Some(if Get(m.base, p) == Some(m.remote[p]) then DeleteRemote(p) else Download(p))
  {
    hide HoldsOnlyWhatWasSynced, ConflictCopy, IsStamp;
  }

  lemma NoConflictOnOneSide(m: Merge, p: string)
    requires Usual(m) && !(p in m.local && p in m.remote)
    ensures !Conflicts(Everything(m), p)
  {
    hide Merge.ActionFor, FreshCopies, Everything;
    EverythingMeant(m);
    assert forall c :: KeepBoth(p, c) in Everything(m) ==> Meant(m, KeepBoth(p, c));
  }

  lemma SharedPathsMeet(m: Merge, p: string)
    requires Usual(m) && p in m.local && p in m.remote
    ensures Local(m, Everything(m), p) == Remote(m, Everything(m), p)
  {
    hide Everything, Merge.ActionFor, StaysLocally, FreshCopies, IsStamp, ValidPath, Closed;
    var all := Everything(m);
    SharedAction(m, p);
    forall a: Action | a.path == p ensures a in all <==> m.ActionFor(p) == Some(a) { OnlyItsAction(m, p, a); }
    assert Conflicts(all, p) <==> m.ActionFor(p).Some? && m.ActionFor(p).value.KeepBoth? by {
      if m.ActionFor(p).Some? && m.ActionFor(p).value.KeepBoth? {
        var a := m.ActionFor(p).value;
        assert a == KeepBoth(p, a.localCopy) && a in all;
      }
      assert forall c :: KeepBoth(p, c).path == p;
    }
    assert DeleteLocal(p).path == RemoveLocalDirectory(p).path == DeleteRemote(p).path == p;
    assert RemoveRemoteDirectory(p).path == Download(p).path == Upload(p).path == p;
  }

  lemma LocalOnlyMeets(m: Merge, p: string)
    requires Usual(m) && p in m.local && p !in m.remote
    ensures Local(m, Everything(m), p) == Remote(m, Everything(m), p)
  {
    var all := Everything(m);
    EverythingMeant(m);
    OnlyItsAction(m, p, DeleteLocal(p));
    OnlyItsAction(m, p, RemoveLocalDirectory(p));
    OnlyItsAction(m, p, Download(p));
    OnlyItsAction(m, p, Upload(p));
    OnlyItsAction(m, p, CreateRemoteDirectory(p));
    SentFolder(m, p);
    if m.local[p].File? {
      FileSent(m, p);
    } else {
      FolderSent(m, p);
    }
  }

  lemma FileSent(m: Merge, p: string)
    requires Usual(m) && p in m.local && p !in m.remote && m.local[p].File?
    ensures StaysLocally(m, p) <==> m.ActionFor(p) == Some(Upload(p))
    ensures m.ActionFor(p) == Some(Upload(p)) || m.ActionFor(p) == Some(DeleteLocal(p))
    ensures !Conflicts(Everything(m), p)
  {
    hide Merge.ActionFor, FreshCopies, Everything, Conflicts;
    LocalFileAsks(m, p);
    NoConflictOnOneSide(m, p);
    assert AtOrInside(p, p);
    if StaysLocally(m, p) {
      var q :| AtOrInside(q, p) &&
        (m.ActionFor(q) == Some(CreateRemoteDirectory(q)) || m.ActionFor(q) == Some(Upload(q)));
      PlannedIsMeant(m, m.ActionFor(q).value);
    }
  }

  lemma FolderSent(m: Merge, p: string)
    requires Usual(m) && p in m.local && p !in m.remote && m.local[p].Directory?
    ensures m.ActionFor(p) == Some(CreateRemoteDirectory(p)) || m.ActionFor(p) == Some(RemoveLocalDirectory(p))
    ensures m.ActionFor(p) == Some(CreateRemoteDirectory(p)) ==> StaysLocally(m, p)
    ensures !Conflicts(Everything(m), p)
  {
    hide Merge.ActionFor, FreshCopies, Everything, Conflicts;
    LocalFolderAsks(m, p);
    NoConflictOnOneSide(m, p);
    assert AtOrInside(p, p);
  }

  lemma RemoteOnlyMeets(m: Merge, p: string)
    requires Usual(m) && p in m.remote && p !in m.local
    ensures Local(m, Everything(m), p) == Remote(m, Everything(m), p)
  {
    OnlyItsAction(m, p, DeleteRemote(p));
    OnlyItsAction(m, p, RemoveRemoteDirectory(p));
    OnlyItsAction(m, p, Upload(p));
    if m.remote[p].File? {
      FileBrought(m, p);
    } else {
      DownloadedFolder(m, p);
    }
    if m.ActionFor(p) == Some(Upload(p)) { PlannedIsMeant(m, Upload(p)); }
  }

  lemma FileBrought(m: Merge, p: string)
    requires Usual(m) && p in m.remote && p !in m.local && m.remote[p].File?
    ensures BroughtDown(Everything(m), p) <==> m.ActionFor(p) == Some(Download(p))
    ensures m.ActionFor(p) == Some(Download(p)) || m.ActionFor(p) == Some(DeleteRemote(p))
  {
    hide Merge.ActionFor, FreshCopies, Everything;
    RemoteFileAsks(m, p);
    EverythingMeant(m);
    OnlyItsAction(m, p, Download(p));
    OnlyItsAction(m, p, CreateLocalDirectory(p));
    assert AtOrInside(p, p);
    assert forall q :: AtOrInside(q, p) && q in m.remote ==> q == p;
  }

  /** A path the base knows and nothing is planned for is there when the pass ends. */
  lemma UnplannedEndsUp(m: Merge, p: string)
    requires Usual(m) && p in m.base && m.ActionFor(p) == None
    ensures EndsUp(m, p)
  {
    if p in m.local {
      LocalEndsUp(m, p);
    } else {
      assert p in m.remote && m.remote[p].Directory?;
      DownloadedFolder(m, p);
    }
  }

  lemma EqualSidesAskNothing(m: Merge, p: string)
    requires IsStamp(m.stamp) && m.local == m.remote && m.base.Keys <= m.local.Keys
    ensures m.ActionFor(p) == None && !m.Blocks(p)
  {
  }

  lemma WhatIsBlocked(m: Merge, p: string)
    requires IsStamp(m.stamp)
    ensures p in PlanOf(m).blocked <==> m.Blocks(p)
    ensures PlanOf(m).held == []
  {
    BlockedHolds(m, Ordered(m.Paths()), p);
  }

  /** Two equal sides, and a base that knows nothing else, leave nothing to do. */
  lemma NothingToDo(m: Merge)
    requires IsStamp(m.stamp) && m.local == m.remote && m.base.Keys <= m.local.Keys
    ensures PlanOf(m).IsEmpty()
  {
    hide PlanOf, Merge.ActionFor, Merge.Blocks;
    var plan := PlanOf(m);
    forall a ensures a !in plan.actions {
      PlanHolds(m, a);
      EqualSidesAskNothing(m, a.path);
    }
    forall p ensures p !in plan.blocked {
      WhatIsBlocked(m, p);
      EqualSidesAskNothing(m, p);
    }
    WhatIsBlocked(m, "");
    SomethingOrNothing(plan.actions);
    SomethingOrNothing(plan.blocked);
  }

  lemma WholeRun(m: Merge) returns (w: World)
    requires Usual(m)
    ensures w == ApplyAll(World(m.local, m.remote, m.base), PlanOf(m).actions, Seen(m))
    ensures Tracks(m, Everything(m), w) && Records(m, Everything(m), w.base)
  {
    hide PlanOf, Merge.ActionFor, FreshCopies;
    var actions := PlanOf(m).actions;
    RunTracks(m, |actions|);
    assert actions[..|actions|] == actions;
    w := ApplyAll(World(m.local, m.remote, m.base), actions, Seen(m));
  }

  lemma SidesEqual(m: Merge, w: World, p: string)
    requires Usual(m) && Tracks(m, Everything(m), w)
    ensures Get(w.local, p) == Get(w.remote, p)
    ensures EndsUp(m, p) ==> p in w.local
  {
    hide Merge.ActionFor, FreshCopies, Everything, Local, Remote;
    assert At(m, Everything(m), w, p);
    if IsCopy(Everything(m), p) {
      var q :| KeepBoth(q, p) in Everything(m);
      assert Meant(m, KeepBoth(q, p));
    } else {
      SidesMeet(m, p);
    }
  }

  lemma RecordedExists(m: Merge, w: World, p: string)
    requires Usual(m) && Tracks(m, Everything(m), w) && Records(m, Everything(m), w.base)
    ensures p in RecordAgreed(w, Seen(m)).base ==> p in w.local
  {
    SidesEqual(m, w, p);
    if p in w.base && !EndsUp(m, p) {
      if m.ActionFor(p) == None {
        UnplannedEndsUp(m, p);
      } else {
        var a := m.ActionFor(p).value;
        ActionKeepsItsPath(m, p);
        EverythingPlanned(m, a);
      }
    } else if p in m.local && p in m.remote && m.local[p].Directory? {
      LocalEndsUp(m, p);
    }
  }

  /**
    Convergence: the pass leaves both sides equal, and whatever the next pass is named by, it finds
    nothing to do and nothing blocked.
   */
  lemma PassConverges(m: Merge, later: string)
    requires Usual(m) && IsStamp(later)
    ensures Pass(m).local == Pass(m).remote
    ensures PlanOf(Merge(Pass(m).local, Pass(m).remote, Pass(m).base, later)).IsEmpty()
  {
    var w := WholeRun(m);
    assert Pass(m) == RecordAgreed(w, Seen(m));
    hide PlanOf, Merge.ActionFor, FreshCopies, Tracks, Records, Everything, EndsUp, RecordAgreed;
    forall p ensures Get(w.local, p) == Get(w.remote, p) { SidesEqual(m, w, p); }
    SameEverywhere(w.local, w.remote);
    assert Pass(m).local == w.local && Pass(m).remote == w.remote by { OnlyTheBase(w, Seen(m)); }
    forall p | p in Pass(m).base ensures p in w.local { RecordedExists(m, w, p); }
    NothingToDo(Merge(Pass(m).local, Pass(m).remote, Pass(m).base, later));
  }

  lemma OnlyTheBase(w: World, seen: Listing)
    ensures RecordAgreed(w, seen).local == w.local && RecordAgreed(w, seen).remote == w.remote
  {
  }

  lemma SameEverywhere(a: Snapshot, b: Snapshot)
    requires forall p :: Get(a, p) == Get(b, p)
    ensures a == b
  {
    assert forall p :: p in a <==> p in b by {
      forall p ensures p in a <==> p in b { assert Get(a, p) == Get(b, p); }
    }
    forall p | p in a ensures a[p] == b[p] { assert Get(a, p) == Get(b, p); }
  }
}
