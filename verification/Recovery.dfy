/**
  After a pass that was cut off: whatever part of a plan was carried out, and whether or not the state
  was saved, the next pass to complete makes both sides equal (crates/client/src/sync/engine.rs).
 */
module Recovery {
  import opened Results
  import opened Paths
  import opened ConflictNames
  import opened Planning
  import opened Engine
  import opened NoLoss
  import opened Convergence

  // ---------- what a path can be ----------

  ghost predicate Folder(m: Merge, p: string) {
    Get(m.local, p) == Some(Directory) || Get(m.remote, p) == Some(Directory) || Get(m.base, p) == Some(Directory)
  }

  ghost predicate IsFile(s: Snapshot, p: string) { p in s && s[p].File? }

  ghost predicate Filed(m: Merge, p: string)
    requires IsStamp(m.stamp)
  {
    IsFile(m.local, p) || IsFile(m.remote, p) || IsFile(m.base, p) || exists q :: CopiedTo(m, q, p)
  }

  /** A run to recover from: copies take names that nothing has, or had when last agreed. */
  ghost predicate FreshNames(m: Merge) {
    Usual(m) && forall p, c :: CopiedTo(m, p, c) ==> c !in m.base
  }

  lemma NotBoth(m: Merge, p: string)
    requires FreshNames(m)
    ensures !(Folder(m, p) && Filed(m, p))
  {
    hide Merge.ActionFor;
    if q :| CopiedTo(m, q, p) { FreshCopy(m, q, p); }
  }

  ghost predicate Consistent(m: Merge, s: Snapshot)
    requires IsStamp(m.stamp)
  {
    forall p :: p in s ==> if s[p].Directory? then Folder(m, p) else Filed(m, p)
  }

  ghost predicate Recoverable(m: Merge, w: World)
    requires IsStamp(m.stamp)
  {
    Closed(w.local) && Closed(w.remote) && Consistent(m, w.local) && Consistent(m, w.remote) && Consistent(m, w.base)
  }

  // ---------- what steps keep ----------

  ghost predicate FoldersAbove(m: Merge, p: string) { forall d :: Inside(p, d) ==> Folder(m, d) }

  ghost predicate HasAbove(s: Snapshot, p: string) { forall d :: Inside(p, d) ==> Get(s, d) == Some(Directory) }

  /** A step that puts folders where there were folders, and files where there were files or copies go. */
  ghost predicate Allowed(m: Merge, step: Step)
    requires IsStamp(m.stamp)
  {
    match step
    case MakeLocalDirectories(ds) => forall d :: d in ds ==> Folder(m, d) && forall e :: Inside(d, e) ==> e in ds
    case MakeRemoteDirectory(p) => Folder(m, p) && FoldersAbove(m, p)
    case Put(p, _) => FoldersAbove(m, p)
    case RenameLocal(p, c) => Filed(m, c) && forall d :: Inside(c, d) <==> Inside(p, d)
    case Record(p, entry) => if entry.Directory? then Folder(m, p) else Filed(m, p)
    case RecordAbove(p) => FoldersAbove(m, p)
    case _ => true
  }

  lemma StepKeepsLocalClosed(m: Merge, w: World, step: Step)
    requires IsStamp(m.stamp) && Closed(w.local) && Allowed(m, step) && Perform(w, step).Some?
    requires step.Fetch? ==> HasAbove(w.local, step.path)
    ensures Closed(Perform(w, step).value.local)
  {
    hide Folder, Filed, Merge.ActionFor;
    var after := Perform(w, step).value;
    forall p, d | p in after.local && Inside(p, d) ensures d in after.local && after.local[d].Directory? {
      if p in w.local { assert d in w.local && w.local[d].Directory?; }
    }
  }

  lemma StepKeepsRemoteClosed(w: World, step: Step)
    requires Closed(w.remote) && Perform(w, step).Some?
    ensures Closed(Perform(w, step).value.remote)
  {
    var after := Perform(w, step).value;
    forall p, d | p in after.remote && Inside(p, d) ensures d in after.remote && after.remote[d].Directory? {
      if p in w.remote {
        assert d in w.remote && w.remote[d].Directory?;
        if step.RemoveRemote? && Inside(d, step.path) { InsideTransitive(p, d, step.path); }
      } else if step.Put? || step.MakeRemoteDirectory? {
        if p != step.path { InsideTransitive(step.path, p, d); }
      }
    }
  }

  lemma StepKeepsConsistent(m: Merge, w: World, step: Step)
    requires IsStamp(m.stamp) && Recoverable(m, w) && Allowed(m, step) && Perform(w, step).Some?
    ensures var after := Perform(w, step).value;
            Consistent(m, after.local) && Consistent(m, after.remote) && Consistent(m, after.base)
  {
    hide Folder, Filed, Merge.ActionFor, Closed;
  }

  lemma {:induction false} StepsKeepRecoverable(m: Merge, w: World, steps: seq<Step>)
    requires IsStamp(m.stamp) && Recoverable(m, w)
    requires forall i :: 0 <= i < |steps| ==> Allowed(m, steps[i])
    requires steps != [] && steps[0].Fetch? ==> HasAbove(w.local, steps[0].path)
    requires forall i :: 0 < i < |steps| && steps[i].Fetch? ==> steps[i - 1] == MakeLocalDirectories(Above(steps[i].path))
    ensures Recoverable(m, Carry(w, steps))
    decreases steps
  {
    hide Allowed, Closed, Consistent, Folder, Filed, Merge.ActionFor;
    if steps != [] && Perform(w, steps[0]).Some? {
      var next := Perform(w, steps[0]).value;
      StepKeepsLocalClosed(m, w, steps[0]);
      StepKeepsRemoteClosed(w, steps[0]);
      StepKeepsConsistent(m, w, steps[0]);
      StepsKeepRecoverable(m, next, steps[1..]);
    }
  }

  // ---------- the steps of a plan ----------

  lemma PlacesAbove(m: Merge, p: string)
    requires Usual(m) && (p in m.local || p in m.remote)
    ensures FoldersAbove(m, p) && forall d, e :: Inside(p, d) && Inside(d, e) ==> Inside(p, e)
  {
    forall d, e | Inside(p, d) && Inside(d, e) ensures Inside(p, e) { InsideTransitive(p, d, e); }
  }

  lemma WhatIsPlaced(m: Merge, a: Action)
    requires IsStamp(m.stamp) && m.ActionFor(a.path) == Some(a)
    ensures a.CreateLocalDirectory? ==> Get(m.remote, a.path) == Some(Directory)
    ensures a.CreateRemoteDirectory? ==> Get(m.local, a.path) == Some(Directory)
    ensures a.Download? ==> IsFile(m.remote, a.path)
    ensures a.Upload? ==> IsFile(m.local, a.path)
    ensures !a.SetAside?
  {
    hide HoldsOnlyWhatWasSynced, ConflictCopy;
  }

  lemma CopyIsPlaced(m: Merge, p: string, c: string)
    requires Usual(m) && CopiedTo(m, p, c)
    ensures Filed(m, c) && ValidPath(c) && IsFile(m.local, p) && IsFile(m.remote, p)
    ensures forall d :: Inside(c, d) <==> Inside(p, d)
  {
    hide Merge.ActionFor, ConflictCopy, FreshCopies;
    CopiedWasChanged(m, p, c);
    CopyIsBeside(m, p, c);
    ConflictCopyExists(p, m.stamp);
  }

  lemma StepsAreAllowed(m: Merge, a: Action, i: nat)
    requires Usual(m) && Sanctioned(m, a) && i < |Steps(a, Seen(m))|
    ensures Allowed(m, Steps(a, Seen(m))[i])
  {
    hide Merge.ActionFor, FreshCopies, ValidPath, Closed, KindsAgree, IsStamp;
    if a.KeepBoth? || a.SetAside? {
      SanctionedCopy(m, a);
      CopyIsPlaced(m, a.path, a.localCopy);
      PlacesAbove(m, a.path);
    } else {
      WhatIsPlaced(m, a);
      if a.path in m.local || a.path in m.remote { PlacesAbove(m, a.path); }
    }
  }

  lemma FetchesFollow(a: Action, seen: Listing, i: nat)
    requires i < |Steps(a, seen)| && Steps(a, seen)[i].Fetch?
    ensures i > 0 && Steps(a, seen)[i - 1] == MakeLocalDirectories(Above(Steps(a, seen)[i].path))
  {
    hide Above;
  }

  lemma {:induction false} AttemptsKeepRecoverable(m: Merge, attempts: seq<Attempt>)
    requires Usual(m) && forall i :: 0 <= i < |attempts| ==> Sanctioned(m, attempts[i].action)
    ensures Recoverable(m, Attempted(World(m.local, m.remote, m.base), attempts, Seen(m)))
  {
    hide Merge.ActionFor, Steps, Allowed, FreshCopies, ValidPath, KindsAgree;
    if attempts == [] {
      assert Consistent(m, m.local) && Consistent(m, m.remote) && Consistent(m, m.base);
    } else {
      var last := attempts[|attempts| - 1];
      AttemptsKeepRecoverable(m, attempts[..|attempts| - 1]);
      var all := Steps(last.action, Seen(m));
      var steps := Cut(all, last.cut);
      forall i | 0 <= i < |steps| ensures Allowed(m, steps[i]) { StepsAreAllowed(m, last.action, i); }
      forall i | 0 <= i < |steps| && steps[i].Fetch? ensures i > 0 && steps[i - 1] == MakeLocalDirectories(Above(steps[i].path)) {
        FetchesFollow(last.action, Seen(m), i);
      }
      hide Recoverable, Seen;
      StepsKeepRecoverable(m, Attempted(World(m.local, m.remote, m.base), attempts[..|attempts| - 1], Seen(m)), steps);
    }
  }

  // ---------- the next pass ----------

  lemma ConsistentIsUsual(m: Merge, next: Merge)
    requires FreshNames(m) && IsStamp(next.stamp) && Closed(next.local) && Closed(next.remote) && FreshCopies(next)
    requires Consistent(m, next.local) && Consistent(m, next.remote) && Consistent(m, next.base)
    ensures Usual(next)
  {
    hide Merge.ActionFor, FreshCopies, Folder, Filed, Closed, ValidPath;
    forall p ensures !(Folder(m, p) && Filed(m, p)) { NotBoth(m, p); }
    forall p | p in next.Paths() ensures ValidPath(p) { ConsistentIsValid(m, p); }
  }

  lemma ConsistentIsValid(m: Merge, p: string)
    requires Usual(m) && (Folder(m, p) || Filed(m, p))
    ensures ValidPath(p)
  {
    hide Merge.ActionFor, FreshCopies, ValidPath, Closed, KindsAgree;
    if p !in m.Paths() {
      var q :| CopiedTo(m, q, p);
      CopyIsPlaced(m, q, p);
    }
  }

  /** The state the next pass starts from: the one saved before, if the pass died, or what it had recorded, if it was saved. */
  ghost predicate LeftBehind(m: Merge, w: World, base: Snapshot) {
    base == m.base || base == w.base || base == RecordAgreed(w, Seen(m)).base
  }

  /**
    Recovery: any part of a plan may have been carried out, each action cut off anywhere, and the state
    may have been saved or not. The next pass that completes makes both sides equal and leaves the one
    after it nothing to do.
   */
  lemma CutPassRecovers(m: Merge, attempts: seq<Attempt>, base: Snapshot, stamp: string, later: string)
    requires FreshNames(m) && Runnable(m, attempts) && IsStamp(stamp) && IsStamp(later)
    requires LeftBehind(m, Attempted(World(m.local, m.remote, m.base), attempts, Seen(m)), base)
    requires var w := Attempted(World(m.local, m.remote, m.base), attempts, Seen(m)); FreshCopies(Merge(w.local, w.remote, base, stamp))
    ensures var w := Attempted(World(m.local, m.remote, m.base), attempts, Seen(m));
            var recovered := Pass(Merge(w.local, w.remote, base, stamp));
            && recovered.local == recovered.remote
            && PlanOf(Merge(recovered.local, recovered.remote, recovered.base, later)).IsEmpty()
  {
    hide Merge.ActionFor, FreshCopies, PlanOf, Pass, Attempted, Closed, IsStamp, ValidPath, KindsAgree;
    var w := Attempted(World(m.local, m.remote, m.base), attempts, Seen(m));
    AttemptsKeepRecoverable(m, attempts);
    BasesAreConsistent(m, w, base);
    ConsistentIsUsual(m, Merge(w.local, w.remote, base, stamp));
    PassConverges(Merge(w.local, w.remote, base, stamp), later);
  }

  lemma BasesAreConsistent(m: Merge, w: World, base: Snapshot)
    requires Usual(m) && Consistent(m, w.base) && LeftBehind(m, w, base)
    ensures Consistent(m, base)
  {
    hide Merge.ActionFor, FreshCopies, ValidPath, Closed, KindsAgree;
  }
}
