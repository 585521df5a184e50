/**
  What the state records: only what both sides hold. So a pass that was cut off leaves a state from which
  the next one, cut off or not, loses nothing (crates/client/src/sync/engine.rs, state.rs).
 */
module Agreement {
  import opened Results
  import opened Paths
  import opened ConflictNames
  import opened Planning
  import opened Engine
  import opened NoLoss
  import opened Convergence
  import opened Recovery

  // ---------- what may be recorded ----------

  /** What brings a path to the other side. */
  predicate Shares(a: Action) { a.CreateLocalDirectory? || a.CreateRemoteDirectory? || a.Download? || a.Upload? || a.KeepBoth? }

  ghost predicate NewRemotely(m: Merge, p: string) { p in m.remote && Get(m.base, p) != Some(m.remote[p]) }

  ghost predicate NewFolder(m: Merge, p: string) { Get(m.local, p) == Some(Directory) && Get(m.base, p) != Some(Directory) }

  /** A path some attempted action shares, the copy of one, or a new folder above one. */
  ghost predicate Recordable(m: Merge, tried: set<string>, p: string)
    requires IsStamp(m.stamp)
  {
    || (p in tried && m.ActionFor(p).Some? && Shares(m.ActionFor(p).value))
    || (exists q :: q in tried && CopiedTo(m, q, p))
    || NewFolder(m, p)
  }

  ghost predicate Added(m: Merge, base: Snapshot, p: string) { p in base && Get(base, p) != Get(m.base, p) }

  ghost predicate Agrees(w: World, p: string) { Get(w.local, p) == Get(w.remote, p) == Get(w.base, p) }

  /** What holds of one path, whatever part of the plan was attempted at the paths `tried`. */
  ghost predicate SoundAt(m: Merge, tried: set<string>, w: World, p: string)
    requires IsStamp(m.stamp)
  {
    && (NewRemotely(m, p) ==> Get(w.remote, p) == Some(m.remote[p]))
    && (p in m.local && p !in tried ==> Get(w.local, p) == Some(m.local[p]))
    && (p in m.local && p in m.remote && p !in tried ==> Get(w.remote, p) == Some(m.remote[p]))
    && (NewFolder(m, p) ==> Get(w.local, p) == Some(Directory))
    && (Added(m, w.base, p) ==> Recordable(m, tried, p) && Agrees(w, p))
  }

  ghost predicate SoundSoFar(m: Merge, tried: set<string>, w: World)
    requires IsStamp(m.stamp)
  {
    forall p :: SoundAt(m, tried, w, p)
  }

  // ---------- a step ----------

  /** A step that takes nothing away that is agreed, and records nothing else. */
  ghost predicate Gentle(m: Merge, tried: set<string>, w: World, step: Step)
    requires IsStamp(m.stamp)
  {
    match step
    case Fetch(q) => q in tried
    case Put(q, wanted) => wanted == Absent || (q in tried && !NewRemotely(m, q))
    case RemoveLocalFile(q) => q in tried && !Recordable(m, tried, q)
    case RemoveLocalFolder(q) => q in tried && !Recordable(m, tried, q)
    case RemoveRemote(q) =>
      q in tried && forall p :: p == q || Inside(p, q) ==> !NewRemotely(m, p) && !Recordable(m, tried, p) && (Inside(p, q) ==> p !in m.local)
    case RenameLocal(q, c) => q in tried && c !in m.local && !Added(m, w.base, q) && !Added(m, w.base, c)
    case Record(p, e) => Recordable(m, tried, p) && Get(w.local, p) == Get(w.remote, p) == Some(e)
    case RecordAbove(p) => forall d :: Inside(p, d) && Get(m.base, d) != Some(Directory) ==>
      NewFolder(m, d) && Get(w.local, d) == Get(w.remote, d) == Some(Directory)
    case _ => true
  }

  lemma GentleStepKeepsAt(m: Merge, tried: set<string>, w: World, step: Step, next: World, p: string)
    requires IsStamp(m.stamp) && Gentle(m, tried, w, step) && SoundAt(m, tried, w, p)
    requires Perform(w, step) == Some(next)
    ensures SoundAt(m, tried, next, p)
  {
    hide Merge.ActionFor, Recordable, CopiedTo;
    if NewFolder(m, p) { FoldersAreRecordable(m, tried, p); }
  }

  lemma GentleStepKeeps(m: Merge, tried: set<string>, w: World, step: Step)
    requires IsStamp(m.stamp) && Gentle(m, tried, w, step) && SoundSoFar(m, tried, w) && Perform(w, step).Some?
    ensures SoundSoFar(m, tried, Perform(w, step).value)
  {
    hide Merge.ActionFor, SoundAt, Gentle, Perform;
    forall p ensures SoundAt(m, tried, Perform(w, step).value, p) { GentleStepKeepsAt(m, tried, w, step, Perform(w, step).value, p); }
  }

  /** Each step gentle when its turn comes. */
  ghost predicate GentleInTurn(m: Merge, tried: set<string>, w: World, steps: seq<Step>)
    requires IsStamp(m.stamp)
    decreases steps
  {
    steps == [] ||
    (Gentle(m, tried, w, steps[0]) && (Perform(w, steps[0]).Some? ==> GentleInTurn(m, tried, Perform(w, steps[0]).value, steps[1..])))
  }

  lemma {:induction false} GentleStepsKeep(m: Merge, tried: set<string>, w: World, steps: seq<Step>, cut: nat)
    requires IsStamp(m.stamp) && SoundSoFar(m, tried, w) && GentleInTurn(m, tried, w, steps)
    ensures SoundSoFar(m, tried, Carry(w, Cut(steps, cut)))
    decreases steps
  {
    hide SoundSoFar, Gentle, Perform;
    var now := Cut(steps, cut);
    if now != [] && Perform(w, steps[0]).Some? {
      GentleStepKeeps(m, tried, w, steps[0]);
      GentleStepsKeep(m, tried, Perform(w, steps[0]).value, steps[1..], cut - 1);
      assert now[1..] == Cut(steps[1..], cut - 1);
    }
  }

  lemma GentleFirst(m: Merge, tried: set<string>, w: World, step: Step, rest: seq<Step>)
    requires IsStamp(m.stamp) && Gentle(m, tried, w, step)
    requires Perform(w, step).Some? ==> GentleInTurn(m, tried, Perform(w, step).value, rest)
    ensures GentleInTurn(m, tried, w, [step] + rest)
  {
    hide Gentle, Perform;
    assert ([step] + rest)[1..] == rest;
  }

  lemma GentleNone(m: Merge, tried: set<string>, w: World)
    requires IsStamp(m.stamp)
    ensures GentleInTurn(m, tried, w, [])
  {
  }

  // ---------- each action ----------

  lemma SoundThere(m: Merge, tried: set<string>, w: World, p: string)
    requires IsStamp(m.stamp) && SoundSoFar(m, tried, w)
    ensures SoundAt(m, tried, w, p)
  {
  }

  lemma IsRecordable(m: Merge, tried: set<string>, p: string)
    requires IsStamp(m.stamp) && p in tried && m.ActionFor(p).Some? && Shares(m.ActionFor(p).value)
    ensures Recordable(m, tried, p)
  {
  }

  /** A download, as an action or as the end of one: what is recorded came down. */
  lemma DownloadIsGentle(m: Merge, tried: set<string>, w: World, p: string)
    requires IsStamp(m.stamp) && SoundSoFar(m, tried, w) && NewRemotely(m, p) && p in tried
    requires m.ActionFor(p).Some? && Shares(m.ActionFor(p).value)
    ensures GentleInTurn(m, tried, w, DownloadSteps(p, Seen(m)))
  {
    hide Merge.ActionFor, SoundSoFar, Recordable, NewRemotely, GentleInTurn, SoundAt;
    IsRecordable(m, tried, p);
    NewIsThere(m, tried, w, p);
    var first, second, third := MakeLocalDirectories(Above(p)), Fetch(p), Record(p, m.remote[p]);
    assert DownloadSteps(p, Seen(m)) == [first] + ([second] + ([third] + []));
    if Perform(w, first).Some? {
      var a := Perform(w, first).value;
      if Perform(a, second).Some? {
        var b := Perform(a, second).value;
        assert Get(b.local, p) == Get(b.remote, p) == Some(m.remote[p]);
        GentleThenDone(m, tried, b, third);
      }
      GentleFirst(m, tried, a, second, [third] + []);
    }
    GentleFirst(m, tried, w, first, [second] + ([third] + []));
  }

  lemma GentleThenDone(m: Merge, tried: set<string>, w: World, step: Step)
    requires IsStamp(m.stamp) && Gentle(m, tried, w, step)
    ensures GentleInTurn(m, tried, w, [step] + [])
  {
    if Perform(w, step).Some? { GentleNone(m, tried, Perform(w, step).value); }
    GentleFirst(m, tried, w, step, []);
  }

  lemma NewIsThere(m: Merge, tried: set<string>, w: World, p: string)
    requires IsStamp(m.stamp) && SoundSoFar(m, tried, w) && NewRemotely(m, p)
    ensures p in m.remote && Get(w.remote, p) == Some(m.remote[p])
  {
    SoundThere(m, tried, w, p);
  }

  lemma CreateLocalIsGentle(m: Merge, tried: set<string>, w: World, p: string)
    requires IsStamp(m.stamp) && SoundSoFar(m, tried, w) && p in tried && m.ActionFor(p) == Some(CreateLocalDirectory(p))
    ensures GentleInTurn(m, tried, w, Steps(CreateLocalDirectory(p), Seen(m)))
  {
    WhatIsShared(m, CreateLocalDirectory(p));
    hide Merge.ActionFor, SoundSoFar, Recordable, NewRemotely, GentleInTurn, SoundAt, HoldsOnlyWhatWasSynced;
    IsRecordable(m, tried, p);
    NewIsThere(m, tried, w, p);
    var first, second := MakeLocalDirectories(Above(p) + {p}), Record(p, Directory);
    assert Steps(CreateLocalDirectory(p), Seen(m)) == [first] + ([second] + []);
    if Perform(w, first).Some? { GentleThenDone(m, tried, Perform(w, first).value, second); }
    GentleFirst(m, tried, w, first, [second] + []);
  }

  lemma CreateRemoteIsGentle(m: Merge, tried: set<string>, w: World, p: string)
    requires IsStamp(m.stamp) && SoundSoFar(m, tried, w) && p in tried && m.ActionFor(p) == Some(CreateRemoteDirectory(p))
    ensures GentleInTurn(m, tried, w, Steps(CreateRemoteDirectory(p), Seen(m)))
  {
    WhatIsShared(m, CreateRemoteDirectory(p));
    hide Merge.ActionFor, SoundSoFar, Recordable, GentleInTurn, HoldsOnlyWhatWasSynced;
    IsRecordable(m, tried, p);
    SoundThere(m, tried, w, p);
    var first, second := MakeRemoteDirectory(p), Record(p, Directory);
    assert Steps(CreateRemoteDirectory(p), Seen(m)) == [first] + ([second] + []);
    if Perform(w, first).Some? { GentleThenDone(m, tried, Perform(w, first).value, second); }
    GentleFirst(m, tried, w, first, [second] + []);
  }

  lemma UploadIsGentle(m: Merge, tried: set<string>, w: World, p: string)
    requires Usual(m) && SoundSoFar(m, tried, w) && p in tried && m.ActionFor(p) == Some(Upload(p)) && p in m.local && Get(w.local, p) == Some(m.local[p])
    ensures GentleInTurn(m, tried, w, Steps(Upload(p), Seen(m)))
  {
    hide Merge.ActionFor, SoundSoFar, Recordable, GentleInTurn, FreshCopies, ValidPath, KindsAgree, SoundAt;
    WhatIsShared(m, Upload(p));
    IsRecordable(m, tried, p);
    var wanted := if p in m.remote && m.remote[p].File? then Etag(m.remote[p].etag) else Absent;
    var first, second, third := Put(p, wanted), Record(p, m.local[p]), RecordAbove(p);
    assert Steps(Upload(p), Seen(m)) == [first] + ([second] + ([third] + []));
    if Perform(w, first).Some? {
      var a := Perform(w, first).value;
      var b := Perform(a, second).value;
      forall d | Inside(p, d) && Get(m.base, d) != Some(Directory) ensures NewFolder(m, d) && Get(b.local, d) == Get(b.remote, d) == Some(Directory) {
        NewFolderIsThere(m, tried, w, d);
      }
      GentleThenDone(m, tried, b, third);
      GentleFirst(m, tried, a, second, [third] + []);
    }
    GentleFirst(m, tried, w, first, [second] + ([third] + []));
  }

  lemma NewFolderIsThere(m: Merge, tried: set<string>, w: World, d: string)
    requires IsStamp(m.stamp) && SoundSoFar(m, tried, w) && Get(m.local, d) == Some(Directory) && Get(m.base, d) != Some(Directory)
    ensures NewFolder(m, d) && Get(w.local, d) == Some(Directory)
  {
    SoundThere(m, tried, w, d);
  }

  lemma WhatIsShared(m: Merge, a: Action)
    requires IsStamp(m.stamp) && m.ActionFor(a.path) == Some(a)
    ensures a.CreateLocalDirectory? ==> NewRemotely(m, a.path) && m.remote[a.path].Directory?
    ensures a.CreateRemoteDirectory? ==> NewFolder(m, a.path)
    ensures a.Download? || a.KeepBoth? ==> NewRemotely(m, a.path)
    ensures a.Upload? ==> !NewRemotely(m, a.path)
    ensures a.DeleteLocal? ==> IsFile(m.local, a.path) && !Shares(a)
    ensures a.RemoveLocalDirectory? ==> Get(m.local, a.path) == Some(Directory) && a.path in m.base
  {
    hide HoldsOnlyWhatWasSynced, ConflictCopy;
  }

  /** Nothing that is removed is recordable: its action shares nothing, it is no copy, and no new folder. */
  lemma RemovedIsNotRecorded(m: Merge, tried: set<string>, a: Action)
    requires FreshNames(m) && m.ActionFor(a.path) == Some(a) && (a.DeleteLocal? || a.RemoveLocalDirectory?)
    ensures !Recordable(m, tried, a.path)
  {
    hide Merge.ActionFor, FreshCopies, ValidPath, Closed;
    WhatIsShared(m, a);
    forall q ensures !CopiedTo(m, q, a.path) { if CopiedTo(m, q, a.path) { FreshCopy(m, q, a.path); } }
  }

  lemma RemoteRemovalIsGentle(m: Merge, tried: set<string>, w: World, a: Action)
    requires FreshNames(m) && m.ActionFor(a.path) == Some(a) && (a.DeleteRemote? || a.RemoveRemoteDirectory?) && a.path in tried
    ensures Gentle(m, tried, w, RemoveRemote(a.path))
  {
    hide Merge.ActionFor, FreshCopies, ValidPath;
    WhatIsAsked(m, a);
    OnlyOnTheServer(m, a);
    forall p | p == a.path || Inside(p, a.path)
      ensures !NewRemotely(m, p) && !Recordable(m, tried, p) && (Inside(p, a.path) ==> p !in m.local)
    {
      NothingNewInside(m, a, p);
      if m.ActionFor(p).Some? && Shares(m.ActionFor(p).value) { WhatBringsIt(m, p, m.ActionFor(p).value); }
      forall q ensures !CopiedTo(m, q, p) { if CopiedTo(m, q, p) { NoCopyInside(m, a, q, p); } }
    }
  }

  lemma OnlyOnTheServer(m: Merge, a: Action)
    requires IsStamp(m.stamp) && m.ActionFor(a.path) == Some(a) && (a.DeleteRemote? || a.RemoveRemoteDirectory?)
    ensures a.path in m.remote && a.path !in m.local && a.path in m.base && !Shares(a)
    ensures a.DeleteRemote? ==> Get(m.base, a.path) == Some(m.remote[a.path])
  {
    hide HoldsOnlyWhatWasSynced, ConflictCopy;
  }

  lemma NothingNewInside(m: Merge, a: Action, p: string)
    requires Usual(m) && m.ActionFor(a.path) == Some(a) && (a.DeleteRemote? || a.RemoveRemoteDirectory?)
    requires p == a.path || Inside(p, a.path)
    ensures !NewRemotely(m, p) && p !in m.local
  {
    hide Merge.ActionFor, FreshCopies, ValidPath;
    WhatIsAsked(m, a);
    OnlyOnTheServer(m, a);
  }

  lemma WhatBringsIt(m: Merge, p: string, a: Action)
    requires IsStamp(m.stamp) && m.ActionFor(p) == Some(a) && Shares(a)
    ensures p in m.local || NewRemotely(m, p)
  {
    hide HoldsOnlyWhatWasSynced, ConflictCopy;
  }

  lemma NoCopyInside(m: Merge, a: Action, q: string, c: string)
    requires Usual(m) && m.ActionFor(a.path) == Some(a) && (a.DeleteRemote? || a.RemoveRemoteDirectory?)
    requires CopiedTo(m, q, c)
    ensures c != a.path && !Inside(c, a.path)
  {
    hide Merge.ActionFor, FreshCopies, ValidPath, KindsAgree;
    OnlyOnTheServer(m, a);
    FreshCopy(m, q, c);
    CopyIsPlaced(m, q, c);
    if Inside(c, a.path) { NothingNewInside(m, a, q); }
  }

  lemma ConflictIsGentle(m: Merge, tried: set<string>, w: World, a: Action)
    requires FreshNames(m) && SoundSoFar(m, tried, w) && (a.KeepBoth? || a.SetAside?) && CopiedTo(m, a.path, a.localCopy) && a.path !in tried
    requires SoundSoFar(m, tried + {a.path}, w)
    ensures GentleInTurn(m, tried + {a.path}, w, Steps(a, Seen(m)))
  {
    hide Merge.ActionFor, FreshCopies, ValidPath, KindsAgree, SoundSoFar, GentleInTurn, DownloadSteps, Closed;
    var p, c, now := a.path, a.localCopy, tried + {a.path};
    CopyIsPlaced(m, p, c);
    FreshCopy(m, p, c);
    NotAddedYet(m, tried, w, p, c);
    SoundThere(m, tried, w, p);
    var rename := RenameLocal(p, c);
    if a.KeepBoth? {
      var rest := [Put(c, Absent), Record(c, m.local[p]), Drop(p)] + DownloadSteps(p, Seen(m));
      assert Steps(a, Seen(m)) == [rename] + rest;
      if Perform(w, rename).Some? {
        GentleStepKeeps(m, now, w, rename);
        SentUpIsGentle(m, now, Perform(w, rename).value, p, c);
      }
      GentleFirst(m, now, w, rename, rest);
    } else {
      var rest := [Drop(p)] + DownloadSteps(p, Seen(m));
      assert Steps(a, Seen(m)) == [rename] + rest;
      if Perform(w, rename).Some? {
        GentleStepKeeps(m, now, w, rename);
        DroppedThenDown(m, now, Perform(w, rename).value, p, c);
      }
      GentleFirst(m, now, w, rename, rest);
    }
  }

  /** What is not attempted yet was not recorded in this pass. */
  lemma NotAddedYet(m: Merge, tried: set<string>, w: World, p: string, c: string)
    requires FreshNames(m) && SoundSoFar(m, tried, w) && CopiedTo(m, p, c) && p !in tried
    ensures !Added(m, w.base, p) && !Added(m, w.base, c) && p in m.local && Get(w.local, p) == Some(m.local[p])
  {
    hide Merge.ActionFor, FreshCopies, ValidPath, KindsAgree, Closed;
    CopiedWasChanged(m, p, c);
    FreshCopy(m, p, c);
    NoActionForCopies(m, p, c);
    forall q ensures !CopiedTo(m, q, p) { if CopiedTo(m, q, p) { FreshCopy(m, q, p); } }
    SoundThere(m, tried, w, p);
    SoundThere(m, tried, w, c);
  }

  lemma NoActionForCopies(m: Merge, p: string, c: string)
    requires IsStamp(m.stamp) && c !in m.local && c !in m.remote
    ensures m.ActionFor(c).Some? ==> !Shares(m.ActionFor(c).value)
  {
    hide Merge.ActionFor;
    NothingForAFreeName(m, c);
  }

  lemma DroppedThenDown(m: Merge, tried: set<string>, w: World, p: string, c: string)
    requires IsStamp(m.stamp) && SoundSoFar(m, tried, w) && CopiedTo(m, p, c) && p in tried
    ensures GentleInTurn(m, tried, w, [Drop(p)] + DownloadSteps(p, Seen(m)))
  {
    hide Merge.ActionFor, SoundSoFar, GentleInTurn, DownloadSteps;
    var next := Perform(w, Drop(p)).value;
    GentleStepKeeps(m, tried, w, Drop(p));
    WhatIsShared(m, KeepBoth(p, c));
    DownloadIsGentle(m, tried, next, p);
    GentleFirst(m, tried, w, Drop(p), DownloadSteps(p, Seen(m)));
  }

  lemma SentUpIsGentle(m: Merge, tried: set<string>, w: World, p: string, c: string)
    requires IsStamp(m.stamp) && SoundSoFar(m, tried, w) && CopiedTo(m, p, c) && p in tried && p in m.local && Get(w.local, c) == Some(m.local[p])
    ensures GentleInTurn(m, tried, w, [Put(c, Absent), Record(c, m.local[p]), Drop(p)] + DownloadSteps(p, Seen(m)))
  {
    hide Merge.ActionFor, SoundSoFar, GentleInTurn, DownloadSteps;
    var first, second, rest := Put(c, Absent), Record(c, m.local[p]), [Drop(p)] + DownloadSteps(p, Seen(m));
    assert [Put(c, Absent), Record(c, m.local[p]), Drop(p)] + DownloadSteps(p, Seen(m)) == [first] + ([second] + rest);
    if Perform(w, first).Some? {
      var a := Perform(w, first).value;
      GentleStepKeeps(m, tried, w, first);
      assert Gentle(m, tried, a, second);
      GentleStepKeeps(m, tried, a, second);
      DroppedThenDown(m, tried, Perform(a, second).value, p, c);
      GentleFirst(m, tried, a, second, rest);
    }
    GentleFirst(m, tried, w, first, [second] + rest);
  }

  lemma RemovalIsGentle(m: Merge, tried: set<string>, w: World, a: Action)
    requires FreshNames(m) && m.ActionFor(a.path) == Some(a) && a.path in tried
    requires a.DeleteLocal? || a.RemoveLocalDirectory? || a.DeleteRemote? || a.RemoveRemoteDirectory? || a.Forget?
    ensures GentleInTurn(m, tried, w, Steps(a, Seen(m)))
  {
    hide Merge.ActionFor, FreshCopies, ValidPath, KindsAgree, GentleInTurn, Recordable, Perform;
    var drop := Drop(a.path);
    if a.Forget? {
      assert Steps(a, Seen(m)) == [drop] + [];
      GentleThenDone(m, tried, w, drop);
    } else {
      if a.DeleteLocal? || a.RemoveLocalDirectory? { RemovedIsNotRecorded(m, tried, a); }
      else { RemoteRemovalIsGentle(m, tried, w, a); }
      var first := Steps(a, Seen(m))[0];
      assert Steps(a, Seen(m)) == [first] + ([drop] + []);
      if Perform(w, first).Some? { GentleThenDone(m, tried, Perform(w, first).value, drop); }
      GentleFirst(m, tried, w, first, [drop] + []);
    }
  }

  lemma MoreTried(m: Merge, tried: set<string>, w: World, p: string)
    requires IsStamp(m.stamp) && SoundSoFar(m, tried, w)
    ensures SoundSoFar(m, tried + {p}, w)
  {
    hide Merge.ActionFor, CopiedTo;
    forall q ensures SoundAt(m, tried + {p}, w, q) { SoundThere(m, tried, w, q); }
  }

  lemma AttemptIsSound(m: Merge, tried: set<string>, w: World, attempt: Attempt)
    requires FreshNames(m) && SoundSoFar(m, tried, w) && Sanctioned(m, attempt.action) && attempt.action.path !in tried
    ensures SoundSoFar(m, tried + {attempt.action.path}, Carry(w, Cut(Steps(attempt.action, Seen(m)), attempt.cut)))
  {
    hide Merge.ActionFor, FreshCopies, ValidPath, KindsAgree, SoundSoFar, GentleInTurn, Steps, Closed;
    var a, now := attempt.action, tried + {attempt.action.path};
    MoreTried(m, tried, w, a.path);
    if a.KeepBoth? || a.SetAside? {
      SanctionedCopy(m, a);
      ConflictIsGentle(m, tried, w, a);
    } else {
      match a {
        case CreateLocalDirectory(p) => CreateLocalIsGentle(m, now, w, p);
        case CreateRemoteDirectory(p) => CreateRemoteIsGentle(m, now, w, p);
        case Download(p) =>
          WhatIsShared(m, a);
          DownloadIsGentle(m, now, w, p);
          JustDownloads(p, Seen(m));
        case Upload(p) =>
          WhatIsPlaced(m, a);
          SoundThere(m, tried, w, p);
          UploadIsGentle(m, now, w, p);
        case _ => RemovalIsGentle(m, now, w, a);
      }
    }
    GentleStepsKeep(m, now, w, Steps(a, Seen(m)), attempt.cut);
  }

  lemma JustDownloads(p: string, seen: Listing)
    ensures Steps(Download(p), seen) == DownloadSteps(p, seen)
  {
  }

  function Tried(attempts: seq<Attempt>): set<string> { set i | 0 <= i < |attempts| :: attempts[i].action.path }

  lemma {:induction false} AttemptsAreSound(m: Merge, attempts: seq<Attempt>)
    requires FreshNames(m) && Runnable(m, attempts)
    ensures SoundSoFar(m, Tried(attempts), Attempted(World(m.local, m.remote, m.base), attempts, Seen(m)))
  {
    hide Merge.ActionFor, Steps, FreshCopies, ValidPath, KindsAgree, Closed;
    if attempts != [] {
      var rest, last := attempts[..|attempts| - 1], attempts[|attempts| - 1];
      AttemptsAreSound(m, rest);
      assert Tried(attempts) == Tried(rest) + {last.action.path};
      hide SoundSoFar;
      AttemptIsSound(m, Tried(rest), Attempted(World(m.local, m.remote, m.base), rest, Seen(m)), last);
    }
  }

  // ---------- what a cut pass leaves ----------

  lemma LeftBehindIsSound(m: Merge, attempts: seq<Attempt>, base: Snapshot)
    requires FreshNames(m) && Runnable(m, attempts)
    requires var w := Attempted(World(m.local, m.remote, m.base), attempts, Seen(m)); LeftBehind(m, w, base)
    ensures var w := Attempted(World(m.local, m.remote, m.base), attempts, Seen(m));
            SoundSoFar(m, Tried(attempts), World(w.local, w.remote, base))
  {
    hide Merge.ActionFor, FreshCopies, ValidPath, Closed, Attempted, Recordable;
    AttemptsAreSound(m, attempts);
    var w := Attempted(World(m.local, m.remote, m.base), attempts, Seen(m));
    forall p ensures SoundAt(m, Tried(attempts), World(w.local, w.remote, base), p) {
      SoundThere(m, Tried(attempts), w, p);
      if NewFolder(m, p) { FoldersAreRecordable(m, Tried(attempts), p); }
    }
  }

  lemma FoldersAreRecordable(m: Merge, tried: set<string>, p: string)
    requires IsStamp(m.stamp) && NewFolder(m, p)
    ensures Recordable(m, tried, p)
  {
  }

  /**
    Whatever part of a plan was carried out, each action cut off anywhere, and whether the state was saved
    or not: an entry the state has gained is what both sides hold at that path, at that moment.
   */
  lemma OnlyTheAgreedIsRecorded(m: Merge, attempts: seq<Attempt>, base: Snapshot, p: string)
    requires FreshNames(m) && Runnable(m, attempts)
    requires LeftBehind(m, Attempted(World(m.local, m.remote, m.base), attempts, Seen(m)), base)
    requires p in base && Get(base, p) != Get(m.base, p)
    ensures var w := Attempted(World(m.local, m.remote, m.base), attempts, Seen(m));
            Get(w.local, p) == Get(w.remote, p) == Some(base[p])
  {
    hide Merge.ActionFor, FreshCopies, Attempted, Recordable, LeftBehind;
    LeftBehindIsSound(m, attempts, base);
    var w := Attempted(World(m.local, m.remote, m.base), attempts, Seen(m));
    SoundThere(m, Tried(attempts), World(w.local, w.remote, base), p);
  }

  // ---------- no loss from one pass to the next ----------

  function StateOf(m: Merge): World { World(m.local, m.remote, m.base) }

  function AfterPart(m: Merge, attempts: seq<Attempt>): World { Attempted(StateOf(m), attempts, Seen(m)) }

  /** A side has the entry at the path, and it is not one that the other side has given up since both were recorded to have it. */
  ghost predicate Secure(w: World, q: string, e: Entry) {
    (Get(w.local, q) == Some(e) || Get(w.remote, q) == Some(e)) &&
    (Get(w.base, q) == Some(e) ==> Get(w.local, q) == Get(w.remote, q) == Some(e))
  }

  lemma ChangesAreSecure(m: Merge, p: string)
    ensures ChangedLocally(m, p) ==> Secure(StateOf(m), p, m.local[p])
    ensures ChangedRemotely(m, p) ==> Secure(StateOf(m), p, m.remote[p])
  {
  }

  lemma EqualSidesAreLeft(m: Merge, attempts: seq<Attempt>, q: string)
    requires IsStamp(m.stamp) && Runnable(m, attempts) && q in m.local && q in m.remote && m.local[q] == m.remote[q]
    ensures q !in Tried(attempts)
  {
    hide HoldsOnlyWhatWasSynced, ConflictCopy;
  }

  /** What is secure before some part of a pass is secure after it, under its path or, once set aside, under its copy. */
  lemma CutPassKeepsSecure(m: Merge, attempts: seq<Attempt>, base: Snapshot, q: string, e: Entry) returns (place: string)
    requires FreshNames(m) && Runnable(m, attempts) && LeftBehind(m, AfterPart(m, attempts), base)
    requires e.File? && Secure(StateOf(m), q, e)
    ensures place == q || CopiedTo(m, q, place)
    ensures Secure(World(AfterPart(m, attempts).local, AfterPart(m, attempts).remote, base), place, e)
  {
    hide Merge.ActionFor, FreshCopies, Attempted, LeftBehind, KindsAgree, ValidPath, Closed, Tried;
    var w := AfterPart(m, attempts);
    AttemptsAreSound(m, attempts);
    SoundThere(m, Tried(attempts), w, q);
    place := q;
    if Get(m.base, q) == Some(e) {
      EqualSidesAreLeft(m, attempts, q);
    } else if Get(m.remote, q) == Some(e) {
      assert Get(w.remote, q) == Some(e);
    } else {
      NothingIsLost(m, attempts, q);
      if Get(w.local, q) != Some(e) {
        place :| CopiedTo(m, q, place) && Get(w.local, place) == Some(e);
      }
      assert Get(m.base, place) != Some(e);
    }
    if Get(base, place) == Some(e) && Get(m.base, place) != Some(e) { OnlyTheAgreedIsRecorded(m, attempts, base, place); }
  }

  /** The next pass starts from what the last one left. */
  ghost predicate Continues(m: Merge, attempts: seq<Attempt>, next: Merge) {
    var w := AfterPart(m, attempts);
    next.local == w.local && next.remote == w.remote && LeftBehind(m, w, next.base)
  }

  /** Passes one after another, each cut off anywhere, its state saved or not. */
  ghost predicate Series(ms: seq<Merge>, parts: seq<seq<Attempt>>) {
    && |ms| == |parts| + 1
    && forall i :: 0 <= i < |parts| ==> FreshNames(ms[i]) && Runnable(ms[i], parts[i]) && Continues(ms[i], parts[i], ms[i + 1])
  }

  /** The path stays, or is that of the copy made of it in that pass. */
  ghost predicate Moves(ms: seq<Merge>, places: seq<string>) {
    |places| <= |ms| && forall i :: 0 <= i < |places| - 1 ==>
      places[i + 1] == places[i] || (IsStamp(ms[i].stamp) && CopiedTo(ms[i], places[i], places[i + 1]))
  }

  /**
    No loss over any number of passes, each cut off anywhere: what either side had gained before the first
    is, after any of them, under its path or a copy of it, and still safe.
   */
  lemma {:induction false} ManyCutPassesLoseNothing(ms: seq<Merge>, parts: seq<seq<Attempt>>, q: string, e: Entry, n: nat) returns (places: seq<string>)
    requires Series(ms, parts) && n <= |parts| && e.File? && Secure(StateOf(ms[0]), q, e)
    ensures |places| == n + 1 && places[0] == q && Moves(ms, places) && Secure(StateOf(ms[n]), places[n], e)
    decreases n
  {
    hide Secure, FreshNames, Runnable, LeftBehind, CopiedTo, IsStamp, AfterPart;
    if n == 0 {
      places := [q];
    } else {
      var before := ManyCutPassesLoseNothing(ms, parts, q, e, n - 1);
      assert Continues(ms[n - 1], parts[n - 1], ms[n]);
      var place := CutPassKeepsSecure(ms[n - 1], parts[n - 1], ms[n].base, before[n - 1], e);
      places := before + [place];
      FreshIsStamped(ms[n - 1]);
    }
  }

  lemma FreshIsStamped(m: Merge)
    requires FreshNames(m)
    ensures IsStamp(m.stamp)
  {
  }

  // ---------- a deletion is not undone ----------

  /** A file one side gave up: the other has it as it was recorded, or nobody has it, and the record goes last. */
  ghost predicate Given(m: Merge, w: World, p: string) {
    && (p in m.remote ==> p !in w.local && if p in w.remote then w.remote[p] == m.remote[p] && Get(w.base, p) == Get(m.base, p) else true)
    && (p in m.local ==> p !in w.remote && if p in w.local then w.local[p] == m.local[p] && Get(w.base, p) == Get(m.base, p) else true)
  }

  ghost predicate Deleted(m: Merge, p: string)
    requires IsStamp(m.stamp)
  {
    m.ActionFor(p) == Some(DeleteRemote(p)) || m.ActionFor(p) == Some(DeleteLocal(p))
  }

  /** A step that brings nothing back to the path, and drops the record only of what nobody has. */
  ghost predicate LeavesGiven(w: World, step: Step, p: string) {
    match step
    case MakeLocalDirectories(ds) => p !in ds
    case MakeRemoteDirectory(q) => q != p && !Inside(q, p)
    case Fetch(q) => q != p
    case Put(q, _) => q != p && !Inside(q, p)
    case RenameLocal(_, c) => c != p
    case Record(q, _) => q != p
    case RecordAbove(q) => !Inside(q, p)
    case Drop(q) => q == p ==> p !in w.local && p !in w.remote
    case _ => true
  }

  ghost predicate LeavesGivenInTurn(w: World, steps: seq<Step>, p: string)
    decreases steps
  {
    steps == [] || (LeavesGiven(w, steps[0], p) && (Perform(w, steps[0]).Some? ==> LeavesGivenInTurn(Perform(w, steps[0]).value, steps[1..], p)))
  }

  lemma StepLeavesGiven(m: Merge, w: World, step: Step, p: string)
    requires Given(m, w, p) && LeavesGiven(w, step, p) && Perform(w, step).Some?
    ensures Given(m, Perform(w, step).value, p)
  {
  }

  lemma {:induction false} StepsLeaveGiven(m: Merge, w: World, steps: seq<Step>, p: string, cut: nat)
    requires Given(m, w, p) && LeavesGivenInTurn(w, steps, p)
    ensures Given(m, Carry(w, Cut(steps, cut)), p)
    decreases steps
  {
    hide Given, LeavesGiven, Perform;
    var now := Cut(steps, cut);
    if now != [] && Perform(w, steps[0]).Some? {
      StepLeavesGiven(m, w, steps[0], p);
      StepsLeaveGiven(m, Perform(w, steps[0]).value, steps[1..], p, cut - 1);
      assert now[1..] == Cut(steps[1..], cut - 1);
    }
  }

  /** Steps that touch nothing at the path, whatever the world is. */
  ghost predicate KeepsOff(step: Step, p: string) { !(step.Drop? && step.path == p) && forall w :: LeavesGiven(w, step, p) }

  lemma {:induction false} KeepingOffLeavesGiven(w: World, steps: seq<Step>, p: string)
    requires forall i :: 0 <= i < |steps| ==> KeepsOff(steps[i], p)
    ensures LeavesGivenInTurn(w, steps, p)
    decreases steps
  {
    hide Perform, LeavesGiven;
    if steps != [] {
      assert KeepsOff(steps[0], p);
      if Perform(w, steps[0]).Some? {
        forall i | 0 <= i < |steps[1..]| ensures KeepsOff(steps[1..][i], p) { assert steps[1..][i] == steps[i + 1]; }
        KeepingOffLeavesGiven(Perform(w, steps[0]).value, steps[1..], p);
      }
    }
  }

  lemma DeletedIsFiled(m: Merge, p: string)
    requires FreshNames(m) && Deleted(m, p)
    ensures !Folder(m, p) && (p in m.local) != (p in m.remote) && forall q :: !CopiedTo(m, q, p)
    ensures m.ActionFor(p) == Some(DeleteRemote(p)) ==> p in m.remote && p !in m.local
    ensures m.ActionFor(p) == Some(DeleteLocal(p)) ==> p in m.local && p !in m.remote
    ensures Given(m, StateOf(m), p)
  {
    hide Merge.ActionFor, FreshCopies, ValidPath, Closed;
    DeletedWhere(m, p);
    NotBoth(m, p);
    forall q ensures !CopiedTo(m, q, p) { if CopiedTo(m, q, p) { FreshCopy(m, q, p); } }
  }

  lemma DeletedWhere(m: Merge, p: string)
    requires IsStamp(m.stamp) && Deleted(m, p)
    ensures (p in m.local) != (p in m.remote) && (IsFile(m.local, p) || IsFile(m.remote, p))
    ensures m.ActionFor(p) == Some(DeleteRemote(p)) ==> p in m.remote
    ensures m.ActionFor(p) == Some(DeleteLocal(p)) ==> p in m.local
  {
    hide HoldsOnlyWhatWasSynced, ConflictCopy;
  }

  /** Another path's action keeps off a deleted file. */
  lemma OthersKeepOff(m: Merge, a: Action, p: string, i: nat)
    requires FreshNames(m) && Deleted(m, p) && Sanctioned(m, a) && a.path != p && i < |Steps(a, Seen(m))|
    ensures KeepsOff(Steps(a, Seen(m))[i], p)
  {
    hide Merge.ActionFor, FreshCopies, ValidPath, Closed, KindsAgree, Given;
    DeletedIsFiled(m, p);
    StepsAreAllowed(m, a, i);
    if a.KeepBoth? || a.SetAside? {
      SanctionedCopy(m, a);
      CopyIsPlaced(m, a.path, a.localCopy);
      PlacesAbove(m, a.path);
    } else {
      WhatIsPlaced(m, a);
      if a.path in m.local || a.path in m.remote { PlacesAbove(m, a.path); }
    }
  }

  lemma OwnDeletion(m: Merge, w: World, p: string)
    requires FreshNames(m) && Deleted(m, p) && Given(m, w, p)
    ensures LeavesGivenInTurn(w, Steps(m.ActionFor(p).value, Seen(m)), p)
  {
    hide Merge.ActionFor, FreshCopies, ValidPath, Closed, KindsAgree;
    DeletedIsFiled(m, p);
    var first := if m.ActionFor(p) == Some(DeleteRemote(p)) then RemoveRemote(p) else RemoveLocalFile(p);
    var steps := Steps(m.ActionFor(p).value, Seen(m));
    assert steps == [first, Drop(p)];
    if Perform(w, first).Some? {
      var next := Perform(w, first).value;
      assert p !in next.local && p !in next.remote;
      assert steps[1..] == [Drop(p)] && [Drop(p)][1..] == [];
      assert LeavesGivenInTurn(next, [Drop(p)], p);
    }
  }

  lemma {:induction false} AttemptsLeaveGiven(m: Merge, attempts: seq<Attempt>, p: string)
    requires FreshNames(m) && Deleted(m, p) && Runnable(m, attempts)
    ensures Given(m, AfterPart(m, attempts), p)
  {
    hide Merge.ActionFor, FreshCopies, ValidPath, KindsAgree, Closed, Steps, Given, LeavesGivenInTurn, KeepsOff, Deleted;
    if attempts == [] {
      DeletedIsFiled(m, p);
    } else {
      var rest, last := attempts[..|attempts| - 1], attempts[|attempts| - 1];
      AttemptsLeaveGiven(m, rest, p);
      var w := AfterPart(m, rest);
      var steps := Steps(last.action, Seen(m));
      if last.action.path == p {
        DeletesItself(m, last.action, p);
        OwnDeletion(m, w, p);
      } else {
        forall i | 0 <= i < |steps| ensures KeepsOff(steps[i], p) { OthersKeepOff(m, last.action, p, i); }
        KeepingOffLeavesGiven(w, steps, p);
      }
      StepsLeaveGiven(m, w, steps, p, last.cut);
    }
  }

  lemma DeletesItself(m: Merge, a: Action, p: string)
    requires IsStamp(m.stamp) && Deleted(m, p) && Sanctioned(m, a) && a.path == p
    ensures m.ActionFor(p) == Some(a)
  {
    hide Merge.ActionFor;
  }

  /**
    A file deleted on one side is not brought back by an interruption: the next pass asks for the deletion
    again, or nobody has the file any more.
   */
  lemma DeletionsStick(m: Merge, attempts: seq<Attempt>, next: Merge, p: string)
    requires FreshNames(m) && Deleted(m, p) && Runnable(m, attempts) && Continues(m, attempts, next) && IsStamp(next.stamp)
    ensures next.ActionFor(p) == m.ActionFor(p) || (p !in next.local && p !in next.remote)
  {
    hide FreshCopies, ValidPath, KindsAgree, Closed, Attempted, HoldsOnlyWhatWasSynced, ConflictCopy;
    DeletedIsFiled(m, p);
    AttemptsLeaveGiven(m, attempts, p);
  }

  // ---------- somebody else's changes on the server ----------

  /** A step that sends a file up only over the one that was listed, and removes nothing on the server. */
  predicate ReplacesOnlyListed(step: Step, seen: Listing, p: string) {
    match step
    case Put(path, Etag(etag)) => path == p ==> p in seen.remote && seen.remote[p].File? && seen.remote[p].etag == etag
    case RemoveRemote(_) => false
    case _ => true
  }

  ghost predicate IsAsListed(w: World, seen: Listing, p: string) {
    p in w.remote && p in seen.remote && w.remote[p].File? && seen.remote[p].File? && w.remote[p].etag == seen.remote[p].etag
  }

  ghost predicate SendsOver(steps: seq<Step>, p: string) { exists i :: 0 <= i < |steps| && steps[i].Put? && steps[i].path == p && steps[i].wanted.Etag? }

  lemma OneStepReplaces(w: World, step: Step, seen: Listing, p: string)
    requires p in w.remote && ReplacesOnlyListed(step, seen, p) && Perform(w, step).Some?
    ensures var next := Perform(w, step).value;
            p in next.remote && (next.remote[p] == w.remote[p] || (IsAsListed(w, seen, p) && step.Put? && step.path == p && step.wanted.Etag?))
  {
  }

  lemma {:induction false} StepsReplace(w: World, steps: seq<Step>, seen: Listing, p: string)
    requires p in w.remote && forall i :: 0 <= i < |steps| ==> ReplacesOnlyListed(steps[i], seen, p)
    ensures var after := Carry(w, steps);
            p in after.remote && (after.remote[p] == w.remote[p] || (IsAsListed(w, seen, p) && SendsOver(steps, p)))
    decreases |steps|
  {
    hide Perform, ReplacesOnlyListed;
    if steps != [] && Perform(w, steps[0]).Some? {
      OneStepReplaces(w, steps[0], seen, p);
      var next := Perform(w, steps[0]).value;
      StepsReplace(next, steps[1..], seen, p);
      assert SendsOver(steps[1..], p) ==> SendsOver(steps, p) by {
        if i :| 0 <= i < |steps[1..]| && steps[1..][i].Put? && steps[1..][i].path == p && steps[1..][i].wanted.Etag? { assert steps[i + 1] == steps[1..][i]; }
      }
    }
  }

  /**
    Whoever else has written to the server since it was listed, an action that is no deletion takes no
    entry off it, however much of it is done, and replaces a file only by an upload of that path and only
    if it is still the one listed.
   */
  lemma UploadsReplaceOnlyTheListed(w: World, a: Action, n: nat, seen: Listing, p: string)
    requires p in w.remote && !a.DeleteRemote? && !a.RemoveRemoteDirectory?
    ensures var after := Carry(w, Cut(Steps(a, seen), n));
            p in after.remote && (after.remote[p] == w.remote[p] || (a == Upload(p) && IsAsListed(w, seen, p)))
  {
    hide IsAsListed;
    var steps := Cut(Steps(a, seen), n);
    StepsReplace(w, steps, seen, p);
    forall i | 0 <= i < |Steps(a, seen)| && Steps(a, seen)[i].Put? && Steps(a, seen)[i].wanted.Etag? ensures a == Upload(Steps(a, seen)[i].path) { }
  }
}
