/**
  When a pass loses work. A file that differs from the base on either side is still there afterwards,
  under its own path or, when both sides changed, under its conflict copy, whichever actions were
  attempted and wherever each of them was cut short: exactly as long as no conflict copy clashes.
 */
module NoLoss {
  import opened Results
  import opened Paths
  import opened ConflictNames
  import opened Planning
  import opened Engine

  ghost predicate ChangedLocally(m: Merge, p: string) {
    p in m.local && m.local[p].File? && Get(m.base, p) != Some(m.local[p])
  }

  ghost predicate ChangedRemotely(m: Merge, p: string) {
    p in m.remote && m.remote[p].File? && Get(m.base, p) != Some(m.remote[p])
  }

  ghost predicate CopiedTo(m: Merge, p: string, copy: string)
    requires IsStamp(m.stamp)
  {
    m.ActionFor(p) == Some(KeepBoth(p, copy))
  }

  /** No conflict copy takes a name either side already uses, or one another copy takes. */
  ghost predicate FreshCopies(m: Merge)
    requires IsStamp(m.stamp)
  {
    && (forall p, c :: CopiedTo(m, p, c) ==> c !in m.local && c !in m.remote)
    && (forall p, q, c :: CopiedTo(m, p, c) && CopiedTo(m, q, c) ==> p == q)
  }

  /** An action of the plan, or what `Held` turns one into. */
  ghost predicate Sanctioned(m: Merge, a: Action)
    requires IsStamp(m.stamp)
  {
    || m.ActionFor(a.path) == Some(a)
    || (a.SetAside? && CopiedTo(m, a.path, a.localCopy))
  }

  /** An action, and how many of its steps were let through before something outside stopped it. */
  datatype Attempt = Attempt(action: Action, cut: nat)

  function Cut<T>(s: seq<T>, n: nat): seq<T> { if n < |s| then s[..n] else s }

  function Attempted(w: World, attempts: seq<Attempt>, seen: Listing): World {
    if attempts == [] then w
    else
      var last := attempts[|attempts| - 1];
      Carry(Attempted(w, attempts[..|attempts| - 1], seen), Cut(Steps(last.action, seen), last.cut))
  }

  ghost predicate Runnable(m: Merge, attempts: seq<Attempt>)
    requires IsStamp(m.stamp)
  {
    && (forall i :: 0 <= i < |attempts| ==> Sanctioned(m, attempts[i].action))
    && (forall i, j :: 0 <= i < j < |attempts| ==> attempts[i].action.path != attempts[j].action.path)
  }

  /** One action after another as the plan has them. */
  ghost predicate InTurn(attempts: seq<Attempt>) {
    forall i, j :: 0 <= i < j < |attempts| ==> Before(attempts[i].action, attempts[j].action)
  }

  /** What holds a plan back: copies that may not be sent up, so that their files are only set aside; and what may not be removed from the server. */
  datatype Rule = Rule(aside: string -> bool, spared: string -> bool)

  function Unheld(): Rule { Rule(_ => false, _ => false) }

  /** What a pass merges, where it starts, which may be more than it looks at, and what holds it back. */
  datatype Course = Course(m: Merge, start: World, rule: Rule) {
    function Seen(): Listing { Listing(start.local, m.remote) }
  }

  function Plain(m: Merge): Course { Course(m, World(m.local, m.remote, m.base), Unheld()) }

  /** What the rule leaves of a plan. */
  predicate Obeys(rule: Rule, a: Action) {
    match a
    case Upload(p) => !rule.aside(p)
    case CreateRemoteDirectory(p) => !rule.aside(p)
    case KeepBoth(_, c) => !rule.aside(c)
    case SetAside(_, c) => rule.aside(c)
    case DeleteRemote(p) => !rule.spared(p)
    case RemoveRemoteDirectory(p) => !rule.spared(p)
    case _ => true
  }

  /** As much of that as being safe takes: nothing is set aside that may be sent up, and nothing removed that is spared. */
  predicate Heeds(rule: Rule, a: Action) {
    (a.SetAside? ==> rule.aside(a.localCopy)) && (a.DeleteRemote? || a.RemoveRemoteDirectory? ==> !rule.spared(a.path))
  }

  predicate AllHeed(rule: Rule, attempts: seq<Attempt>) { forall i :: 0 <= i < |attempts| ==> Heeds(rule, attempts[i].action) }

  predicate AllObey(rule: Rule, attempts: seq<Attempt>) { forall i :: 0 <= i < |attempts| ==> Obeys(rule, attempts[i].action) }

  // ---------- what may happen to a copy's name ----------

  /** A local file already has the name, and it is kept nowhere else: the rename takes its place. */
  ghost predicate Displaces(m: Merge, p: string, c: string)
    requires p in m.local
  {
    ChangedLocally(m, c) && m.local[c] != m.local[p] && Get(m.remote, c) != Some(m.local[c])
  }

  /** The server has the very same file under the name, and nothing planned takes it away. */
  ghost predicate HeldThere(k: Course, p: string, c: string)
    requires IsStamp(k.m.stamp) && p in k.m.local
  {
    && Get(k.start.remote, c) == Some(k.m.local[p])
    && (k.rule.spared(c) || k.m.ActionFor(c) != Some(DeleteRemote(c)))
    && forall d :: Inside(c, d) ==> k.rule.spared(d) || k.m.ActionFor(d) != Some(RemoveRemoteDirectory(d))
  }

  /** What is planned for the name itself, after the copy is made, takes the copy away: something else comes down, or the file is deleted or set aside in its turn. */
  ghost predicate TakenAfterwards(k: Course, p: string, c: string, inTurn: bool)
    requires IsStamp(k.m.stamp) && p in k.m.local
  {
    exists b :: k.m.ActionFor(c) == Some(b) && (inTurn ==> Before(KeepBoth(p, c), b)) &&
      match b
      case Download(_) => Get(k.m.remote, c) != Some(k.m.local[p])
      case DeleteLocal(_) => true
      case KeepBoth(_, d) => (d != c || k.rule.aside(d)) && !(inTurn && Get(k.start.local, d) == Some(Directory))
      case _ => false
  }

  /** Another file, a different one, is set aside under the same name later. */
  ghost predicate SharedWith(k: Course, p: string, c: string, inTurn: bool)
    requires IsStamp(k.m.stamp) && p in k.m.local
  {
    && !HeldThere(k, p, c)
    && (inTurn ==> Get(k.start.local, c) != Some(Directory))
    && exists q :: q != p && CopiedTo(k.m, q, c) && Get(k.m.local, q) != Some(k.m.local[p]) && (inTurn ==> Before(KeepBoth(p, c), KeepBoth(q, c)))
  }

  /**
    The copy of a conflicting file meets something. When actions are only known to be attempted, in any
    order, `inTurn` is false, and whatever order they come in counts.
   */
  ghost predicate Clash(k: Course, p: string, c: string, inTurn: bool)
    requires IsStamp(k.m.stamp) && p in k.m.local
  {
    || (c == p && k.rule.aside(c))
    || Displaces(k.m, p, c)
    || (c != p && TakenAfterwards(k, p, c, inTurn))
    || SharedWith(k, p, c, inTurn)
  }

  ghost predicate Clashing(k: Course, inTurn: bool)
    requires IsStamp(k.m.stamp)
  {
    exists p, c :: CopiedTo(k.m, p, c) && p in k.m.local && Clash(k, p, c, inTurn)
  }

  lemma NoClash(k: Course, p: string, c: string, inTurn: bool)
    requires IsStamp(k.m.stamp) && !Clashing(k, inTurn) && CopiedTo(k.m, p, c)
    ensures p in k.m.local && ChangedLocally(k.m, p) && !Clash(k, p, c, inTurn)
  {
    hide Merge.ActionFor, Clash;
    CopiedWasChanged(k.m, p, c);
  }

  lemma FreshCopiesNeverClash(k: Course, inTurn: bool)
    requires IsStamp(k.m.stamp) && FreshCopies(k.m)
    ensures !Clashing(k, inTurn)
  {
    hide Merge.ActionFor;
    forall p, c | CopiedTo(k.m, p, c) && p in k.m.local ensures !Clash(k, p, c, inTurn) {
      FreshCopy(k.m, p, c);
      NothingForAFreeName(k.m, c);
    }
  }

  lemma NothingForAFreeName(m: Merge, c: string)
    requires IsStamp(m.stamp) && c !in m.local && c !in m.remote
    ensures m.ActionFor(c).None? || m.ActionFor(c).value.Forget?
  {
    hide HoldsOnlyWhatWasSynced, ConflictCopy;
  }

  // ---------- what stays, step by step ----------

  /** The two sides hold what the pass looks at. */
  ghost predicate Extends(k: Course) {
    && (forall p :: p in k.m.local ==> Get(k.start.local, p) == Some(k.m.local[p]))
    && (forall p :: p in k.m.remote ==> Get(k.start.remote, p) == Some(k.m.remote[p]))
  }

  /** What is still there of one path, given which conflicting files were already moved aside. */
  ghost predicate KeptAt(k: Course, w: World, moved: set<string>, p: string)
    requires IsStamp(k.m.stamp)
  {
    && (ChangedLocally(k.m, p) ==>
          if p in moved then exists c :: CopiedTo(k.m, p, c) && (Get(w.local, c) == Some(k.m.local[p]) || HeldThere(k, p, c))
          else Get(w.local, p) == Some(k.m.local[p]) || (Get(k.m.remote, p) == Some(k.m.local[p]) && exists q :: CopiedTo(k.m, q, p)))
    && (ChangedRemotely(k.m, p) ==> Get(w.remote, p) == Some(k.m.remote[p]))
    && (ChangedLocally(k.m, p) ==> forall c :: CopiedTo(k.m, p, c) && HeldThere(k, p, c) ==> Get(w.remote, c) == Some(k.m.local[p]))
  }

  ghost predicate Kept(k: Course, w: World, moved: set<string>)
    requires IsStamp(k.m.stamp)
  {
    forall p :: KeptAt(k, w, moved, p)
  }

  /** What makes a step unable to lose anything, given which conflicting files were already moved aside. */
  ghost predicate Harmless(k: Course, step: Step, moved: set<string>)
    requires IsStamp(k.m.stamp)
  {
    match step
    case Fetch(q) =>
      && ChangedRemotely(k.m, q) && (ChangedLocally(k.m, q) ==> q in moved)
      && forall p :: p in moved && CopiedTo(k.m, p, q) ==> Get(k.m.remote, q) == Get(k.m.local, p)
    case Put(q, wanted) =>
      wanted == Absent || (!ChangedRemotely(k.m, q) && forall p :: CopiedTo(k.m, p, q) && p in k.m.local ==> !HeldThere(k, p, q))
    case RemoveLocalFile(q) => !ChangedLocally(k.m, q) && forall p :: p in moved ==> !CopiedTo(k.m, p, q)
    case RemoveRemote(q) =>
      && (forall p :: ChangedRemotely(k.m, p) ==> p != q && !Inside(p, q))
      && (forall p, c :: CopiedTo(k.m, p, c) && p in k.m.local && HeldThere(k, p, c) ==> c != q && !Inside(c, q))
    case RenameLocal(_, _) => false
    case _ => true
  }

  lemma HarmlessStepKeepsAt(k: Course, w: World, step: Step, moved: set<string>, next: World, p: string)
    requires IsStamp(k.m.stamp) && Harmless(k, step, moved)
    requires Perform(w, step) == Some(next)
    requires KeptAt(k, w, moved, p) && (step.Fetch? ==> KeptAt(k, w, moved, step.path))
    ensures KeptAt(k, next, moved, p)
  {
    hide Merge.ActionFor, HeldThere;
    if ChangedLocally(k.m, p) && p in moved {
      var c :| CopiedTo(k.m, p, c) && (Get(w.local, c) == Some(k.m.local[p]) || HeldThere(k, p, c));
      if !HeldThere(k, p, c) { assert Get(next.local, c) == Some(k.m.local[p]); }
    }
  }

  lemma HarmlessStepKeeps(k: Course, w: World, step: Step, moved: set<string>)
    requires IsStamp(k.m.stamp) && Kept(k, w, moved) && Harmless(k, step, moved)
    ensures Perform(w, step).Some? ==> Kept(k, Perform(w, step).value, moved)
  {
    hide Merge.ActionFor, KeptAt, Harmless, Perform;
    if Perform(w, step).Some? {
      forall p ensures KeptAt(k, Perform(w, step).value, moved, p) {
        HarmlessStepKeepsAt(k, w, step, moved, Perform(w, step).value, p);
      }
    }
  }

  lemma {:induction false} HarmlessStepsKeep(k: Course, w: World, steps: seq<Step>, moved: set<string>)
    requires IsStamp(k.m.stamp) && Kept(k, w, moved)
    requires forall i :: 0 <= i < |steps| ==> Harmless(k, steps[i], moved)
    ensures Kept(k, Carry(w, steps), moved)
    decreases steps
  {
    hide Kept, Harmless, Perform;
    if steps != [] {
      HarmlessStepKeeps(k, w, steps[0], moved);
      if Perform(w, steps[0]).Some? {
        HarmlessStepsKeep(k, Perform(w, steps[0]).value, steps[1..], moved);
      }
    }
  }

  lemma CopiedWasChanged(m: Merge, p: string, copy: string)
    requires IsStamp(m.stamp) && CopiedTo(m, p, copy)
    ensures ChangedLocally(m, p) && ChangedRemotely(m, p) && m.local[p] != m.remote[p]
  {
    hide HoldsOnlyWhatWasSynced, ConflictCopy;
  }

  lemma RenameMoves(w: World, p: string, copy: string, next: World)
    requires Perform(w, RenameLocal(p, copy)) == Some(next)
    ensures next.remote == w.remote && Get(next.local, copy) == Get(w.local, p) && Get(w.local, copy) != Some(Directory)
    ensures forall q :: q != p && q != copy ==> Get(next.local, q) == Get(w.local, q)
    ensures p != copy ==> p !in next.local
  {
  }

  /** Until folders are removed, every local folder is where it was. */
  ghost predicate Standing(k: Course, w: World) {
    forall d :: Get(k.start.local, d) == Some(Directory) ==> Get(w.local, d) == Some(Directory)
  }

  /** Everything set aside so far comes before this action. */
  ghost predicate Earlier(moved: set<string>, a: Action) {
    forall p :: p in moved ==> Stage(a) > 1 || (Stage(a) == 1 && Less(p, a.path))
  }

  ghost predicate Turn(k: Course, w: World, moved: set<string>, a: Action, inTurn: bool) {
    inTurn ==> Earlier(moved, a) && (Stage(a) <= 1 ==> Standing(k, w))
  }

  lemma ComesBefore(moved: set<string>, a: Action, p: string, c: string)
    requires Earlier(moved, a) && p in moved
    ensures Before(KeepBoth(p, c), a)
  {
  }

  /** Where one file of a conflict was set aside, the next is not in its way. */
  lemma RenameSpares(k: Course, w: World, p: string, copy: string, moved: set<string>, a: Action, q: string, c: string, inTurn: bool)
    requires IsStamp(k.m.stamp) && !Clashing(k, inTurn) && Turn(k, w, moved, a, inTurn)
    requires CopiedTo(k.m, p, copy) && p !in moved && a.path == p && (a.KeepBoth? || a.SetAside?)
    requires Get(w.local, copy) != Some(Directory) && copy != p
    requires CopiedTo(k.m, q, c) && q in moved && q in k.m.local
    ensures c != p
    ensures c == copy ==> Get(k.m.local, p) == Some(k.m.local[q]) || HeldThere(k, q, c)
  {
    hide Merge.ActionFor, HeldThere, Less;
    NoClash(k, q, c, inTurn);
    if inTurn {
      ComesBefore(moved, a, q, c);
      assert Before(KeepBoth(q, c), KeepBoth(p, copy));
    }
    assert Get(k.start.local, copy) == Some(Directory) ==> !inTurn;
  }

  lemma RenameKeepsAt(k: Course, w: World, p: string, copy: string, moved: set<string>, a: Action, next: World, q: string, inTurn: bool)
    requires IsStamp(k.m.stamp) && !Clashing(k, inTurn) && Turn(k, w, moved, a, inTurn)
    requires CopiedTo(k.m, p, copy) && copy != p && p !in moved && a.path == p && (a.KeepBoth? || a.SetAside?)
    requires Perform(w, RenameLocal(p, copy)) == Some(next)
    requires KeptAt(k, w, moved, q) && KeptAt(k, w, moved, p)
    ensures KeptAt(k, next, moved + {p}, q)
  {
    hide Merge.ActionFor, Clashing, Perform, ConflictCopy, HeldThere, Turn, TakenAfterwards, SharedWith, Less;
    NoClash(k, p, copy, inTurn);
    CopiedWasChanged(k.m, p, copy);
    RenameMoves(w, p, copy, next);
    assert Get(next.local, copy) == Some(k.m.local[p]);
    if q != p && ChangedLocally(k.m, q) && q in moved {
      var c :| CopiedTo(k.m, q, c) && (Get(w.local, c) == Some(k.m.local[q]) || HeldThere(k, q, c));
      RenameSpares(k, w, p, copy, moved, a, q, c, inTurn);
      assert Get(next.local, c) == Some(k.m.local[q]) || HeldThere(k, q, c);
    }
  }

  lemma RenameKeeps(k: Course, w: World, p: string, copy: string, moved: set<string>, a: Action, inTurn: bool)
    requires IsStamp(k.m.stamp) && !Clashing(k, inTurn) && Turn(k, w, moved, a, inTurn) && Kept(k, w, moved)
    requires CopiedTo(k.m, p, copy) && copy != p && p !in moved && a.path == p && (a.KeepBoth? || a.SetAside?)
    ensures Perform(w, RenameLocal(p, copy)).Some? ==>
              Kept(k, Perform(w, RenameLocal(p, copy)).value, moved + {p})
  {
    hide Merge.ActionFor, Clashing, KeptAt, Perform, Turn;
    if Perform(w, RenameLocal(p, copy)).Some? {
      forall q ensures KeptAt(k, Perform(w, RenameLocal(p, copy)).value, moved + {p}, q) {
        RenameKeepsAt(k, w, p, copy, moved, a, Perform(w, RenameLocal(p, copy)).value, q, inTurn);
      }
    }
  }

  lemma FreshCopy(m: Merge, p: string, copy: string)
    requires IsStamp(m.stamp) && FreshCopies(m) && CopiedTo(m, p, copy)
    ensures copy !in m.local && copy !in m.remote
    ensures forall q :: CopiedTo(m, q, copy) ==> q == p
  {
    hide Merge.ActionFor;
  }

  lemma SanctionedCopy(m: Merge, a: Action)
    requires IsStamp(m.stamp) && Sanctioned(m, a) && (a.KeepBoth? || a.SetAside?)
    ensures CopiedTo(m, a.path, a.localCopy)
  {
  }

  /** What a sanctioned action brings down, sends up or removes. */
  lemma WhatIsAsked(m: Merge, a: Action)
    requires IsStamp(m.stamp) && m.ActionFor(a.path) == Some(a)
    ensures a.Download? ==> ChangedRemotely(m, a.path) && !ChangedLocally(m, a.path)
    ensures a.Upload? ==> a.path in m.local && !ChangedRemotely(m, a.path)
    ensures a.Upload? && a.path in m.remote ==> m.local[a.path] != m.remote[a.path] && ChangedLocally(m, a.path)
    ensures a.DeleteLocal? ==> !ChangedLocally(m, a.path)
    ensures a.DeleteRemote? ==> Get(m.remote, a.path).Some? && m.remote[a.path].File? && !ChangedRemotely(m, a.path)
    ensures a.RemoveRemoteDirectory? ==> Get(m.remote, a.path) == Some(Directory) && !ChangedRemotely(m, a.path)
    ensures a.RemoveRemoteDirectory? ==> forall p :: p in m.remote && Inside(p, a.path) ==> Get(m.base, p) == Some(m.remote[p])
    ensures !a.SetAside?
  {
    hide HoldsOnlyWhatWasSynced, ConflictCopy;
    RemovalAsked(m, a.path);
  }

  lemma FetchIsHarmless(k: Course, a: Action, moved: set<string>, inTurn: bool)
    requires IsStamp(k.m.stamp) && !Clashing(k, inTurn) && (inTurn ==> Earlier(moved, a))
    requires k.m.ActionFor(a.path) == Some(a) && a.Download?
    ensures Harmless(k, Fetch(a.path), moved)
  {
    hide Merge.ActionFor, Clashing, SharedWith, Displaces, Earlier;
    WhatIsAsked(k.m, a);
    forall p | p in moved && CopiedTo(k.m, p, a.path) ensures Get(k.m.remote, a.path) == Get(k.m.local, p) {
      NoClash(k, p, a.path, inTurn);
      if inTurn { ComesBefore(moved, a, p, a.path); }
    }
  }

  lemma RemovalIsHarmless(k: Course, a: Action, moved: set<string>, inTurn: bool)
    requires IsStamp(k.m.stamp) && !Clashing(k, inTurn) && (inTurn ==> Earlier(moved, a))
    requires k.m.ActionFor(a.path) == Some(a) && a.DeleteLocal?
    ensures Harmless(k, RemoveLocalFile(a.path), moved)
  {
    hide Merge.ActionFor, Clashing, SharedWith, Displaces, Earlier;
    WhatIsAsked(k.m, a);
    forall p | p in moved ensures !CopiedTo(k.m, p, a.path) {
      if CopiedTo(k.m, p, a.path) {
        NoClash(k, p, a.path, inTurn);
        if inTurn { ComesBefore(moved, a, p, a.path); }
      }
    }
  }

  lemma PutIsHarmless(k: Course, a: Action, wanted: Expect, moved: set<string>, inTurn: bool)
    requires IsStamp(k.m.stamp) && !Clashing(k, inTurn) && Extends(k)
    requires k.m.ActionFor(a.path) == Some(a) && a.Upload? && (wanted.Etag? ==> a.path in k.m.remote)
    ensures Harmless(k, Put(a.path, wanted), moved)
  {
    hide Merge.ActionFor, Clashing, SharedWith, TakenAfterwards;
    WhatIsAsked(k.m, a);
    forall p | CopiedTo(k.m, p, a.path) && p in k.m.local ensures wanted == Absent || !HeldThere(k, p, a.path) {
      NoClash(k, p, a.path, inTurn);
    }
  }

  lemma RemoteRemovalIsHarmless(k: Course, a: Action, moved: set<string>)
    requires IsStamp(k.m.stamp) && Closed(k.start.remote) && Extends(k)
    requires k.m.ActionFor(a.path) == Some(a) && (a.DeleteRemote? || a.RemoveRemoteDirectory?) && Heeds(k.rule, a)
    ensures Harmless(k, RemoveRemote(a.path), moved)
  {
    hide Merge.ActionFor;
    WhatIsAsked(k.m, a);
    forall p, c | CopiedTo(k.m, p, c) && p in k.m.local && HeldThere(k, p, c) ensures c != a.path && !Inside(c, a.path) {
      CopiedWasChanged(k.m, p, c);
    }
  }

  /** Apart from the renames that set a conflicting file aside, every step of a sanctioned action is harmless. */
  lemma SanctionedStepsAreHarmless(k: Course, a: Action, i: nat, moved: set<string>, inTurn: bool)
    requires IsStamp(k.m.stamp) && Closed(k.start.remote) && Extends(k) && !Clashing(k, inTurn) && (inTurn ==> Earlier(moved, a))
    requires k.m.ActionFor(a.path) == Some(a) && !a.KeepBoth? && Heeds(k.rule, a)
    requires i < |Steps(a, k.Seen())|
    ensures Harmless(k, Steps(a, k.Seen())[i], moved)
  {
    hide Merge.ActionFor, Clashing, Earlier, HeldThere, Extends;
    WhatIsAsked(k.m, a);
    match a {
      case Download(_) => FetchIsHarmless(k, a, moved, inTurn);
      case Upload(p) =>
        PutIsHarmless(k, a, Absent, moved, inTurn);
        if p in k.m.remote { PutIsHarmless(k, a, Etag(if k.m.remote[p].File? then k.m.remote[p].etag else ""), moved, inTurn); }
      case DeleteLocal(_) => RemovalIsHarmless(k, a, moved, inTurn);
      case DeleteRemote(_) => RemoteRemovalIsHarmless(k, a, moved);
      case RemoveRemoteDirectory(_) => RemoteRemovalIsHarmless(k, a, moved);
      case _ =>
    }
  }

  /** Once its file is aside, the rest of such an action is harmless. */
  lemma RestOfCopyIsHarmless(k: Course, w: World, a: Action, i: nat, moved: set<string>, inTurn: bool)
    requires IsStamp(k.m.stamp) && !Clashing(k, inTurn) && Turn(k, w, moved, a, inTurn)
    requires (a.KeepBoth? || a.SetAside?) && CopiedTo(k.m, a.path, a.localCopy) && a.localCopy != a.path && a.path !in moved
    requires Get(w.local, a.localCopy) != Some(Directory) && (forall q :: q in moved ==> q in k.m.local)
    requires 0 < i < |Steps(a, k.Seen())|
    ensures Harmless(k, Steps(a, k.Seen())[i], moved + {a.path})
  {
    hide Merge.ActionFor, Clashing, Turn, HeldThere, TakenAfterwards, SharedWith, Displaces;
    CopiedWasChanged(k.m, a.path, a.localCopy);
    NoOtherCopy(k.m, a.path, a.localCopy);
    forall q | q in moved + {a.path} ensures !CopiedTo(k.m, q, a.path) {
      if CopiedTo(k.m, q, a.path) {
        if q != a.path { RenameSpares(k, w, a.path, a.localCopy, moved, a, q, a.path, inTurn); }
      }
    }
  }

  /** A file kept under a copy that is its own name stays where it is: what is sent up finds the name taken. */
  lemma OwnCopyStops(w: World, p: string, seen: Listing, cut: nat)
    requires p in w.remote
    ensures Carry(w, Cut(Steps(KeepBoth(p, p), seen), cut)) == w
  {
    hide Above;
    var steps := Cut(Steps(KeepBoth(p, p), seen), cut);
    if steps != [] && Perform(w, steps[0]).Some? {
      assert steps[0] == RenameLocal(p, p);
      assert Perform(w, steps[0]).value.local == w.local;
      assert Perform(w, steps[0]) == Some(w);
      if |steps| > 1 {
        assert steps[1..][0] == steps[1] && (steps[1] == Vanished || steps[1] == Put(p, Absent));
        assert Perform(w, steps[1]) == None;
      }
    }
  }

  lemma AttemptKeeps(k: Course, w: World, attempt: Attempt, moved: set<string>, inTurn: bool) returns (after: set<string>)
    requires IsStamp(k.m.stamp) && Closed(k.start.remote) && Extends(k) && !Clashing(k, inTurn) && Kept(k, w, moved)
    requires Sanctioned(k.m, attempt.action) && Heeds(k.rule, attempt.action)
    requires attempt.action.path !in moved && Turn(k, w, moved, attempt.action, inTurn)
    requires forall q :: q in moved ==> q in k.m.local
    ensures moved <= after <= moved + {attempt.action.path}
    ensures attempt.action.path in after ==> SetsAside(attempt) && attempt.action.path in k.m.local
    ensures Kept(k, Carry(w, Cut(Steps(attempt.action, k.Seen()), attempt.cut)), after)
  {
    hide Kept, Harmless, Perform, Merge.ActionFor, Clashing, Turn, Extends;
    var a := attempt.action;
    var all := Steps(a, k.Seen());
    var steps := Cut(all, attempt.cut);
    after := moved;
    if (a.KeepBoth? || a.SetAside?) && steps != [] {
      var rename := RenameLocal(a.path, a.localCopy);
      assert steps[0] == rename;
      SanctionedCopy(k.m, a);
      CopiedWasChanged(k.m, a.path, a.localCopy);
      if a.localCopy == a.path {
        OwnCopyIsKept(k, w, a, moved, inTurn);
        OwnCopyStops(w, a.path, k.Seen(), attempt.cut);
      } else {
        RenameKeeps(k, w, a.path, a.localCopy, moved, a, inTurn);
        if Perform(w, rename).Some? {
          RenameMoves(w, a.path, a.localCopy, Perform(w, rename).value);
          after := moved + {a.path};
          forall i | 0 <= i < |steps[1..]| ensures Harmless(k, steps[1..][i], after) {
            RestOfCopyIsHarmless(k, w, a, i + 1, moved, inTurn);
          }
          HarmlessStepsKeep(k, Perform(w, rename).value, steps[1..], after);
        }
      }
    } else {
      forall i | 0 <= i < |steps| ensures Harmless(k, steps[i], moved) {
        TurnIsEarlier(k, w, moved, a, inTurn);
        SanctionedStepsAreHarmless(k, a, i, moved, inTurn);
      }
      HarmlessStepsKeep(k, w, steps, moved);
    }
  }

  lemma OwnCopyIsKept(k: Course, w: World, a: Action, moved: set<string>, inTurn: bool)
    requires IsStamp(k.m.stamp) && !Clashing(k, inTurn) && Kept(k, w, moved) && Heeds(k.rule, a)
    requires (a.KeepBoth? || a.SetAside?) && CopiedTo(k.m, a.path, a.localCopy) && a.localCopy == a.path
    ensures a.KeepBoth? && a == KeepBoth(a.path, a.path) && a.path in w.remote
  {
    hide Merge.ActionFor, Clashing, HeldThere;
    CopiedWasChanged(k.m, a.path, a.localCopy);
    NoClash(k, a.path, a.localCopy, inTurn);
    assert KeptAt(k, w, moved, a.path);
  }

  lemma TurnIsEarlier(k: Course, w: World, moved: set<string>, a: Action, inTurn: bool)
    requires Turn(k, w, moved, a, inTurn)
    ensures inTurn ==> Earlier(moved, a)
  {
  }

  /** An attempt that got as far as the rename that sets its file aside. */
  predicate SetsAside(attempt: Attempt) { attempt.cut > 0 && (attempt.action.KeepBoth? || attempt.action.SetAside?) }

  predicate WasSetAside(attempts: seq<Attempt>, p: string) {
    exists i :: 0 <= i < |attempts| && attempts[i].action.path == p && SetsAside(attempts[i])
  }

  // ---------- folders stay until they are removed ----------

  lemma {:induction false} StepsLeaveStanding(k: Course, w: World, steps: seq<Step>)
    requires Standing(k, w) && forall i :: 0 <= i < |steps| ==> !steps[i].RemoveLocalFolder?
    ensures Standing(k, Carry(w, steps))
    decreases steps
  {
    if steps != [] && Perform(w, steps[0]).Some? {
      StepLeavesStanding(k, w, steps[0]);
      StepsLeaveStanding(k, Perform(w, steps[0]).value, steps[1..]);
    }
  }

  lemma StepLeavesStanding(k: Course, w: World, step: Step)
    requires Standing(k, w) && !step.RemoveLocalFolder? && Perform(w, step).Some?
    ensures Standing(k, Perform(w, step).value)
  {
  }

  lemma EarlyActionsRemoveNoFolder(a: Action, seen: Listing)
    requires Stage(a) <= 1
    ensures forall i :: 0 <= i < |Steps(a, seen)| ==> !Steps(a, seen)[i].RemoveLocalFolder?
  {
  }

  lemma {:induction false} EarlyAttemptsLeaveStanding(k: Course, attempts: seq<Attempt>)
    requires forall i :: 0 <= i < |attempts| ==> Stage(attempts[i].action) <= 1
    ensures Standing(k, Attempted(k.start, attempts, k.Seen()))
  {
    if attempts == [] {
      assert Standing(k, k.start);
    } else {
      hide Standing, Steps, Stage;
      var last := attempts[|attempts| - 1];
      EarlyAttemptsLeaveStanding(k, attempts[..|attempts| - 1]);
      EarlyActionsRemoveNoFolder(last.action, k.Seen());
      StepsLeaveStanding(k, Attempted(k.start, attempts[..|attempts| - 1], k.Seen()), Cut(Steps(last.action, k.Seen()), last.cut));
    }
  }

  lemma InTurnSoFar(k: Course, attempts: seq<Attempt>, moved: set<string>, inTurn: bool)
    requires attempts != []
    requires inTurn ==> InTurn(attempts)
    requires forall p :: p in moved ==> WasSetAside(attempts[..|attempts| - 1], p)
    ensures Turn(k, Attempted(k.start, attempts[..|attempts| - 1], k.Seen()), moved, attempts[|attempts| - 1].action, inTurn)
  {
    hide Less;
    if inTurn {
      var rest, a := attempts[..|attempts| - 1], attempts[|attempts| - 1].action;
      forall i | 0 <= i < |rest| ensures Before(rest[i].action, a) { assert rest[i] == attempts[i]; }
      if Stage(a) <= 1 { EarlyAttemptsLeaveStanding(k, rest); }
    }
  }

  // ---------- any number of attempts ----------

  lemma {:induction false} AttemptsKeep(k: Course, attempts: seq<Attempt>, inTurn: bool) returns (moved: set<string>)
    requires IsStamp(k.m.stamp) && Closed(k.start.remote) && !Clashing(k, inTurn) && Extends(k)
    requires Runnable(k.m, attempts) && AllHeed(k.rule, attempts) && (inTurn ==> InTurn(attempts))
    ensures forall p :: p in moved ==> p in k.m.local && WasSetAside(attempts, p)
    ensures Kept(k, Attempted(k.start, attempts, k.Seen()), moved)
  {
    hide Merge.ActionFor, Clashing;
    moved := {};
    if attempts != [] {
      var rest, last := attempts[..|attempts| - 1], attempts[|attempts| - 1];
      forall i | 0 <= i < |rest| ensures rest[i] == attempts[i] {}
      var before := AttemptsKeep(k, rest, inTurn);
      InTurnSoFar(k, attempts, before, inTurn);
      forall p | p in before ensures p != last.action.path && WasSetAside(attempts, p) {
        var i :| 0 <= i < |rest| && rest[i].action.path == p && SetsAside(rest[i]);
        assert attempts[i] == rest[i];
      }
      hide Kept, Turn, Extends;
      moved := AttemptKeeps(k, Attempted(k.start, rest, k.Seen()), last, before, inTurn);
    }
  }

  /** One of the two sides has this very entry at the path. */
  predicate OnEitherSide(w: World, p: string, entry: Entry) { Get(w.local, p) == Some(entry) || Get(w.remote, p) == Some(entry) }

  /** The work done on a file is under its own path or, once the file was set aside, under its copy. */
  ghost predicate Survives(m: Merge, w: World, attempts: seq<Attempt>, p: string)
    requires IsStamp(m.stamp) && p in m.local
  {
    || OnEitherSide(w, p, m.local[p])
    || (WasSetAside(attempts, p) && exists c :: CopiedTo(m, p, c) && OnEitherSide(w, c, m.local[p]))
  }

  /**
    As long as no conflict copy clashes nothing either side had gained is lost, whatever part of the plan
    was attempted and wherever each attempt was cut short: a local change is under its path or, once it
    was set aside, under its copy; and a remote change is on the server under its path, despite the
    server's recursive delete. The two sides may hold more than the pass looks at.
   */
  lemma {:induction false} WithoutAClashNothingIsLost(k: Course, attempts: seq<Attempt>, inTurn: bool, p: string)
    requires IsStamp(k.m.stamp) && Closed(k.start.remote) && !Clashing(k, inTurn) && Extends(k)
    requires Runnable(k.m, attempts) && AllHeed(k.rule, attempts) && (inTurn ==> InTurn(attempts))
    ensures var w := Attempted(k.start, attempts, k.Seen());
            && (ChangedLocally(k.m, p) ==> Survives(k.m, w, attempts, p))
            && (ChangedRemotely(k.m, p) ==> Get(w.remote, p) == Some(k.m.remote[p]))
  {
    hide Merge.ActionFor, Clashing, HeldThere;
    var moved := AttemptsKeep(k, attempts, inTurn);
    var w := Attempted(k.start, attempts, k.Seen());
    assert KeptAt(k, w, moved, p);
    if ChangedLocally(k.m, p) {
      if p in moved {
        var c :| CopiedTo(k.m, p, c) && (Get(w.local, c) == Some(k.m.local[p]) || HeldThere(k, p, c));
        assert OnEitherSide(w, c, k.m.local[p]);
      } else if Get(w.local, p) != Some(k.m.local[p]) {
        assert ChangedRemotely(k.m, p);
      }
    }
  }

  /** With fresh names, in whatever order actions are attempted, a local change stays in the folder. */
  lemma {:induction false} NothingIsLost(m: Merge, attempts: seq<Attempt>, p: string)
    requires IsStamp(m.stamp) && Closed(m.local) && Closed(m.remote) && FreshCopies(m)
    requires Runnable(m, attempts)
    ensures var w := Attempted(World(m.local, m.remote, m.base), attempts, Listing(m.local, m.remote));
            && (ChangedLocally(m, p) ==>
                  || Get(w.local, p) == Some(m.local[p])
                  || exists c :: CopiedTo(m, p, c) && Get(w.local, c) == Some(m.local[p]))
            && (ChangedRemotely(m, p) ==> Get(w.remote, p) == Some(m.remote[p]))
  {
    hide Merge.ActionFor, FreshCopies, Clashing;
    var k := Course(m, World(m.local, m.remote, m.base), Rule(_ => true, _ => false));
    FreshCopiesNeverClash(k, false);
    var moved := AttemptsKeep(k, attempts, false);
    assert KeptAt(k, Attempted(k.start, attempts, k.Seen()), moved, p);
    forall q, c | CopiedTo(m, q, c) ensures c !in m.local && c !in m.remote { FreshCopy(m, q, c); }
  }

  // ---------- every clash loses something ----------

  /** Some of what is left of a plan, in its order, that loses what the folder had gained at `p`. */
  ghost predicate Loses(k: Course, attempts: seq<Attempt>, p: string)
    requires IsStamp(k.m.stamp)
  {
    && Runnable(k.m, attempts) && InTurn(attempts) && AllObey(k.rule, attempts) && ChangedLocally(k.m, p)
    && !Survives(k.m, Attempted(k.start, attempts, k.Seen()), attempts, p)
  }

  /** The paths a snapshot may have: what a relative path can be made of. */
  ghost predicate Proper(m: Merge) {
    Closed(m.local) && Closed(m.remote) && forall p :: p in m.Paths() ==> ValidPath(p)
  }

  /** A pass that sees each path it looks at on both sides, whatever else there is. */
  ghost predicate BothSides(k: Course) {
    && Proper(k.m) && Closed(k.start.remote) && Extends(k)
    && forall p :: p in k.m.local || p in k.m.remote ==> Get(k.start.local, p) == Get(k.m.local, p) && Get(k.start.remote, p) == Get(k.m.remote, p)
  }

  function Renamed(w: World, p: string, c: string): World
    requires p in w.local
  {
    w.(local := Without(w.local, p)[c := w.local[p]])
  }

  lemma CarriesOne(w: World, step: Step, next: World)
    requires Perform(w, step) == Some(next)
    ensures Carry(w, [step]) == next
  {
    assert [step] == [step] + [];
    CarryOne(w, step, [], next);
  }

  lemma AttemptedMore(start: World, attempts: seq<Attempt>, last: Attempt, seen: Listing)
    ensures Attempted(start, attempts + [last], seen) == Carry(Attempted(start, attempts, seen), Cut(Steps(last.action, seen), last.cut))
  {
    assert (attempts + [last])[..|attempts|] == attempts;
  }

  /** What becomes of keeping both under a rule, cut off right after the rename. */
  function SettingAside(rule: Rule, p: string, c: string): Attempt {
    Attempt(if rule.aside(c) then SetAside(p, c) else KeepBoth(p, c), 1)
  }

  lemma AsideFollows(k: Course, p: string, c: string)
    requires IsStamp(k.m.stamp) && CopiedTo(k.m, p, c)
    ensures var a := SettingAside(k.rule, p, c); Sanctioned(k.m, a.action) && Obeys(k.rule, a.action) && SetsAside(a) && a.action.path == p
    ensures forall b :: Before(KeepBoth(p, c), b) <==> Before(SettingAside(k.rule, p, c).action, b)
  {
    hide Merge.ActionFor;
  }

  lemma AsideRenames(start: World, attempts: seq<Attempt>, rule: Rule, p: string, c: string, seen: Listing)
    requires var w := Attempted(start, attempts, seen);
             p in w.local && w.local[p].File? && Get(w.local, c) != Some(Directory)
    ensures Attempted(start, attempts + [SettingAside(rule, p, c)], seen) == Renamed(Attempted(start, attempts, seen), p, c)
  {
    hide Above;
    var w, a := Attempted(start, attempts, seen), SettingAside(rule, p, c);
    AttemptedMore(start, attempts, a, seen);
    assert Cut(Steps(a.action, seen), 1) == [RenameLocal(p, c)];
    CarriesOne(w, RenameLocal(p, c), Renamed(w, p, c));
  }

  lemma AsideFirst(k: Course, p: string, c: string)
    requires IsStamp(k.m.stamp) && Extends(k) && CopiedTo(k.m, p, c) && Get(k.start.local, c) != Some(Directory)
    ensures p in k.m.local && k.m.local[p].File? && p in k.start.local && k.start.local[p] == k.m.local[p]
    ensures Attempted(k.start, [SettingAside(k.rule, p, c)], k.Seen()) == Renamed(k.start, p, c)
  {
    hide Merge.ActionFor, Steps;
    CopiedWasChanged(k.m, p, c);
    assert Attempted(k.start, [], k.Seen()) == k.start;
    AsideRenames(k.start, [], k.rule, p, c, k.Seen());
    assert [] + [SettingAside(k.rule, p, c)] == [SettingAside(k.rule, p, c)];
  }

  lemma NoOtherCopy(m: Merge, p: string, c: string)
    requires IsStamp(m.stamp) && CopiedTo(m, p, c)
    ensures forall d :: CopiedTo(m, p, d) ==> d == c
  {
    hide Merge.ActionFor;
  }

  /** A conflicting file that is neither under its path nor under its copy is lost. */
  lemma LostWhenNowhere(k: Course, attempts: seq<Attempt>, p: string, c: string)
    requires IsStamp(k.m.stamp) && Runnable(k.m, attempts) && InTurn(attempts) && AllObey(k.rule, attempts) && CopiedTo(k.m, p, c) && p in k.m.local
    requires var w := Attempted(k.start, attempts, k.Seen());
             !OnEitherSide(w, p, k.m.local[p]) && !OnEitherSide(w, c, k.m.local[p])
    ensures Loses(k, attempts, p)
  {
    hide Merge.ActionFor, Attempted, Runnable, InTurn, OnEitherSide, AllObey;
    CopiedWasChanged(k.m, p, c);
    NoOtherCopy(k.m, p, c);
  }

  lemma OneInTurn(k: Course, a: Attempt)
    requires IsStamp(k.m.stamp) && Sanctioned(k.m, a.action) && Obeys(k.rule, a.action)
    ensures Runnable(k.m, [a]) && InTurn([a]) && AllObey(k.rule, [a])
  {
  }

  lemma TwoInTurn(k: Course, a: Attempt, b: Attempt)
    requires IsStamp(k.m.stamp) && Sanctioned(k.m, a.action) && Sanctioned(k.m, b.action) && Obeys(k.rule, a.action) && Obeys(k.rule, b.action)
    requires a.action.path != b.action.path && Before(a.action, b.action)
    ensures Runnable(k.m, [a, b]) && InTurn([a, b]) && AllObey(k.rule, [a, b])
  {
  }

  lemma DisplacedIsLost(k: Course, p: string, c: string)
    requires IsStamp(k.m.stamp) && BothSides(k) && CopiedTo(k.m, p, c) && p in k.m.local && Displaces(k.m, p, c)
    ensures Loses(k, [SettingAside(k.rule, p, c)], c)
  {
    hide Merge.ActionFor, Steps, Proper, Attempted, IsStamp, Obeys;
    assert Get(k.start.local, c) == Some(k.m.local[c]);
    AsideFirst(k, p, c);
    AsideFollows(k, p, c);
    OneInTurn(k, SettingAside(k.rule, p, c));
    assert !WasSetAside([SettingAside(k.rule, p, c)], c);
  }

  lemma OwnCopyRun(k: Course, p: string)
    requires Closed(k.m.local) && BothSides(k) && p in k.m.local && k.m.local[p].File? && p in k.m.remote && k.m.remote[p].File?
    ensures var w := Attempted(k.start, [Attempt(SetAside(p, p), 9)], k.Seen());
            Get(w.local, p) == Get(w.remote, p) == Some(k.m.remote[p])
  {
    hide Above, Inside, IsStamp, ValidPath;
    var start, seen, a := k.start, k.Seen(), SetAside(p, p);
    AttemptedMore(start, [], Attempt(a, 9), seen);
    assert [] + [Attempt(a, 9)] == [Attempt(a, 9)];
    assert Renamed(start, p, p).local == start.local;
    var dropped := start.(base := Without(start.base, p));
    assert Steps(a, seen) == [RenameLocal(p, p)] + ([Drop(p)] + DownloadSteps(p, seen));
    CarryOne(start, RenameLocal(p, p), [Drop(p)] + DownloadSteps(p, seen), start);
    CarryOne(start, Drop(p), DownloadSteps(p, seen), dropped);
    Downloads(dropped, p, seen);
  }

  /** A name that is its own copy: a file set aside under it is where it was, and the download takes its place. */
  lemma OwnCopyIsLost(k: Course, p: string)
    requires IsStamp(k.m.stamp) && BothSides(k) && CopiedTo(k.m, p, p) && k.rule.aside(p)
    ensures Loses(k, [Attempt(SetAside(p, p), 9)], p)
  {
    hide Merge.ActionFor, ConflictCopy, ValidPath, IsStamp, Attempted, Inside;
    CopiedWasChanged(k.m, p, p);
    OwnCopyRun(k, p);
    OneInTurn(k, Attempt(SetAside(p, p), 9));
    LostWhenNowhere(k, [Attempt(SetAside(p, p), 9)], p, p);
  }

  /** What came down under the copy's name, or was deleted there, took the copy along. */
  lemma OvertakenIsLost(k: Course, p: string, c: string, b: Action)
    requires IsStamp(k.m.stamp) && BothSides(k) && CopiedTo(k.m, p, c) && c != p && p in k.m.local
    requires k.m.ActionFor(c) == Some(b) && Before(KeepBoth(p, c), b)
    requires b.DeleteLocal? || (b.Download? && Get(k.m.remote, c) != Some(k.m.local[p]))
    ensures Loses(k, [SettingAside(k.rule, p, c), Attempt(b, 9)], p)
  {
    hide Merge.ActionFor, ConflictCopy, ValidPath, IsStamp, Above, FileName, Attempted, Obeys;
    CopiedWasChanged(k.m, p, c);
    AtTheName(k.m, c, b);
    assert Get(k.start.local, c) == Get(k.m.local, c);
    AsideFirst(k, p, c);
    AsideFollows(k, p, c);
    var first := SettingAside(k.rule, p, c);
    var w := Renamed(k.start, p, c);
    AttemptedMore(k.start, [first], Attempt(b, 9), k.Seen());
    assert [first] + [Attempt(b, 9)] == [first, Attempt(b, 9)];
    assert Obeys(k.rule, b) by { NeverHeld(k.rule, b); }
    TwoInTurn(k, first, Attempt(b, 9));
    if b.Download? {
      CopyIsBeside(k.m, p, c);
      ClearWay(k, p, c);
      Downloads(w, c, k.Seen());
    } else {
      DeletesLocally(w, c, k.Seen());
    }
    LostWhenNowhere(k, [first, Attempt(b, 9)], p, c);
  }

  lemma NeverHeld(rule: Rule, b: Action)
    requires b.DeleteLocal? || b.Download?
    ensures Obeys(rule, b)
  {
  }

  lemma ClearWay(k: Course, p: string, c: string)
    requires BothSides(k) && p in k.m.local && k.start.local[p] == k.m.local[p] && forall d :: Inside(c, d) <==> Inside(p, d)
    ensures var w := Renamed(k.start, p, c); forall d :: Inside(c, d) && d in w.local ==> w.local[d].Directory?
  {
    hide ValidPath;
    forall d | Inside(c, d) ensures d in k.start.local && k.start.local[d].Directory? && d != c && d != p {
      assert d in k.m.local && k.m.local[d].Directory?;
    }
  }

  lemma AtTheName(m: Merge, c: string, b: Action)
    requires IsStamp(m.stamp) && m.ActionFor(c) == Some(b)
    ensures b.path == c
    ensures b.Download? ==> c in m.remote && m.remote[c].File? && Get(m.local, c) != Some(Directory)
    ensures b.DeleteLocal? ==> c in m.local && c !in m.remote && Get(m.local, c) != Some(Directory)
  {
    hide HoldsOnlyWhatWasSynced, ConflictCopy;
  }

  lemma CopyIsBeside(m: Merge, p: string, c: string)
    requires IsStamp(m.stamp) && Proper(m) && CopiedTo(m, p, c)
    ensures ValidPath(p) && ConflictCopy(p, m.stamp) == Some(c)
    ensures forall d :: Inside(c, d) <==> Inside(p, d)
  {
    hide HoldsOnlyWhatWasSynced, ConflictCopy;
    CopiedWasChanged(m, p, c);
    assert p in m.Paths();
    ConflictCopyExists(p, m.stamp);
  }

  /** The copy was set aside once more, as the file of that name. */
  lemma SetAsideAgainIsLost(k: Course, p: string, c: string, d: string)
    requires IsStamp(k.m.stamp) && BothSides(k) && CopiedTo(k.m, p, c) && CopiedTo(k.m, c, d) && c != p && d != c
    requires Get(k.start.local, d) != Some(Directory) && Before(KeepBoth(p, c), KeepBoth(c, d))
    requires Get(k.m.local, c) == Get(k.m.local, p)
    ensures Loses(k, [SettingAside(k.rule, p, c), SettingAside(k.rule, c, d)], p)
  {
    hide Merge.ActionFor, ConflictCopy, IsStamp, FileName, Proper, Above, Inside, Less, Steps, Attempted, SettingAside, Before, Obeys;
    CopiedWasChanged(k.m, p, c);
    CopiedWasChanged(k.m, c, d);
    CopyIsBeside(k.m, p, c);
    CopyIsBeside(k.m, c, d);
    if d == p { NoPathsSwap(p, c, k.m.stamp); }
    assert Get(k.start.local, c) == Some(k.m.local[c]);
    AsideFirst(k, p, c);
    AsideFollows(k, p, c);
    AsideFollows(k, c, d);
    var first, second := SettingAside(k.rule, p, c), SettingAside(k.rule, c, d);
    AsideRenames(k.start, [first], k.rule, c, d, k.Seen());
    assert [first] + [second] == [first, second];
    AsidesInTurn(k, p, c, c, d);
    LostWhenNowhere(k, [first, second], p, c);
  }

  lemma AsidesInTurn(k: Course, p: string, c: string, q: string, d: string)
    requires IsStamp(k.m.stamp) && CopiedTo(k.m, p, c) && CopiedTo(k.m, q, d) && p != q && Before(KeepBoth(p, c), KeepBoth(q, d))
    ensures var both := [SettingAside(k.rule, p, c), SettingAside(k.rule, q, d)];
            Runnable(k.m, both) && InTurn(both) && AllObey(k.rule, both) && Stage(both[0].action) == Stage(both[1].action) == 1
  {
    hide Merge.ActionFor, Less;
    AsideFollows(k, p, c);
    AsideFollows(k, q, d);
    TwoInTurn(k, SettingAside(k.rule, p, c), SettingAside(k.rule, q, d));
  }

  /** Two files set aside under one name. */
  lemma BothAside(k: Course, p: string, q: string, c: string)
    requires IsStamp(k.m.stamp) && Extends(k) && CopiedTo(k.m, p, c) && CopiedTo(k.m, q, c) && p != q && c != p && c != q && Get(k.start.local, c) != Some(Directory)
    ensures p in k.m.local && q in k.m.local
    ensures var w := Attempted(k.start, [SettingAside(k.rule, p, c), SettingAside(k.rule, q, c)], k.Seen());
            w.remote == k.start.remote && p !in w.local && Get(w.local, c) == Some(k.m.local[q])
  {
    hide Merge.ActionFor, Steps, Attempted, IsStamp, SettingAside;
    CopiedWasChanged(k.m, p, c);
    CopiedWasChanged(k.m, q, c);
    AsideFirst(k, p, c);
    AsideRenames(k.start, [SettingAside(k.rule, p, c)], k.rule, q, c, k.Seen());
    assert [SettingAside(k.rule, p, c)] + [SettingAside(k.rule, q, c)] == [SettingAside(k.rule, p, c), SettingAside(k.rule, q, c)];
  }

  lemma ThenDeleted(k: Course, attempts: seq<Attempt>, c: string)
    requires c in Attempted(k.start, attempts, k.Seen()).remote
    ensures var w, after := Attempted(k.start, attempts, k.Seen()), Attempted(k.start, attempts + [Attempt(DeleteRemote(c), 9)], k.Seen());
            after.local == w.local && after.remote == WithoutSubtree(w.remote, c)
  {
    hide Attempted, WithoutSubtree;
    AttemptedMore(k.start, attempts, Attempt(DeleteRemote(c), 9), k.Seen());
    DeletesRemotely(Attempted(k.start, attempts, k.Seen()), DeleteRemote(c), k.Seen());
  }

  /** Two files under one name: the second takes the first one's place. */
  lemma SharedIsLost(k: Course, p: string, q: string, c: string) returns (attempts: seq<Attempt>)
    requires IsStamp(k.m.stamp) && BothSides(k) && CopiedTo(k.m, p, c) && CopiedTo(k.m, q, c) && p != q && c != p && c != q
    requires p in k.m.local && Get(k.m.local, q) != Some(k.m.local[p]) && !HeldThere(k, p, c)
    requires Get(k.start.local, c) != Some(Directory) && Before(KeepBoth(p, c), KeepBoth(q, c))
    ensures Loses(k, attempts, p)
  {
    hide Merge.ActionFor, IsStamp, HeldThere, Proper, Loses, Attempted, Less, SettingAside, Before;
    CopiedWasChanged(k.m, p, c);
    BothAside(k, p, q, c);
    AsidesInTurn(k, p, c, q, c);
    attempts := [SettingAside(k.rule, p, c), SettingAside(k.rule, q, c)];
    assert Get(k.start.remote, p) == Some(k.m.remote[p]);
    if Get(k.start.remote, c) == Some(k.m.local[p]) {
      DeletedThere(k, p, c);
      ThenDeleted(k, attempts, c);
      DeletionFollows(k, attempts, p, q, c);
      attempts := attempts + [Attempt(DeleteRemote(c), 9)];
    }
    LostWhenNowhere(k, attempts, p, c);
  }

  lemma DeletionFollows(k: Course, attempts: seq<Attempt>, p: string, q: string, c: string)
    requires IsStamp(k.m.stamp) && attempts == [SettingAside(k.rule, p, c), SettingAside(k.rule, q, c)] && c != p && c != q
    requires Runnable(k.m, attempts) && InTurn(attempts) && AllObey(k.rule, attempts)
    requires k.m.ActionFor(c) == Some(DeleteRemote(c)) && !k.rule.spared(c)
    ensures var more := attempts + [Attempt(DeleteRemote(c), 9)]; Runnable(k.m, more) && InTurn(more) && AllObey(k.rule, more)
  {
    hide Merge.ActionFor, Less;
  }

  /** A file the server holds, in a folder that holds something new, only goes by being deleted itself. */
  lemma DeletedThere(k: Course, p: string, c: string)
    requires IsStamp(k.m.stamp) && BothSides(k) && CopiedTo(k.m, p, c) && p in k.m.local
    requires Get(k.start.remote, c) == Some(k.m.local[p]) && !HeldThere(k, p, c)
    ensures k.m.ActionFor(c) == Some(DeleteRemote(c)) && !k.rule.spared(c)
  {
    hide Merge.ActionFor, ConflictCopy, IsStamp, FileName, ValidPath;
    CopiedWasChanged(k.m, p, c);
    CopyIsBeside(k.m, p, c);
    forall d | Inside(c, d) ensures k.m.ActionFor(d) != Some(RemoveRemoteDirectory(d)) {
      RemovalAsked(k.m, d);
    }
  }

  lemma NameOfPath(p: string)
    requires ValidPath(p)
    ensures ValidName(FileName(p))
  {
    SplitPath(p);
    assert FileName(p) in Split(p);
  }

  lemma ValidNameHasNoSlash(name: string)
    requires ValidName(name)
    ensures '/' !in name
  {
  }

  /** Two paths are not each other's copies. */
  lemma NoPathsSwap(p: string, c: string, stamp: string)
    requires IsStamp(stamp) && ValidPath(p) && ValidPath(c)
    requires ConflictCopy(p, stamp) == Some(c) && ConflictCopy(c, stamp) == Some(p)
    ensures p == c
  {
    hide ValidPath, ValidName, ConflictCopy, ConflictName, NameStart;
    ConflictCopyExists(p, stamp);
    ConflictCopyExists(c, stamp);
    var a, b := FileName(p), FileName(c);
    NameOfPath(p);
    NameOfPath(c);
    ConflictNameIsValid(a, stamp);
    ConflictNameIsValid(b, stamp);
    ValidNameHasNoSlash(ConflictName(a, stamp));
    ValidNameHasNoSlash(ConflictName(b, stamp));
    BesideKeepsTheDirectory(p, ConflictName(a, stamp));
    BesideKeepsTheDirectory(c, ConflictName(b, stamp));
    NoNamesSwap(a, b, stamp);
    SplitPath(p);
    SplitPath(c);
    JoinSplit(p);
    JoinSplit(c);
  }

  lemma ClashLoses(k: Course, p: string, c: string) returns (attempts: seq<Attempt>, lost: string)
    requires IsStamp(k.m.stamp) && BothSides(k) && CopiedTo(k.m, p, c) && p in k.m.local && Clash(k, p, c, true)
    ensures Loses(k, attempts, lost)
  {
    hide Merge.ActionFor, ConflictCopy, IsStamp, Loses, BothSides, HeldThere, SettingAside;
    lost := p;
    if c == p && k.rule.aside(c) {
      OwnCopyIsLost(k, p);
      attempts := [Attempt(SetAside(p, p), 9)];
    } else if Displaces(k.m, p, c) {
      DisplacedIsLost(k, p, c);
      attempts, lost := [SettingAside(k.rule, p, c)], c;
    } else if c != p && TakenAfterwards(k, p, c, true) {
      attempts, lost := TakenIsLost(k, p, c);
    } else {
      var q :| q != p && CopiedTo(k.m, q, c) && Get(k.m.local, q) != Some(k.m.local[p]) && Before(KeepBoth(p, c), KeepBoth(q, c));
      CopiedWasChanged(k.m, p, c);
      CopiedWasChanged(k.m, q, c);
      if c == p {
        DisplacedIsLost(k, q, c);
        attempts, lost := [SettingAside(k.rule, q, c)], c;
      } else {
        attempts := SharedIsLost(k, p, q, c);
      }
    }
  }

  lemma TakenIsLost(k: Course, p: string, c: string) returns (attempts: seq<Attempt>, lost: string)
    requires IsStamp(k.m.stamp) && BothSides(k) && CopiedTo(k.m, p, c) && p in k.m.local && c != p
    requires TakenAfterwards(k, p, c, true) && !Displaces(k.m, p, c)
    ensures Loses(k, attempts, lost)
  {
    hide Merge.ActionFor, ConflictCopy, IsStamp, Loses, BothSides, SettingAside;
    var b := k.m.ActionFor(c).value;
    AtTheName(k.m, c, b);
    lost := p;
    if b.KeepBoth? {
      var d := b.localCopy;
      assert b == KeepBoth(c, d);
      CopiedWasChanged(k.m, c, d);
      if d == c {
        OwnCopyIsLost(k, c);
        attempts, lost := [Attempt(SetAside(c, c), 9)], c;
      } else {
        SetAsideAgainIsLost(k, p, c, d);
        attempts := [SettingAside(k.rule, p, c), SettingAside(k.rule, c, d)];
      }
    } else {
      OvertakenIsLost(k, p, c, b);
      attempts := [SettingAside(k.rule, p, c), Attempt(b, 9)];
    }
  }

  lemma ObeyingIsHeeding(rule: Rule, attempts: seq<Attempt>)
    requires AllObey(rule, attempts)
    ensures AllHeed(rule, attempts)
  {
    forall i | 0 <= i < |attempts| ensures Heeds(rule, attempts[i].action) { assert Obeys(rule, attempts[i].action); }
  }

  /**
    Work can be lost, by some part of what a rule leaves of the plan, in its order, exactly when some
    conflict copy clashes; whatever the rule, and whatever else the two sides hold.
   */
  lemma LosingTakesAClash(k: Course)
    requires IsStamp(k.m.stamp) && BothSides(k)
    ensures (exists attempts, p :: Loses(k, attempts, p)) <==> Clashing(k, true)
  {
    hide Merge.ActionFor, ConflictCopy, IsStamp, Clash, Proper;
    if Clashing(k, true) {
      var p, c :| CopiedTo(k.m, p, c) && p in k.m.local && Clash(k, p, c, true);
      var attempts, lost := ClashLoses(k, p, c);
    } else if attempts, p :| Loses(k, attempts, p) {
      ObeyingIsHeeding(k.rule, attempts);
      WithoutAClashNothingIsLost(k, attempts, true, p);
    }
  }

  /** For the plan as it is, on the snapshots it was made from. */
  lemma PlainLosingTakesAClash(m: Merge)
    requires IsStamp(m.stamp) && Proper(m)
    ensures (exists attempts, p :: Loses(Plain(m), attempts, p)) <==> Clashing(Plain(m), true)
  {
    hide Clashing, Loses;
    LosingTakesAClash(Plain(m));
  }

  // ---------- a copy's name that is taken ----------

  lemma CopyOfA(stamp: string)
    requires IsStamp(stamp)
    ensures ConflictCopy("a", stamp) == Some("a" + Suffix(stamp))
    ensures Above("a") == {} && Above("a" + Suffix(stamp)) == {}
  {
    SuffixBytes(stamp);
    var copy := "a" + Suffix(stamp);
    assert LastDot("a") == None;
    UntruncatedName("a", stamp);
    assert NameStart("a") == 0;
    assert FileName("a") == "a" && ConflictName("a", stamp) == copy;
    assert ParseName("a") == Ok("a");
    assert Split("a") == ["a"];
    ConflictCopyExists("a", stamp);
    assert Beside("a", copy) == copy;
    forall d ensures !Inside("a", d) { }
    assert forall d :: Inside(copy, d) <==> Inside("a", d);
  }

  /** Both sides edited "a", and the server has a file under the very name the local copy would take. */
  function TakenCopy(stamp: string): Merge {
    Merge(map["a" := File("mine", 1)], map["a" := File("theirs", 1), "a" + Suffix(stamp) := File("other", 1)], map[], stamp)
  }

  /**
    Without fresh names work is lost: the local file moves to its copy's name, cannot go up under it,
    and the download planned for that name then overwrites it.
   */
  lemma TakenCopyLosesTheEdit(stamp: string)
    requires IsStamp(stamp)
    ensures var m := TakenCopy(stamp);
            var copy := "a" + Suffix(stamp);
            var attempts := [Attempt(KeepBoth("a", copy), 99), Attempt(Download(copy), 99)];
            && Runnable(m, attempts) && ChangedLocally(m, "a")
            && var w := Attempted(World(m.local, m.remote, m.base), attempts, Listing(m.local, m.remote));
               forall p :: Get(w.local, p) != Some(File("mine", 1)) && Get(w.remote, p) != Some(File("mine", 1))
  {
    hide ConflictCopy, Above, Steps, Carry, Suffix, Merge.ActionFor;
    var m := TakenCopy(stamp);
    var copy := "a" + Suffix(stamp);
    var seen := Listing(m.local, m.remote);
    var start := World(m.local, m.remote, m.base);
    var moved := start.(local := map[copy := File("mine", 1)]);
    var first, second := Attempt(KeepBoth("a", copy), 99), Attempt(Download(copy), 99);
    TakenCopyIsPlanned(stamp);
    TakenCopyStops(stamp);
    CopyOfA(stamp);
    assert [first][..0] == [] && [first, second][..1] == [first];
    assert Attempted(start, [], seen) == start;
    assert Attempted(start, [first], seen) == moved;
    Overwritten(moved, copy, seen);
    assert Attempted(start, [first, second], seen) == Carry(moved, Steps(Download(copy), seen));
  }

  lemma TakenCopyIsPlanned(stamp: string)
    requires IsStamp(stamp)
    ensures var m, copy := TakenCopy(stamp), "a" + Suffix(stamp);
            && |copy| == 29 && m.ActionFor("a") == Some(KeepBoth("a", copy)) && m.ActionFor(copy) == Some(Download(copy))
  {
    CopyOfA(stamp);
    SuffixBytes(stamp);
    hide ConflictCopy;
  }

  /** The move aside is as far as keeping both gets. */
  lemma TakenCopyStops(stamp: string)
    requires IsStamp(stamp)
    ensures var m, copy := TakenCopy(stamp), "a" + Suffix(stamp);
            var start, seen := World(m.local, m.remote, m.base), Listing(m.local, m.remote);
            && |Steps(KeepBoth("a", copy), seen)| <= 99 && |Steps(Download(copy), seen)| <= 99
            && Carry(start, Steps(KeepBoth("a", copy), seen)) == start.(local := map[copy := File("mine", 1)])
  {
    SuffixBytes(stamp);
    var m, copy := TakenCopy(stamp), "a" + Suffix(stamp);
    assert |copy| == 29;
    var start, seen := World(m.local, m.remote, m.base), Listing(m.local, m.remote);
    hide Suffix, Above;
    var moved := start.(local := map[copy := File("mine", 1)]);
    assert Perform(start, RenameLocal("a", copy)) == Some(moved);
    assert Perform(moved, Put(copy, Absent)) == None;
    var steps := Steps(KeepBoth("a", copy), seen);
    assert steps[0] == RenameLocal("a", copy) && steps[1] == Put(copy, Absent);
  }

  lemma Overwritten(w: World, p: string, seen: Listing)
    requires p in seen.remote && seen.remote[p].File? && Get(w.remote, p) == Some(seen.remote[p])
    requires Above(p) == {} && w.local.Keys == {p} && w.local[p].File?
    ensures Carry(w, Steps(Download(p), seen)).local == map[p := seen.remote[p]] && Carry(w, Steps(Download(p), seen)).remote == w.remote
  {
    var steps := Steps(Download(p), seen);
    var made := Perform(w, steps[0]).value;
    assert made.local == w.local;
    var fetched := Perform(made, steps[1]).value;
    var recorded := Perform(fetched, steps[2]).value;
    assert steps[1..][1..] == [steps[2]] && steps[1..][1..][1..] == [];
    assert Carry(fetched, [steps[2]]) == recorded by { assert [steps[2]][1..] == []; }
  }

  // ---------- two long names that share a copy ----------

  function LongA(): string { Repeat('x', 254) + "a" }
  function LongB(): string { Repeat('x', 254) + "b" }

  /** Both sides edited two files whose names differ only in the byte that is cut away. */
  function TwoLongNames(stamp: string): Merge {
    Merge(map[LongA() := File("mine", 1), LongB() := File("ours", 1)], map[LongA() := File("theirs", 1), LongB() := File("theirs", 1)], map[], stamp)
  }

  lemma LongNames(stamp: string)
    requires IsStamp(stamp)
    ensures ValidPath(LongA()) && ValidPath(LongB()) && LongA() != LongB() && Less(LongA(), LongB())
    ensures Above(LongA()) == {} && Above(LongB()) == {}
    ensures exists c :: ConflictCopy(LongA(), stamp) == Some(c) == ConflictCopy(LongB(), stamp) && c != LongA() && c != LongB()
  {
    hide ConflictCopy, ConflictName, ValidPath, ValidName, Less, LongA, LongB, NameStart, FileName;
    var a, b := LongA(), LongB();
    LongNamesAreNames(stamp);
    PlainName(a);
    PlainName(b);
    ConflictCopyExists(a, stamp);
    ConflictCopyExists(b, stamp);
    LongNamesCompare();
    SharedName(stamp);
    LongNamesDiffer();
  }

  lemma LongNamesDiffer()
    ensures LongA() != LongB()
  {
    assert LongA()[254] == 'a' && LongB()[254] == 'b';
  }

  lemma LongNamesAreNames(stamp: string)
    requires IsStamp(stamp)
    ensures ValidName(LongA()) && ValidName(LongB()) && '/' !in LongA() && '/' !in LongB() && ConflictName(LongA(), stamp) == ConflictName(LongB(), stamp)
  {
    hide ConflictName;
    TruncatedNamesMayMeet(stamp);
  }

  /** A name by itself is a path with nothing above it. */
  lemma PlainName(name: string)
    requires ValidName(name) && '/' !in name
    ensures ValidPath(name) && Above(name) == {} && FileName(name) == name && forall other :: Beside(name, other) == other
  {
    hide ValidName;
    NameStartIs(name, 0);
    assert Split(name) == [name];
  }

  lemma LongNamesCompare()
    ensures Less(LongA(), LongB())
  {
    FirstDifference(LongA(), LongB(), 254);
  }

  lemma {:induction false} FirstDifference(a: string, b: string, at: nat)
    requires at < |a| && at < |b| && a[..at] == b[..at] && a[at] < b[at]
    ensures Less(a, b)
  {
    if at > 0 {
      assert a[0] == a[..at][0] == b[..at][0] == b[0];
      assert a[1..][..at - 1] == a[..at][1..] && b[1..][..at - 1] == b[..at][1..];
      FirstDifference(a[1..], b[1..], at - 1);
    }
  }

  lemma SharedName(stamp: string)
    requires IsStamp(stamp)
    ensures ConflictName(LongA(), stamp) != LongA() && ConflictName(LongB(), stamp) != LongB()
    ensures ConflictName(LongA(), stamp) != LongB() && ConflictName(LongB(), stamp) != LongA()
  {
    SuffixBytes(stamp);
    var a, b := LongA(), LongB();
    assert LastDot(a).None? && LastDot(b).None?;
    assert FloorCharBoundary(a, 227) == 227 == FloorCharBoundary(b, 227);
    assert a[227] == 'x' == b[227];
    assert ConflictName(a, stamp)[227] == ' ' == ConflictName(b, stamp)[227];
  }

  /** The second is set aside over the first, whose edit is then nowhere. */
  lemma TruncatedCopiesLoseAnEdit(stamp: string) returns (attempts: seq<Attempt>)
    requires IsStamp(stamp)
    ensures Loses(Plain(TwoLongNames(stamp)), attempts, LongA())
  {
    hide ConflictCopy, Loses, LongA, LongB, ValidPath, Less, Above;
    LongNames(stamp);
    var m := TwoLongNames(stamp);
    var c :| ConflictCopy(LongA(), stamp) == Some(c) == ConflictCopy(LongB(), stamp) && c != LongA() && c != LongB();
    assert Proper(m);
    attempts := SharedIsLost(Plain(m), LongA(), LongB(), c);
  }
}
