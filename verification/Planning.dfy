/**
  The three-way merge: `reconcile` of crates/client/src/sync/plan.rs.

  A snapshot is what one side holds. The base is what the last pass recorded as agreed. Etags are
  taken to be injective in content, so two equal entries are two equal files.
 */
module Planning {
  import opened Results
  import opened Paths
  import opened ConflictNames

  datatype Entry = Directory | File(etag: string, size: nat)

  type Snapshot = map<string, Entry>

  datatype Action =
    | CreateLocalDirectory(path: string)
    | CreateRemoteDirectory(path: string)
    | Download(path: string)
    | Upload(path: string)
    | DeleteLocal(path: string)
    | DeleteRemote(path: string)
    | RemoveLocalDirectory(path: string)
    | RemoveRemoteDirectory(path: string)
    | Forget(path: string)
    | KeepBoth(path: string, localCopy: string)
    | SetAside(path: string, localCopy: string)

  datatype Plan = Plan(actions: seq<Action>, blocked: seq<string>, held: seq<string>) {
    predicate IsEmpty() { actions == [] && blocked == [] && held == [] }
  }

  /** Every path has its ancestors beside it, as directories. */
  ghost predicate Closed(s: Snapshot) {
    forall p, d :: p in s && Inside(p, d) ==> d in s && s[d].Directory?
  }

  // ---------- the prefix scan ----------

  /** `range(directory..)`. */
  function RangeFrom(keys: seq<string>, directory: string): seq<string> {
    if keys != [] && Less(keys[0], directory) then RangeFrom(keys[1..], directory) else keys
  }

  /** `skip_while(|path| path == directory)`. */
  function SkipItself(keys: seq<string>, directory: string): seq<string> {
    if keys != [] && keys[0] == directory then SkipItself(keys[1..], directory) else keys
  }

  /** `take_while(|path| path.starts_with(directory))`. */
  function TakeWithPrefix(keys: seq<string>, directory: string): seq<string> {
    if keys != [] && StartsWith(keys[0], directory) then [keys[0]] + TakeWithPrefix(keys[1..], directory) else []
  }

  function Scan(keys: seq<string>, directory: string): seq<string> {
    TakeWithPrefix(SkipItself(RangeFrom(keys, directory), directory), directory)
  }

  /** `holds_only_what_was_synced`, over the ordered range the source walks. */
  predicate HoldsOnlyWhatWasSynced(remote: Snapshot, base: Snapshot, directory: string) {
    forall p | p in Scan(Ordered(remote.Keys), directory) && Inside(p, directory) && p in remote ::
      Get(base, p) == Some(remote[p])
  }

  lemma {:induction false} ScanFindsEverythingInside(keys: seq<string>, directory: string, p: string)
    requires Ascending(keys) && p in keys && Inside(p, directory)
    ensures p in Scan(keys, directory)
  {
    var first := keys[0];
    InsideComesLater(p, directory);
    LessAsymmetric(directory, p);
    if p != first { assert p in keys[1..]; }
    if Less(first, directory) {
      LessIrreflexive(first);
      ScanFindsEverythingInside(keys[1..], directory, p);
    } else if first == directory {
      assert RangeFrom(keys, directory) == keys;
      RangeOfLater(keys[1..], directory, p);
      TakenFromLater(keys[1..], directory, p);
    } else {
      LessTotal(first, directory);
      assert RangeFrom(keys, directory) == keys == SkipItself(keys, directory);
      forall k | k in keys ensures Less(directory, k) {
        if k != first { LessTransitive(directory, first, k); }
      }
      TakenFromLater(keys, directory, p);
    }
  }

  lemma RangeOfLater(keys: seq<string>, directory: string, p: string)
    requires Ascending([directory] + keys)
    ensures SkipItself(keys, directory) == keys
  {
    if keys != [] {
      assert Less(([directory] + keys)[0], ([directory] + keys)[1]);
      LessIrreflexive(directory);
    }
  }

  lemma {:induction false} TakenFromLater(keys: seq<string>, directory: string, p: string)
    requires Ascending(keys) && p in keys && StartsWith(p, directory)
    requires forall k :: k in keys ==> Less(directory, k)
    ensures p in TakeWithPrefix(keys, directory)
  {
    if p != keys[0] {
      assert p in keys[1..];
      PrefixRun(directory, keys[0], p);
      TakenFromLater(keys[1..], directory, p);
    }
  }

  /** The scan stops early, yet sees everything inside: the test says exactly that nothing there is new. */
  lemma ScanSeesTheWholeDirectory(remote: Snapshot, base: Snapshot, directory: string)
    ensures HoldsOnlyWhatWasSynced(remote, base, directory) <==>
            forall p :: p in remote && Inside(p, directory) ==> Get(base, p) == Some(remote[p])
  {
    forall p | p in remote && Inside(p, directory)
      ensures p in Scan(Ordered(remote.Keys), directory)
    {
      ScanFindsEverythingInside(Ordered(remote.Keys), directory, p);
    }
  }

  // ---------- what is decided for one path ----------

  /** What `reconcile` is given: the three snapshots and the instant conflict copies are named by. */
  datatype Merge = Merge(local: Snapshot, remote: Snapshot, base: Snapshot, stamp: string) {

    function Paths(): set<string> { local.Keys + remote.Keys + base.Keys }

    /** `for_file`. */
    function ForFile(path: string): (r: Option<Action>)
      requires IsStamp(stamp)
      ensures r.Some? ==> r.value.path == path && 1 <= Stage(r.value) <= 2
      ensures r.Some? && Stage(r.value) == 2 ==> r.value.DeleteLocal? || r.value.DeleteRemote?
    {
      match (Get(local, path), Get(remote, path))
      case (Some(left), Some(right)) =>
        if left == right then None
        else if Get(base, path) == Some(left) then Some(Download(path))
        else if Get(base, path) == Some(right) then Some(Upload(path))
        else
          (match ConflictCopy(path, stamp)
           case Some(copy) => Some(KeepBoth(path, copy))
           case None => None)
      case (Some(left), None) =>
        Some(if Get(base, path) == Some(left) then DeleteLocal(path) else Upload(path))
      case (None, Some(right)) =>
        Some(if Get(base, path) == Some(right) then DeleteRemote(path) else Download(path))
      case (None, None) => None
    }

    predicate Blocks(path: string) {
      path in local && path in remote && local[path].Directory? != remote[path].Directory?
    }

    /** One turn of the loop in `reconcile`: the action it pushes, if any. */
    function ActionFor(path: string): Option<Action>
      requires IsStamp(stamp)
    {
      var left, right := Get(local, path), Get(remote, path);
      if left == right == Some(Directory) then None
      else if left == right == None then if path in base then Some(Forget(path)) else None
      else if left == None && right == Some(Directory) then
        if path !in base then Some(CreateLocalDirectory(path))
        else if HoldsOnlyWhatWasSynced(remote, base, path) then Some(RemoveRemoteDirectory(path))
        else None
      else if left == Some(Directory) && right == None then
        Some(if path in base then RemoveLocalDirectory(path) else CreateRemoteDirectory(path))
      else if Blocks(path) then None
      else ForFile(path)
    }
  }

  /** When a directory only the server holds is planned to go. */
  lemma RemovalAsked(m: Merge, path: string)
    requires IsStamp(m.stamp)
    ensures m.ActionFor(path) == Some(RemoveRemoteDirectory(path)) <==>
            && Get(m.remote, path) == Some(Directory) && path !in m.local && path in m.base
            && forall p :: p in m.remote && Inside(p, path) ==> Get(m.base, p) == Some(m.remote[p])
  {
    ScanSeesTheWholeDirectory(m.remote, m.base, path);
    hide HoldsOnlyWhatWasSynced, ConflictCopy;
  }

  /** When a file only the server holds is planned to go. */
  lemma DeletionAsked(m: Merge, path: string)
    requires IsStamp(m.stamp)
    ensures m.ActionFor(path) == Some(DeleteRemote(path)) <==>
            path !in m.local && path in m.remote && m.remote[path].File? && Get(m.base, path) == Some(m.remote[path])
  {
    hide HoldsOnlyWhatWasSynced, ConflictCopy;
  }

  // ---------- the order actions run in ----------

  /** Which of the source's vectors an action is pushed onto, in the order they are joined. */
  function Stage(a: Action): nat {
    match a
    case CreateLocalDirectory(_) => 0
    case CreateRemoteDirectory(_) => 0
    case DeleteLocal(_) => 2
    case DeleteRemote(_) => 2
    case RemoveRemoteDirectory(_) => 3
    case RemoveLocalDirectory(_) => 4
    case Forget(_) => 5
    case _ => 1
  }

  function Pick(m: Merge, paths: seq<string>, stage: nat): seq<Action>
    requires IsStamp(m.stamp)
  {
    if paths == [] then []
    else
      var last := m.ActionFor(paths[|paths| - 1]);
      Pick(m, paths[..|paths| - 1], stage) +
      (if last.Some? && Stage(last.value) == stage then [last.value] else [])
  }

  function PickBlocked(m: Merge, paths: seq<string>): seq<string> {
    if paths == [] then []
    else
      var last := paths[|paths| - 1];
      PickBlocked(m, paths[..|paths| - 1]) + (if m.Blocks(last) then [last] else [])
  }

  function Reversed<T>(s: seq<T>): seq<T> {
    if s == [] then [] else Reversed(s[1..]) + [s[0]]
  }

  function PlanOf(m: Merge): Plan
    requires IsStamp(m.stamp)
  {
    var paths := Ordered(m.Paths());
    Plan(Pick(m, paths, 0) + Pick(m, paths, 1) + Pick(m, paths, 2)
         + Reversed(Pick(m, paths, 3)) + Reversed(Pick(m, paths, 4)) + Pick(m, paths, 5),
         PickBlocked(m, paths), [])
  }

  method Reverse<T>(s: seq<T>) returns (r: seq<T>)
    ensures r == Reversed(s)
  {
    r := [];
    for i := 0 to |s|
      invariant Reversed(s) == Reversed(s[i..]) + r
    {
      r := [s[i]] + r;
      assert s[i..][1..] == s[i + 1..];
    }
  }

  lemma PickNothing(m: Merge, paths: seq<string>)
    requires IsStamp(m.stamp)
    ensures forall stage :: Pick(m, paths[..0], stage) == []
    ensures PickBlocked(m, paths[..0]) == []
  {
  }

  lemma PickStep(m: Merge, paths: seq<string>, i: nat)
    requires IsStamp(m.stamp) && i < |paths|
    ensures m.ActionFor(paths[i]).None? ==>
              forall stage :: Pick(m, paths[..i + 1], stage) == Pick(m, paths[..i], stage)
    ensures m.ActionFor(paths[i]).Some? ==>
              var a := m.ActionFor(paths[i]).value;
              && Pick(m, paths[..i + 1], Stage(a)) == Pick(m, paths[..i], Stage(a)) + [a]
              && forall stage :: stage != Stage(a) ==> Pick(m, paths[..i + 1], stage) == Pick(m, paths[..i], stage)
    ensures PickBlocked(m, paths[..i + 1]) ==
            if m.Blocks(paths[i]) then PickBlocked(m, paths[..i]) + [paths[i]] else PickBlocked(m, paths[..i])
  {
    assert paths[..i + 1][..i] == paths[..i];
  }

  /** `reconcile`: one pass over the sorted paths, seven vectors, two of them reversed. */
  method Reconcile(m: Merge) returns (plan: Plan)
    requires IsStamp(m.stamp)
    ensures plan == PlanOf(m)
  {
    var created, transfers, deletions, removed, removedRemotely, forgotten := [], [], [], [], [], [];
    var blocked := [];
    var paths := Ordered(m.Paths());
    hide Pick, PickBlocked, Merge.ForFile, HoldsOnlyWhatWasSynced;
    PickNothing(m, paths);
    for i := 0 to |paths|
      invariant created == Pick(m, paths[..i], 0)
      invariant transfers == Pick(m, paths[..i], 1)
      invariant deletions == Pick(m, paths[..i], 2)
      invariant removedRemotely == Pick(m, paths[..i], 3)
      invariant removed == Pick(m, paths[..i], 4)
      invariant forgotten == Pick(m, paths[..i], 5)
      invariant blocked == PickBlocked(m, paths[..i])
    {
      var path := paths[i];
      PickStep(m, paths, i);
      var left, right := Get(m.local, path), Get(m.remote, path);
      if left == right == Some(Directory) {
      } else if left == right == None {
        if path in m.base { forgotten := forgotten + [Forget(path)]; }
      } else if left == None && right == Some(Directory) {
        if path !in m.base {
          created := created + [CreateLocalDirectory(path)];
        } else if HoldsOnlyWhatWasSynced(m.remote, m.base, path) {
          removedRemotely := removedRemotely + [RemoveRemoteDirectory(path)];
        }
      } else if left == Some(Directory) && right == None {
        if path in m.base {
          removed := removed + [RemoveLocalDirectory(path)];
        } else {
          created := created + [CreateRemoteDirectory(path)];
        }
      } else if m.Blocks(path) {
        blocked := blocked + [path];
      } else {
        var action := m.ForFile(path);
        if action.Some? {
          if action.value.DeleteLocal? || action.value.DeleteRemote? {
            deletions := deletions + [action.value];
          } else {
            transfers := transfers + [action.value];
          }
        }
      }
    }
    assert paths[..|paths|] == paths;
    removed := Reverse(removed);
    removedRemotely := Reverse(removedRemotely);
    plan := Plan(created + transfers + deletions + removedRemotely + removed + forgotten, blocked, []);
  }

  // ---------- what the plan holds ----------

  lemma {:induction false} PickHolds(m: Merge, paths: seq<string>, stage: nat, a: Action)
    requires IsStamp(m.stamp)
    ensures a in Pick(m, paths, stage) <==>
            a.path in paths && m.ActionFor(a.path) == Some(a) && Stage(a) == stage
  {
    if paths != [] {
      var rest, last := paths[..|paths| - 1], paths[|paths| - 1];
      PickHolds(m, rest, stage, a);
      assert paths == rest + [last];
      ActionKeepsItsPath(m, last);
    }
  }

  lemma ActionKeepsItsPath(m: Merge, path: string)
    requires IsStamp(m.stamp)
    ensures m.ActionFor(path).Some? ==> m.ActionFor(path).value.path == path && path in m.Paths()
  {
  }

  lemma {:induction false} ReversedHolds<T>(s: seq<T>)
    ensures |Reversed(s)| == |s|
    ensures forall i :: 0 <= i < |s| ==> Reversed(s)[i] == s[|s| - 1 - i]
    ensures forall x :: x in Reversed(s) <==> x in s
  {
    if s != [] {
      ReversedHolds(s[1..]);
      assert s == [s[0]] + s[1..];
    }
  }

  /** The plan is exactly the actions the paths ask for, one each at most. */
  lemma PlanHolds(m: Merge, a: Action)
    requires IsStamp(m.stamp)
    ensures a in PlanOf(m).actions <==> m.ActionFor(a.path) == Some(a)
  {
    var paths := Ordered(m.Paths());
    forall stage ensures a in Pick(m, paths, stage) <==>
            a.path in paths && m.ActionFor(a.path) == Some(a) && Stage(a) == stage
    {
      PickHolds(m, paths, stage, a);
    }
    ActionKeepsItsPath(m, a.path);
    ReversedHolds(Pick(m, paths, 3));
    ReversedHolds(Pick(m, paths, 4));
  }

  /** Stages in order; within one, parents first, except that directories are removed children first. */
  predicate Before(a: Action, b: Action) {
    || Stage(a) < Stage(b)
    || (Stage(a) == Stage(b) && if Stage(a) == 3 || Stage(a) == 4 then Less(b.path, a.path) else Less(a.path, b.path))
  }

  predicate InOrder(actions: seq<Action>) {
    forall i, j :: 0 <= i < j < |actions| ==> Before(actions[i], actions[j])
  }

  predicate AllInStage(actions: seq<Action>, from: nat, to: nat) {
    forall i :: 0 <= i < |actions| ==> from <= Stage(actions[i]) <= to
  }

  predicate PathsAscend(actions: seq<Action>) {
    forall i, j :: 0 <= i < j < |actions| ==> Less(actions[i].path, actions[j].path)
  }

  lemma {:induction false} PickAscends(m: Merge, paths: seq<string>, stage: nat)
    requires IsStamp(m.stamp) && Ascending(paths)
    ensures PathsAscend(Pick(m, paths, stage)) && AllInStage(Pick(m, paths, stage), stage, stage)
  {
    if paths != [] {
      var rest := paths[..|paths| - 1];
      PickAscends(m, rest, stage);
      ActionKeepsItsPath(m, paths[|paths| - 1]);
      forall i | 0 <= i < |Pick(m, rest, stage)|
        ensures Less(Pick(m, rest, stage)[i].path, paths[|paths| - 1])
      {
        PickHolds(m, rest, stage, Pick(m, rest, stage)[i]);
      }
    }
  }

  lemma JoinInOrder(a: seq<Action>, b: seq<Action>, split: nat, end: nat)
    requires InOrder(a) && InOrder(b) && AllInStage(a, 0, split) && AllInStage(b, split + 1, end) && split < end
    ensures InOrder(a + b) && AllInStage(a + b, 0, end)
  {
  }

  lemma PickInOrder(m: Merge, paths: seq<string>, stage: nat)
    requires IsStamp(m.stamp) && Ascending(paths)
    ensures var s := if stage == 3 || stage == 4 then Reversed(Pick(m, paths, stage)) else Pick(m, paths, stage);
            InOrder(s) && AllInStage(s, stage, stage)
  {
    PickAscends(m, paths, stage);
    ReversedHolds(Pick(m, paths, stage));
  }

  /** Creations parents first, then transfers, then deletions, then removals children first, then what is forgotten. */
  lemma PlanInOrder(m: Merge)
    requires IsStamp(m.stamp)
    ensures InOrder(PlanOf(m).actions)
  {
    var paths := Ordered(m.Paths());
    forall stage: nat ensures var s := if stage == 3 || stage == 4 then Reversed(Pick(m, paths, stage)) else Pick(m, paths, stage);
            InOrder(s) && AllInStage(s, stage, stage)
    {
      PickInOrder(m, paths, stage);
    }
    var s01 := Pick(m, paths, 0) + Pick(m, paths, 1);
    JoinInOrder(Pick(m, paths, 0), Pick(m, paths, 1), 0, 1);
    JoinInOrder(s01, Pick(m, paths, 2), 1, 2);
    JoinInOrder(s01 + Pick(m, paths, 2), Reversed(Pick(m, paths, 3)), 2, 3);
    JoinInOrder(s01 + Pick(m, paths, 2) + Reversed(Pick(m, paths, 3)), Reversed(Pick(m, paths, 4)), 3, 4);
    JoinInOrder(s01 + Pick(m, paths, 2) + Reversed(Pick(m, paths, 3)) + Reversed(Pick(m, paths, 4)), Pick(m, paths, 5), 4, 5);
  }

  /** No path is the subject of two actions. */
  lemma SubjectsAreDistinct(m: Merge, i: nat, j: nat)
    requires IsStamp(m.stamp) && i < j < |PlanOf(m).actions|
    ensures PlanOf(m).actions[i].path != PlanOf(m).actions[j].path
  {
    var actions := PlanOf(m).actions;
    PlanInOrder(m);
    PlanHolds(m, actions[i]);
    PlanHolds(m, actions[j]);
    LessIrreflexive(actions[i].path);
    assert Before(actions[i], actions[j]);
  }

  /** The paths a plan leaves alone because the two sides disagree on what they are. */
  lemma {:induction false} BlockedHolds(m: Merge, paths: seq<string>, path: string)
    ensures path in PickBlocked(m, paths) <==> path in paths && m.Blocks(path)
  {
    if paths != [] {
      BlockedHolds(m, paths[..|paths| - 1], path);
      assert paths == paths[..|paths| - 1] + [paths[|paths| - 1]];
    }
  }

  lemma BeforeIsStrict(a: Action, b: Action)
    requires Before(a, b)
    ensures !Before(b, a) && a != b
  {
    if Stage(a) == Stage(b) {
      if Stage(a) == 3 || Stage(a) == 4 { LessAsymmetric(b.path, a.path); } else { LessAsymmetric(a.path, b.path); }
    }
  }

  /** What is planned and comes before the action at `j` has been reached by then. */
  lemma PlannedEarlier(m: Merge, a: Action, j: nat)
    requires IsStamp(m.stamp) && m.ActionFor(a.path) == Some(a)
    requires j < |PlanOf(m).actions| && Before(a, PlanOf(m).actions[j])
    ensures a in PlanOf(m).actions[..j]
  {
    hide PlanOf, Merge.ActionFor;
    var actions := PlanOf(m).actions;
    PlanHolds(m, a);
    PlanInOrder(m);
    var i :| 0 <= i < |actions| && actions[i] == a;
    BeforeIsStrict(a, actions[j]);
    assert i < j;
    assert actions[..j][i] == a;
  }

  function RemovalOf(m: Merge, path: string): Action
    requires path in m.remote
  {
    if m.remote[path].Directory? then RemoveRemoteDirectory(path) else DeleteRemote(path)
  }

  lemma InsideARemovalIsRemoved(m: Merge, directory: string, inside: string)
    requires IsStamp(m.stamp) && Closed(m.local)
    requires m.ActionFor(directory) == Some(RemoveRemoteDirectory(directory))
    requires inside in m.remote && Inside(inside, directory)
    ensures m.ActionFor(inside) == Some(RemovalOf(m, inside))
  {
    hide HoldsOnlyWhatWasSynced;
    ScanSeesTheWholeDirectory(m.remote, m.base, directory);
    assert inside !in m.local;
    ScanSeesTheWholeDirectory(m.remote, m.base, inside);
    forall p | p in m.remote && Inside(p, inside) ensures Get(m.base, p) == Some(m.remote[p]) {
      InsideTransitive(p, inside, directory);
    }
  }

  /**
    A planned removal of a server directory comes after a planned removal of everything the server
    holds inside it, so the server's recursive delete finds nothing else to take.
   */
  lemma RemovalsComeChildFirst(m: Merge, j: nat, inside: string)
    requires IsStamp(m.stamp) && Closed(m.local)
    requires j < |PlanOf(m).actions| && PlanOf(m).actions[j].RemoveRemoteDirectory?
    requires inside in m.remote && Inside(inside, PlanOf(m).actions[j].path)
    ensures RemovalOf(m, inside) in PlanOf(m).actions[..j]
  {
    hide PlanOf, Merge.ActionFor;
    var directory := PlanOf(m).actions[j].path;
    PlanHolds(m, PlanOf(m).actions[j]);
    InsideARemovalIsRemoved(m, directory, inside);
    InsideComesLater(inside, directory);
    PlannedEarlier(m, RemovalOf(m, inside), j);
  }
}
