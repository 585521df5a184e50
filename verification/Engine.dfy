/**
  What a planned action does to the two sides and to the recorded state:
  `Engine::apply` and its helpers in crates/client/src/sync/engine.rs, and the server's end of each
  request (api/src/routes/files.rs). An action is a list of steps; it stops at the first that fails,
  and whatever the earlier ones changed stays changed.
 */
module Engine {
  import opened Results
  import opened Paths
  import opened ConflictNames
  import opened Planning

  predicate AtOrInside(q: string, p: string) { q == p || Inside(q, p) }

  /** The folder, the server, and what `SyncState` tracks. */
  datatype World = World(local: Snapshot, remote: Snapshot, base: Snapshot)

  /** What a pass saw before it started: the scan and the listing actions are read against. */
  datatype Listing = Listing(scan: Snapshot, remote: Snapshot)

  /** If-None-Match: * and If-Match (sections 13.1.2 and 13.1.1 of RFC 9110). */
  datatype Expect = Absent | Etag(etag: string)

  datatype Step =
    | MakeLocalDirectories(directories: set<string>)
    | MakeRemoteDirectory(path: string)
    | Fetch(path: string)
    | Put(path: string, wanted: Expect)
    | RemoveLocalFile(path: string)
    | RemoveLocalFolder(path: string)
    | RemoveRemote(path: string)
    | RenameLocal(path: string, to: string)
    | Record(path: string, entry: Entry)
    | RecordAbove(path: string)
    | Drop(path: string)
    | Vanished

  function Directories(paths: set<string>): (s: Snapshot)
    ensures s.Keys == paths && forall p :: p in s ==> s[p] == Directory
  {
    map p | p in paths :: Directory
  }

  /** `create_dir_all`, and `create_directories` on the server: a file in the way stops it. */
  function WithDirectories(s: Snapshot, directories: set<string>): (r: Option<Snapshot>)
    ensures r.Some? <==> forall d :: d in directories && d in s ==> s[d].Directory?
    ensures r.Some? ==> r.value.Keys == s.Keys + directories
    ensures r.Some? ==> forall p :: p in s ==> r.value[p] == s[p]
    ensures r.Some? ==> forall p :: p in directories ==> r.value[p] == Directory
  {
    if forall d | d in directories && d in s :: s[d].Directory? then Some(Directories(directories) + s) else None
  }

  function Without(s: Snapshot, path: string): (r: Snapshot)
    ensures forall p :: p in r <==> p in s && p != path
    ensures forall p :: p in r ==> r[p] == s[p]
  {
    s - {path}
  }

  /** `trash::send` takes the whole subtree. */
  function WithoutSubtree(s: Snapshot, path: string): (r: Snapshot)
    ensures forall p :: p in r <==> p in s && p != path && !Inside(p, path)
    ensures forall p :: p in r ==> r[p] == s[p]
  {
    map p | p in s && p != path && !Inside(p, path) :: s[p]
  }

  predicate Holds(s: Snapshot, path: string, wanted: Expect) {
    match wanted
    case Absent => path !in s
    case Etag(etag) => path in s && s[path].File? && s[path].etag == etag
  }

  /** One step on the world, or nothing when it fails. */
  function Perform(w: World, step: Step): Option<World> {
    match step
    case MakeLocalDirectories(directories) =>
      var made := WithDirectories(w.local, directories);
      if made.Some? then Some(w.(local := made.value)) else None
    case MakeRemoteDirectory(path) =>
      var made := WithDirectories(w.remote, Above(path));
      if made.Some? && path !in made.value then Some(w.(remote := made.value[path := Directory])) else None
    case Fetch(path) =>
      if path !in w.remote || w.remote[path].Directory? || Get(w.local, path) == Some(Directory) then None
      else Some(w.(local := w.local[path := w.remote[path]]))
    case Put(path, wanted) =>
      var made := WithDirectories(w.remote, Above(path));
      if path !in w.local || w.local[path].Directory? || made.None? || !Holds(w.remote, path, wanted) then None
      else Some(w.(remote := made.value[path := w.local[path]]))
    case RemoveLocalFile(path) =>
      if Get(w.local, path) == Some(Directory) then None else Some(w.(local := Without(w.local, path)))
    case RemoveLocalFolder(path) =>
      if Get(w.local, path) != Some(Directory) || exists p :: p in w.local && Inside(p, path) then None
      else Some(w.(local := Without(w.local, path)))
    case RemoveRemote(path) =>
      if path !in w.remote then None else Some(w.(remote := WithoutSubtree(w.remote, path)))
    case RenameLocal(path, to) =>
      if path !in w.local || w.local[path].Directory? || Get(w.local, to) == Some(Directory) then None
      else Some(w.(local := Without(w.local, path)[to := w.local[path]]))
    case Record(path, entry) => Some(w.(base := w.base[path := entry]))
    case RecordAbove(path) => Some(w.(base := w.base + Directories(Above(path))))
    case Drop(path) => Some(w.(base := Without(w.base, path)))
    case Vanished => None
  }

  function DownloadSteps(path: string, seen: Listing): seq<Step> {
    if path !in seen.remote then [Vanished]
    else [MakeLocalDirectories(Above(path)), Fetch(path), Record(path, seen.remote[path])]
  }

  function UploadSteps(path: string, seen: Listing): seq<Step> {
    if path !in seen.scan then [Vanished]
    else
      var wanted := if path in seen.remote && seen.remote[path].File? then Etag(seen.remote[path].etag) else Absent;
      [Put(path, wanted), Record(path, seen.scan[path]), RecordAbove(path)]
  }

  /** `Engine::apply`, arm by arm. */
  function Steps(a: Action, seen: Listing): seq<Step> {
    match a
    case CreateLocalDirectory(path) => [MakeLocalDirectories(Above(path) + {path}), Record(path, Directory)]
    case CreateRemoteDirectory(path) => [MakeRemoteDirectory(path), Record(path, Directory)]
    case RemoveLocalDirectory(path) => [RemoveLocalFolder(path), Drop(path)]
    case Download(path) => DownloadSteps(path, seen)
    case Upload(path) => UploadSteps(path, seen)
    case DeleteLocal(path) => [RemoveLocalFile(path), Drop(path)]
    case DeleteRemote(path) => [RemoveRemote(path), Drop(path)]
    case RemoveRemoteDirectory(path) => [RemoveRemote(path), Drop(path)]
    case Forget(path) => [Drop(path)]
    case KeepBoth(path, copy) =>
      [RenameLocal(path, copy)] +
      (if path !in seen.scan then [Vanished]
       else [Put(copy, Absent), Record(copy, seen.scan[path]), Drop(path)] + DownloadSteps(path, seen))
    case SetAside(path, copy) => [RenameLocal(path, copy), Drop(path)] + DownloadSteps(path, seen)
  }

  /** The world once the steps have run as far as they go. */
  function Carry(w: World, steps: seq<Step>): World
    decreases steps
  {
    if steps == [] then w
    else
      match Perform(w, steps[0])
      case Some(next) => Carry(next, steps[1..])
      case None => w
  }

  function Apply(w: World, a: Action, seen: Listing): World { Carry(w, Steps(a, seen)) }

  function ApplyAll(w: World, actions: seq<Action>, seen: Listing): World {
    if actions == [] then w
    else Apply(ApplyAll(w, actions[..|actions| - 1], seen), actions[|actions| - 1], seen)
  }

  /** `record_agreed_directories`: what both sides listed as a directory is agreed. */
  function RecordAgreed(w: World, seen: Listing): World {
    w.(base := w.base + map p | p in seen.scan && seen.scan[p].Directory? && Get(seen.remote, p) == Some(Directory) :: Directory)
  }

  /** A pass that sees everything and holds nothing back, from the snapshots it reconciles to the state it saves. */
  function Pass(m: Merge): World
    requires IsStamp(m.stamp)
  {
    var seen := Listing(m.local, m.remote);
    RecordAgreed(ApplyAll(World(m.local, m.remote, m.base), PlanOf(m).actions, seen), seen)
  }

  // ---------- running steps one by one ----------

  lemma CarryOne(w: World, step: Step, rest: seq<Step>, next: World)
    requires Perform(w, step) == Some(next)
    ensures Carry(w, [step] + rest) == Carry(next, rest)
  {
    assert ([step] + rest)[1..] == rest;
  }

  lemma CarryTwo(w: World, first: Step, second: Step, mid: World, end: World)
    requires Perform(w, first) == Some(mid) && Perform(mid, second) == Some(end)
    ensures Carry(w, [first, second]) == end
  {
    assert [first, second] == [first] + [second] && [second] == [second] + [];
    CarryOne(w, first, [second], mid);
    CarryOne(mid, second, [], end);
  }

  lemma CarryThree(w: World, first: Step, second: Step, third: Step, a: World, b: World, end: World)
    requires Perform(w, first) == Some(a) && Perform(a, second) == Some(b) && Perform(b, third) == Some(end)
    ensures Carry(w, [first, second, third]) == end
  {
    assert [first, second, third] == [first] + [second, third];
    CarryOne(w, first, [second, third], a);
    CarryTwo(a, second, third, b, end);
  }

  // ---------- what each action does when nothing stops it ----------

  lemma CreatesLocally(w: World, path: string, seen: Listing)
    requires forall d :: AtOrInside(path, d) && d in w.local ==> w.local[d].Directory?
    ensures var after := Apply(w, CreateLocalDirectory(path), seen);
            && after.local == Directories(Above(path) + {path}) + w.local
            && after.remote == w.remote
            && after.base == w.base[path := Directory]
  {
    var made := MakeLocalDirectories(Above(path) + {path});
    var mid := w.(local := Directories(Above(path) + {path}) + w.local);
    CarryTwo(w, made, Record(path, Directory), mid, mid.(base := w.base[path := Directory]));
  }

  lemma CreatesRemotely(w: World, path: string, seen: Listing)
    requires path !in w.remote
    requires forall d :: Inside(path, d) && d in w.remote ==> w.remote[d].Directory?
    ensures var after := Apply(w, CreateRemoteDirectory(path), seen);
            && after.local == w.local
            && after.remote == (Directories(Above(path)) + w.remote)[path := Directory]
            && after.base == w.base[path := Directory]
  {
    var mid := w.(remote := (Directories(Above(path)) + w.remote)[path := Directory]);
    assert path !in Above(path);
    CarryTwo(w, MakeRemoteDirectory(path), Record(path, Directory), mid, mid.(base := w.base[path := Directory]));
  }

  lemma Downloads(w: World, path: string, seen: Listing)
    requires path in seen.remote && path in w.remote && w.remote[path].File? && Get(w.local, path) != Some(Directory)
    requires forall d :: Inside(path, d) && d in w.local ==> w.local[d].Directory?
    ensures var after := Carry(w, DownloadSteps(path, seen));
            && after.local == (Directories(Above(path)) + w.local)[path := w.remote[path]]
            && after.remote == w.remote
            && after.base == w.base[path := seen.remote[path]]
  {
    var a := w.(local := Directories(Above(path)) + w.local);
    var b := a.(local := a.local[path := w.remote[path]]);
    assert path !in Above(path);
    CarryThree(w, MakeLocalDirectories(Above(path)), Fetch(path), Record(path, seen.remote[path]),
               a, b, b.(base := w.base[path := seen.remote[path]]));
  }

  lemma Uploads(w: World, path: string, seen: Listing)
    requires path in seen.scan && path in w.local && w.local[path].File?
    requires Get(w.remote, path) == Get(seen.remote, path) != Some(Directory)
    requires forall d :: Inside(path, d) && d in w.remote ==> w.remote[d].Directory?
    ensures var after := Apply(w, Upload(path), seen);
            && after.local == w.local
            && after.remote == (Directories(Above(path)) + w.remote)[path := w.local[path]]
            && after.base == w.base[path := seen.scan[path]] + Directories(Above(path))
  {
    var wanted := if path in seen.remote && seen.remote[path].File? then Etag(seen.remote[path].etag) else Absent;
    var a := w.(remote := (Directories(Above(path)) + w.remote)[path := w.local[path]]);
    var b := a.(base := w.base[path := seen.scan[path]]);
    CarryThree(w, Put(path, wanted), Record(path, seen.scan[path]), RecordAbove(path),
               a, b, b.(base := b.base + Directories(Above(path))));
  }

  lemma DeletesLocally(w: World, path: string, seen: Listing)
    requires Get(w.local, path) != Some(Directory)
    ensures Apply(w, DeleteLocal(path), seen) == World(Without(w.local, path), w.remote, Without(w.base, path))
  {
    var mid := w.(local := Without(w.local, path));
    CarryTwo(w, RemoveLocalFile(path), Drop(path), mid, mid.(base := Without(w.base, path)));
  }

  lemma DeletesRemotely(w: World, a: Action, seen: Listing)
    requires a.DeleteRemote? || a.RemoveRemoteDirectory?
    requires a.path in w.remote
    ensures Apply(w, a, seen) == World(w.local, WithoutSubtree(w.remote, a.path), Without(w.base, a.path))
  {
    var mid := w.(remote := WithoutSubtree(w.remote, a.path));
    CarryTwo(w, RemoveRemote(a.path), Drop(a.path), mid, mid.(base := Without(w.base, a.path)));
  }

  lemma RemovesLocally(w: World, path: string, seen: Listing)
    requires Get(w.local, path) == Some(Directory)
    ensures (exists p :: p in w.local && Inside(p, path)) ==> Apply(w, RemoveLocalDirectory(path), seen) == w
    ensures !(exists p :: p in w.local && Inside(p, path)) ==>
              Apply(w, RemoveLocalDirectory(path), seen) == World(Without(w.local, path), w.remote, Without(w.base, path))
  {
    if !(exists p :: p in w.local && Inside(p, path)) {
      var mid := w.(local := Without(w.local, path));
      CarryTwo(w, RemoveLocalFolder(path), Drop(path), mid, mid.(base := Without(w.base, path)));
    }
  }

  lemma Forgets(w: World, path: string, seen: Listing)
    ensures Apply(w, Forget(path), seen) == w.(base := Without(w.base, path))
  {
    assert [Drop(path)] == [Drop(path)] + [];
    CarryOne(w, Drop(path), [], w.(base := Without(w.base, path)));
  }

  lemma PutsNew(w: World, path: string)
    requires path in w.local && w.local[path].File? && path !in w.remote
    requires forall d :: Inside(path, d) && d in w.remote ==> w.remote[d].Directory?
    ensures Perform(w, Put(path, Absent)) == Some(w.(remote := (Directories(Above(path)) + w.remote)[path := w.local[path]]))
  {
  }

  lemma RenamesNew(w: World, path: string, copy: string)
    requires path in w.local && w.local[path].File? && copy !in w.local
    ensures Perform(w, RenameLocal(path, copy)) == Some(w.(local := Without(w.local, path)[copy := w.local[path]]))
  {
  }

  lemma Notes(w: World, path: string, entry: Entry)
    ensures Perform(w, Record(path, entry)) == Some(w.(base := w.base[path := entry]))
    ensures Perform(w, Drop(path)) == Some(w.(base := Without(w.base, path)))
  {
  }

  /** The first half of `KeepBoth`: the local file moves to its copy and goes up under that name. */
  lemma MovesAside(w: World, path: string, copy: string, seen: Listing) returns (aside: World)
    requires path in seen.scan && path != copy
    requires path in w.local && w.local[path].File?
    requires copy !in w.local && copy !in w.remote
    requires forall d :: Inside(copy, d) && d in w.remote ==> w.remote[d].Directory?
    ensures aside.local == Without(w.local, path)[copy := w.local[path]]
    ensures aside.remote == (Directories(Above(copy)) + w.remote)[copy := w.local[path]]
    ensures aside.base == Without(w.base[copy := seen.scan[path]], path)
    ensures Apply(w, KeepBoth(path, copy), seen) == Carry(aside, DownloadSteps(path, seen))
  {
    hide Perform, Carry, DownloadSteps, Inside;
    var down := DownloadSteps(path, seen);
    var dropping := [Drop(path)] + down;
    var recording := [Record(copy, seen.scan[path])] + dropping;
    assert Steps(KeepBoth(path, copy), seen) == [RenameLocal(path, copy)] + ([Put(copy, Absent)] + recording);
    hide Steps;
    RenamesNew(w, path, copy);
    var renamed := w.(local := Without(w.local, path)[copy := w.local[path]]);
    CarryOne(w, RenameLocal(path, copy), [Put(copy, Absent)] + recording, renamed);
    PutsNew(renamed, copy);
    var put := renamed.(remote := (Directories(Above(copy)) + w.remote)[copy := w.local[path]]);
    CarryOne(renamed, Put(copy, Absent), recording, put);
    Notes(put, copy, seen.scan[path]);
    var recorded := put.(base := w.base[copy := seen.scan[path]]);
    CarryOne(put, Record(copy, seen.scan[path]), dropping, recorded);
    Notes(recorded, path, seen.scan[path]);
    aside := recorded.(base := Without(recorded.base, path));
    CarryOne(recorded, Drop(path), down, aside);
  }

  lemma SwapsOneIn(s: Snapshot, path: string, copy: string, entry: Entry, above: set<string>)
    requires path in s && copy !in s && path != copy && path !in above && copy !in above
    ensures (Directories(above) + Without(s, path)[copy := s[path]])[path := entry]
         == (Directories(above) + s)[path := entry][copy := s[path]]
  {
  }

  lemma KeepsBoth(w: World, path: string, copy: string, seen: Listing)
    requires path in seen.scan && path in seen.remote && path != copy
    requires path in w.local && w.local[path].File? && path in w.remote && w.remote[path].File?
    requires copy !in w.local && copy !in w.remote
    requires !Inside(path, copy) && Above(path) == Above(copy)
    requires forall d :: Inside(path, d) && d in w.local ==> w.local[d].Directory?
    requires forall d :: Inside(path, d) && d in w.remote ==> w.remote[d].Directory?
    ensures var after := Apply(w, KeepBoth(path, copy), seen);
            && after.local == (Directories(Above(path)) + w.local)[path := w.remote[path]][copy := w.local[path]]
            && after.remote == (Directories(Above(path)) + w.remote)[copy := w.local[path]]
            && after.base == Without(w.base[copy := seen.scan[path]], path)[path := seen.remote[path]]
  {
    assert forall d :: Inside(copy, d) ==> d in Above(path);
    assert path !in Above(path) && copy !in Above(path);
    hide Carry, Apply, Perform, DownloadSteps, Inside;
    var aside := MovesAside(w, path, copy, seen);
    Downloads(aside, path, seen);
    SwapsOneIn(w.local, path, copy, w.remote[path], Above(path));
  }

  /** The same, path by path. */
  lemma KeepsBothAt(w: World, path: string, copy: string, seen: Listing, p: string)
    requires path in seen.scan && path in seen.remote && path != copy
    requires path in w.local && w.local[path].File? && path in w.remote && w.remote[path].File?
    requires copy !in w.local && copy !in w.remote
    requires !Inside(path, copy) && Above(path) == Above(copy)
    requires forall d :: Inside(path, d) && d in w.local ==> w.local[d].Directory?
    requires forall d :: Inside(path, d) && d in w.remote ==> w.remote[d].Directory?
    ensures var after := Apply(w, KeepBoth(path, copy), seen);
            if p == copy then Get(after.local, p) == Get(after.remote, p) == Get(w.local, path)
            else
              && Get(after.local, p) == (if p == path then Get(w.remote, p)
                                         else if Inside(path, p) && p !in w.local then Some(Directory)
                                         else Get(w.local, p))
              && Get(after.remote, p) == (if Inside(path, p) && p !in w.remote then Some(Directory) else Get(w.remote, p))
  {
    hide Apply;
    KeepsBoth(w, path, copy, seen);
    assert Inside(path, p) <==> p in Above(path);
  }

  // ---------- the engine itself ----------

  lemma Stops(w: World, steps: seq<Step>, i: nat)
    requires i < |steps|
    ensures Perform(w, steps[i]).None? ==> Carry(w, steps[i..]) == w
    ensures Perform(w, steps[i]).Some? ==> Carry(w, steps[i..]) == Carry(Perform(w, steps[i]).value, steps[i + 1..])
  {
    assert steps[i..][1..] == steps[i + 1..];
  }

  lemma AboveStartsWithTheParent(path: string)
    ensures Above(path) == if Parent(path).Some? then {Parent(path).value} + Above(Parent(path).value) else {}
    ensures Parent(path).Some? ==> |Parent(path).value| < |path|
  {
    ParentIsNearest(path);
    if Parent(path).Some? {
      forall d | Inside(Parent(path).value, d) ensures Inside(path, d) { InsideTransitive(path, Parent(path).value, d); }
    }
  }

  lemma OneMoreDirectory(s: Snapshot, done: set<string>, directory: string)
    ensures (s + Directories(done))[directory := Directory] == s + Directories(done + {directory})
  {
  }

  lemma OneMoreApplied(w: World, actions: seq<Action>, i: nat, seen: Listing)
    requires i < |actions|
    ensures ApplyAll(w, actions[..i + 1], seen) == Apply(ApplyAll(w, actions[..i], seen), actions[i], seen)
  {
    assert actions[..i + 1][..i] == actions[..i];
  }

  /** The engine with the folder and the server it works on; what it tracks is the base of the next pass. */
  class SyncEngine {
    var local: Snapshot
    var remote: Snapshot
    var tracked: Snapshot
    var failures: seq<string>

    constructor (w: World)
      ensures Now() == w && failures == []
    {
      local, remote, tracked, failures := w.local, w.remote, w.base, [];
    }

    ghost function Now(): World
      reads this
    {
      World(local, remote, tracked)
    }

    /** `record_directories_above`: up from the parent, one directory at a time. */
    method RecordDirectoriesAbove(path: string)
      modifies this`tracked
      ensures tracked == old(tracked) + Directories(Above(path))
    {
      hide Above, Directories;
      var parent := Parent(path);
      ghost var done: set<string> := {};
      AboveStartsWithTheParent(path);
      assert tracked == tracked + Directories({});
      while parent.Some?
        invariant tracked == old(tracked) + Directories(done)
        invariant Above(path) == done + if parent.Some? then {parent.value} + Above(parent.value) else {}
        decreases if parent.Some? then 1 + |parent.value| else 0
      {
        var directory := parent.value;
        AboveStartsWithTheParent(directory);
        parent := Parent(directory);
        OneMoreDirectory(old(tracked), done, directory);
        tracked := tracked[directory := Directory];
        done := done + {directory};
      }
    }

    /** One step: a file operation, a request, or a note in the state. */
    method Do(step: Step) returns (ok: bool)
      modifies this`local, this`remote, this`tracked
      ensures ok == Perform(old(Now()), step).Some?
      ensures Now() == if ok then Perform(old(Now()), step).value else old(Now())
    {
      match step {
        case MakeLocalDirectories(directories) =>
          var made := WithDirectories(local, directories);
          ok := made.Some?;
          if ok { local := made.value; }
        case MakeRemoteDirectory(path) =>
          var made := WithDirectories(remote, Above(path));
          ok := made.Some? && path !in made.value;
          if ok { remote := made.value[path := Directory]; }
        case Fetch(path) =>
          ok := path in remote && remote[path].File? && Get(local, path) != Some(Directory);
          if ok { local := local[path := remote[path]]; }
        case Put(path, wanted) =>
          var made := WithDirectories(remote, Above(path));
          ok := path in local && local[path].File? && made.Some? && Holds(remote, path, wanted);
          if ok { remote := made.value[path := local[path]]; }
        case RemoveLocalFile(path) =>
          ok := Get(local, path) != Some(Directory);
          if ok { local := Without(local, path); }
        case RemoveLocalFolder(path) =>
          ok := Get(local, path) == Some(Directory) && !exists p | p in local :: Inside(p, path);
          if ok { local := Without(local, path); }
        case RemoveRemote(path) =>
          ok := path in remote;
          if ok { remote := WithoutSubtree(remote, path); }
        case RenameLocal(path, to) =>
          ok := path in local && local[path].File? && Get(local, to) != Some(Directory);
          if ok { local := Without(local, path)[to := local[path]]; }
        case Record(path, entry) =>
          ok := true;
          tracked := tracked[path := entry];
        case RecordAbove(path) =>
          ok := true;
          RecordDirectoriesAbove(path);
        case Drop(path) =>
          ok := true;
          tracked := Without(tracked, path);
        case Vanished =>
          ok := false;
      }
    }

    /** `apply`: the steps of one action, up to the first that fails. */
    method ApplyAction(a: Action, seen: Listing) returns (ok: bool)
      modifies this`local, this`remote, this`tracked
      ensures Now() == Apply(old(Now()), a, seen)
    {
      hide Perform;
      var steps := Steps(a, seen);
      ok := true;
      var i := 0;
      while ok && i < |steps|
        invariant i <= |steps|
        invariant Carry(old(Now()), steps) == if ok then Carry(Now(), steps[i..]) else Now()
      {
        Stops(Now(), steps, i);
        ok := Do(steps[i]);
        i := i + 1;
      }
      assert ok ==> steps[i..] == [];
    }

    /** Every action in turn; a failure is noted and passed over. */
    method ApplyEach(actions: seq<Action>, seen: Listing)
      modifies this
      ensures Now() == ApplyAll(old(Now()), actions, seen)
    {
      hide Apply;
      for i := 0 to |actions|
        invariant Now() == ApplyAll(old(Now()), actions[..i], seen)
      {
        OneMoreApplied(old(Now()), actions, i, seen);
        var ok := ApplyAction(actions[i], seen);
        if !ok { failures := failures + [actions[i].path]; }
      }
      assert actions[..|actions|] == actions;
    }

    method RecordAgreedDirectories(seen: Listing)
      modifies this`tracked
      ensures Now() == RecordAgreed(old(Now()), seen)
    {
      tracked := tracked + map p | p in seen.scan && seen.scan[p].Directory? && Get(seen.remote, p) == Some(Directory) :: Directory;
    }
  }
}
