/** Making directories and moving nodes: `create_directories` and `rename` of api/src/db.rs. */
module Moving {
  import opened Results
  import opened Tables
  import opened Trees
  import opened Ledger
  import opened Files

  function NewDirectory(owner: Owner, parent: Id, name: string): Node {
    Node(owner, Some(parent), name, Directory, None, 0, None)
  }

  /** `create_directories`: down the segments from `current`, drawing an id for each that is missing. */
  function CreateDirectories(db: Db, owner: Owner, current: Id, segments: seq<string>, next: Id): Result<(Db, Id), ApiError>
    requires current in db.nodes
    decreases |segments|
  {
    if segments == [] then Ok((db, current))
    else if db.nodes[current].kind.File? then Err(WrongKind)
    else
      match ChildOf(db.nodes, current, segments[0])
      case Some(existing) =>
        if db.nodes[existing].kind.Directory? then CreateDirectories(db, owner, existing, segments[1..], next) else Err(Conflict)
      case None =>
        CreateDirectories(db.(nodes := db.nodes[next := NewDirectory(owner, current, segments[0])]), owner, next, segments[1..], next + 1)
  }

  /** Where a path of live directories leads. */
  function Walk(nodes: map<Id, Node>, current: Id, segments: seq<string>): Option<Id>
    decreases |segments|
  {
    if segments == [] then Some(current)
    else
      match ChildOf(nodes, current, segments[0])
      case Some(id) => Walk(nodes, id, segments[1..])
      case None => None
  }

  function Relocated(db: Db, id: Id, parent: Id, name: string): Db
    requires id in db.nodes
  {
    db.(nodes := db.nodes[id := db.nodes[id].(parent := Some(parent), name := name)])
  }

  /** `rename`. */
  function Rename(db: Db, id: Id, parent: Id, name: string): Outcome
    requires id in db.nodes && parent in db.nodes
  {
    if db.nodes[parent].kind.File? then Err(WrongKind)
    else if db.nodes[id].kind.Directory? && Contains(db.nodes, id, parent) then Err(MoveIntoSelf)
    else if ChildOf(db.nodes, parent, name).Some? then Err(Conflict)
    else Ok(Relocated(db, id, parent, name))
  }

  // ---------- ids ----------

  /** Every id in use was drawn before `next`: ids grow with time. */
  ghost predicate DrawnBefore(db: Db, next: Id) {
    (forall id :: id in db.nodes ==> id < next) && (forall v :: v in db.versions ==> v < next)
  }

  lemma NextIsDrawn(db: Db, next: Id)
    requires DrawnBefore(db, next) && Schema(db)
    ensures Drawn(db, next, next)
  {
  }

  // ---------- directories ----------

  lemma DirectoryKeepsTheLedger(db: Db, owner: Owner, parent: Id, name: string, id: Id)
    requires Sound(db) && Writable(db, owner, parent) && id !in db.nodes && ChildOf(db.nodes, parent, name).None?
    ensures Sound(db.(nodes := db.nodes[id := NewDirectory(owner, parent, name)]))
  {
    hide Shaped, Balanced, ForeignKeys, FilesCarryBlobs, VersionsAreOfFiles, OffBy;
    var n := NewDirectory(owner, parent, name);
    var after := db.(nodes := db.nodes[id := n]);
    ChildIsFound(db.nodes, parent, name);
    LeafKeepsTheShape(db.nodes, id, n);
    NodeFitsTheSchema(db, id, n);
    NoVersionsOf(db, id);
    BalancedIsOffByNothing(db, owner);
    NodeWritten(db, id, n, owner, 0, multiset{}, multiset{}, {});
    SameNet(after, owner, 0, multiset{} + multiset{}, multiset{} + Blobs(n), multiset{}, multiset{}, {});
    BalancedIsOffByNothing(after, owner);
  }

  lemma NoVersionsOf(db: Db, id: Id)
    requires Schema(db) && id !in db.nodes
    ensures forall v :: v in db.versions ==> db.versions[v].node != id
  {
  }

  /** Whatever is missing of a path is made, and what was there stays; the path then leads to the directory handed back. */
  lemma {:induction false} CreateDirectoriesHolds(db: Db, owner: Owner, current: Id, segments: seq<string>, next: Id)
    requires Sound(db) && Writable(db, owner, current) && DrawnBefore(db, next)
    requires CreateDirectories(db, owner, current, segments, next).Ok?
    ensures var (after, last) := CreateDirectories(db, owner, current, segments, next).value;
            && Sound(after) && Writable(after, owner, last)
            && (forall id :: id in db.nodes ==> id in after.nodes && after.nodes[id] == db.nodes[id])
            && after == db.(nodes := after.nodes)
            && Walk(after.nodes, current, segments) == Some(last)
    decreases |segments|
  {
    hide Sound, ChildOf;
    if segments != [] {
      ChildIsFound(db.nodes, current, segments[0]);
      match ChildOf(db.nodes, current, segments[0]) {
        case Some(existing) =>
          ChildIsWritable(db, owner, current, segments[0]);
          CreateDirectoriesHolds(db, owner, existing, segments[1..], next);
          var (after, last) := CreateDirectories(db, owner, current, segments, next).value;
          ChildStays(db, after, current, segments[0], existing);
        case None =>
          DirectoryKeepsTheLedger(db, owner, current, segments[0], next);
          var mid := db.(nodes := db.nodes[next := NewDirectory(owner, current, segments[0])]);
          CreateDirectoriesHolds(mid, owner, next, segments[1..], next + 1);
          var (after, last) := CreateDirectories(db, owner, current, segments, next).value;
          ChildStays(db, after, current, segments[0], next);
      }
    }
  }

  lemma ChildIsWritable(db: Db, owner: Owner, parent: Id, name: string)
    requires Sound(db) && Writable(db, owner, parent) && ChildOf(db.nodes, parent, name).Some?
    ensures var id := ChildOf(db.nodes, parent, name).value;
            id in db.nodes && (db.nodes[id].kind.Directory? ==> Writable(db, owner, id))
  {
    hide Balanced;
    ChildIsFound(db.nodes, parent, name);
  }

  /** The name a node has is found where the node is. */
  lemma ChildIs(nodes: map<Id, Node>, parent: Id, name: string, id: Id)
    requires NamesAreUnique(nodes) && id in nodes && nodes[id].Live() && nodes[id].parent == Some(parent) && nodes[id].name == name
    ensures ChildOf(nodes, parent, name) == Some(id)
  {
    assert id in Named(nodes, parent, name);
  }

  lemma ChildStays(db: Db, after: Db, parent: Id, name: string, id: Id)
    requires Sound(after) && id in after.nodes && after.nodes[id].Live() && after.nodes[id].parent == Some(parent) && after.nodes[id].name == name
    ensures ChildOf(after.nodes, parent, name) == Some(id)
  {
    hide Balanced, Schema, Forest, Batched;
    ChildIs(after.nodes, parent, name, id);
  }

  // ---------- rename ----------

  /** A file holds nothing. */
  lemma {:induction false} NothingUnderAFile(nodes: map<Id, Node>, within: set<Id>, file: Id, x: Id, rank: map<Id, nat>)
    requires Ranked(nodes, rank) && WellPlaced(nodes) && within <= nodes.Keys
    requires file in nodes && nodes[file].kind.File? && x in nodes && x in Under(nodes, within, file)
    ensures x == file
    decreases rank[x]
  {
    UnderStep(nodes, within, file, x);
    if x != file { NothingUnderAFile(nodes, within, file, nodes[x].parent.value, rank); }
  }

  lemma RenameMoves(db: Db, id: Id, parent: Id, name: string)
    requires Shaped(db.nodes) && id in db.nodes && db.nodes[id].Live() && Writable(db, db.nodes[id].owner, parent)
    requires Rename(db, id, parent, name).Ok?
    ensures MayMoveTo(db.nodes, id, parent, name)
  {
    hide Forest, LiveAbove, NamesAreUnique, Batched, Leads, ChildOf;
    ChildIsFound(db.nodes, parent, name);
    if db.nodes[id].kind.File? && Contains(db.nodes, id, parent) {
      var rank := SomeRank(db.nodes);
      NothingUnderAFile(db.nodes, db.nodes.Keys, id, parent, rank);
    }
  }

  /** A rename keeps the ledger and the forest, and leaves the node where it was sent and everything else where it was. */
  lemma RenameKeepsTheLedger(db: Db, id: Id, parent: Id, name: string)
    requires Sound(db) && id in db.nodes && db.nodes[id].Live() && Writable(db, db.nodes[id].owner, parent)
    requires Rename(db, id, parent, name).Ok?
    ensures Sound(Rename(db, id, parent, name).value)
    ensures ChildOf(Rename(db, id, parent, name).value.nodes, parent, name) == Some(id)
  {
    hide Shaped, Balanced, ForeignKeys, FilesCarryBlobs, VersionsAreOfFiles, OffBy, Writable, MayMoveTo, ChildOf, Contains, Rename;
    var owner, was := db.nodes[id].owner, db.nodes[id];
    var after := Relocated(db, id, parent, name);
    ParentIsThere(db, owner, parent);
    RenameIs(db, id, parent, name);
    RenameMoves(db, id, parent, name);
    MoveKeepsTheShape(db.nodes, id, parent, name);
    NodeIsInTheSchema(db, id);
    NodeFitsTheSchema(db, id, after.nodes[id]);
    BalancedIsOffByNothing(db, owner);
    NodeWritten(db, id, after.nodes[id], owner, 0, multiset{}, multiset{}, {});
    SameNet(after, owner, 0, multiset{} + Blobs(was), multiset{} + Blobs(after.nodes[id]), multiset{}, multiset{}, {});
    BalancedIsOffByNothing(after, owner);
    ChildStays(db, after, parent, name, id);
  }

  /** `child` is live in `parent` under `name`. */
  ghost predicate IsChild(nodes: map<Id, Node>, parent: Id, name: string, child: Id) {
    child in nodes && nodes[child].Live() && nodes[child].parent == Some(parent) && nodes[child].name == name
  }

  /** A live child of the directory has the name. */
  ghost predicate NameIsTaken(nodes: map<Id, Node>, parent: Id, name: string) {
    exists id :: IsChild(nodes, parent, name, id)
  }

  lemma ChildMeansTaken(nodes: map<Id, Node>, parent: Id, name: string)
    ensures ChildOf(nodes, parent, name).Some? <==> NameIsTaken(nodes, parent, name)
  {
    ChildIsFound(nodes, parent, name);
    if ChildOf(nodes, parent, name).Some? { assert IsChild(nodes, parent, name, ChildOf(nodes, parent, name).value); }
  }

  /** Nothing but where the node is and what it is called. */
  ghost predicate OnlyRenamed(db: Db, after: Db, id: Id, parent: Id, name: string)
    requires id in db.nodes
  {
    && after == db.(nodes := after.nodes) && after.nodes.Keys == db.nodes.Keys
    && after.nodes[id] == db.nodes[id].(parent := Some(parent), name := name)
    && forall x :: x in db.nodes && x != id ==> after.nodes[x] == db.nodes[x]
  }

  lemma NothingUnderFiles(nodes: map<Id, Node>, id: Id, parent: Id)
    requires Shaped(nodes) && id in nodes && parent in nodes && nodes[parent].kind.Directory? && AtOrAbove(nodes, id, parent)
    ensures nodes[id].kind.Directory?
  {
    hide LiveAbove, NamesAreUnique, Batched, Leads;
    ContainsIsAtOrAbove(nodes, id, parent);
    if nodes[id].kind.File? {
      var rank := SomeRank(nodes);
      UnderAnswers(nodes, id, parent);
      NothingUnderAFile(nodes, nodes.Keys, id, parent, rank);
    }
  }

  /**
    A rename succeeds exactly when it goes into a directory, the node is not that directory or above it,
    and no live child has the name; and then it changes nothing but where the node is and its name.
   */
  lemma RenameIsExact(db: Db, id: Id, parent: Id, name: string)
    requires Shaped(db.nodes) && id in db.nodes && parent in db.nodes
    ensures match Rename(db, id, parent, name)
            case Ok(after) =>
              && db.nodes[parent].kind.Directory? && !AtOrAbove(db.nodes, id, parent) && !NameIsTaken(db.nodes, parent, name)
              && OnlyRenamed(db, after, id, parent, name)
            case Err(e) =>
              if db.nodes[parent].kind.File? then e == WrongKind
              else if AtOrAbove(db.nodes, id, parent) then e == MoveIntoSelf
              else e == Conflict && NameIsTaken(db.nodes, parent, name)
  {
    hide Forest, WellPlaced, LiveAbove, NamesAreUnique, Batched, Rooted, Leads, Contains, AtOrAbove, NameIsTaken, ChildOf;
    ContainsIsAtOrAbove(db.nodes, id, parent);
    ChildMeansTaken(db.nodes, parent, name);
    if db.nodes[parent].kind.Directory? && AtOrAbove(db.nodes, id, parent) { NothingUnderFiles(db.nodes, id, parent); }
  }

  // ---------- when a path can be made ----------

  ghost predicate StepDown(nodes: map<Id, Node>, ids: seq<Id>, segments: seq<string>, i: nat)
    requires i + 1 < |ids| <= |segments| + 1
  {
    IsChild(nodes, ids[i], segments[i], ids[i + 1])
  }

  /** Live nodes down along the segments, as far as the ids go. */
  ghost predicate Descent(nodes: map<Id, Node>, ids: seq<Id>, current: Id, segments: seq<string>) {
    && 0 < |ids| <= |segments| + 1 && ids[0] == current
    && forall i: nat :: i + 1 < |ids| ==> StepDown(nodes, ids, segments, i)
  }

  ghost predicate EndsInAFile(nodes: map<Id, Node>, ids: seq<Id>) {
    |ids| > 1 && ids[|ids| - 1] in nodes && nodes[ids[|ids| - 1]].kind.File?
  }

  /** On the way along the segments there is a file. */
  ghost predicate FileInTheWay(nodes: map<Id, Node>, current: Id, segments: seq<string>) {
    exists ids :: Descent(nodes, ids, current, segments) && EndsInAFile(nodes, ids)
  }

  lemma DescentFrom(nodes: map<Id, Node>, ids: seq<Id>, current: Id, segments: seq<string>, child: Id)
    requires segments != [] && IsChild(nodes, current, segments[0], child)
    requires Descent(nodes, ids, child, segments[1..])
    ensures Descent(nodes, [current] + ids, current, segments) && ([current] + ids)[|ids|] == ids[|ids| - 1]
  {
    var longer := [current] + ids;
    forall i: nat | i + 1 < |longer| ensures StepDown(nodes, longer, segments, i) {
      assert i > 0 ==> StepDown(nodes, ids, segments[1..], i - 1);
    }
  }

  lemma DescentBelow(nodes: map<Id, Node>, ids: seq<Id>, current: Id, segments: seq<string>)
    requires Descent(nodes, ids, current, segments) && |ids| > 1 && segments != []
    ensures IsChild(nodes, current, segments[0], ids[1]) && Descent(nodes, ids[1..], ids[1], segments[1..])
  {
    assert StepDown(nodes, ids, segments, 0);
    forall i: nat | i + 1 < |ids[1..]| ensures StepDown(nodes, ids[1..], segments[1..], i) {
      assert StepDown(nodes, ids, segments, i + 1);
    }
  }

  /** A file is in the way of a path exactly when it is the first on it, or in the way of the rest. */
  lemma FileAtOrAfter(nodes: map<Id, Node>, current: Id, segments: seq<string>)
    requires segments != [] && NamesAreUnique(nodes)
    ensures FileInTheWay(nodes, current, segments) <==>
            match ChildOf(nodes, current, segments[0])
            case None => false
            case Some(child) => child in nodes && (nodes[child].kind.File? || FileInTheWay(nodes, child, segments[1..]))
  {
    hide NamesAreUnique, ChildOf;
    ChildIsFound(nodes, current, segments[0]);
    if ids :| Descent(nodes, ids, current, segments) && EndsInAFile(nodes, ids) {
      DescentBelow(nodes, ids, current, segments);
      ChildIs(nodes, current, segments[0], ids[1]);
      assert ids[1..][|ids| - 2] == ids[|ids| - 1];
    }
    if ChildOf(nodes, current, segments[0]).Some? {
      var child := ChildOf(nodes, current, segments[0]).value;
      if nodes[child].kind.File? {
        assert Descent(nodes, [current, child], current, segments);
        assert [current, child][1] == child;
      } else if FileInTheWay(nodes, child, segments[1..]) {
        var ids :| Descent(nodes, ids, child, segments[1..]) && EndsInAFile(nodes, ids);
        DescentFrom(nodes, ids, current, segments, child);
      }
    }
  }

  /** A directory just made is empty, so the rest of the path is free. */
  lemma NothingInNew(nodes: map<Id, Node>, next: Id, segments: seq<string>)
    requires NamesAreUnique(nodes) && forall id :: id in nodes ==> nodes[id].parent != Some(next)
    ensures !FileInTheWay(nodes, next, segments)
  {
    hide NamesAreUnique, ChildOf;
    if segments == [] {
      assert forall ids :: Descent(nodes, ids, next, segments) ==> |ids| == 1;
    } else {
      FileAtOrAfter(nodes, next, segments);
      ChildIsFound(nodes, next, segments[0]);
    }
  }

  /** A path is made exactly when no file is in its way, and is otherwise refused as a conflict. */
  lemma {:induction false} CreateDirectoriesIsExact(db: Db, owner: Owner, current: Id, segments: seq<string>, next: Id)
    requires Sound(db) && DrawnBefore(db, next) && Writable(db, owner, current)
    ensures CreateDirectories(db, owner, current, segments, next).Ok? <==> !FileInTheWay(db.nodes, current, segments)
    ensures CreateDirectories(db, owner, current, segments, next).Err? ==> CreateDirectories(db, owner, current, segments, next).error == Conflict
    decreases |segments|
  {
    hide Sound, ChildOf, FileInTheWay, NamesAreUnique;
    SoundNames(db);
    if segments == [] {
      NoFileAhead(db.nodes, current);
    } else {
      FileAtOrAfter(db.nodes, current, segments);
      ChildIsFound(db.nodes, current, segments[0]);
      match ChildOf(db.nodes, current, segments[0]) {
        case Some(existing) =>
          if db.nodes[existing].kind.Directory? {
            ChildIsWritable(db, owner, current, segments[0]);
            CreateDirectoriesIsExact(db, owner, existing, segments[1..], next);
          }
        case None =>
          DirectoryKeepsTheLedger(db, owner, current, segments[0], next);
          var mid := db.(nodes := db.nodes[next := NewDirectory(owner, current, segments[0])]);
          CreateDirectoriesIsExact(mid, owner, next, segments[1..], next + 1);
          NewIsEmpty(db, owner, current, segments[0], next);
          SoundNames(mid);
          NothingInNew(mid.nodes, next, segments[1..]);
      }
    }
  }

  /** Some part of the path leads to the node. */
  ghost predicate OnTheWay(nodes: map<Id, Node>, current: Id, segments: seq<string>, id: Id) {
    exists n: nat :: n <= |segments| && Walk(nodes, current, segments[..n]) == Some(id)
  }

  lemma FurtherOnTheWay(nodes: map<Id, Node>, current: Id, segments: seq<string>, child: Id, id: Id)
    requires segments != [] && ChildOf(nodes, current, segments[0]) == Some(child) && OnTheWay(nodes, child, segments[1..], id)
    ensures OnTheWay(nodes, current, segments, id)
  {
    hide ChildOf;
    var n: nat :| n <= |segments[1..]| && Walk(nodes, child, segments[1..][..n]) == Some(id);
    assert segments[..n + 1][1..] == segments[1..][..n] && segments[..n + 1][0] == segments[0];
    assert Walk(nodes, current, segments[..n + 1]) == Some(id);
  }

  /** Making a path makes nothing but directories on it. */
  lemma {:induction false} OnlyThePathIsMade(db: Db, owner: Owner, current: Id, segments: seq<string>, next: Id)
    requires Sound(db) && Writable(db, owner, current) && DrawnBefore(db, next)
    requires CreateDirectories(db, owner, current, segments, next).Ok?
    ensures var after := CreateDirectories(db, owner, current, segments, next).value.0;
            forall id :: id in after.nodes && id !in db.nodes ==>
              after.nodes[id].kind.Directory? && after.nodes[id].owner == owner && after.nodes[id].Live() && OnTheWay(after.nodes, current, segments, id)
    decreases |segments|
  {
    hide Sound, ChildOf, OnTheWay, Walk;
    if segments != [] {
      CreateDirectoriesHolds(db, owner, current, segments, next);
      var after := CreateDirectories(db, owner, current, segments, next).value.0;
      ChildIsFound(db.nodes, current, segments[0]);
      match ChildOf(db.nodes, current, segments[0]) {
        case Some(existing) =>
          ChildIsWritable(db, owner, current, segments[0]);
          OnlyThePathIsMade(db, owner, existing, segments[1..], next);
          ChildStays(db, after, current, segments[0], existing);
          forall id | id in after.nodes && id !in db.nodes ensures OnTheWay(after.nodes, current, segments, id) {
            FurtherOnTheWay(after.nodes, current, segments, existing, id);
          }
        case None =>
          DirectoryKeepsTheLedger(db, owner, current, segments[0], next);
          var mid := db.(nodes := db.nodes[next := NewDirectory(owner, current, segments[0])]);
          OnlyThePathIsMade(mid, owner, next, segments[1..], next + 1);
          CreateDirectoriesHolds(mid, owner, next, segments[1..], next + 1);
          ChildStays(db, after, current, segments[0], next);
          StartIsOnTheWay(after.nodes, next, segments[1..]);
          forall id | id in after.nodes && id !in db.nodes ensures OnTheWay(after.nodes, current, segments, id) {
            assert id != next ==> id !in mid.nodes;
            FurtherOnTheWay(after.nodes, current, segments, next, id);
          }
      }
    }
  }

  lemma StartIsOnTheWay(nodes: map<Id, Node>, current: Id, segments: seq<string>)
    ensures OnTheWay(nodes, current, segments, current)
  {
    assert Walk(nodes, current, segments[..0]) == Some(current);
  }

  lemma SoundNames(db: Db)
    requires Sound(db)
    ensures NamesAreUnique(db.nodes)
  {
  }

  lemma NoFileAhead(nodes: map<Id, Node>, current: Id)
    ensures !FileInTheWay(nodes, current, [])
  {
  }

  lemma NewIsEmpty(db: Db, owner: Owner, current: Id, name: string, next: Id)
    requires Sound(db) && DrawnBefore(db, next) && current in db.nodes
    ensures var after := db.nodes[next := NewDirectory(owner, current, name)]; forall id :: id in after ==> after[id].parent != Some(next)
  {
    hide Balanced, Forest, NamesAreUnique, Batched, LiveAbove;
  }

  lemma RenameIs(db: Db, id: Id, parent: Id, name: string)
    requires id in db.nodes && parent in db.nodes && Rename(db, id, parent, name).Ok?
    ensures Rename(db, id, parent, name).value == Relocated(db, id, parent, name)
  {
  }

  lemma ParentIsThere(db: Db, owner: Owner, parent: Id)
    requires Writable(db, owner, parent)
    ensures parent in db.nodes
  {
  }
}
