/**
  What an upload may bring: `room` of api/src/incoming.rs, asked before the bytes are received, against
  what `put_file` of api/src/db.rs does with them.
 */
module Admission {
  import opened Results
  import opened Sums
  import opened Tables
  import opened Trees
  import opened Ledger
  import opened Histories
  import opened Files
  import opened Moving
  import opened Departure
  import opened Overwrites
  import opened Runs

  /** `room`: what the account has left, with what the file of that name holds now and held before; never below zero. */
  function Incoming(db: Db, owner: Owner, parent: Id, name: string, standard: int): nat {
    var left := if owner in db.quotas then db.quotas[owner].max - db.quotas[owner].used else standard;
    var child := ChildOf(db.nodes, parent, name);
    var replaced := if child.Some? && child.value in db.nodes then db.nodes[child.value].size + HeldBy(db.versions, child.value) else 0;
    if left + replaced < 0 then 0 else left + replaced
  }

  // ---------- the overwrites that keep no history ----------

  /** The difference fits; or there is none, and the credit for what falls out of the history brings the account within its quota. */
  ghost predicate PlainFits(db: Db, owner: Owner, id: Id, size: nat, kept: int)
    requires owner in db.quotas && id in db.nodes
  {
    var previous, quota := db.nodes[id].size, db.quotas[owner];
    if size != previous then quota.used + size - previous <= quota.max
    else
      var spare := SizeOf(db.versions, Beyond(db.versions, id, kept));
      spare == 0 || quota.used - spare <= quota.max
  }

  /** Empty or unchanged content, or no history to keep: the difference is charged before anything is given up. */
  lemma PlainOverwriteIsExact(db: Db, owner: Owner, id: Id, hash: Hash, size: nat, kept: int, version: Id)
    requires owner in db.quotas && OwnFile(db, owner, id) && !KeepsHistory(db, owner, id, hash, kept)
    ensures Overwrite(db, owner, id, hash, size, kept, version).Ok? <==> PlainFits(db, owner, id, size, kept)
  {
    hide MakeRoom, Acquire, Release, SizeOf, Beyond, Overwrite, PruneBeyond;
    OverwriteIsPrunedLast(db, owner, id, hash, size, kept, version);
    var unpruned := Unpruned(db, owner, id, hash, size, kept, version);
    if unpruned.Ok? {
      assert unpruned.value.versions == db.versions;
      PruneSucceeds(unpruned.value, owner, id, kept);
    }
  }

  // ---------- every write ----------

  /** When a write succeeds: a new file fits in what is left; a file is overwritten with its history, or without; a folder is in the way. */
  ghost predicate WriteFits(db: Db, owner: Owner, parent: Id, name: string, hash: Hash, size: nat, kept: int)
    requires owner in db.quotas
  {
    match ChildOf(db.nodes, parent, name)
    case None => size == 0 || db.quotas[owner].used + size <= db.quotas[owner].max
    case Some(id) =>
      && id in db.nodes && db.nodes[id].kind.File?
      && if KeepsHistory(db, owner, id, hash, kept) then OverwriteFits(db, owner, id, size, kept) else PlainFits(db, owner, id, size, kept)
  }

  /** The row for the bytes does not matter to whether a write fits. */
  lemma AdmittedFits(db: Db, owner: Owner, id: Id, hash: Hash, size: nat, kept: int)
    requires owner in db.quotas && id in db.nodes
    ensures var after := Admit(db, hash, size);
            && after.nodes == db.nodes && after.versions == db.versions && after.quotas == db.quotas
            && (OwnFile(after, owner, id) <==> OwnFile(db, owner, id))
            && (KeepsHistory(after, owner, id, hash, kept) <==> KeepsHistory(db, owner, id, hash, kept))
            && (PlainFits(after, owner, id, size, kept) <==> PlainFits(db, owner, id, size, kept))
            && (kept >= 0 ==> (OverwriteFits(after, owner, id, size, kept) <==> OverwriteFits(db, owner, id, size, kept)))
  {
    hide SizeOf, History, HeldBy, OldestCredit, Beyond, Spare;
    var after := Admit(db, hash, size);
    SameSpare(db, after, id, kept);
  }

  lemma SameSpare(a: Db, b: Db, id: Id, kept: int)
    requires a.versions == b.versions
    ensures kept >= 0 ==> Spare(a, id, kept) == Spare(b, id, kept)
  {
  }

  /** For every account with a quota row, within its quota or over it. */
  lemma PutFileIsExact(db: Db, owner: Owner, parent: Id, name: string, hash: Hash, size: nat, kept: int, node: Id, version: Id)
    requires Sound(db) && owner in db.quotas && Writable(db, owner, parent) && Drawn(db, node, version)
    ensures FilesCarryBlobs(db)
    ensures PutFile(db, owner, parent, name, hash, size, kept, node, version).Ok? <==> WriteFits(db, owner, parent, name, hash, size, kept)
  {
    hide Shaped, ForeignKeys, VersionsAreOfFiles, Balanced, ChildOf, Overwrite, OverwriteFits, PlainFits, KeepsHistory, Writable;
    if ChildOf(db.nodes, parent, name).Some? {
      var id := ChildOf(db.nodes, parent, name).value;
      ChildIsOwnFile(db, owner, parent, name);
      if db.nodes[id].kind.File? {
        var admitted := Admit(db, hash, size);
        AdmittedFits(db, owner, id, hash, size, kept);
        if KeepsHistory(db, owner, id, hash, kept) {
          KeptIsPositive(db, owner, id, hash, kept);
          OverwriteIsExact(admitted, owner, id, hash, size, kept, version);
        } else {
          PlainOverwriteIsExact(admitted, owner, id, hash, size, kept, version);
        }
      }
    }
  }

  lemma KeptIsPositive(db: Db, owner: Owner, id: Id, hash: Hash, kept: int)
    requires KeepsHistory(db, owner, id, hash, kept)
    ensures kept > 0
  {
  }

  // ---------- what the room promises ----------

  /** What the room counts and a write that keeps no history cannot spend. */
  ghost function OutOfReach(db: Db, owner: Owner, parent: Id, name: string, hash: Hash, kept: int): int {
    match ChildOf(db.nodes, parent, name)
    case None => 0
    case Some(id) => if KeepsHistory(db, owner, id, hash, kept) then 0 else HeldBy(db.versions, id)
  }

  /**
    An account within its quota may write what fits in the room less the history that the write cannot
    spend, unless a folder has the name.
   */
  lemma RoomLessHistory(db: Db, owner: Owner, parent: Id, name: string, hash: Hash, size: nat, kept: int, node: Id, version: Id, standard: int)
    requires Sound(db) && WithinQuota(db, owner) && Writable(db, owner, parent) && Drawn(db, node, version)
    ensures FilesCarryBlobs(db)
    ensures PutFile(db, owner, parent, name, hash, size, kept, node, version).Ok? <==>
            && !(ChildOf(db.nodes, parent, name).Some? && db.nodes[ChildOf(db.nodes, parent, name).value].kind.Directory?)
            && size <= Incoming(db, owner, parent, name, standard) - OutOfReach(db, owner, parent, name, hash, kept)
  {
    hide Shaped, Schema, Balanced, ChildOf, OverwriteFits, KeepsHistory, Writable, Drawn, PutFile, SizeOf, Beyond, History;
    PutFileIsExact(db, owner, parent, name, hash, size, kept, node, version);
    if ChildOf(db.nodes, parent, name).Some? {
      var id := ChildOf(db.nodes, parent, name).value;
      ChildIsOwn(db, owner, parent, name);
      SizesAreNatural(db.versions, History(db.versions, id));
      SizesAreNatural(db.versions, Beyond(db.versions, id, kept));
      if KeepsHistory(db, owner, id, hash, kept) { KeptFits(db, owner, id, hash, size, kept, version); }
    }
  }

  lemma ChildIsOwn(db: Db, owner: Owner, parent: Id, name: string)
    requires Sound(db) && Writable(db, owner, parent) && ChildOf(db.nodes, parent, name).Some?
    ensures ChildOf(db.nodes, parent, name).value in db.nodes
  {
    hide ForeignKeys, FilesCarryBlobs, VersionsAreOfFiles, Balanced;
    ChildIsOwnFile(db, owner, parent, name);
  }

  lemma KeptFits(db: Db, owner: Owner, id: Id, hash: Hash, size: nat, kept: int, version: Id)
    requires WithinQuota(db, owner) && KeepsHistory(db, owner, id, hash, kept) && id in db.nodes
    ensures kept > 0
    ensures OverwriteFits(db, owner, id, size, kept) <==> size <= Room(db, owner, id, db.nodes[id].size)
  {
    WithinQuotaRoomIsAll(db, owner, id, size, db.nodes[id].size);
    SizesAreNatural(db.versions, Spare(db, id, kept));
  }

  // ---------- a room that is not there ----------

  const ROOT := Node(7, None, "", Directory, None, 0, None)

  /** A new server; an account of 10 bytes; a file of 8; and the same file saved empty, its 8 bytes kept as a version. */
  function NewServer(): Db { Db(map[], map[], map[], map[], map[], 0) }
  function Opened10(): Db { NewServer().(nodes := map[0 := ROOT], quotas := map[7 := Quota(0, 10)]) }
  function Written8(): Db {
    Db(map[0 := ROOT, 1 := Node(7, Some(0), "f", File, Some(1), 8, None)], map[], map[],
       map[1 := Blob(8, 1, None)], map[7 := Quota(8, 10)], 0)
  }
  function SavedEmpty(): Db {
    Db(map[0 := ROOT, 1 := Node(7, Some(0), "f", File, Some(2), 0, None)], map[2 := Version(1, 1, 8)], map[],
       map[1 := Blob(8, 1, None), 2 := Blob(0, 1, None)], map[7 := Quota(8, 10)], 0)
  }

  lemma OpeningLeaves()
    ensures EnsureRoot(NewServer(), 7, 10, 0).0 == Opened10()
  {
    assert RootsOf(NewServer().nodes, 7) == {};
  }

  lemma WritingLeaves()
    ensures Schema(Opened10()) && PutFile(Opened10(), 7, 0, "f", 1, 8, 3, 1, 1) == Ok(Written8())
  {
    var db, after := Opened10(), Written8();
    assert Named(db.nodes, 0, "f") == {};
    var admitted := Admit(db, 1, 8);
    var created := Create(admitted, 7, 0, "f", 1, 8, 1);
    assert created.value.nodes == after.nodes && created.value.blobs == after.blobs && created.value.quotas == after.quotas;
    assert created == Ok(after);
  }

  lemma SavingEmptyLeaves()
    ensures Schema(Written8()) && PutFile(Written8(), 7, 0, "f", 2, 0, 3, 2, 2) == Ok(SavedEmpty())
  {
    var db := Written8();
    FindsFile(db.nodes);
    var admitted := Admit(db, 2, 0);
    assert MakeRoom(admitted, 7, 1, 0, 8) == Ok((admitted, true));
    var settled := Settle(admitted.(blobs := Acquire(admitted.blobs, 2)), 1, 1, 8, true, 2);
    HistoryIs(settled.versions, 1, [2]);
    NothingToPrune(settled, 7, 1, 3);
    var after := SavedEmpty();
    assert settled.versions == after.versions && settled.blobs == after.blobs && settled.quotas == after.quotas;
    assert db.nodes[1 := db.nodes[1].(blob := Some(2), size := 0)] == after.nodes;
    assert Overwrite(admitted, 7, 1, 2, 0, 3, 2) == Ok(after);
  }

  lemma FindsFile(nodes: map<Id, Node>)
    requires nodes.Keys == {0, 1} && nodes[0] == ROOT && nodes[1].Live() && nodes[1].parent == Some(0) && nodes[1].name == "f"
    ensures ChildOf(nodes, 0, "f") == Some(1)
  {
    assert Named(nodes, 0, "f") == {1};
  }

  lemma SavedEmptyIsReached() returns (states: seq<State>, events: seq<Event>)
    ensures |states| > 0 && Run(states, events) && states[0].db == NewServer() && states[|states| - 1] == State(SavedEmpty(), 3)
  {
    hide Step, NewServer, Opened10, Written8, SavedEmpty;
    OpeningIsAStep();
    WritingIsAStep();
    SavingEmptyIsAStep();
    states := [State(NewServer(), 0), State(Opened10(), 1), State(Written8(), 2), State(SavedEmpty(), 3)];
    events := [OpeningAccount(7, 10), Put(7, 0, "f", 1, 8, 3), Put(7, 0, "f", 2, 0, 3)];
    StartsEmpty();
  }

  lemma StartsEmpty()
    ensures DrawnBefore(NewServer(), 0)
  {
  }

  lemma OpeningIsAStep()
    ensures Step(State(NewServer(), 0), OpeningAccount(7, 10), State(Opened10(), 1))
  {
    hide EnsureRoot;
    OpeningLeaves();
  }

  lemma WritingIsAStep()
    ensures Step(State(Opened10(), 1), Put(7, 0, "f", 1, 8, 3), State(Written8(), 2))
  {
    hide PutFile;
    WritingLeaves();
  }

  lemma SavingEmptyIsAStep()
    ensures Step(State(Written8(), 2), Put(7, 0, "f", 2, 0, 3), State(SavedEmpty(), 3))
  {
    hide PutFile;
    SavingEmptyLeaves();
  }

  /** There the room is all 10 bytes, the account is within its quota, and a write of 5 is refused: an empty file keeps no history, so nothing of it is given up. */
  lemma RoomIsNotAlwaysThere(standard: int)
    ensures var db := SavedEmpty();
            && WithinQuota(db, 7) && Incoming(db, 7, 0, "f", standard) == 10
            && FilesCarryBlobs(db) && PutFile(db, 7, 0, "f", 3, 5, 3, 3, 3).Err?
  {
    hide PutFile, Sound, Run;
    var db := SavedEmpty();
    var states, events := SavedEmptyIsReached();
    EveryRunIsSound(states, events, |states| - 1);
    FindsFile(db.nodes);
    HistoryIs(db.versions, 1, [2]);
    assert SizeOf(db.versions, [2]) == 8;
    RoomLessHistory(db, 7, 0, "f", 3, 5, 3, 3, 3, standard);
  }
}
