/** An account leaving, with or without handing over what it holds: `remove` and `hand_over` of api/src/departure.rs. */
module Departure {
  import opened Results
  import opened Sums
  import opened Numbers
  import opened Tables
  import opened Trees
  import opened Ledger
  import opened Histories
  import opened Files
  import opened Trash
  import opened Purging
  import opened Moving

  const MAX_ATTEMPTS: nat := 1000

  // ---------- the folder the files are handed over in ----------

  function Candidate(wanted: string, attempt: nat): string {
    if attempt == 1 then wanted else wanted + " " + Decimal(attempt)
  }

  /** `free_name`: the first candidate no live child has, within the attempts. */
  function FreeName(nodes: map<Id, Node>, parent: Id, wanted: string, attempt: nat): Result<string, ApiError>
    requires 1 <= attempt <= MAX_ATTEMPTS + 1
    decreases MAX_ATTEMPTS + 1 - attempt
  {
    if attempt > MAX_ATTEMPTS then Err(Conflict)
    else if ChildOf(nodes, parent, Candidate(wanted, attempt)).None? then Ok(Candidate(wanted, attempt))
    else FreeName(nodes, parent, wanted, attempt + 1)
  }

  /** A name is found exactly when one of the candidates is free, and it is the first of them. */
  lemma {:induction false} FreeNameIsFirst(nodes: map<Id, Node>, parent: Id, wanted: string, attempt: nat)
    requires 1 <= attempt <= MAX_ATTEMPTS + 1
    ensures FreeName(nodes, parent, wanted, attempt).Ok? <==>
              exists k :: attempt <= k <= MAX_ATTEMPTS && ChildOf(nodes, parent, Candidate(wanted, k)).None?
    ensures FreeName(nodes, parent, wanted, attempt).Ok? ==>
              exists k :: IsFirstFree(nodes, parent, wanted, attempt, k) && FreeName(nodes, parent, wanted, attempt).value == Candidate(wanted, k)
    decreases MAX_ATTEMPTS + 1 - attempt
  {
    hide ChildOf, Candidate;
    if attempt <= MAX_ATTEMPTS {
      if ChildOf(nodes, parent, Candidate(wanted, attempt)).Some? {
        FreeNameIsFirst(nodes, parent, wanted, attempt + 1);
        if FreeName(nodes, parent, wanted, attempt + 1).Ok? {
          var k :| IsFirstFree(nodes, parent, wanted, attempt + 1, k) && FreeName(nodes, parent, wanted, attempt + 1).value == Candidate(wanted, k);
          assert IsFirstFree(nodes, parent, wanted, attempt, k);
        }
      } else {
        assert IsFirstFree(nodes, parent, wanted, attempt, attempt);
      }
    }
  }

  /** Of the candidates from `attempt` on, the `k`th is the first that is free. */
  ghost predicate IsFirstFree(nodes: map<Id, Node>, parent: Id, wanted: string, attempt: nat, k: nat) {
    && attempt <= k <= MAX_ATTEMPTS && ChildOf(nodes, parent, Candidate(wanted, k)).None?
    && forall j :: attempt <= j < k ==> ChildOf(nodes, parent, Candidate(wanted, j)).Some?
  }

  lemma FreeNameIsFree(nodes: map<Id, Node>, parent: Id, wanted: string)
    requires FreeName(nodes, parent, wanted, 1).Ok?
    ensures ChildOf(nodes, parent, FreeName(nodes, parent, wanted, 1).value).None?
  {
    hide ChildOf, Candidate, FreeName;
    FreeNameIsFirst(nodes, parent, wanted, 1);
  }

  // ---------- hand_over ----------

  /** The owner's root: the one node of the owner's without a parent. */
  function RootsOf(nodes: map<Id, Node>, owner: Owner): set<Id> {
    set id | id in nodes && nodes[id].owner == owner && nodes[id].parent.None?
  }

  function RootOf(nodes: map<Id, Node>, owner: Owner): Option<Id> {
    if RootsOf(nodes, owner) == {} then None else Some(Least(RootsOf(nodes, owner)))
  }

  /** `ensure_root`: the account's quota row and its root, made if missing. */
  function EnsureRoot(db: Db, owner: Owner, quota: int, next: Id): (Db, Id) {
    var quotas := if owner in db.quotas then db.quotas else db.quotas[owner := Quota(0, quota)];
    match RootOf(db.nodes, owner)
    case Some(root) => (db.(quotas := quotas), root)
    case None => (db.(quotas := quotas, nodes := db.nodes[next := Node(owner, None, "", Directory, None, 0, None)]), next)
  }

  /** Children of the old root go under the folder, and everything but the old root changes owner. */
  function Handed(nodes: map<Id, Node>, leaving: Owner, recipient: Owner, oldRoot: Id, folder: Id): map<Id, Node> {
    map id | id in nodes ::
      var placed := if nodes[id].parent == Some(oldRoot) then nodes[id].(parent := Some(folder)) else nodes[id];
      if nodes[id].owner == leaving && id != oldRoot then placed.(owner := recipient) else placed
  }

  function HandOver(db: Db, leaving: Owner, recipient: Owner, quota: int, wanted: string, next: Id): Outcome {
    match RootOf(db.nodes, leaving)
    case None => Ok(db)
    case Some(oldRoot) =>
      var (rooted, root) := EnsureRoot(db, recipient, quota, next);
      match FreeName(rooted.nodes, root, wanted, 1)
      case Err(e) => Err(e)
      case Ok(name) =>
        var filed := rooted.(nodes := rooted.nodes[next + 1 := NewDirectory(recipient, root, name)]);
        match Charge(filed.quotas, recipient, Used(db, leaving))
        case Ok(quotas) => Ok(filed.(nodes := Handed(filed.nodes, leaving, recipient, oldRoot, next + 1), quotas := quotas))
        case Err(e) => Err(e)
  }

  // ---------- the account itself ----------

  function OwnedBy(nodes: map<Id, Node>, owner: Owner): set<Id> { set id | id in nodes && nodes[id].owner == owner }

  /** The account's row gone, and with it its nodes, their versions and its quota; what they referenced is released. */
  function Erase(db: Db, owner: Owner): Db {
    var gone := OwnedBy(db.nodes, owner);
    var held := HashesHeld(db, gone);
    var left := Deleted(db, Cascade(db.nodes, gone));
    left.(quotas := db.quotas - {owner}, blobs := ReleaseAll(db.blobs, held, db.now))
  }

  datatype Recipient = Nobody | Account(owner: Owner, active: bool, mayWrite: bool)

  /** `remove`: the trash is emptied, the rest handed over if it is to be, and the account erased. */
  function Remove(db: Db, leaving: Owner, roots: seq<Id>, to: Recipient, quota: int, wanted: string, next: Id): Outcome {
    match Empty(db, leaving, roots)
    case Err(e) => Err(e)
    case Ok(emptied) =>
      match to
      case Nobody => Ok(Erase(emptied, leaving))
      case Account(recipient, active, mayWrite) =>
        if !active || !mayWrite then Err(WrongKind)
        else
          match HandOver(emptied, leaving, recipient, quota, wanted, next)
          case Ok(handed) => Ok(Erase(handed, leaving))
          case Err(e) => Err(e)
  }

  // ---------- erasing ----------

  /** The nodes of one owner, all live, as a proof sees them on their way out: in the trash, and no longer charged. */
  function Interred(db: Db, ids: set<Id>): Db { db.(nodes := Bury(db.nodes, ids, 0)) }

  lemma InterredWeigh(db: Db, owner: Owner, ids: set<Id>, o: Owner)
    requires Schema(db) && forall id :: id in ids ==> id in db.nodes && db.nodes[id].Live() && db.nodes[id].owner == owner
    ensures ExpectedUsage(db, o) == ExpectedUsage(Interred(db, ids), o) + if o == owner then Weight(db, ids) else 0
  {
    hide Schema, Bury, Differ, CarriesItsBlob;
    BuryDiffers(db.nodes, ids, 0);
    forall id | id in ids ensures CarriesItsBlob(db.nodes[id]) { NodeIsInTheSchema(db, id); }
    LivenessWeighs(db.nodes, Interred(db, ids).nodes, ids, owner, o);
    LivenessWeighsVersions(db.nodes, Interred(db, ids).nodes, db.versions, ids, owner, o);
  }

  lemma InterredName(db: Db, ids: set<Id>, h: Hash)
    requires forall id :: id in ids ==> id in db.nodes && db.nodes[id].Live()
    ensures ExpectedReferences(db, h) == ExpectedReferences(Interred(db, ids), h)
  {
    hide Bury, Differ;
    BuryDiffers(db.nodes, ids, 0);
    LivenessIsNoName(db.nodes, Interred(db, ids).nodes, ids, h);
  }

  lemma InterredAreOwed(db: Db, owner: Owner, ids: set<Id>, bytes: int)
    requires OffBy(db, owner, bytes, multiset{}, multiset{}, {}) && Schema(db)
    requires forall id :: id in ids ==> id in db.nodes && db.nodes[id].Live() && db.nodes[id].owner == owner
    ensures OffBy(Interred(db, ids), owner, bytes + Weight(db, ids), multiset{}, multiset{}, {})
  {
    hide Schema, Idle, ExpectedUsage, ExpectedReferences, Weight;
    forall o ensures ExpectedUsage(db, o) == ExpectedUsage(Interred(db, ids), o) + if o == owner then Weight(db, ids) else 0 {
      InterredWeigh(db, owner, ids, o);
    }
    forall h ensures ExpectedReferences(db, h) == ExpectedReferences(Interred(db, ids), h) {
      InterredName(db, ids, h);
    }
  }

  lemma OwnersGoTogether(nodes: map<Id, Node>, owner: Owner)
    requires Shaped(nodes)
    ensures CascadesTo(nodes, OwnedBy(nodes, owner))
    ensures Cascade(nodes, OwnedBy(nodes, owner)) == OwnedBy(nodes, owner)
  {
    hide LiveAbove, NamesAreUnique;
    var rank := SomeRank(nodes);
    var gone := OwnedBy(nodes, owner);
    forall id | id in nodes && id !in gone
      ensures nodes[id].parent.Some? ==> nodes[id].parent.value !in gone
      ensures nodes[id].trash.Some? ==> nodes[id].trash.value !in gone
    {
      if nodes[id].trash.Some? { BatchHasOneOwner(nodes, id, rank); }
    }
    CascadeIsLeast(nodes, gone, gone);
  }

  lemma InterredHoldTheSame(db: Db, ids: set<Id>)
    requires forall id :: id in ids ==> id in db.nodes
    ensures HashesHeld(Interred(db, ids), ids) == HashesHeld(db, ids)
    ensures Deleted(Interred(db, ids), ids) == Deleted(db, ids)
  {
    hide Ordered, HashesOf;
    NodeHashesStay(Interred(db, ids).nodes, db.nodes, Ordered(ids));
    assert Interred(db, ids).nodes - ids == db.nodes - ids;
  }

  lemma InterredKeepsKeys(db: Db, ids: set<Id>)
    requires Schema(db)
    ensures Schema(Interred(db, ids))
  {
    TrashFitsTheSchema(db, Interred(db, ids).nodes);
  }

  /** Once nothing is left of an account, its quota row can go whatever it said. */
  lemma NothingLeft(db: Db, owner: Owner, bytes: int)
    requires OffBy(db, owner, bytes, multiset{}, multiset{}, {}) && OwnedBy(db.nodes, owner) == {} && Schema(db)
    ensures Balanced(db.(quotas := db.quotas - {owner}))
  {
    hide Idle, ExpectedReferences;
    var after := db.(quotas := db.quotas - {owner});
    assert forall id :: id in db.nodes ==> id !in OwnedBy(db.nodes, owner);
    SumOfNothing(LiveSizes(db.nodes, owner));
    SumOfNothing(KeptSizes(db.nodes, db.versions, owner));
    forall o ensures Used(after, o) == ExpectedUsage(after, o) { SameUsage(db, after, o); }
    forall h ensures ExpectedReferences(after, h) == ExpectedReferences(db, h) { SameReferences(db, after, h); }
    IdleIsIdle(db.blobs);
  }

  lemma IdleIsIdle(blobs: map<Hash, Blob>)
    requires Idle(blobs, {})
    ensures forall h :: h in blobs ==> (blobs[h].idleSince.Some? <==> blobs[h].refs == 0)
  {
  }

  /** Erasing an account whose nodes are all live leaves a sound ledger, whatever its own charge had come to. */
  lemma EraseKeepsTheLedger(db: Db, owner: Owner, bytes: int)
    requires Shaped(db.nodes) && Schema(db) && OffBy(db, owner, bytes, multiset{}, multiset{}, {})
    requires forall id :: id in db.nodes && db.nodes[id].owner == owner ==> db.nodes[id].Live()
    ensures Sound(Erase(db, owner)) && Erase(db, owner).nodes == db.nodes - OwnedBy(db.nodes, owner)
    ensures Erase(db, owner).versions == db.versions - VersionsUnder(db.versions, OwnedBy(db.nodes, owner))
    ensures Erase(db, owner).quotas == db.quotas - {owner}
    ensures ReleasesExactly(db.blobs, Erase(db, owner).blobs, HashesHeld(db, OwnedBy(db.nodes, owner)))
  {
    hide Shaped, ForeignKeys, FilesCarryBlobs, VersionsAreOfFiles, OffBy, Balanced, HashesHeld, Cascade, Weight, ReleaseAll, Interred;
    var gone := OwnedBy(db.nodes, owner);
    OwnersGoTogether(db.nodes, owner);
    InterredAreOwed(db, owner, gone, bytes);
    InterredHoldTheSame(db, gone);
    InterredKeepsKeys(db, gone);
    InterredAreTrashed(db, gone);
    var interred := Interred(db, gone);
    DeletionIsEven(interred, gone, owner, bytes + Weight(db, gone));
    DeletionKeepsTheShape(db.nodes, gone);
    DeletionFitsTheSchema(db, gone);
    var released := Deleted(db, gone).(blobs := ReleaseAll(db.blobs, HashesHeld(db, gone), db.now));
    VersionsFitTheSchema(Deleted(db, gone), released);
    assert OwnedBy(released.nodes, owner) == {};
    NothingLeft(released, owner, bytes + Weight(db, gone));
    SchemaIgnoresCharges(released, Erase(db, owner));
  }

  lemma InterredAreTrashed(db: Db, ids: set<Id>)
    ensures var after := Interred(db, ids);
            && after == db.(nodes := after.nodes) && after.nodes.Keys == db.nodes.Keys
            && forall id :: id in ids && id in db.nodes ==> !after.nodes[id].Live()
  {
  }

  // ---------- handing over ----------

  lemma RootIs(nodes: map<Id, Node>, owner: Owner)
    ensures RootOf(nodes, owner).Some? ==>
              var root := RootOf(nodes, owner).value; root in nodes && nodes[root].owner == owner && nodes[root].parent.None?
    ensures RootOf(nodes, owner).None? ==> forall id :: id in nodes && nodes[id].owner == owner ==> nodes[id].parent.Some?
  {
    assert RootOf(nodes, owner).None? ==> forall id :: id in nodes && nodes[id].owner == owner && nodes[id].parent.None? ==> id in RootsOf(nodes, owner);
  }

  lemma RootsAreLive(db: Db)
    requires Sound(db)
    ensures forall id :: id in db.nodes && db.nodes[id].parent.None? ==> db.nodes[id].kind.Directory? && db.nodes[id].Live()
  {
  }

  /** A quota row with nothing charged changes nothing. */
  lemma QuotaAdded(db: Db, owner: Owner, quota: int)
    requires Balanced(db) && owner !in db.quotas
    ensures Balanced(db.(quotas := db.quotas[owner := Quota(0, quota)]))
  {
    hide ExpectedUsage, ExpectedReferences;
    var after := db.(quotas := db.quotas[owner := Quota(0, quota)]);
    forall o ensures Used(after, o) == ExpectedUsage(after, o) { SameUsage(db, after, o); }
    forall h ensures ExpectedReferences(after, h) == ExpectedReferences(db, h) { SameReferences(db, after, h); }
  }

  lemma RootAdded(db: Db, owner: Owner, id: Id)
    requires Sound(db) && id !in db.nodes && RootOf(db.nodes, owner).None?
    ensures Sound(db.(nodes := db.nodes[id := Node(owner, None, "", Directory, None, 0, None)]))
  {
    hide Shaped, Balanced, ForeignKeys, FilesCarryBlobs, VersionsAreOfFiles, OffBy;
    var n := Node(owner, None, "", Directory, None, 0, None);
    var after := db.(nodes := db.nodes[id := n]);
    RootIs(db.nodes, owner);
    LeafKeepsTheShape(db.nodes, id, n);
    NodeFitsTheSchema(db, id, n);
    NoVersionsOf(db, id);
    BalancedIsOffByNothing(db, owner);
    NodeWritten(db, id, n, owner, 0, multiset{}, multiset{}, {});
    SameNet(after, owner, 0, multiset{} + multiset{}, multiset{} + Blobs(n), multiset{}, multiset{}, {});
    BalancedIsOffByNothing(after, owner);
  }

  /** Rows added, none changed. */
  ghost predicate Extends(db: Db, after: Db) {
    && after == db.(nodes := after.nodes, quotas := after.quotas)
    && (forall id :: id in db.nodes ==> id in after.nodes && after.nodes[id] == db.nodes[id])
    && (forall o :: Used(after, o) == Used(db, o)) && (forall o :: o in db.quotas ==> o in after.quotas && after.quotas[o] == db.quotas[o])
  }

  lemma EnsureRootHolds(db: Db, owner: Owner, quota: int, next: Id)
    requires Sound(db) && DrawnBefore(db, next)
    ensures var (rooted, root) := EnsureRoot(db, owner, quota, next);
            && Sound(rooted) && Extends(db, rooted) && owner in rooted.quotas
            && (forall id :: id in rooted.nodes ==> id <= next && (id !in db.nodes ==> rooted.nodes[id].owner == owner))
            && Writable(rooted, owner, root) && rooted.nodes[root].parent.None?
            && (owner !in db.quotas ==> rooted.quotas[owner] == Quota(0, quota))
  {
    hide Shaped, ForeignKeys, FilesCarryBlobs, VersionsAreOfFiles, Balanced, RootOf;
    RootIs(db.nodes, owner);
    RootsAreLive(db);
    var quotas := if owner in db.quotas then db.quotas else db.quotas[owner := Quota(0, quota)];
    if owner !in db.quotas { QuotaAdded(db, owner, quota); }
    var paid := db.(quotas := quotas);
    SchemaIgnoresCharges(db, paid);
    if RootOf(db.nodes, owner).None? { RootAdded(paid, owner, next); }
  }

  /** Where the hand-over starts: one account's tree, all of it live, and an empty folder of another's. */
  ghost predicate ReadyToHand(nodes: map<Id, Node>, leaving: Owner, recipient: Owner, oldRoot: Id, folder: Id) {
    && leaving != recipient
    && oldRoot in nodes && nodes[oldRoot].owner == leaving && nodes[oldRoot].parent.None? && nodes[oldRoot].kind.Directory?
    && (forall id :: id in nodes && nodes[id].owner == leaving ==> nodes[id].Live())
    && folder in nodes && nodes[folder].owner == recipient && nodes[folder].kind.Directory? && nodes[folder].Live()
    && (forall id :: id in nodes ==> nodes[id].parent != Some(folder))
  }

  lemma HandedKeepsTheForest(nodes: map<Id, Node>, leaving: Owner, recipient: Owner, oldRoot: Id, folder: Id)
    requires Forest(nodes) && WellPlaced(nodes) && ReadyToHand(nodes, leaving, recipient, oldRoot, folder)
    ensures Forest(Handed(nodes, leaving, recipient, oldRoot, folder))
  {
    var rank :| Ranked(nodes, rank);
    var raised := map id | id in nodes :: if nodes[id].owner == leaving && id != oldRoot then rank[id] + rank[folder] + 1 else rank[id];
    assert Ranked(Handed(nodes, leaving, recipient, oldRoot, folder), raised);
  }

  lemma HandedIsWellPlaced(nodes: map<Id, Node>, leaving: Owner, recipient: Owner, oldRoot: Id, folder: Id)
    requires WellPlaced(nodes) && LiveAbove(nodes) && NamesAreUnique(nodes) && ReadyToHand(nodes, leaving, recipient, oldRoot, folder)
    ensures var after := Handed(nodes, leaving, recipient, oldRoot, folder); WellPlaced(after) && LiveAbove(after)
  {
    OnlyRoot(nodes, leaving, recipient, oldRoot, folder);
    hide NamesAreUnique;
  }

  lemma OnlyRoot(nodes: map<Id, Node>, leaving: Owner, recipient: Owner, oldRoot: Id, folder: Id)
    requires NamesAreUnique(nodes) && ReadyToHand(nodes, leaving, recipient, oldRoot, folder)
    ensures forall id :: id in nodes && nodes[id].owner == leaving && nodes[id].parent.None? ==> id == oldRoot
  {
    forall id | id in nodes && nodes[id].owner == leaving && nodes[id].parent.None? ensures id == oldRoot {
      assert SamePlace(nodes[id], nodes[oldRoot]);
    }
  }

  lemma HandedKeepsTheNames(nodes: map<Id, Node>, leaving: Owner, recipient: Owner, oldRoot: Id, folder: Id)
    requires WellPlaced(nodes) && NamesAreUnique(nodes) && ReadyToHand(nodes, leaving, recipient, oldRoot, folder)
    ensures NamesAreUnique(Handed(nodes, leaving, recipient, oldRoot, folder))
  {
    OnlyRoot(nodes, leaving, recipient, oldRoot, folder);
    var after := Handed(nodes, leaving, recipient, oldRoot, folder);
    forall a, b | a in after && b in after && after[a].Live() && after[b].Live() && SamePlace(after[a], after[b]) ensures a == b {
      assert SamePlace(nodes[a], nodes[b]);
    }
  }

  lemma HandedKeepsTheBatches(nodes: map<Id, Node>, leaving: Owner, recipient: Owner, oldRoot: Id, folder: Id)
    requires WellPlaced(nodes) && Batched(nodes) && ReadyToHand(nodes, leaving, recipient, oldRoot, folder)
    ensures Batched(Handed(nodes, leaving, recipient, oldRoot, folder))
  {
    var after := Handed(nodes, leaving, recipient, oldRoot, folder);
    forall id | id in after ensures InItsBatch(after, id) { assert InItsBatch(nodes, id); }
  }

  lemma HandedKeepsTheShape(nodes: map<Id, Node>, leaving: Owner, recipient: Owner, oldRoot: Id, folder: Id)
    requires Shaped(nodes) && ReadyToHand(nodes, leaving, recipient, oldRoot, folder)
    ensures Shaped(Handed(nodes, leaving, recipient, oldRoot, folder))
  {
    hide Forest, WellPlaced, LiveAbove, Batched, NamesAreUnique, Rooted, ReadyToHand, Handed;
    HandedKeepsTheForest(nodes, leaving, recipient, oldRoot, folder);
    HandedIsWellPlaced(nodes, leaving, recipient, oldRoot, folder);
    HandedKeepsTheNames(nodes, leaving, recipient, oldRoot, folder);
    HandedKeepsTheBatches(nodes, leaving, recipient, oldRoot, folder);
    HandedIsRooted(nodes, leaving, recipient, oldRoot, folder);
  }

  lemma HandedIsRooted(nodes: map<Id, Node>, leaving: Owner, recipient: Owner, oldRoot: Id, folder: Id)
    requires Rooted(nodes)
    ensures Rooted(Handed(nodes, leaving, recipient, oldRoot, folder))
  {
  }

  lemma HandedHolds(nodes: map<Id, Node>, leaving: Owner, recipient: Owner, oldRoot: Id, folder: Id)
    ensures var after := Handed(nodes, leaving, recipient, oldRoot, folder);
            && after.Keys == nodes.Keys
            && forall id :: id in nodes ==> after[id].blob == nodes[id].blob && (after[id].parent == Some(folder) || after[id].parent == nodes[id].parent)
  {
  }

  lemma HandedKeepsTheKeys(db: Db, leaving: Owner, recipient: Owner, oldRoot: Id, folder: Id)
    requires ForeignKeys(db) && folder in db.nodes
    ensures ForeignKeys(db.(nodes := Handed(db.nodes, leaving, recipient, oldRoot, folder)))
  {
    hide Handed;
    HandedHolds(db.nodes, leaving, recipient, oldRoot, folder);
  }

  lemma HandedKeepsTheKinds(db: Db, leaving: Owner, recipient: Owner, oldRoot: Id, folder: Id)
    requires FilesCarryBlobs(db) && VersionsAreOfFiles(db)
    ensures var after := db.(nodes := Handed(db.nodes, leaving, recipient, oldRoot, folder)); FilesCarryBlobs(after) && VersionsAreOfFiles(after)
  {
  }

  /** A row of a file changes hands with its owner; the old root holds nothing. */
  lemma HandedColumns(nodes: map<Id, Node>, versions: map<Id, Version>, leaving: Owner, recipient: Owner, oldRoot: Id, folder: Id, o: Owner)
    requires ReadyToHand(nodes, leaving, recipient, oldRoot, folder) && forall v :: v in versions ==> versions[v].node != oldRoot
    ensures var after := Handed(nodes, leaving, recipient, oldRoot, folder);
            && (forall id :: id in nodes ==>
                  LiveSizes(after, o)[id] == if o == leaving then 0 else LiveSizes(nodes, o)[id] + if o == recipient then LiveSizes(nodes, leaving)[id] else 0)
            && (forall v :: v in versions ==>
                  KeptSizes(after, versions, o)[v] ==
                  if o == leaving then 0 else KeptSizes(nodes, versions, o)[v] + if o == recipient then KeptSizes(nodes, versions, leaving)[v] else 0)
  {
    hide Shaped, Forest, NamesAreUnique;
  }

  /** What the leaving account was charged for is the recipient's now, and nothing else moved. */
  lemma HandedUsage(db: Db, leaving: Owner, recipient: Owner, oldRoot: Id, folder: Id, o: Owner)
    requires Schema(db) && ReadyToHand(db.nodes, leaving, recipient, oldRoot, folder)
    ensures var after := db.(nodes := Handed(db.nodes, leaving, recipient, oldRoot, folder));
            ExpectedUsage(after, o) == if o == leaving then 0
                                       else ExpectedUsage(db, o) + if o == recipient then ExpectedUsage(db, leaving) else 0
  {
    hide ForeignKeys, FilesCarryBlobs, VersionsAreOfFiles, Handed, LiveSizes, KeptSizes;
    var nodes := Handed(db.nodes, leaving, recipient, oldRoot, folder);
    DirectoriesHoldNothing(db, {oldRoot});
    HandedColumns(db.nodes, db.versions, leaving, recipient, oldRoot, folder, o);
    ColumnKeys(db, o);
    ColumnKeys(db, leaving);
    ColumnKeys(db.(nodes := nodes), o);
    HandedKeys(db.nodes, leaving, recipient, oldRoot, folder);
    if o == leaving {
      SumOfNothing(LiveSizes(nodes, o));
      SumOfNothing(KeptSizes(nodes, db.versions, o));
    } else if o == recipient {
      SumAdds(LiveSizes(db.nodes, o), LiveSizes(db.nodes, leaving), LiveSizes(nodes, o));
      SumAdds(KeptSizes(db.nodes, db.versions, o), KeptSizes(db.nodes, db.versions, leaving), KeptSizes(nodes, db.versions, o));
    } else {
      assert LiveSizes(nodes, o) == LiveSizes(db.nodes, o);
      assert KeptSizes(nodes, db.versions, o) == KeptSizes(db.nodes, db.versions, o);
    }
  }

  lemma HandedKeys(nodes: map<Id, Node>, leaving: Owner, recipient: Owner, oldRoot: Id, folder: Id)
    ensures Handed(nodes, leaving, recipient, oldRoot, folder).Keys == nodes.Keys
  {
  }

  lemma ColumnKeys(db: Db, o: Owner)
    ensures LiveSizes(db.nodes, o).Keys == db.nodes.Keys && KeptSizes(db.nodes, db.versions, o).Keys == db.versions.Keys
  {
  }

  lemma HandedReferences(db: Db, leaving: Owner, recipient: Owner, oldRoot: Id, folder: Id, h: Hash)
    ensures ExpectedReferences(db.(nodes := Handed(db.nodes, leaving, recipient, oldRoot, folder)), h) == ExpectedReferences(db, h)
  {
    assert NodesNaming(Handed(db.nodes, leaving, recipient, oldRoot, folder), h) == NodesNaming(db.nodes, h);
  }

  /** With the recipient charged what the leaving account was, only the leaving account's own row is off, by just that. */
  lemma HandedMoves(db: Db, after: Db, leaving: Owner, recipient: Owner, oldRoot: Id, folder: Id)
    requires Sound(db) && ReadyToHand(db.nodes, leaving, recipient, oldRoot, folder)
    requires Charge(db.quotas, recipient, Used(db, leaving)) == Ok(after.quotas)
    requires after == db.(nodes := Handed(db.nodes, leaving, recipient, oldRoot, folder), quotas := after.quotas)
    ensures OffBy(after, leaving, Used(db, leaving), multiset{}, multiset{}, {})
  {
    hide Shaped, ForeignKeys, FilesCarryBlobs, VersionsAreOfFiles, ExpectedUsage, ExpectedReferences, Idle, Handed, Charge;
    ChargeOfWeight(db, recipient, Used(db, leaving), after);
    BalancedIsIdle(db);
    var mid := db.(nodes := after.nodes);
    forall o ensures Used(after, o) == ExpectedUsage(after, o) + if o == leaving then Used(db, leaving) else 0 {
      HandedUsage(db, leaving, recipient, oldRoot, folder, o);
      SameUsage(mid, after, o);
    }
    forall h ensures ExpectedReferences(after, h) == ExpectedReferences(db, h) {
      HandedReferences(db, leaving, recipient, oldRoot, folder, h);
      SameReferences(mid, after, h);
    }
  }

  // ---------- the whole departure ----------

  /** The state a hand-over charges and moves, once the recipient has a root and an empty folder. */
  lemma FolderIsReady(db: Db, leaving: Owner, recipient: Owner, quota: int, wanted: string, next: Id, oldRoot: Id)
    requires Sound(db) && DrawnBefore(db, next) && leaving != recipient
    requires RootOf(db.nodes, leaving) == Some(oldRoot)
    requires forall id :: id in db.nodes && db.nodes[id].owner == leaving ==> db.nodes[id].Live()
    requires var (rooted, root) := EnsureRoot(db, recipient, quota, next); FreeName(rooted.nodes, root, wanted, 1).Ok?
    ensures var (rooted, root) := EnsureRoot(db, recipient, quota, next);
            var filed := rooted.(nodes := rooted.nodes[next + 1 := NewDirectory(recipient, root, FreeName(rooted.nodes, root, wanted, 1).value)]);
            && Sound(filed) && Extends(db, filed) && recipient in filed.quotas
            && ReadyToHand(filed.nodes, leaving, recipient, oldRoot, next + 1)
            && (forall id :: id in filed.nodes && id !in db.nodes ==> filed.nodes[id].owner == recipient)
  {
    hide Sound, FreeName, EnsureRoot, RootOf, ChildOf, ReadyToHand;
    var (rooted, root) := EnsureRoot(db, recipient, quota, next);
    EnsureRootHolds(db, recipient, quota, next);
    FreeNameIsFree(rooted.nodes, root, wanted);
    var name := FreeName(rooted.nodes, root, wanted, 1).value;
    DirectoryKeepsTheLedger(rooted, recipient, root, name, next + 1);
    RootIs(db.nodes, leaving);
    RootsAreLive(db);
    ParentsAreKnown(rooted);
    FolderIsEmpty(db, rooted, leaving, recipient, root, name, next, oldRoot);
  }

  lemma FolderIsEmpty(db: Db, rooted: Db, leaving: Owner, recipient: Owner, root: Id, name: string, next: Id, oldRoot: Id)
    requires leaving != recipient && Extends(db, rooted) && oldRoot in db.nodes && root in rooted.nodes
    requires db.nodes[oldRoot].owner == leaving && db.nodes[oldRoot].parent.None? && db.nodes[oldRoot].kind.Directory?
    requires forall id :: id in db.nodes && db.nodes[id].owner == leaving ==> db.nodes[id].Live()
    requires forall id :: id in rooted.nodes ==> id <= next && (id !in db.nodes ==> rooted.nodes[id].owner == recipient)
    requires forall id :: id in rooted.nodes && rooted.nodes[id].parent.Some? ==> rooted.nodes[id].parent.value in rooted.nodes
    ensures ReadyToHand(rooted.nodes[next + 1 := NewDirectory(recipient, root, name)], leaving, recipient, oldRoot, next + 1)
  {
  }

  lemma ParentsAreKnown(db: Db)
    requires Sound(db)
    ensures forall id :: id in db.nodes && db.nodes[id].parent.Some? ==> db.nodes[id].parent.value in db.nodes
  {
  }

  /** A hand-over works exactly when a name is free and the recipient has room for all the leaving account was charged. */
  lemma HandOverNeedsRoom(db: Db, leaving: Owner, recipient: Owner, quota: int, wanted: string, next: Id)
    requires RootOf(db.nodes, leaving).Some? && leaving != recipient
    ensures var (rooted, root) := EnsureRoot(db, recipient, quota, next);
            var used := Used(db, leaving);
            recipient in rooted.quotas &&
            (HandOver(db, leaving, recipient, quota, wanted, next).Ok? <==>
               FreeName(rooted.nodes, root, wanted, 1).Ok? && (used == 0 || rooted.quotas[recipient].used + used <= rooted.quotas[recipient].max))
  {
    hide FreeName, ChildOf, RootOf;
  }

  /**
    Every live node handed over is the recipient's, as it was; so is every version of what is not in the
    leaving account's trash. No other account has a row more.
   */
  ghost predicate Conserved(db: Db, after: Db, leaving: Owner, recipient: Owner, oldRoot: Id, folder: Id) {
    && (forall id :: id in db.nodes && db.nodes[id].owner == leaving && db.nodes[id].Live() && id != oldRoot ==>
          id in after.nodes
          && after.nodes[id] == db.nodes[id].(owner := recipient, parent := if db.nodes[id].parent == Some(oldRoot) then Some(folder) else db.nodes[id].parent))
    && (forall id :: id in db.nodes && db.nodes[id].owner != leaving ==> id in after.nodes && after.nodes[id] == db.nodes[id])
    && (forall id :: id in after.nodes && (id !in db.nodes || db.nodes[id].owner == leaving) ==> after.nodes[id].owner == recipient)
    && after.versions == db.versions - VersionsUnder(db.versions, TrashOf(db.nodes, leaving))
  }

  lemma HandedFromTheStart(db: Db, emptied: Db, after: Db, leaving: Owner, recipient: Owner, oldRoot: Id, folder: Id)
    requires OnlyDeleted(db, emptied, TrashOf(db.nodes, leaving)) && RowsHanded(emptied.nodes, after.nodes, leaving, recipient, oldRoot, folder)
    requires after.versions == emptied.versions && oldRoot !in after.nodes
    ensures Conserved(db, after, leaving, recipient, oldRoot, folder)
  {
  }

  /** Every node handed over is the recipient's, with what it held and where it was: in the folder, if it was in the root. */
  ghost predicate RowsHanded(nodes: map<Id, Node>, after: map<Id, Node>, leaving: Owner, recipient: Owner, oldRoot: Id, folder: Id) {
    && (forall id :: id in nodes && nodes[id].owner == leaving && id != oldRoot ==>
          id in after && after[id] == nodes[id].(owner := recipient, parent := if nodes[id].parent == Some(oldRoot) then Some(folder) else nodes[id].parent))
    && (forall id :: id in nodes && nodes[id].owner != leaving ==> id in after && after[id] == nodes[id])
    && (forall id :: id in after && id !in nodes ==> after[id].owner == recipient)
  }

  lemma HandedRowsOf(nodes: map<Id, Node>, leaving: Owner, recipient: Owner, oldRoot: Id, folder: Id)
    requires Shaped(nodes) && ReadyToHand(nodes, leaving, recipient, oldRoot, folder)
    ensures var after := Handed(nodes, leaving, recipient, oldRoot, folder);
            && RowsHanded(nodes, after, leaving, recipient, oldRoot, folder)
            && OwnedBy(after, leaving) == {oldRoot} && oldRoot in after && after[oldRoot] == nodes[oldRoot]
  {
    hide Shaped;
    OthersKeepTheirPlace(nodes, leaving, oldRoot);
  }

  lemma HandedRows(db: Db, filed: Db, leaving: Owner, recipient: Owner, oldRoot: Id, folder: Id)
    requires Sound(filed) && Extends(db, filed) && ReadyToHand(filed.nodes, leaving, recipient, oldRoot, folder)
    requires oldRoot in db.nodes && forall id :: id in filed.nodes && id !in db.nodes ==> filed.nodes[id].owner == recipient
    ensures var after := Handed(filed.nodes, leaving, recipient, oldRoot, folder);
            && RowsHanded(db.nodes, after, leaving, recipient, oldRoot, folder)
            && OwnedBy(after, leaving) == {oldRoot} && oldRoot in after && after[oldRoot] == db.nodes[oldRoot]
  {
    hide Handed, OwnedBy, ReadyToHand, Shaped, Schema, Balanced;
    HandedRowsOf(filed.nodes, leaving, recipient, oldRoot, folder);
  }

  lemma HandOverInSteps(db: Db, leaving: Owner, recipient: Owner, quota: int, wanted: string, next: Id) returns (filed: Db, root: Id)
    requires RootOf(db.nodes, leaving).Some? && HandOver(db, leaving, recipient, quota, wanted, next).Ok?
    ensures var rooted := EnsureRoot(db, recipient, quota, next);
            && root == rooted.1 && FreeName(rooted.0.nodes, root, wanted, 1).Ok?
            && filed == rooted.0.(nodes := rooted.0.nodes[next + 1 := NewDirectory(recipient, root, FreeName(rooted.0.nodes, root, wanted, 1).value)])
    ensures var after := HandOver(db, leaving, recipient, quota, wanted, next).value;
            && Charge(filed.quotas, recipient, Used(db, leaving)) == Ok(after.quotas)
            && after == filed.(nodes := Handed(filed.nodes, leaving, recipient, RootOf(db.nodes, leaving).value, next + 1), quotas := after.quotas)
  {
    hide FreeName, RootOf, EnsureRoot, Charge, Used, Handed;
    var rooted := EnsureRoot(db, recipient, quota, next);
    root := rooted.1;
    filed := rooted.0.(nodes := rooted.0.nodes[next + 1 := NewDirectory(recipient, root, FreeName(rooted.0.nodes, root, wanted, 1).value)]);
  }

  lemma HandOverMoves(db: Db, leaving: Owner, recipient: Owner, quota: int, wanted: string, next: Id)
    requires Sound(db) && DrawnBefore(db, next) && leaving != recipient
    requires RootOf(db.nodes, leaving).Some? && HandOver(db, leaving, recipient, quota, wanted, next).Ok?
    requires forall id :: id in db.nodes && db.nodes[id].owner == leaving ==> db.nodes[id].Live()
    ensures var oldRoot := RootOf(db.nodes, leaving).value;
            var after := HandOver(db, leaving, recipient, quota, wanted, next).value;
            && Shaped(after.nodes) && Schema(after) && OffBy(after, leaving, Used(db, leaving), multiset{}, multiset{}, {})
            && RowsHanded(db.nodes, after.nodes, leaving, recipient, oldRoot, next + 1)
            && oldRoot in db.nodes && oldRoot in after.nodes && OwnedBy(after.nodes, leaving) == {oldRoot} && after.nodes[oldRoot] == db.nodes[oldRoot]
            && after.versions == db.versions && after.thumbnails == db.thumbnails && after.blobs == db.blobs
            && (forall o :: Used(after, o) == Used(db, o) + if o == recipient then Used(db, leaving) else 0)
  {
    hide Shaped, ForeignKeys, FilesCarryBlobs, VersionsAreOfFiles, Balanced, OffBy, FreeName, RootOf, EnsureRoot, Charge, Used, HandOver, Handed, RowsHanded;
    var oldRoot := RootOf(db.nodes, leaving).value;
    RootIs(db.nodes, leaving);
    var filed, root := HandOverInSteps(db, leaving, recipient, quota, wanted, next);
    FolderIsReady(db, leaving, recipient, quota, wanted, next, oldRoot);
    var after := HandOver(db, leaving, recipient, quota, wanted, next).value;
    ChargeOfWeight(filed, recipient, Used(db, leaving), after);
    HandedMoves(filed, after, leaving, recipient, oldRoot, next + 1);
    HandedKeepsTheShape(filed.nodes, leaving, recipient, oldRoot, next + 1);
    HandedKeepsTheKeys(filed, leaving, recipient, oldRoot, next + 1);
    HandedKeepsTheKinds(filed, leaving, recipient, oldRoot, next + 1);
    SchemaIgnoresCharges(filed.(nodes := after.nodes), after);
    HandedRows(db, filed, leaving, recipient, oldRoot, next + 1);
  }

  lemma OthersKeepTheirPlace(nodes: map<Id, Node>, leaving: Owner, oldRoot: Id)
    requires Shaped(nodes) && oldRoot in nodes && nodes[oldRoot].owner == leaving
    ensures forall id :: id in nodes && nodes[id].owner != leaving ==> nodes[id].parent != Some(oldRoot)
  {
  }

  lemma VersionsOfDirectory(db: Db, id: Id)
    requires Schema(db) && id in db.nodes && db.nodes[id].kind.Directory?
    ensures VersionsUnder(db.versions, {id}) == {}
  {
  }

  /**
    An account that leaves what it holds to another: every live node of it is kept and every version of
    one, the two accounts' charges together are what they were, and nobody else is touched. What it had
    in the trash goes, and exactly the references that held are released.
   */
  lemma HandingOverConserves(db: Db, leaving: Owner, recipient: Owner, roots: seq<Id>, quota: int, wanted: string, next: Id)
    requires Sound(db) && DrawnBefore(db, next) && leaving != recipient
    requires RootsCover(db, leaving, roots) && RootOf(db.nodes, leaving).Some?
    requires Remove(db, leaving, roots, Account(recipient, true, true), quota, wanted, next).Ok?
    ensures var after := Remove(db, leaving, roots, Account(recipient, true, true), quota, wanted, next).value;
            && Sound(after) && OwnedBy(after.nodes, leaving) == {} && leaving !in after.quotas
            && Conserved(db, after, leaving, recipient, RootOf(db.nodes, leaving).value, next + 1)
            && ReleasesExactly(db.blobs, after.blobs, HashesHeld(db, TrashOf(db.nodes, leaving)))
            && Used(after, recipient) == Used(db, recipient) + Used(db, leaving)
            && (forall o :: o != leaving && o != recipient ==> Used(after, o) == Used(db, o))
  {
    hide Sound, Shaped, Schema, OffBy, HandOver, Erase, Empty, RootOf, RootsCover, OwnedBy, RowsHanded, Conserved, ReleasesExactly, HashesHeld, TrashOf;
    EmptyLeavesNothing(db, leaving, roots);
    var emptied := Empty(db, leaving, roots).value;
    EmptiedKeepsItsRoot(db, emptied, leaving, next);
    EmptyDropsOnly(db, leaving, roots, next);
    var oldRoot := RootOf(emptied.nodes, leaving).value;
    HandOverMoves(emptied, leaving, recipient, quota, wanted, next);
    var handed := HandOver(emptied, leaving, recipient, quota, wanted, next).value;
    var after := Erase(handed, leaving);
    RootIs(emptied.nodes, leaving);
    RootsAreLive(emptied);
    AllLive(handed.nodes, emptied.nodes, leaving, oldRoot);
    EraseKeepsTheLedger(handed, leaving, Used(emptied, leaving));
    VersionsOfDirectory(handed, oldRoot);
    ErasedRows(emptied.nodes, handed.nodes, leaving, recipient, oldRoot, next + 1);
    UsedOfOthers(db, emptied, handed, after, leaving, recipient);
    HandedFromTheStart(db, emptied, after, leaving, recipient, oldRoot, next + 1);
    RootHoldsNothing(handed, oldRoot);
    SameReleased(db.blobs, emptied.blobs, handed.blobs, after.blobs, HashesHeld(db, TrashOf(db.nodes, leaving)));
  }

  /** The folder of what was handed over: in the recipient's root, under the first of the candidates that was free there. */
  ghost predicate IsFolder(before: map<Id, Node>, after: map<Id, Node>, recipient: Owner, wanted: string, folder: Id, root: Id, k: nat) {
    && root in after && after[root].owner == recipient && after[root].parent.None? && after[root].Live()
    && folder in after && after[folder] == Node(recipient, Some(root), Candidate(wanted, k), Directory, None, 0, None)
    && IsFirstFree(before, root, wanted, 1, k)
  }

  ghost predicate FiledIn(before: map<Id, Node>, after: map<Id, Node>, recipient: Owner, wanted: string, folder: Id) {
    exists root, k :: IsFolder(before, after, recipient, wanted, folder, root, k)
  }

  /** Where what is handed over is to be found. */
  lemma HandedOverInAFolder(db: Db, leaving: Owner, recipient: Owner, roots: seq<Id>, quota: int, wanted: string, next: Id)
    requires Sound(db) && DrawnBefore(db, next) && leaving != recipient
    requires RootsCover(db, leaving, roots) && RootOf(db.nodes, leaving).Some? && Empty(db, leaving, roots).Ok?
    requires Remove(db, leaving, roots, Account(recipient, true, true), quota, wanted, next).Ok?
    ensures var rooted := EnsureRoot(Empty(db, leaving, roots).value, recipient, quota, next).0;
            var after := Remove(db, leaving, roots, Account(recipient, true, true), quota, wanted, next).value;
            FiledIn(rooted.nodes, after.nodes, recipient, wanted, next + 1)
  {
    hide Sound, Shaped, Schema, OffBy, HandOver, Erase, Empty, EnsureRoot, RootOf, RootsCover, OwnedBy, RowsHanded, ReleasesExactly, HashesHeld,
      TrashOf, FreeName, IsFirstFree, Candidate, Handed, ReadyToHand;
    EmptyLeavesNothing(db, leaving, roots);
    var emptied := Empty(db, leaving, roots).value;
    EmptiedKeepsItsRoot(db, emptied, leaving, next);
    EmptyDropsOnly(db, leaving, roots, next);
    var oldRoot := RootOf(emptied.nodes, leaving).value;
    var filed, root := HandOverInSteps(emptied, leaving, recipient, quota, wanted, next);
    EnsureRootHolds(emptied, recipient, quota, next);
    RootIs(emptied.nodes, leaving);
    RootsAreLive(emptied);
    HandOverMoves(emptied, leaving, recipient, quota, wanted, next);
    var handed := HandOver(emptied, leaving, recipient, quota, wanted, next).value;
    AllLive(handed.nodes, emptied.nodes, leaving, oldRoot);
    EraseKeepsTheLedger(handed, leaving, Used(emptied, leaving));
    var rooted := EnsureRoot(emptied, recipient, quota, next).0;
    FreeNameIsFirst(rooted.nodes, root, wanted, 1);
    var name := FreeName(rooted.nodes, root, wanted, 1).value;
    var k :| IsFirstFree(rooted.nodes, root, wanted, 1, k) && name == Candidate(wanted, k);
    FolderStays(emptied.nodes, rooted.nodes, leaving, recipient, oldRoot, next + 1, root, name);
    assert IsFolder(rooted.nodes, Erase(handed, leaving).nodes, recipient, wanted, next + 1, root, k);
  }

  lemma FolderStays(nodes: map<Id, Node>, rooted: map<Id, Node>, leaving: Owner, recipient: Owner, oldRoot: Id, folder: Id, root: Id, name: string)
    requires leaving != recipient && oldRoot in nodes && nodes[oldRoot].owner == leaving && oldRoot in rooted && rooted[oldRoot] == nodes[oldRoot]
    requires root in rooted && rooted[root].owner == recipient && rooted[root].parent.None? && rooted[root].Live() && root != folder
    ensures var handed := Handed(rooted[folder := NewDirectory(recipient, root, name)], leaving, recipient, oldRoot, folder);
            var after := handed - OwnedBy(handed, leaving);
            && folder in after && after[folder] == NewDirectory(recipient, root, name)
            && root in after && after[root] == rooted[root]
  {
  }

  lemma RootHoldsNothing(db: Db, root: Id)
    requires Schema(db) && root in db.nodes && db.nodes[root].kind.Directory?
    ensures HashesHeld(db, {root}) == []
  {
    VersionsOfDirectory(db, root);
    NodeIsInTheSchema(db, root);
    var none: set<Id> := {};
    assert Ordered(none) == [] && {root} - {root} == none;
    assert Least({root}) == root;
    assert Ordered({root}) == [root] + Ordered({root} - {root});
    assert [root][1..] == [];
    assert NodeHashes(db.nodes, [root]) == NodeHashes(db.nodes, []);
  }

  lemma SameReleased(start: map<Hash, Blob>, emptied: map<Hash, Blob>, handed: map<Hash, Blob>, after: map<Hash, Blob>, hashes: seq<Hash>)
    requires ReleasesExactly(start, emptied, hashes) && handed == emptied && ReleasesExactly(handed, after, [])
    ensures ReleasesExactly(start, after, hashes)
  {
  }

  lemma UsedOfOthers(db: Db, emptied: Db, handed: Db, after: Db, leaving: Owner, recipient: Owner)
    requires emptied.quotas == db.quotas && after.quotas == handed.quotas - {leaving} && leaving != recipient
    requires forall o :: Used(handed, o) == Used(emptied, o) + if o == recipient then Used(emptied, leaving) else 0
    ensures leaving !in after.quotas && Used(after, recipient) == Used(db, recipient) + Used(db, leaving)
    ensures forall o :: o != leaving && o != recipient ==> Used(after, o) == Used(db, o)
  {
    forall o ensures Used(emptied, o) == Used(db, o) { }
  }

  lemma AllLive(handed: map<Id, Node>, emptied: map<Id, Node>, leaving: Owner, oldRoot: Id)
    requires OwnedBy(handed, leaving) == {oldRoot} && oldRoot in emptied && oldRoot in handed && handed[oldRoot] == emptied[oldRoot] && emptied[oldRoot].Live()
    ensures forall id :: id in handed && handed[id].owner == leaving ==> handed[id].Live()
  {
    assert forall id :: id in handed && handed[id].owner == leaving ==> id in OwnedBy(handed, leaving);
  }

  lemma ErasedRows(nodes: map<Id, Node>, handed: map<Id, Node>, leaving: Owner, recipient: Owner, oldRoot: Id, folder: Id)
    requires RowsHanded(nodes, handed, leaving, recipient, oldRoot, folder) && OwnedBy(handed, leaving) == {oldRoot} && oldRoot in nodes && nodes[oldRoot].owner == leaving
    ensures RowsHanded(nodes, handed - {oldRoot}, leaving, recipient, oldRoot, folder)
    ensures OwnedBy(handed - {oldRoot}, leaving) == {}
  {
    forall id | id in handed - {oldRoot} ensures handed[id].owner != leaving {
      assert id in OwnedBy(handed, leaving) <==> handed[id].owner == leaving;
    }
  }

  lemma EmptiedKeepsItsRoot(db: Db, emptied: Db, leaving: Owner, next: Id)
    requires OnlyDeleted(db, emptied, TrashOf(db.nodes, leaving)) && Sound(db)
    ensures RootOf(emptied.nodes, leaving) == RootOf(db.nodes, leaving)
  {
    hide Sound;
    RootsAreLive(db);
    assert RootsOf(emptied.nodes, leaving) == RootsOf(db.nodes, leaving);
  }

  lemma {:induction false} EmptyDropsOnly(db: Db, owner: Owner, roots: seq<Id>, next: Id)
    requires DrawnBefore(db, next) && Empty(db, owner, roots).Ok?
    ensures DrawnBefore(Empty(db, owner, roots).value, next)
    decreases |roots|
  {
    hide Cascade, Under, Ordered, NodeHashes, HashesOf, ReleaseAll;
    if roots != [] {
      match Purge(db, owner, roots[0]) {
        case Ok(after) => EmptyDropsOnly(after, owner, roots[1..], next);
        case Err(e) => if e == NotFound { EmptyDropsOnly(db, owner, roots[1..], next); }
      }
    }
  }

  /**
    An account that leaves nothing to anybody: exactly its nodes go, in the trash or not, with their
    versions; exactly the references those held are released; and nobody else is touched.
   */
  lemma LeavingReleasesExactly(db: Db, leaving: Owner, roots: seq<Id>, quota: int, wanted: string, next: Id)
    requires Sound(db) && RootsCover(db, leaving, roots)
    ensures Remove(db, leaving, roots, Nobody, quota, wanted, next).Ok?
    ensures var after, gone := Remove(db, leaving, roots, Nobody, quota, wanted, next).value, OwnedBy(db.nodes, leaving);
            && Sound(after) && OnlyDeleted(db, after, gone) && after.quotas == db.quotas - {leaving}
            && ReleasesExactly(db.blobs, after.blobs, HashesHeld(db, gone))
  {
    hide Shaped, Schema, OffBy, Balanced, Erase, Empty, RootsCover, HashesHeld, ReleasesExactly;
    EmptyLeavesNothing(db, leaving, roots);
    var emptied := Empty(db, leaving, roots).value;
    BalancedIsOffByNothing(emptied, leaving);
    EraseKeepsTheLedger(emptied, leaving, 0);
    var after := Erase(emptied, leaving);
    EraseKeepsTheRest(emptied, leaving);
    DeletedTwice(db, emptied, after, TrashOf(db.nodes, leaving), OwnedBy(emptied.nodes, leaving));
    assert TrashOf(db.nodes, leaving) + OwnedBy(emptied.nodes, leaving) == OwnedBy(db.nodes, leaving);
    DeletionReleases(db, after, OwnedBy(db.nodes, leaving));
  }

  lemma EraseKeepsTheRest(db: Db, owner: Owner)
    ensures var after := Erase(db, owner); after.thumbnails == db.thumbnails && after.now == db.now && after.blobs.Keys == db.blobs.Keys
  {
    ReleasingKeepsKeys(db.blobs, HashesHeld(db, OwnedBy(db.nodes, owner)), db.now);
  }

  lemma {:induction false} ReleasingKeepsKeys(blobs: map<Hash, Blob>, hashes: seq<Hash>, now: int)
    ensures ReleaseAll(blobs, hashes, now).Keys == blobs.Keys
  {
    if hashes != [] {
      ReleasingKeepsKeys(Release(blobs, hashes[0], now), hashes[1..], now);
      ReleaseKeepsKeys(blobs, hashes[0], now);
    }
  }
}
