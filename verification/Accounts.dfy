/** Whose rows a transaction touches: nobody's but those of the accounts it is for. */
module Accounts {
  import opened Results
  import opened Sums
  import opened Tables
  import opened Trees
  import opened Ledger
  import opened Histories
  import opened Files
  import opened Overwrites
  import opened Trash
  import opened Purging
  import opened Moving
  import opened Copying
  import opened Transfer
  import opened Departure
  import opened Upkeep
  import opened Runs
  import opened Idleness

  /** The account whose file the version is of. */
  predicate HoldsVersion(db: Db, o: Owner, v: Id) {
    v in db.versions && db.versions[v].node in db.nodes && db.nodes[db.versions[v].node].owner == o
  }

  /** The account has the nodes it had, as they were, and the versions. */
  ghost predicate SameRows(db: Db, after: Db, o: Owner) {
    && (forall id :: id in db.nodes && db.nodes[id].owner == o ==> id in after.nodes && after.nodes[id] == db.nodes[id])
    && (forall id :: id in after.nodes && after.nodes[id].owner == o ==> id in db.nodes && db.nodes[id] == after.nodes[id])
    && (forall v :: HoldsVersion(db, o, v) ==> v in after.versions && after.versions[v] == db.versions[v])
    && (forall v :: HoldsVersion(after, o, v) ==> v in db.versions && db.versions[v] == after.versions[v])
  }

  ghost predicate SameQuota(db: Db, after: Db, o: Owner) {
    (o in db.quotas <==> o in after.quotas) && (o in db.quotas ==> after.quotas[o] == db.quotas[o])
  }

  /** Everything an account can see of the tables is as it was. */
  ghost predicate Untouched(db: Db, after: Db, o: Owner) { SameRows(db, after, o) && SameQuota(db, after, o) }

  lemma SameRowsTwice(a: Db, b: Db, c: Db, o: Owner)
    requires SameRows(a, b, o) && SameRows(b, c, o)
    ensures SameRows(a, c, o)
  {
    forall v | HoldsVersion(a, o, v) ensures v in c.versions && c.versions[v] == a.versions[v] { assert HoldsVersion(b, o, v); }
    forall v | HoldsVersion(c, o, v) ensures v in a.versions && a.versions[v] == c.versions[v] { assert HoldsVersion(b, o, v); }
  }

  // ---------- the charge is decided by the rows ----------

  lemma SameFilesWeighTheSame(db: Db, after: Db, o: Owner)
    requires SameRows(db, after, o)
    ensures Sum(LiveSizes(after.nodes, o)) == Sum(LiveSizes(db.nodes, o))
  {
    hide HoldsVersion;
    var own := set id | id in db.nodes && db.nodes[id].owner == o;
    SumAlike(LiveSizes(after.nodes, o), LiveSizes(db.nodes, o), own);
  }

  lemma SameHolders(db: Db, after: Db, o: Owner)
    requires SameRows(db, after, o)
    ensures forall v :: HoldsVersion(db, o, v) <==> HoldsVersion(after, o, v)
    ensures forall v :: HoldsVersion(db, o, v) ==> after.versions[v] == db.versions[v] && after.nodes[db.versions[v].node] == db.nodes[db.versions[v].node]
  {
  }

  lemma KeptSizesOf(db: Db, o: Owner)
    ensures forall v :: v in db.versions ==>
              KeptSizes(db.nodes, db.versions, o)[v] == if HoldsVersion(db, o, v) && db.nodes[db.versions[v].node].Live() then db.versions[v].size else 0
  {
  }

  lemma SameVersionsWeighTheSame(db: Db, after: Db, o: Owner)
    requires SameRows(db, after, o)
    ensures Sum(KeptSizes(after.nodes, after.versions, o)) == Sum(KeptSizes(db.nodes, db.versions, o))
  {
    SameHolders(db, after, o);
    KeptSizesOf(db, o);
    KeptSizesOf(after, o);
    hide SameRows;
    var kept := set v | v in db.versions && HoldsVersion(db, o, v);
    var held, heldAfter := KeptSizes(db.nodes, db.versions, o), KeptSizes(after.nodes, after.versions, o);
    assert held.Keys == db.versions.Keys && heldAfter.Keys == after.versions.Keys;
    hide KeptSizes;
    SumAlike(heldAfter, held, kept);
  }

  lemma SameRowsWeighTheSame(db: Db, after: Db, o: Owner)
    requires SameRows(db, after, o)
    ensures ExpectedUsage(after, o) == ExpectedUsage(db, o)
  {
    hide SameRows;
    SameFilesWeighTheSame(db, after, o);
    SameVersionsWeighTheSame(db, after, o);
  }

  /** Between two sound states, an account with the same rows and the same maximum has the same quota row. */
  lemma SameRowsSameQuota(db: Db, after: Db, o: Owner)
    requires Sound(db) && Sound(after) && SameRows(db, after, o)
    requires o in db.quotas <==> o in after.quotas
    requires o in db.quotas ==> after.quotas[o].max == db.quotas[o].max
    ensures Untouched(db, after, o)
  {
    hide Shaped, Schema, SameRows, ExpectedUsage;
    SameRowsWeighTheSame(db, after, o);
    assert Used(db, o) == ExpectedUsage(db, o) && Used(after, o) == ExpectedUsage(after, o);
  }

  // ---------- what each kind of transaction changes ----------

  /** Some rows of one account changed, and are still the account's. */
  lemma RowsChanged(db: Db, after: Db, owner: Owner, o: Owner)
    requires o != owner && after.versions == db.versions && after.nodes.Keys == db.nodes.Keys
    requires forall x :: x in db.nodes ==> after.nodes[x] == db.nodes[x] || (db.nodes[x].owner == owner && after.nodes[x].owner == owner)
    ensures SameRows(db, after, o)
  {
  }

  /** Rows only added, all of one account. */
  lemma RowsAdded(db: Db, after: Db, owner: Owner, o: Owner)
    requires o != owner && after.versions == db.versions && ForeignKeys(db)
    requires forall x :: x in db.nodes ==> x in after.nodes && after.nodes[x] == db.nodes[x]
    requires forall x :: x in after.nodes && x !in db.nodes ==> after.nodes[x].owner == owner
    ensures SameRows(db, after, o)
  {
  }

  /** Rows only deleted, all of one account. */
  lemma RowsDeleted(db: Db, after: Db, owner: Owner, gone: set<Id>, o: Owner)
    requires o != owner && after.nodes == db.nodes - gone && after.versions == db.versions - VersionsUnder(db.versions, gone)
    requires forall x :: x in gone && x in db.nodes ==> db.nodes[x].owner == owner
    ensures SameRows(db, after, o)
  {
  }

  lemma RewritingSpares(db: Db, after: Db, owner: Owner, id: Id, hash: Hash, size: nat, version: Id, o: Owner)
    requires o != owner && OwnFile(db, owner, id) && Rewritten(db, after, id, hash, size, version) && forall v :: v in db.versions ==> v < version
    ensures SameRows(db, after, o)
  {
  }

  lemma WritingSpares(db: Db, after: Db, owner: Owner, parent: Id, name: string, hash: Hash, size: nat, node: Id, version: Id, o: Owner)
    requires o != owner && ForeignKeys(db) && Drawn(db, node, version) && FileIsWritten(db, after, owner, parent, name, hash, size, node, version)
    ensures SameRows(db, after, o) && (o in db.quotas <==> o in after.quotas)
  {
    hide ChildOf, SameRows, ForeignKeys;
    if ChildOf(db.nodes, parent, name).None? {
      RowsAdded(db, after, owner, o);
    } else {
      var admitted := Admit(db, hash, size);
      RewritingSpares(admitted, after, owner, ChildOf(db.nodes, parent, name).value, hash, size, version, o);
      AdmittedIsUntouched(db, admitted, o);
      SameRowsTwice(db, admitted, after, o);
    }
  }

  lemma AdmittedIsUntouched(db: Db, after: Db, o: Owner)
    requires after.nodes == db.nodes && after.versions == db.versions
    ensures SameRows(db, after, o)
  {
  }

  lemma PuttingBackSpares(db: Db, after: Db, owner: Owner, parent: Id, name: string, taken: Id, version: Id, o: Owner)
    requires o != owner && PutBackLeaves(db, after, owner, parent, name, taken, version) && forall v :: v in db.versions ==> v < version
    ensures SameRows(db, after, o) && (o in db.quotas <==> o in after.quotas)
  {
    hide ChildOf;
  }

  lemma SendSpares(db: Db, id: Id, o: Owner)
    requires Sound(db) && id in db.nodes && db.nodes[id].parent.Some? && Send(db, id).Ok? && o != db.nodes[id].owner
    ensures SameRows(db, Send(db, id).value, o) && (o in db.quotas <==> o in Send(db, id).value.quotas)
  {
    hide Sound, Send, Under, Weight, SameRows;
    SendKeepsTheLedger(db, id);
    OwnedAlike(db, LiveIds(db.nodes), id);
    RowsChanged(db, Send(db, id).value, db.nodes[id].owner, o);
  }

  lemma OwnedAlike(db: Db, within: set<Id>, id: Id)
    requires Sound(db) && id in db.nodes
    ensures forall x :: x in Under(db.nodes, within, id) && x in db.nodes ==> db.nodes[x].owner == db.nodes[id].owner
  {
    hide Schema, Balanced, LiveAbove, NamesAreUnique, Batched, Rooted;
    var rank := SomeRank(db.nodes);
    forall x | x in Under(db.nodes, within, id) && x in db.nodes ensures db.nodes[x].owner == db.nodes[id].owner {
      OneOwnerUnder(db.nodes, within, id, x, rank);
    }
  }

  lemma RenameSpares(db: Db, id: Id, parent: Id, name: string, o: Owner)
    requires id in db.nodes && parent in db.nodes && Rename(db, id, parent, name).Ok? && o != db.nodes[id].owner
    ensures SameRows(db, Rename(db, id, parent, name).value, o)
  {
    RenameIs(db, id, parent, name);
    hide Rename;
    RowsChanged(db, Rename(db, id, parent, name).value, db.nodes[id].owner, o);
  }

  lemma ClearSpares(db: Db, source: Id, parent: Id, name: string, overwrite: bool, o: Owner)
    requires Sound(db) && MayTransfer(db, source, parent) && o != db.nodes[parent].owner
    requires Shaped(db.nodes) && Clear(db, source, parent, name, overwrite).Ok?
    ensures var cleared := Clear(db, source, parent, name, overwrite).value; SameRows(db, cleared, o) && (o in db.quotas <==> o in cleared.quotas)
  {
    hide Sound, Shaped, Send, Contains, ChildOf, SameRows;
    ChildIsFound(db.nodes, parent, name);
    if ChildOf(db.nodes, parent, name).Some? {
      ChildHasTheOwner(db, ChildOf(db.nodes, parent, name).value, parent);
      SendSpares(db, ChildOf(db.nodes, parent, name).value, o);
    } else {
      SameRowsAtFirst(db, o);
    }
  }

  lemma SameRowsAtFirst(db: Db, o: Owner)
    ensures SameRows(db, db, o)
  {
  }

  lemma ChildHasTheOwner(db: Db, id: Id, parent: Id)
    requires Sound(db) && id in db.nodes && db.nodes[id].parent == Some(parent)
    ensures parent in db.nodes && db.nodes[id].owner == db.nodes[parent].owner
  {
    hide Schema, Balanced, LiveAbove, NamesAreUnique, Batched, Rooted, Forest;
  }

  lemma MoveSpares(db: Db, source: Id, parent: Id, name: string, overwrite: bool, o: Owner)
    requires Sound(db) && Shaped(db.nodes) && MayTransfer(db, source, parent) && Move(db, source, parent, name, overwrite).Ok? && o != db.nodes[parent].owner
    ensures var after := Move(db, source, parent, name, overwrite).value; SameRows(db, after, o) && (o in db.quotas <==> o in after.quotas)
  {
    hide Sound, Shaped, Clear, SameRows, Rename;
    ClearSpares(db, source, parent, name, overwrite, o);
    ClearKeepsPlaces(db, source, parent, name, overwrite);
    var cleared := Clear(db, source, parent, name, overwrite).value;
    RenameSpares(cleared, source, parent, name, o);
    RenameKeepsQuotas(cleared, source, parent, name);
    SameRowsTwice(db, cleared, Move(db, source, parent, name, overwrite).value, o);
  }

  lemma RenameKeepsQuotas(db: Db, id: Id, parent: Id, name: string)
    requires id in db.nodes && parent in db.nodes && Rename(db, id, parent, name).Ok?
    ensures Rename(db, id, parent, name).value.quotas == db.quotas
  {
    hide Contains, ChildOf;
  }

  lemma CopySpares(db: Db, after: Db, owner: Owner, source: Id, parent: Id, name: string, jobs: seq<Job>, o: Owner)
    requires Sound(db) && MayCopyTo(db, owner, source, parent, name) && IsCopy(db, after, owner, source, parent, name, jobs) && o != owner
    ensures SameRows(db, after, o) && (o in db.quotas <==> o in after.quotas)
  {
    hide Sound, JobsFollow, MayCopyTo, Charge, CopyJobs, Copied, Grown, SameRows, ForeignKeys, Shaped, Schema, OffBy;
    JobsKeepTheLedger(db, owner, source, parent, name, jobs);
    JobsAreKnown(db, source, parent, name, jobs);
    CopiesAreTheOwners(db, CopyJobs(db, owner, jobs), owner, jobs);
    SoundForeignKeys(db);
    RowsAdded(db, after, owner, o);
    ChargeMoves(db.quotas, owner, JobsSize(db.nodes, jobs));
  }

  lemma CopiesAreTheOwners(db: Db, cur: Db, owner: Owner, jobs: seq<Job>)
    requires Known(db.nodes, jobs) && Grown(db, cur, owner, jobs)
    ensures forall x :: x in cur.nodes && x !in db.nodes ==> cur.nodes[x].owner == owner
    ensures forall x :: x in db.nodes ==> x in cur.nodes && cur.nodes[x] == db.nodes[x]
    ensures cur.versions == db.versions && cur.quotas == db.quotas
  {
  }

  // ---------- restoring ----------

  lemma RerootSpares(nodes: map<Id, Node>, batch: Id, o: Owner)
    requires forall id :: id in nodes && nodes[id].owner == o ==> nodes[id].trash != Some(batch)
    ensures var after := Reroot(nodes, batch);
            && after.Keys == nodes.Keys
            && (forall id :: id in nodes && nodes[id].owner == o ==> after[id] == nodes[id])
            && (forall id :: id in nodes ==> after[id].owner == nodes[id].owner)
  {
    hide StrandOf;
    forall id | id in nodes && nodes[id].owner == o ensures StrandOf(nodes, batch, id).None? {
      if StrandOf(nodes, batch, id).Some? { OnlyRowsOfTheBatch(nodes, batch, id); }
    }
  }

  lemma {:induction false} RerootAllSpares(nodes: map<Id, Node>, batches: seq<Id>, o: Owner)
    requires forall id, b :: id in nodes && nodes[id].owner == o && b in batches ==> nodes[id].trash != Some(b)
    ensures var after := RerootAll(nodes, batches);
            && after.Keys == nodes.Keys
            && (forall id :: id in nodes && nodes[id].owner == o ==> after[id] == nodes[id])
            && (forall id :: id in nodes ==> after[id].owner == nodes[id].owner)
    decreases |batches|
  {
    hide Reroot;
    if batches != [] {
      assert batches[0] in batches;
      RerootSpares(nodes, batches[0], o);
      RerootAllSpares(Reroot(nodes, batches[0]), batches[1..], o);
    }
  }

  /** The batches a restore opens are the owner's. */
  lemma OpenedAreTheOwners(db: Db, owner: Owner, id: Id, o: Owner)
    requires Sound(db) && IsRoot(db, owner, id) && o != owner
    ensures forall x, b :: x in db.nodes && db.nodes[x].owner == o && b in Opened(db.nodes, TrashedAbove(db.nodes, db.nodes[id].parent, {})) ==> db.nodes[x].trash != Some(b)
  {
    hide Schema, Balanced, LiveAbove, NamesAreUnique, Rooted, TrashedAbove, Opened, Batched, Forest;
    var above := TrashedAbove(db.nodes, db.nodes[id].parent, {});
    var rank := SomeRank(db.nodes);
    RestoredAbove(db, owner, id);
    OpenedHolds(db.nodes, above);
    RootsOfTheOpened(db.nodes, id);
    forall x, b | x in db.nodes && db.nodes[x].owner == o && b in Opened(db.nodes, above) ensures db.nodes[x].trash != Some(b) {
      if db.nodes[x].trash == Some(b) { BatchHasOneOwner(db.nodes, x, rank); }
    }
  }

  lemma RestoredAbove(db: Db, owner: Owner, id: Id)
    requires Sound(db) && IsRoot(db, owner, id)
    ensures forall x :: x in TrashedAbove(db.nodes, db.nodes[id].parent, {}) ==> x in db.nodes && db.nodes[x].owner == owner
  {
    hide Balanced, Forest, NamesAreUnique, LiveAbove, Batched;
    AboveAreDirectories(db.nodes, owner, db.nodes[id].parent, {});
  }

  lemma RaiseSpares(nodes: map<Id, Node>, id: Id, owner: Owner, o: Owner)
    requires id in nodes && o != owner && forall x :: x in Revived(nodes, id) ==> x in nodes && nodes[x].owner == owner
    ensures var raised := Raise(nodes, id);
            && raised.Keys == nodes.Keys && (forall x :: x in nodes ==> raised[x].owner == nodes[x].owner)
            && (forall x :: x in nodes && nodes[x].owner == o ==> raised[x] == nodes[x])
  {
    hide Raise, Revived;
    RaiseIsRevive(nodes, id);
  }

  lemma RestoredRows(db: Db, owner: Owner, id: Id, o: Owner)
    requires Sound(db) && Restore(db, owner, id).Ok? && o != owner
    ensures var after := Restore(db, owner, id).value;
            && after.nodes.Keys == db.nodes.Keys && (forall x :: x in db.nodes ==> after.nodes[x].owner == db.nodes[x].owner)
            && (forall x :: x in db.nodes && db.nodes[x].owner == o ==> after.nodes[x] == db.nodes[x])
  {
    hide Sound, Restore, TrashedAbove, Opened, Revived, RerootAll, Raise, Weight, Charge, NamesAreUnique, MarkedSizes, BatchOf, Revive;
    RestoreInSteps(db, owner, id);
    RestoredHold(db, owner, id);
    OpenedAreTheOwners(db, owner, id, o);
    RaiseSpares(db.nodes, id, owner, o);
    RerootAllSpares(Raise(db.nodes, id), Opened(db.nodes, TrashedAbove(db.nodes, db.nodes[id].parent, {})), o);
  }

  lemma RestoreSpares(db: Db, owner: Owner, id: Id, o: Owner)
    requires Sound(db) && Restore(db, owner, id).Ok? && o != owner
    ensures var after := Restore(db, owner, id).value; SameRows(db, after, o) && (o in db.quotas <==> o in after.quotas)
  {
    hide Sound, Restore, Revived, Weight, Differ;
    RestoreKeepsTheLedger(db, owner, id);
    RestoredRows(db, owner, id, o);
  }

  // ---------- deleting for good, and leaving ----------

  lemma PurgeSpares(db: Db, owner: Owner, id: Id, o: Owner)
    requires Sound(db) && Purge(db, owner, id).Ok? && o != owner
    ensures var after := Purge(db, owner, id).value; SameRows(db, after, o) && after.quotas == db.quotas
  {
    PurgeKeepsTheLedger(db, owner, id);
    PurgedIsRoot(db, owner, id);
    OwnedAlike(db, db.nodes.Keys, id);
    hide Sound, Purge, Under, ReleasesExactly;
    RowsDeleted(db, Purge(db, owner, id).value, owner, Under(db.nodes, db.nodes.Keys, id), o);
  }

  lemma PurgedIsRoot(db: Db, owner: Owner, id: Id)
    requires Purge(db, owner, id).Ok?
    ensures IsRoot(db, owner, id)
  {
  }

  lemma EmptySpares(db: Db, owner: Owner, roots: seq<Id>, o: Owner)
    requires Sound(db) && RootsCover(db, owner, roots) && o != owner
    ensures Empty(db, owner, roots).Ok?
    ensures var after := Empty(db, owner, roots).value; SameRows(db, after, o) && after.quotas == db.quotas
  {
    EmptyLeavesNothing(db, owner, roots);
    hide Sound, Empty, ReleasesExactly;
    RowsDeleted(db, Empty(db, owner, roots).value, owner, TrashOf(db.nodes, owner), o);
  }

  /** What a hand-over does to the quota rows: one is added if missing, and charged. */
  lemma HandOverQuotas(db: Db, leaving: Owner, recipient: Owner, quota: int, wanted: string, next: Id, o: Owner)
    requires HandOver(db, leaving, recipient, quota, wanted, next).Ok? && o != recipient
    ensures var after := HandOver(db, leaving, recipient, quota, wanted, next).value; o in db.quotas <==> o in after.quotas
  {
    hide RootOf, Handed, FreeName, Charge;
    if RootOf(db.nodes, leaving).Some? { ChargeMoves(EnsureRoot(db, recipient, quota, next).0.quotas, recipient, Used(db, leaving)); }
  }

  lemma RemoveQuotas(db: Db, leaving: Owner, roots: seq<Id>, recipient: Recipient, quota: int, wanted: string, next: Id, o: Owner)
    requires Sound(db) && RootsCover(db, leaving, roots) && Remove(db, leaving, roots, recipient, quota, wanted, next).Ok?
    requires o != leaving && (recipient != Nobody ==> o != recipient.owner)
    ensures o in db.quotas <==> o in Remove(db, leaving, roots, recipient, quota, wanted, next).value.quotas
  {
    EmptySpares(db, leaving, roots, o);
    hide Sound, Empty, HandOver, Erase, SameRows;
    var emptied := Empty(db, leaving, roots).value;
    if recipient != Nobody { HandOverQuotas(emptied, leaving, recipient.owner, quota, wanted, next, o); }
    EraseKept(if recipient == Nobody then emptied else HandOver(emptied, leaving, recipient.owner, quota, wanted, next).value, leaving);
  }

  lemma RemoveSpares(db: Db, leaving: Owner, roots: seq<Id>, recipient: Recipient, quota: int, wanted: string, next: Id, o: Owner)
    requires Sound(db) && DrawnBefore(db, next) && RootsCover(db, leaving, roots) && recipient != Account(leaving, true, true)
    requires Remove(db, leaving, roots, recipient, quota, wanted, next).Ok?
    requires o != leaving && (recipient != Nobody ==> o != recipient.owner)
    ensures SameRows(db, Remove(db, leaving, roots, recipient, quota, wanted, next).value, o)
  {
    hide Sound, Empty, HandOver, Erase, RootsCover, RootOf, HashesHeld, ReleasesExactly, SameRows, Remove;
    var after := Remove(db, leaving, roots, recipient, quota, wanted, next).value;
    if recipient == Nobody {
      LeavingReleasesExactly(db, leaving, roots, quota, wanted, next);
      RowsDeleted(db, after, leaving, OwnedBy(db.nodes, leaving), o);
    } else {
      RecipientIsAble(db, leaving, roots, recipient, quota, wanted, next);
      if RootOf(db.nodes, leaving).Some? {
        HandingOverConserves(db, leaving, recipient.owner, roots, quota, wanted, next);
        SoundForeignKeys(db);
        HandedSpares(db, after, leaving, recipient.owner, RootOf(db.nodes, leaving).value, next + 1, o);
      } else {
        RootlessSpares(db, leaving, roots, recipient.owner, quota, wanted, next, o);
      }
    }
  }

  lemma SoundForeignKeys(db: Db)
    requires Sound(db)
    ensures ForeignKeys(db)
  {
  }

  lemma RecipientIsAble(db: Db, leaving: Owner, roots: seq<Id>, recipient: Recipient, quota: int, wanted: string, next: Id)
    requires recipient != Nobody && Remove(db, leaving, roots, recipient, quota, wanted, next).Ok?
    ensures recipient == Account(recipient.owner, true, true)
  {
    hide Empty, HandOver, Erase;
  }

  lemma HandedSpares(db: Db, after: Db, leaving: Owner, recipient: Owner, oldRoot: Id, folder: Id, o: Owner)
    requires o != leaving && o != recipient && ForeignKeys(db)
    requires Conserved(db, after, leaving, recipient, oldRoot, folder)
    ensures SameRows(db, after, o)
  {
  }

  lemma RootlessSpares(db: Db, leaving: Owner, roots: seq<Id>, recipient: Owner, quota: int, wanted: string, next: Id, o: Owner)
    requires Sound(db) && RootOf(db.nodes, leaving).None? && RootsCover(db, leaving, roots) && o != leaving
    requires Remove(db, leaving, roots, Account(recipient, true, true), quota, wanted, next).Ok?
    ensures SameRows(db, Remove(db, leaving, roots, Account(recipient, true, true), quota, wanted, next).value, o)
  {
    hide Sound, Empty, HandOver, Erase, RootOf, RootsCover, HashesHeld, ReleasesExactly, SameRows, OwnedBy, VersionsUnder, OffBy, Balanced;
    EmptySpares(db, leaving, roots, o);
    RootlessKeepsTheLedger(db, leaving, roots, recipient, quota, wanted, next);
    EmptyLeavesNothing(db, leaving, roots);
    var emptied := Empty(db, leaving, roots).value;
    RootlessErase(db, emptied, leaving);
    ErasingSpares(emptied, Erase(emptied, leaving), leaving, o);
    SameRowsTwice(db, emptied, Erase(emptied, leaving), o);
  }

  lemma RootlessErase(db: Db, emptied: Db, leaving: Owner)
    requires Sound(emptied) && forall x :: x in emptied.nodes ==> x in db.nodes && emptied.nodes[x] == db.nodes[x]
    requires forall x :: x in emptied.nodes && db.nodes[x].owner == leaving ==> db.nodes[x].Live()
    ensures Erase(emptied, leaving).nodes == emptied.nodes - OwnedBy(emptied.nodes, leaving)
    ensures Erase(emptied, leaving).versions == emptied.versions - VersionsUnder(emptied.versions, OwnedBy(emptied.nodes, leaving))
  {
    hide Erase, OwnedBy, VersionsUnder, HashesHeld, ReleasesExactly, Shaped, Schema;
    BalancedIsOffByNothing(emptied, leaving);
    EraseKeepsTheLedger(emptied, leaving, 0);
  }

  lemma ErasingSpares(db: Db, after: Db, owner: Owner, o: Owner)
    requires o != owner && after.nodes == db.nodes - OwnedBy(db.nodes, owner) && after.versions == db.versions - VersionsUnder(db.versions, OwnedBy(db.nodes, owner))
    ensures SameRows(db, after, o)
  {
    RowsDeleted(db, after, owner, OwnedBy(db.nodes, owner), o);
  }

  // ---------- one step, and every run ----------

  /** The accounts a transaction is for. */
  ghost function Served(db: Db, event: Event): set<Owner> {
    match event
    case Put(owner, _, _, _, _, _) => {owner}
    case MakeDirectories(owner, _, _) => {owner}
    case MoveTo(id, _, _) => if id in db.nodes then {db.nodes[id].owner} else {}
    case CopyTo(owner, _, _, _, _) => {owner}
    case DavMove(_, parent, _, _) => if parent in db.nodes then {db.nodes[parent].owner} else {}
    case DavCopy(_, parent, _, _, _) => if parent in db.nodes then {db.nodes[parent].owner} else {}
    case Trashing(id) => if id in db.nodes then {db.nodes[id].owner} else {}
    case Restoring(owner, _) => {owner}
    case Purging(owner, _) => {owner}
    case Emptying(owner, _) => {owner}
    case PutBack(owner, _, _, _, _) => {owner}
    case OpeningAccount(owner, _) => {owner}
    case SettingQuota(owner, _) => {owner}
    case Leaving(leaving, _, recipient, _, _) => if recipient == Nobody then {leaving} else {leaving, recipient.owner}
    case _ => {}
  }

  /** Whatever is written, moved, copied, trashed, deleted, repaired or swept, no account but those served has a row changed. */
  lemma StepSparesRows(s: State, event: Event, t: State, o: Owner)
    requires Sound(s.db) && DrawnBefore(s.db, s.next) && Step(s, event, t) && o !in Served(s.db, event)
    ensures SameRows(s.db, t.db, o) && (o in s.db.quotas <==> o in t.db.quotas)
  {
    hide Sound, Shaped, Schema, Balanced, PutFile, CreateDirectories, Rename, IsCopy, Move, Clear, Send, Restore, Purge, Empty, RestoreVersion,
      RegisterBlob, Remember, Forget, SweepRow, Repaired, EnsureRoot, Remove, Contains, Writable, MayCopyTo, MayTransfer, RootsCover,
      AreTheOrphans, DrawnBefore, Drawn, ChildOf, SameRows, SetQuota, ForeignKeys, FileIsWritten, PutBackLeaves, OnTheWay, Untouched;
    var db, next := s.db, s.next;
    SoundIsMadeOf(db);
    SoundForeignKeys(db);
    match event {
      case Put(owner, parent, name, hash, size, kept) =>
        NextIsDrawn(db, next);
        PutFileKeepsTheLedger(db, owner, parent, name, hash, size, kept, next, next);
        WritingSpares(db, t.db, owner, parent, name, hash, size, next, next, o);
      case MakeDirectories(owner, parent, segments) =>
        CreateDirectoriesHolds(db, owner, parent, segments, next);
        OnlyThePathIsMade(db, owner, parent, segments, next);
        RowsAdded(db, t.db, owner, o);
      case MoveTo(id, parent, name) =>
        ParentIsThere(db, db.nodes[id].owner, parent);
        RenameSpares(db, id, parent, name, o);
        RenameKeepsQuotas(db, id, parent, name);
      case CopyTo(owner, source, parent, name, jobs) => CopySpares(db, t.db, owner, source, parent, name, jobs, o);
      case DavMove(source, parent, name, overwrite) =>
        TransferRows(db, source, parent);
        MoveSpares(db, source, parent, name, overwrite, o);
      case DavCopy(source, parent, name, overwrite, jobs) =>
        TransferRows(db, source, parent);
        DavCopySpares(db, t.db, source, parent, name, overwrite, jobs, o);
      case Trashing(id) => SendSpares(db, id, o);
      case Restoring(owner, id) => RestoreSpares(db, owner, id, o);
      case Purging(owner, id) => PurgeSpares(db, owner, id, o);
      case Emptying(owner, roots) => EmptySpares(db, owner, roots, o);
      case PutBack(owner, parent, name, taken, kept) =>
        NextIsDrawn(db, next);
        DrawnIsYounger(db, next);
        RestoreVersionKeepsTheLedger(db, owner, parent, name, taken, kept, next, next);
        PuttingBackSpares(db, t.db, owner, parent, name, taken, next, o);
      case OpeningAccount(owner, quota) =>
        EnsureRootHolds(db, owner, quota, next);
        RowsAdded(db, t.db, owner, o);
        EnsureRootQuotas(db, owner, quota, next, o);
      case Leaving(leaving, roots, recipient, quota, wanted) =>
        RemoveSpares(db, leaving, roots, recipient, quota, wanted, next, o);
        RemoveQuotas(db, leaving, roots, recipient, quota, wanted, next, o);
      case _ => BlobsOnly(s, event, t, o);
    }
  }

  lemma DrawnIsYounger(db: Db, next: Id)
    requires DrawnBefore(db, next)
    ensures forall v :: v in db.versions ==> v < next
  {
  }

  lemma EnsureRootQuotas(db: Db, owner: Owner, quota: int, next: Id, o: Owner)
    requires o != owner
    ensures o in db.quotas <==> o in EnsureRoot(db, owner, quota, next).0.quotas
  {
    hide RootOf;
  }

  lemma DavCopySpares(db: Db, after: Db, source: Id, parent: Id, name: string, overwrite: bool, jobs: seq<Job>, o: Owner)
    requires Sound(db) && Shaped(db.nodes) && MayTransfer(db, source, parent) && o != db.nodes[parent].owner
    requires Clear(db, source, parent, name, overwrite).Ok? && !Contains(db.nodes, source, parent)
    requires IsCopy(Clear(db, source, parent, name, overwrite).value, after, db.nodes[parent].owner, source, parent, name, jobs)
    ensures SameRows(db, after, o) && (o in db.quotas <==> o in after.quotas)
  {
    hide Sound, Shaped, Clear, IsCopy, Contains, Writable, ChildOf, SameRows, Copied, Leads, MayCopyTo;
    ClearSpares(db, source, parent, name, overwrite, o);
    ClearHolds(db, source, parent, name, overwrite);
    var cleared := Clear(db, source, parent, name, overwrite).value;
    ClearedMayBeCopiedTo(db, cleared, source, parent, name, overwrite);
    CopySpares(cleared, after, db.nodes[parent].owner, source, parent, name, jobs, o);
    SameRowsTwice(db, cleared, after, o);
  }

  lemma ClearedMayBeCopiedTo(db: Db, cleared: Db, source: Id, parent: Id, name: string, overwrite: bool)
    requires Shaped(db.nodes) && MayTransfer(db, source, parent) && Clear(db, source, parent, name, overwrite) == Ok(cleared)
    requires WayIsClear(db, cleared, source, parent, name) && !Contains(db.nodes, source, parent)
    ensures MayCopyTo(cleared, db.nodes[parent].owner, source, parent, name)
  {
    hide Shaped, Leads, Clear, ChildOf, Writable, Copied;
    ClearKeepsPlaces(db, source, parent, name, overwrite);
    TrashIsNoMatter(db.nodes, cleared.nodes, parent, source, {});
  }

  /** Registering, remembering, forgetting, sweeping, repairing and waiting have no account's rows to change. */
  lemma BlobsOnly(s: State, event: Event, t: State, o: Owner)
    requires Sound(s.db) && Step(s, event, t) && o !in Served(s.db, event)
    requires event.Registering? || event.Remembering? || event.Forgetting? || event.Sweeping? || event.Repairing? || event.Waiting? || event.SettingQuota?
    ensures SameRows(s.db, t.db, o) && (o in s.db.quotas <==> o in t.db.quotas)
  {
    hide Shaped, Schema, CountsMatch, UsageMatches, ReleaseAll, Without, ThumbnailHashes, AreTheOrphans, DrawnBefore, Acquire, Repaired, SameRows;
    if event.Repairing? { RepairLeavesTheSound(s.db); }
    AdmittedIsUntouched(s.db, t.db, o);
  }

  /** So to every other account nothing has happened, its quota included. */
  lemma StepLeavesOthersAlone(s: State, event: Event, t: State, o: Owner)
    requires Sound(s.db) && DrawnBefore(s.db, s.next) && Step(s, event, t) && o !in Served(s.db, event)
    ensures Untouched(s.db, t.db, o)
  {
    hide Sound, DrawnBefore, Commits, SameRows, BlobsKept, Untouched;
    StepKeepsTheLedger(s, event, t);
    StepSparesRows(s, event, t, o);
    StepIsHonest(s, event, t);
    assert o !in Resized(event);
    SameRowsSameQuota(s.db, t.db, o);
  }

  /**
    Whatever the others do, in whatever order: an account no transaction of a run is for has at the end the
    nodes, the versions, the quota and the charge it had at the beginning.
   */
  lemma {:induction false} RunsLeaveOthersAlone(states: seq<State>, events: seq<Event>, o: Owner, i: nat)
    requires Run(states, events) && Sound(states[0].db) && i < |states|
    requires forall k :: 0 <= k < i ==> o !in Served(states[k].db, events[k])
    ensures Untouched(states[0].db, states[i].db, o)
    decreases i
  {
    hide Sound, DrawnBefore, Commits, SameRows, Served, Untouched;
    if i == 0 {
      UntouchedAtFirst(states[0].db, o);
    } else {
      RunsLeaveOthersAlone(states, events, o, i - 1);
      RunsStaySound(states, events, i - 1);
      assert Step(states[i - 1], events[i - 1], states[i]);
      StepLeavesOthersAlone(states[i - 1], events[i - 1], states[i], o);
      UntouchedTwice(states[0].db, states[i - 1].db, states[i].db, o);
    }
  }

  lemma UntouchedAtFirst(db: Db, o: Owner)
    ensures Untouched(db, db, o)
  {
  }

  lemma UntouchedTwice(a: Db, b: Db, c: Db, o: Owner)
    requires Untouched(a, b, o) && Untouched(b, c, o)
    ensures Untouched(a, c, o)
  {
    hide SameRows;
    SameRowsTwice(a, b, c, o);
  }
}
