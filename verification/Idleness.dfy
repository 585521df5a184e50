/**
  How long a blob has gone unreferenced: the mark a transaction leaves on a row whose count falls to zero,
  and what a sweep may conclude from it (api/src/db.rs, api/src/sweeper.rs).
 */
module Idleness {
  import opened Results
  import opened Sums
  import opened Tables
  import opened Trees
  import opened Ledger
  import opened Histories
  import opened Files
  import opened Overwrites
  import opened Trash
  import opened Purging
  import opened Moving
  import opened Copying
  import opened Transfer
  import opened Departure
  import opened Upkeep
  import opened Runs

  // ---------- what a transaction may do to a mark ----------

  /** The mark is off, or what it was, or set now. */
  predicate MarkKept(was: Option<int>, mark: Option<int>, now: int) { mark == None || mark == was || mark == Some(now) }

  /** No row of a blob goes or changes size, and no mark is set to a moment that has passed. */
  ghost predicate BlobsKept(blobs: map<Hash, Blob>, after: map<Hash, Blob>, now: int) {
    && blobs.Keys <= after.Keys
    && (forall h :: h in blobs ==> after[h].size == blobs[h].size && MarkKept(blobs[h].idleSince, after[h].idleSince, now))
    && (forall h :: h in after && h !in blobs ==> MarkKept(None, after[h].idleSince, now))
  }

  ghost predicate QuotasKept(quotas: map<Owner, Quota>, after: map<Owner, Quota>) {
    forall o :: o in quotas ==> o in after && after[o].max == quotas[o].max
  }

  /** What holds of every step a transaction takes. */
  ghost predicate Kept(db: Db, after: Db) {
    after.now == db.now && BlobsKept(db.blobs, after.blobs, db.now) && QuotasKept(db.quotas, after.quotas)
  }

  lemma KeptTwice(a: Db, b: Db, c: Db)
    requires Kept(a, b) && Kept(b, c)
    ensures Kept(a, c)
  {
  }

  lemma ReleaseKept(blobs: map<Hash, Blob>, h: Hash, now: int)
    ensures BlobsKept(blobs, Release(blobs, h, now), now)
  {
  }

  lemma {:induction false} ReleaseAllKept(blobs: map<Hash, Blob>, hashes: seq<Hash>, now: int)
    ensures BlobsKept(blobs, ReleaseAll(blobs, hashes, now), now)
    decreases |hashes|
  {
    if hashes != [] {
      ReleaseKept(blobs, hashes[0], now);
      ReleaseAllKept(Release(blobs, hashes[0], now), hashes[1..], now);
    }
  }

  lemma AcquireKept(blobs: map<Hash, Blob>, h: Hash, now: int)
    ensures BlobsKept(blobs, Acquire(blobs, h), now)
  {
  }

  lemma ChargeKept(quotas: map<Owner, Quota>, owner: Owner, delta: int)
    requires Charge(quotas, owner, delta).Ok?
    ensures QuotasKept(quotas, Charge(quotas, owner, delta).value)
  {
  }

  // ---------- writing ----------

  lemma DropOneKept(db: Db, owner: Owner, id: Id)
    requires DropOne(db, owner, id).Ok?
    ensures Kept(db, DropOne(db, owner, id).value)
  {
    hide Charge, Release;
    if id in db.versions {
      ChargeKept(db.quotas, owner, -(db.versions[id].size as int));
      ReleaseKept(db.blobs, db.versions[id].blob, db.now);
    }
  }

  lemma {:induction false} MakeRoomKept(db: Db, owner: Owner, node: Id, size: nat, previous: nat)
    requires MakeRoom(db, owner, node, size, previous).Ok?
    ensures Kept(db, MakeRoom(db, owner, node, size, previous).value.0)
    decreases |db.versions|
  {
    hide Charge, DropOne, History, Kept, BlobsKept, QuotasKept;
    if Charge(db.quotas, owner, size).Ok? {
      ChargedKept(db, owner, size);
    } else if History(db.versions, node) == [] {
      ChargedKept(db, owner, size - previous);
    } else {
      var oldest := History(db.versions, node)[0];
      OldestGoes(db, owner, node);
      DropOneKept(db, owner, oldest);
      var less := DropOne(db, owner, oldest).value;
      MakeRoomKept(less, owner, node, size, previous);
      KeptTwice(db, less, MakeRoom(less, owner, node, size, previous).value.0);
    }
  }

  lemma ChargedKept(db: Db, owner: Owner, delta: int)
    requires Charge(db.quotas, owner, delta).Ok?
    ensures Kept(db, db.(quotas := Charge(db.quotas, owner, delta).value))
  {
    ChargeKept(db.quotas, owner, delta);
  }

  lemma PruneKept(db: Db, owner: Owner, node: Id, kept: int)
    requires PruneBeyond(db, owner, node, kept).Ok?
    ensures Kept(db, PruneBeyond(db, owner, node, kept).value)
  {
    hide Charge, Beyond, SizeOf, HashesOf, ReleaseAll;
    var dropped := Beyond(db.versions, node, kept);
    ChargeKept(db.quotas, owner, -SizeOf(db.versions, dropped));
    ReleaseAllKept(db.blobs, HashesOf(db.versions, dropped), db.now);
  }

  lemma OverwriteKept(db: Db, owner: Owner, id: Id, hash: Hash, size: nat, kept: int, version: Id)
    requires id in db.nodes && db.nodes[id].blob.Some? && Overwrite(db, owner, id, hash, size, kept, version).Ok?
    ensures Kept(db, Overwrite(db, owner, id, hash, size, kept, version).value)
  {
    hide Charge, MakeRoom, PruneBeyond, Acquire, Release, BlobsKept, QuotasKept;
    var node := db.nodes[id];
    if kept > 0 && node.size > 0 && node.blob != Some(hash) {
      MakeRoomKept(db, owner, id, size, node.size);
    } else {
      ChargedKept(db, owner, size - node.size);
    }
    var (paid, versioned) := PayFor(db, owner, id, hash, size, kept).value;
    hide PayFor;
    var acquired := paid.(blobs := Acquire(paid.blobs, hash));
    AcquireKept(paid.blobs, hash, db.now);
    ReleaseKept(acquired.blobs, node.blob.value, db.now);
    SameQuotasKept(paid);
    SameQuotasKept(acquired);
    var settled := Settle(acquired, id, node.blob.value, node.size, versioned, version);
    PruneKept(settled, owner, id, kept);
    KeptTwice(db, paid, acquired);
    KeptTwice(db, acquired, settled);
    KeptTwice(db, settled, Overwrite(db, owner, id, hash, size, kept, version).value);
  }

  lemma SameQuotasKept(db: Db)
    ensures QuotasKept(db.quotas, db.quotas) && BlobsKept(db.blobs, db.blobs, db.now)
  {
  }

  /** A write keeps all of it, and a row for bytes the server did not know is of their size. */
  lemma PutFileKept(db: Db, owner: Owner, parent: Id, name: string, hash: Hash, size: nat, kept: int, node: Id, version: Id)
    requires FilesCarryBlobs(db) && PutFile(db, owner, parent, name, hash, size, kept, node, version).Ok?
    ensures Kept(db, PutFile(db, owner, parent, name, hash, size, kept, node, version).value)
    ensures var after := PutFile(db, owner, parent, name, hash, size, kept, node, version).value;
            hash in after.blobs && (hash !in db.blobs ==> after.blobs[hash].size == size)
  {
    hide Charge, Acquire, Overwrite, ChildOf, FilesCarryBlobs;
    var admitted := Admit(db, hash, size);
    assert Kept(db, admitted);
    var after := PutFile(db, owner, parent, name, hash, size, kept, node, version).value;
    match ChildOf(db.nodes, parent, name) {
      case Some(existing) =>
        FoundFile(db, parent, name);
        OverwriteKept(admitted, owner, existing, hash, size, kept, version);
      case None =>
        ChargeKept(db.quotas, owner, size);
        AcquireKept(admitted.blobs, hash, db.now);
    }
    KeptTwice(db, admitted, after);
  }

  lemma FoundFile(db: Db, parent: Id, name: string)
    requires FilesCarryBlobs(db) && ChildOf(db.nodes, parent, name).Some?
    ensures var id := ChildOf(db.nodes, parent, name).value; id in db.nodes && (db.nodes[id].kind.File? ==> db.nodes[id].blob.Some?)
  {
    ChildIsFound(db.nodes, parent, name);
  }

  lemma RestoreVersionKept(db: Db, owner: Owner, parent: Id, name: string, taken: Id, kept: int, node: Id, version: Id)
    requires FilesCarryBlobs(db) && RestoreVersion(db, owner, parent, name, taken, kept, node, version).Ok?
    ensures Kept(db, RestoreVersion(db, owner, parent, name, taken, kept, node, version).value)
  {
    hide PutFile, ChildOf, DropOne, Kept;
    var id := ChildOf(db.nodes, parent, name).value;
    var less := Take(db, owner, id, taken).value;
    DropOneKept(db, owner, taken);
    DropOneTrims(db, owner, taken);
    PutFileKept(less, owner, parent, name, db.versions[taken].blob, db.versions[taken].size, kept, node, version);
    KeptTwice(db, less, RestoreVersion(db, owner, parent, name, taken, kept, node, version).value);
  }

  // ---------- directories, copies, the trash ----------

  lemma {:induction false} DirectoriesKept(db: Db, owner: Owner, current: Id, segments: seq<string>, next: Id)
    requires current in db.nodes && CreateDirectories(db, owner, current, segments, next).Ok?
    ensures Kept(db, CreateDirectories(db, owner, current, segments, next).value.0)
    decreases |segments|
  {
    hide ChildOf;
    if segments != [] {
      ChildIsFound(db.nodes, current, segments[0]);
      match ChildOf(db.nodes, current, segments[0]) {
        case Some(existing) => DirectoriesKept(db, owner, existing, segments[1..], next);
        case None => DirectoriesKept(db.(nodes := db.nodes[next := NewDirectory(owner, current, segments[0])]), owner, next, segments[1..], next + 1);
      }
    }
  }

  lemma {:induction false} JobsKept(db: Db, owner: Owner, jobs: seq<Job>)
    requires Known(db.nodes, jobs)
    ensures Kept(db, CopyJobs(db, owner, jobs)) && CopyJobs(db, owner, jobs).quotas == db.quotas
    decreases |jobs|
  {
    if jobs != [] {
      JobsKept(db, owner, jobs[..|jobs| - 1]);
      hide CopyJobs;
      var fewer := CopyJobs(db, owner, jobs[..|jobs| - 1]);
      var original := db.nodes[jobs[|jobs| - 1].original];
      if original.blob.Some? { AcquireKept(fewer.blobs, original.blob.value, db.now); }
      var more := CopyOne(fewer, owner, jobs[|jobs| - 1], original);
      assert Kept(fewer, more);
      KeptTwice(db, fewer, more);
      LastJob(db, owner, jobs);
    }
  }

  lemma LastJob(db: Db, owner: Owner, jobs: seq<Job>)
    requires Known(db.nodes, jobs) && jobs != []
    ensures CopyJobs(db, owner, jobs) == CopyOne(CopyJobs(db, owner, jobs[..|jobs| - 1]), owner, jobs[|jobs| - 1], db.nodes[jobs[|jobs| - 1].original])
  {
  }

  lemma CopyKept(db: Db, after: Db, owner: Owner, source: Id, parent: Id, name: string, jobs: seq<Job>)
    requires IsCopy(db, after, owner, source, parent, name, jobs)
    ensures Kept(db, after)
  {
    hide CopyJobs, Charge, Copied, FollowsItsParent, JobsSize;
    JobsKept(db, owner, jobs);
    ChargeKept(db.quotas, owner, JobsSize(db.nodes, jobs));
  }

  lemma SendKept(db: Db, id: Id)
    requires id in db.nodes && Send(db, id).Ok?
    ensures Kept(db, Send(db, id).value)
  {
    hide Charge, Weight, Bury, Under;
    ChargeKept(db.quotas, db.nodes[id].owner, -Weight(db, Under(db.nodes, LiveIds(db.nodes), id)));
  }

  lemma RestoreKept(db: Db, owner: Owner, id: Id)
    requires Restore(db, owner, id).Ok?
    ensures Kept(db, Restore(db, owner, id).value)
  {
    RestoreInSteps(db, owner, id);
    hide Restore, Charge, Weight, RerootAll, Raise, Opened, TrashedAbove, BatchOf, Revive, MarkedSizes, NamesAreUnique;
    var above := TrashedAbove(db.nodes, db.nodes[id].parent, {});
    ChargeKept(db.quotas, owner, Sum(MarkedSizes(db.nodes, Elements(above))) + Weight(db, BatchOf(Revive(db.nodes, Elements(above)), id)));
  }

  lemma ClearKept(db: Db, source: Id, parent: Id, name: string, overwrite: bool)
    requires Shaped(db.nodes) && Clear(db, source, parent, name, overwrite).Ok?
    ensures Kept(db, Clear(db, source, parent, name, overwrite).value)
  {
    hide Shaped, Send, ChildOf, Contains;
    ChildIsFound(db.nodes, parent, name);
    if ChildOf(db.nodes, parent, name).Some? { SendKept(db, ChildOf(db.nodes, parent, name).value); }
  }

  lemma MoveKept(db: Db, source: Id, parent: Id, name: string, overwrite: bool)
    requires Shaped(db.nodes) && source in db.nodes && parent in db.nodes && Move(db, source, parent, name, overwrite).Ok?
    ensures Kept(db, Move(db, source, parent, name, overwrite).value)
  {
    hide Shaped, Clear, Kept, Rename;
    ClearKept(db, source, parent, name, overwrite);
    ClearKeepsPlaces(db, source, parent, name, overwrite);
    var cleared := Clear(db, source, parent, name, overwrite).value;
    RenameKept(cleared, source, parent, name);
    KeptTwice(db, cleared, Move(db, source, parent, name, overwrite).value);
  }

  lemma RenameKept(db: Db, id: Id, parent: Id, name: string)
    requires id in db.nodes && parent in db.nodes && Rename(db, id, parent, name).Ok?
    ensures Kept(db, Rename(db, id, parent, name).value)
  {
    hide Contains, ChildOf;
  }

  // ---------- deletion for good ----------

  lemma PurgeKept(db: Db, owner: Owner, id: Id)
    requires Purge(db, owner, id).Ok?
    ensures Kept(db, Purge(db, owner, id).value)
  {
    hide Under, Cascade, Ordered, NodeHashes, HashesOf, ReleaseAll, VersionsUnder;
    var under := Under(db.nodes, db.nodes.Keys, id);
    ReleaseAllKept(db.blobs, NodeHashes(db.nodes, Ordered(under)) + HashesOf(db.versions, Ordered(VersionsUnder(db.versions, under))), db.now);
  }

  lemma {:induction false} EmptyKept(db: Db, owner: Owner, roots: seq<Id>)
    requires Empty(db, owner, roots).Ok?
    ensures Kept(db, Empty(db, owner, roots).value)
    decreases |roots|
  {
    hide Purge, Kept;
    if roots == [] {
      NothingKept(db);
    } else if Purge(db, owner, roots[0]).Ok? {
      PurgeKept(db, owner, roots[0]);
      var after := Purge(db, owner, roots[0]).value;
      EmptyKept(after, owner, roots[1..]);
      KeptTwice(db, after, Empty(after, owner, roots[1..]).value);
    } else {
      EmptyKept(db, owner, roots[1..]);
    }
  }

  lemma NothingKept(db: Db)
    ensures Kept(db, db)
  {
  }

  lemma EnsureRootKept(db: Db, owner: Owner, quota: int, next: Id)
    ensures Kept(db, EnsureRoot(db, owner, quota, next).0)
  {
    hide RootOf;
  }

  lemma HandOverKept(db: Db, leaving: Owner, recipient: Owner, quota: int, wanted: string, next: Id)
    requires HandOver(db, leaving, recipient, quota, wanted, next).Ok?
    ensures Kept(db, HandOver(db, leaving, recipient, quota, wanted, next).value)
  {
    hide EnsureRoot, Charge, RootOf, Handed, FreeName, BlobsKept;
    var rooted := EnsureRoot(db, recipient, quota, next).0;
    EnsureRootKept(db, recipient, quota, next);
    SameQuotasKept(db);
    if RootOf(db.nodes, leaving).Some? { ChargeKept(rooted.quotas, recipient, Used(db, leaving)); }
  }

  /** When an account leaves, the maxima of the others and everything about the blobs stay as a step of a transaction leaves them. */
  lemma RemoveKept(db: Db, leaving: Owner, roots: seq<Id>, recipient: Recipient, quota: int, wanted: string, next: Id)
    requires Remove(db, leaving, roots, recipient, quota, wanted, next).Ok?
    ensures var after := Remove(db, leaving, roots, recipient, quota, wanted, next).value;
            after.now == db.now && BlobsKept(db.blobs, after.blobs, db.now) && QuotasKept(db.quotas - {leaving}, after.quotas)
  {
    hide Empty, HandOver, Erase, BlobsKept;
    EmptyKept(db, leaving, roots);
    var emptied := Empty(db, leaving, roots).value;
    var handed := if recipient == Nobody then emptied else HandOver(emptied, leaving, recipient.owner, quota, wanted, next).value;
    NothingKept(emptied);
    if recipient != Nobody { HandOverKept(emptied, leaving, recipient.owner, quota, wanted, next); }
    EraseKept(handed, leaving);
    KeptTwice(db, emptied, handed);
    BlobsKeptTwice(db.blobs, handed.blobs, Erase(handed, leaving).blobs, db.now);
  }

  lemma BlobsKeptTwice(a: map<Hash, Blob>, b: map<Hash, Blob>, c: map<Hash, Blob>, now: int)
    requires BlobsKept(a, b, now) && BlobsKept(b, c, now)
    ensures BlobsKept(a, c, now)
  {
  }

  lemma EraseKept(db: Db, owner: Owner)
    ensures var after := Erase(db, owner); after.now == db.now && BlobsKept(db.blobs, after.blobs, db.now) && after.quotas == db.quotas - {owner}
  {
    hide ReleaseAll, Cascade, HashesHeld;
    ReleaseAllKept(db.blobs, HashesHeld(db, OwnedBy(db.nodes, owner)), db.now);
  }

  // ---------- one step ----------

  /** The account whose maximum, or whose row, a step may change. */
  function Resized(event: Event): set<Owner> {
    match event
    case SettingQuota(owner, _) => {owner}
    case Leaving(leaving, _, _, _, _) => {leaving}
    case _ => {}
  }

  /** Between a step's two states: a row gone only if it was swept, sizes and maxima kept, marks set to no other moment than now. */
  ghost predicate Honest(db: Db, event: Event, after: Db) {
    && db.now <= after.now && (!event.Waiting? ==> after.now == db.now)
    && BlobsKept(if event.Sweeping? then db.blobs - {event.hash} else db.blobs, after.blobs, db.now)
    && QuotasKept(db.quotas - Resized(event), after.quotas)
  }

  /** Every step of every run sets marks honestly. */
  lemma StepIsHonest(s: State, event: Event, t: State)
    requires Sound(s.db) && DrawnBefore(s.db, s.next) && Step(s, event, t)
    ensures Honest(s.db, event, t.db)
  {
    hide Sound, Shaped, Schema, PutFile, CreateDirectories, Rename, IsCopy, Move, Clear, Send, Restore, Purge, Empty, RestoreVersion,
      RegisterBlob, Remember, Forget, SweepRow, Repaired, EnsureRoot, Remove, Contains, Writable, MayCopyTo, MayTransfer, RootsCover,
      AreTheOrphans, DrawnBefore, Drawn, ChildOf, BlobsKept, QuotasKept, SetQuota;
    var db, next := s.db, s.next;
    SoundIsMadeOf(db);
    SchemaIsMadeOf(db);
    KeptIsHonest(db, event, t.db);
    match event {
      case Put(owner, parent, name, hash, size, kept) => PutFileKept(db, owner, parent, name, hash, size, kept, next, next);
      case MakeDirectories(owner, parent, segments) => DirectoriesAreKept(db, owner, parent, segments, next);
      case MoveTo(id, parent, name) => ParentIsThere(db, db.nodes[id].owner, parent); RenameKept(db, id, parent, name);
      case CopyTo(owner, source, parent, name, jobs) => CopyKept(db, t.db, owner, source, parent, name, jobs);
      case DavMove(source, parent, name, overwrite) => TransferRows(db, source, parent); MoveKept(db, source, parent, name, overwrite);
      case DavCopy(source, parent, name, overwrite, jobs) =>
        TransferRows(db, source, parent);
        var cleared := Clear(db, source, parent, name, overwrite).value;
        ClearKept(db, source, parent, name, overwrite);
        CopyKept(cleared, t.db, db.nodes[parent].owner, source, parent, name, jobs);
        KeptTwice(db, cleared, t.db);
      case Trashing(id) => SendKept(db, id);
      case Restoring(owner, id) => RestoreKept(db, owner, id);
      case Purging(owner, id) => PurgeKept(db, owner, id);
      case Emptying(owner, roots) => EmptyKept(db, owner, roots);
      case PutBack(owner, parent, name, taken, kept) => RestoreVersionKept(db, owner, parent, name, taken, kept, next, next);
      case Registering(hash, size) => RegisterKept(db, hash, size);
      case Remembering(source, edge, thumbnail) => RememberKept(db, source, edge, thumbnail);
      case Forgetting(keys) => ForgetKept(db, keys);
      case Sweeping(hash, grace) => SweptKept(db, hash, grace);
      case Repairing => RepairLeavesTheSound(db); NothingKept(db);
      case OpeningAccount(owner, quota) => EnsureRootKept(db, owner, quota, next);
      case SettingQuota(owner, max) => QuotaSetKept(db, owner, max);
      case Leaving(leaving, roots, recipient, quota, wanted) => RemoveKept(db, leaving, roots, recipient, quota, wanted, next);
      case Waiting(now) => SameQuotasKept(db);
    }
  }

  lemma KeptIsHonest(db: Db, event: Event, after: Db)
    ensures Kept(db, after) && !event.Sweeping? && !event.Waiting? ==> Honest(db, event, after)
    ensures db.quotas - {} == db.quotas
  {
  }

  lemma SchemaIsMadeOf(db: Db)
    requires Schema(db)
    ensures FilesCarryBlobs(db)
  {
  }

  lemma TransferRows(db: Db, source: Id, parent: Id)
    requires MayTransfer(db, source, parent)
    ensures source in db.nodes && parent in db.nodes
  {
  }

  lemma DirectoriesAreKept(db: Db, owner: Owner, parent: Id, segments: seq<string>, next: Id)
    requires Writable(db, owner, parent) && CreateDirectories(db, owner, parent, segments, next).Ok?
    ensures Kept(db, CreateDirectories(db, owner, parent, segments, next).value.0)
  {
    DirectoriesKept(db, owner, parent, segments, next);
  }

  lemma RegisterKept(db: Db, hash: Hash, size: nat)
    ensures Kept(db, RegisterBlob(db, hash, size))
    ensures hash in RegisterBlob(db, hash, size).blobs && (hash !in db.blobs ==> RegisterBlob(db, hash, size).blobs[hash].size == size)
  {
  }

  lemma RememberKept(db: Db, source: Hash, edge: int, thumbnail: Hash)
    ensures Kept(db, Remember(db, source, edge, thumbnail))
  {
    AcquireKept(db.blobs, thumbnail, db.now);
    SameQuotasKept(db);
    hide Acquire, BlobsKept;
  }

  lemma ForgetKept(db: Db, keys: seq<(Hash, int)>)
    ensures Kept(db, Forget(db, keys))
  {
    hide ReleaseAll, ThumbnailHashes;
    ReleaseAllKept(db.blobs, ThumbnailHashes(db, keys), db.now);
  }

  lemma SweptKept(db: Db, hash: Hash, grace: int)
    requires SweepRow(db, hash, grace).Ok?
    ensures var after := SweepRow(db, hash, grace).value;
            after.now == db.now && after.quotas == db.quotas && after.blobs == db.blobs - {hash} && BlobsKept(after.blobs, after.blobs, db.now)
            && QuotasKept(db.quotas - {}, db.quotas)
  {
  }

  lemma QuotaSetKept(db: Db, owner: Owner, max: int)
    ensures var after := SetQuota(db, owner, max); after == db.(quotas := after.quotas) && QuotasKept(db.quotas - {owner}, after.quotas) && BlobsKept(db.blobs, after.blobs, db.now)
  {
  }

  // ---------- every run ----------

  lemma {:induction false} TimePasses(states: seq<State>, events: seq<Event>, i: nat, j: nat)
    requires Run(states, events) && Sound(states[0].db) && i <= j < |states|
    ensures states[i].db.now <= states[j].db.now
    decreases j
  {
    hide Sound, Commits, DrawnBefore, BlobsKept, QuotasKept;
    if i < j {
      TimePasses(states, events, i, j - 1);
      RunsStaySound(states, events, j - 1);
      assert Step(states[j - 1], events[j - 1], states[j]);
      StepIsHonest(states[j - 1], events[j - 1], states[j]);
    }
  }

  /** A mark older than a state was already set in that state. */
  lemma {:induction false} OldMarksWereThere(states: seq<State>, events: seq<Event>, i: nat, j: nat, h: Hash)
    requires Run(states, events) && Sound(states[0].db) && i <= j < |states|
    requires h in states[j].db.blobs && states[j].db.blobs[h].idleSince.Some? && states[j].db.blobs[h].idleSince.value < states[i].db.now
    ensures h in states[i].db.blobs && states[i].db.blobs[h].idleSince == states[j].db.blobs[h].idleSince
    decreases j
  {
    hide Sound, Commits, DrawnBefore;
    if i < j {
      TimePasses(states, events, i, j - 1);
      RunsStaySound(states, events, j - 1);
      assert Step(states[j - 1], events[j - 1], states[j]);
      StepIsHonest(states[j - 1], events[j - 1], states[j]);
      OldMarksWereThere(states, events, i, j - 1, h);
    }
  }

  /**
    What the grace of a sweep is for: in every run, a blob that is swept was there and named by nothing in
    every state since the grace began.
   */
  lemma SweptWasIdleThroughout(states: seq<State>, events: seq<Event>, i: nat, j: nat, h: Hash, grace: int)
    requires Run(states, events) && Sound(states[0].db) && i <= j < |events| && events[j] == Sweeping(h, grace)
    requires states[i].db.now >= states[j].db.now - grace
    ensures h in states[i].db.blobs && ExpectedReferences(states[i].db, h) == 0
  {
    hide Sound, DrawnBefore, Run, ExpectedReferences;
    SweepingIsAStep(states, events, j, h, grace);
    RunsStaySound(states, events, i);
    OldMarksWereThere(states, events, i, j, h);
    IdleIsUnnamed(states[i].db, h);
  }

  lemma SweepingIsAStep(states: seq<State>, events: seq<Event>, j: nat, h: Hash, grace: int)
    requires Run(states, events) && j < |events| && events[j] == Sweeping(h, grace)
    ensures |states| == |events| + 1
    ensures var db := states[j].db; h in db.blobs && db.blobs[h].idleSince.Some? && db.blobs[h].idleSince.value < db.now - grace
  {
    assert Step(states[j], events[j], states[j + 1]);
  }

  lemma IdleIsUnnamed(db: Db, h: Hash)
    requires Sound(db) && h in db.blobs && db.blobs[h].idleSince.Some?
    ensures ExpectedReferences(db, h) == 0
  {
    hide Shaped, Schema, ExpectedReferences;
  }
}
