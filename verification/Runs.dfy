/** Every run of the server's transactions: what holds of the tables between any two of them. */
module Runs {
  import opened Results
  import opened Sums
  import opened Tables
  import opened Trees
  import opened Ledger
  import opened Histories
  import opened Files
  import opened Overwrites
  import opened Trash
  import opened Purging
  import opened Moving
  import opened Copying
  import opened Transfer
  import opened Departure
  import opened Upkeep

  datatype Event =
    | Put(owner: Owner, parent: Id, name: string, hash: Hash, size: nat, kept: int)
    | MakeDirectories(owner: Owner, parent: Id, segments: seq<string>)
    | MoveTo(id: Id, parent: Id, name: string)
    | CopyTo(owner: Owner, source: Id, parent: Id, name: string, jobs: seq<Job>)
    | DavMove(source: Id, parent: Id, name: string, overwrite: bool)
    | DavCopy(source: Id, parent: Id, name: string, overwrite: bool, jobs: seq<Job>)
    | Trashing(id: Id)
    | Restoring(owner: Owner, id: Id)
    | Purging(owner: Owner, id: Id)
    | Emptying(owner: Owner, roots: seq<Id>)
    | PutBack(owner: Owner, parent: Id, name: string, taken: Id, kept: int)
    | Registering(hash: Hash, size: nat)
    | Remembering(source: Hash, edge: int, thumbnail: Hash)
    | Forgetting(keys: seq<(Hash, int)>)
    | Sweeping(hash: Hash, grace: int)
    | Repairing
    | OpeningAccount(owner: Owner, quota: int)
    | SettingQuota(owner: Owner, max: int)
    | Leaving(leaving: Owner, roots: seq<Id>, recipient: Recipient, quota: int, wanted: string)
    | Waiting(now: int)

  /**
    What a request that gets as far as its transaction leaves behind when it commits; one that fails
    leaves everything as it was. What is required here is what the callers have checked by then: that
    they write into a live directory of the owner's, and move or delete a live node below the root.
    `next` is the id the clock would draw.
   */
  ghost predicate Commits(db: Db, next: Id, event: Event, after: Db) {
    match event
    case Put(owner, parent, name, hash, size, kept) =>
      Schema(db) && Writable(db, owner, parent) && PutFile(db, owner, parent, name, hash, size, kept, next, next) == Ok(after)
    case MakeDirectories(owner, parent, segments) =>
      Writable(db, owner, parent) && exists last :: CreateDirectories(db, owner, parent, segments, next) == Ok((after, last))
    case MoveTo(id, parent, name) =>
      id in db.nodes && db.nodes[id].Live() && Writable(db, db.nodes[id].owner, parent) && Rename(db, id, parent, name) == Ok(after)
    case CopyTo(owner, source, parent, name, jobs) => MayCopyTo(db, owner, source, parent, name) && IsCopy(db, after, owner, source, parent, name, jobs)
    case DavMove(source, parent, name, overwrite) => Shaped(db.nodes) && MayTransfer(db, source, parent) && Move(db, source, parent, name, overwrite) == Ok(after)
    case DavCopy(source, parent, name, overwrite, jobs) =>
      && Shaped(db.nodes) && MayTransfer(db, source, parent) && !Contains(db.nodes, source, parent) && Clear(db, source, parent, name, overwrite).Ok?
      && IsCopy(Clear(db, source, parent, name, overwrite).value, after, db.nodes[parent].owner, source, parent, name, jobs)
    case Trashing(id) => id in db.nodes && db.nodes[id].parent.Some? && Send(db, id) == Ok(after)
    case Restoring(owner, id) => Restore(db, owner, id) == Ok(after)
    case Purging(owner, id) => Purge(db, owner, id) == Ok(after)
    case Emptying(owner, roots) => RootsCover(db, owner, roots) && Empty(db, owner, roots) == Ok(after)
    case PutBack(owner, parent, name, taken, kept) =>
      Schema(db) && Writable(db, owner, parent) && RestoreVersion(db, owner, parent, name, taken, kept, next, next) == Ok(after)
    case Registering(hash, size) => after == RegisterBlob(db, hash, size)
    case Remembering(source, edge, thumbnail) => source in db.blobs && thumbnail in db.blobs && after == Remember(db, source, edge, thumbnail)
    case Forgetting(keys) => AreTheOrphans(db, keys) && after == Forget(db, keys)
    case Sweeping(hash, grace) => SweepRow(db, hash, grace) == Ok(after)
    case Repairing => after == Repaired(db)
    case OpeningAccount(owner, quota) => after == EnsureRoot(db, owner, quota, next).0
    case SettingQuota(owner, max) => max > 0 && after == SetQuota(db, owner, max)
    case Leaving(leaving, roots, recipient, quota, wanted) =>
      && RootsCover(db, leaving, roots) && recipient != Account(leaving, true, true)
      && Remove(db, leaving, roots, recipient, quota, wanted, next) == Ok(after)
    case Waiting(now) => now >= db.now && after == db.(now := now)
  }

  /** `set_quota`: the account's row with another maximum, or the row it would get with its first write. */
  function SetQuota(db: Db, owner: Owner, max: int): Db {
    db.(quotas := db.quotas[owner := if owner in db.quotas then db.quotas[owner].(max := max) else Quota(0, max)])
  }

  /** The tables, and the id the clock would draw next: later than every id in use. */
  datatype State = State(db: Db, next: Id)

  ghost predicate Step(s: State, event: Event, t: State) {
    Commits(s.db, s.next, event, t.db) && s.next <= t.next && DrawnBefore(t.db, t.next)
  }

  ghost predicate Run(states: seq<State>, events: seq<Event>) {
    && |states| == |events| + 1 && DrawnBefore(states[0].db, states[0].next)
    && forall i :: 0 <= i < |events| ==> Step(states[i], events[i], states[i + 1])
  }

  // ---------- one step ----------

  /** What putting a version back leaves: its content in the file, the version gone, and of other files nothing changed. */
  ghost predicate PutBackLeaves(db: Db, after: Db, owner: Owner, parent: Id, name: string, taken: Id, version: Id) {
    match ChildOf(db.nodes, parent, name)
    case None => false
    case Some(id) =>
      && taken in db.versions && db.versions[taken].node == id && OwnFile(db, owner, id)
      && after.nodes == db.nodes[id := db.nodes[id].(blob := Some(db.versions[taken].blob), size := db.versions[taken].size)]
      && after == db.(nodes := after.nodes, versions := after.versions, blobs := after.blobs, quotas := after.quotas)
      && after.blobs.Keys == db.blobs.Keys
      && after.quotas.Keys == db.quotas.Keys && (forall o :: o in db.quotas ==> after.quotas[o].max == db.quotas[o].max)
      && (forall v :: v in after.versions ==>
            v != taken && if v == version then after.versions[v] == Version(id, db.nodes[id].blob.value, db.nodes[id].size)
                          else v in db.versions && after.versions[v] == db.versions[v])
      && (forall v :: v in db.versions && db.versions[v].node != id ==> v in after.versions)
  }

  lemma TakeLeaves(db: Db, owner: Owner, node: Id, taken: Id)
    requires Take(db, owner, node, taken).Ok?
    ensures taken in db.versions && db.versions[taken].node == node
    ensures var after := Take(db, owner, node, taken).value;
            && after == db.(versions := db.versions - {taken}, blobs := after.blobs, quotas := after.quotas) && after.blobs.Keys == db.blobs.Keys
            && after.quotas.Keys == db.quotas.Keys && (forall o :: o in db.quotas ==> after.quotas[o].max == db.quotas[o].max)
  {
    hide Charge;
    ChargeMoves(db.quotas, owner, -(db.versions[taken].size as int));
  }

  lemma TakenThenWritten(db: Db, less: Db, after: Db, owner: Owner, parent: Id, name: string, taken: Id, node: Id, version: Id)
    requires ForeignKeys(db) && taken in db.versions && ChildOf(db.nodes, parent, name) == Some(db.versions[taken].node)
    requires less == db.(versions := db.versions - {taken}, blobs := less.blobs, quotas := less.quotas) && less.blobs.Keys == db.blobs.Keys
    requires less.quotas.Keys == db.quotas.Keys && (forall o :: o in db.quotas ==> less.quotas[o].max == db.quotas[o].max)
    requires FileIsWritten(less, after, owner, parent, name, db.versions[taken].blob, db.versions[taken].size, node, version)
    requires forall v :: v in db.versions ==> v < version
    ensures PutBackLeaves(db, after, owner, parent, name, taken, version)
  {
    hide ChildOf;
  }

  lemma RestoreVersionKeepsTheLedger(db: Db, owner: Owner, parent: Id, name: string, taken: Id, kept: int, node: Id, version: Id)
    requires Sound(db) && Writable(db, owner, parent) && Drawn(db, node, version)
    requires RestoreVersion(db, owner, parent, name, taken, kept, node, version).Ok?
    ensures var after := RestoreVersion(db, owner, parent, name, taken, kept, node, version).value;
            Sound(after) && PutBackLeaves(db, after, owner, parent, name, taken, version)
  {
    hide Shaped, ForeignKeys, VersionsAreOfFiles, Balanced, OffBy, ChildOf, PutFile, DropOne, FileIsWritten, PutBackLeaves;
    var id := ChildOf(db.nodes, parent, name).value;
    ChildIsOwnFile(db, owner, parent, name);
    BalancedIsOffByNothing(db, owner);
    DropOneIsEven(db, owner, taken, {});
    DropOneTrims(db, owner, taken);
    var less := Take(db, owner, id, taken).value;
    BalancedIsOffByNothing(less, owner);
    TrimmedKeepsTheSchema(db, less, id);
    TakeLeaves(db, owner, id, taken);
    PutFileKeepsTheLedger(less, owner, parent, name, db.versions[taken].blob, db.versions[taken].size, kept, node, version);
    TakenThenWritten(db, less, RestoreVersion(db, owner, parent, name, taken, kept, node, version).value, owner, parent, name, taken, node, version);
  }

  lemma QuotaSetKeepsTheLedger(db: Db, owner: Owner, max: int)
    requires Sound(db)
    ensures var after := SetQuota(db, owner, max);
            && Sound(after) && after == db.(quotas := after.quotas) && after.quotas.Keys == db.quotas.Keys + {owner} && after.quotas[owner].max == max
            && (forall o :: o in db.quotas && o != owner ==> after.quotas[o] == db.quotas[o])
  {
    hide Shaped, ExpectedReferences, ExpectedUsage;
    var after := SetQuota(db, owner, max);
    VersionsFitTheSchema(db, after);
    forall h ensures ExpectedReferences(after, h) == ExpectedReferences(db, h) { SameReferences(db, after, h); }
    forall o ensures Used(after, o) == ExpectedUsage(after, o) { SameUsage(db, after, o); }
  }

  lemma WaitingKeepsTheLedger(db: Db, now: int)
    requires Sound(db)
    ensures Sound(db.(now := now))
  {
    hide Shaped, ExpectedReferences, ExpectedUsage;
    var after := db.(now := now);
    VersionsFitTheSchema(db, after);
    forall h ensures ExpectedReferences(after, h) == ExpectedReferences(db, h) { SameReferences(db, after, h); }
    forall o ensures Used(after, o) == ExpectedUsage(after, o) { SameUsage(db, after, o); }
  }

  /** Leaving, with or without a hand-over, keeps the ledger. */
  lemma LeavingKeepsTheLedger(db: Db, leaving: Owner, roots: seq<Id>, recipient: Recipient, quota: int, wanted: string, next: Id)
    requires Sound(db) && DrawnBefore(db, next) && RootsCover(db, leaving, roots) && recipient != Account(leaving, true, true)
    requires Remove(db, leaving, roots, recipient, quota, wanted, next).Ok?
    ensures Sound(Remove(db, leaving, roots, recipient, quota, wanted, next).value)
  {
    hide Sound, Empty, HandOver, Erase, RootsCover, RootOf, RowsHanded, OwnedBy, HashesHeld;
    if recipient == Nobody {
      LeavingReleasesExactly(db, leaving, roots, quota, wanted, next);
    } else if RootOf(db.nodes, leaving).Some? {
      HandingOverConserves(db, leaving, recipient.owner, roots, quota, wanted, next);
    } else {
      EmptyLeavesNothing(db, leaving, roots);
      RootlessKeepsTheLedger(db, leaving, roots, recipient.owner, quota, wanted, next);
    }
  }

  lemma RootlessKeepsTheLedger(db: Db, leaving: Owner, roots: seq<Id>, recipient: Owner, quota: int, wanted: string, next: Id)
    requires Sound(db) && RootOf(db.nodes, leaving).None? && Empty(db, leaving, roots).Ok? && RootsCover(db, leaving, roots)
    ensures var emptied := Empty(db, leaving, roots).value;
            HandOver(emptied, leaving, recipient, quota, wanted, next) == Ok(emptied) && Sound(Erase(emptied, leaving))
  {
    hide Shaped, Schema, Balanced, OffBy, Empty, Erase, RootOf, EnsureRoot, FreeName, HashesHeld;
    EmptyLeavesNothing(db, leaving, roots);
    var emptied := Empty(db, leaving, roots).value;
    EmptiedKeepsItsRoot(db, emptied, leaving, next);
    BalancedIsOffByNothing(emptied, leaving);
    EraseKeepsTheLedger(emptied, leaving, 0);
  }

  /** Every transaction that commits leaves a sound ledger if it found one. */
  lemma StepKeepsTheLedger(s: State, event: Event, t: State)
    requires Sound(s.db) && DrawnBefore(s.db, s.next) && Step(s, event, t)
    ensures Sound(t.db)
  {
    hide Sound, Shaped, Schema, PutFile, CreateDirectories, Rename, IsCopy, Move, Clear, Send, Restore, Purge, Empty, RestoreVersion,
      RegisterBlob, Remember, Forget, SweepRow, Repaired, EnsureRoot, Remove, Contains, Writable, MayCopyTo, MayTransfer, RootsCover,
      AreTheOrphans, DrawnBefore, Drawn, Isomorphic, Origins, ChildOf, Spared;
    var db, next := s.db, s.next;
    SoundIsMadeOf(db);
    NextIsDrawn(db, next);
    match event {
      case Put(owner, parent, name, hash, size, kept) => PutFileKeepsTheLedger(db, owner, parent, name, hash, size, kept, next, next);
      case MakeDirectories(owner, parent, segments) => CreateDirectoriesHolds(db, owner, parent, segments, next);
      case MoveTo(id, parent, name) => RenameKeepsTheLedger(db, id, parent, name);
      case CopyTo(owner, source, parent, name, jobs) => CopyKeepsTheLedger(db, t.db, owner, source, parent, name, jobs);
      case DavMove(source, parent, name, overwrite) => MoveSparesItsSource(db, source, parent, name, overwrite);
      case DavCopy(source, parent, name, overwrite, jobs) => CopySparesItsSource(db, source, parent, name, overwrite, t.db, jobs);
      case Trashing(id) => SendKeepsTheLedger(db, id);
      case Restoring(owner, id) => RestoreKeepsTheLedger(db, owner, id);
      case Purging(owner, id) => PurgeKeepsTheLedger(db, owner, id);
      case Emptying(owner, roots) => EmptyLeavesNothing(db, owner, roots);
      case PutBack(owner, parent, name, taken, kept) => RestoreVersionKeepsTheLedger(db, owner, parent, name, taken, kept, next, next);
      case Registering(hash, size) => RegisterKeepsTheLedger(db, hash, size);
      case Remembering(source, edge, thumbnail) => RememberKeepsTheLedger(db, source, edge, thumbnail);
      case Forgetting(keys) => ForgetKeepsTheLedger(db, keys);
      case Sweeping(hash, grace) => SweepKeepsTheLedger(db, hash, grace);
      case Repairing => RepairLeavesTheSound(db);
      case OpeningAccount(owner, quota) => EnsureRootHolds(db, owner, quota, next);
      case SettingQuota(owner, max) => QuotaSetKeepsTheLedger(db, owner, max);
      case Leaving(leaving, roots, recipient, quota, wanted) => LeavingKeepsTheLedger(db, leaving, roots, recipient, quota, wanted, next);
      case Waiting(now) => WaitingKeepsTheLedger(db, now);
    }
  }

  lemma SoundIsMadeOf(db: Db)
    requires Sound(db)
    ensures Shaped(db.nodes) && Schema(db) && Balanced(db)
  {
  }

  // ---------- every run ----------

  /** In every state of every run that starts sound: the counts and charges are the sums over the tables, and the tree and the trash keep their shape. */
  lemma {:induction false} RunsStaySound(states: seq<State>, events: seq<Event>, i: nat)
    requires Run(states, events) && Sound(states[0].db) && i < |states|
    ensures Sound(states[i].db) && DrawnBefore(states[i].db, states[i].next)
    decreases i
  {
    hide Sound, Commits, DrawnBefore;
    if i > 0 {
      RunsStaySound(states, events, i - 1);
      assert Step(states[i - 1], events[i - 1], states[i]);
      StepKeepsTheLedger(states[i - 1], events[i - 1], states[i]);
    }
  }

  /** A new server has nothing in its tables, and is sound. */
  lemma NothingIsSound(now: int)
    ensures Sound(Db(map[], map[], map[], map[], map[], now))
  {
    var db := Db(map[], map[], map[], map[], map[], now);
    assert Ranked(db.nodes, map[]);
    forall o ensures ExpectedUsage(db, o) == 0 {
      SumOfNothing(LiveSizes(db.nodes, o));
      SumOfNothing(KeptSizes(db.nodes, db.versions, o));
    }
  }

  /** So every state a server ever reaches is sound. */
  lemma EveryRunIsSound(states: seq<State>, events: seq<Event>, i: nat)
    requires Run(states, events) && states[0].db == Db(map[], map[], map[], map[], map[], states[0].db.now) && i < |states|
    ensures Sound(states[i].db) && DrawnBefore(states[i].db, states[i].next)
  {
    hide Sound, Run;
    NothingIsSound(states[0].db.now);
    StartsSomewhere(states, events);
    RunsStaySound(states, events, i);
  }

  lemma StartsSomewhere(states: seq<State>, events: seq<Event>)
    requires Run(states, events)
    ensures |states| > 0
  {
  }

  /** What the two checks of the schema ask, that neither number is negative, holds in every sound state of itself. */
  lemma NeitherIsNegative(db: Db, h: Hash, o: Owner)
    requires Sound(db)
    ensures h in db.blobs ==> db.blobs[h].refs >= 0
    ensures Used(db, o) >= 0
  {
    hide Shaped, Schema;
    NamedIsExpected(db, h);
    SumNatural(LiveSizes(db.nodes, o));
    SumNatural(KeptSizes(db.nodes, db.versions, o));
  }
}
