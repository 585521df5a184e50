/** Writing a file: `put_file` of api/src/db.rs, with the history it keeps. */
module Files {
  import opened Results
  import opened Tables
  import opened Trees
  import opened Ledger
  import opened Histories

  function Named(nodes: map<Id, Node>, parent: Id, name: string): set<Id> {
    set id | id in nodes && nodes[id].Live() && nodes[id].parent == Some(parent) && nodes[id].name == name
  }

  /** `child`: the live node of that name in the directory. */
  function ChildOf(nodes: map<Id, Node>, parent: Id, name: string): Option<Id> {
    var found := Named(nodes, parent, name);
    if found == {} then None else Some(Least(found))
  }

  /** The row for the bytes, inserted unless it is there: count 0, and not marked idle. */
  function Admit(db: Db, hash: Hash, size: nat): Db {
    if hash in db.blobs then db else db.(blobs := db.blobs[hash := Blob(size, 0, None)])
  }

  /** How an overwrite is paid for: with history when there is any to keep, otherwise by the difference. */
  function PayFor(db: Db, owner: Owner, id: Id, hash: Hash, size: nat, kept: int): Result<(Db, bool), ApiError>
    requires id in db.nodes
  {
    var node := db.nodes[id];
    if kept > 0 && node.size > 0 && node.blob != Some(hash) then MakeRoom(db, owner, id, size, node.size)
    else
      match Charge(db.quotas, owner, size - node.size)
      case Ok(quotas) => Ok((db.(quotas := quotas), false))
      case Err(e) => Err(e)
  }

  /** The reference the old content gives up goes to a version, or back. */
  function Settle(db: Db, id: Id, previous: Hash, size: nat, versioned: bool, version: Id): Db {
    if versioned then Keep(db, id, previous, size, version) else db.(blobs := Release(db.blobs, previous, db.now))
  }

  function WriteContent(db: Db, id: Id, hash: Hash, size: nat): Db
    requires id in db.nodes
  {
    db.(nodes := db.nodes[id := db.nodes[id].(blob := Some(hash), size := size)])
  }

  function Overwrite(db: Db, owner: Owner, id: Id, hash: Hash, size: nat, kept: int, version: Id): Outcome
    requires id in db.nodes && db.nodes[id].blob.Some?
  {
    var node := db.nodes[id];
    match PayFor(db, owner, id, hash, size, kept)
    case Err(e) => Err(e)
    case Ok((paid, versioned)) =>
      var settled := Settle(paid.(blobs := Acquire(paid.blobs, hash)), id, node.blob.value, node.size, versioned, version);
      match PruneBeyond(settled, owner, id, kept)
      case Err(e) => Err(e)
      case Ok(pruned) => Ok(pruned.(nodes := db.nodes[id := node.(blob := Some(hash), size := size)]))
  }

  function NewFile(owner: Owner, parent: Id, name: string, hash: Hash, size: nat): Node {
    Node(owner, Some(parent), name, File, Some(hash), size, None)
  }

  function Create(db: Db, owner: Owner, parent: Id, name: string, hash: Hash, size: nat, id: Id): Outcome {
    match Charge(db.quotas, owner, size)
    case Err(e) => Err(e)
    case Ok(quotas) =>
      Ok(db.(quotas := quotas, blobs := Acquire(db.blobs, hash), nodes := db.nodes[id := NewFile(owner, parent, name, hash, size)]))
  }

  ghost predicate Writable(db: Db, owner: Owner, parent: Id) {
    parent in db.nodes && db.nodes[parent].Live() && db.nodes[parent].kind.Directory? && db.nodes[parent].owner == owner
  }

  /** Ids a transaction draws: of a node no row refers to, and of a version younger than every other. */
  predicate Drawn(db: Db, node: Id, version: Id) {
    && node !in db.nodes && (forall v :: v in db.versions ==> db.versions[v].node != node)
    && (forall v :: v in db.versions ==> v < version)
  }

  function PutFile(db: Db, owner: Owner, parent: Id, name: string, hash: Hash, size: nat, kept: int, node: Id, version: Id): Outcome
    requires FilesCarryBlobs(db)
  {
    var admitted := Admit(db, hash, size);
    match ChildOf(db.nodes, parent, name)
    case None => Create(admitted, owner, parent, name, hash, size, node)
    case Some(existing) =>
      if db.nodes[existing].kind.Directory? then Err(Conflict)
      else Overwrite(admitted, owner, existing, hash, size, kept, version)
  }

  // ---------- the ledger through a write ----------

  /** Of one owner's live file. */
  ghost predicate OwnFile(db: Db, owner: Owner, id: Id) {
    id in db.nodes && db.nodes[id].Live() && db.nodes[id].owner == owner && db.nodes[id].kind.File? && db.nodes[id].blob.Some?
  }

  lemma CanRelease(db: Db, hash: Hash, owner: Owner, bytes: int, inserted: set<Hash>)
    requires OffBy(db, owner, bytes, multiset{}, multiset{}, inserted) && ForeignKeys(db)
    requires (exists id :: id in db.nodes && db.nodes[id].blob == Some(hash)) || (exists id :: id in db.versions && db.versions[id].blob == hash)
    ensures hash in db.blobs && db.blobs[hash].refs > 0
  {
    NamedIsExpected(db, hash);
  }

  function RowDropped(db: Db, id: Id): Db
    requires id in db.versions
  {
    db.(blobs := Release(db.blobs, db.versions[id].blob, db.now), versions := db.versions - {id})
  }

  lemma DropOneInSteps(db: Db, owner: Owner, id: Id)
    requires id in db.versions && DropOne(db, owner, id).Ok?
    ensures var delta := -(db.versions[id].size as int);
            && Charge(db.quotas, owner, delta).Ok?
            && DropOne(db, owner, id).value == RowDropped(db, id).(quotas := Charge(db.quotas, owner, delta).value)
  {
  }

  /** A version row and its reference gone: only the charge is still to be given back. */
  lemma RowDroppedIsOwed(db: Db, owner: Owner, id: Id, bytes: int, inserted: set<Hash>)
    requires OffBy(db, owner, bytes, multiset{}, multiset{}, inserted) && ForeignKeys(db)
    requires id in db.versions && OwnFile(db, owner, db.versions[id].node)
    ensures OffBy(RowDropped(db, id), owner, bytes + db.versions[id].size, multiset{}, multiset{}, inserted)
  {
    hide OffBy, ForeignKeys, Release;
    var gone := db.versions[id];
    CanRelease(db, gone.blob, owner, bytes, inserted);
    var released := db.(blobs := Release(db.blobs, gone.blob, db.now));
    Released(db, gone.blob, owner, bytes, multiset{}, multiset{}, inserted);
    VersionGone(released, id, owner, bytes, multiset{}, multiset{} + multiset{gone.blob}, inserted);
    SameNet(RowDropped(db, id), owner, bytes + gone.size, multiset{} + multiset{gone.blob}, multiset{} + multiset{gone.blob}, multiset{}, multiset{}, inserted);
  }

  /** A version dropped with its reference and its charge leaves the ledger where it was. */
  lemma DropOneIsEven(db: Db, owner: Owner, id: Id, inserted: set<Hash>)
    requires OffBy(db, owner, 0, multiset{}, multiset{}, inserted) && ForeignKeys(db)
    requires id in db.versions && OwnFile(db, owner, db.versions[id].node) && DropOne(db, owner, id).Ok?
    ensures OffBy(DropOne(db, owner, id).value, owner, 0, multiset{}, multiset{}, inserted)
  {
    hide OffBy, ForeignKeys, DropOne, Charge, Release;
    DropOneInSteps(db, owner, id);
    RowDroppedIsOwed(db, owner, id, 0, inserted);
    Charged(RowDropped(db, id), owner, -(db.versions[id].size as int), db.versions[id].size, multiset{}, multiset{}, inserted);
  }

  /** `after` is `db` with some of the node's versions given up. */
  ghost predicate Trimmed(db: Db, after: Db, node: Id) {
    && after.nodes == db.nodes && after.thumbnails == db.thumbnails && after.now == db.now
    && after.blobs.Keys == db.blobs.Keys
    && after.quotas.Keys == db.quotas.Keys && (forall o :: o in db.quotas ==> after.quotas[o].max == db.quotas[o].max)
    && (forall v :: v in after.versions ==> v in db.versions && after.versions[v] == db.versions[v])
    && (forall v :: v in db.versions && db.versions[v].node != node ==> v in after.versions)
  }

  lemma TrimmedTwice(a: Db, b: Db, c: Db, node: Id)
    requires Trimmed(a, b, node) && Trimmed(b, c, node)
    ensures Trimmed(a, c, node)
  {
  }

  lemma TrimmedKeepsTheSchema(db: Db, after: Db, node: Id)
    requires Trimmed(db, after, node)
    ensures ForeignKeys(db) ==> ForeignKeys(after)
    ensures Schema(db) ==> Schema(after)
  {
    if Schema(db) { VersionsFitTheSchema(db, after); }
  }

  lemma DropOneTrims(db: Db, owner: Owner, id: Id)
    requires id in db.versions && DropOne(db, owner, id).Ok?
    ensures Trimmed(db, DropOne(db, owner, id).value, db.versions[id].node)
  {
    ChargeMoves(db.quotas, owner, -(db.versions[id].size as int));
  }

  lemma {:induction false} MakeRoomMoves(db: Db, owner: Owner, node: Id, size: nat, previous: nat, inserted: set<Hash>)
    requires OffBy(db, owner, 0, multiset{}, multiset{}, inserted) && ForeignKeys(db) && OwnFile(db, owner, node)
    requires MakeRoom(db, owner, node, size, previous).Ok?
    ensures var (after, versioned) := MakeRoom(db, owner, node, size, previous).value;
            && Trimmed(db, after, node)
            && OffBy(after, owner, if versioned then size as int else size - previous, multiset{}, multiset{}, inserted)
    decreases |db.versions|
  {
    hide OffBy, ForeignKeys, Charge, DropOne, History;
    if Charge(db.quotas, owner, size).Ok? {
      ChargeTrims(db, owner, size, node);
      Charged(db, owner, size, 0, multiset{}, multiset{}, inserted);
    } else if History(db.versions, node) == [] {
      ChargeTrims(db, owner, size - previous, node);
      Charged(db, owner, size - previous, 0, multiset{}, multiset{}, inserted);
    } else {
      var oldest := History(db.versions, node)[0];
      OldestGone(db.versions, node);
      OldestGoes(db, owner, node);
      DropOneIsEven(db, owner, oldest, inserted);
      DropOneTrims(db, owner, oldest);
      var less := DropOne(db, owner, oldest).value;
      TrimmedKeepsTheSchema(db, less, node);
      MakeRoomMoves(less, owner, node, size, previous, inserted);
      TrimmedTwice(db, less, MakeRoom(less, owner, node, size, previous).value.0, node);
    }
  }

  lemma ChargeTrims(db: Db, owner: Owner, delta: int, node: Id)
    requires Charge(db.quotas, owner, delta).Ok?
    ensures Trimmed(db, db.(quotas := Charge(db.quotas, owner, delta).value), node)
  {
    ChargeMoves(db.quotas, owner, delta);
  }

  // ---------- prune_beyond ----------

  function RowsDropped(db: Db, ids: seq<Id>): Db {
    db.(versions := db.versions - Elements(ids), blobs := ReleaseAll(db.blobs, HashesOf(db.versions, ids), db.now))
  }

  lemma RowsDroppedInSteps(db: Db, ids: seq<Id>)
    requires ids != [] && Distinct(ids) && ids[0] in db.versions
    ensures RowsDropped(db, ids) == RowsDropped(RowDropped(db, ids[0]), ids[1..])
    ensures SizeOf(db.versions, ids) == db.versions[ids[0]].size + SizeOf(RowDropped(db, ids[0]).versions, ids[1..])
    ensures forall id :: id in ids[1..] ==> id != ids[0]
  {
    var rest := ids[1..];
    RestIsDistinct(ids);
    hide Distinct;
    HashesUnmoved(db.versions, RowDropped(db, ids[0]).versions, rest);
    SizeUnmoved(db.versions, RowDropped(db, ids[0]).versions, rest);
  }

  lemma RowDroppedTrims(db: Db, id: Id)
    requires id in db.versions
    ensures Trimmed(db, RowDropped(db, id), db.versions[id].node)
  {
  }

  ghost predicate AreVersionsOf(db: Db, ids: seq<Id>, node: Id) {
    forall id :: id in ids ==> id in db.versions && db.versions[id].node == node
  }

  lemma TheRestAreVersions(db: Db, ids: seq<Id>, node: Id)
    requires ids != [] && Distinct(ids) && AreVersionsOf(db, ids, node)
    ensures ids[0] in db.versions && db.versions[ids[0]].node == node
    ensures Distinct(ids[1..]) && AreVersionsOf(RowDropped(db, ids[0]), ids[1..], node)
  {
    assert ids[0] in ids;
    RowsDroppedInSteps(db, ids);
    assert forall id :: id in ids[1..] ==> id in ids;
  }

  lemma NoRowsDropped(db: Db, node: Id)
    ensures RowsDropped(db, []) == db && Trimmed(db, db, node)
  {
    assert db.versions - {} == db.versions;
  }

  lemma {:induction false} RowsDroppedAreOwed(db: Db, owner: Owner, node: Id, ids: seq<Id>, bytes: int)
    requires OffBy(db, owner, bytes, multiset{}, multiset{}, {}) && ForeignKeys(db) && OwnFile(db, owner, node)
    requires Distinct(ids) && AreVersionsOf(db, ids, node)
    ensures Trimmed(db, RowsDropped(db, ids), node)
    ensures OffBy(RowsDropped(db, ids), owner, bytes + SizeOf(db.versions, ids), multiset{}, multiset{}, {})
    decreases |ids|
  {
    hide OffBy, ForeignKeys, RowsDropped, Distinct, AreVersionsOf, RowDropped;
    if ids == [] {
      NoRowsDropped(db, node);
    } else {
      TheRestAreVersions(db, ids, node);
      var less := RowDropped(db, ids[0]);
      RowsDroppedInSteps(db, ids);
      RowDroppedIsOwed(db, owner, ids[0], bytes, {});
      RowDroppedTrims(db, ids[0]);
      TrimmedKeepsTheSchema(db, less, node);
      RowsDroppedAreOwed(less, owner, node, ids[1..], bytes + db.versions[ids[0]].size);
      TrimmedTwice(db, less, RowsDropped(less, ids[1..]), node);
    }
  }

  lemma BeyondHolds(db: Db, node: Id, kept: int)
    ensures Distinct(Beyond(db.versions, node, kept)) && AreVersionsOf(db, Beyond(db.versions, node, kept), node)
  {
    HistoryHolds(db.versions, node);
    var ids := Beyond(db.versions, node, kept);
    forall id | id in ids ensures id in History(db.versions, node) {
      var i :| 0 <= i < |ids| && ids[i] == id;
      assert id == History(db.versions, node)[i];
    }
  }

  lemma PruneKeepsTheBalance(db: Db, owner: Owner, node: Id, kept: int)
    requires Balanced(db) && ForeignKeys(db) && OwnFile(db, owner, node) && PruneBeyond(db, owner, node, kept).Ok?
    ensures Balanced(PruneBeyond(db, owner, node, kept).value)
    ensures Trimmed(db, PruneBeyond(db, owner, node, kept).value, node)
  {
    hide ForeignKeys, OffBy, Balanced, Beyond, Charge;
    var ids := Beyond(db.versions, node, kept);
    BeyondHolds(db, node, kept);
    BalancedIsOffByNothing(db, owner);
    RowsDroppedAreOwed(db, owner, node, ids, 0);
    var dropped := RowsDropped(db, ids);
    var delta := -SizeOf(db.versions, ids);
    Charged(dropped, owner, delta, -delta, multiset{}, multiset{}, {});
    BalancedIsOffByNothing(dropped.(quotas := Charge(dropped.quotas, owner, delta).value), owner);
    ChargeTrims(dropped, owner, delta, node);
    TrimmedTwice(db, dropped, PruneBeyond(db, owner, node, kept).value, node);
  }

  // ---------- put_file ----------

  lemma PayForMoves(db: Db, owner: Owner, id: Id, hash: Hash, size: nat, kept: int, inserted: set<Hash>)
    requires OffBy(db, owner, 0, multiset{}, multiset{}, inserted) && ForeignKeys(db) && OwnFile(db, owner, id)
    requires PayFor(db, owner, id, hash, size, kept).Ok?
    ensures var (paid, versioned) := PayFor(db, owner, id, hash, size, kept).value;
            && Trimmed(db, paid, id)
            && OffBy(paid, owner, if versioned then size as int else size - db.nodes[id].size, multiset{}, multiset{}, inserted)
  {
    hide OffBy, ForeignKeys, Charge, MakeRoom;
    var node := db.nodes[id];
    if kept > 0 && node.size > 0 && node.blob != Some(hash) {
      MakeRoomMoves(db, owner, id, size, node.size, inserted);
    } else {
      Charged(db, owner, size - node.size, 0, multiset{}, multiset{}, inserted);
      ChargeTrims(db, owner, size - node.size, id);
    }
  }

  /** What stays of `db` once the replaced content has gone to a version or been released. */
  ghost predicate Settled(db: Db, after: Db, id: Id, previous: Hash, size: nat, versioned: bool, version: Id) {
    && after.nodes == db.nodes && after.thumbnails == db.thumbnails && after.quotas == db.quotas && after.now == db.now
    && after.blobs.Keys == db.blobs.Keys
    && after.versions == if versioned then db.versions[version := Version(id, previous, size)] else db.versions
  }

  lemma SettleMoves(db: Db, owner: Owner, id: Id, hash: Hash, previous: Hash, size: nat, versioned: bool, version: Id, bytes: int)
    requires OffBy(db, owner, bytes, multiset{} + multiset{hash}, multiset{}, {})
    requires OwnFile(db, owner, id) && version !in db.versions && previous in db.blobs && db.blobs[previous].refs > 0
    ensures var after := Settle(db, id, previous, size, versioned, version);
            && Settled(db, after, id, previous, size, versioned, version)
            && OffBy(after, owner, if versioned then bytes - size else bytes, multiset{} + multiset{hash}, multiset{} + multiset{previous}, {})
  {
    hide OffBy;
    if versioned {
      VersionAdded(db, version, Version(id, previous, size), owner, bytes, multiset{} + multiset{hash}, multiset{}, {});
    } else {
      Released(db, previous, owner, bytes, multiset{} + multiset{hash}, multiset{}, {});
    }
  }

  /** The replaced content settled and the new content written: the ledger is even again. */
  lemma WriteEvens(db: Db, owner: Owner, id: Id, hash: Hash, size: nat)
    requires OwnFile(db, owner, id)
    requires OffBy(db, owner, size - db.nodes[id].size, multiset{} + multiset{hash}, multiset{} + multiset{db.nodes[id].blob.value}, {})
    ensures Balanced(WriteContent(db, id, hash, size))
  {
    hide OffBy, Balanced;
    var node := db.nodes[id];
    var previous := node.blob.value;
    var written := node.(blob := Some(hash), size := size);
    var after := WriteContent(db, id, hash, size);
    NodeWritten(db, id, written, owner, size - node.size, multiset{} + multiset{hash}, multiset{} + multiset{previous}, {});
    SameNet(after, owner, 0, multiset{} + multiset{hash} + Blobs(node), multiset{} + multiset{previous} + Blobs(written), multiset{}, multiset{}, {});
    BalancedIsOffByNothing(after, owner);
  }

  /** An overwrite short of its pruning. */
  function Unpruned(db: Db, owner: Owner, id: Id, hash: Hash, size: nat, kept: int, version: Id): Outcome
    requires id in db.nodes && db.nodes[id].blob.Some?
  {
    match PayFor(db, owner, id, hash, size, kept)
    case Err(e) => Err(e)
    case Ok((paid, versioned)) =>
      var settled := Settle(paid.(blobs := Acquire(paid.blobs, hash)), id, db.nodes[id].blob.value, db.nodes[id].size, versioned, version);
      Ok(settled.(nodes := db.nodes[id := db.nodes[id].(blob := Some(hash), size := size)]))
  }

  lemma UnprunedBalances(db: Db, owner: Owner, id: Id, hash: Hash, size: nat, kept: int, version: Id, inserted: set<Hash>)
    requires OffBy(db, owner, 0, multiset{}, multiset{}, inserted) && inserted <= {hash} && hash in db.blobs
    requires ForeignKeys(db) && OwnFile(db, owner, id) && (forall v :: v in db.versions ==> v < version)
    requires Unpruned(db, owner, id, hash, size, kept, version).Ok?
    ensures Balanced(Unpruned(db, owner, id, hash, size, kept, version).value)
  {
    hide OffBy, Balanced, ForeignKeys, PayFor, Settle, Acquire;
    var node := db.nodes[id];
    var (paid, versioned) := PayFor(db, owner, id, hash, size, kept).value;
    PayForMoves(db, owner, id, hash, size, kept, inserted);
    TrimmedKeepsTheSchema(db, paid, id);
    var bytes := if versioned then size as int else size - node.size;
    assert paid.nodes[id].blob == Some(node.blob.value);
    CanRelease(paid, node.blob.value, owner, bytes, inserted);
    var acquired := paid.(blobs := Acquire(paid.blobs, hash));
    Acquired(paid, hash, owner, bytes, multiset{}, multiset{}, inserted);
    AcquireKeepsKeys(paid.blobs, hash);
    assert inserted - {hash} == {};
    SettleMoves(acquired, owner, id, hash, node.blob.value, node.size, versioned, version, bytes);
    WriteEvens(Settle(acquired, id, node.blob.value, node.size, versioned, version), owner, id, hash, size);
  }

  lemma AcquireKeepsKeys(blobs: map<Hash, Blob>, hash: Hash)
    ensures Acquire(blobs, hash).Keys == blobs.Keys
    ensures forall h :: h in blobs ==> Acquire(blobs, hash)[h].refs >= blobs[h].refs
  {
  }

  lemma OverwriteIsPrunedLast(db: Db, owner: Owner, id: Id, hash: Hash, size: nat, kept: int, version: Id)
    requires id in db.nodes && db.nodes[id].blob.Some?
    ensures var unpruned := Unpruned(db, owner, id, hash, size, kept, version);
            Overwrite(db, owner, id, hash, size, kept, version) == if unpruned.Ok? then PruneBeyond(unpruned.value, owner, id, kept) else Err(unpruned.error)
  {
    hide PayFor, Settle, Acquire, Charge, Beyond, HashesOf, SizeOf, ReleaseAll;
  }

  /** What an overwrite may change: the node's content, its versions, counts and charges. */
  ghost predicate Rewritten(db: Db, after: Db, id: Id, hash: Hash, size: nat, version: Id)
    requires id in db.nodes && db.nodes[id].blob.Some?
  {
    && after.nodes == db.nodes[id := db.nodes[id].(blob := Some(hash), size := size)]
    && after.thumbnails == db.thumbnails && after.now == db.now && after.blobs.Keys == db.blobs.Keys
    && after.quotas.Keys == db.quotas.Keys && (forall o :: o in db.quotas ==> after.quotas[o].max == db.quotas[o].max)
    && (forall v :: v in after.versions ==>
          if v == version then after.versions[v] == Version(id, db.nodes[id].blob.value, db.nodes[id].size)
          else v in db.versions && after.versions[v] == db.versions[v])
    && (forall v :: v in db.versions && db.versions[v].node != id ==> v in after.versions)
  }

  lemma UnprunedRewrites(db: Db, owner: Owner, id: Id, hash: Hash, size: nat, kept: int, version: Id)
    requires OwnFile(db, owner, id) && (forall v :: v in db.versions ==> v < version)
    requires Unpruned(db, owner, id, hash, size, kept, version).Ok?
    ensures Rewritten(db, Unpruned(db, owner, id, hash, size, kept, version).value, id, hash, size, version)
  {
    hide Charge, MakeRoom;
    var node := db.nodes[id];
    if kept > 0 && node.size > 0 && node.blob != Some(hash) {
      MakeRoomTrims(db, owner, id, size, node.size);
    } else {
      ChargeTrims(db, owner, size - node.size, id);
    }
    var (paid, versioned) := PayFor(db, owner, id, hash, size, kept).value;
    assert Trimmed(db, paid, id);
    hide PayFor;
  }

  lemma {:induction false} MakeRoomTrims(db: Db, owner: Owner, node: Id, size: nat, previous: nat)
    requires MakeRoom(db, owner, node, size, previous).Ok?
    ensures Trimmed(db, MakeRoom(db, owner, node, size, previous).value.0, node)
    decreases |db.versions|
  {
    hide Charge, DropOne, History;
    if Charge(db.quotas, owner, size).Ok? {
      ChargeTrims(db, owner, size, node);
    } else if History(db.versions, node) == [] {
      ChargeTrims(db, owner, size - previous, node);
    } else {
      var oldest := History(db.versions, node)[0];
      OldestGone(db.versions, node);
      OldestGoes(db, owner, node);
      DropOneTrims(db, owner, oldest);
      var less := DropOne(db, owner, oldest).value;
      MakeRoomTrims(less, owner, node, size, previous);
      TrimmedTwice(db, less, MakeRoom(less, owner, node, size, previous).value.0, node);
    }
  }

  lemma RewrittenThenTrimmed(db: Db, rewritten: Db, after: Db, id: Id, hash: Hash, size: nat, version: Id)
    requires id in db.nodes && db.nodes[id].blob.Some?
    requires Rewritten(db, rewritten, id, hash, size, version) && Trimmed(rewritten, after, id) && version !in db.versions
    ensures Rewritten(db, after, id, hash, size, version)
  {
  }

  lemma RewrittenKeepsTheSchema(db: Db, after: Db, owner: Owner, id: Id, hash: Hash, size: nat, version: Id)
    requires Shaped(db.nodes) && Schema(db)
    requires OwnFile(db, owner, id) && hash in db.blobs && Rewritten(db, after, id, hash, size, version)
    ensures Shaped(after.nodes) && Schema(after)
  {
    hide Shaped, ForeignKeys, FilesCarryBlobs, VersionsAreOfFiles;
    ContentIsNoMatter(db.nodes, after.nodes);
    NodeIsInTheSchema(db, id);
    NodeFitsTheSchema(db, id, db.nodes[id].(blob := Some(hash), size := size));
    VersionsFitTheSchema(db.(nodes := after.nodes), after);
  }

  lemma OverwriteKeepsTheLedger(db: Db, owner: Owner, id: Id, hash: Hash, size: nat, kept: int, version: Id, inserted: set<Hash>)
    requires OffBy(db, owner, 0, multiset{}, multiset{}, inserted) && inserted <= {hash} && hash in db.blobs
    requires Shaped(db.nodes) && Schema(db)
    requires OwnFile(db, owner, id) && (forall v :: v in db.versions ==> v < version)
    requires Overwrite(db, owner, id, hash, size, kept, version).Ok?
    ensures Sound(Overwrite(db, owner, id, hash, size, kept, version).value)
    ensures Rewritten(db, Overwrite(db, owner, id, hash, size, kept, version).value, id, hash, size, version)
  {
    hide Shaped, OffBy, Balanced, PruneBeyond, Unpruned, Overwrite, ForeignKeys, FilesCarryBlobs, VersionsAreOfFiles;
    var unpruned := Unpruned(db, owner, id, hash, size, kept, version);
    OverwriteIsPrunedLast(db, owner, id, hash, size, kept, version);
    UnprunedBalances(db, owner, id, hash, size, kept, version, inserted);
    UnprunedRewrites(db, owner, id, hash, size, kept, version);
    RewrittenKeepsTheSchema(db, unpruned.value, owner, id, hash, size, version);
    PruneKeepsTheBalance(unpruned.value, owner, id, kept);
    var after := PruneBeyond(unpruned.value, owner, id, kept).value;
    TrimmedKeepsTheSchema(unpruned.value, after, id);
    RewrittenThenTrimmed(db, unpruned.value, after, id, hash, size, version);
  }

  lemma CreateBalances(db: Db, owner: Owner, parent: Id, name: string, hash: Hash, size: nat, id: Id, inserted: set<Hash>)
    requires OffBy(db, owner, 0, multiset{}, multiset{}, inserted) && inserted <= {hash} && hash in db.blobs
    requires forall v :: v in db.versions ==> db.versions[v].node != id
    requires id !in db.nodes && Create(db, owner, parent, name, hash, size, id).Ok?
    ensures Balanced(Create(db, owner, parent, name, hash, size, id).value)
  {
    hide OffBy, Balanced, Charge, Acquire;
    var n := NewFile(owner, parent, name, hash, size);
    var after := Create(db, owner, parent, name, hash, size, id).value;
    var charged := db.(quotas := Charge(db.quotas, owner, size).value);
    Charged(db, owner, size, 0, multiset{}, multiset{}, inserted);
    Acquired(charged, hash, owner, size, multiset{}, multiset{}, inserted);
    assert inserted - {hash} == {};
    var acquired := charged.(blobs := Acquire(db.blobs, hash));
    NodeWritten(acquired, id, n, owner, size, multiset{} + multiset{hash}, multiset{}, {});
    SameNet(after, owner, 0, multiset{} + multiset{hash} + multiset{}, multiset{} + Blobs(n), multiset{}, multiset{}, {});
    BalancedIsOffByNothing(after, owner);
  }

  lemma CreateKeepsTheSchema(db: Db, owner: Owner, parent: Id, name: string, hash: Hash, size: nat, id: Id)
    requires Shaped(db.nodes) && Schema(db)
    requires Writable(db, owner, parent) && NameIsFree(db.nodes, NewFile(owner, parent, name, hash, size))
    requires hash in db.blobs && id !in db.nodes && Create(db, owner, parent, name, hash, size, id).Ok?
    ensures var after := Create(db, owner, parent, name, hash, size, id).value; Shaped(after.nodes) && Schema(after)
  {
    hide Shaped, Charge, Acquire, ForeignKeys, FilesCarryBlobs, VersionsAreOfFiles, NameIsFree;
    var n := NewFile(owner, parent, name, hash, size);
    LeafKeepsTheShape(db.nodes, id, n);
    AcquireKeepsKeys(db.blobs, hash);
    NodeFitsTheSchema(db, id, n);
    VersionsFitTheSchema(db.(nodes := db.nodes[id := n]), Create(db, owner, parent, name, hash, size, id).value);
  }

  lemma ChildIsFound(nodes: map<Id, Node>, parent: Id, name: string)
    ensures ChildOf(nodes, parent, name).Some? ==>
              var id := ChildOf(nodes, parent, name).value;
              id in nodes && nodes[id].Live() && nodes[id].parent == Some(parent) && nodes[id].name == name
    ensures ChildOf(nodes, parent, name).None? ==>
              forall id :: id in nodes && nodes[id].Live() ==> !(nodes[id].parent == Some(parent) && nodes[id].name == name)
  {
    assert forall id :: id in nodes && nodes[id].Live() && nodes[id].parent == Some(parent) && nodes[id].name == name ==> id in Named(nodes, parent, name);
  }

  lemma AdmitMoves(db: Db, hash: Hash, size: nat, owner: Owner) returns (inserted: set<Hash>)
    requires Balanced(db) && ForeignKeys(db)
    ensures var after := Admit(db, hash, size);
            && OffBy(after, owner, 0, multiset{}, multiset{}, inserted) && inserted <= {hash} && hash in after.blobs
            && ForeignKeys(after)
  {
    BalancedIsOffByNothing(db, owner);
    if hash in db.blobs { inserted := {}; } else { BlobInserted(db, hash, size, owner); inserted := {hash}; }
    hide OffBy, Balanced;
  }

  /** What a write leaves: a new live file under the name, or the file there with the new content and nothing else about it changed. */
  ghost predicate FileIsWritten(db: Db, after: Db, owner: Owner, parent: Id, name: string, hash: Hash, size: nat, node: Id, version: Id) {
    match ChildOf(db.nodes, parent, name)
    case Some(id) => id in db.nodes && OwnFile(db, owner, id) && Rewritten(Admit(db, hash, size), after, id, hash, size, version)
    case None =>
      && after.nodes == db.nodes[node := Node(owner, Some(parent), name, File, Some(hash), size, None)]
      && after.versions == db.versions && after.thumbnails == db.thumbnails && after.now == db.now
      && after.blobs.Keys == db.blobs.Keys + {hash}
      && after.quotas.Keys == db.quotas.Keys && forall o :: o in db.quotas ==> after.quotas[o].max == db.quotas[o].max
  }

  /** Whatever a write does, it leaves a sound ledger. */
  lemma PutFileKeepsTheLedger(db: Db, owner: Owner, parent: Id, name: string, hash: Hash, size: nat, kept: int, node: Id, version: Id)
    requires Sound(db) && Writable(db, owner, parent) && Drawn(db, node, version)
    requires PutFile(db, owner, parent, name, hash, size, kept, node, version).Ok?
    ensures Sound(PutFile(db, owner, parent, name, hash, size, kept, node, version).value)
    ensures FileIsWritten(db, PutFile(db, owner, parent, name, hash, size, kept, node, version).value, owner, parent, name, hash, size, node, version)
  {
    hide Rewritten, Shaped, OffBy, Balanced, Overwrite, Create, NameIsFree, ForeignKeys, VersionsAreOfFiles, ChildOf, Writable;
    var admitted := Admit(db, hash, size);
    var inserted := AdmitMoves(db, hash, size, owner);
    VersionsFitTheSchema(db, admitted);
    if ChildOf(db.nodes, parent, name).Some? {
      ChildIsOwnFile(db, owner, parent, name);
      OverwriteKeepsTheLedger(admitted, owner, ChildOf(db.nodes, parent, name).value, hash, size, kept, version, inserted);
    } else {
      NoChildIsFreeName(db.nodes, owner, parent, name, hash, size);
      CreateBalances(admitted, owner, parent, name, hash, size, node, inserted);
      WritableStill(db, admitted, owner, parent);
      CreateKeepsTheSchema(admitted, owner, parent, name, hash, size, node);
      CreateLeaves(admitted, owner, parent, name, hash, size, node);
    }
  }

  lemma CreateLeaves(db: Db, owner: Owner, parent: Id, name: string, hash: Hash, size: nat, id: Id)
    requires Create(db, owner, parent, name, hash, size, id).Ok?
    ensures var after := Create(db, owner, parent, name, hash, size, id).value;
            && after == db.(nodes := db.nodes[id := NewFile(owner, parent, name, hash, size)], quotas := after.quotas, blobs := after.blobs)
            && after.blobs.Keys == db.blobs.Keys
            && after.quotas.Keys == db.quotas.Keys && forall o :: o in db.quotas ==> after.quotas[o].max == db.quotas[o].max
  {
    ChargeMoves(db.quotas, owner, size);
    AcquireKeepsKeys(db.blobs, hash);
  }

  lemma WritableStill(db: Db, after: Db, owner: Owner, parent: Id)
    requires Writable(db, owner, parent) && after.nodes == db.nodes
    ensures Writable(after, owner, parent)
  {
  }

  lemma ChildIsOwnFile(db: Db, owner: Owner, parent: Id, name: string)
    requires Shaped(db.nodes) && Schema(db) && Writable(db, owner, parent)
    requires ChildOf(db.nodes, parent, name).Some?
    ensures ChildOf(db.nodes, parent, name).value in db.nodes
    ensures var id := ChildOf(db.nodes, parent, name).value;
            db.nodes[id].owner == owner && (db.nodes[id].kind.File? ==> OwnFile(db, owner, id))
  {
    ChildIsFound(db.nodes, parent, name);
  }

  lemma NoChildIsFreeName(nodes: map<Id, Node>, owner: Owner, parent: Id, name: string, hash: Hash, size: nat)
    requires ChildOf(nodes, parent, name).None?
    ensures NameIsFree(nodes, NewFile(owner, parent, name, hash, size))
  {
    ChildIsFound(nodes, parent, name);
  }
}
