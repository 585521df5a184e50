/** The statements of `put_file` (api/src/db.rs), of api/src/versions.rs and of `restore` (api/src/routes/versions.rs), run against the tables in place. */
module FileTransactions {
  import opened Results
  import opened Tables
  import opened Histories
  import opened Files
  import opened Overwrites
  import opened Transactions

  /** `drop_oldest`: false when no version is left to drop. */
  method DropOldest(tx: Transaction, owner: Owner, node: Id) returns (r: Result<bool, ApiError>)
    modifies tx`versions, tx`blobs, tx`quotas
    ensures var history := History(old(tx.versions), node);
            if history == [] then r == Ok(false) && tx.Rows() == old(tx.Rows())
            else
              match DropOne(old(tx.Rows()), owner, history[0])
              case Ok(less) => r == Ok(true) && tx.Rows() == less && |tx.versions| < |old(tx.versions)|
              case Err(e) => r == Err(e)
  {
    var history := History(tx.versions, node);
    if history == [] { return Ok(false); }
    var oldest := history[0];
    OldestGone(tx.versions, node);
    var gone := tx.versions[oldest];
    assert (tx.versions - {oldest}).Keys == tx.versions.Keys - {oldest};
    tx.versions := tx.versions - {oldest};
    tx.ReleaseBlob(gone.blob);
    var charged := tx.ChargeQuota(owner, -(gone.size as int));
    if charged.Err? { return Err(charged.error); }
    return Ok(true);
  }

  /** `make_room`: one version after another given up until the new content fits. */
  method MakeRoomIn(tx: Transaction, owner: Owner, node: Id, size: nat, previous: nat) returns (r: Result<bool, ApiError>)
    modifies tx`versions, tx`blobs, tx`quotas
    ensures match MakeRoom(old(tx.Rows()), owner, node, size, previous)
            case Ok((after, versioned)) => r == Ok(versioned) && tx.Rows() == after
            case Err(e) => r == Err(e)
  {
    while true
      invariant MakeRoom(tx.Rows(), owner, node, size, previous) == MakeRoom(old(tx.Rows()), owner, node, size, previous)
      decreases |tx.versions|
    {
      var charged := tx.ChargeQuota(owner, size);
      if charged.Ok? { return Ok(true); }
      var dropped := DropOldest(tx, owner, node);
      if dropped.Err? { return dropped; }
      if !dropped.value {
        charged := tx.ChargeQuota(owner, size - previous);
        if charged.Err? { return Err(charged.error); }
        return Ok(false);
      }
    }
    return Ok(false);
  }

  /** `prune_beyond`: every row past the newest `kept` deleted, then each released, then all of them credited. */
  method PruneBeyondIn(tx: Transaction, owner: Owner, node: Id, kept: int) returns (r: Reply)
    modifies tx`versions, tx`blobs, tx`quotas
    ensures match PruneBeyond(old(tx.Rows()), owner, node, kept)
            case Ok(after) => r == Ok(()) && tx.Rows() == after
            case Err(e) => r == Err(e)
  {
    var ids := Beyond(tx.versions, node, kept);
    var hashes, freed := HashesOf(tx.versions, ids), SizeOf(tx.versions, ids);
    tx.versions := tx.versions - Elements(ids);
    tx.ReleaseBlobs(hashes);
    r := tx.ChargeQuota(owner, -freed);
  }

  /** `put_file`. */
  method PutFileIn(tx: Transaction, owner: Owner, parent: Id, name: string, hash: Hash, size: nat, kept: int) returns (r: Result<Id, ApiError>)
    requires FilesCarryBlobs(tx.Rows())
    modifies tx
    ensures match PutFile(old(tx.Rows()), owner, parent, name, hash, size, kept, old(tx.next), old(tx.next))
            case Ok(after) => r.Ok? && tx.Rows() == after
            case Err(e) => r == Err(e)
  {
    if hash !in tx.blobs { tx.blobs := tx.blobs[hash := Blob(size, 0, None)]; }
    var existing := ChildOf(tx.nodes, parent, name);
    ChildIsFound(tx.nodes, parent, name);
    if existing.None? {
      var charged := tx.ChargeQuota(owner, size);
      if charged.Err? { return Err(charged.error); }
      tx.AcquireBlob(hash);
      var id := tx.Draw();
      tx.nodes := tx.nodes[id := NewFile(owner, parent, name, hash, size)];
      return Ok(id);
    }
    var id := existing.value;
    if tx.nodes[id].kind.Directory? { return Err(Conflict); }
    r := OverwriteIn(tx, owner, id, hash, size, kept);
  }

  /** How an overwrite is paid for, and whether the replaced content is kept. */
  method PayForIn(tx: Transaction, owner: Owner, id: Id, hash: Hash, size: nat, kept: int) returns (r: Result<bool, ApiError>)
    requires id in tx.nodes
    modifies tx`versions, tx`blobs, tx`quotas
    ensures match PayFor(old(tx.Rows()), owner, id, hash, size, kept)
            case Ok((after, versioned)) => r == Ok(versioned) && tx.Rows() == after
            case Err(e) => r == Err(e)
  {
    hide MakeRoom, Charge;
    var node := tx.nodes[id];
    if kept > 0 && node.size > 0 && node.blob != Some(hash) {
      r := MakeRoomIn(tx, owner, id, size, node.size);
    } else {
      var charged := tx.ChargeQuota(owner, size - node.size);
      if charged.Err? { return Err(charged.error); }
      return Ok(false);
    }
  }

  method OverwriteIn(tx: Transaction, owner: Owner, id: Id, hash: Hash, size: nat, kept: int) returns (r: Result<Id, ApiError>)
    requires id in tx.nodes && tx.nodes[id].blob.Some?
    modifies tx
    ensures match Overwrite(old(tx.Rows()), owner, id, hash, size, kept, old(tx.next))
            case Ok(after) => r == Ok(id) && tx.Rows() == after
            case Err(e) => r == Err(e)
  {
    hide PayFor, PruneBeyond, Acquire, Release;
    var node := tx.nodes[id];
    var paid := PayForIn(tx, owner, id, hash, size, kept);
    if paid.Err? { return Err(paid.error); }
    tx.AcquireBlob(hash);
    if paid.value {
      var version := tx.Draw();
      tx.versions := tx.versions[version := Version(id, node.blob.value, node.size)];
    } else {
      tx.ReleaseBlob(node.blob.value);
    }
    var pruned := PruneBeyondIn(tx, owner, id, kept);
    if pruned.Err? { return Err(pruned.error); }
    tx.nodes := tx.nodes[id := node.(blob := Some(hash), size := size)];
    return Ok(id);
  }

  /** `take`. */
  method TakeIn(tx: Transaction, owner: Owner, node: Id, id: Id) returns (r: Result<Version, ApiError>)
    modifies tx`versions, tx`blobs, tx`quotas
    ensures match Take(old(tx.Rows()), owner, node, id)
            case Ok(after) => id in old(tx.versions) && r == Ok(old(tx.versions)[id]) && tx.Rows() == after
            case Err(e) => r == Err(e)
  {
    if id !in tx.versions || tx.versions[id].node != node { return Err(NotFound); }
    var taken := tx.versions[id];
    tx.versions := tx.versions - {id};
    tx.ReleaseBlob(taken.blob);
    var charged := tx.ChargeQuota(owner, -(taken.size as int));
    if charged.Err? { return Err(charged.error); }
    return Ok(taken);
  }

  /** `restore` of a version: it is taken, and written where its file is. */
  method RestoreVersionIn(tx: Transaction, owner: Owner, parent: Id, name: string, version: Id, kept: int) returns (r: Result<Id, ApiError>)
    requires FilesCarryBlobs(tx.Rows())
    modifies tx
    ensures match RestoreVersion(old(tx.Rows()), owner, parent, name, version, kept, old(tx.next), old(tx.next))
            case Ok(after) => r.Ok? && tx.Rows() == after
            case Err(e) => r == Err(e)
  {
    hide ChildOf, PutFile, Take;
    var found := ChildOf(tx.nodes, parent, name);
    ChildIsFound(tx.nodes, parent, name);
    if found.None? { return Err(NotFound); }
    if tx.nodes[found.value].kind.Directory? { return Err(WrongKind); }
    TakeKeepsTheRest(tx.Rows(), owner, found.value, version);
    var taken := TakeIn(tx, owner, found.value, version);
    if taken.Err? { return Err(taken.error); }
    r := PutFileIn(tx, owner, parent, name, taken.value.blob, taken.value.size, kept);
  }
}
