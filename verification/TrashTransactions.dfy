/** The statements of `send`, `restore`, `purge` and `empty` (api/src/trash.rs), run against the tables in place. */
module TrashTransactions {
  import opened Results
  import opened Sums
  import opened Tables
  import opened Trees
  import opened Ledger
  import opened Histories
  import opened Trash
  import opened Purging
  import opened Transactions

  /** `send`. */
  method SendIn(tx: Transaction, id: Id) returns (r: Reply)
    requires id in tx.nodes
    modifies tx`nodes, tx`quotas
    ensures match Send(old(tx.Rows()), id)
            case Ok(after) => r == Ok(()) && tx.Rows() == after
            case Err(e) => r == Err(e)
  {
    hide Under, Charge;
    var owner := tx.nodes[id].owner;
    var marked := Under(tx.nodes, LiveIds(tx.nodes), id);
    var sizes := Total(MarkedSizes(tx.nodes, marked));
    var kept := Total(SizesUnder(tx.versions, marked));
    tx.nodes := Bury(tx.nodes, marked, id);
    r := tx.ChargeQuota(owner, -(sizes + kept));
  }

  // ---------- restore ----------

  predicate Taken(nodes: map<Id, Node>, id: Id)
    requires id in nodes
  {
    exists other :: other in nodes && other != id && nodes[other].Live() && SamePlace(nodes[other], nodes[id])
  }

  lemma ReviveOneMore(nodes: map<Id, Node>, done: seq<Id>, id: Id)
    requires id in nodes
    ensures Revive(nodes, Elements(done))[id := nodes[id].(trash := None)] == Revive(nodes, Elements(done + [id]))
    ensures id !in done ==>
              MarkedSizes(nodes, Elements(done + [id])) == MarkedSizes(nodes, Elements(done))[id := nodes[id].size] && id !in MarkedSizes(nodes, Elements(done))
  {
    assert Elements(done + [id]) == Elements(done) + {id};
  }

  lemma OpenedOneMore(nodes: map<Id, Node>, done: seq<Id>, id: Id)
    requires id in nodes && nodes[id].trash.Some?
    ensures Opened(nodes, done + [id]) ==
            if nodes[id].trash.value in Opened(nodes, done) then Opened(nodes, done) else Opened(nodes, done) + [nodes[id].trash.value]
  {
    assert (done + [id])[..|done|] == done;
  }

  /** A name taken on the way up is a name taken once everything is back. */
  lemma TakenStaysTaken(nodes: map<Id, Node>, id: Id, done: seq<Id>, x: Id)
    requires id in nodes && x in nodes && Elements(done + [x]) <= Elements(TrashedAbove(nodes, nodes[id].parent, {}))
    requires Taken(Revive(nodes, Elements(done + [x])), x)
    ensures !NamesAreUnique(Raise(nodes, id))
  {
    hide TrashedAbove, Raise;
    RaiseIsRevive(nodes, id);
    var some := Revive(nodes, Elements(done + [x]));
    var other :| other in some && other != x && some[other].Live() && SamePlace(some[other], some[x]);
    var raised := Raise(nodes, id);
    assert x in done + [x];
    assert raised[x].Live() && raised[other].Live() && SamePlace(raised[x], raised[other]);
  }

  /** `restore_ancestors`: each trashed row on the way up is brought back, its batch noted, until one is live. */
  method RestoreAncestors(tx: Transaction, id: Id) returns (r: Result<(int, seq<Id>), ApiError>)
    requires id in tx.nodes
    modifies tx`nodes
    ensures var nodes, above := old(tx.nodes), TrashedAbove(old(tx.nodes), old(tx.nodes)[id].parent, {});
            match r
            case Ok((charged, batches)) =>
              tx.nodes == Revive(nodes, Elements(above)) && batches == Opened(nodes, above) && charged == Sum(MarkedSizes(nodes, Elements(above)))
            case Err(e) => e == Conflict && !NamesAreUnique(Raise(nodes, id))
  {
    hide Raise, Opened, NamesAreUnique, Sum, MarkedSizes;
    ghost var nodes := tx.nodes;
    ghost var above := TrashedAbove(nodes, nodes[id].parent, {});
    ghost var done: seq<Id> := [];
    var charged, batches, next := 0, [], tx.nodes[id].parent;
    NothingOpened(nodes);
    assert Elements(done) == {};
    while next.Some? && next.value in tx.nodes && !tx.nodes[next.value].Live()
      invariant tx.nodes == Revive(nodes, Elements(done))
      invariant above == done + TrashedAbove(nodes, next, Elements(done))
      invariant batches == Opened(nodes, done) && charged == Sum(MarkedSizes(nodes, Elements(done)))
      decreases nodes.Keys - Elements(done)
    {
      var ancestor := next.value;
      var row := tx.nodes[ancestor];
      assert ancestor !in done && nodes[ancestor] == row;
      ReviveOneMore(nodes, done, ancestor);
      OpenedOneMore(nodes, done, ancestor);
      SumWith(MarkedSizes(nodes, Elements(done)), ancestor, row.size);
      ghost var rest := TrashedAbove(nodes, row.parent, Elements(done) + {ancestor});
      assert Elements(done + [ancestor]) == Elements(done) + {ancestor};
      assert above == done + [ancestor] + rest;
      tx.nodes := tx.nodes[ancestor := row.(trash := None)];
      if Taken(tx.nodes, ancestor) {
        TakenStaysTaken(nodes, id, done, ancestor);
        return Err(Conflict);
      }
      if row.trash.value !in batches { batches := batches + [row.trash.value]; }
      charged := charged + row.size;
      next := row.parent;
      done := done + [ancestor];
    }
    assert above == done;
    return Ok((charged, batches));
  }

  lemma NothingOpened(nodes: map<Id, Node>)
    ensures Opened(nodes, []) == [] && Revive(nodes, Elements([])) == nodes && Sum(MarkedSizes(nodes, Elements([]))) == 0
  {
    assert MarkedSizes(nodes, Elements([])) == map[];
    assert Elements([]) == {};
  }

  /** `restore`. */
  method RestoreIn(tx: Transaction, owner: Owner, id: Id) returns (r: Reply)
    modifies tx`nodes, tx`quotas
    ensures match Restore(old(tx.Rows()), owner, id)
            case Ok(after) => r == Ok(()) && tx.Rows() == after
            case Err(e) => r == Err(e)
  {
    hide TrashedAbove, Opened, NamesAreUnique, Reroot, Charge, Revive, MarkedSizes, SizesUnder, BatchOf;
    if !IsRoot(tx.Rows(), owner, id) { return Err(NotFound); }
    ghost var db := tx.Rows();
    RestoreReadsTheSame(db, owner, id);
    var opening := RestoreAncestors(tx, id);
    if opening.Err? { return Err(Conflict); }
    var (charged, batches) := opening.value;
    var batch := BatchOf(tx.nodes, id);
    var sizes := Total(MarkedSizes(tx.nodes, batch));
    var kept := Total(SizesUnder(tx.versions, batch));
    tx.nodes := Revive(tx.nodes, batch);
    if !NamesAreUnique(tx.nodes) { return Err(Conflict); }
    ghost var raised := tx.nodes;
    for i := 0 to |batches|
      invariant RerootAll(tx.nodes, batches[i..]) == RerootAll(raised, batches) && tx.quotas == db.quotas
    {
      assert batches[i..][0] == batches[i] && batches[i..][1..] == batches[i + 1..];
      tx.nodes := Reroot(tx.nodes, batches[i]);
    }
    assert batches[|batches|..] == [];
    r := tx.ChargeQuota(owner, charged + sizes + kept);
  }

  /** Bringing rows back does not change their sizes. */
  lemma RestoreReadsTheSame(db: Db, owner: Owner, id: Id)
    requires id in db.nodes
    ensures var aired := Revive(db.nodes, Elements(TrashedAbove(db.nodes, db.nodes[id].parent, {})));
            var batch := BatchOf(aired, id);
            && MarkedSizes(aired, batch) == MarkedSizes(db.nodes, batch)
            && Raise(db.nodes, id) == Revive(aired, batch)
  {
    hide TrashedAbove;
  }

  // ---------- purge and empty ----------

  /** `purge`. */
  method PurgeIn(tx: Transaction, owner: Owner, id: Id) returns (r: Reply)
    modifies tx`nodes, tx`versions, tx`blobs
    ensures match Purge(old(tx.Rows()), owner, id)
            case Ok(after) => r == Ok(()) && tx.Rows() == after
            case Err(e) => r == Err(e) && tx.Rows() == old(tx.Rows())
  {
    hide Under, Cascade, NodeHashes, HashesOf, Ordered;
    if !IsRoot(tx.Rows(), owner, id) { return Err(NotFound); }
    var buried := Under(tx.nodes, tx.nodes.Keys, id);
    var hashes := NodeHashes(tx.nodes, Ordered(buried)) + HashesOf(tx.versions, Ordered(VersionsUnder(tx.versions, buried)));
    var gone := Cascade(tx.nodes, {id});
    tx.versions := tx.versions - VersionsUnder(tx.versions, gone);
    tx.nodes := tx.nodes - gone;
    tx.ReleaseBlobs(hashes);
    return Ok(());
  }

  /** The roots of an owner's trash, in no order in particular. */
  method RootsIn(tx: Transaction, owner: Owner) returns (roots: seq<Id>)
    ensures forall x :: x in roots <==> x in Listed(tx.Rows(), owner)
    ensures Sound(tx.Rows()) ==> RootsCover(tx.Rows(), owner, roots)
  {
    hide Sound, RootsCover;
    var listed := set id | id in tx.nodes && tx.nodes[id].owner == owner && tx.nodes[id].trash == Some(id);
    OrderedHolds(listed);
    roots := Ordered(listed);
    if Sound(tx.Rows()) { ListedCovers(tx.Rows(), owner, roots); }
  }

  /** `empty`: how many of the roots listed when it began were purged. It always works on a sound ledger. */
  method EmptyIn(tx: Transaction, owner: Owner) returns (r: Result<nat, ApiError>, ghost roots: seq<Id>)
    modifies tx`nodes, tx`versions, tx`blobs
    ensures forall x :: x in roots <==> x in Listed(old(tx.Rows()), owner)
    ensures match Empty(old(tx.Rows()), owner, roots)
            case Ok(after) => r.Ok? && tx.Rows() == after
            case Err(e) => r == Err(e)
    ensures Sound(old(tx.Rows())) ==> r.Ok? && RootsCover(old(tx.Rows()), owner, roots)
  {
    hide Purge, Sound, RootsCover, Listed, HashesHeld, ReleasesExactly, OnlyDeleted;
    var found := RootsIn(tx, owner);
    roots := found;
    if Sound(tx.Rows()) { EmptyLeavesNothing(tx.Rows(), owner, roots); }
    r := PurgeEach(tx, owner, found);
  }

  /** The loop of `empty`. */
  method PurgeEach(tx: Transaction, owner: Owner, roots: seq<Id>) returns (r: Result<nat, ApiError>)
    modifies tx`nodes, tx`versions, tx`blobs
    ensures match Empty(old(tx.Rows()), owner, roots)
            case Ok(after) => r.Ok? && tx.Rows() == after
            case Err(e) => r == Err(e)
  {
    hide Purge;
    var purged := 0;
    for i := 0 to |roots|
      invariant Empty(tx.Rows(), owner, roots[i..]) == Empty(old(tx.Rows()), owner, roots)
    {
      assert roots[i..][0] == roots[i] && roots[i..][1..] == roots[i + 1..];
      var one := PurgeIn(tx, owner, roots[i]);
      if one.Ok? {
        purged := purged + 1;
      } else if one.error != NotFound {
        return Err(one.error);
      }
    }
    return Ok(purged);
  }
}
