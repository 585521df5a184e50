/**
  What every transaction keeps, and how the steps a transaction is made of move the ledger between
  one balanced state and the next.
 */
module Ledger {
  import opened Results
  import opened Sums
  import opened Tables
  import opened Trees

  /** What holds between transactions: the schema, the shape of the tree, and the two numbers. */
  ghost predicate Sound(db: Db) {
    Shaped(db.nodes) && Schema(db) && Balanced(db)
  }

  // ---------- one step at a time ----------

  /** Only the difference between what the counts are ahead by and what they are behind by matters. */
  lemma SameNet(db: Db, owner: Owner, bytes: int, ahead: multiset<Hash>, behind: multiset<Hash>, more: multiset<Hash>, less: multiset<Hash>, inserted: set<Hash>)
    requires OffBy(db, owner, bytes, ahead, behind, inserted)
    requires forall h :: ahead[h] + less[h] == more[h] + behind[h]
    ensures OffBy(db, owner, bytes, more, less, inserted)
  {
    hide ExpectedUsage, ExpectedReferences, Idle;
  }

  lemma Charged(db: Db, owner: Owner, delta: int, bytes: int, ahead: multiset<Hash>, behind: multiset<Hash>, inserted: set<Hash>)
    requires OffBy(db, owner, bytes, ahead, behind, inserted)
    requires Charge(db.quotas, owner, delta).Ok?
    ensures OffBy(db.(quotas := Charge(db.quotas, owner, delta).value), owner, bytes + delta, ahead, behind, inserted)
  {
    ChargeMoves(db.quotas, owner, delta);
    hide ExpectedUsage, ExpectedReferences, Idle, Charge;
    var after := db.(quotas := Charge(db.quotas, owner, delta).value);
    forall o ensures Used(after, o) == ExpectedUsage(after, o) + if o == owner then bytes + delta else 0 {
      SameUsage(db, after, o);
    }
    forall h | h in after.blobs ensures after.blobs[h].refs == ExpectedReferences(after, h) + ahead[h] - behind[h] {
      SameReferences(db, after, h);
    }
  }

  lemma SameUsage(a: Db, b: Db, o: Owner)
    requires a.nodes == b.nodes && a.versions == b.versions
    ensures ExpectedUsage(a, o) == ExpectedUsage(b, o)
  {
  }

  lemma SameReferences(a: Db, b: Db, h: Hash)
    requires a.nodes == b.nodes && a.versions == b.versions && a.thumbnails == b.thumbnails
    ensures ExpectedReferences(a, h) == ExpectedReferences(b, h)
  {
  }

  lemma Acquired(db: Db, hash: Hash, owner: Owner, bytes: int, ahead: multiset<Hash>, behind: multiset<Hash>, inserted: set<Hash>)
    requires OffBy(db, owner, bytes, ahead, behind, inserted) && hash in db.blobs
    ensures OffBy(db.(blobs := Acquire(db.blobs, hash)), owner, bytes, ahead + multiset{hash}, behind, inserted - {hash})
  {
    hide ExpectedUsage, ExpectedReferences;
    var after := db.(blobs := Acquire(db.blobs, hash));
    forall o { SameUsage(db, after, o); }
    forall h { SameReferences(db, after, h); }
  }

  lemma Released(db: Db, hash: Hash, owner: Owner, bytes: int, ahead: multiset<Hash>, behind: multiset<Hash>, inserted: set<Hash>)
    requires OffBy(db, owner, bytes, ahead, behind, inserted) && hash in db.blobs && db.blobs[hash].refs > 0
    ensures OffBy(db.(blobs := Release(db.blobs, hash, db.now)), owner, bytes, ahead, behind + multiset{hash}, inserted)
  {
    hide ExpectedUsage, ExpectedReferences;
    var after := db.(blobs := Release(db.blobs, hash, db.now));
    forall o { SameUsage(db, after, o); }
    forall h { SameReferences(db, after, h); }
  }

  /** A version row gone. */
  lemma VersionGone(db: Db, id: Id, owner: Owner, bytes: int, ahead: multiset<Hash>, behind: multiset<Hash>, inserted: set<Hash>)
    requires OffBy(db, owner, bytes, ahead, behind, inserted)
    requires id in db.versions && db.versions[id].node in db.nodes
    requires db.nodes[db.versions[id].node].Live() ==> db.nodes[db.versions[id].node].owner == owner
    ensures OffBy(db.(versions := db.versions - {id}), owner,
                  bytes + (if db.nodes[db.versions[id].node].Live() then db.versions[id].size else 0),
                  ahead + multiset{db.versions[id].blob}, behind, inserted)
  {
    var after := db.(versions := db.versions - {id});
    forall o ensures ExpectedUsage(after, o) ==
                     ExpectedUsage(db, o) - if db.nodes[db.versions[id].node].Live() && o == owner then db.versions[id].size else 0
    {
      VersionDropped(db.nodes, db.versions, id, 0, o);
    }
    forall h ensures ExpectedReferences(after, h) == ExpectedReferences(db, h) - if db.versions[id].blob == h then 1 else 0 {
      VersionDropped(db.nodes, db.versions, id, h, owner);
    }
    hide ExpectedUsage, ExpectedReferences, Idle;
  }

  /** A version row added to a live node. */
  lemma VersionAdded(db: Db, id: Id, v: Version, owner: Owner, bytes: int, ahead: multiset<Hash>, behind: multiset<Hash>, inserted: set<Hash>)
    requires OffBy(db, owner, bytes, ahead, behind, inserted)
    requires id !in db.versions && v.node in db.nodes && db.nodes[v.node].Live() && db.nodes[v.node].owner == owner
    ensures OffBy(db.(versions := db.versions[id := v]), owner, bytes - v.size, ahead, behind + multiset{v.blob}, inserted)
  {
    var after := db.(versions := db.versions[id := v]);
    forall o ensures ExpectedUsage(after, o) == ExpectedUsage(db, o) + if o == owner then v.size else 0 {
      VersionPut(db.nodes, db.versions, id, v, 0, o);
    }
    forall h ensures ExpectedReferences(after, h) == ExpectedReferences(db, h) + if v.blob == h then 1 else 0 {
      VersionPut(db.nodes, db.versions, id, v, h, owner);
    }
    hide ExpectedUsage, ExpectedReferences, Idle;
  }

  function Blobs(n: Node): multiset<Hash> { if n.blob.Some? then multiset{n.blob.value} else multiset{} }

  lemma BlobsAreNames(n: Node, h: Hash)
    ensures Blobs(n)[h] == Names(n, h)
  {
  }

  lemma NodeRowUsage(db: Db, id: Id, n: Node, o: Owner)
    requires if id in db.nodes then n.trash == db.nodes[id].trash && n.owner == db.nodes[id].owner else forall v :: v in db.versions ==> db.versions[v].node != id
    ensures ExpectedUsage(db.(nodes := db.nodes[id := n]), o) ==
            ExpectedUsage(db, o) + Takes(n, o) - (if id in db.nodes then Takes(db.nodes[id], o) else 0)
  {
    NodePut(db.nodes, id, n, 0, o);
    VersionsUnmoved(db.nodes, id, n, db.versions, o);
  }

  lemma NodeRowReferences(db: Db, id: Id, n: Node, h: Hash)
    ensures ExpectedReferences(db.(nodes := db.nodes[id := n]), h) ==
            ExpectedReferences(db, h) + Blobs(n)[h] - (if id in db.nodes then Blobs(db.nodes[id])[h] else 0)
  {
    NodePut(db.nodes, id, n, h, 0);
    BlobsAreNames(n, h);
    if id in db.nodes { BlobsAreNames(db.nodes[id], h); }
  }

  lemma TakesOfOthers(n: Node, o: Owner)
    requires n.owner != o
    ensures Takes(n, o) == 0
  {
  }

  /** A node row added, or given other contents. */
  lemma NodeWritten(db: Db, id: Id, n: Node, owner: Owner, bytes: int, ahead: multiset<Hash>, behind: multiset<Hash>, inserted: set<Hash>)
    requires OffBy(db, owner, bytes, ahead, behind, inserted) && n.owner == owner
    requires if id in db.nodes then n.trash == db.nodes[id].trash && db.nodes[id].owner == owner else forall v :: v in db.versions ==> db.versions[v].node != id
    ensures OffBy(db.(nodes := db.nodes[id := n]), owner,
                  bytes - Takes(n, owner) + (if id in db.nodes then Takes(db.nodes[id], owner) else 0),
                  ahead + (if id in db.nodes then Blobs(db.nodes[id]) else multiset{}), behind + Blobs(n), inserted)
  {
    hide ExpectedUsage, ExpectedReferences, Idle, Takes, Blobs;
    var after := db.(nodes := db.nodes[id := n]);
    var now, was := Takes(n, owner), if id in db.nodes then Takes(db.nodes[id], owner) else 0;
    forall o ensures ExpectedUsage(after, o) == ExpectedUsage(db, o) + if o == owner then now - was else 0 {
      NodeRowUsage(db, id, n, o);
      if o != owner {
        TakesOfOthers(n, o);
        if id in db.nodes { TakesOfOthers(db.nodes[id], o); }
      }
    }
    forall h ensures ExpectedReferences(after, h) == ExpectedReferences(db, h) + Blobs(n)[h] - (if id in db.nodes then Blobs(db.nodes[id])[h] else 0) {
      NodeRowReferences(db, id, n, h);
    }
  }

  lemma TrashedRowGone(db: Db, id: Id, o: Owner, h: Hash)
    requires id in db.nodes && db.nodes[id].trash.Some?
    ensures ExpectedUsage(db.(nodes := db.nodes - {id}), o) == ExpectedUsage(db, o)
    ensures ExpectedReferences(db.(nodes := db.nodes - {id}), h) == ExpectedReferences(db, h) - Blobs(db.nodes[id])[h]
  {
    var nodes := db.nodes - {id};
    SumWithout(LiveSizes(db.nodes, o), id);
    assert LiveSizes(nodes, o) == LiveSizes(db.nodes, o) - {id};
    assert KeptSizes(nodes, db.versions, o) == KeptSizes(db.nodes, db.versions, o);
    SumWithout(NodesNaming(db.nodes, h), id);
    assert NodesNaming(nodes, h) == NodesNaming(db.nodes, h) - {id};
    BlobsAreNames(db.nodes[id], h);
  }

  /** A trashed node's row gone. It was not charged, and what versions it has were not either. */
  lemma TrashedNodeGone(db: Db, id: Id, owner: Owner, bytes: int, ahead: multiset<Hash>, behind: multiset<Hash>, inserted: set<Hash>)
    requires OffBy(db, owner, bytes, ahead, behind, inserted)
    requires id in db.nodes && db.nodes[id].trash.Some?
    ensures OffBy(db.(nodes := db.nodes - {id}), owner, bytes, ahead + Blobs(db.nodes[id]), behind, inserted)
  {
    hide ExpectedUsage, ExpectedReferences, Idle, Blobs;
    var after := db.(nodes := db.nodes - {id});
    forall o ensures ExpectedUsage(after, o) == ExpectedUsage(db, o) { TrashedRowGone(db, id, o, 0); }
    forall h ensures ExpectedReferences(after, h) == ExpectedReferences(db, h) - Blobs(db.nodes[id])[h] { TrashedRowGone(db, id, 0, h); }
  }

  lemma InsertedIsIdle(blobs: map<Hash, Blob>, hash: Hash, size: nat)
    requires Idle(blobs, {}) && hash !in blobs
    ensures Idle(blobs[hash := Blob(size, 0, None)], {hash})
  {
  }

  /** A blob row nothing names yet. */
  lemma BlobInserted(db: Db, hash: Hash, size: nat, owner: Owner)
    requires OffBy(db, owner, 0, multiset{}, multiset{}, {}) && ForeignKeys(db) && hash !in db.blobs
    ensures OffBy(db.(blobs := db.blobs[hash := Blob(size, 0, None)]), owner, 0, multiset{}, multiset{}, {hash})
  {
    hide ExpectedUsage, ExpectedReferences, ForeignKeys, Idle;
    var after := db.(blobs := db.blobs[hash := Blob(size, 0, None)]);
    NothingNames(db, hash);
    InsertedIsIdle(db.blobs, hash, size);
    forall o ensures ExpectedUsage(after, o) == ExpectedUsage(db, o) { SameUsage(db, after, o); }
    forall h ensures ExpectedReferences(after, h) == ExpectedReferences(db, h) { SameReferences(db, after, h); }
  }

  lemma {:induction false} SumOfNothing<K>(column: map<K, int>)
    requires forall k :: k in column ==> column[k] == 0
    ensures Sum(column) == 0
    decreases |column|
  {
    if column != map[] {
      var k :| k in column;
      assert |column - {k}| < |column|;
      SumWithout(column, k);
      SumOfNothing(column - {k});
    }
  }

  lemma NothingNames(db: Db, hash: Hash)
    requires ForeignKeys(db) && hash !in db.blobs
    ensures ExpectedReferences(db, hash) == 0
  {
    SumOfNothing(NodesNaming(db.nodes, hash));
    SumOfNothing(VersionsNaming(db.versions, hash));
    SumOfNothing(ThumbnailsNaming(db.thumbnails, hash));
  }

  /** A name a row holds is one of the references expected. */
  lemma NamedIsExpected(db: Db, h: Hash)
    ensures (exists id :: id in db.nodes && db.nodes[id].blob == Some(h)) ==> ExpectedReferences(db, h) >= 1
    ensures (exists id :: id in db.versions && db.versions[id].blob == h) ==> ExpectedReferences(db, h) >= 1
    ensures ExpectedReferences(db, h) >= 0
  {
    CountsAreNatural(db, h);
  }
}
