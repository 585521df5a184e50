/** Deletion for good: `purge` and `empty` of api/src/trash.rs, with the cascades of the schema. */
module Purging {
  import opened Results
  import opened Sums
  import opened Tables
  import opened Trees
  import opened Ledger
  import opened Histories
  import opened Trash

  /** What deleting the rows `gone` deletes with them: children, and rows whose trash root is deleted. */
  function Cascade(nodes: map<Id, Node>, gone: set<Id>): set<Id>
    requires gone <= nodes.Keys
    decreases nodes.Keys - gone
  {
    var grown := gone + set id | id in nodes &&
      ((nodes[id].parent.Some? && nodes[id].parent.value in gone) || (nodes[id].trash.Some? && nodes[id].trash.value in gone));
    if grown == gone then gone else Cascade(nodes, grown)
  }

  /** Closed under both cascades. */
  ghost predicate CascadesTo(nodes: map<Id, Node>, gone: set<Id>) {
    forall id :: id in nodes && id !in gone ==>
      && (nodes[id].parent.Some? ==> nodes[id].parent.value !in gone)
      && (nodes[id].trash.Some? ==> nodes[id].trash.value !in gone)
  }

  function NodeHashes(nodes: map<Id, Node>, ids: seq<Id>): seq<Hash> {
    if ids == [] then [] else (if ids[0] in nodes && nodes[ids[0]].blob.Some? then [nodes[ids[0]].blob.value] else []) + NodeHashes(nodes, ids[1..])
  }

  /** Versions of the nodes among `ids`. */
  function VersionsUnder(versions: map<Id, Version>, ids: set<Id>): set<Id> {
    set v | v in versions && versions[v].node in ids
  }

  /** The rows a deletion takes, cascades included. */
  function Deleted(db: Db, gone: set<Id>): Db {
    db.(nodes := db.nodes - gone, versions := db.versions - VersionsUnder(db.versions, gone))
  }

  /** `purge`: everything under the root goes, and each reference it and its versions held. */
  function Purge(db: Db, owner: Owner, id: Id): Outcome {
    if !IsRoot(db, owner, id) then Err(NotFound)
    else
      var buried := Ordered(Under(db.nodes, db.nodes.Keys, id));
      var blobs := NodeHashes(db.nodes, buried) + HashesOf(db.versions, Ordered(VersionsUnder(db.versions, Under(db.nodes, db.nodes.Keys, id))));
      var left := Deleted(db, Cascade(db.nodes, {id}));
      Ok(left.(blobs := ReleaseAll(left.blobs, blobs, db.now)))
  }

  /** `empty`: each root listed when it began is purged; one gone with an earlier one is passed over. */
  function Empty(db: Db, owner: Owner, roots: seq<Id>): Outcome
    decreases |roots|
  {
    if roots == [] then Ok(db)
    else
      match Purge(db, owner, roots[0])
      case Ok(after) => Empty(after, owner, roots[1..])
      case Err(NotFound) => Empty(db, owner, roots[1..])
      case Err(e) => Err(e)
  }

  // ---------- the cascade is the subtree ----------

  lemma {:induction false} CascadeIsLeast(nodes: map<Id, Node>, gone: set<Id>, closed: set<Id>)
    requires gone <= nodes.Keys && gone <= closed && CascadesTo(nodes, closed)
    ensures gone <= Cascade(nodes, gone) <= closed && Cascade(nodes, gone) <= nodes.Keys
    ensures CascadesTo(nodes, Cascade(nodes, gone))
    decreases nodes.Keys - gone
  {
    var grown := gone + set id | id in nodes &&
      ((nodes[id].parent.Some? && nodes[id].parent.value in gone) || (nodes[id].trash.Some? && nodes[id].trash.value in gone));
    if grown != gone { CascadeIsLeast(nodes, grown, closed); }
    else { forall id | id in nodes && id !in gone ensures id !in grown { } }
  }

  lemma {:induction false} BatchGoesWithIt(nodes: map<Id, Node>, root: Id, x: Id, rank: map<Id, nat>)
    requires Ranked(nodes, rank) && Batched(nodes) && x in nodes && nodes[x].trash.Some?
    requires nodes[x].trash.value in Under(nodes, nodes.Keys, root)
    ensures x in Under(nodes, nodes.Keys, root)
    decreases rank[x]
  {
    assert InItsBatch(nodes, x);
    UnderStep(nodes, nodes.Keys, root, x);
    if x != nodes[x].trash.value { BatchGoesWithIt(nodes, root, nodes[x].parent.value, rank); }
  }

  lemma {:induction false} SubtreeCascades(nodes: map<Id, Node>, root: Id, gone: set<Id>, x: Id, rank: map<Id, nat>)
    requires Ranked(nodes, rank) && CascadesTo(nodes, gone) && root in gone && x in nodes && x in Under(nodes, nodes.Keys, root)
    ensures x in gone
    decreases rank[x]
  {
    UnderStep(nodes, nodes.Keys, root, x);
    if x != root {
      UnderIsOfRows(nodes, nodes.Keys, root, nodes[x].parent.value);
      SubtreeCascades(nodes, root, gone, nodes[x].parent.value, rank);
    }
  }

  /** Because batches are connected, what the database deletes with a root is the subtree whose references are released. */
  lemma CascadeIsTheSubtree(nodes: map<Id, Node>, root: Id)
    requires Shaped(nodes) && root in nodes
    ensures Cascade(nodes, {root}) == Under(nodes, nodes.Keys, root)
    ensures CascadesTo(nodes, Under(nodes, nodes.Keys, root))
  {
    var rank := SomeRank(nodes);
    var under := Under(nodes, nodes.Keys, root);
    hide Forest, Under, LiveAbove, NamesAreUnique, WellPlaced;
    SubtreeIsClosed(nodes, root, rank);
    UnderStep(nodes, nodes.Keys, root, root);
    CascadeIsLeast(nodes, {root}, under);
    forall x | x in under ensures x in Cascade(nodes, {root}) {
      UnderIsOfRows(nodes, nodes.Keys, root, x);
      SubtreeCascades(nodes, root, Cascade(nodes, {root}), x, rank);
    }
  }

  lemma SubtreeIsClosed(nodes: map<Id, Node>, root: Id, rank: map<Id, nat>)
    requires Ranked(nodes, rank) && Batched(nodes)
    ensures CascadesTo(nodes, Under(nodes, nodes.Keys, root))
  {
    hide Under;
    var under := Under(nodes, nodes.Keys, root);
    forall x | x in nodes && x !in under
      ensures nodes[x].parent.Some? ==> nodes[x].parent.value !in under
      ensures nodes[x].trash.Some? ==> nodes[x].trash.value !in under
    {
      RankedIsForest(nodes, rank);
      UnderStep(nodes, nodes.Keys, root, x);
      if nodes[x].trash.Some? && nodes[x].trash.value in under { BatchGoesWithIt(nodes, root, x, rank); }
    }
  }

  lemma RankedIsForest(nodes: map<Id, Node>, rank: map<Id, nat>)
    requires Ranked(nodes, rank)
    ensures Forest(nodes)
  {
  }

  // ---------- deleting rows and releasing what they held ----------

  lemma DeletionKeepsTheForest(nodes: map<Id, Node>, gone: set<Id>)
    requires Forest(nodes)
    ensures Forest(nodes - gone)
  {
    var rank := SomeRank(nodes);
    assert Ranked(nodes - gone, rank - gone);
  }

  lemma DeletionKeepsThePlaces(nodes: map<Id, Node>, gone: set<Id>)
    requires WellPlaced(nodes) && Rooted(nodes) && CascadesTo(nodes, gone)
    ensures WellPlaced(nodes - gone) && Rooted(nodes - gone)
  {
  }

  lemma DeletionKeepsTheBatches(nodes: map<Id, Node>, gone: set<Id>)
    requires Batched(nodes) && CascadesTo(nodes, gone)
    ensures Batched(nodes - gone)
  {
    forall x | x in nodes - gone ensures InItsBatch(nodes - gone, x) { assert InItsBatch(nodes, x); }
  }

  /** What is deleted leaves a tree of the same shape. */
  lemma DeletionKeepsTheShape(nodes: map<Id, Node>, gone: set<Id>)
    requires Shaped(nodes) && CascadesTo(nodes, gone)
    ensures Shaped(nodes - gone)
  {
    hide Forest, WellPlaced, Rooted, Batched, CascadesTo;
    DeletionKeepsTheForest(nodes, gone);
    DeletionKeepsThePlaces(nodes, gone);
    DeletionKeepsTheBatches(nodes, gone);
  }

  lemma DeletionFitsTheSchema(db: Db, gone: set<Id>)
    requires Schema(db) && CascadesTo(db.nodes, gone)
    ensures Schema(Deleted(db, gone))
  {
  }

  lemma {:induction false} AllReleased(db: Db, hashes: seq<Hash>, owner: Owner, bytes: int)
    requires OffBy(db, owner, bytes, multiset(hashes), multiset{}, {})
    requires forall h :: h in hashes ==> h in db.blobs
    ensures ReleaseAll(db.blobs, hashes, db.now).Keys == db.blobs.Keys
    ensures OffBy(db.(blobs := ReleaseAll(db.blobs, hashes, db.now)), owner, bytes, multiset{}, multiset{}, {})
    decreases |hashes|
  {
    hide OffBy, Release;
    if hashes == [] {
      assert db.(blobs := ReleaseAll(db.blobs, hashes, db.now)) == db;
    } else {
      var h, rest := hashes[0], hashes[1..];
      assert hashes == [h] + rest;
      HeldCount(db, h, hashes, owner, bytes);
      Released(db, h, owner, bytes, multiset(hashes), multiset{}, {});
      var after := db.(blobs := Release(db.blobs, h, db.now));
      SameNet(after, owner, bytes, multiset(hashes), multiset{} + multiset{h}, multiset(rest), multiset{}, {});
      ReleaseKeepsKeys(db.blobs, h, db.now);
      AllReleased(after, rest, owner, bytes);
    }
  }

  lemma HeldCount(db: Db, h: Hash, hashes: seq<Hash>, owner: Owner, bytes: int)
    requires OffBy(db, owner, bytes, multiset(hashes), multiset{}, {}) && h in hashes && h in db.blobs
    ensures db.blobs[h].refs > 0
  {
    NamedIsExpected(db, h);
  }

  lemma ReleaseKeepsKeys(blobs: map<Hash, Blob>, hash: Hash, now: int)
    ensures Release(blobs, hash, now).Keys == blobs.Keys
  {
  }

  lemma {:induction false} VersionsGone(db: Db, ids: seq<Id>, owner: Owner, bytes: int, ahead: multiset<Hash>)
    requires OffBy(db, owner, bytes, ahead, multiset{}, {}) && Distinct(ids)
    requires forall id :: id in ids ==> id in db.versions && db.versions[id].node in db.nodes && !db.nodes[db.versions[id].node].Live()
    ensures OffBy(db.(versions := db.versions - Elements(ids)), owner, bytes, ahead + multiset(HashesOf(db.versions, ids)), multiset{}, {})
    decreases |ids|
  {
    hide OffBy, Distinct, HashesOf;
    if ids == [] {
      assert db.versions - Elements(ids) == db.versions;
      assert ahead + multiset{} == ahead;
      NoHashes(db.versions);
    } else {
      var id, rest := ids[0], ids[1..];
      assert id in ids;
      RestIsDistinct(ids);
      VersionGone(db, id, owner, bytes, ahead, multiset{}, {});
      var after := db.(versions := db.versions - {id});
      VersionsGone(after, rest, owner, bytes, ahead + multiset{db.versions[id].blob});
      FirstHash(db.versions, ids);
      assert db.versions - Elements(ids) == after.versions - Elements(rest);
      assert ahead + multiset{db.versions[id].blob} + multiset(HashesOf(after.versions, rest)) == ahead + multiset(HashesOf(db.versions, ids));
    }
  }

  lemma NoHashes(versions: map<Id, Version>)
    ensures HashesOf(versions, []) == []
  {
  }

  lemma FirstHash(versions: map<Id, Version>, ids: seq<Id>)
    requires ids != [] && ids[0] in versions && ids[0] !in ids[1..]
    ensures multiset(HashesOf(versions, ids)) == multiset{versions[ids[0]].blob} + multiset(HashesOf(versions - {ids[0]}, ids[1..]))
  {
    HashesUnmoved(versions, versions - {ids[0]}, ids[1..]);
  }

  lemma {:induction false} NodeHashesStay(a: map<Id, Node>, b: map<Id, Node>, ids: seq<Id>)
    requires forall id :: id in ids ==> (id in a <==> id in b) && (id in a ==> a[id].blob == b[id].blob)
    ensures NodeHashes(a, ids) == NodeHashes(b, ids)
  {
    if ids != [] { NodeHashesStay(a, b, ids[1..]); }
  }

  lemma FirstNodeHash(nodes: map<Id, Node>, ids: seq<Id>)
    requires ids != [] && ids[0] in nodes && ids[0] !in ids[1..]
    ensures multiset(NodeHashes(nodes, ids)) == Blobs(nodes[ids[0]]) + multiset(NodeHashes(nodes - {ids[0]}, ids[1..]))
  {
    NodeHashesStay(nodes, nodes - {ids[0]}, ids[1..]);
  }

  lemma {:induction false} NodesGone(db: Db, ids: seq<Id>, owner: Owner, bytes: int, ahead: multiset<Hash>)
    requires OffBy(db, owner, bytes, ahead, multiset{}, {}) && Distinct(ids)
    requires forall id :: id in ids ==> id in db.nodes && !db.nodes[id].Live()
    ensures OffBy(db.(nodes := db.nodes - Elements(ids)), owner, bytes, ahead + multiset(NodeHashes(db.nodes, ids)), multiset{}, {})
    decreases |ids|
  {
    hide OffBy, Distinct, NodeHashes, Blobs;
    if ids == [] {
      assert db.nodes - Elements(ids) == db.nodes;
      assert ahead + multiset{} == ahead;
      NoNodeHashes(db.nodes);
    } else {
      var id, rest := ids[0], ids[1..];
      assert id in ids;
      RestIsDistinct(ids);
      TrashedNodeGone(db, id, owner, bytes, ahead, multiset{}, {});
      var after := db.(nodes := db.nodes - {id});
      NodesGone(after, rest, owner, bytes, ahead + Blobs(db.nodes[id]));
      FirstNodeHash(db.nodes, ids);
      assert db.nodes - Elements(ids) == after.nodes - Elements(rest);
      assert ahead + Blobs(db.nodes[id]) + multiset(NodeHashes(after.nodes, rest)) == ahead + multiset(NodeHashes(db.nodes, ids));
    }
  }

  lemma NoNodeHashes(nodes: map<Id, Node>)
    ensures NodeHashes(nodes, []) == []
  {
  }

  /** The references a set of nodes holds, itself and through its versions. */
  function HashesHeld(db: Db, ids: set<Id>): seq<Hash> {
    NodeHashes(db.nodes, Ordered(ids)) + HashesOf(db.versions, Ordered(VersionsUnder(db.versions, ids)))
  }

  /** Rows of the trash gone, and every reference they held released: the ledger is where it was. */
  lemma DeletionIsEven(db: Db, gone: set<Id>, owner: Owner, bytes: int)
    requires OffBy(db, owner, bytes, multiset{}, multiset{}, {}) && ForeignKeys(db)
    requires forall id :: id in gone ==> id in db.nodes && !db.nodes[id].Live()
    ensures var left := Deleted(db, gone);
            && ReleaseAll(left.blobs, HashesHeld(db, gone), db.now).Keys == db.blobs.Keys
            && ReleasesExactly(db.blobs, ReleaseAll(left.blobs, HashesHeld(db, gone), db.now), HashesHeld(db, gone))
            && OffBy(left.(blobs := ReleaseAll(left.blobs, HashesHeld(db, gone), db.now)), owner, bytes, multiset{}, multiset{}, {})
  {
    hide OffBy, ForeignKeys, NodeHashes, HashesOf, Ordered;
    var vids, ids := Ordered(VersionsUnder(db.versions, gone)), Ordered(gone);
    OrderedHolds(VersionsUnder(db.versions, gone));
    OrderedHolds(gone);
    VersionsGone(db, vids, owner, bytes, multiset{});
    var less := db.(versions := db.versions - Elements(vids));
    NodesGone(less, ids, owner, bytes, multiset{} + multiset(HashesOf(db.versions, vids)));
    var left := Deleted(db, gone);
    assert less.(nodes := db.nodes - Elements(ids)) == left;
    SameNet(left, owner, bytes, multiset{} + multiset(HashesOf(db.versions, vids)) + multiset(NodeHashes(db.nodes, ids)), multiset{},
            multiset(HashesHeld(db, gone)), multiset{}, {});
    HeldAreKnown(db, gone);
    AllReleased(left, HashesHeld(db, gone), owner, bytes);
    ReleasedExactly(left, left.(blobs := ReleaseAll(left.blobs, HashesHeld(db, gone), db.now)), owner, bytes, HashesHeld(db, gone));
  }

  ghost predicate ReleasesExactly(blobs: map<Hash, Blob>, after: map<Hash, Blob>, hashes: seq<Hash>) {
    forall h :: h in blobs ==> h in after && after[h].refs == blobs[h].refs - multiset(hashes)[h]
  }

  lemma ReleasedExactly(db: Db, after: Db, owner: Owner, bytes: int, hashes: seq<Hash>)
    requires OffBy(db, owner, bytes, multiset(hashes), multiset{}, {}) && OffBy(after, owner, bytes, multiset{}, multiset{}, {})
    requires after == db.(blobs := after.blobs) && after.blobs.Keys == db.blobs.Keys
    ensures ReleasesExactly(db.blobs, after.blobs, hashes)
  {
    hide ExpectedReferences, ExpectedUsage, Idle;
    forall h | h in db.blobs ensures after.blobs[h].refs == db.blobs[h].refs - multiset(hashes)[h] { SameReferences(db, after, h); }
  }

  lemma {:induction false} NodeHashesAreKnown(db: Db, ids: seq<Id>)
    requires ForeignKeys(db)
    ensures forall h :: h in NodeHashes(db.nodes, ids) ==> h in db.blobs
  {
    if ids != [] { NodeHashesAreKnown(db, ids[1..]); }
  }

  lemma {:induction false} HashesAreKnown(db: Db, ids: seq<Id>)
    requires ForeignKeys(db)
    ensures forall h :: h in HashesOf(db.versions, ids) ==> h in db.blobs
  {
    if ids != [] { HashesAreKnown(db, ids[1..]); }
  }

  lemma HeldAreKnown(db: Db, ids: set<Id>)
    requires ForeignKeys(db)
    ensures forall h :: h in HashesHeld(db, ids) ==> h in db.blobs
  {
    NodeHashesAreKnown(db, Ordered(ids));
    HashesAreKnown(db, Ordered(VersionsUnder(db.versions, ids)));
  }

  // ---------- references between two sound states ----------

  lemma {:induction false} NodesHeld(nodes: map<Id, Node>, ids: seq<Id>, h: Hash)
    requires Distinct(ids) && forall id :: id in ids ==> id in nodes
    ensures Sum(NodesNaming(nodes, h)) == Sum(NodesNaming(nodes - Elements(ids), h)) + multiset(NodeHashes(nodes, ids))[h]
    decreases |ids|
  {
    hide Sum, Distinct, NodeHashes;
    if ids == [] {
      assert nodes - Elements(ids) == nodes;
      NoNodeHashes(nodes);
    } else {
      var id, rest := ids[0], ids[1..];
      assert id in ids;
      RestIsDistinct(ids);
      NodesHeld(nodes - {id}, rest, h);
      FirstNodeHash(nodes, ids);
      SumWithout(NodesNaming(nodes, h), id);
      assert NodesNaming(nodes, h) - {id} == NodesNaming(nodes - {id}, h);
      assert nodes - Elements(ids) == nodes - {id} - Elements(rest);
    }
  }

  lemma {:induction false} VersionsHeld(versions: map<Id, Version>, ids: seq<Id>, h: Hash)
    requires Distinct(ids) && forall id :: id in ids ==> id in versions
    ensures Sum(VersionsNaming(versions, h)) == Sum(VersionsNaming(versions - Elements(ids), h)) + multiset(HashesOf(versions, ids))[h]
    decreases |ids|
  {
    hide Sum, Distinct, HashesOf;
    if ids == [] {
      assert versions - Elements(ids) == versions;
      NoHashes(versions);
    } else {
      var id, rest := ids[0], ids[1..];
      assert id in ids;
      RestIsDistinct(ids);
      VersionsHeld(versions - {id}, rest, h);
      FirstHash(versions, ids);
      SumWithout(VersionsNaming(versions, h), id);
      assert VersionsNaming(versions, h) - {id} == VersionsNaming(versions - {id}, h);
      assert versions - Elements(ids) == versions - {id} - Elements(rest);
    }
  }

  /** Rows gone, and nothing else that names a blob. */
  ghost predicate OnlyDeleted(db: Db, after: Db, gone: set<Id>) {
    && after.nodes == db.nodes - gone && after.versions == db.versions - VersionsUnder(db.versions, gone)
    && after.thumbnails == db.thumbnails && after.blobs.Keys == db.blobs.Keys && after.now == db.now
  }

  /** Where some rows are gone, and the ledger balances before and after, exactly what those rows held was released. */
  lemma DeletionReleases(db: Db, after: Db, gone: set<Id>)
    requires Balanced(db) && Balanced(after) && OnlyDeleted(db, after, gone) && gone <= db.nodes.Keys
    ensures ReleasesExactly(db.blobs, after.blobs, HashesHeld(db, gone))
  {
    hide Sum, NodeHashes, HashesOf, NodesNaming, VersionsNaming, ThumbnailsNaming, Ordered, UsageMatches;
    var vids, ids := Ordered(VersionsUnder(db.versions, gone)), Ordered(gone);
    OrderedHolds(VersionsUnder(db.versions, gone));
    OrderedHolds(gone);
    assert Elements(vids) == VersionsUnder(db.versions, gone) && Elements(ids) == gone;
    forall h | h in db.blobs ensures h in after.blobs && after.blobs[h].refs == db.blobs[h].refs - multiset(HashesHeld(db, gone))[h] {
      NodesHeld(db.nodes, ids, h);
      VersionsHeld(db.versions, vids, h);
    }
  }

  /** Deleting in two goes is deleting at once. */
  lemma DeletedTwice(db: Db, once: Db, twice: Db, first: set<Id>, second: set<Id>)
    requires OnlyDeleted(db, once, first) && OnlyDeleted(once, twice, second)
    ensures OnlyDeleted(db, twice, first + second)
  {
  }

  // ---------- purge and empty ----------

  /** Everything under a root of the trash is in the trash, and one owner's. */
  lemma {:induction false} UnderTrash(nodes: map<Id, Node>, root: Id, x: Id, rank: map<Id, nat>)
    requires Ranked(nodes, rank) && LiveAbove(nodes) && WellPlaced(nodes) && root in nodes && !nodes[root].Live()
    requires x in nodes && x in Under(nodes, nodes.Keys, root)
    ensures !nodes[x].Live() && nodes[x].owner == nodes[root].owner
    decreases rank[x]
  {
    UnderStep(nodes, nodes.Keys, root, x);
    if x != root { UnderTrash(nodes, root, nodes[x].parent.value, rank); }
  }

  lemma PurgeInSteps(db: Db, owner: Owner, id: Id)
    requires Shaped(db.nodes) && IsRoot(db, owner, id)
    ensures var under := Under(db.nodes, db.nodes.Keys, id);
            Purge(db, owner, id) == Ok(Deleted(db, under).(blobs := ReleaseAll(db.blobs, HashesHeld(db, under), db.now)))
  {
    hide Shaped, Under, Ordered, NodeHashes, HashesOf, ReleaseAll, Cascade;
    CascadeIsTheSubtree(db.nodes, id);
  }

  lemma AllUnderTrash(nodes: map<Id, Node>, id: Id)
    requires Shaped(nodes) && id in nodes && !nodes[id].Live()
    ensures forall x :: x in Under(nodes, nodes.Keys, id) ==> x in nodes && !nodes[x].Live() && nodes[x].owner == nodes[id].owner
  {
    hide Under, Batched, NamesAreUnique;
    var rank := SomeRank(nodes);
    forall x | x in Under(nodes, nodes.Keys, id) ensures x in nodes && !nodes[x].Live() && nodes[x].owner == nodes[id].owner {
      UnderIsOfRows(nodes, nodes.Keys, id, x);
      UnderTrash(nodes, id, x, rank);
    }
  }

  /** Purging takes exactly the subtree and its versions, releases exactly the references they held, and needs no credit: what is in the trash was not charged. */
  lemma PurgeKeepsTheLedger(db: Db, owner: Owner, id: Id)
    requires Sound(db) && Purge(db, owner, id).Ok?
    ensures Sound(Purge(db, owner, id).value)
    ensures Purge(db, owner, id).value.quotas == db.quotas
    ensures OnlyDeleted(db, Purge(db, owner, id).value, Under(db.nodes, db.nodes.Keys, id))
    ensures ReleasesExactly(db.blobs, Purge(db, owner, id).value.blobs, HashesHeld(db, Under(db.nodes, db.nodes.Keys, id)))
  {
    hide ReleasesExactly, Shaped, ForeignKeys, FilesCarryBlobs, VersionsAreOfFiles, Balanced, OffBy, Under, ReleaseAll, HashesHeld, Purge, IsRoot;
    PurgeOfRoot(db, owner, id);
    PurgeInSteps(db, owner, id);
    var under := Under(db.nodes, db.nodes.Keys, id);
    CascadeIsTheSubtree(db.nodes, id);
    DeletionKeepsTheShape(db.nodes, under);
    AllUnderTrash(db.nodes, id);
    BalancedIsOffByNothing(db, owner);
    DeletionIsEven(db, under, owner, 0);
    var after := Purge(db, owner, id).value;
    BalancedIsOffByNothing(after, owner);
    DeletionFitsTheSchema(db, under);
    VersionsFitTheSchema(Deleted(db, under), after);
  }

  lemma PurgeOfRoot(db: Db, owner: Owner, id: Id)
    requires Purge(db, owner, id).Ok?
    ensures IsRoot(db, owner, id) && id in db.nodes && !db.nodes[id].Live() && db.nodes[id].owner == owner
  {
  }

  /** Whatever of the owner's is in the trash belongs to one of `roots`. */
  ghost predicate RootsCover(db: Db, owner: Owner, roots: seq<Id>) {
    forall x :: x in db.nodes && db.nodes[x].owner == owner && db.nodes[x].trash.Some? ==> db.nodes[x].trash.value in roots
  }

  lemma ListedCovers(db: Db, owner: Owner, roots: seq<Id>)
    requires Sound(db) && forall r :: r in roots <==> r in Listed(db, owner)
    ensures RootsCover(db, owner, roots)
  {
    hide Balanced, Schema;
    var rank := SomeRank(db.nodes);
    forall x | x in db.nodes && db.nodes[x].owner == owner && db.nodes[x].trash.Some? ensures db.nodes[x].trash.value in roots {
      assert InItsBatch(db.nodes, x);
      BatchHasOneOwner(db.nodes, x, rank);
    }
  }

  lemma OneRootLess(db: Db, owner: Owner, roots: seq<Id>)
    requires Sound(db) && roots != [] && RootsCover(db, owner, roots)
    ensures match Purge(db, owner, roots[0])
            case Ok(after) => Sound(after) && after.quotas == db.quotas && RootsCover(after, owner, roots[1..]) && OnlyTrashGoes(db, after, owner)
            case Err(e) => e == NotFound && RootsCover(db, owner, roots[1..])
  {
    hide Sound, Purge, IsRoot;
    assert forall r :: r in roots ==> r == roots[0] || r in roots[1..] by { assert roots == [roots[0]] + roots[1..]; }
    if IsRoot(db, owner, roots[0]) { PurgedRoot(db, owner, roots[0]); } else { NoRoot(db, owner, roots[0]); }
  }

  lemma PurgedRoot(db: Db, owner: Owner, id: Id)
    requires Sound(db) && IsRoot(db, owner, id)
    ensures Purge(db, owner, id).Ok?
    ensures var after := Purge(db, owner, id).value;
            && Sound(after) && after.quotas == db.quotas && OnlyTrashGoes(db, after, owner)
            && forall x :: x in after.nodes ==> after.nodes[x].trash != Some(id)
  {
    var rank := SomeRank(db.nodes);
    PurgeKeepsTheLedger(db, owner, id);
    UnderStep(db.nodes, db.nodes.Keys, id, id);
    AllUnderTrash(db.nodes, id);
    hide Sound, Purge, Under, Ranked;
    var after := Purge(db, owner, id).value;
    assert Under(db.nodes, db.nodes.Keys, id) <= TrashOf(db.nodes, owner);
    forall x | x in after.nodes ensures after.nodes[x].trash != Some(id) {
      if db.nodes[x].trash == Some(id) { BatchIsUnder(db, id, x, rank); }
    }
  }

  lemma NoRoot(db: Db, owner: Owner, id: Id)
    requires Sound(db) && !IsRoot(db, owner, id)
    ensures Purge(db, owner, id) == Err(NotFound)
    ensures forall x :: x in db.nodes && db.nodes[x].owner == owner ==> db.nodes[x].trash != Some(id)
  {
    hide Balanced, Schema, LiveAbove, NamesAreUnique;
    var rank := SomeRank(db.nodes);
    forall x | x in db.nodes && db.nodes[x].owner == owner ensures db.nodes[x].trash != Some(id) {
      assert InItsBatch(db.nodes, x);
      if db.nodes[x].trash == Some(id) { BatchHasOneOwner(db.nodes, x, rank); }
    }
  }

  lemma BatchIsUnder(db: Db, id: Id, x: Id, rank: map<Id, nat>)
    requires Sound(db) && Ranked(db.nodes, rank) && x in db.nodes && db.nodes[x].trash == Some(id) && id in Under(db.nodes, db.nodes.Keys, id)
    ensures x in Under(db.nodes, db.nodes.Keys, id)
  {
    hide Balanced, Schema, Under;
    BatchGoesWithIt(db.nodes, id, x, rank);
  }

  /** What an owner has in the trash. */
  function TrashOf(nodes: map<Id, Node>, owner: Owner): set<Id> {
    set id | id in nodes && nodes[id].owner == owner && !nodes[id].Live()
  }

  /** Some of what an owner has in the trash goes, with its versions; everything else stays as it is. */
  ghost predicate OnlyTrashGoes(db: Db, after: Db, owner: Owner) {
    exists gone :: gone <= TrashOf(db.nodes, owner) && OnlyDeleted(db, after, gone)
  }

  lemma NothingGoes(db: Db, owner: Owner)
    ensures OnlyTrashGoes(db, db, owner)
  {
    assert db.nodes - {} == db.nodes && VersionsUnder(db.versions, {}) == {} && db.versions - {} == db.versions;
    assert OnlyDeleted(db, db, {});
  }

  lemma TrashGoesTwice(db: Db, once: Db, twice: Db, owner: Owner)
    requires OnlyTrashGoes(db, once, owner) && OnlyTrashGoes(once, twice, owner)
    ensures OnlyTrashGoes(db, twice, owner)
  {
    hide OnlyDeleted;
    var first :| first <= TrashOf(db.nodes, owner) && OnlyDeleted(db, once, first);
    var second :| second <= TrashOf(once.nodes, owner) && OnlyDeleted(once, twice, second);
    DeletedTwice(db, once, twice, first, second);
    TrashIsLess(db, once, first, owner);
    assert OnlyDeleted(db, twice, first + second);
  }

  lemma TrashIsLess(db: Db, once: Db, gone: set<Id>, owner: Owner)
    requires OnlyDeleted(db, once, gone)
    ensures TrashOf(once.nodes, owner) <= TrashOf(db.nodes, owner)
  {
  }

  lemma {:induction false} EmptyTakesTrash(db: Db, owner: Owner, roots: seq<Id>)
    requires Sound(db) && RootsCover(db, owner, roots)
    ensures Empty(db, owner, roots).Ok?
    ensures var after := Empty(db, owner, roots).value;
            && Sound(after) && after.quotas == db.quotas && OnlyTrashGoes(db, after, owner) && RootsCover(after, owner, [])
    decreases |roots|
  {
    hide Sound, Purge, OnlyTrashGoes, RootsCover;
    if roots != [] {
      OneRootLess(db, owner, roots);
      match Purge(db, owner, roots[0]) {
        case Ok(after) =>
          EmptyTakesTrash(after, owner, roots[1..]);
          TrashGoesTwice(db, after, Empty(db, owner, roots).value, owner);
        case Err(e) => EmptyTakesTrash(db, owner, roots[1..]);
      }
    } else {
      NothingGoes(db, owner);
    }
  }

  /**
    Emptying a trash always works and charges nothing. It takes exactly what the owner has in the trash
    with its versions, and releases exactly the references those held.
   */
  lemma EmptyLeavesNothing(db: Db, owner: Owner, roots: seq<Id>)
    requires Sound(db) && RootsCover(db, owner, roots)
    ensures Empty(db, owner, roots).Ok?
    ensures var after, gone := Empty(db, owner, roots).value, TrashOf(db.nodes, owner);
            && Sound(after) && after.quotas == db.quotas && OnlyDeleted(db, after, gone)
            && ReleasesExactly(db.blobs, after.blobs, HashesHeld(db, gone))
    ensures forall x :: x in Empty(db, owner, roots).value.nodes && db.nodes[x].owner == owner ==> db.nodes[x].Live()
  {
    hide Empty, Shaped, Schema, Balanced, HashesHeld, ReleasesExactly;
    EmptyTakesTrash(db, owner, roots);
    var after := Empty(db, owner, roots).value;
    var gone :| gone <= TrashOf(db.nodes, owner) && OnlyDeleted(db, after, gone);
    forall x | x in TrashOf(db.nodes, owner) ensures x in gone {
      assert x !in gone ==> x in after.nodes;
    }
    assert gone == TrashOf(db.nodes, owner);
    DeletionReleases(db, after, gone);
  }
}
