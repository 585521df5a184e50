/**
  Upkeep of the ledger: `repair` of api/src/check.rs, `remember` and `forget_orphans` of
  api/src/thumbnails.rs, `register_blob` of api/src/db.rs and the row a sweep deletes (api/src/sweeper.rs).
 */
module Upkeep {
  import opened Results
  import opened Sums
  import opened Tables
  import opened Trees
  import opened Ledger
  import opened Histories
  import opened Files
  import opened Trash
  import opened Purging

  // ---------- repair ----------

  /** `wrong_counts`: the rows whose count is not the references expected. */
  ghost predicate WrongCount(db: Db, h: Hash) { h in db.blobs && db.blobs[h].refs != ExpectedReferences(db, h) }

  /** `wrong_usage`: the rows whose charge is not the usage expected. */
  ghost predicate WrongUsage(db: Db, o: Owner) { o in db.quotas && db.quotas[o].used != ExpectedUsage(db, o) }

  ghost function CorrectedBlob(db: Db, h: Hash): Blob
    requires h in db.blobs
  {
    var expected := ExpectedReferences(db, h);
    db.blobs[h].(refs := expected,
                 idleSince := if expected != 0 then None else if db.blobs[h].idleSince.Some? then db.blobs[h].idleSince else Some(db.now))
  }

  /** `repair`: each wrong row set to what is expected, and no other row touched. */
  ghost function Repaired(db: Db): Db {
    db.(blobs := map h | h in db.blobs :: if WrongCount(db, h) then CorrectedBlob(db, h) else db.blobs[h],
        quotas := map o | o in db.quotas :: if WrongUsage(db, o) then db.quotas[o].(used := ExpectedUsage(db, o)) else db.quotas[o])
  }

  /** Counts, charges and idle marks are put right, and nothing else in any row, nor any row that was right, changes. */
  ghost predicate PutRight(db: Db, after: Db) {
    && after == db.(blobs := after.blobs, quotas := after.quotas)
    && after.blobs.Keys == db.blobs.Keys && after.quotas.Keys == db.quotas.Keys
    && (forall h :: h in db.blobs ==> BlobPutRight(db.blobs[h], after.blobs[h], ExpectedReferences(db, h), db.now))
    && (forall o :: o in db.quotas ==> after.quotas[o].max == db.quotas[o].max && after.quotas[o].used == ExpectedUsage(db, o))
  }

  predicate BlobPutRight(was: Blob, now: Blob, expected: int, time: int) {
    && now.size == was.size && now.refs == expected
    && (was.refs == expected ==> now.idleSince == was.idleSince)
    && (was.refs != expected && expected != 0 ==> now.idleSince == None)
    && (was.refs != expected && expected == 0 ==> now.idleSince == if was.idleSince.Some? then was.idleSince else Some(time))
  }

  /** There is one way to put the ledger right, and it is what a repair does. */
  lemma RepairIsExact(db: Db, after: Db)
    ensures after == Repaired(db) <==> PutRight(db, after)
  {
    hide ExpectedReferences, ExpectedUsage;
    assert PutRight(db, Repaired(db));
    if PutRight(db, after) { assert after.blobs == Repaired(db).blobs && after.quotas == Repaired(db).quotas; }
  }

  /** Rows whose count was right and whose idle mark was not: what a repair does not look at. */
  ghost predicate Mismarked(db: Db, h: Hash) {
    h in db.blobs && db.blobs[h].refs == ExpectedReferences(db, h) && !(db.blobs[h].idleSince.Some? <==> db.blobs[h].refs == 0)
  }

  /** From any state at all, a repair leaves every count and every charge at what the tables say. */
  lemma RepairEstablishesTheSums(db: Db)
    ensures var after := Repaired(db);
            && (forall h :: h in after.blobs ==> after.blobs[h].refs == ExpectedReferences(after, h))
            && (forall o :: o in after.quotas ==> after.quotas[o].used == ExpectedUsage(after, o))
            && after.blobs.Keys == db.blobs.Keys && after.quotas.Keys == db.quotas.Keys
  {
    hide ExpectedReferences, ExpectedUsage;
    var after := Repaired(db);
    forall h ensures ExpectedReferences(after, h) == ExpectedReferences(db, h) { SameReferences(db, after, h); }
    forall o ensures ExpectedUsage(after, o) == ExpectedUsage(db, o) { SameUsage(db, after, o); }
  }

  /**
    After a repair the ledger balances exactly when no row with a right count was mismarked and no
    account without a quota row has anything charged to it: a repair corrects counts and charges only.
   */
  lemma RepairBalances(db: Db)
    ensures Balanced(Repaired(db)) <==> (forall h :: !Mismarked(db, h)) && (forall o :: o !in db.quotas ==> ExpectedUsage(db, o) == 0)
  {
    hide ExpectedReferences, ExpectedUsage;
    var after := Repaired(db);
    RepairEstablishesTheSums(db);
    forall h ensures ExpectedReferences(after, h) == ExpectedReferences(db, h) { SameReferences(db, after, h); }
    forall o ensures ExpectedUsage(after, o) == ExpectedUsage(db, o) { SameUsage(db, after, o); }
    if Balanced(after) {
      forall h ensures !Mismarked(db, h) { if h in db.blobs { assert h in after.blobs; } }
      forall o | o !in db.quotas ensures ExpectedUsage(db, o) == 0 { assert Used(after, o) == ExpectedUsage(after, o); }
    } else if (forall h :: !Mismarked(db, h)) && (forall o :: o !in db.quotas ==> ExpectedUsage(db, o) == 0) {
      forall h | h in after.blobs ensures after.blobs[h].idleSince.Some? <==> after.blobs[h].refs == 0 { assert !Mismarked(db, h); }
    }
  }

  /** A row of count 0 that nothing names, not marked idle: a repair finds nothing wrong with it, and no sweep will take it. */
  function UnmarkedRow(): Db { Db(map[], map[], map[], map[1 := Blob(5, 0, None)], map[], 0) }

  lemma UnmarkedRowStaysUnmarked(grace: int)
    ensures Repaired(UnmarkedRow()) == UnmarkedRow() && !Balanced(UnmarkedRow())
    ensures SweepRow(UnmarkedRow(), 1, grace).Err?
  {
    var db := UnmarkedRow();
    SumOfNothing(NodesNaming(db.nodes, 1));
    SumOfNothing(VersionsNaming(db.versions, 1));
    SumOfNothing(ThumbnailsNaming(db.thumbnails, 1));
    assert ExpectedReferences(db, 1) == 0;
    assert Mismarked(db, 1);
    RepairBalances(db);
    assert Repaired(db).blobs == db.blobs && Repaired(db).quotas == db.quotas;
  }

  /** A ledger that balances is left as it is, so a repair undoes nothing and repairing twice is repairing once. */
  lemma RepairLeavesTheSound(db: Db)
    ensures Balanced(db) ==> Repaired(db) == db
    ensures Repaired(Repaired(db)) == Repaired(db)
  {
    hide ExpectedReferences, ExpectedUsage;
    RepairEstablishesTheSums(db);
    var after := Repaired(db);
    if Balanced(db) {
      forall o | o in db.quotas ensures !WrongUsage(db, o) { assert Used(db, o) == ExpectedUsage(db, o); }
      assert after.blobs == db.blobs && after.quotas == db.quotas;
    }
    assert Repaired(after).blobs == after.blobs && Repaired(after).quotas == after.quotas;
  }

  // ---------- rows of blobs ----------

  /** `register_blob`: bytes that landed get a row nothing references, idle from now. */
  function RegisterBlob(db: Db, hash: Hash, size: nat): Db {
    if hash in db.blobs then db else db.(blobs := db.blobs[hash := Blob(size, 0, Some(db.now))])
  }

  lemma RegisterKeepsTheLedger(db: Db, hash: Hash, size: nat)
    requires Sound(db)
    ensures var after := RegisterBlob(db, hash, size);
            && Sound(after) && after == db.(blobs := after.blobs) && after.blobs.Keys == db.blobs.Keys + {hash}
            && (forall h :: h in db.blobs ==> after.blobs[h] == db.blobs[h])
            && (hash !in db.blobs ==> after.blobs[hash] == Blob(size, 0, Some(db.now)))
  {
    hide Shaped, ExpectedReferences, ExpectedUsage, ForeignKeys, FilesCarryBlobs, VersionsAreOfFiles;
    var after := RegisterBlob(db, hash, size);
    if hash !in db.blobs {
      NothingNames(db, hash);
      VersionsFitTheSchema(db, after);
      forall h ensures ExpectedReferences(after, h) == ExpectedReferences(db, h) { SameReferences(db, after, h); }
      forall o ensures Used(after, o) == ExpectedUsage(after, o) { SameUsage(db, after, o); }
    }
  }

  /** The row a sweep deletes: unreferenced for longer than the grace, and the source of no thumbnail. */
  function SweepRow(db: Db, hash: Hash, grace: int): Outcome {
    if hash !in db.blobs || db.blobs[hash].refs != 0 || db.blobs[hash].idleSince.None? || db.blobs[hash].idleSince.value >= db.now - grace then Err(NotFound)
    else if exists key :: key in db.thumbnails && key.0 == hash then Err(Conflict)
    else Ok(db.(blobs := db.blobs - {hash}))
  }

  /** A row may be swept: nothing names it, as count or as source of a thumbnail, and that was so before the grace began. */
  ghost predicate MayBeSwept(db: Db, hash: Hash, grace: int) {
    && hash in db.blobs && ExpectedReferences(db, hash) == 0
    && db.blobs[hash].idleSince.Some? && db.blobs[hash].idleSince.value + grace < db.now
    && forall key :: key in db.thumbnails ==> key.0 != hash
  }

  /** Of a sound ledger, exactly such a row is swept, and no other row goes with it. */
  lemma SweepIsExact(db: Db, hash: Hash, grace: int)
    requires Sound(db)
    ensures SweepRow(db, hash, grace).Ok? <==> MayBeSwept(db, hash, grace)
    ensures SweepRow(db, hash, grace).Ok? ==>
              var after := SweepRow(db, hash, grace).value;
              after == db.(blobs := after.blobs) && hash !in after.blobs && forall h :: h in db.blobs && h != hash ==> h in after.blobs && after.blobs[h] == db.blobs[h]
    ensures SweepRow(db, hash, grace).Err? ==>
              SweepRow(db, hash, grace).error == if hash in db.blobs && db.blobs[hash].refs == 0 && db.blobs[hash].idleSince.value + grace < db.now then Conflict else NotFound
  {
    hide Shaped, Schema, ExpectedReferences, ExpectedUsage;
  }

  lemma SweepKeepsTheLedger(db: Db, hash: Hash, grace: int)
    requires Sound(db) && SweepRow(db, hash, grace).Ok?
    ensures Sound(SweepRow(db, hash, grace).value)
  {
    hide Shaped, ExpectedReferences, ExpectedUsage;
    var after := SweepRow(db, hash, grace).value;
    NobodyNames(db, hash);
    forall h ensures ExpectedReferences(after, h) == ExpectedReferences(db, h) { SameReferences(db, after, h); }
    forall o ensures Used(after, o) == ExpectedUsage(after, o) { SameUsage(db, after, o); }
  }

  lemma NobodyNames(db: Db, hash: Hash)
    requires ExpectedReferences(db, hash) == 0
    ensures forall id :: id in db.nodes ==> db.nodes[id].blob != Some(hash)
    ensures forall v :: v in db.versions ==> db.versions[v].blob != hash
    ensures forall key :: key in db.thumbnails ==> db.thumbnails[key] != hash
  {
    CountsAreNatural(db, hash);
  }

  // ---------- thumbnails ----------

  /** `remember`: a first row for the source and edge takes a reference to its bytes; a second is not made. */
  function Remember(db: Db, source: Hash, edge: int, thumbnail: Hash): Db {
    if (source, edge) in db.thumbnails then db
    else db.(thumbnails := db.thumbnails[(source, edge) := thumbnail], blobs := Acquire(db.blobs, thumbnail))
  }

  lemma ThumbnailPut(db: Db, key: (Hash, int), thumbnail: Hash, h: Hash)
    requires key !in db.thumbnails
    ensures Sum(ThumbnailsNaming(db.thumbnails[key := thumbnail], h)) == Sum(ThumbnailsNaming(db.thumbnails, h)) + if thumbnail == h then 1 else 0
  {
    var one := if thumbnail == h then 1 else 0;
    assert ThumbnailsNaming(db.thumbnails[key := thumbnail], h) == ThumbnailsNaming(db.thumbnails, h)[key := one];
    SumWith(ThumbnailsNaming(db.thumbnails, h), key, one);
  }

  lemma RememberKeepsTheLedger(db: Db, source: Hash, edge: int, thumbnail: Hash)
    requires Sound(db) && source in db.blobs && thumbnail in db.blobs
    ensures var after := Remember(db, source, edge, thumbnail);
            && Sound(after) && after == db.(thumbnails := after.thumbnails, blobs := after.blobs)
            && after.thumbnails.Keys == db.thumbnails.Keys + {(source, edge)}
            && (forall key :: key in db.thumbnails ==> after.thumbnails[key] == db.thumbnails[key])
            && ((source, edge) !in db.thumbnails ==> after.thumbnails[(source, edge)] == thumbnail)
  {
    hide Shaped, CountsMatch, UsageMatches, ForeignKeys, FilesCarryBlobs, VersionsAreOfFiles, Acquire;
    if (source, edge) !in db.thumbnails {
      RememberBalances(db, source, edge, thumbnail);
      RememberFits(db, source, edge, thumbnail);
    }
  }

  lemma RememberFits(db: Db, source: Hash, edge: int, thumbnail: Hash)
    requires Schema(db) && source in db.blobs && thumbnail in db.blobs && (source, edge) !in db.thumbnails
    ensures Schema(Remember(db, source, edge, thumbnail))
  {
    AcquireKeepsKeys(db.blobs, thumbnail);
    hide Acquire;
  }

  lemma RememberBalances(db: Db, source: Hash, edge: int, thumbnail: Hash)
    requires Balanced(db) && (source, edge) !in db.thumbnails && thumbnail in db.blobs
    ensures Balanced(Remember(db, source, edge, thumbnail))
  {
    hide ExpectedUsage, ExpectedReferences;
    var after := Remember(db, source, edge, thumbnail);
    BalancedIsIdle(db);
    forall h ensures ExpectedReferences(after, h) == ExpectedReferences(db, h) + if h == thumbnail then 1 else 0 {
      OneMoreThumbnail(db, (source, edge), thumbnail, h, after);
    }
    forall o ensures Used(after, o) == ExpectedUsage(after, o) { SameUsage(db, after, o); }
  }

  lemma OneMoreThumbnail(db: Db, key: (Hash, int), thumbnail: Hash, h: Hash, after: Db)
    requires key !in db.thumbnails && after == db.(thumbnails := db.thumbnails[key := thumbnail], blobs := after.blobs)
    ensures ExpectedReferences(after, h) == ExpectedReferences(db, h) + if h == thumbnail then 1 else 0
  {
    ThumbnailPut(db, key, thumbnail, h);
  }

  /** A thumbnail whose source no live node holds. */
  ghost predicate Orphaned(db: Db, key: (Hash, int)) {
    key in db.thumbnails && forall id :: id in db.nodes && db.nodes[id].Live() ==> db.nodes[id].blob != Some(key.0)
  }

  ghost predicate SourceIsLive(db: Db, source: Hash) { exists id :: id in db.nodes && db.nodes[id].Live() && db.nodes[id].blob == Some(source) }

  /** What `forget_orphans` deletes, in whatever order the database hands the rows back. */
  ghost predicate AreTheOrphans(db: Db, keys: seq<(Hash, int)>) {
    && (forall i, j :: 0 <= i < j < |keys| ==> keys[i] != keys[j])
    && (forall key :: key in keys <==> Orphaned(db, key))
  }

  function Without(db: Db, keys: seq<(Hash, int)>): map<(Hash, int), Hash> {
    map key | key in db.thumbnails && key !in keys :: db.thumbnails[key]
  }

  function ThumbnailHashes(db: Db, keys: seq<(Hash, int)>): seq<Hash> {
    if keys == [] then [] else (if keys[0] in db.thumbnails then [db.thumbnails[keys[0]]] else []) + ThumbnailHashes(db, keys[1..])
  }

  /** `forget_orphans`: the rows go, and each reference they held is released. */
  function Forget(db: Db, keys: seq<(Hash, int)>): Db {
    db.(thumbnails := Without(db, keys), blobs := ReleaseAll(db.blobs, ThumbnailHashes(db, keys), db.now))
  }

  lemma {:induction false} ThumbnailsGone(db: Db, keys: seq<(Hash, int)>, h: Hash)
    requires (forall i, j :: 0 <= i < j < |keys| ==> keys[i] != keys[j]) && forall key :: key in keys ==> key in db.thumbnails
    ensures Sum(ThumbnailsNaming(Without(db, keys), h)) == Sum(ThumbnailsNaming(db.thumbnails, h)) - multiset(ThumbnailHashes(db, keys))[h]
    decreases |keys|
  {
    if keys == [] {
      assert Without(db, keys) == db.thumbnails;
    } else {
      var key, rest := keys[0], keys[1..];
      assert keys == [key] + rest;
      ThumbnailsGone(db, rest, h);
      assert key !in rest;
      SumWithout(ThumbnailsNaming(Without(db, rest), h), key);
      assert ThumbnailsNaming(Without(db, rest), h) - {key} == ThumbnailsNaming(Without(db, keys), h);
    }
  }

  lemma {:induction false} ThumbnailHashesAreKnown(db: Db, keys: seq<(Hash, int)>)
    requires ForeignKeys(db)
    ensures forall h :: h in ThumbnailHashes(db, keys) ==> h in db.blobs
  {
    if keys != [] { ThumbnailHashesAreKnown(db, keys[1..]); }
  }

  lemma WithoutFitsTheSchema(db: Db, keys: seq<(Hash, int)>)
    requires Schema(db)
    ensures Schema(db.(thumbnails := Without(db, keys)))
  {
  }

  lemma ForgetKeepsTheLedger(db: Db, keys: seq<(Hash, int)>)
    requires Sound(db) && AreTheOrphans(db, keys)
    ensures var after := Forget(db, keys);
            && Sound(after) && after == db.(thumbnails := after.thumbnails, blobs := after.blobs)
            && (forall key :: key in after.thumbnails ==> key in db.thumbnails && after.thumbnails[key] == db.thumbnails[key])
            && (forall key :: key in db.thumbnails ==> (key in after.thumbnails <==> SourceIsLive(db, key.0)))
  {
    hide Shaped, ExpectedUsage, ForeignKeys, FilesCarryBlobs, VersionsAreOfFiles, ThumbnailHashes, ReleaseAll;
    BalancedIsIdle(db);
    var left := db.(thumbnails := Without(db, keys));
    var hashes := ThumbnailHashes(db, keys);
    forall h ensures ExpectedReferences(left, h) == ExpectedReferences(db, h) - multiset(hashes)[h] { ThumbnailsGone(db, keys, h); }
    forall o ensures Used(left, o) == ExpectedUsage(left, o) { SameUsage(db, left, o); }
    hide ExpectedReferences;
    assert OffBy(left, 0, 0, multiset(hashes), multiset{}, {});
    ThumbnailHashesAreKnown(db, keys);
    AllReleased(left, hashes, 0, 0);
    BalancedIsOffByNothing(Forget(db, keys), 0);
    WithoutFitsTheSchema(db, keys);
    VersionsFitTheSchema(left, Forget(db, keys));
  }

  /** Once the orphans are forgotten, nothing stands in the way of sweeping a blob that has been unreferenced long enough. */
  lemma ForgettingClearsTheWay(db: Db, keys: seq<(Hash, int)>, hash: Hash, grace: int)
    requires Sound(db) && AreTheOrphans(db, keys)
    requires var after := Forget(db, keys);
             hash in after.blobs && after.blobs[hash].refs == 0 && after.blobs[hash].idleSince.Some? && after.blobs[hash].idleSince.value < db.now - grace
    ensures SweepRow(Forget(db, keys), hash, grace).Ok?
  {
    hide Shaped, Schema, ReleaseAll, ThumbnailHashes, ExpectedReferences;
    var after := Forget(db, keys);
    ForgetKeepsTheLedger(db, keys);
    NobodyNames(after, hash);
    forall key | key in after.thumbnails ensures key.0 != hash {
      assert !Orphaned(db, key);
    }
  }
}
