/**
  The statements of `repair` and the findings it works from (api/src/check.rs), of api/src/thumbnails.rs
  and of api/src/departure.rs, run against the tables in place.
 */
module UpkeepTransactions {
  import opened Results
  import opened Sums
  import opened Tables
  import opened Ledger
  import opened Histories
  import opened Files
  import opened Purging
  import opened Moving
  import opened Departure
  import opened Upkeep
  import opened Transactions
  import opened TrashTransactions

  // ---------- check ----------

  ghost predicate AreWrongCounts(db: Db, wrong: seq<(Hash, int)>, among: set<Hash>) {
    && (forall i :: 0 <= i < |wrong| ==> WrongCount(db, wrong[i].0) && wrong[i].1 == ExpectedReferences(db, wrong[i].0))
    && (forall h :: h in among && WrongCount(db, h) ==> exists i :: 0 <= i < |wrong| && wrong[i].0 == h)
  }

  ghost predicate AreWrongUsage(db: Db, wrong: seq<(Owner, int)>, among: set<Owner>) {
    && (forall i :: 0 <= i < |wrong| ==> WrongUsage(db, wrong[i].0) && wrong[i].1 == ExpectedUsage(db, wrong[i].0))
    && (forall o :: o in among && WrongUsage(db, o) ==> exists i :: 0 <= i < |wrong| && wrong[i].0 == o)
  }

  lemma OneMoreCount(db: Db, wrong: seq<(Hash, int)>, among: set<Hash>, h: Hash)
    requires AreWrongCounts(db, wrong, among)
    ensures !WrongCount(db, h) ==> AreWrongCounts(db, wrong, among + {h})
    ensures WrongCount(db, h) ==> AreWrongCounts(db, wrong + [(h, ExpectedReferences(db, h))], among + {h})
  {
    hide ExpectedReferences, WrongCount;
    var more := wrong + [(h, ExpectedReferences(db, h))];
    assert more[|wrong|].0 == h;
    forall x | x in among && WrongCount(db, x) ensures exists i :: 0 <= i < |more| && more[i].0 == x {
      var i :| 0 <= i < |wrong| && wrong[i].0 == x;
      assert more[i].0 == x;
    }
  }

  lemma OneMoreUsage(db: Db, wrong: seq<(Owner, int)>, among: set<Owner>, o: Owner)
    requires AreWrongUsage(db, wrong, among)
    ensures !WrongUsage(db, o) ==> AreWrongUsage(db, wrong, among + {o})
    ensures WrongUsage(db, o) ==> AreWrongUsage(db, wrong + [(o, ExpectedUsage(db, o))], among + {o})
  {
    hide ExpectedUsage, WrongUsage;
    var more := wrong + [(o, ExpectedUsage(db, o))];
    assert more[|wrong|].0 == o;
    forall x | x in among && WrongUsage(db, x) ensures exists i :: 0 <= i < |more| && more[i].0 == x {
      var i :| 0 <= i < |wrong| && wrong[i].0 == x;
      assert more[i].0 == x;
    }
  }

  lemma NoneLooked(db: Db)
    ensures AreWrongCounts(db, [], {}) && AreWrongUsage(db, [], {})
  {
  }

  lemma OneLeft<K>(all: set<K>, left: set<K>, k: K)
    requires left <= all && k in left
    ensures all - (left - {k}) == all - left + {k} && |left - {k}| < |left|
  {
  }

  method ReferencesExpected(tx: Transaction, h: Hash) returns (expected: int)
    ensures expected == ExpectedReferences(tx.Rows(), h)
  {
    var named := Total(NodesNaming(tx.nodes, h));
    var kept := Total(VersionsNaming(tx.versions, h));
    var cached := Total(ThumbnailsNaming(tx.thumbnails, h));
    expected := named + kept + cached;
  }

  method UsageExpected(tx: Transaction, o: Owner) returns (expected: int)
    ensures expected == ExpectedUsage(tx.Rows(), o)
  {
    var live := Total(LiveSizes(tx.nodes, o));
    var kept := Total(KeptSizes(tx.nodes, tx.versions, o));
    expected := live + kept;
  }

  /** `wrong_counts`: every row whose count is wrong, with what it should be. */
  method WrongCounts(tx: Transaction) returns (wrong: seq<(Hash, int)>)
    ensures AreWrongCounts(tx.Rows(), wrong, tx.blobs.Keys)
  {
    hide ExpectedReferences, AreWrongCounts;
    NoneLooked(tx.Rows());
    var all, left := tx.blobs.Keys, tx.blobs.Keys;
    wrong := [];
    assert all - left == {} && all - {} == all;
    while left != {}
      invariant left <= all && AreWrongCounts(tx.Rows(), wrong, all - left)
      decreases |left|
    {
      var h :| h in left;
      var expected := ReferencesExpected(tx, h);
      OneMoreCount(tx.Rows(), wrong, all - left, h);
      OneLeft(all, left, h);
      if tx.blobs[h].refs != expected { wrong := wrong + [(h, expected)]; }
      left := left - {h};
    }
  }

  /** `wrong_usage`: every row whose charge is wrong, with what it should be. */
  method WrongCharges(tx: Transaction) returns (wrong: seq<(Owner, int)>)
    ensures AreWrongUsage(tx.Rows(), wrong, tx.quotas.Keys)
  {
    hide ExpectedUsage, AreWrongUsage;
    NoneLooked(tx.Rows());
    var all, left := tx.quotas.Keys, tx.quotas.Keys;
    wrong := [];
    assert all - left == {} && all - {} == all;
    while left != {}
      invariant left <= all && AreWrongUsage(tx.Rows(), wrong, all - left)
      decreases |left|
    {
      var o :| o in left;
      var expected := UsageExpected(tx, o);
      OneMoreUsage(tx.Rows(), wrong, all - left, o);
      OneLeft(all, left, o);
      if tx.quotas[o].used != expected { wrong := wrong + [(o, expected)]; }
      left := left - {o};
    }
  }

  ghost predicate Found<K>(wrong: seq<(K, int)>, n: nat, k: K)
    requires n <= |wrong|
  {
    exists i :: 0 <= i < n && wrong[i].0 == k
  }

  /** `repair`: each row found wrong is set to what was expected of it. */
  method RepairIn(tx: Transaction, wrongCounts: seq<(Hash, int)>, wrongUsage: seq<(Owner, int)>)
    requires AreWrongCounts(tx.Rows(), wrongCounts, tx.blobs.Keys) && AreWrongUsage(tx.Rows(), wrongUsage, tx.quotas.Keys)
    modifies tx`blobs, tx`quotas
    ensures tx.Rows() == Repaired(old(tx.Rows())) && PutRight(old(tx.Rows()), tx.Rows())
  {
    hide ExpectedReferences, ExpectedUsage;
    ghost var db := tx.Rows();
    RepairIsExact(db, Repaired(db));
    for i := 0 to |wrongCounts|
      invariant tx.blobs.Keys == db.blobs.Keys && tx.quotas == db.quotas
      invariant forall h :: h in db.blobs ==> tx.blobs[h] == if Found(wrongCounts, i, h) then CorrectedBlob(db, h) else db.blobs[h]
    {
      var (h, expected) := wrongCounts[i];
      assert WrongCount(db, h);
      var idle := if expected != 0 then None else if tx.blobs[h].idleSince.Some? then tx.blobs[h].idleSince else Some(tx.now);
      tx.blobs := tx.blobs[h := tx.blobs[h].(refs := expected, idleSince := idle)];
      assert Found(wrongCounts, i + 1, h);
      assert forall x :: x != h ==> (Found(wrongCounts, i + 1, x) <==> Found(wrongCounts, i, x));
    }
    for i := 0 to |wrongUsage|
      invariant tx.quotas.Keys == db.quotas.Keys && tx.blobs == Repaired(db).blobs
      invariant forall o :: o in db.quotas ==> tx.quotas[o] == if Found(wrongUsage, i, o) then db.quotas[o].(used := ExpectedUsage(db, o)) else db.quotas[o]
    {
      var (o, expected) := wrongUsage[i];
      assert WrongUsage(db, o);
      tx.quotas := tx.quotas[o := tx.quotas[o].(used := expected)];
      assert Found(wrongUsage, i + 1, o);
      assert forall x :: x != o ==> (Found(wrongUsage, i + 1, x) <==> Found(wrongUsage, i, x));
    }
    assert tx.quotas == Repaired(db).quotas;
  }

  /** `run` with `repair` asked for, nothing else writing meanwhile. */
  method CheckAndRepair(tx: Transaction)
    modifies tx`blobs, tx`quotas
    ensures tx.Rows() == Repaired(old(tx.Rows())) && PutRight(old(tx.Rows()), tx.Rows())
  {
    var counts := WrongCounts(tx);
    var usage := WrongCharges(tx);
    RepairIn(tx, counts, usage);
  }

  // ---------- thumbnails ----------

  /** `remember`. */
  method RememberIn(tx: Transaction, source: Hash, edge: int, thumbnail: Hash)
    modifies tx`thumbnails, tx`blobs
    ensures tx.Rows() == Remember(old(tx.Rows()), source, edge, thumbnail)
  {
    if (source, edge) !in tx.thumbnails {
      tx.thumbnails := tx.thumbnails[(source, edge) := thumbnail];
      tx.AcquireBlob(thumbnail);
    }
  }

  /** `forget_orphans`, with the rows deleted in the order the database hands them back. */
  method ForgetIn(tx: Transaction, keys: seq<(Hash, int)>) returns (released: nat)
    requires AreTheOrphans(tx.Rows(), keys)
    modifies tx`thumbnails, tx`blobs
    ensures tx.Rows() == Forget(old(tx.Rows()), keys) && released == |keys|
  {
    hide Acquire, Release;
    var db := tx.Rows();
    var hashes := ThumbnailHashes(db, keys);
    AsManyHashes(db, keys);
    tx.thumbnails := Without(db, keys);
    released := 0;
    for i := 0 to |hashes|
      invariant released == i && tx.thumbnails == Without(db, keys)
      invariant ReleaseAll(tx.blobs, hashes[i..], tx.now) == ReleaseAll(db.blobs, hashes, tx.now)
    {
      assert hashes[i..][0] == hashes[i] && hashes[i..][1..] == hashes[i + 1..];
      tx.ReleaseBlob(hashes[i]);
      released := released + 1;
    }
    assert hashes[|hashes|..] == [];
  }

  lemma {:induction false} AsManyHashes(db: Db, keys: seq<(Hash, int)>)
    requires forall key :: key in keys ==> key in db.thumbnails
    ensures |ThumbnailHashes(db, keys)| == |keys|
  {
    if keys != [] { AsManyHashes(db, keys[1..]); }
  }

  // ---------- departure ----------

  /** `free_name`. */
  method FreeNameIn(tx: Transaction, parent: Id, wanted: string) returns (r: Result<string, ApiError>)
    ensures r == FreeName(tx.nodes, parent, wanted, 1)
  {
    hide ChildOf, Candidate;
    var attempt := 1;
    while attempt <= MAX_ATTEMPTS
      invariant 1 <= attempt <= MAX_ATTEMPTS + 1 && FreeName(tx.nodes, parent, wanted, attempt) == FreeName(tx.nodes, parent, wanted, 1)
    {
      var candidate := Candidate(wanted, attempt);
      if ChildOf(tx.nodes, parent, candidate).None? { return Ok(candidate); }
      attempt := attempt + 1;
    }
    return Err(Conflict);
  }

  /** `ensure_root`: an id is drawn whether or not the root turns out to be there. */
  method EnsureRootIn(tx: Transaction, owner: Owner, quota: int) returns (root: Id)
    modifies tx`nodes, tx`quotas, tx`next
    ensures (tx.Rows(), root) == EnsureRoot(old(tx.Rows()), owner, quota, old(tx.next)) && tx.next == old(tx.next) + 1
  {
    hide RootOf;
    if owner !in tx.quotas { tx.quotas := tx.quotas[owner := Quota(0, quota)]; }
    var id := tx.Draw();
    var found := RootOf(tx.nodes, owner);
    if found.Some? { return found.value; }
    tx.nodes := tx.nodes[id := Node(owner, None, "", Directory, None, 0, None)];
    return id;
  }

  /** `hand_over`. */
  method HandOverIn(tx: Transaction, leaving: Owner, recipient: Owner, quota: int, wanted: string) returns (r: Reply)
    modifies tx`nodes, tx`quotas, tx`next
    ensures match HandOver(old(tx.Rows()), leaving, recipient, quota, wanted, old(tx.next))
            case Ok(after) => r == Ok(()) && tx.Rows() == after
            case Err(e) => r == Err(e)
  {
    hide RootOf, FreeName, Charge, EnsureRoot;
    var oldRoot := RootOf(tx.nodes, leaving);
    if oldRoot.None? { return Ok(()); }
    ghost var db := tx.Rows();
    EnsureRootCharges(db, leaving, recipient, quota, tx.next);
    var root := EnsureRootIn(tx, recipient, quota);
    var name := FreeNameIn(tx, root, wanted);
    if name.Err? { return Err(name.error); }
    var folder := tx.Draw();
    tx.nodes := tx.nodes[folder := NewDirectory(recipient, root, name.value)];
    tx.nodes := Handed(tx.nodes, leaving, recipient, oldRoot.value, folder);
    var used := if leaving in tx.quotas then tx.quotas[leaving].used else 0;
    r := tx.ChargeQuota(recipient, used);
  }

  lemma EnsureRootCharges(db: Db, leaving: Owner, recipient: Owner, quota: int, next: Id)
    ensures Used(EnsureRoot(db, recipient, quota, next).0, leaving) == Used(db, leaving)
  {
  }

  /** The end of `remove`: what the account still holds is read, its row deleted with all that hangs from it, and each reference released. */
  method EraseIn(tx: Transaction, owner: Owner)
    modifies tx`nodes, tx`versions, tx`quotas, tx`blobs
    ensures tx.Rows() == Erase(old(tx.Rows()), owner)
  {
    hide Cascade, HashesHeld;
    var gone := OwnedBy(tx.nodes, owner);
    var held := HashesHeld(tx.Rows(), gone);
    gone := Cascade(tx.nodes, gone);
    tx.versions := tx.versions - VersionsUnder(tx.versions, gone);
    tx.nodes := tx.nodes - gone;
    tx.quotas := tx.quotas - {owner};
    tx.ReleaseBlobs(held);
  }

  /** `remove`. */
  method RemoveIn(tx: Transaction, leaving: Owner, to: Recipient, quota: int, wanted: string) returns (r: Reply, ghost roots: seq<Id>)
    modifies tx
    ensures Sound(old(tx.Rows())) ==> RootsCover(old(tx.Rows()), leaving, roots)
    ensures match Remove(old(tx.Rows()), leaving, roots, to, quota, wanted, old(tx.next))
            case Ok(after) => r == Ok(()) && tx.Rows() == after
            case Err(e) => r == Err(e)
  {
    hide Empty, HandOver, Erase, Sound, RootsCover;
    var emptied: Result<nat, ApiError>;
    emptied, roots := EmptyIn(tx, leaving);
    if emptied.Err? { return Err(emptied.error), roots; }
    if to.Account? {
      if !to.active || !to.mayWrite { return Err(WrongKind), roots; }
      var handed := HandOverIn(tx, leaving, to.owner, quota, wanted);
      if handed.Err? { return handed, roots; }
    }
    EraseIn(tx, leaving);
    return Ok(()), roots;
  }
}
