/**
  What an overwrite does to a file's history, and what restoring a version does to everything:
  `put_file` of api/src/db.rs, api/src/versions.rs and `restore` of api/src/routes/versions.rs.
 */
module Overwrites {
  import opened Results
  import opened Tables
  import opened Trees
  import opened Ledger
  import opened Histories
  import opened Files

  // ---------- histories as sequences ----------

  ghost predicate Rising(ids: seq<Id>) { forall i, j :: 0 <= i < j < |ids| ==> ids[i] < ids[j] }

  lemma {:induction false} RisingIsOrdered(ids: seq<Id>)
    requires Rising(ids)
    ensures Ordered(Elements(ids)) == ids
    decreases |ids|
  {
    if ids != [] {
      var rest := ids[1..];
      FirstIsLeast(ids);
      RisingIsOrdered(rest);
      assert Elements(rest) == Elements(ids) - {ids[0]};
      assert ids == [ids[0]] + rest;
    }
  }

  lemma FirstIsLeast(ids: seq<Id>)
    requires ids != [] && Rising(ids)
    ensures Elements(ids) != {} && Least(Elements(ids)) == ids[0]
    ensures forall x :: x in ids[1..] <==> x in ids && x != ids[0]
  {
    var rest := ids[1..];
    assert ids[0] in Elements(ids);
    assert ids == [ids[0]] + rest;
    forall x | x in rest ensures ids[0] < x {
      var i :| 0 <= i < |rest| && rest[i] == x;
      assert ids[i + 1] == x;
    }
    assert forall x :: x in ids ==> x == ids[0] || x in rest;
  }

  /** A rising run of exactly the node's versions is its history. */
  lemma HistoryIs(versions: map<Id, Version>, node: Id, ids: seq<Id>)
    requires Rising(ids)
    requires forall id :: id in ids <==> id in versions && versions[id].node == node
    ensures History(versions, node) == ids
  {
    RisingIsOrdered(ids);
    assert Elements(ids) == VersionsOf(versions, node);
  }

  lemma HistoryWithoutOldest(versions: map<Id, Version>, node: Id, k: nat)
    requires k <= |History(versions, node)|
    ensures History(versions - Elements(History(versions, node)[..k]), node) == History(versions, node)[k..]
  {
    var history := History(versions, node);
    var left := versions - Elements(history[..k]);
    HistoryHolds(versions, node);
    forall id ensures id in history[k..] <==> id in left && left[id].node == node {
      if id in history {
        var i :| 0 <= i < |history| && history[i] == id;
        if i >= k {
          assert history[k..][i - k] == id;
          forall j | 0 <= j < k ensures history[..k][j] != id { assert history[j] < history[i]; }
        } else {
          assert history[..k][i] == id;
          forall j | 0 <= j < |history| - k ensures history[k..][j] != id { assert history[i] < history[k + j]; }
        }
      }
    }
    HistoryIs(left, node, history[k..]);
  }

  lemma HistoryWithNewest(versions: map<Id, Version>, node: Id, id: Id, v: Version)
    requires v.node == node && forall x :: x in versions ==> x < id
    ensures History(versions[id := v], node) == History(versions, node) + [id]
  {
    HistoryHolds(versions, node);
    var history := History(versions, node);
    forall i | 0 <= i < |history| ensures history[i] < id { assert history[i] in history; }
    assert Rising(history);
    HistoryIs(versions[id := v], node, history + [id]);
  }

  function Newest(ids: seq<Id>, kept: nat): seq<Id> {
    if |ids| <= kept then ids else ids[|ids| - kept..]
  }

  lemma PrunedHistory(db: Db, owner: Owner, node: Id, kept: nat)
    requires PruneBeyond(db, owner, node, kept).Ok?
    ensures History(PruneBeyond(db, owner, node, kept).value.versions, node) == Newest(History(db.versions, node), kept)
  {
    var history := History(db.versions, node);
    if |history| <= kept { assert history[..0] == []; HistoryWithoutOldest(db.versions, node, 0); }
    else { HistoryWithoutOldest(db.versions, node, |history| - kept); }
  }

  lemma PruneSucceeds(db: Db, owner: Owner, node: Id, kept: int)
    requires owner in db.quotas
    ensures PruneBeyond(db, owner, node, kept).Ok? <==>
            var spare := SizeOf(db.versions, Beyond(db.versions, node, kept));
            spare == 0 || db.quotas[owner].used - spare <= db.quotas[owner].max
    ensures WithinQuota(db, owner) ==> PruneBeyond(db, owner, node, kept).Ok?
  {
    SizesAreNatural(db.versions, Beyond(db.versions, node, kept));
    ChargeMoves(db.quotas, owner, -SizeOf(db.versions, Beyond(db.versions, node, kept)));
  }

  // ---------- an overwrite with history ----------

  /** The overwrites that keep history: there is content to keep, and it is being replaced by other content. */
  ghost predicate KeepsHistory(db: Db, owner: Owner, id: Id, hash: Hash, kept: int) {
    OwnFile(db, owner, id) && kept > 0 && db.nodes[id].size > 0 && db.nodes[id].blob != Some(hash)
  }

  /**
    How such an overwrite ends: the `k` oldest versions went, as few as make the new content fit;
    the replaced content became the newest version unless even none left did not make it fit; and of
    what is then there the newest `kept` remain.
   */
  ghost predicate Overwritten(db: Db, owner: Owner, id: Id, hash: Hash, size: nat, kept: nat, version: Id, after: Db, k: nat)
    requires owner in db.quotas && id in db.nodes
  {
    var history := History(db.versions, id);
    && k <= |history|
    && (forall j :: 0 <= j < k ==> !Fits(db, owner, id, size, j))
    && var versioned := Fits(db, owner, id, size, k);
       && (!versioned ==> k == |history|)
       && History(after.versions, id) == Newest(history[k..] + (if versioned then [version] else []), kept)
       && |History(after.versions, id)| <= kept
       && after.nodes == db.nodes[id := db.nodes[id].(blob := Some(hash), size := size)]
  }

  lemma PaidHistory(db: Db, owner: Owner, id: Id, hash: Hash, size: nat, kept: nat, version: Id, k: nat)
    requires owner in db.quotas && KeepsHistory(db, owner, id, hash, kept) && (forall v :: v in db.versions ==> v < version)
    requires MakeRoom(db, owner, id, size, db.nodes[id].size).Ok?
    requires GaveUp(db, owner, id, size, db.nodes[id].size, MakeRoom(db, owner, id, size, db.nodes[id].size).value.0, MakeRoom(db, owner, id, size, db.nodes[id].size).value.1, k)
    ensures Unpruned(db, owner, id, hash, size, kept, version).Ok?
    ensures var unpruned := Unpruned(db, owner, id, hash, size, kept, version).value;
            && unpruned.quotas == MakeRoom(db, owner, id, size, db.nodes[id].size).value.0.quotas
            && unpruned.versions - {version} == MakeRoom(db, owner, id, size, db.nodes[id].size).value.0.versions
            && History(unpruned.versions, id) == History(db.versions, id)[k..] + (if Fits(db, owner, id, size, k) then [version] else [])
            && unpruned.nodes == db.nodes[id := db.nodes[id].(blob := Some(hash), size := size)]
  {
    hide MakeRoom, Acquire, Release, History, Fits, SizeOf;
    var (paid, versioned) := MakeRoom(db, owner, id, size, db.nodes[id].size).value;
    HistoryWithoutOldest(db.versions, id, k);
    var unpruned := Unpruned(db, owner, id, hash, size, kept, version).value;
    assert unpruned.quotas == paid.quotas;
    if versioned {
      HistoryWithNewest(paid.versions, id, version, Version(id, db.nodes[id].blob.value, db.nodes[id].size));
    }
  }

  /** What an overwrite with nothing drops of a full history, once the replaced content has joined it. */
  function Spare(db: Db, id: Id, kept: nat): seq<Id> {
    var history := History(db.versions, id);
    if |history| < kept || kept == 0 then [] else history[..|history| + 1 - kept]
  }

  /**
    When an overwrite that keeps history succeeds: there is room; and where nothing is charged, so that
    the account may be over its quota still, the credit for what falls out of the history brings it within.
   */
  ghost predicate OverwriteFits(db: Db, owner: Owner, id: Id, size: nat, kept: nat)
    requires owner in db.quotas && id in db.nodes
  {
    && RoomIsMade(db, owner, id, size, db.nodes[id].size)
    && (size == 0 ==>
          var spare := SizeOf(db.versions, Spare(db, id, kept));
          spare == 0 || db.quotas[owner].used - spare <= db.quotas[owner].max)
  }

  /** An overwrite with nothing is paid for by nothing, so only what falls out of the history is credited. */
  lemma NothingCharged(db: Db, owner: Owner, id: Id, hash: Hash, kept: nat, version: Id)
    requires owner in db.quotas && KeepsHistory(db, owner, id, hash, kept) && (forall v :: v in db.versions ==> v < version)
    ensures Unpruned(db, owner, id, hash, 0, kept, version).Ok?
    ensures var unpruned := Unpruned(db, owner, id, hash, 0, kept, version).value;
            unpruned.quotas == db.quotas && SizeOf(unpruned.versions, Beyond(unpruned.versions, id, kept)) == SizeOf(db.versions, Spare(db, id, kept))
  {
    hide Acquire, Release, History, SizeOf;
    var unpruned := Unpruned(db, owner, id, hash, 0, kept, version).value;
    HistoryWithNewest(db.versions, id, version, Version(id, db.nodes[id].blob.value, db.nodes[id].size));
    HistoryHolds(db.versions, id);
    var history, spare := History(db.versions, id), Spare(db, id, kept);
    assert Beyond(unpruned.versions, id, kept) == spare;
    forall v | v in spare ensures v in db.versions { assert v in history; }
    SizeUnmoved(db.versions, unpruned.versions, spare);
  }

  /** Whatever was charged, what falls out of the history can be credited. */
  lemma SomethingCharged(db: Db, owner: Owner, id: Id, hash: Hash, size: nat, kept: nat, version: Id, k: nat)
    requires owner in db.quotas && KeepsHistory(db, owner, id, hash, kept) && (forall v :: v in db.versions ==> v < version) && size > 0
    requires MakeRoom(db, owner, id, size, db.nodes[id].size).Ok?
    requires GaveUp(db, owner, id, size, db.nodes[id].size, MakeRoom(db, owner, id, size, db.nodes[id].size).value.0, MakeRoom(db, owner, id, size, db.nodes[id].size).value.1, k)
    requires Unpruned(db, owner, id, hash, size, kept, version).Ok?
    ensures PruneBeyond(Unpruned(db, owner, id, hash, size, kept, version).value, owner, id, kept).Ok?
  {
    hide MakeRoom, Acquire, Release, History, Fits, SizeOf, Unpruned, PruneBeyond;
    PaidHistory(db, owner, id, hash, size, kept, version, k);
    var unpruned := Unpruned(db, owner, id, hash, size, kept, version).value;
    PruneSucceeds(unpruned, owner, id, kept);
    if !WithinQuota(unpruned, owner) {
      assert History(db.versions, id)[k..] == [];
      assert Beyond(unpruned.versions, id, kept) == [];
      NoSize(unpruned.versions);
    }
  }

  lemma NoSize(versions: map<Id, Version>)
    ensures SizeOf(versions, []) == 0
  {
  }

  /** An overwrite that keeps history succeeds exactly when `OverwriteFits` says, and ends as `Overwritten` says. */
  lemma OverwriteIsExact(db: Db, owner: Owner, id: Id, hash: Hash, size: nat, kept: nat, version: Id)
    requires owner in db.quotas && KeepsHistory(db, owner, id, hash, kept) && (forall v :: v in db.versions ==> v < version)
    ensures Overwrite(db, owner, id, hash, size, kept, version).Ok? <==> OverwriteFits(db, owner, id, size, kept)
    ensures WithinQuota(db, owner) ==> (OverwriteFits(db, owner, id, size, kept) <==> size <= Room(db, owner, id, db.nodes[id].size))
    ensures Overwrite(db, owner, id, hash, size, kept, version).Ok? ==>
              exists k :: Overwritten(db, owner, id, hash, size, kept, version, Overwrite(db, owner, id, hash, size, kept, version).value, k)
  {
    hide MakeRoom, History, Fits, SizeOf, PruneBeyond, Overwrite, GaveUp, Room, Settle, Acquire, RoomIsMade, Unpruned, Spare, Beyond;
    RoomIsExact(db, owner, id, size, db.nodes[id].size);
    OverwriteIsPrunedLast(db, owner, id, hash, size, kept, version);
    if WithinQuota(db, owner) {
      WithinQuotaRoomIsAll(db, owner, id, size, db.nodes[id].size);
      SizesAreNatural(db.versions, Spare(db, id, kept));
    }
    var made := MakeRoom(db, owner, id, size, db.nodes[id].size);
    if made.Ok? {
      var k :| GaveUp(db, owner, id, size, db.nodes[id].size, made.value.0, made.value.1, k);
      PaidHistory(db, owner, id, hash, size, kept, version, k);
      var unpruned := Unpruned(db, owner, id, hash, size, kept, version).value;
      if size == 0 {
        NothingCharged(db, owner, id, hash, kept, version);
        PruneSucceeds(unpruned, owner, id, kept);
      } else {
        SomethingCharged(db, owner, id, hash, size, kept, version, k);
      }
      if PruneBeyond(unpruned, owner, id, kept).Ok? {
        PrunedHistory(unpruned, owner, id, kept);
        GaveUpHolds(db, owner, id, size, db.nodes[id].size, made.value.0, made.value.1, k);
        PruneLeavesNodes(unpruned, owner, id, kept);
        assert Overwritten(db, owner, id, hash, size, kept, version, Overwrite(db, owner, id, hash, size, kept, version).value, k);
      }
    } else {
      UnpaidIsRefused(db, owner, id, hash, size, kept, version);
    }
  }

  lemma UnpaidIsRefused(db: Db, owner: Owner, id: Id, hash: Hash, size: nat, kept: nat, version: Id)
    requires KeepsHistory(db, owner, id, hash, kept) && MakeRoom(db, owner, id, size, db.nodes[id].size).Err?
    ensures Unpruned(db, owner, id, hash, size, kept, version).Err?
  {
    hide MakeRoom;
  }

  lemma GaveUpHolds(db: Db, owner: Owner, node: Id, size: nat, previous: nat, after: Db, versioned: bool, k: nat)
    requires owner in db.quotas && GaveUp(db, owner, node, size, previous, after, versioned, k)
    ensures k <= |History(db.versions, node)| && (versioned <==> Fits(db, owner, node, size, k))
    ensures forall j :: 0 <= j < k ==> !Fits(db, owner, node, size, j)
    ensures !versioned ==> k == |History(db.versions, node)|
  {
  }

  lemma PruneLeavesNodes(db: Db, owner: Owner, node: Id, kept: int)
    requires PruneBeyond(db, owner, node, kept).Ok?
    ensures PruneBeyond(db, owner, node, kept).value.nodes == db.nodes
  {
  }

  // ---------- restoring a version ----------

  /** `restore`: the version is taken, and its content is written where the file is, as an upload of it would be. */
  function RestoreVersion(db: Db, owner: Owner, parent: Id, name: string, taken: Id, kept: int, node: Id, version: Id): Outcome
    requires FilesCarryBlobs(db)
  {
    match ChildOf(db.nodes, parent, name)
    case None => Err(NotFound)
    case Some(id) =>
      if db.nodes[id].kind.Directory? then Err(WrongKind)
      else
        match Take(db, owner, id, taken)
        case Err(e) => Err(e)
        case Ok(after) => PutFile(after, owner, parent, name, db.versions[taken].blob, db.versions[taken].size, kept, node, version)
  }

  function ContentOf(versions: map<Id, Version>, ids: seq<Id>): multiset<(Hash, nat)> {
    if ids == [] then multiset{}
    else (if ids[0] in versions then multiset{(versions[ids[0]].blob, versions[ids[0]].size)} else multiset{}) + ContentOf(versions, ids[1..])
  }

  /** What a file holds now and held before, as contents with their multiplicity. */
  function Contents(db: Db, id: Id): multiset<(Hash, nat)>
    requires id in db.nodes && db.nodes[id].blob.Some?
  {
    multiset{(db.nodes[id].blob.value, db.nodes[id].size)} + ContentOf(db.versions, History(db.versions, id))
  }

  lemma {:induction false} ContentOfBoth(versions: map<Id, Version>, a: seq<Id>, b: seq<Id>)
    ensures ContentOf(versions, a + b) == ContentOf(versions, a) + ContentOf(versions, b)
  {
    if a == [] { assert a + b == b; }
    else {
      assert (a + b)[1..] == a[1..] + b;
      ContentOfBoth(versions, a[1..], b);
    }
  }

  lemma {:induction false} ContentUnmoved(a: map<Id, Version>, b: map<Id, Version>, ids: seq<Id>)
    requires forall id :: id in ids ==> id in a && id in b && a[id] == b[id]
    ensures ContentOf(a, ids) == ContentOf(b, ids)
  {
    if ids != [] { ContentUnmoved(a, b, ids[1..]); }
  }

  lemma ContentSwapped(versions: map<Id, Version>, after: map<Id, Version>, a: seq<Id>, taken: Id, b: seq<Id>, version: Id)
    requires taken in versions && version in after
    requires forall id :: id in a || id in b ==> id in versions && id in after && versions[id] == after[id]
    ensures ContentOf(after, a + b + [version]) + multiset{(versions[taken].blob, versions[taken].size)} ==
            ContentOf(versions, a + [taken] + b) + multiset{(after[version].blob, after[version].size)}
  {
    ContentOfBoth(versions, a + [taken], b);
    ContentOfBoth(versions, a, [taken]);
    ContentOfBoth(after, a + b, [version]);
    ContentOfBoth(after, a, b);
    ContentUnmoved(versions, after, a);
    ContentUnmoved(versions, after, b);
  }

  /** One version out of the middle of a history, another at its end. */
  lemma HistorySwapped(versions: map<Id, Version>, node: Id, taken: Id, version: Id, v: Version)
    requires taken in versions && versions[taken].node == node && v.node == node && forall x :: x in versions ==> x < version
    ensures var after := (versions - {taken})[version := v];
            && |History(after, node)| == |History(versions, node)|
            && ContentOf(after, History(after, node)) + multiset{(versions[taken].blob, versions[taken].size)} ==
               ContentOf(versions, History(versions, node)) + multiset{(v.blob, v.size)}
  {
    hide History, ContentOf;
    HistoryHolds(versions, node);
    var i :| 0 <= i < |History(versions, node)| && History(versions, node)[i] == taken;
    HistoryWithoutOne(versions, node, i);
    var less := versions - {taken};
    HistoryWithNewest(less, node, version, v);
    var history := History(versions, node);
    var a, b := history[..i], history[i + 1..];
    assert history == a + [taken] + b;
    ContentSwapped(versions, less[version := v], a, taken, b, version);
  }

  lemma HistoryWithoutOne(versions: map<Id, Version>, node: Id, i: nat)
    requires i < |History(versions, node)|
    ensures var history := History(versions, node);
            && History(versions - {history[i]}, node) == history[..i] + history[i + 1..]
            && forall x :: x in history[..i] || x in history[i + 1..] ==> x in versions && x != history[i]
  {
    var history := History(versions, node);
    HistoryHolds(versions, node);
    var ids := history[..i] + history[i + 1..];
    forall j, k | 0 <= j < k < |ids| ensures ids[j] < ids[k] {
      var before, beyond := if j < i then j else j + 1, if k < i then k else k + 1;
      assert ids[j] == history[before] && ids[k] == history[beyond];
    }
    forall j | 0 <= j < |ids| ensures ids[j] != history[i] {
      var before := if j < i then j else j + 1;
      assert ids[j] == history[before];
    }
    assert history == history[..i] + [history[i]] + history[i + 1..];
    assert forall x :: x in ids <==> x in history && x != history[i];
    HistoryIs(versions - {history[i]}, node, ids);
  }

  lemma ChargedBack(quotas: map<Owner, Quota>, owner: Owner, size: nat)
    requires size == 0 || (owner in quotas && quotas[owner].used <= quotas[owner].max)
    ensures var freed := Charge(quotas, owner, -(size as int));
            freed.Ok? && Charge(freed.value, owner, size) == Ok(quotas)
  {
    var freed := Charge(quotas, owner, -(size as int)).value;
    if size > 0 {
      assert freed[owner := freed[owner].(used := freed[owner].used + size)] == quotas;
    }
  }

  lemma ReleasedAndAcquired(blobs: map<Hash, Blob>, hash: Hash, now: int)
    requires hash in blobs && blobs[hash].refs > 0 && blobs[hash].idleSince.None?
    ensures Acquire(Release(blobs, hash, now), hash) == blobs
  {
  }

  lemma NothingToPrune(db: Db, owner: Owner, id: Id, kept: int)
    requires |History(db.versions, id)| <= kept
    ensures PruneBeyond(db, owner, id, kept) == Ok(db)
  {
    assert db.versions - Elements([]) == db.versions;
  }

  ghost predicate Restorable(db: Db, owner: Owner, id: Id, taken: Id, kept: int) {
    && OwnFile(db, owner, id) && db.nodes[id].size > 0
    && taken in db.versions && db.versions[taken].node == id && db.nodes[id].blob != Some(db.versions[taken].blob)
    && |History(db.versions, id)| <= kept
  }

  /** Everything as it was, but for the one version that is now the content and the content that is now the newest version. */
  function Swapped(db: Db, id: Id, taken: Id, version: Id): Db
    requires id in db.nodes && db.nodes[id].blob.Some? && taken in db.versions
  {
    var node, v := db.nodes[id], db.versions[taken];
    db.(nodes := db.nodes[id := node.(blob := Some(v.blob), size := v.size)],
        versions := (db.versions - {taken})[version := Version(id, node.blob.value, node.size)])
  }

  /** What `take` leaves, and what paying for the version's content again leaves. */
  lemma TakenAndPaid(db: Db, owner: Owner, id: Id, taken: Id, kept: int)
    requires Restorable(db, owner, id, taken, kept) && History(db.versions, id) != []
    requires WithinQuota(db, owner) || db.versions[taken].size == 0
    ensures Take(db, owner, id, taken).Ok?
    ensures var after := Take(db, owner, id, taken).value;
            && after.(quotas := db.quotas) == RowDropped(db, taken)
            && PayFor(after, owner, id, db.versions[taken].blob, db.versions[taken].size, kept) == Ok((RowDropped(db, taken), true))
  {
    hide Release, Charge, History;
    ChargedBack(db.quotas, owner, db.versions[taken].size);
  }

  lemma PutBack(db: Db, owner: Owner, id: Id, taken: Id, kept: int, version: Id)
    requires Restorable(db, owner, id, taken, kept) && History(db.versions, id) != []
    requires WithinQuota(db, owner) || db.versions[taken].size == 0
    requires forall v :: v in db.versions ==> v < version
    requires db.versions[taken].blob in db.blobs && db.blobs[db.versions[taken].blob].refs > 0 && db.blobs[db.versions[taken].blob].idleSince.None?
    requires Take(db, owner, id, taken).Ok?
    ensures Overwrite(Take(db, owner, id, taken).value, owner, id, db.versions[taken].blob, db.versions[taken].size, kept, version) ==
            Ok(Swapped(db, id, taken, version))
  {
    hide Release, Acquire, Charge, History, Overwrite, PayFor, Take, PruneBeyond, WithinQuota;
    var hash, size := db.versions[taken].blob, db.versions[taken].size;
    var start := Take(db, owner, id, taken).value;
    TakenAndPaid(db, owner, id, taken, kept);
    ReleasedAndAcquired(db.blobs, hash, db.now);
    OverwriteIsPrunedLast(start, owner, id, hash, size, kept, version);
    assert Unpruned(start, owner, id, hash, size, kept, version) == Ok(Swapped(db, id, taken, version));
    HistorySwapped(db.versions, id, taken, version, Version(id, db.nodes[id].blob.value, db.nodes[id].size));
    NothingToPrune(Swapped(db, id, taken, version), owner, id, kept);
  }

  /**
    A version that is put back, by an account within its quota or where nothing has to be charged: it
    works, drops nothing, and changes no count and no charge. Otherwise it is refused, or drops something.
    Of what the file held, now or before, nothing is lost by an even restore and nothing appears.
   */
  lemma RestoringIsEven(db: Db, owner: Owner, parent: Id, name: string, id: Id, taken: Id, kept: int, node: Id, version: Id)
    requires Sound(db) && owner in db.quotas && Drawn(db, node, version)
    requires ChildOf(db.nodes, parent, name) == Some(id) && Restorable(db, owner, id, taken, kept)
    ensures RestoreVersion(db, owner, parent, name, taken, kept, node, version) == Ok(Swapped(db, id, taken, version)) <==>
            WithinQuota(db, owner) || db.versions[taken].size == 0
    ensures Contents(Swapped(db, id, taken, version), id) == Contents(db, id)
  {
    hide Overwrite, PayFor, Take, Sound, Charge, History, Drawn, ChildOf, RestoreVersion, Contents, ContentOf, FilesCarryBlobs, Swapped, WithinQuota;
    NamedVersion(db, taken);
    VersionIsInHistory(db, id, taken);
    YoungerThanAll(db, node, version);
    ItIsSchematic(db);
    if WithinQuota(db, owner) || db.versions[taken].size == 0 {
      TakenAndPaid(db, owner, id, taken, kept);
      PutBack(db, owner, id, taken, kept, version);
      RestoringOverwrites(db, owner, parent, name, id, taken, kept, node, version);
    } else if Take(db, owner, id, taken).Ok? {
      RestoringOverwrites(db, owner, parent, name, id, taken, kept, node, version);
      OverQuotaDropsSomething(db, owner, id, taken, kept, version);
    } else {
      RefusedAtOnce(db, owner, parent, name, taken, kept, node, version);
    }
    SwapKeepsContents(db, id, taken, version);
  }

  lemma RefusedAtOnce(db: Db, owner: Owner, parent: Id, name: string, taken: Id, kept: int, node: Id, version: Id)
    requires FilesCarryBlobs(db) && ChildOf(db.nodes, parent, name).Some? && ChildOf(db.nodes, parent, name).value in db.nodes
    requires Take(db, owner, ChildOf(db.nodes, parent, name).value, taken).Err?
    ensures RestoreVersion(db, owner, parent, name, taken, kept, node, version).Err?
  {
    hide ChildOf, Take, PutFile;
  }

  lemma OverQuotaTake(db: Db, owner: Owner, id: Id, taken: Id, kept: int)
    requires owner in db.quotas && Restorable(db, owner, id, taken, kept) && Take(db, owner, id, taken).Ok?
    requires !WithinQuota(db, owner) && db.versions[taken].size > 0
    ensures var start := Take(db, owner, id, taken).value;
            && owner in start.quotas && start.versions == db.versions - {taken} && start.nodes == db.nodes
            && start.quotas[owner].used + db.versions[taken].size > start.quotas[owner].max
  {
  }

  /** What could not be charged in full leaves no longer a history. */
  lemma FewerAreLeft(db: Db, owner: Owner, id: Id, hash: Hash, size: nat, kept: nat, version: Id, after: Db, k: nat)
    requires owner in db.quotas && id in db.nodes && Overwritten(db, owner, id, hash, size, kept, version, after, k)
    requires size > 0 && db.quotas[owner].used + size > db.quotas[owner].max
    ensures |History(after.versions, id)| <= |History(db.versions, id)|
  {
    hide History;
    var history := History(db.versions, id);
    NoSize(db.versions);
    if k == 0 { assert history[..0] == []; }
  }

  lemma OverQuotaDropsSomething(db: Db, owner: Owner, id: Id, taken: Id, kept: int, version: Id)
    requires owner in db.quotas && Restorable(db, owner, id, taken, kept) && (forall v :: v in db.versions ==> v < version)
    requires !WithinQuota(db, owner) && db.versions[taken].size > 0 && Take(db, owner, id, taken).Ok?
    ensures Overwrite(Take(db, owner, id, taken).value, owner, id, db.versions[taken].blob, db.versions[taken].size, kept, version) !=
            Ok(Swapped(db, id, taken, version))
  {
    hide Overwrite, Take, History, Charge, WithinQuota, OverwriteFits, Overwritten, Fits, SizeOf, ContentOf;
    var hash, size := db.versions[taken].blob, db.versions[taken].size;
    OverQuotaTake(db, owner, id, taken, kept);
    var start := Take(db, owner, id, taken).value;
    HistoryHolds(db.versions, id);
    var i :| 0 <= i < |History(db.versions, id)| && History(db.versions, id)[i] == taken;
    HistoryWithoutOne(db.versions, id, i);
    HistorySwapped(db.versions, id, taken, version, Version(id, db.nodes[id].blob.value, db.nodes[id].size));
    OverwriteIsExact(start, owner, id, hash, size, kept, version);
    var result := Overwrite(start, owner, id, hash, size, kept, version);
    if result.Ok? {
      var k :| Overwritten(start, owner, id, hash, size, kept, version, result.value, k);
      FewerAreLeft(start, owner, id, hash, size, kept, version, result.value, k);
      assert Swapped(db, id, taken, version).versions == (db.versions - {taken})[version := Version(id, db.nodes[id].blob.value, db.nodes[id].size)];
    }
  }

  lemma ItIsSchematic(db: Db)
    requires Sound(db)
    ensures FilesCarryBlobs(db)
  {
  }

  lemma YoungerThanAll(db: Db, node: Id, version: Id)
    requires Drawn(db, node, version)
    ensures forall v :: v in db.versions ==> v < version
  {
  }

  lemma VersionIsInHistory(db: Db, id: Id, taken: Id)
    requires taken in db.versions && db.versions[taken].node == id
    ensures History(db.versions, id) != []
  {
    HistoryHolds(db.versions, id);
  }

  lemma RestoringOverwrites(db: Db, owner: Owner, parent: Id, name: string, id: Id, taken: Id, kept: int, node: Id, version: Id)
    requires FilesCarryBlobs(db) && ChildOf(db.nodes, parent, name) == Some(id) && OwnFile(db, owner, id)
    requires taken in db.versions && db.versions[taken].blob in db.blobs
    requires Take(db, owner, id, taken).Ok?
    ensures Take(db, owner, id, taken).value.nodes == db.nodes
    ensures RestoreVersion(db, owner, parent, name, taken, kept, node, version) ==
            Overwrite(Take(db, owner, id, taken).value, owner, id, db.versions[taken].blob, db.versions[taken].size, kept, version)
  {
    hide Overwrite, ChildOf, Create;
    TakeKeepsTheRest(db, owner, id, taken);
  }

  lemma SwapKeepsContents(db: Db, id: Id, taken: Id, version: Id)
    requires id in db.nodes && db.nodes[id].blob.Some? && taken in db.versions && db.versions[taken].node == id
    requires forall v :: v in db.versions ==> v < version
    ensures Contents(Swapped(db, id, taken, version), id) == Contents(db, id)
  {
    hide History, ContentOf;
    HistorySwapped(db.versions, id, taken, version, Version(id, db.nodes[id].blob.value, db.nodes[id].size));
    var after := Swapped(db, id, taken, version);
    var was, now := ContentOf(db.versions, History(db.versions, id)), ContentOf(after.versions, History(after.versions, id));
    var given, gained := multiset{(db.nodes[id].blob.value, db.nodes[id].size)}, multiset{(db.versions[taken].blob, db.versions[taken].size)};
    assert gained + now == now + gained == was + given == given + was;
  }

  lemma NamedVersion(db: Db, taken: Id)
    requires Sound(db) && taken in db.versions
    ensures var hash := db.versions[taken].blob;
            hash in db.blobs && db.blobs[hash].refs > 0 && db.blobs[hash].idleSince.None?
  {
    NamedIsExpected(db, db.versions[taken].blob);
  }

  lemma TakeKeepsTheRest(db: Db, owner: Owner, id: Id, taken: Id)
    ensures Take(db, owner, id, taken).Ok? ==>
              Take(db, owner, id, taken).value.nodes == db.nodes && Take(db, owner, id, taken).value.blobs.Keys == db.blobs.Keys
  {
  }
}
