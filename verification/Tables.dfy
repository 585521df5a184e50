/**
  The tables of the server and the two numbers derived from them (api/migrations, api/src/db.rs,
  api/src/check.rs).

  A node's `deleted_at` and `trash_root_id` are set together (the constraint
  trashed_nodes_name_their_root), so one field, `trash`, stands for both. Owners, nodes, versions
  and hashes are numbers; version ids grow with time, as UUIDv7 does.
 */
module Tables {
  import opened Results
  import opened Sums

  type Id = nat
  type Hash = nat
  type Owner = nat

  datatype Kind = Directory | File

  datatype Node = Node(owner: Owner, parent: Option<Id>, name: string, kind: Kind, blob: Option<Hash>, size: nat, trash: Option<Id>) {
    predicate Live() { trash.None? }
  }

  datatype Version = Version(node: Id, blob: Hash, size: nat)

  datatype Blob = Blob(size: nat, refs: int, idleSince: Option<int>)

  datatype Quota = Quota(used: int, max: int)

  /** The rows a transaction sees. Thumbnails are keyed by source and edge. */
  datatype Db = Db(
    nodes: map<Id, Node>,
    versions: map<Id, Version>,
    thumbnails: map<(Hash, int), Hash>,
    blobs: map<Hash, Blob>,
    quotas: map<Owner, Quota>,
    now: int)

  datatype ApiError = QuotaExceeded | Conflict | NotFound | WrongKind | MoveIntoSelf

  type Outcome = Result<Db, ApiError>

  // ---------- rows in order ----------

  lemma {:induction false} LeastId(s: set<Id>) returns (least: Id)
    requires s != {}
    ensures least in s && forall x :: x in s ==> least <= x
    decreases |s|
  {
    var some :| some in s;
    if s - {some} == {} {
      assert forall x :: x in s ==> x == some || x in s - {some};
      least := some;
    } else {
      var other := LeastId(s - {some});
      assert forall x :: x in s ==> x == some || x in s - {some};
      least := if some < other then some else other;
    }
  }

  function Least(s: set<Id>): (least: Id)
    requires s != {}
    ensures least in s && forall x :: x in s ==> least <= x
  {
    assert exists l :: l in s && forall x :: x in s ==> l <= x by { var l := LeastId(s); }
    var least :| least in s && forall x :: x in s ==> least <= x;
    least
  }

  /** Ids in order, oldest first. */
  function Ordered(s: set<Id>): seq<Id> {
    if s == {} then [] else [Least(s)] + Ordered(s - {Least(s)})
  }

  function Elements(ids: seq<Id>): (s: set<Id>)
    ensures forall x :: x in s <==> x in ids
  {
    set x | x in ids
  }

  ghost predicate Distinct(ids: seq<Id>) { forall i, j :: 0 <= i < j < |ids| ==> ids[i] != ids[j] }

  /** The rest of distinct ids holds all but the first. */
  lemma RestIsDistinct(ids: seq<Id>)
    requires ids != [] && Distinct(ids)
    ensures Distinct(ids[1..]) && ids[0] !in ids[1..] && Elements(ids) == {ids[0]} + Elements(ids[1..])
  {
    var rest := ids[1..];
    assert ids == [ids[0]] + rest;
    forall id | id in rest ensures id != ids[0] {
      var i :| 0 <= i < |rest| && rest[i] == id;
      assert id == ids[i + 1];
    }
  }

  lemma {:induction false} OrderedHolds(s: set<Id>)
    ensures |Ordered(s)| == |s|
    ensures forall x :: x in Ordered(s) <==> x in s
    ensures forall i, j :: 0 <= i < j < |Ordered(s)| ==> Ordered(s)[i] < Ordered(s)[j]
    ensures Distinct(Ordered(s)) && Elements(Ordered(s)) == s
  {
    if s != {} {
      var rest := Ordered(s - {Least(s)});
      OrderedHolds(s - {Least(s)});
      forall i, j | 0 <= i < j < |Ordered(s)| ensures Ordered(s)[i] < Ordered(s)[j] {
        if i == 0 { assert rest[j - 1] in rest; }
      }
    }
  }

  // ---------- what the two numbers should be: api/src/check.rs ----------

  function NodesNaming(nodes: map<Id, Node>, h: Hash): map<Id, int> {
    map id | id in nodes :: if nodes[id].blob == Some(h) then 1 else 0
  }

  function VersionsNaming(versions: map<Id, Version>, h: Hash): map<Id, int> {
    map id | id in versions :: if versions[id].blob == h then 1 else 0
  }

  function ThumbnailsNaming(thumbnails: map<(Hash, int), Hash>, h: Hash): map<(Hash, int), int> {
    map key | key in thumbnails :: if thumbnails[key] == h then 1 else 0
  }

  /** `expected_references`: the rows of the three tables that name the blob. */
  ghost function ExpectedReferences(db: Db, h: Hash): int {
    Sum(NodesNaming(db.nodes, h)) + Sum(VersionsNaming(db.versions, h)) + Sum(ThumbnailsNaming(db.thumbnails, h))
  }

  function LiveSizes(nodes: map<Id, Node>, owner: Owner): map<Id, int> {
    map id | id in nodes :: if nodes[id].kind.File? && nodes[id].Live() && nodes[id].owner == owner then nodes[id].size else 0
  }

  function KeptSizes(nodes: map<Id, Node>, versions: map<Id, Version>, owner: Owner): map<Id, int> {
    map id | id in versions ::
      if versions[id].node in nodes && nodes[versions[id].node].Live() && nodes[versions[id].node].owner == owner then versions[id].size else 0
  }

  /** `expected_usage`: live files and their versions. */
  ghost function ExpectedUsage(db: Db, owner: Owner): int {
    Sum(LiveSizes(db.nodes, owner)) + Sum(KeptSizes(db.nodes, db.versions, owner))
  }

  function Used(db: Db, owner: Owner): int { if owner in db.quotas then db.quotas[owner].used else 0 }

  /** A blob's count is the rows naming it, and it is idle exactly while nothing does. */
  ghost predicate CountsMatch(db: Db) {
    forall h :: h in db.blobs ==>
      db.blobs[h].refs == ExpectedReferences(db, h) && (db.blobs[h].idleSince.Some? <==> db.blobs[h].refs == 0)
  }

  ghost predicate UsageMatches(db: Db) {
    forall o :: Used(db, o) == ExpectedUsage(db, o)
  }

  ghost predicate Balanced(db: Db) { CountsMatch(db) && UsageMatches(db) }

  // ---------- what the schema enforces ----------

  ghost predicate ForeignKeys(db: Db) {
    && (forall id :: id in db.nodes && db.nodes[id].parent.Some? ==> db.nodes[id].parent.value in db.nodes)
    && (forall id :: id in db.nodes && db.nodes[id].blob.Some? ==> db.nodes[id].blob.value in db.blobs)
    && (forall id :: id in db.versions ==> db.versions[id].node in db.nodes && db.versions[id].blob in db.blobs)
    && (forall key :: key in db.thumbnails ==> key.0 in db.blobs && db.thumbnails[key] in db.blobs)
  }

  predicate CarriesItsBlob(n: Node) {
    if n.kind.File? then n.blob.Some? else n.blob.None? && n.size == 0
  }

  ghost predicate FilesCarryBlobs(db: Db) {
    forall id :: id in db.nodes ==> CarriesItsBlob(db.nodes[id])
  }

  /** Only files have versions: they come from overwriting a file, and a node never changes kind. */
  ghost predicate VersionsAreOfFiles(db: Db) {
    forall id :: id in db.versions && db.versions[id].node in db.nodes ==> db.nodes[db.versions[id].node].kind.File?
  }

  ghost predicate Schema(db: Db) { ForeignKeys(db) && FilesCarryBlobs(db) && VersionsAreOfFiles(db) }

  lemma NodeFitsTheSchema(db: Db, id: Id, n: Node)
    requires Schema(db) && CarriesItsBlob(n) && (id in db.nodes ==> n.kind == db.nodes[id].kind)
    requires (n.parent.Some? ==> n.parent.value in db.nodes) && (n.blob.Some? ==> n.blob.value in db.blobs)
    ensures Schema(db.(nodes := db.nodes[id := n]))
  {
  }

  lemma NodeIsInTheSchema(db: Db, id: Id)
    requires Schema(db) && id in db.nodes
    ensures CarriesItsBlob(db.nodes[id])
    ensures db.nodes[id].parent.Some? ==> db.nodes[id].parent.value in db.nodes
    ensures db.nodes[id].blob.Some? ==> db.nodes[id].blob.value in db.blobs
  {
  }

  ghost predicate VersionFits(db: Db, v: Version) {
    v.node in db.nodes && db.nodes[v.node].kind.File? && v.blob in db.blobs
  }

  lemma VersionsFitTheSchema(db: Db, after: Db)
    requires Schema(db) && after.nodes == db.nodes && after.thumbnails == db.thumbnails && db.blobs.Keys <= after.blobs.Keys
    requires forall v :: v in after.versions ==> (v in db.versions && after.versions[v] == db.versions[v]) || VersionFits(db, after.versions[v])
    ensures Schema(after)
  {
  }

  lemma SchemaIgnoresCharges(db: Db, after: Db)
    requires Schema(db) && after == db.(quotas := after.quotas)
    ensures Schema(after)
  {
    VersionsFitTheSchema(db, after);
  }

  // ---------- the three updates everything else is made of ----------

  /** `acquire_blob`. */
  function Acquire(blobs: map<Hash, Blob>, h: Hash): map<Hash, Blob> {
    if h in blobs then blobs[h := blobs[h].(refs := blobs[h].refs + 1, idleSince := None)] else blobs
  }

  /** `release_blob`: a count at zero stays there. */
  function Release(blobs: map<Hash, Blob>, h: Hash, now: int): map<Hash, Blob> {
    if h in blobs && blobs[h].refs > 0 then
      blobs[h := blobs[h].(refs := blobs[h].refs - 1, idleSince := if blobs[h].refs - 1 == 0 then Some(now) else None)]
    else blobs
  }

  function ReleaseAll(blobs: map<Hash, Blob>, hashes: seq<Hash>, now: int): map<Hash, Blob> {
    if hashes == [] then blobs else ReleaseAll(Release(blobs, hashes[0], now), hashes[1..], now)
  }

  /** `charge_quota`: nothing to do for nothing; otherwise refused when the sum would pass the maximum, or there is no row. */
  function Charge(quotas: map<Owner, Quota>, owner: Owner, delta: int): Result<map<Owner, Quota>, ApiError> {
    if delta == 0 then Ok(quotas)
    else if owner in quotas && quotas[owner].used + delta <= quotas[owner].max then
      Ok(quotas[owner := quotas[owner].(used := quotas[owner].used + delta)])
    else Err(QuotaExceeded)
  }

  predicate WithinQuota(db: Db, owner: Owner) {
    owner in db.quotas && db.quotas[owner].used <= db.quotas[owner].max
  }

  // ---------- how they move the two numbers ----------

  lemma ChargeMoves(quotas: map<Owner, Quota>, owner: Owner, delta: int)
    ensures Charge(quotas, owner, delta).Ok? ==>
              var after := Charge(quotas, owner, delta).value;
              && after.Keys == quotas.Keys
              && (forall o :: o in quotas ==>
                    (after[o].max == quotas[o].max && after[o].used == quotas[o].used + if o == owner then delta else 0))
              && (owner !in quotas ==> delta == 0)
    ensures owner in quotas && quotas[owner].used <= quotas[owner].max && delta <= 0 ==> Charge(quotas, owner, delta).Ok?
  {
  }

  /**
    No count below zero, and a blob is idle exactly while its count is zero. A row `put_file` has just
    inserted is the exception, until it is acquired: its count is zero and it is not marked idle.
   */
  predicate Idle(blobs: map<Hash, Blob>, justInserted: set<Hash>) {
    forall h :: h in blobs ==>
      && blobs[h].refs >= 0
      && (blobs[h].idleSince.Some? ==> blobs[h].refs == 0)
      && (blobs[h].refs == 0 && h !in justInserted ==> blobs[h].idleSince.Some?)
  }

  lemma CountsAreNatural(db: Db, h: Hash)
    ensures Sum(NodesNaming(db.nodes, h)) >= 0 && Sum(VersionsNaming(db.versions, h)) >= 0 && Sum(ThumbnailsNaming(db.thumbnails, h)) >= 0
    ensures (exists id :: id in db.nodes && db.nodes[id].blob == Some(h)) ==> Sum(NodesNaming(db.nodes, h)) >= 1
    ensures (exists id :: id in db.versions && db.versions[id].blob == h) ==> Sum(VersionsNaming(db.versions, h)) >= 1
    ensures (exists key :: key in db.thumbnails && db.thumbnails[key] == h) ==> Sum(ThumbnailsNaming(db.thumbnails, h)) >= 1
  {
    SumNatural(NodesNaming(db.nodes, h));
    SumNatural(VersionsNaming(db.versions, h));
    SumNatural(ThumbnailsNaming(db.thumbnails, h));
    if id :| id in db.nodes && db.nodes[id].blob == Some(h) { assert NodesNaming(db.nodes, h)[id] == 1; }
    if id :| id in db.versions && db.versions[id].blob == h { assert VersionsNaming(db.versions, h)[id] == 1; }
    if key :| key in db.thumbnails && db.thumbnails[key] == h { assert ThumbnailsNaming(db.thumbnails, h)[key] == 1; }
  }

  lemma BalancedIsIdle(db: Db)
    requires CountsMatch(db)
    ensures Idle(db.blobs, {})
  {
    forall h | h in db.blobs ensures db.blobs[h].refs >= 0 { CountsAreNatural(db, h); }
  }

  /**
    The ledger partway through a transaction: `owner` has been charged `bytes` more than the rows
    account for, and the counts are ahead of the rows by `ahead` and behind them by `behind`.
   */
  ghost predicate OffBy(db: Db, owner: Owner, bytes: int, ahead: multiset<Hash>, behind: multiset<Hash>, justInserted: set<Hash>) {
    && Idle(db.blobs, justInserted)
    && (forall h :: h in db.blobs ==> db.blobs[h].refs == ExpectedReferences(db, h) + ahead[h] - behind[h])
    && (forall o :: Used(db, o) == ExpectedUsage(db, o) + if o == owner then bytes else 0)
  }

  lemma BalancedIsOffByNothing(db: Db, owner: Owner)
    ensures Balanced(db) <==> OffBy(db, owner, 0, multiset{}, multiset{}, {})
  {
    if Balanced(db) { BalancedIsIdle(db); }
  }

  // ---------- one row at a time ----------

  function Names(n: Node, h: Hash): int { if n.blob == Some(h) then 1 else 0 }

  function Takes(n: Node, owner: Owner): int { if n.kind.File? && n.Live() && n.owner == owner then n.size else 0 }

  lemma NodePut(nodes: map<Id, Node>, id: Id, n: Node, h: Hash, owner: Owner)
    ensures Sum(NodesNaming(nodes[id := n], h)) ==
            Sum(NodesNaming(nodes, h)) - (if id in nodes then Names(nodes[id], h) else 0) + Names(n, h)
    ensures Sum(LiveSizes(nodes[id := n], owner)) ==
            Sum(LiveSizes(nodes, owner)) - (if id in nodes then Takes(nodes[id], owner) else 0) + Takes(n, owner)
  {
    assert NodesNaming(nodes[id := n], h) == NodesNaming(nodes, h)[id := Names(n, h)];
    SumWith(NodesNaming(nodes, h), id, Names(n, h));
    assert LiveSizes(nodes[id := n], owner) == LiveSizes(nodes, owner)[id := Takes(n, owner)];
    SumWith(LiveSizes(nodes, owner), id, Takes(n, owner));
  }

  /** A change to a node that leaves it alive, or not, with the same owner does not touch what its versions come to. */
  lemma VersionsUnmoved(nodes: map<Id, Node>, id: Id, n: Node, versions: map<Id, Version>, owner: Owner)
    requires if id in nodes then n.trash == nodes[id].trash && n.owner == nodes[id].owner else forall v :: v in versions ==> versions[v].node != id
    ensures KeptSizes(nodes[id := n], versions, owner) == KeptSizes(nodes, versions, owner)
  {
  }

  lemma VersionPut(nodes: map<Id, Node>, versions: map<Id, Version>, id: Id, v: Version, h: Hash, owner: Owner)
    requires id !in versions && v.node in nodes && nodes[v.node].Live()
    ensures Sum(VersionsNaming(versions[id := v], h)) == Sum(VersionsNaming(versions, h)) + if v.blob == h then 1 else 0
    ensures Sum(KeptSizes(nodes, versions[id := v], owner)) == Sum(KeptSizes(nodes, versions, owner)) + if nodes[v.node].owner == owner then v.size else 0
  {
    var one := if v.blob == h then 1 else 0;
    assert VersionsNaming(versions[id := v], h) == VersionsNaming(versions, h)[id := one];
    SumWith(VersionsNaming(versions, h), id, one);
    var size := if nodes[v.node].owner == owner then v.size else 0;
    assert KeptSizes(nodes, versions[id := v], owner) == KeptSizes(nodes, versions, owner)[id := size];
    SumWith(KeptSizes(nodes, versions, owner), id, size);
  }

  lemma VersionDropped(nodes: map<Id, Node>, versions: map<Id, Version>, id: Id, h: Hash, owner: Owner)
    requires id in versions && versions[id].node in nodes
    ensures Sum(VersionsNaming(versions - {id}, h)) == Sum(VersionsNaming(versions, h)) - if versions[id].blob == h then 1 else 0
    ensures Sum(KeptSizes(nodes, versions - {id}, owner)) ==
            Sum(KeptSizes(nodes, versions, owner)) -
            if nodes[versions[id].node].Live() && nodes[versions[id].node].owner == owner then versions[id].size else 0
  {
    SumWithout(VersionsNaming(versions, h), id);
    assert VersionsNaming(versions - {id}, h) == VersionsNaming(versions, h) - {id};
    SumWithout(KeptSizes(nodes, versions, owner), id);
    assert KeptSizes(nodes, versions - {id}, owner) == KeptSizes(nodes, versions, owner) - {id};
  }
}
