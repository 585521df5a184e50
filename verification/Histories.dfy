/**
  A file's kept versions and the room an overwrite makes among them: api/src/versions.rs, with
  `room` of api/src/incoming.rs.
 */
module Histories {
  import opened Results
  import opened Sums
  import opened Tables

  function VersionsOf(versions: map<Id, Version>, node: Id): set<Id> {
    set v | v in versions && versions[v].node == node
  }

  /** A file's history, oldest version first. */
  function History(versions: map<Id, Version>, node: Id): seq<Id> {
    Ordered(VersionsOf(versions, node))
  }

  /** What the rows with these ids come to. */
  function SizeOf(versions: map<Id, Version>, ids: seq<Id>): int {
    if ids == [] then 0 else (if ids[0] in versions then versions[ids[0]].size else 0) + SizeOf(versions, ids[1..])
  }

  /** `held_by`. */
  function HeldBy(versions: map<Id, Version>, node: Id): int { SizeOf(versions, History(versions, node)) }

  /** One version gone: its row, its reference, and what it was charged. */
  function DropOne(db: Db, owner: Owner, id: Id): Outcome {
    if id !in db.versions then Ok(db) else
    var gone := db.versions[id];
    match Charge(db.quotas, owner, -(gone.size as int))
    case Ok(quotas) => Ok(db.(versions := db.versions - {id}, blobs := Release(db.blobs, gone.blob, db.now), quotas := quotas))
    case Err(e) => Err(e)
  }

  lemma HistoryHolds(versions: map<Id, Version>, node: Id)
    ensures forall id :: id in History(versions, node) <==> id in versions && versions[id].node == node
    ensures forall i, j :: 0 <= i < j < |History(versions, node)| ==> History(versions, node)[i] < History(versions, node)[j]
  {
    OrderedHolds(VersionsOf(versions, node));
  }

  lemma OldestGone(versions: map<Id, Version>, node: Id)
    requires History(versions, node) != []
    ensures var oldest := History(versions, node)[0];
            && oldest in versions && versions[oldest].node == node
            && History(versions - {oldest}, node) == History(versions, node)[1..]
  {
    var all := VersionsOf(versions, node);
    assert History(versions, node)[0] == Least(all);
    assert VersionsOf(versions - {Least(all)}, node) == all - {Least(all)};
  }

  lemma OldestGoes(db: Db, owner: Owner, node: Id)
    requires History(db.versions, node) != [] && DropOne(db, owner, History(db.versions, node)[0]).Ok?
    ensures |DropOne(db, owner, History(db.versions, node)[0]).value.versions| < |db.versions|
  {
    OldestGone(db.versions, node);
    var oldest := History(db.versions, node)[0];
    assert (db.versions - {oldest}).Keys == db.versions.Keys - {oldest};
  }

  /** `make_room`: charge in full; failing that, give up the oldest version and try again; with none left, charge only the difference. */
  function MakeRoom(db: Db, owner: Owner, node: Id, size: nat, previous: nat): (r: Result<(Db, bool), ApiError>)
    decreases |db.versions|
  {
    match Charge(db.quotas, owner, size)
    case Ok(quotas) => Ok((db.(quotas := quotas), true))
    case Err(_) =>
      var history := History(db.versions, node);
      if history == [] then
        match Charge(db.quotas, owner, size - previous)
        case Ok(quotas) => Ok((db.(quotas := quotas), false))
        case Err(e) => Err(e)
      else
        match DropOne(db, owner, history[0])
        case Err(e) => Err(e)
        case Ok(less) =>
          OldestGoes(db, owner, node);
          MakeRoom(less, owner, node, size, previous)
  }

  function HashesOf(versions: map<Id, Version>, ids: seq<Id>): seq<Hash> {
    if ids == [] then [] else (if ids[0] in versions then [versions[ids[0]].blob] else []) + HashesOf(versions, ids[1..])
  }

  /** What `prune_beyond` deletes: all but the newest `kept`. */
  function Beyond(versions: map<Id, Version>, node: Id, kept: int): seq<Id> {
    var history := History(versions, node);
    var most := if kept < 0 then 0 else kept;
    if |history| <= most then [] else history[..|history| - most]
  }

  /** `prune_beyond`: one credit for all of them. */
  function PruneBeyond(db: Db, owner: Owner, node: Id, kept: int): Outcome {
    var dropped := Beyond(db.versions, node, kept);
    match Charge(db.quotas, owner, -SizeOf(db.versions, dropped))
    case Ok(quotas) =>
      Ok(db.(versions := db.versions - Elements(dropped),
             blobs := ReleaseAll(db.blobs, HashesOf(db.versions, dropped), db.now),
             quotas := quotas))
    case Err(e) => Err(e)
  }

  /** `take`: a version handed back, its reference and its charge with it. */
  function Take(db: Db, owner: Owner, node: Id, id: Id): Outcome {
    if id !in db.versions || db.versions[id].node != node then Err(NotFound)
    else DropOne(db, owner, id)
  }

  /** `keep`: the row that takes over the reference the node gave up. */
  function Keep(db: Db, node: Id, hash: Hash, size: nat, id: Id): Db {
    db.(versions := db.versions[id := Version(node, hash, size)])
  }

  // ---------- what giving up the oldest leaves ----------

  lemma {:induction false} SizeUnmoved(a: map<Id, Version>, b: map<Id, Version>, ids: seq<Id>)
    requires forall id :: id in ids ==> (id in a <==> id in b) && (id in a ==> a[id].size == b[id].size)
    ensures SizeOf(a, ids) == SizeOf(b, ids)
  {
    if ids != [] { SizeUnmoved(a, b, ids[1..]); }
  }

  lemma {:induction false} HashesUnmoved(a: map<Id, Version>, b: map<Id, Version>, ids: seq<Id>)
    requires forall id :: id in ids ==> (id in a <==> id in b) && (id in a ==> a[id].blob == b[id].blob)
    ensures HashesOf(a, ids) == HashesOf(b, ids)
  {
    if ids != [] { HashesUnmoved(a, b, ids[1..]); }
  }

  lemma {:induction false} SizesAreNatural(versions: map<Id, Version>, ids: seq<Id>)
    ensures SizeOf(versions, ids) >= 0
  {
    if ids != [] { SizesAreNatural(versions, ids[1..]); }
  }

  /** Whether an overwrite of `size` could be charged in full once the `k` oldest versions are gone. */
  ghost predicate Fits(db: Db, owner: Owner, node: Id, size: nat, k: nat)
    requires owner in db.quotas && k <= |History(db.versions, node)|
  {
    size == 0 || db.quotas[owner].used - SizeOf(db.versions, History(db.versions, node)[..k]) + size <= db.quotas[owner].max
  }

  /** What the source calls `room` when the file exists: what is left, what the file holds and what its history holds. */
  function Room(db: Db, owner: Owner, node: Id, previous: nat): int
    requires owner in db.quotas
  {
    db.quotas[owner].max - db.quotas[owner].used + previous + HeldBy(db.versions, node)
  }

  /** The size of the oldest version that has one: the first credit `make_room` asks for. */
  function OldestCredit(versions: map<Id, Version>, ids: seq<Id>): int {
    if ids == [] then 0
    else if ids[0] in versions && versions[ids[0]].size > 0 then versions[ids[0]].size
    else OldestCredit(versions, ids[1..])
  }

  /**
    When `make_room` succeeds: there is nothing to charge; or the size is at most the room, and the first
    credit, if there is one to be had, brings the account within its quota; or there is none to be had
    and the new content is exactly as large as the old.
   */
  ghost predicate RoomIsMade(db: Db, owner: Owner, node: Id, size: nat, previous: nat)
    requires owner in db.quotas
  {
    var held := HeldBy(db.versions, node);
    || size == 0
    || (size <= Room(db, owner, node, previous)
        && (held == 0 || db.quotas[owner].used - OldestCredit(db.versions, History(db.versions, node)) <= db.quotas[owner].max))
    || (held == 0 && size == previous)
  }

  /** How a run of `make_room` ended: how many of the oldest versions it gave up. */
  ghost predicate GaveUp(db: Db, owner: Owner, node: Id, size: nat, previous: nat, after: Db, versioned: bool, k: nat)
    requires owner in db.quotas
  {
    var history := History(db.versions, node);
    && k <= |history|
    && after.versions == db.versions - Elements(history[..k])
    && after.nodes == db.nodes && after.quotas.Keys == db.quotas.Keys
    && after.quotas[owner].max == db.quotas[owner].max
    && after.quotas[owner].used ==
       db.quotas[owner].used - SizeOf(db.versions, history[..k]) + (if versioned then size as int else size - previous)
    && (after.quotas[owner].used <= after.quotas[owner].max || size == 0 || (!versioned && size == previous))
    && (forall j :: 0 <= j < k ==> !Fits(db, owner, node, size, j))
    && (if versioned then Fits(db, owner, node, size, k) else k == |history| && !Fits(db, owner, node, size, k))
  }

  lemma FirstGone(versions: map<Id, Version>, ids: seq<Id>, j: nat)
    requires j < |ids| && ids[0] in versions && forall i :: 0 < i < |ids| ==> ids[i] != ids[0]
    ensures SizeOf(versions, ids[..j + 1]) == versions[ids[0]].size + SizeOf(versions - {ids[0]}, ids[1..][..j])
  {
    var rest := ids[1..][..j];
    assert ids[..j + 1][1..] == rest;
    forall id | id in rest ensures id != ids[0] {
      var i :| 0 <= i < |rest| && rest[i] == id;
      assert id == ids[i + 1];
    }
    SizeUnmoved(versions, versions - {ids[0]}, rest);
  }

  lemma OneMoreFits(db: Db, less: Db, owner: Owner, node: Id, size: nat, j: nat)
    requires owner in db.quotas && j < |History(db.versions, node)|
    requires DropOne(db, owner, History(db.versions, node)[0]) == Ok(less) && owner in less.quotas
    ensures History(less.versions, node) == History(db.versions, node)[1..]
    ensures SizeOf(db.versions, History(db.versions, node)[..j + 1]) ==
            db.versions[History(db.versions, node)[0]].size + SizeOf(less.versions, History(less.versions, node)[..j])
    ensures Fits(less, owner, node, size, j) <==> Fits(db, owner, node, size, j + 1)
  {
    OldestGone(db.versions, node);
    ChargeMoves(db.quotas, owner, -(db.versions[History(db.versions, node)[0]].size as int));
    HistoryHolds(db.versions, node);
    FirstGone(db.versions, History(db.versions, node), j);
    hide History, SizeOf;
  }

  /** One turn of the loop in `make_room`. */
  lemma OldestDropped(db: Db, owner: Owner, node: Id, size: nat, previous: nat) returns (less: Db)
    requires owner in db.quotas
    requires Charge(db.quotas, owner, size).Err? && History(db.versions, node) != [] && DropOne(db, owner, History(db.versions, node)[0]).Ok?
    ensures DropOne(db, owner, History(db.versions, node)[0]) == Ok(less)
    ensures MakeRoom(db, owner, node, size, previous) == MakeRoom(less, owner, node, size, previous)
    ensures |less.versions| < |db.versions|
    ensures less.quotas.Keys == db.quotas.Keys && less.nodes == db.nodes
    ensures less.quotas[owner].max == db.quotas[owner].max
    ensures var oldest := History(db.versions, node)[0];
            && oldest in db.versions && less.versions == db.versions - {oldest}
            && less.quotas[owner].used == db.quotas[owner].used - db.versions[oldest].size
            && (db.versions[oldest].size > 0 ==> less.quotas[owner].used <= less.quotas[owner].max)
    ensures !Fits(db, owner, node, size, 0)
  {
    var oldest := History(db.versions, node)[0];
    OldestGone(db.versions, node);
    ChargeMoves(db.quotas, owner, -(db.versions[oldest].size as int));
    less := DropOne(db, owner, oldest).value;
    assert less.versions.Keys == db.versions.Keys - {oldest};
  }

  /** The loop ends where giving up a version is refused. */
  lemma OldestRefused(db: Db, owner: Owner, node: Id, size: nat, previous: nat)
    requires owner in db.quotas
    requires Charge(db.quotas, owner, size).Err? && History(db.versions, node) != [] && DropOne(db, owner, History(db.versions, node)[0]).Err?
    ensures MakeRoom(db, owner, node, size, previous).Err? && !RoomIsMade(db, owner, node, size, previous)
  {
    OldestGone(db.versions, node);
    SizesAreNatural(db.versions, History(db.versions, node)[1..]);
  }

  lemma {:induction false} CreditUnmoved(a: map<Id, Version>, b: map<Id, Version>, ids: seq<Id>)
    requires forall id :: id in ids ==> (id in a <==> id in b) && (id in a ==> a[id].size == b[id].size)
    ensures OldestCredit(a, ids) == OldestCredit(b, ids)
  {
    if ids != [] { CreditUnmoved(a, b, ids[1..]); }
  }

  lemma {:induction false} CreditIsPart(versions: map<Id, Version>, ids: seq<Id>)
    ensures 0 <= OldestCredit(versions, ids) <= SizeOf(versions, ids)
    ensures OldestCredit(versions, ids) == 0 ==> SizeOf(versions, ids) == 0
  {
    if ids != [] {
      CreditIsPart(versions, ids[1..]);
      SizesAreNatural(versions, ids[1..]);
    }
  }

  /** Giving up the oldest changes nothing about whether room is made. */
  lemma RoomUnmoved(db: Db, less: Db, owner: Owner, node: Id, size: nat, previous: nat)
    requires owner in db.quotas
    requires Charge(db.quotas, owner, size).Err? && History(db.versions, node) != []
    requires DropOne(db, owner, History(db.versions, node)[0]) == Ok(less) && owner in less.quotas
    ensures RoomIsMade(less, owner, node, size, previous) <==> RoomIsMade(db, owner, node, size, previous)
  {
    hide MakeRoom, Fits, Charge, DropOne, History, SizeOf, OldestCredit;
    var same := OldestDropped(db, owner, node, size, previous);
    OldestGone(db.versions, node);
    OldestWeighed(db.versions, node);
  }

  /** What a history holds, and its first credit, with and without its oldest version. */
  lemma OldestWeighed(versions: map<Id, Version>, node: Id)
    requires History(versions, node) != []
    ensures var oldest := History(versions, node)[0];
            && oldest in versions
            && HeldBy(versions, node) == versions[oldest].size + HeldBy(versions - {oldest}, node)
            && HeldBy(versions - {oldest}, node) >= 0
            && OldestCredit(versions, History(versions, node)) ==
               (if versions[oldest].size > 0 then versions[oldest].size as int else OldestCredit(versions - {oldest}, History(versions - {oldest}, node)))
            && 0 <= OldestCredit(versions - {oldest}, History(versions - {oldest}, node)) <= HeldBy(versions - {oldest}, node)
  {
    hide History;
    var history := History(versions, node);
    OldestGone(versions, node);
    HistoryHolds(versions, node);
    var less := versions - {history[0]};
    forall id | id in history[1..] ensures id != history[0] {
      var i :| 0 <= i < |history[1..]| && history[1..][i] == id;
      assert id == history[i + 1];
    }
    SizeUnmoved(versions, less, history[1..]);
    CreditUnmoved(versions, less, history[1..]);
    CreditIsPart(less, history[1..]);
  }

  lemma OneMoreGone(history: seq<Id>, k: nat, versions: map<Id, Version>)
    requires k < |history|
    ensures versions - Elements(history[..k + 1]) == versions - {history[0]} - Elements(history[1..][..k])
  {
    assert history[..k + 1] == [history[0]] + history[1..][..k];
    assert forall x :: x in history[..k + 1] <==> x == history[0] || x in history[1..][..k];
  }

  lemma OneMoreGivenUp(db: Db, less: Db, owner: Owner, node: Id, size: nat, previous: nat, after: Db, versioned: bool, k: nat)
    requires owner in db.quotas
    requires Charge(db.quotas, owner, size).Err? && History(db.versions, node) != []
    requires DropOne(db, owner, History(db.versions, node)[0]) == Ok(less) && owner in less.quotas
    requires GaveUp(less, owner, node, size, previous, after, versioned, k)
    ensures GaveUp(db, owner, node, size, previous, after, versioned, k + 1)
  {
    var same := OldestDropped(db, owner, node, size, previous);
    assert same == less;
    hide History, SizeOf, DropOne, Fits, MakeRoom, Charge;
    OneMoreFits(db, less, owner, node, size, 0);
    OneMoreFits(db, less, owner, node, size, k);
    OneMoreGone(History(db.versions, node), k, db.versions);
    NoFewerFit(db, less, owner, node, size, k);
    hide Elements;
  }

  lemma NoFewerFit(db: Db, less: Db, owner: Owner, node: Id, size: nat, k: nat)
    requires owner in db.quotas && k < |History(db.versions, node)| && !Fits(db, owner, node, size, 0)
    requires DropOne(db, owner, History(db.versions, node)[0]) == Ok(less) && owner in less.quotas
    requires |History(less.versions, node)| == |History(db.versions, node)| - 1
    requires forall j :: 0 <= j < k ==> !Fits(less, owner, node, size, j)
    ensures forall j :: 0 <= j < k + 1 ==> !Fits(db, owner, node, size, j)
  {
    hide History, SizeOf, DropOne, Fits;
    forall j: nat | j < k + 1 ensures !Fits(db, owner, node, size, j) {
      if j > 0 { OneMoreFits(db, less, owner, node, size, j - 1); }
    }
  }

  /** The run of `make_room` that gave up nothing. */
  lemma NoneGivenUp(db: Db, owner: Owner, node: Id, size: nat, previous: nat)
    requires owner in db.quotas
    requires Charge(db.quotas, owner, size).Ok? || History(db.versions, node) == []
    ensures MakeRoom(db, owner, node, size, previous).Ok? <==> RoomIsMade(db, owner, node, size, previous)
    ensures MakeRoom(db, owner, node, size, previous).Ok? ==>
              GaveUp(db, owner, node, size, previous, MakeRoom(db, owner, node, size, previous).value.0, MakeRoom(db, owner, node, size, previous).value.1, 0)
  {
    var history := History(db.versions, node);
    CreditIsPart(db.versions, history);
    ChargeMoves(db.quotas, owner, size);
    ChargeMoves(db.quotas, owner, size - previous);
    assert db.versions - Elements(history[..0]) == db.versions;
  }

  /** For an account within its quota the condition is the room alone. */
  lemma WithinQuotaRoomIsAll(db: Db, owner: Owner, node: Id, size: nat, previous: nat)
    requires WithinQuota(db, owner)
    ensures RoomIsMade(db, owner, node, size, previous) <==> size <= Room(db, owner, node, previous)
  {
    CreditIsPart(db.versions, History(db.versions, node));
  }

  /**
    `make_room` succeeds exactly when `RoomIsMade` says: it then gives up the shortest oldest-first run
    of that file's versions that makes the new content fit, and gives up keeping the replaced content
    only when none are left.
   */
  lemma {:induction false} RoomIsExact(db: Db, owner: Owner, node: Id, size: nat, previous: nat)
    requires owner in db.quotas
    ensures MakeRoom(db, owner, node, size, previous).Ok? <==> RoomIsMade(db, owner, node, size, previous)
    ensures MakeRoom(db, owner, node, size, previous).Ok? ==>
              exists k :: GaveUp(db, owner, node, size, previous, MakeRoom(db, owner, node, size, previous).value.0, MakeRoom(db, owner, node, size, previous).value.1, k)
    decreases |db.versions|
  {
    hide History, SizeOf, DropOne, Fits, MakeRoom, Charge, GaveUp, RoomIsMade, HeldBy, Room, OldestCredit;
    if Charge(db.quotas, owner, size).Ok? || History(db.versions, node) == [] {
      NoneGivenUp(db, owner, node, size, previous);
    } else if DropOne(db, owner, History(db.versions, node)[0]).Err? {
      OldestRefused(db, owner, node, size, previous);
    } else {
      var less := OldestDropped(db, owner, node, size, previous);
      RoomUnmoved(db, less, owner, node, size, previous);
      RoomIsExact(less, owner, node, size, previous);
      if MakeRoom(db, owner, node, size, previous).Ok? {
        var (after, versioned) := MakeRoom(db, owner, node, size, previous).value;
        var k :| GaveUp(less, owner, node, size, previous, after, versioned, k);
        OneMoreGivenUp(db, less, owner, node, size, previous, after, versioned, k);
      }
    }
  }

  // ---------- an account over its quota ----------

  /** 20 used of 8, a file of 10 with two versions of 5. */
  function OverQuota(): Db {
    Db(map[1 := Node(7, Some(0), "f", File, Some(1), 10, None)],
       map[2 := Version(1, 2, 5), 3 := Version(1, 3, 5)], map[], map[], map[7 := Quota(20, 8)], 0)
  }

  /** There is room for a file of size 1, and it is refused: giving up one version does not bring the account within its quota. */
  lemma OverQuotaIsRefused()
    ensures 1 <= Room(OverQuota(), 7, 1, 10) && MakeRoom(OverQuota(), 7, 1, 1, 10) == Err(QuotaExceeded)
  {
    hide History;
    var db := OverQuota();
    var history := History(db.versions, 1);
    HistoryHolds(db.versions, 1);
    assert 2 in history && 3 in history;
    OldestGone(db.versions, 1);
    FiveEach(history);
    assert DropOne(db, 7, history[0]) == Err(QuotaExceeded);
  }

  lemma {:induction false} FiveEach(ids: seq<Id>)
    requires forall id :: id in ids ==> id in OverQuota().versions
    ensures SizeOf(OverQuota().versions, ids) == 5 * |ids|
  {
    if ids != [] { FiveEach(ids[1..]); }
  }
}
