/** Folders shared with an address: `reassign`, `free_mount_name` and `numbered` of api/src/grants.rs. */
module Grants {
  import opened Results
  import opened Paths
  import opened ConflictNames
  import opened Numbers
  import opened Sums

  type GrantId = nat
  type NodeId = nat

  datatype Grant = Grant(node: NodeId, email: string, write: bool, mount: string)

  // ---------- mount names ----------

  /** `numbered`: the name cut so that the number still fits, at a character boundary. */
  function Numbered(name: string, ordinal: nat): string {
    var suffix := " (" + Decimal(ordinal) + ")";
    name[..FloorCharBoundary(name, if |suffix| <= MAX_NAME_LEN then MAX_NAME_LEN - |suffix| else 0)] + suffix
  }

  /** The names tried in turn: the one wanted, then numbered from two. */
  function Candidate(wanted: string, k: nat): string { if k <= 1 then wanted else Numbered(wanted, k) }

  lemma NumberedEnds(name: string, ordinal: nat) returns (cut: string)
    ensures Numbered(name, ordinal) == cut + ['('] + Decimal(ordinal) + ")"
  {
    var suffix := " (" + Decimal(ordinal) + ")";
    cut := name[..FloorCharBoundary(name, if |suffix| <= MAX_NAME_LEN then MAX_NAME_LEN - |suffix| else 0)] + " ";
  }

  lemma NumbersTellApart(name: string, a: nat, b: nat)
    requires Numbered(name, a) == Numbered(name, b)
    ensures a == b
  {
    var cutA := NumberedEnds(name, a);
    var cutB := NumberedEnds(name, b);
    hide Numbered;
    NumberAtTheEnd(cutA, a, cutB, b, '(', ")");
  }

  /** The numbered names before the `k`th. */
  function Tried(wanted: string, k: nat): set<string> { if k <= 2 then {} else Tried(wanted, k - 1) + {Candidate(wanted, k - 1)} }

  lemma {:induction false} TriedHold(wanted: string, k: nat, x: string)
    requires x in Tried(wanted, k)
    ensures exists j :: 2 <= j < k && Candidate(wanted, j) == x
  {
    if x != Candidate(wanted, k - 1) { TriedHold(wanted, k - 1, x); }
  }

  lemma {:induction false} TriedAreDistinct(wanted: string, k: nat)
    requires k >= 2
    ensures |Tried(wanted, k)| == k - 2
  {
    hide Numbered;
    if k > 2 {
      TriedAreDistinct(wanted, k - 1);
      if Candidate(wanted, k - 1) in Tried(wanted, k - 1) {
        TriedHold(wanted, k - 1, Candidate(wanted, k - 1));
        var j :| 2 <= j < k - 1 && Candidate(wanted, j) == Candidate(wanted, k - 1);
        NumbersTellApart(wanted, j, k - 1);
      }
    }
  }

  /** The numbered names tried in vain are as many different names taken. */
  lemma VainTriesAreTaken(taken: set<string>, wanted: string, k: nat)
    requires k >= 1 && forall j :: 1 <= j < k ==> Candidate(wanted, j) in taken
    ensures k <= |taken| + 2
    ensures (forall j :: 2 <= j < k ==> Candidate(wanted, j) != wanted) ==> k <= |taken| + 1
  {
    if k >= 2 {
      TriedAreDistinct(wanted, k);
      forall x | x in Tried(wanted, k) ensures x in taken && exists j :: 2 <= j < k && Candidate(wanted, j) == x { TriedHold(wanted, k, x); }
      PartIsSmaller(Tried(wanted, k), taken);
      if forall j :: 2 <= j < k ==> Candidate(wanted, j) != wanted {
        assert wanted !in Tried(wanted, k) && Candidate(wanted, 1) == wanted;
        assert Tried(wanted, k) != taken;
      }
    }
  }

  lemma NumberedFits(name: string, ordinal: nat)
    requires ordinal < 0x1_0000_0000
    ensures |Numbered(name, ordinal)| <= MAX_NAME_LEN
  {
    assert Power(5) == 100_000;
    assert Power(10) == 100_000 * Power(5) by {
      assert Power(10) == 10 * 10 * 10 * 10 * 10 * Power(5);
    }
    DecimalIsShort(ordinal, 10);
  }

  lemma {:induction false} TriedHas(wanted: string, k: nat, j: nat)
    requires 2 <= j < k
    ensures Candidate(wanted, j) in Tried(wanted, k)
  {
    if j < k - 1 { TriedHas(wanted, k - 1, j); }
  }

  /** One of the first `n` numbered names is the name itself: it was numbered, and cut, before. */
  predicate GivesBack(wanted: string, n: nat) { exists j | 2 <= j <= n :: Candidate(wanted, j) == wanted }

  /** The `k`th candidate is the first that is free. */
  ghost predicate FirstFree(taken: set<string>, wanted: string, k: nat) {
    k >= 1 && Candidate(wanted, k) !in taken && forall j :: 1 <= j < k ==> Candidate(wanted, j) in taken
  }

  /**
    The search takes one try more than there are names taken at most, but for one case, in which it takes
    two more: numbering gives the name back, and exactly the names tried are taken.
   */
  lemma OneTryMore(taken: set<string>, wanted: string, k: nat)
    requires FirstFree(taken, wanted, k)
    ensures k <= |taken| + 2
    ensures k == |taken| + 2 <==> GivesBack(wanted, |taken| + 1) && taken == Tried(wanted, |taken| + 2)
  {
    VainTriesAreTaken(taken, wanted, k);
    var last := |taken| + 2;
    if k == last {
      TriedAreDistinct(wanted, k);
      forall x | x in Tried(wanted, k) ensures x in taken { TriedHold(wanted, k, x); }
      SameSize(Tried(wanted, k), taken);
      assert Candidate(wanted, 1) == wanted;
      if k > 1 { TriedHold(wanted, k, wanted); }
    } else if GivesBack(wanted, last - 1) && taken == Tried(wanted, last) {
      var j :| 2 <= j <= last - 1 && Candidate(wanted, j) == wanted;
      TriedHas(wanted, last, if k == 1 then j else k);
    }
  }

  lemma SameSize<T>(part: set<T>, whole: set<T>)
    requires part <= whole && |part| == |whole|
    ensures part == whole
  {
    if x :| x in whole && x !in part { PartIsSmaller(part, whole - {x}); }
  }

  /** `free_mount_name`: the first candidate nobody took, which fits in a name's bytes. */
  method FreeMountName(taken: set<string>, wanted: string) returns (candidate: string, ghost tries: nat)
    requires |taken| + 2 < 0x1_0000_0000 && |wanted| <= MAX_NAME_LEN
    ensures candidate !in taken && |candidate| <= MAX_NAME_LEN
    ensures FirstFree(taken, wanted, tries) && candidate == Candidate(wanted, tries)
    ensures tries <= |taken| + 2
    ensures tries == |taken| + 2 <==> GivesBack(wanted, |taken| + 1) && taken == Tried(wanted, |taken| + 2)
  {
    candidate := wanted;
    var ordinal := 2;
    tries := 1;
    while candidate in taken
      invariant ordinal == tries + 1 && candidate == Candidate(wanted, tries)
      invariant forall j :: 1 <= j < tries ==> Candidate(wanted, j) in taken
      invariant tries <= |taken| + 2 && |candidate| <= MAX_NAME_LEN
      decreases |taken| + 2 - tries
    {
      VainTriesAreTaken(taken, wanted, tries + 1);
      NumberedFits(wanted, ordinal);
      candidate := Numbered(wanted, ordinal);
      ordinal := ordinal + 1;
      tries := tries + 1;
    }
    OneTryMore(taken, wanted, tries);
  }

  /** The case of a second try more: with only itself taken, a name already cut and numbered takes three tries. */
  lemma NumberingMayGiveTheNameBack()
    ensures var name := seq(251, _ => 'a') + " (2)";
            |name| == MAX_NAME_LEN && Candidate(name, 2) == name && FirstFree({name}, name, 3)
  {
    var name := seq(251, _ => 'a') + " (2)";
    assert Decimal(2) == "2";
    assert name[..251] + " (2)" == name;
    if Candidate(name, 3) == name { NumbersTellApart(name, 2, 3); }
  }

  // ---------- reassign ----------

  type Rows = map<GrantId, Grant>

  /** The two unique constraints of the table. */
  ghost predicate Unique(rows: Rows) {
    forall a, b :: a in rows && b in rows && a != b && rows[a].email == rows[b].email ==> rows[a].node != rows[b].node && rows[a].mount != rows[b].mount
  }

  function MountsAt(rows: Rows, email: string): set<string> {
    set id | id in rows && rows[id].email == email :: rows[id].mount
  }

  predicate Reaches(rows: Rows, email: string, node: NodeId) {
    exists id :: id in rows && rows[id].email == email && rows[id].node == node
  }

  predicate MayWrite(rows: Rows, email: string, node: NodeId) {
    exists id :: id in rows && rows[id].email == email && rows[id].node == node && rows[id].write
  }

  /** The grants an address has, in some order, each once. */
  ghost predicate AreGrantsOf(rows: Rows, email: string, ids: seq<GrantId>) {
    && (forall i, j :: 0 <= i < j < |ids| ==> ids[i] != ids[j])
    && (forall id :: id in ids <==> id in rows && rows[id].email == email)
  }

  /** How far a reassignment is: the first `k` grants are gone from the old address, and the new one has what it had and what they gave. */
  ghost predicate Moved(was: Rows, rows: Rows, previous: string, email: string, ids: seq<GrantId>, k: nat)
    requires k <= |ids| && forall i :: 0 <= i < |ids| ==> ids[i] in was
  {
    && Unique(rows) && rows.Keys <= was.Keys
    && (forall id :: id in was && was[id].email != previous && was[id].email != email ==> id in rows && rows[id] == was[id])
    && (forall id :: id in was && was[id].email == email ==> id in rows && rows[id] == was[id].(write := rows[id].write))
    && (forall i :: k <= i < |ids| ==> ids[i] in rows && rows[ids[i]] == was[ids[i]])
    && (forall i :: 0 <= i < k && ids[i] in rows ==> rows[ids[i]].email == email && rows[ids[i]].node == was[ids[i]].node)
    && (forall n :: Reaches(rows, email, n) <==> Reaches(was, email, n) || exists i :: 0 <= i < k && was[ids[i]].node == n)
    && (forall n :: MayWrite(rows, email, n) <==> MayWrite(was, email, n) || exists i :: 0 <= i < k && was[ids[i]].node == n && was[ids[i]].write)
  }

  /** Where the new address has the node already, the old grant goes and the better access stays. */
  function Merged(rows: Rows, id: GrantId, existing: GrantId): Rows
    requires id in rows && existing in rows
  {
    var kept := if rows[id].write && !rows[existing].write then rows[existing := rows[existing].(write := true)] else rows;
    kept - {id}
  }

  function Carried(rows: Rows, id: GrantId, email: string, mount: string): Rows
    requires id in rows
  {
    rows[id := rows[id].(email := email, mount := mount)]
  }

  lemma StillThere(was: Rows, rows: Rows, previous: string, email: string, ids: seq<GrantId>, k: nat)
    requires Unique(was) && AreGrantsOf(was, previous, ids) && k < |ids|
    requires forall i :: 0 <= i < |ids| ==> ids[i] in was
    requires Moved(was, rows, previous, email, ids, k)
    ensures ids[k] in rows && rows[ids[k]] == was[ids[k]] && was[ids[k]].email == previous
  {
    assert ids[k] in ids;
  }

  lemma MergedKeeps(rows: Rows, id: GrantId, existing: GrantId, email: string, n: NodeId)
    requires Unique(rows) && id in rows && existing in rows && rows[id].email != email && rows[existing].email == email && rows[existing].node == rows[id].node
    ensures Unique(Merged(rows, id, existing))
    ensures Reaches(Merged(rows, id, existing), email, n) <==> Reaches(rows, email, n)
    ensures MayWrite(Merged(rows, id, existing), email, n) <==> MayWrite(rows, email, n) || (n == rows[id].node && rows[id].write)
  {
    var after := Merged(rows, id, existing);
    if Reaches(rows, email, n) {
      var x :| x in rows && rows[x].email == email && rows[x].node == n;
      assert x in after && after[x].email == email && after[x].node == n;
    }
    if MayWrite(rows, email, n) {
      var x :| x in rows && rows[x].email == email && rows[x].node == n && rows[x].write;
      assert x in after && after[x].email == email && after[x].node == n && after[x].write;
    }
    if n == rows[id].node && rows[id].write {
      assert existing in after && after[existing].email == email && after[existing].node == n && after[existing].write;
    }
  }

  lemma CarriedKeeps(rows: Rows, id: GrantId, email: string, mount: string, n: NodeId)
    requires Unique(rows) && id in rows && rows[id].email != email && !Reaches(rows, email, rows[id].node) && mount !in MountsAt(rows, email)
    ensures Unique(Carried(rows, id, email, mount))
    ensures Reaches(Carried(rows, id, email, mount), email, n) <==> Reaches(rows, email, n) || n == rows[id].node
    ensures MayWrite(Carried(rows, id, email, mount), email, n) <==> MayWrite(rows, email, n) || (n == rows[id].node && rows[id].write)
  {
    var after := Carried(rows, id, email, mount);
    forall x | x in rows && rows[x].email == email ensures rows[x].mount in MountsAt(rows, email) && rows[x].node != rows[id].node { }
    if Reaches(rows, email, n) {
      var x :| x in rows && rows[x].email == email && rows[x].node == n;
      assert x in after && after[x] == rows[x];
    }
    if MayWrite(rows, email, n) {
      var x :| x in rows && rows[x].email == email && rows[x].node == n && rows[x].write;
      assert x in after && after[x] == rows[x];
    }
    assert id in after && after[id].email == email && after[id].node == rows[id].node && after[id].write == rows[id].write;
  }

  /** What one more grant moved gives, whichever way it went. */
  lemma OneMoreMoved(was: Rows, rows: Rows, after: Rows, previous: string, email: string, ids: seq<GrantId>, k: nat)
    requires Unique(was) && AreGrantsOf(was, previous, ids) && k < |ids| && previous != email
    requires forall i :: 0 <= i < |ids| ==> ids[i] in was
    requires Moved(was, rows, previous, email, ids, k) && Unique(after) && after.Keys <= rows.Keys
    requires forall id :: id in rows && id != ids[k] ==> id in after && after[id] == rows[id].(write := after[id].write) && (rows[id].email != email ==> after[id] == rows[id])
    requires ids[k] in after ==> after[ids[k]].email == email && after[ids[k]].node == was[ids[k]].node
    requires forall n :: Reaches(after, email, n) <==> Reaches(rows, email, n) || n == was[ids[k]].node
    requires forall n :: MayWrite(after, email, n) <==> MayWrite(rows, email, n) || (n == was[ids[k]].node && was[ids[k]].write)
    ensures Moved(was, after, previous, email, ids, k + 1)
  {
    hide Reaches, MayWrite, Unique;
    assert forall i :: 0 <= i < |ids| ==> ids[i] in ids && was[ids[i]].email == previous;
  }

  lemma NothingLeftBehind(was: Rows, rows: Rows, previous: string, email: string, ids: seq<GrantId>)
    requires AreGrantsOf(was, previous, ids) && previous != email && forall i :: 0 <= i < |ids| ==> ids[i] in was
    requires Moved(was, rows, previous, email, ids, |ids|)
    ensures forall id :: id in rows ==> rows[id].email != previous
    ensures forall n :: Reaches(rows, email, n) <==> Reaches(was, email, n) || Reaches(was, previous, n)
    ensures forall n :: MayWrite(rows, email, n) <==> MayWrite(was, email, n) || MayWrite(was, previous, n)
  {
    forall id | id in rows ensures rows[id].email != previous {
      if was[id].email == previous {
        assert id in ids;
        var i :| 0 <= i < |ids| && ids[i] == id;
      }
    }
    forall n ensures Reaches(was, previous, n) <==> exists i :: 0 <= i < |ids| && was[ids[i]].node == n {
      if i :| 0 <= i < |ids| && was[ids[i]].node == n { assert ids[i] in ids; }
      if Reaches(was, previous, n) {
        var id :| id in was && was[id].email == previous && was[id].node == n;
        assert id in ids;
      }
    }
    forall n ensures MayWrite(was, previous, n) <==> exists i :: 0 <= i < |ids| && was[ids[i]].node == n && was[ids[i]].write {
      if i :| 0 <= i < |ids| && was[ids[i]].node == n && was[ids[i]].write { assert ids[i] in ids; }
      if MayWrite(was, previous, n) {
        var id :| id in was && was[id].email == previous && was[id].node == n && was[id].write;
        assert id in ids;
      }
    }
  }

  lemma MountsAreFew(rows: Rows, was: Rows, email: string)
    requires rows.Keys <= was.Keys
    ensures |MountsAt(rows, email)| <= |was|
  {
    var holders := set id | id in rows && rows[id].email == email;
    ImageIsSmaller(rows, holders);
    assert MountsAt(rows, email) == set id | id in holders :: rows[id].mount;
    PartIsSmaller(holders, was.Keys);
    assert |was.Keys| == |was|;
  }

  // ---------- the names of what was carried over ----------

  /** The names the new address uses before the `k`th grant comes over: its own, and those of the grants that came. */
  ghost function NamesTaken(was: Rows, rows: Rows, email: string, ids: seq<GrantId>, k: nat): set<string>
    requires k <= |ids|
  {
    MountsAt(was, email) + set i | 0 <= i < k && ids[i] in rows :: rows[ids[i]].mount
  }

  /**
    What became of one grant of the old address: gone if the new one had the folder, and otherwise there as
    it was but for its name, which is the first candidate free at that moment, its own if that is free.
   */
  ghost predicate Placed(was: Rows, rows: Rows, email: string, ids: seq<GrantId>, k: nat)
    requires k < |ids| && ids[k] in was
  {
    var id, taken := ids[k], NamesTaken(was, rows, email, ids, k);
    if Reaches(was, email, was[id].node) then id !in rows
    else
      && id in rows && rows[id] == was[id].(email := email, mount := rows[id].mount)
      && (was[id].mount !in taken ==> rows[id].mount == was[id].mount)
      && exists tries :: FirstFree(taken, was[id].mount, tries) && rows[id].mount == Candidate(was[id].mount, tries)
  }

  ghost predicate AllPlaced(was: Rows, rows: Rows, email: string, ids: seq<GrantId>, k: nat)
    requires k <= |ids| && forall i :: 0 <= i < |ids| ==> ids[i] in was
  {
    forall i :: 0 <= i < k ==> Placed(was, rows, email, ids, i)
  }

  lemma NamesTakenAreMounts(was: Rows, rows: Rows, previous: string, email: string, ids: seq<GrantId>, k: nat)
    requires AreGrantsOf(was, previous, ids) && k <= |ids| && previous != email && forall i :: 0 <= i < |ids| ==> ids[i] in was
    requires Moved(was, rows, previous, email, ids, k)
    ensures NamesTaken(was, rows, email, ids, k) == MountsAt(rows, email)
  {
    hide Unique, Reaches, MayWrite;
    forall id | id in rows && rows[id].email == email ensures rows[id].mount in NamesTaken(was, rows, email, ids, k) {
      if was[id].email != email {
        assert id in ids;
        var i :| 0 <= i < |ids| && ids[i] == id;
        assert i < k;
      }
    }
  }

  /** At the turn of a grant, the new address has its folder only if it had it from the start. */
  lemma NotFromTheSameAddress(was: Rows, rows: Rows, previous: string, email: string, ids: seq<GrantId>, k: nat)
    requires Unique(was) && AreGrantsOf(was, previous, ids) && k < |ids| && previous != email && forall i :: 0 <= i < |ids| ==> ids[i] in was
    requires Moved(was, rows, previous, email, ids, k)
    ensures Reaches(rows, email, was[ids[k]].node) <==> Reaches(was, email, was[ids[k]].node)
    ensures forall i :: 0 <= i < k && ids[i] in rows ==> rows[ids[i]].node != was[ids[k]].node
  {
    hide Reaches, MayWrite;
    forall i | 0 <= i < k ensures was[ids[i]].node != was[ids[k]].node {
      assert ids[i] in ids && ids[k] in ids;
    }
  }

  /** A turn touches nothing of the grants already placed. */
  lemma PlacedStay(was: Rows, rows: Rows, after: Rows, email: string, ids: seq<GrantId>, k: nat)
    requires k < |ids| && forall i :: 0 <= i < |ids| ==> ids[i] in was
    requires AllPlaced(was, rows, email, ids, k)
    requires forall i :: 0 <= i < k ==> (ids[i] in after <==> ids[i] in rows) && (ids[i] in rows ==> after[ids[i]] == rows[ids[i]])
    ensures AllPlaced(was, after, email, ids, k) && NamesTaken(was, after, email, ids, k) == NamesTaken(was, rows, email, ids, k)
  {
    hide Reaches, FirstFree, MountsAt;
    forall i | 0 <= i <= k ensures NamesTaken(was, after, email, ids, i) == NamesTaken(was, rows, email, ids, i) { }
    forall i | 0 <= i < k ensures Placed(was, after, email, ids, i) {
      assert Placed(was, rows, email, ids, i);
    }
  }

  lemma MergedPlaces(was: Rows, rows: Rows, previous: string, email: string, ids: seq<GrantId>, k: nat, existing: GrantId)
    requires Unique(was) && AreGrantsOf(was, previous, ids) && k < |ids| && previous != email && forall i :: 0 <= i < |ids| ==> ids[i] in was
    requires Moved(was, rows, previous, email, ids, k) && AllPlaced(was, rows, email, ids, k)
    requires ids[k] in rows && rows[ids[k]] == was[ids[k]]
    requires existing in rows && rows[existing].email == email && rows[existing].node == rows[ids[k]].node
    ensures AllPlaced(was, Merged(rows, ids[k], existing), email, ids, k + 1)
  {
    hide Unique, Moved, MayWrite, FirstFree, AllPlaced, NamesTaken;
    var after := Merged(rows, ids[k], existing);
    NotFromTheSameAddress(was, rows, previous, email, ids, k);
    PlacedStay(was, rows, after, email, ids, k);
    assert Placed(was, after, email, ids, k);
    OneMorePlaced(was, after, email, ids, k);
  }

  lemma OneMorePlaced(was: Rows, after: Rows, email: string, ids: seq<GrantId>, k: nat)
    requires k < |ids| && forall i :: 0 <= i < |ids| ==> ids[i] in was
    requires AllPlaced(was, after, email, ids, k) && Placed(was, after, email, ids, k)
    ensures AllPlaced(was, after, email, ids, k + 1)
  {
    hide Placed;
  }

  lemma CarriedPlaces(was: Rows, rows: Rows, previous: string, email: string, ids: seq<GrantId>, k: nat, mount: string, tries: nat)
    requires Unique(was) && AreGrantsOf(was, previous, ids) && k < |ids| && previous != email && forall i :: 0 <= i < |ids| ==> ids[i] in was
    requires Moved(was, rows, previous, email, ids, k) && AllPlaced(was, rows, email, ids, k)
    requires ids[k] in rows && rows[ids[k]] == was[ids[k]] && !Reaches(rows, email, rows[ids[k]].node)
    requires FirstFree(MountsAt(rows, email), was[ids[k]].mount, tries) && mount == Candidate(was[ids[k]].mount, tries)
    ensures AllPlaced(was, Carried(rows, ids[k], email, mount), email, ids, k + 1)
  {
    hide Unique, Moved, MayWrite, AllPlaced, NamesTaken, MountsAt, Reaches, Numbered;
    var after := Carried(rows, ids[k], email, mount);
    NotFromTheSameAddress(was, rows, previous, email, ids, k);
    PlacedStay(was, rows, after, email, ids, k);
    NamesTakenAreMounts(was, rows, previous, email, ids, k);
    assert was[ids[k]].mount == Candidate(was[ids[k]].mount, 1);
    assert Placed(was, after, email, ids, k);
    OneMorePlaced(was, after, email, ids, k);
  }

  lemma {:induction false} ImageIsSmaller(rows: Rows, ids: set<GrantId>)
    requires ids <= rows.Keys
    ensures |set id | id in ids :: rows[id].mount| <= |ids|
    decreases |ids|
  {
    var image := set id | id in ids :: rows[id].mount;
    if ids == {} { assert image == {}; }
    else {
      var x :| x in ids;
      var fewer := set id | id in ids - {x} :: rows[id].mount;
      ImageIsSmaller(rows, ids - {x});
      assert image == fewer + {rows[x].mount};
    }
  }

  ghost predicate ShortMounts(rows: Rows) { forall id :: id in rows ==> |rows[id].mount| <= MAX_NAME_LEN }

  class Table {
    var rows: Rows

    /**
      `reassign`. For two addresses that differ nothing is left at the old one, the new one reaches each
      node either did, once, and may write where either might, under names that are all different. For
      the same address twice, which nothing in the way of setting an address prevents, each grant finds
      itself at the new address and is deleted: the address loses every folder shared with it.
     */
    method Reassign(previous: string, email: string, moving: seq<GrantId>)
      requires Unique(rows) && AreGrantsOf(rows, previous, moving)
      requires |rows| + 2 < 0x1_0000_0000 && ShortMounts(rows)
      modifies this
      ensures Unique(rows) && ShortMounts(rows)
      ensures forall id :: id in rows ==> rows[id].email != previous
      ensures previous != email ==> forall n :: Reaches(rows, email, n) <==> Reaches(old(rows), email, n) || Reaches(old(rows), previous, n)
      ensures previous != email ==> forall n :: MayWrite(rows, email, n) <==> MayWrite(old(rows), email, n) || MayWrite(old(rows), previous, n)
      ensures previous == email ==> forall n :: !Reaches(rows, email, n)
      ensures forall id :: id in old(rows) && old(rows)[id].email != previous && old(rows)[id].email != email ==> id in rows && rows[id] == old(rows)[id]
      ensures previous != email ==> forall id :: id in old(rows) && old(rows)[id].email == email ==> id in rows && rows[id].mount == old(rows)[id].mount
      ensures previous != email ==> (forall i :: 0 <= i < |moving| ==> moving[i] in old(rows)) && AllPlaced(old(rows), rows, email, moving, |moving|)
    {
      ghost var was := rows;
      assert forall i :: 0 <= i < |moving| ==> moving[i] in moving;
      for k := 0 to |moving|
        invariant ShortMounts(rows)
        invariant if previous != email then Moved(was, rows, previous, email, moving, k) && AllPlaced(was, rows, email, moving, k) else rows == Emptied(was, moving, k)
      {
        if previous != email { StillThere(was, rows, previous, email, moving, k); }
        ReassignOne(previous, email, moving[k], was, moving, k);
      }
      if previous != email { NothingLeftBehind(was, rows, previous, email, moving); }
    }

    /** One turn of the loop in `reassign`. */
    method ReassignOne(previous: string, email: string, id: GrantId, ghost was: Rows, ghost moving: seq<GrantId>, ghost k: nat)
      requires Unique(was) && AreGrantsOf(was, previous, moving) && k < |moving| && moving[k] == id
      requires forall i :: 0 <= i < |moving| ==> moving[i] in was
      requires |was| + 2 < 0x1_0000_0000 && ShortMounts(rows)
      requires previous != email ==> Moved(was, rows, previous, email, moving, k) && AllPlaced(was, rows, email, moving, k) && id in rows && rows[id] == was[id] && was[id].email == previous
      requires previous == email ==> rows == Emptied(was, moving, k)
      modifies this
      ensures ShortMounts(rows)
      ensures if previous != email then Moved(was, rows, previous, email, moving, k + 1) && AllPlaced(was, rows, email, moving, k + 1) else rows == Emptied(was, moving, k + 1)
    {
      hide Unique, Moved, AreGrantsOf, Reaches, MayWrite, Emptied, AllPlaced, FirstFree;
      ghost var before := rows;
      if previous == email { FindsItself(was, email, moving, k); }
      var grant := rows[id];
      if previous != email {
        MovedKeys(was, rows, previous, email, moving, k);
        MountsAreFew(rows, was, email);
      }
      if existing :| existing in rows && rows[existing].email == email && rows[existing].node == grant.node {
        if previous != email {
          MergedMoves(was, rows, previous, email, moving, k, existing);
          MergedPlaces(was, rows, previous, email, moving, k, existing);
        }
        if grant.write && !rows[existing].write {
          rows := rows[existing := rows[existing].(write := true)];
        }
        rows := rows - {id};
        assert rows == Merged(before, id, existing);
      } else {
        assert previous != email;
        var mount, tries := FreeMountName(MountsAt(rows, email), grant.mount);
        NotReached(rows, email, grant.node);
        CarriedMoves(was, rows, previous, email, moving, k, mount);
        CarriedPlaces(was, rows, previous, email, moving, k, mount, tries);
        rows := rows[id := grant.(email := email, mount := mount)];
      }
    }
  }

  /** What is left once the first `k` of an address's grants have been deleted. */
  function Emptied(was: Rows, ids: seq<GrantId>, k: nat): Rows
    requires k <= |ids|
  {
    was - (set i | 0 <= i < k :: ids[i])
  }

  /** At an address that is its own new one, the grant found for a node is the grant being moved. */
  lemma FindsItself(was: Rows, email: string, ids: seq<GrantId>, k: nat)
    requires Unique(was) && AreGrantsOf(was, email, ids) && k < |ids|
    ensures var rows := Emptied(was, ids, k);
            && ids[k] in rows && rows[ids[k]].email == email
            && (forall x :: x in rows && rows[x].email == email && rows[x].node == rows[ids[k]].node ==> x == ids[k])
            && Merged(rows, ids[k], ids[k]) == Emptied(was, ids, k + 1)
  {
    assert ids[k] in ids;
    var rows := Emptied(was, ids, k);
    assert ids[k] in rows;
    assert Merged(rows, ids[k], ids[k]) == rows - {ids[k]};
    assert rows - {ids[k]} == Emptied(was, ids, k + 1);
  }

  lemma MovedKeys(was: Rows, rows: Rows, previous: string, email: string, ids: seq<GrantId>, k: nat)
    requires k <= |ids| && forall i :: 0 <= i < |ids| ==> ids[i] in was
    requires Moved(was, rows, previous, email, ids, k)
    ensures rows.Keys <= was.Keys && Unique(rows)
  {
  }

  lemma NotReached(rows: Rows, email: string, node: NodeId)
    requires forall id :: id in rows ==> !(rows[id].email == email && rows[id].node == node)
    ensures !Reaches(rows, email, node)
  {
  }

  lemma MergedMoves(was: Rows, rows: Rows, previous: string, email: string, ids: seq<GrantId>, k: nat, existing: GrantId)
    requires Unique(was) && AreGrantsOf(was, previous, ids) && k < |ids| && previous != email
    requires forall i :: 0 <= i < |ids| ==> ids[i] in was
    requires Moved(was, rows, previous, email, ids, k) && ids[k] in rows && rows[ids[k]] == was[ids[k]] && was[ids[k]].email == previous
    requires existing in rows && rows[existing].email == email && rows[existing].node == rows[ids[k]].node
    ensures Moved(was, Merged(rows, ids[k], existing), previous, email, ids, k + 1)
  {
    hide Unique, Moved, AreGrantsOf, Reaches, MayWrite;
    MovedKeys(was, rows, previous, email, ids, k);
    ExistingReaches(rows, existing, email);
    forall n ensures Reaches(Merged(rows, ids[k], existing), email, n) <==> Reaches(rows, email, n)
      ensures MayWrite(Merged(rows, ids[k], existing), email, n) <==> MayWrite(rows, email, n) || (n == rows[ids[k]].node && rows[ids[k]].write)
    {
      MergedKeeps(rows, ids[k], existing, email, n);
    }
    MergedKeeps(rows, ids[k], existing, email, rows[ids[k]].node);
    OneMoreMoved(was, rows, Merged(rows, ids[k], existing), previous, email, ids, k);
  }

  lemma CarriedMoves(was: Rows, rows: Rows, previous: string, email: string, ids: seq<GrantId>, k: nat, mount: string)
    requires Unique(was) && AreGrantsOf(was, previous, ids) && k < |ids| && previous != email
    requires forall i :: 0 <= i < |ids| ==> ids[i] in was
    requires Moved(was, rows, previous, email, ids, k) && ids[k] in rows && rows[ids[k]] == was[ids[k]] && was[ids[k]].email == previous
    requires !Reaches(rows, email, rows[ids[k]].node) && mount !in MountsAt(rows, email)
    ensures Moved(was, Carried(rows, ids[k], email, mount), previous, email, ids, k + 1)
  {
    hide Unique, Moved, AreGrantsOf, Reaches, MayWrite, MountsAt;
    MovedKeys(was, rows, previous, email, ids, k);
    forall n ensures Reaches(Carried(rows, ids[k], email, mount), email, n) <==> Reaches(rows, email, n) || n == rows[ids[k]].node
      ensures MayWrite(Carried(rows, ids[k], email, mount), email, n) <==> MayWrite(rows, email, n) || (n == rows[ids[k]].node && rows[ids[k]].write)
    {
      CarriedKeeps(rows, ids[k], email, mount, n);
    }
    CarriedKeeps(rows, ids[k], email, mount, rows[ids[k]].node);
    OneMoreMoved(was, rows, Carried(rows, ids[k], email, mount), previous, email, ids, k);
  }

  lemma ExistingReaches(rows: Rows, id: GrantId, email: string)
    requires id in rows && rows[id].email == email
    ensures Reaches(rows, email, rows[id].node)
  {
  }
}
