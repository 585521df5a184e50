/**
  Copying a tree: `copy_tree` and `copy_one` of api/src/db.rs.

  The order in which children are read is the database's choice, so a copy is described by the rows it
  wrote, in order: for each, the original, the id drawn, the directory it went into and its name.
 */
module Copying {
  import opened Results
  import opened Sums
  import opened Tables
  import opened Trees
  import opened Ledger
  import opened Files
  import opened Trash
  import opened Moving

  datatype Job = Job(original: Id, copy: Id, into: Id, name: string)

  function CopyNode(owner: Owner, job: Job, original: Node): Node {
    Node(owner, Some(job.into), job.name, original.kind, original.blob, original.size, None)
  }

  /** `copy_one`: the row, and a reference to what it holds. */
  function CopyOne(db: Db, owner: Owner, job: Job, original: Node): Db {
    db.(nodes := db.nodes[job.copy := CopyNode(owner, job, original)],
        blobs := if original.blob.Some? then Acquire(db.blobs, original.blob.value) else db.blobs)
  }

  predicate Known(nodes: map<Id, Node>, jobs: seq<Job>) {
    forall i :: 0 <= i < |jobs| ==> jobs[i].original in nodes
  }

  function CopyJobs(db: Db, owner: Owner, jobs: seq<Job>): Db
    requires Known(db.nodes, jobs)
  {
    if jobs == [] then db
    else
      var last := jobs[|jobs| - 1];
      CopyOne(CopyJobs(db, owner, jobs[..|jobs| - 1]), owner, last, db.nodes[last.original])
  }

  /** What the copied rows come to: `charged`. */
  function JobsSize(nodes: map<Id, Node>, jobs: seq<Job>): int
    requires Known(nodes, jobs)
  {
    if jobs == [] then 0
    else JobsSize(nodes, jobs[..|jobs| - 1]) + nodes[jobs[|jobs| - 1].original].size
  }

  function Originals(jobs: seq<Job>): set<Id> { set i | 0 <= i < |jobs| :: jobs[i].original }

  function Copies(jobs: seq<Job>): set<Id> { set i | 0 <= i < |jobs| :: jobs[i].copy }

  /** The live tree that is copied. */
  function Copied(nodes: map<Id, Node>, source: Id): set<Id> { Under(nodes, LiveIds(nodes), source) }

  /** That is: what is live at or below the source. */
  lemma CopiedIsTheLiveTree(nodes: map<Id, Node>, source: Id)
    requires Shaped(nodes)
    ensures Copied(nodes, source) == set x | x in nodes && nodes[x].Live() && AtOrAbove(nodes, source, x)
  {
    hide Leads, AtOrAbove, NamesAreUnique, Batched, Rooted, WellPlaced, LiveAbove;
    var rank := SomeRank(nodes);
    forall x | x in nodes && nodes[x].Live() ensures x in Copied(nodes, source) <==> AtOrAbove(nodes, source, x) {
      LiveUnder(nodes, source, x, rank);
    }
  }

  /** A row goes into the copy of its original's parent, under its original's name. */
  ghost predicate FollowsItsParent(nodes: map<Id, Node>, jobs: seq<Job>, i: nat)
    requires i < |jobs| && Known(nodes, jobs)
  {
    && jobs[i].name == nodes[jobs[i].original].name
    && exists j :: 0 <= j < i && nodes[jobs[i].original].parent == Some(jobs[j].original) && jobs[i].into == jobs[j].copy
  }

  /** The rows a copy has written so far: the source first, and then each below one already written; none twice. */
  ghost predicate JobsFollow(db: Db, source: Id, parent: Id, name: string, jobs: seq<Job>) {
    && Known(db.nodes, jobs)
    && (forall i :: 0 <= i < |jobs| ==> jobs[i].original in Copied(db.nodes, source))
    && (|jobs| > 0 ==> jobs[0].original == source && jobs[0].into == parent && jobs[0].name == name)
    && (forall i :: 0 < i < |jobs| ==> FollowsItsParent(db.nodes, jobs, i))
    && (forall i, j :: 0 <= i < j < |jobs| ==> jobs[i].original != jobs[j].original && jobs[i].copy != jobs[j].copy)
    && (forall i :: 0 <= i < |jobs| ==> jobs[i].copy !in db.nodes)
  }

  /** Where a copy may be put: a live directory of the owner's that is free of the name and not inside what is copied. */
  ghost predicate MayCopyTo(db: Db, owner: Owner, source: Id, parent: Id, name: string) {
    && source in db.nodes && db.nodes[source].Live() && Writable(db, owner, parent)
    && (db.nodes[source].kind.Directory? ==> !Contains(db.nodes, source, parent))
    && ChildOf(db.nodes, parent, name).None?
  }

  /** A finished copy: the whole live tree, charged for its sizes. */
  ghost predicate IsCopy(db: Db, after: Db, owner: Owner, source: Id, parent: Id, name: string, jobs: seq<Job>) {
    && JobsFollow(db, source, parent, name, jobs)
    && Originals(jobs) == Copied(db.nodes, source)
    && Charge(db.quotas, owner, JobsSize(db.nodes, jobs)).Ok?
    && after == CopyJobs(db, owner, jobs).(quotas := Charge(db.quotas, owner, JobsSize(db.nodes, jobs)).value)
  }

  // ---------- what the rows written so far make ----------

  lemma FewerFollow(db: Db, source: Id, parent: Id, name: string, jobs: seq<Job>)
    requires JobsFollow(db, source, parent, name, jobs) && jobs != []
    ensures JobsFollow(db, source, parent, name, jobs[..|jobs| - 1])
  {
    var fewer := jobs[..|jobs| - 1];
    hide Copied;
    forall i | 0 < i < |fewer| ensures FollowsItsParent(db.nodes, fewer, i) {
      assert FollowsItsParent(db.nodes, jobs, i);
      var j :| 0 <= j < i && db.nodes[jobs[i].original].parent == Some(jobs[j].original) && jobs[i].into == jobs[j].copy;
      assert fewer[j] == jobs[j];
    }
  }

  /** `cur` is `db` with the rows of the jobs added. */
  ghost predicate Grown(db: Db, cur: Db, owner: Owner, jobs: seq<Job>)
    requires Known(db.nodes, jobs)
  {
    && cur == db.(nodes := cur.nodes, blobs := cur.blobs) && cur.blobs.Keys == db.blobs.Keys
    && cur.nodes.Keys == db.nodes.Keys + Copies(jobs)
    && (forall id :: id in db.nodes ==> cur.nodes[id] == db.nodes[id])
    && (forall i :: 0 <= i < |jobs| ==> cur.nodes[jobs[i].copy] == CopyNode(owner, jobs[i], db.nodes[jobs[i].original]))
  }

  lemma CopiesOfMore(jobs: seq<Job>)
    requires jobs != []
    ensures Copies(jobs) == Copies(jobs[..|jobs| - 1]) + {jobs[|jobs| - 1].copy}
    ensures Originals(jobs) == Originals(jobs[..|jobs| - 1]) + {jobs[|jobs| - 1].original}
  {
    var fewer := jobs[..|jobs| - 1];
    forall x | x in Copies(jobs) ensures x in Copies(fewer) + {jobs[|jobs| - 1].copy} {
      var i :| 0 <= i < |jobs| && jobs[i].copy == x;
      if i < |fewer| { assert fewer[i].copy == x; }
    }
    forall x | x in Copies(fewer) ensures x in Copies(jobs) {
      var i :| 0 <= i < |fewer| && fewer[i].copy == x;
      assert jobs[i].copy == x;
    }
    forall x | x in Originals(jobs) ensures x in Originals(fewer) + {jobs[|jobs| - 1].original} {
      var i :| 0 <= i < |jobs| && jobs[i].original == x;
      if i < |fewer| { assert fewer[i].original == x; }
    }
    forall x | x in Originals(fewer) ensures x in Originals(jobs) {
      var i :| 0 <= i < |fewer| && fewer[i].original == x;
      assert jobs[i].original == x;
    }
  }

  lemma OneMoreGrown(db: Db, cur: Db, owner: Owner, source: Id, parent: Id, name: string, jobs: seq<Job>)
    requires JobsFollow(db, source, parent, name, jobs) && jobs != []
    requires Known(db.nodes, jobs[..|jobs| - 1]) && Grown(db, cur, owner, jobs[..|jobs| - 1])
    ensures Grown(db, CopyOne(cur, owner, jobs[|jobs| - 1], db.nodes[jobs[|jobs| - 1].original]), owner, jobs)
    ensures jobs[|jobs| - 1].copy !in cur.nodes
  {
    hide Copied, FollowsItsParent;
    CopiesOfMore(jobs);
    var fewer, last := jobs[..|jobs| - 1], jobs[|jobs| - 1];
    forall x | x in Copies(fewer) ensures x != last.copy {
      var i :| 0 <= i < |fewer| && fewer[i].copy == x;
      assert jobs[i].copy == x;
    }
    forall i | 0 <= i < |fewer| ensures jobs[i] == fewer[i] && fewer[i].copy in Copies(fewer) { }
  }

  /** The place of the next row is free, and a live directory of the owner's. */
  lemma RoomForTheNext(db: Db, cur: Db, owner: Owner, source: Id, parent: Id, name: string, jobs: seq<Job>)
    requires Shaped(db.nodes) && MayCopyTo(db, owner, source, parent, name)
    requires JobsFollow(db, source, parent, name, jobs) && jobs != []
    requires Known(db.nodes, jobs[..|jobs| - 1]) && Grown(db, cur, owner, jobs[..|jobs| - 1])
    ensures HasRoomFor(cur.nodes, CopyNode(owner, jobs[|jobs| - 1], db.nodes[jobs[|jobs| - 1].original]))
  {
    hide Forest, LiveAbove, Batched, NamesAreUnique;
    var n := |jobs| - 1;
    var fewer := jobs[..n];
    ChildIsFound(db.nodes, parent, name);
    if n == 0 {
      assert Copies(fewer) == {};
    } else {
      hide ChildOf, Copied;
      assert FollowsItsParent(db.nodes, jobs, n);
      var j :| 0 <= j < n && db.nodes[jobs[n].original].parent == Some(jobs[j].original) && jobs[n].into == jobs[j].copy;
      assert fewer[j] == jobs[j];
      forall id | id in cur.nodes && cur.nodes[id].Live() ensures !SamePlace(cur.nodes[id], CopyNode(owner, jobs[n], db.nodes[jobs[n].original])) {
        NoSuchSibling(db, cur, owner, source, parent, name, jobs, j, id);
      }
    }
  }

  /** Two rows put into one directory are siblings' copies, and their names differ as the siblings' do. */
  lemma SiblingsDiffer(db: Db, source: Id, parent: Id, name: string, jobs: seq<Job>, j: nat, k: nat, n: nat)
    requires NamesAreUnique(db.nodes) && JobsFollow(db, source, parent, name, jobs)
    requires 0 < k < n < |jobs| && j < n
    requires db.nodes[jobs[n].original].parent == Some(jobs[j].original) && jobs[n].into == jobs[j].copy && jobs[n].name == db.nodes[jobs[n].original].name
    ensures jobs[k].into != jobs[n].into || jobs[k].name != jobs[n].name
  {
    assert FollowsItsParent(db.nodes, jobs, k);
    var i :| 0 <= i < k && db.nodes[jobs[k].original].parent == Some(jobs[i].original) && jobs[k].into == jobs[i].copy;
    LiveOriginals(db, source, parent, name, jobs, k);
    LiveOriginals(db, source, parent, name, jobs, n);
    hide Copied, FollowsItsParent;
    assert jobs[k].original != jobs[n].original;
    if jobs[k].into == jobs[n].into { assert i == j; }
  }

  lemma NoSuchSibling(db: Db, cur: Db, owner: Owner, source: Id, parent: Id, name: string, jobs: seq<Job>, j: nat, id: Id)
    requires Shaped(db.nodes) && Writable(db, owner, parent)
    requires JobsFollow(db, source, parent, name, jobs) && |jobs| > 1 && j < |jobs| - 1
    requires Known(db.nodes, jobs[..|jobs| - 1]) && Grown(db, cur, owner, jobs[..|jobs| - 1])
    requires var last := jobs[|jobs| - 1];
             db.nodes[last.original].parent == Some(jobs[j].original) && last.into == jobs[j].copy && last.name == db.nodes[last.original].name
    requires id in cur.nodes
    ensures !SamePlace(cur.nodes[id], CopyNode(owner, jobs[|jobs| - 1], db.nodes[jobs[|jobs| - 1].original]))
  {
    hide Forest, LiveAbove, Batched, NamesAreUnique, FollowsItsParent, Copied;
    var n := |jobs| - 1;
    var fewer := jobs[..n];
    if id !in db.nodes {
      assert id in Copies(fewer);
      var k :| 0 <= k < |fewer| && fewer[k].copy == id;
      assert jobs[k] == fewer[k];
      if k > 0 { SiblingsDiffer(db, source, parent, name, jobs, j, k, n); }
    }
  }

  lemma LiveOriginals(db: Db, source: Id, parent: Id, name: string, jobs: seq<Job>, k: nat)
    requires JobsFollow(db, source, parent, name, jobs) && k < |jobs|
    ensures db.nodes[jobs[k].original].Live()
  {
    assert jobs[k].original in LiveIds(db.nodes);
  }

  /** Each row written is charged for and referenced: until the quota is charged the rows are ahead of it by their sizes. */
  lemma RowIsOwed(db: Db, owner: Owner, job: Job, original: Node, bytes: int)
    requires OffBy(db, owner, bytes, multiset{}, multiset{}, {}) && Schema(db)
    requires job.copy !in db.nodes && CarriesItsBlob(original) && (original.blob.Some? ==> original.blob.value in db.blobs)
    ensures OffBy(CopyOne(db, owner, job, original), owner, bytes - original.size, multiset{}, multiset{}, {})
  {
    hide OffBy, ForeignKeys, FilesCarryBlobs, VersionsAreOfFiles, Acquire;
    var n := CopyNode(owner, job, original);
    NoVersionsOf(db, job.copy);
    NodeWritten(db, job.copy, n, owner, bytes, multiset{}, multiset{}, {});
    var written := db.(nodes := db.nodes[job.copy := n]);
    if original.blob.Some? {
      Acquired(written, original.blob.value, owner, bytes - original.size, multiset{} + multiset{}, multiset{} + Blobs(n), {});
      assert {} - {original.blob.value} == {};
      SameNet(CopyOne(db, owner, job, original), owner, bytes - original.size,
              multiset{} + multiset{} + multiset{original.blob.value}, multiset{} + Blobs(n), multiset{}, multiset{}, {});
    } else {
      SameNet(written, owner, bytes - original.size, multiset{} + multiset{}, multiset{} + Blobs(n), multiset{}, multiset{}, {});
    }
  }

  lemma RowFits(db: Db, owner: Owner, job: Job, original: Node)
    requires Schema(db) && job.copy !in db.nodes && HasRoomFor(db.nodes, CopyNode(owner, job, original))
    requires CarriesItsBlob(original) && (original.blob.Some? ==> original.blob.value in db.blobs)
    ensures Schema(CopyOne(db, owner, job, original))
  {
    hide ForeignKeys, FilesCarryBlobs, VersionsAreOfFiles, Acquire, NameIsFree;
    NodeFitsTheSchema(db, job.copy, CopyNode(owner, job, original));
    if original.blob.Some? { AcquireKeepsKeys(db.blobs, original.blob.value); }
    VersionsFitTheSchema(db.(nodes := db.nodes[job.copy := CopyNode(owner, job, original)]), CopyOne(db, owner, job, original));
  }

  lemma {:induction false} JobsKeepTheLedger(db: Db, owner: Owner, source: Id, parent: Id, name: string, jobs: seq<Job>)
    requires Sound(db) && MayCopyTo(db, owner, source, parent, name) && JobsFollow(db, source, parent, name, jobs)
    ensures var cur := CopyJobs(db, owner, jobs);
            && Grown(db, cur, owner, jobs) && Shaped(cur.nodes) && Schema(cur)
            && OffBy(cur, owner, -JobsSize(db.nodes, jobs), multiset{}, multiset{}, {})
    decreases |jobs|
  {
    hide Shaped, Schema, OffBy, Balanced, JobsFollow, MayCopyTo, Grown, CopyOne, HasRoomFor;
    if jobs == [] {
      BalancedIsOffByNothing(db, owner);
      NothingGrown(db, owner);
    } else {
      var fewer, last := jobs[..|jobs| - 1], jobs[|jobs| - 1];
      FewerFollow(db, source, parent, name, jobs);
      JobsAreKnown(db, source, parent, name, jobs);
      JobsKeepTheLedger(db, owner, source, parent, name, fewer);
      var cur := CopyJobs(db, owner, fewer);
      var original := db.nodes[last.original];
      NodeIsInTheSchema(db, last.original);
      GrownKeepsBlobs(db, cur, owner, fewer);
      OneMoreGrown(db, cur, owner, source, parent, name, jobs);
      RoomForTheNext(db, cur, owner, source, parent, name, jobs);
      RowIsOwed(cur, owner, last, original, -JobsSize(db.nodes, fewer));
      RowFits(cur, owner, last, original);
      LeafKeepsTheShape(cur.nodes, last.copy, CopyNode(owner, last, original));
      CopyOneAdds(cur, owner, last, original);
    }
  }

  lemma CopyOneAdds(db: Db, owner: Owner, job: Job, original: Node)
    ensures CopyOne(db, owner, job, original).nodes == db.nodes[job.copy := CopyNode(owner, job, original)]
  {
  }

  lemma NothingGrown(db: Db, owner: Owner)
    ensures CopyJobs(db, owner, []) == db && Grown(db, db, owner, []) && JobsSize(db.nodes, []) == 0
  {
    assert Copies([]) == {};
  }

  lemma JobsAreKnown(db: Db, source: Id, parent: Id, name: string, jobs: seq<Job>)
    requires JobsFollow(db, source, parent, name, jobs)
    ensures Known(db.nodes, jobs)
  {
  }

  lemma GrownKeepsBlobs(db: Db, cur: Db, owner: Owner, jobs: seq<Job>)
    requires Known(db.nodes, jobs) && Grown(db, cur, owner, jobs)
    ensures cur.blobs.Keys == db.blobs.Keys
  {
  }

  /** Whatever order the rows are read in, a copy leaves the ledger sound. */
  lemma CopyKeepsTheLedger(db: Db, after: Db, owner: Owner, source: Id, parent: Id, name: string, jobs: seq<Job>)
    requires Sound(db) && MayCopyTo(db, owner, source, parent, name) && IsCopy(db, after, owner, source, parent, name, jobs)
    ensures Sound(after)
  {
    hide Shaped, Schema, OffBy, Balanced, JobsFollow, MayCopyTo, Grown, Charge;
    JobsKeepTheLedger(db, owner, source, parent, name, jobs);
    JobsAreKnown(db, source, parent, name, jobs);
    var cur := CopyJobs(db, owner, jobs);
    var size := JobsSize(db.nodes, jobs);
    GrownKeepsQuotas(db, cur, owner, jobs);
    Charged(cur, owner, size, -size, multiset{}, multiset{}, {});
    BalancedIsOffByNothing(after, owner);
    SchemaIgnoresCharges(cur, after);
  }

  lemma GrownKeepsQuotas(db: Db, cur: Db, owner: Owner, jobs: seq<Job>)
    requires Known(db.nodes, jobs) && Grown(db, cur, owner, jobs)
    ensures cur.quotas == db.quotas
  {
  }

  // ---------- the copy is the live tree again ----------

  function Origins(jobs: seq<Job>): map<Id, Id> {
    if jobs == [] then map[] else Origins(jobs[..|jobs| - 1])[jobs[|jobs| - 1].copy := jobs[|jobs| - 1].original]
  }

  predicate SameContent(a: Node, b: Node) { a.kind == b.kind && a.blob == b.blob && a.size == b.size }

  /** A copied row has its original's content; below the root it has its name, and its parent is the copy of its original's parent. */
  ghost predicate Corresponds(before: map<Id, Node>, after: map<Id, Node>, root: Id, origin: map<Id, Id>, n: Id) {
    && n in origin && n in after && origin[n] in before && SameContent(after[n], before[origin[n]])
    && (n != root ==>
          && after[n].name == before[origin[n]].name && after[n].parent.Some?
          && after[n].parent.value in origin && before[origin[n]].parent == Some(origin[after[n].parent.value]))
  }

  /** `origin` takes the live tree at `root` onto the live tree at `source`, one to one, and the rows correspond. */
  ghost predicate Isomorphic(before: map<Id, Node>, after: map<Id, Node>, source: Id, root: Id, origin: map<Id, Id>) {
    && origin.Keys == Copied(after, root) && origin.Values == Copied(before, source)
    && (forall a, b :: a in origin && b in origin && origin[a] == origin[b] ==> a == b)
    && root in origin && origin[root] == source
    && (forall n :: n in origin ==> Corresponds(before, after, root, origin, n))
  }

  lemma {:induction false} OriginsHold(jobs: seq<Job>)
    requires forall i, j :: 0 <= i < j < |jobs| ==> jobs[i].copy != jobs[j].copy
    ensures Origins(jobs).Keys == Copies(jobs)
    ensures forall i :: 0 <= i < |jobs| ==> jobs[i].copy in Origins(jobs) && Origins(jobs)[jobs[i].copy] == jobs[i].original
  {
    if jobs != [] {
      var fewer := jobs[..|jobs| - 1];
      OriginsHold(fewer);
      CopiesOfMore(jobs);
      forall i | 0 <= i < |jobs| ensures jobs[i].copy in Origins(jobs) && Origins(jobs)[jobs[i].copy] == jobs[i].original {
        if i < |fewer| { assert fewer[i] == jobs[i]; }
      }
    }
  }

  lemma RowHangs(db: Db, source: Id, parent: Id, name: string, jobs: seq<Job>, i: nat) returns (j: nat)
    requires JobsFollow(db, source, parent, name, jobs) && 0 < i < |jobs|
    ensures j < i && db.nodes[jobs[i].original].parent == Some(jobs[j].original) && jobs[i].into == jobs[j].copy
    ensures jobs[i].name == db.nodes[jobs[i].original].name && jobs[i].into in Copies(jobs)
  {
    hide Copied;
    assert FollowsItsParent(db.nodes, jobs, i);
    j :| 0 <= j < i && db.nodes[jobs[i].original].parent == Some(jobs[j].original) && jobs[i].into == jobs[j].copy;
  }

  lemma CopiesAreNew(db: Db, source: Id, parent: Id, name: string, jobs: seq<Job>)
    requires JobsFollow(db, source, parent, name, jobs)
    ensures forall x :: x in Copies(jobs) ==> x !in db.nodes
  {
    hide Copied, FollowsItsParent;
  }

  /** Of the live rows, the copies are the root and whatever hangs from a copy. */
  lemma CopiesHangTogether(db: Db, after: Db, owner: Owner, source: Id, parent: Id, name: string, jobs: seq<Job>, x: Id)
    requires WellPlaced(db.nodes) && parent in db.nodes
    requires JobsFollow(db, source, parent, name, jobs) && jobs != [] && Grown(db, after.(quotas := db.quotas), owner, jobs)
    requires x in after.nodes
    ensures x in Copies(jobs) ==> after.nodes[x].Live()
    ensures x in Copies(jobs) <==> x == jobs[0].copy || (after.nodes[x].parent.Some? && after.nodes[x].parent.value in Copies(jobs))
  {
    CopiesAreNew(db, source, parent, name, jobs);
    hide JobsFollow;
    JobsAreKnown(db, source, parent, name, jobs);
    assert jobs[0].copy in Copies(jobs);
    if x in Copies(jobs) {
      var i :| 0 <= i < |jobs| && jobs[i].copy == x;
      if i > 0 { var j := RowHangs(db, source, parent, name, jobs, i); }
    }
  }

  /** The live tree at the copied root is exactly the rows that were written. */
  lemma CopiesAreTheTree(db: Db, after: Db, owner: Owner, source: Id, parent: Id, name: string, jobs: seq<Job>)
    requires Sound(db) && Sound(after) && MayCopyTo(db, owner, source, parent, name)
    requires JobsFollow(db, source, parent, name, jobs) && jobs != [] && Grown(db, after.(quotas := db.quotas), owner, jobs)
    ensures Copied(after.nodes, jobs[0].copy) == Copies(jobs)
  {
    hide Forest, Ranked, Balanced, LiveAbove, Batched, NamesAreUnique, JobsFollow, Copied, Copies;
    var root, live := jobs[0].copy, LiveIds(after.nodes);
    var rank := SomeRank(after.nodes);
    forall x | x in after.nodes
      ensures x in Copies(jobs) ==> after.nodes[x].Live()
      ensures x in Copies(jobs) <==> x == root || (after.nodes[x].parent.Some? && after.nodes[x].parent.value in Copies(jobs))
    {
      CopiesHangTogether(db, after, owner, source, parent, name, jobs, x);
    }
    forall x | x in live ensures x in Copies(jobs) <==> x in Under(after.nodes, live, root) {
      UnderIsTheOnlyOne(after.nodes, live, root, Copies(jobs), x, rank);
    }
    CopiedIsUnder(after.nodes, root);
  }

  lemma CopiedIsUnder(nodes: map<Id, Node>, root: Id)
    ensures Copied(nodes, root) == Under(nodes, LiveIds(nodes), root)
  {
  }

  lemma {:induction false} ChargedForEach(db: Db, jobs: seq<Job>)
    requires Known(db.nodes, jobs) && forall i, j :: 0 <= i < j < |jobs| ==> jobs[i].original != jobs[j].original
    ensures JobsSize(db.nodes, jobs) == Sum(MarkedSizes(db.nodes, Originals(jobs)))
  {
    if jobs == [] {
      assert MarkedSizes(db.nodes, Originals(jobs)) == map[];
    } else {
      var fewer, last := jobs[..|jobs| - 1], jobs[|jobs| - 1];
      ChargedForEach(db, fewer);
      CopiesOfMore(jobs);
      forall x | x in Originals(fewer) ensures x != last.original {
        var i :| 0 <= i < |fewer| && fewer[i].original == x;
        assert jobs[i].original == x;
      }
      SumWith(MarkedSizes(db.nodes, Originals(fewer)), last.original, db.nodes[last.original].size);
      assert MarkedSizes(db.nodes, Originals(jobs)) == MarkedSizes(db.nodes, Originals(fewer))[last.original := db.nodes[last.original].size];
    }
  }

  /**
    A copy is the live tree again, under ids of its own: nothing that was there changes, and the owner
    is charged exactly the sizes copied.
   */
  lemma CopyIsIsomorphic(db: Db, after: Db, owner: Owner, source: Id, parent: Id, name: string, jobs: seq<Job>)
    requires Sound(db) && MayCopyTo(db, owner, source, parent, name) && IsCopy(db, after, owner, source, parent, name, jobs)
    ensures jobs != [] && Isomorphic(db.nodes, after.nodes, source, jobs[0].copy, Origins(jobs))
    ensures forall id :: id in after.nodes ==> if id in db.nodes then after.nodes[id] == db.nodes[id] else id in Origins(jobs)
    ensures ChildOf(after.nodes, parent, name) == Some(jobs[0].copy)
    ensures Used(after, owner) == Used(db, owner) + Sum(MarkedSizes(db.nodes, Copied(db.nodes, source)))
  {
    hide Shaped, Schema, OffBy, Balanced, MayCopyTo, Charge, Copied, FollowsItsParent, ChildOf;
    JobsKeepTheLedger(db, owner, source, parent, name, jobs);
    CopyKeepsTheLedger(db, after, owner, source, parent, name, jobs);
    SourceIsCopied(db, owner, source, parent, name);
    NoOriginals();
    OriginsHold(jobs);
    CopiesAreTheTree(db, after, owner, source, parent, name, jobs);
    ChargedForEach(db, jobs);
    ChargeMoves(db.quotas, owner, JobsSize(db.nodes, jobs));
    ChargeOfWeight(db, owner, JobsSize(db.nodes, jobs), after);
    ChildStays(db, after, parent, name, jobs[0].copy);
    OriginsAreIsomorphic(db, after.nodes, owner, source, parent, name, jobs);
  }

  lemma NoOriginals()
    ensures Originals([]) == {}
  {
  }

  lemma SourceIsCopied(db: Db, owner: Owner, source: Id, parent: Id, name: string)
    requires Sound(db) && MayCopyTo(db, owner, source, parent, name)
    ensures source in Copied(db.nodes, source)
  {
    UnderStep(db.nodes, LiveIds(db.nodes), source, source);
  }

  lemma OriginIs(db: Db, source: Id, parent: Id, name: string, jobs: seq<Job>, n: Id) returns (i: nat)
    requires JobsFollow(db, source, parent, name, jobs) && n in Origins(jobs)
    ensures i < |jobs| && jobs[i].copy == n && Origins(jobs)[n] == jobs[i].original
  {
    OriginsHold(jobs);
    hide Copied, FollowsItsParent;
    assert n in Copies(jobs);
    i :| 0 <= i < |jobs| && jobs[i].copy == n;
  }

  lemma OriginsAreOneToOne(db: Db, source: Id, parent: Id, name: string, jobs: seq<Job>)
    requires JobsFollow(db, source, parent, name, jobs)
    ensures Origins(jobs).Keys == Copies(jobs) && Origins(jobs).Values == Originals(jobs)
    ensures forall a, b :: a in Origins(jobs) && b in Origins(jobs) && Origins(jobs)[a] == Origins(jobs)[b] ==> a == b
  {
    hide Copied, FollowsItsParent;
    var origin := Origins(jobs);
    OriginsHold(jobs);
    forall x | x in origin.Values ensures x in Originals(jobs) {
      var n :| n in origin && origin[n] == x;
      var i := OriginIs(db, source, parent, name, jobs, n);
    }
    forall x | x in Originals(jobs) ensures x in origin.Values {
      var i :| 0 <= i < |jobs| && jobs[i].original == x;
      assert origin[jobs[i].copy] == x;
    }
    forall a, b | a in origin && b in origin && origin[a] == origin[b] ensures a == b {
      var i := OriginIs(db, source, parent, name, jobs, a);
      var j := OriginIs(db, source, parent, name, jobs, b);
    }
  }

  lemma RowCorresponds(db: Db, after: map<Id, Node>, owner: Owner, source: Id, parent: Id, name: string, jobs: seq<Job>, n: Id)
    requires JobsFollow(db, source, parent, name, jobs) && jobs != [] && n in Origins(jobs)
    requires forall i :: 0 <= i < |jobs| ==> jobs[i].copy in after && after[jobs[i].copy] == CopyNode(owner, jobs[i], db.nodes[jobs[i].original])
    ensures Corresponds(db.nodes, after, jobs[0].copy, Origins(jobs), n)
  {
    hide Copied, FollowsItsParent, Origins;
    OriginsHold(jobs);
    var i := OriginIs(db, source, parent, name, jobs, n);
    if i > 0 { var j := RowHangs(db, source, parent, name, jobs, i); }
  }

  lemma OriginsAreIsomorphic(db: Db, after: map<Id, Node>, owner: Owner, source: Id, parent: Id, name: string, jobs: seq<Job>)
    requires JobsFollow(db, source, parent, name, jobs) && jobs != [] && Originals(jobs) == Copied(db.nodes, source)
    requires Copied(after, jobs[0].copy) == Copies(jobs)
    requires forall i :: 0 <= i < |jobs| ==> jobs[i].copy in after && after[jobs[i].copy] == CopyNode(owner, jobs[i], db.nodes[jobs[i].original])
    ensures Isomorphic(db.nodes, after, source, jobs[0].copy, Origins(jobs))
  {
    hide JobsFollow, Copied, FollowsItsParent, Origins, Copies, Originals, Corresponds;
    SourceHasItsCopy(db, source, parent, name, jobs);
    OriginsAreOneToOne(db, source, parent, name, jobs);
    forall n | n in Origins(jobs) ensures Corresponds(db.nodes, after, jobs[0].copy, Origins(jobs), n) {
      RowCorresponds(db, after, owner, source, parent, name, jobs, n);
    }
  }

  lemma SourceHasItsCopy(db: Db, source: Id, parent: Id, name: string, jobs: seq<Job>)
    requires JobsFollow(db, source, parent, name, jobs) && jobs != []
    ensures jobs[0].copy in Origins(jobs) && Origins(jobs)[jobs[0].copy] == source
  {
    hide Copied, FollowsItsParent;
    OriginsHold(jobs);
  }
}
