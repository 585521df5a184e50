/** The statements of `create_directories`, `rename` and `copy_tree` (api/src/db.rs), run against the tables in place. */
module TreeTransactions {
  import opened Results
  import opened Sums
  import opened Tables
  import opened Trees
  import opened Ledger
  import opened Files
  import opened Trash
  import opened Moving
  import opened Copying
  import opened Transactions

  /** `create_directories`. */
  method CreateDirectoriesIn(tx: Transaction, owner: Owner, root: Id, segments: seq<string>) returns (r: Result<Id, ApiError>)
    requires root in tx.nodes && DrawnBefore(tx.Rows(), tx.next)
    modifies tx
    ensures match CreateDirectories(old(tx.Rows()), owner, root, segments, old(tx.next))
            case Ok((after, last)) => r == Ok(last) && tx.Rows() == after
            case Err(e) => r == Err(e)
  {
    hide ChildOf;
    if segments != [] && tx.nodes[root].kind.File? { return Err(WrongKind); }
    var current := root;
    for i := 0 to |segments|
      invariant current in tx.nodes && (i < |segments| ==> tx.nodes[current].kind.Directory?)
      invariant CreateDirectories(tx.Rows(), owner, current, segments[i..], tx.next) == CreateDirectories(old(tx.Rows()), owner, root, segments, old(tx.next))
    {
      var segment := segments[i];
      assert segments[i..][0] == segment && segments[i..][1..] == segments[i + 1..];
      ChildIsFound(tx.nodes, current, segment);
      var existing := ChildOf(tx.nodes, current, segment);
      if existing.Some? {
        if tx.nodes[existing.value].kind.File? { return Err(Conflict); }
        current := existing.value;
      } else {
        var id := tx.Draw();
        tx.nodes := tx.nodes[id := NewDirectory(owner, current, segment)];
        current := id;
      }
    }
    return Ok(current);
  }

  /** `rename`. */
  method RenameIn(tx: Transaction, id: Id, parent: Id, name: string) returns (r: Reply)
    requires id in tx.nodes && parent in tx.nodes
    modifies tx`nodes
    ensures match Rename(old(tx.Rows()), id, parent, name)
            case Ok(after) => r == Ok(()) && tx.Rows() == after
            case Err(e) => r == Err(e)
  {
    hide Contains, ChildOf;
    if tx.nodes[parent].kind.File? { return Err(WrongKind); }
    if tx.nodes[id].kind.Directory? && Contains(tx.nodes, id, parent) { return Err(MoveIntoSelf); }
    if ChildOf(tx.nodes, parent, name).Some? { return Err(Conflict); }
    tx.nodes := tx.nodes[id := tx.nodes[id].(parent := Some(parent), name := name)];
    return Ok(());
  }

  // ---------- copy_tree ----------

  function LiveChildren(nodes: map<Id, Node>, id: Id): set<Id> {
    set x | x in nodes && nodes[x].Live() && nodes[x].parent == Some(id)
  }

  /** `children_in`: the live children, in no order in particular. */
  method ChildrenIn(tx: Transaction, id: Id) returns (children: seq<Id>)
    ensures Distinct(children) && Elements(children) == LiveChildren(tx.nodes, id)
  {
    OrderedHolds(LiveChildren(tx.nodes, id));
    children := Ordered(LiveChildren(tx.nodes, id));
  }

  /** `copy_one`. */
  method CopyOneIn(tx: Transaction, owner: Owner, parent: Id, name: string, originalId: Id, original: Node) returns (copy: Id)
    modifies tx`nodes, tx`blobs, tx`next
    ensures copy == old(tx.next) && tx.next == copy + 1
    ensures tx.Rows() == CopyOne(old(tx.Rows()), owner, Job(originalId, copy, parent, name), original)
  {
    copy := tx.Draw();
    tx.nodes := tx.nodes[copy := Node(owner, Some(parent), name, original.kind, original.blob, original.size, None)];
    if original.blob.Some? { tx.AcquireBlob(original.blob.value); }
  }

  function Froms(pending: seq<(Id, Id)>): set<Id> { set i | 0 <= i < |pending| :: pending[i].0 }

  /** A directory and its copy, both written. */
  ghost predicate Written(jobs: seq<Job>, pair: (Id, Id)) {
    exists i :: 0 <= i < |jobs| && jobs[i].original == pair.0 && jobs[i].copy == pair.1
  }

  /**
    The loop halfway: of the directories written, those `pending` wait for their children to be copied,
    each once, and every other one's children are written, but for `current`.
   */
  ghost predicate Frontier(db: Db, jobs: seq<Job>, pending: seq<(Id, Id)>, current: set<Id>)
    requires Known(db.nodes, jobs)
  {
    && (forall i :: 0 <= i < |pending| ==> Written(jobs, pending[i]) && LiveChildren(db.nodes, pending[i].0) !! Originals(jobs))
    && (forall i, j :: 0 <= i < j < |pending| ==> pending[i].0 != pending[j].0)
    && Froms(pending) !! current
    && (forall x :: x in Originals(jobs) && x !in Froms(pending) && x !in current ==> LiveChildren(db.nodes, x) <= Originals(jobs))
  }

  /** Where a copy is at: the rows written so far, and that every id drawn is behind the clock. */
  ghost predicate Underway(db: Db, cur: Db, owner: Owner, source: Id, parent: Id, name: string, jobs: seq<Job>, next: Id) {
    && JobsFollow(db, source, parent, name, jobs)
    && cur == CopyJobs(db, owner, jobs)
    && DrawnBefore(cur, next)
    && (forall i :: 0 <= i < |jobs| ==> jobs[i].copy < next)
  }

  /** The children of a directory being copied are, among the rows as they stand, those it had. */
  lemma ChildrenAreTheOriginals(db: Db, cur: Db, owner: Owner, source: Id, parent: Id, name: string, jobs: seq<Job>, from: Id)
    requires Sound(db) && MayCopyTo(db, owner, source, parent, name) && JobsFollow(db, source, parent, name, jobs)
    requires cur == CopyJobs(db, owner, jobs) && from in Copied(db.nodes, source)
    ensures LiveChildren(cur.nodes, from) == LiveChildren(db.nodes, from)
  {
    hide Shaped, Schema, Balanced, OffBy, JobsFollow, Copied, ChildOf;
    JobsKeepTheLedger(db, owner, source, parent, name, jobs);
    JobsAreKnown(db, source, parent, name, jobs);
    ParentIsOutside(db, owner, source, parent, name, from);
    forall x | x in cur.nodes && x !in db.nodes ensures cur.nodes[x].parent != Some(from) {
      assert x in Copies(jobs);
      var i :| 0 <= i < |jobs| && jobs[i].copy == x;
      IntoIsNotOriginal(db, source, parent, name, jobs, i, from);
    }
  }

  lemma IntoIsNotOriginal(db: Db, source: Id, parent: Id, name: string, jobs: seq<Job>, i: nat, from: Id)
    requires JobsFollow(db, source, parent, name, jobs) && i < |jobs| && from in db.nodes && from != parent
    ensures jobs[i].into != from
  {
    if i > 0 {
      var j := RowHangs(db, source, parent, name, jobs, i);
      hide Copied, FollowsItsParent;
      assert jobs[j].copy !in db.nodes;
    }
  }

  lemma ParentIsOutside(db: Db, owner: Owner, source: Id, parent: Id, name: string, x: Id)
    requires Sound(db) && MayCopyTo(db, owner, source, parent, name) && x in Copied(db.nodes, source)
    ensures x in db.nodes && x != parent
  {
    hide Balanced, Schema, LiveAbove, Batched, NamesAreUnique, ChildOf, Leads;
    var rank := SomeRank(db.nodes);
    if x == parent {
      UnderIsContained(db.nodes, LiveIds(db.nodes), source, x, rank);
      if db.nodes[source].kind.File? { NothingUnderAFile(db.nodes, LiveIds(db.nodes), source, x, rank); }
    }
  }

  lemma OriginalsGrow(jobs: seq<Job>, job: Job)
    ensures Originals(jobs + [job]) == Originals(jobs) + {job.original}
  {
    CopiesOfMore(jobs + [job]);
    assert (jobs + [job])[..|jobs|] == jobs;
  }

  lemma WrittenStays(jobs: seq<Job>, job: Job, pair: (Id, Id))
    ensures Written(jobs, pair) ==> Written(jobs + [job], pair) && pair.0 in Originals(jobs)
    ensures Written(jobs + [job], (job.original, job.copy))
  {
    if Written(jobs, pair) {
      var i :| 0 <= i < |jobs| && jobs[i].original == pair.0 && jobs[i].copy == pair.1;
      assert (jobs + [job])[i] == jobs[i];
    }
    assert (jobs + [job])[|jobs|] == job;
  }

  /** A child of a directory that is written is a row the copy may write next. */
  lemma OneMoreFollows(db: Db, source: Id, parent: Id, name: string, jobs: seq<Job>, from: Id, into: Id, job: Job)
    requires Shaped(db.nodes) && JobsFollow(db, source, parent, name, jobs) && Written(jobs, (from, into))
    requires job.original in LiveChildren(db.nodes, from) && job.original !in Originals(jobs)
    requires job.into == into && job.name == db.nodes[job.original].name
    requires job.copy !in db.nodes && forall i :: 0 <= i < |jobs| ==> jobs[i].copy != job.copy
    ensures JobsFollow(db, source, parent, name, jobs + [job])
  {
    hide LiveAbove, Batched, NamesAreUnique, WellPlaced, Rooted;
    var more := jobs + [job];
    var k :| 0 <= k < |jobs| && jobs[k].original == from && jobs[k].copy == into;
    UnderStep(db.nodes, LiveIds(db.nodes), source, job.original);
    assert job.original in Copied(db.nodes, source) by { assert jobs[k].original in Copied(db.nodes, source); }
    hide Copied, Forest;
    forall i | 0 < i < |more| ensures Known(db.nodes, more) && FollowsItsParent(db.nodes, more, i) {
      if i < |jobs| {
        assert FollowsItsParent(db.nodes, jobs, i);
        var j :| 0 <= j < i && db.nodes[jobs[i].original].parent == Some(jobs[j].original) && jobs[i].into == jobs[j].copy;
        assert more[j] == jobs[j] && more[i] == jobs[i];
      } else {
        assert more[k] == jobs[k];
      }
    }
    forall i | 0 <= i < |jobs| ensures jobs[i].original != job.original { assert jobs[i].original in Originals(jobs); }
  }

  lemma OneMoreUnderway(db: Db, cur: Db, owner: Owner, source: Id, parent: Id, name: string, jobs: seq<Job>, next: Id, from: Id, into: Id, original: Id)
    requires Sound(db) && MayCopyTo(db, owner, source, parent, name) && Underway(db, cur, owner, source, parent, name, jobs, next)
    requires Written(jobs, (from, into)) && original in LiveChildren(db.nodes, from) && original !in Originals(jobs)
    ensures original in cur.nodes && cur.nodes[original] == db.nodes[original]
    ensures var job := Job(original, next, into, db.nodes[original].name);
            Underway(db, CopyOne(cur, owner, job, db.nodes[original]), owner, source, parent, name, jobs + [job], next + 1)
  {
    hide Shaped, Schema, Balanced, OffBy, MayCopyTo, Copied, FollowsItsParent;
    JobsKeepTheLedger(db, owner, source, parent, name, jobs);
    JobsAreKnown(db, source, parent, name, jobs);
    var job := Job(original, next, into, db.nodes[original].name);
    hide JobsFollow;
    OneMoreFollows(db, source, parent, name, jobs, from, into, job);
    JobsAreKnown(db, source, parent, name, jobs + [job]);
    assert (jobs + [job])[..|jobs|] == jobs;
  }

  lemma FirstFollows(db: Db, owner: Owner, source: Id, parent: Id, name: string, job: Job)
    requires Sound(db) && MayCopyTo(db, owner, source, parent, name) && job.copy !in db.nodes
    requires job.original == source && job.into == parent && job.name == name
    ensures JobsFollow(db, source, parent, name, [job]) && Originals([job]) == {source} && Written([job], (source, job.copy))
    ensures CopyJobs(db, owner, [job]) == CopyOne(db, owner, job, db.nodes[source]) && JobsSize(db.nodes, [job]) == db.nodes[source].size
  {
    hide Sound, ChildOf, Contains;
    SourceIsCopied(db, owner, source, parent, name);
    hide Copied;
    OriginalsGrow([], job);
    NoOriginals();
    assert [] + [job] == [job] && [job][..0] == [];
    WrittenStays([], job, (source, job.copy));
  }

  /** The first row: the source itself. */
  lemma FirstUnderway(db: Db, owner: Owner, source: Id, parent: Id, name: string, next: Id)
    requires Sound(db) && MayCopyTo(db, owner, source, parent, name) && DrawnBefore(db, next)
    ensures var job := Job(source, next, parent, name);
            Underway(db, CopyOne(db, owner, job, db.nodes[source]), owner, source, parent, name, [job], next + 1)
  {
    hide Sound, JobsFollow, Acquire;
    var job := Job(source, next, parent, name);
    FirstFollows(db, owner, source, parent, name, job);
  }

  lemma SourceIsNoChild(db: Db, source: Id, x: Id)
    requires Shaped(db.nodes) && source in db.nodes && x in Copied(db.nodes, source)
    ensures source !in LiveChildren(db.nodes, x) && x !in LiveChildren(db.nodes, x)
  {
    hide LiveAbove, Batched, NamesAreUnique, WellPlaced, Rooted;
    var rank := SomeRank(db.nodes);
    RanksAbove(db.nodes, LiveIds(db.nodes), source, x, rank);
  }

  lemma ParentIsWritten(db: Db, source: Id, parent: Id, name: string, jobs: seq<Job>, y: Id)
    requires JobsFollow(db, source, parent, name, jobs) && y in Originals(jobs) && y != source
    ensures y in db.nodes && db.nodes[y].parent.Some? && db.nodes[y].parent.value in Originals(jobs)
  {
    hide Copied;
    var i :| 0 <= i < |jobs| && jobs[i].original == y;
    var j := RowHangs(db, source, parent, name, jobs, i);
    assert jobs[j].original in Originals(jobs);
  }

  /** A directory just written has none of its children written. */
  lemma NoChildYet(db: Db, source: Id, parent: Id, name: string, jobs: seq<Job>, x: Id)
    requires JobsFollow(db, source, parent, name, jobs) && x !in Originals(jobs) && source !in LiveChildren(db.nodes, x)
    ensures LiveChildren(db.nodes, x) !! Originals(jobs)
  {
    hide JobsFollow;
    forall y | y in LiveChildren(db.nodes, x) ensures y !in Originals(jobs) {
      if y in Originals(jobs) { ParentIsWritten(db, source, parent, name, jobs, y); }
    }
  }

  lemma FilesHaveNoChildren(db: Db, x: Id)
    requires Shaped(db.nodes) && x in db.nodes && db.nodes[x].kind.File?
    ensures LiveChildren(db.nodes, x) == {}
  {
  }

  function Pushed(db: Db, pending: seq<(Id, Id)>, job: Job): seq<(Id, Id)>
    requires job.original in db.nodes
  {
    if db.nodes[job.original].kind.Directory? then pending + [(job.original, job.copy)] else pending
  }

  lemma FromsOfMore(pending: seq<(Id, Id)>, pair: (Id, Id))
    ensures Froms(pending + [pair]) == Froms(pending) + {pair.0}
  {
    forall x | x in Froms(pending) ensures x in Froms(pending + [pair]) {
      var i :| 0 <= i < |pending| && pending[i].0 == x;
      assert (pending + [pair])[i].0 == x;
    }
    assert (pending + [pair])[|pending|] == pair;
    forall x | x in Froms(pending + [pair]) ensures x in Froms(pending) + {pair.0} {
      var i :| 0 <= i < |pending| + 1 && (pending + [pair])[i].0 == x;
      if i < |pending| { assert pending[i].0 == x; }
    }
  }

  lemma PendingStays(db: Db, jobs: seq<Job>, pending: seq<(Id, Id)>, from: Id, job: Job, i: nat)
    requires Known(db.nodes, jobs) && Frontier(db, jobs, pending, {from}) && i < |pending|
    requires job.original in LiveChildren(db.nodes, from) && job.original !in Originals(jobs)
    ensures Written(jobs + [job], pending[i]) && LiveChildren(db.nodes, pending[i].0) !! Originals(jobs + [job])
    ensures pending[i].0 != job.original
  {
    WrittenStays(jobs, job, pending[i]);
    OriginalsGrow(jobs, job);
    assert pending[i].0 in Froms(pending);
  }

  /** A child written joins those waiting if it is a directory. */
  lemma FrontierAdvances(db: Db, source: Id, parent: Id, name: string, jobs: seq<Job>, pending: seq<(Id, Id)>, from: Id, job: Job)
    requires Shaped(db.nodes) && JobsFollow(db, source, parent, name, jobs) && source in db.nodes && from in Originals(jobs)
    requires Frontier(db, jobs, pending, {from})
    requires job.original in LiveChildren(db.nodes, from) && job.original !in Originals(jobs) && job.original in Copied(db.nodes, source)
    ensures Known(db.nodes, jobs + [job]) && Frontier(db, jobs + [job], Pushed(db, pending, job), {from})
  {
    hide Shaped, JobsFollow, Copied, Written, LiveChildren;
    LiveChildrenAreRows(db, from);
    var c, more, pushed := job.original, jobs + [job], Pushed(db, pending, job);
    JobsAreKnown(db, source, parent, name, jobs);
    SourceIsNoChild(db, source, c);
    NoChildYet(db, source, parent, name, jobs, c);
    OriginalsGrow(jobs, job);
    WrittenStays(jobs, job, (c, job.copy));
    FromsOfMore(pending, (c, job.copy));
    forall i | 0 <= i < |pending| ensures Written(more, pending[i]) && LiveChildren(db.nodes, pending[i].0) !! Originals(more) && pending[i].0 != c {
      PendingStays(db, jobs, pending, from, job, i);
    }
    if db.nodes[c].kind.File? { FilesHaveNoChildren(db, c); }
    assert forall x :: x in Originals(more) ==> x in Originals(jobs) || x == c;
  }

  lemma LiveChildrenAreRows(db: Db, id: Id)
    ensures forall x :: x in LiveChildren(db.nodes, id) ==> x in db.nodes
  {
  }

  /** The last of those waiting is taken up. */
  lemma FrontierPops(db: Db, jobs: seq<Job>, pending: seq<(Id, Id)>)
    requires Known(db.nodes, jobs) && pending != [] && Frontier(db, jobs, pending, {})
    ensures var last := pending[|pending| - 1];
            && Frontier(db, jobs, pending[..|pending| - 1], {last.0})
            && Written(jobs, last) && last.0 in Originals(jobs) && LiveChildren(db.nodes, last.0) !! Originals(jobs)
  {
    hide LiveChildren, Written;
    var last, rest := pending[|pending| - 1], pending[..|pending| - 1];
    assert pending == rest + [last];
    FromsOfMore(rest, last);
    WrittenStays(jobs, Job(0, 0, 0, ""), last);
    forall i | 0 <= i < |rest| ensures rest[i].0 != last.0 { assert rest[i] == pending[i]; }
    forall x | x in Froms(rest) ensures x != last.0 { var i :| 0 <= i < |rest| && rest[i].0 == x; }
  }

  lemma {:induction false} NothingLeftOut(db: Db, source: Id, jobs: seq<Job>, x: Id, rank: map<Id, nat>)
    requires Ranked(db.nodes, rank) && Known(db.nodes, jobs) && Frontier(db, jobs, [], {}) && source in Originals(jobs)
    requires x in db.nodes && x in Copied(db.nodes, source)
    ensures x in Originals(jobs)
    decreases rank[x]
  {
    UnderStep(db.nodes, LiveIds(db.nodes), source, x);
    if x != source {
      var p := db.nodes[x].parent.value;
      NothingLeftOut(db, source, jobs, p, rank);
      assert x in LiveChildren(db.nodes, p);
      assert p !in Froms([]);
    }
  }

  /** With nothing waiting, the whole live tree is written. */
  lemma NothingWaiting(db: Db, source: Id, parent: Id, name: string, jobs: seq<Job>)
    requires Shaped(db.nodes) && JobsFollow(db, source, parent, name, jobs) && jobs != [] && Frontier(db, jobs, [], {})
    ensures Originals(jobs) == Copied(db.nodes, source)
  {
    hide Frontier, LiveAbove, Batched, NamesAreUnique, WellPlaced, Rooted;
    var rank := SomeRank(db.nodes);
    assert jobs[0].original in Originals(jobs);
    forall x | x in Copied(db.nodes, source) ensures x in Originals(jobs) { NothingLeftOut(db, source, jobs, x, rank); }
  }

  lemma {:induction false} AsManyAsOriginals(jobs: seq<Job>)
    requires forall i, j :: 0 <= i < j < |jobs| ==> jobs[i].original != jobs[j].original
    ensures |Originals(jobs)| == |jobs|
  {
    if jobs == [] { NoOriginals(); }
    else {
      var fewer, last := jobs[..|jobs| - 1], jobs[|jobs| - 1];
      AsManyAsOriginals(fewer);
      CopiesOfMore(jobs);
      forall x | x in Originals(fewer) ensures x != last.original {
        var i :| 0 <= i < |fewer| && fewer[i].original == x;
        assert jobs[i].original == x;
      }
    }
  }

  /** No more rows are written than the tree has. */
  lemma RowsAreBounded(db: Db, source: Id, parent: Id, name: string, jobs: seq<Job>)
    requires JobsFollow(db, source, parent, name, jobs)
    ensures |jobs| <= |Copied(db.nodes, source)|
  {
    hide Copied, FollowsItsParent;
    AsManyAsOriginals(jobs);
    assert Originals(jobs) <= Copied(db.nodes, source);
    PartIsSmaller(Originals(jobs), Copied(db.nodes, source));
  }

  lemma JobsSizeGrows(db: Db, jobs: seq<Job>, job: Job)
    requires Known(db.nodes, jobs) && Known(db.nodes, jobs + [job]) && job.original in db.nodes
    ensures JobsSize(db.nodes, jobs + [job]) == JobsSize(db.nodes, jobs) + db.nodes[job.original].size
  {
    assert (jobs + [job])[..|jobs|] == jobs;
  }

  /** Everything the loops keep: what is written, what it comes to, and what waits. */
  ghost predicate MidCopy(db: Db, cur: Db, owner: Owner, source: Id, parent: Id, name: string, jobs: seq<Job>, next: Id, pending: seq<(Id, Id)>, current: set<Id>, charged: int) {
    && Underway(db, cur, owner, source, parent, name, jobs, next) && source in Originals(jobs)
    && Frontier(db, jobs, pending, current) && charged == JobsSize(db.nodes, jobs)
  }

  /** Which children are written: the first `k`. */
  ghost predicate FirstWritten(jobs: seq<Job>, children: seq<Id>, k: nat) {
    forall i :: 0 <= i < |children| ==> (children[i] in Originals(jobs) <==> i < k)
  }

  /** One turn of the inner loop. */
  lemma ChildCopied(db: Db, cur: Db, owner: Owner, source: Id, parent: Id, name: string, jobs: seq<Job>, next: Id, pending: seq<(Id, Id)>, from: Id, into: Id, charged: int,
                    children: seq<Id>, k: nat)
    requires Sound(db) && MayCopyTo(db, owner, source, parent, name)
    requires MidCopy(db, cur, owner, source, parent, name, jobs, next, pending, {from}, charged) && Written(jobs, (from, into))
    requires Distinct(children) && Elements(children) == LiveChildren(db.nodes, from) && FirstWritten(jobs, children, k) && k < |children|
    ensures children[k] in db.nodes && children[k] in cur.nodes && cur.nodes[children[k]] == db.nodes[children[k]]
    ensures var original := db.nodes[children[k]];
            var job := Job(children[k], next, into, original.name);
            && MidCopy(db, CopyOne(cur, owner, job, original), owner, source, parent, name, jobs + [job], next + 1, Pushed(db, pending, job), {from}, charged + original.size)
            && Written(jobs + [job], (from, into)) && FirstWritten(jobs + [job], children, k + 1)
  {
    hide Sound, MayCopyTo, JobsFollow, Frontier, LiveChildren, Written, Copied, CopyOne, Distinct, DrawnBefore;
    var c := children[k];
    assert c in Elements(children);
    LiveChildrenAreRows(db, from);
    var job := Job(c, next, into, db.nodes[c].name);
    OneMoreUnderway(db, cur, owner, source, parent, name, jobs, next, from, into, c);
    JobsAreKnown(db, source, parent, name, jobs);
    JobsAreKnown(db, source, parent, name, jobs + [job]);
    WrittenStays(jobs, job, (from, into));
    OriginalsGrow(jobs, job);
    JobsSizeGrows(db, jobs, job);
    SourceIsThere(db, owner, source, parent, name);
    LastIsCopied(db, source, parent, name, jobs, job);
    SoundIsShaped(db);
    FrontierAdvances(db, source, parent, name, jobs, pending, from, job);
    OneMoreWritten(jobs, job, children, k);
  }

  lemma SoundIsShaped(db: Db)
    requires Sound(db)
    ensures Shaped(db.nodes)
  {
  }

  lemma SourceIsThere(db: Db, owner: Owner, source: Id, parent: Id, name: string)
    requires MayCopyTo(db, owner, source, parent, name)
    ensures source in db.nodes
  {
  }

  lemma LastIsCopied(db: Db, source: Id, parent: Id, name: string, jobs: seq<Job>, job: Job)
    requires JobsFollow(db, source, parent, name, jobs + [job])
    ensures job.original in Copied(db.nodes, source)
  {
    hide Copied, FollowsItsParent;
    assert (jobs + [job])[|jobs|] == job;
  }

  lemma OneMoreWritten(jobs: seq<Job>, job: Job, children: seq<Id>, k: nat)
    requires Distinct(children) && FirstWritten(jobs, children, k) && k < |children| && job.original == children[k]
    ensures FirstWritten(jobs + [job], children, k + 1)
  {
    hide Originals;
    OriginalsGrow(jobs, job);
  }

  lemma AllWritten(db: Db, jobs: seq<Job>, children: seq<Id>, from: Id)
    requires Elements(children) == LiveChildren(db.nodes, from)
    ensures FirstWritten(jobs, children, |children|) ==> LiveChildren(db.nodes, from) <= Originals(jobs)
    ensures LiveChildren(db.nodes, from) !! Originals(jobs) ==> FirstWritten(jobs, children, 0)
  {
    hide LiveChildren, Originals;
    forall x | x in LiveChildren(db.nodes, from) ensures x in children { assert x in Elements(children); }
    forall i | 0 <= i < |children| ensures children[i] in LiveChildren(db.nodes, from) { assert children[i] in Elements(children); }
  }

  lemma FrontierCloses(db: Db, jobs: seq<Job>, pending: seq<(Id, Id)>, from: Id)
    requires Known(db.nodes, jobs) && Frontier(db, jobs, pending, {from}) && LiveChildren(db.nodes, from) <= Originals(jobs)
    ensures Frontier(db, jobs, pending, {})
  {
    hide LiveChildren, Written;
  }

  /** The inner loop of `copy_tree`: one directory's children. */
  method CopyChildrenIn(tx: Transaction, owner: Owner, from: Id, into: Id, waiting: seq<(Id, Id)>, before: int,
                        ghost db: Db, ghost source: Id, ghost parent: Id, ghost name: string, ghost written: seq<Job>)
    returns (pending: seq<(Id, Id)>, charged: int, ghost jobs: seq<Job>)
    requires Sound(db) && MayCopyTo(db, owner, source, parent, name)
    requires MidCopy(db, tx.Rows(), owner, source, parent, name, written, tx.next, waiting, {from}, before)
    requires Written(written, (from, into)) && LiveChildren(db.nodes, from) !! Originals(written) && from in Copied(db.nodes, source)
    modifies tx`nodes, tx`blobs, tx`next
    ensures MidCopy(db, tx.Rows(), owner, source, parent, name, jobs, tx.next, pending, {}, charged)
    ensures written <= jobs && (|jobs| > |written| || (jobs == written && pending == waiting))
  {
    hide Sound, MayCopyTo, Written, LiveChildren, Copied, FirstWritten, Distinct, Elements, CopyOne, MidCopy;
    pending, charged, jobs := waiting, before, written;
    CopyingIs(db, tx.Rows(), owner, source, parent, name, jobs, tx.next, pending, {from}, charged);
    ChildrenAreTheOriginals(db, tx.Rows(), owner, source, parent, name, jobs, from);
    var children := ChildrenIn(tx, from);
    AllWritten(db, jobs, children, from);
    for k := 0 to |children|
      invariant MidCopy(db, tx.Rows(), owner, source, parent, name, jobs, tx.next, pending, {from}, charged)
      invariant Written(jobs, (from, into)) && FirstWritten(jobs, children, k)
      invariant written <= jobs && |jobs| == |written| + k && (k == 0 ==> jobs == written && pending == waiting)
    {
      ChildCopied(db, tx.Rows(), owner, source, parent, name, jobs, tx.next, pending, from, into, charged, children, k);
      var id := children[k];
      var original := tx.nodes[id];
      var copy := CopyOneIn(tx, owner, into, original.name, id, original);
      charged := charged + original.size;
      jobs := jobs + [Job(id, copy, into, original.name)];
      if original.kind.Directory? { pending := pending + [(id, copy)]; }
    }
    AllWritten(db, jobs, children, from);
    CopyingCloses(db, tx.Rows(), owner, source, parent, name, jobs, tx.next, pending, from, charged);
  }

  lemma CopyingIs(db: Db, cur: Db, owner: Owner, source: Id, parent: Id, name: string, jobs: seq<Job>, next: Id, pending: seq<(Id, Id)>, current: set<Id>, charged: int)
    requires MidCopy(db, cur, owner, source, parent, name, jobs, next, pending, current, charged)
    ensures JobsFollow(db, source, parent, name, jobs) && cur == CopyJobs(db, owner, jobs) && Known(db.nodes, jobs) && Frontier(db, jobs, pending, current)
    ensures source in Originals(jobs) && charged == JobsSize(db.nodes, jobs) && jobs != [] && DrawnBefore(cur, next)
  {
    hide JobsFollow, Frontier, CopyJobs;
    JobsAreKnown(db, source, parent, name, jobs);
    NoOriginals();
  }

  lemma CopyingCloses(db: Db, cur: Db, owner: Owner, source: Id, parent: Id, name: string, jobs: seq<Job>, next: Id, pending: seq<(Id, Id)>, from: Id, charged: int)
    requires MidCopy(db, cur, owner, source, parent, name, jobs, next, pending, {from}, charged) && LiveChildren(db.nodes, from) <= Originals(jobs)
    ensures MidCopy(db, cur, owner, source, parent, name, jobs, next, pending, {}, charged)
  {
    hide Underway, Frontier, LiveChildren;
    CopyingIs(db, cur, owner, source, parent, name, jobs, next, pending, {from}, charged);
    FrontierCloses(db, jobs, pending, from);
  }

  lemma CopyingPops(db: Db, cur: Db, owner: Owner, source: Id, parent: Id, name: string, jobs: seq<Job>, next: Id, pending: seq<(Id, Id)>, charged: int)
    requires MidCopy(db, cur, owner, source, parent, name, jobs, next, pending, {}, charged) && pending != []
    ensures var last := pending[|pending| - 1];
            && MidCopy(db, cur, owner, source, parent, name, jobs, next, pending[..|pending| - 1], {last.0}, charged)
            && Written(jobs, last) && LiveChildren(db.nodes, last.0) !! Originals(jobs) && last.0 in Copied(db.nodes, source)
  {
    hide Underway, Frontier, LiveChildren, Written, Copied, JobsFollow;
    CopyingIs(db, cur, owner, source, parent, name, jobs, next, pending, {}, charged);
    FrontierPops(db, jobs, pending);
    OriginalsAreCopied(db, source, parent, name, jobs);
  }

  lemma OriginalsAreCopied(db: Db, source: Id, parent: Id, name: string, jobs: seq<Job>)
    requires JobsFollow(db, source, parent, name, jobs)
    ensures Originals(jobs) <= Copied(db.nodes, source)
  {
    hide Copied, FollowsItsParent;
  }

  lemma CopyingStarts(db: Db, owner: Owner, source: Id, parent: Id, name: string, next: Id)
    requires Sound(db) && MayCopyTo(db, owner, source, parent, name) && DrawnBefore(db, next)
    ensures var job := Job(source, next, parent, name);
            MidCopy(db, CopyOne(db, owner, job, db.nodes[source]), owner, source, parent, name, [job], next + 1, [(source, next)], {}, db.nodes[source].size)
  {
    hide Shaped, Schema, Balanced, JobsFollow, ChildOf, CopyOne, Contains;
    var job := Job(source, next, parent, name);
    FirstUnderway(db, owner, source, parent, name, next);
    FirstFollows(db, owner, source, parent, name, job);
    JobsAreKnown(db, source, parent, name, [job]);
    SourceIsCopied(db, owner, source, parent, name);
    SourceIsNoChild(db, source, source);
    assert Froms([(source, next)]) == {source} by { FromsOfMore([], (source, next)); assert [] + [(source, next)] == [(source, next)]; assert Froms([]) == {}; }
  }

  /** The rows are all there: what is left is to charge for them. */
  lemma CopyingEnds(db: Db, cur: Db, after: Db, owner: Owner, source: Id, parent: Id, name: string, jobs: seq<Job>, next: Id, charged: int)
    requires Sound(db) && MayCopyTo(db, owner, source, parent, name) && MidCopy(db, cur, owner, source, parent, name, jobs, next, [], {}, charged)
    ensures charged == Sum(MarkedSizes(db.nodes, Copied(db.nodes, source))) && cur.quotas == db.quotas && jobs != []
    ensures Charge(db.quotas, owner, charged) == Ok(after.quotas) && after == cur.(quotas := after.quotas) ==>
              IsCopy(db, after, owner, source, parent, name, jobs)
  {
    hide Shaped, Schema, Balanced, OffBy, MayCopyTo, JobsFollow, Frontier, Copied, Charge;
    CopyingIs(db, cur, owner, source, parent, name, jobs, next, [], {}, charged);
    NothingWaiting(db, source, parent, name, jobs);
    JobsKeepTheLedger(db, owner, source, parent, name, jobs);
    GrownKeepsQuotas(db, cur, owner, jobs);
    OriginalsDiffer(db, source, parent, name, jobs);
    ChargedForEach(db, jobs);
  }

  lemma OriginalsDiffer(db: Db, source: Id, parent: Id, name: string, jobs: seq<Job>)
    requires JobsFollow(db, source, parent, name, jobs)
    ensures forall i, j :: 0 <= i < j < |jobs| ==> jobs[i].original != jobs[j].original
  {
    hide Copied, FollowsItsParent;
  }

  /** Why a copy is refused, if it is: a destination that cannot take it, or an account without room for its sizes. */
  ghost function CopyRefusal(db: Db, owner: Owner, source: Id, parent: Id, name: string): Option<ApiError>
    requires source in db.nodes && parent in db.nodes
  {
    if db.nodes[parent].kind.File? then Some(WrongKind)
    else if db.nodes[source].kind.Directory? && Contains(db.nodes, source, parent) then Some(MoveIntoSelf)
    else if ChildOf(db.nodes, parent, name).Some? then Some(Conflict)
    else
      var charge := Charge(db.quotas, owner, Sum(MarkedSizes(db.nodes, Copied(db.nodes, source))));
      if charge.Err? then Some(charge.error) else None
  }

  /** A copy is refused for exactly these reasons, in this order: it goes into a file, into itself, over a name, or past the quota. */
  lemma CopyIsRefusedExactly(db: Db, owner: Owner, source: Id, parent: Id, name: string)
    requires Shaped(db.nodes) && source in db.nodes && parent in db.nodes
    ensures var weight := Sum(MarkedSizes(db.nodes, set x | x in db.nodes && db.nodes[x].Live() && AtOrAbove(db.nodes, source, x)));
            CopyRefusal(db, owner, source, parent, name) ==
            if db.nodes[parent].kind.File? then Some(WrongKind)
            else if AtOrAbove(db.nodes, source, parent) then Some(MoveIntoSelf)
            else if NameIsTaken(db.nodes, parent, name) then Some(Conflict)
            else if weight == 0 || (owner in db.quotas && db.quotas[owner].used + weight <= db.quotas[owner].max) then None
            else Some(QuotaExceeded)
  {
    hide Shaped, Contains, AtOrAbove, NameIsTaken, ChildOf, Copied, MarkedSizes;
    ContainsInTheShape(db.nodes, source, parent);
    ChildMeansTaken(db.nodes, parent, name);
    CopiedIsTheLiveTree(db.nodes, source);
    if db.nodes[parent].kind.Directory? && AtOrAbove(db.nodes, source, parent) { NothingUnderFiles(db.nodes, source, parent); }
  }

  lemma ContainsInTheShape(nodes: map<Id, Node>, above: Id, id: Id)
    requires Shaped(nodes) && id in nodes
    ensures Contains(nodes, above, id) <==> AtOrAbove(nodes, above, id)
  {
    ContainsIsAtOrAbove(nodes, above, id);
  }

  /**
    `copy_tree`. It stops on every tree; when it succeeds the rows it wrote are a copy of the live tree,
    and it fails only for a destination that cannot take it or an account without room for its sizes.
   */
  method CopyTreeIn(tx: Transaction, owner: Owner, source: Id, parent: Id, name: string) returns (r: Result<Id, ApiError>, ghost jobs: seq<Job>)
    requires Sound(tx.Rows()) && DrawnBefore(tx.Rows(), tx.next)
    requires source in tx.nodes && tx.nodes[source].Live() && parent in tx.nodes && tx.nodes[parent].Live() && tx.nodes[parent].owner == owner
    modifies tx
    ensures match CopyRefusal(old(tx.Rows()), owner, source, parent, name)
            case Some(e) => r == Err(e)
            case None => r.Ok? && jobs != [] && r.value == jobs[0].copy && IsCopy(old(tx.Rows()), tx.Rows(), owner, source, parent, name, jobs)
  {
    hide Sound, ChildOf, Contains, Copied, Written, LiveChildren, MidCopy, IsCopy, MayCopyTo, CopyOne, Charge;
    ghost var db := tx.Rows();
    jobs := [];
    if tx.nodes[parent].kind.File? { return Err(WrongKind), jobs; }
    if tx.nodes[source].kind.Directory? && Contains(tx.nodes, source, parent) { return Err(MoveIntoSelf), jobs; }
    if ChildOf(tx.nodes, parent, name).Some? { return Err(Conflict), jobs; }
    MayCopy(db, owner, source, parent, name);
    CopyingStarts(db, owner, source, parent, name, tx.next);
    var original := tx.nodes[source];
    var root := CopyOneIn(tx, owner, parent, name, source, original);
    jobs := [Job(source, root, parent, name)];
    var charged: int := original.size;
    var pending := [(source, root)];
    while pending != []
      invariant MidCopy(db, tx.Rows(), owner, source, parent, name, jobs, tx.next, pending, {}, charged) && |jobs| >= 1 && jobs[0].copy == root
      decreases |Copied(db.nodes, source)| - |jobs|, |pending|
    {
      CopyingPops(db, tx.Rows(), owner, source, parent, name, jobs, tx.next, pending, charged);
      var (from, into) := pending[|pending| - 1];
      pending := pending[..|pending| - 1];
      pending, charged, jobs := CopyChildrenIn(tx, owner, from, into, pending, charged, db, source, parent, name, jobs);
      CopyingIs(db, tx.Rows(), owner, source, parent, name, jobs, tx.next, pending, {}, charged);
      RowsAreBounded(db, source, parent, name, jobs);
    }
    ghost var cur := tx.Rows();
    var paid := tx.ChargeQuota(owner, charged);
    CopyingEnds(db, cur, tx.Rows(), owner, source, parent, name, jobs, tx.next, charged);
    if paid.Err? { return Err(paid.error), jobs; }
    return Ok(root), jobs;
  }

  lemma MayCopy(db: Db, owner: Owner, source: Id, parent: Id, name: string)
    requires source in db.nodes && db.nodes[source].Live() && parent in db.nodes && db.nodes[parent].Live() && db.nodes[parent].owner == owner
    requires db.nodes[parent].kind.Directory? && !(db.nodes[source].kind.Directory? && Contains(db.nodes, source, parent)) && ChildOf(db.nodes, parent, name).None?
    ensures MayCopyTo(db, owner, source, parent, name)
  {
  }
}
