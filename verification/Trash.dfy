/** The trash: `send`, `restore` with its ancestors and survivors, of api/src/trash.rs. */
module Trash {
  import opened Results
  import opened Sums
  import opened Tables
  import opened Trees
  import opened Ledger

  // ---------- sizes ----------

  /** The sizes of the rows among `ids`. */
  function MarkedSizes(nodes: map<Id, Node>, ids: set<Id>): map<Id, int> {
    map id | id in nodes && id in ids :: nodes[id].size
  }

  /** `size_under`: the sizes of the versions of the nodes among `ids`. */
  function SizesUnder(versions: map<Id, Version>, ids: set<Id>): map<Id, int> {
    map v | v in versions && versions[v].node in ids :: versions[v].size
  }

  ghost function Weight(db: Db, ids: set<Id>): int {
    Sum(MarkedSizes(db.nodes, ids)) + Sum(SizesUnder(db.versions, ids))
  }

  // ---------- send ----------

  function Bury(nodes: map<Id, Node>, ids: set<Id>, root: Id): map<Id, Node> {
    map id | id in nodes :: if id in ids then nodes[id].(trash := Some(root)) else nodes[id]
  }

  /** `send`: the live subtree becomes one batch, and what it was charged is given back. */
  ghost function Send(db: Db, id: Id): Outcome
    requires id in db.nodes
  {
    var marked := Under(db.nodes, LiveIds(db.nodes), id);
    match Charge(db.quotas, db.nodes[id].owner, -Weight(db, marked))
    case Ok(quotas) => Ok(db.(nodes := Bury(db.nodes, marked, id), quotas := quotas))
    case Err(e) => Err(e)
  }

  // ---------- restore ----------

  /** The trashed rows on the way up from `next`; each is alive once met, so none is met twice. */
  function TrashedAbove(nodes: map<Id, Node>, next: Option<Id>, met: set<Id>): seq<Id>
    decreases nodes.Keys - met
  {
    if next.None? || next.value !in nodes || next.value in met || nodes[next.value].Live() then []
    else [next.value] + TrashedAbove(nodes, nodes[next.value].parent, met + {next.value})
  }

  function Revive(nodes: map<Id, Node>, ids: set<Id>): map<Id, Node> {
    map id | id in nodes :: if id in ids then nodes[id].(trash := None) else nodes[id]
  }

  function BatchOf(nodes: map<Id, Node>, root: Id): set<Id> {
    set id | id in nodes && nodes[id].trash == Some(root)
  }

  /** The batches the ancestors came from, each once. */
  function Opened(nodes: map<Id, Node>, ids: seq<Id>): seq<Id> {
    if ids == [] then []
    else
      var before := Opened(nodes, ids[..|ids| - 1]);
      var last := ids[|ids| - 1];
      if last in nodes && nodes[last].trash.Some? && nodes[last].trash.value !in before then before + [nodes[last].trash.value] else before
  }

  /** The rows of a batch left without a trashed parent. */
  function Stranded(nodes: map<Id, Node>, batch: Id): set<Id> {
    set id | id in BatchOf(nodes, batch) && nodes[id].parent.Some? && nodes[id].parent.value in nodes && nodes[nodes[id].parent.value].Live()
  }

  /** The stranded row a row of the batch sits under. */
  function StrandOf(nodes: map<Id, Node>, batch: Id, id: Id): Option<Id> {
    var tops := set s | s in Stranded(nodes, batch) && id in Under(nodes, BatchOf(nodes, batch), s);
    if tops == {} then None else Some(Least(tops))
  }

  /** `reroot_survivors`: each stranded row heads a batch of its own. */
  function Reroot(nodes: map<Id, Node>, batch: Id): map<Id, Node> {
    map id | id in nodes :: if StrandOf(nodes, batch, id).Some? then nodes[id].(trash := StrandOf(nodes, batch, id)) else nodes[id]
  }

  function RerootAll(nodes: map<Id, Node>, batches: seq<Id>): map<Id, Node> {
    if batches == [] then nodes else RerootAll(Reroot(nodes, batches[0]), batches[1..])
  }

  predicate IsRoot(db: Db, owner: Owner, id: Id) {
    id in db.nodes && db.nodes[id].owner == owner && db.nodes[id].trash == Some(id)
  }

  /** The rows `restore` brings back: the trashed ancestors, and the batch. */
  function Revived(nodes: map<Id, Node>, id: Id): set<Id>
    requires id in nodes
  {
    Elements(TrashedAbove(nodes, nodes[id].parent, {})) + BatchOf(nodes, id)
  }

  ghost function Restore(db: Db, owner: Owner, id: Id): Outcome {
    if !IsRoot(db, owner, id) then Err(NotFound)
    else
      var above := TrashedAbove(db.nodes, db.nodes[id].parent, {});
      var aired := Revive(db.nodes, Elements(above));
      var batch := BatchOf(aired, id);
      var revived := Revive(aired, batch);
      if !NamesAreUnique(revived) then Err(Conflict)
      else
        var charged := Sum(MarkedSizes(db.nodes, Elements(above))) + Weight(db, batch);
        match Charge(db.quotas, owner, charged)
        case Ok(quotas) => Ok(db.(nodes := RerootAll(revived, Opened(db.nodes, above)), quotas := quotas))
        case Err(e) => Err(e)
  }

  // ---------- liveness and the ledger ----------

  predicate SameButTrash(a: Node, b: Node) { a == b.(trash := a.trash) }

  /** `live` and `buried` differ in that the nodes `ids` are live in the one and in the trash in the other. */
  ghost predicate Differ(live: map<Id, Node>, buried: map<Id, Node>, ids: set<Id>) {
    && live.Keys == buried.Keys && ids <= live.Keys
    && (forall id :: id in live ==> SameButTrash(live[id], buried[id]))
    && (forall id :: id in live && id in ids ==> live[id].Live() && !buried[id].Live())
    && (forall id :: id in live && id !in ids ==> (live[id].Live() <==> buried[id].Live()))
  }

  lemma LivenessIsNoName(live: map<Id, Node>, buried: map<Id, Node>, ids: set<Id>, h: Hash)
    requires Differ(live, buried, ids)
    ensures NodesNaming(live, h) == NodesNaming(buried, h)
  {
  }

  lemma LivenessWeighs(live: map<Id, Node>, buried: map<Id, Node>, ids: set<Id>, owner: Owner, o: Owner)
    requires Differ(live, buried, ids)
    requires forall id :: id in ids ==> live[id].owner == owner && CarriesItsBlob(live[id])
    ensures Sum(LiveSizes(live, o)) == Sum(LiveSizes(buried, o)) + if o == owner then Sum(MarkedSizes(live, ids)) else 0
  {
    if o == owner {
      ColumnsDiffer(LiveSizes(live, o), LiveSizes(buried, o), ids, MarkedSizes(live, ids));
    } else {
      assert LiveSizes(live, o) == LiveSizes(buried, o);
    }
  }

  lemma LivenessWeighsVersions(live: map<Id, Node>, buried: map<Id, Node>, versions: map<Id, Version>, ids: set<Id>, owner: Owner, o: Owner)
    requires Differ(live, buried, ids)
    requires forall id :: id in ids ==> live[id].owner == owner
    ensures Sum(KeptSizes(live, versions, o)) == Sum(KeptSizes(buried, versions, o)) + if o == owner then Sum(SizesUnder(versions, ids)) else 0
  {
    if o == owner {
      var under := set v | v in versions && versions[v].node in ids;
      ColumnsDiffer(KeptSizes(live, versions, o), KeptSizes(buried, versions, o), under, SizesUnder(versions, ids));
    } else {
      assert KeptSizes(live, versions, o) == KeptSizes(buried, versions, o);
    }
  }

  /** Between a state and the same with some of one owner's nodes in the trash lies what those weigh. */
  lemma BuryingMoves(live: Db, buried: Db, ids: set<Id>, owner: Owner)
    requires Differ(live.nodes, buried.nodes, ids)
    requires live.versions == buried.versions && live.thumbnails == buried.thumbnails && live.blobs == buried.blobs
    requires forall id :: id in ids ==> live.nodes[id].owner == owner && CarriesItsBlob(live.nodes[id])
    requires forall o :: Used(live, o) == Used(buried, o) + if o == owner then Weight(live, ids) else 0
    ensures Balanced(live) <==> Balanced(buried)
  {
    forall o ensures ExpectedUsage(live, o) == ExpectedUsage(buried, o) + if o == owner then Weight(live, ids) else 0 {
      LivenessWeighs(live.nodes, buried.nodes, ids, owner, o);
      LivenessWeighsVersions(live.nodes, buried.nodes, live.versions, ids, owner, o);
    }
    forall h ensures ExpectedReferences(live, h) == ExpectedReferences(buried, h) {
      LivenessIsNoName(live.nodes, buried.nodes, ids, h);
    }
    hide ExpectedUsage, ExpectedReferences, Weight, Differ;
  }

  // ---------- what send keeps ----------

  lemma MarkedHolds(nodes: map<Id, Node>, id: Id, x: Id)
    requires Shaped(nodes) && id in nodes && x in Under(nodes, LiveIds(nodes), id)
    ensures x in nodes && nodes[x].Live() && nodes[x].owner == nodes[id].owner
    ensures id in Under(nodes, LiveIds(nodes), id)
  {
    var rank :| Ranked(nodes, rank);
    OneOwnerUnder(nodes, LiveIds(nodes), id, x, rank);
    RootIsUnder(nodes, LiveIds(nodes), id, x, rank);
    hide Ranked;
  }

  lemma {:induction false} RootIsUnder(nodes: map<Id, Node>, within: set<Id>, root: Id, x: Id, rank: map<Id, nat>)
    requires Ranked(nodes, rank) && x in Under(nodes, within, root) && x in nodes && within <= nodes.Keys
    ensures root in Under(nodes, within, root)
    decreases rank[x]
  {
    UnderStep(nodes, within, root, x);
    if x != root { RootIsUnder(nodes, within, root, nodes[x].parent.value, rank); }
  }

  lemma BuryKeepsTheForest(nodes: map<Id, Node>, after: map<Id, Node>)
    requires Forest(nodes) && WellPlaced(nodes) && after.Keys == nodes.Keys && forall id :: id in nodes ==> SameButTrash(nodes[id], after[id])
    ensures Forest(after) && WellPlaced(after)
  {
    var rank :| Ranked(nodes, rank);
    assert Ranked(after, rank);
  }

  /** Closed downward among the live, as what `send` marks is. */
  ghost predicate ClosedBelow(nodes: map<Id, Node>, marked: set<Id>, id: Id) {
    forall x :: x in nodes && nodes[x].Live() ==>
      (x in marked <==> x == id || (nodes[x].parent.Some? && nodes[x].parent.value in marked))
  }

  lemma BuryKeepsTheBatches(nodes: map<Id, Node>, marked: set<Id>, id: Id)
    requires Batched(nodes) && LiveAbove(nodes) && NamesAreUnique(nodes) && WellPlaced(nodes) && Rooted(nodes)
    requires ClosedBelow(nodes, marked, id) && id in nodes && nodes[id].parent.Some? && (forall x :: x in marked ==> x in nodes && nodes[x].Live() && id in marked)
    ensures var after := Bury(nodes, marked, id); Batched(after) && LiveAbove(after) && NamesAreUnique(after) && Rooted(after)
  {
    var after := Bury(nodes, marked, id);
    forall x | x in after ensures InItsBatch(after, x) { assert InItsBatch(nodes, x); }
  }

  lemma BuryKeepsTheShape(nodes: map<Id, Node>, id: Id)
    requires Shaped(nodes) && id in nodes && nodes[id].parent.Some?
    ensures Shaped(Bury(nodes, Under(nodes, LiveIds(nodes), id), id))
  {
    var marked := Under(nodes, LiveIds(nodes), id);
    BuryKeepsTheForest(nodes, Bury(nodes, marked, id));
    forall x | x in nodes ensures nodes[x].Live() ==> (x in marked <==> x == id || (nodes[x].parent.Some? && nodes[x].parent.value in marked)) {
      if nodes[x].Live() { UnderStep(nodes, LiveIds(nodes), id, x); }
    }
    forall x | x in marked ensures x in nodes && nodes[x].Live() && id in marked { MarkedHolds(nodes, id, x); }
    hide Forest, Under, NamesAreUnique;
    BuryKeepsTheBatches(nodes, marked, id);
  }

  lemma TrashFitsTheSchema(db: Db, nodes: map<Id, Node>)
    requires Schema(db) && nodes.Keys == db.nodes.Keys && forall id :: id in nodes ==> SameButTrash(db.nodes[id], nodes[id])
    ensures Schema(db.(nodes := nodes))
  {
  }

  /** One account was charged, and no maximum changed. */
  ghost predicate OnlyCharged(db: Db, after: Db, owner: Owner, delta: int) {
    && after.quotas.Keys == db.quotas.Keys && (forall o :: o in db.quotas ==> after.quotas[o].max == db.quotas[o].max)
    && forall o :: Used(after, o) == Used(db, o) + if o == owner then delta else 0
  }

  lemma ChargeOfWeight(db: Db, owner: Owner, delta: int, after: Db)
    requires Charge(db.quotas, owner, delta) == Ok(after.quotas)
    ensures OnlyCharged(db, after, owner, delta)
    ensures forall o :: Used(after, o) == Used(db, o) + if o == owner then delta else 0
  {
    ChargeMoves(db.quotas, owner, delta);
  }

  lemma SendInSteps(db: Db, id: Id)
    requires id in db.nodes && Send(db, id).Ok?
    ensures var marked := Under(db.nodes, LiveIds(db.nodes), id);
            var after := Send(db, id).value;
            && after == db.(nodes := Bury(db.nodes, marked, id), quotas := after.quotas)
            && Charge(db.quotas, db.nodes[id].owner, -Weight(db, marked)) == Ok(after.quotas)
  {
    hide Under, Weight, Charge, Bury;
  }

  lemma BuryDiffers(nodes: map<Id, Node>, ids: set<Id>, root: Id)
    requires forall x :: x in ids ==> x in nodes && nodes[x].Live()
    ensures Differ(nodes, Bury(nodes, ids, root), ids)
  {
  }

  lemma MarkedAll(db: Db, id: Id)
    requires Shaped(db.nodes) && Schema(db) && id in db.nodes
    ensures forall x :: x in Under(db.nodes, LiveIds(db.nodes), id) ==>
              x in db.nodes && db.nodes[x].Live() && db.nodes[x].owner == db.nodes[id].owner && CarriesItsBlob(db.nodes[x])
  {
    hide Shaped, Under, ForeignKeys, FilesCarryBlobs, VersionsAreOfFiles;
    forall x | x in Under(db.nodes, LiveIds(db.nodes), id)
      ensures x in db.nodes && db.nodes[x].Live() && db.nodes[x].owner == db.nodes[id].owner && CarriesItsBlob(db.nodes[x])
    {
      MarkedHolds(db.nodes, id, x);
      NodeIsInTheSchema(db, x);
    }
  }

  /**
    Sending to the trash takes exactly the live subtree, as one batch, and gives back exactly what it and
    its versions were charged; every other row, count and charge stays.
   */
  lemma SendKeepsTheLedger(db: Db, id: Id)
    requires Sound(db) && id in db.nodes && db.nodes[id].parent.Some? && Send(db, id).Ok?
    ensures Sound(Send(db, id).value)
    ensures var after, marked := Send(db, id).value, Under(db.nodes, LiveIds(db.nodes), id);
            && after == db.(nodes := after.nodes, quotas := after.quotas)
            && OnlyCharged(db, after, db.nodes[id].owner, -Weight(db, marked))
            && Differ(db.nodes, after.nodes, marked) && (forall x :: x in marked ==> after.nodes[x].trash == Some(id))
            && (forall x :: x in db.nodes && x !in marked ==> after.nodes[x] == db.nodes[x])
            && (db.nodes[id].Live() ==> id in marked && BatchOf(after.nodes, id) == marked)
  {
    hide OnlyCharged, Shaped, Schema, Balanced, Weight, Under, Charge, Send, Differ, Bury, Used;
    var marked := Under(db.nodes, LiveIds(db.nodes), id);
    var owner := db.nodes[id].owner;
    var after := Send(db, id).value;
    SendInSteps(db, id);
    BuryKeepsTheShape(db.nodes, id);
    ChargeOfWeight(db, owner, -Weight(db, marked), after);
    MarkedAll(db, id);
    BuryDiffers(db.nodes, marked, id);
    DifferKeepsTheSchema(db, after, marked);
    UsedMoved(db, after, owner, -Weight(db, marked));
    BuryingMoves(db, after, marked, owner);
    BuriedRows(db.nodes, marked, id);
    if db.nodes[id].Live() { SentBatch(db.nodes, id); }
  }

  lemma UsedMoved(db: Db, after: Db, owner: Owner, delta: int)
    requires OnlyCharged(db, after, owner, delta)
    ensures forall o :: Used(after, o) == Used(db, o) + if o == owner then delta else 0
  {
  }

  lemma BuriedRows(nodes: map<Id, Node>, marked: set<Id>, id: Id)
    requires forall x :: x in marked ==> x in nodes
    ensures var after := Bury(nodes, marked, id);
            && (forall x :: x in marked ==> after[x].trash == Some(id))
            && (forall x :: x in nodes && x !in marked ==> after[x] == nodes[x])
  {
  }

  /** Where two states differ only in what is live, the one is in the schema if the other is. */
  lemma DifferKeepsTheSchema(db: Db, after: Db, ids: set<Id>)
    requires Schema(db) && (Differ(db.nodes, after.nodes, ids) || Differ(after.nodes, db.nodes, ids))
    requires after.versions == db.versions && after.thumbnails == db.thumbnails && after.blobs == db.blobs
    ensures Schema(after)
  {
    TrashFitsTheSchema(db, after.nodes);
    VersionsFitTheSchema(db.(nodes := after.nodes), after);
    hide ForeignKeys, FilesCarryBlobs, VersionsAreOfFiles;
  }

  // ---------- what restore keeps ----------

  /** The trashed ancestors restored with a node are all of them. */
  lemma {:induction false} AboveHolds(nodes: map<Id, Node>, next: Option<Id>, met: set<Id>, x: Id)
    requires x in TrashedAbove(nodes, next, met)
    ensures x in nodes && !nodes[x].Live() && x !in met
    ensures nodes[x].parent.Some? && nodes[x].parent.value in nodes && !nodes[nodes[x].parent.value].Live() ==>
              nodes[x].parent.value in TrashedAbove(nodes, next, met) || nodes[x].parent.value in met
    decreases nodes.Keys - met
  {
    var rest := TrashedAbove(nodes, nodes[next.value].parent, met + {next.value});
    if x in rest { AboveHolds(nodes, nodes[next.value].parent, met + {next.value}, x); }
    else { assert x == next.value; }
  }

  /** A row of a batch whose root may be back: its parent is back, or in the batch with it. */
  ghost predicate OpenRow(nodes: map<Id, Node>, id: Id, batch: Id)
    requires id in nodes
  {
    nodes[id].parent.Some? && nodes[id].parent.value in nodes &&
    (nodes[nodes[id].parent.value].Live() || nodes[nodes[id].parent.value].trash == Some(batch))
  }

  /** Every batch connected but for `pending`, whose roots are back. */
  ghost predicate HalfOpen(nodes: map<Id, Node>, pending: set<Id>) {
    && (forall id :: id in nodes && nodes[id].trash.Some? ==>
          if nodes[id].trash.value in pending then OpenRow(nodes, id, nodes[id].trash.value) else InItsBatch(nodes, id))
    && (forall b :: b in pending ==> b in nodes && nodes[b].Live())
  }

  lemma {:induction false} HasAStrand(nodes: map<Id, Node>, batch: Id, id: Id, rank: map<Id, nat>)
    requires Ranked(nodes, rank) && id in BatchOf(nodes, batch)
    requires forall x :: x in BatchOf(nodes, batch) ==> OpenRow(nodes, x, batch)
    ensures exists s :: s in Stranded(nodes, batch) && id in Under(nodes, BatchOf(nodes, batch), s)
    decreases rank[id]
  {
    var p := nodes[id].parent.value;
    if nodes[p].Live() {
      UnderStep(nodes, BatchOf(nodes, batch), id, id);
      assert id in Stranded(nodes, batch);
    } else {
      HasAStrand(nodes, batch, p, rank);
      var s :| s in Stranded(nodes, batch) && p in Under(nodes, BatchOf(nodes, batch), s);
      UnderStep(nodes, BatchOf(nodes, batch), s, id);
    }
  }

  lemma {:induction false} HasOneStrand(nodes: map<Id, Node>, batch: Id, id: Id, s: Id, t: Id, rank: map<Id, nat>)
    requires Ranked(nodes, rank) && id in nodes
    requires s in Stranded(nodes, batch) && id in Under(nodes, BatchOf(nodes, batch), s)
    requires t in Stranded(nodes, batch) && id in Under(nodes, BatchOf(nodes, batch), t)
    ensures s == t
    decreases rank[id]
  {
    UnderStep(nodes, BatchOf(nodes, batch), s, id);
    UnderStep(nodes, BatchOf(nodes, batch), t, id);
    if id != s && id != t { HasOneStrand(nodes, batch, nodes[id].parent.value, s, t, rank); }
  }

  /** Each row of an opened batch joins the one stranded row above it, as its parent in the batch does. */
  lemma StrandHolds(nodes: map<Id, Node>, batch: Id, id: Id)
    requires Forest(nodes) && id in BatchOf(nodes, batch)
    requires forall x :: x in BatchOf(nodes, batch) ==> OpenRow(nodes, x, batch)
    ensures StrandOf(nodes, batch, id).Some?
    ensures var s := StrandOf(nodes, batch, id).value;
            && s in BatchOf(nodes, batch) && StrandOf(nodes, batch, s) == Some(s)
            && (id != s ==> nodes[id].parent.Some? && nodes[id].parent.value in BatchOf(nodes, batch) && StrandOf(nodes, batch, nodes[id].parent.value) == Some(s))
  {
    var rank :| Ranked(nodes, rank);
    StrandIs(nodes, batch, id, rank);
    var s := StrandOf(nodes, batch, id).value;
    UnderStep(nodes, BatchOf(nodes, batch), s, id);
    UnderStep(nodes, BatchOf(nodes, batch), s, s);
    hide Under;
    StrandUnique(nodes, batch, s, s, rank);
    if id != s { StrandUnique(nodes, batch, nodes[id].parent.value, s, rank); }
  }

  lemma StrandIs(nodes: map<Id, Node>, batch: Id, id: Id, rank: map<Id, nat>)
    requires Ranked(nodes, rank) && id in BatchOf(nodes, batch)
    requires forall x :: x in BatchOf(nodes, batch) ==> OpenRow(nodes, x, batch)
    ensures StrandOf(nodes, batch, id).Some?
    ensures StrandOf(nodes, batch, id).value in Stranded(nodes, batch) && id in Under(nodes, BatchOf(nodes, batch), StrandOf(nodes, batch, id).value)
  {
    HasAStrand(nodes, batch, id, rank);
    var s :| s in Stranded(nodes, batch) && id in Under(nodes, BatchOf(nodes, batch), s);
    var tops := set s | s in Stranded(nodes, batch) && id in Under(nodes, BatchOf(nodes, batch), s);
    assert s in tops;
    hide Under;
  }

  lemma StrandUnique(nodes: map<Id, Node>, batch: Id, id: Id, s: Id, rank: map<Id, nat>)
    requires Ranked(nodes, rank) && id in nodes && id in BatchOf(nodes, batch)
    requires forall x :: x in BatchOf(nodes, batch) ==> OpenRow(nodes, x, batch)
    requires s in Stranded(nodes, batch) && id in Under(nodes, BatchOf(nodes, batch), s)
    ensures StrandOf(nodes, batch, id) == Some(s)
  {
    hide Under;
    StrandIs(nodes, batch, id, rank);
    HasOneStrand(nodes, batch, id, s, StrandOf(nodes, batch, id).value, rank);
  }

  lemma OnlyRowsOfTheBatch(nodes: map<Id, Node>, batch: Id, id: Id)
    requires StrandOf(nodes, batch, id).Some?
    ensures id in BatchOf(nodes, batch)
  {
    hide Leads;
  }

  /** Rerooting closes a batch: none of its rows is left in it, and the new batches are connected. */
  lemma RerootCloses(nodes: map<Id, Node>, batch: Id, pending: set<Id>)
    requires Forest(nodes) && HalfOpen(nodes, pending) && batch in pending
    ensures var after := Reroot(nodes, batch);
            && after.Keys == nodes.Keys && (forall id :: id in nodes ==> SameButTrash(nodes[id], after[id]) && (after[id].Live() <==> nodes[id].Live()))
            && HalfOpen(after, pending) && HalfOpen(after, pending - {batch})
  {
    hide StrandOf, Forest;
    var after := Reroot(nodes, batch);
    forall id | id in nodes
      ensures SameButTrash(nodes[id], after[id]) && (after[id].Live() <==> nodes[id].Live())
      ensures nodes[id].trash == Some(batch) ==> StrandOf(nodes, batch, id).Some?
      ensures nodes[id].trash != Some(batch) ==> after[id] == nodes[id]
    {
      if StrandOf(nodes, batch, id).Some? { OnlyRowsOfTheBatch(nodes, batch, id); }
      if nodes[id].trash == Some(batch) { StrandHolds(nodes, batch, id); }
    }
    forall id | id in after && after[id].trash.Some?
      ensures after[id].trash.value !in pending ==> InItsBatch(after, id)
      ensures after[id].trash.value in pending ==> OpenRow(after, id, after[id].trash.value) && after[id].trash.value != batch
    {
      if nodes[id].trash == Some(batch) {
        StrandHolds(nodes, batch, id);
      }
    }
  }

  ghost predicate SameLife(nodes: map<Id, Node>, after: map<Id, Node>) {
    after.Keys == nodes.Keys && forall id :: id in nodes ==> SameButTrash(nodes[id], after[id]) && (after[id].Live() <==> nodes[id].Live())
  }

  lemma {:induction false} RerootAllCloses(nodes: map<Id, Node>, batches: seq<Id>)
    requires Forest(nodes) && WellPlaced(nodes) && HalfOpen(nodes, Elements(batches))
    ensures SameLife(nodes, RerootAll(nodes, batches)) && HalfOpen(RerootAll(nodes, batches), {})
    decreases |batches|
  {
    hide Forest, WellPlaced, Reroot, HalfOpen;
    if batches == [] {
      assert Elements(batches) == {};
    } else {
      assert batches[0] in Elements(batches);
      RerootCloses(nodes, batches[0], Elements(batches));
      var after := Reroot(nodes, batches[0]);
      BuryKeepsTheForest(nodes, after);
      var rest := Elements(batches[1..]);
      assert forall b :: b in batches <==> b == batches[0] || b in batches[1..];
      assert rest == Elements(batches) || rest == Elements(batches) - {batches[0]};
      RerootAllCloses(after, batches[1..]);
    }
  }

  lemma HalfOpenIsBatched(nodes: map<Id, Node>)
    ensures HalfOpen(nodes, {}) <==> Batched(nodes)
  {
  }

  lemma SameLifeKeepsTheRest(nodes: map<Id, Node>, after: map<Id, Node>)
    requires Forest(nodes) && WellPlaced(nodes) && LiveAbove(nodes) && NamesAreUnique(nodes) && Rooted(nodes) && SameLife(nodes, after)
    ensures Forest(after) && WellPlaced(after) && LiveAbove(after) && NamesAreUnique(after) && Rooted(after)
  {
    BuryKeepsTheForest(nodes, after);
    hide Forest, WellPlaced;
  }

  lemma {:induction false} OpenedHolds(nodes: map<Id, Node>, ids: seq<Id>)
    ensures forall b :: b in Opened(nodes, ids) <==> exists x :: x in ids && x in nodes && nodes[x].trash == Some(b)
  {
    if ids != [] {
      var before, last := ids[..|ids| - 1], ids[|ids| - 1];
      OpenedHolds(nodes, before);
      assert ids == before + [last];
      assert last in ids && forall x :: x in ids <==> x in before || x == last;
      forall b ensures b in Opened(nodes, ids) <==> exists x :: x in ids && x in nodes && nodes[x].trash == Some(b) {
        if x :| x in ids && x in nodes && nodes[x].trash == Some(b) { if x != last { assert x in before; } }
      }
    }
  }

  /** All of a node's trashed ancestors, and only trashed nodes. */
  ghost predicate ClosedAbove(nodes: map<Id, Node>, above: set<Id>, next: Option<Id>) {
    && (forall x :: x in above ==> x in nodes && !nodes[x].Live())
    && (forall x :: x in above && nodes[x].parent.Some? && nodes[x].parent.value in nodes && !nodes[nodes[x].parent.value].Live() ==>
          nodes[x].parent.value in above)
    && (next.Some? && next.value in nodes && !nodes[next.value].Live() ==> next.value in above)
  }

  lemma AboveIsClosed(nodes: map<Id, Node>, next: Option<Id>)
    ensures ClosedAbove(nodes, Elements(TrashedAbove(nodes, next, {})), next)
  {
    forall x | x in TrashedAbove(nodes, next, {})
      ensures x in nodes && !nodes[x].Live()
      ensures nodes[x].parent.Some? && nodes[x].parent.value in nodes && !nodes[nodes[x].parent.value].Live() ==>
                nodes[x].parent.value in TrashedAbove(nodes, next, {})
    {
      AboveHolds(nodes, next, {}, x);
    }
  }

  /** The batch an ancestor comes from has its root among the ancestors. */
  lemma {:induction false} RootsAreAbove(nodes: map<Id, Node>, above: set<Id>, next: Option<Id>, x: Id, rank: map<Id, nat>)
    requires Ranked(nodes, rank) && Batched(nodes) && ClosedAbove(nodes, above, next) && x in above
    ensures nodes[x].trash.Some? && nodes[x].trash.value in above
    decreases rank[x]
  {
    assert InItsBatch(nodes, x);
    if nodes[x].trash.value != x { RootsAreAbove(nodes, above, next, nodes[x].parent.value, rank); }
  }

  /** The tree once the ancestors and the batch are back and nothing is rerooted yet. */
  function Raise(nodes: map<Id, Node>, id: Id): map<Id, Node>
    requires id in nodes
  {
    var aired := Revive(nodes, Elements(TrashedAbove(nodes, nodes[id].parent, {})));
    Revive(aired, BatchOf(aired, id))
  }

  lemma RaiseIsRevive(nodes: map<Id, Node>, id: Id)
    requires id in nodes
    ensures Raise(nodes, id) == Revive(nodes, Revived(nodes, id))
  {
  }

  lemma RaiseOpens(nodes: map<Id, Node>, id: Id)
    requires Shaped(nodes) && id in nodes && nodes[id].trash == Some(id)
    ensures var after := Raise(nodes, id);
            && Forest(after) && WellPlaced(after) && LiveAbove(after) && Rooted(after)
            && HalfOpen(after, Elements(Opened(nodes, TrashedAbove(nodes, nodes[id].parent, {}))))
  {
    hide Forest, TrashedAbove, Opened, Raise, NamesAreUnique, Rooted, LiveAbove, WellPlaced;
    var above := TrashedAbove(nodes, nodes[id].parent, {});
    RaiseIsRevive(nodes, id);
    RaiseKeepsThePlaces(nodes, id);
    AboveIsClosed(nodes, nodes[id].parent);
    OpenedHolds(nodes, above);
    RootsOfTheOpened(nodes, id);
    RevivedIsHalfOpen(nodes, id, Elements(above), Elements(Opened(nodes, above)));
  }

  lemma RaiseKeepsThePlaces(nodes: map<Id, Node>, id: Id)
    requires Forest(nodes) && WellPlaced(nodes) && Rooted(nodes) && id in nodes
    ensures var after := Raise(nodes, id); Forest(after) && WellPlaced(after) && Rooted(after)
  {
    hide Forest, WellPlaced, TrashedAbove;
    RaiseIsRevive(nodes, id);
    BuryKeepsTheForest(nodes, Raise(nodes, id));
  }

  lemma RootsOfTheOpened(nodes: map<Id, Node>, id: Id)
    requires Forest(nodes) && Batched(nodes) && id in nodes
    ensures var above := TrashedAbove(nodes, nodes[id].parent, {});
            forall x :: x in above ==> x in nodes && nodes[x].trash.Some? && nodes[x].trash.value in above
  {
    hide TrashedAbove, Batched;
    var above := TrashedAbove(nodes, nodes[id].parent, {});
    var rank := SomeRank(nodes);
    AboveIsClosed(nodes, nodes[id].parent);
    forall x | x in above ensures x in nodes && nodes[x].trash.Some? && nodes[x].trash.value in above {
      RootsAreAbove(nodes, Elements(above), nodes[id].parent, x, rank);
    }
  }

  lemma RevivedIsHalfOpen(nodes: map<Id, Node>, id: Id, above: set<Id>, pending: set<Id>)
    requires WellPlaced(nodes) && LiveAbove(nodes) && Batched(nodes) && id in nodes && nodes[id].trash == Some(id)
    requires ClosedAbove(nodes, above, nodes[id].parent)
    requires forall b :: b in pending <==> exists x :: x in above && x in nodes && nodes[x].trash == Some(b)
    requires forall b :: b in pending ==> b in above
    ensures var after := Revive(nodes, above + BatchOf(nodes, id)); LiveAbove(after) && HalfOpen(after, pending)
  {
    var after := Revive(nodes, above + BatchOf(nodes, id));
    forall x | x in nodes ensures InItsBatch(nodes, x) { }
    forall x | x in after && after[x].trash.Some?
      ensures if after[x].trash.value in pending then OpenRow(after, x, after[x].trash.value) else InItsBatch(after, x)
    {
      assert InItsBatch(nodes, x);
    }
  }

  lemma {:induction false} AboveAreDirectories(nodes: map<Id, Node>, owner: Owner, next: Option<Id>, met: set<Id>)
    requires WellPlaced(nodes)
    requires next.Some? && next.value in nodes ==> nodes[next.value].kind.Directory? && nodes[next.value].owner == owner
    ensures forall x :: x in TrashedAbove(nodes, next, met) ==> x in nodes && nodes[x].kind.Directory? && nodes[x].owner == owner
    decreases nodes.Keys - met
  {
    if next.Some? && next.value in nodes && next.value !in met && !nodes[next.value].Live() {
      AboveAreDirectories(nodes, owner, nodes[next.value].parent, met + {next.value});
    }
  }

  lemma DirectoriesHoldNothing(db: Db, above: set<Id>)
    requires Schema(db) && forall x :: x in above ==> x in db.nodes && db.nodes[x].kind.Directory?
    ensures forall x :: x in above ==> db.nodes[x].size == 0
    ensures forall v :: v in db.versions ==> db.versions[v].node !in above
  {
  }

  /** Directories weigh nothing, so the ancestors cost nothing to bring back. */
  lemma DirectoriesWeighNothing(db: Db, above: set<Id>, batch: set<Id>)
    requires Schema(db) && forall x :: x in above ==> x in db.nodes && db.nodes[x].kind.Directory?
    ensures Sum(MarkedSizes(db.nodes, above)) == 0
    ensures Weight(db, above + batch) == Weight(db, batch)
  {
    hide Schema;
    DirectoriesHoldNothing(db, above);
    SumOfNothing(MarkedSizes(db.nodes, above));
    var column := MarkedSizes(db.nodes, above + batch);
    SumOnly(column, batch);
    assert MarkedSizes(db.nodes, batch) == map k | k in column && k in batch :: column[k];
    assert SizesUnder(db.versions, above + batch) == SizesUnder(db.versions, batch);
  }

  lemma RestoreInSteps(db: Db, owner: Owner, id: Id)
    requires Restore(db, owner, id).Ok?
    ensures IsRoot(db, owner, id) && NamesAreUnique(Raise(db.nodes, id))
    ensures var after := Restore(db, owner, id).value;
            var above := TrashedAbove(db.nodes, db.nodes[id].parent, {});
            var batch := BatchOf(Revive(db.nodes, Elements(above)), id);
            && after == db.(nodes := RerootAll(Raise(db.nodes, id), Opened(db.nodes, above)), quotas := after.quotas)
            && Charge(db.quotas, owner, Sum(MarkedSizes(db.nodes, Elements(above))) + Weight(db, batch)) == Ok(after.quotas)
  {
    hide TrashedAbove, BatchOf, RerootAll, Opened, Charge, Weight, MarkedSizes, Revive;
  }

  lemma RestoreShapes(db: Db, owner: Owner, id: Id)
    requires Sound(db) && Restore(db, owner, id).Ok?
    ensures Shaped(Restore(db, owner, id).value.nodes)
    ensures SameLife(Raise(db.nodes, id), Restore(db, owner, id).value.nodes)
  {
    hide Forest, WellPlaced, LiveAbove, NamesAreUnique, Batched, HalfOpen, Schema, Balanced, RerootAll, Raise, Opened, TrashedAbove, Restore;
    RestoreInSteps(db, owner, id);
    RaiseOpens(db.nodes, id);
    var raised := Raise(db.nodes, id);
    RerootAllCloses(raised, Opened(db.nodes, TrashedAbove(db.nodes, db.nodes[id].parent, {})));
    SameLifeKeepsTheRest(raised, Restore(db, owner, id).value.nodes);
    HalfOpenIsBatched(Restore(db, owner, id).value.nodes);
  }

  lemma RestoredHold(db: Db, owner: Owner, id: Id)
    requires Sound(db) && IsRoot(db, owner, id)
    ensures forall x :: x in Elements(TrashedAbove(db.nodes, db.nodes[id].parent, {})) ==> x in db.nodes && db.nodes[x].kind.Directory?
    ensures forall x :: x in Revived(db.nodes, id) ==> x in db.nodes && !db.nodes[x].Live() && db.nodes[x].owner == owner && CarriesItsBlob(db.nodes[x])
  {
    hide Balanced, Forest, NamesAreUnique, LiveAbove;
    AboveAreDirectories(db.nodes, owner, db.nodes[id].parent, {});
    AboveIsClosed(db.nodes, db.nodes[id].parent);
    var rank := SomeRank(db.nodes);
    forall x | x in Revived(db.nodes, id) ensures x in db.nodes && db.nodes[x].owner == owner && CarriesItsBlob(db.nodes[x]) {
      if x in BatchOf(db.nodes, id) { BatchHasOneOwner(db.nodes, x, rank); }
      NodeIsInTheSchema(db, x);
    }
  }

  lemma {:induction false} BatchHasOneOwner(nodes: map<Id, Node>, x: Id, rank: map<Id, nat>)
    requires Ranked(nodes, rank) && WellPlaced(nodes) && Batched(nodes) && x in nodes && nodes[x].trash.Some?
    ensures nodes[x].trash.value in nodes && nodes[nodes[x].trash.value].owner == nodes[x].owner
    decreases rank[x]
  {
    assert InItsBatch(nodes, x);
    if nodes[x].trash.value != x { BatchHasOneOwner(nodes, nodes[x].parent.value, rank); }
  }

  lemma RestoreDiffers(nodes: map<Id, Node>, after: map<Id, Node>, id: Id)
    requires id in nodes && SameLife(Raise(nodes, id), after)
    requires forall x :: x in Revived(nodes, id) ==> x in nodes && !nodes[x].Live()
    ensures Differ(after, nodes, Revived(nodes, id))
  {
    RaiseIsRevive(nodes, id);
    hide TrashedAbove, BatchOf, Raise, Revived;
  }

  lemma RestoredWeight(db: Db, owner: Owner, id: Id)
    requires Sound(db) && IsRoot(db, owner, id)
    ensures var above := Elements(TrashedAbove(db.nodes, db.nodes[id].parent, {}));
            && Sum(MarkedSizes(db.nodes, above)) == 0
            && Weight(db, BatchOf(Revive(db.nodes, above), id)) == Weight(db, Revived(db.nodes, id))
  {
    hide TrashedAbove, Sound, Weight, MarkedSizes, Sum;
    RestoredHold(db, owner, id);
    var above := Elements(TrashedAbove(db.nodes, db.nodes[id].parent, {}));
    var batch := BatchOf(Revive(db.nodes, above), id);
    assert above + batch == Revived(db.nodes, id);
    SoundIsInTheSchema(db);
    DirectoriesWeighNothing(db, above, batch);
  }

  lemma SoundIsInTheSchema(db: Db)
    requires Sound(db)
    ensures Schema(db)
  {
  }

  /**
    Restoring brings back exactly the batch and its trashed ancestors and charges exactly what they and
    their versions weigh; what else is in the trash stays there, in connected batches, and everything
    else stays as it was.
   */
  lemma RestoreKeepsTheLedger(db: Db, owner: Owner, id: Id)
    requires Sound(db) && Restore(db, owner, id).Ok?
    ensures Sound(Restore(db, owner, id).value)
    ensures id in db.nodes
    ensures var after := Restore(db, owner, id).value;
            && after == db.(nodes := after.nodes, quotas := after.quotas)
            && OnlyCharged(db, after, owner, Weight(db, Revived(db.nodes, id)))
            && Differ(after.nodes, db.nodes, Revived(db.nodes, id))
  {
    hide OnlyCharged, Shaped, Schema, Balanced, Weight, Charge, Restore, Differ, Used, SameLife, MarkedSizes, Opened, TrashedAbove, Revived, Raise, RerootAll;
    RestoreInSteps(db, owner, id);
    RestoreShapes(db, owner, id);
    RestoredHold(db, owner, id);
    RestoredWeight(db, owner, id);
    var after := Restore(db, owner, id).value;
    var ids := Revived(db.nodes, id);
    RestoreDiffers(db.nodes, after.nodes, id);
    ChargeOfWeight(db, owner, Weight(db, ids), after);
    DifferKeepsTheSchema(db, after, ids);
    UsedMoved(db, after, owner, Weight(db, ids));
    DifferWeighsTheSame(db, after, ids);
    LiveRowsHold(db.nodes, after.nodes, ids, owner);
    BuryingMoves(after, db, ids, owner);
  }

  lemma DifferWeighsTheSame(db: Db, after: Db, ids: set<Id>)
    requires Differ(after.nodes, db.nodes, ids) && after.versions == db.versions
    ensures Weight(db, ids) == Weight(after, ids)
  {
    assert MarkedSizes(db.nodes, ids) == MarkedSizes(after.nodes, ids);
  }

  lemma LiveRowsHold(nodes: map<Id, Node>, after: map<Id, Node>, ids: set<Id>, owner: Owner)
    requires Differ(after, nodes, ids)
    requires forall x :: x in ids ==> x in nodes && nodes[x].owner == owner && CarriesItsBlob(nodes[x])
    ensures forall x :: x in ids ==> after[x].owner == owner && CarriesItsBlob(after[x])
  {
  }

  // ---------- when something can be trashed ----------

  /** What an account is charged for a live subtree brings it within its quota when given back, or is nothing. */
  ghost predicate CreditGoesThrough(db: Db, id: Id)
    requires id in db.nodes
  {
    var weight, owner := Weight(db, Under(db.nodes, LiveIds(db.nodes), id)), db.nodes[id].owner;
    weight == 0 || (owner in db.quotas && db.quotas[owner].used - weight <= db.quotas[owner].max)
  }

  /** Of a sound ledger, an account within its quota can always trash what it has; one over its quota, only what brings it within. */
  lemma SendNeedsCredit(db: Db, id: Id)
    requires Sound(db) && id in db.nodes
    ensures Send(db, id).Ok? <==> CreditGoesThrough(db, id)
    ensures WithinQuota(db, db.nodes[id].owner) ==> Send(db, id).Ok?
  {
    hide Shaped, Schema, Balanced, Under;
    var marked := Under(db.nodes, LiveIds(db.nodes), id);
    SumNatural(MarkedSizes(db.nodes, marked));
    SumNatural(SizesUnder(db.versions, marked));
  }

  // ---------- when a restore succeeds ----------

  /** What a restore brings back with a batch: the batch, and whatever above it is in the trash. */
  ghost predicate ComesBack(nodes: map<Id, Node>, id: Id, x: Id) {
    x in nodes && (nodes[x].trash == Some(id) || (nodes[x].trash.Some? && AtOrAbove(nodes, x, id)))
  }

  ghost function ComingBack(nodes: map<Id, Node>, id: Id): set<Id> { set x | x in nodes && ComesBack(nodes, id, x) }

  lemma {:induction false} TrashedAboveIsAbove(nodes: map<Id, Node>, next: Option<Id>, met: set<Id>, x: Id)
    requires x in TrashedAbove(nodes, next, met)
    ensures next.Some? && x in nodes && AtOrAbove(nodes, x, next.value)
    decreases nodes.Keys - met
  {
    hide AtOrAbove;
    OneMoreGeneration(nodes, next.value, x);
    if x != next.value { TrashedAboveIsAbove(nodes, nodes[next.value].parent, met + {next.value}, x); }
  }

  /** All the way up from a trashed row to one that is trashed, everything is. */
  lemma {:induction false} AboveHasAll(nodes: map<Id, Node>, above: set<Id>, next: Option<Id>, x: Id, y: Id, rank: map<Id, nat>)
    requires Ranked(nodes, rank) && LiveAbove(nodes) && ClosedAbove(nodes, above, next)
    requires y in nodes && (y in above || next == Some(y)) && x in nodes && !nodes[x].Live() && AtOrAbove(nodes, x, y)
    ensures x in above && !nodes[y].Live()
    decreases rank[y]
  {
    hide AtOrAbove, LiveAbove;
    OneMoreGeneration(nodes, y, x);
    if x != y {
      NotAboveALive(nodes, x, y, rank);
      AboveHasAll(nodes, above, next, x, nodes[y].parent.value, rank);
    }
  }

  lemma {:induction false} NotAboveALive(nodes: map<Id, Node>, x: Id, y: Id, rank: map<Id, nat>)
    requires Ranked(nodes, rank) && LiveAbove(nodes) && y in nodes && x in nodes && !nodes[x].Live() && AtOrAbove(nodes, x, y)
    ensures !nodes[y].Live()
    ensures y != x ==> nodes[y].parent.Some? && nodes[y].parent.value in nodes && !nodes[nodes[y].parent.value].Live()
    decreases rank[y]
  {
    hide AtOrAbove;
    OneMoreGeneration(nodes, y, x);
    if y != x {
      var p := nodes[y].parent.value;
      if p !in nodes { NoAncestryOf(nodes, x, p); }
      NotAboveALive(nodes, x, p, rank);
    }
  }

  lemma RevivedComeBack(nodes: map<Id, Node>, id: Id)
    requires Shaped(nodes) && id in nodes && nodes[id].trash == Some(id)
    ensures forall x :: x in Revived(nodes, id) <==> ComesBack(nodes, id, x)
    ensures Revived(nodes, id) == ComingBack(nodes, id)
  {
    hide AtOrAbove, NamesAreUnique, WellPlaced, Batched, Rooted, TrashedAbove, LiveAbove;
    var rank := SomeRank(nodes);
    var next := nodes[id].parent;
    var above := Elements(TrashedAbove(nodes, next, {}));
    AboveIsClosed(nodes, next);
    forall x ensures x in Revived(nodes, id) <==> ComesBack(nodes, id, x) {
      OneMoreGeneration(nodes, id, x);
      if x in TrashedAbove(nodes, next, {}) { TrashedAboveIsAbove(nodes, next, {}, x); }
      if ComesBack(nodes, id, x) && nodes[x].trash != Some(id) {
        NotAboveALive(nodes, x, id, rank);
        AboveHasAll(nodes, above, next, x, next.value, rank);
      }
    }
  }

  /** What would come back has a place no live row has, and no other row that would come back. */
  ghost predicate PlacesAreFree(nodes: map<Id, Node>, id: Id) {
    forall a, b :: a in nodes && b in nodes && a != b && ComesBack(nodes, id, a) && (ComesBack(nodes, id, b) || nodes[b].Live()) ==> !SamePlace(nodes[a], nodes[b])
  }

  lemma RaisedNamesAreUnique(nodes: map<Id, Node>, id: Id)
    requires Shaped(nodes) && id in nodes && nodes[id].trash == Some(id)
    ensures NamesAreUnique(Raise(nodes, id)) <==> PlacesAreFree(nodes, id)
  {
    hide Forest, WellPlaced, LiveAbove, Batched, Rooted, TrashedAbove, ComesBack, Raise, Revived;
    RevivedComeBack(nodes, id);
    RaiseIsRevive(nodes, id);
    var raised := Raise(nodes, id);
    assert forall x :: x in nodes ==> (raised[x].Live() <==> nodes[x].Live() || ComesBack(nodes, id, x));
    assert forall a, b :: a in nodes && b in nodes ==> (SamePlace(raised[a], raised[b]) <==> SamePlace(nodes[a], nodes[b]));
    hide SamePlace;
  }

  /**
    A restore succeeds exactly when the row heads a batch of the owner's, what would come back finds its
    place free, and the account has room for what that weighs; and what it is refused for otherwise.
   */
  lemma RestoreIsExact(db: Db, owner: Owner, id: Id)
    requires Sound(db)
    ensures var back := ComingBack(db.nodes, id);
            var weight := Weight(db, back);
            match Restore(db, owner, id)
            case Ok(after) =>
              && id in db.nodes && db.nodes[id].owner == owner && db.nodes[id].trash == Some(id) && PlacesAreFree(db.nodes, id)
              && (weight == 0 || (owner in db.quotas && db.quotas[owner].used + weight <= db.quotas[owner].max))
              && LiveAgain(db.nodes, after.nodes, back)
            case Err(e) =>
              if !(id in db.nodes && db.nodes[id].owner == owner && db.nodes[id].trash == Some(id)) then e == NotFound
              else if !PlacesAreFree(db.nodes, id) then e == Conflict
              else e == QuotaExceeded && weight != 0 && (owner in db.quotas ==> db.quotas[owner].used + weight > db.quotas[owner].max)
  {
    hide Sound, TrashedAbove, BatchOf, Revive, Restore, RerootAll, Opened, NamesAreUnique, Weight, MarkedSizes, PlacesAreFree, ComingBack, ComesBack, Differ, Revived, Raise, Shaped, OnlyCharged, LiveAgain;
    if IsRoot(db, owner, id) {
      SoundIsShaped(db);
      RaisedNamesAreUnique(db.nodes, id);
      RevivedComeBack(db.nodes, id);
      RestoredWeight(db, owner, id);
      RestoreRaises(db, owner, id);
      if Restore(db, owner, id).Ok? {
        RestoreKeepsTheLedger(db, owner, id);
        DifferLiveAgain(db.nodes, Restore(db, owner, id).value.nodes, Revived(db.nodes, id));
      }
    } else {
      NoRootNoRestore(db, owner, id);
    }
  }

  lemma NoRootNoRestore(db: Db, owner: Owner, id: Id)
    requires !IsRoot(db, owner, id)
    ensures Restore(db, owner, id) == Err(NotFound)
  {
  }

  lemma RestoreRaises(db: Db, owner: Owner, id: Id)
    requires IsRoot(db, owner, id)
    ensures var above := TrashedAbove(db.nodes, db.nodes[id].parent, {});
            var charge := Charge(db.quotas, owner, Sum(MarkedSizes(db.nodes, Elements(above))) + Weight(db, BatchOf(Revive(db.nodes, Elements(above)), id)));
            && (Restore(db, owner, id).Ok? <==> NamesAreUnique(Raise(db.nodes, id)) && charge.Ok?)
            && (Restore(db, owner, id).Err? ==> Restore(db, owner, id).error == if NamesAreUnique(Raise(db.nodes, id)) then QuotaExceeded else Conflict)
  {
    hide TrashedAbove, BatchOf, Revive, RerootAll, Opened, NamesAreUnique, Weight, MarkedSizes;
  }

  ghost predicate LiveAgain(nodes: map<Id, Node>, after: map<Id, Node>, ids: set<Id>) {
    after.Keys == nodes.Keys && forall x :: x in nodes ==> (after[x].Live() <==> nodes[x].Live() || x in ids)
  }

  lemma DifferLiveAgain(nodes: map<Id, Node>, after: map<Id, Node>, ids: set<Id>)
    requires Differ(after, nodes, ids)
    ensures LiveAgain(nodes, after, ids)
  {
  }

  lemma SoundIsShaped(db: Db)
    requires Sound(db)
    ensures Shaped(db.nodes)
  {
  }

  // ---------- there and back ----------

  lemma SentBatch(nodes: map<Id, Node>, id: Id)
    requires Shaped(nodes) && id in nodes && nodes[id].Live()
    ensures var marked := Under(nodes, LiveIds(nodes), id);
            var buried := Bury(nodes, marked, id);
            && id in marked && BatchOf(buried, id) == marked && TrashedAbove(buried, buried[id].parent, {}) == []
            && Revive(buried, marked) == nodes
  {
    hide Under, NamesAreUnique, Forest, WellPlaced, Rooted;
    var marked := Under(nodes, LiveIds(nodes), id);
    var buried := Bury(nodes, marked, id);
    UnderStep(nodes, LiveIds(nodes), id, id);
    forall x | x in nodes ensures nodes[x].trash != Some(id) { assert InItsBatch(nodes, x); }
    forall x | x in marked ensures x in nodes && nodes[x].Live() { MarkedHolds(nodes, id, x); }
    var rank := SomeRank(nodes);
    if nodes[id].parent.Some? && nodes[id].parent.value in marked {
      RanksAbove(nodes, LiveIds(nodes), id, nodes[id].parent.value, rank);
    }
  }

  /** A query collects nothing ranked above its root. */
  lemma {:induction false} RanksAbove(nodes: map<Id, Node>, within: set<Id>, root: Id, x: Id, rank: map<Id, nat>)
    requires Ranked(nodes, rank) && x in nodes && root in nodes && x in Under(nodes, within, root)
    ensures rank[x] >= rank[root]
    decreases rank[x]
  {
    UnderStep(nodes, within, root, x);
    if x != root {
      UnderIsOfRows(nodes, within, root, nodes[x].parent.value);
      RanksAbove(nodes, within, root, nodes[x].parent.value, rank);
    }
  }

  lemma UnderIsOfRows(nodes: map<Id, Node>, within: set<Id>, root: Id, x: Id)
    requires x in Under(nodes, within, root)
    ensures x in nodes
  {
  }

  /**
    What is sent to the trash and then restored is as it was, to the last count and charge; and it can
    be restored exactly when it weighs nothing or the account was within its quota.
   */
  lemma ThereAndBack(db: Db, id: Id)
    requires Sound(db) && id in db.nodes && db.nodes[id].Live() && Send(db, id).Ok?
    ensures var weight := Weight(db, Under(db.nodes, LiveIds(db.nodes), id));
            var back := Restore(Send(db, id).value, db.nodes[id].owner, id);
            && (back.Ok? <==> weight == 0 || WithinQuota(db, db.nodes[id].owner))
            && (back.Ok? ==> back.value == db)
  {
    hide Forest, WellPlaced, LiveAbove, NamesAreUnique, Batched, Rooted, Schema, Balanced, Weight, Under, Bury, Charge, MarkedSizes, Restore, Send;
    var marked := Under(db.nodes, LiveIds(db.nodes), id);
    var sent := Send(db, id).value;
    var owner := db.nodes[id].owner;
    SendInSteps(db, id);
    SentBatch(db.nodes, id);
    BuriedRoot(db.nodes, marked, id);
    MarkedAll(db, id);
    BuryDiffers(db.nodes, marked, id);
    BuriedWeighsTheSame(db, sent, marked);
    RestoreOfBatch(sent, owner, id, marked, db.nodes);
    ChargeThereAndBack(db.quotas, owner, Weight(db, marked));
  }

  lemma BuriedRoot(nodes: map<Id, Node>, marked: set<Id>, id: Id)
    requires id in marked && id in nodes
    ensures id in Bury(nodes, marked, id) && Bury(nodes, marked, id)[id] == nodes[id].(trash := Some(id))
  {
  }

  lemma BuriedWeighsTheSame(db: Db, sent: Db, ids: set<Id>)
    requires Differ(db.nodes, sent.nodes, ids) && sent.versions == db.versions
    ensures Weight(sent, ids) == Weight(db, ids)
  {
    assert MarkedSizes(db.nodes, ids) == MarkedSizes(sent.nodes, ids);
  }

  lemma RestoreOfBatch(db: Db, owner: Owner, id: Id, batch: set<Id>, nodes: map<Id, Node>)
    requires IsRoot(db, owner, id) && TrashedAbove(db.nodes, db.nodes[id].parent, {}) == [] && BatchOf(db.nodes, id) == batch
    requires Revive(db.nodes, batch) == nodes && NamesAreUnique(nodes)
    ensures var charge := Charge(db.quotas, owner, Weight(db, batch));
            Restore(db, owner, id) == if charge.Ok? then Ok(db.(nodes := nodes, quotas := charge.value)) else Err(charge.error)
  {
    assert Elements([]) == {};
    assert Revive(db.nodes, {}) == db.nodes;
    assert MarkedSizes(db.nodes, {}) == map[];
    hide Weight, TrashedAbove, NamesAreUnique, Charge, BatchOf, Revive, MarkedSizes;
  }

  lemma ChargeThereAndBack(quotas: map<Owner, Quota>, owner: Owner, weight: int)
    requires Charge(quotas, owner, -weight).Ok?
    ensures var back := Charge(Charge(quotas, owner, -weight).value, owner, weight);
            && (back.Ok? <==> weight == 0 || (owner in quotas && quotas[owner].used <= quotas[owner].max))
            && (back.Ok? ==> back.value == quotas)
  {
    var back := Charge(Charge(quotas, owner, -weight).value, owner, weight);
    if back.Ok? { assert back.value == quotas; }
  }

  // ---------- where the survivors are listed ----------

  /** `list`: the roots a trash shows. */
  function Listed(db: Db, owner: Owner): set<Id> { set id | id in db.nodes && IsRoot(db, owner, id) }

  /** Everything in the trash sits under exactly one listed root, along rows of that root's batch. */
  lemma SurvivorsAreListed(db: Db, x: Id)
    requires Sound(db) && x in db.nodes && db.nodes[x].trash.Some?
    ensures exists r :: r in Listed(db, db.nodes[x].owner) && x in Under(db.nodes, BatchOf(db.nodes, r), r)
    ensures forall r: Id :: x in Under(db.nodes, BatchOf(db.nodes, r), r) ==> Some(r) == db.nodes[x].trash
  {
    hide Balanced, Schema;
    var rank := SomeRank(db.nodes);
    var r := db.nodes[x].trash.value;
    assert InItsBatch(db.nodes, x);
    BatchHasOneOwner(db.nodes, x, rank);
    BatchIsUnderItsRoot(db.nodes, x, rank);
    assert r in Listed(db, db.nodes[x].owner);
  }

  lemma {:induction false} BatchIsUnderItsRoot(nodes: map<Id, Node>, x: Id, rank: map<Id, nat>)
    requires Ranked(nodes, rank) && Batched(nodes) && x in nodes && nodes[x].trash.Some?
    ensures x in Under(nodes, BatchOf(nodes, nodes[x].trash.value), nodes[x].trash.value)
    decreases rank[x]
  {
    var r := nodes[x].trash.value;
    assert InItsBatch(nodes, x);
    UnderStep(nodes, BatchOf(nodes, r), r, x);
    if x != r { BatchIsUnderItsRoot(nodes, nodes[x].parent.value, rank); }
  }
}
