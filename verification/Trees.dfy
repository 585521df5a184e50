/**
  The tree of nodes, live and in the trash: what the recursive queries of api/src/db.rs and
  api/src/trash.rs collect, and the shape every transaction keeps.
 */
module Trees {
  import opened Results
  import opened Tables

  // ---------- what a recursive query collects ----------

  /**
    Whether the rows `within` lead up from `id` to `root`, each row being the child of the next. The
    queries stop at a row they have already met.
   */
  predicate Leads(nodes: map<Id, Node>, within: set<Id>, id: Id, root: Id, trail: set<Id>)
    decreases within - trail
  {
    && id in within && id in nodes && id !in trail
    && (id == root || (nodes[id].parent.Some? && Leads(nodes, within, nodes[id].parent.value, root, trail + {id})))
  }

  /** What a query that starts at `root` and joins children among the rows `within` collects. */
  function Under(nodes: map<Id, Node>, within: set<Id>, root: Id): (under: set<Id>)
    ensures under <= within
  {
    set id | id in within && Leads(nodes, within, id, root, {})
  }

  function LiveIds(nodes: map<Id, Node>): set<Id> { set id | id in nodes && nodes[id].Live() }

  /** `contains`: whether `ancestor` is `node` itself or sits above it. */
  predicate Contains(nodes: map<Id, Node>, ancestor: Id, node: Id) {
    Leads(nodes, nodes.Keys, node, ancestor, {})
  }

  // ---------- the shape of the tree ----------

  ghost predicate Ranked(nodes: map<Id, Node>, rank: map<Id, nat>) {
    && rank.Keys == nodes.Keys
    && forall id :: id in nodes && nodes[id].parent.Some? && nodes[id].parent.value in nodes ==> rank[nodes[id].parent.value] < rank[id]
  }

  /** No node sits above itself. */
  ghost predicate Forest(nodes: map<Id, Node>) { exists rank :: Ranked(nodes, rank) }

  lemma SomeRank(nodes: map<Id, Node>) returns (rank: map<Id, nat>)
    requires Forest(nodes)
    ensures Ranked(nodes, rank)
  {
    rank :| Ranked(nodes, rank);
  }

  ghost predicate WellPlaced(nodes: map<Id, Node>) {
    forall id :: id in nodes && nodes[id].parent.Some? ==>
      var p := nodes[id].parent.value;
      p in nodes && nodes[p].kind.Directory? && nodes[p].owner == nodes[id].owner
  }

  /** A root is a directory, and is not in the trash. */
  ghost predicate Rooted(nodes: map<Id, Node>) {
    forall id :: id in nodes && nodes[id].parent.None? ==> nodes[id].kind.Directory? && nodes[id].Live()
  }

  /** A live node has only live nodes above it. */
  ghost predicate LiveAbove(nodes: map<Id, Node>) {
    forall id :: id in nodes && nodes[id].Live() && nodes[id].parent.Some? && nodes[id].parent.value in nodes ==>
      nodes[nodes[id].parent.value].Live()
  }

  ghost predicate InItsBatch(nodes: map<Id, Node>, id: Id)
    requires id in nodes
  {
    nodes[id].trash.Some? ==>
      var root := nodes[id].trash.value;
      && root in nodes && nodes[root].trash == Some(root)
      && (id != root ==> nodes[id].parent.Some? && nodes[id].parent.value in nodes && nodes[nodes[id].parent.value].trash == Some(root))
  }

  /** Each batch of the trash is a connected part of the tree, and the node at its top is its own root. */
  ghost predicate Batched(nodes: map<Id, Node>) {
    forall id :: id in nodes ==> InItsBatch(nodes, id)
  }

  predicate SamePlace(a: Node, b: Node) {
    a.parent == b.parent && (if a.parent.None? then a.owner == b.owner else a.name == b.name)
  }

  /** The two unique indexes: one live name to a directory, one live root to an owner. */
  predicate NamesAreUnique(nodes: map<Id, Node>) {
    forall a, b :: a in nodes && b in nodes && nodes[a].Live() && nodes[b].Live() && SamePlace(nodes[a], nodes[b]) ==> a == b
  }

  ghost predicate Shaped(nodes: map<Id, Node>) {
    Forest(nodes) && WellPlaced(nodes) && LiveAbove(nodes) && Batched(nodes) && NamesAreUnique(nodes) && Rooted(nodes)
  }

  // ---------- the queries in a forest ----------

  ghost predicate Below(rank: map<Id, nat>, trail: set<Id>, id: Id) {
    id in rank && forall t :: t in trail ==> t in rank && rank[t] > rank[id]
  }

  /** In a forest the rows a query has met are never met again. */
  lemma {:induction false} TrailIsNoBar(nodes: map<Id, Node>, rank: map<Id, nat>, within: set<Id>, id: Id, root: Id, trail: set<Id>)
    requires Ranked(nodes, rank) && Below(rank, trail, id)
    ensures Leads(nodes, within, id, root, trail) <==> Leads(nodes, within, id, root, {})
    decreases rank[id]
  {
    if id in within && id in nodes && id != root && nodes[id].parent.Some? && nodes[id].parent.value in nodes {
      var p := nodes[id].parent.value;
      TrailIsNoBar(nodes, rank, within, p, root, trail + {id});
      TrailIsNoBar(nodes, rank, within, p, root, {id});
      assert {} + {id} == {id};
    }
  }

  // ---------- the same by chains of parents ----------

  /** Each id of the chain is the parent of the one before. */
  ghost predicate Ancestry(nodes: map<Id, Node>, chain: seq<Id>, from: Id, to: Id) {
    && chain != [] && chain[0] == from && chain[|chain| - 1] == to
    && (forall i :: 0 <= i < |chain| ==> chain[i] in nodes)
    && (forall i :: 0 <= i < |chain| - 1 ==> nodes[chain[i]].parent == Some(chain[i + 1]))
  }

  /** Whether a node is the other, or somewhere above it. */
  ghost predicate AtOrAbove(nodes: map<Id, Node>, above: Id, id: Id) { exists chain :: Ancestry(nodes, chain, id, above) }

  lemma OneMoreGeneration(nodes: map<Id, Node>, id: Id, above: Id)
    requires id in nodes
    ensures AtOrAbove(nodes, above, id) <==> id == above || (nodes[id].parent.Some? && AtOrAbove(nodes, above, nodes[id].parent.value))
  {
    if id == above { assert Ancestry(nodes, [id], id, above); }
    if chain :| Ancestry(nodes, chain, id, above) {
      if id != above {
        assert chain[1..][0] == chain[1];
        assert Ancestry(nodes, chain[1..], nodes[id].parent.value, above);
      }
    }
    if nodes[id].parent.Some? && AtOrAbove(nodes, above, nodes[id].parent.value) {
      var chain :| Ancestry(nodes, chain, nodes[id].parent.value, above);
      assert Ancestry(nodes, [id] + chain, id, above);
    }
  }

  lemma {:induction false} ContainsByRank(nodes: map<Id, Node>, above: Id, id: Id, rank: map<Id, nat>)
    requires Ranked(nodes, rank)
    ensures Contains(nodes, above, id) <==> id in nodes && AtOrAbove(nodes, above, id)
    decreases if id in rank then rank[id] else 0
  {
    if id in nodes {
      UnderAnswers(nodes, above, id);
      RankedForest(nodes, rank);
      UnderStep(nodes, nodes.Keys, above, id);
      hide Leads;
      OneMoreGeneration(nodes, id, above);
      if id != above && nodes[id].parent.Some? {
        var p := nodes[id].parent.value;
        UnderAnswers(nodes, above, p);
        if p in nodes { ContainsByRank(nodes, above, p, rank); }
        else { NoAncestryOf(nodes, above, p); }
      }
    }
  }

  lemma RankedForest(nodes: map<Id, Node>, rank: map<Id, nat>)
    requires Ranked(nodes, rank)
    ensures Forest(nodes)
  {
  }

  lemma UnderAnswers(nodes: map<Id, Node>, above: Id, id: Id)
    ensures id in Under(nodes, nodes.Keys, above) <==> Contains(nodes, above, id)
  {
  }

  lemma NoAncestryOf(nodes: map<Id, Node>, above: Id, id: Id)
    requires id !in nodes
    ensures !AtOrAbove(nodes, above, id)
  {
  }

  /** `contains` answers what it is asked. */
  lemma ContainsIsAtOrAbove(nodes: map<Id, Node>, above: Id, id: Id)
    requires Forest(nodes) && id in nodes
    ensures Contains(nodes, above, id) <==> AtOrAbove(nodes, above, id)
  {
    hide Leads;
    var rank := SomeRank(nodes);
    ContainsByRank(nodes, above, id, rank);
  }

  /** A query collects its root and then exactly the children of what it has collected. */
  lemma UnderStep(nodes: map<Id, Node>, within: set<Id>, root: Id, id: Id)
    requires Forest(nodes) && id in within && id in nodes
    ensures id in Under(nodes, within, root) <==>
            id == root || (nodes[id].parent.Some? && nodes[id].parent.value in Under(nodes, within, root))
  {
    var rank :| Ranked(nodes, rank);
    if id != root && nodes[id].parent.Some? {
      assert {} + {id} == {id};
      var p := nodes[id].parent.value;
      if p in nodes { TrailIsNoBar(nodes, rank, within, p, root, {id}); } else { assert !Leads(nodes, within, p, root, {id}); }
    }
  }

  /** A set that holds its root and, of the other rows, exactly the children of what it holds is what the query collects. */
  lemma {:induction false} UnderIsTheOnlyOne(nodes: map<Id, Node>, within: set<Id>, root: Id, s: set<Id>, id: Id, rank: map<Id, nat>)
    requires Ranked(nodes, rank) && within <= nodes.Keys && s <= within
    requires forall x :: x in within ==> (x in s <==> x == root || (nodes[x].parent.Some? && nodes[x].parent.value in s))
    requires id in within
    ensures id in s <==> id in Under(nodes, within, root)
    decreases rank[id]
  {
    UnderStep(nodes, within, root, id);
    if id != root && nodes[id].parent.Some? && nodes[id].parent.value in within {
      UnderIsTheOnlyOne(nodes, within, root, s, nodes[id].parent.value, rank);
    }
  }

  lemma {:induction false} UnderIsContained(nodes: map<Id, Node>, within: set<Id>, root: Id, x: Id, rank: map<Id, nat>)
    requires Ranked(nodes, rank) && within <= nodes.Keys && x in Under(nodes, within, root)
    ensures Contains(nodes, root, x)
    decreases rank[x]
  {
    UnderStep(nodes, within, root, x);
    UnderStep(nodes, nodes.Keys, root, x);
    if x != root { UnderIsContained(nodes, within, root, nodes[x].parent.value, rank); }
  }

  /** What a query among live nodes collects is what is live at or below its root. */
  lemma {:induction false} LiveUnder(nodes: map<Id, Node>, root: Id, x: Id, rank: map<Id, nat>)
    requires Ranked(nodes, rank) && WellPlaced(nodes) && LiveAbove(nodes) && x in nodes && nodes[x].Live()
    ensures x in Under(nodes, LiveIds(nodes), root) <==> AtOrAbove(nodes, root, x)
    decreases rank[x]
  {
    hide AtOrAbove, Under, Ranked;
    UnderStepRanked(nodes, LiveIds(nodes), root, x, rank);
    OneMoreGeneration(nodes, x, root);
    if x != root && nodes[x].parent.Some? {
      RankFalls(nodes, x, rank);
      LiveUnder(nodes, root, nodes[x].parent.value, rank);
    }
  }

  lemma RankFalls(nodes: map<Id, Node>, x: Id, rank: map<Id, nat>)
    requires Ranked(nodes, rank) && x in nodes && nodes[x].parent.Some? && nodes[x].parent.value in nodes
    ensures nodes[x].parent.value in rank && x in rank && rank[nodes[x].parent.value] < rank[x]
  {
  }

  lemma UnderStepRanked(nodes: map<Id, Node>, within: set<Id>, root: Id, id: Id, rank: map<Id, nat>)
    requires Ranked(nodes, rank) && id in within && id in nodes
    ensures id in Under(nodes, within, root) <==> id == root || (nodes[id].parent.Some? && nodes[id].parent.value in Under(nodes, within, root))
  {
    hide Under;
    RankedForest(nodes, rank);
    UnderStep(nodes, within, root, id);
  }

  /** Whoever sits under a node has that node's owner. */
  lemma {:induction false} OneOwnerUnder(nodes: map<Id, Node>, within: set<Id>, root: Id, id: Id, rank: map<Id, nat>)
    requires Ranked(nodes, rank) && WellPlaced(nodes) && id in Under(nodes, within, root) && id in nodes && root in nodes
    ensures nodes[id].owner == nodes[root].owner
    decreases rank[id]
  {
    UnderStep(nodes, within, root, id);
    if id != root { OneOwnerUnder(nodes, within, root, nodes[id].parent.value, rank); }
  }

  // ---------- changes that keep the shape ----------

  predicate SameSpot(a: Node, b: Node) {
    a.owner == b.owner && a.parent == b.parent && a.name == b.name && a.kind == b.kind && a.trash == b.trash
  }

  /** What a node holds does not matter to the shape. */
  lemma ContentIsNoMatter(a: map<Id, Node>, b: map<Id, Node>)
    requires Shaped(a) && a.Keys == b.Keys && forall id :: id in a ==> SameSpot(a[id], b[id])
    ensures Shaped(b)
  {
    var rank :| Ranked(a, rank);
    assert Ranked(b, rank);
    forall id | id in b ensures InItsBatch(b, id) { assert InItsBatch(a, id); }
  }

  predicate NameIsFree(nodes: map<Id, Node>, n: Node) {
    forall id :: id in nodes && nodes[id].Live() ==> !SamePlace(nodes[id], n)
  }

  predicate HasRoomFor(nodes: map<Id, Node>, n: Node) {
    && n.Live() && NameIsFree(nodes, n) && (n.parent.None? ==> n.kind.Directory?)
    && (n.parent.Some? ==>
          (n.parent.value in nodes && nodes[n.parent.value].kind.Directory? && nodes[n.parent.value].Live() && nodes[n.parent.value].owner == n.owner))
  }

  lemma LeafKeepsTheForest(nodes: map<Id, Node>, id: Id, n: Node)
    requires Forest(nodes) && WellPlaced(nodes) && id !in nodes && (n.parent.Some? ==> n.parent.value in nodes)
    ensures Forest(nodes[id := n])
  {
    var rank :| Ranked(nodes, rank);
    assert Ranked(nodes[id := n], rank[id := if n.parent.Some? then rank[n.parent.value] + 1 else 0]);
  }

  lemma LeafKeepsTheShape(nodes: map<Id, Node>, id: Id, n: Node)
    requires Shaped(nodes) && id !in nodes && HasRoomFor(nodes, n)
    ensures Shaped(nodes[id := n])
  {
    LeafKeepsTheForest(nodes, id, n);
    var after := nodes[id := n];
    hide Forest;
    assert WellPlaced(after) && LiveAbove(after);
    assert NamesAreUnique(after);
    forall x | x in after ensures InItsBatch(after, x) {
      if x != id { assert InItsBatch(nodes, x); }
    }
  }

  predicate MayMoveTo(nodes: map<Id, Node>, id: Id, parent: Id, name: string) {
    && id in nodes && parent in nodes
    && nodes[parent].kind.Directory? && nodes[parent].Live() && nodes[id].Live()
    && nodes[parent].owner == nodes[id].owner
    && !Contains(nodes, id, parent)
    && NameIsFree(nodes, nodes[id].(parent := Some(parent), name := name))
  }

  /** Moving a node anywhere but under itself keeps the forest. */
  lemma MoveKeepsTheForest(nodes: map<Id, Node>, id: Id, parent: Id, name: string)
    requires Forest(nodes) && id in nodes && parent in nodes && !Contains(nodes, id, parent)
    ensures Forest(nodes[id := nodes[id].(parent := Some(parent), name := name)])
  {
    var rank :| Ranked(nodes, rank);
    var after := nodes[id := nodes[id].(parent := Some(parent), name := name)];
    var below := Under(nodes, nodes.Keys, id);
    var raised := map x | x in nodes :: if x in below then rank[x] + rank[parent] + 1 else rank[x];
    forall x | x in after && after[x].parent.Some? && after[x].parent.value in after ensures raised[after[x].parent.value] < raised[x] {
      UnderStep(nodes, nodes.Keys, id, x);
    }
    assert Ranked(after, raised);
  }

  lemma MoveKeepsTheShape(nodes: map<Id, Node>, id: Id, parent: Id, name: string)
    requires Shaped(nodes) && MayMoveTo(nodes, id, parent, name)
    ensures Shaped(nodes[id := nodes[id].(parent := Some(parent), name := name)])
  {
    MoveKeepsTheForest(nodes, id, parent, name);
    var after := nodes[id := nodes[id].(parent := Some(parent), name := name)];
    forall x | x in after ensures InItsBatch(after, x) { assert InItsBatch(nodes, x); }
  }
}
