/** MOVE and COPY over WebDAV: `run` of api/src/dav/transfer.rs, sections 9.8 and 9.9 of RFC 4918. */
module Transfer {
  import opened Results
  import opened Tables
  import opened Trees
  import opened Ledger
  import opened Files
  import opened Trash
  import opened Moving
  import opened Copying

  datatype Refusal = PreconditionFailed | Forbidden | AcrossAccounts | Failed(error: ApiError)

  /** The occupant goes to the trash first, unless it may not be replaced or holds the source. */
  ghost function Clear(db: Db, source: Id, parent: Id, name: string, overwrite: bool): Result<Db, Refusal>
    requires Shaped(db.nodes)
  {
    match ChildOf(db.nodes, parent, name)
    case None => Ok(db)
    case Some(occupant) =>
      ChildIsFound(db.nodes, parent, name);
      if !overwrite then Err(PreconditionFailed)
      else if Contains(db.nodes, occupant, source) then Err(Forbidden)
      else
        match Send(db, occupant)
        case Ok(cleared) => Ok(cleared)
        case Err(e) => Err(Failed(e))
  }

  ghost function Move(db: Db, source: Id, parent: Id, name: string, overwrite: bool): Result<Db, Refusal>
    requires Shaped(db.nodes) && source in db.nodes && parent in db.nodes
  {
    if db.nodes[parent].owner != db.nodes[source].owner then Err(AcrossAccounts)
    else
      match Clear(db, source, parent, name, overwrite)
      case Err(refusal) => Err(refusal)
      case Ok(cleared) =>
        ClearKeepsPlaces(db, source, parent, name, overwrite);
        match Rename(cleared, source, parent, name)
        case Ok(after) => Ok(after)
        case Err(e) => Err(Failed(e))
  }

  lemma ClearKeepsPlaces(db: Db, source: Id, parent: Id, name: string, overwrite: bool)
    requires Shaped(db.nodes) && Clear(db, source, parent, name, overwrite).Ok?
    ensures var cleared := Clear(db, source, parent, name, overwrite).value;
            cleared.nodes.Keys == db.nodes.Keys && forall x :: x in db.nodes ==> SameButTrash(db.nodes[x], cleared.nodes[x])
  {
    hide Shaped, Under, Weight, Charge;
    ChildIsFound(db.nodes, parent, name);
  }

  /** What is in the way can make way: it may be replaced, does not hold the source, and can be trashed. */
  ghost predicate MakesWay(db: Db, source: Id, parent: Id, name: string, overwrite: bool)
    requires Shaped(db.nodes)
  {
    match ChildOf(db.nodes, parent, name)
    case None => true
    case Some(occupant) =>
      ChildIsFound(db.nodes, parent, name);
      overwrite && !AtOrAbove(db.nodes, occupant, source) && CreditGoesThrough(db, occupant)
  }

  /** Over its quota, an account may be refused a MOVE or COPY with Overwrite for what it would put in the trash. */
  lemma ClearIsExact(db: Db, source: Id, parent: Id, name: string, overwrite: bool)
    requires Sound(db) && source in db.nodes
    ensures Shaped(db.nodes)
    ensures Clear(db, source, parent, name, overwrite).Ok? <==> MakesWay(db, source, parent, name, overwrite)
  {
    hide Forest, WellPlaced, LiveAbove, NamesAreUnique, Batched, Rooted, Schema, Balanced, Under, CreditGoesThrough, Send, AtOrAbove, Contains;
    if ChildOf(db.nodes, parent, name).Some? {
      ChildIsFound(db.nodes, parent, name);
      SendNeedsCredit(db, ChildOf(db.nodes, parent, name).value);
      ContainsIsAtOrAbove(db.nodes, ChildOf(db.nodes, parent, name).value, source);
    }
  }

  // ---------- who is under whom ----------

  /** Two trees that share a node are one inside the other. */
  lemma {:induction false} OneInsideTheOther(nodes: map<Id, Node>, within: set<Id>, a: Id, b: Id, x: Id, rank: map<Id, nat>)
    requires Ranked(nodes, rank) && within <= nodes.Keys && x in Under(nodes, within, a) && x in Under(nodes, within, b)
    ensures a in Under(nodes, within, b) || b in Under(nodes, within, a)
    decreases rank[x]
  {
    UnderStep(nodes, within, a, x);
    UnderStep(nodes, within, b, x);
    if x != a && x != b { OneInsideTheOther(nodes, within, a, b, nodes[x].parent.value, rank); }
  }

  /** What is sent to the trash to make way is neither the source, nor the directory it goes to, nor anything of the source's. */
  lemma OccupantIsApart(nodes: map<Id, Node>, source: Id, parent: Id, occupant: Id)
    requires Shaped(nodes) && source in nodes && parent in nodes && occupant in nodes && nodes[occupant].parent == Some(parent)
    requires !Contains(nodes, occupant, source)
    ensures parent !in Copied(nodes, occupant) && source !in Copied(nodes, occupant)
    ensures !Contains(nodes, source, parent) ==> Copied(nodes, source) !! Copied(nodes, occupant)
  {
    hide Leads, LiveAbove, Batched, NamesAreUnique, WellPlaced;
    var rank := SomeRank(nodes);
    var live := LiveIds(nodes);
    if parent in Under(nodes, live, occupant) { RanksAbove(nodes, live, occupant, parent, rank); }
    if source in Under(nodes, live, occupant) { UnderIsContained(nodes, live, occupant, source, rank); }
    if !Contains(nodes, source, parent) {
      forall x | x in Under(nodes, live, source) && x in Under(nodes, live, occupant) ensures false {
        OneInsideTheOther(nodes, live, source, occupant, x, rank);
        OccupantNotWithin(nodes, source, parent, occupant, rank);
      }
    }
  }

  lemma OccupantNotWithin(nodes: map<Id, Node>, source: Id, parent: Id, occupant: Id, rank: map<Id, nat>)
    requires Ranked(nodes, rank) && occupant in nodes && nodes[occupant].parent == Some(parent)
    requires !Contains(nodes, occupant, source) && !Contains(nodes, source, parent)
    ensures occupant !in Under(nodes, LiveIds(nodes), source) || source in Under(nodes, LiveIds(nodes), occupant)
  {
    hide Leads;
    var live := LiveIds(nodes);
    if occupant in Under(nodes, live, source) {
      UnderStep(nodes, live, source, occupant);
      UnderStep(nodes, live, occupant, occupant);
      if occupant != source { UnderIsContained(nodes, live, source, parent, rank); }
    }
  }

  // ---------- what a transfer keeps ----------

  /** `after` is `db` with the tree at `occupant`, if there is one, in the trash. */
  ghost predicate ClearedOf(db: Db, after: Db, occupant: Option<Id>) {
    && after.nodes.Keys == db.nodes.Keys
    && forall x :: x in db.nodes && (occupant.None? || x !in Copied(db.nodes, occupant.value)) ==> after.nodes[x] == db.nodes[x]
  }

  /** The source, the directory it goes to and the name there, once the way is clear. */
  ghost predicate WayIsClear(db: Db, cleared: Db, source: Id, parent: Id, name: string)
    requires source in db.nodes && parent in db.nodes
  {
    && cleared.nodes.Keys == db.nodes.Keys
    && cleared.nodes[source] == db.nodes[source] && Writable(cleared, db.nodes[parent].owner, parent)
    && ChildOf(cleared.nodes, parent, name).None?
    && (!Contains(db.nodes, source, parent) ==> forall x :: x in Copied(db.nodes, source) ==> x in db.nodes && cleared.nodes[x] == db.nodes[x])
  }

  ghost predicate MayTransfer(db: Db, source: Id, parent: Id) {
    source in db.nodes && db.nodes[source].Live() && parent in db.nodes && Writable(db, db.nodes[parent].owner, parent)
  }

  lemma ClearHolds(db: Db, source: Id, parent: Id, name: string, overwrite: bool)
    requires Sound(db) && MayTransfer(db, source, parent)
    requires Clear(db, source, parent, name, overwrite).Ok?
    ensures var cleared := Clear(db, source, parent, name, overwrite).value;
            Sound(cleared) && ClearedOf(db, cleared, ChildOf(db.nodes, parent, name)) && WayIsClear(db, cleared, source, parent, name)
  {
    hide Sound, Contains, Send, ChildOf, WayIsClear, ClearedOf;
    ChildIsFound(db.nodes, parent, name);
    if ChildOf(db.nodes, parent, name).Some? {
      OccupantCleared(db, source, parent, name, ChildOf(db.nodes, parent, name).value);
    } else {
      NobodyCleared(db, source, parent, name);
    }
  }

  lemma NobodyCleared(db: Db, source: Id, parent: Id, name: string)
    requires MayTransfer(db, source, parent) && ChildOf(db.nodes, parent, name).None?
    ensures ClearedOf(db, db, None) && WayIsClear(db, db, source, parent, name)
  {
    hide ChildOf, Contains, Leads;
  }

  lemma BuryLeavesTheRest(nodes: map<Id, Node>, ids: set<Id>, root: Id)
    ensures forall x :: x in nodes && x !in ids ==> Bury(nodes, ids, root)[x] == nodes[x]
    ensures Bury(nodes, ids, root).Keys == nodes.Keys
  {
  }

  lemma OccupantCleared(db: Db, source: Id, parent: Id, name: string, occupant: Id)
    requires Sound(db) && MayTransfer(db, source, parent) && ChildOf(db.nodes, parent, name) == Some(occupant)
    requires occupant in db.nodes && db.nodes[occupant].parent == Some(parent) && !Contains(db.nodes, occupant, source)
    requires Send(db, occupant).Ok?
    ensures var cleared := Send(db, occupant).value;
            Sound(cleared) && ClearedOf(db, cleared, Some(occupant)) && WayIsClear(db, cleared, source, parent, name)
  {
    hide Shaped, Schema, Balanced, Contains, Send, ChildOf, Under, Bury, Charge, Weight;
    SendKeepsTheLedger(db, occupant);
    SendInSteps(db, occupant);
    OccupantIsApart(db.nodes, source, parent, occupant);
    BuryLeavesTheRest(db.nodes, Under(db.nodes, LiveIds(db.nodes), occupant), occupant);
    NameIsFreed(db, parent, name, occupant, Send(db, occupant).value);
    CopiedAreRows(db.nodes, source);
  }

  lemma NameIsFreed(db: Db, parent: Id, name: string, occupant: Id, after: Db)
    requires Sound(db) && ChildOf(db.nodes, parent, name) == Some(occupant)
    requires after.nodes == Bury(db.nodes, Under(db.nodes, LiveIds(db.nodes), occupant), occupant)
    ensures ChildOf(after.nodes, parent, name).None?
  {
    ChildIsFound(db.nodes, parent, name);
    UnderStep(db.nodes, LiveIds(db.nodes), occupant, occupant);
    hide Forest, Batched, LiveAbove, WellPlaced, Balanced, Schema, Under;
    ChildIsFound(after.nodes, parent, name);
  }

  /** The source's tree as it was but for its root, and nothing changed but the source and what made way for it. */
  ghost predicate Spared(db: Db, after: Db, source: Id, parent: Id, name: string)
    requires source in db.nodes
  {
    && after.nodes.Keys == db.nodes.Keys
    && after.nodes[source] == db.nodes[source].(parent := Some(parent), name := name)
    && (forall x :: x in Copied(db.nodes, source) && x != source ==> x in db.nodes && after.nodes[x] == db.nodes[x])
    && ClearedOf(db, after.(nodes := after.nodes[source := db.nodes[source]]), ChildOf(db.nodes, parent, name))
  }

  /**
    A move that succeeds has the source, live, where it was sent, and every other node of its tree as it
    was; only the occupant's tree went to the trash.
   */
  lemma MoveSparesItsSource(db: Db, source: Id, parent: Id, name: string, overwrite: bool)
    requires Sound(db) && MayTransfer(db, source, parent)
    requires Move(db, source, parent, name, overwrite).Ok?
    ensures var after := Move(db, source, parent, name, overwrite).value;
            Sound(after) && Spared(db, after, source, parent, name) && ChildOf(after.nodes, parent, name) == Some(source)
  {
    hide Shaped, Schema, Balanced, Clear, ChildOf, Copied, Contains, Rename;
    ClearHolds(db, source, parent, name, overwrite);
    ClearKeepsPlaces(db, source, parent, name, overwrite);
    var cleared := Clear(db, source, parent, name, overwrite).value;
    RenameKeepsTheLedger(cleared, source, parent, name);
    RenameIs(cleared, source, parent, name);
    NotIntoItself(db, cleared, source, parent, name);
  }

  /** Whether a node sits under another does not depend on what is in the trash. */
  lemma {:induction false} TrashIsNoMatter(a: map<Id, Node>, b: map<Id, Node>, x: Id, root: Id, trail: set<Id>)
    requires a.Keys == b.Keys && forall id :: id in a ==> SameButTrash(a[id], b[id])
    ensures Leads(a, a.Keys, x, root, trail) <==> Leads(b, b.Keys, x, root, trail)
    decreases a.Keys - trail
  {
    if x in a && x !in trail && x != root && a[x].parent.Some? { TrashIsNoMatter(a, b, a[x].parent.value, root, trail + {x}); }
  }

  lemma NotIntoItself(db: Db, cleared: Db, source: Id, parent: Id, name: string)
    requires Sound(db) && source in db.nodes && parent in db.nodes && db.nodes[parent].kind.Directory?
    requires cleared.nodes.Keys == db.nodes.Keys && Rename(cleared, source, parent, name).Ok?
    requires forall x :: x in db.nodes ==> SameButTrash(db.nodes[x], cleared.nodes[x])
    ensures !Contains(db.nodes, source, parent)
  {
    hide Leads, Schema, Balanced, LiveAbove, Batched, NamesAreUnique, ChildOf;
    TrashIsNoMatter(db.nodes, cleared.nodes, parent, source, {});
    if db.nodes[source].kind.File? && Contains(db.nodes, source, parent) {
      var rank := SomeRank(db.nodes);
      NothingUnderAFile(db.nodes, db.nodes.Keys, source, parent, rank);
    }
  }

  /**
    A MOVE succeeds exactly when it stays in one account, what has the name makes way, and the source is
    not the directory it goes to or above it; and what it is refused for otherwise.
   */
  lemma MoveIsExact(db: Db, source: Id, parent: Id, name: string, overwrite: bool)
    requires Sound(db) && MayTransfer(db, source, parent)
    ensures Shaped(db.nodes)
    ensures match Move(db, source, parent, name, overwrite)
            case Ok(_) =>
              db.nodes[source].owner == db.nodes[parent].owner && MakesWay(db, source, parent, name, overwrite) && !AtOrAbove(db.nodes, source, parent)
            case Err(refusal) =>
              if db.nodes[source].owner != db.nodes[parent].owner then refusal == AcrossAccounts
              else if !MakesWay(db, source, parent, name, overwrite) then WhyNot(db, source, parent, name, overwrite, refusal)
              else AtOrAbove(db.nodes, source, parent) && refusal == Failed(MoveIntoSelf)
  {
    hide Schema, Balanced, Forest, WellPlaced, LiveAbove, NamesAreUnique, Batched, Rooted, Clear, Contains, Rename, AtOrAbove, MakesWay, Copied, CreditGoesThrough;
    ClearIsExact(db, source, parent, name, overwrite);
    var cleared := Clear(db, source, parent, name, overwrite);
    if cleared.Ok? {
      ClearHolds(db, source, parent, name, overwrite);
      ClearKeepsPlaces(db, source, parent, name, overwrite);
      RenameIsExact(cleared.value, source, parent, name);
      ChildMeansTaken(cleared.value.nodes, parent, name);
      SameAncestry(db.nodes, cleared.value.nodes, source, parent);
    } else {
      ClearRefuses(db, source, parent, name, overwrite);
    }
  }

  /** Why what has the name does not make way. */
  ghost predicate WhyNot(db: Db, source: Id, parent: Id, name: string, overwrite: bool, refusal: Refusal) {
    ChildOf(db.nodes, parent, name).Some? &&
    if !overwrite then refusal == PreconditionFailed
    else if AtOrAbove(db.nodes, ChildOf(db.nodes, parent, name).value, source) then refusal == Forbidden
    else refusal == Failed(QuotaExceeded)
  }

  lemma ClearRefuses(db: Db, source: Id, parent: Id, name: string, overwrite: bool)
    requires Sound(db) && source in db.nodes && Clear(db, source, parent, name, overwrite).Err?
    ensures WhyNot(db, source, parent, name, overwrite, Clear(db, source, parent, name, overwrite).error)
  {
    hide Forest, WellPlaced, LiveAbove, NamesAreUnique, Batched, Rooted, Schema, Balanced, Under, AtOrAbove, Contains, Weight, ChildOf;
    ChildIsFound(db.nodes, parent, name);
    if ChildOf(db.nodes, parent, name).Some? { ContainsIsAtOrAbove(db.nodes, ChildOf(db.nodes, parent, name).value, source); }
  }

  lemma SameAncestry(a: map<Id, Node>, b: map<Id, Node>, above: Id, id: Id)
    requires a.Keys == b.Keys && forall x :: x in a ==> SameButTrash(a[x], b[x])
    ensures AtOrAbove(a, above, id) <==> AtOrAbove(b, above, id)
  {
    if chain :| Ancestry(a, chain, id, above) { assert Ancestry(b, chain, id, above); }
    if chain :| Ancestry(b, chain, id, above) { assert Ancestry(a, chain, id, above); }
  }

  /** A copy that succeeds leaves every node of its source's tree, live, as it was, and copies that whole tree. */
  lemma CopySparesItsSource(db: Db, source: Id, parent: Id, name: string, overwrite: bool, after: Db, jobs: seq<Job>)
    requires Sound(db) && MayTransfer(db, source, parent)
    requires Clear(db, source, parent, name, overwrite).Ok? && !Contains(db.nodes, source, parent)
    requires IsCopy(Clear(db, source, parent, name, overwrite).value, after, db.nodes[parent].owner, source, parent, name, jobs)
    ensures Sound(after)
    ensures forall x :: x in Copied(db.nodes, source) ==> x in after.nodes && after.nodes[x] == db.nodes[x]
    ensures jobs != [] && Isomorphic(Clear(db, source, parent, name, overwrite).value.nodes, after.nodes, source, jobs[0].copy, Origins(jobs))
    ensures ChildOf(after.nodes, parent, name) == Some(jobs[0].copy)
  {
    hide Shaped, Schema, Balanced, Clear, ChildOf, Copied, Leads, IsCopy, Isomorphic;
    ClearHolds(db, source, parent, name, overwrite);
    ClearKeepsPlaces(db, source, parent, name, overwrite);
    var cleared := Clear(db, source, parent, name, overwrite).value;
    var owner := db.nodes[parent].owner;
    TrashIsNoMatter(db.nodes, cleared.nodes, parent, source, {});
    CopyKeepsTheLedger(cleared, after, owner, source, parent, name, jobs);
    CopyIsIsomorphic(cleared, after, owner, source, parent, name, jobs);
    CopiedAreRows(db.nodes, source);
    CopyKeepsTheRows(cleared, after, owner, source, parent, name, jobs);
  }

  lemma CopyKeepsTheRows(db: Db, after: Db, owner: Owner, source: Id, parent: Id, name: string, jobs: seq<Job>)
    requires Sound(db) && MayCopyTo(db, owner, source, parent, name) && IsCopy(db, after, owner, source, parent, name, jobs)
    ensures forall x :: x in db.nodes ==> x in after.nodes && after.nodes[x] == db.nodes[x]
  {
    hide Sound, MayCopyTo, JobsFollow, Charge;
    JobsKeepTheLedger(db, owner, source, parent, name, jobs);
  }

  lemma CopiedAreRows(nodes: map<Id, Node>, source: Id)
    ensures forall x :: x in Copied(nodes, source) ==> x in nodes
  {
  }
}
