/** The statements of a WebDAV MOVE or COPY (`run` of api/src/dav/transfer.rs), run against the tables in place. */
module DavTransactions {
  import opened Results
  import opened Tables
  import opened Trees
  import opened Ledger
  import opened Files
  import opened Trash
  import opened Moving
  import opened Copying
  import opened Transfer
  import opened Transactions
  import opened TreeTransactions
  import opened TrashTransactions

  /** The occupant, if there is one, makes way; whether there was one is what tells "no content" from "created". */
  method ClearIn(tx: Transaction, source: Id, parent: Id, name: string, overwrite: bool) returns (r: Result<bool, Refusal>)
    requires Shaped(tx.nodes)
    modifies tx`nodes, tx`quotas
    ensures match Clear(old(tx.Rows()), source, parent, name, overwrite)
            case Ok(cleared) => r == Ok(ChildOf(old(tx.nodes), parent, name).Some?) && tx.Rows() == cleared
            case Err(refusal) => r == Err(refusal)
  {
    hide Shaped, Contains, Send, ChildOf;
    ChildIsFound(tx.nodes, parent, name);
    var occupant := ChildOf(tx.nodes, parent, name);
    if occupant.None? { return Ok(false); }
    if !overwrite { return Err(PreconditionFailed); }
    if Contains(tx.nodes, occupant.value, source) { return Err(Forbidden); }
    var sent := SendIn(tx, occupant.value);
    if sent.Err? { return Err(Failed(sent.error)); }
    return Ok(true);
  }

  /** MOVE. */
  method MoveIn(tx: Transaction, source: Id, parent: Id, name: string, overwrite: bool) returns (r: Result<bool, Refusal>)
    requires Shaped(tx.nodes) && source in tx.nodes && parent in tx.nodes
    modifies tx`nodes, tx`quotas
    ensures match Move(old(tx.Rows()), source, parent, name, overwrite)
            case Ok(after) => r == Ok(ChildOf(old(tx.nodes), parent, name).Some?) && tx.Rows() == after
            case Err(refusal) => r == Err(refusal)
  {
    hide Shaped, Rename, ChildOf, Clear;
    if tx.nodes[parent].owner != tx.nodes[source].owner { return Err(AcrossAccounts); }
    if Clear(tx.Rows(), source, parent, name, overwrite).Ok? { ClearKeepsPlaces(tx.Rows(), source, parent, name, overwrite); }
    var cleared := ClearIn(tx, source, parent, name, overwrite);
    if cleared.Err? { return cleared; }
    var renamed := RenameIn(tx, source, parent, name);
    if renamed.Err? { return Err(Failed(renamed.error)); }
    return cleared;
  }

  lemma StillDrawn(db: Db, source: Id, parent: Id, name: string, overwrite: bool, next: Id)
    requires Shaped(db.nodes) && DrawnBefore(db, next) && Clear(db, source, parent, name, overwrite).Ok?
    ensures DrawnBefore(Clear(db, source, parent, name, overwrite).value, next)
  {
    hide Shaped, Under, Weight, Charge;
    ChildIsFound(db.nodes, parent, name);
  }

  /** COPY. */
  method CopyIn(tx: Transaction, source: Id, parent: Id, name: string, overwrite: bool) returns (r: Result<bool, Refusal>, ghost jobs: seq<Job>)
    requires Sound(tx.Rows()) && MayTransfer(tx.Rows(), source, parent) && DrawnBefore(tx.Rows(), tx.next)
    modifies tx
    ensures match Clear(old(tx.Rows()), source, parent, name, overwrite)
            case Err(refusal) => r == Err(refusal)
            case Ok(cleared) =>
              match CopyRefusal(cleared, old(tx.nodes)[parent].owner, source, parent, name)
              case Some(e) => r == Err(Failed(e))
              case None =>
                && r == Ok(ChildOf(old(tx.nodes), parent, name).Some?)
                && IsCopy(cleared, tx.Rows(), old(tx.nodes)[parent].owner, source, parent, name, jobs)
  {
    hide Shaped, Schema, Balanced, ChildOf, Clear, IsCopy, Contains, Copied, CopyRefusal;
    ghost var db := tx.Rows();
    if Clear(db, source, parent, name, overwrite).Ok? {
      ClearHolds(db, source, parent, name, overwrite);
      StillDrawn(db, source, parent, name, overwrite, tx.next);
    }
    var owner := tx.nodes[parent].owner;
    var cleared := ClearIn(tx, source, parent, name, overwrite);
    if cleared.Err? { return Err(cleared.error), []; }
    var copied: Result<Id, ApiError>;
    copied, jobs := CopyTreeIn(tx, owner, source, parent, name);
    if copied.Err? { return Err(Failed(copied.error)), jobs; }
    return cleared, jobs;
  }
}
