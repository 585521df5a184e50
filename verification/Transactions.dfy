/** An open transaction: the tables as it has them, changed in place until it commits or is dropped. */
module Transactions {
  import opened Results
  import opened Sums
  import opened Tables

  type Reply = Result<(), ApiError>

  class Transaction {
    var nodes: map<Id, Node>
    var versions: map<Id, Version>
    var thumbnails: map<(Hash, int), Hash>
    var blobs: map<Hash, Blob>
    var quotas: map<Owner, Quota>
    var next: Id
    const now: int

    constructor (db: Db, next: Id)
      ensures Rows() == db && this.next == next && this.now == db.now
    {
      nodes, versions, thumbnails, blobs, quotas := db.nodes, db.versions, db.thumbnails, db.blobs, db.quotas;
      this.next := next;
      now := db.now;
    }

    /** The tables as they stand. */
    function Rows(): Db
      reads this
    {
      Db(nodes, versions, thumbnails, blobs, quotas, now)
    }

    /** `acquire_blob`. */
    method AcquireBlob(hash: Hash)
      modifies this`blobs
      ensures blobs == Acquire(old(blobs), hash)
    {
      if hash in blobs {
        blobs := blobs[hash := blobs[hash].(refs := blobs[hash].refs + 1, idleSince := None)];
      }
    }

    /** `release_blob`. */
    method ReleaseBlob(hash: Hash)
      modifies this`blobs
      ensures blobs == Release(old(blobs), hash, now)
    {
      if hash in blobs && blobs[hash].refs > 0 {
        var refs := blobs[hash].refs - 1;
        blobs := blobs[hash := blobs[hash].(refs := refs, idleSince := if refs == 0 then Some(now) else None)];
      }
    }

    /** The loops that release one reference after another. */
    method ReleaseBlobs(hashes: seq<Hash>)
      modifies this`blobs
      ensures blobs == ReleaseAll(old(blobs), hashes, now)
    {
      for i := 0 to |hashes|
        invariant ReleaseAll(blobs, hashes[i..], now) == ReleaseAll(old(blobs), hashes, now)
      {
        assert hashes[i..][0] == hashes[i] && hashes[i..][1..] == hashes[i + 1..];
        ReleaseBlob(hashes[i]);
      }
    }

    /** `charge_quota`. */
    method ChargeQuota(owner: Owner, delta: int) returns (r: Reply)
      modifies this`quotas
      ensures match Charge(old(quotas), owner, delta)
              case Ok(charged) => r == Ok(()) && quotas == charged
              case Err(e) => r == Err(e) && quotas == old(quotas)
    {
      if delta == 0 {
        return Ok(());
      }
      if owner in quotas && quotas[owner].used + delta <= quotas[owner].max {
        quotas := quotas[owner := quotas[owner].(used := quotas[owner].used + delta)];
        return Ok(());
      }
      return Err(QuotaExceeded);
    }

    /** A fresh id: later than every one drawn before. */
    method Draw() returns (id: Id)
      modifies this`next
      ensures id == old(next) && next == id + 1
    {
      id := next;
      next := next + 1;
    }
  }

  /** What the rows of a column come to. */
  method Total<K(==)>(column: map<K, int>) returns (total: int)
    ensures total == Sum(column)
  {
    var left := column;
    total := 0;
    while left != map[]
      invariant total + Sum(left) == Sum(column)
      decreases |left|
    {
      var k :| k in left;
      SumWithout(left, k);
      total := total + left[k];
      left := left - {k};
    }
  }
}
