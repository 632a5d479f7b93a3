/** The database and the object store as the service calls them. Any call may fail, with or
    without having taken effect, and the process may stop after any call. */
module Store {
  import opened AvatarTables
  import opened BlobWorld

  datatype Reply = Done | Failed(applied: bool) | Stopped(applied: bool) {
    predicate Applied() {
      Done? || applied
    }
  }

  class Store {
    const databaseFaults: bool
    const storageFaults: bool
    const stops: bool
    var db: Tables
    var blobs: map<BlobId, Blob>
    var objects: map<string, Time>
    var now: Time

    function W(): World
      reads this
    {
      World(db, blobs, objects)
    }

    predicate Dependable() {
      !databaseFaults && !storageFaults && !stops
    }

    constructor (databaseFaults: bool, storageFaults: bool, stops: bool)
      ensures Inv(W()) && W() == World(Tables(map[], map[]), map[], map[])
      ensures this.databaseFaults == databaseFaults && this.storageFaults == storageFaults && this.stops == stops
    {
      this.databaseFaults, this.storageFaults, this.stops := databaseFaults, storageFaults, stops;
      db, blobs, objects, now := Tables(map[], map[]), map[], map[], 0;
    }

    method Answer(faults: bool) returns (r: Reply)
      ensures !faults && !stops ==> r.Done?
      ensures !faults ==> !r.Failed?
      ensures !stops ==> !r.Stopped?
    {
      r := *;
      match r {
        case Done =>
        case Failed(_) => if !faults { r := Done; }
        case Stopped(_) => if !stops { r := Done; }
      }
    }

    /** Time passes between operations, up to some latest time. */
    method Tick(latest: Time)
      requires now <= latest
      modifies `now
      ensures old(now) <= now <= latest
    {
      var later :| now <= later <= latest;
      now := later;
    }

    // ----- Blobs -----

    /** The row with this digest, or a new one that is still uploading. */
    method GetOrCreate(digest: Digest) returns (r: Reply, b: BlobId, row: Blob)
      requires Inv(W())
      modifies `blobs
      ensures Inv(W())
      ensures r.Applied() ==> b in blobs && row == blobs[b] && row.digest == digest
      ensures forall other :: other in old(blobs) ==> other in blobs && blobs[other] == old(blobs)[other]
      ensures forall other :: other in blobs && other !in old(blobs) ==> r.Applied() && other == b && row.status.BlobUploading?
      ensures !databaseFaults && !stops ==> r.Done?
      ensures !stops ==> !r.Stopped?
    {
      r := Answer(databaseFaults);
      b, row := 0, Blob(digest, KeyOf(digest), BlobUploading, now, now);
      if r.Applied() {
        if existing :| existing in blobs && blobs[existing].digest == digest {
          b, row := existing, blobs[existing];
        } else {
          b := Fresh(blobs.Keys);
          NewBlobKeepsInv(W(), b, digest, now);
          blobs := blobs[b := row];
        }
      }
    }

    method SetStatus(b: BlobId, status: BlobStatus) returns (r: Reply)
      modifies `blobs
      ensures blobs == if r.Applied() then WithStatus(old(blobs), b, status, now) else old(blobs)
      ensures !databaseFaults && !stops ==> r.Done?
      ensures !stops ==> !r.Stopped?
    {
      r := Answer(databaseFaults);
      if r.Applied() {
        blobs := WithStatus(blobs, b, status, now);
      }
    }

    /** A statement or transaction that leaves the blob rows as `after`. */
    method CommitBlobs(after: map<BlobId, Blob>) returns (r: Reply)
      modifies `blobs
      ensures blobs == if r.Applied() then after else old(blobs)
      ensures !databaseFaults && !stops ==> r.Done?
      ensures !stops ==> !r.Stopped?
    {
      r := Answer(databaseFaults);
      if r.Applied() {
        blobs := after;
      }
    }

    /** Derivation records are an opaque table that nothing here reads. */
    method EnsureDerivation(parent: BlobId, derived: BlobId) returns (r: Reply)
      ensures !databaseFaults && !stops ==> r.Done?
      ensures !stops ==> !r.Stopped?
    {
      r := Answer(databaseFaults);
    }

    // ----- Objects -----

    method Upload(key: string) returns (r: Reply)
      modifies `objects
      ensures objects == if r.Applied() then old(objects)[key := now] else old(objects)
      ensures !storageFaults && !stops ==> r.Done?
      ensures !stops ==> !r.Stopped?
    {
      r := Answer(storageFaults);
      if r.Applied() {
        objects := objects[key := now];
      }
    }

    method Remove(key: string) returns (r: Reply)
      modifies `objects
      ensures objects == if r.Applied() then old(objects) - {key} else old(objects)
      ensures !storageFaults && !stops ==> r.Done?
      ensures !stops ==> !r.Stopped?
    {
      r := Answer(storageFaults);
      if r.Applied() {
        objects := objects - {key};
      }
    }

    // ----- Avatars -----

    /** A statement or transaction that leaves the tables as `after`. */
    method Commit(after: Tables) returns (r: Reply)
      modifies `db
      ensures db == if r.Applied() then after else old(db)
      ensures !databaseFaults && !stops ==> r.Done?
      ensures !stops ==> !r.Stopped?
    {
      r := Answer(databaseFaults);
      if r.Applied() {
        db := after;
      }
    }

    /** A query; the answer is what the tables held. */
    method Query() returns (r: Reply, seen: Tables)
      ensures seen == db
      ensures !databaseFaults && !stops ==> r.Done?
      ensures !stops ==> !r.Stopped?
    {
      r := Answer(databaseFaults);
      seen := db;
    }
  }

  method Fresh(used: set<nat>) returns (n: nat)
    ensures n !in used
  {
    n := 0;
    var rest := used;
    while rest != {}
      invariant forall x :: x in used && x !in rest ==> x < n
      decreases |rest|
    {
      var x :| x in rest;
      if x >= n {
        n := x + 1;
      }
      rest := rest - {x};
    }
  }
}
