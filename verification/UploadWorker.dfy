/** The worker's side of an upload: one delivery of the upload event, call by call. */
module UploadWorker {
  import opened Wrappers
  import opened AvatarTables
  import opened BlobWorld
  import opened Store
  import opened DeliveryHeaders
  import opened AvatarService
  import Retry

  datatype Operation = Thumbnail100 | Thumbnail300 | Unknown

  const PROCESSING_FAILED := "processing failed"

  const SUPPORTED_SIZES: seq<ThumbnailSize> := [Size100, Size300]

  function Requested(operations: seq<Operation>): seq<ThumbnailSize> {
    if operations == [] then []
    else
      Requested(operations[..|operations| - 1])
      + (match operations[|operations| - 1]
         case Thumbnail100 => [Size100]
         case Thumbnail300 => [Size300]
         case Unknown => [])
  }

  /** The sizes to make; an event that names none asks for all. */
  function ThumbnailSizes(operations: seq<Operation>): seq<ThumbnailSize> {
    if Requested(operations) == [] then SUPPORTED_SIZES else Requested(operations)
  }

  predicate Names(operation: Operation, size: ThumbnailSize) {
    (operation.Thumbnail100? && size.Size100?) || (operation.Thumbnail300? && size.Size300?)
  }

  lemma {:induction false} RequestedAreNamed(operations: seq<Operation>, size: ThumbnailSize)
    ensures size in Requested(operations) <==> exists i :: 0 <= i < |operations| && Names(operations[i], size)
  {
    if operations != [] {
      RequestedAreNamed(operations[..|operations| - 1], size);
    }
  }

  /** A size is made exactly when an operation names it, or when no operation names any. */
  lemma SizesAreThoseNamed(operations: seq<Operation>, size: ThumbnailSize)
    ensures size in ThumbnailSizes(operations) <==>
              (exists i :: 0 <= i < |operations| && Names(operations[i], size))
              || (forall i, other :: 0 <= i < |operations| ==> !Names(operations[i], other))
  {
    var requested := Requested(operations);
    forall other
      ensures other in requested <==> exists i :: 0 <= i < |operations| && Names(operations[i], other)
    {
      RequestedAreNamed(operations, other);
    }
    if requested != [] {
      assert requested[0] in requested;
    } else {
      forall i, other | 0 <= i < |operations|
        ensures !Names(operations[i], other)
      {
        assert other !in requested;
      }
      assert size == SUPPORTED_SIZES[0] || size == SUPPORTED_SIZES[1];
    }
  }

  lemma {:induction false} RequestedSizes(operations: seq<Operation>)
    ensures Size100 in Requested(operations) <==> Thumbnail100 in operations
    ensures Size300 in Requested(operations) <==> Thumbnail300 in operations
  {
    if operations != [] {
      var last := |operations| - 1;
      assert operations == operations[..last] + [operations[last]];
      RequestedSizes(operations[..last]);
    }
  }

  /** Each size is made when it is asked for, or when the other one is not asked for either. */
  lemma SizesByName(operations: seq<Operation>)
    ensures Size100 in ThumbnailSizes(operations) <==> Thumbnail100 in operations || Thumbnail300 !in operations
    ensures Size300 in ThumbnailSizes(operations) <==> Thumbnail300 in operations || Thumbnail100 !in operations
  {
    RequestedSizes(operations);
    var requested := Requested(operations);
    if requested != [] {
      assert requested[0] in requested;
      assert requested[0].Size100? || requested[0].Size300?;
    } else {
      assert SUPPORTED_SIZES[0] == Size100 && SUPPORTED_SIZES[1] == Size300;
    }
  }

  method ChooseSizes(operations: seq<Operation>) returns (sizes: seq<ThumbnailSize>)
    ensures sizes == ThumbnailSizes(operations)
  {
    sizes := [];
    for i := 0 to |operations|
      invariant sizes == Requested(operations[..i])
    {
      assert operations[..i + 1][..i] == operations[..i];
      match operations[i] {
        case Thumbnail100 => sizes := sizes + [Size100];
        case Thumbnail300 => sizes := sizes + [Size300];
        case Unknown =>
      }
    }
    assert operations[..|operations|] == operations;
    if sizes == [] {
      sizes := SUPPORTED_SIZES;
    }
  }

  /** What each thumbnail of the image encodes to, when scaling and encoding succeed. */
  type Encoding = ThumbnailSize -> Option<Digest>

  predicate HoldsContent(w: World, b: BlobId, digest: Digest) {
    IsReady(w, b) && w.blobs[b].digest == digest
  }

  /** A thumbnail of a live avatar that, when the avatar has a source blob, points to a ready blob
      with the content of this size. */
  predicate HasThumb(w: World, id: AvatarId, size: ThumbnailSize, encoded: Encoding) {
    var k := ThumbKey(id, size);
    && k in w.db.thumbs && w.db.thumbs[k].deletedAt.None?
    && (id in w.db.avatars && w.db.avatars[id].sourceBlob.Some? ==>
         encoded(size).Some? && w.db.thumbs[k].blob.Some? && HoldsContent(w, w.db.thumbs[k].blob.value, encoded(size).value))
  }

  /** Only the thumbnail of one size may differ between two states of the tables. */
  ghost predicate OnlyThumb(before: Tables, after: Tables, id: AvatarId, size: ThumbnailSize) {
    && after.avatars == before.avatars
    && (ThumbKey(id, size) in before.thumbs ==>
          && ThumbKey(id, size) in after.thumbs
          && after.thumbs[ThumbKey(id, size)].createdAt == before.thumbs[ThumbKey(id, size)].createdAt
          && after.thumbs[ThumbKey(id, size)].deletedAt == before.thumbs[ThumbKey(id, size)].deletedAt)
    && forall k :: k != ThumbKey(id, size) ==>
         (k in before.thumbs <==> k in after.thumbs) && (k in before.thumbs ==> after.thumbs[k] == before.thumbs[k])
  }

  lemma UpsertGivesThumb(w: World, id: AvatarId, size: ThumbnailSize, blob: Option<BlobId>, encoded: Encoding, now: Time)
    requires Inv(w) && w.db.HasLive(id)
    requires blob.Some? ==> encoded(size).Some? && HoldsContent(w, blob.value, encoded(size).value)
    requires w.db.avatars[id].sourceBlob.Some? ==> blob.Some?
    ensures var w' := w.(db := UpsertThumb(w.db, ThumbKey(id, size), blob, now));
            && Inv(w') && HasThumb(w', id, size, encoded) && OnlyThumb(w.db, w'.db, id, size)
            && forall s :: HasThumb(w, id, s, encoded) ==> HasThumb(w', id, s, encoded)
  {
    UpsertKeepsInv(w, ThumbKey(id, size), blob, now);
  }

  /** Upsert the thumbnail's row, then link it to its blob, which writes the same reference again. */
  method RecordThumbnail(store: Store, id: AvatarId, size: ThumbnailSize, blob: Option<BlobId>, encoded: Encoding)
    returns (r: Reply)
    requires Inv(store.W()) && store.db.HasLive(id)
    requires blob.Some? ==> encoded(size).Some? && HoldsContent(store.W(), blob.value, encoded(size).value)
    requires store.db.avatars[id].sourceBlob.Some? ==> blob.Some?
    modifies store`db
    ensures Inv(store.W()) && OnlyThumb(old(store.db), store.db, id, size)
    ensures r.Done? ==> HasThumb(store.W(), id, size, encoded)
    ensures forall s :: HasThumb(old(store.W()), id, s, encoded) ==> HasThumb(store.W(), id, s, encoded)
    ensures !store.databaseFaults && !store.stops ==> r.Done?
    ensures !store.stops ==> !r.Stopped?
  {
    UpsertGivesThumb(store.W(), id, size, blob, encoded, store.now);
    r := store.Commit(UpsertThumb(store.db, ThumbKey(id, size), blob, store.now));
    if !r.Done? || blob.None? {
      return;
    }
    UpsertGivesThumb(store.W(), id, size, blob, encoded, store.now);
    r := store.Commit(UpsertThumb(store.db, ThumbKey(id, size), blob, store.now));
  }

  /** Get or create the blob of a thumbnail and make sure its content is stored. Unlike an
      upload, this also revives a blob that was being deleted. */
  method StoreThumbnailBlob(store: Store, digest: Digest) returns (r: Reply, b: BlobId)
    requires Inv(store.W())
    modifies store`blobs, store`objects
    ensures Inv(store.W())
    ensures r.Done? ==> HoldsContent(store.W(), b, digest)
    ensures forall other, content :: HoldsContent(old(store.W()), other, content) ==> HoldsContent(store.W(), other, content)
    ensures KeepsContents(old(store.blobs), store.blobs)
    ensures !store.databaseFaults && !store.storageFaults && !store.stops ==> r.Done?
    ensures !store.stops ==> !r.Stopped?
  {
    var row;
    r, b, row := store.GetOrCreate(digest);
    if r.Done? && !row.status.Ready? {
      r := StoreContent(store, b);
    }
  }

  /** Store one encoded thumbnail under its digest and record it. */
  method CreateThumbnail(store: Store, id: AvatarId, avatar: Avatar, size: ThumbnailSize, encoded: Encoding)
    returns (r: Reply)
    requires Inv(store.W()) && store.db.HasLive(id) && store.db.avatars[id].sourceBlob == avatar.sourceBlob
    modifies store`db, store`blobs, store`objects
    ensures Inv(store.W()) && OnlyThumb(old(store.db), store.db, id, size)
    ensures r.Done? ==> HasThumb(store.W(), id, size, encoded)
    ensures forall s :: HasThumb(old(store.W()), id, s, encoded) ==> HasThumb(store.W(), id, s, encoded)
    ensures KeepsContents(old(store.blobs), store.blobs)
    ensures store.Dependable() && encoded(size).Some? ==> r.Done?
    ensures !store.stops ==> !r.Stopped?
  {
    if encoded(size).None? {
      return Reply.Failed(false);
    }
    var blob := None;
    if avatar.sourceBlob.Some? {
      var b;
      r, b := StoreThumbnailBlob(store, encoded(size).value);
      if !r.Done? {
        return;
      }
      r := store.EnsureDerivation(avatar.sourceBlob.value, b);
      if !r.Done? {
        return;
      }
      blob := Some(b);
    } else {
      r := store.Upload("avatars/thumbnails/");
      if !r.Done? {
        return;
      }
    }
    r := RecordThumbnail(store, id, size, blob, encoded);
  }

  /** Download and decode the original, then make each thumbnail in turn; the first failure ends it. */
  method ProduceThumbnails(store: Store, id: AvatarId, claimed: Avatar, sizes: seq<ThumbnailSize>,
                           encoded: Encoding)
    returns (r: Reply)
    requires Inv(store.W()) && store.db.HasLive(id) && store.db.avatars[id] == claimed
    modifies store`db, store`blobs, store`objects
    ensures Inv(store.W()) && store.db.avatars == old(store.db).avatars && OnlyAvatar(old(store.db), store.db, id)
    ensures KeepsContents(old(store.blobs), store.blobs)
    ensures r.Done? ==> forall size :: size in sizes ==> HasThumb(store.W(), id, size, encoded)
    ensures store.Dependable() && (forall size :: encoded(size).Some?) ==> r.Done?
    ensures !store.stops ==> !r.Stopped?
  {
    hide Inv;
    r := store.Answer(store.storageFaults);
    if !r.Done? {
      return;
    }
    r := store.Answer(store.storageFaults);
    if !r.Done? {
      return;
    }
    var i := 0;
    while i < |sizes|
      invariant 0 <= i <= |sizes|
      invariant Inv(store.W()) && store.db.avatars == old(store.db).avatars && OnlyAvatar(old(store.db), store.db, id)
      invariant KeepsContents(old(store.blobs), store.blobs)
      invariant forall j :: 0 <= j < i ==> HasThumb(store.W(), id, sizes[j], encoded)
    {
      r := CreateThumbnail(store, id, claimed, sizes[i], encoded);
      if !r.Done? {
        return;
      }
      i := i + 1;
    }
    r := Done;
  }

  lemma FinalWrite(before: Tables, t: Tables, id: AvatarId, claimed: Avatar, ok: bool, final: bool, now: Time)
    requires t.HasLive(id) && t.avatars[id] == claimed && OnlyAvatar(before, t, id) && t.avatars == before.avatars
    ensures var row := if ok then claimed.MarkProcessed(now) else claimed.AfterFailure(final, PROCESSING_FAILED, now);
            var t' := UpdateRow(t, id, row);
            && OnlyAvatar(before, t', id) && id in t'.avatars && t'.avatars[id] == row && t'.thumbs == t.thumbs
            && Untouched(claimed, row) && WrittenDown(claimed, row, ok, final, PROCESSING_FAILED, now)
            && AllStay(before, t) && AllStay(before, t')
  {
  }

  /** The work on a claimed avatar and the write that ends it. */
  method Process(store: Store, id: AvatarId, claimed: Avatar, headers: Headers, sizes: seq<ThumbnailSize>,
                 encoded: Encoding)
    returns (ok: bool, ghost work: Retry.Work)
    requires Inv(store.W()) && store.db.HasLive(id) && store.db.avatars[id] == claimed
    modifies store`db, store`blobs, store`objects
    ensures Inv(store.W())
    ensures KeepsContents(old(store.blobs), store.blobs)
    ensures AllStay(old(store.db), store.db)
    ensures OnlyAvatar(old(store.db), store.db, id) && id in store.db.avatars && Untouched(claimed, store.db.avatars[id])
    ensures !store.databaseFaults && !store.stops ==>
              WrittenDown(claimed, store.db.avatars[id], ok, IsFinalDelivery(headers), PROCESSING_FAILED, store.now)
    ensures ok ==> work.Done? && forall size :: size in sizes ==> HasThumb(store.W(), id, size, encoded)
    ensures work.at == store.now
    ensures !store.databaseFaults && !store.stops ==>
              id in store.db.avatars
              && store.db.avatars[id] == (if ok then claimed.MarkProcessed(work.at)
                                          else claimed.AfterFailure(IsFinalDelivery(headers), PROCESSING_FAILED, work.at))
              && (!ok ==> work == Retry.FailsAt(store.now, PROCESSING_FAILED))
    ensures store.Dependable() && (forall size :: encoded(size).Some?) ==> ok
  {
    hide Consistent, DigestsUnique, KeysMatch, ReadyHaveObjects;
    work := Retry.FailsAt(store.now, PROCESSING_FAILED);
    ghost var start := store.db;
    var r := ProduceThumbnails(store, id, claimed, sizes, encoded);
    if r.Stopped? {
      return false, work;
    }
    ok := r.Done?;
    var row := if ok then claimed.MarkProcessed(store.now)
               else claimed.AfterFailure(IsFinalDelivery(headers), PROCESSING_FAILED, store.now);
    assert RowIsBacked(store.W(), store.db.avatars[id]);
    UpdateKeepsInv(store.W(), id, row);
    FinalWrite(start, store.db, id, claimed, ok, IsFinalDelivery(headers), store.now);
    hide OnlyAvatar, AllStay, UpdateRow, WrittenDown, Untouched, KeepsContents, RowIsBacked;
    ghost var before := store.W();
    r := store.Commit(UpdateRow(store.db, id, row));
    assert forall size :: HasThumb(before, id, size, encoded) ==> HasThumb(store.W(), id, size, encoded);
    if !r.Done? {
      return false, work;
    }
    work := if ok then Retry.Done(store.now) else work;
  }

  /** One delivery of an upload event. Whatever fails, the store stays safe. With the database
      answering and nobody else at work the avatar's row takes exactly the step that the delivery
      loop counts on, and a successful delivery leaves every requested thumbnail in place. */
  method HandleAvatarUploaded(store: Store, id: AvatarId, headers: Headers, operations: seq<Operation>,
                              encoded: Encoding)
    returns (ok: bool, ghost work: Retry.Work)
    requires Inv(store.W())
    modifies store`db, store`blobs, store`objects
    ensures Inv(store.W())
    ensures KeepsContents(old(store.blobs), store.blobs)
    ensures AllStay(old(store.db), store.db)
    ensures OnlyAvatar(old(store.db), store.db, id) && (id in old(store.db).avatars <==> id in store.db.avatars)
    ensures id in store.db.avatars ==> Untouched(old(store.db).avatars[id], store.db.avatars[id])
    ensures !store.databaseFaults && !store.stops && id in old(store.db).avatars ==>
              var before, after := old(store.db).avatars[id], store.db.avatars[id];
              if before.deletedAt.None? && before.upload.Uploaded? && before.processing.Pending?
              then WrittenDown(before.(attempts := before.attempts + 1, startedAt := Some(store.now)), after, ok,
                               IsFinalDelivery(headers), PROCESSING_FAILED, store.now)
              else ok && after == before
    ensures !store.databaseFaults && !store.stops && old(store.db).HasLive(id) ==>
              id in store.db.avatars
              && (store.db.avatars[id], ok) == Retry.HandleRow(old(store.db).avatars[id], headers, work)
    ensures !store.databaseFaults && !store.stops && !old(store.db).HasLive(id) ==> ok && store.db == old(store.db)
    ensures ok && old(store.db).HasLive(id) && old(store.db).avatars[id].Claimable() ==>
              forall size :: size in ThumbnailSizes(operations) ==> HasThumb(store.W(), id, size, encoded)
    ensures store.Dependable() && (forall size :: encoded(size).Some?) ==> ok
  {
    work := Retry.Done(store.now);
    var r, seen := store.Query();
    if !r.Done? {
      return false, work;
    }
    if !seen.HasLive(id) {
      return true, work;
    }
    ClaimRowKeepsInv(store.W(), id, store.now);
    ClaimRowKeepsRows(store.db, id, store.now);
    r := store.Commit(ClaimRow(store.db, id, store.now));
    if !r.Done? {
      return false, work;
    }
    if !seen.avatars[id].Claimable() {
      return true, work;
    }
    var sizes := ChooseSizes(operations);
    ghost var claimed := store.db;
    ok, work := Process(store, id, store.db.avatars[id], headers, sizes, encoded);
    StayOn(seen, claimed, store.db);
  }
}
