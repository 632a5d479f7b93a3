/** The upload, crop and delete use cases, call by call. Whatever fails and
    wherever the process stops, each of them keeps the store safe, at most one avatar per user
    active, and thumbnails in step with their avatars. */
module AvatarService {
  import opened Wrappers
  import opened AvatarTables
  import opened BlobWorld
  import opened Store
  import Crop

  datatype Result = Ok(id: AvatarId) | InvalidRequest | Conflict | NotFound | Forbidden | CallFailed

  // ----- Create -----

  /** The lookup's answer: a row of the user with this source blob, a live one if there is one. */
  predicate Duplicate(t: Tables, user: UserId, b: BlobId, id: AvatarId) {
    && id in t.avatars && t.avatars[id].user == user && t.avatars[id].sourceBlob == Some(b)
    && (t.avatars[id].Live() ||
        forall o :: o in t.avatars && t.avatars[o].user == user && t.avatars[o].sourceBlob == Some(b) ==> !t.avatars[o].Live())
  }

  lemma DuplicateExists(t: Tables, user: UserId, b: BlobId, id: AvatarId)
    requires id in t.avatars && t.avatars[id].user == user && t.avatars[id].sourceBlob == Some(b)
    ensures exists other :: Duplicate(t, user, b, other)
  {
    if o :| o in t.avatars && t.avatars[o].user == user && t.avatars[o].sourceBlob == Some(b) && t.avatars[o].Live() {
      assert Duplicate(t, user, b, o);
    } else {
      assert Duplicate(t, user, b, id);
    }
  }

  method FindDuplicate(t: Tables, user: UserId, b: BlobId) returns (found: Option<AvatarId>)
    ensures found.Some? ==> Duplicate(t, user, b, found.value)
    ensures found.None? ==> forall id :: !Duplicate(t, user, b, id)
  {
    if id :| id in t.avatars && t.avatars[id].user == user && t.avatars[id].sourceBlob == Some(b) && t.avatars[id].Live() {
      found := Some(id);
    } else if id :| id in t.avatars && t.avatars[id].user == user && t.avatars[id].sourceBlob == Some(b) {
      found := Some(id);
    } else {
      found := None;
    }
  }

  /** A row as the upload use case first writes it. */
  function NewRow(user: UserId, width: int, height: int, b: BlobId, crop: Crop.Square, now: Time): Avatar {
    Avatar(user, width, height, Some(b), Uploading, Pending, None, 0, "", crop, now, now, None, false)
  }

  /** The avatar's source blob is ready and holds this content. */
  predicate Shows(w: World, id: AvatarId, digest: Digest) {
    && id in w.db.avatars && w.db.avatars[id].sourceBlob.Some?
    && IsReady(w, w.db.avatars[id].sourceBlob.value) && w.blobs[w.db.avatars[id].sourceBlob.value].digest == digest
  }

  predicate BeingDeleted(w: World, b: BlobId, digest: Digest) {
    b in w.blobs && w.blobs[b].digest == digest && w.blobs[b].status.Deleting?
  }

  /** A row of an upload that has just finished, with the size of its image. */
  predicate AsUploaded(a: Avatar, width: int, height: int, now: Time) {
    && a.width == width && a.height == height && a.upload.Uploaded? && a.processing.Pending? && a.attempts == 0
    && a.startedAt.None? && a.lastError == "" && a.createdAt == now && a.deletedAt.None?
  }

  /** The user has an avatar, deleted or not, from this content. */
  predicate ShownBy(w: World, user: UserId, id: AvatarId, digest: Digest) {
    id in w.db.avatars && w.db.avatars[id].user == user && Shows(w, id, digest)
  }

  predicate ShownLive(w: World, user: UserId, digest: Digest) {
    exists id :: id in w.db.avatars && ShownBy(w, user, id, digest) && w.db.avatars[id].Live()
  }

  /** The user has avatars from this content, and each of them was uploaded to the end. */
  predicate AlreadyThere(w: World, user: UserId, digest: Digest) {
    && (exists id :: id in w.db.avatars && ShownBy(w, user, id, digest))
    && (forall id :: id in w.db.avatars && ShownBy(w, user, id, digest) ==> w.db.avatars[id].upload.Uploaded?)
  }

  /** No row of another user is changed, added or removed. */
  ghost predicate OthersUntouched(before: Tables, after: Tables, user: UserId) {
    forall id :: (id in before.avatars && before.avatars[id].user != user) || (id in after.avatars && after.avatars[id].user != user) ==>
      id in before.avatars && id in after.avatars && after.avatars[id] == before.avatars[id]
  }

  lemma NothingTouched(t: Tables, user: UserId)
    ensures OthersUntouched(t, t, user) && OthersKeepRecords(t, t, 0)
  {
  }

  lemma RefreshTouchesOneUser(t: Tables, id: AvatarId, snapshot: Avatar, crop: Crop.Square, now: Time)
    requires CanActivate(t, snapshot.user, id)
    ensures OthersUntouched(t, RefreshTx(t, snapshot.user, id, snapshot, crop, now), snapshot.user)
  {
  }

  lemma InsertTouchesOneUser(t: Tables, id: AvatarId, row: Avatar)
    requires id !in t.avatars
    ensures OthersUntouched(t, Insert(t, id, row), row.user)
  {
  }

  lemma UpdateTouchesOneUser(before: Tables, t: Tables, id: AvatarId, row: Avatar)
    requires OthersUntouched(before, t, row.user) && id in t.avatars && t.avatars[id].user == row.user && id !in before.avatars
    ensures OthersUntouched(before, UpdateRow(t, id, row), row.user)
  {
  }

  /** A finished upload adds exactly the row as it was first written, now uploaded and active. */
  lemma UploadMeaning(t: Tables, id: AvatarId, row: Avatar, now: Time)
    requires id !in t.avatars && row.Live()
    ensures var t' := UploadedTx(Insert(t, id, row), id, row, now);
            && OthersUntouched(t, t', row.user)
            && id in t'.avatars && t'.avatars[id] == row.(upload := Uploaded, active := true, updatedAt := now)
  {
  }

  lemma WritesTouchOneRecord(t: Tables, id: AvatarId, row: Avatar, failed: Avatar)
    requires id !in t.avatars
    ensures OthersKeepRecords(t, t, id) && OthersKeepRecords(t, Insert(t, id, row), id)
    ensures OthersKeepRecords(t, UpdateRow(Insert(t, id, row), id, failed), id)
  {
  }

  lemma UploadTouchesOneRecord(t: Tables, id: AvatarId, row: Avatar, now: Time)
    requires id !in t.avatars && row.Live()
    ensures OthersKeepRecords(t, UploadedTx(Insert(t, id, row), id, row, now), id)
  {
    var updated := UpdateRow(Insert(t, id, row), id, row.(upload := Uploaded));
    ActivateMeaning(updated, row.user, id, now);
    hide Activate;
  }

  /** Activate an earlier upload of the same content and queue it again. */
  method Reuse(store: Store, id: AvatarId, snapshot: Avatar, crop: Crop.Square) returns (result: Result)
    requires Inv(store.W()) && id in store.db.avatars && snapshot == store.db.avatars[id] && snapshot.upload.Uploaded?
    modifies store`db
    ensures Inv(store.W())
    ensures result.Ok? || result.CallFailed?
    ensures result.Ok? ==> result.id == id && store.db == RefreshTx(old(store.db), snapshot.user, id, snapshot, crop, store.now)
    ensures result.Ok? ==> IsActive(store.db, snapshot.user, id) && store.db.avatars[id].Claimable() && store.db.avatars[id].crop == crop
                           && store.db.avatars[id].sourceBlob == snapshot.sourceBlob
    ensures store.db == old(store.db) || store.db == RefreshTx(old(store.db), snapshot.user, id, snapshot, crop, store.now)
    ensures OthersUntouched(old(store.db), store.db, snapshot.user)
    ensures AllStay(old(store.db), store.db) && OthersKeepRecords(old(store.db), store.db, id)
    ensures result.Ok? ==> RequeuedWith(snapshot, store.db.avatars[id], crop)
    ensures !store.databaseFaults && !store.stops ==> result.Ok?
  {
    assert RowIsBacked(store.W(), snapshot);
    RefreshTouchesOneUser(store.db, id, snapshot, crop, store.now);
    RefreshTxKeepsRows(store.db, id, crop, store.now);
    RefreshMeaning(store.db, id, crop, store.now);
    RefreshTxKeepsInv(store.W(), id, snapshot, crop, store.now);
    var r := store.Commit(RefreshTx(store.db, snapshot.user, id, snapshot, crop, store.now));
    result := if r.Done? then Ok(id) else CallFailed;
  }

  /** The closing transaction of an upload. */
  method FinishUpload(store: Store, id: AvatarId, row: Avatar) returns (result: Result)
    requires Inv(store.W()) && store.db.HasLive(id) && !row.active && row.processing.Pending?
    requires row.sourceBlob.Some? ==> IsReady(store.W(), row.sourceBlob.value)
    modifies store`db
    ensures Inv(store.W())
    ensures result.Ok? || result.CallFailed?
    ensures result.Ok? ==> result.id == id && store.db == UploadedTx(old(store.db), id, row, store.now)
    ensures store.db == old(store.db) || store.db == UploadedTx(old(store.db), id, row, store.now)
    ensures store.Dependable() ==> result.Ok?
  {
    UploadedTxKeepsInv(store.W(), id, row, store.now);
    var r := store.Commit(UploadedTx(store.db, id, row, store.now));
    result := if r.Done? then Ok(id) else CallFailed;
  }

  /** The failure branch of an upload: one more write, which may itself fail. */
  method MarkUploadFailed(store: Store, id: AvatarId, row: Avatar)
    requires Inv(store.W()) && store.db.HasLive(id) && store.db.avatars[id] == row && row.upload.Uploading?
    modifies store`db
    ensures Inv(store.W())
    ensures store.db == old(store.db) || store.db == UpdateRow(old(store.db), id, row.MarkFailed("upload original", store.now))
    ensures OnlyAvatar(old(store.db), store.db, id)
    ensures !store.databaseFaults && !store.stops ==>
              && WrittenDown(row, store.db.avatars[id], false, true, "upload original", store.now)
              && store.db.avatars[id].upload.Uploading?
  {
    var failed := row.MarkFailed("upload original", store.now);
    UpdateKeepsInv(store.W(), id, failed);
    var r := store.Commit(UpdateRow(store.db, id, failed));
  }

  lemma StatusKeepsReady(w: World, b: BlobId, now: Time)
    requires b in w.blobs && !IsReady(w, b)
    ensures forall status, objects, other :: IsReady(w, other) ==> IsReady(World(w.db, WithStatus(w.blobs, b, status, now), objects), other)
    ensures forall objects :: IsReady(World(w.db, WithStatus(w.blobs, b, Ready, now), objects), b)
  {
  }

  /** Upload the content of a blob that is not ready, and mark it ready or failed. */
  method StoreContent(store: Store, b: BlobId) returns (r: Reply)
    requires Inv(store.W()) && b in store.blobs && !IsReady(store.W(), b)
    modifies store`blobs, store`objects
    ensures Inv(store.W())
    ensures forall other :: IsReady(World(store.db, old(store.blobs), store.objects), other) ==> IsReady(store.W(), other)
    ensures r.Done? ==> IsReady(store.W(), b)
    ensures KeepsContents(old(store.blobs), store.blobs)
    ensures store.blobs == old(store.blobs) || store.blobs == WithStatus(old(store.blobs), b, Ready, store.now)
            || store.blobs == WithStatus(old(store.blobs), b, BlobFailed, store.now)
    ensures store.objects == old(store.objects) || store.objects == old(store.objects)[old(store.blobs)[b].key := store.now]
    ensures store.blobs == old(store.blobs) || OnlyStatus(old(store.blobs), store.blobs, b, store.now)
    ensures !store.databaseFaults && !store.stops ==>
              store.blobs == WithStatus(old(store.blobs), b, if r.Done? then Ready else BlobFailed, store.now)
    ensures !store.databaseFaults && !store.storageFaults && !store.stops ==> r.Done?
    ensures !store.stops ==> !r.Stopped?
  {
    var key := store.blobs[b].key;
    StatusMeaning(store.blobs, b, BlobFailed, store.now);
    StatusMeaning(store.blobs, b, Ready, store.now);
    StatusKeepsReady(store.W(), b, store.now);
    hide OnlyStatus, KeepsContents, WithStatus, Inv;
    PutObjectKeepsInv(store.W(), key, store.now);
    r := store.Upload(key);
    if r.Failed? {
      StatusKeepsInv(store.W(), b, BlobFailed, store.now);
      var marked := store.SetStatus(b, BlobFailed);
      if marked.Stopped? {
        r := marked;
      }
      return;
    }
    if r.Stopped? {
      return;
    }
    StatusKeepsInv(store.W(), b, Ready, store.now);
    r := store.SetStatus(b, Ready);
  }

  /** Write a row, upload the content unless its blob is ready, and activate the avatar. */
  method UploadNew(store: Store, row: Avatar, b: BlobId, ready: bool) returns (result: Result)
    requires Inv(store.W()) && b in store.blobs && (ready <==> IsReady(store.W(), b))
    requires row.sourceBlob == Some(b) && row.upload.Uploading? && row.processing.Pending? && !row.active && row.Live()
    modifies store`db, store`blobs, store`objects
    ensures Inv(store.W())
    ensures result.Ok? || result.CallFailed?
    ensures result.Ok? ==> result.id !in old(store.db).avatars && IsReady(store.W(), b)
                           && store.db == UploadedTx(Insert(old(store.db), result.id, row), result.id, row, store.now)
                           && result.id in store.db.avatars
                           && store.db.avatars[result.id] == row.(upload := Uploaded, active := true, updatedAt := store.now)
                           && OthersKeepRecords(old(store.db), store.db, result.id)
    ensures OthersUntouched(old(store.db), store.db, row.user)
    ensures AllStay(old(store.db), store.db)
    ensures exists id :: OthersKeepRecords(old(store.db), store.db, id)
    ensures KeepsContents(old(store.blobs), store.blobs)
    ensures store.Dependable() ==> result.Ok?
  {
    hide Consistent, DigestsUnique, KeysMatch, ReadyHaveObjects, OthersUntouched, OthersKeepRecords, AllStay, UploadedTx, RowIsBacked;
    NothingTouched(store.db, row.user);
    ghost var before := store.db;
    var id := Fresh(store.db.avatars.Keys);
    InsertKeepsInv(store.W(), id, row);
    InsertTouchesOneUser(store.db, id, row);
    UploadMeaning(store.db, id, row, store.now);
    UploadTouchesOneRecord(store.db, id, row, store.now);
    WritesTouchOneRecord(store.db, id, row, row.MarkFailed("upload original", store.now));
    UploadKeepsRows(store.db, id, row, row.MarkFailed("upload original", store.now), store.now);
    var r := store.Commit(Insert(store.db, id, row));
    if !r.Done? {
      return CallFailed;
    }
    if !ready {
      var stored := StoreContent(store, b);
      if stored.Failed? {
        UpdateTouchesOneUser(before, store.db, id, row.MarkFailed("upload original", store.now));
        MarkUploadFailed(store, id, row);
      }
      if !stored.Done? {
        return CallFailed;
      }
    }
    result := FinishUpload(store, id, row);
  }

  /** The blob rows after the lookup: those of before and perhaps one more, still uploading. */
  ghost predicate LookedUp(before: map<BlobId, Blob>, after: map<BlobId, Blob>, b: BlobId, digest: Digest) {
    && b in after && after[b].digest == digest
    && (forall other :: other in before ==> other in after && after[other] == before[other])
    && (forall other :: other in after && other !in before ==> after[other].status.BlobUploading?)
  }

  /** An earlier upload that is taken up again showed the content before already. */
  lemma ReusedWasShown(w: World, blobs: map<BlobId, Blob>, user: UserId, b: BlobId, digest: Digest, id: AvatarId)
    requires LookedUp(w.blobs, blobs, b, digest) && DigestsUnique(w.(blobs := blobs)) && blobs[b].status.Ready?
    requires Duplicate(w.db, user, b, id)
    ensures Shows(w, id, digest) && (w.db.avatars[id].Live() || !ShownLive(w, user, digest))
  {
  }

  /** A new row is only written when no earlier one of this content was uploaded to the end. */
  lemma NewWasNotThere(w: World, blobs: map<BlobId, Blob>, user: UserId, b: BlobId, digest: Digest, existing: Option<AvatarId>)
    requires LookedUp(w.blobs, blobs, b, digest) && DigestsUnique(w.(blobs := blobs))
    requires match existing
             case Some(id) => Duplicate(w.db, user, b, id) && (w.db.avatars[id].upload.Uploaded? ==> !blobs[b].status.Ready?)
             case None => forall id :: !Duplicate(w.db, user, b, id)
    ensures !AlreadyThere(w, user, digest)
  {
    if id :| id in w.db.avatars && ShownBy(w, user, id, digest) {
      var source := w.db.avatars[id].sourceBlob.value;
      assert source in blobs && blobs[source] == w.blobs[source];
      assert source == b;
      assert exists other :: Duplicate(w.db, user, b, other) by {
        DuplicateExists(w.db, user, b, id);
      }
      assert ShownBy(w, user, existing.value, digest);
    }
  }

  method Create(store: Store, user: UserId, width: int, height: int, digest: Digest, request: Crop.Request) returns (result: Result)
    requires Inv(store.W())
    modifies store`db, store`blobs, store`objects
    ensures Inv(store.W())
    ensures result.Ok? ==> IsActive(store.db, user, result.id) && store.db.avatars[result.id].Claimable()
                           && Shows(store.W(), result.id, digest)
                           && Crop.Meets(store.db.avatars[result.id].crop, request, width, height)
                           && OthersKeepRecords(old(store.db), store.db, result.id)
    ensures result.Ok? && result.id !in old(store.db).avatars ==> AsUploaded(store.db.avatars[result.id], width, height, store.now)
                                                                  && !AlreadyThere(old(store.W()), user, digest)
    ensures result.Ok? && result.id in old(store.db).avatars ==>
              && RequeuedWith(old(store.db).avatars[result.id], store.db.avatars[result.id], store.db.avatars[result.id].crop)
              && old(store.db).avatars[result.id].upload.Uploaded? && Shows(old(store.W()), result.id, digest)
              && (old(store.db).avatars[result.id].Live() || !ShownLive(old(store.W()), user, digest))
    ensures OthersUntouched(old(store.db), store.db, user)
    ensures AllStay(old(store.db), store.db)
    ensures KeepsContents(old(store.blobs), store.blobs)
    ensures exists id :: OthersKeepRecords(old(store.db), store.db, id)
    ensures result.Conflict? ==> store.db == old(store.db) && exists b :: BeingDeleted(store.W(), b, digest)
    ensures result.InvalidRequest? ==> store.W() == old(store.W())
    ensures store.Dependable() ==> result.Ok? || result.Conflict? || result.InvalidRequest?
    ensures result.InvalidRequest? <==> !Crop.Acceptable(request, width, height)
    ensures result.Ok? || result.Conflict? || result.InvalidRequest? || result.CallFailed?
  {
    hide OthersUntouched, OthersKeepRecords, RefreshTx, UploadedTx, Insert, Consistent, Crop.NormalizeCrop, Crop.Meets, Crop.Acceptable;
    hide ShownLive, AlreadyThere, Duplicate;
    NothingTouched(store.db, user);
    ghost var start := store.W();
    var normalized := Crop.NormalizeCrop(request, width, height);
    Crop.NormalizeMeaning(request, width, height);
    if normalized.Refused? {
      return InvalidRequest;
    }
    var r, b, blob := store.GetOrCreate(digest);
    if !r.Done? {
      return CallFailed;
    }
    if blob.status.Deleting? {
      assert BeingDeleted(store.W(), b, digest);
      return Conflict;
    }
    var seen;
    r, seen := store.Query();
    if !r.Done? {
      return CallFailed;
    }
    var existing := FindDuplicate(seen, user, b);
    if existing.Some? && seen.avatars[existing.value].upload.Uploaded? && blob.status.Ready? {
      assert LookedUp(start.blobs, store.blobs, b, digest);
      ReusedWasShown(start, store.blobs, user, b, digest, existing.value);
      result := Reuse(store, existing.value, seen.avatars[existing.value], normalized.crop);
      return;
    }
    NewWasNotThere(start, store.blobs, user, b, digest, existing);
    result := UploadNew(store, NewRow(user, width, height, b, normalized.crop, store.now), b, blob.status.Ready?);
  }

  // ----- Update crop -----

  predicate Owned(t: Tables, user: UserId, id: AvatarId) {
    t.HasLive(id) && t.avatars[id].user == user
  }

  /** The avatar is the user's, and an image is there to crop. */
  predicate Croppable(t: Tables, user: UserId, id: AvatarId) {
    Owned(t, user, id) && t.avatars[id].upload.Uploaded? && t.avatars[id].width > 0 && t.avatars[id].height > 0
  }

  predicate AcceptsCrop(t: Tables, user: UserId, id: AvatarId, request: Crop.Request) {
    Croppable(t, user, id) && Crop.Acceptable(request, t.avatars[id].width, t.avatars[id].height)
  }

  /** The reason for each refusal, whatever calls fail; with the database answering, every request is
      met or refused for its reason. */
  method UpdateCrop(store: Store, user: UserId, id: AvatarId, request: Crop.Request) returns (result: Result)
    requires Inv(store.W())
    modifies store`db
    ensures Inv(store.W())
    ensures result.Ok? ==> result.id == id && IsActive(store.db, user, id) && store.db.avatars[id].Claimable()
                           && old(store.db).HasLive(id)
                           && RequeuedWith(old(store.db).avatars[id], store.db.avatars[id], store.db.avatars[id].crop)
                           && Crop.Meets(store.db.avatars[id].crop, request, store.db.avatars[id].width, store.db.avatars[id].height)
                           && store.db == RefreshTx(old(store.db), user, id, old(store.db).avatars[id],
                                                    store.db.avatars[id].crop, store.now)
    ensures OthersKeepRecords(old(store.db), store.db, id)
    ensures OthersUntouched(old(store.db), store.db, user)
    ensures AllStay(old(store.db), store.db)
    ensures result.Ok? ==> AcceptsCrop(old(store.db), user, id, request)
    ensures result.NotFound? ==> !old(store.db).HasLive(id)
    ensures result.Forbidden? ==> old(store.db).HasLive(id) && !Owned(old(store.db), user, id)
    ensures result.Conflict? ==> Owned(old(store.db), user, id) && !Croppable(old(store.db), user, id)
    ensures result.InvalidRequest? ==> Croppable(old(store.db), user, id) && !AcceptsCrop(old(store.db), user, id, request)
    ensures !store.databaseFaults && !store.stops ==>
              && (result.Ok? <==> AcceptsCrop(old(store.db), user, id, request))
              && (result.NotFound? <==> !old(store.db).HasLive(id))
              && (result.Forbidden? <==> old(store.db).HasLive(id) && !Owned(old(store.db), user, id))
              && (result.Conflict? <==> Owned(old(store.db), user, id) && !Croppable(old(store.db), user, id))
              && (result.InvalidRequest? <==> Croppable(old(store.db), user, id) && !AcceptsCrop(old(store.db), user, id, request))
    ensures !result.Ok? && !result.CallFailed? ==> store.db == old(store.db)
  {
    var r, seen := store.Query();
    if !r.Done? {
      return CallFailed;
    }
    if !seen.HasLive(id) {
      return NotFound;
    }
    var avatar := seen.avatars[id];
    if avatar.user != user {
      return Forbidden;
    }
    if !avatar.upload.Uploaded? || avatar.width <= 0 || avatar.height <= 0 {
      return Conflict;
    }
    var normalized := Crop.NormalizeCrop(request, avatar.width, avatar.height);
    Crop.NormalizeMeaning(request, avatar.width, avatar.height);
    if normalized.Refused? {
      return InvalidRequest;
    }
    result := Reuse(store, id, avatar, normalized.crop);
  }

  // ----- Delete -----

  predicate NotListedBefore(o: Avatar, a: Avatar) {
    if o.active == a.active then o.createdAt <= a.createdAt else a.active
  }

  /** The first row of a user's list: the active one if there is one, else the newest. */
  predicate ListedFirst(t: Tables, user: UserId, id: AvatarId) {
    && t.HasLive(id) && t.avatars[id].user == user
    && forall o :: o in t.avatars && t.HasLive(o) && t.avatars[o].user == user ==> NotListedBefore(t.avatars[o], t.avatars[id])
  }

  function LiveRows(t: Tables, user: UserId): set<AvatarId> {
    set id | id in t.avatars && t.HasLive(id) && t.avatars[id].user == user
  }

  method FirstOfList(t: Tables, user: UserId) returns (first: Option<AvatarId>)
    ensures first.Some? ==> ListedFirst(t, user, first.value)
    ensures first.None? ==> LiveRows(t, user) == {}
  {
    first := None;
    var rest := LiveRows(t, user);
    while rest != {}
      invariant rest <= LiveRows(t, user)
      invariant first.None? ==> rest == LiveRows(t, user)
      invariant first.Some? ==> first.value in LiveRows(t, user)
                                && forall o :: o in LiveRows(t, user) - rest ==> NotListedBefore(t.avatars[o], t.avatars[first.value])
      decreases |rest|
    {
      var id :| id in rest;
      if first.None? || !NotListedBefore(t.avatars[id], t.avatars[first.value]) {
        first := Some(id);
      }
      rest := rest - {id};
    }
    assert first.Some? ==> forall o :: o in t.avatars && t.HasLive(o) && t.avatars[o].user == user ==> o in LiveRows(t, user);
  }

  ghost predicate OnlyActive(t: Tables, user: UserId, id: AvatarId) {
    forall o :: IsActive(t, user, o) <==> o == id
  }

  lemma ActivationKeepsLiveRows(t: Tables, user: UserId, id: AvatarId, now: Time)
    requires t.HasLive(id) && t.avatars[id].user == user
    ensures LiveRows(Activate(t, user, id, now), user) == LiveRows(t, user)
  {
  }

  /** After deleting its active avatar a user has exactly one active avatar if any is left. */
  lemma DeletingTheActiveOne(t: Tables, user: UserId, id: AvatarId, fallback: Option<AvatarId>, now: Time)
    requires Consistent(t) && IsActive(t, user, id)
    requires var deleted := SoftDeleteThumbs(SoftDelete(t, id, now), id, now);
             && (fallback.Some? ==> ListedFirst(deleted, user, fallback.value))
             && (fallback.None? ==> LiveRows(deleted, user) == {})
    ensures var t' := DeleteTx(t, user, id, fallback, now);
            && LiveRows(t', user) == LiveRows(t, user) - {id}
            && (fallback.Some? ==> OnlyActive(t', user, fallback.value))
            && (fallback.None? ==> forall o :: !IsActive(t', user, o))
            && (fallback.Some? <==> LiveRows(t', user) != {})
  {
    var deleted := SoftDeleteThumbs(SoftDelete(t, id, now), id, now);
    assert LiveRows(deleted, user) == LiveRows(t, user) - {id};
    if fallback.Some? {
      ActivateMeaning(deleted, user, fallback.value, now);
      var t' := DeleteTx(t, user, id, fallback, now);
      ActivationKeepsLiveRows(deleted, user, fallback.value, now);
      assert fallback.value in LiveRows(deleted, user);
    } else {
      forall o
        ensures !IsActive(deleted, user, o)
      {
        assert IsActive(deleted, user, o) ==> o in LiveRows(deleted, user);
      }
    }
  }

  /** The deletion of one avatar; when it was active, the first of the remaining list takes over. */
  ghost predicate DeletedWith(before: Tables, after: Tables, user: UserId, id: AvatarId, fallback: Option<AvatarId>, now: Time)
    requires before.HasLive(id)
  {
    var deleted := SoftDeleteThumbs(SoftDelete(before, id, now), id, now);
    && after == DeleteTx(before, user, id, fallback, now)
    && (before.avatars[id].active ==>
         match fallback
         case Some(first) => ListedFirst(deleted, user, first)
         case None => LiveRows(deleted, user) == {})
    && (!before.avatars[id].active ==> fallback.None?)
  }

  /** The user has one active avatar, the newest there is. */
  ghost predicate NewestIsActive(t: Tables, user: UserId, id: AvatarId) {
    && OnlyActive(t, user, id)
    && forall o :: o in t.avatars && t.avatars[o].user == user && t.avatars[o].Live() ==>
         id in t.avatars && t.avatars[o].createdAt <= t.avatars[id].createdAt
  }

  /** The row is marked as deleted now and otherwise as it was; other rows change at most their
      activity, and the thumbnails of other avatars and other users' rows not at all. */
  ghost predicate DeletesOnly(before: Tables, after: Tables, user: UserId, id: AvatarId, now: Time) {
    && id in before.avatars && id in after.avatars && SameRecord(before.avatars[id], after.avatars[id])
    && after.avatars[id].deletedAt == Some(now) && !after.avatars[id].active
    && OthersKeepRecords(before, after, id) && OthersUntouched(before, after, user) && ThumbsGoWith(before, after, id)
  }

  /** The thumbnails of one avatar are marked as deleted, and all others stay as they are. */
  ghost predicate ThumbsGoWith(before: Tables, after: Tables, id: AvatarId) {
    && before.thumbs.Keys == after.thumbs.Keys
    && forall k :: k in before.thumbs ==>
         if k.avatar == id then after.thumbs[k].deletedAt.Some? && after.thumbs[k].blob == before.thumbs[k].blob
         else after.thumbs[k] == before.thumbs[k]
  }

  lemma SoftDeletionDeletesOnly(t: Tables, user: UserId, id: AvatarId, now: Time)
    requires Consistent(t) && t.HasLive(id) && t.avatars[id].user == user
    ensures DeletesOnly(t, SoftDeleteThumbs(SoftDelete(t, id, now), id, now), user, id, now)
  {
  }

  lemma FallbackKeepsThumbs(t: Tables, deleted: Tables, user: UserId, id: AvatarId, fallback: AvatarId, now: Time)
    requires ThumbsFollowAvatars(t) && ThumbsGoWith(t, deleted, id) && OthersKeepRecords(t, deleted, id)
    requires fallback != id && CanActivate(deleted, user, fallback) && deleted.avatars[fallback].Live()
    ensures ThumbsGoWith(t, Activate(deleted, user, fallback, now), id)
  {
    ActivateMeaning(deleted, user, fallback, now);
    hide Activate;
    forall k | k in deleted.thumbs && k.avatar == fallback
      ensures deleted.thumbs[k].deletedAt.None?
    {
      assert t.thumbs[k].deletedAt.Some? <==> t.avatars[fallback].deletedAt.Some?;
    }
  }

  lemma FallbackKeepsOthers(t: Tables, deleted: Tables, user: UserId, id: AvatarId, fallback: AvatarId, now: Time)
    requires OthersKeepRecords(t, deleted, id)
    requires fallback != id && CanActivate(deleted, user, fallback) && deleted.avatars[fallback].Live()
    ensures OthersKeepRecords(t, Activate(deleted, user, fallback, now), id)
  {
    ActivateMeaning(deleted, user, fallback, now);
    hide Activate;
    var after := Activate(deleted, user, fallback, now);
    forall k | k in t.avatars && k != id
      ensures k in after.avatars && SameRecord(t.avatars[k], after.avatars[k])
      ensures after.avatars[k].deletedAt == t.avatars[k].deletedAt
    {
      assert SameRecord(t.avatars[k], deleted.avatars[k]) && SameRecord(deleted.avatars[k], after.avatars[k]);
    }
  }

  lemma FallbackTouchesOneUser(t: Tables, deleted: Tables, user: UserId, fallback: AvatarId, now: Time)
    requires OthersUntouched(t, deleted, user) && CanActivate(deleted, user, fallback)
    ensures OthersUntouched(t, Activate(deleted, user, fallback, now), user)
  {
  }

  lemma FallbackDeletesOnly(t: Tables, deleted: Tables, user: UserId, id: AvatarId, fallback: AvatarId, now: Time, at: Time)
    requires Consistent(t) && DeletesOnly(t, deleted, user, id, at)
    requires fallback != id && CanActivate(deleted, user, fallback) && deleted.avatars[fallback].Live()
    ensures DeletesOnly(t, Activate(deleted, user, fallback, now), user, id, at)
  {
    ActivateMeaning(deleted, user, fallback, now);
    FallbackKeepsThumbs(t, deleted, user, id, fallback, now);
    FallbackKeepsOthers(t, deleted, user, id, fallback, now);
    FallbackTouchesOneUser(t, deleted, user, fallback, now);
    hide Activate, OthersUntouched, ThumbsGoWith;
  }

  lemma DeletionDeletesOnly(before: Tables, after: Tables, user: UserId, id: AvatarId, fallback: Option<AvatarId>, now: Time)
    requires Consistent(before) && before.HasLive(id) && before.avatars[id].user == user
    requires DeletedWith(before, after, user, id, fallback, now)
    ensures DeletesOnly(before, after, user, id, now)
  {
    var deleted := SoftDeleteThumbs(SoftDelete(before, id, now), id, now);
    SoftDeletionDeletesOnly(before, user, id, now);
    if fallback.Some? {
      assert !deleted.HasLive(id);
      FallbackDeletesOnly(before, deleted, user, id, fallback.value, now, now);
    }
  }

  /** With the active avatar gone nobody else's is active, so the first of the list is the newest. */
  lemma FirstListedIsNewest(before: Tables, after: Tables, user: UserId, id: AvatarId, first: AvatarId, now: Time)
    requires Consistent(before) && IsActive(before, user, id) && DeletesOnly(before, after, user, id, now)
    requires ListedFirst(SoftDeleteThumbs(SoftDelete(before, id, now), id, now), user, first) && OnlyActive(after, user, first)
    ensures NewestIsActive(after, user, first)
  {
    var deleted := SoftDeleteThumbs(SoftDelete(before, id, now), id, now);
    assert first != id && first in before.avatars;
    forall o | o in after.avatars && after.avatars[o].user == user && after.avatars[o].Live()
      ensures after.avatars[o].createdAt <= after.avatars[first].createdAt
    {
      assert o in before.avatars && deleted.avatars[o] == before.avatars[o];
      assert IsActive(before, user, o) ==> o == id;
      assert deleted.HasLive(o) && !deleted.avatars[o].active;
    }
  }

  /** After a deletion exactly that avatar is no longer live; exactly one is active if it was the active
      one and any is left, and activity is as before if it was not. */
  lemma DeletionMeaning(before: Tables, after: Tables, user: UserId, id: AvatarId, fallback: Option<AvatarId>, now: Time)
    requires Consistent(before) && before.HasLive(id) && before.avatars[id].user == user
    requires DeletedWith(before, after, user, id, fallback, now)
    ensures id in after.avatars && !after.HasLive(id) && LiveRows(after, user) == LiveRows(before, user) - {id}
    ensures IsActive(before, user, id) && LiveRows(after, user) != {} ==> exists o :: OnlyActive(after, user, o)
    ensures !IsActive(before, user, id) ==> forall a :: IsActive(after, user, a) <==> IsActive(before, user, a)
    ensures DeletesOnly(before, after, user, id, now)
    ensures IsActive(before, user, id) && LiveRows(after, user) != {} ==> exists o :: NewestIsActive(after, user, o)
  {
    DeletionDeletesOnly(before, after, user, id, fallback, now);
    hide DeletesOnly, NewestIsActive;
    if before.avatars[id].active {
      DeletingTheActiveOne(before, user, id, fallback, now);
      assert fallback.Some? ==> OnlyActive(after, user, fallback.value);
      if fallback.Some? {
        FirstListedIsNewest(before, after, user, id, fallback.value, now);
      }
    }
  }

  method Delete(store: Store, user: UserId, id: AvatarId) returns (result: Result)
    requires Inv(store.W())
    modifies store`db
    ensures Inv(store.W())
    ensures result.Ok? ==> old(store.db).HasLive(id)
                           && exists fallback :: DeletedWith(old(store.db), store.db, user, id, fallback, store.now)
    ensures result.Ok? ==> id in store.db.avatars && !store.db.HasLive(id)
                           && LiveRows(store.db, user) == LiveRows(old(store.db), user) - {id}
    ensures result.Ok? && IsActive(old(store.db), user, id) && LiveRows(store.db, user) != {} ==>
              exists o :: OnlyActive(store.db, user, o)
    ensures result.Ok? && !IsActive(old(store.db), user, id) ==>
              forall a :: IsActive(store.db, user, a) <==> IsActive(old(store.db), user, a)
    ensures result.Ok? ==> Owned(old(store.db), user, id) && DeletesOnly(old(store.db), store.db, user, id, store.now)
    ensures store.db == old(store.db) || DeletesOnly(old(store.db), store.db, user, id, store.now)
    ensures result.Ok? && IsActive(old(store.db), user, id) && LiveRows(store.db, user) != {} ==>
              exists o :: NewestIsActive(store.db, user, o)
    ensures forall other :: other != id ==> Stays(old(store.db), store.db, other)
    ensures !Owned(old(store.db), user, id) ==> store.db == old(store.db)
    ensures result.NotFound? ==> !old(store.db).HasLive(id)
    ensures result.Forbidden? ==> old(store.db).HasLive(id) && !Owned(old(store.db), user, id)
    ensures result.Ok? || result.NotFound? || result.Forbidden? || result.CallFailed?
    ensures !result.Ok? && !result.CallFailed? ==> store.db == old(store.db)
    ensures !store.databaseFaults && !store.stops ==> !result.CallFailed?
  {
    var r, seen := store.Query();
    if !r.Done? {
      return CallFailed;
    }
    if !seen.HasLive(id) {
      return NotFound;
    }
    if seen.avatars[id].user != user {
      return Forbidden;
    }
    var thumbs;
    r, thumbs := store.Query();
    if !r.Done? {
      return CallFailed;
    }
    var fallback := None;
    if seen.avatars[id].active {
      fallback := FirstOfList(SoftDeleteThumbs(SoftDelete(store.db, id, store.now), id, store.now), user);
    }
    ghost var before, after := store.db, DeleteTx(store.db, user, id, fallback, store.now);
    assert DeletedWith(before, after, user, id, fallback, store.now);
    DeletionMeaning(before, after, user, id, fallback, store.now);
    hide Inv, DeletedWith, DeleteTx, SoftDelete, SoftDeleteThumbs, LiveRows, OnlyActive, IsActive, DeletesOnly, NewestIsActive;
    DeleteTxKeepsInv(store.W(), user, id, fallback, store.now);
    DeleteTxKeepsRows(store.db, user, id, fallback, store.now);
    r := store.Commit(DeleteTx(store.db, user, id, fallback, store.now));
    assert r.Done? ==> DeletedWith(before, store.db, user, id, fallback, store.now);
    result := if r.Done? then Ok(id) else CallFailed;
  }
}
