/** The avatars and thumbnails tables, one function per SQL statement, and the three
    transactions the use cases build from those statements. Every statement is total: its
    WHERE clause decides whether it changes anything. */
module AvatarTables {
  import opened Wrappers
  import Crop

  type AvatarId = nat
  type BlobId = nat
  type UserId = string
  type Time = int

  datatype UploadStatus = Uploading | Uploaded | UploadFailed

  datatype ProcessingStatus = Pending | Processing | Completed | Failed

  datatype Avatar = Avatar(
    user: UserId,
    width: int,
    height: int,
    sourceBlob: Option<BlobId>,
    upload: UploadStatus,
    processing: ProcessingStatus,
    startedAt: Option<Time>,
    attempts: nat,
    lastError: string,
    crop: Crop.Square,
    createdAt: Time,
    updatedAt: Time,
    deletedAt: Option<Time>,
    active: bool)
  {
    predicate Live() {
      deletedAt.None?
    }

    predicate Claimable() {
      Live() && upload.Uploaded? && processing.Pending?
    }

    /** Waiting for a worker again, with a new crop. */
    function Refreshed(newCrop: Crop.Square, now: Time): Avatar {
      this.(active := true, crop := newCrop, processing := Pending, startedAt := None, lastError := "",
            updatedAt := now)
    }

    function MarkProcessed(now: Time): Avatar {
      this.(processing := Completed, updatedAt := now)
    }

    function MarkFailed(reason: string, now: Time): Avatar {
      this.(processing := Failed, lastError := reason, updatedAt := now)
    }

    /** What the worker writes after a failure: final deliveries end in `Failed`. */
    function AfterFailure(final: bool, reason: string, now: Time): Avatar {
      if final then MarkFailed(reason, now)
      else this.(processing := Pending, startedAt := None, lastError := reason, updatedAt := now)
    }
  }

  datatype ThumbnailSize = Size100 | Size300

  /** The conflict target of the thumbnail upsert. */
  datatype ThumbKey = ThumbKey(avatar: AvatarId, size: ThumbnailSize)

  datatype Thumb = Thumb(blob: Option<BlobId>, createdAt: Time, deletedAt: Option<Time>)

  datatype Tables = Tables(avatars: map<AvatarId, Avatar>, thumbs: map<ThumbKey, Thumb>) {
    predicate HasLive(id: AvatarId) {
      id in avatars && avatars[id].Live()
    }
  }

  // ----- Statements on avatars -----

  function Insert(t: Tables, id: AvatarId, a: Avatar): Tables {
    t.(avatars := t.avatars[id := a])
  }

  function DeactivateCompeting(t: Tables, user: UserId, id: AvatarId, now: Time): Tables {
    t.(avatars := map k | k in t.avatars ::
         if t.avatars[k].user == user && t.avatars[k].Live() && k != id
         then t.avatars[k].(active := false, updatedAt := now) else t.avatars[k])
  }

  predicate CanActivate(t: Tables, user: UserId, id: AvatarId) {
    id in t.avatars && t.avatars[id].user == user
  }

  function ActivateRow(t: Tables, user: UserId, id: AvatarId, now: Time): Tables {
    if CanActivate(t, user, id)
    then t.(avatars := t.avatars[id := t.avatars[id].(deletedAt := None, active := true, updatedAt := now)])
    else t
  }

  function Claimed(a: Avatar, now: Time): Avatar {
    a.(processing := Processing, startedAt := Some(now), attempts := a.attempts + 1, updatedAt := now)
  }

  function ClaimRow(t: Tables, id: AvatarId, now: Time): Tables {
    if id in t.avatars && t.avatars[id].Claimable()
    then t.(avatars := t.avatars[id := Claimed(t.avatars[id], now)]) else t
  }

  /** Writes every column of a possibly stale copy, except the creation and deletion times. */
  function UpdateRow(t: Tables, id: AvatarId, a: Avatar): Tables {
    if t.HasLive(id)
    then t.(avatars := t.avatars[id := a.(createdAt := t.avatars[id].createdAt, deletedAt := None)]) else t
  }

  function SoftDelete(t: Tables, id: AvatarId, now: Time): Tables {
    if t.HasLive(id)
    then t.(avatars := t.avatars[id := t.avatars[id].(deletedAt := Some(now), updatedAt := now, active := false)])
    else t
  }

  predicate Expired(deletedAt: Option<Time>, before: Time) {
    deletedAt.Some? && deletedAt.value < before
  }

  /** Removing an avatar removes its thumbnails with it (the foreign key cascades). */
  function HardDeleteAvatars(t: Tables, before: Time): Tables {
    Tables(map k | k in t.avatars && !Expired(t.avatars[k].deletedAt, before) :: t.avatars[k],
           map k | k in t.thumbs && !(k.avatar in t.avatars && Expired(t.avatars[k.avatar].deletedAt, before)) :: t.thumbs[k])
  }

  // ----- Statements on thumbnails -----

  function RestoreThumbs(t: Tables, id: AvatarId): Tables {
    t.(thumbs := map k | k in t.thumbs :: if k.avatar == id then t.thumbs[k].(deletedAt := None) else t.thumbs[k])
  }

  function SoftDeleteThumbs(t: Tables, id: AvatarId, now: Time): Tables {
    t.(thumbs := map k | k in t.thumbs ::
         if k.avatar == id && t.thumbs[k].deletedAt.None? then t.thumbs[k].(deletedAt := Some(now)) else t.thumbs[k])
  }

  function UpsertThumb(t: Tables, k: ThumbKey, blob: Option<BlobId>, now: Time): Tables {
    t.(thumbs := t.thumbs[k := if k in t.thumbs then t.thumbs[k].(blob := blob) else Thumb(blob, now, None)])
  }

  function HardDeleteThumbs(t: Tables, before: Time): Tables {
    t.(thumbs := map k | k in t.thumbs && !Expired(t.thumbs[k].deletedAt, before) :: t.thumbs[k])
  }

  // ----- Repository operation and transactions -----

  /** The repository's three-statement activation. It always runs inside a transaction, which is
      rolled back when the second statement finds no row. */
  function Activate(t: Tables, user: UserId, id: AvatarId, now: Time): Tables {
    if CanActivate(t, user, id)
    then RestoreThumbs(ActivateRow(DeactivateCompeting(t, user, id, now), user, id, now), id) else t
  }

  /** Re-queue an avatar with a new crop; rolled back when the row is gone. */
  function RefreshTx(t: Tables, user: UserId, id: AvatarId, snapshot: Avatar, crop: Crop.Square, now: Time): Tables {
    if CanActivate(t, user, id) then UpdateRow(Activate(t, user, id, now), id, snapshot.Refreshed(crop, now)) else t
  }

  /** Record a finished upload and make the avatar the active one; rolled back when the row
      was deleted meanwhile. */
  function UploadedTx(t: Tables, id: AvatarId, snapshot: Avatar, now: Time): Tables {
    if t.HasLive(id)
    then Activate(UpdateRow(t, id, snapshot.(upload := Uploaded)), snapshot.user, id, now) else t
  }

  /** Soft-delete an avatar with its thumbnails and, if one was chosen, activate a fallback. */
  function DeleteTx(t: Tables, user: UserId, id: AvatarId, fallback: Option<AvatarId>, now: Time): Tables {
    if !t.HasLive(id) then t
    else
      var deleted := SoftDeleteThumbs(SoftDelete(t, id, now), id, now);
      if fallback.Some? then Activate(deleted, user, fallback.value, now) else deleted
  }

  // ----- What the statements keep -----

  ghost predicate DeletedInactive(t: Tables) {
    forall id :: id in t.avatars && t.avatars[id].deletedAt.Some? ==> !t.avatars[id].active
  }

  predicate IsActive(t: Tables, user: UserId, id: AvatarId) {
    id in t.avatars && t.avatars[id].user == user && t.avatars[id].Live() && t.avatars[id].active
  }

  ghost predicate SingleActive(t: Tables) {
    forall i, j :: i in t.avatars && j in t.avatars && IsActive(t, t.avatars[i].user, i) && IsActive(t, t.avatars[i].user, j) ==> i == j
  }

  ghost predicate ThumbsFollowAvatars(t: Tables) {
    forall k :: k in t.thumbs ==>
      k.avatar in t.avatars && (t.thumbs[k].deletedAt.Some? <==> t.avatars[k.avatar].deletedAt.Some?)
  }

  ghost predicate Consistent(t: Tables) {
    DeletedInactive(t) && SingleActive(t) && ThumbsFollowAvatars(t)
  }

  /** What an avatar shows: nobody ever changes it after the upload. */
  predicate SamePicture(a: Avatar, b: Avatar) {
    && a.user == b.user && a.width == b.width && a.height == b.height && a.sourceBlob == b.sourceBlob
    && a.upload == b.upload && a.createdAt == b.createdAt
  }

  /** How an avatar's processing stands. */
  predicate SameProgress(a: Avatar, b: Avatar) {
    && a.processing == b.processing && a.startedAt == b.startedAt && a.attempts == b.attempts && a.lastError == b.lastError
  }

  /** The rows differ at most in activity, deletion and the time of their last change. */
  predicate SameRecord(a: Avatar, b: Avatar) {
    SamePicture(a, b) && SameProgress(a, b) && a.crop == b.crop
  }

  /** A delivery has left the avatar its picture, its crop and its activity. */
  predicate Untouched(a: Avatar, b: Avatar) {
    SamePicture(a, b) && b.crop == a.crop && b.active == a.active && b.deletedAt == a.deletedAt
  }

  /** How the work on a claimed avatar is written down: completed; or failed for a reason, and waiting
      again unless the delivery was the last one. */
  predicate WrittenDown(claimed: Avatar, row: Avatar, ok: bool, final: bool, reason: string, now: Time) {
    && Untouched(claimed, row) && row.attempts == claimed.attempts && row.updatedAt == now
    && (ok ==> row.processing.Completed? && row.startedAt == claimed.startedAt && row.lastError == claimed.lastError)
    && (!ok ==> row.lastError == reason)
    && (!ok && final ==> row.processing.Failed? && row.startedAt == claimed.startedAt)
    && (!ok && !final ==> row.processing.Pending? && row.startedAt.None?)
  }

  /** The row waits for a worker again, active and live, with a crop and all else as before. */
  predicate RequeuedWith(a: Avatar, b: Avatar, crop: Crop.Square) {
    && SamePicture(a, b) && b.crop == crop && b.attempts == a.attempts
    && b.processing.Pending? && b.startedAt.None? && b.lastError == "" && b.deletedAt.None? && b.active
  }

  /** No row but that of `id` is added, removed, deleted or changed in more than its activity. */
  ghost predicate OthersKeepRecords(before: Tables, after: Tables, id: AvatarId) {
    && (forall k :: k in after.avatars && k != id ==> k in before.avatars)
    && (forall k :: k in before.avatars && k != id ==>
          k in after.avatars && SameRecord(before.avatars[k], after.avatars[k])
          && after.avatars[k].deletedAt == before.avatars[k].deletedAt)
  }

  /** No row but that of `id` is touched, and no thumbnail but its own. */
  ghost predicate OnlyAvatar(before: Tables, after: Tables, id: AvatarId) {
    && (forall k :: k != id ==> (k in before.avatars <==> k in after.avatars))
    && (forall k :: k != id && k in before.avatars ==> after.avatars[k] == before.avatars[k])
    && (forall k: ThumbKey :: k.avatar != id ==> (k in before.thumbs <==> k in after.thumbs))
    && (forall k: ThumbKey :: k.avatar != id && k in before.thumbs ==> after.thumbs[k] == before.thumbs[k])
  }

  /** A live row stays: it is not deleted, keeps its owner and source blob, and stays uploaded. */
  predicate Stays(before: Tables, after: Tables, id: AvatarId) {
    before.HasLive(id) ==>
      && after.HasLive(id) && after.avatars[id].user == before.avatars[id].user
      && after.avatars[id].sourceBlob == before.avatars[id].sourceBlob
      && (before.avatars[id].upload.Uploaded? ==> after.avatars[id].upload.Uploaded?)
  }

  ghost predicate AllStay(before: Tables, after: Tables) {
    forall id :: Stays(before, after, id)
  }

  lemma StayOn(before: Tables, middle: Tables, after: Tables)
    requires AllStay(before, middle) && AllStay(middle, after)
    ensures AllStay(before, after)
  {
    forall id
      ensures Stays(before, after, id)
    {
      assert Stays(before, middle, id) && Stays(middle, after, id);
    }
  }

  /** After an activation the chosen avatar is live and is the only active one of its user;
      nobody else's rows are touched. */
  lemma ActivateMeaning(t: Tables, user: UserId, id: AvatarId, now: Time)
    requires CanActivate(t, user, id)
    ensures var t' := Activate(t, user, id, now);
            && t'.avatars.Keys == t.avatars.Keys && t'.thumbs.Keys == t.thumbs.Keys
            && (forall k :: IsActive(t', user, k) <==> k == id)
            && (forall k :: k in t.avatars && t.avatars[k].user != user ==> t'.avatars[k] == t.avatars[k])
            && OthersKeepRecords(t, t', id) && SameRecord(t.avatars[id], t'.avatars[id])
            && (forall k :: k in t.thumbs && k.avatar == id ==> t'.thumbs[k] == t.thumbs[k].(deletedAt := None))
            && (forall k :: k in t.thumbs && k.avatar != id ==> t'.thumbs[k] == t.thumbs[k])
  {
  }

  lemma ActivateKeepsConsistent(t: Tables, user: UserId, id: AvatarId, now: Time)
    requires Consistent(t)
    ensures Consistent(Activate(t, user, id, now))
  {
    if CanActivate(t, user, id) {
      ActivateMeaning(t, user, id, now);
    }
  }

  lemma RefreshTxKeepsConsistent(t: Tables, id: AvatarId, snapshot: Avatar, crop: Crop.Square, now: Time)
    requires Consistent(t)
    ensures Consistent(RefreshTx(t, snapshot.user, id, snapshot, crop, now))
  {
    if CanActivate(t, snapshot.user, id) {
      ActivateKeepsConsistent(t, snapshot.user, id, now);
      ActivateMeaning(t, snapshot.user, id, now);
      assert IsActive(Activate(t, snapshot.user, id, now), snapshot.user, id);
    }
  }

  lemma UploadedTxKeepsConsistent(t: Tables, id: AvatarId, snapshot: Avatar, now: Time)
    requires Consistent(t)
    requires id in t.avatars && !snapshot.active
    ensures Consistent(UploadedTx(t, id, snapshot, now))
  {
    var updated := UpdateRow(t, id, snapshot.(upload := Uploaded));
    assert Consistent(updated);
    ActivateKeepsConsistent(updated, snapshot.user, id, now);
  }

  lemma SoftDeleteKeepsConsistent(t: Tables, id: AvatarId, now: Time)
    requires Consistent(t) && t.HasLive(id)
    ensures Consistent(SoftDeleteThumbs(SoftDelete(t, id, now), id, now))
  {
  }

  lemma DeleteTxKeepsConsistent(t: Tables, user: UserId, id: AvatarId, fallback: Option<AvatarId>, now: Time)
    requires Consistent(t)
    ensures Consistent(DeleteTx(t, user, id, fallback, now))
  {
    if t.HasLive(id) {
      SoftDeleteKeepsConsistent(t, id, now);
      if fallback.Some? {
        ActivateKeepsConsistent(SoftDeleteThumbs(SoftDelete(t, id, now), id, now), user, fallback.value, now);
      }
    }
  }

  lemma UploadKeepsRows(t: Tables, id: AvatarId, row: Avatar, failed: Avatar, now: Time)
    requires id !in t.avatars
    ensures AllStay(t, t) && AllStay(t, Insert(t, id, row)) && AllStay(t, UpdateRow(Insert(t, id, row), id, failed))
    ensures AllStay(t, UploadedTx(Insert(t, id, row), id, row, now))
  {
  }

  lemma ClaimRowKeepsRows(t: Tables, id: AvatarId, now: Time)
    ensures AllStay(t, t) && AllStay(t, ClaimRow(t, id, now))
  {
  }

  lemma WriteKeepsOthers(before: Tables, t: Tables, id: AvatarId, row: Avatar)
    requires OthersKeepRecords(before, t, id)
    ensures OthersKeepRecords(before, UpdateRow(t, id, row), id)
  {
  }

  /** A re-queued avatar keeps its picture and its attempts, and no other row's record changes. */
  lemma RefreshMeaning(t: Tables, id: AvatarId, crop: Crop.Square, now: Time)
    requires id in t.avatars
    ensures var t' := RefreshTx(t, t.avatars[id].user, id, t.avatars[id], crop, now);
            id in t'.avatars && RequeuedWith(t.avatars[id], t'.avatars[id], crop) && OthersKeepRecords(t, t', id)
  {
    var mid := Activate(t, t.avatars[id].user, id, now);
    ActivateMeaning(t, t.avatars[id].user, id, now);
    WriteKeepsOthers(t, mid, id, t.avatars[id].Refreshed(crop, now));
    assert mid.HasLive(id) && mid.avatars[id].createdAt == t.avatars[id].createdAt;
    hide Activate, OthersKeepRecords, IsActive;
  }

  lemma RefreshTxKeepsRows(t: Tables, id: AvatarId, crop: Crop.Square, now: Time)
    requires id in t.avatars
    ensures AllStay(t, RefreshTx(t, t.avatars[id].user, id, t.avatars[id], crop, now))
  {
  }

  lemma DeleteTxKeepsRows(t: Tables, user: UserId, id: AvatarId, fallback: Option<AvatarId>, now: Time)
    ensures forall other :: other != id ==> Stays(t, DeleteTx(t, user, id, fallback, now), other)
  {
  }

  lemma HardDeletesKeepRows(t: Tables, before: Time)
    ensures AllStay(t, HardDeleteAvatars(t, before)) && AllStay(t, HardDeleteThumbs(t, before))
  {
  }

  // ----- Every interleaving of single statements -----

  /** One statement with any arguments, so any interleaving of any actors and any stale copy. */
  datatype Statement =
    | StInsert(newId: AvatarId, row: Avatar)
    | StDeactivate(user: UserId, keep: AvatarId)
    | StActivate(owner: UserId, id: AvatarId)
    | StClaim(id: AvatarId)
    | StUpdate(id: AvatarId, row: Avatar)
    | StSoftDelete(id: AvatarId)
    | StHardDelete(before: Time)
    | StSetStatus(id: AvatarId, status: ProcessingStatus)

  function Execute(t: Tables, st: Statement, now: Time): Tables {
    match st
    case StInsert(id, row) => if id in t.avatars then t else Insert(t, id, row.(active := false, deletedAt := None))
    case StDeactivate(user, keep) => DeactivateCompeting(t, user, keep, now)
    case StActivate(owner, id) => ActivateRow(t, owner, id, now)
    case StClaim(id) => ClaimRow(t, id, now)
    case StUpdate(id, row) => UpdateRow(t, id, row)
    case StSoftDelete(id) => SoftDelete(t, id, now)
    case StHardDelete(before) => HardDeleteAvatars(t, before)
    case StSetStatus(id, status) =>
      if t.HasLive(id) then t.(avatars := t.avatars[id := t.avatars[id].(processing := status, updatedAt := now)]) else t
  }

  function ExecuteAll(t: Tables, sts: seq<(Statement, Time)>): Tables {
    if sts == [] then t else
      var last := |sts| - 1;
      Execute(ExecuteAll(t, sts[..last]), sts[last].0, sts[last].1)
  }

  /** A deleted avatar is never active, however the statements of all actors interleave. */
  lemma {:induction false} DeletedIsNeverActive(t: Tables, sts: seq<(Statement, Time)>)
    requires DeletedInactive(t)
    ensures DeletedInactive(ExecuteAll(t, sts))
  {
    if sts != [] {
      DeletedIsNeverActive(t, sts[..|sts| - 1]);
    }
  }
}
