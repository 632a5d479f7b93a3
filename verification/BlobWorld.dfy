/** The content-addressed blob store: blob rows keyed by content digest, objects in the object
    store, and the avatars and thumbnails that refer to blobs. One function per statement or
    storage request, and what each of them keeps. */
module BlobWorld {
  import opened Wrappers
  import opened AvatarTables
  import Crop

  const BLOB_PREFIX := "blobs/"
  const CLAIM_TIMEOUT: int := 3600_000_000_000

  type Byte = b: nat | b < 256

  /** A content digest; distinct contents are taken to have distinct digests. */
  type Digest = seq<Byte>

  datatype BlobStatus = BlobUploading | Ready | BlobFailed | Deleting

  datatype Blob = Blob(digest: Digest, key: string, status: BlobStatus, createdAt: Time, updatedAt: Time)

  datatype World = World(db: Tables, blobs: map<BlobId, Blob>, objects: map<string, Time>)

  // ----- Object keys -----

  function HexDigit(d: nat): char
    requires d < 16
  {
    if d < 10 then ('0' as int + d) as char else ('a' as int + d - 10) as char
  }

  function Hex(d: Digest): string {
    if d == [] then "" else [HexDigit(d[0] / 16), HexDigit(d[0] % 16)] + Hex(d[1..])
  }

  function KeyOf(d: Digest): string {
    BLOB_PREFIX + Hex(d)
  }

  lemma {:induction false} HexIsInjective(a: Digest, b: Digest)
    requires Hex(a) == Hex(b)
    ensures a == b
  {
    if a != [] && b != [] {
      var ha, hb := Hex(a), Hex(b);
      assert ha[0] == hb[0] && ha[1] == hb[1] && ha[2..] == Hex(a[1..]) && hb[2..] == Hex(b[1..]);
      HexIsInjective(a[1..], b[1..]);
      assert a == [a[0]] + a[1..] && b == [b[0]] + b[1..];
    }
  }

  function HexValue(c: char): nat {
    if '0' <= c <= '9' then c as int - '0' as int else if 'a' <= c <= 'f' then c as int - 'a' as int + 10 else 16
  }

  /** Two lower-case hexadecimal digits spell each byte. */
  lemma {:induction false} HexSpells(d: Digest, i: nat)
    requires i < |d|
    ensures |Hex(d)| == 2 * |d|
    ensures 16 * HexValue(Hex(d)[2 * i]) + HexValue(Hex(d)[2 * i + 1]) == d[i]
    ensures HexValue(Hex(d)[2 * i]) < 16 && HexValue(Hex(d)[2 * i + 1]) < 16
  {
    if |d| > 1 {
      HexSpells(d[1..], if i == 0 then 0 else i - 1);
    } else {
      assert Hex(d[1..]) == "";
    }
  }

  /** Keys of blobs are what reconciliation lists. */
  lemma KeysAreListed(d: Digest)
    ensures "blobs/" <= KeyOf(d)
  {
  }

  lemma KeysAreInjective(a: Digest, b: Digest)
    requires KeyOf(a) == KeyOf(b)
    ensures a == b
  {
    assert KeyOf(a)[|BLOB_PREFIX|..] == Hex(a) && KeyOf(b)[|BLOB_PREFIX|..] == Hex(b);
    HexIsInjective(a, b);
  }

  // ----- References -----

  predicate ReferencedByAvatar(t: Tables, b: BlobId) {
    exists id :: id in t.avatars && t.avatars[id].sourceBlob == Some(b)
  }

  predicate ReferencedByThumb(t: Tables, b: BlobId) {
    exists k :: k in t.thumbs && t.thumbs[k].blob == Some(b)
  }

  predicate Unreferenced(t: Tables, b: BlobId) {
    !ReferencedByAvatar(t, b) && !ReferencedByThumb(t, b)
  }

  // ----- Statements and requests -----

  function WithStatus(blobs: map<BlobId, Blob>, b: BlobId, status: BlobStatus, now: Time): map<BlobId, Blob> {
    if b in blobs then blobs[b := blobs[b].(status := status, updatedAt := now)] else blobs
  }

  predicate ClaimableForDeletion(w: World, b: BlobId, now: Time) {
    && b in w.blobs
    && (!w.blobs[b].status.Deleting? || w.blobs[b].updatedAt < now - CLAIM_TIMEOUT)
    && Unreferenced(w.db, b)
  }

  function ClaimForDeletion(w: World, b: BlobId, now: Time): World {
    if ClaimableForDeletion(w, b, now) then w.(blobs := WithStatus(w.blobs, b, Deleting, now)) else w
  }

  function DeleteBlobRow(w: World, b: BlobId): World {
    if Unreferenced(w.db, b) then w.(blobs := w.blobs - {b}) else w
  }

  /** Unreferenced rows created before a cutoff. */
  function Orphans(w: World, createdBefore: Time): set<BlobId> {
    set b | b in w.blobs && w.blobs[b].createdAt < createdBefore && Unreferenced(w.db, b)
  }

  /** Some row accounts for an object under this key. */
  predicate HasObject(w: World, key: string) {
    exists b :: b in w.blobs && w.blobs[b].key == key
  }

  function CreationTimes(w: World): map<BlobId, Time> {
    map b | b in w.blobs :: w.blobs[b].createdAt
  }

  // ----- Safety -----

  ghost predicate DigestsUnique(w: World) {
    forall a, b :: a in w.blobs && b in w.blobs && w.blobs[a].digest == w.blobs[b].digest ==> a == b
  }

  ghost predicate KeysMatch(w: World) {
    forall b :: b in w.blobs ==> w.blobs[b].key == KeyOf(w.blobs[b].digest)
  }

  predicate IsReady(w: World, b: BlobId) {
    b in w.blobs && w.blobs[b].status.Ready?
  }

  ghost predicate ReadyHaveObjects(w: World) {
    forall b :: IsReady(w, b) ==> w.blobs[b].key in w.objects
  }

  /** An avatar row may say it is uploaded only if its source blob, when it has one, is ready. */
  predicate RowIsBacked(w: World, a: Avatar) {
    a.upload.Uploaded? && a.sourceBlob.Some? ==> IsReady(w, a.sourceBlob.value)
  }

  ghost predicate ReferencesReady(w: World) {
    && (forall id :: id in w.db.avatars ==> RowIsBacked(w, w.db.avatars[id]))
    && (forall k :: k in w.db.thumbs && w.db.thumbs[k].blob.Some? ==> IsReady(w, w.db.thumbs[k].blob.value))
  }

  /** Reference safety: ready blobs have their objects, and uploaded avatars and thumbnails
      refer to ready blobs only. */
  ghost predicate Safe(w: World) {
    DigestsUnique(w) && KeysMatch(w) && ReadyHaveObjects(w) && ReferencesReady(w)
  }

  /** Everything the service keeps between its calls. */
  ghost predicate Inv(w: World) {
    Safe(w) && Consistent(w.db)
  }

  /** No blob row is lost and none changes its content. */
  predicate KeepsContents(before: map<BlobId, Blob>, after: map<BlobId, Blob>) {
    forall b :: b in before ==> b in after && after[b].digest == before[b].digest
  }

  /** Only the status and the time of the last change of one row differ, the latter being `now`. */
  ghost predicate OnlyStatus(before: map<BlobId, Blob>, after: map<BlobId, Blob>, b: BlobId, now: Time) {
    && before.Keys == after.Keys
    && (forall other :: other in before && other != b ==> after[other] == before[other])
    && (b in before ==> after[b].digest == before[b].digest && after[b].key == before[b].key
                        && after[b].createdAt == before[b].createdAt && after[b].updatedAt == now)
  }

  lemma SameKeySameBlob(w: World, a: BlobId, b: BlobId)
    requires DigestsUnique(w) && KeysMatch(w) && a in w.blobs && b in w.blobs && w.blobs[a].key == w.blobs[b].key
    ensures a == b
  {
    KeysAreInjective(w.blobs[a].digest, w.blobs[b].digest);
  }

  lemma NewBlobKeepsInv(w: World, b: BlobId, digest: Digest, now: Time)
    requires Inv(w) && b !in w.blobs
    requires forall other :: other in w.blobs ==> w.blobs[other].digest != digest
    ensures Inv(w.(blobs := w.blobs[b := Blob(digest, KeyOf(digest), BlobUploading, now, now)]))
  {
  }

  lemma StatusMeaning(blobs: map<BlobId, Blob>, b: BlobId, status: BlobStatus, now: Time)
    requires b in blobs
    ensures OnlyStatus(blobs, WithStatus(blobs, b, status, now), b, now) && WithStatus(blobs, b, status, now)[b].status == status
    ensures KeepsContents(blobs, blobs) && KeepsContents(blobs, WithStatus(blobs, b, status, now))
  {
  }

  /** Any status change of a blob keeps the store safe, provided `Ready` is only written when the
      object is there and never taken away from a referenced blob. */
  lemma StatusKeepsInv(w: World, b: BlobId, status: BlobStatus, now: Time)
    requires Inv(w) && b in w.blobs
    requires status.Ready? ==> w.blobs[b].key in w.objects
    requires !status.Ready? ==> !w.blobs[b].status.Ready? || Unreferenced(w.db, b)
    ensures Inv(w.(blobs := WithStatus(w.blobs, b, status, now)))
  {
    hide Consistent;
    var w' := w.(blobs := WithStatus(w.blobs, b, status, now));
    forall id | id in w'.db.avatars
      ensures RowIsBacked(w', w'.db.avatars[id])
    {
      assert RowIsBacked(w, w.db.avatars[id]);
    }
  }

  lemma PutObjectKeepsInv(w: World, key: string, now: Time)
    requires Inv(w)
    ensures Inv(w.(objects := w.objects[key := now]))
  {
  }

  lemma RemoveObjectKeepsInv(w: World, key: string)
    requires Inv(w)
    requires forall b :: IsReady(w, b) ==> w.blobs[b].key != key
    ensures Inv(w.(objects := w.objects - {key}))
  {
  }

  lemma RemoveRowKeepsInv(w: World, b: BlobId)
    requires Inv(w)
    ensures Inv(DeleteBlobRow(w, b))
  {
  }

  /** A change of the tables keeps the store safe when every row of the new tables is backed. */
  lemma TablesKeepInv(w: World, t: Tables)
    requires Inv(w) && Consistent(t)
    requires forall id :: id in t.avatars ==> RowIsBacked(w, t.avatars[id])
    requires forall k :: k in t.thumbs && t.thumbs[k].blob.Some? ==> IsReady(w, t.thumbs[k].blob.value)
    ensures Inv(w.(db := t))
  {
  }

  lemma InsertKeepsInv(w: World, id: AvatarId, a: Avatar)
    requires Inv(w) && id !in w.db.avatars && !a.upload.Uploaded? && !a.active && a.Live()
    ensures Inv(w.(db := Insert(w.db, id, a)))
  {
  }

  lemma UploadedTxKeepsInv(w: World, id: AvatarId, snapshot: Avatar, now: Time)
    requires Inv(w) && id in w.db.avatars && !snapshot.active
    requires snapshot.sourceBlob.Some? ==> IsReady(w, snapshot.sourceBlob.value)
    ensures Inv(w.(db := UploadedTx(w.db, id, snapshot, now)))
  {
    hide Consistent;
    UploadedTxKeepsConsistent(w.db, id, snapshot, now);
    TablesKeepInv(w, UploadedTx(w.db, id, snapshot, now));
  }

  lemma RefreshTxKeepsInv(w: World, id: AvatarId, snapshot: Avatar, crop: Crop.Square, now: Time)
    requires Inv(w) && RowIsBacked(w, snapshot)
    ensures Inv(w.(db := RefreshTx(w.db, snapshot.user, id, snapshot, crop, now)))
  {
    hide Consistent;
    RefreshTxKeepsConsistent(w.db, id, snapshot, crop, now);
    assert RowIsBacked(w, snapshot.Refreshed(crop, now));
    TablesKeepInv(w, RefreshTx(w.db, snapshot.user, id, snapshot, crop, now));
  }

  lemma DeleteTxKeepsInv(w: World, user: UserId, id: AvatarId, fallback: Option<AvatarId>, now: Time)
    requires Inv(w)
    ensures Inv(w.(db := DeleteTx(w.db, user, id, fallback, now)))
  {
    hide Consistent;
    DeleteTxKeepsConsistent(w.db, user, id, fallback, now);
    TablesKeepInv(w, DeleteTx(w.db, user, id, fallback, now));
  }

  /** Writing back a row whose activity was not changed meanwhile. */
  lemma UpdateKeepsInv(w: World, id: AvatarId, a: Avatar)
    requires Inv(w) && RowIsBacked(w, a)
    requires w.db.HasLive(id) ==> a.user == w.db.avatars[id].user && a.active == w.db.avatars[id].active
    ensures Inv(w.(db := UpdateRow(w.db, id, a)))
  {
  }

  lemma ClaimRowKeepsInv(w: World, id: AvatarId, now: Time)
    requires Inv(w)
    ensures Inv(w.(db := ClaimRow(w.db, id, now)))
  {
  }

  lemma UpsertKeepsInv(w: World, k: ThumbKey, blob: Option<BlobId>, now: Time)
    requires Inv(w) && w.db.HasLive(k.avatar)
    requires blob.Some? ==> IsReady(w, blob.value)
    ensures Inv(w.(db := UpsertThumb(w.db, k, blob, now)))
  {
  }

  lemma HardDeletesKeepInv(w: World, before: Time)
    requires Inv(w)
    ensures Inv(w.(db := HardDeleteAvatars(w.db, before)))
    ensures Inv(w.(db := HardDeleteThumbs(w.db, before)))
  {
  }
}
