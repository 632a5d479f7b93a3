/** Whole serial runs: use cases, worker deliveries and jobs in any order, each of them with every
    call free to fail and the process free to stop anywhere in it. */
module SerialRuns {
  import opened Wrappers
  import opened AvatarTables
  import opened BlobWorld
  import opened Store
  import opened AvatarService
  import opened DeliveryHeaders
  import UploadWorker
  import Cronjob
  import Crop

  datatype Operation =
    | Upload(user: UserId, width: int, height: int, digest: Digest, request: Crop.Request)
    | EditCrop(user: UserId, id: AvatarId, request: Crop.Request)
    | Remove(user: UserId, id: AvatarId)
    | Deliver(id: AvatarId, headers: Headers, sizes: seq<UploadWorker.Operation>, encoded: UploadWorker.Encoding)
    | Retain(config: Cronjob.Config)
    | Reconcile(config: Cronjob.Config)
    | Pass(time: nat)

  /** The user's avatar is live and uploaded, and shows this content: its blob is ready and the
      object is there. */
  predicate Serves(w: World, user: UserId, id: AvatarId, digest: Digest) {
    && Owned(w.db, user, id) && w.db.avatars[id].upload.Uploaded? && Shows(w, id, digest)
    && w.blobs[w.db.avatars[id].sourceBlob.value].key in w.objects
  }

  /** One operation: whatever is served is served on, unless its owner removes it. */
  ghost predicate ServesOn(w: World, after: World, op: Operation) {
    forall user, id, digest :: Serves(w, user, id, digest) && op != Remove(user, id) ==> Serves(after, user, id, digest)
  }

  /** Blobs that avatars refer to keep their contents. */
  ghost predicate ContentsStand(w: World, after: World) {
    forall b :: b in w.blobs && b in after.blobs && ReferencedByAvatar(after.db, b) ==> after.blobs[b].digest == w.blobs[b].digest
  }

  lemma StaysServed(w: World, after: World, user: UserId, id: AvatarId, digest: Digest)
    requires Inv(after) && ContentsStand(w, after)
    requires Stays(w.db, after.db, id) && Serves(w, user, id, digest)
    ensures Serves(after, user, id, digest)
  {
    var b := w.db.avatars[id].sourceBlob.value;
    assert RowIsBacked(after, after.db.avatars[id]);
    assert IsReady(after, b) && ReferencedByAvatar(after.db, b);
  }

  lemma StayingServes(w: World, after: World, op: Operation)
    requires Inv(after) && ContentsStand(w, after)
    requires forall id :: (op.Remove? && op.id == id) || Stays(w.db, after.db, id)
    requires op.Remove? && !Owned(w.db, op.user, op.id) ==> after.db == w.db
    ensures ServesOn(w, after, op)
  {
    forall user, id, digest | Serves(w, user, id, digest) && op != Remove(user, id)
      ensures Serves(after, user, id, digest)
    {
      assert Owned(w.db, user, id);
      StaysServed(w, after, user, id, digest);
    }
  }

  /** One operation as the service runs it. */
  method Step(store: Store, op: Operation) returns (accepted: Option<AvatarId>)
    requires Inv(store.W())
    modifies store
    ensures Inv(store.W()) && ServesOn(old(store.W()), store.W(), op)
    ensures accepted.Some? ==> op.Upload? && Serves(store.W(), op.user, accepted.value, op.digest)
    ensures store.Dependable() && op.Upload? && Crop.NormalizeCrop(op.request, op.width, op.height).Accepted? ==>
              accepted.Some? || exists b :: BeingDeleted(store.W(), b, op.digest)
    ensures store.Dependable() && op.Remove? ==> !Owned(store.db, op.user, op.id)
  {
    hide OnlyAvatar, OthersKeepRecords, OthersUntouched, Cronjob.OnlyExpiredWent, Cronjob.NoneExpiredLeft, Cronjob.TookTheOldest;
    accepted := None;
    ghost var w := store.W();
    match op {
      case Upload(user, width, height, digest, request) =>
        var result := Create(store, user, width, height, digest, request);
        accepted := if result.Ok? then Some(result.id) else None;
      case EditCrop(user, id, request) =>
        var _ := UpdateCrop(store, user, id, request);
      case Remove(user, id) =>
        var _ := Delete(store, user, id);
      case Deliver(id, headers, sizes, encoded) =>
        var _, _ := UploadWorker.HandleAvatarUploaded(store, id, headers, sizes, encoded);
      case Retain(config) =>
        var _, _ := Cronjob.RunRetention(store, config);
      case Reconcile(config) =>
        var _ := Cronjob.RunReconcile(store, config);
      case Pass(time) =>
        store.Tick(store.now + time);
    }
    StayingServes(w, store.W(), op);
  }

  /** A history of worlds, one more than there are operations, and the uploads accepted. */
  ghost predicate History(ops: seq<Operation>, worlds: seq<World>, accepted: seq<Option<AvatarId>>) {
    && |worlds| == |ops| + 1 && |accepted| == |ops|
    && (forall i :: 0 <= i < |worlds| ==> Inv(worlds[i]))
    && (forall i :: 0 <= i < |ops| ==> ServesOn(worlds[i], worlds[i + 1], ops[i]))
    && (forall i :: 0 <= i < |ops| && accepted[i].Some? ==>
          ops[i].Upload? && Serves(worlds[i + 1], ops[i].user, accepted[i].value, ops[i].digest))
  }

  lemma HistoryBegins(w: World)
    requires Inv(w)
    ensures History([], [w], [])
  {
  }

  lemma HistoryGrows(ops: seq<Operation>, worlds: seq<World>, accepted: seq<Option<AvatarId>>, op: Operation, after: World,
                     id: Option<AvatarId>)
    requires History(ops, worlds, accepted)
    requires Inv(after) && ServesOn(worlds[|ops|], after, op)
    requires id.Some? ==> op.Upload? && Serves(after, op.user, id.value, op.digest)
    ensures History(ops + [op], worlds + [after], accepted + [id])
  {
    hide Inv, Serves, ServesOn;
  }

  /** Any run keeps the store safe at every step, whatever fails, and so serves what it served. */
  method Play(store: Store, ops: seq<Operation>) returns (worlds: seq<World>, accepted: seq<Option<AvatarId>>)
    requires Inv(store.W())
    modifies store
    ensures History(ops, worlds, accepted) && |worlds| == |ops| + 1
    ensures worlds[0] == old(store.W()) && worlds[|ops|] == store.W()
  {
    worlds, accepted := [store.W()], [];
    HistoryBegins(store.W());
    hide History, Inv, ServesOn, Serves, BeingDeleted;
    for i := 0 to |ops|
      invariant History(ops[..i], worlds, accepted) && |worlds| == i + 1 && Inv(store.W())
      invariant worlds[0] == old(store.W()) && worlds[i] == store.W()
    {
      var id := Step(store, ops[i]);
      assert ops[..i + 1] == ops[..i] + [ops[i]];
      HistoryGrows(ops[..i], worlds, accepted, ops[i], store.W(), id);
      worlds, accepted := worlds + [store.W()], accepted + [id];
    }
    assert ops[..|ops|] == ops;
  }

  /** From an empty store every run keeps references safe. */
  method PlayFromEmpty(databaseFaults: bool, storageFaults: bool, stops: bool, ops: seq<Operation>)
    returns (worlds: seq<World>, accepted: seq<Option<AvatarId>>)
    ensures History(ops, worlds, accepted) && worlds[0] == World(Tables(map[], map[]), map[], map[])
  {
    var store := new Store(databaseFaults, storageFaults, stops);
    worlds, accepted := Play(store, ops);
  }

  lemma {:induction false} ServedUntilRemoved(ops: seq<Operation>, worlds: seq<World>, accepted: seq<Option<AvatarId>>,
                                              user: UserId, id: AvatarId, digest: Digest, from: nat, to: nat)
    requires History(ops, worlds, accepted) && from <= to < |worlds|
    requires Serves(worlds[from], user, id, digest)
    requires Remove(user, id) !in ops[from..to]
    ensures Serves(worlds[to], user, id, digest)
  {
    if from < to {
      assert ops[from..to] == ops[from..to - 1] + [ops[to - 1]];
      ServedUntilRemoved(ops, worlds, accepted, user, id, digest, from, to - 1);
      assert ServesOn(worlds[to - 1], worlds[to], ops[to - 1]);
    }
  }

  /** An accepted upload is served for good: until its owner removes it, every later world has the
      avatar live with the uploaded content, whatever else goes on and fails. */
  lemma AcceptedUploadIsServed(ops: seq<Operation>, worlds: seq<World>, accepted: seq<Option<AvatarId>>, i: nat, j: nat)
    requires History(ops, worlds, accepted) && i < j < |worlds|
    requires accepted[i].Some? && Remove(ops[i].user, accepted[i].value) !in ops[i + 1..j]
    ensures Serves(worlds[j], ops[i].user, accepted[i].value, ops[i].digest)
  {
    ServedUntilRemoved(ops, worlds, accepted, ops[i].user, accepted[i].value, ops[i].digest, i + 1, j);
  }
}
