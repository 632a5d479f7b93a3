/** The retention and reconciliation jobs, call by call. */
module Cronjob {
  import opened AvatarTables
  import opened BlobWorld
  import opened Store
  import opened Oldest

  const DAY: int := 86_400_000_000_000

  datatype Config = Config(retentionPeriod: int, gracePeriod: int, batch: int)

  /** The settings in force: thirty days, one day and a hundred blobs where nothing positive is set. */
  function Effective(c: Config): (e: Config)
    ensures e.retentionPeriod > 0 && e.gracePeriod > 0 && e.batch > 0
    ensures c.retentionPeriod > 0 ==> e.retentionPeriod == c.retentionPeriod
    ensures c.retentionPeriod <= 0 ==> e.retentionPeriod == 2_592_000_000_000_000
    ensures c.gracePeriod > 0 ==> e.gracePeriod == c.gracePeriod
    ensures c.gracePeriod <= 0 ==> e.gracePeriod == 86_400_000_000_000
    ensures c.batch > 0 ==> e.batch == c.batch
    ensures c.batch <= 0 ==> e.batch == 100
  {
    Config(if c.retentionPeriod <= 0 then 30 * DAY else c.retentionPeriod,
           if c.gracePeriod <= 0 then DAY else c.gracePeriod,
           if c.batch <= 0 then 100 else c.batch)
  }

  // ----- Collecting one blob -----

  /** What a complete collection of a blob leaves: neither its row nor its object. */
  function Without(w: World, ids: set<BlobId>): World {
    World(w.db, w.blobs - ids, w.objects - (set b | b in ids && b in w.blobs :: w.blobs[b].key))
  }

  /** The candidates a run may claim now: those without a claim younger than an hour. */
  function Claimables(w: World, ids: set<BlobId>, now: Time): set<BlobId> {
    set b | b in ids && ClaimableForDeletion(w, b, now)
  }

  /** Nothing but the row of `b` and the object under its key may differ, and nothing is added. */
  ghost predicate OnlyBlob(before: World, after: World, b: BlobId) {
    && after.db == before.db
    && (forall other :: other != b ==> (other in after.blobs <==> other in before.blobs))
    && (forall other :: other != b && other in after.blobs ==> after.blobs[other] == before.blobs[other])
    && (b in after.blobs ==> b in before.blobs && after.blobs[b].key == before.blobs[b].key)
    && (forall key :: key in after.objects ==> key in before.objects && after.objects[key] == before.objects[key])
    && (forall key :: key in before.objects && key !in after.objects ==> b in before.blobs && before.blobs[b].key == key)
  }

  lemma NothingClaimable(w: World, b: BlobId, now: Time)
    ensures !ClaimableForDeletion(w, b, now) ==> Without(w, Claimables(w, {b}, now)) == w
  {
  }

  lemma OneClaimable(w: World, b: BlobId, now: Time)
    requires ClaimableForDeletion(w, b, now)
    ensures Without(w, Claimables(w, {b}, now)) == World(w.db, w.blobs - {b}, w.objects - {w.blobs[b].key})
  {
  }

  /** No deletion claim on the row is younger than an hour. */
  predicate MayBeClaimed(row: Blob, now: Time) {
    row.status.Deleting? ==> row.updatedAt < now - 3_600_000_000_000
  }

  method ClaimCandidate(store: Store, b: BlobId) returns (r: Reply)
    requires Inv(store.W())
    modifies store`blobs
    ensures Inv(store.W())
    ensures store.W() == if r.Applied() then ClaimForDeletion(old(store.W()), b, store.now) else old(store.W())
    ensures r.Done? && b in old(store.blobs) ==>
              if MayBeClaimed(old(store.blobs)[b], store.now) && Unreferenced(store.db, b)
              then OnlyStatus(old(store.blobs), store.blobs, b, store.now) && store.blobs[b].status.Deleting?
              else store.blobs == old(store.blobs)
    ensures !store.databaseFaults && !store.stops ==> r.Done?
    ensures !store.stops ==> !r.Stopped?
  {
    if ClaimableForDeletion(store.W(), b, store.now) {
      StatusKeepsInv(store.W(), b, Deleting, store.now);
    }
    r := store.CommitBlobs(ClaimForDeletion(store.W(), b, store.now).blobs);
  }

  /** The object of a blob being deleted can go: no ready blob has its key. */
  method RemoveClaimed(store: Store, b: BlobId) returns (r: Reply)
    requires Inv(store.W()) && b in store.blobs && store.blobs[b].status.Deleting?
    modifies store`objects
    ensures Inv(store.W())
    ensures store.objects == if r.Applied() then old(store.objects) - {store.blobs[b].key} else old(store.objects)
    ensures !store.storageFaults && !store.stops ==> r.Done?
    ensures !store.stops ==> !r.Stopped?
  {
    forall other | IsReady(store.W(), other)
      ensures store.blobs[other].key != store.blobs[b].key
    {
      if store.blobs[other].key == store.blobs[b].key {
        SameKeySameBlob(store.W(), other, b);
      }
    }
    RemoveObjectKeepsInv(store.W(), store.blobs[b].key);
    r := store.Remove(store.blobs[b].key);
  }

  /** Claim a candidate, delete its object, delete its row; the first failure leaves the rest for
      a later run. Reported as done, the blob is gone with its object, or was not claimable. */
  method Collect(store: Store, b: BlobId) returns (r: Reply)
    requires Inv(store.W())
    modifies store`blobs, store`objects
    ensures Inv(store.W()) && OnlyBlob(old(store.W()), store.W(), b)
    ensures !store.stops ==> !r.Stopped?
    ensures store.Dependable() ==> r.Done?
    ensures r.Done? ==> store.W() == Without(old(store.W()), Claimables(old(store.W()), {b}, store.now))
  {
    hide Inv;
    var claimable := ClaimableForDeletion(store.W(), b, store.now);
    var key := if b in store.blobs then store.blobs[b].key else "";
    ghost var w := store.W();
    r := ClaimCandidate(store, b);
    if !r.Done? || !claimable {
      NothingClaimable(w, b, store.now);
      return;
    }
    r := RemoveClaimed(store, b);
    if !r.Done? {
      return;
    }
    RemoveRowKeepsInv(store.W(), b);
    r := store.CommitBlobs(DeleteBlobRow(store.W(), b).blobs);
    if r.Done? {
      assert store.blobs == w.blobs - {b} && store.objects == w.objects - {key};
      OneClaimable(w, b, store.now);
    }
  }

  // ----- Retention -----

  function AfterHardDeletes(w: World, before: Time): World {
    w.(db := HardDeleteThumbs(HardDeleteAvatars(w.db, before), before))
  }

  /** No old unreferenced blob carries a deletion claim younger than one hour. */
  predicate NoRecentClaims(w: World, cutoff: Time, now: Time) {
    forall b :: b in Orphans(w, cutoff) && w.blobs[b].status.Deleting? ==> w.blobs[b].updatedAt < now - CLAIM_TIMEOUT
  }

  lemma WithoutTwice(w: World, a: set<BlobId>, b: set<BlobId>)
    requires a !! b
    ensures Without(Without(w, a), b) == Without(w, a + b)
  {
  }

  lemma OrphansWithout(w: World, ids: set<BlobId>, cutoff: Time)
    ensures Orphans(Without(w, ids), cutoff) == Orphans(w, cutoff) - ids
  {
  }

  predicate AllDone(outcomes: seq<Reply>) {
    forall i :: 0 <= i < |outcomes| ==> outcomes[i].Done?
  }

  /** Neither the row nor the object of the blob is left. */
  predicate Gone(before: World, after: World, b: BlobId) {
    b !in after.blobs && (b in before.blobs ==> before.blobs[b].key !in after.objects)
  }

  /** A world on the way: nothing was added, and the candidates from `i` on are untouched. */
  ghost predicate OnTheWay(before: World, w: World, ids: seq<BlobId>, i: nat) {
    && w.db == before.db
    && (forall b :: b in w.blobs ==> b in before.blobs && w.blobs[b].key == before.blobs[b].key)
    && (forall key :: key in w.objects ==> key in before.objects)
    && (forall j :: i <= j < |ids| && ids[j] in before.blobs ==> ids[j] in w.blobs && w.blobs[ids[j]] == before.blobs[ids[j]])
  }

  lemma MovesOn(before: World, w: World, after: World, ids: seq<BlobId>, i: nat)
    requires Distinct(ids) && i < |ids| && OnTheWay(before, w, ids, i) && OnlyBlob(w, after, ids[i])
    ensures OnTheWay(before, after, ids, i + 1)
    ensures forall b :: Gone(before, w, b) ==> Gone(before, after, b)
  {
  }

  /** A completed collection of the next candidate: it is gone if it was claimable at all. */
  lemma CollectedNext(before: World, w: World, after: World, ids: seq<BlobId>, i: nat, now: Time)
    requires i < |ids| && OnTheWay(before, w, ids, i)
    requires after == Without(w, Claimables(w, {ids[i]}, now))
    ensures ClaimableForDeletion(before, ids[i], now) ==> Gone(before, after, ids[i])
  {
  }

  lemma CollectedOneMore(before: World, w: World, ids: seq<BlobId>, i: nat, now: Time)
    requires Distinct(ids) && i < |ids| && OnTheWay(before, w, ids, i)
    requires w == Without(before, Claimables(before, IdSet(ids[..i]), now))
    ensures Without(w, Claimables(w, {ids[i]}, now)) == Without(before, Claimables(before, IdSet(ids[..i + 1]), now))
  {
    var b, some := ids[i], Claimables(before, IdSet(ids[..i]), now);
    assert ids[..i + 1] == ids[..i] + [b] && b !in IdSet(ids[..i]);
    IdSetGrows(ids[..i], b);
    assert ClaimableForDeletion(w, b, now) <==> ClaimableForDeletion(before, b, now);
    hide Without;
    if ClaimableForDeletion(before, b, now) {
      assert Claimables(w, {b}, now) == {b} && Claimables(before, IdSet(ids[..i + 1]), now) == some + {b};
      WithoutTwice(before, some, {b});
    } else {
      NothingClaimable(w, b, now);
      assert Claimables(before, IdSet(ids[..i + 1]), now) == some;
    }
  }

  /** Turns that were all completed have taken away exactly the claimable candidates among theirs. */
  ghost predicate DoneSoFar(before: World, w: World, ids: seq<BlobId>, outcomes: seq<Reply>, now: Time)
    requires |outcomes| <= |ids|
  {
    AllDone(outcomes) ==> w == Without(before, Claimables(before, IdSet(ids[..|outcomes|]), now))
  }

  /** Every completed turn has left its candidate gone, if it was claimable. */
  ghost predicate GoneSoFar(before: World, w: World, ids: seq<BlobId>, outcomes: seq<Reply>, now: Time)
    requires |outcomes| <= |ids|
  {
    forall i :: 0 <= i < |outcomes| && outcomes[i].Done? && ClaimableForDeletion(before, ids[i], now) ==> Gone(before, w, ids[i])
  }

  /** What the turns so far have done to a world. */
  ghost predicate CollectedSoFar(before: World, w: World, ids: seq<BlobId>, outcomes: seq<Reply>, now: Time)
    requires |outcomes| <= |ids|
  {
    OnTheWay(before, w, ids, |outcomes|) && DoneSoFar(before, w, ids, outcomes, now) && GoneSoFar(before, w, ids, outcomes, now)
  }

  lemma DoneGrows(before: World, w: World, after: World, ids: seq<BlobId>, outcomes: seq<Reply>, r: Reply, now: Time)
    requires Distinct(ids) && |outcomes| < |ids| && OnTheWay(before, w, ids, |outcomes|)
    requires DoneSoFar(before, w, ids, outcomes, now)
    requires r.Done? ==> after == Without(w, Claimables(w, {ids[|outcomes|]}, now))
    ensures DoneSoFar(before, after, ids, outcomes + [r], now)
  {
    hide Without, Claimables, OnTheWay, IdSet;
    var i, more := |outcomes|, outcomes + [r];
    if AllDone(more) {
      assert forall j :: 0 <= j < i ==> outcomes[j] == more[j];
      assert more[i] == r;
      CollectedOneMore(before, w, ids, i, now);
    }
  }

  lemma GoneGrows(before: World, w: World, after: World, ids: seq<BlobId>, outcomes: seq<Reply>, r: Reply, now: Time)
    requires |outcomes| < |ids| && GoneSoFar(before, w, ids, outcomes, now)
    requires forall b :: Gone(before, w, b) ==> Gone(before, after, b)
    requires r.Done? && ClaimableForDeletion(before, ids[|outcomes|], now) ==> Gone(before, after, ids[|outcomes|])
    ensures GoneSoFar(before, after, ids, outcomes + [r], now)
  {
    hide Gone, ClaimableForDeletion;
    var more := outcomes + [r];
    forall j | 0 <= j < |more| && more[j].Done? && ClaimableForDeletion(before, ids[j], now)
      ensures Gone(before, after, ids[j])
    {
      assert j < |outcomes| ==> outcomes[j] == more[j];
    }
  }

  predicate HasKey(w: World, b: BlobId, key: string) {
    b in w.blobs && w.blobs[b].key == key
  }

  /** Rows outside `ids` are untouched, and every object that is missing belonged to one of them. */
  ghost predicate OthersSpared(before: World, after: World, ids: set<BlobId>) {
    && (forall b :: b in before.blobs && b !in ids ==> b in after.blobs && after.blobs[b] == before.blobs[b])
    && (forall key :: key in before.objects && key !in after.objects ==> exists b :: b in ids && HasKey(before, b, key))
  }

  lemma SparesMore(before: World, w: World, after: World, ids: set<BlobId>, b: BlobId)
    requires b in ids && OthersSpared(before, w, ids) && OnlyBlob(w, after, b)
    requires forall other :: other in w.blobs ==> other in before.blobs && w.blobs[other].key == before.blobs[other].key
    ensures OthersSpared(before, after, ids)
    ensures forall other :: other in after.blobs ==> other in before.blobs && after.blobs[other].key == before.blobs[other].key
  {
  }

  lemma NothingSoFar(w: World, ids: seq<BlobId>, now: Time)
    ensures CollectedSoFar(w, w, ids, [], now) && OthersSpared(w, w, IdSet(ids))
  {
  }

  lemma SoFarGrows(before: World, w: World, after: World, ids: seq<BlobId>, outcomes: seq<Reply>, r: Reply, now: Time)
    requires Distinct(ids) && |outcomes| < |ids|
    requires CollectedSoFar(before, w, ids, outcomes, now) && OnlyBlob(w, after, ids[|outcomes|])
    requires OthersSpared(before, w, IdSet(ids))
    requires r.Done? ==> after == Without(w, Claimables(w, {ids[|outcomes|]}, now))
    ensures CollectedSoFar(before, after, ids, outcomes + [r], now) && OthersSpared(before, after, IdSet(ids))
  {
    SparesMore(before, w, after, IdSet(ids), ids[|outcomes|]);
    MovesOn(before, w, after, ids, |outcomes|);
    if r.Done? {
      CollectedNext(before, w, after, ids, |outcomes|, now);
    }
    hide OnTheWay, OnlyBlob, OthersSpared, Without, Claimables, DoneSoFar, GoneSoFar, Gone, ClaimableForDeletion;
    DoneGrows(before, w, after, ids, outcomes, r, now);
    GoneGrows(before, w, after, ids, outcomes, r, now);
  }

  /** The collector's loop over its candidates. Every candidate gets its turn whatever became of the
      others; those whose turn was completed are gone if they were claimable. */
  method CollectAll(store: Store, ids: seq<BlobId>) returns (outcomes: seq<Reply>, stopped: bool)
    requires Inv(store.W()) && Distinct(ids)
    modifies store`blobs, store`objects
    ensures Inv(store.W()) && (!store.stops ==> !stopped)
    ensures |outcomes| <= |ids| && (stopped || |outcomes| == |ids|)
    ensures !stopped ==> CollectedSoFar(old(store.W()), store.W(), ids, outcomes, store.now)
    ensures OthersSpared(old(store.W()), store.W(), IdSet(ids))
    ensures store.Dependable() ==> AllDone(outcomes)
  {
    ghost var w := store.W();
    outcomes := [];
    NothingSoFar(w, ids, store.now);
    hide CollectedSoFar, OthersSpared, Without, Claimables, OnlyBlob, Inv, IdSet;
    while |outcomes| < |ids|
      invariant |outcomes| <= |ids| && Inv(store.W()) && CollectedSoFar(w, store.W(), ids, outcomes, store.now)
      invariant OthersSpared(w, store.W(), IdSet(ids)) && (store.Dependable() ==> AllDone(outcomes))
    {
      ghost var mid := store.W();
      var r := Collect(store, ids[|outcomes|]);
      SoFarGrows(w, mid, store.W(), ids, outcomes, r, store.now);
      if r.Stopped? {
        return outcomes, true;
      }
      outcomes := outcomes + [r];
    }
    stopped := false;
  }

  lemma AllCollected(before: World, w: World, ids: seq<BlobId>, outcomes: seq<Reply>, now: Time)
    requires |outcomes| == |ids| && CollectedSoFar(before, w, ids, outcomes, now) && AllDone(outcomes)
    ensures w == Without(before, Claimables(before, IdSet(ids), now))
  {
  }

  /** The two expiry statements; a failure of the first does not keep the second from running. */
  method HardDeletes(store: Store, before: Time) returns (avatars: Reply, thumbs: Reply)
    requires Inv(store.W())
    modifies store`db
    ensures Inv(store.W()) && (!store.stops ==> !avatars.Stopped? && !thumbs.Stopped?)
    ensures var expired := if avatars.Applied() then HardDeleteAvatars(old(store.db), before) else old(store.db);
            store.db == if !avatars.Stopped? && thumbs.Applied() then HardDeleteThumbs(expired, before) else expired
    ensures AllStay(old(store.db), store.db)
    ensures store.Dependable() ==> avatars.Done? && thumbs.Done?
  {
    HardDeletesKeepInv(store.W(), before);
    HardDeletesKeepRows(store.db, before);
    avatars := store.Commit(HardDeleteAvatars(store.db, before));
    if avatars.Stopped? {
      return avatars, Reply.Failed(false);
    }
    HardDeletesKeepInv(store.W(), before);
    HardDeletesKeepRows(store.db, before);
    ghost var was, expired := old(store.db), store.db;
    thumbs := store.Commit(HardDeleteThumbs(store.db, before));
    StayOn(was, expired, store.db);
  }

  /** Expiry as a whole: complete, or with errors, or cut short. */
  method Expire(store: Store, before: Time) returns (ok: bool, stopped: bool)
    requires Inv(store.W())
    modifies store`db
    ensures Inv(store.W()) && (!store.stops ==> !stopped) && (stopped ==> !ok)
    ensures AllStay(old(store.db), store.db)
    ensures store.Dependable() ==> ok
    ensures ok ==> store.W() == AfterHardDeletes(old(store.W()), before)
    ensures OnlyExpiredWent(old(store.db), store.db, before) && (ok ==> NoneExpiredLeft(store.db, before))
  {
    ghost var was := store.db;
    var avatars, thumbs := HardDeletes(store, before);
    ExpiryMeaning(was, before, avatars.Applied(), !avatars.Stopped? && thumbs.Applied());
    ok := avatars.Done? && thumbs.Done?;
    stopped := avatars.Stopped? || thumbs.Stopped?;
  }

  /** Of the oldest orphans, as many as the batch allows, exactly those without a recent claim are
      gone with their objects. */
  ghost predicate CollectsOldest(w: World, after: World, cutoff: Time, batch: nat, now: Time, listed: set<BlobId>) {
    && OldestOf(CreationTimes(w), Orphans(w, cutoff), batch, listed)
    && after == Without(w, Claimables(w, listed, now))
  }

  /** The blob part of a retention run: list the oldest orphans and collect them. */
  method CollectOrphans(store: Store, cutoff: Time, batch: nat) returns (ok: bool, ghost listed: set<BlobId>)
    requires Inv(store.W())
    modifies store`blobs, store`objects
    ensures Inv(store.W())
    ensures listed <= Orphans(old(store.W()), cutoff) && OthersSpared(old(store.W()), store.W(), listed)
    ensures store.Dependable() ==> ok
    ensures ok ==> CollectsOldest(old(store.W()), store.W(), cutoff, batch, store.now, listed)
  {
    listed := {};
    var r, seen := store.Query();
    if !r.Done? {
      return false, listed;
    }
    var ids := Pick(CreationTimes(store.W()), Orphans(store.W(), cutoff), batch);
    listed := IdSet(ids);
    ghost var w := store.W();
    var outcomes, stopped := CollectAll(store, ids);
    ok := !stopped && AllDone(outcomes);
    if ok {
      AllCollected(w, store.W(), ids, outcomes, store.now);
    }
  }

  /** What a retention run without errors does to a world: expired rows go, then the oldest orphans
      that are not claimed. */
  ghost predicate Retained(w: World, after: World, now: Time, config: Config, listed: set<BlobId>) {
    var c := Effective(config);
    CollectsOldest(AfterHardDeletes(w, now - c.retentionPeriod), after, now - c.gracePeriod, c.batch, now, listed)
  }

  lemma ExpirySpares(w: World, settled: World)
    requires settled.blobs == w.blobs && settled.objects == w.objects
    ensures OthersSpared(w, settled, {})
  {
  }

  lemma ExpiryTouchesNoBlob(w: World, settled: World, after: World, listed: set<BlobId>, cutoff: Time)
    requires settled.blobs == w.blobs && settled.objects == w.objects && after.db == settled.db
    requires listed <= Orphans(settled, cutoff) && OthersSpared(settled, after, listed)
    ensures OthersSpared(w, after, listed)
    ensures forall b :: b in listed ==> b in w.blobs && Unreferenced(after.db, b) && w.blobs[b].createdAt < cutoff
  {
  }

  /** The rows that went had been deleted before the cutoff, or are thumbnails of an avatar that went;
      all others are as they were. */
  ghost predicate OnlyExpiredWent(before: Tables, after: Tables, cutoff: Time) {
    && (forall id :: id in after.avatars ==> id in before.avatars && after.avatars[id] == before.avatars[id])
    && (forall k :: k in after.thumbs ==> k in before.thumbs && after.thumbs[k] == before.thumbs[k])
    && (forall id :: id in before.avatars && id !in after.avatars ==>
          before.avatars[id].deletedAt.Some? && before.avatars[id].deletedAt.value < cutoff)
    && (forall k :: k in before.thumbs && k !in after.thumbs ==>
          || (before.thumbs[k].deletedAt.Some? && before.thumbs[k].deletedAt.value < cutoff)
          || (k.avatar in before.avatars && k.avatar !in after.avatars))
  }

  ghost predicate NoneExpiredLeft(t: Tables, cutoff: Time) {
    && (forall id :: id in t.avatars && t.avatars[id].deletedAt.Some? ==> t.avatars[id].deletedAt.value >= cutoff)
    && (forall k :: k in t.thumbs && t.thumbs[k].deletedAt.Some? ==> t.thumbs[k].deletedAt.value >= cutoff)
  }

  lemma ExpiryMeaning(t: Tables, cutoff: Time, avatars: bool, thumbs: bool)
    ensures var expired := if avatars then HardDeleteAvatars(t, cutoff) else t;
            var t' := if thumbs then HardDeleteThumbs(expired, cutoff) else expired;
            OnlyExpiredWent(t, t', cutoff) && (avatars && thumbs ==> NoneExpiredLeft(t', cutoff))
  {
  }

  /** A run that met no error: of the blobs that are unreferenced and old it listed the oldest, as many
      as the batch holds, and took away those of them without a recent claim, rows and objects. */
  ghost predicate TookTheOldest(before: map<BlobId, Blob>, after: World, cutoff: Time, batch: int, now: Time, listed: set<BlobId>) {
    && |listed| <= batch
    && (forall b :: b in listed ==>
          && b in before
          && (MayBeClaimed(before[b], now) ==> b !in after.blobs && before[b].key !in after.objects)
          && (!MayBeClaimed(before[b], now) ==> b in after.blobs && after.blobs[b] == before[b]))
    && (forall b :: b in before && b !in listed && before[b].createdAt < cutoff && Unreferenced(after.db, b) ==>
          |listed| == batch && forall taken :: taken in listed ==> taken in before && before[taken].createdAt <= before[b].createdAt)
  }

  lemma CollectionMeaning(w: World, after: World, cutoff: Time, batch: nat, now: Time, listed: set<BlobId>)
    requires CollectsOldest(w, after, cutoff, batch, now, listed)
    ensures TookTheOldest(w.blobs, after, cutoff, batch, now, listed)
  {
    var orphans, times := Orphans(w, cutoff), CreationTimes(w);
    forall b | b in w.blobs && b !in listed && w.blobs[b].createdAt < cutoff && Unreferenced(after.db, b)
      ensures |listed| == batch
      ensures forall taken :: taken in listed ==> taken in w.blobs && w.blobs[taken].createdAt <= w.blobs[b].createdAt
    {
      assert b in orphans;
      SubsetSmaller(listed, orphans, b);
      assert forall taken :: taken in listed ==> NotYounger(times, taken, b);
    }
    assert forall b :: b in listed ==> b in orphans;
    assert forall b :: b in listed && MayBeClaimed(w.blobs[b], now) ==> b in Claimables(w, listed, now);
  }

  /** One retention run. Whatever fails, the store stays safe and nothing but old unreferenced blobs
      is touched; a run that reports no error has done all of its work, and it reports none when
      nothing fails. */
  method RunRetention(store: Store, config: Config) returns (ok: bool, ghost listed: set<BlobId>)
    requires Inv(store.W())
    modifies store`db, store`blobs, store`objects
    ensures Inv(store.W())
    ensures OthersSpared(old(store.W()), store.W(), listed)
    ensures AllStay(old(store.db), store.db)
    ensures var retention := if config.retentionPeriod > 0 then config.retentionPeriod else 30 * 86_400_000_000_000;
            && OnlyExpiredWent(old(store.db), store.db, store.now - retention)
            && (ok ==> NoneExpiredLeft(store.db, store.now - retention))
    ensures var grace := if config.gracePeriod > 0 then config.gracePeriod else 86_400_000_000_000;
            && (forall b :: b in listed ==> b in old(store.blobs) && Unreferenced(store.db, b)
                                            && old(store.blobs)[b].createdAt < store.now - grace)
            && (ok ==> TookTheOldest(old(store.blobs), store.W(), store.now - grace, if config.batch > 0 then config.batch else 100,
                                     store.now, listed))
    ensures store.Dependable() ==> ok
    ensures ok ==> Retained(old(store.W()), store.W(), store.now, config, listed)
  {
    hide Inv, CollectsOldest, OthersSpared, Orphans, Unreferenced, AfterHardDeletes, AllStay;
    hide OnlyExpiredWent, NoneExpiredLeft, TookTheOldest, ClaimableForDeletion, Effective;
    ghost var w := store.W();
    var c := Effective(config);
    var expired, stopped := Expire(store, store.now - c.retentionPeriod);
    ghost var settled := store.W();
    if stopped {
      ExpirySpares(w, settled);
      return false, {};
    }
    var collected;
    collected, listed := CollectOrphans(store, store.now - c.gracePeriod, c.batch);
    ExpiryTouchesNoBlob(w, settled, store.W(), listed, store.now - c.gracePeriod);
    if collected {
      CollectionMeaning(settled, store.W(), store.now - c.gracePeriod, c.batch, store.now, listed);
    }
    ok := expired && collected;
  }

  // ----- Progress over several runs -----

  lemma SmallerStep(n: nat, batch: nat, runs: nat)
    ensures Smaller(n, runs * batch) + Smaller(n - Smaller(n, runs * batch), batch) == Smaller(n, (runs + 1) * batch)
  {
  }

  /** Until the horizon nothing expires, and no blob that is or becomes collectible carries a deletion
      claim younger than one hour. */
  ghost predicate Quiet(w: World, now: Time, horizon: Time, config: Config) {
    var c := Effective(config);
    && (forall id :: id in w.db.avatars ==> !Expired(w.db.avatars[id].deletedAt, horizon - c.retentionPeriod))
    && (forall k :: k in w.db.thumbs ==> !Expired(w.db.thumbs[k].deletedAt, horizon - c.retentionPeriod))
    && NoRecentClaims(w, horizon - c.gracePeriod, now)
  }

  lemma QuietSettles(w: World, now: Time, later: Time, horizon: Time, config: Config)
    requires Quiet(w, now, horizon, config) && now <= later <= horizon
    ensures var c := Effective(config);
            AfterHardDeletes(w, later - c.retentionPeriod) == w && NoRecentClaims(w, later - c.gracePeriod, later)
    ensures Quiet(w, later, horizon, config)
  {
    var t := AfterHardDeletes(w, later - Effective(config).retentionPeriod).db;
    assert t.avatars == w.db.avatars && t.thumbs == w.db.thumbs;
  }

  lemma StaysQuiet(w: World, now: Time, horizon: Time, config: Config, collected: set<BlobId>)
    requires Quiet(w, now, horizon, config)
    ensures Quiet(Without(w, collected), now, horizon, config)
  {
    OrphansWithout(w, collected, horizon - Effective(config).gracePeriod);
  }

  /** How far a number of runs have come: of the orphans there were at the first cutoff as many are
      gone as the batches hold, and nothing but orphans of the latest cutoff is. */
  ghost predicate Progress(w: World, reached: World, first: Time, cutoff: Time, batch: nat, runs: nat, collected: set<BlobId>) {
    && first <= cutoff && collected <= Orphans(w, cutoff)
    && |collected * Orphans(w, first)| == Smaller(|Orphans(w, first)|, runs * batch)
    && reached == Without(w, collected)
  }

  lemma NoProgressYet(w: World, first: Time, batch: nat)
    ensures Progress(w, w, first, first, batch, 0, {})
  {
    assert {} * Orphans(w, first) == {} && Without(w, {}) == w;
  }

  lemma ProgressEnds(w: World, reached: World, first: Time, cutoff: Time, batch: nat, runs: nat, collected: set<BlobId>)
    requires Progress(w, reached, first, cutoff, batch, runs, collected)
    ensures runs * batch >= |Orphans(w, first)| ==> Orphans(reached, first) == {}
  {
    OrphansWithout(w, collected, first);
    if runs * batch >= |Orphans(w, first)| {
      SameSize(collected * Orphans(w, first), Orphans(w, first));
    }
  }

  lemma OldOrphansAreEarly(w: World, first: Time, cutoff: Time)
    requires first <= cutoff
    ensures Orphans(w, first) <= Orphans(w, cutoff)
    ensures forall i, j :: i in Orphans(w, first) && j in Orphans(w, cutoff) && j !in Orphans(w, first) ==>
              !NotYounger(CreationTimes(w), j, i)
  {
  }

  lemma BothParts(all: set<BlobId>, left: set<BlobId>, collected: set<BlobId>, more: set<BlobId>)
    requires left == all - collected && collected !! more
    ensures |(collected + more) * all| == |collected * all| + |more * left|
    ensures |left| == |all| - |collected * all|
  {
    assert (collected + more) * all == collected * all + more * left;
    assert all == collected * all + left;
  }

  /** Blobs that became collectible since are younger than those that were, so a batch takes the
      latter first. */
  lemma OneMoreBatch(w: World, reached: World, after: World, first: Time, cutoff: Time, later: Time, batch: nat, now: Time,
                     runs: nat, collected: set<BlobId>, more: set<BlobId>)
    requires Progress(w, reached, first, cutoff, batch, runs, collected) && cutoff <= later
    requires CollectsOldest(reached, after, later, batch, now, more) && NoRecentClaims(reached, later, now)
    ensures Progress(w, after, first, later, batch, runs + 1, collected + more) && after == Without(reached, more)
  {
    var all, left := Orphans(w, first), Orphans(reached, first);
    assert Claimables(reached, more, now) == more;
    OldOrphansAreEarly(reached, first, later);
    OldOrphansAreEarly(w, cutoff, later);
    OrphansWithout(w, collected, first);
    OrphansWithout(w, collected, later);
    EarlyOnesComeFirst(CreationTimes(reached), Orphans(reached, later), batch, more, left);
    WithoutTwice(w, collected, more);
    hide Without, Orphans, CreationTimes, Claimables, OldestOf, NoRecentClaims;
    SmallerStep(|all|, batch, runs);
    BothParts(all, left, collected, more);
  }

  /** What one more run adds to the blobs already collected. */
  lemma OneMoreRun(w: World, reached: World, after: World, start: Time, before: Time, now: Time, horizon: Time, config: Config,
                   runs: nat, collected: set<BlobId>, more: set<BlobId>)
    requires var c := Effective(config);
             Progress(w, reached, start - c.gracePeriod, before - c.gracePeriod, c.batch, runs, collected)
    requires Quiet(reached, before, horizon, config) && before <= now <= horizon
    requires Retained(reached, after, now, config, more)
    ensures var c := Effective(config);
            Progress(w, after, start - c.gracePeriod, now - c.gracePeriod, c.batch, runs + 1, collected + more)
    ensures Quiet(after, now, horizon, config)
  {
    hide AfterHardDeletes, NoRecentClaims, Without, Progress, Quiet;
    var c := Effective(config);
    QuietSettles(reached, before, now, horizon, config);
    OneMoreBatch(w, reached, after, start - c.gracePeriod, before - c.gracePeriod, now - c.gracePeriod, c.batch, now,
                 runs, collected, more);
    StaysQuiet(reached, now, horizon, config, more);
  }

  /** When the batches together hold all blobs there were, no unreferenced one from before the grace
      period is left. */
  ghost predicate EarlyOnesGone(w: World, reached: World, start: Time, config: Config, runs: nat) {
    config.gracePeriod > 0 && config.batch > 0 && runs * config.batch >= |w.blobs| ==>
      forall b :: b in reached.blobs && reached.blobs[b].createdAt < start - config.gracePeriod ==> !Unreferenced(reached.db, b)
  }

  lemma EnoughRuns(w: World, reached: World, start: Time, config: Config, runs: nat)
    requires var c := Effective(config);
             runs * c.batch >= |Orphans(w, start - c.gracePeriod)| ==> Orphans(reached, start - c.gracePeriod) == {}
    ensures EarlyOnesGone(w, reached, start, config, runs)
  {
    var cutoff := start - Effective(config).gracePeriod;
    SubsetSize(Orphans(w, cutoff), w.blobs.Keys);
    forall b | b in reached.blobs && b !in Orphans(reached, cutoff) && reached.blobs[b].createdAt < cutoff
      ensures !Unreferenced(reached.db, b)
    {
    }
  }

  /** Collector progress: while nothing else expires, `runs` runs with any pauses between them remove as
      many of the blobs that were collectible at the start as their batches hold, so as many runs as
      their number needs remove all of them. */
  method RunRetentionRepeatedly(store: Store, config: Config, runs: nat, horizon: Time) returns (ghost collected: set<BlobId>)
    requires Inv(store.W()) && store.Dependable() && store.now <= horizon && Quiet(store.W(), store.now, horizon, config)
    modifies store`db, store`blobs, store`objects, store`now
    ensures Inv(store.W()) && old(store.now) <= store.now <= horizon
    ensures var c := Effective(config);
            && Progress(old(store.W()), store.W(), old(store.now) - c.gracePeriod, store.now - c.gracePeriod, c.batch, runs, collected)
            && (runs * c.batch >= |Orphans(old(store.W()), old(store.now) - c.gracePeriod)| ==>
                 Orphans(store.W(), old(store.now) - c.gracePeriod) == {})
    ensures EarlyOnesGone(old(store.W()), store.W(), old(store.now), config, runs)
  {
    hide Inv, Retained, Quiet, Progress, Unreferenced, Orphans, EarlyOnesGone;
    hide Effective, OnlyExpiredWent, NoneExpiredLeft, TookTheOldest, OthersSpared, AllStay;
    ghost var w, c, start := store.W(), Effective(config), store.now;
    collected := {};
    NoProgressYet(w, start - c.gracePeriod, c.batch);
    var i := 0;
    while i < runs
      invariant 0 <= i <= runs && Inv(store.W()) && start <= store.now <= horizon
      invariant Quiet(store.W(), store.now, horizon, config)
      invariant Progress(w, store.W(), start - c.gracePeriod, store.now - c.gracePeriod, c.batch, i, collected)
    {
      ghost var reached, before := store.W(), store.now;
      store.Tick(horizon);
      ghost var more;
      var ok;
      ok, more := RunRetention(store, config);
      OneMoreRun(w, reached, store.W(), start, before, store.now, horizon, config, i, collected, more);
      collected := collected + more;
      i := i + 1;
    }
    ProgressEnds(w, store.W(), start - c.gracePeriod, store.now - c.gracePeriod, c.batch, runs, collected);
    EnoughRuns(w, store.W(), start, config, runs);
  }

  /** A first run settles what had expired, so the progress starts there. */
  lemma FirstRunSettles(w: World, now: Time, config: Config)
    requires var c := Effective(config);
             NoRecentClaims(AfterHardDeletes(w, now - c.retentionPeriod), now - c.gracePeriod, now)
    ensures Quiet(AfterHardDeletes(w, now - Effective(config).retentionPeriod), now, now, config)
  {
  }

  // ----- Reconciliation -----

  /** Old objects under the blob prefix that no blob row accounts for. */
  function Strays(w: World, modifiedBefore: Time): set<string> {
    set key | key in w.objects && BLOB_PREFIX <= key && w.objects[key] < modifiedBefore && !HasObject(w, key)
  }

  /** No object is gone but strays, and the others are as they were. */
  ghost predicate OnlyStraysGone(w: World, objects: map<string, Time>, cutoff: Time) {
    && (forall key :: key in objects ==> key in w.objects && objects[key] == w.objects[key])
    && (forall key :: key in w.objects && key !in objects ==> key in Strays(w, cutoff))
  }

  /** The objects that went were under the blob prefix, modified before the cutoff, and under no row's
      key; all others are as they were. */
  ghost predicate SweptOnlyOld(before: map<string, Time>, after: map<string, Time>, blobs: map<BlobId, Blob>, cutoff: Time) {
    && (forall key :: key in after ==> key in before && after[key] == before[key])
    && (forall key :: key in before && key !in after ==>
          "blobs/" <= key && before[key] < cutoff && forall b :: b in blobs ==> blobs[b].key != key)
  }

  ghost predicate NoStrayLeft(objects: map<string, Time>, blobs: map<BlobId, Blob>, cutoff: Time) {
    forall key :: key in objects && "blobs/" <= key && objects[key] < cutoff ==> exists b :: b in blobs && blobs[b].key == key
  }

  lemma StraysMeaning(w: World, objects: map<string, Time>, cutoff: Time)
    requires OnlyStraysGone(w, objects, cutoff)
    ensures SweptOnlyOld(w.objects, objects, w.blobs, cutoff)
    ensures Strays(w.(objects := objects), cutoff) == {} ==> NoStrayLeft(objects, w.blobs, cutoff)
  {
    if Strays(w.(objects := objects), cutoff) == {} {
      forall key | key in objects && BLOB_PREFIX <= key && objects[key] < cutoff
        ensures HasObject(w, key)
      {
        assert key !in Strays(w.(objects := objects), cutoff);
      }
    }
  }

  /** The old objects under the blob prefix. */
  function Listed(w: World, modifiedBefore: Time): set<string> {
    set key | key in w.objects && BLOB_PREFIX <= key && w.objects[key] < modifiedBefore
  }

  lemma StrayGone(w: World, was: map<string, Time>, objects: map<string, Time>, cutoff: Time, key: string)
    requires OnlyStraysGone(w, was, cutoff) && key in Listed(w, cutoff)
    requires objects == was || (objects == was - {key} && !HasObject(w.(objects := was), key))
    ensures OnlyStraysGone(w, objects, cutoff)
  {
  }

  /** Every stray object outside `rest` is gone, and nothing else. */
  ghost predicate Swept(w: World, objects: map<string, Time>, cutoff: Time, rest: set<string>) {
    objects == w.objects - (Strays(w, cutoff) - rest)
  }

  lemma NothingSwept(w: World, cutoff: Time)
    ensures Swept(w, w.objects, cutoff, Listed(w, cutoff))
  {
  }

  lemma SweepOne(w: World, was: map<string, Time>, objects: map<string, Time>, cutoff: Time, rest: set<string>, key: string)
    requires key in rest && rest <= Listed(w, cutoff) && Swept(w, was, cutoff, rest)
    requires objects == was - (if HasObject(w.(objects := was), key) then {} else {key})
    ensures Swept(w, objects, cutoff, rest - {key})
  {
  }

  lemma SweptAll(w: World, objects: map<string, Time>, cutoff: Time)
    requires Swept(w, objects, cutoff, {})
    ensures objects == w.objects - Strays(w, cutoff) && Strays(w.(objects := objects), cutoff) == {}
  {
  }

  /** Check one object and delete it when no row accounts for it. */
  method ReconcileOne(store: Store, key: string) returns (r: Reply)
    requires Inv(store.W())
    modifies store`objects
    ensures Inv(store.W()) && (!store.stops ==> !r.Stopped?)
    ensures store.objects == old(store.objects) || (store.objects == old(store.objects) - {key} && !HasObject(old(store.W()), key))
    ensures r.Done? ==>
              store.objects == old(store.objects) - (if HasObject(old(store.W()), key) then {} else {key})
    ensures store.Dependable() ==> r.Done?
  {
    r := store.Answer(store.databaseFaults);
    if r.Done? && !HasObject(store.W(), key) {
      assert forall b :: IsReady(store.W(), b) ==> store.blobs[b].key != key;
      RemoveObjectKeepsInv(store.W(), key);
      r := store.Remove(key);
    }
  }

  /** The loop over the old objects. */
  method SweepStrays(store: Store, cutoff: Time) returns (ok: bool)
    requires Inv(store.W())
    modifies store`objects
    ensures Inv(store.W()) && OnlyStraysGone(old(store.W()), store.objects, cutoff)
    ensures ok ==> store.objects == old(store.objects) - Strays(old(store.W()), cutoff) && Strays(store.W(), cutoff) == {}
    ensures store.Dependable() ==> ok
  {
    ghost var w := store.W();
    assert OnlyStraysGone(w, store.objects, cutoff);
    var r := store.Answer(store.storageFaults);
    if !r.Done? {
      return false;
    }
    ok := true;
    var rest := Listed(store.W(), cutoff);
    ghost var listed := rest;
    NothingSwept(w, cutoff);
    hide Inv, Strays, HasObject, Swept, OnlyStraysGone, Listed;
    while rest != {}
      invariant rest <= listed && Inv(store.W()) && store.W() == w.(objects := store.objects)
      invariant OnlyStraysGone(w, store.objects, cutoff) && (ok ==> Swept(w, store.objects, cutoff, rest))
      invariant store.Dependable() ==> ok
      decreases |rest|
    {
      ghost var was, before := store.objects, rest;
      var key :| key in rest;
      rest := rest - {key};
      r := ReconcileOne(store, key);
      StrayGone(w, was, store.objects, cutoff, key);
      if r.Stopped? {
        return false;
      }
      if ok && r.Done? {
        SweepOne(w, was, store.objects, cutoff, before, key);
      }
      ok := ok && r.Done?;
    }
    if ok {
      SweptAll(w, store.objects, cutoff);
    }
  }

  /** One reconciliation run. Whatever fails, the store stays safe and only stray objects go; a run
      that reports no error has removed them all, and it reports none when nothing fails. */
  method RunReconcile(store: Store, config: Config) returns (ok: bool)
    requires Inv(store.W())
    modifies store`objects
    ensures Inv(store.W())
    ensures var cutoff := store.now - if config.gracePeriod > 0 then config.gracePeriod else 86_400_000_000_000;
            && SweptOnlyOld(old(store.objects), store.objects, store.blobs, cutoff)
            && (ok ==> NoStrayLeft(store.objects, store.blobs, cutoff))
    ensures store.Dependable() ==> ok
  {
    var cutoff := store.now - Effective(config).gracePeriod;
    ghost var w := store.W();
    ok := SweepStrays(store, cutoff);
    StraysMeaning(w, store.objects, cutoff);
  }
}
