/** What a worker's final write does to a row under interleaving, and the crop it can undo: a crop that
    a user chooses while a worker is at work on the avatar. */
module StaleWrites {
  import opened Wrappers
  import opened AvatarTables
  import opened Protocol
  import Crop

  /** The copy a worker writes back, as the row will have it: creation and deletion are the row's own. */
  function WrittenCopy(t: Tables, id: AvatarId, snapshot: Avatar): Avatar
    requires t.HasLive(id)
  {
    snapshot.(createdAt := t.avatars[id].createdAt, deletedAt := None)
  }

  /** The end of a worker's work, however stale its copy: nothing when the row is gone or the database
      refuses; else the copy it claimed, picture, crop and activity and all, with the outcome of the
      work, and no other row and no thumbnail is touched. */
  lemma FinalWriteMeaning(s: State, act: Action)
    requires Enabled(s, act) && (act.Complete? || act.Fail?)
    ensures var id, t, t' := s.copies[act.k].avatar, s.db, Next(s, act).db;
            var reason := if act.Fail? then act.reason else "";
            if act.refused || !t.HasLive(id) then t' == t
            else OnlyAvatar(t, t', id) && t'.thumbs == t.thumbs && id in t'.avatars
                 && WrittenDown(WrittenCopy(t, id, s.copies[act.k].place.phase.snapshot), t'.avatars[id],
                                act.Complete?, Final(s, act.k), reason, s.now)
  {
  }

  /** A copy claimed by a worker is the row it found, with one claim more. */
  lemma ClaimMeaning(s: State, k: nat)
    requires Enabled(s, Claim(k)) && Waiting(s, s.copies[k].avatar)
    ensures var id, s' := s.copies[k].avatar, Next(s, Claim(k));
            && HeldWorking(s', k) && id in s'.db.avatars && s'.copies[k].place.phase.snapshot == s'.db.avatars[id]
            && OnlyAvatar(s.db, s'.db, id) && Untouched(s.db.avatars[id], s'.db.avatars[id])
            && s'.db.avatars[id].processing.Processing? && s'.db.avatars[id].startedAt == Some(s.now)
            && s'.db.avatars[id].attempts == s.db.avatars[id].attempts + 1
            && s'.db.avatars[id].lastError == s.db.avatars[id].lastError
  {
  }

  // ----- Crops -----

  /** A use case commits another crop for the avatar. */
  predicate Chooses(s: State, act: Action, a: AvatarId) {
    && act.CommitRefresh? && act.c in s.cases && s.cases[act.c].Refreshing? && s.cases[act.c].id == a
    && CanActivate(s.db, s.cases[act.c].snapshot.user, a)
  }

  /** A whole row is written back whose crop is not the row's. */
  predicate Reverts(s: State, act: Action, a: AvatarId) {
    && s.db.HasLive(a)
    && match act
       case FinishUpload(c) => c in s.cases && s.cases[c].Creating? && s.cases[c].id == a && s.cases[c].snapshot.crop != s.db.avatars[a].crop
       case FailUpload(c, _, refused) =>
         !refused && c in s.cases && s.cases[c].Creating? && s.cases[c].id == a && s.cases[c].snapshot.crop != s.db.avatars[a].crop
       case Complete(k, refused, _) =>
         !refused && HeldWorking(s, k) && s.copies[k].avatar == a && s.copies[k].place.phase.snapshot.crop != s.db.avatars[a].crop
       case Fail(k, _, refused) =>
         !refused && HeldWorking(s, k) && s.copies[k].avatar == a && s.copies[k].place.phase.snapshot.crop != s.db.avatars[a].crop
       case _ => false
  }

  lemma RefreshCrops(t: Tables, id: AvatarId, snapshot: Avatar, crop: Crop.Square, now: Time, a: AvatarId)
    requires CanActivate(t, snapshot.user, id) && a in t.avatars
    ensures var t' := RefreshTx(t, snapshot.user, id, snapshot, crop, now);
            a in t'.avatars && t'.avatars[a].crop == if a == id then crop else t.avatars[a].crop
  {
  }

  lemma UploadCrops(t: Tables, id: AvatarId, snapshot: Avatar, now: Time, a: AvatarId)
    requires t.HasLive(id) && a in t.avatars
    ensures var t' := UploadedTx(t, id, snapshot, now);
            a in t'.avatars && t'.avatars[a].crop == if a == id then snapshot.crop else t.avatars[a].crop
  {
  }

  lemma DeletionCrops(t: Tables, user: UserId, id: AvatarId, fallback: Option<AvatarId>, now: Time, a: AvatarId)
    requires a in t.avatars
    ensures var t' := DeleteTx(t, user, id, fallback, now);
            a in t'.avatars && t'.avatars[a].crop == t.avatars[a].crop
  {
  }

  lemma WriteCrops(t: Tables, id: AvatarId, row: Avatar, a: AvatarId)
    requires a in t.avatars
    ensures var t' := UpdateRow(t, id, row);
            a in t'.avatars && t'.avatars[a].crop == if a == id && t.HasLive(id) then row.crop else t.avatars[a].crop
  {
  }

  /** The crop of `a` before and after a step are as they must be. */
  ghost predicate CropFollows(s: State, act: Action, a: AvatarId, s': State) {
    && a in s.db.avatars && a in s'.db.avatars
    && (Chooses(s, act, a) ==> s'.db.avatars[a].crop == s.cases[act.c].crop)
    && (!Chooses(s, act, a) ==> (s'.db.avatars[a].crop != s.db.avatars[a].crop <==> Reverts(s, act, a)))
  }

  lemma RefreshFollows(s: State, act: Action, a: AvatarId)
    requires Enabled(s, act) && act.CommitRefresh? && a in s.db.avatars
    ensures CropFollows(s, act, a, Next(s, act))
  {
    var Refreshing(id, snapshot, crop) := s.cases[act.c];
    if CanActivate(s.db, snapshot.user, id) {
      RefreshCrops(s.db, id, snapshot, crop, s.now, a);
    }
    hide RefreshTx;
  }

  lemma UploadFollows(s: State, act: Action, a: AvatarId)
    requires Enabled(s, act) && (act.FinishUpload? || act.FailUpload?) && a in s.db.avatars
    ensures CropFollows(s, act, a, Next(s, act))
  {
    var Creating(id, snapshot) := s.cases[act.c];
    if act.FinishUpload? && s.db.HasLive(id) {
      UploadCrops(s.db, id, snapshot, s.now, a);
    } else if act.FailUpload? {
      WriteCrops(s.db, id, snapshot.MarkFailed(act.reason, s.now), a);
    }
    hide UploadedTx, UpdateRow;
  }

  lemma WorkFollows(s: State, act: Action, a: AvatarId)
    requires Enabled(s, act) && (act.Complete? || act.Fail?) && a in s.db.avatars
    ensures CropFollows(s, act, a, Next(s, act))
  {
    var id, snapshot := s.copies[act.k].avatar, s.copies[act.k].place.phase.snapshot;
    WriteCrops(s.db, id, snapshot.MarkProcessed(s.now), a);
    if act.Fail? {
      WriteCrops(s.db, id, snapshot.AfterFailure(Final(s, act.k), act.reason, s.now), a);
    }
    hide UpdateRow;
  }

  lemma RestFollows(s: State, act: Action, a: AvatarId)
    requires Enabled(s, act) && a in s.db.avatars && a in Next(s, act).db.avatars
    requires !act.CommitRefresh? && !act.FinishUpload? && !act.FailUpload? && !act.Complete? && !act.Fail?
    ensures CropFollows(s, act, a, Next(s, act))
  {
    if act.DeleteAvatar? {
      DeletionCrops(s.db, s.db.avatars[act.id].user, act.id, act.fallback, s.now, a);
    }
    hide RefreshTx, UploadedTx, DeleteTx, UpdateRow;
  }

  /** A step changes an avatar's crop to the one that a use case commits for it, or, if and only if it
      writes back a row with another crop, undoes it. */
  lemma CropChangesExactly(s: State, act: Action, a: AvatarId)
    requires Enabled(s, act) && a in s.db.avatars && a in Next(s, act).db.avatars
    ensures Chooses(s, act, a) ==> Next(s, act).db.avatars[a].crop == s.cases[act.c].crop
    ensures !Chooses(s, act, a) ==> (Next(s, act).db.avatars[a].crop != s.db.avatars[a].crop <==> Reverts(s, act, a))
  {
    if act.CommitRefresh? {
      RefreshFollows(s, act, a);
    } else if act.FinishUpload? || act.FailUpload? {
      UploadFollows(s, act, a);
    } else if act.Complete? || act.Fail? {
      WorkFollows(s, act, a);
    } else {
      RestFollows(s, act, a);
    }
    hide Next, Enabled, Chooses, Reverts;
  }

  // ----- Whole runs -----

  function At(maxAttempts: nat, run: seq<Action>, m: nat): Option<State> {
    if m <= |run| then Run(Init(maxAttempts), run[..m]) else None
  }

  /** At this moment the avatar is there with some other crop than this. */
  ghost predicate LostAt(maxAttempts: nat, run: seq<Action>, m: nat, a: AvatarId, crop: Crop.Square) {
    At(maxAttempts, run, m).Some? && a in At(maxAttempts, run, m).value.db.avatars
    && At(maxAttempts, run, m).value.db.avatars[a].crop != crop
  }

  predicate RevertsAt(maxAttempts: nat, run: seq<Action>, j: nat, a: AvatarId) {
    j < |run| && At(maxAttempts, run, j).Some? && Reverts(At(maxAttempts, run, j).value, run[j], a)
  }

  /** Step `i` of the run commits this crop for the avatar, no later step commits one for it, and its row
      is there from then on. */
  ghost predicate LastChoice(maxAttempts: nat, run: seq<Action>, i: nat, a: AvatarId, crop: Crop.Square) {
    && i < |run| && Run(Init(maxAttempts), run).Some? && At(maxAttempts, run, i).Some?
    && Chooses(At(maxAttempts, run, i).value, run[i], a) && At(maxAttempts, run, i).value.cases[run[i].c].crop == crop
    && (forall j :: i < j < |run| && At(maxAttempts, run, j).Some? ==> !Chooses(At(maxAttempts, run, j).value, run[j], a))
    && (forall m :: i <= m <= |run| && At(maxAttempts, run, m).Some? ==> a in At(maxAttempts, run, m).value.db.avatars)
  }

  lemma StepAt(maxAttempts: nat, run: seq<Action>, i: nat)
    requires Run(Init(maxAttempts), run).Some? && i < |run|
    ensures At(maxAttempts, run, i).Some? && Enabled(At(maxAttempts, run, i).value, run[i])
    ensures At(maxAttempts, run, i + 1) == Some(Next(At(maxAttempts, run, i).value, run[i]))
  {
    PrefixRuns(Init(maxAttempts), run, i);
  }

  lemma EarlierStays(maxAttempts: nat, run: seq<Action>, act: Action, m: nat)
    requires m <= |run|
    ensures At(maxAttempts, run + [act], m) == At(maxAttempts, run, m)
  {
    assert (run + [act])[..m] == run[..m];
  }

  lemma {:induction false} LostWasReverted(maxAttempts: nat, run: seq<Action>, i: nat, a: AvatarId, crop: Crop.Square, m: nat)
    requires LastChoice(maxAttempts, run, i, a, crop) && i < m && LostAt(maxAttempts, run, m, a, crop)
    ensures exists j: nat :: i < j < m && RevertsAt(maxAttempts, run, j, a)
  {
    hide Run, Next, Enabled, Reverts;
    StepAt(maxAttempts, run, m - 1);
    var s := At(maxAttempts, run, m - 1).value;
    CropChangesExactly(s, run[m - 1], a);
    if i < m - 1 {
      if LostAt(maxAttempts, run, m - 1, a, crop) {
        LostWasReverted(maxAttempts, run, i, a, crop, m - 1);
      } else {
        assert RevertsAt(maxAttempts, run, m - 1, a);
      }
    }
  }

  /** In every run, the crop that was chosen last is at some later moment not the avatar's crop if and
      only if some later step writes back a row with another crop. */
  lemma ChosenCropIsLostExactly(maxAttempts: nat, run: seq<Action>, i: nat, a: AvatarId, crop: Crop.Square)
    requires LastChoice(maxAttempts, run, i, a, crop)
    ensures (exists m: nat :: i < m && LostAt(maxAttempts, run, m, a, crop))
            <==> (exists j: nat :: i < j && RevertsAt(maxAttempts, run, j, a))
  {
    hide Run, Next, Enabled, Reverts, Chooses;
    if m: nat :| i < m && LostAt(maxAttempts, run, m, a, crop) {
      LostWasReverted(maxAttempts, run, i, a, crop, m);
    }
    if j: nat :| i < j && RevertsAt(maxAttempts, run, j, a) {
      StepAt(maxAttempts, run, j);
      CropChangesExactly(At(maxAttempts, run, j).value, run[j], a);
      if !LostAt(maxAttempts, run, j, a, crop) {
        assert LostAt(maxAttempts, run, j + 1, a, crop);
      }
    }
  }

  const CHOSEN: Crop.Square := Crop.Square(1.0, 1.0, 5.0)

  /** A worker has claimed avatar 7, then its user chooses another crop. */
  lemma ChosenWhileClaimed() returns (run: seq<Action>, i: nat, s: State)
    ensures Run(Init(1), run) == Some(s) && i < |run|
    ensures At(1, run, i).Some? && Chooses(At(1, run, i).value, run[i], 7) && At(1, run, i).value.cases[run[i].c].crop == CHOSEN
    ensures i + 1 == |run| && 7 in At(1, run, i).value.db.avatars
    ensures HeldWorking(s, 0) && s.copies[0].avatar == 7 && s.copies[0].place.phase.snapshot.crop == SAMPLE.crop
    ensures s.db.HasLive(7) && s.db.avatars[7].crop == CHOSEN
  {
    var delivered, t0 := DeliveredRun();
    RunAppends(Init(1), delivered, Claim(0));
    ClaimMeaning(t0, 0);
    var claimed, t1 := delivered + [Claim(0)], Next(t0, Claim(0));
    hide Run;
    RunAppends(Init(1), claimed, ReadForEdit(0, 7, CHOSEN));
    var read, t2 := claimed + [ReadForEdit(0, 7, CHOSEN)], Next(t1, ReadForEdit(0, 7, CHOSEN));
    RunAppends(Init(1), read, CommitRefresh(0));
    RefreshCrops(t2.db, 7, t2.db.avatars[7], CHOSEN, t2.now, 7);
    run, i, s := read + [CommitRefresh(0)], |read|, Next(t2, CommitRefresh(0));
    assert run[..i] == read;
  }

  ghost predicate EndsWithoutChoice(run: seq<Action>, i: nat) {
    && LastChoice(1, run, i, 7, CHOSEN) && LostAt(1, run, |run|, 7, CHOSEN)
    && At(1, run, |run|).value.db.avatars[7].processing.Completed?
  }

  lemma ChoiceBeforeLast(run: seq<Action>, i: nat, s: State, act: Action)
    requires Run(Init(1), run) == Some(s) && Enabled(s, act) && i + 1 == |run|
    requires At(1, run, i).Some? && Chooses(At(1, run, i).value, run[i], 7) && At(1, run, i).value.cases[run[i].c].crop == CHOSEN
    requires 7 in At(1, run, i).value.db.avatars && 7 in s.db.avatars && 7 in Next(s, act).db.avatars
    requires !Chooses(s, act, 7)
    ensures LastChoice(1, run + [act], i, 7, CHOSEN)
    ensures At(1, run + [act], |run| + 1) == Some(Next(s, act))
  {
    RunAppends(Init(1), run, act);
    hide Run, Next, Enabled, Chooses;
    var longer := run + [act];
    assert longer[..|longer|] == longer && run[..|run|] == run;
    EarlierStays(1, run, act, i);
    EarlierStays(1, run, act, |run|);
    assert At(1, longer, |longer|) == Some(Next(s, act)) && At(1, longer, |run|) == Some(s);
    hide At;
    forall m | i <= m <= |longer| && At(1, longer, m).Some?
      ensures 7 in At(1, longer, m).value.db.avatars
    {
      assert m == i || m == |run| || m == |longer|;
    }
  }

  /** Such a write is met: the worker's success brings the old crop back, and the avatar counts as
      completed, so that no later delivery will claim it to cut it as its user chose. */
  lemma ChosenCropCanBeLost()
    ensures exists run: seq<Action>, i: nat :: EndsWithoutChoice(run, i)
  {
    var run, i, s := ChosenWhileClaimed();
    var act := Complete(0, false, true);
    FinalWriteMeaning(s, act);
    hide Run, At;
    ChoiceBeforeLast(run, i, s, act);
    var longer := run + [act];
    hide Next, Enabled, Chooses;
    assert EndsWithoutChoice(longer, i);
  }
}
