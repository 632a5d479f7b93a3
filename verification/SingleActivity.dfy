/** At most one active avatar per user, while use cases, workers and the retention job interleave:
    the whole-row update of a copy read earlier is what can break it, and exactly when. */
module SingleActivity {
  import opened Wrappers
  import opened AvatarTables
  import opened Protocol
  import Crop

  /** The row written back says it is active, while the user has another active avatar by now. */
  predicate WritesSecond(t: Tables, id: AvatarId, row: Avatar) {
    t.HasLive(id) && row.active && exists o :: o in t.avatars && o != id && IsActive(t, row.user, o)
  }

  /** A worker ends its work, or an upload its failure, by writing back such a copy, and the database
      does not refuse it. */
  predicate TakesSecond(s: State, act: Action) {
    match act
    case FailUpload(c, _, refused) =>
      !refused && c in s.cases && s.cases[c].Creating? && WritesSecond(s.db, s.cases[c].id, s.cases[c].snapshot)
    case Complete(k, refused, _) =>
      !refused && HeldWorking(s, k) && WritesSecond(s.db, s.copies[k].avatar, s.copies[k].place.phase.snapshot)
    case Fail(k, _, refused) =>
      !refused && HeldWorking(s, k) && WritesSecond(s.db, s.copies[k].avatar, s.copies[k].place.phase.snapshot)
    case _ => false
  }

  lemma UpdateTakesSecondExactly(t: Tables, id: AvatarId, row: Avatar)
    requires SingleActive(t)
    ensures !SingleActive(UpdateRow(t, id, row)) <==> WritesSecond(t, id, row)
  {
    var t' := UpdateRow(t, id, row);
    if t.HasLive(id) {
      assert forall user, o :: o != id ==> (IsActive(t', user, o) <==> IsActive(t, user, o));
      if o :| o in t.avatars && o != id && IsActive(t, row.user, o) {
        assert row.active ==> IsActive(t', row.user, id) && IsActive(t', row.user, o);
      }
    }
  }

  ghost predicate SingleBesides(t: Tables, user: UserId) {
    forall i, j :: i in t.avatars && j in t.avatars && t.avatars[i].user != user
                   && IsActive(t, t.avatars[i].user, i) && IsActive(t, t.avatars[i].user, j)
      ==> i == j
  }

  lemma ActivationKeepsSingle(t: Tables, user: UserId, id: AvatarId, now: Time)
    requires SingleBesides(t, user)
    requires CanActivate(t, user, id)
    ensures SingleActive(Activate(t, user, id, now))
  {
    ActivateMeaning(t, user, id, now);
  }

  lemma RefreshKeepsSingle(t: Tables, id: AvatarId, snapshot: Avatar, crop: Crop.Square, now: Time)
    requires SingleActive(t)
    ensures SingleActive(RefreshTx(t, snapshot.user, id, snapshot, crop, now))
  {
    if CanActivate(t, snapshot.user, id) {
      ActivationKeepsSingle(t, snapshot.user, id, now);
      ActivateMeaning(t, snapshot.user, id, now);
      UpdateTakesSecondExactly(Activate(t, snapshot.user, id, now), id, snapshot.Refreshed(crop, now));
    }
  }

  lemma UploadKeepsSingle(t: Tables, id: AvatarId, snapshot: Avatar, now: Time)
    requires SingleActive(t)
    ensures SingleActive(UploadedTx(t, id, snapshot, now))
  {
    if t.HasLive(id) {
      var updated := UpdateRow(t, id, snapshot.(upload := Uploaded));
      assert forall user, o :: o != id ==> (IsActive(updated, user, o) <==> IsActive(t, user, o));
      ActivationKeepsSingle(updated, snapshot.user, id, now);
    }
  }

  lemma DeletionKeepsSingle(t: Tables, user: UserId, id: AvatarId, fallback: Option<AvatarId>, now: Time)
    requires SingleActive(t)
    ensures SingleActive(DeleteTx(t, user, id, fallback, now))
  {
    if t.HasLive(id) {
      var deleted := SoftDeleteThumbs(SoftDelete(t, id, now), id, now);
      assert forall u, o :: IsActive(deleted, u, o) ==> IsActive(t, u, o);
      if fallback.Some? && CanActivate(deleted, user, fallback.value) {
        ActivationKeepsSingle(deleted, user, fallback.value, now);
      }
    }
  }

  lemma RestKeepsSingle(s: State, act: Action)
    requires SingleActive(s.db) && Enabled(s, act)
    requires !act.CommitRefresh? && !act.FinishUpload? && !act.DeleteAvatar?
    requires !act.FailUpload? && !act.Complete? && !act.Fail?
    ensures SingleActive(Next(s, act).db)
  {
    hide RefreshTx, UploadedTx, DeleteTx, UpdateRow;
    var s' := Next(s, act);
    assert forall u, o :: IsActive(s'.db, u, o) ==> IsActive(s.db, u, o);
  }

  lemma WriteBack(t: Tables, id: AvatarId, snapshot: Avatar, row: Avatar)
    requires SingleActive(t) && row.active == snapshot.active && row.user == snapshot.user
    ensures !SingleActive(UpdateRow(t, id, row)) <==> WritesSecond(t, id, snapshot)
    ensures WritesSecond(t, id, snapshot) ==> t.HasLive(id)
  {
    UpdateTakesSecondExactly(t, id, row);
  }

  /** From a state with at most one active avatar per user a step leaves two if and only if it writes
      back a copy that was active, while the user has another active avatar. */
  lemma TakesSecondExactly(s: State, act: Action)
    requires SingleActive(s.db) && Enabled(s, act)
    ensures !SingleActive(Next(s, act).db) <==> TakesSecond(s, act)
  {
    hide SingleActive, WritesSecond, RefreshTx, UploadedTx, DeleteTx, UpdateRow;
    match act
    case CommitRefresh(c) =>
      var Refreshing(id, snapshot, crop) := s.cases[c];
      RefreshKeepsSingle(s.db, id, snapshot, crop, s.now);
    case FinishUpload(c) => UploadKeepsSingle(s.db, s.cases[c].id, s.cases[c].snapshot, s.now);
    case DeleteAvatar(id, fallback) => DeletionKeepsSingle(s.db, s.db.avatars[id].user, id, fallback, s.now);
    case FailUpload(c, reason, _) => WriteBack(s.db, s.cases[c].id, s.cases[c].snapshot, s.cases[c].snapshot.MarkFailed(reason, s.now));
    case Complete(k, _, _) =>
      var snapshot := s.copies[k].place.phase.snapshot;
      WriteBack(s.db, s.copies[k].avatar, snapshot, snapshot.MarkProcessed(s.now));
    case Fail(k, reason, _) =>
      var snapshot := s.copies[k].place.phase.snapshot;
      WriteBack(s.db, s.copies[k].avatar, snapshot, snapshot.AfterFailure(Final(s, k), reason, s.now));
    case _ => RestKeepsSingle(s, act);
  }

  ghost predicate TwoActiveAt(maxAttempts: nat, run: seq<Action>, m: nat) {
    m <= |run| && Run(Init(maxAttempts), run[..m]).Some? && !SingleActive(Run(Init(maxAttempts), run[..m]).value.db)
  }

  predicate TakesSecondAt(maxAttempts: nat, run: seq<Action>, i: nat) {
    i < |run| && Run(Init(maxAttempts), run[..i]).Some? && TakesSecond(Run(Init(maxAttempts), run[..i]).value, run[i])
  }

  lemma {:induction false} TwoWereTaken(maxAttempts: nat, run: seq<Action>, m: nat)
    requires Run(Init(maxAttempts), run).Some? && TwoActiveAt(maxAttempts, run, m)
    ensures exists i: nat :: i < m && TakesSecondAt(maxAttempts, run, i)
  {
    PrefixRuns(Init(maxAttempts), run, m - 1);
    if TwoActiveAt(maxAttempts, run, m - 1) {
      TwoWereTaken(maxAttempts, run, m - 1);
    } else {
      TakesSecondExactly(Run(Init(maxAttempts), run[..m - 1]).value, run[m - 1]);
      assert TakesSecondAt(maxAttempts, run, m - 1);
    }
  }

  /** In every run, a user has at some moment two active avatars if and only if some step writes back
      an active copy while the user has another active avatar. Those are the writes that the unique
      index on active avatars refuses. */
  lemma EverTwoActiveExactly(maxAttempts: nat, run: seq<Action>)
    requires Run(Init(maxAttempts), run).Some?
    ensures (exists m: nat :: TwoActiveAt(maxAttempts, run, m)) <==> (exists i: nat :: TakesSecondAt(maxAttempts, run, i))
  {
    if m: nat :| TwoActiveAt(maxAttempts, run, m) {
      TwoWereTaken(maxAttempts, run, m);
    }
    if i: nat :| TakesSecondAt(maxAttempts, run, i) {
      PrefixRuns(Init(maxAttempts), run, i);
      var s := Run(Init(maxAttempts), run[..i]).value;
      if SingleActive(s.db) {
        TakesSecondExactly(s, run[i]);
        assert TwoActiveAt(maxAttempts, run, i + 1);
      } else {
        assert TwoActiveAt(maxAttempts, run, i);
      }
    }
  }

  lemma ClaimHolds(s: State)
    requires s.db == UPLOADED && s.copies == map[0 := Copy(7, 1, Held(Started))]
    ensures Enabled(s, Claim(0))
    ensures var s' := Next(s, Claim(0));
            && s'.db == ClaimRow(UPLOADED, 7, s.now) && s'.cases == s.cases && s'.now == s.now
            && s'.copies == map[0 := Copy(7, 1, Held(Working(Claimed(UPLOADED.avatars[7], s.now))))]
  {
  }

  lemma SecondUpload(s: State)
    requires s.db == ClaimRow(UPLOADED, 7, s.now) && s.cases == map[]
    ensures Enabled(s, BeginCreate(1, 8, SAMPLE))
    ensures var s' := Next(s, BeginCreate(1, 8, SAMPLE));
            && Enabled(s', FinishUpload(1)) && SingleActive(s'.db) && s'.cases[1] == Creating(8, SAMPLE)
            && s'.copies == s.copies && 7 in s'.db.avatars && s'.db.HasLive(8)
            && s'.db == Insert(s.db, 8, SAMPLE) && s'.now == s.now
  {
  }

  lemma SecondTakesOver(s: State)
    requires s.db == Insert(ClaimRow(UPLOADED, 7, s.now), 8, SAMPLE) && SingleActive(s.db)
    requires 1 in s.cases && s.cases[1] == Creating(8, SAMPLE)
    ensures var s' := Next(s, FinishUpload(1));
            && s'.copies == s.copies && s'.db.HasLive(7) && IsActive(s'.db, "u", 8) && SingleActive(s'.db)
  {
    UploadKeepsSingle(s.db, 8, SAMPLE, s.now);
  }

  /** An avatar claimed while active, and another one uploaded before the worker writes back. */
  lemma ClaimedThenReplaced() returns (run: seq<Action>, s: State)
    ensures Run(Init(1), run) == Some(s)
    ensures HeldWorking(s, 0) && s.copies[0].avatar == 7
    ensures s.copies[0].place.phase.snapshot.active && s.copies[0].place.phase.snapshot.user == "u"
    ensures s.db.HasLive(7) && IsActive(s.db, "u", 8) && SingleActive(s.db)
  {
    var delivered, t := DeliveredRun();
    hide Next, Run, SingleActive, IsActive, ClaimRow, Insert;
    ClaimHolds(t);
    RunAppends(Init(1), delivered, Claim(0));
    var t1 := Next(t, Claim(0));
    var claimed := delivered + [Claim(0)];
    SecondUpload(t1);
    RunAppends(Init(1), claimed, BeginCreate(1, 8, SAMPLE));
    var t2 := Next(t1, BeginCreate(1, 8, SAMPLE));
    var begun := claimed + [BeginCreate(1, 8, SAMPLE)];
    SecondTakesOver(t2);
    RunAppends(Init(1), begun, FinishUpload(1));
    run := begun + [FinishUpload(1)];
    s := Next(t2, FinishUpload(1));
  }

  /** Such a write is met when the database does not refuse it. */
  lemma StaleWriteCanActivateSecond()
    ensures exists run: seq<Action>, m: nat :: Run(Init(1), run).Some? && TwoActiveAt(1, run, m)
  {
    var run, s := ClaimedThenReplaced();
    RunAppends(Init(1), run, Complete(0, false, true));
    var longer := run + [Complete(0, false, true)];
    assert 8 in s.db.avatars;
    TakesSecondExactly(s, Complete(0, false, true));
    assert longer[..|longer|] == longer;
    assert TwoActiveAt(1, longer, |longer|);
  }
}
