/** The avatar processing protocol as a transition system. Use cases, outbox publishers, the
    broker, workers and the retention job interleave step by step; one SQL statement or one
    transaction is one step. Copies read earlier stay in the hands of the actor that read them
    and are written back whole, however stale they have become. */
module Protocol {
  import opened Wrappers
  import opened AvatarTables
  import Crop

  /** A use case between its steps. */
  datatype Case =
    | Creating(id: AvatarId, snapshot: Avatar)
    | Refreshing(id: AvatarId, snapshot: Avatar, crop: Crop.Square)
    | Owing(id: AvatarId)  // committed, its upload event not yet saved

  /** An upload event in the outbox; `accepted` is history: the broker took it at least once. */
  datatype Event = Event(avatar: AvatarId, accepted: bool, published: bool)

  datatype Phase =
    | Started                       // delivered, nothing claimed
    | Working(snapshot: Avatar)     // claimed
    | Succeeded                     // handler returned nil
    | Erred(claimed: bool)          // handler returned an error, before or after its claim
    | Forwarded                     // a copy was forwarded, the delivery not yet acknowledged

  datatype Place = Main | Retry | Dead | Held(phase: Phase)

  /** One copy of an upload message inside the broker. */
  datatype Copy = Copy(avatar: AvatarId, attempt: nat, place: Place)

  /** History: who set an avatar to pending, and who claimed it, in order. */
  datatype Entry = SetPending(avatar: AvatarId) | WasClaimed(avatar: AvatarId)

  datatype State = State(
    maxAttempts: nat,
    now: Time,
    db: Tables,
    cases: map<nat, Case>,
    events: map<nat, Event>,
    copies: map<nat, Copy>,
    abandoned: set<AvatarId>,  // history: a message was given up since a use case last re-queued the avatar
    log: seq<Entry>)

  datatype Action =
    | Tick(elapsed: nat)
    | BeginCreate(c: nat, id: AvatarId, row: Avatar)
    | FinishUpload(c: nat)
    | FailUpload(c: nat, reason: string, refused: bool)
    | ReadForEdit(c: nat, id: AvatarId, crop: Crop.Square)
    | ReadForReuse(c: nat, id: AvatarId, crop: Crop.Square)
    | CommitRefresh(c: nat)
    | SaveEvent(c: nat, e: nat)
    | CaseStops(c: nat)  // also a save that fails, and a transaction or commit answered by an error
    | DeleteAvatar(id: AvatarId, fallback: Option<AvatarId>)
    | HardDelete(before: Time)
    | BrokerAccepts(e: nat, k: nat)
    | MarkPublished(e: nat)
    | Deliver(k: nat)
    | RetryDue(k: nat)
    | LookupMisses(k: nat)
    | Claim(k: nat)
    | EarlyError(k: nat, claimApplied: bool)
    | Complete(k: nat, refused: bool, answered: bool)
    | Fail(k: nat, reason: string, refused: bool)
    | Acknowledge(k: nat)
    | RetryInPlace(k: nat)
    | Forward(k: nat, copy: nat)
    | Requeue(k: nat)
    | Redeliver(k: nat, attempt: nat)

  function Init(maxAttempts: nat): State {
    State(maxAttempts, 0, Tables(map[], map[]), map[], map[], map[], {}, [])
  }

  // ----- Guards -----

  predicate HeldIn(s: State, k: nat) {
    k in s.copies && s.copies[k].place.Held?
  }

  predicate HeldStarted(s: State, k: nat) {
    HeldIn(s, k) && s.copies[k].place.phase.Started?
  }

  predicate HeldWorking(s: State, k: nat) {
    HeldIn(s, k) && s.copies[k].place.phase.Working?
  }

  predicate HeldErred(s: State, k: nat) {
    HeldIn(s, k) && s.copies[k].place.phase.Erred?
  }

  predicate Final(s: State, k: nat)
    requires k in s.copies
  {
    s.copies[k].attempt >= s.maxAttempts
  }

  predicate Enabled(s: State, act: Action) {
    match act
    case Tick(_) => true
    case BeginCreate(c, id, row) =>
      && c !in s.cases && id !in s.db.avatars
      && row.upload.Uploading? && row.processing.Pending? && !row.active && row.Live()
    case FinishUpload(c) => c in s.cases && s.cases[c].Creating?
    case FailUpload(c, _, _) => c in s.cases && s.cases[c].Creating?
    case ReadForEdit(c, id, _) => c !in s.cases && s.db.HasLive(id) && s.db.avatars[id].upload.Uploaded?
    case ReadForReuse(c, id, _) => c !in s.cases && id in s.db.avatars && s.db.avatars[id].upload.Uploaded?
    case CommitRefresh(c) => c in s.cases && s.cases[c].Refreshing?
    case SaveEvent(c, e) => c in s.cases && s.cases[c].Owing? && e !in s.events
    case CaseStops(c) => c in s.cases
    case DeleteAvatar(id, fallback) =>
      && s.db.HasLive(id)
      && (fallback.Some? ==> fallback.value != id && s.db.HasLive(fallback.value)
                             && s.db.avatars[fallback.value].user == s.db.avatars[id].user)
    case HardDelete(_) => true
    case BrokerAccepts(e, k) => e in s.events && k !in s.copies
    case MarkPublished(e) => e in s.events && s.events[e].accepted
    case Deliver(k) => k in s.copies && s.copies[k].place.Main?
    case RetryDue(k) => k in s.copies && s.copies[k].place.Retry?
    case LookupMisses(k) => HeldStarted(s, k) && !s.db.HasLive(s.copies[k].avatar)
    case Claim(k) => HeldStarted(s, k)
    case EarlyError(k, _) => HeldStarted(s, k)
    case Complete(k, _, _) => HeldWorking(s, k)
    case Fail(k, _, _) => HeldWorking(s, k)
    case Acknowledge(k) => HeldIn(s, k) && (s.copies[k].place.phase.Succeeded? || s.copies[k].place.phase.Forwarded?)
    case RetryInPlace(k) => HeldErred(s, k) && !Final(s, k)
    case Forward(k, copy) => HeldErred(s, k) && copy !in s.copies
    case Requeue(k) => HeldErred(s, k)
    case Redeliver(k, attempt) => HeldIn(s, k) && (attempt == s.copies[k].attempt || attempt == 1)
  }

  // ----- Effects -----

  function Moved(s: State, k: nat, place: Place): State
    requires k in s.copies
  {
    s.(copies := s.copies[k := s.copies[k].(place := place)])
  }

  function EndCase(s: State, c: nat): State {
    s.(cases := s.cases - {c})
  }

  /** The claim statement, with its history. */
  function ClaimStep(s: State, id: AvatarId): State {
    if id in s.db.avatars && s.db.avatars[id].Claimable()
    then s.(db := ClaimRow(s.db, id, s.now), log := s.log + [WasClaimed(id)]) else s
  }

  /** The whole-row update; the database may also refuse it. */
  function UpdateStep(s: State, id: AvatarId, row: Avatar, refused: bool): State {
    if refused || !s.db.HasLive(id) then s
    else s.(db := UpdateRow(s.db, id, row),
            log := if row.processing.Pending? then s.log + [SetPending(id)] else s.log)
  }

  function CommitRefreshStep(s: State, c: nat): State
    requires c in s.cases && s.cases[c].Refreshing?
  {
    var Refreshing(id, snapshot, crop) := s.cases[c];
    if CanActivate(s.db, snapshot.user, id)
    then s.(db := RefreshTx(s.db, snapshot.user, id, snapshot, crop, s.now),
            cases := s.cases[c := Owing(id)],
            abandoned := s.abandoned - {id},
            log := s.log + [SetPending(id)])
    else EndCase(s, c)
  }

  function FinishUploadStep(s: State, c: nat): State
    requires c in s.cases && s.cases[c].Creating?
  {
    var Creating(id, snapshot) := s.cases[c];
    if s.db.HasLive(id)
    then s.(db := UploadedTx(s.db, id, snapshot, s.now),
            cases := s.cases[c := Owing(id)],
            abandoned := s.abandoned - {id},
            log := if snapshot.processing.Pending? then s.log + [SetPending(id)] else s.log)
    else EndCase(s, c)
  }

  /** Forward a failed delivery to the retry queue or, on the last attempt, to the dead-letter
      queue. A message dead-lettered before it ever claimed its avatar is given up. */
  function ForwardStep(s: State, k: nat, copy: nat): State
    requires HeldErred(s, k)
  {
    var c := s.copies[k];
    var forwarded := if Final(s, k) then c.(place := Dead) else Copy(c.avatar, c.attempt + 1, Retry);
    s.(copies := s.copies[k := c.(place := Held(Forwarded))][copy := forwarded],
       abandoned := if Final(s, k) && !c.place.phase.claimed then s.abandoned + {c.avatar} else s.abandoned)
  }

  function Next(s: State, act: Action): State
    requires Enabled(s, act)
  {
    match act
    case Tick(elapsed) => s.(now := s.now + elapsed)
    case BeginCreate(c, id, row) =>
      s.(db := Insert(s.db, id, row), cases := s.cases[c := Creating(id, row)], log := s.log + [SetPending(id)])
    case FinishUpload(c) => FinishUploadStep(s, c)
    case FailUpload(c, reason, refused) =>
      EndCase(UpdateStep(s, s.cases[c].id, s.cases[c].snapshot.MarkFailed(reason, s.now), refused), c)
    case ReadForEdit(c, id, crop) => s.(cases := s.cases[c := Refreshing(id, s.db.avatars[id], crop)])
    case ReadForReuse(c, id, crop) => s.(cases := s.cases[c := Refreshing(id, s.db.avatars[id], crop)])
    case CommitRefresh(c) => CommitRefreshStep(s, c)
    case SaveEvent(c, e) => EndCase(s.(events := s.events[e := Event(s.cases[c].id, false, false)]), c)
    case CaseStops(c) =>
      EndCase(s.(abandoned := if s.cases[c].Owing? then s.abandoned + {s.cases[c].id} else s.abandoned), c)
    case DeleteAvatar(id, fallback) => s.(db := DeleteTx(s.db, s.db.avatars[id].user, id, fallback, s.now))
    case HardDelete(before) => s.(db := HardDeleteAvatars(s.db, before))
    case BrokerAccepts(e, k) =>
      s.(events := s.events[e := s.events[e].(accepted := true)],
         copies := s.copies[k := Copy(s.events[e].avatar, 1, Main)])
    case MarkPublished(e) => s.(events := s.events[e := s.events[e].(published := true)])
    case Deliver(k) => Moved(s, k, Held(Started))
    case RetryDue(k) => Moved(s, k, Main)
    case LookupMisses(k) => Moved(s, k, Held(Succeeded))
    case Claim(k) =>
      var id := s.copies[k].avatar;
      if id in s.db.avatars && s.db.avatars[id].Claimable()
      then Moved(ClaimStep(s, id), k, Held(Working(Claimed(s.db.avatars[id], s.now))))
      else Moved(s, k, Held(Succeeded))
    case EarlyError(k, claimApplied) =>
      Moved(if claimApplied then ClaimStep(s, s.copies[k].avatar) else s, k, Held(Erred(false)))
    case Complete(k, refused, answered) =>
      var id := s.copies[k].avatar;
      var done := UpdateStep(s, id, s.copies[k].place.phase.snapshot.MarkProcessed(s.now), refused);
      Moved(done, k, Held(if refused || !answered || !s.db.HasLive(id) then Erred(true) else Succeeded))
    case Fail(k, reason, refused) =>
      var row := s.copies[k].place.phase.snapshot.AfterFailure(Final(s, k), reason, s.now);
      Moved(UpdateStep(s, s.copies[k].avatar, row, refused), k, Held(Erred(true)))
    case Acknowledge(k) => s.(copies := s.copies - {k})
    case RetryInPlace(k) =>
      s.(copies := s.copies[k := Copy(s.copies[k].avatar, s.copies[k].attempt + 1, Held(Started))])
    case Forward(k, copy) => ForwardStep(s, k, copy)
    case Requeue(k) => Moved(s, k, Main)
    case Redeliver(k, attempt) => s.(copies := s.copies[k := Copy(s.copies[k].avatar, attempt, Main)])
  }

  // ----- Runs -----

  /** The state after a run, if every action of it was enabled when its turn came. */
  function Run(s: State, run: seq<Action>): Option<State> {
    if run == [] then Some(s)
    else
      var before := Run(s, run[..|run| - 1]);
      if before.Some? && Enabled(before.value, run[|run| - 1])
      then Some(Next(before.value, run[|run| - 1])) else None
  }

  // ----- No stranded avatar -----

  /** The avatar waits for a worker: live, uploaded, pending. */
  predicate Waiting(s: State, a: AvatarId) {
    a in s.db.avatars && s.db.avatars[a].Claimable()
  }

  /** A copy that will still lead to a claim: queued, awaiting retry, held before its claim, or
      held after a failure that is not the last. */
  predicate LiveCopy(c: Copy, maxAttempts: nat) {
    match c.place
    case Main => true
    case Retry => true
    case Dead => false
    case Held(Started) => true
    case Held(Erred(claimed)) => !claimed || c.attempt < maxAttempts
    case Held(_) => false
  }

  ghost predicate OwedBy(s: State, a: AvatarId, c: nat) {
    c in s.cases && s.cases[c] == Owing(a)
  }

  ghost predicate Unsent(s: State, a: AvatarId, e: nat) {
    e in s.events && s.events[e].avatar == a && !s.events[e].accepted && !s.events[e].published
  }

  ghost predicate Queued(s: State, a: AvatarId, k: nat) {
    k in s.copies && s.copies[k].avatar == a && LiveCopy(s.copies[k], s.maxAttempts)
  }

  ghost predicate LiveMessage(s: State, a: AvatarId) {
    (exists c :: OwedBy(s, a, c)) || (exists e :: Unsent(s, a, e)) || (exists k :: Queued(s, a, k))
  }

  ghost predicate NoneStranded(s: State) {
    forall a :: Waiting(s, a) && a !in s.abandoned ==> LiveMessage(s, a)
  }

  /** The two steps that give up an avatar's message: a use case stops while it owes the message,
      or a last delivery that failed before its claim is dead-lettered. */
  predicate GivesUp(s: State, act: Action, a: AvatarId) {
    match act
    case CaseStops(c) => c in s.cases && s.cases[c] == Owing(a)
    case Forward(k, _) => HeldErred(s, k) && Final(s, k) && !s.copies[k].place.phase.claimed && s.copies[k].avatar == a
    case _ => false
  }

  lemma GivingUpAbandons(s: State, act: Action, a: AvatarId)
    requires Enabled(s, act) && GivesUp(s, act, a)
    ensures a in Next(s, act).abandoned
  {
  }

  /** An owed message is saved, stays owed, or is given up with its use case. */
  lemma OwedMoves(s: State, act: Action, a: AvatarId, c: nat)
    requires Enabled(s, act) && OwedBy(s, a, c)
    ensures LiveMessage(Next(s, act), a) || act == CaseStops(c)
  {
    if act.SaveEvent? && act.c == c {
      assert Unsent(Next(s, act), a, act.e);
    } else {
      assert OwedBy(Next(s, act), a, c) || act == CaseStops(c);
    }
  }

  /** An event leaves the outbox only after the broker has taken a copy. */
  lemma UnsentMoves(s: State, act: Action, a: AvatarId, e: nat)
    requires Enabled(s, act) && Unsent(s, a, e)
    ensures LiveMessage(Next(s, act), a)
  {
    if act.BrokerAccepts? && act.e == e {
      assert Queued(Next(s, act), a, act.k);
    } else {
      assert Unsent(Next(s, act), a, e);
    }
  }

  lemma ClaimingEndsTheWait(s: State, k: nat)
    requires HeldStarted(s, k)
    ensures !Waiting(Next(s, Claim(k)), s.copies[k].avatar)
  {
  }

  /** A live copy stays live, moves on to another copy, meets an avatar that is not waiting,
      or is given up. */
  lemma QueuedMoves(s: State, act: Action, a: AvatarId, k: nat)
    requires Enabled(s, act) && Queued(s, a, k)
    ensures var s' := Next(s, act);
            LiveMessage(s', a) || !Waiting(s', a) || (act.Forward? && act.k == k && GivesUp(s, act, a))
  {
    hide ClaimRow, RefreshTx, UploadedTx, DeleteTx, UpdateRow, HardDeleteAvatars;
    var s' := Next(s, act);
    if act.Forward? && act.k == k {
      assert Queued(s', a, act.copy) || GivesUp(s, act, a);
    } else if act.Claim? && act.k == k {
      ClaimingEndsTheWait(s, k);
    } else {
      assert Queued(s', a, k) || !Waiting(s', a);
    }
  }

  lemma UpdateMakesNoneWait(s: State, id: AvatarId, row: Avatar, refused: bool, a: AvatarId)
    requires !row.processing.Pending? && Waiting(UpdateStep(s, id, row, refused), a)
    ensures Waiting(s, a) && UpdateStep(s, id, row, refused).abandoned == s.abandoned
  {
  }

  lemma ClaimMakesNoneWait(s: State, id: AvatarId, a: AvatarId)
    requires Waiting(ClaimStep(s, id), a)
    ensures Waiting(s, a) && ClaimStep(s, id).abandoned == s.abandoned
  {
  }

  lemma DeletionMakesNoneWait(t: Tables, user: UserId, id: AvatarId, fallback: Option<AvatarId>, now: Time, a: AvatarId)
    requires fallback.Some? ==> t.HasLive(fallback.value)
    requires a in DeleteTx(t, user, id, fallback, now).avatars && DeleteTx(t, user, id, fallback, now).avatars[a].Claimable()
    ensures a in t.avatars && t.avatars[a].Claimable()
  {
  }

  predicate StartsToWait(s: State, s': State, a: AvatarId) {
    Waiting(s', a) && (!Waiting(s, a) || (a in s.abandoned && a !in s'.abandoned))
  }

  lemma RefreshOwes(s: State, c: nat, a: AvatarId)
    requires c in s.cases && s.cases[c].Refreshing? && StartsToWait(s, CommitRefreshStep(s, c), a)
    ensures OwedBy(CommitRefreshStep(s, c), a, c)
  {
  }

  lemma UploadOwes(s: State, c: nat, a: AvatarId)
    requires c in s.cases && s.cases[c].Creating? && StartsToWait(s, FinishUploadStep(s, c), a)
    ensures OwedBy(FinishUploadStep(s, c), a, c)
  {
  }

  lemma FailureKeepsTheMessage(s: State, act: Action, a: AvatarId)
    requires Enabled(s, act) && StartsToWait(s, Next(s, act), a) && act.Fail?
    ensures Queued(Next(s, act), a, act.k)
  {
  }

  /** An avatar starts to wait only by a write that owes, or still holds, a message, and is
      no longer abandoned only by a write that owes one. */
  lemma NewlyWaiting(s: State, act: Action, a: AvatarId)
    requires Enabled(s, act) && StartsToWait(s, Next(s, act), a)
    ensures LiveMessage(Next(s, act), a)
  {
    hide ClaimStep, DeleteTx, UpdateStep, CommitRefreshStep, FinishUploadStep;
    match act
    case CommitRefresh(c) => RefreshOwes(s, c, a);
    case FinishUpload(c) => UploadOwes(s, c, a);
    case Fail(_, _, _) => FailureKeepsTheMessage(s, act, a);
    case FailUpload(c, reason, refused) =>
      UpdateMakesNoneWait(s, s.cases[c].id, s.cases[c].snapshot.MarkFailed(reason, s.now), refused, a);
    case Complete(k, refused, _) =>
      UpdateMakesNoneWait(s, s.copies[k].avatar, s.copies[k].place.phase.snapshot.MarkProcessed(s.now), refused, a);
    case Claim(k) => ClaimMakesNoneWait(s, s.copies[k].avatar, a);
    case EarlyError(k, _) => ClaimMakesNoneWait(s, s.copies[k].avatar, a);
    case DeleteAvatar(id, fallback) => DeletionMakesNoneWait(s.db, s.db.avatars[id].user, id, fallback, s.now, a);
    case _ =>
  }

  lemma StepKeepsNoneStranded(s: State, act: Action)
    requires NoneStranded(s) && Enabled(s, act)
    ensures NoneStranded(Next(s, act))
  {
    var s' := Next(s, act);
    forall a | Waiting(s', a) && a !in s'.abandoned
      ensures LiveMessage(s', a)
    {
      hide Next, Enabled;
      if GivesUp(s, act, a) {
        GivingUpAbandons(s, act, a);
      } else if !Waiting(s, a) || a in s.abandoned {
        NewlyWaiting(s, act, a);
      } else if c :| OwedBy(s, a, c) {
        OwedMoves(s, act, a, c);
      } else if e :| Unsent(s, a, e) {
        UnsentMoves(s, act, a, e);
      } else {
        var k :| Queued(s, a, k);
        QueuedMoves(s, act, a, k);
      }
    }
  }

  lemma {:induction false} RunKeepsNoneStranded(s: State, run: seq<Action>)
    requires NoneStranded(s) && Run(s, run).Some?
    ensures NoneStranded(Run(s, run).value)
  {
    if run != [] {
      RunKeepsNoneStranded(s, run[..|run| - 1]);
      StepKeepsNoneStranded(Run(s, run[..|run| - 1]).value, run[|run| - 1]);
    }
  }

  /** In every state any interleaving can reach, whatever fails and whoever stops, a waiting
      avatar has a live message unless its message was given up since it was last re-queued. */
  lemma StrandedOnlyIfAbandoned(maxAttempts: nat, run: seq<Action>, a: AvatarId)
    requires Run(Init(maxAttempts), run).Some?
    ensures var s := Run(Init(maxAttempts), run).value;
            Waiting(s, a) ==> LiveMessage(s, a) || a in s.abandoned
  {
    RunKeepsNoneStranded(Init(maxAttempts), run);
  }

  predicate GivesUpAt(maxAttempts: nat, run: seq<Action>, i: nat, a: AvatarId) {
    i < |run| && Run(Init(maxAttempts), run[..i]).Some? && GivesUp(Run(Init(maxAttempts), run[..i]).value, run[i], a)
  }

  lemma OnlyGivingUpAbandons(s: State, act: Action, a: AvatarId)
    requires Enabled(s, act) && a in Next(s, act).abandoned
    ensures a in s.abandoned || GivesUp(s, act, a)
  {
    hide ClaimRow, RefreshTx, UploadedTx, DeleteTx, UpdateRow, HardDeleteAvatars;
  }

  lemma {:induction false} AbandonedWasGivenUp(maxAttempts: nat, run: seq<Action>, a: AvatarId)
    requires Run(Init(maxAttempts), run).Some? && a in Run(Init(maxAttempts), run).value.abandoned
    ensures exists i: nat :: GivesUpAt(maxAttempts, run, i, a)
  {
    var earlier := run[..|run| - 1];
    var before := Run(Init(maxAttempts), earlier).value;
    if a in before.abandoned {
      AbandonedWasGivenUp(maxAttempts, earlier, a);
      var i: nat :| GivesUpAt(maxAttempts, earlier, i, a);
      assert run[..i] == earlier[..i];
      assert GivesUpAt(maxAttempts, run, i, a);
    } else {
      OnlyGivingUpAbandons(before, run[|run| - 1], a);
      assert GivesUpAt(maxAttempts, run, |run| - 1, a);
    }
  }

  /** No stranded avatar: unless its message is given up, a waiting avatar has a live message in
      every reachable state, however storage fails, workers stop, databases refuse, brokers
      redeliver and stale copies are written back. */
  lemma NoStrandedAvatar(maxAttempts: nat, run: seq<Action>, a: AvatarId)
    requires Run(Init(maxAttempts), run).Some?
    requires forall i: nat :: !GivesUpAt(maxAttempts, run, i, a)
    ensures var s := Run(Init(maxAttempts), run).value;
            Waiting(s, a) ==> LiveMessage(s, a)
  {
    StrandedOnlyIfAbandoned(maxAttempts, run, a);
    if a in Run(Init(maxAttempts), run).value.abandoned {
      AbandonedWasGivenUp(maxAttempts, run, a);
    }
  }

  // ----- Exactly when an avatar is stranded -----

  ghost predicate Stranded(s: State, a: AvatarId) {
    Waiting(s, a) && !LiveMessage(s, a)
  }

  /** The step gives up the only message of a waiting avatar. */
  ghost predicate GivesUpLast(s: State, act: Action, a: AvatarId) {
    && Waiting(s, a) && GivesUp(s, act, a)
    && (forall c :: OwedBy(s, a, c) ==> act == CaseStops(c))
    && (forall e :: !Unsent(s, a, e))
    && (forall k :: Queued(s, a, k) ==> act.Forward? && act.k == k)
  }

  lemma StrandingNeedsGivingUpLast(s: State, act: Action, a: AvatarId)
    requires Enabled(s, act) && !Stranded(s, a) && Stranded(Next(s, act), a)
    ensures GivesUpLast(s, act, a)
  {
    if !Waiting(s, a) {
      NewlyWaiting(s, act, a);
      assert false;
    }
    forall c | OwedBy(s, a, c)
      ensures act == CaseStops(c)
    {
      OwedMoves(s, act, a, c);
    }
    forall e
      ensures !Unsent(s, a, e)
    {
      if Unsent(s, a, e) {
        UnsentMoves(s, act, a, e);
      }
    }
    forall k | Queued(s, a, k)
      ensures act.Forward? && act.k == k && GivesUp(s, act, a)
    {
      QueuedMoves(s, act, a, k);
    }
  }

  lemma StopOfLastStrands(s: State, c: nat, a: AvatarId)
    requires Enabled(s, CaseStops(c)) && GivesUpLast(s, CaseStops(c), a)
    ensures Stranded(Next(s, CaseStops(c)), a)
  {
    var s' := Next(s, CaseStops(c));
    assert forall other :: OwedBy(s', a, other) ==> OwedBy(s, a, other) && other != c;
    assert forall e :: Unsent(s', a, e) <==> Unsent(s, a, e);
    assert forall k :: Queued(s', a, k) <==> Queued(s, a, k);
  }

  lemma ForwardOfLastStrands(s: State, k: nat, copy: nat, a: AvatarId)
    requires Enabled(s, Forward(k, copy)) && GivesUpLast(s, Forward(k, copy), a)
    ensures Stranded(Next(s, Forward(k, copy)), a)
  {
    var s' := Next(s, Forward(k, copy));
    assert forall c :: OwedBy(s', a, c) <==> OwedBy(s, a, c);
    assert forall e :: Unsent(s', a, e) <==> Unsent(s, a, e);
    forall other
      ensures !Queued(s', a, other)
    {
      assert other != k && other != copy ==> (Queued(s', a, other) <==> Queued(s, a, other));
    }
  }

  /** A step strands an avatar if and only if it gives up the only message of the waiting avatar. */
  lemma StrandsExactly(s: State, act: Action, a: AvatarId)
    requires Enabled(s, act) && !Stranded(s, a)
    ensures Stranded(Next(s, act), a) <==> GivesUpLast(s, act, a)
  {
    if Stranded(Next(s, act), a) {
      StrandingNeedsGivingUpLast(s, act, a);
    } else if GivesUpLast(s, act, a) {
      match act
      case CaseStops(c) => StopOfLastStrands(s, c, a);
      case Forward(k, copy) => ForwardOfLastStrands(s, k, copy, a);
    }
  }

  ghost predicate StrandedAt(maxAttempts: nat, run: seq<Action>, i: nat, a: AvatarId) {
    i <= |run| && Run(Init(maxAttempts), run[..i]).Some? && Stranded(Run(Init(maxAttempts), run[..i]).value, a)
  }

  ghost predicate GivesUpLastAt(maxAttempts: nat, run: seq<Action>, i: nat, a: AvatarId) {
    i < |run| && Run(Init(maxAttempts), run[..i]).Some? && GivesUpLast(Run(Init(maxAttempts), run[..i]).value, run[i], a)
  }

  lemma {:induction false} PrefixRuns(s: State, run: seq<Action>, i: nat)
    requires Run(s, run).Some? && i < |run|
    ensures Run(s, run[..i]).Some? && Enabled(Run(s, run[..i]).value, run[i])
    ensures Run(s, run[..i + 1]) == Some(Next(Run(s, run[..i]).value, run[i]))
  {
    var earlier := run[..|run| - 1];
    if i == |run| - 1 {
      assert run[..i + 1] == run;
    } else {
      PrefixRuns(s, earlier, i);
      assert earlier[..i] == run[..i] && earlier[..i + 1] == run[..i + 1];
    }
  }

  lemma {:induction false} StrandedWasGivenUpLast(maxAttempts: nat, run: seq<Action>, a: AvatarId, m: nat)
    requires Run(Init(maxAttempts), run).Some? && StrandedAt(maxAttempts, run, m, a)
    ensures exists i: nat :: i < m && GivesUpLastAt(maxAttempts, run, i, a)
  {
    PrefixRuns(Init(maxAttempts), run, m - 1);
    if StrandedAt(maxAttempts, run, m - 1, a) {
      StrandedWasGivenUpLast(maxAttempts, run, a, m - 1);
    } else {
      StrandsExactly(Run(Init(maxAttempts), run[..m - 1]).value, run[m - 1], a);
      assert GivesUpLastAt(maxAttempts, run, m - 1, a);
    }
  }

  lemma GivingUpLastNeedsAMessage(s: State, act: Action, a: AvatarId)
    requires Enabled(s, act) && GivesUpLast(s, act, a)
    ensures !Stranded(s, a)
  {
    match act
    case CaseStops(c) => assert OwedBy(s, a, c);
    case Forward(k, _) => assert Queued(s, a, k);
  }

  /** In every run, an avatar is at some moment waiting without a message if and only if some step
      gives up the only message it has while it waits. */
  lemma EverStrandedExactly(maxAttempts: nat, run: seq<Action>, a: AvatarId)
    requires Run(Init(maxAttempts), run).Some?
    ensures (exists m: nat :: StrandedAt(maxAttempts, run, m, a)) <==> (exists i: nat :: GivesUpLastAt(maxAttempts, run, i, a))
  {
    if m: nat :| StrandedAt(maxAttempts, run, m, a) {
      StrandedWasGivenUpLast(maxAttempts, run, a, m);
    }
    if i: nat :| GivesUpLastAt(maxAttempts, run, i, a) {
      PrefixRuns(Init(maxAttempts), run, i);
      var s := Run(Init(maxAttempts), run[..i]).value;
      GivingUpLastNeedsAMessage(s, run[i], a);
      StrandsExactly(s, run[i], a);
      assert StrandedAt(maxAttempts, run, i + 1, a);
    }
  }

  /** A step that can cost the avatar its message: its use case stops after its commit, or an error
      hits its last delivery before the claim. */
  predicate Threatens(s: State, act: Action, a: AvatarId) {
    match act
    case CaseStops(c) => c in s.cases && s.cases[c] == Owing(a)
    case EarlyError(k, _) => HeldStarted(s, k) && Final(s, k) && s.copies[k].avatar == a
    case _ => false
  }

  predicate ThreatensAt(maxAttempts: nat, run: seq<Action>, i: nat, a: AvatarId) {
    i < |run| && Run(Init(maxAttempts), run[..i]).Some? && Threatens(Run(Init(maxAttempts), run[..i]).value, run[i], a)
  }

  ghost predicate LastErrorsAreClaimed(s: State, a: AvatarId) {
    forall k :: HeldErred(s, k) && Final(s, k) && s.copies[k].avatar == a ==> s.copies[k].place.phase.claimed
  }

  lemma StepKeepsLastErrorsClaimed(s: State, act: Action, a: AvatarId)
    requires LastErrorsAreClaimed(s, a) && Enabled(s, act) && !Threatens(s, act, a)
    ensures LastErrorsAreClaimed(Next(s, act), a)
  {
    hide ClaimRow, RefreshTx, UploadedTx, DeleteTx, UpdateRow, HardDeleteAvatars;
    var s' := Next(s, act);
    forall k | HeldErred(s', k) && Final(s', k) && s'.copies[k].avatar == a
      ensures s'.copies[k].place.phase.claimed
    {
      assert (HeldErred(s, k) && Final(s, k) && s.copies[k].avatar == a) || act.Complete? || act.Fail?;
    }
  }

  lemma {:induction false} RunKeepsLastErrorsClaimed(maxAttempts: nat, run: seq<Action>, a: AvatarId, n: nat)
    requires Run(Init(maxAttempts), run).Some? && n <= |run|
    requires forall i: nat :: !ThreatensAt(maxAttempts, run, i, a)
    ensures Run(Init(maxAttempts), run[..n]).Some? && LastErrorsAreClaimed(Run(Init(maxAttempts), run[..n]).value, a)
  {
    if n > 0 {
      RunKeepsLastErrorsClaimed(maxAttempts, run, a, n - 1);
      PrefixRuns(Init(maxAttempts), run, n - 1);
      assert !ThreatensAt(maxAttempts, run, n - 1, a);
      StepKeepsLastErrorsClaimed(Run(Init(maxAttempts), run[..n - 1]).value, run[n - 1], a);
    }
  }

  /** As long as no use case of the avatar stops between its commit and its save, and the database
      answers before the claim on last deliveries, the avatar never waits without a live message. */
  lemma NothingStrandedWhileDatabaseAnswers(maxAttempts: nat, run: seq<Action>, a: AvatarId)
    requires Run(Init(maxAttempts), run).Some?
    requires forall i: nat :: !ThreatensAt(maxAttempts, run, i, a)
    ensures forall m: nat :: !StrandedAt(maxAttempts, run, m, a)
  {
    if m: nat :| StrandedAt(maxAttempts, run, m, a) {
      StrandedWasGivenUpLast(maxAttempts, run, a, m);
      var i: nat :| i < m && GivesUpLastAt(maxAttempts, run, i, a);
      assert !ThreatensAt(maxAttempts, run, i, a);
      RunKeepsLastErrorsClaimed(maxAttempts, run, a, i);
    }
  }

  // ----- Both ways of giving up are met -----

  lemma {:induction false} RunAppends(s: State, run: seq<Action>, act: Action)
    requires Run(s, run).Some? && Enabled(Run(s, run).value, act)
    ensures Run(s, run + [act]) == Some(Next(Run(s, run).value, act))
  {
  }

  ghost predicate Strands(run: seq<Action>, a: AvatarId) {
    Run(Init(1), run).Some? && Stranded(Run(Init(1), run).value, a)
  }

  const SAMPLE: Avatar :=
    Avatar("u", 10, 10, None, Uploading, Pending, None, 0, "", Crop.Square(0.0, 0.0, 10.0), 0, 0, None, false)

  const UPLOADED: Tables := Tables(map[7 := SAMPLE.(upload := Uploaded, active := true)], map[])

  lemma SampleUploads()
    ensures UploadedTx(Tables(map[7 := SAMPLE], map[]), 7, SAMPLE, 0) == UPLOADED
  {
  }

  /** One avatar uploaded, its message still owed. */
  lemma SampleRun(run: seq<Action>)
    requires run == [BeginCreate(0, 7, SAMPLE), FinishUpload(0)]
    ensures Run(Init(1), run) == Some(State(1, 0, UPLOADED, map[0 := Owing(7)], map[], map[], {}, [SetPending(7), SetPending(7)]))
  {
    var s0, begun := Init(1), [BeginCreate(0, 7, SAMPLE)];
    RunAppends(s0, [], BeginCreate(0, 7, SAMPLE));
    assert [] + begun == begun && [] + [SetPending(7)] == [SetPending(7)];
    var s1 := State(1, 0, Tables(map[7 := SAMPLE], map[]), map[0 := Creating(7, SAMPLE)], map[], map[], {}, [SetPending(7)]);
    var t1 := Run(s0, begun).value;
    assert t1.db.avatars == s1.db.avatars && t1.cases == s1.cases && t1.log == s1.log;
    SampleUploads();
    RunAppends(s0, begun, FinishUpload(0));
    assert begun + [FinishUpload(0)] == run;
    var t2 := Run(s0, run).value;
    assert t2 == FinishUploadStep(s1, 0);
    assert t2.cases == map[0 := Owing(7)] && t2.abandoned == {} && t2.log == [SetPending(7), SetPending(7)];
  }

  /** Whenever a waiting avatar's only message is owed by a use case, the stop of that use case
      strands it. */
  lemma StoppedUseCaseStrands(s: State, a: AvatarId, c: nat)
    requires Waiting(s, a) && OwedBy(s, a, c) && (forall other :: OwedBy(s, a, other) ==> other == c)
    requires (forall e :: !Unsent(s, a, e)) && (forall k :: !Queued(s, a, k))
    ensures Enabled(s, CaseStops(c)) && Stranded(Next(s, CaseStops(c)), a)
  {
    StopOfLastStrands(s, c, a);
  }

  /** Such a stop is reached. */
  lemma StoppedUseCaseCanStrand()
    ensures exists run: seq<Action> :: Strands(run, 7)
  {
    var run := [BeginCreate(0, 7, SAMPLE), FinishUpload(0)];
    SampleRun(run);
    RunAppends(Init(1), run, CaseStops(0));
    var s := Run(Init(1), run + [CaseStops(0)]).value;
    assert s.cases == map[] && s.copies == map[] && s.events == map[];
    assert Strands(run + [CaseStops(0)], 7);
  }

  /** The same avatar with its event saved. */
  lemma SavedRun() returns (run: seq<Action>, s: State)
    ensures Run(Init(1), run) == Some(s) && s.db == UPLOADED && s.maxAttempts == 1 && s.abandoned == {}
    ensures s.cases == map[] && s.events == map[0 := Event(7, false, false)] && s.copies == map[]
    ensures forall i :: 0 <= i < |run| ==> !run[i].CaseStops?
  {
    var begun := [BeginCreate(0, 7, SAMPLE), FinishUpload(0)];
    SampleRun(begun);
    RunAppends(Init(1), begun, SaveEvent(0, 0));
    run := begun + [SaveEvent(0, 0)];
    s := Run(Init(1), run).value;
    assert s.cases == map[];
  }

  /** The same avatar one delivery later: its only message is a copy on its last attempt,
      handed to a worker that has done nothing yet. */
  lemma DeliveredRun() returns (run: seq<Action>, s: State)
    ensures Run(Init(1), run) == Some(s) && Waiting(s, 7) && s.db == UPLOADED
    ensures s.cases == map[] && s.events == map[0 := Event(7, true, false)]
    ensures s.copies == map[0 := Copy(7, 1, Held(Started))] && s.maxAttempts == 1
    ensures forall i :: 0 <= i < |run| ==> !run[i].CaseStops?
  {
    var saved, t := SavedRun();
    RunAppends(Init(1), saved, BrokerAccepts(0, 0));
    RunAppends(Init(1), saved + [BrokerAccepts(0, 0)], Deliver(0));
    run := saved + [BrokerAccepts(0, 0)] + [Deliver(0)];
    s := Run(Init(1), run).value;
  }

  /** If the only message of a waiting avatar is on its last delivery, a database error before
      the claim dead-letters it, and the avatar waits on without any message. */
  lemma EarlyErrorOnLastDelivery(s: State, a: AvatarId, k: nat, copy: nat)
    requires Waiting(s, a) && HeldStarted(s, k) && Final(s, k) && s.copies[k].avatar == a && copy !in s.copies
    requires forall c :: !OwedBy(s, a, c)
    requires forall e :: !Unsent(s, a, e)
    requires forall other :: other != k ==> !Queued(s, a, other)
    ensures Enabled(s, EarlyError(k, false))
    ensures var s' := Next(s, EarlyError(k, false));
            && Enabled(s', Forward(k, copy))
            && Stranded(Next(s', Forward(k, copy)), a)
  {
    var s' := Next(s, EarlyError(k, false));
    assert forall c :: OwedBy(s', a, c) <==> OwedBy(s, a, c);
    assert forall e :: Unsent(s', a, e) <==> Unsent(s, a, e);
    assert forall other :: other != k ==> (Queued(s', a, other) <==> Queued(s, a, other));
    ForwardOfLastStrands(s', k, copy, a);
  }

  /** Such a state is reached although no use case stopped. */
  lemma EarlyErrorCanStrand()
    ensures exists run: seq<Action> :: Strands(run, 7) && (forall i :: 0 <= i < |run| ==> !run[i].CaseStops?)
  {
    var run, s := DeliveredRun();
    EarlyErrorOnLastDelivery(s, 7, 0, 1);
    var failed := run + [EarlyError(0, false)];
    RunAppends(Init(1), run, EarlyError(0, false));
    RunAppends(Init(1), failed, Forward(0, 1));
    assert Strands(failed + [Forward(0, 1)], 7);
  }

  // ----- Claim accounting -----

  /** A write to pending is the latest thing that happened to the avatar's status. */
  predicate Requeued(log: seq<Entry>, a: AvatarId) {
    if log == [] then false
    else
      var last := log[|log| - 1];
      if last == SetPending(a) then true
      else if last == WasClaimed(a) then false
      else Requeued(log[..|log| - 1], a)
  }

  ghost predicate ClaimsFollowRequeues(log: seq<Entry>) {
    forall i :: 0 <= i < |log| && log[i].WasClaimed? ==> Requeued(log[..i], log[i].avatar)
  }

  predicate IsPending(s: State, a: AvatarId) {
    a in s.db.avatars && s.db.avatars[a].processing.Pending?
  }

  ghost predicate Accounted(s: State) {
    ClaimsFollowRequeues(s.log) && forall a :: IsPending(s, a) ==> Requeued(s.log, a)
  }

  lemma HistoryGrowsByOne(s: State, act: Action)
    requires Enabled(s, act)
    ensures var s' := Next(s, act);
            s'.log == s.log || (|s'.log| == |s.log| + 1 && s'.log[..|s.log|] == s.log)
  {
    hide ClaimRow, RefreshTx, UploadedTx, DeleteTx, UpdateRow, HardDeleteAvatars;
  }

  lemma UpdateIsRecorded(s: State, id: AvatarId, row: Avatar, refused: bool, a: AvatarId)
    requires IsPending(UpdateStep(s, id, row, refused), a) && !IsPending(s, a)
    ensures UpdateStep(s, id, row, refused).log == s.log + [SetPending(a)]
  {
  }

  lemma RefreshIsRecorded(s: State, c: nat, a: AvatarId)
    requires c in s.cases && s.cases[c].Refreshing?
    requires IsPending(CommitRefreshStep(s, c), a) && !IsPending(s, a)
    ensures CommitRefreshStep(s, c).log == s.log + [SetPending(a)]
  {
  }

  lemma UploadIsRecorded(s: State, c: nat, a: AvatarId)
    requires c in s.cases && s.cases[c].Creating?
    requires IsPending(FinishUploadStep(s, c), a) && !IsPending(s, a)
    ensures FinishUploadStep(s, c).log == s.log + [SetPending(a)]
  {
  }

  lemma ClaimNeverRequeues(s: State, id: AvatarId, a: AvatarId)
    requires IsPending(ClaimStep(s, id), a)
    ensures IsPending(s, a)
  {
  }

  lemma DeletionNeverRequeues(t: Tables, user: UserId, id: AvatarId, fallback: Option<AvatarId>, now: Time, a: AvatarId)
    ensures var t' := DeleteTx(t, user, id, fallback, now);
            a in t'.avatars && t'.avatars[a].processing.Pending? ==> a in t.avatars && t.avatars[a].processing.Pending?
  {
  }

  /** No row becomes pending without an entry that says so. */
  lemma PendingIsRecorded(s: State, act: Action, a: AvatarId)
    requires Enabled(s, act) && IsPending(Next(s, act), a) && !IsPending(s, a)
    ensures Next(s, act).log == s.log + [SetPending(a)]
  {
    hide UpdateStep, CommitRefreshStep, FinishUploadStep, ClaimStep, DeleteTx;
    match act
    case FinishUpload(c) => UploadIsRecorded(s, c, a);
    case CommitRefresh(c) => RefreshIsRecorded(s, c, a);
    case FailUpload(c, reason, refused) =>
      UpdateIsRecorded(s, s.cases[c].id, s.cases[c].snapshot.MarkFailed(reason, s.now), refused, a);
    case Complete(k, refused, _) =>
      UpdateIsRecorded(s, s.copies[k].avatar, s.copies[k].place.phase.snapshot.MarkProcessed(s.now), refused, a);
    case Fail(k, reason, refused) =>
      UpdateIsRecorded(s, s.copies[k].avatar, s.copies[k].place.phase.snapshot.AfterFailure(Final(s, k), reason, s.now), refused, a);
    case DeleteAvatar(id, fallback) => DeletionNeverRequeues(s.db, s.db.avatars[id].user, id, fallback, s.now, a);
    case Claim(k) => ClaimNeverRequeues(s, s.copies[k].avatar, a);
    case EarlyError(k, _) => ClaimNeverRequeues(s, s.copies[k].avatar, a);
    case _ =>
  }

  /** A claim is recorded exactly when a worker obtains a waiting avatar, which then is no
      longer pending. */
  lemma ClaimIsRecorded(s: State, act: Action, a: AvatarId)
    requires Enabled(s, act)
    ensures var s' := Next(s, act);
            && (s'.log == s.log + [WasClaimed(a)] ==>
                 Waiting(s, a) && a in s'.db.avatars && s'.db.avatars[a] == Claimed(s.db.avatars[a], s.now))
            && (forall k :: HeldStarted(s, k) && HeldWorking(s', k) ==> s'.log == s.log + [WasClaimed(s.copies[k].avatar)])
  {
    var s' := Next(s, act);
    if s'.log == s.log + [WasClaimed(a)] {
      assert s'.log[|s.log|] == WasClaimed(a);
    }
  }

  lemma RequeuedMoves(s: State, act: Action, a: AvatarId)
    requires Enabled(s, act) && IsPending(Next(s, act), a)
    requires IsPending(s, a) ==> Requeued(s.log, a)
    ensures Requeued(Next(s, act).log, a)
  {
    var s' := Next(s, act);
    HistoryGrowsByOne(s, act);
    if !IsPending(s, a) {
      PendingIsRecorded(s, act, a);
    } else if s'.log != s.log {
      assert s'.log[..|s.log|] == s.log;
      if s'.log == s.log + [WasClaimed(a)] {
        ClaimIsRecorded(s, act, a);
      }
    }
  }

  lemma StepKeepsAccounted(s: State, act: Action)
    requires Accounted(s) && Enabled(s, act)
    ensures Accounted(Next(s, act))
  {
    var s' := Next(s, act);
    HistoryGrowsByOne(s, act);
    forall a | IsPending(s', a)
      ensures Requeued(s'.log, a)
    {
      RequeuedMoves(s, act, a);
    }
    if s'.log != s.log {
      assert s'.log[..|s.log|] == s.log;
      forall i | 0 <= i < |s'.log| && s'.log[i].WasClaimed?
        ensures Requeued(s'.log[..i], s'.log[i].avatar)
      {
        if i < |s.log| {
          assert s'.log[..i] == s.log[..i];
        }
      }
    }
  }

  lemma {:induction false} RunKeepsAccounted(s: State, run: seq<Action>)
    requires Accounted(s) && Run(s, run).Some?
    ensures Accounted(Run(s, run).value)
  {
    if run != [] {
      RunKeepsAccounted(s, run[..|run| - 1]);
      StepKeepsAccounted(Run(s, run[..|run| - 1]).value, run[|run| - 1]);
    }
  }

  function Occurrences(log: seq<Entry>, e: Entry): nat {
    if log == [] then 0
    else Occurrences(log[..|log| - 1], e) + (if log[|log| - 1] == e then 1 else 0)
  }

  lemma {:induction false} RequeueBetweenClaims(log: seq<Entry>, a: AvatarId, i: nat)
    requires i < |log| && log[i] == WasClaimed(a) && Requeued(log, a)
    ensures exists m :: i < m < |log| && log[m] == SetPending(a)
  {
    if log[|log| - 1] != SetPending(a) {
      var earlier := log[..|log| - 1];
      RequeueBetweenClaims(earlier, a, i);
      var m :| i < m < |earlier| && earlier[m] == SetPending(a);
      assert log[m] == SetPending(a);
    }
  }

  lemma {:induction false} ClaimsAtMostRequeues(log: seq<Entry>, a: AvatarId)
    requires ClaimsFollowRequeues(log)
    ensures Occurrences(log, WasClaimed(a)) + (if Requeued(log, a) then 1 else 0) <= Occurrences(log, SetPending(a))
  {
    if log != [] {
      var earlier := log[..|log| - 1];
      forall i | 0 <= i < |earlier| && earlier[i].WasClaimed?
        ensures Requeued(earlier[..i], earlier[i].avatar)
      {
        assert earlier[..i] == log[..i] && log[i] == earlier[i];
      }
      ClaimsAtMostRequeues(earlier, a);
      assert log[|log| - 1].WasClaimed? ==> Requeued(earlier, log[|log| - 1].avatar);
    }
  }

  /** Claim accounting: an avatar is never claimed more often than it was set to pending, and
      between two claims of one avatar it was set to pending again, under every interleaving. */
  lemma ClaimAccounting(maxAttempts: nat, run: seq<Action>, a: AvatarId)
    requires Run(Init(maxAttempts), run).Some?
    ensures var log := Run(Init(maxAttempts), run).value.log;
            && Occurrences(log, WasClaimed(a)) <= Occurrences(log, SetPending(a))
            && forall i, j :: 0 <= i < j < |log| && log[i] == WasClaimed(a) && log[j] == WasClaimed(a) ==>
                 exists m :: i < m < j && log[m] == SetPending(a)
  {
    RunKeepsAccounted(Init(maxAttempts), run);
    var log := Run(Init(maxAttempts), run).value.log;
    ClaimsAtMostRequeues(log, a);
    forall i, j | 0 <= i < j < |log| && log[i] == WasClaimed(a) && log[j] == WasClaimed(a)
      ensures exists m :: i < m < j && log[m] == SetPending(a)
    {
      RequeueBetweenClaims(log[..j], a, i);
      var m :| i < m < j && log[..j][m] == SetPending(a);
      assert log[m] == SetPending(a);
    }
  }
}
