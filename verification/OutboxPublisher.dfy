/** The code that drives the outbox: the repository, the dispatcher's flush and the direct
    publication by a use case. Each method is shown to be a run of the transition system of
    module Outbox, so everything proved there for all interleavings holds of it. */
module OutboxPublisher {
  import opened Wrappers
  import opened Outbox
  import opened Oldest

  const MAX_LIMIT := 1000
  const PUBLISH_FAILED := "publish failed"
  const DEFAULT_LIMIT := 100

  function EffectiveLimit(limit: int): nat {
    if limit <= 0 || limit > MAX_LIMIT then DEFAULT_LIMIT else limit
  }

  function EffectiveLease(lease: int): int {
    if lease <= 0 then DEFAULT_LEASE else lease
  }

  /** The answer of a database call that may fail, with or without having taken effect. */
  datatype Reply = Done | Failed(applied: bool) {
    predicate Applied() {
      Done? || applied
    }
  }

  lemma OnlyRowsAreClaimed(rows: Table, now: Time, locked: set<EventId>, limit: nat, ids: seq<EventId>)
    requires OldestEligible(rows, now, locked, limit, IdSet(ids))
    ensures forall i :: 0 <= i < |ids| ==> ids[i] in rows
  {
    assert forall i :: 0 <= i < |ids| ==> ids[i] in IdSet(ids);
  }

  class OutboxRepository {
    const dependable: bool
    const unlocked: bool        // no other transaction is open during a claim
    var rows: Table
    var now: Time

    constructor (dependable: bool, unlocked: bool)
      ensures rows == map[] && now == 0 && this.dependable == dependable && this.unlocked == unlocked
    {
      this.dependable, this.unlocked := dependable, unlocked;
      rows, now := map[], 0;
    }

    method Answer() returns (r: Reply)
      ensures dependable ==> r.Done?
    {
      if dependable {
        r := Done;
      } else {
        r := *;
      }
    }

    /** Reading the clock; any time may have passed. */
    method ReadClock() returns (t: Time)
      modifies `now
      ensures t == now >= old(now)
    {
      var elapsed :| 0 <= elapsed;
      now := now + elapsed;
      t := now;
    }

    method Save(id: EventId, contents: Contents, nextAttemptAt: Time) returns (r: Reply)
      requires id !in rows
      modifies `rows
      ensures rows == if r.Applied() then old(rows)[id := Row(contents, 0, nextAttemptAt, "", None, None)] else old(rows)
      ensures dependable ==> r.Done?
    {
      r := Answer();
      if r.Applied() {
        rows := rows[id := Row(contents, 0, nextAttemptAt, "", None, None)];
      }
    }

    /** The candidates of a claim: rows that another open transaction has locked are passed over. */
    method Candidates(limit: nat) returns (ids: seq<EventId>, ghost locked: set<EventId>)
      ensures Distinct(ids) && OldestEligible(rows, now, locked, limit, IdSet(ids))
      ensures unlocked ==> locked == {}
    {
      var skipped: set<EventId> := *;
      if unlocked {
        skipped := {};
      }
      locked := skipped;
      ids := Pick(CreationTimes(rows), EligibleIds(rows, now) - skipped, limit);
    }

    method ClaimPending(limit: int, lease: int) returns (r: Reply, ids: seq<EventId>, ghost locked: set<EventId>)
      modifies `rows
      ensures Distinct(ids) && OldestEligible(old(rows), now, locked, EffectiveLimit(limit), IdSet(ids))
      ensures unlocked ==> locked == {}
      ensures r.Done? ==> Claims(old(rows), rows, IdSet(ids), now, now + if lease > 0 then lease else 120_000_000_000)
      ensures OnlyYoungerLeft(old(rows), IdSet(ids), locked, now, if 0 < limit <= 1000 then limit else 100)
      ensures rows == if r.Applied() then Lease(old(rows), IdSet(ids), now + EffectiveLease(lease)) else old(rows)
      ensures forall i :: 0 <= i < |ids| ==> ids[i] in rows
      ensures dependable ==> r.Done?
    {
      hide OldestEligible;
      ids, locked := Candidates(EffectiveLimit(limit));
      OnlyRowsAreClaimed(rows, now, locked, EffectiveLimit(limit), ids);
      ClaimMeaning(rows, now, locked, EffectiveLimit(limit), IdSet(ids), now + EffectiveLease(lease));
      hide Claims, OnlyYoungerLeft, IdSet, Lease, Distinct;
      r := Answer();
      if r.Applied() {
        rows := Lease(rows, IdSet(ids), now + EffectiveLease(lease));
      }
    }

    method MarkPublished(id: EventId) returns (r: Reply)
      modifies `rows
      ensures rows == if r.Applied() then PublishedRow(old(rows), id, now) else old(rows)
      ensures dependable ==> r.Done?
    {
      r := Answer();
      if r.Applied() {
        rows := PublishedRow(rows, id, now);
      }
    }

    method MarkFailed(id: EventId, reason: string, nextAttemptAt: Time) returns (r: Reply)
      modifies `rows
      ensures rows == if r.Applied() then FailedRow(old(rows), id, reason, nextAttemptAt) else old(rows)
      ensures dependable ==> r.Done?
    {
      r := Answer();
      if r.Applied() {
        rows := FailedRow(rows, id, reason, nextAttemptAt);
      }
    }
  }

  /** The broker seen from a publisher: on an error it may have taken the message or not. */
  class Broker {
    const dependable: bool
    ghost var accepted: set<(EventId, Contents)>

    constructor (dependable: bool)
      ensures accepted == {} && this.dependable == dependable
    {
      this.dependable := dependable;
      accepted := {};
    }

    method Publish(id: EventId, contents: Contents) returns (ok: bool, ghost took: bool)
      modifies this
      ensures ok ==> took
      ensures accepted == if took then old(accepted) + {(id, contents)} else old(accepted)
      ensures dependable ==> ok
    {
      ok := *;
      if dependable {
        ok := true;
      }
      took := *;
      if ok {
        took := true;
      }
      if took {
        accepted := accepted + {(id, contents)};
      }
    }
  }

  /** The real objects are in a state of the transition system. */
  ghost predicate InState(repo: OutboxRepository, broker: Broker, s: State)
    reads repo, broker
  {
    repo.now == s.now && repo.rows == s.rows && broker.accepted == s.accepted
  }

  /** The task that claiming this row creates. */
  ghost function TaskOf(rows: Table, batch: nat, id: EventId): Task
    requires id in rows
  {
    Task(batch, id, rows[id].contents, RetryDelay(rows[id].attempts + 1), Ready)
  }

  lemma {:induction false} RunConcat(s: State, first: seq<Action>, second: seq<Action>)
    requires Run(s, first).Some? && Run(Run(s, first).value, second).Some?
    ensures Run(s, first + second) == Run(Run(s, first).value, second)
  {
    if second == [] {
      assert first + second == first;
    } else {
      var earlier, last := second[..|second| - 1], second[|second| - 1];
      RunConcat(s, first, earlier);
      RunAppends(s, first + earlier, last);
      assert first + earlier + [last] == first + second;
    }
  }

  lemma RunOfOne(s: State, act: Action)
    requires Enabled(s, act)
    ensures Run(s, [act]) == Some(Next(s, act))
  {
  }

  lemma RunOfThree(s: State, a: Action, b: Action, c: Action)
    requires Enabled(s, a) && Enabled(Next(s, a), b) && Enabled(Next(Next(s, a), b), c)
    ensures Run(s, [a, b, c]) == Some(Next(Next(Next(s, a), b), c))
  {
    RunOfOne(s, a);
    RunAppends(s, [a], b);
    assert [a] + [b] == [a, b];
    RunAppends(s, [a, b], c);
    assert [a, b] + [c] == [a, b, c];
  }

  /** The three actions of one publication: the broker's answer, the time it took, the mark. */
  ghost function AnswerAction(task: Task, ok: bool, took: bool): Action {
    if ok then Publish(task) else PublishFails(task, took)
  }

  ghost function MarkAction(task: Task, ok: bool, reason: string, at: Time, applied: bool): Action {
    if !applied then Drop(task) else if ok then MarkPublished(task) else MarkFailed(task, reason, at)
  }

  lemma PublicationIsARun(s: State, task: Task, ok: bool, took: bool, elapsed: nat, reason: string, applied: bool)
    returns (run: seq<Action>, s': State)
    requires task in s.tasks && task.phase.Ready? && (ok ==> took)
    requires task.(phase := Accepted) !in s.tasks && task.(phase := Rejected) !in s.tasks
    ensures Run(s, run) == Some(s')
    ensures s'.now == s.now + elapsed && s'.tasks == s.tasks - {task}
    ensures s'.accepted == if took then s.accepted + {(task.id, task.contents)} else s.accepted
    ensures s'.rows == if !applied then s.rows
                       else if ok then PublishedRow(s.rows, task.id, s.now + elapsed)
                       else FailedRow(s.rows, task.id, reason, s.now + elapsed + task.retryDelay)
  {
    var a, moved := AnswerAction(task, ok, took), task.(phase := if ok then Accepted else Rejected);
    var c := MarkAction(moved, ok, reason, s.now + elapsed, applied);
    RunOfThree(s, a, Tick(elapsed), c);
    run, s' := [a, Tick(elapsed), c], Next(Next(Next(s, a), Tick(elapsed)), c);
    assert s.tasks - {task} + {moved} - {moved} == s.tasks - {task};
  }

  /** The outcome of a publication is on record: published and taken by the broker, or one failure
      counted, the lease given up, and the next try due `delay` after the broker's answer. */
  ghost predicate Recorded(before: Row, after: Row, taken: bool, delay: int, start: Time, end: Time) {
    && after.contents == before.contents && after.claimedUntil.None?
    && (|| (&& taken && after.publishedAt.Some? && start <= after.publishedAt.value <= end && after.lastError == ""
            && after.attempts == before.attempts && after.nextAttemptAt == before.nextAttemptAt)
        || (&& after.publishedAt.None? && after.lastError == PUBLISH_FAILED && after.attempts == before.attempts + 1
            && start + delay <= after.nextAttemptAt <= end + delay))
  }

  /** Publish one event and record the outcome: published, or to be tried again after `delay`. */
  method Dispatch(repo: OutboxRepository, broker: Broker, id: EventId, contents: Contents, delay: int,
                  ghost s: State, ghost task: Task)
    returns (ghost run: seq<Action>, ghost s': State)
    requires InState(repo, broker, s) && id in repo.rows
    requires task in s.tasks && task.id == id && task.contents == contents && task.phase.Ready?
    requires task.retryDelay == delay
    requires task.(phase := Accepted) !in s.tasks && task.(phase := Rejected) !in s.tasks
    modifies repo, broker
    ensures Run(s, run) == Some(s') && InState(repo, broker, s')
    ensures s'.tasks == s.tasks - {task} && repo.rows.Keys == old(repo.rows).Keys
    ensures forall other :: other in repo.rows && other != id ==> repo.rows[other] == old(repo.rows)[other]
    ensures repo.rows[id].contents == old(repo.rows)[id].contents
    ensures repo.now >= old(repo.now) && old(broker.accepted) <= broker.accepted
    ensures repo.dependable && old(repo.rows)[id].publishedAt.None? ==>
              Recorded(old(repo.rows)[id], repo.rows[id], (id, contents) in broker.accepted, delay, old(repo.now), repo.now)
    ensures repo.rows[id].attempts <= old(repo.rows)[id].attempts + 1
    ensures old(repo.rows)[id].publishedAt.Some? ==> repo.rows == old(repo.rows)
    ensures repo.dependable && broker.dependable ==> repo.rows[id].publishedAt.Some?
  {
    var before := repo.now;
    var ok, took := broker.Publish(id, contents);
    var at := repo.ReadClock();
    var r;
    if ok {
      r := repo.MarkPublished(id);
    } else {
      r := repo.MarkFailed(id, PUBLISH_FAILED, at + delay);
    }
    run, s' := PublicationIsARun(s, task, ok, took, at - before, PUBLISH_FAILED, r.Applied());
  }

  /** What the dispatcher holds: the other publishers' tasks, and a task for each claimed event
      it has not come to yet. */
  ghost predicate Holds(s: State, others: set<Task>, batch: nat, claimed: Table, ids: seq<EventId>, i: nat)
    requires forall j :: 0 <= j < |ids| ==> ids[j] in claimed
  {
    && (forall t: Task :: t.batch != batch ==> (t in s.tasks <==> t in others))
    && (forall t: Task :: t in s.tasks && t.batch == batch ==> t.phase.Ready?)
    && (forall j :: i <= j < |ids| ==> TaskOf(claimed, batch, ids[j]) in s.tasks)
  }

  lemma ClaimingHolds(s: State, batch: nat, ids: seq<EventId>, limit: nat, lease: int)
    requires forall t :: t in s.tasks ==> t.batch != batch
    requires Enabled(s, Claim(batch, IdSet(ids), limit, lease))
    ensures forall j :: 0 <= j < |ids| ==> ids[j] in Lease(s.rows, IdSet(ids), s.now + lease)
    ensures Holds(Next(s, Claim(batch, IdSet(ids), limit, lease)), s.tasks, batch,
                  Lease(s.rows, IdSet(ids), s.now + lease), ids, 0)
  {
    forall j | 0 <= j < |ids|
      ensures ids[j] in s.rows
    {
      assert ids[j] in IdSet(ids);
    }
  }

  /** The next event's task is there to be taken, and taking it leaves the rest. */
  lemma NextTask(s: State, others: set<Task>, batch: nat, claimed: Table, ids: seq<EventId>, i: nat)
    requires i < |ids| && Distinct(ids) && forall j :: 0 <= j < |ids| ==> ids[j] in claimed
    requires Holds(s, others, batch, claimed, ids, i)
    ensures var task := TaskOf(claimed, batch, ids[i]);
            && task in s.tasks && task.(phase := Accepted) !in s.tasks && task.(phase := Rejected) !in s.tasks
            && forall s': State :: s'.tasks == s.tasks - {task} ==> Holds(s', others, batch, claimed, ids, i + 1)
  {
  }

  /** The first `n` events' outcomes are on record. */
  ghost predicate AllRecorded(before: Table, after: Table, accepted: set<(EventId, Contents)>, ids: seq<EventId>, n: nat,
                              start: Time, end: Time)
    requires n <= |ids|
  {
    forall j :: 0 <= j < n ==>
      && ids[j] in before && ids[j] in after
      && Recorded(before[ids[j]], after[ids[j]], (ids[j], before[ids[j]].contents) in accepted,
                  Backoff(before[ids[j]].attempts), start, end)
  }

  lemma RecordedGrows(before: Table, was: Table, after: Table, accepted: set<(EventId, Contents)>, more: set<(EventId, Contents)>,
                      ids: seq<EventId>, i: nat, start: Time, mid: Time, end: Time)
    requires Distinct(ids) && i < |ids| && AllRecorded(before, was, accepted, ids, i, start, mid)
    requires accepted <= more && start <= mid <= end && ids[i] in before && ids[i] in after
    requires forall other :: other in was && other != ids[i] ==> other in after && after[other] == was[other]
    requires Recorded(before[ids[i]], after[ids[i]], (ids[i], before[ids[i]].contents) in more,
                      Backoff(before[ids[i]].attempts), mid, end)
    ensures AllRecorded(before, after, more, ids, i + 1, start, end)
  {
  }

  /** Only the first `n` events' rows may have changed. */
  ghost predicate OthersKept(before: Table, after: Table, ids: seq<EventId>, n: nat)
    requires n <= |ids|
  {
    after.Keys == before.Keys && forall id :: id in after && (forall j :: 0 <= j < n ==> ids[j] != id) ==> after[id] == before[id]
  }

  /** One turn of the dispatcher's loop. */
  method DispatchNext(repo: OutboxRepository, broker: Broker, ids: seq<EventId>, claimed: Table, i: nat,
                      ghost s: State, ghost others: set<Task>, ghost batch: nat)
    returns (ghost run: seq<Action>, ghost s': State)
    requires InState(repo, broker, s) && Distinct(ids) && i < |ids|
    requires forall j :: 0 <= j < |ids| ==> ids[j] in claimed
    requires OthersKept(claimed, repo.rows, ids, i) && claimed[ids[i]].publishedAt.None?
    requires Holds(s, others, batch, claimed, ids, i)
    modifies repo, broker
    ensures Run(s, run) == Some(s') && InState(repo, broker, s') && Holds(s', others, batch, claimed, ids, i + 1)
    ensures OthersKept(claimed, repo.rows, ids, i + 1) && repo.now >= old(repo.now) && old(broker.accepted) <= broker.accepted
    ensures forall other :: other in repo.rows && other != ids[i] ==> repo.rows[other] == old(repo.rows)[other]
    ensures repo.dependable ==>
              Recorded(claimed[ids[i]], repo.rows[ids[i]], (ids[i], claimed[ids[i]].contents) in broker.accepted,
                       Backoff(claimed[ids[i]].attempts), old(repo.now), repo.now)
    ensures repo.dependable && broker.dependable ==> repo.rows[ids[i]].publishedAt.Some?
  {
    assert repo.rows[ids[i]] == claimed[ids[i]];
    RetryDelayIsBackoff(claimed[ids[i]].attempts);
    hide Recorded, Run, RetryDelay, Backoff, Holds;
    NextTask(s, others, batch, claimed, ids, i);
    run, s' := Dispatch(repo, broker, ids[i], claimed[ids[i]].contents, RetryDelay(claimed[ids[i]].attempts + 1),
                        s, TaskOf(claimed, batch, ids[i]));
  }

  /** The dispatcher's loop over the events it has claimed. */
  method DispatchAll(repo: OutboxRepository, broker: Broker, ids: seq<EventId>, claimed: Table,
                     ghost s: State, ghost others: set<Task>, ghost batch: nat)
    returns (ghost run: seq<Action>, ghost s': State)
    requires InState(repo, broker, s) && repo.rows == claimed && Distinct(ids)
    requires forall j :: 0 <= j < |ids| ==> ids[j] in claimed && claimed[ids[j]].publishedAt.None?
    requires Holds(s, others, batch, claimed, ids, 0)
    modifies repo, broker
    ensures Run(s, run) == Some(s') && InState(repo, broker, s') && Holds(s', others, batch, claimed, ids, |ids|)
    ensures OthersKept(claimed, repo.rows, ids, |ids|) && repo.now >= old(repo.now)
    ensures repo.dependable ==> AllRecorded(claimed, repo.rows, broker.accepted, ids, |ids|, old(repo.now), repo.now)
    ensures repo.dependable && broker.dependable ==>
              forall i :: 0 <= i < |ids| ==> ids[i] in repo.rows && repo.rows[ids[i]].publishedAt.Some?
  {
    run, s' := [], s;
    assert Run(s, []) == Some(s) && OthersKept(claimed, claimed, ids, 0);
    assert AllRecorded(claimed, repo.rows, broker.accepted, ids, 0, repo.now, repo.now);
    hide AllRecorded, Recorded, Run, RetryDelay, Backoff, Holds;
    var i := 0;
    while i < |ids|
      invariant 0 <= i <= |ids|
      invariant Run(s, run) == Some(s') && InState(repo, broker, s') && Holds(s', others, batch, claimed, ids, i)
      invariant OthersKept(claimed, repo.rows, ids, i) && repo.now >= old(repo.now)
      invariant repo.dependable ==> AllRecorded(claimed, repo.rows, broker.accepted, ids, i, old(repo.now), repo.now)
      invariant repo.dependable && broker.dependable ==>
                  forall j :: 0 <= j < i ==> repo.rows[ids[j]].publishedAt.Some?
    {
      ghost var was, mid, accepted := repo.rows, repo.now, broker.accepted;
      ghost var more;
      more, s' := DispatchNext(repo, broker, ids, claimed, i, s', others, batch);
      RunConcat(s, run, more);
      run := run + more;
      if repo.dependable {
        RecordedGrows(claimed, was, repo.rows, accepted, broker.accepted, ids, i, old(repo.now), mid, repo.now);
      }
      i := i + 1;
    }
  }

  /** A claim of the oldest eligible events that are not locked is one the system allows. */
  lemma ClaimIsARun(s: State, act: Action, batch: nat, locked: set<EventId>, ids: seq<EventId>)
    requires OldestEligible(s.rows, s.now, locked, DEFAULT_LIMIT, IdSet(ids)) && s.leaseLimit == DEFAULT_LEASE
    requires act == Claim(batch, IdSet(ids), DEFAULT_LIMIT, DEFAULT_LEASE)
    ensures Enabled(s, act) && Run(s, [act]) == Some(Next(s, act))
    ensures Next(s, act).rows == Lease(s.rows, IdSet(ids), s.now + DEFAULT_LEASE)
    ensures Next(s, act).now == s.now && Next(s, act).accepted == s.accepted
  {
    assert Enabled(s, act);
    hide OldestEligible, EligibleIds, IdSet, Lease, ClaimedTasks;
    RunOfOne(s, act);
  }

  lemma HoldsTheOthers(s: State, others: set<Task>, batch: nat, claimed: Table, ids: seq<EventId>, i: nat)
    requires forall j :: 0 <= j < |ids| ==> ids[j] in claimed
    requires Holds(s, others, batch, claimed, ids, i)
    ensures forall t: Task :: t.batch != batch ==> (t in s.tasks <==> t in others)
  {
  }

  /** The claim as the system sees it, whether or not it took effect. */
  lemma ClaimOrNot(s: State, batch: nat, locked: set<EventId>, ids: seq<EventId>, applied: bool)
    returns (run: seq<Action>, s': State)
    requires OldestEligible(s.rows, s.now, locked, DEFAULT_LIMIT, IdSet(ids)) && s.leaseLimit == DEFAULT_LEASE
    requires forall t :: t in s.tasks ==> t.batch != batch
    ensures Run(s, run) == Some(s') && s'.now == s.now && s'.accepted == s.accepted
    ensures s'.rows == if applied then Lease(s.rows, IdSet(ids), s.now + DEFAULT_LEASE) else s.rows
    ensures forall j :: 0 <= j < |ids| ==> ids[j] in s'.rows
    ensures forall t: Task :: t.batch != batch ==> (t in s'.tasks <==> t in s.tasks)
    ensures applied ==> Holds(s', s.tasks, batch, s'.rows, ids, 0)
  {
    run, s' := [], s;
    OnlyRowsAreClaimed(s.rows, s.now, locked, DEFAULT_LIMIT, ids);
    if applied {
      var act := Claim(batch, IdSet(ids), DEFAULT_LIMIT, DEFAULT_LEASE);
      ClaimIsARun(s, act, batch, locked, ids);
      ClaimingHolds(s, batch, ids, DEFAULT_LIMIT, DEFAULT_LEASE);
      hide Run, Lease, Holds, OldestEligible;
      run, s' := [act], Next(s, act);
      HoldsTheOthers(s', s.tasks, batch, s'.rows, ids, 0);
    }
  }

  /** The dispatcher's claim transaction, with its fixed limit and lease. */
  method ClaimBatch(repo: OutboxRepository, broker: Broker, ghost s: State, ghost batch: nat)
    returns (done: bool, ids: seq<EventId>, ghost locked: set<EventId>, ghost run: seq<Action>, ghost s': State)
    requires InState(repo, broker, s) && s.leaseLimit == DEFAULT_LEASE
    requires forall t :: t in s.tasks ==> t.batch != batch
    modifies repo
    ensures Run(s, run) == Some(s') && InState(repo, broker, s')
    ensures Distinct(ids) && OldestEligible(old(repo.rows), old(repo.now), locked, DEFAULT_LIMIT, IdSet(ids))
    ensures repo.unlocked ==> locked == {}
    ensures OnlyYoungerLeft(old(repo.rows), IdSet(ids), locked, old(repo.now), 100)
    ensures forall t: Task :: t.batch != batch ==> (t in s'.tasks <==> t in s.tasks)
    ensures forall j :: 0 <= j < |ids| ==> ids[j] in repo.rows
    ensures done ==> Holds(s', s.tasks, batch, repo.rows, ids, 0)
    ensures repo.now == old(repo.now)
    ensures done ==> repo.rows == Lease(old(repo.rows), IdSet(ids), repo.now + DEFAULT_LEASE)
    ensures repo.dependable ==> done
  {
    hide Run, Holds, Lease, OldestEligible, OnlyYoungerLeft, Claims;
    var claim;
    claim, ids, locked := repo.ClaimPending(100, DEFAULT_LEASE);
    done := claim.Done?;
    run, s' := ClaimOrNot(s, batch, locked, ids, claim.Applied());
  }

  lemma LeaseKeepsTheRest(before: Table, leased: Table, locked: set<EventId>, ids: seq<EventId>, now: Time)
    requires OldestEligible(before, now, locked, DEFAULT_LIMIT, IdSet(ids)) && leased == Lease(before, IdSet(ids), now + DEFAULT_LEASE)
    ensures forall i :: 0 <= i < |ids| ==> ids[i] in leased && leased[ids[i]].publishedAt.None?
  {
    assert forall i :: 0 <= i < |ids| ==> ids[i] in IdSet(ids);
  }

  lemma RecordedSinceBefore(before: Table, leased: Table, after: Table, accepted: set<(EventId, Contents)>, ids: seq<EventId>,
                            start: Time, end: Time)
    requires leased == Lease(before, IdSet(ids), start + DEFAULT_LEASE)
    requires AllRecorded(leased, after, accepted, ids, |ids|, start, end) && OthersKept(leased, after, ids, |ids|)
    ensures AllRecorded(before, after, accepted, ids, |ids|, start, end) && OthersKept(before, after, ids, |ids|)
  {
  }

  /** The event was due and not leased to anybody; now it is published, or put off by one second after
      its first failure, twice as long after each further one, and by 256 seconds from the ninth on. */
  ghost predicate TriedWhenDue(before: Table, after: Table, id: EventId, start: Time, end: Time) {
    && id in before && id in after
    && before[id].publishedAt.None? && before[id].nextAttemptAt <= start
    && (before[id].claimedUntil.Some? ==> before[id].claimedUntil.value < start)
    && (after[id].publishedAt.None? ==>
          var failures, at := before[id].attempts, after[id].nextAttemptAt;
          && (failures == 0 ==> start + 1_000_000_000 <= at <= end + 1_000_000_000)
          && (failures >= 8 ==> start + 256_000_000_000 <= at <= end + 256_000_000_000)
          && (failures < 8 ==> start + PowerOfTwo(failures) * 1_000_000_000 <= at <= end + PowerOfTwo(failures) * 1_000_000_000))
  }

  lemma TriesAreDue(before: Table, after: Table, accepted: set<(EventId, Contents)>, locked: set<EventId>, ids: seq<EventId>,
                    start: Time, end: Time)
    requires OldestEligible(before, start, locked, DEFAULT_LIMIT, IdSet(ids))
    requires AllRecorded(before, after, accepted, ids, |ids|, start, end)
    ensures forall i :: 0 <= i < |ids| ==> TriedWhenDue(before, after, ids[i], start, end)
  {
    RetryDelayIsBackoff(8);
    forall i | 0 <= i < |ids|
      ensures TriedWhenDue(before, after, ids[i], start, end)
    {
      assert ids[i] in IdSet(ids);
    }
  }

  /** One pass of the dispatcher: claim the oldest events, publish each, record each outcome.
      Whatever fails on the way, the pass is a run of the transition system that leaves all
      other publishers alone; when nothing fails, it publishes every event it claimed. */
  method FlushOutbox(repo: OutboxRepository, broker: Broker, ghost s: State, ghost batch: nat)
    returns (ids: seq<EventId>, ghost locked: set<EventId>, ghost run: seq<Action>, ghost s': State)
    requires InState(repo, broker, s) && s.leaseLimit == DEFAULT_LEASE
    requires forall t :: t in s.tasks ==> t.batch != batch
    modifies repo, broker
    ensures Run(s, run) == Some(s') && InState(repo, broker, s')
    ensures forall t: Task :: t.batch != batch ==> (t in s'.tasks <==> t in s.tasks)
    ensures OldestEligible(old(repo.rows), old(repo.now), locked, DEFAULT_LIMIT, IdSet(ids))
    ensures repo.unlocked ==> locked == {}
    ensures OnlyYoungerLeft(old(repo.rows), IdSet(ids), locked, old(repo.now), 100)
    ensures repo.dependable ==>
              AllRecorded(old(repo.rows), repo.rows, broker.accepted, ids, |ids|, old(repo.now), repo.now)
              && OthersKept(old(repo.rows), repo.rows, ids, |ids|)
    ensures repo.dependable ==>
              forall i :: 0 <= i < |ids| ==> TriedWhenDue(old(repo.rows), repo.rows, ids[i], old(repo.now), repo.now)
    ensures repo.dependable && broker.dependable ==>
              forall i :: 0 <= i < |ids| ==> ids[i] in repo.rows && repo.rows[ids[i]].publishedAt.Some?
  {
    hide Run, Holds, Lease, OldestEligible, AllRecorded, OthersKept, OnlyYoungerLeft, TriedWhenDue;
    var done;
    ghost var before := repo.rows;
    done, ids, locked, run, s' := ClaimBatch(repo, broker, s, batch);
    if done {
      ghost var leased := repo.rows;
      LeaseKeepsTheRest(before, leased, locked, ids, repo.now);
      ghost var more;
      more, s' := DispatchAll(repo, broker, ids, repo.rows, s', s.tasks, batch);
      RunConcat(s, run, more);
      run := run + more;
      HoldsTheOthers(s', s.tasks, batch, leased, ids, |ids|);
      if repo.dependable {
        RecordedSinceBefore(before, leased, repo.rows, broker.accepted, ids, old(repo.now), repo.now);
        TriesAreDue(before, repo.rows, broker.accepted, locked, ids, old(repo.now), repo.now);
      }
    }
  }

  /** Publication by a use case: save the event, publish it at once, record the outcome. The event
      is reported as queued exactly when the save was, whatever the broker answered. */
  method PublishEvent(repo: OutboxRepository, broker: Broker, id: EventId, contents: Contents, ghost s: State)
    returns (saved: bool, ghost run: seq<Action>, ghost s': State)
    requires InState(repo, broker, s) && id !in repo.rows && contents.createdAt <= repo.now
    requires forall t :: t in s.tasks ==> t.id != id
    modifies repo, broker
    ensures Run(s, run) == Some(s') && InState(repo, broker, s')
    ensures saved ==> id in repo.rows && repo.rows[id].contents == contents
    ensures repo.dependable ==> saved
                                && Recorded(Row(contents, 0, old(repo.now), "", None, None), repo.rows[id],
                                            (id, contents) in broker.accepted, 1_000_000_000, old(repo.now), repo.now)
    ensures forall other :: other in old(repo.rows) ==> other in repo.rows && repo.rows[other] == old(repo.rows)[other]
    ensures repo.dependable && broker.dependable ==> repo.rows[id].publishedAt.Some?
  {
    var createdAt := repo.now;
    var r := repo.Save(id, contents, createdAt);
    run, s' := [], s;
    ghost var task := Task(0, id, contents, DIRECT_RETRY_DELAY, Ready);
    if r.Applied() {
      ghost var act := Save(0, id, contents, createdAt);
      RunOfOne(s, act);
      run, s' := [act], Next(s, act);
    }
    saved := r.Done?;
    if saved {
      ghost var more, next := Dispatch(repo, broker, id, contents, DIRECT_RETRY_DELAY, s', task);
      RunConcat(s, run, more);
      run, s' := run + more, next;
    }
  }
}
