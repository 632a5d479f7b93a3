/** The transactional outbox: any number of workers that claim events under a lease, and use
    cases that publish the event they have just saved without any lease, over one clock. */
module Outbox {
  import opened Wrappers
  import Oldest

  type EventId = nat
  type Time = int

  const SECOND: int := 1_000_000_000
  const DIRECT_RETRY_DELAY: int := SECOND
  const MAX_RETRY_DELAY: int := 256 * SECOND
  const DEFAULT_LEASE: int := 120 * SECOND

  /** What an event says; none of it ever changes. */
  datatype Contents = Contents(topic: string, payload: string, headers: map<string, string>, createdAt: Time)

  datatype Row = Row(
    contents: Contents,
    attempts: nat,
    nextAttemptAt: Time,
    lastError: string,
    claimedUntil: Option<Time>,
    publishedAt: Option<Time>)

  type Table = map<EventId, Row>

  // ----- Statements -----

  predicate Eligible(row: Row, now: Time) {
    && row.publishedAt.None?
    && row.nextAttemptAt <= now
    && (row.claimedUntil.None? || row.claimedUntil.value < now)
  }

  function EligibleIds(rows: Table, now: Time): set<EventId> {
    set id | id in rows && Eligible(rows[id], now)
  }

  /** What a claim does to the table: it leases rows that were due, unpublished and not leased to
      anybody, and changes nothing else. */
  ghost predicate Claims(before: Table, after: Table, ids: set<EventId>, now: Time, until: Time) {
    && after.Keys == before.Keys
    && (forall id :: id in before && id !in ids ==> after[id] == before[id])
    && (forall id :: id in ids ==>
          && id in before && before[id].publishedAt.None? && before[id].nextAttemptAt <= now
          && (before[id].claimedUntil.Some? ==> before[id].claimedUntil.value < now)
          && after[id] == before[id].(claimedUntil := Some(until)))
  }

  /** A row that is due, unpublished, not leased and not locked is left out only when the limit is
      reached by rows that are not younger. */
  ghost predicate OnlyYoungerLeft(before: Table, ids: set<EventId>, locked: set<EventId>, now: Time, limit: int) {
    && |ids| <= limit
    && forall id :: id in before && id !in locked && id !in ids ==>
         || before[id].publishedAt.Some? || before[id].nextAttemptAt > now
         || (before[id].claimedUntil.Some? && before[id].claimedUntil.value >= now)
         || (&& |ids| == limit
             && forall taken :: taken in ids ==> taken in before && before[taken].contents.createdAt <= before[id].contents.createdAt)
  }

  function CreationTimes(rows: Table): map<EventId, Time> {
    map id | id in rows :: rows[id].contents.createdAt
  }

  /** The rows a claim returns while others are locked by open transactions, which it skips: as many
      eligible ones as fit, none younger than one left out. */
  ghost predicate OldestEligible(rows: Table, now: Time, locked: set<EventId>, limit: nat, ids: set<EventId>) {
    Oldest.OldestOf(CreationTimes(rows), EligibleIds(rows, now) - locked, limit, ids)
  }

  function Lease(rows: Table, ids: set<EventId>, until: Time): Table {
    map id | id in rows :: if id in ids then rows[id].(claimedUntil := Some(until)) else rows[id]
  }

  predicate Unpublished(rows: Table, id: EventId) {
    id in rows && rows[id].publishedAt.None?
  }

  function PublishedRow(rows: Table, id: EventId, now: Time): Table {
    if Unpublished(rows, id)
    then rows[id := rows[id].(publishedAt := Some(now), lastError := "", claimedUntil := None)] else rows
  }

  function FailedRow(rows: Table, id: EventId, reason: string, nextAttemptAt: Time): Table {
    if Unpublished(rows, id)
    then rows[id := rows[id].(attempts := rows[id].attempts + 1, nextAttemptAt := nextAttemptAt,
                              lastError := reason, claimedUntil := None)]
    else rows
  }

  lemma ClaimMeaning(rows: Table, now: Time, locked: set<EventId>, limit: nat, ids: set<EventId>, until: Time)
    requires OldestEligible(rows, now, locked, limit, ids)
    ensures Claims(rows, Lease(rows, ids, until), ids, now, until)
    ensures OnlyYoungerLeft(rows, ids, locked, now, limit)
  {
    var candidates, times := EligibleIds(rows, now) - locked, CreationTimes(rows);
    forall id | id in candidates && id !in ids
      ensures |ids| == limit
      ensures forall taken :: taken in ids ==> taken in rows && rows[taken].contents.createdAt <= rows[id].contents.createdAt
    {
      Oldest.SubsetSmaller(ids, candidates, id);
      assert forall taken :: taken in ids ==> Oldest.NotYounger(times, taken, id);
    }
  }

  // ----- Retry delay -----

  function PowerOfTwo(n: nat): nat {
    if n == 0 then 1 else 2 * PowerOfTwo(n - 1)
  }

  lemma {:induction false} PowerOfTwoGrows(m: nat, n: nat)
    requires m <= n
    ensures 1 <= PowerOfTwo(m) <= PowerOfTwo(n)
  {
    if m < n {
      PowerOfTwoGrows(m, n - 1);
    } else if m > 0 {
      PowerOfTwoGrows(m - 1, n - 1);
    }
  }

  /** The clamp keeps every delay between one and 256 seconds. */
  function RetryDelay(attempt: int): (delay: int)
    ensures 1_000_000_000 <= delay <= 256_000_000_000
    ensures attempt <= 1 ==> delay == 1_000_000_000
    ensures attempt >= 9 ==> delay == 256_000_000_000
  {
    var a := if attempt < 1 then 1 else if attempt > 9 then 9 else attempt;
    PowerOfTwoGrows(a - 1, 8);
    assert PowerOfTwo(4) == 16;
    PowerOfTwo(a - 1) * SECOND
  }

  /** The delay doubles from each failure to the next, up to the ninth. */
  lemma RetryDelayDoubles(attempt: int)
    requires 1 <= attempt <= 8
    ensures RetryDelay(attempt + 1) == 2 * RetryDelay(attempt)
  {
  }

  /** The delay after a number of earlier failures, in closed form. */
  function Backoff(failures: nat): int {
    PowerOfTwo(if failures < 8 then failures else 8) * 1_000_000_000
  }

  lemma {:induction false} RetryDelayIsBackoff(failures: nat)
    ensures RetryDelay(failures + 1) == Backoff(failures)
  {
    if 0 < failures <= 8 {
      RetryDelayIsBackoff(failures - 1);
      RetryDelayDoubles(failures);
    } else if failures > 8 {
      RetryDelayIsBackoff(8);
    }
  }

  // ----- The system of publishers -----

  datatype Phase = Ready | Accepted | Rejected

  /** One publisher's hold on one event, from the claim or the save to its final mark. */
  datatype Task = Task(batch: nat, id: EventId, contents: Contents, retryDelay: int, phase: Phase)

  /** History: claims and effective failure marks, in order. */
  datatype Entry = WasClaimed(ids: set<EventId>, at: Time, lease: int) | HasFailed(id: EventId)

  datatype State = State(
    leaseLimit: int,
    now: Time,
    rows: Table,
    tasks: set<Task>,
    accepted: set<(EventId, Contents)>,     // history: everything the broker has taken
    saved: map<EventId, Contents>,          // history: everything ever saved
    log: seq<Entry>)

  datatype Action =
    | Tick(elapsed: nat)
    | Save(batch: nat, id: EventId, contents: Contents, nextAttemptAt: Time)
    | Claim(batch: nat, ids: set<EventId>, limit: nat, lease: int)
    | Publish(task: Task)
    | PublishFails(task: Task, brokerTookIt: bool)
    | MarkPublished(task: Task)
    | MarkFailed(task: Task, reason: string, computedAt: Time)
    | Drop(task: Task)

  function Init(leaseLimit: int): State {
    State(leaseLimit, 0, map[], {}, {}, map[], [])
  }

  ghost predicate Enabled(s: State, act: Action) {
    match act
    case Tick(_) => true
    case Save(batch, id, contents, nextAttemptAt) =>
      id !in s.rows && contents.createdAt <= s.now && nextAttemptAt <= s.now
    case Claim(batch, ids, limit, lease) => ids <= EligibleIds(s.rows, s.now) && |ids| <= limit && 0 < lease <= s.leaseLimit
    case Publish(task) => task in s.tasks && task.phase.Ready?
    case PublishFails(task, _) => task in s.tasks && task.phase.Ready?
    case MarkPublished(task) => task in s.tasks && task.phase.Accepted?
    case MarkFailed(task, _, computedAt) => task in s.tasks && task.phase.Rejected? && computedAt <= s.now
    case Drop(task) => task in s.tasks
  }

  /** The tasks a batch of claimed rows turns into. */
  function ClaimedTasks(rows: Table, batch: nat, ids: set<EventId>): set<Task>
    requires ids <= rows.Keys
  {
    set id | id in ids :: Task(batch, id, rows[id].contents, RetryDelay(rows[id].attempts + 1), Ready)
  }

  function Moved(s: State, task: Task, phase: Phase): State {
    s.(tasks := s.tasks - {task} + {task.(phase := phase)})
  }

  ghost function Next(s: State, act: Action): State
    requires Enabled(s, act)
  {
    match act
    case Tick(elapsed) => s.(now := s.now + elapsed)
    case Save(batch, id, contents, nextAttemptAt) =>
      s.(rows := s.rows[id := Row(contents, 0, nextAttemptAt, "", None, None)],
         tasks := s.tasks + {Task(batch, id, contents, DIRECT_RETRY_DELAY, Ready)},
         saved := s.saved[id := contents])
    case Claim(batch, ids, limit, lease) =>
      s.(rows := Lease(s.rows, ids, s.now + lease),
         tasks := s.tasks + ClaimedTasks(s.rows, batch, ids),
         log := s.log + [WasClaimed(ids, s.now, lease)])
    case Publish(task) => Moved(s, task, Accepted).(accepted := s.accepted + {(task.id, task.contents)})
    case PublishFails(task, brokerTookIt) =>
      Moved(s, task, Rejected).(accepted := if brokerTookIt then s.accepted + {(task.id, task.contents)} else s.accepted)
    case MarkPublished(task) => s.(rows := PublishedRow(s.rows, task.id, s.now), tasks := s.tasks - {task})
    case MarkFailed(task, reason, computedAt) =>
      s.(rows := FailedRow(s.rows, task.id, reason, computedAt + task.retryDelay),
         tasks := s.tasks - {task},
         log := if Unpublished(s.rows, task.id) then s.log + [HasFailed(task.id)] else s.log)
    case Drop(task) => s.(tasks := s.tasks - {task})
  }

  ghost function Run(s: State, run: seq<Action>): Option<State> {
    if run == [] then Some(s)
    else
      var before := Run(s, run[..|run| - 1]);
      if before.Some? && Enabled(before.value, run[|run| - 1])
      then Some(Next(before.value, run[|run| - 1])) else None
  }

  lemma {:induction false} RunAppends(s: State, run: seq<Action>, act: Action)
    requires Run(s, run).Some? && Enabled(Run(s, run).value, act)
    ensures Run(s, run + [act]) == Some(Next(Run(s, run).value, act))
  {
  }

  // ----- At-least-once with integrity -----

  ghost predicate Intact(s: State) {
    && s.rows.Keys == s.saved.Keys
    && (forall id :: id in s.rows ==> s.rows[id].contents == s.saved[id])
    && (forall id :: id in s.rows && s.rows[id].publishedAt.Some? ==> (id, s.saved[id]) in s.accepted)
    && (forall t :: t in s.tasks ==>
         && t.id in s.saved && t.contents == s.saved[t.id]
         && SECOND <= t.retryDelay <= MAX_RETRY_DELAY
         && (t.phase.Accepted? ==> (t.id, t.contents) in s.accepted))
  }

  lemma ClaimKeepsIntact(s: State, batch: nat, ids: set<EventId>, limit: nat, lease: int)
    requires Intact(s) && Enabled(s, Claim(batch, ids, limit, lease))
    ensures Intact(Next(s, Claim(batch, ids, limit, lease)))
  {
  }

  lemma PublicationKeepsIntact(s: State, act: Action)
    requires Intact(s) && Enabled(s, act) && (act.Publish? || act.PublishFails?)
    ensures Intact(Next(s, act)) && Next(s, act).saved == s.saved
  {
  }

  lemma MarkKeepsIntact(s: State, act: Action)
    requires Intact(s) && Enabled(s, act) && (act.MarkPublished? || act.MarkFailed?)
    ensures Intact(Next(s, act)) && Next(s, act).saved == s.saved
  {
  }

  lemma StepKeepsIntact(s: State, act: Action)
    requires Intact(s) && Enabled(s, act)
    ensures Intact(Next(s, act))
    ensures forall id :: id in s.saved ==> id in Next(s, act).saved && Next(s, act).saved[id] == s.saved[id]
  {
    hide Moved, ClaimedTasks, EligibleIds, Lease, PublishedRow, FailedRow;
    match act
    case Claim(batch, ids, limit, lease) => ClaimKeepsIntact(s, batch, ids, limit, lease);
    case Publish(_) => PublicationKeepsIntact(s, act);
    case PublishFails(_, _) => PublicationKeepsIntact(s, act);
    case MarkPublished(_) => MarkKeepsIntact(s, act);
    case MarkFailed(_, _, _) => MarkKeepsIntact(s, act);
    case _ =>
  }

  // ----- Attempt counting -----

  function Failures(log: seq<Entry>, id: EventId): nat {
    if log == [] then 0
    else Failures(log[..|log| - 1], id) + (if log[|log| - 1] == HasFailed(id) then 1 else 0)
  }

  ghost predicate AttemptsCounted(s: State) {
    && (forall id :: id in s.rows ==> s.rows[id].attempts == Failures(s.log, id))
    && (forall id :: id !in s.rows ==> Failures(s.log, id) == 0)
  }

  lemma FailuresOfAppended(log: seq<Entry>, e: Entry, id: EventId)
    ensures Failures(log + [e], id) == Failures(log, id) + (if e == HasFailed(id) then 1 else 0)
  {
  }

  lemma StepKeepsAttemptsCounted(s: State, act: Action)
    requires AttemptsCounted(s) && Intact(s) && Enabled(s, act)
    ensures AttemptsCounted(Next(s, act))
  {
    var s' := Next(s, act);
    forall id
      ensures id in s'.rows ==> s'.rows[id].attempts == Failures(s'.log, id)
      ensures id !in s'.rows ==> Failures(s'.log, id) == 0
    {
      match act
      case Claim(_, ids, _, lease) => FailuresOfAppended(s.log, WasClaimed(ids, s.now, lease), id);
      case MarkFailed(task, _, _) => FailuresOfAppended(s.log, HasFailed(task.id), id);
      case _ =>
    }
  }

  // ----- Bounded eligibility -----

  /** No unpublished event is put off for longer than the longest retry delay or the lease. */
  ghost predicate Bounded(s: State) {
    forall id :: Unpublished(s.rows, id) ==>
      && s.rows[id].nextAttemptAt <= s.now + MAX_RETRY_DELAY
      && (s.rows[id].claimedUntil.Some? ==> s.rows[id].claimedUntil.value <= s.now + s.leaseLimit)
  }

  lemma StepKeepsBounded(s: State, act: Action)
    requires Bounded(s) && Intact(s) && Enabled(s, act)
    ensures Bounded(Next(s, act))
  {
  }

  // ----- Leases -----

  predicate NoFailureBetween(log: seq<Entry>, id: EventId, i: nat, j: nat)
    requires j <= |log|
  {
    forall m :: i < m < j ==> log[m] != HasFailed(id)
  }

  predicate ClaimOf(log: seq<Entry>, id: EventId, i: nat) {
    i < |log| && log[i].WasClaimed? && id in log[i].ids
  }

  /** A claim with no failure mark since then still leases its event, or the event is published. */
  ghost predicate LeasesHeld(s: State) {
    forall id, i: nat :: ClaimOf(s.log, id, i) && NoFailureBetween(s.log, id, i, |s.log|) ==>
      && id in s.rows
      && (s.rows[id].publishedAt.Some?
          || (s.rows[id].claimedUntil.Some? && s.rows[id].claimedUntil.value >= s.log[i].at + s.log[i].lease))
  }

  ghost predicate LeasesExclusive(log: seq<Entry>) {
    forall id, i: nat, j: nat :: i < j && ClaimOf(log, id, i) && ClaimOf(log, id, j) && NoFailureBetween(log, id, i, j) ==>
      log[j].at > log[i].at + log[i].lease
  }

  lemma StepKeepsLeasesHeld(s: State, act: Action)
    requires LeasesHeld(s) && Enabled(s, act)
    ensures LeasesHeld(Next(s, act))
  {
    var s' := Next(s, act);
    forall id, i: nat | ClaimOf(s'.log, id, i) && NoFailureBetween(s'.log, id, i, |s'.log|)
      ensures id in s'.rows
      ensures s'.rows[id].publishedAt.Some?
              || (s'.rows[id].claimedUntil.Some? && s'.rows[id].claimedUntil.value >= s'.log[i].at + s'.log[i].lease)
    {
      if i < |s.log| {
        assert forall m :: i < m < |s.log| ==> s'.log[m] == s.log[m];
        assert ClaimOf(s.log, id, i) && NoFailureBetween(s.log, id, i, |s.log|);
        assert |s'.log| > |s.log| ==> s'.log[|s.log|] != HasFailed(id);
      }
    }
  }

  lemma StepKeepsLeasesExclusive(s: State, act: Action)
    requires LeasesHeld(s) && LeasesExclusive(s.log) && Enabled(s, act)
    ensures LeasesExclusive(Next(s, act).log)
  {
    var s' := Next(s, act);
    forall id, i: nat, j: nat | i < j && ClaimOf(s'.log, id, i) && ClaimOf(s'.log, id, j) && NoFailureBetween(s'.log, id, i, j)
      ensures s'.log[j].at > s'.log[i].at + s'.log[i].lease
    {
      assert ClaimOf(s.log, id, i);
      assert forall m :: i < m < j ==> s.log[m] == s'.log[m];
      assert NoFailureBetween(s.log, id, i, j);
      if j < |s.log| {
        assert ClaimOf(s.log, id, j);
      } else {
        assert Eligible(s.rows[id], s.now);
      }
    }
  }

  // ----- Every run -----

  ghost predicate Inv(s: State) {
    Intact(s) && AttemptsCounted(s) && Bounded(s) && LeasesHeld(s) && LeasesExclusive(s.log)
  }

  lemma InitIsInv(leaseLimit: int)
    ensures Inv(Init(leaseLimit))
  {
  }

  lemma {:induction false} RunKeepsInv(s: State, run: seq<Action>)
    requires Inv(s) && Run(s, run).Some?
    ensures Inv(Run(s, run).value)
    ensures Run(s, run).value.leaseLimit == s.leaseLimit
    ensures forall id :: id in s.saved ==> id in Run(s, run).value.saved && Run(s, run).value.saved[id] == s.saved[id]
  {
    if run != [] {
      RunKeepsInv(s, run[..|run| - 1]);
      var before, act := Run(s, run[..|run| - 1]).value, run[|run| - 1];
      StepKeepsIntact(before, act);
      StepKeepsAttemptsCounted(before, act);
      StepKeepsBounded(before, act);
      StepKeepsLeasesHeld(before, act);
      StepKeepsLeasesExclusive(before, act);
    }
  }

  /** At least once, with integrity: whatever has been saved stays in the outbox with its contents
      for ever, a published event was taken by the broker with exactly those contents, and the
      attempts of a row are the failure marks that reached it. */
  lemma OutboxDelivers(leaseLimit: int, early: seq<Action>, late: seq<Action>, id: EventId)
    requires Run(Init(leaseLimit), early).Some? && Run(Run(Init(leaseLimit), early).value, late).Some?
    requires id in Run(Init(leaseLimit), early).value.saved
    ensures var contents := Run(Init(leaseLimit), early).value.saved[id];
            var s := Run(Run(Init(leaseLimit), early).value, late).value;
            && id in s.rows && s.rows[id].contents == contents
            && (s.rows[id].publishedAt.Some? ==> (id, contents) in s.accepted)
            && s.rows[id].attempts == Failures(s.log, id)
  {
    RunKeepsInv(Init(leaseLimit), early);
    RunKeepsInv(Run(Init(leaseLimit), early).value, late);
  }

  /** A published row never changes again. */
  lemma {:induction false} PublishedIsFrozen(s: State, run: seq<Action>, id: EventId)
    requires Run(s, run).Some? && id in s.rows && s.rows[id].publishedAt.Some?
    ensures id in Run(s, run).value.rows && Run(s, run).value.rows[id] == s.rows[id]
  {
    if run != [] {
      PublishedIsFrozen(s, run[..|run| - 1], id);
    }
  }

  /** Bounded eligibility: in every reachable state an unpublished event becomes claimable by the
      mere passage of 256 seconds. */
  lemma NeverUnclaimableForLong(run: seq<Action>, id: EventId, later: Time)
    requires Run(Init(DEFAULT_LEASE), run).Some?
    requires Unpublished(Run(Init(DEFAULT_LEASE), run).value.rows, id)
    requires later >= Run(Init(DEFAULT_LEASE), run).value.now + MAX_RETRY_DELAY
    ensures Eligible(Run(Init(DEFAULT_LEASE), run).value.rows[id], later)
  {
    RunKeepsInv(Init(DEFAULT_LEASE), run);
  }

  /** Lease exclusivity: of two claims of one event the second comes after the lease of the first
      has run out, or the event was marked failed in between. */
  lemma LeaseExclusivity(leaseLimit: int, run: seq<Action>, id: EventId, i: nat, j: nat)
    requires Run(Init(leaseLimit), run).Some?
    requires i < j && ClaimOf(Run(Init(leaseLimit), run).value.log, id, i)
                   && ClaimOf(Run(Init(leaseLimit), run).value.log, id, j)
    ensures var log := Run(Init(leaseLimit), run).value.log;
            log[j].at > log[i].at + log[i].lease || exists m :: i < m < j && log[m] == HasFailed(id)
  {
    hide Run, Intact, AttemptsCounted, Bounded, LeasesHeld, ClaimOf;
    assert Inv(Init(leaseLimit)) by {
      InitIsInv(leaseLimit);
    }
    RunKeepsInv(Init(leaseLimit), run);
  }

  /** With distinct creation times there is exactly one claim the statement can make. */
  lemma OldestEligibleIsUnique(rows: Table, now: Time, locked: set<EventId>, limit: nat, a: set<EventId>, b: set<EventId>)
    requires OldestEligible(rows, now, locked, limit, a) && OldestEligible(rows, now, locked, limit, b)
    requires forall i, j :: i in rows && j in rows && i != j ==> rows[i].contents.createdAt != rows[j].contents.createdAt
    ensures a == b
  {
    Oldest.OldestIsUnique(CreationTimes(rows), EligibleIds(rows, now) - locked, limit, a, b);
  }
}
