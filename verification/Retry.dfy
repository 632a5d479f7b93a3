/** Handling one message with bounded retries: the loop, and what a whole run of it does to an
    avatar when the handler is the upload worker. */
module Retry {
  import opened DeliveryHeaders
  import opened Messages
  import opened AvatarTables

  /** A context that may end at any moment and then stays ended. */
  class Context {
    const endless: bool
    var done: bool

    constructor (endless: bool)
      ensures !done && this.endless == endless
    {
      this.endless := endless;
      done := false;
    }

    method Err() returns (d: bool)
      modifies this
      ensures d == done && (old(done) ==> done)
      ensures endless && !old(done) ==> !done
    {
      var ends: bool := *;
      if ends && !endless {
        done := true;
      }
      d := done;
    }
  }

  /** A handler works on a state of its own and reports whether it succeeded. */
  type Handler<!S> = (S, Message) -> (S, bool)

  function Stamped(m: Message, attempt: Int64, maxAttempts: Int64): Message {
    m.(headers := WithAttempt(m.headers, attempt, maxAttempts))
  }

  /** The state and the message after the first `k` attempts. */
  function After<S>(handler: Handler<S>, s: S, m: Message, maxAttempts: Int64, k: nat): (S, Message)
    requires k <= maxAttempts
  {
    if k == 0 then (s, m)
    else
      var before := After(handler, s, m, maxAttempts, k - 1);
      var stamped := Stamped(before.1, k, maxAttempts);
      (handler(before.0, stamped).0, stamped)
  }

  /** Does attempt `k` succeed, if it is made? */
  predicate Succeeds<S>(handler: Handler<S>, s: S, m: Message, maxAttempts: Int64, k: nat)
    requires 1 <= k <= maxAttempts
  {
    var before := After(handler, s, m, maxAttempts, k - 1);
    handler(before.0, Stamped(before.1, k, maxAttempts)).1
  }

  datatype Outcome = Success | Exhausted | Cancelled

  function AtLeastOne(maxAttempts: Int64): Int64 {
    if maxAttempts < 1 then 1 else maxAttempts
  }

  /** Attempts are made one after the other until one succeeds, all are used up, or the context
      ends before an attempt or in the pause after it. */
  method HandleWithRetry<S>(ctx: Context, s: S, m: Message, handler: Handler<S>, maxAttempts: Int64)
    returns (s': S, m': Message, r: Outcome, attempts: nat)
    modifies ctx
    ensures var limit := AtLeastOne(maxAttempts);
            && attempts <= limit && (s', m') == After(handler, s, m, limit, attempts)
            && (forall i :: 1 <= i < attempts ==> !Succeeds(handler, s, m, limit, i))
            && (r.Success? <==> attempts >= 1 && Succeeds(handler, s, m, limit, attempts))
            && (r.Exhausted? ==> attempts == limit)
            && (r.Cancelled? ==> ctx.done && attempts < limit)
    ensures attempts <= (if maxAttempts < 1 then 1 else maxAttempts)
    ensures r.Exhausted? ==> attempts == if maxAttempts < 1 then 1 else maxAttempts
    ensures old(ctx.done) ==> ctx.done && attempts == 0
    ensures ctx.endless && !old(ctx.done) ==> !ctx.done && !r.Cancelled?
  {
    var limit := AtLeastOne(maxAttempts);
    s', m', attempts := s, m, 0;
    while attempts < limit
      invariant attempts <= limit && (s', m') == After(handler, s, m, limit, attempts)
      invariant forall i :: 1 <= i <= attempts ==> !Succeeds(handler, s, m, limit, i)
      invariant old(ctx.done) ==> ctx.done && attempts == 0
      invariant ctx.endless && !old(ctx.done) ==> !ctx.done
    {
      var ended := ctx.Err();
      if ended {
        return s', m', Cancelled, attempts;
      }
      m' := Stamped(m', attempts + 1, limit);
      var answer := handler(s', m');
      s' := answer.0;
      attempts := attempts + 1;
      if answer.1 {
        return s', m', Success, attempts;
      }
      if attempts < limit {
        ended := ctx.Err();
        if ended {
          return s', m', Cancelled, attempts;
        }
      }
    }
    r := Exhausted;
  }

  // ----- The upload worker as a handler of one avatar row -----

  /** How the work on a claimed avatar goes: download, decoding and every thumbnail succeed, or
      one of them fails for some reason. */
  datatype Work = Done(at: AvatarTables.Time) | FailsAt(at: AvatarTables.Time, reason: string)

  /** One delivery of an upload event, with the database answering and nobody else at work. */
  function HandleRow(row: Avatar, headers: Headers, work: Work): (Avatar, bool) {
    if !row.Claimable() then (row, true)
    else
      var claimed := Claimed(row, work.at);
      match work
      case Done(at) => (claimed.MarkProcessed(at), true)
      case FailsAt(at, reason) => (claimed.AfterFailure(IsFinalDelivery(headers), reason, at), false)
  }

  /** The worker under a pattern that says how each attempt goes. */
  function WorkerHandler(pattern: Int64 -> Work): Handler<Avatar> {
    (row: Avatar, m: Message) => HandleRow(row, m.headers, pattern(DeliveryAttempt(m.headers)))
  }

  /** One attempt on a claimable avatar: one claim more, completed if the work succeeds, else pending
      again, or failed on the last attempt. */
  lemma OneAttempt(row: Avatar, m: Message, pattern: Int64 -> Work, maxAttempts: Int64, k: Int64)
    requires row.Claimable() && 1 <= k <= maxAttempts
    ensures var answer := WorkerHandler(pattern)(row, Stamped(m, k, maxAttempts));
            && answer.0.attempts == row.attempts + 1 && (answer.1 <==> pattern(k).Done?)
            && answer.0.processing == (if pattern(k).Done? then Completed else if k == maxAttempts then Failed else Pending)
            && (answer.0.processing.Pending? ==> answer.0.Claimable())
  {
    FinalDeliveryMeaning(m.headers, k, maxAttempts);
  }

  /** As long as every attempt fails before the last one, the avatar goes back to pending, one
      claim older each time. */
  lemma {:induction false} FailuresRequeue(row: Avatar, m: Message, pattern: Int64 -> Work, maxAttempts: Int64, k: nat)
    requires row.Claimable() && k < maxAttempts
    requires forall i: Int64 :: 1 <= i <= k ==> pattern(i).FailsAt?
    ensures var after := After(WorkerHandler(pattern), row, m, maxAttempts, k).0;
            after.Claimable() && after.attempts == row.attempts + k
    ensures forall i :: 1 <= i <= k ==> !Succeeds(WorkerHandler(pattern), row, m, maxAttempts, i)
  {
    hide WorkerHandler, Stamped;
    if k > 0 {
      FailuresRequeue(row, m, pattern, maxAttempts, k - 1);
      var before := After(WorkerHandler(pattern), row, m, maxAttempts, k - 1);
      OneAttempt(before.0, before.1, pattern, maxAttempts, k);
    }
  }

  /** Attempt `k` of the run, when all before it failed. */
  lemma AttemptOutcome(row: Avatar, m: Message, pattern: Int64 -> Work, maxAttempts: Int64, k: nat)
    requires row.Claimable() && 1 <= k <= maxAttempts
    requires forall i: Int64 :: 1 <= i < k ==> pattern(i).FailsAt?
    ensures var after := After(WorkerHandler(pattern), row, m, maxAttempts, k).0;
            && after.attempts == row.attempts + k
            && (pattern(k).Done? <==> Succeeds(WorkerHandler(pattern), row, m, maxAttempts, k))
            && (pattern(k).Done? ==> after.processing == Completed)
            && (pattern(k).FailsAt? ==> after.processing == if k == maxAttempts then Failed else Pending)
  {
    hide WorkerHandler, Stamped;
    FailuresRequeue(row, m, pattern, maxAttempts, k - 1);
    var before := After(WorkerHandler(pattern), row, m, maxAttempts, k - 1);
    OneAttempt(before.0, before.1, pattern, maxAttempts, k);
  }

  lemma {:induction false} FailuresComeFirst(row: Avatar, m: Message, pattern: Int64 -> Work, limit: Int64, k: nat)
    requires row.Claimable() && 1 <= k <= limit
    requires forall i :: 1 <= i < k ==> !Succeeds(WorkerHandler(pattern), row, m, limit, i)
    ensures forall i: Int64 :: 1 <= i < k ==> pattern(i).FailsAt?
  {
    if k > 1 {
      FailuresComeFirst(row, m, pattern, limit, k - 1);
      AttemptOutcome(row, m, pattern, limit, k - 1);
    }
  }

  /** Whole-run outcome: from a claimable avatar, whatever the pattern of failures, the run ends
      completed after exactly `k` claims if attempt `k` is the first to succeed; otherwise it ends
      failed after exactly the maximum number of claims and is reported as exhausted, which is
      what sends the message to the dead-letter topic. Failed is written on no other delivery. */
  method ProcessUpload(ctx: Context, row: Avatar, m: Message, pattern: Int64 -> Work, maxAttempts: Int64)
    returns (row': Avatar, r: Outcome, claims: nat)
    requires row.Claimable() && ctx.endless && !ctx.done
    modifies ctx
    ensures row'.attempts == row.attempts + claims && 1 <= claims <= if maxAttempts < 1 then 1 else maxAttempts
    ensures forall i: Int64 :: 1 <= i < claims ==> pattern(i).FailsAt?
    ensures r.Success? <==> pattern(claims).Done?
    ensures r.Success? <==> row'.processing == Completed
    ensures r.Exhausted? <==> row'.processing == Failed
    ensures r.Exhausted? ==> claims == if maxAttempts < 1 then 1 else maxAttempts
    ensures !r.Cancelled?
  {
    var limit := AtLeastOne(maxAttempts);
    var m';
    row', m', r, claims := HandleWithRetry(ctx, row, m, WorkerHandler(pattern), maxAttempts);
    FailuresComeFirst(row, m, pattern, limit, claims);
    AttemptOutcome(row, m, pattern, limit, claims);
  }

  /** The same for every pattern, by the first success or the lack of one. */
  lemma WholeRunOutcome(row: Avatar, m: Message, pattern: Int64 -> Work, maxAttempts: Int64, k: nat)
    requires row.Claimable() && 1 <= k <= maxAttempts
    requires forall i: Int64 :: 1 <= i < k ==> pattern(i).FailsAt?
    requires pattern(k).FailsAt? ==> k == maxAttempts
    ensures var after := After(WorkerHandler(pattern), row, m, maxAttempts, k).0;
            && after.attempts == row.attempts + k
            && after.processing == (if pattern(k).Done? then Completed else Failed)
    ensures forall i :: 1 <= i < k ==> After(WorkerHandler(pattern), row, m, maxAttempts, i).0.processing == Pending
  {
    AttemptOutcome(row, m, pattern, maxAttempts, k);
    forall i | 1 <= i < k
      ensures After(WorkerHandler(pattern), row, m, maxAttempts, i).0.processing == Pending
    {
      AttemptOutcome(row, m, pattern, maxAttempts, i);
    }
  }
}
